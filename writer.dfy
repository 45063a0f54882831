/** The writers of uesave/__init__.py as they run: every `_write_*` helper and every `to_bytes`
    appends to one shared `bytearray`. Each method of `ByteArray` appends exactly the bytes the
    matching function of module Encode gives, or stops with the exception that function gives.
    Python keeps whatever was appended before an exception, so on failure the model says only that
    the old contents are still a prefix of the buffer. */
module Writer {
  import opened Bytes
  import opened Unicode
  import opened FString
  import opened Guid
  import opened Decimal
  import opened Properties
  import opened Encode
  import Header

  /** A write that `spec` describes went from `before` to `after` and reported `r`. */
  predicate Wrote(before: seq<byte>, after: seq<byte>, r: Outcome, spec: Result<seq<byte>>) {
    match spec
    case Ok(b) => r == Pass && after == before + b
    case Err(e) => r == Fail(e) && before <= after
  }

  /** Writing what is left after `w` has been written. */
  lemma PrependBytesAppend(w: seq<byte>, a: seq<byte>, r: Result<seq<byte>>)
    ensures PrependBytes(w, PrependBytes(a, r)) == PrependBytes(w + a, r)
  {
    if r.Ok? {
      assert w + (a + r.value) == (w + a) + r.value;
    }
  }

  /** Extending a buffer that holds `a + w` by `b`. */
  lemma Extended(a: seq<byte>, w: seq<byte>, b: seq<byte>)
    ensures a + w + b == a + (w + b)
    ensures a <= a + w
  {
  }

  lemma PrependBytesNil(r: Result<seq<byte>>)
    ensures PrependBytes([], r) == r
  {
    if r.Ok? {
      assert [] + r.value == r.value;
    }
  }

  /** One turn of the property loop: with `w` written for the first `i` properties, property `i`
      either fails the whole list or extends `w`. */
  lemma PropsBytesStep(ps: seq<Property>, i: nat, w: seq<byte>)
    requires i < |ps|
    requires PropsBytes(ps) == PrependBytes(w, PropsBytes(ps[i..]))
    ensures PropertyBytes(ps[i]).Err? ==> PropsBytes(ps) == Err(PropertyBytes(ps[i]).error)
    ensures PropertyBytes(ps[i]).Ok? ==>
      PropsBytes(ps) == PrependBytes(w + PropertyBytes(ps[i]).value, PropsBytes(ps[i + 1..]))
  {
    assert ps[i..][1..] == ps[i + 1..];
    if PropertyBytes(ps[i]).Ok? {
      PrependBytesAppend(w, PropertyBytes(ps[i]).value, PropsBytes(ps[i + 1..]));
    }
  }

  /** The property loop before the first and after the last turn. */
  lemma PropsBytesEnds(ps: seq<Property>, w: seq<byte>)
    ensures PropsBytes(ps) == PrependBytes([], PropsBytes(ps[0..]))
    ensures PropsBytes(ps) == PrependBytes(w, PropsBytes(ps[|ps|..])) ==> PropsBytes(ps) == Ok(w + [])
  {
    assert ps[0..] == ps;
    PrependBytesNil(PropsBytes(ps));
    assert ps[|ps|..] == [];
  }

  /** One turn of the custom-version loop of `_write_gvas_header`: with `w` written for the first
      `i` entries, entry `i` either fails the table or extends `w`. */
  lemma CustomVersionsBytesStep(cvs: seq<Header.CustomVersion>, i: nat, w: seq<byte>)
    requires i < |cvs|
    requires Header.CustomVersionsBytes(cvs) == PrependBytes(w, Header.CustomVersionsBytes(cvs[i..]))
    ensures Header.CustomVersionBytes(cvs[i]).Err? ==>
      Header.CustomVersionsBytes(cvs) == Err(Header.CustomVersionBytes(cvs[i]).error)
    ensures Header.CustomVersionBytes(cvs[i]).Ok? ==>
      Header.CustomVersionsBytes(cvs)
      == PrependBytes(w + Header.CustomVersionBytes(cvs[i]).value, Header.CustomVersionsBytes(cvs[i + 1..]))
  {
    assert cvs[i..][1..] == cvs[i + 1..];
    if Header.CustomVersionBytes(cvs[i]).Ok? {
      PrependBytesAppend(w, Header.CustomVersionBytes(cvs[i]).value, Header.CustomVersionsBytes(cvs[i + 1..]));
    }
  }

  /** The custom-version loop before the first and after the last turn. */
  lemma CustomVersionsBytesEnds(cvs: seq<Header.CustomVersion>, w: seq<byte>)
    ensures Header.CustomVersionsBytes(cvs) == PrependBytes([], Header.CustomVersionsBytes(cvs[0..]))
    ensures Header.CustomVersionsBytes(cvs) == PrependBytes(w, Header.CustomVersionsBytes(cvs[|cvs|..])) ==>
      Header.CustomVersionsBytes(cvs) == Ok(w + [])
  {
    assert cvs[0..] == cvs;
    PrependBytesNil(Header.CustomVersionsBytes(cvs));
    assert cvs[|cvs|..] == [];
  }

  /** The growing `bytearray`. */
  class ByteArray {
    var bytes: seq<byte>

    constructor ()
      ensures bytes == []
    {
      bytes := [];
    }

    /** `data.extend(b)`, and `data.append(x)` as `Extend([x])`. */
    method Extend(b: seq<byte>)
      modifies this
      ensures bytes == old(bytes) + b
    {
      bytes := bytes + b;
    }

    /** `_write_u32(data, v)`. */
    method WriteU32(v: int)
      modifies this
      ensures bytes == old(bytes) + U32Bytes(v)
    {
      Extend(U32Bytes(v));
    }

    /** `_write_u16(data, v)`. */
    method WriteU16(v: int)
      modifies this
      ensures bytes == old(bytes) + U16Bytes(v)
    {
      Extend(U16Bytes(v));
    }

    /** `_write_i32(data, v)`: `struct.error`, with nothing appended, outside the int32 range. */
    method WriteI32(v: int) returns (r: Outcome)
      modifies this
      ensures Wrote(old(bytes), bytes, r, I32Bytes(v))
      ensures r.Fail? ==> r == Fail(StructError) && bytes == old(bytes)
    {
      var b := I32Bytes(v);
      if b.Err? {
        return Fail(StructError);
      }
      Extend(b.value);
      return Pass;
    }

    /** `_write_string(data, s)`: a zero length for "", otherwise the length `len(s) + 1`, the
        UTF-8 bytes and a NUL. A length that does not fit fails before anything is appended. */
    method WriteString(s: string) returns (r: Outcome)
      modifies this
      ensures Wrote(old(bytes), bytes, r, StringBytes(s))
      ensures r.Fail? ==> bytes == old(bytes)
    {
      if s == "" {
        I32BytesZero();
        r := WriteI32(0);
        return;
      }
      r := WriteI32(|s| + 1);
      if r.Fail? {
        return;
      }
      ghost var prefix := I32Bytes(|s| + 1).value;
      Extend(Utf8Encode(s));
      Extended(old(bytes), prefix, Utf8Encode(s));
      Extend([0]);
      Extended(old(bytes), prefix + Utf8Encode(s), [0]);
    }

    /** `_write_guid(data, guid)`: the text is parsed before anything is appended, then exactly
        16 bytes go out. */
    method WriteGuid(guid: string)
      modifies this
      ensures bytes == old(bytes) + GuidBytes(guid)
      ensures |bytes| == |old(bytes)| + 16
    {
      Extend(GuidBytes(guid));
    }

    /** `_write_property(data, prop)`. */
    method WriteProperty(p: Property) returns (r: Outcome)
      modifies this
      ensures Wrote(old(bytes), bytes, r, PropertyBytes(p))
      decreases p, 2
    {
      r := WriteString(p.name);
      if r.Fail? {
        return;
      }
      ghost var w := StringBytes(p.name).value;
      ClassNameBytes(ClassOf(p));
      var _ := WriteString(ClassName(p));
      Extended(old(bytes), w, StringBytes(ClassName(p)).value);
      w := w + StringBytes(ClassName(p)).value;
      WriteU32(SizeField(p));
      Extended(old(bytes), w, U32Bytes(SizeField(p)));
      w := w + U32Bytes(SizeField(p));
      WriteU32(p.tag);
      Extended(old(bytes), w, U32Bytes(p.tag));
      w := w + U32Bytes(p.tag);
      ghost var body := BodyBytes(p);
      Extended(old(bytes), w, if body.Ok? then body.value else []);
      r := WriteBody(p);
    }

    /** `prop.to_bytes(data)`, dispatched on the class. */
    method WriteBody(p: Property) returns (r: Outcome)
      modifies this
      ensures Wrote(old(bytes), bytes, r, BodyBytes(p))
      decreases p, 1
    {
      match p
      case ArrayProperty(_, _, _, _, _, _) => r := WriteArrayBody(p);
      case BoolProperty(_, _, _, _) => r := WriteBoolBody(p);
      case ByteProperty(_, _, _, _, _) => r := WriteByteBody(p);
      case DoubleProperty(_, _, _, _) => r := WritePayloadBody(p);
      case FloatProperty(_, _, _, _) => r := WritePayloadBody(p);
      case Int64Property(_, _, _, _) => r := WriteInt64Body(p);
      case IntProperty(_, _, _, _, _) => r := WriteIntBody(p);
      case MapProperty(_, _, _, _, _, _, _) => r := WriteMapBody(p);
      case NameProperty(_, _, _, _) => r := WriteTextBody(p);
      case ObjectProperty(_, _, _, _) => r := WriteTextBody(p);
      case StrProperty(_, _, _, _) => r := WriteTextBody(p);
      case StructProperty(_, _, _, _, _, _) => r := WriteStructBody(p);
      case TextProperty(_, _, _, _) => r := WriteRawTextBody(p);
      case UInt64Property(_, _, _, _) => r := WriteUInt64Body(p);
    }

    /** `BoolProperty.to_bytes`: the flag byte, then a zero byte. */
    method WriteBoolBody(p: Property) returns (r: Outcome)
      requires p.BoolProperty?
      modifies this
      ensures Wrote(old(bytes), bytes, r, BodyBytes(p))
    {
      Extend([if p.flag then 1 else 0]);
      Extend([0]);
      Extended(old(bytes), [if p.flag then 1 else 0], [0]);
      r := Pass;
    }

    /** `ByteProperty.to_bytes`: a zero byte, then the value. */
    method WriteByteBody(p: Property) returns (r: Outcome)
      requires p.ByteProperty?
      modifies this
      ensures Wrote(old(bytes), bytes, r, BodyBytes(p))
    {
      Extend([0]);
      ghost var b := ByteValueBytes(p.size, p.byteValue);
      Extended(old(bytes), [0], if b.Ok? then b.value else []);
      r := WriteByteValue(p.size, p.byteValue);
    }

    /** `DoubleProperty.to_bytes` and `FloatProperty.to_bytes`: the packed value. */
    method WritePayloadBody(p: Property) returns (r: Outcome)
      requires p.DoubleProperty? || p.FloatProperty?
      modifies this
      ensures Wrote(old(bytes), bytes, r, BodyBytes(p))
    {
      Extend(p.payload);
      r := Pass;
    }

    /** `Int64Property.to_bytes`: `struct.pack('<q', v)`. */
    method WriteInt64Body(p: Property) returns (r: Outcome)
      requires p.Int64Property?
      modifies this
      ensures Wrote(old(bytes), bytes, r, BodyBytes(p))
    {
      var b := I64Bytes(p.i64);
      if b.Err? {
        return Fail(b.error);
      }
      Extend(b.value);
      r := Pass;
    }

    /** `IntProperty.to_bytes`: the int32, then the int tag byte. */
    method WriteIntBody(p: Property) returns (r: Outcome)
      requires p.IntProperty?
      modifies this
      ensures Wrote(old(bytes), bytes, r, BodyBytes(p))
    {
      r := WriteI32(p.i32);
      if r.Fail? {
        return;
      }
      Extend([p.intTag]);
      Extended(old(bytes), I32Bytes(p.i32).value, [p.intTag]);
    }

    /** `NameProperty.to_bytes`, `ObjectProperty.to_bytes`, `StrProperty.to_bytes`: a zero byte, then
        the FString. */
    method WriteTextBody(p: Property) returns (r: Outcome)
      requires p.NameProperty? || p.ObjectProperty? || p.StrProperty?
      modifies this
      ensures Wrote(old(bytes), bytes, r, BodyBytes(p))
    {
      Extend([0]);
      ghost var b := StringBytes(p.text);
      Extended(old(bytes), [0], if b.Ok? then b.value else []);
      r := WriteString(p.text);
    }

    /** `TextProperty.to_bytes`: the raw bytes, then a zero byte. */
    method WriteRawTextBody(p: Property) returns (r: Outcome)
      requires p.TextProperty?
      modifies this
      ensures Wrote(old(bytes), bytes, r, BodyBytes(p))
    {
      Extend(p.bytes);
      Extend([0]);
      Extended(old(bytes), p.bytes, [0]);
      r := Pass;
    }

    /** `UInt64Property.to_bytes`: `struct.pack('<Q', v)`. */
    method WriteUInt64Body(p: Property) returns (r: Outcome)
      requires p.UInt64Property?
      modifies this
      ensures Wrote(old(bytes), bytes, r, BodyBytes(p))
    {
      var b := U64Bytes(p.u64);
      if b.Err? {
        return Fail(b.error);
      }
      Extend(b.value);
      r := Pass;
    }

    /** The value of `ByteProperty.to_bytes`, after its leading zero byte. */
    method WriteByteValue(size: int, value: ByteValue) returns (r: Outcome)
      modifies this
      ensures Wrote(old(bytes), bytes, r, ByteValueBytes(size, value))
    {
      if size == 1 {
        match value
        case ByteNum(n) =>
          Extend([n % 256]);
          r := Pass;
        case ByteName(w) =>
          var n := IntOfText(w);
          if n.Err? {
            return Fail(n.error);
          }
          Extend([n.value % 256]);
          r := Pass;
      } else {
        match value
        case ByteNum(n) =>
          r := WriteString(IntToString(n));
        case ByteName(w) =>
          r := WriteString(w);
      }
    }

    /** `MapProperty.to_bytes`. */
    method WriteMapBody(p: Property) returns (r: Outcome)
      requires p.MapProperty?
      modifies this
      ensures Wrote(old(bytes), bytes, r, BodyBytes(p))
    {
      r := WriteString(p.keyType);
      if r.Fail? {
        return;
      }
      r := WriteString(p.valueType);
      if r.Fail? {
        return;
      }
      ghost var w := StringBytes(p.keyType).value + StringBytes(p.valueType).value;
      Extended(old(bytes), StringBytes(p.keyType).value, StringBytes(p.valueType).value);
      Extend([0]);
      Extended(old(bytes), w, [0]);
      w := w + [0];
      WriteU32(p.mapSize);
      Extended(old(bytes), w, U32Bytes(p.mapSize));
      w := w + U32Bytes(p.mapSize);
      Extend(p.raw);
      Extended(old(bytes), w, p.raw);
      w := w + p.raw;
      Extend([0]);
      Extended(old(bytes), w, [0]);
    }

    /** `ArrayProperty.to_bytes`: the inner type, a zero byte, the count as int32, the values. */
    method WriteArrayBody(p: Property) returns (r: Outcome)
      requires p.ArrayProperty?
      modifies this
      ensures Wrote(old(bytes), bytes, r, BodyBytes(p))
      decreases p, 0
    {
      r := WriteString(p.innerType);
      if r.Fail? {
        return;
      }
      ghost var w := StringBytes(p.innerType).value;
      Extend([0]);
      Extended(old(bytes), w, [0]);
      w := w + [0];
      r := WriteI32(p.arraySize);
      if r.Fail? {
        return;
      }
      Extended(old(bytes), w, I32Bytes(p.arraySize).value);
      w := w + I32Bytes(p.arraySize).value;
      ghost var v := ArrayValuesBytes(p.innerType, p.values);
      Extended(old(bytes), w, if v.Ok? then v.value else []);
      r := WriteArrayValues(p.innerType, p.values);
    }

    /** `StructProperty.to_bytes`: the struct type, the GUID (zeros for none), a zero byte, the
        fields. */
    method WriteStructBody(p: Property) returns (r: Outcome)
      requires p.StructProperty?
      modifies this
      ensures Wrote(old(bytes), bytes, r, BodyBytes(p))
      decreases p, 0
    {
      r := WriteString(p.structType);
      if r.Fail? {
        return;
      }
      ghost var w := StringBytes(p.structType).value;
      WriteGuid(p.guid);
      Extended(old(bytes), w, GuidBytes(p.guid));
      w := w + GuidBytes(p.guid);
      Extend([0]);
      Extended(old(bytes), w, [0]);
      w := w + [0];
      ghost var f := StructFieldsBytes(p.structType, p.fields);
      Extended(old(bytes), w, if f.Ok? then f.value else []);
      r := WriteStructFields(p.structType, p.fields);
    }

    /** The fields of `StructProperty.to_bytes`: for Quat and Vector the asserts and then the
        payload loop; for any other struct the property loop and, for a non-empty struct, "None". */
    method WriteStructFields(stype: string, fields: seq<Property>) returns (r: Outcome)
      modifies this
      ensures Wrote(old(bytes), bytes, r, StructFieldsBytes(stype, fields))
      decreases fields, 1
    {
      if stype == "Quat" || stype == "Vector" {
        var count := Check(|fields| == if stype == "Quat" then 4 else 3);
        if count.Err? {
          return Fail(count.error);
        }
        var floats := Check(AllFloats(fields));
        if floats.Err? {
          return Fail(floats.error);
        }
        WriteFloatPayloads(fields);
        return Pass;
      }
      r := WriteProps(fields);
      if r.Fail? {
        return;
      }
      if |fields| > 0 {
        NoneStringBytes();
        Extended(old(bytes), PropsBytes(fields).value, NONE_BYTES);
        r := WriteString("None");
      } else {
        assert bytes == old(bytes) + [];
      }
    }

    /** `for field in fields: data.extend(struct.pack('<f', float(field.value)))`. */
    method WriteFloatPayloads(fields: seq<Property>)
      requires AllFloats(fields)
      modifies this
      ensures bytes == old(bytes) + FloatPayloads(fields)
    {
      ghost var w: seq<byte> := [];
      for i := 0 to |fields|
        invariant bytes == old(bytes) + w
        invariant FloatPayloads(fields) == w + FloatPayloads(fields[i..])
      {
        assert fields[i..][1..] == fields[i + 1..];
        Extend(fields[i].payload);
        Extended(old(bytes), w, fields[i].payload);
        w := w + fields[i].payload;
      }
      assert fields[|fields|..] == [];
    }

    /** `for prop in props: _write_property(data, prop)`. */
    method WriteProps(ps: seq<Property>) returns (r: Outcome)
      modifies this
      ensures Wrote(old(bytes), bytes, r, PropsBytes(ps))
      decreases ps, 0
    {
      ghost var w: seq<byte> := [];
      r := Pass;
      PropsBytesEnds(ps, w);
      for i := 0 to |ps|
        invariant bytes == old(bytes) + w
        invariant PropsBytes(ps) == PrependBytes(w, PropsBytes(ps[i..]))
      {
        PropsBytesStep(ps, i, w);
        ghost var b := PropertyBytes(ps[i]);
        Extended(old(bytes), w, if b.Ok? then b.value else []);
        var step := WriteProperty(ps[i]);
        if step.Fail? {
          return step;
        }
        w := w + b.value;
      }
      PropsBytesEnds(ps, w);
      assert w + [] == w;
    }

    /** `_write_properties(data, props)`. */
    method WriteProperties(ps: seq<Property>) returns (r: Outcome)
      modifies this
      ensures Wrote(old(bytes), bytes, r, PropertiesBytes(ps))
    {
      r := WriteProps(ps);
      if r.Fail? {
        return;
      }
      NoneStringBytes();
      Extended(old(bytes), PropsBytes(ps).value, NONE_BYTES);
      r := WriteString("None");
    }

    /** The values of `ArrayProperty.to_bytes`, by inner type. */
    method WriteArrayValues(inner: string, values: ArrayValues) returns (r: Outcome)
      modifies this
      ensures Wrote(old(bytes), bytes, r, ArrayValuesBytes(inner, values))
      decreases values, 1
    {
      var cls := LookupClass(inner);
      if cls == Some(ByteClass) {
        r := WriteByteArray(values);
      } else if cls == Some(StrClass) || cls == Some(NameClass) {
        r := WriteStrArray(values);
      } else if cls == Some(IntClass) {
        r := WriteIntArray(values);
      } else if cls == Some(StructClass) {
        r := WriteStructArray(values);
      } else if cls == Some(FloatClass) {
        r := WriteFloatArray(values);
      } else {
        match values
        case ByteValues(b) =>
          Extend(b);
          r := Pass;
        case _ =>
          r := Fail(NotImplementedError("ArrayProperty inner_type " + inner + " serialization not implemented"));
      }
    }

    /** A byte array: a byte string as it is, otherwise one extend of `int(v) & 0xFF` for each
        value, which `bytearray.extend` computes in full before appending. */
    method WriteByteArray(values: ArrayValues) returns (r: Outcome)
      modifies this
      ensures Wrote(old(bytes), bytes, r, ByteArrayBytes(values))
    {
      match values
      case ByteValues(b) =>
        Extend(b);
        r := Pass;
      case IntValues(xs) =>
        Extend(MaskedBytes(xs));
        r := Pass;
      case StrValues(ss) =>
        var xs := IntsOfTexts(ss);
        if xs.Err? {
          return Fail(xs.error);
        }
        Extend(MaskedBytes(xs.value));
        r := Pass;
      case PropValues(ps) =>
        r := if ps == [] then Pass else Fail(TypeError);
        assert bytes == old(bytes) + [];
      case FloatValues(fs) =>
        r := if fs == [] then Pass else Fail(Unconverted);
        assert bytes == old(bytes) + [];
    }

    /** A string or name array: `_write_string(data, str(v))` for each value. */
    method WriteStrArray(values: ArrayValues) returns (r: Outcome)
      modifies this
      ensures Wrote(old(bytes), bytes, r, StrArrayBytes(values))
    {
      match values
      case ByteValues(b) =>
        r := WriteStrings(DecimalTexts(b));
      case IntValues(xs) =>
        r := WriteStrings(DecimalTexts(xs));
      case StrValues(ss) =>
        r := WriteStrings(ss);
      case PropValues(ps) =>
        r := if ps == [] then Pass else Fail(Unconverted);
        assert bytes == old(bytes) + [];
      case FloatValues(fs) =>
        r := if fs == [] then Pass else Fail(Unconverted);
        assert bytes == old(bytes) + [];
    }

    /** An int array: `_write_i32(data, int(v))` for each value. */
    method WriteIntArray(values: ArrayValues) returns (r: Outcome)
      modifies this
      ensures Wrote(old(bytes), bytes, r, IntArrayBytes(values))
    {
      match values
      case ByteValues(b) =>
        r := WriteI32s(b);
      case IntValues(xs) =>
        r := WriteI32s(xs);
      case StrValues(ss) =>
        var xs := IntsOfTexts(ss);
        if xs.Err? {
          return Fail(xs.error);
        }
        r := WriteI32s(xs.value);
      case PropValues(ps) =>
        r := if ps == [] then Pass else Fail(TypeError);
        assert bytes == old(bytes) + [];
      case FloatValues(fs) =>
        r := if fs == [] then Pass else Fail(Unconverted);
        assert bytes == old(bytes) + [];
    }

    /** A struct array: each element as a property, then "None". */
    method WriteStructArray(values: ArrayValues) returns (r: Outcome)
      modifies this
      ensures Wrote(old(bytes), bytes, r, StructArrayBytes(values))
      decreases values, 0
    {
      NoneStringBytes();
      match values
      case PropValues(ps) =>
        r := WriteProps(ps);
        if r.Fail? {
          return;
        }
        Extended(old(bytes), PropsBytes(ps).value, NONE_BYTES);
        r := WriteString("None");
      case _ =>
        if ValuesCount(values) == 0 {
          r := WriteString("None");
        } else {
          r := Fail(AttributeError);
        }
    }

    /** A float array: the payloads one after another. */
    method WriteFloatArray(values: ArrayValues) returns (r: Outcome)
      modifies this
      ensures Wrote(old(bytes), bytes, r, FloatArrayBytes(values))
    {
      match values
      case FloatValues(fs) =>
        WriteFloats(fs);
        r := Pass;
      case PropValues(ps) =>
        r := if ps == [] then Pass else Fail(TypeError);
        assert bytes == old(bytes) + [];
      case _ =>
        r := if ValuesCount(values) == 0 then Pass else Fail(Unconverted);
        assert bytes == old(bytes) + [];
    }

    /** `for v in values: _write_string(data, str(v))`. */
    method WriteStrings(ss: seq<string>) returns (r: Outcome)
      modifies this
      ensures Wrote(old(bytes), bytes, r, StringsBytes(ss))
    {
      ghost var w: seq<byte> := [];
      r := Pass;
      assert ss[0..] == ss;
      PrependBytesNil(StringsBytes(ss));
      for i := 0 to |ss|
        invariant bytes == old(bytes) + w
        invariant StringsBytes(ss) == PrependBytes(w, StringsBytes(ss[i..]))
      {
        assert ss[i..][1..] == ss[i + 1..];
        ghost var b := StringBytes(ss[i]);
        Extended(old(bytes), w, if b.Ok? then b.value else []);
        var step := WriteString(ss[i]);
        if step.Fail? {
          return step;
        }
        PrependBytesAppend(w, b.value, StringsBytes(ss[i + 1..]));
        w := w + b.value;
      }
      assert ss[|ss|..] == [];
    }

    /** `for v in values: _write_i32(data, int(v))`. */
    method WriteI32s(xs: seq<int>) returns (r: Outcome)
      modifies this
      ensures Wrote(old(bytes), bytes, r, I32sBytes(xs))
    {
      ghost var w: seq<byte> := [];
      r := Pass;
      assert xs[0..] == xs;
      PrependBytesNil(I32sBytes(xs));
      for i := 0 to |xs|
        invariant bytes == old(bytes) + w
        invariant I32sBytes(xs) == PrependBytes(w, I32sBytes(xs[i..]))
      {
        assert xs[i..][1..] == xs[i + 1..];
        ghost var b := I32Bytes(xs[i]);
        Extended(old(bytes), w, if b.Ok? then b.value else []);
        var step := WriteI32(xs[i]);
        if step.Fail? {
          return step;
        }
        PrependBytesAppend(w, b.value, I32sBytes(xs[i + 1..]));
        w := w + b.value;
      }
      assert xs[|xs|..] == [];
    }

    /** `for v in values: data.extend(struct.pack('<f', float(v)))`. */
    method WriteFloats(fs: seq<seq<byte>>)
      modifies this
      ensures bytes == old(bytes) + Concat(fs)
    {
      ghost var w: seq<byte> := [];
      for i := 0 to |fs|
        invariant bytes == old(bytes) + w
        invariant Concat(fs) == w + Concat(fs[i..])
      {
        assert fs[i..][1..] == fs[i + 1..];
        Extend(fs[i]);
        Extended(old(bytes), w, fs[i]);
        w := w + fs[i];
      }
      assert fs[|fs|..] == [];
    }

    /** The file versions of `_write_gvas_header`: the UE4 and UE5 versions (asserting the UE5 key
        is there) when the UE4 key is, otherwise `package_file_version`. */
    method WriteFileVersions(v: Header.FileVersions) returns (r: Outcome)
      modifies this
      ensures Wrote(old(bytes), bytes, r, Header.FileVersionBytes(v))
    {
      if v.ue4.Some? {
        if v.ue5.None? {
          return Fail(AssertionError);
        }
        r := WriteI32(v.ue4.value);
        if r.Fail? {
          return;
        }
        ghost var w := I32Bytes(v.ue4.value).value;
        r := WriteI32(v.ue5.value);
        Extended(old(bytes), w, if r.Pass? then I32Bytes(v.ue5.value).value else []);
      } else if v.package.None? {
        return Fail(KeyError("package_file_version"));
      } else {
        r := WriteI32(v.package.value);
      }
    }

    /** The engine version of `_write_gvas_header`: major, minor and patch as u16, the changelist
        as u32, the branch as an FString. */
    method WriteEngineVersion(e: Header.EngineVersion) returns (r: Outcome)
      modifies this
      ensures Wrote(old(bytes), bytes, r, Header.EngineBytes(e))
    {
      WriteU16(e.major);
      WriteU16(e.minor);
      Extended(old(bytes), U16Bytes(e.major), U16Bytes(e.minor));
      ghost var w := U16Bytes(e.major) + U16Bytes(e.minor);
      WriteU16(e.patch);
      Extended(old(bytes), w, U16Bytes(e.patch));
      w := w + U16Bytes(e.patch);
      WriteU32(e.changelist);
      Extended(old(bytes), w, U32Bytes(e.changelist));
      w := w + U32Bytes(e.changelist);
      ghost var br := StringBytes(e.branch);
      Extended(old(bytes), w, if br.Ok? then br.value else []);
      r := WriteString(e.branch);
    }

    /** One entry of the custom-version loop: `_write_guid(data, entry['guid'])`, then
        `_write_i32(data, entry['version'])`. */
    method WriteCustomVersion(cv: Header.CustomVersion) returns (r: Outcome)
      modifies this
      ensures Wrote(old(bytes), bytes, r, Header.CustomVersionBytes(cv))
    {
      WriteGuid(cv.guid);
      ghost var v := I32Bytes(cv.version);
      Extended(old(bytes), GuidBytes(cv.guid), if v.Ok? then v.value else []);
      r := WriteI32(cv.version);
    }

    /** `for entry in custom_versions: ...`, one entry after another. */
    method WriteCustomVersions(cvs: seq<Header.CustomVersion>) returns (r: Outcome)
      modifies this
      ensures Wrote(old(bytes), bytes, r, Header.CustomVersionsBytes(cvs))
    {
      ghost var w: seq<byte> := [];
      r := Pass;
      CustomVersionsBytesEnds(cvs, w);
      for i := 0 to |cvs|
        invariant bytes == old(bytes) + w
        invariant Header.CustomVersionsBytes(cvs) == PrependBytes(w, Header.CustomVersionsBytes(cvs[i..]))
      {
        CustomVersionsBytesStep(cvs, i, w);
        ghost var b := Header.CustomVersionBytes(cvs[i]);
        Extended(old(bytes), w, if b.Ok? then b.value else []);
        var step := WriteCustomVersion(cvs[i]);
        if step.Fail? {
          return step;
        }
        w := w + b.value;
      }
      CustomVersionsBytesEnds(cvs, w);
      assert w + [] == w;
    }

    /** `_write_gvas_header(data, header)`: the magic, the save-game version, the file and engine
        versions, the custom-version table and the class name, or the first exception raised. */
    method WriteGvasHeader(h: Header.Header) returns (r: Outcome)
      modifies this
      ensures Wrote(old(bytes), bytes, r, Header.HeaderBytes(h))
    {
      Extend(Header.MAGIC);
      ghost var w := Header.MAGIC;
      r := WriteI32(h.saveGameVersion);
      if r.Fail? {
        return;
      }
      Extended(old(bytes), w, I32Bytes(h.saveGameVersion).value);
      w := w + I32Bytes(h.saveGameVersion).value;
      r := WriteFileVersions(h.versions);
      if r.Fail? {
        return;
      }
      Extended(old(bytes), w, Header.FileVersionBytes(h.versions).value);
      w := w + Header.FileVersionBytes(h.versions).value;
      r := WriteEngineVersion(h.engine);
      if r.Fail? {
        return;
      }
      Extended(old(bytes), w, Header.EngineBytes(h.engine).value);
      w := w + Header.EngineBytes(h.engine).value;
      r := WriteI32(h.customFormat);
      if r.Fail? {
        return;
      }
      Extended(old(bytes), w, I32Bytes(h.customFormat).value);
      w := w + I32Bytes(h.customFormat).value;
      r := WriteI32(|h.customVersions|);
      if r.Fail? {
        return;
      }
      Extended(old(bytes), w, I32Bytes(|h.customVersions|).value);
      w := w + I32Bytes(|h.customVersions|).value;
      r := WriteCustomVersions(h.customVersions);
      if r.Fail? {
        return;
      }
      Extended(old(bytes), w, Header.CustomVersionsBytes(h.customVersions).value);
      w := w + Header.CustomVersionsBytes(h.customVersions).value;
      ghost var cls := StringBytes(h.className);
      Extended(old(bytes), w, if cls.Ok? then cls.value else []);
      r := WriteString(h.className);
    }
  }
}
