/** The property encoder of uesave/__init__.py as functions: the bytes `_write_property`, each
    class's `to_bytes` and `_write_properties` append, or the exception they raise. The writer
    class in module Writer appends these bytes step by step. */
module Encode {
  import opened Bytes
  import opened Unicode
  import opened FString
  import opened Guid
  import opened Decimal
  import opened Properties

  /** `_write_string(data, "None")`: the terminator of a property list. */
  const NONE_BYTES: seq<byte> := [5, 0, 0, 0, 78, 111, 110, 101, 0]

  /** `_write_property(data, prop)`: the name and class-name FStrings, `prop.size` and `prop.tag`
      as u32 (masked, so they never fail), then the class's `to_bytes`. */
  function PropertyBytes(p: Property): (r: Result<seq<byte>>)
    ensures r.Ok? <==> |p.name| < I32_MAX && BodyBytes(p).Ok?
    decreases p, 2
  {
    ClassNameBytes(ClassOf(p));
    var n :- StringBytes(p.name);
    var t := StringBytes(ClassName(p)).value;
    var body :- BodyBytes(p);
    Ok(n + t + U32Bytes(SizeField(p)) + U32Bytes(p.tag) + body)
  }

  /** Every class name is short, so writing it never fails. */
  lemma ClassNameBytes(c: PropertyClass)
    ensures StringBytes(TypeName(c)).Ok?
  {
    assert |TypeName(c)| <= 14;
  }

  /** `prop.to_bytes(data)` for each class. */
  function BodyBytes(p: Property): (r: Result<seq<byte>>)
    decreases p, 1
  {
    match p
    case ArrayProperty(_, _, _, inner, count, values) =>
      var i :- StringBytes(inner);
      var c :- I32Bytes(count);
      var v :- ArrayValuesBytes(inner, values);
      Ok(i + [0] + c + v)
    case BoolProperty(_, _, _, flag) => Ok([if flag then 1 else 0, 0])
    case ByteProperty(_, _, size, _, value) => PrependBytes([0], ByteValueBytes(size, value))
    case DoubleProperty(_, _, _, payload) => Ok(payload)
    case FloatProperty(_, _, _, payload) => Ok(payload)
    case Int64Property(_, _, _, v) => I64Bytes(v)
    case IntProperty(_, _, _, v, intTag) =>
      var b :- I32Bytes(v);
      Ok(b + [intTag])
    case MapProperty(_, _, _, keyType, valueType, count, raw) =>
      var k :- StringBytes(keyType);
      var v :- StringBytes(valueType);
      Ok(k + v + [0] + U32Bytes(count) + raw + [0])
    case NameProperty(_, _, _, text) => PrependBytes([0], StringBytes(text))
    case ObjectProperty(_, _, _, text) => PrependBytes([0], StringBytes(text))
    case StrProperty(_, _, _, text) => PrependBytes([0], StringBytes(text))
    case StructProperty(_, _, _, stype, guid, fields) =>
      var t :- StringBytes(stype);
      var f :- StructFieldsBytes(stype, fields);
      Ok(t + GuidBytes(guid) + [0] + f)
    case TextProperty(_, _, _, bytes) => Ok(bytes + [0])
    case UInt64Property(_, _, _, v) => U64Bytes(v)
  }

  /** The value part of `ByteProperty.to_bytes`: for declared size 1 the single byte
      `int(value) & 0xFF`, otherwise the FString `str(value)`. The enum-name FString the reader
      expects first is not written. */
  function ByteValueBytes(size: int, value: ByteValue): (r: Result<seq<byte>>)
    ensures size == 1 && value.ByteNum? ==> r == Ok([value.num % 256])
    ensures size != 1 && value.ByteName? ==> r == StringBytes(value.word)
    ensures size != 1 && value.ByteNum? ==> r == StringBytes(IntToString(value.num))
    ensures size == 1 && value.ByteName? ==> (r.Ok? <==> ParseInt(value.word).Some?)
  {
    if size == 1 then
      match value
      case ByteNum(n) => Ok([n % 256])
      case ByteName(w) =>
        var n :- IntOfText(w);
        Ok([n % 256])
    else
      match value
      case ByteNum(n) => StringBytes(IntToString(n))
      case ByteName(w) => StringBytes(w)
  }

  /** The fields of `StructProperty.to_bytes`: a Quat must hold four and a Vector three
      `FloatProperty` fields, written as their payloads; any other struct writes each field as a
      property and then "None", but only when there is at least one field. */
  function StructFieldsBytes(stype: string, fields: seq<Property>): (r: Result<seq<byte>>)
    ensures stype == "Quat" ==> (r.Ok? <==> |fields| == 4 && AllFloats(fields))
    ensures stype == "Vector" ==> (r.Ok? <==> |fields| == 3 && AllFloats(fields))
    ensures (stype == "Quat" || stype == "Vector") && r.Ok? ==> r.value == FloatPayloads(fields)
    ensures stype != "Quat" && stype != "Vector" && fields == [] ==> r == Ok([])
    ensures stype != "Quat" && stype != "Vector" && fields != [] ==>
      (r.Ok? <==> PropsBytes(fields).Ok?) && (r.Ok? ==> r.value == PropsBytes(fields).value + NONE_BYTES)
    decreases fields, 1
  {
    if stype == "Quat" || stype == "Vector" then
      var _ :- Check(|fields| == if stype == "Quat" then 4 else 3);
      var _ :- Check(AllFloats(fields));
      Ok(FloatPayloads(fields))
    else
      var b :- PropsBytes(fields);
      assert b + [] == b;
      Ok(b + if |fields| > 0 then NONE_BYTES else [])
  }

  predicate AllFloats(fields: seq<Property>) {
    forall i :: 0 <= i < |fields| ==> fields[i].FloatProperty?
  }

  /** `struct.pack('<f', float(field.value))` for each field: the payloads one after another. */
  function FloatPayloads(fields: seq<Property>): (bs: seq<byte>)
    requires AllFloats(fields)
  {
    if fields == [] then [] else fields[0].payload + FloatPayloads(fields[1..])
  }

  /** `for prop in props: _write_property(data, prop)`: stops at the first exception. */
  function PropsBytes(ps: seq<Property>): (r: Result<seq<byte>>)
    ensures ps == [] ==> r == Ok([])
    ensures r.Ok? <==> forall i :: 0 <= i < |ps| ==> PropertyBytes(ps[i]).Ok?
    decreases ps, 0
  {
    if ps == [] then Ok([])
    else
      var a :- PropertyBytes(ps[0]);
      var r := PrependBytes(a, PropsBytes(ps[1..]));
      assert forall i :: 1 <= i < |ps| ==> ps[i] == ps[1..][i - 1];
      r
  }

  /** `_write_properties(data, props)`: each property, then "None". */
  function PropertiesBytes(ps: seq<Property>): (r: Result<seq<byte>>)
    ensures r.Ok? <==> PropsBytes(ps).Ok?
    ensures r.Ok? ==> r.value == PropsBytes(ps).value + NONE_BYTES
  {
    var b :- PropsBytes(ps);
    Ok(b + NONE_BYTES)
  }

  // ---------------------------------------------------------------------------------------------
  // ArrayProperty.to_bytes

  /** The values of `ArrayProperty.to_bytes`, by inner type. Byte arrays write a byte string as it
      is and other values as `int(v) & 0xFF`; string and name arrays write `str(v)` FStrings; int
      arrays `int(v)` as int32; struct arrays each property then "None"; float arrays the payloads;
      any other inner type only a byte string, else `NotImplementedError`. */
  function ArrayValuesBytes(inner: string, values: ArrayValues): (r: Result<seq<byte>>)
    ensures LookupClass(inner) == Some(ByteClass) && values.ByteValues? ==> r == Ok(values.bytes)
    ensures LookupClass(inner) == Some(ByteClass) && values.IntValues? ==> r == Ok(MaskedBytes(values.ints))
    ensures (LookupClass(inner) == Some(StrClass) || LookupClass(inner) == Some(NameClass)) && values.StrValues? ==>
      r == StringsBytes(values.strs)
    ensures LookupClass(inner) == Some(IntClass) && values.IntValues? ==> r == I32sBytes(values.ints)
    ensures LookupClass(inner) == Some(StructClass) && values.PropValues? ==>
      (r.Ok? <==> PropsBytes(values.props).Ok?) && (r.Ok? ==> r.value == PropsBytes(values.props).value + NONE_BYTES)
    ensures LookupClass(inner) == Some(FloatClass) && values.FloatValues? ==> r == Ok(Concat(values.floats))
    ensures !IsArrayCodecInner(inner) ==>
      r == if values.ByteValues? then Ok(values.bytes)
           else Err(NotImplementedError("ArrayProperty inner_type " + inner + " serialization not implemented"))
    decreases values, 1
  {
    var cls := LookupClass(inner);
    if cls == Some(ByteClass) then ByteArrayBytes(values)
    else if cls == Some(StrClass) || cls == Some(NameClass) then StrArrayBytes(values)
    else if cls == Some(IntClass) then IntArrayBytes(values)
    else if cls == Some(StructClass) then StructArrayBytes(values)
    else if cls == Some(FloatClass) then FloatArrayBytes(values)
    else
      match values
      case ByteValues(b) => Ok(b)
      case _ => Err(NotImplementedError("ArrayProperty inner_type " + inner + " serialization not implemented"))
  }

  /** A byte array: a byte string as it is, other values as `int(v) & 0xFF`. `int()` of a property
      raises `TypeError`. */
  function ByteArrayBytes(values: ArrayValues): (r: Result<seq<byte>>)
    ensures values.ByteValues? ==> r == Ok(values.bytes)
    ensures values.IntValues? ==> r == Ok(MaskedBytes(values.ints))
    ensures values.StrValues? ==> (r.Ok? <==> forall i :: 0 <= i < |values.strs| ==> ParseInt(values.strs[i]).Some?)
    ensures values.PropValues? ==> (r.Ok? <==> values.props == [])
  {
    match values
    case ByteValues(b) => Ok(b)
    case IntValues(xs) => Ok(MaskedBytes(xs))
    case StrValues(ss) =>
      var xs :- IntsOfTexts(ss);
      Ok(MaskedBytes(xs))
    case PropValues(ps) => if ps == [] then Ok([]) else Err(TypeError)
    case FloatValues(fs) => if fs == [] then Ok([]) else Err(Unconverted)
  }

  /** A string or name array: the FString of `str(v)` for each value. */
  function StrArrayBytes(values: ArrayValues): (r: Result<seq<byte>>)
    ensures values.StrValues? ==> r == StringsBytes(values.strs)
    ensures values.IntValues? ==> r == StringsBytes(DecimalTexts(values.ints))
  {
    match values
    case ByteValues(b) => StringsBytes(DecimalTexts(b))
    case IntValues(xs) => StringsBytes(DecimalTexts(xs))
    case StrValues(ss) => StringsBytes(ss)
    case PropValues(ps) => if ps == [] then Ok([]) else Err(Unconverted)
    case FloatValues(fs) => if fs == [] then Ok([]) else Err(Unconverted)
  }

  /** An int array: the int32 of `int(v)` for each value. */
  function IntArrayBytes(values: ArrayValues): (r: Result<seq<byte>>)
    ensures values.IntValues? ==> r == I32sBytes(values.ints)
    ensures values.StrValues? ==> (IntsOfTexts(values.strs).Err? ==> r == Err(IntsOfTexts(values.strs).error))
    ensures values.PropValues? ==> (r.Ok? <==> values.props == [])
  {
    match values
    case ByteValues(b) => I32sBytes(b)
    case IntValues(xs) => I32sBytes(xs)
    case StrValues(ss) =>
      var xs :- IntsOfTexts(ss);
      I32sBytes(xs)
    case PropValues(ps) => if ps == [] then Ok([]) else Err(TypeError)
    case FloatValues(fs) => if fs == [] then Ok([]) else Err(Unconverted)
  }

  /** A struct array: each element as a property, then the "None" terminator; any other values
      raise `AttributeError` unless there are none. */
  function StructArrayBytes(values: ArrayValues): (r: Result<seq<byte>>)
    ensures values.PropValues? ==>
      (r.Ok? <==> PropsBytes(values.props).Ok?) && (r.Ok? ==> r.value == PropsBytes(values.props).value + NONE_BYTES)
    ensures !values.PropValues? ==> (r.Ok? <==> ValuesCount(values) == 0) && (r.Ok? ==> r.value == NONE_BYTES)
    decreases values, 0
  {
    match values
    case PropValues(ps) =>
      var b :- PropsBytes(ps);
      Ok(b + NONE_BYTES)
    case _ => if ValuesCount(values) == 0 then Ok(NONE_BYTES) else Err(AttributeError)
  }

  /** A float array: the 4-byte payloads one after another. */
  function FloatArrayBytes(values: ArrayValues): (r: Result<seq<byte>>)
    ensures values.FloatValues? ==> r == Ok(Concat(values.floats))
    ensures !values.FloatValues? ==> (r.Ok? <==> ValuesCount(values) == 0)
  {
    match values
    case FloatValues(fs) => Ok(Concat(fs))
    case PropValues(ps) => if ps == [] then Ok([]) else Err(TypeError)
    case _ => if ValuesCount(values) == 0 then Ok([]) else Err(Unconverted)
  }

  /** The inner types `ArrayProperty.to_bytes` handles by name. */
  predicate IsArrayCodecInner(inner: string) {
    var cls := LookupClass(inner);
    cls == Some(ByteClass) || cls == Some(StrClass) || cls == Some(NameClass) || cls == Some(IntClass)
    || cls == Some(StructClass) || cls == Some(FloatClass)
  }

  /** `len(values)`. */
  function ValuesCount(values: ArrayValues): nat {
    match values
    case ByteValues(b) => |b|
    case StrValues(ss) => |ss|
    case IntValues(xs) => |xs|
    case PropValues(ps) => |ps|
    case FloatValues(fs) => |fs|
  }

  /** `int(v) & 0xFF` for each value. */
  function MaskedBytes(xs: seq<int>): (bs: seq<byte>)
    ensures |bs| == |xs| && forall i :: 0 <= i < |xs| ==> bs[i] == xs[i] % 256
  {
    seq(|xs|, i requires 0 <= i < |xs| => xs[i] % 256)
  }

  /** `str(v)` for each value. */
  function DecimalTexts(xs: seq<int>): (ss: seq<string>)
    ensures |ss| == |xs| && forall i :: 0 <= i < |xs| ==> ss[i] == IntToString(xs[i])
  {
    seq(|xs|, i requires 0 <= i < |xs| => IntToString(xs[i]))
  }

  /** `[f(s) for s in ss]`, stopping at the first error. */
  function MapResults<T>(f: string -> Result<T>, ss: seq<string>): (r: Result<seq<T>>)
    ensures r.Ok? <==> forall i :: 0 <= i < |ss| ==> f(ss[i]).Ok?
    ensures r.Ok? ==> |r.value| == |ss| && forall i :: 0 <= i < |ss| ==> f(ss[i]) == Ok(r.value[i])
  {
    if ss == [] then Ok([])
    else
      var x :- f(ss[0]);
      var rest :- MapResults(f, ss[1..]);
      assert forall j :: 0 <= j < |ss| - 1 ==> ss[1..][j] == ss[j + 1];
      Ok([x] + rest)
  }

  /** `int(v)` for each text, stopping at the first `ValueError`. */
  function IntsOfTexts(ss: seq<string>): (r: Result<seq<int>>)
    ensures r.Ok? <==> forall i :: 0 <= i < |ss| ==> ParseInt(ss[i]).Some?
    ensures r.Ok? ==> |r.value| == |ss| && forall i :: 0 <= i < |ss| ==> ParseInt(ss[i]) == Some(r.value[i])
  {
    MapResults(IntOfText, ss)
  }

  /** `_write_string(data, s)` for each string, stopping at the first `struct.error`. */
  function StringsBytes(ss: seq<string>): (r: Result<seq<byte>>)
    ensures r.Ok? <==> forall i :: 0 <= i < |ss| ==> |ss[i]| < I32_MAX
  {
    if ss == [] then Ok([])
    else
      var a :- StringBytes(ss[0]);
      var r := PrependBytes(a, StringsBytes(ss[1..]));
      assert forall i :: 1 <= i < |ss| ==> ss[i] == ss[1..][i - 1];
      r
  }

  /** `_write_i32(data, v)` for each value, stopping at the first `struct.error`. */
  function I32sBytes(xs: seq<int>): (r: Result<seq<byte>>)
    ensures r.Ok? <==> forall i :: 0 <= i < |xs| ==> I32_MIN <= xs[i] <= I32_MAX
    ensures r.Ok? ==> |r.value| == 4 * |xs|
  {
    if xs == [] then Ok([])
    else
      var a :- I32Bytes(xs[0]);
      var r := PrependBytes(a, I32sBytes(xs[1..]));
      assert forall i :: 1 <= i < |xs| ==> xs[i] == xs[1..][i - 1];
      r
  }

  /** The byte strings one after another. */
  function Concat(fs: seq<seq<byte>>): (bs: seq<byte>) {
    if fs == [] then [] else fs[0] + Concat(fs[1..])
  }

  // ---------------------------------------------------------------------------------------------
  // Properties

  /** The list terminator is the FString "None": length 5 (four letters and the NUL), the ASCII
      letters, then the NUL. */
  lemma NoneStringBytes()
    ensures StringBytes("None") == Ok(NONE_BYTES)
  {
    var s := "None";
    assert forall i :: 0 <= i < |s| ==> IsAsciiChar(s[i]);
    Utf8EncodeAscii(s);
    assert AsciiBytes(s) == [78, 111, 110, 101];
    assert ToLE(0, 1) == [0] + ToLE(0, 0);
    assert ToLE(0, 2) == [0] + ToLE(0, 1);
    assert ToLE(0, 3) == [0] + ToLE(0, 2);
    assert ToLE(5, 4) == [5] + ToLE(0, 3);
    assert I32Bytes(5).value == [5, 0, 0, 0];
    assert StringBytes(s).value == I32Bytes(|s| + 1).value + Utf8Encode(s) + [0];
    assert [5, 0, 0, 0] + [78, 111, 110, 101] + [0] == NONE_BYTES;
  }

  /** `_write_properties` always ends with the "None" FString. */
  lemma PropertiesBytesEndsWithNone(ps: seq<Property>)
    requires PropertiesBytes(ps).Ok?
    ensures var b := PropertiesBytes(ps).value;
      |b| >= 9 && b[|b| - 9..] == NONE_BYTES && StringBytes("None").value == NONE_BYTES
  {
    NoneStringBytes();
  }
}
