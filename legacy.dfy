/** The property decoder of the older read-only module uesave.py: its 14 property classes with the
    `size` each reports, each class's `from_bytes`, `PropertyFactory.create_property` and
    `parse_properties`, as functions of `(data, offset)` that return the decoded value with the
    offset after it, or the exception Python raises. The FString reader `read_string` is the same
    code as `_read_string` of uesave/__init__.py and is modelled once, in module FString.

    The struct loop and the struct-array loop of this module run `while offset < prop_size`,
    comparing an absolute offset with a byte count. Every reader here takes a `Bound` that says
    which loop end is meant: `AsWritten` is the comparison the code makes, `Intended` is the end
    of the property's payload, `start + prop_size`, which uesave/__init__.py uses for the same
    loops. */
module Legacy {
  import opened Bytes
  import opened FString
  import opened Unicode
  import Guid
  import Properties

  /** The values of an `ArrayProperty`: the raw bytes of a byte array, or the properties of a
      struct array. */
  datatype ArrayValues = ByteValues(raw: seq<byte>) | PropValues(props: seq<Property>)

  /** One property object. Float and double payloads stay raw bytes. */
  datatype Property =
    | ArrayProperty(name: string, innerType: string, values: ArrayValues)
    | BoolProperty(name: string, boolValue: bool)
    | ByteProperty(name: string, guid: string, byteValue: byte)
    | DoubleProperty(name: string, raw: seq<byte>)
    | FloatProperty(name: string, raw: seq<byte>)
    | Int64Property(name: string, intValue: int)
    | IntProperty(name: string, intValue: int)
    | MapProperty(name: string, keyType: string, valueType: string, raw: seq<byte>)
    | NameProperty(name: string, text: string)
    | ObjectProperty(name: string, text: string)
    | StrProperty(name: string, text: string)
    | StructProperty(name: string, structType: string, guid: string, fields: seq<Property>)
    | TextProperty(name: string, raw: seq<byte>)
    | UInt64Property(name: string, intValue: int)

  /** The class of a property object; the factory looks classes up by the same 14 names as
      uesave/__init__.py. */
  function ClassOf(p: Property): Properties.PropertyClass {
    match p
    case ArrayProperty(_, _, _) => Properties.ArrayClass
    case BoolProperty(_, _) => Properties.BoolClass
    case ByteProperty(_, _, _) => Properties.ByteClass
    case DoubleProperty(_, _) => Properties.DoubleClass
    case FloatProperty(_, _) => Properties.FloatClass
    case Int64Property(_, _) => Properties.Int64Class
    case IntProperty(_, _) => Properties.IntClass
    case MapProperty(_, _, _, _) => Properties.MapClass
    case NameProperty(_, _) => Properties.NameClass
    case ObjectProperty(_, _) => Properties.ObjectClass
    case StrProperty(_, _) => Properties.StrClass
    case StructProperty(_, _, _, _) => Properties.StructClass
    case TextProperty(_, _) => Properties.TextClass
    case UInt64Property(_, _) => Properties.UInt64Class
  }

  // ---------------------------------------------------------------------------------------------
  // The size property

  /** `Property.size`. An array sums the sizes of its values; the values of a byte array are
      `int`s, which have no `size`, so a non-empty one raises `AttributeError`. */
  function Size(p: Property): (r: Result<int>)
    decreases p, 1
  {
    match p
    case ArrayProperty(_, _, values) =>
      (match values
       case ByteValues(raw) => if raw == [] then Ok(0) else Err(AttributeError)
       case PropValues(ps) => SumSizes(ps))
    case BoolProperty(_, _) => Ok(1)
    case ByteProperty(_, _, _) => Ok(1)
    case DoubleProperty(_, _) => Ok(8)
    case FloatProperty(_, _) => Ok(4)
    case Int64Property(_, _) => Ok(8)
    case IntProperty(_, _) => Ok(4)
    case MapProperty(_, _, _, raw) => Ok(|raw|)
    case NameProperty(_, v) => Ok(|v| + 4 + 1)
    case ObjectProperty(_, v) => Ok(|v| + 4 + 1)
    case StrProperty(_, v) => Ok(|v| + 4 + (if v != "" then 1 else 0))
    case StructProperty(_, _, _, fields) => SumSizes(fields)
    case TextProperty(_, raw) => Ok(|raw|)
    case UInt64Property(_, _) => Ok(8)
  }

  /** `sum(x.size for x in ps)`: the first failing size propagates. */
  function SumSizes(ps: seq<Property>): (r: Result<int>)
    decreases ps, 0
  {
    if ps == [] then Ok(0)
    else
      var first :- Size(ps[0]);
      var rest :- SumSizes(ps[1..]);
      Ok(first + rest)
  }

  /** The size of children laid side by side is the sum of their sizes, and it fails exactly
      when one of them fails. */
  lemma {:induction false} SumSizesConcat(a: seq<Property>, b: seq<Property>)
    ensures SumSizes(a + b).Ok? <==> SumSizes(a).Ok? && SumSizes(b).Ok?
    ensures SumSizes(a + b).Ok? ==> SumSizes(a + b).value == SumSizes(a).value + SumSizes(b).value
    decreases |a|
  {
    if a == [] {
      assert a + b == b;
    } else {
      assert (a + b)[0] == a[0];
      assert (a + b)[1..] == a[1..] + b;
      SumSizesConcat(a[1..], b);
    }
  }

  /** A struct, and a struct array, with one more child grows by that child's size. */
  lemma StructSizeSnoc(name: string, stype: string, guid: string, fields: seq<Property>, p: Property)
    ensures var r := Size(StructProperty(name, stype, guid, fields + [p]));
      && (r.Ok? <==> SumSizes(fields).Ok? && Size(p).Ok?)
      && (r.Ok? ==> r.value == SumSizes(fields).value + Size(p).value)
  {
    SumSizesConcat(fields, [p]);
    assert [p][1..] == [];
  }

  /** An array of structs reports the same size as a struct with the same children. */
  lemma ArraySizeIsStructSize(name: string, props: seq<Property>, stype: string, guid: string)
    ensures Size(ArrayProperty(name, "StructProperty", PropValues(props))) == Size(StructProperty(name, stype, guid, props))
  {
  }

  /** A string value's size is the length of its FString encoding: the length prefix, the
      characters and, when there are any, the NUL. */
  lemma StrSizeIsEncodedLength(name: string, v: string)
    requires forall i :: 0 <= i < |v| ==> IsAsciiChar(v[i])
    requires |v| < I32_MAX
    ensures Size(StrProperty(name, v)) == Ok(|StringBytes(v).value|)
  {
    if v != "" {
      Utf8EncodeAscii(v);
      AsciiBytesLength(v);
      StringBytesLength(v);
    }
  }

  /** A name or object value's size is the length of its FString encoding too, except for the
      empty value, which is counted as if it had a NUL: 5 where the encoding is 4 bytes. */
  lemma NameSizeIsEncodedLength(name: string, v: string)
    requires forall i :: 0 <= i < |v| ==> IsAsciiChar(v[i])
    requires |v| < I32_MAX
    ensures v != "" ==> Size(NameProperty(name, v)) == Ok(|StringBytes(v).value|)
    ensures v != "" ==> Size(ObjectProperty(name, v)) == Ok(|StringBytes(v).value|)
    ensures v == "" ==> Size(NameProperty(name, v)) == Ok(|StringBytes(v).value| + 1)
    ensures v == "" ==> Size(ObjectProperty(name, v)) == Ok(|StringBytes(v).value| + 1)
  {
    if v != "" {
      Utf8EncodeAscii(v);
      AsciiBytesLength(v);
      StringBytesLength(v);
    }
  }

  lemma {:induction false} AsciiBytesLength(s: string)
    requires forall i :: 0 <= i < |s| ==> IsAsciiChar(s[i])
    ensures |AsciiBytes(s)| == |s|
  {
    if s != [] {
      AsciiBytesLength(s[1..]);
    }
  }

  // ---------------------------------------------------------------------------------------------
  // Reading

  /** The end of the struct and struct-array loops for a payload of `size` bytes at `start`. */
  datatype Bound = AsWritten | Intended

  function LoopEnd(bound: Bound, start: nat, size: nat): int {
    match bound
    case AsWritten => size
    case Intended => start + size
  }

  /** One entry of a property list: the name, and unless it is "None" the type name, the u32
      size, a u32 that is skipped, then the property. `None` stands for the "None" name. */
  function ReadEntry(bound: Bound, data: seq<byte>, off: nat): (r: Result<Read<Option<Property>>>)
    ensures r.Ok? ==> off + 4 <= |data| && r.value.next >= off + 4
    ensures r.Ok? && r.value.value.Some? ==> r.value.value.value.name != "None" && r.value.next >= off + 16
    decreases Remaining(data, off), 3
  {
    var Read(name, o1) :- ReadString(data, off);
    if name == "None" then Ok(Read(None, o1))
    else
      var Read(ptype, o2) :- ReadString(data, o1);
      var Read(size, o3) :- ReadU32(data, o2);
      var Read(_, o4) :- ReadU32(data, o3);
      var Read(p, o5) :- CreateProperty(bound, name, ptype, size, data, o4);
      Ok(Read(Some(p), o5))
  }

  /** `PropertyFactory.create_property`: the class named by the type, then its `from_bytes`;
      `ValueError` for a type that names none of the 14 classes. */
  function CreateProperty(bound: Bound, name: string, ptype: string, size: nat, data: seq<byte>, off: nat)
    : (r: Result<Read<Property>>)
    ensures Properties.LookupClass(ptype).None? ==> r == Err(ValueError("Unknown property type: " + ptype))
    ensures r.Ok? ==> Properties.LookupClass(ptype) == Some(ClassOf(r.value.value))
    ensures r.Ok? ==> r.value.value.name == name && r.value.next >= off
    decreases Remaining(data, off), 2
  {
    var cls := Properties.LookupClass(ptype);
    if cls.None? then Err(ValueError("Unknown property type: " + ptype))
    else if cls.value == Properties.ArrayClass then ArrayFromBytes(bound, name, size, data, off)
    else if cls.value == Properties.StructClass then StructFromBytes(bound, name, size, data, off)
    else FixedFromBytes(cls.value, name, size, data, off)
  }

  /** `ArrayProperty.from_bytes`: the inner type, a skipped byte and the u32 count (unused), then
      the values. */
  function ArrayFromBytes(bound: Bound, name: string, size: nat, data: seq<byte>, off: nat)
    : (r: Result<Read<Property>>)
    ensures r.Ok? ==> r.value.next >= off
    ensures r.Ok? ==> var p := r.value.value;
      && p.ArrayProperty? && p.name == name
      && (p.innerType == "ByteProperty" || p.innerType == "StructProperty")
      && (p.innerType == "ByteProperty" <==> p.values.ByteValues?)
    decreases Remaining(data, off), 1
  {
    var Read(inner, o1) :- ReadString(data, off);
    var Read(_, o2) :- ReadU32(data, o1 + 1);
    var Read(values, o3) :- ArrayBody(bound, inner, size, data, o2);
    Ok(Read(ArrayProperty(name, inner, values), o3))
  }

  /** The values of an array: `size` raw bytes for a byte array, whose offset moves only
      `size - 4` past them, or the property loop for a struct array; `NotImplementedError` for
      any other inner type. */
  function ArrayBody(bound: Bound, inner: string, size: nat, data: seq<byte>, off: nat)
    : (r: Result<Read<ArrayValues>>)
    requires off >= 4
    ensures inner == "ByteProperty" ==> r == Ok(Read(ByteValues(Slice(data, off, off + size)), off + size - 4))
    ensures inner == "StructProperty" ==> r.Ok? ==> r.value.value.PropValues? && r.value.next >= off
    ensures inner != "ByteProperty" && inner != "StructProperty" ==>
      r == Err(NotImplementedError("ArrayProperty of type " + inner + " not implemented"))
    decreases Remaining(data, off), 5
  {
    if inner == "ByteProperty" then
      Ok(Read(ByteValues(Slice(data, off, off + size)), off + size - 4))
    else if inner == "StructProperty" then
      var Read(ps, o) :- ParseProperties(bound, data, off, LoopEnd(bound, off, size));
      Ok(Read(PropValues(ps), o))
    else
      Err(NotImplementedError("ArrayProperty of type " + inner + " not implemented"))
  }

  /** `StructProperty.from_bytes`: the struct type, the 16 bytes after it as plain hex, a skipped
      byte, then the fields. */
  function StructFromBytes(bound: Bound, name: string, size: nat, data: seq<byte>, off: nat)
    : (r: Result<Read<Property>>)
    ensures r.Ok? ==> r.value.next >= off
    ensures r.Ok? ==> var p := r.value.value;
      && p.StructProperty? && p.name == name && off + 4 <= |data|
      && p.structType == ReadString(data, off).value.value
    decreases Remaining(data, off), 1
  {
    var Read(stype, o1) :- ReadString(data, off);
    var guid := Guid.Hex(Slice(data, o1, o1 + 16));
    var Read(fields, o2) :- StructBody(bound, stype, size, data, o1 + 17);
    Ok(Read(StructProperty(name, stype, guid, fields), o2))
  }

  /** The fields of a struct: four (Quat) or three (Vector) floats after asserting the declared
      size, or for any other type the property loop. */
  function StructBody(bound: Bound, stype: string, size: nat, data: seq<byte>, off: nat)
    : (r: Result<Read<seq<Property>>>)
    ensures r.Ok? ==> r.value.next >= off
    ensures stype == "Quat" ==> (r.Ok? <==> size == 16 && off + 16 <= |data|)
    ensures stype == "Vector" ==> (r.Ok? <==> size == 12 && off + 12 <= |data|)
    ensures (stype == "Quat" || stype == "Vector") && r.Ok? ==>
      r.value == Read(FloatFields(data[off..off + size]), off + size)
    decreases Remaining(data, off), 5
  {
    if stype == "Quat" then
      var _ :- Check(size == 16);
      var Read(raw, o) :- ReadRaw(data, off, 16);
      Ok(Read(FloatFields(raw), o))
    else if stype == "Vector" then
      var _ :- Check(size == 12);
      var Read(raw, o) :- ReadRaw(data, off, 12);
      Ok(Read(FloatFields(raw), o))
    else
      ParseProperties(bound, data, off, LoopEnd(bound, off, size))
  }

  const AXES: seq<string> := ["X", "Y", "Z", "W"]

  /** The float fields X, Y, Z (and W) of a Vector (12 bytes) or Quat (16 bytes). */
  function FloatFields(raw: seq<byte>): (fs: seq<Property>)
    requires |raw| == 12 || |raw| == 16
    ensures |fs| == |raw| / 4
    ensures forall i :: 0 <= i < |fs| ==> fs[i] == FloatProperty(AXES[i], raw[4 * i..4 * i + 4])
  {
    var xyz := [FloatProperty("X", raw[0..4]), FloatProperty("Y", raw[4..8]), FloatProperty("Z", raw[8..12])];
    if |raw| == 16 then xyz + [FloatProperty("W", raw[12..16])] else xyz
  }

  /** `parse_properties(data, offset, end_offset)`, which is also the loop of the struct and
      struct-array readers: read entries while the offset is below `end`, stopping after the
      first "None". */
  function ParseProperties(bound: Bound, data: seq<byte>, off: nat, end: int): (r: Result<Read<seq<Property>>>)
    ensures off >= end ==> r == Ok(Read([], off))
    ensures r.Ok? ==> r.value.next >= off + 16 * |r.value.value|
    ensures r.Ok? ==> forall i :: 0 <= i < |r.value.value| ==> r.value.value[i].name != "None"
    decreases Remaining(data, off), 4
  {
    if off >= end then Ok(Read([], off))
    else
      var Read(p, o) :- ReadEntry(bound, data, off);
      match p
      case None => Ok(Read([], o))
      case Some(q) => PrependTo([q], ParseProperties(bound, data, o, end))
  }

  /** The `from_bytes` of the classes without children. */
  function FixedFromBytes(c: Properties.PropertyClass, name: string, size: nat, data: seq<byte>, off: nat)
    : (r: Result<Read<Property>>)
    requires c != Properties.ArrayClass && c != Properties.StructClass
    ensures r.Ok? ==> ClassOf(r.value.value) == c && r.value.value.name == name && r.value.next >= off
  {
    match c
    case BoolClass =>
      var _ :- Check(size == 0);
      var b :- ByteAt(data, off);
      Ok(Read(BoolProperty(name, b != 0), off + 2))
    case ByteClass =>
      var _ :- Check(size == 1);
      var Read(guid, o1) :- ReadString(data, off);
      var b :- ByteAt(data, o1 + 1);
      Ok(Read(ByteProperty(name, guid, b), o1 + 2))
    case DoubleClass =>
      var _ :- Check(size == 8);
      var Read(raw, o) :- ReadRaw(data, off, 8);
      Ok(Read(DoubleProperty(name, raw), o))
    case FloatClass =>
      var _ :- Check(size == 4);
      var Read(raw, o) :- ReadRaw(data, off, 4);
      Ok(Read(FloatProperty(name, raw), o))
    case Int64Class =>
      var _ :- Check(size == 8);
      var Read(v, o) :- ReadI64(data, off);
      Ok(Read(Int64Property(name, v), o))
    case IntClass =>
      var _ :- Check(size == 4);
      var Read(v, o) :- ReadI32(data, off);
      Ok(Read(IntProperty(name, v), o + 1))
    case MapClass =>
      var Read(keyType, o1) :- ReadString(data, off);
      var Read(valueType, o2) :- ReadString(data, o1);
      var Read(_, o3) :- ReadU32(data, o2 + 1);
      var n := size - 5;
      Ok(Read(MapProperty(name, keyType, valueType, Slice(data, o3, o3 + n)), o3 + n + 1))
    case NameClass =>
      var Read(v, o) :- ReadString(data, off + 1);
      var _ :- Check(|v| + 4 + 1 == size);
      Ok(Read(NameProperty(name, v), o))
    case ObjectClass =>
      var Read(v, o) :- ReadString(data, off + 1);
      var _ :- Check(|v| + 4 + 1 == size);
      Ok(Read(ObjectProperty(name, v), o))
    case StrClass =>
      var Read(v, o) :- ReadString(data, off + 1);
      var _ :- Check(size == |v| + 4 + (if v != "" then 1 else 0));
      Ok(Read(StrProperty(name, v), o))
    case TextClass =>
      Ok(Read(TextProperty(name, Slice(data, off, off + size)), off + size))
    case UInt64Class =>
      var _ :- Check(size == 8);
      var Read(v, o) :- ReadU64(data, off);
      Ok(Read(UInt64Property(name, v), o))
  }

  // ---------------------------------------------------------------------------------------------
  // Properties of the readers

  /** Only the name "None" ends a list; unlike uesave/__init__.py an empty name starts a
      property entry like any other name. */
  lemma ReadEntryTerminator(bound: Bound, data: seq<byte>, off: nat)
    requires ReadString(data, off).Ok?
    ensures ReadString(data, off).value.value == "None" ==>
      ReadEntry(bound, data, off) == Ok(Read(None, ReadString(data, off).value.next))
    ensures ReadString(data, off).value.value != "None" && ReadEntry(bound, data, off).Ok? ==>
      ReadEntry(bound, data, off).value.value.Some?
  {
  }

  /** Every class that asserts its declared size, and the Quat and Vector structs, report that
      size back: the `from_bytes` assertion and the `size` rule agree. */
  lemma FixedSizeMatchesDeclared(c: Properties.PropertyClass, name: string, size: nat, data: seq<byte>, off: nat)
    requires c != Properties.ArrayClass && c != Properties.StructClass
    requires c != Properties.BoolClass && c != Properties.MapClass && c != Properties.TextClass
    requires FixedFromBytes(c, name, size, data, off).Ok?
    ensures Size(FixedFromBytes(c, name, size, data, off).value.value) == Ok(size)
  {
  }

  /** A boolean asserts a declared size of 0 but reports a size of 1. */
  lemma BoolSizeDiffers(name: string, size: nat, data: seq<byte>, off: nat)
    requires FixedFromBytes(Properties.BoolClass, name, size, data, off).Ok?
    ensures size == 0 && Size(FixedFromBytes(Properties.BoolClass, name, size, data, off).value.value) == Ok(1)
  {
  }

  /** A text value takes its declared size when the buffer holds that many bytes, fewer when
      the slice runs off the end. */
  lemma TextSizeMatchesDeclared(name: string, size: nat, data: seq<byte>, off: nat)
    ensures var r := FixedFromBytes(Properties.TextClass, name, size, data, off);
      && r.Ok? && r.value.next == off + size
      && (Size(r.value.value) == Ok(size) <==> size == 0 || off + size <= |data|)
  {
  }

  /** The Quat and Vector structs hold 16 and 12 bytes of floats and report those sizes. */
  lemma FixedStructSize(bound: Bound, stype: string, size: nat, data: seq<byte>, off: nat)
    requires stype == "Quat" || stype == "Vector"
    requires StructBody(bound, stype, size, data, off).Ok?
    ensures SumSizes(StructBody(bound, stype, size, data, off).value.value) == Ok(size)
  {
    FloatFieldsSize(data[off..off + size]);
  }

  lemma FloatFieldsSize(raw: seq<byte>)
    requires |raw| == 12 || |raw| == 16
    ensures SumSizes(FloatFields(raw)) == Ok(|raw|)
  {
    var fs := FloatFields(raw);
    var last := fs[|fs| - 1..];
    assert SumSizes(last) == Ok(4) by {
      assert last[1..] == [];
    }
    if |raw| == 16 {
      assert fs[2..][1..] == last;
      assert SumSizes(fs[2..]) == Ok(8);
    }
    assert fs[1..][1..] == fs[2..];
    assert fs[1..] == [fs[1]] + fs[2..];
    assert SumSizes(fs[1..]) == Ok(|raw| - 4);
  }

  /** Where the fields of a struct other than Quat and Vector begin: after the type FString, the
      16 GUID bytes and the skipped byte. */
  function FieldsStart(data: seq<byte>, off: nat): (o: nat)
    requires off + 4 <= |data|
    ensures o == off + 4 + PayloadBytes(ReadI32(data, off).value.value) + 17
  {
    ReadString(data, off).value.next + 17
  }

  /** The fields of a struct are its body read from where its fields begin. */
  lemma StructFieldsFromBody(bound: Bound, name: string, size: nat, data: seq<byte>, off: nat)
    requires StructFromBytes(bound, name, size, data, off).Ok?
    ensures ReadString(data, off).Ok?
    ensures var rs := ReadString(data, off).value;
      var b := StructBody(bound, rs.value, size, data, rs.next + 17);
      var p := StructFromBytes(bound, name, size, data, off).value.value;
      && b.Ok? && p.StructProperty? && p.structType == rs.value
      && p.fields == b.value.value && StructFromBytes(bound, name, size, data, off).value.next == b.value.next
  {
  }

  /** As written, a struct whose fields begin at an absolute offset `off` at or past its size
      reads no field at all and stops where its fields begin. */
  lemma StructLoopAsWrittenSkips(stype: string, size: nat, data: seq<byte>, off: nat)
    requires stype !in ["Quat", "Vector"]
    requires off >= size
    ensures StructBody(AsWritten, stype, size, data, off) == Ok(Read([], off))
  {
    assert ParseProperties(AsWritten, data, off, size) == Ok(Read([], off));
  }

  /** With the intended bound the first field is read wherever the struct sits, as soon as the
      declared size is not zero; with size zero the struct is empty. */
  lemma StructLoopIntendedReads(stype: string, size: nat, data: seq<byte>, off: nat)
    requires stype !in ["Quat", "Vector"]
    requires StructBody(Intended, stype, size, data, off).Ok?
    ensures var fields := StructBody(Intended, stype, size, data, off).value.value;
      var first := ReadEntry(Intended, data, off);
      && (size == 0 ==> fields == [])
      && (size > 0 ==> first.Ok? && (first.value.value.Some? ==> fields != [] && fields[0] == first.value.value.value))
  {
    assert StructBody(Intended, stype, size, data, off) == ParseProperties(Intended, data, off, off + size);
  }

  /** The two bounds disagree on every struct with a first field whose payload begins past its
      declared size: as written the struct comes out empty, with the bound intended it holds
      that field. */
  lemma StructLoopDiscrepancy(stype: string, size: nat, data: seq<byte>, off: nat)
    requires stype !in ["Quat", "Vector"]
    requires 0 < size <= off
    requires var first := ReadEntry(Intended, data, off); first.Ok? && first.value.value.Some?
    requires StructBody(Intended, stype, size, data, off).Ok?
    ensures StructBody(AsWritten, stype, size, data, off) == Ok(Read([], off))
    ensures StructBody(Intended, stype, size, data, off).value.value != []
  {
    StructLoopAsWrittenSkips(stype, size, data, off);
    StructLoopIntendedReads(stype, size, data, off);
  }

  /** `ps` are read one after another from `off`, each entry starting below `end`, and the list
      ends where the loop stops: at `end`, or just after a "None" name. */
  ghost predicate ReadInOrder(bound: Bound, data: seq<byte>, off: nat, end: int, ps: seq<Property>, next: nat)
    decreases |ps|
  {
    if ps == [] then
      (off >= end && next == off) || (off < end && ReadEntry(bound, data, off) == Ok(Read(None, next)))
    else
      && off < end
      && ReadEntry(bound, data, off).Ok? && ReadEntry(bound, data, off).value.value == Some(ps[0])
      && ReadInOrder(bound, data, ReadEntry(bound, data, off).value.next, end, ps[1..], next)
  }

  /** `parse_properties` returns exactly the properties stored one after another before the
      first "None" or the end offset, in file order. */
  lemma {:induction false} ParsePropertiesInOrder(bound: Bound, data: seq<byte>, off: nat, end: int, ps: seq<Property>, next: nat)
    ensures ParseProperties(bound, data, off, end) == Ok(Read(ps, next)) <==> ReadInOrder(bound, data, off, end, ps, next)
    decreases Remaining(data, off)
  {
    if off < end {
      var e := ReadEntry(bound, data, off);
      if e.Ok? && e.value.value.Some? {
        var o := e.value.next;
        var rest := ParseProperties(bound, data, o, end);
        assert ParseProperties(bound, data, off, end) == PrependTo([e.value.value.value], rest);
        if ps != [] {
          ParsePropertiesInOrder(bound, data, o, end, ps[1..], next);
          assert [ps[0]] + ps[1..] == ps;
        }
      }
    }
  }
}
