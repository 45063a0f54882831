/** The property decoder of uesave/__init__.py as functions of `(data, offset)`: `_read_property`,
    `PropertyFactory.create_property`, each class's `from_bytes`, and `_read_properties`. Each
    returns the decoded value with the offset after it, or the exception the Python code raises.
    A Python `assert` that fails is `AssertionError`. The loops of the array and struct readers are
    specified here by recursion; the imperative readers in module Reader run them as loops. */
module Decode {
  import opened Bytes
  import opened FString
  import opened Guid
  import opened Properties

  /** `_read_property(data, offset)`: None, after only the name, for the names "None" and "". */
  function ReadProperty(data: seq<byte>, off: nat): (r: Result<Read<Option<Property>>>)
    ensures r.Ok? ==> off + 4 <= |data| && r.value.next >= off + 4
    decreases Remaining(data, off), 3
  {
    var Read(name, o1) :- ReadString(data, off);
    if name == "None" || name == "" then Ok(Read(None, o1))
    else
      var Read(ptype, o2) :- ReadString(data, o1);
      var Read(size, o3) :- ReadU32(data, o2);
      var Read(tag, o4) :- ReadU32(data, o3);
      var Read(p, o5) :- CreateProperty(name, ptype, size, tag, data, o4);
      Ok(Read(Some(p), o5))
  }

  /** `PropertyFactory.create_property`: look the type name up among the 14 property classes and
      run that class's `from_bytes`; `ValueError` for a name that is not a class's. */
  function CreateProperty(name: string, ptype: string, size: nat, tag: nat, data: seq<byte>, off: nat)
    : (r: Result<Read<Property>>)
    ensures LookupClass(ptype).None? ==> r == Err(ValueError("Unknown property type: " + ptype))
    ensures r.Ok? ==> LookupClass(ptype) == Some(ClassOf(r.value.value)) && ClassName(r.value.value) == ptype
    ensures r.Ok? ==> r.value.next >= off
    ensures r.Ok? ==> var p := r.value.value; p.name == name && p.tag == tag && p.size == size
    decreases Remaining(data, off), 2
  {
    var cls := LookupClass(ptype);
    if cls.None? then Err(ValueError("Unknown property type: " + ptype))
    else if cls.value == ArrayClass || cls.value == StructClass then NestedFromBytes(cls.value, name, size, tag, data, off)
    else FixedFromBytes(cls.value, name, size, tag, data, off)
  }

  /** The `from_bytes` of the two classes whose values hold further values: arrays and structs. */
  function NestedFromBytes(c: PropertyClass, name: string, size: nat, tag: nat, data: seq<byte>, off: nat)
    : (r: Result<Read<Property>>)
    requires c == ArrayClass || c == StructClass
    ensures r.Ok? ==> ClassOf(r.value.value) == c && r.value.next >= off
    ensures r.Ok? ==> var p := r.value.value; p.name == name && p.tag == tag && p.size == size
    decreases Remaining(data, off), 1
  {
    if c == ArrayClass then ArrayFromBytes(name, size, tag, data, off)
    else StructFromBytes(name, size, tag, data, off)
  }

  /** The `from_bytes` of a class other than the array and struct classes: a fixed layout. */
  function FixedFromBytes(c: PropertyClass, name: string, size: nat, tag: nat, data: seq<byte>, off: nat)
    : (r: Result<Read<Property>>)
    requires c != ArrayClass && c != StructClass
    ensures r.Ok? ==> ClassOf(r.value.value) == c && r.value.next >= off
    ensures r.Ok? ==> var p := r.value.value; p.name == name && p.tag == tag && p.size == size
  {
    match c
    case BoolClass => BoolFromBytes(name, size, tag, data, off)
    case ByteClass => ByteFromBytes(name, size, tag, data, off)
    case DoubleClass => DoubleFromBytes(name, size, tag, data, off)
    case FloatClass => FloatFromBytes(name, size, tag, data, off)
    case Int64Class => Int64FromBytes(name, size, tag, data, off)
    case IntClass => IntFromBytes(name, size, tag, data, off)
    case MapClass => MapFromBytes(name, size, tag, data, off)
    case NameClass => NameFromBytes(name, size, tag, data, off)
    case ObjectClass => ObjectFromBytes(name, size, tag, data, off)
    case StrClass => StrFromBytes(name, size, tag, data, off)
    case TextClass => TextFromBytes(name, size, tag, data, off)
    case UInt64Class => UInt64FromBytes(name, size, tag, data, off)
  }

  /** `assert (data[offset] == 0)`: `IndexError` past the end, `AssertionError` on another byte. */
  function ExpectZero(data: seq<byte>, off: nat): (r: Result<nat>)
    ensures r.Ok? <==> off < |data| && data[off] == 0
    ensures r.Ok? ==> r.value == off + 1
    ensures off >= |data| ==> r == Err(IndexError)
  {
    var b :- ByteAt(data, off);
    if b != 0 then Err(AssertionError) else Ok(off + 1)
  }

  // ---------------------------------------------------------------------------------------------
  // ArrayProperty.from_bytes

  /** The inner types whose array elements are read one by one, `array_size` times. */
  predicate IsCountedInner(inner: string) {
    inner == "StrProperty" || inner == "NameProperty" || inner == "IntProperty" || inner == "FloatProperty"
  }

  /** The array header: the inner type, a zero byte, then the count and the values. */
  function ArrayFromBytes(name: string, size: nat, tag: nat, data: seq<byte>, off: nat)
    : (r: Result<Read<Property>>)
    ensures r.Ok? ==> r.value.next >= off
    ensures r.Ok? ==> var p := r.value.value;
      && p.ArrayProperty? && p.name == name && p.tag == tag && p.size == size
      && p.arraySize < U32_MOD && off + 4 <= |data| && p.innerType == ReadString(data, off).value.value
    decreases Remaining(data, off), 0
  {
    var Read(inner, o1) :- ReadString(data, off);
    var o2 :- ExpectZero(data, o1);
    var Read(body, o3) :- ArrayBody(inner, size, data, o2);
    Ok(Read(ArrayProperty(name, tag, size, inner, body.0, body.1), o3))
  }

  /** The u32 count then the values: `size` bytes kept for byte arrays with the offset moved
      `size - 4` past them, the counted inner types read `array_size` times, struct arrays read as
      properties up to the first None or `size` bytes, and any other inner type kept as `size` raw
      bytes. */
  function ArrayBody(inner: string, size: nat, data: seq<byte>, off: nat): (r: Result<Read<(nat, ArrayValues)>>)
    ensures r.Ok? ==> var (count, values) := r.value.value;
      && off + 4 <= |data| && count == ReadU32(data, off).value.value && r.value.next >= off
      && (inner == "ByteProperty" ==>
            values == ByteValues(Slice(data, off + 4, off + 4 + size)) && r.value.next == off + size)
      && (inner == "StrProperty" || inner == "NameProperty" ==> values.StrValues? && |values.strs| == count)
      && (inner == "IntProperty" ==> values.IntValues? && |values.ints| == count)
      && (inner == "FloatProperty" ==> values.FloatValues? && |values.floats| == count)
      && (inner == "StructProperty" ==> values.PropValues?)
      && (!IsCountedInner(inner) && inner != "StructProperty" && inner != "ByteProperty" ==>
            values == ByteValues(Slice(data, off + 4, off + 4 + size)) && r.value.next == off + 4 + size)
    decreases Remaining(data, off), 6
  {
    var Read(count, o) :- ReadU32(data, off);
    if inner == "ByteProperty" then
      Ok(Read((count, ByteValues(Slice(data, o, o + size))), o + size - 4))
    else if inner == "StrProperty" || inner == "NameProperty" then
      var Read(ss, o2) :- ReadStrings(data, o, count);
      Ok(Read((count, StrValues(ss)), o2))
    else if inner == "IntProperty" then
      var Read(vs, o2) :- ReadInts(data, o, count);
      Ok(Read((count, IntValues(vs)), o2))
    else if inner == "StructProperty" then
      var Read(ps, o2) :- ReadFields(data, o, size);
      Ok(Read((count, PropValues(ps)), o2))
    else if inner == "FloatProperty" then
      var Read(fs, o2) :- ReadFloats(data, o, count);
      Ok(Read((count, FloatValues(fs)), o2))
    else
      Ok(Read((count, ByteValues(Slice(data, o, o + size))), o + size))
  }

  /** `for i in range(array_size): value, offset = _read_string(data, offset)`. */
  function ReadStrings(data: seq<byte>, off: nat, count: nat): (r: Result<Read<seq<string>>>)
    ensures r.Ok? ==> |r.value.value| == count && r.value.next >= off + 4 * count
    decreases count
  {
    if count == 0 then Ok(Read([], off))
    else
      var Read(s, o) :- ReadString(data, off);
      PrependTo([s], ReadStrings(data, o, count - 1))
  }

  /** `for i in range(array_size): value, offset = _read_i32(data, offset)`. */
  function ReadInts(data: seq<byte>, off: nat, count: nat): (r: Result<Read<seq<int>>>)
    ensures r.Ok? <==> count == 0 || off + 4 * count <= |data|
    ensures r.Ok? ==> |r.value.value| == count && r.value.next == off + 4 * count
    decreases count
  {
    if count == 0 then Ok(Read([], off))
    else
      var Read(v, o) :- ReadI32(data, off);
      PrependTo([v], ReadInts(data, o, count - 1))
  }

  /** `for i in range(array_size): struct.unpack_from('<f', data, offset); offset += 4`. */
  function ReadFloats(data: seq<byte>, off: nat, count: nat): (r: Result<Read<seq<seq<byte>>>>)
    ensures r.Ok? <==> count == 0 || off + 4 * count <= |data|
    ensures r.Ok? ==> |r.value.value| == count && r.value.next == off + 4 * count
    decreases count
    ensures r.Ok? ==> forall i :: 0 <= i < count ==> |r.value.value[i]| == 4
  {
    if count == 0 then Ok(Read([], off))
    else
      var Read(f, o) :- ReadRaw(data, off, 4);
      PrependTo([f], ReadFloats(data, o, count - 1))
  }

  /** The properties of a struct body or a struct array: read up to the first None or until the
      offset reaches `size` bytes past `off`. */
  function ReadFields(data: seq<byte>, off: nat, size: nat): (r: Result<Read<seq<Property>>>)
    ensures r.Ok? ==> r.value.next >= off
    ensures size == 0 ==> r == Ok(Read([], off))
    decreases Remaining(data, off), 5
  {
    ReadUntilNone(data, off, off + size)
  }

  /** The loop of `StructProperty.from_bytes` and of struct arrays: read properties while the
      offset is below `end`, stopping after the first None. */
  function ReadUntilNone(data: seq<byte>, off: nat, end: int): (r: Result<Read<seq<Property>>>)
    ensures r.Ok? ==> r.value.next >= off
    ensures off >= end ==> r == Ok(Read([], off))
    decreases Remaining(data, off), 4
  {
    if off >= end then Ok(Read([], off))
    else
      var Read(p, o) :- ReadProperty(data, off);
      match p
      case None => Ok(Read([], o))
      case Some(q) => PrependTo([q], ReadUntilNone(data, o, end))
  }

  // ---------------------------------------------------------------------------------------------
  // The other from_bytes methods

  /** A value byte (any non-zero byte is true) and a zero byte; the declared size must be 0. */
  function BoolFromBytes(name: string, size: nat, tag: nat, data: seq<byte>, off: nat)
    : (r: Result<Read<Property>>)
    ensures r.Ok? <==> size == 0 && off + 1 < |data| && data[off + 1] == 0
    ensures r.Ok? ==> r.value == Read(BoolProperty(name, tag, size, data[off] != 0), off + 2)
  {
    var _ :- Check(size == 0);
    var b :- ByteAt(data, off);
    var o :- ExpectZero(data, off + 1);
    Ok(Read(BoolProperty(name, tag, size, b != 0), o))
  }

  /** An enum-name FString, a zero byte, then one byte (size 1) or a value-name FString. */
  function ByteFromBytes(name: string, size: nat, tag: nat, data: seq<byte>, off: nat)
    : (r: Result<Read<Property>>)
    ensures r.Ok? ==> r.value.next >= off + 6
    ensures r.Ok? ==> var p := r.value.value;
      p.ByteProperty? && p.name == name && p.tag == tag && p.size == size
      && (size == 1 <==> p.byteValue.ByteNum?)
  {
    var Read(guid, o1) :- ReadString(data, off);
    var o2 :- ExpectZero(data, o1);
    if size == 1 then
      var b :- ByteAt(data, o2);
      Ok(Read(ByteProperty(name, tag, size, guid, ByteNum(b)), o2 + 1))
    else
      var Read(v, o3) :- ReadString(data, o2);
      Ok(Read(ByteProperty(name, tag, size, guid, ByteName(v)), o3))
  }

  /** An 8-byte double payload; the declared size must be 8. */
  function DoubleFromBytes(name: string, size: nat, tag: nat, data: seq<byte>, off: nat)
    : (r: Result<Read<Property>>)
    ensures r.Ok? <==> size == 8 && off + 8 <= |data|
    ensures r.Ok? ==> r.value == Read(DoubleProperty(name, tag, size, data[off..off + 8]), off + 8)
  {
    var _ :- Check(size == 8);
    var Read(v, o) :- ReadRaw(data, off, 8);
    Ok(Read(DoubleProperty(name, tag, size, v), o))
  }

  /** A 4-byte float payload; the declared size must be 4. */
  function FloatFromBytes(name: string, size: nat, tag: nat, data: seq<byte>, off: nat)
    : (r: Result<Read<Property>>)
    ensures r.Ok? <==> size == 4 && off + 4 <= |data|
    ensures r.Ok? ==> r.value == Read(FloatProperty(name, tag, size, data[off..off + 4]), off + 4)
  {
    var _ :- Check(size == 4);
    var Read(v, o) :- ReadRaw(data, off, 4);
    Ok(Read(FloatProperty(name, tag, size, v), o))
  }

  /** A signed 64-bit value; the declared size must be 8. */
  function Int64FromBytes(name: string, size: nat, tag: nat, data: seq<byte>, off: nat)
    : (r: Result<Read<Property>>)
    ensures r.Ok? <==> size == 8 && off + 8 <= |data|
    ensures r.Ok? ==> r.value == Read(Int64Property(name, tag, size, ReadI64(data, off).value.value), off + 8)
  {
    var _ :- Check(size == 8);
    var Read(v, o) :- ReadI64(data, off);
    Ok(Read(Int64Property(name, tag, size, v), o))
  }

  /** A signed 32-bit value then the extra tag byte; the declared size must be 4. */
  function IntFromBytes(name: string, size: nat, tag: nat, data: seq<byte>, off: nat)
    : (r: Result<Read<Property>>)
    ensures r.Ok? <==> size == 4 && off + 5 <= |data|
    ensures r.Ok? ==> r.value == Read(IntProperty(name, tag, size, ReadI32(data, off).value.value, data[off + 4]), off + 5)
  {
    var _ :- Check(size == 4);
    var Read(v, _) :- ReadI32(data, off);
    var intTag :- ByteAt(data, off + 4);
    Ok(Read(IntPropertyOf(name, tag, size, v, intTag), off + 5))
  }

  /** Key and value type FStrings, a zero byte, the u32 entry count, `size - 5` raw entry bytes and
      a zero byte. */
  function MapFromBytes(name: string, size: nat, tag: nat, data: seq<byte>, off: nat)
    : (r: Result<Read<Property>>)
    ensures r.Ok? ==> r.value.next >= off + 9
    ensures r.Ok? ==> var p := r.value.value;
      p.MapProperty? && p.name == name && p.tag == tag && p.size == size && p.mapSize < U32_MOD
  {
    var Read(kt, o1) :- ReadString(data, off);
    var Read(vt, o2) :- ReadString(data, o1);
    var o3 :- ExpectZero(data, o2);
    var Read(count, o4) :- ReadU32(data, o3);
    var raw := Slice(data, o4, o4 + size - 5);
    var o5 :- ExpectZero(data, o4 + size - 5);
    Ok(Read(MapProperty(name, tag, size, kt, vt, count, raw), o5))
  }

  /** A zero byte then an FString whose length plus 5 must be the declared size. */
  function NameFromBytes(name: string, size: nat, tag: nat, data: seq<byte>, off: nat)
    : (r: Result<Read<Property>>)
    ensures r.Ok? ==> r.value.next >= off + 5
    ensures r.Ok? ==> var p := r.value.value;
      && p.NameProperty? && p.name == name && p.tag == tag && p.size == size && |p.text| + 5 == size
      && ReadString(data, off + 1) == Ok(Read(p.text, r.value.next))
  {
    var o1 :- ExpectZero(data, off);
    var Read(v, o2) :- ReadString(data, o1);
    var _ :- Check(|v| + 4 + 1 == size);
    Ok(Read(NameProperty(name, tag, size, v), o2))
  }

  /** Same layout and size rule as `NameProperty`. */
  function ObjectFromBytes(name: string, size: nat, tag: nat, data: seq<byte>, off: nat)
    : (r: Result<Read<Property>>)
    ensures r.Ok? ==> r.value.next >= off + 5
    ensures r.Ok? ==> var p := r.value.value;
      && p.ObjectProperty? && p.name == name && p.tag == tag && p.size == size && |p.text| + 5 == size
      && ReadString(data, off + 1) == Ok(Read(p.text, r.value.next))
  {
    var o1 :- ExpectZero(data, off);
    var Read(v, o2) :- ReadString(data, o1);
    var _ :- Check(|v| + 4 + 1 == size);
    Ok(Read(ObjectProperty(name, tag, size, v), o2))
  }

  /** A zero byte then an FString; the size must be its length + 4, plus 1 when it is non-empty. */
  function StrFromBytes(name: string, size: nat, tag: nat, data: seq<byte>, off: nat)
    : (r: Result<Read<Property>>)
    ensures r.Ok? ==> r.value.next >= off + 5
    ensures r.Ok? ==> var p := r.value.value;
      && p.StrProperty? && p.name == name && p.tag == tag && p.size == size && size == |p.text| + 4 + (if p.text != "" then 1 else 0)
      && ReadString(data, off + 1) == Ok(Read(p.text, r.value.next))
  {
    var o1 :- ExpectZero(data, off);
    var Read(v, o2) :- ReadString(data, o1);
    var _ :- Check(size == |v| + 4 + (if v != "" then 1 else 0));
    Ok(Read(StrProperty(name, tag, size, v), o2))
  }

  /** `size` raw bytes (clipped at the end of the buffer), then a zero byte that is skipped. */
  function TextFromBytes(name: string, size: nat, tag: nat, data: seq<byte>, off: nat)
    : (r: Result<Read<Property>>)
    ensures r == Ok(Read(TextProperty(name, tag, size, Slice(data, off, off + size)), off + size + 1))
  {
    Ok(Read(TextProperty(name, tag, size, Slice(data, off, off + size)), off + size + 1))
  }

  /** An unsigned 64-bit value; the declared size must be 8. */
  function UInt64FromBytes(name: string, size: nat, tag: nat, data: seq<byte>, off: nat)
    : (r: Result<Read<Property>>)
    ensures r.Ok? <==> size == 8 && off + 8 <= |data|
    ensures r.Ok? ==> r.value == Read(UInt64Property(name, tag, size, ReadU64(data, off).value.value), off + 8)
  {
    var _ :- Check(size == 8);
    var Read(v, o) :- ReadU64(data, off);
    Ok(Read(UInt64Property(name, tag, size, v), o))
  }

  // ---------------------------------------------------------------------------------------------
  // StructProperty.from_bytes

  /** The struct type FString, a 16-byte GUID, a zero byte, then the body. */
  function StructFromBytes(name: string, size: nat, tag: nat, data: seq<byte>, off: nat)
    : (r: Result<Read<Property>>)
    ensures r.Ok? ==> r.value.next >= off
    ensures r.Ok? ==> var p := r.value.value;
      && p.StructProperty? && p.name == name && p.tag == tag && p.size == size
      && off + 4 <= |data| && p.structType == ReadString(data, off).value.value
      && p.guid == ReadGuid(data, ReadString(data, off).value.next).value
    decreases Remaining(data, off), 0
  {
    var Read(stype, o1) :- ReadString(data, off);
    var Read(guid, o2) := ReadGuid(data, o1);
    var o3 :- ExpectZero(data, o2);
    var Read(fields, o4) :- StructBody(stype, size, data, o3);
    Ok(Read(StructProperty(name, tag, size, stype, guid, fields), o4))
  }

  /** The fields of a struct: four (Quat) or three (Vector) float payloads named X, Y, Z, W; the
      int64 `Ticks` (DateTime); a `Value` string holding the GUID text (Guid); for any other struct
      type, the fields read up to the first None or `size` bytes. The fixed layouts check `size`. */
  function StructBody(stype: string, size: nat, data: seq<byte>, off: nat): (r: Result<Read<seq<Property>>>)
    ensures r.Ok? ==> r.value.next >= off
    ensures !IsFixedStruct(stype) ==> r == ReadFields(data, off, size)
    decreases Remaining(data, off), 6
  {
    if stype == "Quat" then
      var _ :- Check(size == 16);
      var Read(raw, o) :- ReadRaw(data, off, 16);
      Ok(Read(FloatFields(raw), o))
    else if stype == "Vector" then
      var _ :- Check(size == 12);
      var Read(raw, o) :- ReadRaw(data, off, 12);
      Ok(Read(FloatFields(raw), o))
    else if stype == "DateTime" then
      var _ :- Check(size == 8);
      var Read(ticks, o) :- ReadI64(data, off);
      Ok(Read([Int64Property("Ticks", 0, 8, ticks)], o))
    else if stype == "Guid" then
      var _ :- Check(size == 16);
      var text :- GuidStructText(Slice(data, off, off + 16));
      Ok(Read([StrProperty("Value", 0, 36 + 4 + 1, text)], off + 16))
    else
      ReadFields(data, off, size)
  }

  /** A Quat is exactly 16 bytes of four float payloads X, Y, Z, W. */
  lemma StructBodyQuat(size: nat, data: seq<byte>, off: nat)
    ensures var r := StructBody("Quat", size, data, off);
      && (r.Ok? <==> size == 16 && off + 16 <= |data|)
      && (r.Ok? ==> r.value == Read(FloatFields(data[off..off + 16]), off + 16))
  {
  }

  /** A Vector is exactly 12 bytes of three float payloads X, Y, Z. */
  lemma StructBodyVector(size: nat, data: seq<byte>, off: nat)
    ensures var r := StructBody("Vector", size, data, off);
      && (r.Ok? <==> size == 12 && off + 12 <= |data|)
      && (r.Ok? ==> r.value == Read(FloatFields(data[off..off + 12]), off + 12))
  {
  }

  /** A DateTime is exactly 8 bytes: one int64 field `Ticks`. */
  lemma StructBodyDateTime(size: nat, data: seq<byte>, off: nat)
    ensures var r := StructBody("DateTime", size, data, off);
      && (r.Ok? <==> size == 8 && off + 8 <= |data|)
      && (r.Ok? ==> r.value == Read([Int64Property("Ticks", 0, 8, ReadI64(data, off).value.value)], off + 8))
  {
  }

  /** A Guid struct is exactly 16 bytes, kept as one string field `Value` holding the GUID text
      when the 16 bytes are there; whenever it succeeds at least 8 bytes were there and the
      offset moves 16. */
  lemma StructBodyGuid(size: nat, data: seq<byte>, off: nat)
    ensures var r := StructBody("Guid", size, data, off);
      && (off + 16 <= |data| ==>
            (r.Ok? <==> size == 16)
            && (r.Ok? ==> r.value == Read([StrProperty("Value", 0, 41, GuidText(data[off..off + 16]))], off + 16)))
      && (r.Ok? ==> off + 8 <= |data| && r.value.next == off + 16)
  {
  }

  /** The struct types with a fixed layout in place of a field list. */
  predicate IsFixedStruct(stype: string) {
    stype == "Quat" || stype == "Vector" || stype == "DateTime" || stype == "Guid"
  }

  const AXES: seq<string> := ["X", "Y", "Z", "W"]

  /** The float fields of a Vector (12 bytes: X, Y, Z) or Quat (16 bytes: X, Y, Z, W) payload,
      each with tag 0 and size 4. */
  function FloatFields(raw: seq<byte>): (fs: seq<Property>)
    requires |raw| == 12 || |raw| == 16
    ensures |fs| == |raw| / 4
    ensures forall i :: 0 <= i < |fs| ==> fs[i] == FloatProperty(AXES[i], 0, 4, raw[4 * i..4 * i + 4])
  {
    var xyz := [FloatProperty("X", 0, 4, raw[0..4]), FloatProperty("Y", 0, 4, raw[4..8]),
                FloatProperty("Z", 0, 4, raw[8..12])];
    if |raw| == 16 then xyz + [FloatProperty("W", 0, 4, raw[12..16])] else xyz
  }

  // ---------------------------------------------------------------------------------------------
  // _read_properties

  /** `_read_properties(data, offset, end_offset)`: read properties while the offset is below
      `end`; a None is skipped and reading goes on. */
  function ReadProperties(data: seq<byte>, off: nat, end: int): (r: Result<Read<seq<Property>>>)
    ensures r.Ok? ==> r.value.next >= off && (off < end ==> r.value.next >= end)
    ensures off >= end ==> r == Ok(Read([], off))
    decreases Remaining(data, off)
  {
    if off >= end then Ok(Read([], off))
    else
      var Read(p, o) :- ReadProperty(data, off);
      match p
      case None => ReadProperties(data, o, end)
      case Some(q) => PrependTo([q], ReadProperties(data, o, end))
  }

  // ---------------------------------------------------------------------------------------------
  // Properties of _read_property

  /** The names "None" and "" end a property list: only the name is consumed. */
  lemma ReadPropertyTerminator(data: seq<byte>, off: nat)
    requires ReadString(data, off).Ok?
    requires ReadString(data, off).value.value == "None" || ReadString(data, off).value.value == ""
    ensures ReadProperty(data, off) == Ok(Read(None, ReadString(data, off).value.next))
  {
  }

  /** Any other name is followed by the type name, the u32 size and the u32 tag, and the record
      read keeps all four. */
  lemma ReadPropertyHeader(data: seq<byte>, off: nat)
    requires ReadProperty(data, off).Ok? && ReadProperty(data, off).value.value.Some?
    ensures var Read(name, o1) := ReadString(data, off).value;
      var Read(ptype, o2) := ReadString(data, o1).value;
      var p := ReadProperty(data, off).value.value.value;
      && name != "None" && name != ""
      && p.name == name && ClassName(p) == ptype
      && p.size == ReadU32(data, o2).value.value && p.tag == ReadU32(data, o2 + 4).value.value
  {
    var Read(name, o1) := ReadString(data, off).value;
    var Read(ptype, o2) := ReadString(data, o1).value;
    var Read(size, o3) := ReadU32(data, o2).value;
    var Read(tag, o4) := ReadU32(data, o3).value;
    var created := CreateProperty(name, ptype, size, tag, data, o4);
    assert ReadProperty(data, off) == Ok(Read(Some(created.value.value), created.value.next));
  }

  /** A type name that is not one of the 14 classes raises `ValueError` once the header is read. */
  lemma ReadPropertyUnknownType(data: seq<byte>, off: nat)
    requires ReadString(data, off).Ok?
    requires var Read(name, o1) := ReadString(data, off).value;
      && name != "None" && name != "" && ReadString(data, o1).Ok?
      && ReadString(data, o1).value.next + 8 <= |data|
      && LookupClass(ReadString(data, o1).value.value).None?
    ensures ReadProperty(data, off)
      == Err(ValueError("Unknown property type: " + ReadString(data, ReadString(data, off).value.next).value.value))
  {
  }
}
