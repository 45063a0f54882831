/** The property decoder of uesave/__init__.py as the Python code runs it: the `for` and `while`
    loops of `ArrayProperty.from_bytes`, `StructProperty.from_bytes` and `_read_properties`, with
    the offset updated step by step. Each method returns exactly what the matching function of
    module Decode specifies. */
module Reader {
  import opened Bytes
  import opened FString
  import opened Guid
  import opened Properties
  import opened Decode
  import opened Header

  /** Appending one element to the accumulator is prepending it to what is left to read. */
  lemma PrependToSnoc<T>(acc: seq<T>, x: T, r: Result<Read<seq<T>>>)
    ensures PrependTo(acc, PrependTo([x], r)) == PrependTo(acc + [x], r)
  {
    if r.Ok? {
      assert acc + ([x] + r.value.value) == (acc + [x]) + r.value.value;
    }
  }

  lemma PrependToNil<T>(r: Result<Read<seq<T>>>)
    ensures PrependTo([], r) == r
  {
    if r.Ok? {
      assert [] + r.value.value == r.value.value;
    }
  }

  /** `_read_property`. */
  method ReadPropertyM(data: seq<byte>, off: nat) returns (r: Result<Read<Option<Property>>>)
    ensures r == ReadProperty(data, off)
    decreases Remaining(data, off), 3
  {
    var nameRead :- ReadString(data, off);
    var name, o1 := nameRead.value, nameRead.next;
    if name == "None" || name == "" {
      return Ok(Read(None, o1));
    }
    var ptypeRead :- ReadString(data, o1);
    var ptype, o2 := ptypeRead.value, ptypeRead.next;
    var sizeRead :- ReadU32(data, o2);
    var size, o3 := sizeRead.value, sizeRead.next;
    var tagRead :- ReadU32(data, o3);
    var tag, o4 := tagRead.value, tagRead.next;
    var prop := CreatePropertyM(name, ptype, size, tag, data, o4);
    var pRead :- prop;
    var p, o5 := pRead.value, pRead.next;
    return Ok(Read(Some(p), o5));
  }

  /** `PropertyFactory.create_property`: the array and struct readers run their loops; the other
      classes read a fixed layout. */
  method CreatePropertyM(name: string, ptype: string, size: nat, tag: nat, data: seq<byte>, off: nat)
    returns (r: Result<Read<Property>>)
    ensures r == CreateProperty(name, ptype, size, tag, data, off)
    decreases Remaining(data, off), 2
  {
    var cls := LookupClass(ptype);
    if cls == Some(ArrayClass) {
      r := ArrayFromBytesM(name, size, tag, data, off);
    } else if cls == Some(StructClass) {
      r := StructFromBytesM(name, size, tag, data, off);
    } else {
      r := CreateProperty(name, ptype, size, tag, data, off);
    }
  }

  /** `ArrayProperty.from_bytes`. */
  method ArrayFromBytesM(name: string, size: nat, tag: nat, data: seq<byte>, off: nat)
    returns (r: Result<Read<Property>>)
    ensures r == ArrayFromBytes(name, size, tag, data, off)
    decreases Remaining(data, off), 1
  {
    var innerRead :- ReadString(data, off);
    var o2 :- ExpectZero(data, innerRead.next);
    var body :- ArrayBodyM(innerRead.value, size, data, o2);
    var Read((count, values), offset) := body;
    return Ok(Read(ArrayProperty(name, tag, size, innerRead.value, count, values), offset));
  }

  /** The count and the values of an array, as `ArrayProperty.from_bytes` reads them. */
  method ArrayBodyM(inner: string, size: nat, data: seq<byte>, off: nat)
    returns (r: Result<Read<(nat, ArrayValues)>>)
    ensures r == ArrayBody(inner, size, data, off)
    decreases Remaining(data, off), 6
  {
    var countRead :- ReadU32(data, off);
    if inner == "ByteProperty" {
      r := ArrayBody(inner, size, data, off);
    } else if inner == "StrProperty" || inner == "NameProperty" {
      var read := ReadStringsM(data, countRead.next, countRead.value);
      r := if read.Err? then Err(read.error) else Ok(Read((countRead.value, StrValues(read.value.value)), read.value.next));
    } else if inner == "IntProperty" {
      var read := ReadIntsM(data, countRead.next, countRead.value);
      r := if read.Err? then Err(read.error) else Ok(Read((countRead.value, IntValues(read.value.value)), read.value.next));
    } else if inner == "StructProperty" {
      var read := ReadFieldsM(data, countRead.next, size);
      r := if read.Err? then Err(read.error) else Ok(Read((countRead.value, PropValues(read.value.value)), read.value.next));
    } else if inner == "FloatProperty" {
      var read := ReadFloatsM(data, countRead.next, countRead.value);
      r := if read.Err? then Err(read.error) else Ok(Read((countRead.value, FloatValues(read.value.value)), read.value.next));
    } else {
      r := ArrayBody(inner, size, data, off);
    }
  }

  /** The string loop of `ArrayProperty.from_bytes`. */
  method ReadStringsM(data: seq<byte>, off: nat, count: nat) returns (r: Result<Read<seq<string>>>)
    ensures r == ReadStrings(data, off, count)
  {
    var values: seq<string> := [];
    var offset := off;
    PrependToNil(ReadStrings(data, off, count));
    for i := 0 to count
      invariant ReadStrings(data, off, count) == PrependTo(values, ReadStrings(data, offset, count - i))
    {
      var read := ReadString(data, offset);
      if read.Err? {
        return Err(read.error);
      }
      PrependToSnoc(values, read.value.value, ReadStrings(data, read.value.next, count - i - 1));
      values, offset := values + [read.value.value], read.value.next;
    }
    assert values + [] == values;
    return Ok(Read(values, offset));
  }

  /** The int loop of `ArrayProperty.from_bytes`. */
  method ReadIntsM(data: seq<byte>, off: nat, count: nat) returns (r: Result<Read<seq<int>>>)
    ensures r == ReadInts(data, off, count)
  {
    var values: seq<int> := [];
    var offset := off;
    PrependToNil(ReadInts(data, off, count));
    for i := 0 to count
      invariant ReadInts(data, off, count) == PrependTo(values, ReadInts(data, offset, count - i))
    {
      var read := ReadI32(data, offset);
      if read.Err? {
        return Err(read.error);
      }
      PrependToSnoc(values, read.value.value, ReadInts(data, read.value.next, count - i - 1));
      values, offset := values + [read.value.value], read.value.next;
    }
    assert values + [] == values;
    return Ok(Read(values, offset));
  }

  /** The float loop of `ArrayProperty.from_bytes`: each value is 4 payload bytes. */
  method ReadFloatsM(data: seq<byte>, off: nat, count: nat) returns (r: Result<Read<seq<seq<byte>>>>)
    ensures r == ReadFloats(data, off, count)
  {
    var values: seq<seq<byte>> := [];
    var offset := off;
    PrependToNil(ReadFloats(data, off, count));
    for i := 0 to count
      invariant ReadFloats(data, off, count) == PrependTo(values, ReadFloats(data, offset, count - i))
    {
      var read := ReadRaw(data, offset, 4);
      if read.Err? {
        return Err(read.error);
      }
      PrependToSnoc(values, read.value.value, ReadFloats(data, read.value.next, count - i - 1));
      values, offset := values + [read.value.value], read.value.next;
    }
    assert values + [] == values;
    return Ok(Read(values, offset));
  }

  /** The `while offset < end_offset` loop of the struct readers, with `end_offset` the offset
      plus `size`: stop after the first None. */
  method ReadFieldsM(data: seq<byte>, off: nat, size: nat) returns (r: Result<Read<seq<Property>>>)
    ensures r == ReadFields(data, off, size)
    decreases Remaining(data, off), 5
  {
    var values: seq<Property> := [];
    var offset := off;
    PrependToNil(ReadUntilNone(data, off, off + size));
    while offset < off + size
      invariant offset >= off
      invariant ReadUntilNone(data, off, off + size) == PrependTo(values, ReadUntilNone(data, offset, off + size))
      decreases Remaining(data, offset)
    {
      var read := ReadPropertyM(data, offset);
      if read.Err? {
        return Err(read.error);
      }
      var Read(value, next) := read.value;
      if value.None? {
        assert values + [] == values;
        return Ok(Read(values, next));
      }
      PrependToSnoc(values, value.value, ReadUntilNone(data, next, off + size));
      values, offset := values + [value.value], next;
    }
    assert values + [] == values;
    return Ok(Read(values, offset));
  }

  /** `StructProperty.from_bytes`. */
  method StructFromBytesM(name: string, size: nat, tag: nat, data: seq<byte>, off: nat)
    returns (r: Result<Read<Property>>)
    ensures r == StructFromBytes(name, size, tag, data, off)
    decreases Remaining(data, off), 1
  {
    var typeRead :- ReadString(data, off);
    var Read(guid, o2) := ReadGuid(data, typeRead.next);
    var o3 :- ExpectZero(data, o2);
    var fields :- StructBodyM(typeRead.value, size, data, o3);
    return Ok(Read(StructProperty(name, tag, size, typeRead.value, guid, fields.value), fields.next));
  }

  /** The fields of a struct: a fixed layout for the four built-in struct types, otherwise the
      property loop. */
  method StructBodyM(stype: string, size: nat, data: seq<byte>, off: nat)
    returns (r: Result<Read<seq<Property>>>)
    ensures r == StructBody(stype, size, data, off)
    decreases Remaining(data, off), 6
  {
    if IsFixedStruct(stype) {
      r := StructBody(stype, size, data, off);
    } else {
      r := ReadFieldsM(data, off, size);
    }
  }

  /** `_read_properties(data, offset, end_offset)`: a None is skipped and the loop goes on. */
  method ReadPropertiesM(data: seq<byte>, off: nat, end: int) returns (r: Result<Read<seq<Property>>>)
    ensures r == ReadProperties(data, off, end)
  {
    var props: seq<Property> := [];
    var offset := off;
    PrependToNil(ReadProperties(data, off, end));
    while offset < end
      invariant offset >= off
      invariant ReadProperties(data, off, end) == PrependTo(props, ReadProperties(data, offset, end))
      decreases Remaining(data, offset)
    {
      var read := ReadPropertyM(data, offset);
      if read.Err? {
        return Err(read.error);
      }
      var Read(prop, next) := read.value;
      if prop.Some? {
        PrependToSnoc(props, prop.value, ReadProperties(data, next, end));
        props := props + [prop.value];
      }
      offset := next;
    }
    assert props + [] == props;
    return Ok(Read(props, offset));
  }

  /** The `for _ in range(cnt)` loop of `_read_gvas_header`: a GUID and an i32 version each. */
  method ReadCustomVersionsM(data: seq<byte>, off: nat, count: nat) returns (r: Result<Read<seq<CustomVersion>>>)
    ensures r == ReadCustomVersions(data, off, count)
  {
    var customs: seq<CustomVersion> := [];
    var offset := off;
    var left := count;
    PrependToNil(ReadCustomVersions(data, off, count));
    while left > 0
      invariant ReadCustomVersions(data, off, count) == PrependTo(customs, ReadCustomVersions(data, offset, left))
    {
      var entryRead := ReadCustomVersion(data, offset);
      if entryRead.Err? {
        return Err(entryRead.error);
      }
      var Read(entry, next) := entryRead.value;
      PrependToSnoc(customs, entry, ReadCustomVersions(data, next, left - 1));
      customs, offset, left := customs + [entry], next, left - 1;
    }
    assert customs + [] == customs;
    return Ok(Read(customs, offset));
  }

  /** `_read_gvas_header(data, offset)`. */
  method ReadGvasHeaderM(data: seq<byte>, off: nat) returns (r: Result<Read<Header>>)
    ensures r == ReadGvasHeader(data, off)
  {
    if Slice(data, off, off + 4) != MAGIC {
      return Err(NOT_GVAS);
    }
    var sgvRead :- ReadI32(data, off + 4);
    var versionsRead :- ReadFileVersions(data, sgvRead.next);
    var engineRead :- ReadEngineVersion(data, versionsRead.next);
    var fmtRead :- ReadI32(data, engineRead.next);
    var cntRead :- ReadI32(data, fmtRead.next);
    if !TableInRange(fmtRead.value, cntRead.value) {
      return Err(ValueError(""));
    }
    var customsRead :- ReadCustomVersionsM(data, cntRead.next, cntRead.value);
    var classRead :- ReadString(data, customsRead.next);
    if !PlausibleClassName(classRead.value) {
      return Err(AssertionError);
    }
    var h := Header(sgvRead.value, versionsRead.value, engineRead.value, fmtRead.value, customsRead.value, classRead.value);
    return Ok(Read(h, classRead.next));
  }
}
