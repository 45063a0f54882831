/** The property decoder of uesave.py as the Python code runs it: the `while` loops of
    `parse_properties`, of `StructProperty.from_bytes` and of struct arrays in
    `ArrayProperty.from_bytes`, with the offset updated step by step. Each method returns exactly
    what the matching function of module Legacy specifies, for either loop bound. */
module LegacyReader {
  import opened Bytes
  import opened FString
  import opened Legacy
  import Properties
  import Reader
  import Guid

  /** One entry of a property list. */
  method ReadEntryM(bound: Bound, data: seq<byte>, off: nat) returns (r: Result<Read<Option<Property>>>)
    ensures r == ReadEntry(bound, data, off)
    decreases Remaining(data, off), 3
  {
    var nameRead :- ReadString(data, off);
    if nameRead.value == "None" {
      return Ok(Read(None, nameRead.next));
    }
    var typeRead :- ReadString(data, nameRead.next);
    var sizeRead :- ReadU32(data, typeRead.next);
    var tagRead :- ReadU32(data, sizeRead.next);
    var created := CreatePropertyM(bound, nameRead.value, typeRead.value, sizeRead.value, data, tagRead.next);
    var prop :- created;
    return Ok(Read(Some(prop.value), prop.next));
  }

  /** `PropertyFactory.create_property`: arrays and structs run their loops, the other classes
      read a fixed layout. */
  method CreatePropertyM(bound: Bound, name: string, ptype: string, size: nat, data: seq<byte>, off: nat)
    returns (r: Result<Read<Property>>)
    ensures r == CreateProperty(bound, name, ptype, size, data, off)
    decreases Remaining(data, off), 2
  {
    var cls := Properties.LookupClass(ptype);
    if cls == Some(Properties.ArrayClass) {
      r := ArrayFromBytesM(bound, name, size, data, off);
    } else if cls == Some(Properties.StructClass) {
      r := StructFromBytesM(bound, name, size, data, off);
    } else {
      r := CreateProperty(bound, name, ptype, size, data, off);
    }
  }

  /** `ArrayProperty.from_bytes`. */
  method ArrayFromBytesM(bound: Bound, name: string, size: nat, data: seq<byte>, off: nat)
    returns (r: Result<Read<Property>>)
    ensures r == ArrayFromBytes(bound, name, size, data, off)
    decreases Remaining(data, off), 1
  {
    var innerRead :- ReadString(data, off);
    var inner := innerRead.value;
    var offset := innerRead.next + 1;
    var countRead :- ReadU32(data, offset);
    offset := countRead.next;
    var body := ArrayBodyM(bound, inner, size, data, offset);
    var read :- body;
    return Ok(Read(ArrayProperty(name, inner, read.value), read.next));
  }

  /** The values of an array: raw bytes, or the struct loop. */
  method ArrayBodyM(bound: Bound, inner: string, size: nat, data: seq<byte>, off: nat)
    returns (r: Result<Read<ArrayValues>>)
    requires off >= 4
    ensures r == ArrayBody(bound, inner, size, data, off)
    decreases Remaining(data, off), 5
  {
    if inner == "StructProperty" {
      var end := LoopEnd(bound, off, size);
      var values := ParsePropertiesM(bound, data, off, end);
      var read :- values;
      return Ok(Read(PropValues(read.value), read.next));
    }
    return ArrayBody(bound, inner, size, data, off);
  }

  /** `StructProperty.from_bytes`. */
  method StructFromBytesM(bound: Bound, name: string, size: nat, data: seq<byte>, off: nat)
    returns (r: Result<Read<Property>>)
    ensures r == StructFromBytes(bound, name, size, data, off)
    decreases Remaining(data, off), 1
  {
    var typeRead :- ReadString(data, off);
    var stype := typeRead.value;
    var offset := typeRead.next;
    var guid := Guid.Hex(Slice(data, offset, offset + 16));
    offset := offset + 16;
    offset := offset + 1;
    var body := StructBodyM(bound, stype, size, data, offset);
    var read :- body;
    return Ok(Read(StructProperty(name, stype, guid, read.value), read.next));
  }

  /** The fields of a struct: a fixed float layout, or the property loop. */
  method StructBodyM(bound: Bound, stype: string, size: nat, data: seq<byte>, off: nat)
    returns (r: Result<Read<seq<Property>>>)
    ensures r == StructBody(bound, stype, size, data, off)
    decreases Remaining(data, off), 5
  {
    if stype == "Quat" || stype == "Vector" {
      return StructBody(bound, stype, size, data, off);
    }
    var end := LoopEnd(bound, off, size);
    r := ParsePropertiesM(bound, data, off, end);
  }

  /** `parse_properties(data, offset, end_offset)`, and the loop of the struct readers:
      `while offset < end_offset`, leaving the loop at a "None" name. */
  method ParsePropertiesM(bound: Bound, data: seq<byte>, off: nat, end: int) returns (r: Result<Read<seq<Property>>>)
    ensures r == ParseProperties(bound, data, off, end)
    decreases Remaining(data, off), 4
  {
    var properties: seq<Property> := [];
    var offset := off;
    Reader.PrependToNil(ParseProperties(bound, data, off, end));
    while offset < end
      invariant offset >= off
      invariant ParseProperties(bound, data, off, end) == PrependTo(properties, ParseProperties(bound, data, offset, end))
      decreases Remaining(data, offset)
    {
      var entry := ReadEntryM(bound, data, offset);
      if entry.Err? {
        return Err(entry.error);
      }
      var Read(prop, next) := entry.value;
      if prop.None? {
        assert properties + [] == properties;
        return Ok(Read(properties, next));
      }
      Reader.PrependToSnoc(properties, prop.value, ParseProperties(bound, data, next, end));
      properties, offset := properties + [prop.value], next;
    }
    assert properties + [] == properties;
    return Ok(Read(properties, offset));
  }
}
