/** The framing of one record as `_write_property` writes it and `_read_property` reads it
    (uesave/__init__.py): the name FString, the class-name FString, the u32 size field and the u32
    tag, then the class's body. */
module Framing {
  import opened Bytes
  import opened Unicode
  import opened FString
  import opened Properties

  /** `data` holds `bs` starting at `off`, byte by byte. */
  predicate HoldsAt(data: seq<byte>, off: nat, bs: seq<byte>)
    decreases |bs|
  {
    off <= |data| && (bs == [] || (off < |data| && data[off] == bs[0] && HoldsAt(data, off + 1, bs[1..])))
  }

  /** HoldsAt is the slice of `data` at `off` being `bs`. */
  lemma {:induction false} HoldsAtSlice(data: seq<byte>, off: nat, bs: seq<byte>)
    ensures HoldsAt(data, off, bs) <==> off + |bs| <= |data| && data[off..off + |bs|] == bs
    decreases |bs|
  {
    if bs != [] {
      HoldsAtSlice(data, off + 1, bs[1..]);
      if off + |bs| <= |data| {
        var d := data[off..off + |bs|];
        assert d == [data[off]] + data[off + 1..off + |bs|];
        assert d == bs <==> data[off] == bs[0] && data[off + 1..off + |bs|] == bs[1..];
      }
    }
  }

  /** Two consecutive byte strings are found one after the other. */
  lemma HoldsAtApart(data: seq<byte>, off: nat, a: seq<byte>, b: seq<byte>)
    requires HoldsAt(data, off, a + b)
    ensures HoldsAt(data, off, a) && HoldsAt(data, off + |a|, b)
  {
    HoldsAtSlice(data, off, a + b);
    SplitAt(data, off, a, b);
    HoldsAtSlice(data, off, a);
    HoldsAtSlice(data, off + |a|, b);
  }

  /** A name the writer emits in 4 + its length + 1 bytes and the reader reads back unchanged. */
  predicate AsciiName(s: string) {
    IsPlainAscii(s) && s != "" && |s| < I32_MAX
  }

  /** A property name the reader does not take for the end marker: besides being an ASCII name, it
      is not "None". */
  predicate NameReadsBack(name: string) {
    AsciiName(name) && name != "None"
  }

  lemma StringBytesLength5(s: string)
    requires AsciiName(s)
    ensures StringBytes(s).Ok? && |StringBytes(s).value| == 4 + |s| + 1
  {
    assert forall i :: 0 <= i < |s| ==> IsAsciiChar(s[i]);
    Utf8EncodeAscii(s);
    StringBytesLength(s);
  }

  lemma ClassNamesAsciiA()
    ensures IsPlainAscii("ArrayProperty")
      && IsPlainAscii("BoolProperty")
      && IsPlainAscii("ByteProperty")
      && IsPlainAscii("DoubleProperty")
      && IsPlainAscii("FloatProperty")
  {
  }

  lemma ClassNamesAsciiB()
    ensures IsPlainAscii("Int64Property")
      && IsPlainAscii("IntProperty")
      && IsPlainAscii("MapProperty")
      && IsPlainAscii("NameProperty")
      && IsPlainAscii("ObjectProperty")
  {
  }

  lemma ClassNamesAsciiC()
    ensures IsPlainAscii("StrProperty")
      && IsPlainAscii("StructProperty")
      && IsPlainAscii("TextProperty")
      && IsPlainAscii("UInt64Property")
  {
  }

  /** Every class name is plain ASCII, so it is written in 4 + its length + 1 bytes. */
  lemma TypeNameAscii(c: PropertyClass)
    ensures AsciiName(TypeName(c)) && |TypeName(c)| <= 14
  {
    ClassNamesAsciiA();
    ClassNamesAsciiB();
    ClassNamesAsciiC();
  }

  /** The bytes `_write_property` puts before the body: name, class name, size field and tag. */
  function RecordHead(name: string, ptype: string, size: int, tag: int): (h: seq<byte>)
    requires AsciiName(name) && AsciiName(ptype)
    ensures |h| == |name| + |ptype| + 18
  {
    StringBytesLength5(name);
    StringBytesLength5(ptype);
    StringBytes(name).value + StringBytes(ptype).value + U32Bytes(size) + U32Bytes(tag)
  }

  /** Four consecutive byte strings are found one after the other. */
  lemma Split4(data: seq<byte>, off: nat, a: seq<byte>, b: seq<byte>, c: seq<byte>, d: seq<byte>)
    requires HoldsAt(data, off, a + b + c + d)
    ensures HoldsAt(data, off, a) && HoldsAt(data, off + |a|, b)
    ensures HoldsAt(data, off + |a| + |b|, c) && HoldsAt(data, off + |a| + |b| + |c|, d)
  {
    HoldsAtApart(data, off, a + b + c, d);
    HoldsAtApart(data, off, a + b, c);
    HoldsAtApart(data, off, a, b);
  }

  /** What `_read_property` has read once it is past the record head: the name up to `o1`, the
      class name up to `o2`, then the size field and the tag, ending at `o2 + 8`. */
  predicate HeadAt(data: seq<byte>, off: nat, name: string, ptype: string, size: nat, tag: nat, o1: nat, o2: nat) {
    && Yields(ReadString(data, off), name, o1)
    && Yields(ReadString(data, o1), ptype, o2)
    && Yields(ReadU32(data, o2), size, o2 + 4)
    && Yields(ReadU32(data, o2 + 4), tag, o2 + 8)
  }

  /** An ASCII name written at `off` reads back, 4 + its length + 1 bytes on. */
  lemma ReadNameAt(data: seq<byte>, off: nat, s: string)
    requires AsciiName(s) && HoldsAt(data, off, StringBytes(s).value)
    ensures Yields(ReadString(data, off), s, off + |s| + 5)
  {
    HoldsAtSlice(data, off, StringBytes(s).value);
    ReadStringOfStringBytes(data, off, s);
  }

  /** A u32 written at `off` reads back masked to 32 bits. */
  lemma ReadU32At(data: seq<byte>, off: nat, v: int)
    requires HoldsAt(data, off, U32Bytes(v))
    ensures Yields(ReadU32(data, off), v % U32_MOD, off + 4)
  {
    HoldsAtSlice(data, off, U32Bytes(v));
    ReadU32OfU32Bytes(data, off, v);
  }

  /** Where the four fields of a record head sit: the class name at `o1`, the size field at `o2`
      and the tag at `o2 + 4`. */
  lemma SplitHead(name: string, ptype: string, size: int, tag: int, data: seq<byte>, off: nat, o1: nat, o2: nat)
    requires AsciiName(name) && AsciiName(ptype) && HoldsAt(data, off, RecordHead(name, ptype, size, tag))
    requires o1 == off + |name| + 5 && o2 == o1 + |ptype| + 5
    ensures HoldsAt(data, off, StringBytes(name).value) && HoldsAt(data, o1, StringBytes(ptype).value)
    ensures HoldsAt(data, o2, U32Bytes(size)) && HoldsAt(data, o2 + 4, U32Bytes(tag))
  {
    StringBytesLength5(name);
    StringBytesLength5(ptype);
    Split4(data, off, StringBytes(name).value, StringBytes(ptype).value, U32Bytes(size), U32Bytes(tag));
  }

  /** The two FStrings of a record head, found where SplitHead puts them, read back. */
  lemma ReadHeadStrings(name: string, ptype: string, data: seq<byte>, off: nat, o1: nat, o2: nat)
    requires AsciiName(name) && AsciiName(ptype)
    requires o1 == off + |name| + 5 && o2 == o1 + |ptype| + 5
    requires HoldsAt(data, off, StringBytes(name).value) && HoldsAt(data, o1, StringBytes(ptype).value)
    ensures Yields(ReadString(data, off), name, o1) && Yields(ReadString(data, o1), ptype, o2)
  {
    ReadNameAt(data, off, name);
    ReadNameAt(data, o1, ptype);
  }

  /** The two u32 fields of a record head read back masked to 32 bits. */
  lemma ReadHeadNumbers(size: int, tag: int, data: seq<byte>, o2: nat)
    requires HoldsAt(data, o2, U32Bytes(size)) && HoldsAt(data, o2 + 4, U32Bytes(tag))
    ensures Yields(ReadU32(data, o2), size % U32_MOD, o2 + 4) && Yields(ReadU32(data, o2 + 4), tag % U32_MOD, o2 + 8)
  {
    ReadU32At(data, o2, size);
    ReadU32At(data, o2 + 4, tag);
  }

  /** A record is its head, then its body at `o2 + 8`. */
  lemma SplitRecord(name: string, ptype: string, size: int, tag: int, body: seq<byte>, data: seq<byte>, off: nat, o1: nat, o2: nat)
    requires AsciiName(name) && AsciiName(ptype)
    requires o1 == off + |name| + 5 && o2 == o1 + |ptype| + 5
    requires HoldsAt(data, off, RecordHead(name, ptype, size, tag) + body)
    ensures HoldsAt(data, off, RecordHead(name, ptype, size, tag)) && HoldsAt(data, o2 + 8, body)
  {
    HoldsAtApart(data, off, RecordHead(name, ptype, size, tag), body);
  }

  /** The whole record head reads back. */
  lemma ReadHead(name: string, ptype: string, size: int, tag: int, data: seq<byte>, off: nat, o1: nat, o2: nat)
    requires AsciiName(name) && AsciiName(ptype) && HoldsAt(data, off, RecordHead(name, ptype, size, tag))
    requires o1 == off + |name| + 5 && o2 == o1 + |ptype| + 5
    ensures HeadAt(data, off, name, ptype, size % U32_MOD, tag % U32_MOD, o1, o2)
  {
    SplitHead(name, ptype, size, tag, data, off, o1, o2);
    ReadHeadStrings(name, ptype, data, off, o1, o2);
    ReadHeadNumbers(size, tag, data, o2);
  }
}

/** `_read_property` (uesave/__init__.py) on records laid out as `_write_property` lays them out:
    past the head, the class reader sees the body. For the bool, int and str classes the record
    reads back as the property it was written from. */
module RecordReads {
  import opened Bytes
  import opened Unicode
  import opened FString
  import opened Properties
  import opened Decode
  import opened Framing

  /** `_read_property`'s result for a record whose class reader returned `r`. */
  function Lifted(r: Result<Read<Property>>): (q: Result<Read<Option<Property>>>)
    ensures r.Ok? ==> Yields(q, Some(r.value.value), r.value.next)
    ensures r.Err? ==> q == Err(r.error)
  {
    match r
    case Ok(Read(v, next)) => Ok(Read(Some(v), next))
    case Err(e) => Err(e)
  }

  /** Once the head has been read, `_read_property` returns what the class reader returns at the
      position right after it. */
  lemma ReadPropertyAfterHead(data: seq<byte>, off: nat, name: string, ptype: string, size: nat, tag: nat, o1: nat, o2: nat)
    requires name != "None" && name != "" && HeadAt(data, off, name, ptype, size, tag, o1, o2)
    ensures ReadProperty(data, off) == Lifted(CreateProperty(name, ptype, size, tag, data, o2 + 8))
  {
  }

  /** `PropertyFactory` hands a record of a fixed-layout class (any class but the array and struct
      classes) to that class's `from_bytes`. */
  lemma CreateFixed(c: PropertyClass, name: string, ptype: string, size: nat, tag: nat, data: seq<byte>, off: nat)
    requires LookupClass(ptype) == Some(c) && c != ArrayClass && c != StructClass
    ensures CreateProperty(name, ptype, size, tag, data, off) == FixedFromBytes(c, name, size, tag, data, off)
  {
  }

  /** Past a head naming a fixed-layout class, `_read_property` gives what that class's reader
      gives: its property, or its error. */
  lemma ReadFixedAfterHead(c: PropertyClass, data: seq<byte>, off: nat, name: string, ptype: string, size: nat, tag: nat, o1: nat, o2: nat)
    requires name != "None" && name != "" && HeadAt(data, off, name, ptype, size, tag, o1, o2)
    requires LookupClass(ptype) == Some(c) && c != ArrayClass && c != StructClass
    ensures ReadProperty(data, off) == Lifted(FixedFromBytes(c, name, size, tag, data, o2 + 8))
  {
    ReadPropertyAfterHead(data, off, name, ptype, size, tag, o1, o2);
    CreateFixed(c, name, ptype, size, tag, data, o2 + 8);
  }

  /** A record whose head names a fixed-layout class reads back as whatever that class's reader
      makes of the bytes after the head, `o2 + 8` on: the same property, or the same error. */
  lemma ReadFixedRecord(c: PropertyClass, name: string, ptype: string, size: int, tag: int, data: seq<byte>, off: nat, o1: nat, o2: nat)
    requires NameReadsBack(name) && AsciiName(ptype)
    requires LookupClass(ptype) == Some(c) && c != ArrayClass && c != StructClass
    requires o1 == off + |name| + 5 && o2 == o1 + |ptype| + 5
    requires HoldsAt(data, off, RecordHead(name, ptype, size, tag))
    ensures ReadProperty(data, off) == Lifted(FixedFromBytes(c, name, size % U32_MOD, tag % U32_MOD, data, o2 + 8))
  {
    ReadHead(name, ptype, size, tag, data, off, o1, o2);
    ReadFixedAfterHead(c, data, off, name, ptype, size % U32_MOD, tag % U32_MOD, o1, o2);
  }

  /** The bool reader on a flag byte and a zero byte. */
  lemma BoolBodyRead(name: string, tag: nat, b: byte, data: seq<byte>, off: nat)
    requires HoldsAt(data, off, [b, 0])
    ensures Yields(FixedFromBytes(BoolClass, name, 0, tag, data, off), BoolProperty(name, tag, 0, b != 0), off + 2)
  {
    HoldsAtSlice(data, off, [b, 0]);
    assert data[off..off + 2][0] == b && data[off..off + 2][1] == 0;
  }

  /** The int reader on the four bytes of an i32 and an int-tag byte. */
  lemma IntBodyRead(name: string, tag: nat, value: int, intTag: byte, data: seq<byte>, off: nat)
    requires I32_MIN <= value <= I32_MAX
    requires HoldsAt(data, off, I32Bytes(value).value + [intTag])
    ensures Yields(FixedFromBytes(IntClass, name, 4, tag, data, off), IntProperty(name, tag, 4, value, intTag), off + 5)
  {
    var b := I32Bytes(value).value;
    HoldsAtApart(data, off, b, [intTag]);
    HoldsAtSlice(data, off, b);
    HoldsAtSlice(data, off + 4, [intTag]);
    ReadI32OfI32Bytes(data, off, value);
  }

  /** The int reader fails its size assertion unless the size field is 4, whatever follows. */
  lemma IntBodyBadSize(name: string, size: nat, tag: nat, data: seq<byte>, off: nat)
    requires size != 4
    ensures FixedFromBytes(IntClass, name, size, tag, data, off) == Err(AssertionError)
  {
  }

  /** The str reader: a zero byte, then an FString whose length matches the size field. */
  lemma StrBodyRead(name: string, size: nat, tag: nat, text: string, data: seq<byte>, off: nat)
    requires IsPlainAscii(text) && |text| < I32_MAX && size == |text| + 4 + (if text != "" then 1 else 0)
    requires HoldsAt(data, off, [0] + StringBytes(text).value)
    ensures Yields(FixedFromBytes(StrClass, name, size, tag, data, off), StrProperty(name, tag, size, text), off + 1 + size)
  {
    var sb := StringBytes(text).value;
    HoldsAtApart(data, off, [0], sb);
    HoldsAtSlice(data, off + 1, sb);
    HoldsAtSlice(data, off, [0]);
    if text == "" {
      ReadStringOfEmpty(data, off + 1);
    } else {
      ReadStringOfStringBytes(data, off + 1, text);
    }
  }
}

/** `_read_property` after `_write_property` (uesave/__init__.py): a bool, int or str property with
    a plain-ASCII name, written and read back at any offset, is the same property, and the reader
    stops right after the bytes the writer appended. */
module RoundTrip {
  import opened Bytes
  import opened Unicode
  import opened FString
  import opened Properties
  import opened Decode
  import opened Encode
  import opened Framing
  import opened RecordReads

  /** The bytes of a record: its head, then its class's body. */
  lemma PropertyBytesSplit(p: Property)
    requires NameReadsBack(p.name) && BodyBytes(p).Ok?
    ensures AsciiName(ClassName(p))
    ensures PropertyBytes(p) == Ok(RecordHead(p.name, ClassName(p), SizeField(p), p.tag) + BodyBytes(p).value)
  {
    TypeNameAscii(ClassOf(p));
  }

  /** `_write_property(data, p)` appended the bytes of `p` at `off`; the name ends at `o1` and the
      class name at `o2`. */
  predicate WrittenAt(p: Property, data: seq<byte>, off: nat, o1: nat, o2: nat) {
    && NameReadsBack(p.name)
    && PropertyBytes(p).Ok?
    && o1 == off + |p.name| + 5
    && o2 == o1 + |ClassName(p)| + 5
    && HoldsAt(data, off, PropertyBytes(p).value)
  }

  predicate IsFixedClass(c: PropertyClass) {
    c != ArrayClass && c != StructClass
  }

  /** The body of a written record starts 8 bytes past the class name. */
  lemma BodyAt(p: Property, data: seq<byte>, off: nat, o1: nat, o2: nat)
    requires WrittenAt(p, data, off, o1, o2)
    ensures BodyBytes(p).Ok? && HoldsAt(data, o2 + 8, BodyBytes(p).value)
  {
    PropertyBytesSplit(p);
    SplitRecord(p.name, ClassName(p), SizeField(p), p.tag, BodyBytes(p).value, data, off, o1, o2);
  }

  /** A written record of a fixed-layout class reads back as that class's reader makes of the body
      the writer put after the head: the property it reads, or the error it raises. */
  lemma FixedRoundTrip(p: Property, data: seq<byte>, off: nat, o1: nat, o2: nat)
    requires WrittenAt(p, data, off, o1, o2) && IsFixedClass(ClassOf(p))
    ensures ReadProperty(data, off) == Lifted(FixedFromBytes(ClassOf(p), p.name, SizeField(p) % U32_MOD, p.tag % U32_MOD, data, o2 + 8))
  {
    PropertyBytesSplit(p);
    LookupTypeName(ClassOf(p));
    SplitRecord(p.name, ClassName(p), SizeField(p), p.tag, BodyBytes(p).value, data, off, o1, o2);
    ReadFixedRecord(ClassOf(p), p.name, ClassName(p), SizeField(p), p.tag, data, off, o1, o2);
  }

  /** The reader of `p`'s class, given the size field and tag the writer wrote for `p`, reads `q`
      from the body at `at`, ending at `next`. */
  predicate BodyYields(p: Property, data: seq<byte>, at: nat, q: Property, next: nat) {
    IsFixedClass(ClassOf(p)) && Yields(FixedFromBytes(ClassOf(p), p.name, SizeField(p) % U32_MOD, p.tag % U32_MOD, data, at), q, next)
  }

  /** Whatever the class reader makes of the body is what `_read_property` returns for the record. */
  lemma FixedReadsBack(p: Property, q: Property, next: nat, data: seq<byte>, off: nat, o1: nat, o2: nat)
    requires WrittenAt(p, data, off, o1, o2) && BodyYields(p, data, o2 + 8, q, next)
    ensures Yields(ReadProperty(data, off), Some(q), next)
  {
    FixedRoundTrip(p, data, off, o1, o2);
  }

  /** The error the class reader raises on the body is what `_read_property` raises for the record. */
  lemma FixedFailsBack(p: Property, e: Error, data: seq<byte>, off: nat, o1: nat, o2: nat)
    requires WrittenAt(p, data, off, o1, o2) && IsFixedClass(ClassOf(p))
    requires FixedFromBytes(ClassOf(p), p.name, SizeField(p) % U32_MOD, p.tag % U32_MOD, data, o2 + 8) == Err(e)
    ensures ReadProperty(data, off) == Err(e)
  {
    FixedRoundTrip(p, data, off, o1, o2);
  }

  /** Masking the size field and the tag to 32 bits leaves u32 values as they are. */
  lemma MaskedFields(p: Property)
    requires 0 <= SizeField(p) < U32_MOD && 0 <= p.tag < U32_MOD
    ensures SizeField(p) % U32_MOD == SizeField(p) && p.tag % U32_MOD == p.tag
  {
  }

  /** A bool property the reader gives back as it is: a u32 tag, and the stored size 0 that the
      writer writes in any case. */
  predicate BoolReadsBack(p: Property) {
    p.BoolProperty? && 0 <= p.tag < U32_MOD && p.size == 0
  }

  /** The bool reader on the body the bool writer appends. */
  lemma BoolBodyBack(p: Property, data: seq<byte>, at: nat)
    requires BoolReadsBack(p)
    requires BodyBytes(p).Ok? && HoldsAt(data, at, BodyBytes(p).value)
    ensures BodyYields(p, data, at, p, at + 2)
  {
    BoolBodyRead(p.name, p.tag, if p.flag then 1 else 0, data, at);
  }

  /** A bool property with a u32 tag and stored size 0 reads back unchanged. */
  lemma BoolRoundTrip(p: Property, data: seq<byte>, off: nat, o1: nat, o2: nat)
    requires BoolReadsBack(p) && WrittenAt(p, data, off, o1, o2)
    ensures Yields(ReadProperty(data, off), Some(p), o2 + 8 + 2)
  {
    BodyAt(p, data, off, o1, o2);
    BoolBodyBack(p, data, o2 + 8);
    FixedReadsBack(p, p, o2 + 8 + 2, data, off, o1, o2);
  }

  /** An int property the reader gives back as it is: a u32 tag, the size 4 the reader asserts and
      a value that fits an i32. */
  predicate IntReadsBack(p: Property) {
    p.IntProperty? && 0 <= p.tag < U32_MOD && p.size == 4 && I32_MIN <= p.i32 <= I32_MAX
  }

  /** The int reader on the body the int writer appends. */
  lemma IntBodyBack(p: Property, data: seq<byte>, at: nat)
    requires IntReadsBack(p)
    requires BodyBytes(p).Ok? && HoldsAt(data, at, BodyBytes(p).value)
    ensures BodyYields(p, data, at, p, at + 5)
  {
    IntBodyRead(p.name, p.tag, p.i32, p.intTag, data, at);
    MaskedFields(p);
    assert p == IntProperty(p.name, p.tag, p.size, p.i32, p.intTag);
  }

  /** An int property with a u32 tag, size 4 and an i32 value reads back unchanged, int tag
      included. */
  lemma IntRoundTrip(p: Property, data: seq<byte>, off: nat, o1: nat, o2: nat)
    requires IntReadsBack(p) && WrittenAt(p, data, off, o1, o2)
    ensures Yields(ReadProperty(data, off), Some(p), o2 + 8 + 5)
  {
    BodyAt(p, data, off, o1, o2);
    IntBodyBack(p, data, o2 + 8);
    FixedReadsBack(p, p, o2 + 8 + 5, data, off, o1, o2);
  }

  /** The int reader rejects any other size field before it looks at the body. */
  lemma IntBadSizeBody(p: Property, data: seq<byte>, at: nat)
    requires p.IntProperty? && 0 <= p.size < U32_MOD && p.size != 4
    ensures IsFixedClass(ClassOf(p))
    ensures FixedFromBytes(ClassOf(p), p.name, SizeField(p) % U32_MOD, p.tag % U32_MOD, data, at) == Err(AssertionError)
  {
    IntBodyBadSize(p.name, p.size, p.tag % U32_MOD, data, at);
  }

  /** An int property whose stored size is any u32 but 4 is written, but reading the record back
      fails the reader's size assertion. */
  lemma IntBadSizeRoundTrip(p: Property, data: seq<byte>, off: nat, o1: nat, o2: nat)
    requires p.IntProperty? && 0 <= p.size < U32_MOD && p.size != 4
    requires WrittenAt(p, data, off, o1, o2)
    ensures ReadProperty(data, off) == Err(AssertionError)
  {
    IntBadSizeBody(p, data, o2 + 8);
    FixedFailsBack(p, AssertionError, data, off, o1, o2);
  }

  /** A str property the reader gives back as it is: plain-ASCII text, and the size field the
      reader asserts, the length of the text's FString. */
  predicate StrReadsBack(p: Property) {
    && p.StrProperty? && 0 <= p.tag < U32_MOD
    && IsPlainAscii(p.text) && |p.text| < I32_MAX
    && p.size == |p.text| + 4 + (if p.text != "" then 1 else 0)
  }

  /** The str reader on the body the str writer appends. */
  lemma StrBodyBack(p: Property, data: seq<byte>, at: nat, next: nat)
    requires StrReadsBack(p) && next == at + 1 + p.size
    requires BodyBytes(p).Ok? && HoldsAt(data, at, BodyBytes(p).value)
    ensures BodyYields(p, data, at, p, next)
  {
    StrBodyRead(p.name, p.size, p.tag, p.text, data, at);
    MaskedFields(p);
    assert p == StrProperty(p.name, p.tag, p.size, p.text);
  }

  /** A str property with plain-ASCII text and the size field the reader asserts reads back
      unchanged. */
  lemma StrRoundTrip(p: Property, data: seq<byte>, off: nat, o1: nat, o2: nat)
    requires StrReadsBack(p) && WrittenAt(p, data, off, o1, o2)
    ensures Yields(ReadProperty(data, off), Some(p), o2 + 9 + p.size)
  {
    BodyAt(p, data, off, o1, o2);
    StrBodyBack(p, data, o2 + 8, o2 + 9 + p.size);
    FixedReadsBack(p, p, o2 + 9 + p.size, data, off, o1, o2);
  }
}
