/** The Unreal FString: a signed 32-bit length, then the characters. A positive length counts UTF-8
    bytes including the NUL terminator, a negative one counts UTF-16 code units, zero is the empty
    string. Both decoders (uesave/__init__.py and uesave.py) read it the same way. */
module FString {
  import opened Bytes
  import opened Unicode

  /** The number of bytes after the length field that a length prefix of `len` claims. */
  function PayloadBytes(len: int): (n: nat)
    ensures len == 0 ==> n == 0
    ensures len < 0 ==> n == 2 * -len
    ensures len > 0 ==> n == len
  {
    if len < 0 then 2 * -len else len
  }

  /** `_read_string(data, offset)`: the payload is sliced (so a short buffer truncates it) but the
      offset always moves past the full claimed payload. */
  function ReadString(data: seq<byte>, off: nat): (r: Result<Read<string>>)
    ensures r.Ok? <==> off + 4 <= |data|
    ensures r.Ok? ==> r.value.next == off + 4 + PayloadBytes(ReadI32(data, off).value.value)
    ensures r.Ok? ==> r.value.value == [] || r.value.value[|r.value.value| - 1] != '\0'
    ensures r.Ok? && ReadI32(data, off).value.value == 0 ==> r.value == Read("", off + 4)
    ensures r.Ok? ==> |r.value.value| <= PayloadBytes(ReadI32(data, off).value.value)
  {
    var Read(len, o) :- ReadI32(data, off);
    if len == 0 then Ok(Read("", o))
    else if len < 0 then
      var n := 2 * -len;
      Ok(Read(StripTrailingNul(Utf16Decode(Slice(data, o, o + n))), o + n))
    else
      Ok(Read(StripTrailingNul(Utf8Decode(Slice(data, o, o + len))), o + len))
  }

  /** `_write_string(s)`: the byte form, or `struct.error` when the length prefix does not fit an
      int32. The prefix is the character count plus one, not the byte count. The UTF-16 branch of
      the writer handles `UnicodeEncodeError`, which no `string` of scalar values can raise. */
  function StringBytes(s: string): (r: Result<seq<byte>>)
    ensures s == "" ==> r == Ok([0, 0, 0, 0])
    ensures r.Ok? <==> |s| < I32_MAX
    ensures r.Ok? && s != "" ==> r.value == I32Bytes(|s| + 1).value + Utf8Encode(s) + [0]
  {
    if s == "" then I32BytesZero(); I32Bytes(0)
    else
      var prefix :- I32Bytes(|s| + 1);
      Ok(prefix + Utf8Encode(s) + [0])
  }

  // ---------------------------------------------------------------------------------------------
  // Properties

  /** The empty string is written as a zero length and read back as "" after 4 bytes. */
  lemma ReadStringOfEmpty(data: seq<byte>, off: nat)
    requires off + 4 <= |data| && data[off..off + 4] == StringBytes("").value
    ensures ReadString(data, off) == Ok(Read("", off + 4))
  {
    ReadI32OfI32Bytes(data, off, 0);
  }

  /** A non-empty ASCII string without NUL reads back unchanged, past its 4 + |s| + 1 bytes. */
  lemma ReadStringOfStringBytes(data: seq<byte>, off: nat, s: string)
    requires IsPlainAscii(s) && s != "" && |s| < I32_MAX
    requires off + |StringBytes(s).value| <= |data|
    requires data[off..off + |StringBytes(s).value|] == StringBytes(s).value
    ensures |StringBytes(s).value| == 4 + |s| + 1
    ensures ReadString(data, off) == Ok(Read(s, off + 4 + |s| + 1))
  {
    var len := |s| + 1;
    var body := AsciiBytes(s) + [0];
    AsciiStringBytes(s, body);
    SplitAt(data, off, I32Bytes(len).value, body);
    ReadI32OfI32Bytes(data, off, len);
    ReadStringPositive(data, off, len, body);
    DecodeAsciiNul(s, body);
  }

  lemma AsciiStringBytes(s: string, body: seq<byte>)
    requires IsPlainAscii(s) && s != "" && |s| < I32_MAX
    requires forall i :: 0 <= i < |s| ==> IsAsciiChar(s[i])
    requires body == AsciiBytes(s) + [0]
    ensures |body| == |s| + 1
    ensures StringBytes(s) == Ok(I32Bytes(|s| + 1).value + body)
  {
    Utf8EncodeAscii(s);
    var prefix := I32Bytes(|s| + 1).value;
    assert StringBytes(s) == Ok(prefix + Utf8Encode(s) + [0]);
    assert prefix + Utf8Encode(s) + [0] == prefix + body;
  }

  lemma DecodeAsciiNul(s: string, raw: seq<byte>)
    requires IsPlainAscii(s) && s != ""
    requires forall i :: 0 <= i < |s| ==> IsAsciiChar(s[i])
    requires raw == AsciiBytes(s) + [0]
    ensures StripTrailingNul(Utf8Decode(raw)) == s
  {
    assert forall i :: 0 <= i < |s| ==> IsAsciiChar(s[i]);
    Utf8EncodeAscii(s);
    Utf8DecodeTrailingZero(AsciiBytes(s));
    Utf8DecodeOfEncode(s);
    StripOneNul(s);
  }

  /** What `ReadString` does after a positive length prefix. */
  lemma ReadStringPositive(data: seq<byte>, off: nat, len: int, body: seq<byte>)
    requires ReadI32(data, off) == Ok(Read(len, off + 4)) && len > 0
    requires |body| == len && off + 4 + len <= |data| && data[off + 4..off + 4 + len] == body
    ensures ReadString(data, off) == Ok(Read(StripTrailingNul(Utf8Decode(body)), off + 4 + len))
  {
  }

  /** A successful write always takes 4 bytes of prefix plus the UTF-8 bytes and a NUL. */
  lemma StringBytesLength(s: string)
    requires StringBytes(s).Ok?
    ensures |StringBytes(s).value| == if s == "" then 4 else 4 + |Utf8Encode(s)| + 1
  {
  }

  /** The length written is the character count plus one: for a character outside ASCII it is
      one less than the bytes that follow the prefix, so `ReadString` stops one byte early. */
  lemma {:induction false} StringBytesMisframesNonAscii(data: seq<byte>, off: nat)
    requires off + 7 <= |data| && data[off..off + 7] == StringBytes("\U{E9}").value
    ensures |StringBytes("\U{E9}").value| == 7
    ensures ReadString(data, off) == Ok(Read("\U{E9}", off + 6))
  {
    var s := "\U{E9}";
    assert Utf8Char(s[0]) == [0xC3, 0xA9];
    assert Utf8Encode(s) == [0xC3, 0xA9];
    var prefix := I32Bytes(2).value;
    assert StringBytes(s).value == prefix + [0xC3, 0xA9, 0];
    SplitAt(data, off, prefix, [0xC3, 0xA9, 0]);
    ReadI32OfI32Bytes(data, off, 2);
    assert data[off + 4..off + 6] == data[off + 4..off + 7][..2];
    ReadStringPositive(data, off, 2, [0xC3, 0xA9]);
    Utf8DecodeOfEncode(s);
  }

  /** `read_string` in uesave.py: a zero length gives "" after 4 bytes; otherwise the offset moves
      4 + len bytes for a positive length and 4 + 2·(−len) for a negative one. */
  lemma ReadStringAdvance(data: seq<byte>, off: nat)
    requires off + 4 <= |data|
    ensures var len := ReadI32(data, off).value.value;
      && (len == 0 ==> ReadString(data, off) == Ok(Read("", off + 4)))
      && (len > 0 ==> ReadString(data, off).value.next == off + 4 + len)
      && (len < 0 ==> ReadString(data, off).value.next == off + 4 + 2 * -len)
  {
  }

  /** A string read by `read_string` never ends in NUL, and stripping it again changes nothing. */
  lemma ReadStringStripped(data: seq<byte>, off: nat)
    requires ReadString(data, off).Ok?
    ensures StripTrailingNul(ReadString(data, off).value.value) == ReadString(data, off).value.value
  {
    StripTrailingNulNoop(ReadString(data, off).value.value);
  }
}
