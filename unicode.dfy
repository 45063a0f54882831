/** The text codecs the FString readers and writers rely on: `str.encode('utf-8')`,
    `bytes.decode('utf-8', errors='ignore')`, `bytes.decode('utf-16-le', errors='ignore')`
    and `str.rstrip('\x00')`. A Dafny `string` is a sequence of Unicode scalar values. */
module Unicode {
  import opened Bytes

  predicate IsAsciiChar(c: char) { c as int < 0x80 }

  /** Every character is ASCII and none is NUL. */
  predicate IsPlainAscii(s: string) {
    forall i :: 0 <= i < |s| ==> 0 < s[i] as int < 0x80
  }

  predicate IsCont(b: int) { 0x80 <= b <= 0xBF }

  // ---------------------------------------------------------------------------------------------
  // UTF-8 encoding

  function Utf8Char(c: char): (bs: seq<byte>)
    ensures 1 <= |bs| <= 4
    ensures |bs| == 1 <==> IsAsciiChar(c)
  {
    var cp := c as int;
    if cp < 0x80 then [cp]
    else if cp < 0x800 then [0xC0 + cp / 64, 0x80 + cp % 64]
    else if cp < 0x1_0000 then [0xE0 + cp / 4096, 0x80 + (cp / 64) % 64, 0x80 + cp % 64]
    else [0xF0 + cp / 262144, 0x80 + (cp / 4096) % 64, 0x80 + (cp / 64) % 64, 0x80 + cp % 64]
  }

  /** `s.encode('utf-8')`. */
  function Utf8Encode(s: string): (bs: seq<byte>)
    ensures |bs| >= |s|
  {
    if s == [] then [] else Utf8Char(s[0]) + Utf8Encode(s[1..])
  }

  // ---------------------------------------------------------------------------------------------
  // UTF-8 decoding with errors='ignore': an ill-formed sequence is dropped one maximal subpart at a
  // time (the longest prefix of a well-formed sequence, or a single byte), as CPython does.

  /** One decoding step: the character decoded (None for a dropped subpart) and the bytes used. */
  datatype Step = Step(ch: Option<char>, used: nat)

  function Utf8Step(bs: seq<byte>): (st: Step)
    requires |bs| > 0
    ensures 1 <= st.used <= |bs| && st.used <= 4
  {
    var b0: int := bs[0];
    var b1: int := if |bs| >= 2 then bs[1] else 0;
    var b2: int := if |bs| >= 3 then bs[2] else 0;
    var b3: int := if |bs| >= 4 then bs[3] else 0;
    if b0 < 0x80 then Step(Some(b0 as char), 1)
    else if 0xC2 <= b0 <= 0xDF then
      if |bs| >= 2 && IsCont(b1) then Step(Some(((b0 - 0xC0) * 64 + (b1 - 0x80)) as char), 2)
      else Step(None, 1)
    else if 0xE0 <= b0 <= 0xEF then
      var lo := if b0 == 0xE0 then 0xA0 else 0x80;
      var hi := if b0 == 0xED then 0x9F else 0xBF;
      if |bs| >= 2 && lo <= b1 <= hi then
        if |bs| >= 3 && IsCont(b2) then
          Step(Some(((b0 - 0xE0) * 4096 + (b1 - 0x80) * 64 + (b2 - 0x80)) as char), 3)
        else Step(None, 2)
      else Step(None, 1)
    else if 0xF0 <= b0 <= 0xF4 then
      var lo := if b0 == 0xF0 then 0x90 else 0x80;
      var hi := if b0 == 0xF4 then 0x8F else 0xBF;
      if |bs| >= 2 && lo <= b1 <= hi then
        if |bs| >= 3 && IsCont(b2) then
          if |bs| >= 4 && IsCont(b3) then
            Step(Some(((b0 - 0xF0) * 262144 + (b1 - 0x80) * 4096 + (b2 - 0x80) * 64 + (b3 - 0x80)) as char), 4)
          else Step(None, 3)
        else Step(None, 2)
      else Step(None, 1)
    else Step(None, 1)
  }

  /** `raw.decode('utf-8', errors='ignore')`. */
  function Utf8Decode(bs: seq<byte>): (s: string)
    ensures |s| <= |bs|
    decreases |bs|
  {
    if bs == [] then ""
    else
      var st := Utf8Step(bs);
      var rest := Utf8Decode(bs[st.used..]);
      match st.ch
      case Some(c) => [c] + rest
      case None => rest
  }

  // ---------------------------------------------------------------------------------------------
  // UTF-16LE decoding with errors='ignore': a lone surrogate code unit is dropped, a trailing odd
  // byte or an unfinished pair is dropped.

  function Unit16(lo: byte, hi: byte): nat { lo + 256 * hi }

  function Utf16Decode(bs: seq<byte>): (s: string)
    ensures |s| <= |bs| / 2
    decreases |bs|
  {
    if |bs| < 2 then ""
    else
      var u := Unit16(bs[0], bs[1]);
      if u < 0xD800 || u > 0xDFFF then [u as char] + Utf16Decode(bs[2..])
      else if u <= 0xDBFF && |bs| >= 4 && 0xDC00 <= Unit16(bs[2], bs[3]) <= 0xDFFF then
        [(0x1_0000 + (u - 0xD800) * 1024 + (Unit16(bs[2], bs[3]) - 0xDC00)) as char] + Utf16Decode(bs[4..])
      else Utf16Decode(bs[2..])
  }

  // ---------------------------------------------------------------------------------------------

  /** `s.rstrip('\x00')`. */
  function StripTrailingNul(s: string): (r: string)
    ensures |r| <= |s| && r == s[..|r|]
    ensures r == [] || r[|r| - 1] != '\0'
    ensures forall i :: |r| <= i < |s| ==> s[i] == '\0'
  {
    if s == [] || s[|s| - 1] != '\0' then s else StripTrailingNul(s[..|s| - 1])
  }

  function AsciiBytes(s: string): (bs: seq<byte>)
    requires forall i :: 0 <= i < |s| ==> IsAsciiChar(s[i])
    ensures |bs| == |s|
    ensures forall i :: 0 <= i < |s| ==> bs[i] == s[i] as int
  {
    if s == [] then [] else assert IsAsciiChar(s[0]); [s[0] as int as byte] + AsciiBytes(s[1..])
  }

  // ---------------------------------------------------------------------------------------------
  // Properties

  /** On ASCII text the UTF-8 encoder emits one byte per character, the character's code. */
  lemma {:induction false} Utf8EncodeAscii(s: string)
    requires forall i :: 0 <= i < |s| ==> IsAsciiChar(s[i])
    ensures Utf8Encode(s) == AsciiBytes(s)
  {
    if s != [] {
      Utf8EncodeAscii(s[1..]);
    }
  }

  /** Decoding one encoded character yields exactly that character and consumes its bytes. */
  lemma Utf8StepOfChar(c: char, rest: seq<byte>)
    ensures Utf8Step(Utf8Char(c) + rest) == Step(Some(c), |Utf8Char(c)|)
  {
    var cp := c as int;
    var bs := Utf8Char(c) + rest;
    if cp < 0x80 {
    } else if cp < 0x800 {
      Digits2(cp);
    } else if cp < 0x1_0000 {
      Digits3(cp);
    } else {
      Digits4(cp);
    }
  }

  lemma Digits2(cp: int)
    requires 0x80 <= cp < 0x800
    ensures 0xC2 <= 0xC0 + cp / 64 <= 0xDF && 0 <= cp % 64 < 64
    ensures (cp / 64) * 64 + cp % 64 == cp
  {
  }

  lemma Digits3(cp: int)
    requires 0x800 <= cp < 0x1_0000
    ensures var a, b, c := cp / 4096, (cp / 64) % 64, cp % 64;
      && 0 <= a < 16 && 0 <= b < 64 && 0 <= c < 64
      && a * 4096 + b * 64 + c == cp
      && (a == 0 ==> b >= 32)
      && (a == 13 && cp < 0xD800 ==> b < 32)
  {
    var a, b, c := cp / 4096, (cp / 64) % 64, cp % 64;
    assert cp / 64 == a * 64 + b;
  }

  lemma Digits4(cp: int)
    requires 0x1_0000 <= cp < 0x11_0000
    ensures var a, b, c, d := cp / 262144, (cp / 4096) % 64, (cp / 64) % 64, cp % 64;
      && 0 <= a <= 4 && 0 <= b < 64 && 0 <= c < 64 && 0 <= d < 64
      && a * 262144 + b * 4096 + c * 64 + d == cp
      && (a == 0 ==> b >= 16)
      && (a == 4 ==> b < 16)
  {
    var a, b, c, d := cp / 262144, (cp / 4096) % 64, (cp / 64) % 64, cp % 64;
    assert cp / 64 == (cp / 4096) * 64 + c;
    assert cp / 4096 == a * 64 + b;
  }

  /** The UTF-8 decoder inverts the UTF-8 encoder on every string. */
  lemma {:induction false} Utf8DecodeOfEncode(s: string)
    ensures Utf8Decode(Utf8Encode(s)) == s
  {
    if s != [] {
      var bs := Utf8Encode(s);
      Utf8StepOfChar(s[0], Utf8Encode(s[1..]));
      assert bs[|Utf8Char(s[0])|..] == Utf8Encode(s[1..]);
      Utf8DecodeOfEncode(s[1..]);
    }
  }

  /** Encoding a string with no NUL gives bytes with no zero byte. */
  lemma {:induction false} Utf8EncodeNoZero(s: string)
    requires forall i :: 0 <= i < |s| ==> s[i] != '\0'
    ensures forall k :: 0 <= k < |Utf8Encode(s)| ==> Utf8Encode(s)[k] != 0
  {
    if s != [] {
      Utf8EncodeNoZero(s[1..]);
      var head := Utf8Char(s[0]);
      assert forall k :: 0 <= k < |head| ==> head[k] != 0;
      forall k | 0 <= k < |Utf8Encode(s)| ensures Utf8Encode(s)[k] != 0 {
        if k >= |head| {
          assert Utf8Encode(s)[k] == Utf8Encode(s[1..])[k - |head|];
        }
      }
    }
  }

  /** Stripping NULs from a string that does not end in NUL leaves it unchanged. */
  lemma StripTrailingNulNoop(s: string)
    requires s == [] || s[|s| - 1] != '\0'
    ensures StripTrailingNul(s) == s
  {
  }

  /** Stripping a string followed by one NUL gives the string back when it does not end in NUL. */
  lemma StripOneNul(s: string)
    requires s == [] || s[|s| - 1] != '\0'
    ensures StripTrailingNul(s + ['\0']) == s
  {
    assert (s + ['\0'])[..|s|] == s;
  }

  /** Decoding with a trailing zero byte ends in a NUL character. */
  lemma {:induction false} Utf8DecodeTrailingZero(bs: seq<byte>)
    requires forall k :: 0 <= k < |bs| ==> bs[k] < 0x80
    ensures Utf8Decode(bs + [0]) == Utf8Decode(bs) + ['\0']
  {
    if bs == [] {
      assert Utf8Decode([0]) == ['\0'] + Utf8Decode([]);
    } else {
      assert (bs + [0])[1..] == bs[1..] + [0];
      Utf8DecodeTrailingZero(bs[1..]);
    }
  }
}
