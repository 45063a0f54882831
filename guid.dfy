/** The textual form of a 16-byte GUID: the 4-2-2-2-6 byte grouping of RFC 4122 section 3, written
    as `xxxxxxxx-xxxx-xxxx-xxxx-xxxxxxxxxxxx` in lower-case hex, with the first three groups stored
    little-endian (so their bytes are reversed in the text). Also Python's `bytes.hex()`,
    `bytes.fromhex()` and `str.split()`, which the GUID codec is built from. */
module Guid {
  import opened Bytes

  // ---------------------------------------------------------------------------------------------
  // Hex digits

  function HexChar(d: nat): (c: char)
    requires d < 16
    ensures IsLowerHex(c)
  {
    if d < 10 then ('0' as int + d) as char else ('a' as int + d - 10) as char
  }

  predicate IsLowerHex(c: char) { '0' <= c <= '9' || 'a' <= c <= 'f' }

  /** The digit value `bytes.fromhex` gives a character, upper or lower case. */
  function HexValue(c: char): (d: Option<nat>)
    ensures d.Some? ==> d.value < 16
  {
    if '0' <= c <= '9' then Some(c as int - '0' as int)
    else if 'a' <= c <= 'f' then Some(c as int - 'a' as int + 10)
    else if 'A' <= c <= 'F' then Some(c as int - 'A' as int + 10)
    else None
  }

  /** The two lower-case hex digits of a byte, high nibble first. */
  function HexByte(b: byte): (s: string)
    ensures |s| == 2 && IsLowerHex(s[0]) && IsLowerHex(s[1])
    ensures HexValue(s[0]) == Some(b / 16) && HexValue(s[1]) == Some(b % 16)
  {
    [HexChar(b / 16), HexChar(b % 16)]
  }

  /** `bs.hex()`. */
  function Hex(bs: seq<byte>): (s: string)
    ensures |s| == 2 * |bs|
    ensures forall i :: 0 <= i < |s| ==> IsLowerHex(s[i])
  {
    if bs == [] then "" else HexByte(bs[0]) + Hex(bs[1..])
  }

  /** The ASCII whitespace `bytes.fromhex` skips between digit pairs. */
  predicate IsHexSpace(c: char) {
    c == ' ' || c == '\t' || c == '\n' || c == '\r' || c == '\U{0B}' || c == '\U{0C}'
  }

  /** `bytes.fromhex(s)`: None where Python raises `ValueError` (a non-hex character, a pair split
      by whitespace, or an odd number of digits). */
  function FromHex(s: string): (r: Option<seq<byte>>)
    ensures r.Some? ==> |r.value| <= |s| / 2
  {
    if s == [] then Some([])
    else if IsHexSpace(s[0]) then FromHex(s[1..])
    else if |s| >= 2 && HexValue(s[0]).Some? && HexValue(s[1]).Some? then
      match FromHex(s[2..])
      case Some(rest) => Some([16 * HexValue(s[0]).value + HexValue(s[1]).value] + rest)
      case None => None
    else None
  }

  function Reverse(bs: seq<byte>): (r: seq<byte>)
    ensures |r| == |bs|
    ensures forall i :: 0 <= i < |bs| ==> r[i] == bs[|bs| - 1 - i]
  {
    if bs == [] then [] else Reverse(bs[1..]) + [bs[0]]
  }

  // ---------------------------------------------------------------------------------------------
  // str.split

  /** `s.split(sep)` for a one-character separator. */
  function Split(s: string, sep: char): (parts: seq<string>)
    ensures |parts| >= 1
    ensures forall i, j :: 0 <= i < |parts| && 0 <= j < |parts[i]| ==> parts[i][j] != sep
  {
    if s == [] then [""]
    else
      var rest := Split(s[1..], sep);
      if s[0] == sep then [""] + rest else [[s[0]] + rest[0]] + rest[1..]
  }

  function Join(parts: seq<string>, sep: char): string
    requires |parts| >= 1
  {
    if |parts| == 1 then parts[0] else parts[0] + [sep] + Join(parts[1..], sep)
  }

  // ---------------------------------------------------------------------------------------------
  // GUID codec

  /** The hex digits of the `n` bytes of b from `lo`, high nibble first, with the bytes taken
      from the last when `reversed`. */
  function GroupDigits(b: seq<byte>, lo: nat, n: nat, reversed: bool): (s: string)
    requires lo + n <= |b|
    ensures |s| == 2 * n
  {
    seq(2 * n, j requires 0 <= j < 2 * n =>
      var k := if reversed then lo + n - 1 - j / 2 else lo + j / 2;
      HexChar(if j % 2 == 0 then b[k] / 16 else b[k] % 16))
  }

  /** The text `_read_guid` builds from 16 bytes: the 4-2-2-2-6 byte groups of RFC 4122 section 3
      in hex, joined by dashes, the first three groups stored little-endian. */
  function GuidText(b: seq<byte>): (s: string)
    requires |b| == 16
    ensures |s| == 36
  {
    GroupDigits(b, 0, 4, true) + "-" + GroupDigits(b, 4, 2, true) + "-" + GroupDigits(b, 6, 2, true)
      + "-" + GroupDigits(b, 8, 2, false) + "-" + GroupDigits(b, 10, 6, false)
  }

  /** The digit at position j of `bs.hex()`. */
  lemma {:induction false} HexAt(bs: seq<byte>, j: nat)
    requires j < 2 * |bs|
    ensures Hex(bs)[j] == HexChar(if j % 2 == 0 then bs[j / 2] / 16 else bs[j / 2] % 16)
  {
    if j >= 2 {
      HexAt(bs[1..], j - 2);
      assert Hex(bs)[j] == Hex(bs[1..])[j - 2];
    }
  }

  /** A group's digits are `bytes.hex()` of its bytes, reversed first when the group is stored
      little-endian. */
  lemma GroupDigitsHex(b: seq<byte>, lo: nat, n: nat, reversed: bool)
    requires lo + n <= |b|
    ensures GroupDigits(b, lo, n, reversed) == Hex(if reversed then Reverse(b[lo..lo + n]) else b[lo..lo + n])
  {
    var g := GroupDigits(b, lo, n, reversed);
    if reversed {
      var bs := Reverse(b[lo..lo + n]);
      forall j | 0 <= j < 2 * n ensures g[j] == Hex(bs)[j] {
        HexAt(bs, j);
        assert bs[j / 2] == b[lo + n - 1 - j / 2];
      }
      assert g == Hex(bs);
    } else {
      var bs := b[lo..lo + n];
      forall j | 0 <= j < 2 * n ensures g[j] == Hex(bs)[j] {
        HexAt(bs, j);
      }
      assert g == Hex(bs);
    }
  }

  /** `_read_guid` builds the text as the hex of bytes 3..0, 5..4, 7..6, 8..9 and 10..15 joined
      by dashes: that is GuidText. */
  lemma GuidTextGroups(b: seq<byte>)
    requires |b| == 16
    ensures GuidText(b) == Hex(Reverse(b[0..4])) + "-" + Hex(Reverse(b[4..6])) + "-"
      + Hex(Reverse(b[6..8])) + "-" + Hex(b[8..10]) + "-" + Hex(b[10..16])
  {
    GroupDigitsHex(b, 0, 4, true);
    GroupDigitsHex(b, 4, 2, true);
    GroupDigitsHex(b, 6, 2, true);
    GroupDigitsHex(b, 8, 2, false);
    GroupDigitsHex(b, 10, 6, false);
  }

  /** Is `s` the text of a GUID: five lower-case hex groups of 8, 4, 4, 4 and 12 digits. */
  predicate IsGuidText(s: string) {
    && |s| == 36
    && (forall i :: 0 <= i < 36 && i != 8 && i != 13 && i != 18 && i != 23 ==> IsLowerHex(s[i]))
    && s[8] == '-' && s[13] == '-' && s[18] == '-' && s[23] == '-'
  }

  /** `_read_guid(data, offset)`: "" when fewer than 16 bytes remain; the offset always moves 16. */
  function ReadGuid(data: seq<byte>, off: nat): (r: Read<string>)
    ensures r.next == off + 16
    ensures r.value == "" <==> off + 16 > |data|
    ensures off + 16 <= |data| ==> r.value == GuidText(data[off..off + 16])
  {
    if off + 16 <= |data| then Read(GuidText(data[off..off + 16]), off + 16) else Read("", off + 16)
  }

  const ZERO_GUID: seq<byte> := [0, 0, 0, 0, 0, 0, 0, 0, 0, 0, 0, 0, 0, 0, 0, 0]

  /** `_write_guid(guid)`: the 16 bytes of a GUID text, or 16 zero bytes when the text is not five
      dash-separated parts of hex that decode to 4, 2, 2, 2 and 6 bytes. */
  function GuidBytes(guid: string): (bs: seq<byte>)
    ensures |bs| == 16
    ensures |Split(guid, '-')| != 5 ==> bs == ZERO_GUID
  {
    var parts := Split(guid, '-');
    if |parts| != 5 then ZERO_GUID
    else
      var p1, p2, p3, p4, p5 :=
        FromHex(parts[0]), FromHex(parts[1]), FromHex(parts[2]), FromHex(parts[3]), FromHex(parts[4]);
      if p1.Some? && p2.Some? && p3.Some? && p4.Some? && p5.Some?
         && |p1.value| == 4 && |p2.value| == 2 && |p3.value| == 2 && |p4.value| == 2 && |p5.value| == 6
      then Reverse(p1.value) + Reverse(p2.value) + Reverse(p3.value) + p4.value + p5.value
      else ZERO_GUID
  }

  /** The value of the `Guid` struct special case (uesave/__init__.py): the text `_read_guid` would
      give, built by indexing bytes 3, 2, 1, 0, then 5, 4, then 7, 6 of the slice, which raises
      `IndexError` when the slice is shorter than 8 bytes and leaves the last two groups short
      when it has 8 to 15. */
  function GuidStructText(raw: seq<byte>): (r: Result<string>)
    ensures r.Ok? <==> |raw| >= 8
    ensures |raw| == 16 ==> r == Ok(GuidText(raw))
  {
    if |raw| < 8 then Err(IndexError)
    else
      var text := Hex(Reverse(raw[0..4])) + "-" + Hex(Reverse(raw[4..6])) + "-" + Hex(Reverse(raw[6..8]))
        + "-" + Hex(Slice(raw, 8, 10)) + "-" + Hex(Slice(raw, 10, 16));
      if |raw| == 16 then GuidTextGroups(raw); Ok(text) else Ok(text)
  }

  // ---------------------------------------------------------------------------------------------
  // Properties

  lemma {:induction false} HexConcat(a: seq<byte>, b: seq<byte>)
    ensures Hex(a + b) == Hex(a) + Hex(b)
  {
    if a != [] {
      assert (a + b)[0] == a[0];
      assert (a + b)[1..] == a[1..] + b;
      HexConcat(a[1..], b);
      assert Hex(a + b) == HexByte(a[0]) + (Hex(a[1..]) + Hex(b));
    } else {
      assert a + b == b;
    }
  }

  /** `bytes.fromhex` inverts `bytes.hex`. */
  lemma {:induction false} FromHexOfHex(bs: seq<byte>)
    ensures FromHex(Hex(bs)) == Some(bs)
  {
    if bs != [] {
      var s := Hex(bs);
      var h := HexByte(bs[0]);
      assert s == h + Hex(bs[1..]);
      assert s[0] == h[0] && s[1] == h[1];
      assert s[2..] == Hex(bs[1..]);
      assert !IsHexSpace(s[0]);
      FromHexOfHex(bs[1..]);
      assert 16 * (bs[0] / 16) + bs[0] % 16 == bs[0];
      assert FromHex(s) == Some([bs[0]] + bs[1..]);
      assert [bs[0]] + bs[1..] == bs;
    }
  }

  lemma {:induction false} ReverseReverse(bs: seq<byte>)
    ensures Reverse(Reverse(bs)) == bs
  {
  }

  /** No hex text contains a dash, so splitting a dash-joined list of hex texts gives it back. */
  lemma {:induction false} SplitOfJoin(parts: seq<string>)
    requires |parts| >= 1
    requires forall i, j :: 0 <= i < |parts| && 0 <= j < |parts[i]| ==> parts[i][j] != '-'
    ensures Split(Join(parts, '-'), '-') == parts
  {
    if |parts| == 1 {
      SplitNoSep(parts[0]);
    } else {
      SplitOfJoin(parts[1..]);
      SplitPrefix(parts[0], Join(parts[1..], '-'));
    }
  }

  lemma {:induction false} SplitNoSep(s: string)
    requires forall j :: 0 <= j < |s| ==> s[j] != '-'
    ensures Split(s, '-') == [s]
  {
    if s != [] {
      SplitNoSep(s[1..]);
      assert [s[0]] + s[1..] == s;
    }
  }

  /** Splitting `w + "-" + rest` where w has no dash gives w, then the parts of rest. */
  lemma {:induction false} SplitPrefix(w: string, rest: string)
    requires forall j :: 0 <= j < |w| ==> w[j] != '-'
    ensures Split(w + "-" + rest, '-') == [w] + Split(rest, '-')
  {
    if w == [] {
      assert ("-" + rest)[1..] == rest;
    } else {
      var t := w + "-" + rest;
      assert t[0] == w[0] && t[1..] == w[1..] + "-" + rest;
      SplitPrefix(w[1..], rest);
      var r := Split(t[1..], '-');
      assert r == [w[1..]] + Split(rest, '-');
      assert [w[0]] + w[1..] == w;
      assert Split(t, '-') == [[w[0]] + r[0]] + r[1..];
    }
  }

  /** Joining the parts of a split gives back the text. */
  lemma {:induction false} JoinOfSplit(s: string)
    ensures Join(Split(s, '-'), '-') == s
  {
    if s != [] {
      JoinOfSplit(s[1..]);
      var rest := Split(s[1..], '-');
      if s[0] != '-' && |rest| > 1 {
        assert Join(rest, '-') == rest[0] + "-" + Join(rest[1..], '-');
      }
    }
  }

  lemma GuidTextShape(b: seq<byte>)
    requires |b| == 16
    ensures IsGuidText(GuidText(b))
  {
    var s := GuidText(b);
    var g1, g2, g3 := GroupDigits(b, 0, 4, true), GroupDigits(b, 4, 2, true), GroupDigits(b, 6, 2, true);
    var g4, g5 := GroupDigits(b, 8, 2, false), GroupDigits(b, 10, 6, false);
    assert s == g1 + "-" + g2 + "-" + g3 + "-" + g4 + "-" + g5;
    forall i | 0 <= i < 36 && i != 8 && i != 13 && i != 18 && i != 23 ensures IsLowerHex(s[i]) {
      if i < 8 { assert s[i] == g1[i]; }
      else if i < 13 { assert s[i] == g2[i - 9]; }
      else if i < 18 { assert s[i] == g3[i - 14]; }
      else if i < 23 { assert s[i] == g4[i - 19]; }
      else { assert s[i] == g5[i - 24]; }
    }
  }

  /** The five groups of the text of b. */
  function GuidGroups(b: seq<byte>): (parts: seq<string>)
    requires |b| == 16
    ensures |parts| == 5
  {
    [Hex(Reverse(b[0..4])), Hex(Reverse(b[4..6])), Hex(Reverse(b[6..8])), Hex(b[8..10]), Hex(b[10..16])]
  }

  lemma SplitGuidText(b: seq<byte>)
    requires |b| == 16
    ensures Split(GuidText(b), '-') == GuidGroups(b)
  {
    var parts := GuidGroups(b);
    JoinGuidGroups(b);
    forall i, j | 0 <= i < |parts| && 0 <= j < |parts[i]| ensures parts[i][j] != '-' {
      assert IsLowerHex(parts[i][j]);
    }
    SplitOfJoin(parts);
  }

  lemma JoinGuidGroups(b: seq<byte>)
    requires |b| == 16
    ensures Join(GuidGroups(b), '-') == GuidText(b)
  {
    GuidTextGroups(b);
    JoinFive(Hex(Reverse(b[0..4])), Hex(Reverse(b[4..6])), Hex(Reverse(b[6..8])), Hex(b[8..10]), Hex(b[10..16]));
  }

  lemma JoinFive(p1: string, p2: string, p3: string, p4: string, p5: string)
    ensures Join([p1, p2, p3, p4, p5], '-') == p1 + "-" + p2 + "-" + p3 + "-" + p4 + "-" + p5
  {
    var parts := [p1, p2, p3, p4, p5];
    assert Join(parts[4..], '-') == p5;
    assert Join(parts[3..], '-') == p4 + "-" + Join(parts[4..], '-');
    assert Join(parts[2..], '-') == p3 + "-" + Join(parts[3..], '-');
    assert Join(parts[1..], '-') == p2 + "-" + Join(parts[2..], '-');
  }

  /** `_write_guid` applied to the text `_read_guid` made from 16 bytes gives those bytes back. */
  lemma GuidBytesOfGuidText(b: seq<byte>)
    requires |b| == 16
    ensures GuidBytes(GuidText(b)) == b
  {
    var r1, r2, r3 := Reverse(b[0..4]), Reverse(b[4..6]), Reverse(b[6..8]);
    var guid := GuidText(b);
    SplitGuidText(b);
    FromHexOfHex(r1);
    FromHexOfHex(r2);
    FromHexOfHex(r3);
    FromHexOfHex(b[8..10]);
    FromHexOfHex(b[10..16]);
    GuidBytesOfGroups(guid, r1, r2, r3, b[8..10], b[10..16]);
    ReverseReverse(b[0..4]);
    ReverseReverse(b[4..6]);
    ReverseReverse(b[6..8]);
    assert GuidBytes(guid) == b[0..4] + b[4..6] + b[6..8] + b[8..10] + b[10..16];
    GroupsConcat(b);
  }

  lemma GroupsConcat(b: seq<byte>)
    requires |b| == 16
    ensures b[0..4] + b[4..6] + b[6..8] + b[8..10] + b[10..16] == b
  {
  }

  /** What `_write_guid` writes for five parts that decode to groups of the right lengths. */
  lemma GuidBytesOfGroups(guid: string, q1: seq<byte>, q2: seq<byte>, q3: seq<byte>, q4: seq<byte>, q5: seq<byte>)
    requires |Split(guid, '-')| == 5
    requires FromHex(Split(guid, '-')[0]) == Some(q1) && FromHex(Split(guid, '-')[1]) == Some(q2)
    requires FromHex(Split(guid, '-')[2]) == Some(q3) && FromHex(Split(guid, '-')[3]) == Some(q4)
    requires FromHex(Split(guid, '-')[4]) == Some(q5)
    requires |q1| == 4 && |q2| == 2 && |q3| == 2 && |q4| == 2 && |q5| == 6
    ensures GuidBytes(guid) == Reverse(q1) + Reverse(q2) + Reverse(q3) + q4 + q5
  {
  }

  /** A text with five parts of which one is not hex of the right length is written as zeros. */
  lemma GuidBytesOfBadPart(guid: string, k: nat)
    requires |Split(guid, '-')| == 5 && k < 5
    requires FromHex(Split(guid, '-')[k]).None?
          || |FromHex(Split(guid, '-')[k]).value| != [4, 2, 2, 2, 6][k]
    ensures GuidBytes(guid) == ZERO_GUID
  {
    var parts := Split(guid, '-');
    var p1, p2, p3, p4, p5 :=
      FromHex(parts[0]), FromHex(parts[1]), FromHex(parts[2]), FromHex(parts[3]), FromHex(parts[4]);
    assert !(p1.Some? && p2.Some? && p3.Some? && p4.Some? && p5.Some?
             && |p1.value| == 4 && |p2.value| == 2 && |p3.value| == 2 && |p4.value| == 2 && |p5.value| == 6) by {
      if k == 0 { assert p1.None? || |p1.value| != 4; }
      else if k == 1 { assert p2.None? || |p2.value| != 2; }
      else if k == 2 { assert p3.None? || |p3.value| != 2; }
      else if k == 3 { assert p4.None? || |p4.value| != 2; }
      else { assert p5.None? || |p5.value| != 6; }
    }
  }

  /** With 16 bytes to read, `_read_guid` gives five lower-case hex groups of 8, 4, 4, 4 and 12
      digits. */
  lemma ReadGuidShape(data: seq<byte>, off: nat)
    requires off + 16 <= |data|
    ensures IsGuidText(ReadGuid(data, off).value)
  {
    GuidTextShape(data[off..off + 16]);
  }

  /** `_read_guid` then `_write_guid` reproduces the 16 bytes it read. */
  lemma GuidBytesOfReadGuid(data: seq<byte>, off: nat)
    requires off + 16 <= |data|
    ensures GuidBytes(ReadGuid(data, off).value) == data[off..off + 16]
  {
    GuidBytesOfGuidText(data[off..off + 16]);
  }

  /** A GUID read where fewer than 16 bytes remain is "", which `_write_guid` writes as zeros. */
  lemma GuidBytesOfShortRead(data: seq<byte>, off: nat)
    requires off + 16 > |data|
    ensures GuidBytes(ReadGuid(data, off).value) == ZERO_GUID
  {
    assert Split("", '-') == [""];
  }
}
