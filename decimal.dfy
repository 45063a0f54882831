/** Python's `str(n)` and `int(s)` on decimal integers, and the white space `int()` and
    `str.strip()` remove, as the ByteProperty and ArrayProperty
    writers (uesave/__init__.py) use them to turn an enum value into text and back. */
module Decimal {
  import opened Bytes

  predicate IsDigit(c: char) { '0' <= c <= '9' }

  function DigitChar(d: nat): (c: char)
    requires d < 10
    ensures IsDigit(c) && c as int - '0' as int == d
  {
    ('0' as int + d) as char
  }

  function DigitValue(c: char): (d: nat)
    requires IsDigit(c)
    ensures d < 10
  {
    c as int - '0' as int
  }

  /** The decimal digits of `n`, most significant first, without leading zeros. */
  function NatToString(n: nat): (s: string)
    ensures |s| >= 1 && (forall i :: 0 <= i < |s| ==> IsDigit(s[i]))
    ensures |s| > 1 ==> s[0] != '0'
    decreases n
  {
    if n < 10 then [DigitChar(n)] else NatToString(n / 10) + [DigitChar(n % 10)]
  }

  /** `str(v)` of a Python int: a minus sign for negative values, then the digits. */
  function IntToString(v: int): (s: string)
    ensures |s| >= 1
    ensures v < 0 <==> s[0] == '-'
  {
    if v < 0 then "-" + NatToString(-v) else NatToString(v)
  }

  predicate AllDigits(s: string) {
    forall i :: 0 <= i < |s| ==> IsDigit(s[i])
  }

  /** The value of a string of decimal digits. */
  function DigitsValue(s: string): (n: nat)
    requires AllDigits(s)
    decreases |s|
  {
    if s == [] then 0
    else DigitsValue(s[..|s| - 1]) * 10 + DigitValue(s[|s| - 1])
  }

  // ---------------------------------------------------------------------------------------------
  // Python white space, which `int()` and `str.strip()` both remove

  /** `c.isspace()`: the characters `str.strip()` removes. */
  predicate IsPySpace(c: char) {
    || ('\t' <= c <= '\r') || ('\U{1C}' <= c <= '\U{1F}') || c == ' ' || c == '\U{85}' || c == '\U{A0}'
    || c == '\U{1680}' || ('\U{2000}' <= c <= '\U{200A}') || c == '\U{2028}' || c == '\U{2029}'
    || c == '\U{202F}' || c == '\U{205F}' || c == '\U{3000}'
  }

  /** Drop leading white space. */
  function StripLeft(s: string): (r: string)
    ensures |r| <= |s| && r == s[|s| - |r|..]
    ensures r == [] || !IsPySpace(r[0])
    ensures forall i :: 0 <= i < |s| - |r| ==> IsPySpace(s[i])
  {
    if s != [] && IsPySpace(s[0]) then
      var r := StripLeft(s[1..]);
      assert forall i :: 1 <= i < |s| ==> s[i] == s[1..][i - 1];
      r
    else s
  }

  /** Drop trailing white space. */
  function StripRight(s: string): (r: string)
    ensures |r| <= |s| && r == s[..|r|]
    ensures r == [] || !IsPySpace(r[|r| - 1])
    ensures forall i :: |r| <= i < |s| ==> IsPySpace(s[i])
  {
    if s != [] && IsPySpace(s[|s| - 1]) then StripRight(s[..|s| - 1]) else s
  }

  /** `s.strip()`. */
  function Strip(s: string): (r: string)
    ensures r == [] || (!IsPySpace(r[0]) && !IsPySpace(r[|r| - 1]))
    ensures (forall i :: 0 <= i < |s| ==> IsPySpace(s[i])) <==> r == []
  {
    StripAllSpace(s);
    var l := StripLeft(s);
    assert StripRight(l) != [] ==> StripRight(l)[0] == l[0];
    StripRight(l)
  }

  /** Text that is all white space strips to nothing, and only such text. */
  lemma StripAllSpace(s: string)
    ensures (forall i :: 0 <= i < |s| ==> IsPySpace(s[i])) <==> StripRight(StripLeft(s)) == []
  {
    var l := StripLeft(s);
    if l != [] {
      assert s[|s| - |l|] == l[0];
      assert StripRight(l) != [];
    }
  }



  // ---------------------------------------------------------------------------------------------
  // int(s)

  /** Decimal digits with single underscores between them: `1_000`, not `_1`, `1_` or `1__0`. */
  predicate IsDigitGroup(s: string)
    decreases |s|
  {
    && |s| >= 1 && IsDigit(s[0])
    && (|s| == 1 || if s[1] == '_' then IsDigitGroup(s[2..]) else IsDigitGroup(s[1..]))
  }

  /** The digits of a digit group, underscores dropped. */
  function DropUnderscores(s: string): (r: string)
    requires IsDigitGroup(s)
    ensures 1 <= |r| <= |s| && AllDigits(r)
    decreases |s|
  {
    if |s| == 1 then s
    else if s[1] == '_' then [s[0]] + DropUnderscores(s[2..])
    else [s[0]] + DropUnderscores(s[1..])
  }

  /** The value of a digit group. */
  function GroupValue(s: string): nat
    requires IsDigitGroup(s)
  {
    DigitsValue(DropUnderscores(s))
  }

  /** What `int()` accepts once the white space is stripped: an optional sign, then a digit group. */
  predicate IsIntLiteral(t: string) {
    IsDigitGroup(t) || (|t| >= 2 && (t[0] == '-' || t[0] == '+') && IsDigitGroup(t[1..]))
  }

  /** `int(t)` once the white space is stripped. */
  function ParseSigned(t: string): (r: Option<int>)
    ensures r.Some? <==> IsIntLiteral(t)
    ensures IsDigitGroup(t) ==> r == Some(GroupValue(t) as int)
    ensures |t| >= 2 && t[0] == '-' && IsDigitGroup(t[1..]) ==> r == Some(0 - GroupValue(t[1..]) as int)
    ensures |t| >= 2 && t[0] == '+' && IsDigitGroup(t[1..]) ==> r == Some(GroupValue(t[1..]) as int)
  {
    if IsDigitGroup(t) then Some(GroupValue(t) as int)
    else if |t| >= 2 && t[0] == '-' && IsDigitGroup(t[1..]) then Some(0 - GroupValue(t[1..]) as int)
    else if |t| >= 2 && t[0] == '+' && IsDigitGroup(t[1..]) then Some(GroupValue(t[1..]) as int)
    else None
  }

  /** `int(s)` on ASCII digits: surrounding white space stripped, one optional sign, then digits
      with single underscores between them; anything else raises `ValueError`, here `None`. */
  function ParseInt(s: string): (r: Option<int>)
    ensures r.Some? <==> IsIntLiteral(Strip(s))
  {
    ParseSigned(Strip(s))
  }

  /** `int(s)` with its `ValueError`. */
  function IntOfText(s: string): (r: Result<int>)
    ensures r.Ok? <==> ParseInt(s).Some?
    ensures r.Ok? ==> r.value == ParseInt(s).value
  {
    match ParseInt(s)
    case Some(v) => Ok(v)
    case None => Err(ValueError("invalid literal for int() with base 10: '" + s + "'"))
  }

  // ---------------------------------------------------------------------------------------------
  // Properties

  lemma {:induction false} DigitsValueOfNatToString(n: nat)
    ensures DigitsValue(NatToString(n)) == n
    decreases n
  {
    var s := NatToString(n);
    if n < 10 {
      assert s == [DigitChar(n)];
      assert s[..0] == [];
    } else {
      DigitsValueOfNatToString(n / 10);
      assert s[..|s| - 1] == NatToString(n / 10);
    }
  }

  /** Text without white space is left alone by `strip()`. */
  lemma StripNoSpace(s: string)
    requires forall i :: 0 <= i < |s| ==> !IsPySpace(s[i])
    ensures Strip(s) == s
  {
  }

  /** A string of digits is a digit group that drops no character. */
  lemma {:induction false} AllDigitsGroup(s: string)
    requires |s| >= 1 && AllDigits(s)
    ensures IsDigitGroup(s) && DropUnderscores(s) == s && GroupValue(s) == DigitsValue(s)
    decreases |s|
  {
    if |s| > 1 {
      AllDigitsGroup(s[1..]);
      assert [s[0]] + s[1..] == s;
    }
  }

  /** `str(v)` holds digits and at most a minus sign, no white space. */
  lemma IntToStringNoSpace(v: int)
    ensures forall i :: 0 <= i < |IntToString(v)| ==> !IsPySpace(IntToString(v)[i])
  {
    var s := IntToString(v);
    if v < 0 {
      assert forall i :: 1 <= i < |s| ==> s[i] == NatToString(-v)[i - 1];
    }
  }

  /** The signed digits of `str(v)` read back as `v`. */
  lemma ParseSignedOfIntToString(v: int)
    ensures ParseSigned(IntToString(v)) == Some(v)
  {
    var s := IntToString(v);
    if v < 0 {
      var n: nat := -v;
      DigitsValueOfNatToString(n);
      var t := NatToString(n);
      AllDigitsGroup(t);
      assert s[1..] == t;
      assert !IsDigit(s[0]);
    } else {
      DigitsValueOfNatToString(v);
      AllDigitsGroup(s);
    }
  }

  /** `int(str(v)) == v` for every int. */
  lemma ParseIntOfIntToString(v: int)
    ensures ParseInt(IntToString(v)) == Some(v)
  {
    IntToStringNoSpace(v);
    StripNoSpace(IntToString(v));
    ParseSignedOfIntToString(v);
  }

  predicate AllSpace(s: string) {
    forall i :: 0 <= i < |s| ==> IsPySpace(s[i])
  }

  /** Leading white space is exactly what `lstrip` removes. */
  lemma {:induction false} StripLeftSpaces(pre: string, rest: string)
    requires AllSpace(pre)
    requires rest == [] || !IsPySpace(rest[0])
    ensures StripLeft(pre + rest) == rest
    decreases |pre|
  {
    if pre == [] {
      assert pre + rest == rest;
    } else {
      assert (pre + rest)[1..] == pre[1..] + rest;
      StripLeftSpaces(pre[1..], rest);
    }
  }

  /** Trailing white space is exactly what `rstrip` removes. */
  lemma {:induction false} StripRightSpaces(rest: string, post: string)
    requires AllSpace(post)
    requires rest == [] || !IsPySpace(rest[|rest| - 1])
    ensures StripRight(rest + post) == rest
    decreases |post|
  {
    if post == [] {
      assert rest + post == rest;
    } else {
      var k := |post| - 1;
      assert (rest + post)[..|rest + post| - 1] == rest + post[..k];
      StripRightSpaces(rest, post[..k]);
    }
  }

  /** `int()` ignores white space around the text: `int(" 7\n") == int("7")`. */
  lemma ParseIntIgnoresSpace(pre: string, t: string, post: string)
    requires AllSpace(pre) && AllSpace(post)
    requires t != [] && !IsPySpace(t[0]) && !IsPySpace(t[|t| - 1])
    ensures ParseInt(pre + t + post) == ParseInt(t)
  {
    assert pre + t + post == pre + (t + post);
    StripLeftSpaces(pre, t + post);
    StripRightSpaces(t, post);
    StripLeftSpaces([], t);
    assert [] + t == t;
    StripRightSpaces(t, []);
    assert t + [] == t;
  }

  /** `int()` reads single underscores between digits. */
  lemma ParseIntUnderscores()
    ensures ParseInt("1_000") == Some(1000)
  {
    var g := "1_000";
    StripNoSpace(g);
    ThousandGroup();
    assert ParseSigned(g) == Some(GroupValue(g));
  }

  lemma ThousandGroup()
    ensures IsDigitGroup("1_000") && GroupValue("1_000") == 1000
  {
    var g := "1_000";
    AllDigitsGroup("000");
    assert g[2..] == "000";
    assert DropUnderscores(g) == "1000";
    assert DigitsValue("1000") == 1000 by {
      assert "1000"[..3] == "100";
      assert "100"[..2] == "10";
      assert "10"[..1] == "1";
      assert "1"[..0] == "";
    }
  }

  /** `int()` refuses a doubled underscore. */
  lemma ParseIntDoubleUnderscore()
    ensures ParseInt("1__0").None?
  {
    var g := "1__0";
    StripNoSpace(g);
    assert g[1..] == "__0" && g[2..] == "_0";
    assert !IsDigitGroup(g);
    assert ParseSigned(g).None?;
  }
}
