/** The pure parts of the web front end uesave/webapp.py: the upload-name checks and
    `_sanitize_filename`, the one-line value preview `_format_prop_value`, and the tree of
    display nodes `create_node` builds from the property records of uesave/__init__.py. */
module WebApp {
  import opened Bytes
  import opened Unicode
  import opened Properties
  import opened Decimal
  import Guid
  import Encode

  // ---------------------------------------------------------------------------------------------
  // Upload names

  /** `c.isalnum()`, on ASCII letters and digits. */
  predicate IsAlnum(c: char) { 'a' <= c <= 'z' || 'A' <= c <= 'Z' || '0' <= c <= '9' }

  /** The characters `_sanitize_filename` keeps. */
  predicate IsKept(c: char) { IsAlnum(c) || c == '.' || c == '_' || c == '-' }

  /** `[c for c in name if c.isalnum() or c in (".", "_", "-")]`. */
  function Keep(s: string): (k: string)
    ensures |k| <= |s|
    ensures forall i :: 0 <= i < |k| ==> IsKept(k[i])
    ensures (forall i :: 0 <= i < |s| ==> IsKept(s[i])) ==> k == s
  {
    if s == [] then []
    else
      assert forall i :: 1 <= i < |s| ==> s[i] == s[1..][i - 1];
      (if IsKept(s[0]) then [s[0]] else []) + Keep(s[1..])
  }

  /** Filtering a concatenation filters each part, keeping their order. */
  lemma {:induction false} KeepConcat(a: string, b: string)
    ensures Keep(a + b) == Keep(a) + Keep(b)
  {
    if a == [] {
      assert a + b == b;
    } else {
      assert (a + b)[0] == a[0];
      assert (a + b)[1..] == a[1..] + b;
      KeepConcat(a[1..], b);
    }
  }

  const DEFAULT_UPLOAD_NAME: string := "upload.sav"

  const MAX_NAME_LENGTH: nat := 100

  /** `s[-n:]`. */
  function Last(s: string, n: nat): string {
    if |s| <= n then s else s[|s| - n..]
  }

  /** `_sanitize_filename(name)`: the kept characters, or "upload.sav" when none is kept, cut to
      the last 100. */
  function SanitizeFilename(name: string): (r: string)
    ensures 1 <= |r| <= MAX_NAME_LENGTH
    ensures forall i :: 0 <= i < |r| ==> IsKept(r[i])
    ensures Keep(name) == [] ==> r == DEFAULT_UPLOAD_NAME
    ensures Keep(name) != [] ==>
      |r| == (if |Keep(name)| < MAX_NAME_LENGTH then |Keep(name)| else MAX_NAME_LENGTH)
      && r == Keep(name)[|Keep(name)| - |r|..]
  {
    var kept := Keep(name);
    var sanitized := if kept == [] then DEFAULT_UPLOAD_NAME else kept;
    Last(sanitized, MAX_NAME_LENGTH)
  }

  /** Sanitizing a sanitized name changes nothing. */
  lemma SanitizeIdempotent(name: string)
    ensures SanitizeFilename(SanitizeFilename(name)) == SanitizeFilename(name)
  {
  }

  /** `c.lower()` on ASCII letters. */
  function LowerChar(c: char): (l: char)
    ensures 'A' <= c <= 'Z' ==> l as int == c as int + 32
    ensures !('A' <= c <= 'Z') ==> l == c
  {
    if 'A' <= c <= 'Z' then (c as int + 32) as char else c
  }

  /** `s.lower()`. */
  function Lower(s: string): (l: string)
    ensures |l| == |s| && forall i :: 0 <= i < |s| ==> l[i] == LowerChar(s[i])
  {
    seq(|s|, i requires 0 <= i < |s| => LowerChar(s[i]))
  }

  /** `s.lower().endswith(".sav")`. */
  predicate EndsWithSav(s: string) {
    |s| >= 4 && Lower(s)[|s| - 4..] == ".sav"
  }

  /** What `api_upload` does with the uploaded name, before anything is stored: keep the file
      under a sanitized name, or answer with an HTTP error. */
  datatype UploadDecision = Store(safeName: string) | Reject(status: nat, detail: string)

  /** The checks of `api_upload`: a missing or empty name, then a name not ending in ".sav" in
      any case, are refused with status 400. */
  function CheckUpload(filename: Option<string>): (d: UploadDecision)
    ensures d.Reject? <==> filename.None? || filename.value == "" || !EndsWithSav(filename.value)
    ensures d.Reject? ==> d.status == 400
    ensures d.Reject? && (filename.None? || filename.value == "") ==> d.detail == "Missing filename"
    ensures d.Store? ==> filename.Some? && d.safeName == SanitizeFilename(filename.value)
  {
    if filename.None? || filename.value == "" then Reject(400, "Missing filename")
    else if !EndsWithSav(filename.value) then Reject(400, "Please upload a .sav file")
    else Store(SanitizeFilename(filename.value))
  }

  /** Whether a name ends in ".sav" depends on its last four characters only. */
  lemma SameEndingSameSav(a: string, b: string)
    requires |a| >= 4 && |b| >= 4 && a[|a| - 4..] == b[|b| - 4..]
    ensures EndsWithSav(a) <==> EndsWithSav(b)
  {
    var la, sa := Lower(a)[|a| - 4..], a[|a| - 4..];
    var lb, sb := Lower(b)[|b| - 4..], b[|b| - 4..];
    assert forall i :: 0 <= i < 4 ==> la[i] == LowerChar(sa[i]);
    assert forall i :: 0 <= i < 4 ==> lb[i] == LowerChar(sb[i]);
    assert la == lb;
  }

  /** The four characters of a ".sav" ending, in any case, are all kept. */
  lemma SavEndingKept(name: string)
    requires EndsWithSav(name)
    ensures Keep(name[|name| - 4..]) == name[|name| - 4..]
  {
    var suffix := name[|name| - 4..];
    forall i | 0 <= i < 4 ensures IsKept(suffix[i]) {
      assert Lower(name)[|name| - 4..][i] == LowerChar(suffix[i]);
    }
  }

  /** A name that ends in ".sav" in some case keeps that ending, in the same case, once
      sanitized: the four characters are all kept and the cut keeps the last 100. */
  lemma SanitizeKeepsSavSuffix(name: string)
    requires EndsWithSav(name)
    ensures var r := SanitizeFilename(name);
      |r| >= 4 && r[|r| - 4..] == name[|name| - 4..] && EndsWithSav(r)
  {
    var n := |name|;
    var pre, suffix := name[..n - 4], name[n - 4..];
    assert name == pre + suffix;
    SavEndingKept(name);
    KeepConcat(pre, suffix);
    var kept := Keep(name);
    assert kept == Keep(pre) + suffix;
    var r := SanitizeFilename(name);
    assert r == kept[|kept| - |r|..];
    assert r[|r| - 4..] == kept[|kept| - 4..] == suffix;
    SameEndingSameSav(r, name);
  }

  /** An accepted upload is stored under a name that still ends in ".sav". */
  lemma StoredNameIsSav(filename: Option<string>)
    requires CheckUpload(filename).Store?
    ensures EndsWithSav(CheckUpload(filename).safeName)
  {
    SanitizeKeepsSavSuffix(filename.value);
  }

  // ---------------------------------------------------------------------------------------------
  // Value previews

  /** `b.hex(" ")`: two lower-case digits per byte, separated by single spaces. */
  function HexSpaced(bs: seq<byte>): (s: string)
    ensures bs == [] ==> s == ""
    ensures bs != [] ==> |s| == 3 * |bs| - 1
    ensures bs != [] ==> s[..2] == Guid.HexByte(bs[0])
  {
    if bs == [] then ""
    else if |bs| == 1 then Guid.HexByte(bs[0])
    else Guid.HexByte(bs[0]) + " " + HexSpaced(bs[1..])
  }

  /** `bytes.fromhex` reads the spaced hex preview back to the bytes it shows. */
  lemma {:induction false} FromHexOfHexSpaced(bs: seq<byte>)
    ensures Guid.FromHex(HexSpaced(bs)) == Some(bs)
    decreases |bs|
  {
    if bs != [] {
      var s := HexSpaced(bs);
      var h := Guid.HexByte(bs[0]);
      assert s[..2] == h && s[0] == h[0] && s[1] == h[1];
      assert !Guid.IsHexSpace(s[0]);
      assert 16 * Guid.HexValue(s[0]).value + Guid.HexValue(s[1]).value == bs[0];
      if |bs| == 1 {
        assert s[2..] == "";
        assert Guid.FromHex(s[2..]) == Some([]);
        assert Guid.FromHex(s) == Some([bs[0]] + []);
        assert [bs[0]] + [] == bs;
      } else {
        var rest := HexSpaced(bs[1..]);
        assert s[2..] == " " + rest;
        assert Guid.IsHexSpace(s[2..][0]) && s[2..][1..] == rest;
        FromHexOfHexSpaced(bs[1..]);
        assert Guid.FromHex(s[2..]) == Some(bs[1..]);
        assert Guid.FromHex(s) == Some([bs[0]] + bs[1..]);
        assert [bs[0]] + bs[1..] == bs;
      }
    }
  }

  const PREVIEW_BYTES: nat := 32

  /** The first 32 bytes, or all of them. */
  function Head(bs: seq<byte>): seq<byte> {
    if |bs| <= PREVIEW_BYTES then bs else bs[..PREVIEW_BYTES]
  }

  /** The preview of a byte array: "0 bytes", or the count, the spaced hex of the first 32 bytes
      and, past 32, " +N b" for the N bytes not shown. */
  function BytePreview(b: seq<byte>): (s: string)
  {
    var n := |b|;
    var more := if n > PREVIEW_BYTES then " +" + NatToString(n - PREVIEW_BYTES) + "b" else "";
    if n == 0 then "0 bytes" else NatToString(n) + " bytes: " + HexSpaced(Head(b)) + more
  }

  /** The byte-array preview shows the count, then exactly the first 32 bytes (read back by
      `bytes.fromhex`), then the number left out only when there are more than 32. */
  lemma BytePreviewShape(b: seq<byte>)
    requires b != []
    ensures var n := |b|; var prefix := NatToString(n) + " bytes: "; var s := BytePreview(b);
      && |s| >= |prefix| && s[..|prefix|] == prefix
      && var hex := HexSpaced(Head(b));
      && |s| >= |prefix| + |hex| && s[|prefix|..|prefix| + |hex|] == hex
      && Guid.FromHex(hex) == Some(b[..if n < PREVIEW_BYTES then n else PREVIEW_BYTES])
      && (n > PREVIEW_BYTES <==> |s| > |prefix| + |hex|)
  {
    FromHexOfHexSpaced(Head(b));
    assert |b| <= PREVIEW_BYTES ==> b[..|b|] == b;
  }

  const ELLIPSIS: char := '…'

  const MAX_SHOWN: nat := 200

  /** The first 200 characters followed by "…" when the text is longer. */
  function Truncate(s: string): (r: string)
    ensures |s| <= MAX_SHOWN ==> r == s
    ensures |r| <= MAX_SHOWN + 1
    ensures |s| > MAX_SHOWN ==> |r| == MAX_SHOWN + 1 && r[..MAX_SHOWN] == s[..MAX_SHOWN] && r[MAX_SHOWN] == ELLIPSIS
  {
    if |s| > MAX_SHOWN then s[..MAX_SHOWN] + [ELLIPSIS] else s
  }

  /** `f'"{s}"'` after the truncation. */
  function Quoted(s: string): string {
    "\"" + Truncate(s) + "\""
  }

  /** The preview of a text property: the stripped UTF-8 text, quoted, when there is any;
      otherwise the byte count and the spaced hex of the first 32 bytes. */
  function TextPreview(v: seq<byte>): (s: string)
    ensures Strip(Utf8Decode(v)) != "" ==> s == Quoted(Strip(Utf8Decode(v)))
    ensures Strip(Utf8Decode(v)) == "" ==> |s| > 12 && s[..12] == "<Text bytes " && s[|s| - 1] == '>'
  {
    var text := Strip(Utf8Decode(v));
    if text != "" then Quoted(text)
    else
      var n := |v|;
      var more := if n > PREVIEW_BYTES then " .. +" + NatToString(n - PREVIEW_BYTES) + "b" else "";
      "<Text bytes " + NatToString(n) + ": " + HexSpaced(Head(v)) + more + ">"
  }

  /** A value preview. `str()` of a float is not computed: it stays the payload it is made of. */
  datatype Preview = Shown(text: string) | FloatShown(payload: seq<byte>)

  /** `bytes(vals)`, and on its `TypeError` `bytes([int(x) & 0xFF for x in vals])`. A list of
      strings goes through `int()`, whose `ValueError` escapes; a float, through `int()` whose
      result the model does not compute; a property object makes `int()` raise `TypeError`. */
  function ArrayBytes(values: ArrayValues): (r: Result<seq<byte>>)
    ensures Encode.ValuesCount(values) == 0 ==> r == Ok([])
    ensures values.ByteValues? ==> r == Ok(values.bytes)
    ensures r.Ok? ==> |r.value| == Encode.ValuesCount(values)
  {
    match values
    case ByteValues(bs) => Ok(bs)
    case IntValues(xs) => Ok(Encode.MaskedBytes(xs))
    case StrValues(ss) =>
      var xs :- Encode.IntsOfTexts(ss);
      Ok(Encode.MaskedBytes(xs))
    case FloatValues(fs) => if fs == [] then Ok([]) else Err(Unconverted)
    case PropValues(ps) => if ps == [] then Ok([]) else Err(TypeError)
  }

  /** `_format_prop_value(obj)`: no preview for a struct or a struct array, whose children are
      shown instead; a summary for arrays, maps and texts; the value itself for the others. */
  function FormatPropValue(p: Property): (r: Result<Option<Preview>>)
    ensures r == Ok(None) <==> p.StructProperty? || (p.ArrayProperty? && p.innerType == "StructProperty")
    ensures r.Err? ==> p.ArrayProperty? && p.innerType == "ByteProperty"
    ensures r.Ok? && r.value.Some? && r.value.value.FloatShown? <==> p.DoubleProperty? || p.FloatProperty?
  {
    match p
    case StructProperty(_, _, _, _, _, _) => Ok(None)
    case ArrayProperty(_, _, _, inner, _, values) =>
      if inner == "ByteProperty" then
        var b :- ArrayBytes(values);
        Ok(Some(Shown(BytePreview(b))))
      else if inner == "StructProperty" then Ok(None)
      else Ok(Some(Shown("Array<" + inner + "> with " + NatToString(Encode.ValuesCount(values)) + " item(s)")))
    case MapProperty(_, _, _, keyType, valueType, _, raw) =>
      Ok(Some(Shown("Map<" + keyType + ", " + valueType + "> raw " + NatToString(|raw|) + " byte(s)")))
    case TextProperty(_, _, _, v) => Ok(Some(Shown(TextPreview(v))))
    case BoolProperty(_, _, _, flag) => Ok(Some(Shown(if flag then "True" else "False")))
    case ByteProperty(_, _, _, _, v) =>
      Ok(Some(Shown(match v case ByteNum(num) => IntToString(num) case ByteName(word) => Quoted(word))))
    case DoubleProperty(_, _, _, payload) => Ok(Some(FloatShown(payload)))
    case FloatProperty(_, _, _, payload) => Ok(Some(FloatShown(payload)))
    case Int64Property(_, _, _, v) => Ok(Some(Shown(IntToString(v))))
    case IntProperty(_, _, _, v, _) => Ok(Some(Shown(IntToString(v))))
    case UInt64Property(_, _, _, v) => Ok(Some(Shown(IntToString(v))))
    case NameProperty(_, _, _, s) => Ok(Some(Shown(Quoted(s))))
    case ObjectProperty(_, _, _, s) => Ok(Some(Shown(Quoted(s))))
    case StrProperty(_, _, _, s) => Ok(Some(Shown(Quoted(s))))
  }

  /** A byte array's preview counts its bytes: "0 bytes" exactly when it is empty. */
  lemma FormatByteArray(p: Property)
    requires p.ArrayProperty? && p.innerType == "ByteProperty" && p.values.ByteValues?
    ensures FormatPropValue(p) == Ok(Some(Shown(BytePreview(p.values.bytes))))
    ensures (BytePreview(p.values.bytes) == "0 bytes") <==> p.values.bytes == []
  {
    var b := p.values.bytes;
    if b != [] {
      var s := BytePreview(b);
      var prefix := NatToString(|b|) + " bytes: ";
      assert |s| >= |prefix| >= 9;
    }
  }

  /** A string value is shown quoted and whole up to 200 characters; a longer one is cut to its
      first 200 characters and "…". */
  lemma FormatString(p: Property)
    requires p.StrProperty? || p.NameProperty? || p.ObjectProperty?
    ensures var s := p.text; var shown := FormatPropValue(p).value.value.text;
      && shown[0] == '"' && shown[|shown| - 1] == '"'
      && (|s| <= MAX_SHOWN ==> shown == "\"" + s + "\"")
      && (|s| > MAX_SHOWN ==> |shown| == MAX_SHOWN + 3 && shown[1..MAX_SHOWN + 1] == s[..MAX_SHOWN] && shown[MAX_SHOWN + 1] == ELLIPSIS)
  {
  }

  // ---------------------------------------------------------------------------------------------
  // Display nodes

  /** The dictionary `create_node` returns; `children` is None where the list would be empty. */
  datatype Node = Node(name: string, typeName: string, meta: string, children: Option<seq<Node>>, value: Option<Preview>)

  /** The node of a list element that is not a property: a string, an int or a float, none of
      which has a name or a `value` attribute. */
  function Leaf(typeName: string): Node {
    Node("", typeName, "", None, None)
  }

  /** The inner types whose elements `create_node` expands into children. */
  predicate HasElementNodes(inner: string) {
    inner == "StrProperty" || inner == "NameProperty" || inner == "IntProperty" || inner == "StructProperty"
  }

  /** The number of children `create_node` finds. */
  function ChildCount(p: Property): nat {
    match p
    case StructProperty(_, _, _, _, _, fields) => |fields|
    case ArrayProperty(_, _, _, inner, _, values) => if HasElementNodes(inner) then Encode.ValuesCount(values) else 0
    case _ => 0
  }

  /** `create_node(obj)`: the name, the class name, a summary, the children of a struct or of an
      array of strings, ints or structs, and the value preview only when there are no children. */
  function CreateNode(p: Property): (r: Result<Node>)
    ensures r.Ok? ==> r.value.name == p.name && r.value.typeName == ClassName(p)
    ensures r.Ok? ==> Expand(p).Ok? && r.value.meta == Expand(p).value.0
    ensures r.Ok? ==> (r.value.children.Some? <==> ChildCount(p) > 0)
    ensures r.Ok? && r.value.children.Some? ==>
      && r.value.children.value == Expand(p).value.1
      && |r.value.children.value| == ChildCount(p) && r.value.value.None?
    ensures r.Ok? && r.value.children.None? ==> FormatPropValue(p) == Ok(r.value.value)
    ensures ChildCount(p) == 0 ==> (r.Ok? <==> FormatPropValue(p).Ok?)
    ensures ChildCount(p) > 0 ==> (r.Ok? <==> Expand(p).Ok?)
    decreases p, 2
  {
    var (meta, children) :- Expand(p);
    if children == [] then
      var value :- FormatPropValue(p);
      Ok(Node(p.name, ClassName(p), meta, None, value))
    else Ok(Node(p.name, ClassName(p), meta, Some(children), None))
  }

  /** The `meta` text and the child nodes of a property: for a struct "N field(s)" and a node
      per field; for a byte array "N bytes" and no children; for a struct array "N struct(s)"
      and a node per element; for any other array "Array<T> x N", with a node per element for
      strings, names and ints only; for every other class an empty summary. */
  function Expand(p: Property): (r: Result<(string, seq<Node>)>)
    ensures r.Ok? ==> |r.value.1| == ChildCount(p)
    ensures ChildCount(p) == 0 ==> r.Ok?
    ensures p.StructProperty? ==>
      && (r.Ok? <==> Nodes(p.fields).Ok?)
      && (r.Ok? ==> r.value == (NatToString(|p.fields|) + " field(s)", Nodes(p.fields).value))
    ensures p.ArrayProperty? && p.innerType == "ByteProperty" ==>
      r == Ok((NatToString(Encode.ValuesCount(p.values)) + " bytes", []))
    ensures p.ArrayProperty? && p.innerType == "StructProperty" ==>
      && (r.Ok? <==> ElementNodes(p.values).Ok?)
      && (r.Ok? ==> r.value == (NatToString(Encode.ValuesCount(p.values)) + " struct(s)", ElementNodes(p.values).value))
    ensures p.ArrayProperty? && p.innerType != "ByteProperty" && p.innerType != "StructProperty" ==>
      && (r.Ok? <==> !HasElementNodes(p.innerType) || ElementNodes(p.values).Ok?)
      && (r.Ok? ==> r.value.0 == "Array<" + p.innerType + "> x " + NatToString(Encode.ValuesCount(p.values)))
      && (r.Ok? && HasElementNodes(p.innerType) ==> r.value.1 == ElementNodes(p.values).value)
    ensures !p.StructProperty? && !p.ArrayProperty? ==> r == Ok(("", []))
    decreases p, 1
  {
    match p
    case StructProperty(_, _, _, _, _, fields) =>
      var nodes :- Nodes(fields);
      Ok((NatToString(|fields|) + " field(s)", nodes))
    case ArrayProperty(_, _, _, inner, _, values) =>
      var n := NatToString(Encode.ValuesCount(values));
      if inner == "ByteProperty" then Ok((n + " bytes", []))
      else if inner == "StructProperty" then
        var nodes :- ElementNodes(values);
        Ok((n + " struct(s)", nodes))
      else if HasElementNodes(inner) then
        var nodes :- ElementNodes(values);
        Ok(("Array<" + inner + "> x " + n, nodes))
      else Ok(("Array<" + inner + "> x " + n, []))
    case _ => Ok(("", []))
  }

  /** The class name of a plain list element: `int` for bytes and ints, `str`, `float`. */
  function PlainTypeName(values: ArrayValues): string {
    match values
    case ByteValues(_) => "int"
    case IntValues(_) => "int"
    case StrValues(_) => "str"
    case FloatValues(_) => "float"
    case PropValues(_) => ""
  }

  /** `[create_node(obj[i]) for i in range(len(obj))]`: a node per element in order, a leaf for
      each plain value and the property's node for each property. */
  function ElementNodes(values: ArrayValues): (r: Result<seq<Node>>)
    ensures r.Ok? ==> |r.value| == Encode.ValuesCount(values)
    ensures !values.PropValues? ==> r.Ok? && forall i :: 0 <= i < |r.value| ==> r.value[i] == Leaf(PlainTypeName(values))
    ensures values.PropValues? ==> r == Nodes(values.props)
    decreases values, 0
  {
    match values
    case ByteValues(bs) => Ok(seq(|bs|, _ => Leaf("int")))
    case IntValues(xs) => Ok(seq(|xs|, _ => Leaf("int")))
    case StrValues(ss) => Ok(seq(|ss|, _ => Leaf("str")))
    case FloatValues(fs) => Ok(seq(|fs|, _ => Leaf("float")))
    case PropValues(ps) => Nodes(ps)
  }

  /** `[create_node(f) for f in fields]`: one node per property, in order, failing with the
      first that fails. */
  function Nodes(ps: seq<Property>): (r: Result<seq<Node>>)
    ensures r.Ok? <==> forall i :: 0 <= i < |ps| ==> CreateNode(ps[i]).Ok?
    ensures r.Ok? ==> |r.value| == |ps| && forall i :: 0 <= i < |ps| ==> CreateNode(ps[i]) == Ok(r.value[i])
    decreases ps, 3
  {
    if ps == [] then Ok([])
    else
      var first :- CreateNode(ps[0]);
      var rest :- Nodes(ps[1..]);
      assert forall j :: 0 <= j < |ps| - 1 ==> ps[1..][j] == ps[j + 1];
      Ok([first] + rest)
  }

  /** The node of a struct: "N field(s)", and child i is the node of field i; a struct with no
      fields has neither children nor a value. */
  lemma StructNode(p: Property)
    requires p.StructProperty?
    ensures var r := CreateNode(p);
      && (r.Ok? <==> forall i :: 0 <= i < |p.fields| ==> CreateNode(p.fields[i]).Ok?)
      && (r.Ok? ==> r.value.meta == NatToString(|p.fields|) + " field(s)")
      && (r.Ok? && p.fields != [] ==>
            && r.value.children.Some? && |r.value.children.value| == |p.fields|
            && forall i :: 0 <= i < |p.fields| ==> CreateNode(p.fields[i]) == Ok(r.value.children.value[i]))
      && (r.Ok? && p.fields == [] ==> r.value.children.None? && r.value.value.None?)
  {
  }

  /** The node of a struct array: "N struct(s)", and child i is the node of element i. */
  lemma StructArrayNode(p: Property)
    requires p.ArrayProperty? && p.innerType == "StructProperty" && p.values.PropValues?
    ensures var r := CreateNode(p); var ps := p.values.props;
      && (r.Ok? <==> forall i :: 0 <= i < |ps| ==> CreateNode(ps[i]).Ok?)
      && (r.Ok? ==> r.value.meta == NatToString(|ps|) + " struct(s)")
      && (r.Ok? && ps != [] ==>
            && r.value.children.Some? && |r.value.children.value| == |ps|
            && forall i :: 0 <= i < |ps| ==> CreateNode(ps[i]) == Ok(r.value.children.value[i]))
  {
  }

  /** The node of a byte array: "N bytes", no children and the byte preview. */
  lemma ByteArrayNode(p: Property)
    requires p.ArrayProperty? && p.innerType == "ByteProperty"
    ensures var r := CreateNode(p);
      && (r.Ok? <==> ArrayBytes(p.values).Ok?)
      && (r.Ok? ==>
            && r.value.meta == NatToString(Encode.ValuesCount(p.values)) + " bytes"
            && r.value.children.None?
            && r.value.value == Some(Shown(BytePreview(ArrayBytes(p.values).value))))
  {
  }

  /** The node of an array of strings, names or ints: "Array<T> x N", and one leaf per plain
      value, carrying its Python class name. */
  lemma PlainArrayNode(p: Property)
    requires p.ArrayProperty? && p.innerType in ["StrProperty", "NameProperty", "IntProperty"]
    requires !p.values.PropValues? && Encode.ValuesCount(p.values) > 0
    ensures var r := CreateNode(p);
      && r.Ok?
      && r.value.meta == "Array<" + p.innerType + "> x " + NatToString(Encode.ValuesCount(p.values))
      && r.value.children.Some? && |r.value.children.value| == Encode.ValuesCount(p.values)
      && r.value.value.None?
      && forall i :: 0 <= i < |r.value.children.value| ==> r.value.children.value[i] == Leaf(PlainTypeName(p.values))
  {
  }

  /** A map is summarised by its key and value types and the length of its raw bytes. */
  lemma FormatMap(p: Property)
    requires p.MapProperty?
    ensures FormatPropValue(p) == Ok(Some(Shown("Map<" + p.keyType + ", " + p.valueType + "> raw " + NatToString(|p.raw|) + " byte(s)")))
    ensures CreateNode(p) == Ok(Node(p.name, ClassName(p), "", None, FormatPropValue(p).value))
  {
  }

  /** An array of any inner type but bytes and structs is summarised by that type and its
      number of items. */
  lemma FormatArraySummary(p: Property)
    requires p.ArrayProperty? && p.innerType != "ByteProperty" && p.innerType != "StructProperty"
    ensures FormatPropValue(p) ==
      Ok(Some(Shown("Array<" + p.innerType + "> with " + NatToString(Encode.ValuesCount(p.values)) + " item(s)")))
  {
  }
}
