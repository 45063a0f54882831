/** The GVAS file header of uesave/__init__.py: `_read_gvas_header` and `_write_gvas_header`. The
    header dictionary becomes a datatype; its file-version keys stay optional, because the reader
    fills either the two UE4/UE5 keys or `package_file_version` and the writer picks its layout by
    which keys are present. */
module Header {
  import opened Bytes
  import opened FString
  import opened Guid

  /** The four bytes "GVAS". */
  const MAGIC: seq<byte> := [71, 86, 65, 83]

  /** The file-version keys of the header dictionary. */
  datatype FileVersions = FileVersions(ue4: Option<int>, ue5: Option<int>, package: Option<int>)

  datatype EngineVersion = EngineVersion(major: int, minor: int, patch: int, changelist: int, branch: string)

  /** One entry of `custom_versions`. */
  datatype CustomVersion = CustomVersion(guid: string, version: int)

  datatype Header = Header(
    saveGameVersion: int,
    versions: FileVersions,
    engine: EngineVersion,
    customFormat: int,
    customVersions: seq<CustomVersion>,
    className: string)

  // ---------------------------------------------------------------------------------------------
  // The class-name check

  /** The characters `_plausible_class_name` counts as allowed: ASCII letters and digits and the
      punctuation of Unreal class paths. */
  predicate IsAllowedChar(c: char) {
    || 'a' <= c <= 'z' || 'A' <= c <= 'Z' || '0' <= c <= '9'
    || c in "_./\\:-$[]()<>@!%+,' \""
  }

  /** `sum(1 for ch in s if ch in allowed)`. */
  function AllowedCount(s: string): (n: nat)
    ensures n <= |s|
    ensures n == |s| <==> forall i :: 0 <= i < |s| ==> IsAllowedChar(s[i])
  {
    if s == [] then 0
    else
      var rest := AllowedCount(s[1..]);
      assert forall i :: 1 <= i < |s| ==> s[i] == s[1..][i - 1];
      (if IsAllowedChar(s[0]) then 1 else 0) + rest
  }

  /** The substrings `_plausible_class_name` looks for. */
  const MARKERS: seq<string> := ["/", ".", "_C", "BP_", "SaveGame", "Class", "/Game/"]

  /** `m in s` on strings: some slice of `s` is `m`. */
  predicate Contains(s: string, m: string)
    decreases |s|
  {
    |m| <= |s| && (s[..|m|] == m || Contains(s[1..], m))
  }

  /** `any(m in s for m in markers)`. */
  predicate AnyMarker(s: string, markers: seq<string>)
    decreases |markers|
  {
    markers != [] && (Contains(s, markers[0]) || AnyMarker(s, markers[1..]))
  }

  /** `_plausible_class_name(s)`. Python compares the float `ok / len(s)` with 0.75; both sides
      are exact enough at these lengths that this is `4 * ok < 3 * len(s)`. A name holding one of
      the markers is accepted, and so is any other name that got this far. */
  function PlausibleClassName(s: string): (b: bool)
    ensures b <==> 1 <= |s| <= 2048 && 4 * AllowedCount(s) >= 3 * |s|
  {
    if !(1 <= |s| <= 2048) then false
    else if 4 * AllowedCount(s) < 3 * |s| then false
    else if AnyMarker(s, MARKERS) then true
    else true
  }

  // ---------------------------------------------------------------------------------------------
  // Reading

  /** Would the dual UE4/UE5 layout be chosen for file versions starting at `off`: the two u16
      after the two i32 (where the engine major and minor would be) are at most 50. */
  predicate DualPlausible(data: seq<byte>, off: nat)
    requires off + 12 <= |data|
  {
    ReadU16(data, off + 8).value.value <= 50 && ReadU16(data, off + 10).value.value <= 50
  }

  /** The file versions of `_read_gvas_header`: read two i32 and peek at two u16 after them; when
      both are at most 50 keep the two versions, otherwise re-read the first i32 as the only one. */
  function ReadFileVersions(data: seq<byte>, off: nat): (r: Result<Read<FileVersions>>)
    ensures r.Ok? <==> off + 12 <= |data|
    ensures r.Ok? && DualPlausible(data, off) ==>
      r.value.value == FileVersions(Some(ReadI32(data, off).value.value), Some(ReadI32(data, off + 4).value.value), None)
      && r.value.next == off + 8
    ensures r.Ok? && !DualPlausible(data, off) ==>
      r.value.value == FileVersions(None, None, Some(ReadI32(data, off).value.value)) && r.value.next == off + 4
  {
    var Read(ue4, o1) :- ReadI32(data, off);
    var Read(ue5, o2) :- ReadI32(data, o1);
    var Read(major, _) :- ReadU16(data, o2);
    var Read(minor, _) :- ReadU16(data, o2 + 2);
    if major <= 50 && minor <= 50 then Ok(Read(FileVersions(Some(ue4), Some(ue5), None), o2))
    else
      // Re-reading the i32 at `off` gives `ue4` and `o1` again.
      Ok(Read(FileVersions(None, None, Some(ue4)), o1))
  }

  /** The engine version: u16 major, minor and patch, u32 changelist, FString branch. */
  function ReadEngineVersion(data: seq<byte>, off: nat): (r: Result<Read<EngineVersion>>)
    ensures r.Ok? <==> off + 14 <= |data|
    ensures r.Ok? ==> var e := r.value.value;
      && e.major == ReadU16(data, off).value.value
      && e.minor == ReadU16(data, off + 2).value.value
      && e.patch == ReadU16(data, off + 4).value.value
      && e.changelist == ReadU32(data, off + 6).value.value
      && Yields(ReadString(data, off + 10), e.branch, r.value.next)
  {
    var Read(major, o1) :- ReadU16(data, off);
    var Read(minor, o2) :- ReadU16(data, o1);
    var Read(patch, o3) :- ReadU16(data, o2);
    var Read(changelist, o4) :- ReadU32(data, o3);
    var Read(branch, o5) :- ReadString(data, o4);
    Ok(Read(EngineVersion(major, minor, patch, changelist, branch), o5))
  }

  /** One custom version: `_read_guid`, which never fails, then an i32 version. */
  function ReadCustomVersion(data: seq<byte>, off: nat): (r: Result<Read<CustomVersion>>)
    ensures r.Ok? <==> off + 20 <= |data|
    ensures r.Ok? ==> r.value.next == off + 20
  {
    var guid := ReadGuid(data, off);
    var version :- ReadI32(data, guid.next);
    Ok(Read(CustomVersion(guid.value, version.value), version.next))
  }

  /** `count` custom versions one after the other. */
  function ReadCustomVersions(data: seq<byte>, off: nat, count: nat): (r: Result<Read<seq<CustomVersion>>>)
    ensures r.Ok? <==> count == 0 || off + 20 * count <= |data|
    ensures r.Ok? ==> |r.value.value| == count && r.value.next == off + 20 * count
    decreases count
  {
    if count == 0 then Ok(Read([], off))
    else
      var entry :- ReadCustomVersion(data, off);
      PrependTo([entry.value], ReadCustomVersions(data, entry.next, count - 1))
  }

  /** The bounds `_read_gvas_header` puts on the custom-versions format and count. */
  predicate TableInRange(fmt: int, cnt: int) {
    0 <= cnt <= 10000 && 0 <= fmt <= 10
  }

  /** The custom-versions format, the count, then the entries; `ValueError` when the count or
      the format is out of range. */
  function ReadCustomTable(data: seq<byte>, off: nat): (r: Result<Read<(int, seq<CustomVersion>)>>)
    ensures off + 8 <= |data| && !TableInRange(ReadI32(data, off).value.value, ReadI32(data, off + 4).value.value)
      ==> r == Err(ValueError(""))
    ensures r.Ok? ==> var (fmt, cvs) := r.value.value;
      && off + 8 <= |data| && fmt == ReadI32(data, off).value.value && |cvs| == ReadI32(data, off + 4).value.value
      && TableInRange(fmt, |cvs|) && r.value.next == off + 8 + 20 * |cvs|
  {
    var Read(fmt, o1) :- ReadI32(data, off);
    var Read(cnt, o2) :- ReadI32(data, o1);
    if !TableInRange(fmt, cnt) then Err(ValueError(""))
    else
      var entries :- ReadCustomVersions(data, o2, cnt);
      Ok(Read((fmt, entries.value), entries.next))
  }

  const NOT_GVAS: Error := ValueError("Not a GVAS header at given offset")

  /** `_read_gvas_header(data, offset)`. */
  function ReadGvasHeader(data: seq<byte>, off: nat): (r: Result<Read<Header>>)
    ensures Slice(data, off, off + 4) != MAGIC ==> r == Err(NOT_GVAS)
    ensures r.Ok? ==> var h := r.value.value;
      && off + 4 <= |data| && data[off..off + 4] == MAGIC
      && PlausibleClassName(h.className)
      && TableInRange(h.customFormat, |h.customVersions|)
      && (h.versions.ue4.Some? <==> h.versions.ue5.Some?)
      && (h.versions.ue4.Some? <==> h.versions.package.None?)
      && r.value.next > off
  {
    if Slice(data, off, off + 4) != MAGIC then Err(NOT_GVAS)
    else
      var Read(saveGameVersion, o1) :- ReadI32(data, off + 4);
      var Read(versions, o2) :- ReadFileVersions(data, o1);
      var Read(engine, o3) :- ReadEngineVersion(data, o2);
      var Read((fmt, entries), o4) :- ReadCustomTable(data, o3);
      var Read(className, o5) :- ReadString(data, o4);
      if !PlausibleClassName(className) then Err(AssertionError)
      else Ok(Read(Header(saveGameVersion, versions, engine, fmt, entries, className), o5))
  }

  // ---------------------------------------------------------------------------------------------
  // Writing

  /** The file versions of `_write_gvas_header`: both UE4 and UE5 versions when the UE4 key is
      present (asserting the UE5 key is too), otherwise `package_file_version`. */
  function FileVersionBytes(v: FileVersions): (r: Result<seq<byte>>)
    ensures v.ue4.Some? && v.ue5.None? ==> r == Err(AssertionError)
    ensures v.ue4.None? && v.package.None? ==> r == Err(KeyError("package_file_version"))
    ensures r.Ok? && v.ue4.Some? ==> |r.value| == 8
    ensures r.Ok? && v.ue4.None? ==> |r.value| == 4
    ensures r.Ok? <==>
      if v.ue4.Some? then v.ue5.Some? && I32Bytes(v.ue4.value).Ok? && I32Bytes(v.ue5.value).Ok?
      else v.package.Some? && I32Bytes(v.package.value).Ok?
  {
    if v.ue4.Some? then
      if v.ue5.None? then Err(AssertionError)
      else
        var a :- I32Bytes(v.ue4.value);
        var b :- I32Bytes(v.ue5.value);
        Ok(a + b)
    else if v.package.None? then Err(KeyError("package_file_version"))
    else I32Bytes(v.package.value)
  }

  /** The engine version: three u16 and a u32, masked, then the branch FString. */
  function EngineBytes(e: EngineVersion): (r: Result<seq<byte>>)
    ensures r.Ok? <==> |e.branch| < I32_MAX
    ensures r.Ok? ==> |r.value| >= 14
  {
    var branch :- StringBytes(e.branch);
    Ok(U16Bytes(e.major) + U16Bytes(e.minor) + U16Bytes(e.patch) + U32Bytes(e.changelist) + branch)
  }

  /** One entry: `_write_guid` of its GUID text, then its version as i32. */
  function CustomVersionBytes(cv: CustomVersion): (r: Result<seq<byte>>)
    ensures r.Ok? <==> I32_MIN <= cv.version <= I32_MAX
    ensures r.Ok? ==> |r.value| == 20 && r.value[..16] == GuidBytes(cv.guid)
  {
    var v :- I32Bytes(cv.version);
    Ok(GuidBytes(cv.guid) + v)
  }

  /** The entries: `_write_guid` (16 bytes, zeros for a malformed text) and an i32, each. */
  function CustomVersionsBytes(cvs: seq<CustomVersion>): (r: Result<seq<byte>>)
    ensures r.Ok? <==> forall i :: 0 <= i < |cvs| ==> I32_MIN <= cvs[i].version <= I32_MAX
    ensures r.Ok? ==> |r.value| == 20 * |cvs|
  {
    if cvs == [] then Ok([])
    else
      var entry :- CustomVersionBytes(cvs[0]);
      var rest := CustomVersionsBytes(cvs[1..]);
      assert forall i :: 1 <= i < |cvs| ==> cvs[i] == cvs[1..][i - 1];
      PrependBytes(entry, rest)
  }

  /** `_write_gvas_header(data, header)`: the bytes, or the first exception the writer raises. */
  function HeaderBytes(h: Header): (r: Result<seq<byte>>)
    ensures r.Ok? ==> |r.value| >= 4
    ensures r.Ok? <==>
      && I32_MIN <= h.saveGameVersion <= I32_MAX
      && FileVersionBytes(h.versions).Ok?
      && |h.engine.branch| < I32_MAX
      && I32_MIN <= h.customFormat <= I32_MAX
      && |h.customVersions| <= I32_MAX
      && CustomVersionsBytes(h.customVersions).Ok?
      && |h.className| < I32_MAX
  {
    var sgv :- I32Bytes(h.saveGameVersion);
    var fv :- FileVersionBytes(h.versions);
    var e :- EngineBytes(h.engine);
    var fmt :- I32Bytes(h.customFormat);
    var n :- I32Bytes(|h.customVersions|);
    var cv :- CustomVersionsBytes(h.customVersions);
    var cls :- StringBytes(h.className);
    Ok(MAGIC + sgv + fv + e + fmt + n + cv + cls)
  }
}
