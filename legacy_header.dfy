/** `parse_gvas_header` of uesave.py. Up to the engine version it reads what `_read_gvas_header`
    of uesave/__init__.py reads, with the same dual-layout peek; then, at `base`, it tries four
    layouts of custom versions and class name, A, B, C and D in that order, each inside a
    `try` that swallows any exception, and keeps the first whose class name is plausible. When
    none is, only a bare class name read at `base` is tried, outside any `try`. The header
    dictionary's optional keys become `Option` fields. */
module LegacyHeader {
  import opened Bytes
  import opened FString
  import opened Guid
  import opened Header
  import Reader

  /** One custom-versions entry; layouts B and D add a friendly-name FString. */
  datatype CustomEntry = CustomEntry(guid: string, version: int, friendlyName: Option<string>)

  /** A: format, count, (GUID, i32) entries. B: the same with friendly names. C: count and
      (GUID, i32) entries. D: count and entries with friendly names. */
  datatype Layout = A | B | C | D

  predicate HasFormat(l: Layout) { l == A || l == B }

  predicate HasNames(l: Layout) { l == B || l == D }

  /** The position of a layout in the order the parser tries them. */
  function Rank(l: Layout): nat {
    match l
    case A => 0
    case B => 1
    case C => 2
    case D => 3
  }

  /** What an attempt reads: the format (layouts A and B), the entries and the class name. */
  datatype Table = Table(format: Option<int>, entries: seq<CustomEntry>, className: string)

  datatype LegacyHeader = LegacyHeader(
    saveGameVersion: int,
    versions: FileVersions,
    engine: EngineVersion,
    customFormat: Option<int>,
    customVersions: Option<seq<CustomEntry>>,
    className: Option<string>)

  /** The friendly name of an entry, when the layout has one. */
  function ReadFriendlyName(data: seq<byte>, off: nat, names: bool): (r: Result<Read<Option<string>>>)
    ensures r.Ok? ==> (r.value.value.Some? <==> names) && r.value.next >= off
  {
    if names then
      var Read(s, o) :- ReadString(data, off);
      Ok(Read(Some(s), o))
    else Ok(Read(None, off))
  }

  /** `for _ in range(cnt)`: `read_guid`, which never fails, an i32 version and, for B and D, the
      friendly name. */
  function ReadEntries(data: seq<byte>, off: nat, count: nat, names: bool): (r: Result<Read<seq<CustomEntry>>>)
    ensures r.Ok? ==> |r.value.value| == count && r.value.next >= off + 20 * count
    ensures r.Ok? ==> forall i :: 0 <= i < count ==> (r.value.value[i].friendlyName.Some? <==> names)
    ensures !names ==> (r.Ok? <==> count == 0 || off + 20 * count <= |data|)
    decreases count
  {
    if count == 0 then Ok(Read([], off))
    else
      var Read(guid, o1) := ReadGuid(data, off);
      var Read(version, o2) :- ReadI32(data, o1);
      var Read(friendly, o3) :- ReadFriendlyName(data, o2, names);
      PrependTo([CustomEntry(guid, version, friendly)], ReadEntries(data, o3, count - 1, names))
  }

  /** The count of an attempt must lie in 0..10000, and the format of A and B in 0..10; otherwise
      the attempt raises `ValueError`. */
  function ReadCount(data: seq<byte>, off: nat, withFormat: bool): (r: Result<Read<(Option<int>, nat)>>)
    ensures r.Ok? ==> var (fmt, cnt) := r.value.value;
      && (fmt.Some? <==> withFormat) && (fmt.Some? ==> 0 <= fmt.value <= 10) && cnt <= 10000
      && r.value.next == off + (if withFormat then 8 else 4)
  {
    if withFormat then
      var Read(fmt, o1) :- ReadI32(data, off);
      var Read(cnt, o2) :- ReadI32(data, o1);
      if !(0 <= cnt <= 10000 && 0 <= fmt <= 10) then Err(ValueError(""))
      else Ok(Read((Some(fmt), cnt), o2))
    else
      var Read(cnt, o1) :- ReadI32(data, off);
      if !(0 <= cnt <= 10000) then Err(ValueError(""))
      else Ok(Read((None, cnt), o1))
  }

  /** One attempt, run at `base`: an error is the exception its `try` catches. */
  function Attempt(data: seq<byte>, base: nat, l: Layout): (r: Result<Read<Table>>)
    ensures r.Ok? ==> var t := r.value.value;
      && (t.format.Some? <==> HasFormat(l)) && (t.format.Some? ==> 0 <= t.format.value <= 10)
      && |t.entries| <= 10000
      && (forall i :: 0 <= i < |t.entries| ==> (t.entries[i].friendlyName.Some? <==> HasNames(l)))
      && r.value.next >= base + 4
  {
    var Read((fmt, cnt), o1) :- ReadCount(data, base, HasFormat(l));
    var Read(entries, o2) :- ReadEntries(data, o1, cnt, HasNames(l));
    var Read(cls, o3) :- ReadString(data, o2);
    Ok(Read(Table(fmt, entries, cls), o3))
  }

  /** An attempt succeeds: it raised nothing and its class name is plausible. */
  predicate Accepted(data: seq<byte>, base: nat, l: Layout) {
    var r := Attempt(data, base, l);
    r.Ok? && PlausibleClassName(r.value.value.className)
  }

  /** The layout the parser keeps: the first of A, B, C, D that is accepted. */
  function FirstAccepted(data: seq<byte>, base: nat): (r: Option<Layout>)
    ensures r.Some? ==> Accepted(data, base, r.value) && forall l :: Rank(l) < Rank(r.value) ==> !Accepted(data, base, l)
    ensures r.None? ==> forall l :: !Accepted(data, base, l)
  {
    if Accepted(data, base, A) then Some(A)
    else if Accepted(data, base, B) then Some(B)
    else if Accepted(data, base, C) then Some(C)
    else if Accepted(data, base, D) then Some(D)
    else None
  }

  /** Where the custom versions begin, once the engine version is read. */
  function Base(data: seq<byte>, off: nat): (b: Result<nat>)
    ensures b.Ok? ==> off + 20 <= |data| && b.value >= off + 20
  {
    var Read(_, o1) :- ReadI32(data, off + 4);
    var Read(_, o2) :- ReadFileVersions(data, o1);
    var Read(_, o3) :- ReadEngineVersion(data, o2);
    Ok(o3)
  }

  const LEGACY_NOT_GVAS: Error := ValueError("Not a GVAS header at given offset")

  /** `parse_gvas_header(data, offset)`. */
  function ParseGvasHeader(data: seq<byte>, off: nat): (r: Result<Read<LegacyHeader>>)
    ensures Slice(data, off, off + 4) != MAGIC ==> r == Err(LEGACY_NOT_GVAS)
    ensures r.Err? ==> r.error == LEGACY_NOT_GVAS || r.error == StructError
    ensures r.Ok? ==>
      && Base(data, off).Ok?
      && (r.value.value.className.None? <==> r.value.next == Base(data, off).value)
      && (r.value.value.versions.ue4.Some? <==> DualPlausible(data, off + 8))
  {
    if Slice(data, off, off + 4) != MAGIC then Err(LEGACY_NOT_GVAS)
    else
      var Read(saveGameVersion, o1) :- ReadI32(data, off + 4);
      var Read(versions, o2) :- ReadFileVersions(data, o1);
      var Read(engine, base) :- ReadEngineVersion(data, o2);
      var header := LegacyHeader(saveGameVersion, versions, engine, None, None, None);
      match FirstAccepted(data, base)
      case Some(l) =>
        var Read(t, o) := Attempt(data, base, l).value;
        Ok(Read(header.(customFormat := t.format, customVersions := Some(t.entries), className := Some(t.className)), o))
      case None =>
        var Read(cls, o) :- ReadString(data, base);
        if PlausibleClassName(cls) then Ok(Read(header.(className := Some(cls)), o))
        else Ok(Read(header, base))
  }

  // ---------------------------------------------------------------------------------------------
  // Properties

  /** The custom-version keys come from the first accepted layout: the format key exactly for
      A and B, the friendly names exactly for B and D; with no layout accepted neither key is
      set and the class name, if any, is the bare FString at `base`. */
  lemma ParseGvasHeaderLayout(data: seq<byte>, off: nat)
    requires ParseGvasHeader(data, off).Ok?
    ensures var Read(h, next) := ParseGvasHeader(data, off).value;
      var base := Base(data, off).value;
      match FirstAccepted(data, base)
      case Some(l) =>
        && h.customVersions == Some(Attempt(data, base, l).value.value.entries)
        && h.className == Some(Attempt(data, base, l).value.value.className)
        && h.customFormat == Attempt(data, base, l).value.value.format
        && (h.customFormat.Some? <==> HasFormat(l))
        && PlausibleClassName(h.className.value)
        && next == Attempt(data, base, l).value.next
      case None =>
        && h.customFormat.None? && h.customVersions.None?
        && (h.className.Some? ==>
              && h.className == Some(ReadString(data, base).value.value) && PlausibleClassName(h.className.value)
              && next == ReadString(data, base).value.next)
  {
  }

  /** A header whose every attempt and fallback fails the plausibility check keeps the offset
      at `base` and has neither class name nor custom versions. */
  lemma ParseGvasHeaderNothingPlausible(data: seq<byte>, off: nat)
    requires ParseGvasHeader(data, off).Ok?
    requires forall l :: !Accepted(data, Base(data, off).value, l)
    requires !PlausibleClassName(ReadString(data, Base(data, off).value).value.value)
    ensures var Read(h, next) := ParseGvasHeader(data, off).value;
      next == Base(data, off).value && h.className.None? && h.customVersions.None? && h.customFormat.None?
  {
  }

  // ---------------------------------------------------------------------------------------------
  // The parser as the Python code runs it

  /** The `for _ in range(cnt)` loop of one attempt. */
  method ReadEntriesM(data: seq<byte>, off: nat, count: nat, names: bool) returns (r: Result<Read<seq<CustomEntry>>>)
    ensures r == ReadEntries(data, off, count, names)
  {
    var entries: seq<CustomEntry> := [];
    var offset := off;
    Reader.PrependToNil(ReadEntries(data, off, count, names));
    for i := 0 to count
      invariant ReadEntries(data, off, count, names) == PrependTo(entries, ReadEntries(data, offset, count - i, names))
    {
      var Read(guid, o1) := ReadGuid(data, offset);
      var versionRead := ReadI32(data, o1);
      if versionRead.Err? {
        return Err(versionRead.error);
      }
      var nameRead := ReadFriendlyName(data, versionRead.value.next, names);
      if nameRead.Err? {
        return Err(nameRead.error);
      }
      var entry := CustomEntry(guid, versionRead.value.value, nameRead.value.value);
      Reader.PrependToSnoc(entries, entry, ReadEntries(data, nameRead.value.next, count - i - 1, names));
      entries, offset := entries + [entry], nameRead.value.next;
    }
    assert entries + [] == entries;
    return Ok(Read(entries, offset));
  }

  /** The body of one `try` block: what it reads, or the exception it raises. */
  method AttemptM(data: seq<byte>, base: nat, l: Layout) returns (r: Result<Read<Table>>)
    ensures r == Attempt(data, base, l)
  {
    var countRead :- ReadCount(data, base, HasFormat(l));
    var (fmt, cnt) := countRead.value;
    var entries := ReadEntriesM(data, countRead.next, cnt, HasNames(l));
    var entriesRead :- entries;
    var classRead :- ReadString(data, entriesRead.next);
    return Ok(Read(Table(fmt, entriesRead.value, classRead.value), classRead.next));
  }

  /** One attempt with its `except`: when it raises nothing and its class name is plausible, the
      header keys and the offset are set from it. */
  method TryLayout(data: seq<byte>, base: nat, l: Layout, header: LegacyHeader, offset: nat)
    returns (parsedOk: bool, header': LegacyHeader, offset': nat)
    ensures parsedOk == Accepted(data, base, l)
    ensures parsedOk ==> var Read(t, next) := Attempt(data, base, l).value;
      header' == header.(customFormat := t.format, customVersions := Some(t.entries), className := Some(t.className))
      && offset' == next
    ensures !parsedOk ==> header' == header && offset' == offset
  {
    var attempt := AttemptM(data, base, l);
    if attempt.Ok? && PlausibleClassName(attempt.value.value.className) {
      var t := attempt.value.value;
      return true, header.(customFormat := t.format, customVersions := Some(t.entries), className := Some(t.className)),
        attempt.value.next;
    }
    return false, header, offset;
  }

  /** `parse_gvas_header(data, offset)` with its `parsed_ok` flag. */
  method ParseGvasHeaderM(data: seq<byte>, off: nat) returns (r: Result<Read<LegacyHeader>>)
    ensures r == ParseGvasHeader(data, off)
  {
    if Slice(data, off, off + 4) != MAGIC {
      return Err(LEGACY_NOT_GVAS);
    }
    var sgvRead :- ReadI32(data, off + 4);
    var versionsRead :- ReadFileVersions(data, sgvRead.next);
    var engineRead :- ReadEngineVersion(data, versionsRead.next);
    var header := LegacyHeader(sgvRead.value, versionsRead.value, engineRead.value, None, None, None);
    var base := engineRead.next;
    var offset := base;
    var parsedOk;
    parsedOk, header, offset := TryLayout(data, base, A, header, offset);
    if !parsedOk {
      parsedOk, header, offset := TryLayout(data, base, B, header, offset);
    }
    if !parsedOk {
      parsedOk, header, offset := TryLayout(data, base, C, header, offset);
    }
    if !parsedOk {
      parsedOk, header, offset := TryLayout(data, base, D, header, offset);
    }
    if !parsedOk {
      var classRead :- ReadString(data, base);
      if PlausibleClassName(classRead.value) {
        header, offset := header.(className := Some(classRead.value)), classRead.next;
      }
    }
    return Ok(Read(header, offset));
  }
}
