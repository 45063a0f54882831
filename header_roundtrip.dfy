/** What `_read_gvas_header` makes of the bytes `_write_gvas_header` wrote (uesave/__init__.py):
    the file-version layout the reader guesses from the engine version that follows, the engine
    version with its fields masked, the custom versions with their GUID texts in canonical form,
    and the whole header read back. */
module HeaderRoundTrip {
  import opened Bytes
  import opened Unicode
  import opened FString
  import opened Guid
  import opened Header
  import opened Framing

  /** A text the writer emits and the reader gives back unchanged: "" or an ASCII name. */
  predicate TextReadsBack(s: string) {
    s == "" || AsciiName(s)
  }

  lemma ReadTextAt(data: seq<byte>, off: nat, s: string)
    requires TextReadsBack(s) && HoldsAt(data, off, StringBytes(s).value)
    ensures Yields(ReadString(data, off), s, off + |StringBytes(s).value|)
  {
    if s == "" {
      HoldsAtSlice(data, off, StringBytes(s).value);
      ReadStringOfEmpty(data, off);
    } else {
      StringBytesLength5(s);
      ReadNameAt(data, off, s);
    }
  }

  lemma ReadI32At(data: seq<byte>, off: nat, v: int)
    requires I32Bytes(v).Ok? && HoldsAt(data, off, I32Bytes(v).value)
    ensures Yields(ReadI32(data, off), v, off + 4)
  {
    HoldsAtSlice(data, off, I32Bytes(v).value);
    ReadI32OfI32Bytes(data, off, v);
  }

  lemma ReadU16At(data: seq<byte>, off: nat, v: int)
    requires HoldsAt(data, off, U16Bytes(v))
    ensures Yields(ReadU16(data, off), v % U16_MOD, off + 2)
  {
    HoldsAtSlice(data, off, U16Bytes(v));
    ReadU16OfU16Bytes(data, off, v);
  }

  /** The two low bytes of a u32, peeked at as a u16. */
  lemma ReadU16LowAt(data: seq<byte>, off: nat, v: int)
    requires HoldsAt(data, off, U32Bytes(v))
    ensures Yields(ReadU16(data, off), v % U16_MOD, off + 2)
  {
    HoldsAtSlice(data, off, U32Bytes(v));
    assert data[off..off + 2] == U32Bytes(v)[..2];
    ReadU16OfU32Bytes(data, off, v);
  }

  // ---------------------------------------------------------------------------------------------
  // File versions

  /** The engine version's fixed part: major, minor, patch and the changelist. */
  lemma EngineBytesSplit(e: EngineVersion)
    requires EngineBytes(e).Ok?
    ensures EngineBytes(e).value
      == U16Bytes(e.major) + U16Bytes(e.minor) + U16Bytes(e.patch) + U32Bytes(e.changelist)
        + StringBytes(e.branch).value
  {
  }

  /** The file-version step of the reader once its two i32 and its two peeked u16 are known. */
  lemma FileVersionsAt(data: seq<byte>, off: nat, ue4: int, ue5: int, major: int, minor: int)
    requires Yields(ReadI32(data, off), ue4, off + 4) && Yields(ReadI32(data, off + 4), ue5, off + 8)
    requires Yields(ReadU16(data, off + 8), major, off + 10) && Yields(ReadU16(data, off + 10), minor, off + 12)
    ensures major <= 50 && minor <= 50 ==>
      Yields(ReadFileVersions(data, off), FileVersions(Some(ue4), Some(ue5), None), off + 8)
    ensures !(major <= 50 && minor <= 50) ==>
      Yields(ReadFileVersions(data, off), FileVersions(None, None, Some(ue4)), off + 4)
  {
  }

  /** Two file versions followed by the engine version: the reader keeps both exactly when the
      engine major and minor, masked to 16 bits, are at most 50, and otherwise takes the UE4
      version for the only one. */
  lemma DualVersionsRead(v: FileVersions, e: EngineVersion, data: seq<byte>, off: nat)
    requires v.ue4.Some? && FileVersionBytes(v).Ok? && EngineBytes(e).Ok?
    requires HoldsAt(data, off, FileVersionBytes(v).value + EngineBytes(e).value)
    ensures e.major % U16_MOD <= 50 && e.minor % U16_MOD <= 50 ==>
      Yields(ReadFileVersions(data, off), FileVersions(v.ue4, v.ue5, None), off + 8)
    ensures !(e.major % U16_MOD <= 50 && e.minor % U16_MOD <= 50) ==>
      Yields(ReadFileVersions(data, off), FileVersions(None, None, v.ue4), off + 4)
  {
    var a, b := I32Bytes(v.ue4.value).value, I32Bytes(v.ue5.value).value;
    var m, n := U16Bytes(e.major), U16Bytes(e.minor);
    assert HoldsAt(data, off, a) && HoldsAt(data, off + 4, b) && HoldsAt(data, off + 8, m)
        && HoldsAt(data, off + 10, n) by {
      var rest := U16Bytes(e.patch) + U32Bytes(e.changelist) + StringBytes(e.branch).value;
      EngineBytesSplit(e);
      assert FileVersionBytes(v).value + EngineBytes(e).value == a + b + m + (n + rest);
      Split4(data, off, a, b, m, n + rest);
      HoldsAtApart(data, off + 10, n, rest);
    }
    ReadI32At(data, off, v.ue4.value);
    ReadI32At(data, off + 4, v.ue5.value);
    ReadU16At(data, off + 8, e.major);
    ReadU16At(data, off + 10, e.minor);
    FileVersionsAt(data, off, v.ue4.value, v.ue5.value, e.major % U16_MOD, e.minor % U16_MOD);
  }

  /** One package file version followed by the engine version: the reader peeks at the patch and
      at the low 16 bits of the changelist, and when both are at most 50 it takes the package
      version for the UE4 one and the engine major and minor for a UE5 version. */
  lemma SingleVersionsRead(v: FileVersions, e: EngineVersion, data: seq<byte>, off: nat)
    requires v.ue4.None? && FileVersionBytes(v).Ok? && EngineBytes(e).Ok?
    requires HoldsAt(data, off, FileVersionBytes(v).value + EngineBytes(e).value)
    ensures !(e.patch % U16_MOD <= 50 && e.changelist % U16_MOD <= 50) ==>
      Yields(ReadFileVersions(data, off), FileVersions(None, None, v.package), off + 4)
    ensures e.patch % U16_MOD <= 50 && e.changelist % U16_MOD <= 50 ==>
      && ReadFileVersions(data, off).Ok?
      && ReadFileVersions(data, off).value.value.ue4 == v.package
      && ReadFileVersions(data, off).value.value.ue5.Some?
      && ReadFileVersions(data, off).value.next == off + 8
  {
    var a := I32Bytes(v.package.value).value;
    var mn := U16Bytes(e.major) + U16Bytes(e.minor);
    var p, c := U16Bytes(e.patch), U32Bytes(e.changelist);
    assert HoldsAt(data, off, a) && HoldsAt(data, off + 4, mn) && HoldsAt(data, off + 8, p)
        && HoldsAt(data, off + 10, c) by {
      EngineBytesSplit(e);
      assert FileVersionBytes(v).value + EngineBytes(e).value == a + mn + p + (c + StringBytes(e.branch).value);
      Split4(data, off, a, mn, p, c + StringBytes(e.branch).value);
      HoldsAtApart(data, off + 10, c, StringBytes(e.branch).value);
    }
    ReadI32At(data, off, v.package.value);
    ReadU16At(data, off + 8, e.patch);
    ReadU16LowAt(data, off + 10, e.changelist);
    var ue5 := ReadI32(data, off + 4).value.value;
    FileVersionsAt(data, off, v.package.value, ue5, e.patch % U16_MOD, e.changelist % U16_MOD);
  }

  // ---------------------------------------------------------------------------------------------
  // Engine version and custom versions

  /** The engine version as the reader sees it: the writer masks the numbers to 16 and 32 bits. */
  function MaskedEngine(e: EngineVersion): (m: EngineVersion)
    ensures m.major < U16_MOD && m.minor < U16_MOD && m.patch < U16_MOD && m.changelist < U32_MOD
    ensures m.branch == e.branch
  {
    EngineVersion(e.major % U16_MOD, e.minor % U16_MOD, e.patch % U16_MOD, e.changelist % U32_MOD, e.branch)
  }

  lemma EngineRoundTrip(e: EngineVersion, data: seq<byte>, off: nat)
    requires EngineBytes(e).Ok? && TextReadsBack(e.branch) && HoldsAt(data, off, EngineBytes(e).value)
    ensures Yields(ReadEngineVersion(data, off), MaskedEngine(e), off + |EngineBytes(e).value|)
  {
    var br := StringBytes(e.branch).value;
    EngineBytesSplit(e);
    assert EngineBytes(e).value == U16Bytes(e.major) + U16Bytes(e.minor) + (U16Bytes(e.patch) + U32Bytes(e.changelist)) + br;
    Split4(data, off, U16Bytes(e.major), U16Bytes(e.minor), U16Bytes(e.patch) + U32Bytes(e.changelist), br);
    HoldsAtApart(data, off + 4, U16Bytes(e.patch), U32Bytes(e.changelist));
    ReadU16At(data, off, e.major);
    ReadU16At(data, off + 2, e.minor);
    ReadU16At(data, off + 4, e.patch);
    ReadU32At(data, off + 6, e.changelist);
    ReadTextAt(data, off + 10, e.branch);
  }

  /** A custom version as the reader gives it back: its GUID text is what `_read_guid` makes of the
      16 bytes `_write_guid` wrote for it. */
  function CanonicalGuid(cv: CustomVersion): (c: CustomVersion)
    ensures c.version == cv.version && |c.guid| == 36
  {
    CustomVersion(GuidText(GuidBytes(cv.guid)), cv.version)
  }

  function CanonicalGuids(cvs: seq<CustomVersion>): (cs: seq<CustomVersion>)
    ensures |cs| == |cvs|
  {
    if cvs == [] then [] else [CanonicalGuid(cvs[0])] + CanonicalGuids(cvs[1..])
  }

  /** A GUID text that `_read_guid` produced is written and read back unchanged. */
  lemma CanonicalGuidOfRead(b: seq<byte>, version: int)
    requires |b| == 16
    ensures CanonicalGuid(CustomVersion(GuidText(b), version)) == CustomVersion(GuidText(b), version)
  {
    GuidBytesOfGuidText(b);
  }

  lemma CustomVersionRead(cv: CustomVersion, data: seq<byte>, off: nat)
    requires I32Bytes(cv.version).Ok?
    requires HoldsAt(data, off, GuidBytes(cv.guid) + I32Bytes(cv.version).value)
    ensures Yields(ReadCustomVersion(data, off), CanonicalGuid(cv), off + 20)
  {
    HoldsAtApart(data, off, GuidBytes(cv.guid), I32Bytes(cv.version).value);
    HoldsAtSlice(data, off, GuidBytes(cv.guid));
    ReadI32At(data, off + 16, cv.version);
  }

  /** One turn of the custom-version loop: an entry, then the remaining `count - 1`. */
  lemma CustomVersionsStep(data: seq<byte>, off: nat, count: nat, first: CustomVersion, rest: seq<CustomVersion>)
    requires count > 0 && Yields(ReadCustomVersion(data, off), first, off + 20)
    requires Yields(ReadCustomVersions(data, off + 20, count - 1), rest, off + 20 * count)
    ensures Yields(ReadCustomVersions(data, off, count), [first] + rest, off + 20 * count)
  {
  }

  /** The custom-version loop reads back what the writer's loop wrote, 20 bytes an entry. */
  lemma {:induction false} CustomVersionsRoundTrip(cvs: seq<CustomVersion>, data: seq<byte>, off: nat)
    requires CustomVersionsBytes(cvs).Ok? && HoldsAt(data, off, CustomVersionsBytes(cvs).value)
    ensures Yields(ReadCustomVersions(data, off, |cvs|), CanonicalGuids(cvs), off + 20 * |cvs|)
    decreases |cvs|
  {
    if cvs != [] {
      var entry := CustomVersionBytes(cvs[0]).value;
      var rest := CustomVersionsBytes(cvs[1..]);
      assert rest.Ok? && HoldsAt(data, off, entry) && HoldsAt(data, off + 20, rest.value) by {
        assert CustomVersionsBytes(cvs) == PrependBytes(entry, rest);
        HoldsAtApart(data, off, entry, rest.value);
      }
      CustomVersionRead(cvs[0], data, off);
      CustomVersionsRoundTrip(cvs[1..], data, off + 20);
      CustomVersionsStep(data, off, |cvs|, CanonicalGuid(cvs[0]), CanonicalGuids(cvs[1..]));
      assert CanonicalGuids(cvs) == [CanonicalGuid(cvs[0])] + CanonicalGuids(cvs[1..]);
    }
  }

  /** The format, the count and the entries read back when both are in the reader's bounds. */
  lemma CustomTableRoundTrip(fmt: int, cvs: seq<CustomVersion>, data: seq<byte>, off: nat)
    requires TableInRange(fmt, |cvs|) && CustomVersionsBytes(cvs).Ok?
    requires HoldsAt(data, off, I32Bytes(fmt).value + I32Bytes(|cvs|).value + CustomVersionsBytes(cvs).value)
    ensures Yields(ReadCustomTable(data, off), (fmt, CanonicalGuids(cvs)), off + 8 + 20 * |cvs|)
  {
    var a, b := I32Bytes(fmt).value, I32Bytes(|cvs|).value;
    HoldsAtApart(data, off, a + b, CustomVersionsBytes(cvs).value);
    HoldsAtApart(data, off, a, b);
    ReadI32At(data, off, fmt);
    ReadI32At(data, off + 4, |cvs|);
    CustomVersionsRoundTrip(cvs, data, off + 8);
  }

  // ---------------------------------------------------------------------------------------------
  // The whole header

  /** The reader guesses the layout the writer used: two file versions are kept only while the
      engine major and minor are small, and one is kept only while the patch or the low half of
      the changelist is large. */
  predicate LayoutReadsBack(h: Header) {
    if h.versions.ue4.Some? then h.engine.major % U16_MOD <= 50 && h.engine.minor % U16_MOD <= 50
    else !(h.engine.patch % U16_MOD <= 50 && h.engine.changelist % U16_MOD <= 50)
  }

  /** A header the writer accepts and the reader takes back in the same layout. */
  predicate HeaderReadsBack(h: Header) {
    && HeaderBytes(h).Ok?
    && LayoutReadsBack(h)
    && TextReadsBack(h.engine.branch)
    && AsciiName(h.className) && PlausibleClassName(h.className)
    && TableInRange(h.customFormat, |h.customVersions|)
  }

  /** The header the reader builds from the writer's bytes: only the file-version keys of the
      layout used, the engine version masked, the GUID texts canonical. */
  function ReadBackOf(h: Header): (g: Header)
    ensures g.saveGameVersion == h.saveGameVersion && g.customFormat == h.customFormat
    ensures g.className == h.className && |g.customVersions| == |h.customVersions|
    ensures g.versions.ue4.Some? <==> h.versions.ue4.Some?
  {
    var v := h.versions;
    Header(h.saveGameVersion,
      if v.ue4.Some? then FileVersions(v.ue4, v.ue5, None) else FileVersions(None, None, v.package),
      MaskedEngine(h.engine), h.customFormat, CanonicalGuids(h.customVersions), h.className)
  }

  /** The bytes of a header in four parts: magic and save-game version, file and engine versions,
      the custom-version table, the class name. */
  lemma HeaderBytesParts(h: Header)
    requires HeaderBytes(h).Ok?
    ensures FileVersionBytes(h.versions).Ok? && EngineBytes(h.engine).Ok?
    ensures HeaderBytes(h).value
      == (MAGIC + I32Bytes(h.saveGameVersion).value)
        + (FileVersionBytes(h.versions).value + EngineBytes(h.engine).value)
        + (I32Bytes(h.customFormat).value + I32Bytes(|h.customVersions|).value
           + CustomVersionsBytes(h.customVersions).value)
        + StringBytes(h.className).value
  {
  }

  /** `_write_gvas_header` begins with the GVAS magic. */
  lemma HeaderStartsWithMagic(h: Header)
    requires HeaderBytes(h).Ok?
    ensures HeaderBytes(h).value[..4] == MAGIC
  {
    HeaderBytesParts(h);
    var head := MAGIC + I32Bytes(h.saveGameVersion).value;
    var v := HeaderBytes(h).value;
    assert v[..|head|] == head;
    assert head[..4] == MAGIC;
    assert v[..4] == v[..|head|][..4];
  }

  /** The file versions of the header read back in the layout they were written in. */
  lemma VersionsRoundTrip(h: Header, data: seq<byte>, off: nat)
    requires HeaderReadsBack(h)
    requires HoldsAt(data, off, FileVersionBytes(h.versions).value + EngineBytes(h.engine).value)
    ensures Yields(ReadFileVersions(data, off), ReadBackOf(h).versions, off + |FileVersionBytes(h.versions).value|)
    ensures Yields(ReadEngineVersion(data, off + |FileVersionBytes(h.versions).value|), MaskedEngine(h.engine),
      off + |FileVersionBytes(h.versions).value| + |EngineBytes(h.engine).value|)
  {
    HoldsAtApart(data, off, FileVersionBytes(h.versions).value, EngineBytes(h.engine).value);
    if h.versions.ue4.Some? {
      DualVersionsRead(h.versions, h.engine, data, off);
    } else {
      SingleVersionsRead(h.versions, h.engine, data, off);
    }
    EngineRoundTrip(h.engine, data, off + |FileVersionBytes(h.versions).value|);
  }

  /** Where each part of the bytes of `h` is found once the whole is, and how long the whole is. */
  lemma HeaderSplit(h: Header, data: seq<byte>, off: nat)
    requires HeaderBytes(h).Ok? && HoldsAt(data, off, HeaderBytes(h).value)
    ensures FileVersionBytes(h.versions).Ok? && EngineBytes(h.engine).Ok? && StringBytes(h.className).Ok?
    ensures CustomVersionsBytes(h.customVersions).Ok?
    ensures HoldsAt(data, off, MAGIC + I32Bytes(h.saveGameVersion).value)
    ensures HoldsAt(data, off + 8, FileVersionBytes(h.versions).value + EngineBytes(h.engine).value)
    ensures HoldsAt(data, off + 8 + |FileVersionBytes(h.versions).value| + |EngineBytes(h.engine).value|,
      I32Bytes(h.customFormat).value + I32Bytes(|h.customVersions|).value + CustomVersionsBytes(h.customVersions).value)
    ensures HoldsAt(data, off + 8 + |FileVersionBytes(h.versions).value| + |EngineBytes(h.engine).value|
      + 8 + 20 * |h.customVersions|, StringBytes(h.className).value)
    ensures |HeaderBytes(h).value| == 8 + |FileVersionBytes(h.versions).value| + |EngineBytes(h.engine).value|
      + 8 + 20 * |h.customVersions| + |StringBytes(h.className).value|
  {
    HeaderBytesParts(h);
    var x := MAGIC + I32Bytes(h.saveGameVersion).value;
    var y := FileVersionBytes(h.versions).value + EngineBytes(h.engine).value;
    var z := I32Bytes(h.customFormat).value + I32Bytes(|h.customVersions|).value
      + CustomVersionsBytes(h.customVersions).value;
    var w := StringBytes(h.className).value;
    Split4(data, off, x, y, z, w);
  }

  lemma MagicRead(sgv: int, data: seq<byte>, off: nat)
    requires I32Bytes(sgv).Ok? && HoldsAt(data, off, MAGIC + I32Bytes(sgv).value)
    ensures Slice(data, off, off + 4) == MAGIC && Yields(ReadI32(data, off + 4), sgv, off + 8)
  {
    HoldsAtApart(data, off, MAGIC, I32Bytes(sgv).value);
    HoldsAtSlice(data, off, MAGIC);
    ReadI32At(data, off + 4, sgv);
  }

  lemma ClassNameRead(c: string, data: seq<byte>, off: nat)
    requires AsciiName(c) && StringBytes(c).Ok? && HoldsAt(data, off, StringBytes(c).value)
    ensures Yields(ReadString(data, off), c, off + |StringBytes(c).value|)
  {
    StringBytesLength5(c);
    ReadNameAt(data, off, c);
  }

  /** Where the custom-version table and the class name of the bytes of `h` start. */
  function TableOffset(h: Header, off: nat): (o: nat)
    requires HeaderBytes(h).Ok?
    ensures o >= off + 8
  {
    HeaderBytesParts(h);
    off + 8 + |FileVersionBytes(h.versions).value| + |EngineBytes(h.engine).value|
  }

  function ClassOffset(h: Header, off: nat): (o: nat)
    requires HeaderBytes(h).Ok?
    ensures o == TableOffset(h, off) + 8 + 20 * |h.customVersions|
  {
    TableOffset(h, off) + 8 + 20 * |h.customVersions|
  }

  lemma VersionsStep(h: Header, data: seq<byte>, off: nat)
    requires HeaderReadsBack(h) && HoldsAt(data, off, HeaderBytes(h).value)
    ensures FileVersionBytes(h.versions).Ok? && EngineBytes(h.engine).Ok?
    ensures Yields(ReadFileVersions(data, off + 8), ReadBackOf(h).versions, off + 8 + |FileVersionBytes(h.versions).value|)
    ensures Yields(ReadEngineVersion(data, off + 8 + |FileVersionBytes(h.versions).value|), MaskedEngine(h.engine),
      TableOffset(h, off))
  {
    HeaderSplit(h, data, off);
    VersionsRoundTrip(h, data, off + 8);
  }

  lemma TableStep(h: Header, data: seq<byte>, off: nat)
    requires HeaderReadsBack(h) && HoldsAt(data, off, HeaderBytes(h).value)
    ensures Yields(ReadCustomTable(data, TableOffset(h, off)), (h.customFormat, CanonicalGuids(h.customVersions)),
      ClassOffset(h, off))
  {
    HeaderSplit(h, data, off);
    CustomTableRoundTrip(h.customFormat, h.customVersions, data, TableOffset(h, off));
  }

  lemma ClassStep(h: Header, data: seq<byte>, off: nat)
    requires HeaderReadsBack(h) && HoldsAt(data, off, HeaderBytes(h).value)
    ensures Yields(ReadString(data, ClassOffset(h, off)), h.className, off + |HeaderBytes(h).value|)
  {
    HeaderSplit(h, data, off);
    ClassNameRead(h.className, data, ClassOffset(h, off));
  }

  /** `_read_gvas_header` of the bytes of `_write_gvas_header(header)` gives the header back (up
      to masking and canonical GUID texts) and ends where the bytes end. */
  lemma HeaderRoundTrip(h: Header, data: seq<byte>, off: nat)
    requires HeaderReadsBack(h) && HoldsAt(data, off, HeaderBytes(h).value)
    ensures Yields(ReadGvasHeader(data, off), ReadBackOf(h), off + |HeaderBytes(h).value|)
  {
    assert Slice(data, off, off + 4) == MAGIC && Yields(ReadI32(data, off + 4), h.saveGameVersion, off + 8) by {
      HeaderSplit(h, data, off);
      MagicRead(h.saveGameVersion, data, off);
    }
    VersionsStep(h, data, off);
    TableStep(h, data, off);
    ClassStep(h, data, off);
    var g := Header(h.saveGameVersion, ReadBackOf(h).versions, MaskedEngine(h.engine), h.customFormat,
      CanonicalGuids(h.customVersions), h.className);
    HeaderReadAt(data, off, g, off + 8 + |FileVersionBytes(h.versions).value|, TableOffset(h, off),
      ClassOffset(h, off), off + |HeaderBytes(h).value|);
    assert g == ReadBackOf(h);
  }

  /** Reading a header once each part is known to read back. */
  lemma HeaderReadAt(data: seq<byte>, off: nat, g: Header, o2: nat, o3: nat, o4: nat, o5: nat)
    requires Slice(data, off, off + 4) == MAGIC
    requires Yields(ReadI32(data, off + 4), g.saveGameVersion, off + 8)
    requires Yields(ReadFileVersions(data, off + 8), g.versions, o2)
    requires Yields(ReadEngineVersion(data, o2), g.engine, o3)
    requires Yields(ReadCustomTable(data, o3), (g.customFormat, g.customVersions), o4)
    requires Yields(ReadString(data, o4), g.className, o5) && PlausibleClassName(g.className)
    ensures Yields(ReadGvasHeader(data, off), g, o5)
  {
  }
}
