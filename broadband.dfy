/** Broadband filters (`pts.band.broadband`): resolving a band specification against the built-in band
    names, constructing a band from a name or a wavelength range, the loaders' row selections, the
    photon-counter weighting and the accessors. File contents and unit conversions are inputs. */
module BroadBands {
  import opened Wrappers
  import opened PyStrings
  import opened Seqs

  // ---------- the built-in band table -------------------------------------------------------

  /** The third field of a `_bandinfo` entry: the photon-counter flag (SVO), nothing (JCMT, PLANCK)
      or the (wmin, wmax) wavelength range in micron (ALMA). */
  datatype Extra = Counter(photon: bool) | NoExtra | Range(wmin: int, wmax: int)

  /** A `_bandinfo` entry: the format (which is also the data subdirectory), the file name and the extra field. */
  datatype BandInfo = BandInfo(format: string, file: string, extra: Extra)

  /** The `_bandinfo` dictionary, in its insertion (iteration) order. */
  const BAND_INFO: seq<(string, BandInfo)> := [
      ("2MASS_2MASS_H", BandInfo("SVO", "2MASS.2MASS.H.xml", Counter(true))),
      ("2MASS_2MASS_J", BandInfo("SVO", "2MASS.2MASS.J.xml", Counter(true))),
      ("2MASS_2MASS_KS", BandInfo("SVO", "2MASS.2MASS.Ks.xml", Counter(true))),
      ("GALEX_GALEX_FUV", BandInfo("SVO", "GALEX.GALEX.FUV.xml", Counter(true))),
      ("GALEX_GALEX_NUV", BandInfo("SVO", "GALEX.GALEX.NUV.xml", Counter(true))),
      ("GENERIC_JOHNSON_B", BandInfo("SVO", "Generic.Johnson.B.xml", Counter(true))),
      ("GENERIC_JOHNSON_I", BandInfo("SVO", "Generic.Johnson.I.xml", Counter(true))),
      ("GENERIC_JOHNSON_J", BandInfo("SVO", "Generic.Johnson.J.xml", Counter(true))),
      ("GENERIC_JOHNSON_M", BandInfo("SVO", "Generic.Johnson.M.xml", Counter(true))),
      ("GENERIC_JOHNSON_R", BandInfo("SVO", "Generic.Johnson.R.xml", Counter(true))),
      ("GENERIC_JOHNSON_U", BandInfo("SVO", "Generic.Johnson.U.xml", Counter(true))),
      ("GENERIC_JOHNSON_V", BandInfo("SVO", "Generic.Johnson.V.xml", Counter(true))),
      ("HERSCHEL_PACS_100", BandInfo("SVO", "Herschel.Pacs.green.xml", Counter(false))),
      ("HERSCHEL_PACS_160", BandInfo("SVO", "Herschel.Pacs.red.xml", Counter(false))),
      ("HERSCHEL_PACS_70", BandInfo("SVO", "Herschel.Pacs.blue.xml", Counter(false))),
      ("HERSCHEL_SPIRE_250", BandInfo("SVO", "Herschel.SPIRE.PSW_ext.xml", Counter(false))),
      ("HERSCHEL_SPIRE_350", BandInfo("SVO", "Herschel.SPIRE.PMW_ext.xml", Counter(false))),
      ("HERSCHEL_SPIRE_500", BandInfo("SVO", "Herschel.SPIRE.PLW_ext.xml", Counter(false))),
      ("IRAS_IRAS_100", BandInfo("SVO", "IRAS.IRAS.100mu.xml", Counter(true))),
      ("IRAS_IRAS_12", BandInfo("SVO", "IRAS.IRAS.12mu.xml", Counter(true))),
      ("IRAS_IRAS_25", BandInfo("SVO", "IRAS.IRAS.25mu.xml", Counter(true))),
      ("IRAS_IRAS_60", BandInfo("SVO", "IRAS.IRAS.60mu.xml", Counter(true))),
      ("SLOAN_SDSS_G", BandInfo("SVO", "SLOAN.SDSS.g.xml", Counter(true))),
      ("SLOAN_SDSS_I", BandInfo("SVO", "SLOAN.SDSS.i.xml", Counter(true))),
      ("SLOAN_SDSS_R", BandInfo("SVO", "SLOAN.SDSS.r.xml", Counter(true))),
      ("SLOAN_SDSS_U", BandInfo("SVO", "SLOAN.SDSS.u.xml", Counter(true))),
      ("SLOAN_SDSS_Z", BandInfo("SVO", "SLOAN.SDSS.z.xml", Counter(true))),
      ("SPITZER_IRAC_I1", BandInfo("SVO", "Spitzer.IRAC.I1.xml", Counter(true))),
      ("SPITZER_IRAC_I2", BandInfo("SVO", "Spitzer.IRAC.I2.xml", Counter(true))),
      ("SPITZER_IRAC_I3", BandInfo("SVO", "Spitzer.IRAC.I3.xml", Counter(true))),
      ("SPITZER_IRAC_I4", BandInfo("SVO", "Spitzer.IRAC.I4.xml", Counter(true))),
      ("SPITZER_MIPS_160", BandInfo("SVO", "Spitzer.MIPS.160mu.xml", Counter(true))),
      ("SPITZER_MIPS_24", BandInfo("SVO", "Spitzer.MIPS.24mu.xml", Counter(true))),
      ("SPITZER_MIPS_70", BandInfo("SVO", "Spitzer.MIPS.70mu.xml", Counter(true))),
      ("SWIFT_UVOT_B", BandInfo("SVO", "Swift.UVOT.Bband.xml", Counter(true))),
      ("SWIFT_UVOT_UVM2", BandInfo("SVO", "Swift.UVOT.UVM2.xml", Counter(true))),
      ("SWIFT_UVOT_UVW1", BandInfo("SVO", "Swift.UVOT.UVW1.xml", Counter(true))),
      ("SWIFT_UVOT_UVW2", BandInfo("SVO", "Swift.UVOT.UVW2.xml", Counter(true))),
      ("SWIFT_UVOT_U", BandInfo("SVO", "Swift.UVOT.Uband.xml", Counter(true))),
      ("SWIFT_UVOT_V", BandInfo("SVO", "Swift.UVOT.Vband.xml", Counter(true))),
      ("TNG_NICS_H", BandInfo("SVO", "TNG.NICS.H.xml", Counter(true))),
      ("TNG_NICS_J", BandInfo("SVO", "TNG.NICS.J.xml", Counter(true))),
      ("TNG_NICS_K", BandInfo("SVO", "TNG.NICS.K.xml", Counter(true))),
      ("TNG_OIG_B", BandInfo("SVO", "TNG.OIG.B.xml", Counter(true))),
      ("TNG_OIG_R", BandInfo("SVO", "TNG.OIG.R.xml", Counter(true))),
      ("TNG_OIG_U", BandInfo("SVO", "TNG.OIG.U.xml", Counter(true))),
      ("TNG_OIG_V", BandInfo("SVO", "TNG.OIG.V.xml", Counter(true))),
      ("UKIRT_UKIDSS_H", BandInfo("SVO", "UKIRT.UKIDSS.H.xml", Counter(true))),
      ("UKIRT_UKIDSS_J", BandInfo("SVO", "UKIRT.UKIDSS.J.xml", Counter(true))),
      ("UKIRT_UKIDSS_K", BandInfo("SVO", "UKIRT.UKIDSS.K.xml", Counter(true))),
      ("UKIRT_UKIDSS_Y", BandInfo("SVO", "UKIRT.UKIDSS.Y.xml", Counter(true))),
      ("UKIRT_UKIDSS_Z", BandInfo("SVO", "UKIRT.UKIDSS.Z.xml", Counter(true))),
      ("WISE_WISE_W1", BandInfo("SVO", "WISE.WISE.W1.xml", Counter(true))),
      ("WISE_WISE_W2", BandInfo("SVO", "WISE.WISE.W2.xml", Counter(true))),
      ("WISE_WISE_W3", BandInfo("SVO", "WISE.WISE.W3.xml", Counter(true))),
      ("WISE_WISE_W4", BandInfo("SVO", "WISE.WISE.W4.xml", Counter(true))),
      ("JCMT_SCUBA2_450", BandInfo("JCMT", "scuba2_450_transmission.dat", NoExtra)),
      ("JCMT_SCUBA2_850", BandInfo("JCMT", "scuba2_850_transmission.dat", NoExtra)),
      ("PLANCK_LFI_30", BandInfo("PLANCK", "LFI_BANDPASS_F030.txt", NoExtra)),
      ("PLANCK_LFI_44", BandInfo("PLANCK", "LFI_BANDPASS_F044.txt", NoExtra)),
      ("PLANCK_LFI_70", BandInfo("PLANCK", "LFI_BANDPASS_F070.txt", NoExtra)),
      ("PLANCK_HFI_100", BandInfo("PLANCK", "HFI_BANDPASS_F100.txt", NoExtra)),
      ("PLANCK_HFI_143", BandInfo("PLANCK", "HFI_BANDPASS_F143.txt", NoExtra)),
      ("PLANCK_HFI_217", BandInfo("PLANCK", "HFI_BANDPASS_F217.txt", NoExtra)),
      ("PLANCK_HFI_353", BandInfo("PLANCK", "HFI_BANDPASS_F353.txt", NoExtra)),
      ("PLANCK_HFI_545", BandInfo("PLANCK", "HFI_BANDPASS_F545.txt", NoExtra)),
      ("PLANCK_HFI_857", BandInfo("PLANCK", "HFI_BANDPASS_F857.txt", NoExtra)),
      ("ALMA_ALMA_3", BandInfo("ALMA", "alma-0-2000-02.dat", Range(2590, 3570))),
      ("ALMA_ALMA_4", BandInfo("ALMA", "alma-0-2000-02.dat", Range(1840, 2400))),
      ("ALMA_ALMA_5", BandInfo("ALMA", "alma-0-2000-02.dat", Range(1420, 1840))),
      ("ALMA_ALMA_6", BandInfo("ALMA", "alma-0-2000-02.dat", Range(1090, 1420))),
      ("ALMA_ALMA_7", BandInfo("ALMA", "alma-0-2000-02.dat", Range(800, 1090))),
      ("ALMA_ALMA_8", BandInfo("ALMA", "alma-0-2000-02.dat", Range(600, 780))),
      ("ALMA_ALMA_9", BandInfo("ALMA", "alma-0-2000-02.dat", Range(420, 500))),
      ("ALMA_ALMA_10", BandInfo("ALMA", "alma-0-2000-02.dat", Range(320, 380)))

  ]

  /** A band table's keys, in iteration order. */
  function Names(table: seq<(string, BandInfo)>): seq<string> {
    seq(|table|, i requires 0 <= i < |table| => table[i].0)
  }

  /** `self._bandinfo[name]`: the entry of the first key equal to `name`. */
  function Lookup(entries: seq<(string, BandInfo)>, name: string): Option<BandInfo> {
    if |entries| == 0 then None
    else if entries[0].0 == name then Some(entries[0].1)
    else Lookup(entries[1..], name)
  }

  /** Every key has an entry. */
  lemma {:induction false} LookupFound(entries: seq<(string, BandInfo)>, name: string, i: nat)
    requires i < |entries| && entries[i].0 == name
    ensures Lookup(entries, name).Some?
  {
    if entries[0].0 != name {
      LookupFound(entries[1..], name, i - 1);
    }
  }

  // ---------- resolving a band specification ------------------------------------------------

  /** The segments of a specification or a band name: upper-cased, '_' read as a space, split on white space. */
  function Segments(s: string): seq<string> {
    Words(Replace(Upper(s), "_", " "))
  }

  /** A band name matches a specification iff every segment of the specification is a segment of the name. */
  predicate Matches(spec: string, name: string) {
    AllIn(Segments(spec), Segments(name))
  }

  /** `all([seg in big for seg in small])`. */
  predicate AllIn(small: seq<string>, big: seq<string>) {
    forall seg :: seg in small ==> seg in big
  }

  function MatchesOf(spec: string): string -> bool {
    name => Matches(spec, name)
  }

  /** The matching band names, in dictionary order. */
  function Matching(spec: string, names: seq<string>): seq<string> {
    Filter(names, MatchesOf(spec))
  }

  datatype BandError =
    | MultipleMatches(spec: string, first: string, second: string)
    | NoMatch(spec: string)
    | UnknownBand(name: string)
    | UnsupportedFormat(format: string)
    | MalformedBandInfo(name: string)
    | UnsupportedSpec
    | TableNotFound(name: string)
    | BadTableShape(name: string)
    | EmptySelection(name: string)

  /** The outcome of `_bandNameFromSpec`: the only matching name; otherwise the first two matches
      are reported, or that nothing matches. */
  function Resolve(spec: string, names: seq<string>): Result<string, BandError> {
    var m := Matching(spec, names);
    if |m| == 0 then Err(NoMatch(spec))
    else if |m| > 1 then Err(MultipleMatches(spec, m[0], m[1]))
    else Ok(m[0])
  }

  /** `_bandNameFromSpec`: scans the band names (the dictionary's keys) in order, remembering the
      match found so far. */
  method BandNameFromSpec(spec: string, names: seq<string>) returns (r: Result<string, BandError>)
    ensures r == Resolve(spec, names)
  {
    var specSegments := Segments(spec);
    var result: Option<string> := None;
    for i := 0 to |names|
      invariant Matching(spec, names[..i]) == if result.None? then [] else [result.value]
    {
      var name := names[i];
      var nameSegments := Segments(name);
      MatchingStep(spec, names, i);
      if AllIn(specSegments, nameSegments) {
        if result.Some? {
          SecondMatch(spec, names, i, result.value);
          return Err(MultipleMatches(spec, result.value, name));
        }
        result := Some(name);
      }
    }
    assert names[..|names|] == names;
    if result.None? {
      return Err(NoMatch(spec));
    }
    return Ok(result.value);
  }

  lemma MatchingStep(spec: string, names: seq<string>, i: nat)
    requires i < |names|
    ensures Matching(spec, names[..i + 1]) == Matching(spec, names[..i]) + if Matches(spec, names[i]) then [names[i]] else []
  {
    FilterSnoc(names, i, MatchesOf(spec));
  }

  /** A match after exactly one earlier match is reported together with it. */
  lemma SecondMatch(spec: string, names: seq<string>, i: nat, first: string)
    requires i < |names| && Matches(spec, names[i])
    requires Matching(spec, names[..i]) == [first]
    ensures Resolve(spec, names) == Err(MultipleMatches(spec, first, names[i]))
  {
    MatchingStep(spec, names, i);
    assert names == names[..i + 1] + names[i + 1..];
    FilterConcat(names[..i + 1], names[i + 1..], MatchesOf(spec));
  }

  /** On success the result is a band name that matches, and no other band name matches. */
  lemma ResolveOk(spec: string, names: seq<string>)
    requires Resolve(spec, names).Ok?
    ensures Resolve(spec, names).value in names && Matches(spec, Resolve(spec, names).value)
    ensures forall i :: 0 <= i < |names| && names[i] != Resolve(spec, names).value ==> !Matches(spec, names[i])
  {
    var m := Matching(spec, names);
    FilterMembers(names, MatchesOf(spec));
    assert m[0] in m;
    forall i | 0 <= i < |names| && names[i] != m[0] ensures !Matches(spec, names[i]) {
      assert names[i] in names;
    }
  }

  /** Nothing matches exactly when "matches no band names" is raised. */
  lemma ResolveNone(spec: string, names: seq<string>)
    ensures Resolve(spec, names) == Err(NoMatch(spec)) <==> forall i :: 0 <= i < |names| ==> !Matches(spec, names[i])
  {
    var m := Matching(spec, names);
    FilterMembers(names, MatchesOf(spec));
    if |m| > 0 {
      assert m[0] in m;
    } else {
      forall i | 0 <= i < |names| ensures !Matches(spec, names[i]) {
        assert names[i] in names;
      }
    }
  }

  /** "Matches multiple band names" reports the first two matching names: the first has no match
      before it, the second comes later, with the first as the only match before it. */
  lemma ResolveMultiple(spec: string, names: seq<string>)
    requires Resolve(spec, names).Err? && Resolve(spec, names).error.MultipleMatches?
    ensures exists i, j :: (0 <= i < j < |names|
      && names[i] == Resolve(spec, names).error.first && names[j] == Resolve(spec, names).error.second
      && Matches(spec, names[i]) && Matches(spec, names[j])
      && Filter(names[..i], MatchesOf(spec)) == [] && Filter(names[..j], MatchesOf(spec)) == [names[i]])
  {
    var p := MatchesOf(spec);
    var i := FilterPosition(names, p, 0);
    var j := FilterPosition(names, p, 1);
    if j < i {
      FilterPrefixLength(names, p, j, i);
    }
  }

  /** The band specifications documented for the constructor, the band they select, and two bands
      that share one of their segments. */
  const DOCUMENTED_SPECS: seq<string> := ["Herschel 100", "PACS 100", "HERSCHEL_PACS_100"]
  const PACS_100 := "HERSCHEL_PACS_100"
  const PACS_160 := "HERSCHEL_PACS_160"
  const IRAS_100 := "IRAS_IRAS_100"

  /** The documented specifications all match HERSCHEL_PACS_100, so each resolves to it as long
      as no other band name matches (by `ResolveOk`). */
  lemma DocumentedSpecs()
    ensures Matches(DOCUMENTED_SPECS[0], PACS_100)
    ensures Matches(DOCUMENTED_SPECS[1], PACS_100)
    ensures Matches(DOCUMENTED_SPECS[2], PACS_100)
  {
    PacsSegments();
    HerschelSpecSegments();
    PacsSpecSegments();
    assert DOCUMENTED_SPECS[2] == PACS_100;
  }

  /** Segments are whole words: "100" does not select HERSCHEL_PACS_160 ... */
  lemma WholeSegmentsPacs()
    ensures !Matches(DOCUMENTED_SPECS[1], PACS_160)
  {
    PacsSpecSegments();
    Pacs160Segments();
    HundredNotInPacs160();
    MissingSegment(DOCUMENTED_SPECS[1], PACS_160, "100");
  }

  /** ... and "Herschel" does not select IRAS_IRAS_100. */
  lemma WholeSegmentsIras()
    ensures !Matches(DOCUMENTED_SPECS[0], IRAS_100)
  {
    HerschelSpecSegments();
    Iras100Segments();
    HerschelNotInIras();
    MissingSegment(DOCUMENTED_SPECS[0], IRAS_100, "HERSCHEL");
  }

  lemma HundredNotInPacs160() ensures "100" !in ["HERSCHEL", "PACS", "160"] {}
  lemma HerschelNotInIras() ensures "HERSCHEL" !in ["IRAS", "IRAS", "100"] {}

  /** A specification segment that is not a segment of the name rules the name out. */
  lemma MissingSegment(spec: string, name: string, seg: string)
    requires seg in Segments(spec) && seg !in Segments(name)
    ensures !Matches(spec, name)
  {
  }

  lemma PacsSegments()
    ensures Segments(PACS_100) == ["HERSCHEL", "PACS", "100"]
  {
    PlainWordOf("HERSCHEL");
    PlainWordOf("PACS");
    PlainWordOf("100");
    JoinedSegments(PACS_100, ["HERSCHEL", "PACS", "100"], "_", ["HERSCHEL", "PACS", "100"]);
  }

  lemma Pacs160Segments()
    ensures Segments(PACS_160) == ["HERSCHEL", "PACS", "160"]
  {
    PlainWordOf("HERSCHEL");
    PlainWordOf("PACS");
    PlainWordOf("160");
    JoinedSegments(PACS_160, ["HERSCHEL", "PACS", "160"], "_", ["HERSCHEL", "PACS", "160"]);
  }

  lemma Iras100Segments()
    ensures Segments(IRAS_100) == ["IRAS", "IRAS", "100"]
  {
    PlainWordOf("IRAS");
    PlainWordOf("100");
    JoinedSegments(IRAS_100, ["IRAS", "IRAS", "100"], "_", ["IRAS", "IRAS", "100"]);
  }

  lemma HerschelSpecSegments()
    ensures Segments(DOCUMENTED_SPECS[0]) == ["HERSCHEL", "100"]
  {
    UpperIs("Herschel", "HERSCHEL");
    PlainWordOf("HERSCHEL");
    PlainWordOf("100");
    JoinedSegments(DOCUMENTED_SPECS[0], ["Herschel", "100"], " ", ["HERSCHEL", "100"]);
  }

  lemma PacsSpecSegments()
    ensures Segments(DOCUMENTED_SPECS[1]) == ["PACS", "100"]
  {
    PlainWordOf("PACS");
    PlainWordOf("100");
    JoinedSegments(DOCUMENTED_SPECS[1], ["PACS", "100"], " ", ["PACS", "100"]);
  }

  /** The segments of a name written as words that upper-case to plain words, joined by
      underscores or spaces, are those upper-cased words. */
  lemma JoinedSegments(name: string, raw: seq<string>, sep: string, parts: seq<string>)
    requires |raw| == |parts| > 0 && sep in ["_", " "] && name == Join(raw, sep)
    requires forall i :: 0 <= i < |raw| ==> Upper(raw[i]) == parts[i] && IsPlainWord(parts[i])
    ensures Segments(name) == parts
  {
    UpperJoin(raw, parts, sep);
    ReplaceJoin(parts, sep);
    WordsOfJoin(parts);
  }

  // ---------- construction ------------------------------------------------------------------

  /** A band specification: a string, a tuple (of numbers), or anything else. */
  datatype BandSpec = Text(text: string) | Tuple(items: seq<real>) | OtherSpec

  /** A row of a two-column table: wavelength (micron, after any unit conversion) and transmission. */
  datatype Row = Row(wavelength: real, transmission: real)

  /** A row of a Planck HFI table: wavelength (micron, converted from the wavenumber), transmission, uncertainty. */
  datatype HfiRow = HfiRow(wavelength: real, transmission: real, uncertainty: real)

  /** The contents of the resource files, by file name: the TD values of an SVO XML table, the rows
      of a two-column table, and the rows of a Planck HFI table. */
  datatype BandData = BandData(svo: string -> seq<real>, table: string -> seq<Row>, hfi: string -> seq<HfiRow>)

  /** A loaded transmission curve, before normalisation. */
  datatype Curve = Curve(rows: seq<Row>, photonCounter: bool)

  /** SVO: pairs of (wavelength in Angstrom, transmission) values; fewer than four values means no
      table, an odd count cannot be reshaped into pairs. */
  function LoadSVO(name: string, info: BandInfo, values: seq<real>): Result<Curve, BandError> {
    if |values| < 4 then Err(TableNotFound(name))
    else if |values| % 2 != 0 then Err(BadTableShape(name))
    else
      // the third field is unpacked into the flag, with Python's truth value
      var photon := match info.extra
        case Counter(b) => b
        case NoExtra => false
        case Range(_, _) => true;
      Ok(Curve(SvoRows(values), photon))
  }

  function SvoRows(values: seq<real>): seq<Row>
    requires |values| % 2 == 0
  {
    seq(|values| / 2, k requires 0 <= k < |values| / 2 => Row(values[2 * k] * 0.0001, values[2 * k + 1]))
  }

  /** The values of an SVO table written back from its rows (wavelengths in Angstrom). */
  function Interleave(rows: seq<Row>): seq<real> {
    if |rows| == 0 then [] else [rows[0].wavelength * 10000.0, rows[0].transmission] + Interleave(rows[1..])
  }

  /** The SVO rows are the consecutive (wavelength, transmission) pairs of the table values. */
  lemma {:induction false} SvoRoundTrip(values: seq<real>)
    requires |values| % 2 == 0
    ensures |SvoRows(values)| == |values| / 2
    ensures Interleave(SvoRows(values)) == values
    decreases |values|
  {
    if |values| > 0 {
      var rest := values[2..];
      SvoRoundTrip(rest);
      assert SvoRows(values)[1..] == SvoRows(rest);
      assert values == [values[0], values[1]] + rest;
    }
  }

  predicate InRange(wmin: int, wmax: int, r: Row) {
    wmin as real < r.wavelength < wmax as real
  }

  function InRangeOf(wmin: int, wmax: int): Row -> bool {
    r => InRange(wmin, wmax, r)
  }

  /** ALMA: the rows strictly inside (wmin, wmax), in reverse order. */
  function AlmaRows(rows: seq<Row>, wmin: int, wmax: int): seq<Row> {
    Reverse(Filter(rows, InRangeOf(wmin, wmax)))
  }

  /** The ALMA selection keeps exactly the rows inside the band's range; it keeps them in their
      order (reversed), so the selection of a concatenation is the later part's selection first. */
  lemma AlmaSelection(rows: seq<Row>, more: seq<Row>, wmin: int, wmax: int)
    ensures forall r :: r in AlmaRows(rows, wmin, wmax) <==> r in rows && wmin as real < r.wavelength < wmax as real
    ensures AlmaRows(rows + more, wmin, wmax) == AlmaRows(more, wmin, wmax) + AlmaRows(rows, wmin, wmax)
  {
    var p := InRangeOf(wmin, wmax);
    FilterMembers(rows, p);
    var f := Filter(rows, p);
    ReverseIndex(f);
    forall r ensures r in Reverse(f) <==> r in f {
      if r in f {
        var k :| 0 <= k < |f| && f[k] == r;
        assert Reverse(f)[|f| - 1 - k] == r;
      }
    }
    FilterConcat(rows, more, p);
    ReverseConcat(f, Filter(more, p));
  }

  /** The largest transmission (`np.max`), for a non-empty table. */
  function Peak(rows: seq<HfiRow>): real
    requires |rows| > 0
  {
    if |rows| == 1 then rows[0].transmission
    else
      var rest := Peak(rows[1..]);
      if rows[0].transmission > rest then rows[0].transmission else rest
  }

  lemma {:induction false} PeakSpec(rows: seq<HfiRow>)
    requires |rows| > 0
    ensures forall k :: 0 <= k < |rows| ==> rows[k].transmission <= Peak(rows)
    ensures exists k :: 0 <= k < |rows| && rows[k].transmission == Peak(rows)
  {
    if |rows| == 1 {
      assert rows[0].transmission == Peak(rows);
    } else {
      PeakSpec(rows[1..]);
      var k :| 0 <= k < |rows[1..]| && rows[1..][k].transmission == Peak(rows[1..]);
      assert rows[k + 1] == rows[1..][k];
      if rows[0].transmission > Peak(rows[1..]) {
        assert rows[0].transmission == Peak(rows);
      } else {
        assert rows[k + 1].transmission == Peak(rows);
      }
      forall j | 0 <= j < |rows| ensures rows[j].transmission <= Peak(rows) {
        if j > 0 { assert rows[j] == rows[1..][j - 1]; }
      }
    }
  }

  function Significant(): HfiRow -> bool {
    (r: HfiRow) => r.transmission > 10.0 * r.uncertainty
  }

  function AbovePeakFraction(peak: real): HfiRow -> bool {
    (r: HfiRow) => r.transmission > peak / 5000.0
  }

  function ToRow(r: HfiRow): Row {
    Row(r.wavelength, r.transmission)
  }

  /** HFI: the rows whose transmission exceeds ten times the uncertainty, then of those the rows above
      1/5000 of their peak transmission, in reverse order; `np.max` of no rows raises. */
  function HfiRows(name: string, rows: seq<HfiRow>): Result<seq<Row>, BandError> {
    var first := Filter(rows, Significant());
    if |first| == 0 then Err(EmptySelection(name))
    else
      var second := Filter(first, AbovePeakFraction(Peak(first)));
      Ok(Reverse(seq(|second|, k requires 0 <= k < |second| => ToRow(second[k]))))
  }

  /** The second HFI selection keeps exactly the significant rows above 1/5000 of the significant peak,
      and it keeps at least one row iff that peak is positive. */
  lemma HfiSelection(rows: seq<HfiRow>)
    requires |Filter(rows, Significant())| > 0
    ensures var first := Filter(rows, Significant());
      var second := Filter(first, AbovePeakFraction(Peak(first)));
      && (forall r :: r in second <==> r in rows && r.transmission > 10.0 * r.uncertainty && r.transmission > Peak(first) / 5000.0)
      && (|second| > 0 <==> Peak(first) > 0.0)
  {
    var first := Filter(rows, Significant());
    var peak := Peak(first);
    var second := Filter(first, AbovePeakFraction(peak));
    FilterMembers(rows, Significant());
    FilterMembers(first, AbovePeakFraction(peak));
    PeakSpec(first);
    var k :| 0 <= k < |first| && first[k].transmission == peak;
    if peak > 0.0 {
      assert first[k] in second;
    } else {
      assert forall j :: 0 <= j < |first| ==> first[j].transmission <= peak <= peak / 5000.0;
      FilterNone(first, AbovePeakFraction(peak));
    }
  }

  /** PLANCK: LFI tables are only reversed; HFI tables are selected as above. */
  function LoadPLANCK(name: string, info: BandInfo, data: BandData): Result<Curve, BandError> {
    if Contains(name, "LFI") then Ok(Curve(Reverse(data.table(info.file)), false))
    else
      var rows :- HfiRows(name, data.hfi(info.file));
      Ok(Curve(rows, false))
  }

  function LoadALMA(name: string, info: BandInfo, data: BandData): Result<Curve, BandError> {
    match info.extra
    case Range(wmin, wmax) => Ok(Curve(AlmaRows(data.table(info.file), wmin, wmax), false))
    case _ => Err(MalformedBandInfo(name))
  }

  /** The loader chosen by the stored format. */
  function Load(name: string, info: BandInfo, data: BandData): Result<Curve, BandError> {
    if info.format == "SVO" then LoadSVO(name, info, data.svo(info.file))
    else if info.format == "JCMT" then Ok(Curve(data.table(info.file), false))
    else if info.format == "PLANCK" then LoadPLANCK(name, info, data)
    else if info.format == "ALMA" then LoadALMA(name, info, data)
    else Err(UnsupportedFormat(info.format))
  }

  /** The name and the curve the constructor ends up with, before normalisation. */
  function Build(table: seq<(string, BandInfo)>, spec: BandSpec, data: BandData): Result<(string, Curve), BandError> {
    match spec
    case Text(s) =>
      var name :- Resolve(s, Names(table));
      var entry := Lookup(table, name);
      if entry.None? then Err(UnknownBand(name))
      else
        var curve :- Load(name, entry.value, data);
        Ok((name, curve))
    case Tuple(items) =>
      if |items| == 2 then Ok(("Uniform", Curve([Row(items[0], 1.0), Row(items[1], 1.0)], false)))
      else Err(UnsupportedSpec)
    case OtherSpec => Err(UnsupportedSpec)
  }

  /** Constructor dispatch: a string gives a built-in band (or the resolution error), a pair gives the
      uniform band over that range, anything else is rejected; a built-in band is never named "Uniform". */
  lemma BuildDispatch(table: seq<(string, BandInfo)>, spec: BandSpec, data: BandData)
    ensures spec.Text? ==> (Build(table, spec, data).Ok? ==> Build(table, spec, data).value.0 == Resolve(spec.text, Names(table)).value && Resolve(spec.text, Names(table)).Ok?)
    ensures spec.Text? && Resolve(spec.text, Names(table)).Err? ==> Build(table, spec, data) == Err(Resolve(spec.text, Names(table)).error)
    ensures spec.Text? && Resolve(spec.text, Names(table)).Ok? ==> Build(table, spec, data).Err? ==> !Build(table, spec, data).error.UnknownBand?
    ensures spec.Tuple? && |spec.items| == 2 ==> Build(table, spec, data) == Ok(("Uniform", Curve([Row(spec.items[0], 1.0), Row(spec.items[1], 1.0)], false)))
    ensures spec.OtherSpec? || (spec.Tuple? && |spec.items| != 2) ==> Build(table, spec, data) == Err(UnsupportedSpec)
  {
    if spec.Text? && Resolve(spec.text, Names(table)).Ok? {
      ResolveOk(spec.text, Names(table));
      var name := Resolve(spec.text, Names(table)).value;
      var i :| 0 <= i < |Names(table)| && Names(table)[i] == name;
      LookupFound(table, name, i);
    }
  }

  function Wavelengths(rows: seq<Row>): seq<real> {
    seq(|rows|, k requires 0 <= k < |rows| => rows[k].wavelength)
  }

  function Transmissions(rows: seq<Row>): seq<real> {
    seq(|rows|, k requires 0 <= k < |rows| => rows[k].transmission)
  }

  /** Element-wise product of two equally long columns. */
  function Times(a: seq<real>, b: seq<real>): (r: seq<real>)
    requires |a| == |b|
    ensures |r| == |a|
  {
    if |a| == 0 then [] else [a[0] * b[0]] + Times(a[1..], b[1..])
  }

  lemma {:induction false} TimesIndex(a: seq<real>, b: seq<real>)
    requires |a| == |b|
    ensures forall k :: 0 <= k < |a| ==> Times(a, b)[k] == a[k] * b[k]
  {
    if |a| > 0 {
      TimesIndex(a[1..], b[1..]);
      assert forall k :: 0 < k < |a| ==> Times(a, b)[k] == Times(a[1..], b[1..])[k - 1];
    }
  }

  /** The transmissions after the photon-counter conversion (multiplying by the wavelength). */
  function Weighted(curve: Curve): seq<real> {
    var ts := Transmissions(curve.rows);
    if curve.photonCounter then Times(ts, Wavelengths(curve.rows)) else ts
  }

  // ---------- the band object ---------------------------------------------------------------

  class BroadBand {
    var bandName: string
    var wavelengths: array<real>
    var transmissions: array<real>
    var photonCounter: bool

    ghost predicate Valid()
      reads this
    {
      && wavelengths.Length == transmissions.Length && wavelengths != transmissions
      && (bandName == "Uniform" || bandName in Names(BAND_INFO))
    }

    /** Stores a loaded curve in fresh arrays. */
    constructor FromCurve(name: string, curve: Curve)
      requires name == "Uniform" || name in Names(BAND_INFO)
      ensures Valid() && fresh(wavelengths) && fresh(transmissions)
      ensures bandName == name && photonCounter == curve.photonCounter
      ensures wavelengths[..] == Wavelengths(curve.rows) && transmissions[..] == Transmissions(curve.rows)
    {
      var rows := curve.rows;
      bandName := name;
      photonCounter := curve.photonCounter;
      wavelengths := new real[|rows|](k requires 0 <= k < |rows| => rows[k].wavelength);
      transmissions := new real[|rows|](k requires 0 <= k < |rows| => rows[k].transmission);
      new;
      assert wavelengths[..] == Wavelengths(rows);
      assert transmissions[..] == Transmissions(rows);
    }

    /** The first step of `_normalize`: photon counters multiply each transmission by its wavelength, in place. */
    method WeighPhotonCounter()
      requires Valid()
      modifies transmissions
      ensures transmissions[..] == if photonCounter then Times(old(transmissions[..]), wavelengths[..]) else old(transmissions[..])
    {
      if photonCounter {
        ghost var original, ws := transmissions[..], wavelengths[..];
        TimesIndex(original, ws);
        var k := 0;
        while k < transmissions.Length
          invariant 0 <= k <= transmissions.Length
          invariant wavelengths[..] == ws
          invariant forall j :: 0 <= j < k ==> transmissions[j] == original[j] * ws[j]
          invariant forall j :: k <= j < transmissions.Length ==> transmissions[j] == original[j]
        {
          var w := wavelengths[k];
          assert w == ws[k];
          transmissions[k] := transmissions[k] * w;
          k := k + 1;
        }
        assert forall j :: 0 <= j < |ws| ==> transmissions[..][j] == Times(original, ws)[j];
      }
    }

    /** The constructor `BroadBand(bandspec)`: the band of `Build`, with photon-counter transmissions weighted. */
    static method Create(spec: BandSpec, data: BandData) returns (r: Result<BroadBand, BandError>)
      ensures r.Ok? <==> Build(BAND_INFO, spec, data).Ok?
      ensures r.Err? ==> r.error == Build(BAND_INFO, spec, data).error
      ensures r.Ok? ==> var b := r.value; var built := Build(BAND_INFO, spec, data).value;
        && fresh(b) && fresh(b.wavelengths) && fresh(b.transmissions) && b.Valid()
        && b.bandName == built.0 && b.photonCounter == built.1.photonCounter
        && b.wavelengths[..] == Wavelengths(built.1.rows) && b.transmissions[..] == Weighted(built.1)
    {
      BuildDispatch(BAND_INFO, spec, data);
      var name: string;
      if spec.Text? {
        var resolved := BandNameFromSpec(spec.text, Names(BAND_INFO));
        if resolved.Err? {
          return Err(resolved.error);
        }
        name := resolved.value;
        ResolveOk(spec.text, Names(BAND_INFO));
      } else if spec.Tuple? && |spec.items| == 2 {
        name := "Uniform";
      } else {
        return Err(UnsupportedSpec);
      }
      var built := Build(BAND_INFO, spec, data);
      if built.Err? {
        return Err(built.error);
      }
      var b := new BroadBand.FromCurve(name, built.value.1);
      b.WeighPhotonCounter();
      return Ok(b);
    }

    /** `name()`: a built-in band name, or "Uniform". */
    function Name(): (r: string)
      reads this
      requires Valid()
      ensures r == "Uniform" || r in Names(BAND_INFO)
    {
      bandName
    }

    /** `minWavelength()`: the first stored wavelength; indexing an empty array raises. */
    function MinWavelength(): (r: Option<real>)
      reads this, wavelengths
      ensures r.Some? <==> wavelengths.Length > 0
      ensures r.Some? ==> r.value == wavelengths[..][0]
    {
      if wavelengths.Length == 0 then None else Some(wavelengths[0])
    }

    /** `maxWavelength()`: the last stored wavelength. */
    function MaxWavelength(): (r: Option<real>)
      reads this, wavelengths
      ensures r.Some? <==> wavelengths.Length > 0
      ensures r.Some? ==> r.value == wavelengths[..][|wavelengths[..]| - 1]
    {
      if wavelengths.Length == 0 then None else Some(wavelengths[wavelengths.Length - 1])
    }

    /** `transmissionCurve()`: copies of the two arrays, so changing them leaves the band as it was. */
    method TransmissionCurve() returns (w: array<real>, t: array<real>)
      ensures fresh(w) && fresh(t) && w != t
      ensures w[..] == wavelengths[..] && t[..] == transmissions[..]
    {
      w := new real[wavelengths.Length](k requires 0 <= k < wavelengths.Length reads this, wavelengths => wavelengths[k]);
      t := new real[transmissions.Length](k requires 0 <= k < transmissions.Length reads this, transmissions => transmissions[k]);
    }
  }

  /** A uniform band spans exactly the given range. */
  lemma UniformRange(table: seq<(string, BandInfo)>, a: real, b: real, data: BandData)
    ensures Build(table, Tuple([a, b]), data).Ok?
    ensures Wavelengths(Build(table, Tuple([a, b]), data).value.1.rows) == [a, b]
    ensures Weighted(Build(table, Tuple([a, b]), data).value.1) == [1.0, 1.0]
  {
  }
}
