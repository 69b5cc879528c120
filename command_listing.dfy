/** The part shared by the two command-script locators (`pts.admin.command.perform` and
    `pts.do.command.findScript`): the listing of the top-level pts directory, the package names
    selected from it, the (package, script) candidates found in the `do` subdirectories, and the
    rule that exactly one candidate may survive the filters. The directory listings are inputs. */
module CommandListing {
  import opened Wrappers
  import opened PyStrings
  import opened Seqs

  /** An entry of the top-level pts directory: its name, whether it is a directory, and the file
      names in its `do` subdirectory when that subdirectory exists. */
  datatype Entry = Entry(name: string, isDir: bool, doFiles: Option<seq<string>>)

  /** The ValueErrors the locators raise. */
  datatype CommandError = InvalidCommandSpec | CommandNotFound | CommandIsAmbiguous

  /** `x.is_dir() and (x/"do").is_dir()`. */
  predicate IsPackage(e: Entry) {
    e.isDir && e.doFiles.Some?
  }

  /** The package directories, in listing order. */
  function Packages(entries: seq<Entry>): seq<Entry> {
    Filter(entries, IsPackage)
  }

  /** The package split off a command spec: one part means no package and the script part as
      given; two parts are both lower-cased; more parts are an invalid spec. */
  function SpecNames(parts: seq<string>): (r: Result<(string, string), CommandError>)
    ensures r.Ok? <==> 1 <= |parts| <= 2
    ensures |parts| == 1 ==> r == Ok(("", parts[0]))
    ensures |parts| == 2 ==> r == Ok((Lower(parts[0]), Lower(parts[1])))
  {
    if |parts| == 1 then Ok(("", parts[0]))
    else if |parts| == 2 then Ok((Lower(parts[0]), Lower(parts[1])))
    else Err(InvalidCommandSpec)
  }

  /** `pname.lower().startswith(packagename)`: the empty package spec admits every package. */
  predicate PackageMatches(packageSpec: string, e: Entry) {
    packageSpec <= Lower(e.name)
  }

  function PackageMatchesOf(packageSpec: string): Entry -> bool {
    e => PackageMatches(packageSpec, e)
  }

  /** The packages whose lower-cased name starts with the package spec. */
  function Eligible(packageSpec: string, packages: seq<Entry>): seq<Entry> {
    Filter(packages, PackageMatchesOf(packageSpec))
  }

  /** `x.suffix == ".py"`. */
  predicate IsPy(file: string) {
    Suffix(file) == ".py"
  }

  /** The stems of the ".py" files of a listing, in listing order. */
  function PyStems(files: seq<string>): seq<string> {
    var py := Filter(files, IsPy);
    seq(|py|, i requires 0 <= i < |py| => Stem(py[i]))
  }

  /** A stem is listed iff some ".py" file of the listing has it. */
  lemma PyStemsMembers(files: seq<string>, stem: string)
    ensures stem in PyStems(files) <==> exists f :: f in files && IsPy(f) && Stem(f) == stem
  {
    var py := Filter(files, IsPy);
    FilterMembers(files, IsPy);
    if stem in PyStems(files) {
      ListedStem(files, stem);
    }
    if exists f :: f in files && IsPy(f) && Stem(f) == stem {
      var f :| f in files && IsPy(f) && Stem(f) == stem;
      StemListed(files, f);
    }
  }

  lemma ListedStem(files: seq<string>, stem: string)
    requires stem in PyStems(files)
    ensures exists f :: f in files && IsPy(f) && Stem(f) == stem
  {
    var py := Filter(files, IsPy);
    var i :| 0 <= i < |py| && PyStems(files)[i] == stem;
    FilterMembers(files, IsPy);
    assert py[i] in py;
  }

  lemma StemListed(files: seq<string>, f: string)
    requires f in files && IsPy(f)
    ensures Stem(f) in PyStems(files)
  {
    var py := Filter(files, IsPy);
    FilterMembers(files, IsPy);
    var i :| 0 <= i < |py| && py[i] == f;
    assert PyStems(files)[i] == Stem(f);
  }

  /** The (package, script) pairs of one package: the stems of its ".py" files, in listing order. */
  function ScriptsIn(e: Entry): (r: seq<(string, string)>)
    ensures forall c :: c in r ==> c.0 == e.name
  {
    match e.doFiles
    case None => []
    case Some(files) =>
      var stems := PyStems(files);
      seq(|stems|, i requires 0 <= i < |stems| => (e.name, stems[i]))
  }

  /** The (package, script) pairs of all given packages, package by package. */
  function Scripts(packages: seq<Entry>): seq<(string, string)> {
    if |packages| == 0 then [] else ScriptsIn(packages[0]) + Scripts(packages[1..])
  }

  /** Package entry `e` lists a ".py" file whose stem is `c.1`, and `c.0` is the package's name. */
  predicate Provides(e: Entry, c: (string, string)) {
    e.doFiles.Some? && c.0 == e.name && c.1 in PyStems(e.doFiles.value)
  }

  lemma ScriptsInMembers(e: Entry, c: (string, string))
    ensures c in ScriptsIn(e) <==> Provides(e, c)
  {
    if e.doFiles.Some? {
      var stems := PyStems(e.doFiles.value);
      if c in ScriptsIn(e) {
        var i :| 0 <= i < |stems| && ScriptsIn(e)[i] == c;
        assert stems[i] == c.1;
      }
      if Provides(e, c) {
        var i :| 0 <= i < |stems| && stems[i] == c.1;
        assert ScriptsIn(e)[i] == c;
      }
    }
  }

  /** A pair is a script of the packages iff one of the packages provides it. */
  lemma {:induction false} ScriptsMembers(packages: seq<Entry>, c: (string, string))
    ensures c in Scripts(packages) <==> exists e :: e in packages && Provides(e, c)
  {
    if |packages| > 0 {
      ScriptsMembers(packages[1..], c);
      ScriptsInMembers(packages[0], c);
      assert packages == [packages[0]] + packages[1..];
    }
  }

  /** The candidates left by the package filter and then the script filter `m`. */
  function Candidates(packageSpec: string, entries: seq<Entry>, m: ((string, string)) -> bool): seq<(string, string)> {
    Filter(Scripts(Eligible(packageSpec, Packages(entries))), m)
  }

  /** Script `c` is a candidate for the package spec and script filter `m`, taken over the whole listing. */
  predicate Selected(packageSpec: string, entries: seq<Entry>, m: ((string, string)) -> bool, c: (string, string)) {
    && (exists e :: e in entries && IsPackage(e) && Provides(e, c))
    && packageSpec <= Lower(c.0)
    && m(c)
  }

  /** The candidates are exactly the selected scripts. */
  lemma CandidatesMembers(packageSpec: string, entries: seq<Entry>, m: ((string, string)) -> bool, c: (string, string))
    ensures c in Candidates(packageSpec, entries, m) <==> Selected(packageSpec, entries, m, c)
  {
    var packages := Packages(entries);
    var eligible := Eligible(packageSpec, packages);
    FilterMembers(Scripts(eligible), m);
    ScriptsMembers(eligible, c);
    FilterMembers(packages, PackageMatchesOf(packageSpec));
    FilterMembers(entries, IsPackage);
  }

  /** The package filter on a script pair: its package's lower-cased name starts with the spec. */
  function InPackageOf(packageSpec: string): ((string, string)) -> bool {
    (c: (string, string)) => packageSpec <= Lower(c.0)
  }

  /** Filtering the packages by name filters their scripts by package name: the eligible
      packages' scripts are the listing's scripts that pass the package filter, in the same order. */
  lemma {:induction false} ScriptsEligible(packageSpec: string, packages: seq<Entry>)
    ensures Scripts(Eligible(packageSpec, packages)) == Filter(Scripts(packages), InPackageOf(packageSpec))
  {
    if |packages| > 0 {
      var e, rest, p := packages[0], packages[1..], InPackageOf(packageSpec);
      var eligibleRest := Eligible(packageSpec, rest);
      ScriptsEligible(packageSpec, rest);
      assert Scripts(packages) == ScriptsIn(e) + Scripts(rest);
      FilterConcat(ScriptsIn(e), Scripts(rest), p);
      ScriptsInPackage(packageSpec, e);
      if PackageMatches(packageSpec, e) {
        assert Eligible(packageSpec, packages) == [e] + eligibleRest;
        assert ([e] + eligibleRest)[0] == e && ([e] + eligibleRest)[1..] == eligibleRest;
      } else {
        assert Eligible(packageSpec, packages) == eligibleRest;
      }
    }
  }

  /** One package's scripts all pass the package filter, or none do, as the package itself does. */
  lemma ScriptsInPackage(packageSpec: string, e: Entry)
    ensures Filter(ScriptsIn(e), InPackageOf(packageSpec)) ==
      if PackageMatches(packageSpec, e) then ScriptsIn(e) else []
  {
    var scripts, p := ScriptsIn(e), InPackageOf(packageSpec);
    assert forall k :: 0 <= k < |scripts| ==> scripts[k] in scripts;
    if PackageMatches(packageSpec, e) {
      FilterKeepsAll(scripts, p);
    } else {
      FilterNone(scripts, p);
    }
  }

  /** In a listing whose (package, script) pairs are all different, the candidates are too. */
  lemma CandidatesDistinct(packageSpec: string, entries: seq<Entry>, m: ((string, string)) -> bool)
    requires Distinct(Scripts(Packages(entries)))
    ensures Distinct(Candidates(packageSpec, entries, m))
  {
    var scripts := Scripts(Packages(entries));
    ScriptsEligible(packageSpec, Packages(entries));
    FilterDistinct(scripts, InPackageOf(packageSpec));
    FilterDistinct(Filter(scripts, InPackageOf(packageSpec)), m);
  }

  /** The converse of the final check: in a listing whose (package, script) pairs are all
      different, a script that is selected, and is the only one, is the result. */
  lemma UniqueSelected(packageSpec: string, entries: seq<Entry>, m: ((string, string)) -> bool, c: (string, string))
    requires Distinct(Scripts(Packages(entries)))
    requires Selected(packageSpec, entries, m, c)
    requires forall d :: Selected(packageSpec, entries, m, d) ==> d == c
    ensures Unique(Candidates(packageSpec, entries, m)) == Ok(c)
  {
    var cands := Candidates(packageSpec, entries, m);
    CandidatesDistinct(packageSpec, entries, m);
    CandidatesMembers(packageSpec, entries, m, c);
    forall d | d in cands
      ensures d == c
    {
      CandidatesMembers(packageSpec, entries, m, d);
    }
    DistinctOnly(cands, c);
  }

  /** The final check: no candidate is "command not found", several are "command is ambiguous". */
  function Unique(candidates: seq<(string, string)>): (r: Result<(string, string), CommandError>)
    ensures r.Ok? ==> candidates == [r.value]
    ensures r == Err(CommandNotFound) <==> candidates == []
    ensures r == Err(CommandIsAmbiguous) <==> |candidates| > 1
    ensures r != Err(InvalidCommandSpec)
  {
    if |candidates| < 1 then Err(CommandNotFound)
    else if |candidates| > 1 then Err(CommandIsAmbiguous)
    else Ok(candidates[0])
  }

  /** Two different selected scripts make any check on the candidates ambiguous. */
  lemma TwoSelected(packageSpec: string, entries: seq<Entry>, m: ((string, string)) -> bool, c: (string, string), d: (string, string))
    requires Selected(packageSpec, entries, m, c) && Selected(packageSpec, entries, m, d) && c != d
    ensures Unique(Candidates(packageSpec, entries, m)) == Err(CommandIsAmbiguous)
  {
    var cands := Candidates(packageSpec, entries, m);
    CandidatesMembers(packageSpec, entries, m, c);
    CandidatesMembers(packageSpec, entries, m, d);
    TwoMembers(cands, c, d);
  }

  lemma TwoMembers<T>(s: seq<T>, a: T, b: T)
    requires a in s && b in s && a != b
    ensures |s| > 1
  {
    var i :| 0 <= i < |s| && s[i] == a;
    var j :| 0 <= j < |s| && s[j] == b;
    assert i != j;
  }
}
