/** `pts.do.command.findScript`: locating a command script from a command spec in which '_' and
    '/' both separate the package from the script, and forming its import path. The directory
    listing is an input. */
module DoCommand {
  import opened Wrappers
  import opened PyStrings
  import opened Seqs
  import opened CommandListing

  /** The (package spec, script spec) pair of a command spec whose underscores became slashes. */
  function DoSpec(spec: string): Result<(string, string), CommandError> {
    SpecNames(SplitOn(Replace(spec, "_", "/"), '/'))
  }

  /** The script spec must start the lower-cased script name; segments play no part. */
  predicate ScriptMatches(scriptSpec: string, scriptName: string) {
    scriptSpec <= Lower(scriptName)
  }

  function ScriptMatchesOf(scriptSpec: string): ((string, string)) -> bool {
    (c: (string, string)) => ScriptMatches(scriptSpec, c.1)
  }

  /** `"pts.{}.do.{}".format(package, script)`. */
  function ImportPath(c: (string, string)): string {
    "pts." + c.0 + ".do." + c.1
  }

  /** `findScript`: the import path of the unique script the command spec selects. */
  function FindScript(spec: string, entries: seq<Entry>): Result<string, CommandError> {
    var names :- DoSpec(spec);
    var c :- Unique(Candidates(names.0, entries, ScriptMatchesOf(names.1)));
    Ok(ImportPath(c))
  }

  /** A spec without separators is a script spec only, taken as given (not lower-cased). */
  lemma ScriptOnlySpec(spec: string)
    requires '/' !in spec && '_' !in spec
    ensures DoSpec(spec) == Ok(("", spec))
  {
    ReplaceChar(spec, '_', '/');
    assert Replace(spec, "_", "/") == spec;
    SplitOnJoin([spec], '/');
  }

  /** "package_script" and "package/script" give the same, lower-cased, pair of names. */
  lemma UnderscoreSeparates(packageName: string, scriptName: string)
    requires '/' !in packageName && '_' !in packageName && '/' !in scriptName && '_' !in scriptName
    ensures DoSpec(packageName + "_" + scriptName) == Ok((Lower(packageName), Lower(scriptName)))
    ensures DoSpec(packageName + "/" + scriptName) == Ok((Lower(packageName), Lower(scriptName)))
  {
    var slashed := packageName + "/" + scriptName;
    ReplaceChar(packageName + "_" + scriptName, '_', '/');
    ReplaceChar(slashed, '_', '/');
    assert Replace(packageName + "_" + scriptName, "_", "/") == slashed;
    assert Replace(slashed, "_", "/") == slashed;
    SplitOnJoin([packageName, scriptName], '/');
    assert Join([packageName, scriptName], "/") == slashed;
  }

  /** A spec is invalid exactly when it holds two or more separators, '/' and '_' together. */
  lemma InvalidSpec(spec: string)
    ensures DoSpec(spec) == Err(InvalidCommandSpec) <==> Count(spec, '/') + Count(spec, '_') >= 2
  {
    ReplaceCount(spec, '_', '/');
    SplitOnCount(Replace(spec, "_", "/"), '/');
  }

  /** A successful search returns the import path of a script the whole listing provides, whose
      names the spec matches, and that is the only such script. */
  lemma FindScriptFound(spec: string, entries: seq<Entry>)
    requires FindScript(spec, entries).Ok?
    ensures DoSpec(spec).Ok?
    ensures var names := DoSpec(spec).value;
      exists c :: && FindScript(spec, entries).value == ImportPath(c)
                  && Selected(names.0, entries, ScriptMatchesOf(names.1), c)
                  && forall d :: Selected(names.0, entries, ScriptMatchesOf(names.1), d) ==> d == c
  {
    var names := DoSpec(spec).value;
    var m := ScriptMatchesOf(names.1);
    var c := Unique(Candidates(names.0, entries, m)).value;
    CandidatesMembers(names.0, entries, m, c);
    forall d | Selected(names.0, entries, m, d)
      ensures d == c
    {
      CandidatesMembers(names.0, entries, m, d);
    }
  }

  /** The converse: in a listing whose (package, script) pairs are all different, a spec that
      selects one script and no other gives that script's import path. */
  lemma FindScriptUnique(spec: string, entries: seq<Entry>, c: (string, string))
    requires Distinct(Scripts(Packages(entries)))
    requires DoSpec(spec).Ok?
    requires var names := DoSpec(spec).value;
      && Selected(names.0, entries, ScriptMatchesOf(names.1), c)
      && forall d :: Selected(names.0, entries, ScriptMatchesOf(names.1), d) ==> d == c
    ensures FindScript(spec, entries) == Ok(ImportPath(c))
  {
    var names := DoSpec(spec).value;
    UniqueSelected(names.0, entries, ScriptMatchesOf(names.1), c);
  }

  /** "command not found" is raised exactly when the spec is valid and no script is selected. */
  lemma FindScriptNotFound(spec: string, entries: seq<Entry>)
    ensures FindScript(spec, entries) == Err(CommandNotFound) <==>
      DoSpec(spec).Ok? &&
      var names := DoSpec(spec).value;
      forall d :: !Selected(names.0, entries, ScriptMatchesOf(names.1), d)
  {
    if DoSpec(spec).Ok? {
      var names := DoSpec(spec).value;
      var m := ScriptMatchesOf(names.1);
      var cands := Candidates(names.0, entries, m);
      if cands != [] {
        CandidatesMembers(names.0, entries, m, cands[0]);
      }
      forall d | Selected(names.0, entries, m, d)
        ensures cands != []
      {
        CandidatesMembers(names.0, entries, m, d);
      }
    }
  }

  /** Two different selected scripts make the spec ambiguous. */
  lemma FindScriptAmbiguous(spec: string, entries: seq<Entry>, c: (string, string), d: (string, string))
    requires DoSpec(spec).Ok?
    requires var names := DoSpec(spec).value;
      Selected(names.0, entries, ScriptMatchesOf(names.1), c) &&
      Selected(names.0, entries, ScriptMatchesOf(names.1), d)
    requires c != d
    ensures FindScript(spec, entries) == Err(CommandIsAmbiguous)
  {
    var names := DoSpec(spec).value;
    TwoSelected(names.0, entries, ScriptMatchesOf(names.1), c, d);
  }

  /** A package and script name can be read back from the import path when neither holds a dot. */
  lemma ImportPathNames(c: (string, string))
    requires '.' !in c.0 && '.' !in c.1
    ensures SplitOn(ImportPath(c), '.') == ["pts", c.0, "do", c.1]
  {
    var parts := ["pts", c.0, "do", c.1];
    SplitOnJoin(parts, '.');
    assert parts[1..][1..][1..] == [c.1];
    assert Join(parts[1..][1..], ".") == "do" + "." + c.1;
    assert Join(parts[1..], ".") == c.0 + "." + "do" + "." + c.1;
    assert Join(parts, ".") == ImportPath(c);
  }
}
