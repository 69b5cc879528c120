/** `pts.admin.command`: locating a command script from a command spec ("package/script", with
    shortcuts), and preparing the argument parser for its `do()` function. The directory listing,
    the `do()` signature and the argument values parsed from the command line are inputs. */
module AdminCommand {
  import opened Wrappers
  import opened PyStrings
  import opened Seqs
  import opened CommandListing

  // ---------- locating the script -----------------------------------------------------------

  /** The (package spec, script spec) pair of a command spec split on '/'. */
  function AdminSpec(spec: string): Result<(string, string), CommandError> {
    SpecNames(SplitOn(spec, '/'))
  }

  /** A script spec with an underscore must start the lower-cased script name; one without must
      start one of the '_'-separated segments of that name. */
  predicate ScriptMatches(scriptSpec: string, scriptName: string) {
    if '_' in scriptSpec then scriptSpec <= Lower(scriptName)
    else exists segment :: segment in SplitOn(Lower(scriptName), '_') && scriptSpec <= segment
  }

  function ScriptMatchesOf(scriptSpec: string): ((string, string)) -> bool {
    (c: (string, string)) => ScriptMatches(scriptSpec, c.1)
  }

  /** `perform`'s search: the unique (package, script) pair the command spec selects. */
  function Perform(spec: string, entries: seq<Entry>): Result<(string, string), CommandError> {
    var names :- AdminSpec(spec);
    Unique(Candidates(names.0, entries, ScriptMatchesOf(names.1)))
  }

  /** A spec without '/' is a script spec only, taken as given (not lower-cased). */
  lemma ScriptOnlySpec(spec: string)
    requires '/' !in spec
    ensures AdminSpec(spec) == Ok(("", spec))
  {
    SplitOnJoin([spec], '/');
  }

  /** A spec "package/script" gives both names lower-cased. */
  lemma PackageScriptSpec(packageName: string, scriptName: string)
    requires '/' !in packageName && '/' !in scriptName
    ensures AdminSpec(packageName + "/" + scriptName) == Ok((Lower(packageName), Lower(scriptName)))
  {
    SplitOnJoin([packageName, scriptName], '/');
    assert Join([packageName, scriptName], "/") == packageName + "/" + scriptName;
  }

  /** A spec is invalid exactly when it holds two or more slashes. */
  lemma InvalidSpec(spec: string)
    ensures AdminSpec(spec) == Err(InvalidCommandSpec) <==> Count(spec, '/') >= 2
  {
    SplitOnCount(spec, '/');
  }

  /** A successful search returns a script that the whole listing provides, whose package and
      script names match the spec, and that is the only such script. */
  lemma PerformFound(spec: string, entries: seq<Entry>)
    requires Perform(spec, entries).Ok?
    ensures AdminSpec(spec).Ok?
    ensures var names, c := AdminSpec(spec).value, Perform(spec, entries).value;
      && Selected(names.0, entries, ScriptMatchesOf(names.1), c)
      && forall d :: Selected(names.0, entries, ScriptMatchesOf(names.1), d) ==> d == c
  {
    var names := AdminSpec(spec).value;
    var c := Perform(spec, entries).value;
    CandidatesMembers(names.0, entries, ScriptMatchesOf(names.1), c);
    forall d | Selected(names.0, entries, ScriptMatchesOf(names.1), d)
      ensures d == c
    {
      CandidatesMembers(names.0, entries, ScriptMatchesOf(names.1), d);
    }
  }

  /** The converse: in a listing whose (package, script) pairs are all different, a spec that
      selects one script and no other locates that script. */
  lemma PerformUnique(spec: string, entries: seq<Entry>, c: (string, string))
    requires Distinct(Scripts(Packages(entries)))
    requires AdminSpec(spec).Ok?
    requires var names := AdminSpec(spec).value;
      && Selected(names.0, entries, ScriptMatchesOf(names.1), c)
      && forall d :: Selected(names.0, entries, ScriptMatchesOf(names.1), d) ==> d == c
    ensures Perform(spec, entries) == Ok(c)
  {
    var names := AdminSpec(spec).value;
    UniqueSelected(names.0, entries, ScriptMatchesOf(names.1), c);
  }

  /** "command not found" is raised exactly when the spec is valid and no script is selected. */
  lemma PerformNotFound(spec: string, entries: seq<Entry>)
    ensures Perform(spec, entries) == Err(CommandNotFound) <==>
      AdminSpec(spec).Ok? &&
      var names := AdminSpec(spec).value;
      forall d :: !Selected(names.0, entries, ScriptMatchesOf(names.1), d)
  {
    if AdminSpec(spec).Ok? {
      var names := AdminSpec(spec).value;
      var cands := Candidates(names.0, entries, ScriptMatchesOf(names.1));
      if cands != [] {
        CandidatesMembers(names.0, entries, ScriptMatchesOf(names.1), cands[0]);
      }
      forall d | Selected(names.0, entries, ScriptMatchesOf(names.1), d)
        ensures cands != []
      {
        CandidatesMembers(names.0, entries, ScriptMatchesOf(names.1), d);
      }
    }
  }

  /** Two different selected scripts make the spec ambiguous. */
  lemma PerformAmbiguous(spec: string, entries: seq<Entry>, c: (string, string), d: (string, string))
    requires AdminSpec(spec).Ok?
    requires var names := AdminSpec(spec).value;
      Selected(names.0, entries, ScriptMatchesOf(names.1), c) &&
      Selected(names.0, entries, ScriptMatchesOf(names.1), d)
    requires c != d
    ensures Perform(spec, entries) == Err(CommandIsAmbiguous)
  {
    var names := AdminSpec(spec).value;
    TwoSelected(names.0, entries, ScriptMatchesOf(names.1), c, d);
  }

  /** A package-less spec is not lower-cased, but the names it is compared with are: a spec with
      an upper-case letter never finds a script. */
  lemma UpperCaseScriptSpec(spec: string, entries: seq<Entry>, k: nat)
    requires '/' !in spec && k < |spec| && 'A' <= spec[k] <= 'Z'
    ensures Perform(spec, entries) == Err(CommandNotFound)
  {
    ScriptOnlySpec(spec);
    forall d | Selected("", entries, ScriptMatchesOf(spec), d)
      ensures false
    {
      NoUpperMatch(spec, d.1, k);
    }
    PerformNotFound(spec, entries);
  }

  lemma NoUpperMatch(spec: string, scriptName: string, k: nat)
    requires k < |spec| && 'A' <= spec[k] <= 'Z'
    ensures !ScriptMatches(spec, scriptName)
  {
    var lower := Lower(scriptName);
    assert forall ch :: ch in lower ==> !('A' <= ch <= 'Z');
    SplitOnChars(lower, '_');
    forall segment | segment in SplitOn(lower, '_')
      ensures !(spec <= segment)
    {
      if k < |segment| {
        assert segment[k] in lower;
      }
    }
    if k < |lower| {
      assert lower[k] in lower;
    }
  }

  // ---------- the documented shortcuts ------------------------------------------------------

  const ADMIN := "admin"
  const TRY_DO := "try_do"

  /** The listing holds the script admin/try_do, and no (package, script) pair twice. */
  predicate HasTryDo(entries: seq<Entry>) {
    Distinct(Scripts(Packages(entries))) && (ADMIN, TRY_DO) in Scripts(Packages(entries))
  }

  /** None of the other command scripts of the listing match the same shortcut. */
  ghost predicate OnlyTryDo(packageSpec: string, scriptSpec: string, entries: seq<Entry>) {
    forall d :: Selected(packageSpec, entries, ScriptMatchesOf(scriptSpec), d) ==> d == (ADMIN, TRY_DO)
  }

  lemma AdminLower()
    ensures Lower(ADMIN) == ADMIN
  {
    LowerUnchanged(ADMIN);
  }

  /** A spec whose names match admin/try_do locates it in any listing holding it in which no
      other script matches the same spec. */
  lemma TryDoSelection(spec: string, packageSpec: string, scriptSpec: string, entries: seq<Entry>)
    requires AdminSpec(spec) == Ok((packageSpec, scriptSpec))
    requires packageSpec <= ADMIN && ScriptMatches(scriptSpec, TRY_DO)
    requires HasTryDo(entries) && OnlyTryDo(packageSpec, scriptSpec, entries)
    ensures Perform(spec, entries) == Ok((ADMIN, TRY_DO))
  {
    var c := (ADMIN, TRY_DO);
    AdminLower();
    ScriptsMembers(Packages(entries), c);
    FilterMembers(entries, IsPackage);
    assert Selected(packageSpec, entries, ScriptMatchesOf(scriptSpec), c);
    PerformUnique(spec, entries, c);
  }

  lemma TryDoSegments()
    ensures Lower(TRY_DO) == TRY_DO && SplitOn(TRY_DO, '_') == ["try", "do"]
  {
    LowerUnchanged(TRY_DO);
    SplitOnJoin(["try", "do"], '_');
    assert Join(["try", "do"], "_") == TRY_DO;
  }

  /** A spec without '_' that starts segment `k` of the lower-cased name matches the name. */
  lemma SegmentMatch(scriptSpec: string, scriptName: string, k: nat)
    requires '_' !in scriptSpec
    requires k < |SplitOn(Lower(scriptName), '_')| && scriptSpec <= SplitOn(Lower(scriptName), '_')[k]
    ensures ScriptMatches(scriptSpec, scriptName)
  {
    assert SplitOn(Lower(scriptName), '_')[k] in SplitOn(Lower(scriptName), '_');
  }

  /** "admin/try_do", "ad/tr", "tr" and "do" all locate admin/try_do in a listing that holds it,
      as long as none of the other command scripts match the same shortcut. */
  lemma DocumentedShortcuts(entries: seq<Entry>)
    requires HasTryDo(entries)
    requires OnlyTryDo(ADMIN, TRY_DO, entries) && OnlyTryDo("ad", "tr", entries)
    requires OnlyTryDo("", "tr", entries) && OnlyTryDo("", "do", entries)
    ensures Perform(ADMIN + "/" + TRY_DO, entries) == Ok((ADMIN, TRY_DO))
    ensures Perform("ad" + "/" + "tr", entries) == Ok((ADMIN, TRY_DO))
    ensures Perform("tr", entries) == Ok((ADMIN, TRY_DO))
    ensures Perform("do", entries) == Ok((ADMIN, TRY_DO))
  {
    FullNameShortcut(entries);
    PrefixShortcut(entries);
    SegmentShortcut("tr", 0, entries);
    SegmentShortcut("do", 1, entries);
  }

  lemma FullNameShortcut(entries: seq<Entry>)
    requires HasTryDo(entries) && OnlyTryDo(ADMIN, TRY_DO, entries)
    ensures Perform(ADMIN + "/" + TRY_DO, entries) == Ok((ADMIN, TRY_DO))
  {
    TryDoSegments();
    AdminLower();
    PackageScriptSpec(ADMIN, TRY_DO);
    TryDoSelection(ADMIN + "/" + TRY_DO, ADMIN, TRY_DO, entries);
  }

  lemma PrefixShortcut(entries: seq<Entry>)
    requires HasTryDo(entries) && OnlyTryDo("ad", "tr", entries)
    ensures Perform("ad" + "/" + "tr", entries) == Ok((ADMIN, TRY_DO))
  {
    TryDoSegments();
    PackageScriptSpec("ad", "tr");
    LowerUnchanged("ad");
    LowerUnchanged("tr");
    SegmentMatch("tr", TRY_DO, 0);
    TryDoSelection("ad" + "/" + "tr", "ad", "tr", entries);
  }

  lemma SegmentShortcut(spec: string, k: nat, entries: seq<Entry>)
    requires (spec, k) == ("tr", 0) || (spec, k) == ("do", 1)
    requires HasTryDo(entries) && OnlyTryDo("", spec, entries)
    ensures Perform(spec, entries) == Ok((ADMIN, TRY_DO))
  {
    TryDoSegments();
    ScriptOnlySpec(spec);
    SegmentMatch(spec, TRY_DO, k);
    TryDoSelection(spec, "", spec, entries);
  }

  /** A listing whose only command script is admin/try_do.py. */
  const TRY_DO_LISTING := [Entry(ADMIN, true, Some([TRY_DO + ".py"]))]

  /** In that listing every spec selects at most admin/try_do, so the shortcuts apply to it. */
  lemma TryDoListing(packageSpec: string, scriptSpec: string)
    ensures Scripts(Packages(TRY_DO_LISTING)) == [(ADMIN, TRY_DO)]
    ensures HasTryDo(TRY_DO_LISTING) && OnlyTryDo(packageSpec, scriptSpec, TRY_DO_LISTING)
  {
    PyFileName(TRY_DO);
    var e := TRY_DO_LISTING[0];
    assert Packages(TRY_DO_LISTING) == [e];
    assert Filter([TRY_DO + ".py"], IsPy) == [TRY_DO + ".py"];
    assert PyStems([TRY_DO + ".py"]) == [TRY_DO];
    assert ScriptsIn(e) == [(ADMIN, TRY_DO)];
    forall d | Selected(packageSpec, TRY_DO_LISTING, ScriptMatchesOf(scriptSpec), d)
      ensures d == (ADMIN, TRY_DO)
    {
      assert Provides(e, d);
    }
  }

  // ---------- the command script and its argument parser ------------------------------------

  /** The argument types a `do()` parameter may declare. */
  datatype ArgType = StrType | IntType | FloatType

  /** A default value; a float is kept as the text `str()` gives for it. */
  datatype Value = StrValue(s: string) | IntValue(i: int) | FloatValue(text: string)

  /** A `do()` parameter: its name, the (type, help) annotation and its default, if any. */
  datatype Parameter = Parameter(name: string, argType: ArgType, help: string, default: Option<Value>)

  /** The inspected signature of a `do()` function. */
  datatype Signature = Signature(parameters: seq<Parameter>, returnAnnotation: string)

  /** An `add_argument` call: a positional argument, or an option with its default and metavar. */
  datatype Argument =
    | Positional(dest: string, argType: ArgType, help: string)
    | Optional(flag: string, default: Value, argType: ArgType, help: string, metavar: string)

  /** `type.__name__`. */
  function TypeName(t: ArgType): string {
    match t
    case StrType => "str"
    case IntType => "int"
    case FloatType => "float"
  }

  /** `"{}".format(value)`. */
  function Show(v: Value): string {
    match v
    case StrValue(s) => s
    case IntValue(i) => IntToString(i)
    case FloatValue(text) => text
  }

  /** The help text of an option: the annotation's help followed by the default. */
  function OptionHelp(help: string, default: Value): string {
    help + " (default: " + Show(default) + ")"
  }

  /** The parser argument for one parameter. */
  function ArgumentFor(p: Parameter): Argument {
    match p.default
    case None => Positional(p.name, p.argType, p.help)
    case Some(d) => Optional("--" + p.name, d, p.argType, OptionHelp(p.help, d), "<" + TypeName(p.argType) + ">")
  }

  function ArgumentsFor(parameters: seq<Parameter>): seq<Argument> {
    seq(|parameters|, i requires 0 <= i < |parameters| => ArgumentFor(parameters[i]))
  }

  /** The parameter an argument was made from: the option flag and help text lose what was added. */
  function ParameterOf(a: Argument): Parameter {
    match a
    case Positional(dest, t, help) => Parameter(dest, t, help, None)
    case Optional(flag, d, t, help, _) =>
      var extra := |" (default: " + Show(d) + ")"|;
      Parameter(if |flag| >= 2 then flag[2..] else flag, t, if extra <= |help| then help[..|help| - extra] else help, Some(d))
  }

  /** Each parameter yields one argument, positional iff it has no default, from which the parameter
      can be read back. */
  lemma ArgumentRoundTrip(p: Parameter)
    ensures ArgumentFor(p).Positional? <==> p.default.None?
    ensures ArgumentFor(p).Optional? ==> ArgumentFor(p).flag == "--" + p.name && ArgumentFor(p).default == p.default.value
    ensures ParameterOf(ArgumentFor(p)) == p
  {
    if p.default.Some? {
      var tail := " (default: " + Show(p.default.value) + ")";
      assert OptionHelp(p.help, p.default.value) == p.help + tail;
      assert (p.help + tail)[..|p.help|] == p.help;
      assert ("--" + p.name)[2..] == p.name;
    }
  }

  /** The part of `argparse.ArgumentParser` the command mechanism uses: the arguments added so far. */
  class ArgumentParser {
    var prog: string
    var description: string
    var arguments: seq<Argument>

    constructor(prog: string, description: string)
      ensures this.prog == prog && this.description == description && arguments == []
    {
      this.prog := prog;
      this.description := description;
      arguments := [];
    }

    /** `parser.add_argument(...)`. */
    method AddArgument(a: Argument)
      modifies this
      ensures arguments == old(arguments) + [a]
      ensures prog == old(prog) && description == old(description)
    {
      arguments := arguments + [a];
    }
  }

  /** A command script: its command name and the signature of its `do()` function. */
  class CommandScript {
    var name: string
    var signature: Signature

    constructor(packageName: string, scriptName: string, signature: Signature)
      ensures name == packageName + "/" + scriptName && this.signature == signature
    {
      name := packageName + "/" + scriptName;
      this.signature := signature;
    }

    /** `name()`: the package and script names joined by '/'. */
    function Name(): string
      reads this
    {
      name
    }

    /** `description()`: the return annotation of `do()`. */
    function Description(): string
      reads this
    {
      signature.returnAnnotation
    }

    /** The parser `performWithCommandLineArguments` builds: the command name as the first
        positional argument, then one argument per `do()` parameter, in order. */
    method BuildParser() returns (parser: ArgumentParser)
      ensures fresh(parser)
      ensures parser.prog == "pts" && parser.description == name + ": " + signature.returnAnnotation
      ensures parser.arguments == [Positional(name, StrType, "packagename/scriptname")] + ArgumentsFor(signature.parameters)
    {
      parser := new ArgumentParser("pts", name + ": " + signature.returnAnnotation);
      var first := Positional(name, StrType, "packagename/scriptname");
      parser.AddArgument(first);
      var parameters := signature.parameters;
      for i := 0 to |parameters|
        invariant parser.prog == "pts" && parser.description == name + ": " + signature.returnAnnotation
        invariant parser.arguments == [first] + ArgumentsFor(parameters[..i])
      {
        assert ArgumentsFor(parameters[..i + 1]) == ArgumentsFor(parameters[..i]) + [ArgumentFor(parameters[i])];
        parser.AddArgument(ArgumentFor(parameters[i]));
      }
      assert parameters[..|parameters|] == parameters;
    }

    /** `del args[self._name]`: the keyword arguments passed to `do()` are the parsed values
        without the command name. The parser always stores the command name, so it is present. */
    method DoArguments(parsed: map<string, Value>) returns (args: map<string, Value>)
      requires name in parsed
      ensures args.Keys == parsed.Keys - {name}
      ensures forall k :: k in args ==> args[k] == parsed[k]
    {
      args := parsed - {name};
    }
  }
}
