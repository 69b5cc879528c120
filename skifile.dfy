/** `pts.simulation.skifile`: reading and adjusting the attributes of a SKIRT parameter (ski) file.
    The XML document is a sequence of elements with their attribute maps, the root first; the XPath
    evaluator of lxml is a parameter that maps the document and an expression to the selected nodes. */
module SkiFiles {
  import opened Wrappers
  import opened PyStrings

  /** An XML element: its tag and its attributes. */
  datatype Element = Element(tag: string, attrs: map<string, string>)

  /** A node returned by the XPath evaluator: the element at an index of the document, or any other
      kind of result (text, an attribute value, a number). */
  datatype Item = ElementAt(index: nat) | Other

  /** The XPath evaluator. */
  type Selector = (seq<Element>, string) -> seq<Item>

  /** A value handed to `setStringAttribute`: a string or an object of another type. */
  datatype AttrValue = Str(s: string) | NonStr

  /** The ValueErrors raised by the ski-file functions (and by `int()`/`float()` on the text). */
  datatype SkiError =
    | InvalidFilename
    | NoElement
    | MultipleElements
    | NonElement
    | NoAttribute
    | NotAString
    | NotAnInteger
    | NotANumber

  const PRODUCER := "Python toolkit for SKIRT (SkiFile class)"

  // ---------- file names ------------------------------------------------------------------

  /** The constructor accepts names ending, in any letter case, in ".ski" or "_parameters.xml". */
  predicate OpenName(name: string) {
    EndsWith(Lower(name), ".ski") || EndsWith(Lower(name), "_parameters.xml")
  }

  /** `saveTo` accepts only names ending, in any letter case, in ".ski". */
  predicate SaveName(name: string) {
    EndsWith(Lower(name), ".ski")
  }

  /** A name that can be saved can be opened again; a "_parameters.xml" name can be opened but not saved. */
  lemma SaveNames(name: string)
    ensures SaveName(name) ==> OpenName(name)
    ensures EndsWith(Lower(name), "_parameters.xml") ==> OpenName(name) && !SaveName(name)
  {
    var low := Lower(name);
    EndsWithLast(low, "_parameters.xml");
    EndsWithLast(low, ".ski");
    assert "_parameters.xml"[14] == 'l' && ".ski"[3] == 'i';
  }

  lemma EndsWithLast(s: string, suffix: string)
    requires |suffix| > 0
    ensures EndsWith(s, suffix) ==> s[|s| - 1] == suffix[|suffix| - 1]
  {
    if EndsWith(s, suffix) {
      assert s[|s| - |suffix|..][|suffix| - 1] == s[|s| - 1];
    }
  }

  // ---------- the generic functions ---------------------------------------------------------

  /** The index of the one element an XPath expression selects. */
  function Select(sel: Selector, nodes: seq<Element>, xpath: string): (r: Result<nat, SkiError>)
    ensures r.Ok? <==> |sel(nodes, xpath)| == 1 && sel(nodes, xpath)[0].ElementAt? && sel(nodes, xpath)[0].index < |nodes|
    ensures r.Ok? ==> sel(nodes, xpath) == [ElementAt(r.value)] && r.value < |nodes|
    ensures r == Err(NoElement) <==> |sel(nodes, xpath)| == 0
    ensures r == Err(MultipleElements) <==> |sel(nodes, xpath)| > 1
    ensures r.Err? ==> r.error in {NoElement, MultipleElements, NonElement}
  {
    var items := sel(nodes, xpath);
    if |items| == 0 then Err(NoElement)
    else if |items| > 1 then Err(MultipleElements)
    else
      match items[0]
      case ElementAt(i) => if i < |nodes| then Ok(i) else Err(NonElement)
      case Other => Err(NonElement)
  }

  /** `getStringAttribute`: the attribute of the one selected element. */
  function GetString(sel: Selector, nodes: seq<Element>, xpath: string, attribute: string): (r: Result<string, SkiError>)
    ensures Select(sel, nodes, xpath).Err? ==> r == Err(Select(sel, nodes, xpath).error)
    ensures r.Ok? <==> Select(sel, nodes, xpath).Ok? && attribute in nodes[Select(sel, nodes, xpath).value].attrs
    ensures r.Ok? ==> r.value == nodes[Select(sel, nodes, xpath).value].attrs[attribute]
    ensures r.Err? ==> r.error != NotAString
  {
    var i :- Select(sel, nodes, xpath);
    if attribute in nodes[i].attrs then Ok(nodes[i].attrs[attribute]) else Err(NoAttribute)
  }

  /** `elem.set(attribute, value)` on the element at index `i`: the attribute is added or replaced,
      and nothing else in the document changes. */
  function SetAttr(nodes: seq<Element>, i: nat, attribute: string, value: string): (r: seq<Element>)
    requires i < |nodes|
    ensures |r| == |nodes| && r[i].tag == nodes[i].tag
    ensures r[i].attrs.Keys == nodes[i].attrs.Keys + {attribute} && r[i].attrs[attribute] == value
    ensures forall a :: a in nodes[i].attrs && a != attribute ==> r[i].attrs[a] == nodes[i].attrs[a]
    ensures forall j :: 0 <= j < |nodes| && j != i ==> r[j] == nodes[j]
  {
    nodes[i := Element(nodes[i].tag, nodes[i].attrs[attribute := value])]
  }

  /** `setStringAttribute`: the document after the update, or the error raised. The selection is
      checked before the type of the value. */
  function SetString(sel: Selector, nodes: seq<Element>, xpath: string, attribute: string, value: AttrValue): (r: Result<seq<Element>, SkiError>)
    ensures Select(sel, nodes, xpath).Err? ==> r == Err(Select(sel, nodes, xpath).error)
    ensures Select(sel, nodes, xpath).Ok? && value.NonStr? ==> r == Err(NotAString)
    ensures r.Ok? <==> Select(sel, nodes, xpath).Ok? && value.Str?
    ensures r.Ok? ==> r.value == SetAttr(nodes, Select(sel, nodes, xpath).value, attribute, value.s)
  {
    var i :- Select(sel, nodes, xpath);
    match value
    case Str(s) => Ok(SetAttr(nodes, i, attribute, s))
    case NonStr => Err(NotAString)
  }

  /** Reading back the attribute just set gives the value set, when the update does not change what
      the expression selects. */
  lemma SetThenGet(sel: Selector, nodes: seq<Element>, xpath: string, attribute: string, value: string)
    requires SetString(sel, nodes, xpath, attribute, Str(value)).Ok?
    requires sel(SetString(sel, nodes, xpath, attribute, Str(value)).value, xpath) == sel(nodes, xpath)
    ensures GetString(sel, SetString(sel, nodes, xpath, attribute, Str(value)).value, xpath, attribute) == Ok(value)
  {
    var after := SetString(sel, nodes, xpath, attribute, Str(value)).value;
    assert Select(sel, after, xpath) == Select(sel, nodes, xpath);
  }

  /** Any other attribute, of the same element or of another one, reads as before the update, when
      the update does not change what the expressions select. */
  lemma SetKeepsOthers(sel: Selector, nodes: seq<Element>, xpath: string, attribute: string, value: string, xpath2: string, attribute2: string)
    requires SetString(sel, nodes, xpath, attribute, Str(value)).Ok?
    requires sel(SetString(sel, nodes, xpath, attribute, Str(value)).value, xpath2) == sel(nodes, xpath2)
    requires Select(sel, nodes, xpath2) != Select(sel, nodes, xpath) || attribute2 != attribute
    ensures GetString(sel, SetString(sel, nodes, xpath, attribute, Str(value)).value, xpath2, attribute2)
         == GetString(sel, nodes, xpath2, attribute2)
  {
    var after := SetString(sel, nodes, xpath, attribute, Str(value)).value;
    assert |after| == |nodes|;
    assert Select(sel, after, xpath2) == Select(sel, nodes, xpath2);
  }

  // ---------- typed attributes --------------------------------------------------------------

  /** `setFloatAttribute`'s first rewriting of the text: no leading zero and no plus sign in the
      exponent. */
  function Unpadded(formatted: string): string {
    Replace(Replace(Replace(formatted, "e-0", "e-"), "e+0", "e"), "e+", "e")
  }

  /** `setFloatAttribute`'s rewriting of the text `"{:1.10g}".format(value)`: after `Unpadded`,
      four or more trailing zeros become an exponent. */
  function FloatText(formatted: string): string {
    var s := Unpadded(formatted);
    var zeros := TrailingZeros(s);
    if zeros > 3 then s[..|s| - zeros] + "e" + NatToString(zeros) else s
  }

  /** The number of '0' characters the text ends in. */
  function TrailingZeros(s: string): (k: nat)
    ensures k <= |s|
  {
    |s| - |RStripChar(s, '0')|
  }

  lemma TrailingZerosSpec(s: string)
    ensures forall i :: |s| - TrailingZeros(s) <= i < |s| ==> s[i] == '0'
    ensures TrailingZeros(s) < |s| ==> s[|s| - 1 - TrailingZeros(s)] != '0'
  {
    RStripCharSpec(s, '0');
  }

  /** Text ending in a part that does not start with '0' has no more trailing zeros than that part. */
  lemma TrailingZerosOfTail(a: string, b: string)
    requires |b| > 0 && b[0] != '0'
    ensures TrailingZeros(a + b) == TrailingZeros(b) < |b|
  {
    RStripCharConcat(a, b, '0');
    RStripCharSpec(b, '0');
  }

  /** Text without an exponent keeps up to three trailing zeros and trades more for an exponent. */
  lemma FloatTextPlain(s: string)
    requires 'e' !in s
    ensures TrailingZeros(s) <= 3 ==> FloatText(s) == s
    ensures TrailingZeros(s) > 3 ==> FloatText(s) == s[..|s| - TrailingZeros(s)] + "e" + NatToString(TrailingZeros(s))
  {
    ReplaceNone(s, "e-0", "e-");
    ReplaceNone(s, "e+0", "e");
    ReplaceNone(s, "e+", "e");
  }

  /** For a whole number printed in full, the exponent form has the same value. */
  lemma FloatTextInteger(s: string)
    requires IsDigits(s) && TrailingZeros(s) > 3
    ensures var k := TrailingZeros(s);
      && FloatText(s) == s[..|s| - k] + "e" + NatToString(k)
      && DigitsValue(s) == DigitsValue(s[..|s| - k]) * Pow10(k)
  {
    NoExponentMark(s);
    FloatTextPlain(s);
    TrailingZerosSpec(s);
    DigitsTrailingZeros(s, TrailingZeros(s));
  }

  /** The exponent digits as printed: one to three digits, the first not zero. */
  predicate ExponentDigits(d: string) {
    IsDigits(d) && |d| <= 3 && d[0] != '0'
  }

  lemma NoExponentMark(d: string)
    requires IsDigits(d)
    ensures 'e' !in d
  {
    forall i | 0 <= i < |d|
      ensures d[i] != 'e'
    {
      assert IsDigit(d[i]);
    }
  }

  /** The one occurrence of the pattern, after a prefix free of its first character, is replaced. */
  lemma ReplaceAt(m: string, pat: string, rep: string, d: string)
    requires |pat| > 0 && pat[0] !in m && pat[0] !in d
    ensures Replace(m + (pat + d), pat, rep) == m + (rep + d)
  {
    ReplaceSkip(m, pat + d, pat, rep);
    ReplaceMatch(d, pat, rep);
    ReplaceNone(d, pat, rep);
  }

  /** A text whose only occurrence of the pattern's first character starts no occurrence is unchanged. */
  lemma ReplaceNotAt(m: string, t: string, pat: string, rep: string, i: nat)
    requires |pat| > 0 && pat[0] !in m && |t| > 0 && pat[0] !in t[1..]
    requires i < |pat| && i < |t| && pat[i] != t[i]
    ensures Replace(m + t, pat, rep) == m + t
  {
    ReplaceSkip(m, t, pat, rep);
    assert t == [t[0]] + t[1..];
    assert |pat| <= |t| ==> t[..|pat|][i] == t[i];
    ReplaceMismatch(t[0], t[1..], pat, rep);
    ReplaceNone(t[1..], pat, rep);
  }

  /** When the text has no more than three trailing zeros after `Unpadded`, it is final. */
  lemma FloatTextShort(formatted: string, s: string)
    requires Unpadded(formatted) == s && TrailingZeros(s) <= 3
    ensures FloatText(formatted) == s
  {
  }

  /** "e-0d" loses the zero. */
  lemma FloatTextNegativeShort(m: string, d: string)
    requires 'e' !in m && ExponentDigits(d)
    ensures FloatText(m + "e-0" + d) == m + "e-" + d
  {
    NoExponentMark(d);
    var t := "e-" + d;
    assert t[1..] == "-" + d && t[1] == '-';
    assert m + "e-0" + d == m + ("e-0" + d);
    ReplaceAt(m, "e-0", "e-", d);
    ReplaceNotAt(m, t, "e+0", "e", 1);
    ReplaceNotAt(m, t, "e+", "e", 1);
    assert m + t == (m + "e-") + d;
    TrailingZerosOfTail(m + "e-", d);
    FloatTextShort(m + "e-0" + d, m + t);
  }

  /** "e-dd" is kept. */
  lemma FloatTextNegativeLong(m: string, d: string)
    requires 'e' !in m && ExponentDigits(d)
    ensures FloatText(m + "e-" + d) == m + "e-" + d
  {
    NoExponentMark(d);
    var t := "e-" + d;
    assert t[1..] == "-" + d && t[1] == '-' && t[2] == d[0];
    assert m + "e-" + d == m + t;
    ReplaceNotAt(m, t, "e-0", "e-", 2);
    ReplaceNotAt(m, t, "e+0", "e", 1);
    ReplaceNotAt(m, t, "e+", "e", 1);
    assert m + t == (m + "e-") + d;
    TrailingZerosOfTail(m + "e-", d);
    FloatTextShort(m + "e-" + d, m + t);
  }

  /** "e+0d" becomes "ed". */
  lemma FloatTextPositiveShort(m: string, d: string)
    requires 'e' !in m && ExponentDigits(d)
    ensures FloatText(m + "e+0" + d) == m + "e" + d
  {
    NoExponentMark(d);
    var t0 := "e+0" + d;
    assert t0[1..] == "+0" + d && t0[1] == '+';
    assert m + "e+0" + d == m + t0;
    ReplaceNotAt(m, t0, "e-0", "e-", 1);
    ReplaceAt(m, "e+0", "e", d);
    var t := "e" + d;
    assert t[1..] == d && t[1] == d[0];
    ReplaceNotAt(m, t, "e+", "e", 1);
    assert m + t == (m + "e") + d;
    TrailingZerosOfTail(m + "e", d);
    FloatTextShort(m + "e+0" + d, m + t);
  }

  /** "e+dd" becomes "edd". */
  lemma FloatTextPositiveLong(m: string, d: string)
    requires 'e' !in m && ExponentDigits(d)
    ensures FloatText(m + "e+" + d) == m + "e" + d
  {
    NoExponentMark(d);
    var t0 := "e+" + d;
    assert t0[1..] == "+" + d && t0[1] == '+' && t0[2] == d[0];
    assert m + "e+" + d == m + t0;
    ReplaceNotAt(m, t0, "e-0", "e-", 1);
    ReplaceNotAt(m, t0, "e+0", "e", 2);
    ReplaceAt(m, "e+", "e", d);
    var t := "e" + d;
    assert m + t == (m + "e") + d;
    TrailingZerosOfTail(m + "e", d);
    FloatTextShort(m + "e+" + d, m + t);
  }

  /** `getFloatAttribute`: `float()` of the attribute text, with the conversion as a parameter. */
  function GetFloat(sel: Selector, nodes: seq<Element>, xpath: string, attribute: string, toFloat: string -> Option<real>): (r: Result<real, SkiError>)
    ensures GetString(sel, nodes, xpath, attribute).Err? ==> r == Err(GetString(sel, nodes, xpath, attribute).error)
    ensures r.Ok? <==> GetString(sel, nodes, xpath, attribute).Ok? && toFloat(GetString(sel, nodes, xpath, attribute).value).Some?
    ensures r.Ok? ==> Some(r.value) == toFloat(GetString(sel, nodes, xpath, attribute).value)
  {
    var text :- GetString(sel, nodes, xpath, attribute);
    match toFloat(text)
    case Some(x) => Ok(x)
    case None => Err(NotANumber)
  }

  /** `getIntAttribute`: `int()` of the attribute text. */
  function GetInt(sel: Selector, nodes: seq<Element>, xpath: string, attribute: string): (r: Result<int, SkiError>)
    ensures GetString(sel, nodes, xpath, attribute).Err? ==> r == Err(GetString(sel, nodes, xpath, attribute).error)
    ensures r.Ok? <==> GetString(sel, nodes, xpath, attribute).Ok? && ParseInt(GetString(sel, nodes, xpath, attribute).value).Some?
    ensures r.Ok? ==> Some(r.value) == ParseInt(GetString(sel, nodes, xpath, attribute).value)
  {
    var text :- GetString(sel, nodes, xpath, attribute);
    match ParseInt(text)
    case Some(n) => Ok(n)
    case None => Err(NotAnInteger)
  }

  /** Reading back an integer just set gives that integer. */
  lemma SetIntThenGet(sel: Selector, nodes: seq<Element>, xpath: string, attribute: string, n: int)
    requires SetString(sel, nodes, xpath, attribute, Str(IntToString(n))).Ok?
    requires sel(SetString(sel, nodes, xpath, attribute, Str(IntToString(n))).value, xpath) == sel(nodes, xpath)
    ensures GetInt(sel, SetString(sel, nodes, xpath, attribute, Str(IntToString(n))).value, xpath, attribute) == Ok(n)
  {
    SetThenGet(sel, nodes, xpath, attribute, IntToString(n));
    IntRoundTrip(n);
  }

  /** `getBoolAttribute`'s reading of the text. */
  predicate TrueText(text: string) {
    var v := Lower(Strip(text));
    v == "true" || v == "t" || v == "yes" || v == "y" || v == "1"
  }

  /** `setBoolAttribute`'s text. */
  function BoolText(b: bool): (r: string)
    ensures TrueText(r) == b
  {
    var r := if b then "true" else "false";
    StripUnchanged(r);
    LowerUnchanged(r);
    r
  }

  /** `getBoolAttribute`: true exactly for the listed words after stripping and lower-casing. */
  function GetBool(sel: Selector, nodes: seq<Element>, xpath: string, attribute: string): (r: Result<bool, SkiError>)
    ensures r.Ok? <==> GetString(sel, nodes, xpath, attribute).Ok?
    ensures r.Err? ==> r.error == GetString(sel, nodes, xpath, attribute).error
    ensures r.Ok? ==> (r.value <==> TrueText(GetString(sel, nodes, xpath, attribute).value))
  {
    var text :- GetString(sel, nodes, xpath, attribute);
    Ok(TrueText(text))
  }

  /** Reading back a Boolean just set gives that Boolean. */
  lemma SetBoolThenGet(sel: Selector, nodes: seq<Element>, xpath: string, attribute: string, b: bool)
    requires SetString(sel, nodes, xpath, attribute, Str(BoolText(b))).Ok?
    requires sel(SetString(sel, nodes, xpath, attribute, Str(BoolText(b))).value, xpath) == sel(nodes, xpath)
    ensures GetBool(sel, SetString(sel, nodes, xpath, attribute, Str(BoolText(b))).value, xpath, attribute) == Ok(b)
  {
    SetThenGet(sel, nodes, xpath, attribute, BoolText(b));
  }

  const SIMULATION := "//MonteCarloSimulation"
  const NUM_PACKETS := "numPackets"

  // ---------- the ski file object -----------------------------------------------------------

  /** A loaded ski file: its path and its (possibly updated) document. */
  class SkiFile {
    var path: string
    var nodes: seq<Element>

    /** A parsed XML document has a root element, which comes first. */
    ghost predicate Valid()
      reads this
    {
      |nodes| > 0
    }

    constructor Load(path: string, tree: seq<Element>)
      requires |tree| > 0
      ensures Valid() && this.path == path && nodes == tree
    {
      this.path := path;
      nodes := tree;
    }

    /** The constructor: rejects a name that is not a ski file name, otherwise holds the parsed tree. */
    static method Open(name: string, tree: seq<Element>) returns (r: Result<SkiFile, SkiError>)
      requires |tree| > 0
      ensures r.Ok? <==> OpenName(name)
      ensures r.Err? ==> r.error == InvalidFilename
      ensures r.Ok? ==> fresh(r.value) && r.value.Valid() && r.value.path == name && r.value.nodes == tree
    {
      if !OpenName(name) {
        return Err(InvalidFilename);
      }
      var f := new SkiFile.Load(name, tree);
      return Ok(f);
    }

    function SkiFilePath(): string
      reads this
    {
      path
    }

    /** `saveTo`: rejects a name that does not end in ".ski"; otherwise stamps the root element with
        the producer and the time (given as formatted text) and writes the document to `name`. */
    method SaveTo(name: string, now: string) returns (r: Outcome<SkiError>)
      requires Valid()
      modifies this
      ensures Valid() && path == old(path)
      ensures r == Pass <==> SaveName(name)
      ensures r.Fail? ==> r.error == InvalidFilename && nodes == old(nodes)
      ensures r == Pass ==> nodes == SetAttr(SetAttr(old(nodes), 0, "producer", PRODUCER), 0, "time", now)
    {
      if !SaveName(name) {
        return Fail(InvalidFilename);
      }
      nodes := SetAttr(SetAttr(nodes, 0, "producer", PRODUCER), 0, "time", now);
      return Pass;
    }

    function GetStringAttribute(sel: Selector, xpath: string, attribute: string): Result<string, SkiError>
      reads this
    {
      GetString(sel, nodes, xpath, attribute)
    }

    /** `setStringAttribute`: the document becomes the updated one, or stays as it was on an error. */
    method SetStringAttribute(sel: Selector, xpath: string, attribute: string, value: AttrValue) returns (r: Outcome<SkiError>)
      requires Valid()
      modifies this
      ensures Valid() && path == old(path)
      ensures var u := SetString(sel, old(nodes), xpath, attribute, value);
        && (u.Ok? ==> r == Pass && nodes == u.value)
        && (u.Err? ==> r == Fail(u.error) && nodes == old(nodes))
    {
      var u := SetString(sel, nodes, xpath, attribute, value);
      match u
      case Ok(after) =>
        nodes := after;
        r := Pass;
      case Err(e) =>
        r := Fail(e);
    }

    function GetFloatAttribute(sel: Selector, xpath: string, attribute: string, toFloat: string -> Option<real>): Result<real, SkiError>
      reads this
    {
      GetFloat(sel, nodes, xpath, attribute, toFloat)
    }

    /** `setFloatAttribute`, given the text `"{:1.10g}".format(float(value))`. */
    method SetFloatAttribute(sel: Selector, xpath: string, attribute: string, formatted: string) returns (r: Outcome<SkiError>)
      requires Valid()
      modifies this
      ensures Valid() && path == old(path)
      ensures var u := SetString(sel, old(nodes), xpath, attribute, Str(FloatText(formatted)));
        && (u.Ok? ==> r == Pass && nodes == u.value)
        && (u.Err? ==> r == Fail(u.error) && nodes == old(nodes))
    {
      r := SetStringAttribute(sel, xpath, attribute, Str(FloatText(formatted)));
    }

    function GetIntAttribute(sel: Selector, xpath: string, attribute: string): Result<int, SkiError>
      reads this
    {
      GetInt(sel, nodes, xpath, attribute)
    }

    /** `setIntAttribute`: writes `str(n)`. */
    method SetIntAttribute(sel: Selector, xpath: string, attribute: string, n: int) returns (r: Outcome<SkiError>)
      requires Valid()
      modifies this
      ensures Valid() && path == old(path)
      ensures var u := SetString(sel, old(nodes), xpath, attribute, Str(IntToString(n)));
        && (u.Ok? ==> r == Pass && nodes == u.value)
        && (u.Err? ==> r == Fail(u.error) && nodes == old(nodes))
      ensures r == Pass && sel(nodes, xpath) == sel(old(nodes), xpath) ==> GetIntAttribute(sel, xpath, attribute) == Ok(n)
    {
      r := SetStringAttribute(sel, xpath, attribute, Str(IntToString(n)));
      if r == Pass && sel(nodes, xpath) == sel(old(nodes), xpath) {
        SetIntThenGet(sel, old(nodes), xpath, attribute, n);
      }
    }

    function GetBoolAttribute(sel: Selector, xpath: string, attribute: string): Result<bool, SkiError>
      reads this
    {
      GetBool(sel, nodes, xpath, attribute)
    }

    /** `setBoolAttribute`: writes "true" or "false". */
    method SetBoolAttribute(sel: Selector, xpath: string, attribute: string, b: bool) returns (r: Outcome<SkiError>)
      requires Valid()
      modifies this
      ensures Valid() && path == old(path)
      ensures var u := SetString(sel, old(nodes), xpath, attribute, Str(BoolText(b)));
        && (u.Ok? ==> r == Pass && nodes == u.value)
        && (u.Err? ==> r == Fail(u.error) && nodes == old(nodes))
      ensures r == Pass && sel(nodes, xpath) == sel(old(nodes), xpath) ==> GetBoolAttribute(sel, xpath, attribute) == Ok(b)
    {
      r := SetStringAttribute(sel, xpath, attribute, Str(BoolText(b)));
      if r == Pass && sel(nodes, xpath) == sel(old(nodes), xpath) {
        SetBoolThenGet(sel, old(nodes), xpath, attribute, b);
      }
    }

    /** `numPrimaryPackets`: the float `numPackets` attribute of the MonteCarloSimulation element. */
    function NumPrimaryPackets(sel: Selector, toFloat: string -> Option<real>): Result<real, SkiError>
      reads this
    {
      GetFloat(sel, nodes, SIMULATION, NUM_PACKETS, toFloat)
    }

    /** `setNumPrimaryPackets`. */
    method SetNumPrimaryPackets(sel: Selector, formatted: string) returns (r: Outcome<SkiError>)
      requires Valid()
      modifies this
      ensures Valid() && path == old(path)
      ensures var u := SetString(sel, old(nodes), SIMULATION, NUM_PACKETS, Str(FloatText(formatted)));
        && (u.Ok? ==> r == Pass && nodes == u.value)
        && (u.Err? ==> r == Fail(u.error) && nodes == old(nodes))
    {
      r := SetFloatAttribute(sel, SIMULATION, NUM_PACKETS, formatted);
    }
  }
}
