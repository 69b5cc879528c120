/** `pts.simulation.units`: turning SKIRT unit strings into astropy units. The astropy parser is
    not modelled: a parsed unit is identified by the text handed to `u.Unit`, and its latex form is
    a parameter. */
module Units {
  import opened Wrappers
  import opened PyStrings

  /** The unit astropy's `u.Unit(text)` parses from `text`. */
  datatype Unit = Unit(text: string)

  /** The "unit-like" inputs of `unit()`: a string, a quantity (with its unit), a unit, or anything else. */
  datatype UnitLike = UnitString(s: string) | QuantityOf(unit: Unit) | UnitObject(u: Unit) | OtherType

  datatype UnitError = UnsupportedType

  /** SKIRT's pressure unit K/m3 stands for k_B Pa. */
  const PRESSURE := "K/m3"
  const PRESSURE_EQUIVALENT := "1.3806488e-23 Pa"
  const ANGSTROM := "Angstrom"
  const LATEX_OPEN := "$\\,$["

  /** A '/'-segment that is exactly "A" means Angstrom. */
  function AngstromOf(segment: string): string {
    if segment == "A" then ANGSTROM else segment
  }

  function AngstromSegments(parts: seq<string>): (r: seq<string>)
    ensures |r| == |parts| && forall i :: 0 <= i < |parts| ==> r[i] == AngstromOf(parts[i])
  {
    seq(|parts|, i requires 0 <= i < |parts| => AngstromOf(parts[i]))
  }

  /** `unit()`'s rewriting of a unit string before it is parsed. */
  function UnitText(s: string): string {
    if s == PRESSURE then PRESSURE_EQUIVALENT
    else if 'A' in s then Join(AngstromSegments(SplitOn(s, '/')), "/")
    else s
  }

  lemma AngstromFacts()
    ensures '/' !in ANGSTROM && 'A' in ANGSTROM && ANGSTROM != "A"
  {
    assert ANGSTROM[0] == 'A';
  }

  lemma PressureFacts()
    ensures 'A' !in PRESSURE && 'A' !in PRESSURE_EQUIVALENT && PRESSURE_EQUIVALENT != PRESSURE
  {
  }

  /** With an 'A' in it (and not the pressure unit), the string keeps its '/'-segments, except
      that each segment "A" becomes "Angstrom": the segment count is unchanged. */
  lemma AngstromRewrite(s: string)
    requires s != PRESSURE && 'A' in s
    ensures SplitOn(UnitText(s), '/') == AngstromSegments(SplitOn(s, '/'))
    ensures |SplitOn(UnitText(s), '/')| == |SplitOn(s, '/')|
    ensures forall i :: 0 <= i < |SplitOn(s, '/')| ==>
      SplitOn(UnitText(s), '/')[i] == (if SplitOn(s, '/')[i] == "A" then ANGSTROM else SplitOn(s, '/')[i])
  {
    var parts := AngstromSegments(SplitOn(s, '/'));
    AngstromFacts();
    SplitOnJoin(parts, '/');
  }

  /** `c` occurs in a join iff it occurs in one of the parts or in a separator between two parts. */
  lemma {:induction false} JoinMember(parts: seq<string>, sep: string, c: char)
    ensures c in Join(parts, sep) <==> (exists i :: 0 <= i < |parts| && c in parts[i]) || (|parts| > 1 && c in sep)
  {
    if |parts| > 1 {
      JoinMember(parts[1..], sep, c);
      JoinCons(parts, sep);
      if exists i :: 0 <= i < |parts[1..]| && c in parts[1..][i] {
        var i :| 0 <= i < |parts[1..]| && c in parts[1..][i];
        assert c in parts[i + 1];
      }
      if exists i :: 0 <= i < |parts| && c in parts[i] {
        var i :| 0 <= i < |parts| && c in parts[i];
        if i > 0 {
          assert c in parts[1..][i - 1];
        }
      }
    }
  }

  /** Rewriting the segments keeps an 'A' in the string. */
  lemma AngstromKeepsA(s: string)
    requires s != PRESSURE && 'A' in s
    ensures 'A' in UnitText(s)
  {
    var raw := SplitOn(s, '/');
    var parts := AngstromSegments(raw);
    JoinSplitOn(s, '/');
    JoinMember(raw, "/", 'A');
    var i :| 0 <= i < |raw| && 'A' in raw[i];
    AngstromFacts();
    assert 'A' in parts[i];
    JoinMember(parts, "/", 'A');
  }

  /** Rewriting a unit string a second time changes nothing. */
  lemma UnitTextIdempotent(s: string)
    ensures UnitText(UnitText(s)) == UnitText(s)
  {
    PressureFacts();
    if s != PRESSURE && 'A' in s {
      var t := UnitText(s);
      AngstromKeepsA(s);
      AngstromRewrite(s);
      AngstromFacts();
      var parts := AngstromSegments(SplitOn(s, '/'));
      assert AngstromSegments(parts) == parts;
    }
  }

  /** `unit()`: the unit a unit-like input denotes. */
  function UnitOf(x: UnitLike): (r: Result<Unit, UnitError>)
    ensures r.Err? <==> x.OtherType?
    ensures x.UnitString? ==> r == Ok(Unit(UnitText(x.s)))
    ensures x.QuantityOf? ==> r == Ok(x.unit)
    ensures x.UnitObject? ==> r == Ok(x.u)
  {
    match x
    case UnitString(s) => Ok(Unit(UnitText(s)))
    case QuantityOf(unit) => Ok(unit)
    case UnitObject(u) => Ok(u)
    case OtherType => Err(UnsupportedType)
  }

  /** `latex()`: the latex form of the unit, in square brackets after a short space. */
  function Latex(x: UnitLike, toLatex: Unit -> string): (r: Result<string, UnitError>)
    ensures r.Err? <==> x.OtherType?
    ensures r.Ok? ==> LATEX_OPEN <= r.value && EndsWith(r.value, "]") && |r.value| > |LATEX_OPEN|
    ensures r.Ok? ==> r.value[|LATEX_OPEN|..|r.value| - 1] == toLatex(UnitOf(x).value)
  {
    var unit :- UnitOf(x);
    Ok(LATEX_OPEN + toLatex(unit) + "]")
  }
}
