/** `pts.simulation.text.getQuantityFromFile`: locating a value in a SKIRT text output file (a log
    file or a convergence report) by a sequence of sub-triggers and a header. The file is given as
    its sequence of lines, and Python's `float()` as a parameter. */
module Text {
  import opened Wrappers
  import opened PyStrings
  import Units

  /** A value with the unit that `units.unit()` makes of the unit string. */
  datatype Quantity = Quantity(value: real, unit: Units.Unit)

  datatype TextError =
    | QuantityNotFound  // "Quantity ... not found in text file"
    | NotANumber        // `float()` of the value segment raised

  /** `su.unit(text)` for a unit string. */
  function UnitFromText(text: string): Units.Unit {
    Units.Unit(Units.UnitText(text))
  }

  /** The line without its final parenthesised section: when the stripped line ends in ')',
      everything from the last '(' on is cut. Without any '(' the slice `line[:-1]` drops just the
      last character. */
  function Trimmed(line: string): (r: string)
    ensures r <= line
    ensures EndsWith(Strip(line), ")") ==> |r| < |line|
    ensures EndsWith(Strip(line), ")") && '(' in line ==> |r| < |line| && line[|r|] == '(' && '(' !in line[|r| + 1..]
    ensures EndsWith(Strip(line), ")") && '(' !in line ==> |r| == |line| - 1
    ensures !EndsWith(Strip(line), ")") ==> r == line
  {
    if EndsWith(Strip(line), ")") then
      StripSpec(line);
      var k := RFind(line, '(');
      RFindLast(line, '(');
      if k >= 0 then line[..k] else line[..|line| - 1]
    else line
  }

  /** What a header line yields: nothing (the line has fewer than two segments and the scan goes
      on), the last segment as a dimensionless number, or else the second-to-last segment as the
      value with the last one as its unit; a value that is no number raises. */
  function LineQuantity(line: string, toFloat: string -> Option<real>): (r: Option<Result<Quantity, TextError>>)
    ensures r.Some? ==> r.value != Err(QuantityNotFound)
  {
    var segments := Words(Trimmed(line));
    if |segments| < 2 then None
    else
      var last := segments[|segments| - 1];
      match toFloat(last)
      case Some(x) => Some(Ok(Quantity(x, UnitFromText(""))))
      case None =>
        match toFloat(segments[|segments| - 2])
        case Some(v) => Some(Ok(Quantity(v, UnitFromText(last))))
        case None => Some(Err(NotANumber))
  }

  /** A header line with fewer than two segments is skipped; otherwise a last segment that is a
      number is a dimensionless value, and else the second-to-last segment is the value and the
      last one its unit. */
  lemma LineQuantitySpec(line: string, toFloat: string -> Option<real>)
    ensures var segments := Words(Trimmed(line));
      var r := LineQuantity(line, toFloat);
      && (r.None? <==> |segments| < 2)
      && (r.Some? && toFloat(segments[|segments| - 1]).Some? ==>
            r.value == Ok(Quantity(toFloat(segments[|segments| - 1]).value, UnitFromText(""))))
      && (r.Some? && toFloat(segments[|segments| - 1]).None? ==>
            match toFloat(segments[|segments| - 2])
            case Some(v) => r.value == Ok(Quantity(v, UnitFromText(segments[|segments| - 1])))
            case None => r.value == Err(NotANumber))
  {
  }

  /** The number of sub-triggers satisfied after reading `lines`: a line advances the count by one
      when it contains the next sub-trigger. */
  function Triggered(lines: seq<string>, triggers: seq<string>): (t: nat)
    ensures t <= |triggers| && t <= |lines|
  {
    if |lines| == 0 then 0
    else
      var t := Triggered(lines[..|lines| - 1], triggers);
      if t < |triggers| && Contains(lines[|lines| - 1], triggers[t]) then t + 1 else t
  }

  /** Line `j` is taken: all sub-triggers were satisfied on earlier lines, the line contains the
      header, and it has at least two segments. */
  predicate Qualifies(lines: seq<string>, triggers: seq<string>, header: string, toFloat: string -> Option<real>, j: nat) {
    && j < |lines|
    && Triggered(lines[..j], triggers) == |triggers|
    && Contains(lines[j], header)
    && LineQuantity(lines[j], toFloat).Some?
  }

  /** Where the search for sub-trigger `t` starts: after the line that met sub-trigger `t - 1`. */
  function Start(p: seq<nat>, t: nat): nat
    requires t <= |p|
  {
    if t == 0 then 0 else p[t - 1] + 1
  }

  /** `p` lists, in increasing order, the lines that met the first `|p|` sub-triggers, each the first
      line after the previous match that contains its sub-trigger; and the next sub-trigger occurs
      on no line after the last match. */
  predicate Greedy(lines: seq<string>, triggers: seq<string>, p: seq<nat>) {
    && |p| <= |triggers|
    && (forall t :: 0 <= t < |p| ==> p[t] < |lines| && Contains(lines[p[t]], triggers[t]))
    && (forall t :: 0 < t < |p| ==> p[t - 1] < p[t])
    && (forall t, i :: 0 <= t < |p| && Start(p, t) <= i < p[t] ==> !Contains(lines[i], triggers[t]))
    && (|p| < |triggers| ==> forall i :: Start(p, |p|) <= i < |lines| ==> !Contains(lines[i], triggers[|p|]))
  }

  /** One more line meeting the next sub-trigger extends the matches by that line. */
  lemma GreedyMatch(lines: seq<string>, triggers: seq<string>, q: seq<nat>)
    requires |lines| > 0 && Greedy(lines[..|lines| - 1], triggers, q)
    requires |q| < |triggers| && Contains(lines[|lines| - 1], triggers[|q|])
    ensures Greedy(lines, triggers, q + [|lines| - 1])
  {
    var n := |lines| - 1;
    var init := lines[..n];
    var p := q + [n];
    assert forall t :: 0 <= t < |q| ==> p[t] == q[t];
    assert forall t :: 0 <= t <= |q| ==> Start(p, t) == Start(q, t);
    forall t | 0 <= t < |p|
      ensures p[t] < |lines| && Contains(lines[p[t]], triggers[t])
    {
      if t < |q| {
        assert init[q[t]] == lines[q[t]];
      }
    }
    forall t | 0 < t < |p|
      ensures p[t - 1] < p[t]
    {
      if t == |q| {
        assert p[t - 1] == q[t - 1] < n;
      }
    }
    forall t, i | 0 <= t < |p| && Start(p, t) <= i < p[t]
      ensures !Contains(lines[i], triggers[t])
    {
      assert init[i] == lines[i];
    }
    assert Start(p, |p|) == |lines|;
  }

  /** One more line not meeting the next sub-trigger leaves the matches as they are. */
  lemma GreedyNoMatch(lines: seq<string>, triggers: seq<string>, q: seq<nat>)
    requires |lines| > 0 && Greedy(lines[..|lines| - 1], triggers, q)
    requires !(|q| < |triggers| && Contains(lines[|lines| - 1], triggers[|q|]))
    ensures Greedy(lines, triggers, q)
  {
    var n := |lines| - 1;
    var init := lines[..n];
    forall t | 0 <= t < |q|
      ensures q[t] < |lines| && Contains(lines[q[t]], triggers[t])
    {
      assert init[q[t]] == lines[q[t]];
    }
    forall t, i | 0 <= t < |q| && Start(q, t) <= i < q[t]
      ensures !Contains(lines[i], triggers[t])
    {
      assert init[i] == lines[i];
    }
    if |q| < |triggers| {
      forall i | Start(q, |q|) <= i < |lines|
        ensures !Contains(lines[i], triggers[|q|])
      {
        if i < n {
          assert init[i] == lines[i];
        }
      }
    }
  }

  /** The sub-triggers are matched greedily and in order, one per line at most: `Triggered` counts
      the greedy matches. */
  lemma {:induction false} TriggerPositions(lines: seq<string>, triggers: seq<string>) returns (p: seq<nat>)
    ensures |p| == Triggered(lines, triggers) && Greedy(lines, triggers, p)
  {
    if |lines| == 0 {
      p := [];
    } else {
      var q := TriggerPositions(lines[..|lines| - 1], triggers);
      if |q| < |triggers| && Contains(lines[|lines| - 1], triggers[|q|]) {
        GreedyMatch(lines, triggers, q);
        p := q + [|lines| - 1];
      } else {
        GreedyNoMatch(lines, triggers, q);
        p := q;
      }
    }
  }

  /** The line that meets the last sub-trigger is never the header line: every sub-trigger is met
      on an earlier line, in order. */
  lemma HeaderAfterTriggers(lines: seq<string>, triggers: seq<string>, header: string, toFloat: string -> Option<real>, j: nat) returns (p: seq<nat>)
    requires Qualifies(lines, triggers, header, toFloat, j)
    ensures |p| == |triggers|
    ensures forall t :: 0 <= t < |p| ==> p[t] < j && Contains(lines[p[t]], triggers[t])
    ensures forall t :: 0 < t < |p| ==> p[t - 1] < p[t]
  {
    p := TriggerPositions(lines[..j], triggers);
    forall t | 0 <= t < |p|
      ensures Contains(lines[p[t]], triggers[t])
    {
      assert lines[..j][p[t]] == lines[p[t]];
    }
  }

  /** `getQuantityFromFile`: the quantity of the first line that qualifies, or "not found". */
  method GetQuantityFromFile(lines: seq<string>, trigger: string, header: string, toFloat: string -> Option<real>)
    returns (r: Result<Quantity, TextError>)
    ensures var triggers := SplitOn(trigger, '/');
      r == Err(QuantityNotFound) ==> forall j :: 0 <= j < |lines| ==> !Qualifies(lines, triggers, header, toFloat, j)
    ensures var triggers := SplitOn(trigger, '/');
      r != Err(QuantityNotFound) ==>
        exists j :: 0 <= j < |lines| && Qualifies(lines, triggers, header, toFloat, j)
          && (forall i :: 0 <= i < j ==> !Qualifies(lines, triggers, header, toFloat, i))
          && Some(r) == LineQuantity(lines[j], toFloat)
  {
    var triggers := SplitOn(trigger, '/');
    var triggered := 0;
    for k := 0 to |lines|
      invariant triggered == Triggered(lines[..k], triggers)
      invariant forall j :: 0 <= j < k ==> !Qualifies(lines, triggers, header, toFloat, j)
    {
      var line := lines[k];
      assert lines[..k + 1][..k] == lines[..k];
      if triggered < |triggers| && Contains(line, triggers[triggered]) {
        triggered := triggered + 1;
      } else if triggered == |triggers| && Contains(line, header) {
        var q := LineQuantity(line, toFloat);
        if q.Some? {
          assert Qualifies(lines, triggers, header, toFloat, k);
          assert q.value != Err(QuantityNotFound);
          assert Some(q.value) == LineQuantity(lines[k], toFloat);
          return q.value;
        }
      }
    }
    return Err(QuantityNotFound);
  }
}
