/** The functions of `storedtable/io.py` as they run: a file object written or read item by item,
    and the two public functions built on it. Every method is proved against the functions of
    `StoredTableFormat`, so the round trip proved there holds for what these methods do. */
module StoredTableIO {
  import opened Wrappers
  import Arith
  import opened NdArrays
  import opened StoredTableFormat

  // ---------- file objects ----------------------------------------------------------------

  /** A binary file opened for writing: the bytes written so far. */
  class OutFile {
    var bytes: seq<byte>

    constructor ()
      ensures bytes == []
    {
      bytes := [];
    }

    /** `fd.write(b)`. */
    method Write(b: seq<byte>)
      modifies this
      ensures bytes == old(bytes) + b
    {
      bytes := bytes + b;
    }
  }

  /** A binary file opened for reading: its contents and the current position. */
  class InFile {
    const data: seq<byte>
    var pos: nat

    predicate Valid()
      reads this
    {
      pos <= |data|
    }

    /** The bytes not read yet. */
    function Remaining(): seq<byte>
      reads this
      requires Valid()
    {
      data[pos..]
    }

    constructor (contents: seq<byte>)
      ensures Valid() && data == contents && pos == 0
    {
      data := contents;
      pos := 0;
    }

    /** `fd.read(n)`: the next n bytes, or all that remain when fewer do. */
    method Read(n: nat) returns (b: seq<byte>)
      requires Valid()
      modifies this
      ensures Valid()
      ensures b == old(Remaining())[..if n < |old(Remaining())| then n else |old(Remaining())|]
      ensures Remaining() == old(Remaining())[|b|..]
    {
      var k := if n < |data| - pos then n else |data| - pos;
      b := data[pos..pos + k];
      pos := pos + k;
    }
  }

  /** The outcome of a write whose bytes are `r`. */
  function Status(r: Result<seq<byte>, Error>): (o: Outcome<Error>)
    ensures o.Pass? <==> r.Ok?
    ensures o.Fail? ==> o.error == r.error
  {
    if r.Ok? then Pass else Fail(r.error)
  }

  /** A value read by a method, with the bytes left in the file after it. */
  function Attach<T>(r: Result<T, Error>, rest: seq<byte>): (p: Result<Parsed<T>, Error>)
    ensures p.Ok? <==> r.Ok?
    ensures p.Ok? ==> p.value == Parsed(r.value, rest)
    ensures p.Err? ==> p.error == r.error
  {
    match r
    case Ok(v) => Ok(Parsed(v, rest))
    case Err(e) => Err(e)
  }

  // ---------- writing items ---------------------------------------------------------------

  /** `intToFile`: `struct.pack` raises for a number that does not fit in 64 bits. */
  method IntToFile(out: OutFile, n: nat) returns (r: Outcome<Error>)
    modifies out
    ensures r == Status(IntItem(n))
    ensures out.bytes == if r.Pass? then old(out.bytes) + IntItem(n).value else old(out.bytes)
  {
    if n >= TWO64 {
      return Fail(IntOutOfRange);
    }
    out.Write(IntItem(n).value);
    r := Pass;
  }

  /** `stringToFile`: strip, check the length, check each character, then write the string padded
      with spaces to eight bytes. */
  method StringToFile(out: OutFile, s: string) returns (r: Outcome<Error>)
    modifies out
    ensures r == Status(NameItem(s))
    ensures out.bytes == if r.Pass? then old(out.bytes) + NameItem(s).value else old(out.bytes)
  {
    var t := PyStrings.Strip(s);
    if |t| < 1 || |t| > 8 {
      NameItemLength(s);
      return Fail(NameLength);
    }
    var printable := NameChars(t);
    if !printable {
      NameItemCharacter(s);
      return Fail(NameCharacter);
    }
    var padded: seq<byte> := seq(8, k requires 0 <= k < 8 => if k < |t| then t[k] as int else 32);
    NameItemPadded(s, padded);
    out.Write(padded);
    r := Pass;
  }

  /** The character loop of `stringToFile`: whether every character lies strictly between the space
      and DEL. */
  method NameChars(t: string) returns (ok: bool)
    ensures ok <==> forall k :: 0 <= k < |t| ==> IsNameChar(t[k])
  {
    var i := 0;
    while i < |t|
      invariant 0 <= i <= |t|
      invariant forall k :: 0 <= k < i ==> IsNameChar(t[k])
    {
      if !(32 < t[i] as int < 127) {
        assert !IsNameChar(t[i]);
        return false;
      }
      i := i + 1;
    }
    return true;
  }

  lemma NameItemLength(s: string)
    requires |PyStrings.Strip(s)| < 1 || |PyStrings.Strip(s)| > 8
    ensures NameItem(s) == Err(NameLength)
  {
  }

  lemma NameItemCharacter(s: string)
    requires 1 <= |PyStrings.Strip(s)| <= 8
    requires !forall k :: 0 <= k < |PyStrings.Strip(s)| ==> IsNameChar(PyStrings.Strip(s)[k])
    ensures NameItem(s) == Err(NameCharacter)
  {
  }

  lemma NameItemPadded(s: string, padded: seq<byte>)
    requires 1 <= |PyStrings.Strip(s)| <= 8
    requires forall k :: 0 <= k < |PyStrings.Strip(s)| ==> IsNameChar(PyStrings.Strip(s)[k])
    requires padded == seq(8, k requires 0 <= k < 8 => if k < |PyStrings.Strip(s)| then PyStrings.Strip(s)[k] as int else 32)
    ensures NameItem(s) == Ok(padded)
  {
  }

  /** `arrayToFile`: the doubles of the array in file order. */
  method ArrayToFile(out: OutFile, a: DArray)
    modifies out
    ensures out.bytes == old(out.bytes) + DoubleItems(FileOrder(a))
  {
    out.Write(DoubleItems(FileOrder(a)));
  }

  /** `for name in names: stringToFile(out, name)`: the first bad name raises, after the names before
      it were written. */
  method NamesToFile(out: OutFile, names: seq<string>) returns (r: Outcome<Error>)
    modifies out
    ensures r == Status(NameItems(names))
    ensures r.Pass? ==> out.bytes == old(out.bytes) + NameItems(names).value
  {
    var i := 0;
    while i < |names|
      invariant 0 <= i <= |names|
      invariant NameItems(names[..i]).Ok? && out.bytes == old(out.bytes) + NameItems(names[..i]).value
    {
      ghost var before := out.bytes;
      r := StringToFile(out, names[i]);
      if r.Fail? {
        NameItemsFail(names, i);
        return;
      }
      NamesStep(old(out.bytes), names, i, before, out.bytes);
      i := i + 1;
    }
    assert names[..i] == names;
    r := Pass;
  }

  /** `for axisGrid in axisGrids: intToFile(out, len(axisGrid)); arrayToFile(out, axisGrid)`. */
  method GridsToFile(out: OutFile, grids: seq<seq<Double>>) returns (r: Outcome<Error>)
    modifies out
    ensures r == Status(GridItems(grids))
    ensures r.Pass? ==> out.bytes == old(out.bytes) + GridItems(grids).value
  {
    var i := 0;
    while i < |grids|
      invariant 0 <= i <= |grids|
      invariant GridItems(grids[..i]).Ok? && out.bytes == old(out.bytes) + GridItems(grids[..i]).value
    {
      r := IntToFile(out, |grids[i]|);
      if r.Fail? {
        GridItemsFail(grids, i);
        return;
      }
      OneAxis(grids[i]);
      ArrayToFile(out, NdArray([|grids[i]|], grids[i]));
      GridItemsSnoc(grids, i);
      Reassoc4(old(out.bytes), GridItems(grids[..i]).value, IntItem(|grids[i]|).value, DoubleItems(grids[i]));
      i := i + 1;
    }
    assert grids[..i] == grids;
    r := Pass;
  }

  /** `writeStoredTable`: the checks, then the items one after the other. It returns the outcome and
      the file's contents (`None` when a check fails before the file is opened). */
  method WriteStoredTable(fileName: string, t: Table) returns (r: Outcome<Error>, file: Option<seq<byte>>)
    ensures r == Status(Write(fileName, t))
    ensures file.None? <==> Validate(fileName, t).Fail?
    ensures r.Pass? ==> file == Some(Write(fileName, t).value)
  {
    if PyStrings.Suffix(fileName) != ".stab" {
      return Fail(BadExtension), None;
    }
    var numAxes := |t.axisNames|;
    if numAxes < 1 || numAxes > 9 || numAxes != |t.axisUnits| || numAxes != |t.axisGrids| {
      return Fail(AxisMismatch), None;
    }
    var shapeValues := GridLengths(t.axisGrids);
    var numQuantities := |t.quantityNames|;
    if numQuantities < 1 || numQuantities > 9 || numQuantities != |t.quantityUnits| || numQuantities != |t.quantityValues| {
      return Fail(QuantityMismatch), None;
    }
    var j := 0;
    while j < |t.quantityValues|
      invariant 0 <= j <= |t.quantityValues|
      invariant forall k :: 0 <= k < j ==> t.quantityValues[k].shape == shapeValues
    {
      if t.quantityValues[j].shape != shapeValues {
        return Fail(ValueMismatch), None;
      }
      j := j + 1;
    }
    assert Validate(fileName, t) == Pass;

    var out := new OutFile();
    r := WriteItems(out, t);
    if r.Pass? {
      assert [] + Image(t).value == Image(t).value;
    }
    file := Some(out.bytes);
  }

  /** The body of the `with open(outpath, 'wb')` block of `writeStoredTable`, for a table that passed
      the checks. A failing item raises after the items before it were written. */
  method WriteItems(out: OutFile, t: Table) returns (r: Outcome<Error>)
    requires ShapesMatch(t) && |t.axisNames| <= 9 && |t.quantityNames| <= 9
    modifies out
    ensures r == Status(Image(t))
    ensures r.Pass? ==> out.bytes == old(out.bytes) + Image(t).value
  {
    out.Write(HEADER);
    var tagged := IntToFile(out, ENDIAN_TAG);
    ghost var prefix := out.bytes;

    var counted := IntToFile(out, |t.axisNames|);
    r := NamesToFile(out, t.axisNames);
    if r.Fail? { AxesError(t); return; }
    r := NamesToFile(out, t.axisUnits);
    if r.Fail? { AxesError(t); return; }
    r := NamesToFile(out, t.axisScales);
    if r.Fail? { AxesError(t); return; }
    r := GridsToFile(out, t.axisGrids);
    if r.Fail? { AxesError(t); return; }
    AxesError(t);
    AxesBytes(t, prefix);
    ghost var afterAxes := out.bytes;

    counted := IntToFile(out, |t.quantityNames|);
    r := NamesToFile(out, t.quantityNames);
    if r.Fail? { QuantityError(t); return; }
    r := NamesToFile(out, t.quantityUnits);
    if r.Fail? { QuantityError(t); return; }
    r := NamesToFile(out, t.quantityScales);
    if r.Fail? { QuantityError(t); return; }
    QuantityError(t);
    QuantityBytes(t, afterAxes);

    assert ([|t.quantityValues|] + GridLengths(t.axisGrids))[1..] == GridLengths(t.axisGrids);
    ArrayToFile(out, Stack(t.quantityValues, GridLengths(t.axisGrids)));
    out.Write(TRAILER);
    ImageBytes(t, old(out.bytes), prefix);
    r := Pass;
  }

  // ---------- reading items ---------------------------------------------------------------

  /** `intFromFile`: eight bytes; `struct.unpack` raises on fewer. */
  method IntFromFile(f: InFile) returns (r: Result<u64, Error>)
    requires f.Valid()
    modifies f
    ensures f.Valid()
    ensures Attach(r, f.Remaining()) == ReadInt(old(f.Remaining()))
  {
    var b := f.Read(8);
    if |b| < 8 {
      return Err(ShortRead);
    }
    r := Ok(IntFromBytes(b));
  }

  /** `stringFromFile`: up to eight bytes, stripped and decoded. */
  method StringFromFile(f: InFile) returns (r: Result<string, Error>)
    requires f.Valid()
    modifies f
    ensures f.Valid()
    ensures Attach(r, f.Remaining()) == ReadString(old(f.Remaining()))
  {
    var b := f.Read(8);
    r := NameFromBytes(b);
  }

  /** `arrayFromFile`: `np.fromfile` of the product of the shape's lengths, then the reshape, which
      raises when the file ended early. */
  method ArrayFromFile(f: InFile, shape: seq<nat>) returns (r: Result<DArray, Error>)
    requires f.Valid()
    modifies f
    ensures f.Valid()
    ensures Attach(r, f.Remaining()) == ReadArray(old(f.Remaining()), shape)
  {
    var count := Prod(shape);
    var b := f.Read(8 * count);
    if |b| < 8 * count {
      return Err(ShortRead);
    }
    r := Ok(FromFileOrder(shape, DoublesFromBytes(b, count)));
  }

  /** `[ stringFromFile(infile) for i in range(count) ]`. */
  method StringsFromFile(f: InFile, count: nat) returns (r: Result<seq<string>, Error>)
    requires f.Valid()
    modifies f
    ensures f.Valid()
    ensures Attach(r, f.Remaining()) == ReadStrings(old(f.Remaining()), count)
  {
    ghost var start := f.Remaining();
    var names: seq<string> := [];
    PrependEmpty(ReadStrings(start, count));
    var left := count;
    while left > 0
      invariant f.Valid()
      invariant ReadStrings(start, count) == Prepend(names, ReadStrings(f.Remaining(), left))
    {
      ghost var mid := f.Remaining();
      var s := StringFromFile(f);
      if s.Err? {
        StringsFail(start, count, names, mid, left);
        return Err(s.error);
      }
      var next := left - 1;
      StringsStep(start, count, names, mid, left, next, s.value, f.Remaining());
      names := names + [s.value];
      left := next;
    }
    StringsDone(start, count, names, f.Remaining());
    r := Ok(names);
  }

  /** `arrayFromFile(infile, (n,))`: the points of one axis grid. */
  method PointsFromFile(f: InFile, n: nat) returns (r: Result<seq<Double>, Error>)
    requires f.Valid()
    modifies f
    ensures f.Valid()
    ensures Attach(r, f.Remaining()) == ReadDoubles(old(f.Remaining()), n)
  {
    ReadArrayOneAxis(f.Remaining(), n);
    var a := ArrayFromFile(f, [n]);
    if a.Err? {
      return Err(a.error);
    }
    r := Ok(a.value.data);
  }

  /** `arrayFromFile(infile, (intFromFile(infile),))`: one axis grid. */
  method GridFromFile(f: InFile) returns (r: Result<seq<Double>, Error>)
    requires f.Valid()
    modifies f
    ensures f.Valid()
    ensures Attach(r, f.Remaining()) == ReadGrid(old(f.Remaining()))
  {
    var n :- IntFromFile(f);
    r := PointsFromFile(f, n);
  }

  /** `[ arrayFromFile(infile, (intFromFile(infile),)) for i in range(count) ]`. */
  method GridsFromFile(f: InFile, count: nat) returns (r: Result<seq<seq<Double>>, Error>)
    requires f.Valid()
    modifies f
    ensures f.Valid()
    ensures Attach(r, f.Remaining()) == ReadGrids(old(f.Remaining()), count)
  {
    ghost var start := f.Remaining();
    var grids: seq<seq<Double>> := [];
    PrependEmpty(ReadGrids(start, count));
    var left := count;
    while left > 0
      invariant f.Valid()
      invariant ReadGrids(start, count) == Prepend(grids, ReadGrids(f.Remaining(), left))
    {
      ghost var mid := f.Remaining();
      var g := GridFromFile(f);
      if g.Err? {
        GridsFail(start, count, grids, mid, left);
        return Err(g.error);
      }
      var next := left - 1;
      GridsStep(start, count, grids, mid, left, next, g.value, f.Remaining());
      grids := grids + [g.value];
      left := next;
    }
    GridsDone(start, count, grids, f.Remaining());
    r := Ok(grids);
  }

  /** The axes part of `readStoredTable`: the number of axes, then their names, units, scales and grids. */
  method AxesFromFile(f: InFile) returns (r: Result<(seq<string>, seq<string>, seq<string>, seq<seq<Double>>), Error>)
    requires f.Valid()
    modifies f
    ensures f.Valid()
    ensures Attach(r, f.Remaining()) == ReadAxes(old(f.Remaining()))
  {
    var numAxes :- IntFromFile(f);
    var axisNames :- StringsFromFile(f, numAxes);
    var axisUnits :- StringsFromFile(f, numAxes);
    var axisScales :- StringsFromFile(f, numAxes);
    var axisGrids :- GridsFromFile(f, numAxes);
    r := Ok((axisNames, axisUnits, axisScales, axisGrids));
  }

  /** The quantities part of `readStoredTable`: the number of quantities, then their names, units and scales. */
  method QuantitiesFromFile(f: InFile) returns (r: Result<(seq<string>, seq<string>, seq<string>), Error>)
    requires f.Valid()
    modifies f
    ensures f.Valid()
    ensures Attach(r, f.Remaining()) == ReadQuantities(old(f.Remaining()))
  {
    var numQuantities :- IntFromFile(f);
    var quantityNames :- StringsFromFile(f, numQuantities);
    var quantityUnits :- StringsFromFile(f, numQuantities);
    var quantityScales :- StringsFromFile(f, numQuantities);
    r := Ok((quantityNames, quantityUnits, quantityScales));
  }

  /** What `readStoredTable` reads before the trailing tag: the leading tags, the axes, the quantities and the values,
      the value array split along its first axis as `values[i]` does. */
  method TableFromFile(f: InFile) returns (r: Result<Table, Error>)
    requires f.Valid()
    modifies f
    ensures f.Valid()
    ensures Attach(r, f.Remaining()) == ReadBody(old(f.Remaining()))
  {
    var tag :- StringFromFile(f);
    if tag != "SKIRT X" {
      return Err(NotStoredTable);
    }
    var endian :- IntFromFile(f);
    if endian != ENDIAN_TAG {
      return Err(NotStoredTable);
    }
    var axes :- AxesFromFile(f);
    var (axisNames, axisUnits, axisScales, axisGrids) := axes;
    var quantities :- QuantitiesFromFile(f);
    var (quantityNames, quantityUnits, quantityScales) := quantities;
    var values :- ValuesFromFile(f, |quantityNames|, GridLengths(axisGrids));
    r := Ok(Table(axisNames, axisUnits, axisScales, axisGrids, quantityNames, quantityUnits, quantityScales, values));
  }

  /** The values part of `readStoredTable`: one array of shape (count, n_1, ..., n_A), split along its
      first axis. */
  method ValuesFromFile(f: InFile, count: nat, lens: seq<nat>) returns (r: Result<seq<DArray>, Error>)
    requires f.Valid()
    modifies f
    ensures f.Valid()
    ensures Attach(r, f.Remaining()) == ReadValues(old(f.Remaining()), count, lens)
  {
    var values :- ArrayFromFile(f, [count] + lens);
    assert values.shape[1..] == lens;
    r := Ok(Unstack(values));
  }

  /** The dictionary `readStoredTable` returns: the metadata lists, then each axis name mapped to its grid,
      then each quantity name mapped to its values. */
  method DictionaryOf(t: Table) returns (d: map<string, Entry>)
    requires |t.axisNames| == |t.axisGrids| && |t.quantityNames| == |t.quantityValues|
    ensures d == Dictionary(t)
  {
    d := map["axisNames" := Names(t.axisNames), "axisUnits" := Names(t.axisUnits),
             "axisScales" := Names(t.axisScales), "quantityNames" := Names(t.quantityNames),
             "quantityUnits" := Names(t.quantityUnits), "quantityScales" := Names(t.quantityScales)];
    var i := 0;
    while i < |t.axisNames|
      invariant 0 <= i <= |t.axisNames|
      invariant d == AddAll(Metadata(t), t.axisNames[..i], GridEntries(t.axisGrids)[..i])
    {
      AddAllSnoc(Metadata(t), t.axisNames, GridEntries(t.axisGrids), i);
      d := d[t.axisNames[i] := Points(t.axisGrids[i])];
      i := i + 1;
    }
    assert t.axisNames[..i] == t.axisNames && GridEntries(t.axisGrids)[..i] == GridEntries(t.axisGrids);
    ghost var withGrids := d;
    i := 0;
    while i < |t.quantityNames|
      invariant 0 <= i <= |t.quantityNames|
      invariant d == AddAll(withGrids, t.quantityNames[..i], ValueEntries(t.quantityValues)[..i])
    {
      AddAllSnoc(withGrids, t.quantityNames, ValueEntries(t.quantityValues), i);
      d := d[t.quantityNames[i] := Values(t.quantityValues[i])];
      i := i + 1;
    }
    assert t.quantityNames[..i] == t.quantityNames && ValueEntries(t.quantityValues)[..i] == ValueEntries(t.quantityValues);
  }

  /** `readStoredTable` on the contents of a file. */
  method ReadStoredTable(contents: seq<byte>) returns (r: Result<map<string, Entry>, Error>)
    ensures r == Read(contents)
  {
    var f := new InFile(contents);
    var t :- TableFromFile(f);
    var trailer :- StringFromFile(f);
    if trailer != "STABEND" {
      return Err(BadTrailer);
    }
    var d := DictionaryOf(t);
    r := Ok(d);
  }

  // ---------- lemmas the methods rely on --------------------------------------------------

  /** `xs` in front of the values read by `r`. */
  function Prepend<T>(xs: seq<T>, r: Result<Parsed<seq<T>>, Error>): (p: Result<Parsed<seq<T>>, Error>)
    ensures p.Ok? <==> r.Ok?
    ensures p.Ok? ==> p.value == Parsed(xs + r.value.value, r.value.rest)
    ensures p.Err? ==> p.error == r.error
  {
    match r
    case Ok(v) => Ok(Parsed(xs + v.value, v.rest))
    case Err(e) => Err(e)
  }

  lemma PrependEmpty<T>(r: Result<Parsed<seq<T>>, Error>)
    ensures Prepend([], r) == r
  {
    if r.Ok? {
      assert [] + r.value.value == r.value.value;
    }
  }

  lemma PrependPrepend<T>(xs: seq<T>, ys: seq<T>, r: Result<Parsed<seq<T>>, Error>)
    ensures Prepend(xs, Prepend(ys, r)) == Prepend(xs + ys, r)
  {
    if r.Ok? {
      assert xs + (ys + r.value.value) == (xs + ys) + r.value.value;
    }
  }

  lemma AppendAssoc<T>(x: seq<T>, y: seq<T>, z: seq<T>)
    ensures x + (y + z) == (x + y) + z
  {
  }

  lemma Reassoc3<T>(a: seq<T>, b: seq<T>, c: seq<T>)
    ensures a + b + c == a + (b + c)
  {
  }

  lemma Reassoc4<T>(a: seq<T>, b: seq<T>, c: seq<T>, d: seq<T>)
    ensures a + b + c + d == a + (b + (c + d))
  {
    Reassoc3(a + b, c, d);
    Reassoc3(a, b, c + d);
  }

  lemma Reassoc5<T>(a: seq<T>, b: seq<T>, c: seq<T>, d: seq<T>, e: seq<T>)
    ensures a + b + c + d + e == a + (b + (c + (d + e)))
  {
    Reassoc3(a + b + c, d, e);
    Reassoc4(a, b, c, d + e);
  }

  lemma Reassoc6<T>(a: seq<T>, b: seq<T>, c: seq<T>, d: seq<T>, e: seq<T>, f: seq<T>)
    ensures a + b + c + d + e + f == a + (b + (c + (d + (e + f))))
  {
    Reassoc3(a + b + c + d, e, f);
    Reassoc5(a, b, c, d, e + f);
  }

  lemma Reassoc7<T>(a: seq<T>, b: seq<T>, c: seq<T>, d: seq<T>, e: seq<T>, f: seq<T>, g: seq<T>)
    ensures a + b + c + d + e + f + g == a + (b + (c + (d + (e + (f + g)))))
  {
    Reassoc3(a + b + c + d + e, f, g);
    Reassoc6(a, b, c, d, e, f + g);
  }

  /** One more string read by `StringsFromFile`. */
  lemma StringsStep(start: seq<byte>, count: nat, names: seq<string>, mid: seq<byte>, left: nat, next: nat,
                    s: string, rest: seq<byte>)
    requires left == next + 1 && ReadStrings(start, count) == Prepend(names, ReadStrings(mid, left))
    requires ReadString(mid) == Ok(Parsed(s, rest))
    ensures ReadStrings(start, count) == Prepend(names + [s], ReadStrings(rest, next))
  {
    assert ReadStrings(mid, left) == Prepend([s], ReadStrings(rest, next));
    PrependPrepend(names, [s], ReadStrings(rest, next));
  }

  lemma StringsFail(start: seq<byte>, count: nat, names: seq<string>, mid: seq<byte>, left: nat)
    requires left > 0 && ReadStrings(start, count) == Prepend(names, ReadStrings(mid, left))
    requires ReadString(mid).Err?
    ensures ReadStrings(start, count) == Err(ReadString(mid).error)
  {
    ReadStringsFirstFails(mid, left);
  }

  lemma StringsDone(start: seq<byte>, count: nat, names: seq<string>, rest: seq<byte>)
    requires ReadStrings(start, count) == Prepend(names, ReadStrings(rest, 0))
    ensures ReadStrings(start, count) == Ok(Parsed(names, rest))
  {
    assert names + [] == names;
  }

  lemma GridsStep(start: seq<byte>, count: nat, grids: seq<seq<Double>>, mid: seq<byte>, left: nat, next: nat,
                  g: seq<Double>, rest: seq<byte>)
    requires left == next + 1 && ReadGrids(start, count) == Prepend(grids, ReadGrids(mid, left))
    requires ReadGrid(mid) == Ok(Parsed(g, rest))
    ensures ReadGrids(start, count) == Prepend(grids + [g], ReadGrids(rest, next))
  {
    assert ReadGrids(mid, left) == Prepend([g], ReadGrids(rest, next));
    PrependPrepend(grids, [g], ReadGrids(rest, next));
  }

  lemma GridsFail(start: seq<byte>, count: nat, grids: seq<seq<Double>>, mid: seq<byte>, left: nat)
    requires left > 0 && ReadGrids(start, count) == Prepend(grids, ReadGrids(mid, left))
    requires ReadGrid(mid).Err?
    ensures ReadGrids(start, count) == Err(ReadGrid(mid).error)
  {
  }

  lemma GridsDone(start: seq<byte>, count: nat, grids: seq<seq<Double>>, rest: seq<byte>)
    requires ReadGrids(start, count) == Prepend(grids, ReadGrids(rest, 0))
    ensures ReadGrids(start, count) == Ok(Parsed(grids, rest))
  {
    assert grids + [] == grids;
  }

  lemma ReadStringsFirstFails(data: seq<byte>, count: nat)
    requires count > 0 && ReadString(data).Err?
    ensures ReadStrings(data, count) == Err(ReadString(data).error)
  {
  }

  /** The items of a concatenation of name lists: those of the first list, then those of the second. */
  lemma {:induction false} NameItemsConcat(a: seq<string>, b: seq<string>)
    requires NameItems(a).Ok?
    ensures NameItems(a + b).Ok? <==> NameItems(b).Ok?
    ensures NameItems(b).Ok? ==> NameItems(a + b).value == NameItems(a).value + NameItems(b).value
    ensures NameItems(b).Err? ==> NameItems(a + b).error == NameItems(b).error
  {
    if |a| == 0 {
      assert a + b == b;
    } else {
      assert (a + b)[0] == a[0] && (a + b)[1..] == a[1..] + b;
      NameItemsConcat(a[1..], b);
      if NameItems(b).Ok? {
        AppendAssoc(NameItem(a[0]).value, NameItems(a[1..]).value, NameItems(b).value);
      }
    }
  }

  lemma NameItemsSnoc(names: seq<string>, s: string)
    requires NameItems(names).Ok? && NameItem(s).Ok?
    ensures NameItems(names + [s]) == Ok(NameItems(names).value + NameItem(s).value)
  {
    NameItemsConcat(names, [s]);
    NameItemsSingle(s);
  }

  /** One more name written by `NamesToFile`. */
  lemma NamesStep(start: seq<byte>, names: seq<string>, i: nat, before: seq<byte>, after: seq<byte>)
    requires i < |names| && NameItems(names[..i]).Ok? && before == start + NameItems(names[..i]).value
    requires NameItem(names[i]).Ok? && after == before + NameItem(names[i]).value
    ensures NameItems(names[..i + 1]).Ok? && after == start + NameItems(names[..i + 1]).value
  {
    assert names[..i + 1] == names[..i] + [names[i]];
    NameItemsSnoc(names[..i], names[i]);
    Reassoc3(start, NameItems(names[..i]).value, NameItem(names[i]).value);
  }

  lemma NameItemsSingle(s: string)
    requires NameItem(s).Ok?
    ensures NameItems([s]) == NameItem(s)
  {
    assert [s][1..] == [];
    EmptyConcat(NameItems([s][1..]).value, []);
    assert NameItem(s).value + [] == NameItem(s).value;
  }

  lemma NameItemsFail(names: seq<string>, i: nat)
    requires i < |names| && NameItems(names[..i]).Ok? && NameItem(names[i]).Err?
    ensures NameItems(names) == Err(NameItem(names[i]).error)
  {
    assert names == names[..i] + names[i..];
    assert names[i..][0] == names[i];
    NameItemsConcat(names[..i], names[i..]);
  }

  /** The items of a concatenation of grid lists: those of the first list, then those of the second. */
  lemma {:induction false} GridItemsConcat(a: seq<seq<Double>>, b: seq<seq<Double>>)
    requires GridItems(a).Ok?
    ensures GridItems(a + b).Ok? <==> GridItems(b).Ok?
    ensures GridItems(b).Ok? ==> GridItems(a + b).value == GridItems(a).value + GridItems(b).value
    ensures GridItems(b).Err? ==> GridItems(a + b).error == GridItems(b).error
  {
    if |a| == 0 {
      assert a + b == b;
    } else {
      assert (a + b)[0] == a[0] && (a + b)[1..] == a[1..] + b;
      GridItemsConcat(a[1..], b);
      if GridItems(b).Ok? {
        var count, points := IntItem(|a[0]|).value, DoubleItems(a[0]);
        AppendAssoc(points, GridItems(a[1..]).value, GridItems(b).value);
        AppendAssoc(count, points + GridItems(a[1..]).value, GridItems(b).value);
      }
    }
  }

  lemma GridItemsSnoc(grids: seq<seq<Double>>, i: nat)
    requires i < |grids| && GridItems(grids[..i]).Ok? && |grids[i]| < TWO64
    ensures GridItems(grids[..i + 1]) == Ok(GridItems(grids[..i]).value + (IntItem(|grids[i]|).value + DoubleItems(grids[i])))
  {
    assert grids[..i + 1] == grids[..i] + [grids[i]];
    GridItemsConcat(grids[..i], [grids[i]]);
    GridItemsSingle(grids[i]);
  }

  lemma GridItemsSingle(g: seq<Double>)
    requires |g| < TWO64
    ensures GridItems([g]) == Ok(IntItem(|g|).value + DoubleItems(g))
  {
    assert [g][1..] == [];
    assert DoubleItems(g) + [] == DoubleItems(g);
  }

  lemma GridItemsFail(grids: seq<seq<Double>>, i: nat)
    requires i < |grids| && GridItems(grids[..i]).Ok? && |grids[i]| >= TWO64
    ensures GridItems(grids) == Err(IntOutOfRange)
  {
    assert grids == grids[..i] + grids[i..];
    assert grids[i..][0] == grids[i];
    GridItemsConcat(grids[..i], grids[i..]);
  }

  /** On one axis the file position and the C-order position of an element are its index. */
  lemma AxisPositions(n: nat, m: nat)
    requires m < n
    ensures Prod([n]) == n && InBounds([n], [m])
    ensures RowMajor([n], [m]) == m && ColMajor([n], [m]) == m && FromColMajor([n], m) == [m]
  {
    assert [n][..0] == [] && [m][..0] == [] && [n][1..] == [] && [m][1..] == [];
    Arith.DivMix(m, n, 0);
    assert m + n * 0 == m;
    assert FromColMajor([n], m) == [m % n] + FromColMajor([], m / n);
  }

  /** A one-dimensional array is its own file order. */
  lemma OneAxis(points: seq<Double>)
    ensures Valid(NdArray([|points|], points))
    ensures FileOrder(NdArray([|points|], points)) == points
    ensures FromFileOrder([|points|], points) == NdArray([|points|], points)
  {
    var n := |points|;
    assert Prod([n]) == n by { assert [n][1..] == []; }
    OneAxisFileOrder(points);
    OneAxisFromFileOrder(points);
  }

  lemma OneAxisFileOrder(points: seq<Double>)
    requires Valid(NdArray([|points|], points))
    ensures FileOrder(NdArray([|points|], points)) == points
  {
    var n := |points|;
    var a := NdArray([n], points);
    var w := FileOrder(a);
    forall m | 0 <= m < n ensures w[m] == points[m] {
      AxisPositions(n, m);
      assert w[ColMajor([n], [m])] == Get(a, [m]);
    }
  }

  lemma OneAxisFromFileOrder(points: seq<Double>)
    requires |points| == Prod([|points|])
    ensures FromFileOrder([|points|], points) == NdArray([|points|], points)
  {
    var n := |points|;
    var b := FromFileOrder([n], points);
    forall m | 0 <= m < n ensures b.data[m] == points[m] {
      AxisPositions(n, m);
      assert Get(b, [m]) == points[ColMajor([n], [m])];
    }
  }

  /** Reading a one-dimensional array is reading its doubles. */
  lemma ReadArrayOneAxis(data: seq<byte>, n: nat)
    ensures ReadArray(data, [n]).Ok? <==> ReadDoubles(data, n).Ok?
    ensures ReadArray(data, [n]).Err? ==> ReadArray(data, [n]).error == ReadDoubles(data, n).error
    ensures ReadArray(data, [n]).Ok? ==> ReadArray(data, [n]).value.value.data == ReadDoubles(data, n).value.value
    ensures ReadArray(data, [n]).Ok? ==> ReadArray(data, [n]).value.rest == ReadDoubles(data, n).value.rest
  {
    assert Prod([n]) == n by { assert [n][1..] == []; }
    if ReadDoubles(data, n).Ok? {
      OneAxis(ReadDoubles(data, n).value.value);
    }
  }

  /** The bytes of the axes section, appended one part after the other. */
  lemma AxesBytes(t: Table, b0: seq<byte>)
    requires AxesItems(t).Ok?
    ensures b0 + IntItem(|t.axisNames|).value + NameItems(t.axisNames).value + NameItems(t.axisUnits).value
      + NameItems(t.axisScales).value + GridItems(t.axisGrids).value == b0 + AxesItems(t).value
  {
    AxesItemsParts(t);
    Reassoc6(b0, IntItem(|t.axisNames|).value, NameItems(t.axisNames).value, NameItems(t.axisUnits).value,
      NameItems(t.axisScales).value, GridItems(t.axisGrids).value);
  }

  /** The bytes of the quantities section, appended one part after the other. */
  lemma QuantityBytes(t: Table, b0: seq<byte>)
    requires QuantityItems(t).Ok?
    ensures b0 + IntItem(|t.quantityNames|).value + NameItems(t.quantityNames).value
      + NameItems(t.quantityUnits).value + NameItems(t.quantityScales).value == b0 + QuantityItems(t).value
  {
    QuantityItemsParts(t);
    Reassoc5(b0, IntItem(|t.quantityNames|).value, NameItems(t.quantityNames).value,
      NameItems(t.quantityUnits).value, NameItems(t.quantityScales).value);
  }

  /** The whole file, appended one section after the other. */
  lemma ImageBytes(t: Table, b0: seq<byte>, prefix: seq<byte>)
    requires ShapesMatch(t) && AxesItems(t).Ok? && QuantityItems(t).Ok?
    requires prefix == b0 + HEADER + EncodeLE(ENDIAN_TAG, 8)
    ensures Image(t).Ok?
    ensures prefix + AxesItems(t).value + QuantityItems(t).value + ValueItems(t) + TRAILER == b0 + Image(t).value
  {
    Reassoc7(b0, HEADER, EncodeLE(ENDIAN_TAG, 8), AxesItems(t).value, QuantityItems(t).value, ValueItems(t), TRAILER);
  }

  /** Which part of the axes section fails, if one does. */
  lemma AxesError(t: Table)
    requires ShapesMatch(t) && |t.axisNames| < TWO64
    ensures AxesItems(t).Err? ==> Image(t) == Err(AxesItems(t).error)
    ensures IntItem(|t.axisNames|).Ok?
    ensures NameItems(t.axisNames).Err? ==> AxesItems(t) == Err(NameItems(t.axisNames).error)
    ensures NameItems(t.axisNames).Ok? && NameItems(t.axisUnits).Err? ==> AxesItems(t) == Err(NameItems(t.axisUnits).error)
    ensures NameItems(t.axisNames).Ok? && NameItems(t.axisUnits).Ok? && NameItems(t.axisScales).Err? ==>
      AxesItems(t) == Err(NameItems(t.axisScales).error)
    ensures NameItems(t.axisNames).Ok? && NameItems(t.axisUnits).Ok? && NameItems(t.axisScales).Ok? ==>
      (AxesItems(t).Ok? <==> GridItems(t.axisGrids).Ok?)
    ensures NameItems(t.axisNames).Ok? && NameItems(t.axisUnits).Ok? && NameItems(t.axisScales).Ok? && GridItems(t.axisGrids).Err? ==>
      AxesItems(t) == Err(GridItems(t.axisGrids).error)
  {
  }

  /** Which part of the quantities section fails, if one does. */
  lemma QuantityError(t: Table)
    requires ShapesMatch(t) && |t.quantityNames| < TWO64
    ensures AxesItems(t).Ok? && QuantityItems(t).Err? ==> Image(t) == Err(QuantityItems(t).error)
    ensures IntItem(|t.quantityNames|).Ok?
    ensures NameItems(t.quantityNames).Err? ==> QuantityItems(t) == Err(NameItems(t.quantityNames).error)
    ensures NameItems(t.quantityNames).Ok? && NameItems(t.quantityUnits).Err? ==>
      QuantityItems(t) == Err(NameItems(t.quantityUnits).error)
    ensures NameItems(t.quantityNames).Ok? && NameItems(t.quantityUnits).Ok? ==>
      (QuantityItems(t).Ok? <==> NameItems(t.quantityScales).Ok?)
    ensures NameItems(t.quantityNames).Ok? && NameItems(t.quantityUnits).Ok? && NameItems(t.quantityScales).Err? ==>
      QuantityItems(t) == Err(NameItems(t.quantityScales).error)
  {
  }

  /** Adding the entry of key i to the dictionary built from the keys before it. */
  lemma AddAllSnoc(d: map<string, Entry>, keys: seq<string>, entries: seq<Entry>, i: nat)
    requires |keys| == |entries| && i < |keys|
    ensures AddAll(d, keys[..i + 1], entries[..i + 1]) == AddAll(d, keys[..i], entries[..i])[keys[i] := entries[i]]
  {
    assert keys[..i + 1][..i] == keys[..i] && entries[..i + 1][..i] == entries[..i];
  }
}
