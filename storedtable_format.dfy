/** The SKIRT stored-table file format: a sequence of 8-byte items (padded ASCII strings,
    little-endian unsigned 64-bit integers and little-endian doubles), laid out as a header, the axes
    metadata and grids, the quantities metadata, the value hypercube and a trailer.
    This module is the pure description of that format: the byte layout of each item, the file image
    produced for a table, the result of reading a file, and the round trips between them. */
module StoredTableFormat {
  import opened Wrappers
  import opened Arith
  import opened PyStrings
  import opened NdArrays

  type byte = x: nat | x < 256

  const TWO64: nat := 0x1_0000_0000_0000_0000

  type u64 = x: nat | x < 0x1_0000_0000_0000_0000

  /** The endianness tag written after the name tag. */
  const ENDIAN_TAG: u64 := 0x010203040A0BFEFF

  /** "SKIRT X\n" and "STABEND\n", written as raw bytes. */
  const HEADER: seq<byte> := [83, 75, 73, 82, 84, 32, 88, 10]
  const TRAILER: seq<byte> := [83, 84, 65, 66, 69, 78, 68, 10]

  /** An IEEE 754 double, kept as its 64-bit pattern: the format only moves doubles around. */
  datatype Double = Double(bits: u64)

  /** A numpy array of doubles whose data fits its shape. */
  type DArray = a: NdArray<Double> | Valid(a) witness NdArray([], [Double(0)])

  /** The exceptions raised by the reader and the writer. */
  datatype Error =
    | BadExtension      // the output file name does not have the suffix ".stab"
    | AxisMismatch      // the number of axes is not 1..9 or the units or grids disagree with it
    | QuantityMismatch  // the same for the quantities
    | ValueMismatch     // a value array does not have the shape given by the grid lengths
    | NameLength        // a name, unit or scale has fewer than 1 or more than 8 characters
    | NameCharacter     // ... or a character outside the printable, non-space 7-bit range
    | IntOutOfRange     // `struct.pack('<Q', n)` with n >= 2^64
    | NotStoredTable    // the leading tags are wrong
    | BadTrailer        // the trailing tag is wrong
    | ShortRead         // an integer or an array runs past the end of the file
    | BadUtf8           // a string item is not valid text

  // ---------- little-endian integers ------------------------------------------------------

  function Pow256(k: nat): (p: nat)
    ensures p > 0
  {
    if k == 0 then 1 else 256 * Pow256(k - 1)
  }

  lemma Pow256Eight()
    ensures Pow256(8) == TWO64
  {
    assert Pow256(2) == 0x1_0000;
    assert Pow256(4) == 0x1_0000_0000;
    assert Pow256(8) == 256 * 256 * 256 * 256 * Pow256(4);
  }

  /** The k-byte little-endian encoding of the low k bytes of n. */
  function EncodeLE(n: nat, k: nat): (b: seq<byte>)
    ensures |b| == k
  {
    if k == 0 then [] else [n % 256] + EncodeLE(n / 256, k - 1)
  }

  /** The number whose little-endian encoding is b. */
  function DecodeLE(b: seq<byte>): (n: nat)
    ensures n < Pow256(|b|)
  {
    if |b| == 0 then 0
    else
      var rest := DecodeLE(b[1..]);
      MixedBelow(b[0], 256, rest, Pow256(|b| - 1));
      b[0] + 256 * rest
  }

  lemma {:induction false} DecodeEncodeLE(n: nat, k: nat)
    requires n < Pow256(k)
    ensures DecodeLE(EncodeLE(n, k)) == n
  {
    if k > 0 {
      DivBelow(n, 256, Pow256(k - 1));
      DecodeEncodeLE(n / 256, k - 1);
      var b := EncodeLE(n, k);
      assert b[1..] == EncodeLE(n / 256, k - 1);
    }
  }

  lemma {:induction false} EncodeDecodeLE(b: seq<byte>)
    ensures EncodeLE(DecodeLE(b), |b|) == b
  {
    if |b| > 0 {
      var rest := DecodeLE(b[1..]);
      DivMix(b[0], 256, rest);
      EncodeDecodeLE(b[1..]);
      assert b == [b[0]] + b[1..];
    }
  }

  /** `struct.pack('<Q', n)`: eight bytes, or an error when n does not fit. */
  function IntItem(n: nat): (r: Result<seq<byte>, Error>)
    ensures r.Ok? <==> n < TWO64
    ensures r.Ok? ==> |r.value| == 8 && DecodeLE(r.value) == n
  {
    Pow256Eight();
    if n < TWO64 then
      DecodeEncodeLE(n, 8);
      Ok(EncodeLE(n, 8))
    else Err(IntOutOfRange)
  }

  /** `struct.unpack('<Q', b)[0]` for eight bytes. */
  function IntFromBytes(b: seq<byte>): (n: u64)
    requires |b| == 8
    ensures IntItem(n) == Ok(b)
  {
    Pow256Eight();
    EncodeDecodeLE(b);
    DecodeLE(b)
  }

  // ---------- name and unit strings -------------------------------------------------------

  /** The characters a stored name may hold: printable 7-bit ASCII other than the space. */
  predicate IsNameChar(c: char) {
    32 < c as int < 127
  }

  /** The ASCII white space removed by `bytes.strip()`: space, tab, newline, vertical tab,
      form feed and carriage return. */
  predicate IsAsciiSpace(x: byte) {
    x == 32 || 9 <= x <= 13
  }

  /** `stringToFile`: the stripped string, checked and padded with spaces to eight bytes. */
  function NameItem(s: string): Result<seq<byte>, Error> {
    var t := Strip(s);
    if |t| < 1 || |t| > 8 then Err(NameLength)
    else if exists k :: 0 <= k < |t| && !IsNameChar(t[k]) then Err(NameCharacter)
    else Ok(seq(8, k requires 0 <= k < 8 => if k < |t| then t[k] as int else 32))
  }

  /** A name is written when its stripped form has one to eight name characters; the item is that
      form padded with spaces to eight bytes. */
  lemma NameItemSpec(s: string)
    ensures NameItem(s).Ok? <==> 1 <= |Strip(s)| <= 8 && forall k :: 0 <= k < |Strip(s)| ==> IsNameChar(Strip(s)[k])
    ensures NameItem(s).Ok? ==> |NameItem(s).value| == 8
    ensures NameItem(s).Ok? ==> forall k :: 0 <= k < 8 ==> NameItem(s).value[k] == if k < |Strip(s)| then Strip(s)[k] as int else 32
  {
  }

  /** `bytes.lstrip()`: the bytes without their leading ASCII white space. */
  function LStripBytes(b: seq<byte>): seq<byte> {
    if |b| > 0 && IsAsciiSpace(b[0]) then LStripBytes(b[1..]) else b
  }

  /** `bytes.rstrip()`: the bytes without their trailing ASCII white space. */
  function RStripBytes(b: seq<byte>): seq<byte> {
    if |b| > 0 && IsAsciiSpace(b[|b| - 1]) then RStripBytes(b[..|b| - 1]) else b
  }

  /** Right-stripping removes exactly a trailing run of white space that follows a non-space byte. */
  lemma {:induction false} RStripSpaces(b: seq<byte>, n: nat)
    requires 0 < n <= |b| && !IsAsciiSpace(b[n - 1])
    requires forall k :: n <= k < |b| ==> IsAsciiSpace(b[k])
    ensures RStripBytes(b) == b[..n]
    decreases |b|
  {
    if |b| > n {
      assert b[..|b| - 1][..n] == b[..n];
      RStripSpaces(b[..|b| - 1], n);
    } else {
      assert b[..n] == b;
    }
  }

  /** `str(b.strip(), 'utf8')`: the bytes without surrounding ASCII white space, as text. Only
      7-bit bytes are accepted as text. */
  function NameFromBytes(b: seq<byte>): (r: Result<string, Error>)
    ensures r.Ok? ==> forall k :: 0 <= k < |r.value| ==> (r.value[k] as int) < 128
  {
    var t := RStripBytes(LStripBytes(b));
    if forall k :: 0 <= k < |t| ==> t[k] < 128 then Ok(seq(|t|, k requires 0 <= k < |t| => t[k] as char))
    else Err(BadUtf8)
  }

  /** Reading back the item written for s gives `s.strip()`. */
  lemma NameRoundTrip(s: string)
    requires NameItem(s).Ok?
    ensures NameFromBytes(NameItem(s).value) == Ok(Strip(s))
  {
    NameItemSpec(s);
    var t, b := Strip(s), NameItem(s).value;
    assert !IsAsciiSpace(b[0]);
    assert LStripBytes(b) == b;
    assert !IsAsciiSpace(b[|t| - 1]);
    RStripSpaces(b, |t|);
    var r := b[..|t|];
    assert forall k :: 0 <= k < |r| ==> r[k] < 128;
    assert seq(|r|, k requires 0 <= k < |r| => r[k] as char) == t;
  }

  // ---------- doubles ---------------------------------------------------------------------

  /** The doubles in order, eight little-endian bytes each (`tofile` with dtype '<f8'). */
  function DoubleItems(xs: seq<Double>): (b: seq<byte>)
    ensures |b| == 8 * |xs|
  {
    if |xs| == 0 then [] else EncodeLE(xs[0].bits, 8) + DoubleItems(xs[1..])
  }

  /** The 64-bit word held by the k-th group of eight bytes. */
  function WordAt(b: seq<byte>, k: nat): u64
    requires 8 * k + 8 <= |b|
  {
    Pow256Eight();
    DecodeLE(b[8 * k..8 * k + 8])
  }

  /** `np.fromfile(fd, dtype='<f8', count)` on exactly 8 * count bytes. */
  function DoublesFromBytes(b: seq<byte>, count: nat): (xs: seq<Double>)
    requires |b| == 8 * count
    ensures |xs| == count
  {
    seq(count, k requires 0 <= k < count => Double(WordAt(b, k)))
  }

  /** The k-th group of eight bytes written for xs encodes xs[k]. */
  lemma {:induction false} DoubleItemsAt(xs: seq<Double>, k: nat)
    requires k < |xs|
    ensures DoubleItems(xs)[8 * k..8 * k + 8] == EncodeLE(xs[k].bits, 8)
  {
    var b, t := DoubleItems(xs), DoubleItems(xs[1..]);
    assert b == EncodeLE(xs[0].bits, 8) + t;
    if k > 0 {
      DoubleItemsAt(xs[1..], k - 1);
      assert b[8 * k..8 * k + 8] == t[8 * (k - 1)..8 * (k - 1) + 8];
    }
  }

  lemma DoublesRoundTrip(xs: seq<Double>)
    ensures DoublesFromBytes(DoubleItems(xs), |xs|) == xs
  {
    var ys := DoublesFromBytes(DoubleItems(xs), |xs|);
    Pow256Eight();
    forall k | 0 <= k < |xs| ensures ys[k] == xs[k] {
      DoubleItemsAt(xs, k);
      DecodeEncodeLE(xs[k].bits, 8);
    }
  }

  // ---------- stacking the quantity arrays -----------------------------------------------

  /** The C-order data of the arrays one after the other. */
  function Flatten(vs: seq<DArray>): seq<Double> {
    if |vs| == 0 then [] else vs[0].data + Flatten(vs[1..])
  }

  lemma {:induction false} FlattenLength(vs: seq<DArray>, p: nat)
    requires forall j :: 0 <= j < |vs| ==> |vs[j].data| == p
    ensures |Flatten(vs)| == |vs| * p
  {
    if |vs| > 0 {
      FlattenLength(vs[1..], p);
      Distrib(|vs| - 1, 1, p);
    }
  }

  lemma {:induction false} FlattenSlice(vs: seq<DArray>, p: nat, i: nat)
    requires forall j :: 0 <= j < |vs| ==> |vs[j].data| == p
    requires i < |vs|
    ensures i * p + p <= |Flatten(vs)| && Flatten(vs)[i * p..i * p + p] == vs[i].data
  {
    var rest := Flatten(vs[1..]);
    if i > 0 {
      FlattenSlice(vs[1..], p, i - 1);
      Distrib(i - 1, 1, p);
      assert Flatten(vs)[i * p..i * p + p] == rest[(i - 1) * p..(i - 1) * p + p];
    }
  }

  /** `a[i]` of numpy: the sub-array at index i of the first axis. */
  function Sub(a: DArray, i: nat): (b: DArray)
    requires |a.shape| > 0 && i < a.shape[0]
    ensures b.shape == a.shape[1..]
    ensures forall idx {:trigger Get(b, idx)} :: InBounds(b.shape, idx) ==> InBounds(a.shape, [i] + idx) && Get(b, idx) == Get(a, [i] + idx)
  {
    var s, p := a.shape[1..], Prod(a.shape[1..]);
    MulLe(p, i + 1, a.shape[0]);
    assert p * (i + 1) == i * p + p;
    var b: DArray := NdArray(s, a.data[i * p..i * p + p]);
    assert [a.shape[0]] + s == a.shape;
    forall idx | InBounds(s, idx) ensures InBounds(a.shape, [i] + idx) && Get(b, idx) == Get(a, [i] + idx) {
      RowMajorCons(a.shape[0], s, i, idx);
    }
    b
  }

  /** `np.stack(vs)` for arrays of one shape: a new first axis indexing the arrays. */
  function Stack(vs: seq<DArray>, shape: seq<nat>): (a: DArray)
    requires forall j :: 0 <= j < |vs| ==> vs[j].shape == shape
    ensures a.shape == [|vs|] + shape
    ensures forall i :: 0 <= i < |vs| ==> Sub(a, i) == vs[i]
  {
    FlattenLength(vs, Prod(shape));
    assert ([|vs|] + shape)[1..] == shape;
    var a: DArray := NdArray([|vs|] + shape, Flatten(vs));
    forall i | 0 <= i < |vs| ensures Sub(a, i) == vs[i] {
      FlattenSlice(vs, Prod(shape), i);
    }
    a
  }

  // ---------- the table and its file image ------------------------------------------------

  /** The arguments of `writeStoredTable`, and the contents returned by `readStoredTable`. */
  datatype Table = Table(
    axisNames: seq<string>, axisUnits: seq<string>, axisScales: seq<string>, axisGrids: seq<seq<Double>>,
    quantityNames: seq<string>, quantityUnits: seq<string>, quantityScales: seq<string>,
    quantityValues: seq<DArray>)

  /** The shape every value array must have: the lengths of the axis grids. */
  function GridLengths(grids: seq<seq<Double>>): (lens: seq<nat>)
    ensures |lens| == |grids| && forall i :: 0 <= i < |grids| ==> lens[i] == |grids[i]|
  {
    seq(|grids|, i requires 0 <= i < |grids| => |grids[i]|)
  }

  predicate ShapesMatch(t: Table) {
    forall j :: 0 <= j < |t.quantityValues| ==> t.quantityValues[j].shape == GridLengths(t.axisGrids)
  }

  /** The checks `writeStoredTable` makes before it opens the file. The scales are not checked. */
  function Validate(fileName: string, t: Table): (r: Outcome<Error>)
    ensures r.Pass? <==>
      Suffix(fileName) == ".stab"
      && 1 <= |t.axisNames| <= 9 && |t.axisUnits| == |t.axisGrids| == |t.axisNames|
      && 1 <= |t.quantityNames| <= 9 && |t.quantityUnits| == |t.quantityValues| == |t.quantityNames|
      && ShapesMatch(t)
  {
    var a, q := |t.axisNames|, |t.quantityNames|;
    if Suffix(fileName) != ".stab" then Fail(BadExtension)
    else if a < 1 || a > 9 || a != |t.axisUnits| || a != |t.axisGrids| then Fail(AxisMismatch)
    else if q < 1 || q > 9 || q != |t.quantityUnits| || q != |t.quantityValues| then Fail(QuantityMismatch)
    else if !ShapesMatch(t) then Fail(ValueMismatch)
    else Pass
  }

  /** One string item per name, in order; the first bad name raises. */
  function NameItems(names: seq<string>): (r: Result<seq<byte>, Error>)
    ensures r.Ok? <==> forall i :: 0 <= i < |names| ==> NameItem(names[i]).Ok?
    ensures r.Ok? ==> |r.value| == 8 * |names|
  {
    if |names| == 0 then Ok([])
    else
      var first :- NameItem(names[0]);
      var rest :- NameItems(names[1..]);
      Ok(first + rest)
  }

  /** For each axis: its number of points, then the points. */
  function GridItems(grids: seq<seq<Double>>): (r: Result<seq<byte>, Error>)
    ensures r.Ok? <==> forall i :: 0 <= i < |grids| ==> |grids[i]| < TWO64
  {
    if |grids| == 0 then Ok([])
    else
      var count :- IntItem(|grids[0]|);
      var rest :- GridItems(grids[1..]);
      Ok(count + (DoubleItems(grids[0]) + rest))
  }

  /** The number of items taken by the grids: one count and the points for each axis. */
  function GridItemCount(grids: seq<seq<Double>>): nat {
    if |grids| == 0 then 0 else 1 + |grids[0]| + GridItemCount(grids[1..])
  }

  lemma {:induction false} GridItemsLength(grids: seq<seq<Double>>)
    requires GridItems(grids).Ok?
    ensures |GridItems(grids).value| == 8 * GridItemCount(grids)
  {
    if |grids| > 0 {
      GridItemsLength(grids[1..]);
    }
  }

  /** The axes section: the number of axes, the names, units and scales, then the grids. */
  function AxesItems(t: Table): (r: Result<seq<byte>, Error>)
    ensures r.Ok? ==> IntItem(|t.axisNames|).Ok? && GridItems(t.axisGrids).Ok?
    ensures r.Ok? ==> NameItems(t.axisNames).Ok? && NameItems(t.axisUnits).Ok? && NameItems(t.axisScales).Ok?
  {
    var numAxes :- IntItem(|t.axisNames|);
    var names :- NameItems(t.axisNames);
    var units :- NameItems(t.axisUnits);
    var scales :- NameItems(t.axisScales);
    var grids :- GridItems(t.axisGrids);
    Ok(numAxes + (names + (units + (scales + grids))))
  }

  /** The quantities section: the number of quantities, then the names, units and scales. */
  function QuantityItems(t: Table): (r: Result<seq<byte>, Error>)
    ensures r.Ok? ==> IntItem(|t.quantityNames|).Ok?
    ensures r.Ok? ==> NameItems(t.quantityNames).Ok? && NameItems(t.quantityUnits).Ok? && NameItems(t.quantityScales).Ok?
  {
    var numQuantities :- IntItem(|t.quantityNames|);
    var names :- NameItems(t.quantityNames);
    var units :- NameItems(t.quantityUnits);
    var scales :- NameItems(t.quantityScales);
    Ok(numQuantities + (names + (units + scales)))
  }

  /** The values in file order: the stacked array, with the quantity index varying fastest, then the
      first axis index, up to the last. */
  function ValueItems(t: Table): (b: seq<byte>)
    requires ShapesMatch(t)
    ensures |b| == 8 * (|t.quantityValues| * Prod(GridLengths(t.axisGrids)))
  {
    var lens := GridLengths(t.axisGrids);
    assert ([|t.quantityValues|] + lens)[1..] == lens;
    DoubleItems(FileOrder(Stack(t.quantityValues, lens)))
  }

  /** The items of a table followed by `tail`: what `writeStoredTable` puts in the file once the checks
      have passed, with `tail` the trailer. A bad name, unit or scale raises part way. */
  function Items(t: Table, tail: seq<byte>): (r: Result<seq<byte>, Error>)
    requires ShapesMatch(t)
    ensures r.Ok? <==> AxesItems(t).Ok? && QuantityItems(t).Ok?
    ensures r.Ok? ==> r.value == HEADER + (EncodeLE(ENDIAN_TAG, 8) + (AxesItems(t).value + (QuantityItems(t).value + (ValueItems(t) + tail))))
  {
    var axes :- AxesItems(t);
    var quantities :- QuantityItems(t);
    Ok(HEADER + (EncodeLE(ENDIAN_TAG, 8) + (axes + (quantities + (ValueItems(t) + tail)))))
  }

  /** The file image of a table: its items, then the trailer. */
  function Image(t: Table): Result<seq<byte>, Error>
    requires ShapesMatch(t)
  {
    Items(t, TRAILER)
  }

  /** `writeStoredTable`: the checks, then the file image. */
  function Write(fileName: string, t: Table): Result<seq<byte>, Error> {
    match Validate(fileName, t)
    case Fail(e) => Err(e)
    case Pass => Image(t)
  }

  /** A written file holds 3 + 3A + sum of (1 + n_i) + 1 + 3Q + Q * prod(n_i) + 1 items, where the
      scales lists, which are not checked, contribute their own lengths. */
  lemma WriteLength(fileName: string, t: Table)
    requires Write(fileName, t).Ok?
    ensures |Write(fileName, t).value| == 8 * (3 + 2 * |t.axisNames| + |t.axisScales| + GridItemCount(t.axisGrids)
      + 1 + 2 * |t.quantityNames| + |t.quantityScales| + |t.quantityNames| * Prod(GridLengths(t.axisGrids)) + 1)
  {
    assert Validate(fileName, t).Pass?;
    GridItemsLength(t.axisGrids);
  }

  // ---------- reading ---------------------------------------------------------------------

  /** A value read from the front of a file, and the bytes after it. */
  datatype Parsed<+T> = Parsed(value: T, rest: seq<byte>)

  /** `stringFromFile`: up to eight bytes (fewer at the end of the file), stripped and decoded. */
  function ReadString(data: seq<byte>): (r: Result<Parsed<string>, Error>)
  {
    var n := if |data| < 8 then |data| else 8;
    var s :- NameFromBytes(data[..n]);
    Ok(Parsed(s, data[n..]))
  }

  /** `intFromFile`: eight bytes as a little-endian integer; fewer bytes raise. */
  function ReadInt(data: seq<byte>): (r: Result<Parsed<u64>, Error>)
    ensures r.Ok? <==> |data| >= 8
    ensures r.Ok? ==> r.value.rest == data[8..] && IntItem(r.value.value) == Ok(data[..8])
  {
    if |data| < 8 then Err(ShortRead) else Ok(Parsed(IntFromBytes(data[..8]), data[8..]))
  }

  /** `np.fromfile(fd, dtype='<f8', count)` followed by a reshape, which raises when fewer than
      `count` doubles remain. */
  function ReadDoubles(data: seq<byte>, count: nat): (r: Result<Parsed<seq<Double>>, Error>)
    ensures r.Ok? <==> |data| >= 8 * count
    ensures r.Ok? ==> |r.value.value| == count && r.value.rest == data[8 * count..]
  {
    if |data| < 8 * count then Err(ShortRead)
    else Ok(Parsed(DoublesFromBytes(data[..8 * count], count), data[8 * count..]))
  }

  /** `arrayFromFile`: the doubles in file order, as an array of the given shape. */
  function ReadArray(data: seq<byte>, shape: seq<nat>): (r: Result<Parsed<DArray>, Error>)
    ensures r.Ok? ==> r.value.value.shape == shape
  {
    var items :- ReadDoubles(data, Prod(shape));
    Ok(Parsed(FromFileOrder(shape, items.value), items.rest))
  }

  /** `count` strings, one after the other. */
  function ReadStrings(data: seq<byte>, count: nat): (r: Result<Parsed<seq<string>>, Error>)
    ensures r.Ok? ==> |r.value.value| == count
  {
    if count == 0 then Ok(Parsed([], data))
    else
      var first :- ReadString(data);
      var others :- ReadStrings(first.rest, count - 1);
      Ok(Parsed([first.value] + others.value, others.rest))
  }

  /** One axis grid: its number of points, then the points. */
  function ReadGrid(data: seq<byte>): (r: Result<Parsed<seq<Double>>, Error>)
  {
    var n :- ReadInt(data);
    ReadDoubles(n.rest, n.value)
  }

  /** `count` axis grids, each read as its number of points followed by the points. */
  function ReadGrids(data: seq<byte>, count: nat): (r: Result<Parsed<seq<seq<Double>>>, Error>)
    ensures r.Ok? ==> |r.value.value| == count
  {
    if count == 0 then Ok(Parsed([], data))
    else
      var first :- ReadGrid(data);
      var others :- ReadGrids(first.rest, count - 1);
      Ok(Parsed([first.value] + others.value, others.rest))
  }

  /** The axes section as read: names, units, scales and grids, `numAxes` of each. */
  function ReadAxes(data: seq<byte>): (r: Result<Parsed<(seq<string>, seq<string>, seq<string>, seq<seq<Double>>)>, Error>)
    ensures r.Ok? ==> var (names, units, scales, grids) := r.value.value;
      |names| == |units| == |scales| == |grids|
  {
    var numAxes :- ReadInt(data);
    var names :- ReadStrings(numAxes.rest, numAxes.value);
    var units :- ReadStrings(names.rest, numAxes.value);
    var scales :- ReadStrings(units.rest, numAxes.value);
    var grids :- ReadGrids(scales.rest, numAxes.value);
    Ok(Parsed((names.value, units.value, scales.value, grids.value), grids.rest))
  }

  /** The quantities section as read: names, units and scales, `numQuantities` of each. */
  function ReadQuantities(data: seq<byte>): (r: Result<Parsed<(seq<string>, seq<string>, seq<string>)>, Error>)
    ensures r.Ok? ==> var (names, units, scales) := r.value.value; |names| == |units| == |scales|
  {
    var numQuantities :- ReadInt(data);
    var names :- ReadStrings(numQuantities.rest, numQuantities.value);
    var units :- ReadStrings(names.rest, numQuantities.value);
    var scales :- ReadStrings(units.rest, numQuantities.value);
    Ok(Parsed((names.value, units.value, scales.value), scales.rest))
  }

  /** The arrays `values[i]` of the stacked value array read from the file. */
  function Unstack(vs: DArray): (r: seq<DArray>)
    requires |vs.shape| > 0
    ensures |r| == vs.shape[0] && forall i :: 0 <= i < |r| ==> r[i] == Sub(vs, i) && r[i].shape == vs.shape[1..]
  {
    seq(vs.shape[0], i requires 0 <= i < vs.shape[0] => Sub(vs, i))
  }

  /** The value array of shape (count, n_1, ..., n_A), read in file order and split into the
      `count` arrays of shape (n_1, ..., n_A). */
  function ReadValues(data: seq<byte>, count: nat, lens: seq<nat>): (r: Result<Parsed<seq<DArray>>, Error>)
    ensures r.Ok? ==> |r.value.value| == count && forall i :: 0 <= i < count ==> r.value.value[i].shape == lens
  {
    var values :- ReadArray(data, [count] + lens);
    assert values.value.shape[1..] == lens;
    Ok(Parsed(Unstack(values.value), values.rest))
  }

  /** Everything `readStoredTable` reads before the trailing tag, after verifying the leading tags. */
  function ReadBody(data: seq<byte>): (r: Result<Parsed<Table>, Error>)
    ensures r.Ok? ==> var t := r.value.value;
      |t.axisNames| == |t.axisUnits| == |t.axisScales| == |t.axisGrids|
      && |t.quantityNames| == |t.quantityUnits| == |t.quantityScales| == |t.quantityValues|
      && ShapesMatch(t)
  {
    var tag :- ReadString(data);
    if tag.value != "SKIRT X" then Err(NotStoredTable)
    else
      var endian :- ReadInt(tag.rest);
      if endian.value != ENDIAN_TAG then Err(NotStoredTable)
      else
        var axes :- ReadAxes(endian.rest);
        var (names, units, scales, grids) := axes.value;
        var quantities :- ReadQuantities(axes.rest);
        var (qnames, qunits, qscales) := quantities.value;
        var values :- ReadValues(quantities.rest, |qnames|, GridLengths(grids));
        Ok(Parsed(Table(names, units, scales, grids, qnames, qunits, qscales, values.value), values.rest))
  }

  /** `readStoredTable` up to building the dictionary: the body, then the trailing tag. Bytes after
      the trailing tag are not looked at. */
  function ReadTable(data: seq<byte>): (r: Result<Table, Error>)
    ensures r.Ok? ==> var t := r.value;
      |t.axisNames| == |t.axisUnits| == |t.axisScales| == |t.axisGrids|
      && |t.quantityNames| == |t.quantityUnits| == |t.quantityScales| == |t.quantityValues|
      && ShapesMatch(t)
  {
    var body :- ReadBody(data);
    var trailer :- ReadString(body.rest);
    if trailer.value != "STABEND" then Err(BadTrailer) else Ok(body.value)
  }

  // ---------- reading what was written ----------------------------------------------------

  function StripAll(names: seq<string>): (r: seq<string>)
    ensures |r| == |names| && forall i :: 0 <= i < |names| ==> r[i] == Strip(names[i])
  {
    seq(|names|, i requires 0 <= i < |names| => Strip(names[i]))
  }

  /** What reading gives back for a written table: the names, units and scales stripped. */
  function Stripped(t: Table): Table {
    t.(axisNames := StripAll(t.axisNames), axisUnits := StripAll(t.axisUnits), axisScales := StripAll(t.axisScales),
       quantityNames := StripAll(t.quantityNames), quantityUnits := StripAll(t.quantityUnits),
       quantityScales := StripAll(t.quantityScales))
  }

  /** Eight bytes holding seven 7-bit characters, the first and last of them not white space, and a
      trailing newline read as those seven characters. */
  lemma SevenAndNewline(b: seq<byte>, s: string)
    requires |b| == 8 && |s| == 7 && b[7] == 10 && !IsAsciiSpace(b[0]) && !IsAsciiSpace(b[6])
    requires forall k :: 0 <= k < 7 ==> b[k] < 128 && b[k] == s[k] as int
    ensures NameFromBytes(b) == Ok(s)
  {
    assert LStripBytes(b) == b;
    RStripSpaces(b, 7);
    assert seq(7, k requires 0 <= k < 7 => b[..7][k] as char) == s;
  }

  /** The raw header and trailer read as the strings the reader compares them with. */
  lemma Tags()
    ensures NameFromBytes(HEADER) == Ok("SKIRT X") && NameFromBytes(TRAILER) == Ok("STABEND")
  {
    assert "SKIRT X" == ['S', 'K', 'I', 'R', 'T', ' ', 'X'];
    SevenAndNewline(HEADER, "SKIRT X");
    assert "STABEND" == ['S', 'T', 'A', 'B', 'E', 'N', 'D'];
    SevenAndNewline(TRAILER, "STABEND");
  }

  lemma ReadEightBytes(b: seq<byte>, rest: seq<byte>)
    requires |b| == 8
    ensures ReadString(b + rest) == match NameFromBytes(b) { case Ok(s) => Ok(Parsed(s, rest)) case Err(e) => Err(e) }
  {
    assert (b + rest)[..8] == b && (b + rest)[8..] == rest;
  }

  lemma ReadStringOf(s: string, rest: seq<byte>)
    requires NameItem(s).Ok?
    ensures ReadString(NameItem(s).value + rest) == Ok(Parsed(Strip(s), rest))
  {
    ReadEightBytes(NameItem(s).value, rest);
    NameRoundTrip(s);
  }

  lemma ReadIntOf(n: nat, rest: seq<byte>)
    requires n < TWO64
    ensures ReadInt(IntItem(n).value + rest) == Ok(Parsed(n, rest))
  {
    var b := IntItem(n).value;
    assert (b + rest)[..8] == b && (b + rest)[8..] == rest;
  }

  lemma NameItemsCons(names: seq<string>)
    requires |names| > 0 && NameItems(names).Ok?
    ensures NameItem(names[0]).Ok? && NameItems(names[1..]).Ok?
    ensures NameItems(names).value == NameItem(names[0]).value + NameItems(names[1..]).value
  {
  }

  lemma ReadStringsCons(data: seq<byte>, count: nat, s: string, mid: seq<byte>, others: seq<string>, rest: seq<byte>)
    requires count > 0 && ReadString(data) == Ok(Parsed(s, mid))
    requires ReadStrings(mid, count - 1) == Ok(Parsed(others, rest))
    ensures ReadStrings(data, count) == Ok(Parsed([s] + others, rest))
  {
  }

  lemma {:induction false} ReadStringsOf(names: seq<string>, rest: seq<byte>)
    requires NameItems(names).Ok?
    ensures ReadStrings(NameItems(names).value + rest, |names|) == Ok(Parsed(StripAll(names), rest))
  {
    if |names| > 0 {
      NameItemsCons(names);
      ReadStringsOf(names[1..], rest);
      ReadStringsStep(names, rest);
    } else {
      assert NameItems(names).value + rest == rest && StripAll(names) == [];
    }
  }

  lemma ReadStringsStep(names: seq<string>, rest: seq<byte>)
    requires |names| > 0 && NameItems(names).Ok? && NameItems(names[1..]).Ok?
    requires ReadStrings(NameItems(names[1..]).value + rest, |names| - 1) == Ok(Parsed(StripAll(names[1..]), rest))
    ensures ReadStrings(NameItems(names).value + rest, |names|) == Ok(Parsed(StripAll(names), rest))
  {
    NameItemsCons(names);
    var first, others := NameItem(names[0]).value, NameItems(names[1..]).value;
    ConcatAssoc(NameItems(names).value, first, others, rest);
    ReadStringOf(names[0], others + rest);
    ReadStringsCons(first + (others + rest), |names|, Strip(names[0]), others + rest, StripAll(names[1..]), rest);
    StripAllCons(names);
  }

  lemma ConcatAssoc<T>(whole: seq<T>, a: seq<T>, b: seq<T>, c: seq<T>)
    requires whole == a + b
    ensures whole + c == a + (b + c)
  {
  }

  lemma StripAllCons(names: seq<string>)
    requires |names| > 0
    ensures StripAll(names) == [Strip(names[0])] + StripAll(names[1..])
  {
  }

  lemma ReadDoublesOf(xs: seq<Double>, rest: seq<byte>)
    ensures ReadDoubles(DoubleItems(xs) + rest, |xs|) == Ok(Parsed(xs, rest))
  {
    var b := DoubleItems(xs);
    assert (b + rest)[..8 * |xs|] == b && (b + rest)[8 * |xs|..] == rest;
    DoublesRoundTrip(xs);
  }

  lemma EmptyConcat<T>(empty: seq<T>, rest: seq<T>)
    requires empty == []
    ensures empty + rest == rest
  {
  }

  lemma SeqCons<T>(s: seq<T>)
    requires |s| > 0
    ensures s == [s[0]] + s[1..]
  {
  }

  lemma Assoc3<T>(whole: seq<T>, a: seq<T>, b: seq<T>, c: seq<T>, rest: seq<T>)
    requires whole == a + (b + c)
    ensures whole + rest == a + (b + (c + rest))
  {
  }

  lemma Assoc4<T>(whole: seq<T>, a: seq<T>, b: seq<T>, c: seq<T>, d: seq<T>, rest: seq<T>)
    requires whole == a + (b + (c + d))
    ensures whole + rest == a + (b + (c + (d + rest)))
  {
  }

  lemma Assoc5<T>(whole: seq<T>, a: seq<T>, b: seq<T>, c: seq<T>, d: seq<T>, e: seq<T>, rest: seq<T>)
    requires whole == a + (b + (c + (d + e)))
    ensures whole + rest == a + (b + (c + (d + (e + rest))))
  {
  }

  lemma GridItemsCons(grids: seq<seq<Double>>)
    requires |grids| > 0 && GridItems(grids).Ok?
    ensures IntItem(|grids[0]|).Ok? && GridItems(grids[1..]).Ok?
    ensures GridItems(grids).value == IntItem(|grids[0]|).value + (DoubleItems(grids[0]) + GridItems(grids[1..]).value)
  {
  }

  lemma ReadGridsCons(data: seq<byte>, count: nat, n: u64, mid: seq<byte>, points: seq<Double>, mid2: seq<byte>,
                      others: seq<seq<Double>>, rest: seq<byte>)
    requires count > 0 && ReadInt(data) == Ok(Parsed(n, mid)) && ReadDoubles(mid, n) == Ok(Parsed(points, mid2))
    requires ReadGrids(mid2, count - 1) == Ok(Parsed(others, rest))
    ensures ReadGrids(data, count) == Ok(Parsed([points] + others, rest))
  {
  }

  lemma {:induction false} ReadGridsOf(grids: seq<seq<Double>>, rest: seq<byte>)
    requires GridItems(grids).Ok?
    ensures ReadGrids(GridItems(grids).value + rest, |grids|) == Ok(Parsed(grids, rest))
  {
    if |grids| > 0 {
      GridItemsCons(grids);
      ReadGridsOf(grids[1..], rest);
      ReadGridsStep(grids, rest);
    } else {
      EmptyConcat(GridItems(grids).value, rest);
    }
  }

  lemma ReadGridsStep(grids: seq<seq<Double>>, rest: seq<byte>)
    requires |grids| > 0 && GridItems(grids).Ok? && GridItems(grids[1..]).Ok?
    requires ReadGrids(GridItems(grids[1..]).value + rest, |grids| - 1) == Ok(Parsed(grids[1..], rest))
    ensures ReadGrids(GridItems(grids).value + rest, |grids|) == Ok(Parsed(grids, rest))
  {
    GridItemsCons(grids);
    var count, points, others := IntItem(|grids[0]|).value, DoubleItems(grids[0]), GridItems(grids[1..]).value;
    Assoc3(GridItems(grids).value, count, points, others, rest);
    ReadIntOf(|grids[0]|, points + (others + rest));
    ReadDoublesOf(grids[0], others + rest);
    ReadGridsCons(count + (points + (others + rest)), |grids|, |grids[0]|, points + (others + rest), grids[0],
                  others + rest, grids[1..], rest);
    SeqCons(grids);
  }

  lemma AxesItemsParts(t: Table)
    requires AxesItems(t).Ok?
    ensures AxesItems(t).value == IntItem(|t.axisNames|).value + (NameItems(t.axisNames).value
      + (NameItems(t.axisUnits).value + (NameItems(t.axisScales).value + GridItems(t.axisGrids).value)))
  {
  }

  lemma ReadAxesUnfold(data: seq<byte>, n: u64, m0: seq<byte>, names: seq<string>, m1: seq<byte>, units: seq<string>,
                       m2: seq<byte>, scales: seq<string>, m3: seq<byte>, grids: seq<seq<Double>>, rest: seq<byte>)
    requires ReadInt(data) == Ok(Parsed(n, m0)) && ReadStrings(m0, n) == Ok(Parsed(names, m1))
    requires ReadStrings(m1, n) == Ok(Parsed(units, m2)) && ReadStrings(m2, n) == Ok(Parsed(scales, m3))
    requires ReadGrids(m3, n) == Ok(Parsed(grids, rest))
    ensures ReadAxes(data) == Ok(Parsed((names, units, scales, grids), rest))
  {
  }

  lemma ReadAxesOf(t: Table, rest: seq<byte>)
    requires AxesItems(t).Ok? && |t.axisUnits| == |t.axisScales| == |t.axisGrids| == |t.axisNames|
    ensures ReadAxes(AxesItems(t).value + rest)
      == Ok(Parsed((StripAll(t.axisNames), StripAll(t.axisUnits), StripAll(t.axisScales), t.axisGrids), rest))
  {
    AxesItemsParts(t);
    var count, names, units := IntItem(|t.axisNames|).value, NameItems(t.axisNames).value, NameItems(t.axisUnits).value;
    var scales, grids := NameItems(t.axisScales).value, GridItems(t.axisGrids).value;
    Assoc5(AxesItems(t).value, count, names, units, scales, grids, rest);
    ReadIntOf(|t.axisNames|, names + (units + (scales + (grids + rest))));
    ReadStringsOf(t.axisNames, units + (scales + (grids + rest)));
    ReadStringsOf(t.axisUnits, scales + (grids + rest));
    ReadStringsOf(t.axisScales, grids + rest);
    ReadGridsOf(t.axisGrids, rest);
    ReadAxesUnfold(count + (names + (units + (scales + (grids + rest)))), |t.axisNames|,
      names + (units + (scales + (grids + rest))), StripAll(t.axisNames), units + (scales + (grids + rest)),
      StripAll(t.axisUnits), scales + (grids + rest), StripAll(t.axisScales), grids + rest, t.axisGrids, rest);
  }

  lemma QuantityItemsParts(t: Table)
    requires QuantityItems(t).Ok?
    ensures QuantityItems(t).value == IntItem(|t.quantityNames|).value + (NameItems(t.quantityNames).value
      + (NameItems(t.quantityUnits).value + NameItems(t.quantityScales).value))
  {
  }

  lemma ReadQuantitiesUnfold(data: seq<byte>, n: u64, m0: seq<byte>, names: seq<string>, m1: seq<byte>,
                             units: seq<string>, m2: seq<byte>, scales: seq<string>, rest: seq<byte>)
    requires ReadInt(data) == Ok(Parsed(n, m0)) && ReadStrings(m0, n) == Ok(Parsed(names, m1))
    requires ReadStrings(m1, n) == Ok(Parsed(units, m2)) && ReadStrings(m2, n) == Ok(Parsed(scales, rest))
    ensures ReadQuantities(data) == Ok(Parsed((names, units, scales), rest))
  {
  }

  lemma ReadQuantitiesOf(t: Table, rest: seq<byte>)
    requires QuantityItems(t).Ok? && |t.quantityUnits| == |t.quantityScales| == |t.quantityNames|
    ensures ReadQuantities(QuantityItems(t).value + rest)
      == Ok(Parsed((StripAll(t.quantityNames), StripAll(t.quantityUnits), StripAll(t.quantityScales)), rest))
  {
    QuantityItemsParts(t);
    var count, names := IntItem(|t.quantityNames|).value, NameItems(t.quantityNames).value;
    var units, scales := NameItems(t.quantityUnits).value, NameItems(t.quantityScales).value;
    Assoc4(QuantityItems(t).value, count, names, units, scales, rest);
    ReadIntOf(|t.quantityNames|, names + (units + (scales + rest)));
    ReadStringsOf(t.quantityNames, units + (scales + rest));
    ReadStringsOf(t.quantityUnits, scales + rest);
    ReadStringsOf(t.quantityScales, rest);
    ReadQuantitiesUnfold(count + (names + (units + (scales + rest))), |t.quantityNames|,
      names + (units + (scales + rest)), StripAll(t.quantityNames), units + (scales + rest),
      StripAll(t.quantityUnits), scales + rest, StripAll(t.quantityScales), rest);
  }

  lemma ReadArrayOf(a: DArray, rest: seq<byte>)
    ensures ReadArray(DoubleItems(FileOrder(a)) + rest, a.shape) == Ok(Parsed(a, rest))
  {
    ReadDoublesOf(FileOrder(a), rest);
    FromFileOrderOfFileOrder(a);
  }

  lemma UnstackStack(vs: seq<DArray>, shape: seq<nat>)
    requires forall j :: 0 <= j < |vs| ==> vs[j].shape == shape
    ensures Unstack(Stack(vs, shape)) == vs
  {
  }

  lemma ReadValuesUnfold(data: seq<byte>, count: nat, lens: seq<nat>, a: DArray, rest: seq<byte>)
    requires ReadArray(data, [count] + lens) == Ok(Parsed(a, rest))
    ensures ReadValues(data, count, lens) == Ok(Parsed(Unstack(a), rest))
  {
  }

  lemma ReadValuesOf(t: Table, rest: seq<byte>)
    requires ShapesMatch(t)
    ensures ReadValues(ValueItems(t) + rest, |t.quantityValues|, GridLengths(t.axisGrids)) == Ok(Parsed(t.quantityValues, rest))
  {
    var lens := GridLengths(t.axisGrids);
    var st := Stack(t.quantityValues, lens);
    ReadArrayOf(st, rest);
    ReadValuesUnfold(ValueItems(t) + rest, |t.quantityValues|, lens, st, rest);
    UnstackStack(t.quantityValues, lens);
  }

  /** Reading the items of a checked table gives back the table with stripped strings, and leaves
      exactly what follows the items. */
  lemma ReadBodyOf(fileName: string, t: Table, tail: seq<byte>)
    requires Validate(fileName, t).Pass? && Items(t, tail).Ok?
    requires |t.axisScales| == |t.axisNames| && |t.quantityScales| == |t.quantityNames|
    ensures ReadBody(Items(t, tail).value) == Ok(Parsed(Stripped(t), tail))
  {
    var values := ValueItems(t) + tail;
    var quantities := QuantityItems(t).value + values;
    var axes := AxesItems(t).value + quantities;
    var endian := EncodeLE(ENDIAN_TAG, 8) + axes;
    Tags();
    ReadEightBytes(HEADER, endian);
    ReadIntOf(ENDIAN_TAG, axes);
    ReadAxesOf(t, quantities);
    ReadQuantitiesOf(t, values);
    ReadValuesOf(t, tail);
  }

  /** `readStoredTable` of what `writeStoredTable` wrote gives back the same table, names, units and
      scales stripped, provided the scales lists, which the writer does not check, have the right lengths. */
  lemma WriteReadRoundTrip(fileName: string, t: Table)
    requires Write(fileName, t).Ok?
    requires |t.axisScales| == |t.axisNames| && |t.quantityScales| == |t.quantityNames|
    ensures ReadTable(Write(fileName, t).value) == Ok(Stripped(t))
  {
    Tags();
    ReadBodyOf(fileName, t, TRAILER);
    ReadEightBytes(TRAILER, []);
    assert TRAILER + [] == TRAILER;
  }

  /** A file whose leading string item is not "SKIRT X" is refused. */
  lemma BadNameTag(data: seq<byte>)
    requires ReadString(data).Ok? && ReadString(data).value.value != "SKIRT X"
    ensures ReadTable(data) == Err(NotStoredTable)
  {
  }

  /** A file with the right name tag but another endianness tag is refused. */
  lemma BadEndiannessTag(n: u64, rest: seq<byte>)
    requires n != ENDIAN_TAG
    ensures ReadTable(HEADER + (IntItem(n).value + rest)) == Err(NotStoredTable)
  {
    Tags();
    ReadEightBytes(HEADER, IntItem(n).value + rest);
    ReadIntOf(n, rest);
  }

  /** The items of a checked table followed by anything other than the trailing tag are refused. */
  lemma BadTrailingTag(fileName: string, t: Table, tail: seq<byte>)
    requires Validate(fileName, t).Pass? && Items(t, tail).Ok?
    requires |t.axisScales| == |t.axisNames| && |t.quantityScales| == |t.quantityNames|
    requires ReadString(tail).Ok? && ReadString(tail).value.value != "STABEND"
    ensures ReadTable(Items(t, tail).value) == Err(BadTrailer)
  {
    ReadBodyOf(fileName, t, tail);
  }

  // ---------- the dictionary returned by the reader ----------------------------------------

  /** A value of the dictionary `readStoredTable` returns. */
  datatype Entry = Names(names: seq<string>) | Points(points: seq<Double>) | Values(array: DArray)

  /** The keys of the metadata lists, which come first. */
  const METADATA_KEYS: seq<string> :=
    ["axisNames", "axisUnits", "axisScales", "quantityNames", "quantityUnits", "quantityScales"]

  predicate Distinct<T(==)>(s: seq<T>) {
    forall i, j :: 0 <= i < j < |s| ==> s[i] != s[j]
  }

  /** `for i in range(len(keys)): d[keys[i]] = entries[i]`: later keys win. */
  function AddAll(d: map<string, Entry>, keys: seq<string>, entries: seq<Entry>): (r: map<string, Entry>)
    requires |keys| == |entries|
    ensures r.Keys == d.Keys + set k | k in keys
  {
    if |keys| == 0 then d
    else
      var n := |keys| - 1;
      var r := AddAll(d, keys[..n], entries[..n])[keys[n] := entries[n]];
      assert forall k :: k in keys <==> k in keys[..n] || k == keys[n] by {
        assert keys == keys[..n] + [keys[n]];
      }
      r
  }

  /** With distinct keys every key maps to its own entry, and the others keep their old entries. */
  lemma {:induction false} AddAllAt(d: map<string, Entry>, keys: seq<string>, entries: seq<Entry>)
    requires |keys| == |entries| && Distinct(keys)
    ensures forall i :: 0 <= i < |keys| ==> AddAll(d, keys, entries)[keys[i]] == entries[i]
    ensures forall k :: k in d && k !in keys ==> AddAll(d, keys, entries)[k] == d[k]
  {
    if |keys| > 0 {
      var n := |keys| - 1;
      var ks, es := keys[..n], entries[..n];
      assert Distinct(ks) by {
        forall i, j | 0 <= i < j < n ensures ks[i] != ks[j] {
          assert ks[i] == keys[i] && ks[j] == keys[j];
        }
      }
      AddAllAt(d, ks, es);
      var prev, all := AddAll(d, ks, es), AddAll(d, keys, entries);
      assert all == prev[keys[n] := entries[n]];
      forall i | 0 <= i < |keys| ensures all[keys[i]] == entries[i] {
        if i < n {
          assert ks[i] == keys[i] != keys[n] && es[i] == entries[i];
        }
      }
      forall k | k in d && k !in keys ensures all[k] == d[k] {
        assert k != keys[n];
        forall j | 0 <= j < n ensures ks[j] != k {
          assert ks[j] == keys[j];
        }
      }
    }
  }

  /** The parts of a sequence without repetitions have none either, and share no element. */
  lemma DistinctSplit<T>(a: seq<T>, b: seq<T>)
    requires Distinct(a + b)
    ensures Distinct(a) && Distinct(b)
    ensures forall k :: k in b ==> k !in a
  {
    var ab := a + b;
    forall i, j | 0 <= i < j < |a| ensures a[i] != a[j] {
      assert ab[i] == a[i] && ab[j] == a[j];
    }
    forall i, j | 0 <= i < j < |b| ensures b[i] != b[j] {
      assert ab[|a| + i] == b[i] && ab[|a| + j] == b[j];
    }
    forall k | k in b ensures k !in a {
      var j :| 0 <= j < |b| && b[j] == k;
      forall i | 0 <= i < |a| ensures a[i] != k {
        assert ab[i] == a[i] && ab[|a| + j] == b[j];
      }
    }
  }

  function Metadata(t: Table): (d: map<string, Entry>)
    ensures d.Keys == set k | k in METADATA_KEYS
  {
    map["axisNames" := Names(t.axisNames), "axisUnits" := Names(t.axisUnits), "axisScales" := Names(t.axisScales),
        "quantityNames" := Names(t.quantityNames), "quantityUnits" := Names(t.quantityUnits),
        "quantityScales" := Names(t.quantityScales)]
  }

  function GridEntries(grids: seq<seq<Double>>): (r: seq<Entry>)
    ensures |r| == |grids| && forall i :: 0 <= i < |grids| ==> r[i] == Points(grids[i])
  {
    seq(|grids|, i requires 0 <= i < |grids| => Points(grids[i]))
  }

  function ValueEntries(vs: seq<DArray>): (r: seq<Entry>)
    ensures |r| == |vs| && forall i :: 0 <= i < |vs| ==> r[i] == Values(vs[i])
  {
    seq(|vs|, i requires 0 <= i < |vs| => Values(vs[i]))
  }

  /** The dictionary built at the end of `readStoredTable`: the six metadata lists, then each axis
      name mapped to its grid, then each quantity name mapped to its values. */
  function Dictionary(t: Table): map<string, Entry>
    requires |t.axisNames| == |t.axisGrids| && |t.quantityNames| == |t.quantityValues|
  {
    AddAll(AddAll(Metadata(t), t.axisNames, GridEntries(t.axisGrids)), t.quantityNames, ValueEntries(t.quantityValues))
  }

  /** `readStoredTable`. */
  function Read(data: seq<byte>): Result<map<string, Entry>, Error> {
    var t :- ReadTable(data);
    Ok(Dictionary(t))
  }

  /** The names of a table whose metadata keys, axis names and quantity names are all different. */
  lemma NamesDisjoint(t: Table)
    requires Distinct(METADATA_KEYS + t.axisNames + t.quantityNames)
    ensures Distinct(t.axisNames) && Distinct(t.quantityNames)
    ensures forall k :: k in t.axisNames ==> k !in METADATA_KEYS
    ensures forall k :: k in t.quantityNames ==> k !in t.axisNames && k !in METADATA_KEYS
  {
    var ma := METADATA_KEYS + t.axisNames;
    DistinctSplit(ma, t.quantityNames);
    DistinctSplit(METADATA_KEYS, t.axisNames);
    forall k | k in t.quantityNames ensures k !in t.axisNames && k !in METADATA_KEYS {
      assert k !in ma;
      forall j | 0 <= j < |t.axisNames| ensures t.axisNames[j] != k {
        assert ma[|METADATA_KEYS| + j] == t.axisNames[j];
      }
      forall j | 0 <= j < |METADATA_KEYS| ensures METADATA_KEYS[j] != k {
        assert ma[j] == METADATA_KEYS[j];
      }
    }
  }

  /** When the axis and quantity names are distinct and differ from the metadata keys, every name
      maps to its own grid or values. */
  lemma DictionaryEntries(t: Table)
    requires |t.axisNames| == |t.axisGrids| && |t.quantityNames| == |t.quantityValues|
    requires Distinct(METADATA_KEYS + t.axisNames + t.quantityNames)
    ensures forall i :: 0 <= i < |t.axisNames| ==> Dictionary(t)[t.axisNames[i]] == Points(t.axisGrids[i])
    ensures forall i :: 0 <= i < |t.quantityNames| ==> Dictionary(t)[t.quantityNames[i]] == Values(t.quantityValues[i])
  {
    NamesDisjoint(t);
    var d1 := AddAll(Metadata(t), t.axisNames, GridEntries(t.axisGrids));
    AddAllAt(Metadata(t), t.axisNames, GridEntries(t.axisGrids));
    AddAllAt(d1, t.quantityNames, ValueEntries(t.quantityValues));
  }

  /** Under the same condition the dictionary holds exactly the metadata keys and the names, and the
      metadata lists keep their entries. */
  lemma DictionaryKeys(t: Table)
    requires |t.axisNames| == |t.axisGrids| && |t.quantityNames| == |t.quantityValues|
    requires Distinct(METADATA_KEYS + t.axisNames + t.quantityNames)
    ensures Dictionary(t).Keys == (set k | k in METADATA_KEYS) + (set k | k in t.axisNames) + (set k | k in t.quantityNames)
    ensures Dictionary(t) - (set k | k in t.axisNames) - (set k | k in t.quantityNames) == Metadata(t)
  {
    NamesDisjoint(t);
    var d1 := AddAll(Metadata(t), t.axisNames, GridEntries(t.axisGrids));
    AddAllAt(Metadata(t), t.axisNames, GridEntries(t.axisGrids));
    AddAllAt(d1, t.quantityNames, ValueEntries(t.quantityValues));
  }

  /** Reading what was written gives the dictionary of the stripped table, under the conditions of
      the round trip. */
  lemma WriteReadDictionary(fileName: string, t: Table)
    requires Write(fileName, t).Ok?
    requires |t.axisScales| == |t.axisNames| && |t.quantityScales| == |t.quantityNames|
    ensures Read(Write(fileName, t).value) == Ok(Dictionary(Stripped(t)))
  {
    WriteReadRoundTrip(fileName, t);
  }
}
