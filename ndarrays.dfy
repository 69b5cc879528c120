/** A numpy array as a shape plus its elements in numpy's logical (C, row-major) order, and the
    column-major order (first index varying most rapidly) in which the stored-table format keeps them. */
module NdArrays {
  import opened Arith

  /** The number of elements of an array with this shape. */
  function Prod(shape: seq<nat>): nat {
    if |shape| == 0 then 1 else shape[0] * Prod(shape[1..])
  }

  /** A multi-index that addresses an element of an array of this shape. */
  predicate InBounds(shape: seq<nat>, idx: seq<nat>) {
    |idx| == |shape| && forall j :: 0 <= j < |shape| ==> idx[j] < shape[j]
  }

  lemma ProdSnoc(shape: seq<nat>)
    requires |shape| > 0
    ensures Prod(shape) == Prod(shape[..|shape| - 1]) * shape[|shape| - 1]
    decreases |shape|
  {
    var n := |shape| - 1;
    if n > 0 {
      ProdSnoc(shape[1..]);
      assert shape[1..][..n - 1] == shape[1..n];
      assert shape[..n][1..] == shape[1..n];
      MulAssoc(shape[0], Prod(shape[1..n]), shape[n]);
    } else {
      assert shape[..0] == [];
    }
  }

  // ---------- column-major positions (the file order) ---------------------------------------

  /** The file position i0 + n0*(i1 + n1*(i2 + ...)) of a multi-index. */
  function ColMajor(shape: seq<nat>, idx: seq<nat>): (k: nat)
    requires InBounds(shape, idx)
    ensures k < Prod(shape)
  {
    if |shape| == 0 then 0
    else
      var rest := ColMajor(shape[1..], idx[1..]);
      MixedBelow(idx[0], shape[0], rest, Prod(shape[1..]));
      idx[0] + shape[0] * rest
  }

  /** The multi-index stored at a file position. */
  function FromColMajor(shape: seq<nat>, k: nat): (idx: seq<nat>)
    requires k < Prod(shape)
    ensures InBounds(shape, idx) && ColMajor(shape, idx) == k
  {
    if |shape| == 0 then []
    else
      DivBelow(k, shape[0], Prod(shape[1..]));
      var rest := FromColMajor(shape[1..], k / shape[0]);
      var idx := [k % shape[0]] + rest;
      assert idx[1..] == rest;
      idx
  }

  lemma {:induction false} FromColMajorOfColMajor(shape: seq<nat>, idx: seq<nat>)
    requires InBounds(shape, idx)
    ensures FromColMajor(shape, ColMajor(shape, idx)) == idx
  {
    if |shape| > 0 {
      var rest := ColMajor(shape[1..], idx[1..]);
      DivMix(idx[0], shape[0], rest);
      FromColMajorOfColMajor(shape[1..], idx[1..]);
      assert idx == [idx[0]] + idx[1..];
    }
  }

  // ---------- row-major positions (numpy's logical order) -----------------------------------

  /** The position of a multi-index in C order (last index varying most rapidly). */
  function RowMajor(shape: seq<nat>, idx: seq<nat>): (m: nat)
    requires InBounds(shape, idx)
    ensures m < Prod(shape)
    decreases |shape|
  {
    if |shape| == 0 then 0
    else
      var n := |shape| - 1;
      var rest := RowMajor(shape[..n], idx[..n]);
      ProdSnoc(shape);
      MixedBelow(idx[n], shape[n], rest, Prod(shape[..n]));
      assert shape[n] * rest == rest * shape[n];
      assert shape[n] * Prod(shape[..n]) == Prod(shape[..n]) * shape[n];
      rest * shape[n] + idx[n]
  }

  /** The multi-index at a C-order position. */
  function FromRowMajor(shape: seq<nat>, m: nat): (idx: seq<nat>)
    requires m < Prod(shape)
    ensures InBounds(shape, idx) && RowMajor(shape, idx) == m
    decreases |shape|
  {
    if |shape| == 0 then []
    else
      var n := |shape| - 1;
      ProdSnoc(shape);
      assert Prod(shape[..n]) * shape[n] == shape[n] * Prod(shape[..n]);
      DivBelow(m, shape[n], Prod(shape[..n]));
      var rest := FromRowMajor(shape[..n], m / shape[n]);
      var idx := rest + [m % shape[n]];
      assert idx[..n] == rest;
      DivSplit(m, shape[n]);
      idx
  }

  lemma {:induction false} FromRowMajorOfRowMajor(shape: seq<nat>, idx: seq<nat>)
    requires InBounds(shape, idx)
    ensures FromRowMajor(shape, RowMajor(shape, idx)) == idx
    decreases |shape|
  {
    if |shape| > 0 {
      var n := |shape| - 1;
      var rest := RowMajor(shape[..n], idx[..n]);
      assert rest * shape[n] + idx[n] == idx[n] + shape[n] * rest;
      DivMix(idx[n], shape[n], rest);
      FromRowMajorOfRowMajor(shape[..n], idx[..n]);
      assert idx == idx[..n] + [idx[n]];
    }
  }

  /** Prepending an axis of length q: the C-order position of (i, idx) is i * Prod(shape) + position of idx. */
  lemma {:induction false} RowMajorCons(q: nat, shape: seq<nat>, i: nat, idx: seq<nat>)
    requires i < q && InBounds(shape, idx)
    ensures InBounds([q] + shape, [i] + idx)
    ensures RowMajor([q] + shape, [i] + idx) == i * Prod(shape) + RowMajor(shape, idx)
    decreases |shape|
  {
    var s, x := [q] + shape, [i] + idx;
    assert InBounds(s, x) by {
      forall j | 0 <= j < |s| ensures x[j] < s[j] {
        if j > 0 { assert x[j] == idx[j - 1] && s[j] == shape[j - 1]; }
      }
    }
    if |shape| > 0 {
      var n := |shape| - 1;
      assert s[..n + 1] == [q] + shape[..n] && x[..n + 1] == [i] + idx[..n];
      RowMajorCons(q, shape[..n], i, idx[..n]);
      var p, r, c := Prod(shape[..n]), RowMajor(shape[..n], idx[..n]), shape[n];
      assert s[n + 1] == c && x[n + 1] == idx[n];
      assert RowMajor(s, x) == RowMajor([q] + shape[..n], [i] + idx[..n]) * c + idx[n];
      assert RowMajor(s, x) == (i * p + r) * c + idx[n];
      Distrib(i * p, r, c);
      MulAssoc(i, p, c);
      ProdSnoc(shape);
    } else {
      assert s == [q] && x == [i] && s[..0] == [] && x[..0] == [];
    }
  }

  // ---------- arrays --------------------------------------------------------------------------

  /** A numpy array: its shape and its elements in C order. */
  datatype NdArray<T> = NdArray(shape: seq<nat>, data: seq<T>)

  predicate Valid<T>(a: NdArray<T>) {
    |a.data| == Prod(a.shape)
  }

  /** The element a[idx]. */
  function Get<T>(a: NdArray<T>, idx: seq<nat>): T
    requires Valid(a) && InBounds(a.shape, idx)
  {
    a.data[RowMajor(a.shape, idx)]
  }

  /** The elements in the order in which the stored-table format writes them (`a.T` flattened in C order). */
  function FileOrder<T>(a: NdArray<T>): (items: seq<T>)
    requires Valid(a)
    ensures |items| == |a.data|
    ensures forall idx {:trigger Get(a, idx)} :: InBounds(a.shape, idx) ==> items[ColMajor(a.shape, idx)] == Get(a, idx)
  {
    var items := seq(|a.data|, k requires 0 <= k < |a.data| => a.data[RowMajor(a.shape, FromColMajor(a.shape, k))]);
    assert forall idx {:trigger Get(a, idx)} :: InBounds(a.shape, idx) ==> items[ColMajor(a.shape, idx)] == Get(a, idx) by {
      forall idx | InBounds(a.shape, idx) ensures items[ColMajor(a.shape, idx)] == Get(a, idx) {
        FromColMajorOfColMajor(a.shape, idx);
      }
    }
    items
  }

  /** The array of the given shape whose file-order elements are `items`
      (`np.reshape(items, reversed(shape)).T`). */
  function FromFileOrder<T>(shape: seq<nat>, items: seq<T>): (a: NdArray<T>)
    requires |items| == Prod(shape)
    ensures Valid(a) && a.shape == shape
    ensures forall idx {:trigger Get(a, idx)} :: InBounds(shape, idx) ==> Get(a, idx) == items[ColMajor(shape, idx)]
  {
    var a := NdArray(shape, seq(|items|, m requires 0 <= m < |items| => items[ColMajor(shape, FromRowMajor(shape, m))]));
    assert forall idx {:trigger Get(a, idx)} :: InBounds(shape, idx) ==> Get(a, idx) == items[ColMajor(shape, idx)] by {
      forall idx | InBounds(shape, idx) ensures Get(a, idx) == items[ColMajor(shape, idx)] {
        FromRowMajorOfRowMajor(shape, idx);
      }
    }
    a
  }

  /** Reading back what was written restores the array. */
  lemma FromFileOrderOfFileOrder<T>(a: NdArray<T>)
    requires Valid(a)
    ensures FromFileOrder(a.shape, FileOrder(a)) == a
  {
    var b := FromFileOrder(a.shape, FileOrder(a));
    forall m | 0 <= m < |a.data| ensures b.data[m] == a.data[m] {
      var idx := FromRowMajor(a.shape, m);
      assert Get(b, idx) == Get(a, idx);
    }
  }

  /** Writing what was read reproduces the items. */
  lemma FileOrderOfFromFileOrder<T>(shape: seq<nat>, items: seq<T>)
    requires |items| == Prod(shape)
    ensures FileOrder(FromFileOrder(shape, items)) == items
  {
    var a := FromFileOrder(shape, items);
    var w := FileOrder(a);
    forall k | 0 <= k < |items| ensures w[k] == items[k] {
      var idx := FromColMajor(shape, k);
      assert w[ColMajor(shape, idx)] == Get(a, idx);
    }
  }
}
