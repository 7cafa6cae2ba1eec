/**
 * Integer matrices as rectangular sequences of rows, with the numpy rules the
 * user and popularity components rely on: negative indices, broadcasting,
 * horizontal stacking and elementwise addition.
 */
module Matrices {
  import opened Common

  /** Number of columns; a matrix without rows is taken to have none. */
  function Cols(m: seq<seq<int>>): nat {
    if |m| == 0 then 0 else |m[0]|
  }

  predicate Rect(m: seq<seq<int>>) {
    forall i :: 0 <= i < |m| ==> |m[i]| == Cols(m)
  }

  type Matrix = m: seq<seq<int>> | Rect(m) witness []

  predicate IsShape(m: Matrix, rows: nat, cols: nat) {
    |m| == rows && (rows > 0 ==> Cols(m) == cols)
  }

  function Zeros(n: nat): (z: seq<int>)
    ensures |z| == n && forall j :: 0 <= j < n ==> z[j] == 0
  {
    seq(n, _ => 0)
  }

  /** numpy accepts an integer index into an axis of length n when -n <= i < n. */
  predicate ValidIndex(n: nat, i: int) {
    -(n as int) <= i < n
  }

  /** The position a valid numpy index denotes: negative indices count from the end. */
  function Resolve(n: nat, i: int): (k: nat)
    requires ValidIndex(n, i)
    ensures k < n
  {
    if i >= 0 then i else n + i
  }

  function At(row: seq<int>, i: int): int
    requires ValidIndex(|row|, i)
  {
    row[Resolve(|row|, i)]
  }

  /** numpy broadcasting: an axis of length `from` can stand where `to` is expected. */
  predicate Stretchable(from: nat, to: nat) {
    from == to || from == 1
  }

  predicate CanStretch(src: Matrix, i: nat, j: nat) {
    (|src| == 1 || i < |src|) && (Cols(src) == 1 || j < Cols(src))
  }

  /** The element that broadcasting places at (i, j): an axis of length one is repeated. */
  function Stretched(src: Matrix, i: nat, j: nat): int
    requires CanStretch(src, i, j)
  {
    src[if |src| == 1 then 0 else i][if Cols(src) == 1 then 0 else j]
  }

  /** The value written by `target[:, :] = src` into a rows x cols target, or None where numpy refuses. */
  function BroadcastTo(src: Matrix, rows: nat, cols: nat): (r: Option<Matrix>)
    ensures r.Some? <==> Stretchable(|src|, rows) && (|src| == 0 || Stretchable(Cols(src), cols))
    ensures r.Some? ==> IsShape(r.value, rows, cols)
    ensures r.Some? ==> forall i, j :: 0 <= i < rows && 0 <= j < cols ==> r.value[i][j] == Stretched(src, i, j)
    ensures IsShape(src, rows, cols) ==> r == Some(src)
  {
    if Stretchable(|src|, rows) && (|src| == 0 || Stretchable(Cols(src), cols)) then
      var m := seq(rows, i requires 0 <= i < rows =>
        seq(cols, j requires 0 <= j < cols => Stretched(src, i, j)));
      assert Rect(m) by {
        if rows > 0 { assert Cols(m) == cols; }
      }
      if IsShape(src, rows, cols) then SameShapeStretch(src, rows, cols, m); Some(m) else Some(m)
    else
      None
  }

  lemma SameShapeStretch(src: Matrix, rows: nat, cols: nat, m: seq<seq<int>>)
    requires |m| == rows && forall i :: 0 <= i < rows ==> |m[i]| == cols
    requires IsShape(src, rows, cols)
    requires forall i, j :: 0 <= i < rows && 0 <= j < cols ==> m[i][j] == Stretched(src, i, j)
    ensures m == src
  {
    forall i | 0 <= i < rows ensures m[i] == src[i] {
      assert |m[i]| == |src[i]|;
    }
  }

  /** Two axis lengths numpy can broadcast against each other, and the length that results. */
  predicate Compatible(x: nat, y: nat) {
    x == y || x == 1 || y == 1
  }

  function Joint(x: nat, y: nat): nat
    requires Compatible(x, y)
  {
    if x == 1 then y else x
  }

  /** `np.add(a, b)` with broadcasting of both operands, or None where numpy refuses the shapes. */
  function Add(a: Matrix, b: Matrix): (r: Option<Matrix>)
    ensures r.Some? <==> Compatible(|a|, |b|) && Compatible(Cols(a), Cols(b))
    ensures r.Some? ==> IsShape(r.value, Joint(|a|, |b|), Joint(Cols(a), Cols(b)))
    ensures r.Some? ==> forall i, j :: 0 <= i < Joint(|a|, |b|) && 0 <= j < Joint(Cols(a), Cols(b)) ==>
      r.value[i][j] == Stretched(a, i, j) + Stretched(b, i, j)
  {
    if Compatible(|a|, |b|) && Compatible(Cols(a), Cols(b)) then
      var rows, cols := Joint(|a|, |b|), Joint(Cols(a), Cols(b));
      var m := seq(rows, i requires 0 <= i < rows =>
        seq(cols, j requires 0 <= j < cols => Stretched(a, i, j) + Stretched(b, i, j)));
      assert Rect(m) by {
        if rows > 0 { assert Cols(m) == cols; }
      }
      Some(m)
    else
      None
  }

  /** `np.hstack([a, b])` for two matrices with the same number of rows. */
  function HStack(a: Matrix, b: Matrix): (r: Matrix)
    requires |a| == |b|
    ensures |r| == |a| && (|a| > 0 ==> Cols(r) == Cols(a) + Cols(b))
    ensures forall i :: 0 <= i < |r| ==> r[i][..Cols(a)] == a[i] && r[i][Cols(a)..] == b[i]
  {
    var m := seq(|a|, i requires 0 <= i < |a| => a[i] + b[i]);
    assert Rect(m) by {
      if |a| > 0 {
        forall i | 0 <= i < |a| ensures |m[i]| == Cols(m) { assert Cols(m) == Cols(a) + Cols(b); }
      }
    }
    m
  }

  /** The contents of a two-dimensional array, row by row. */
  function ToMatrix(a: array2<int>): (m: Matrix)
    reads a
    ensures |m| == a.Length0 && forall i :: 0 <= i < |m| ==> |m[i]| == a.Length1
    ensures forall i, j :: 0 <= i < a.Length0 && 0 <= j < a.Length1 ==> m[i][j] == a[i, j]
  {
    var m := seq(a.Length0, i requires 0 <= i < a.Length0 reads a =>
      seq(a.Length1, j requires 0 <= j < a.Length1 reads a => a[i, j]));
    assert Rect(m) by {
      if a.Length0 > 0 { assert Cols(m) == a.Length1; }
    }
    m
  }

  /** A fresh array holding the given matrix. */
  method FromMatrix(m: Matrix) returns (a: array2<int>)
    ensures fresh(a) && a.Length0 == |m| && a.Length1 == Cols(m)
    ensures ToMatrix(a) == m
  {
    a := new int[|m|, Cols(m)]((i, j) requires 0 <= i < |m| && 0 <= j < Cols(m) => m[i][j]);
    var c := ToMatrix(a);
    forall i | 0 <= i < |m| ensures c[i] == m[i] {
      assert |c[i]| == |m[i]|;
    }
  }
}
