/** Integer vectors and matrices as the generator builds them: Python lists of
    ints and lists of such lists, here `seq<int>` and `seq<seq<int>>`. */
module Grids {

  type Row = seq<int>
  type Grid = seq<seq<int>>

  /** `m` has exactly `rows` rows, each of length `cols`. */
  ghost predicate IsGrid(m: Grid, rows: nat, cols: nat) {
    |m| == rows && forall i :: 0 <= i < |m| ==> |m[i]| == cols
  }

  predicate IsBit(x: int) {
    x == 0 || x == 1
  }

  ghost predicate BinaryRow(r: Row) {
    forall k :: 0 <= k < |r| ==> IsBit(r[k])
  }

  ghost predicate BinaryGrid(m: Grid) {
    forall i :: 0 <= i < |m| ==> BinaryRow(m[i])
  }

  ghost predicate AllZero(r: Row) {
    forall k :: 0 <= k < |r| ==> r[k] == 0
  }

  /** Some entry of `r` is 1. */
  ghost predicate HasOne(r: Row) {
    exists k :: 0 <= k < |r| && r[k] == 1
  }

  /** `r` is the one-hot vector with its single 1 at position `k`. */
  ghost predicate OneHotAt(r: Row, k: int) {
    0 <= k < |r| && r[k] == 1 && forall j :: 0 <= j < |r| && j != k ==> r[j] == 0
  }

  function Sum(r: Row): int {
    if |r| == 0 then 0 else r[0] + Sum(r[1..])
  }

  /** The length-`n` vector with a 1 at `k` and 0 elsewhere; as in the source,
      a `k` outside `[0, n)` leaves every entry 0. */
  function OneHot(n: nat, k: int): (r: Row)
    ensures |r| == n && BinaryRow(r)
  {
    seq(n, j => if j == k then 1 else 0)
  }

  function Zeros(n: nat): (r: Row)
    ensures |r| == n && AllZero(r)
  {
    seq(n, j => 0)
  }

  /** Column `j` of `m`, read from top to bottom. */
  function Column(m: Grid, j: nat): (c: Row)
    requires forall i :: 0 <= i < |m| ==> j < |m[i]|
    ensures |c| == |m|
    ensures forall i :: 0 <= i < |m| ==> c[i] == m[i][j]
  {
    seq(|m|, i requires 0 <= i < |m| => m[i][j])
  }

  lemma {:induction false} SumOfZeros(r: Row)
    requires AllZero(r)
    ensures Sum(r) == 0
  {
    if |r| > 0 {
      SumOfZeros(r[1..]);
    }
  }

  /** A one-hot vector sums to 1: the "column sum is 1" form of the
      one-surgeon-per-operation guarantee. */
  lemma {:induction false} SumOfOneHot(r: Row, k: int)
    requires OneHotAt(r, k)
    ensures Sum(r) == 1
  {
    if k == 0 {
      SumOfZeros(r[1..]);
    } else {
      assert r[0] == 0;
      SumOfOneHot(r[1..], k - 1);
    }
  }

  lemma OneHotIsOneHotAt(n: nat, k: int)
    requires 0 <= k < n
    ensures OneHotAt(OneHot(n, k), k)
  {
  }
}
