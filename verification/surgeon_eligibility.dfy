/** Surgeon-room eligibility CS and surgeon specialty CP:
    `add_surgeon_room_eligibility` and `add_surgeon_specialty`.

    Both draw `randint(0, 1)` for every (surgeon, column) pair, row by row, and
    append the draws to one flat list, so the matrix is stored row-major. */
module SurgeonEligibility {
  import opened Grids

  /** The rows of `m`, each of length `cols`, laid end to end. */
  function Flatten(m: Grid, cols: nat): (r: Row)
    requires forall i :: 0 <= i < |m| ==> |m[i]| == cols
    ensures |r| == |m| * cols
    decreases |m|
  {
    if |m| == 0 then []
    else
      var n := |m| - 1;
      Flatten(m[..n], cols) + m[n]
  }

  /** Row `i` of a flat row-major list of `rows` rows of `cols` entries. */
  function RowAt(r: Row, rows: nat, cols: nat, i: nat): (row: Row)
    requires |r| == rows * cols && i < rows
    ensures |row| == cols
  {
    MulBound(i, rows, cols);
    r[i * cols .. i * cols + cols]
  }

  /** Cuts a flat row-major list back into `rows` rows of `cols` entries. */
  function Unflatten(r: Row, rows: nat, cols: nat): (m: Grid)
    requires |r| == rows * cols
    ensures IsGrid(m, rows, cols)
  {
    seq(rows, i requires 0 <= i < rows => RowAt(r, rows, cols, i))
  }

  /** Every position of a flat list of `rows` x `cols` entries is some
      `i * cols + j`. */
  lemma SplitIndex(k: nat, rows: nat, cols: nat) returns (i: nat, j: nat)
    requires k < rows * cols
    ensures i < rows && j < cols && k == i * cols + j
  {
    assert cols > 0;
    i, j := k / cols, k % cols;
  }

  /** Row `i` of a `rows` x `cols` matrix ends within the flat list. */
  lemma MulBound(i: nat, rows: nat, cols: nat)
    requires i < rows
    ensures i * cols + cols <= rows * cols
  {
    assert i * cols + cols == (i + 1) * cols;
    assert (i + 1) * cols <= rows * cols by {
      if cols > 0 {
        assert i + 1 <= rows;
      }
    }
  }

  /** Entry `(i, j)` sits at `i * cols + j` of the flat list. */
  lemma {:induction false} FlattenIndex(m: Grid, cols: nat, i: nat, j: nat)
    requires forall k :: 0 <= k < |m| ==> |m[k]| == cols
    requires i < |m| && j < cols
    ensures i * cols + j < |m| * cols
    ensures Flatten(m, cols)[i * cols + j] == m[i][j]
    decreases |m|
  {
    var n := |m| - 1;
    MulBound(i, |m|, cols);
    assert Flatten(m, cols) == Flatten(m[..n], cols) + m[n];
    assert |Flatten(m[..n], cols)| == n * cols;
    if i < n {
      FlattenIndex(m[..n], cols, i, j);
    } else {
      assert i * cols + j - n * cols == j;
    }
  }

  /** Flattening loses nothing: cutting the list back gives the matrix. */
  lemma FlattenRoundTrip(m: Grid, cols: nat)
    requires forall k :: 0 <= k < |m| ==> |m[k]| == cols
    ensures Unflatten(Flatten(m, cols), |m|, cols) == m
  {
    var r := Flatten(m, cols);
    var u := Unflatten(r, |m|, cols);
    forall i | 0 <= i < |m|
      ensures u[i] == m[i]
    {
      forall j | 0 <= j < cols
        ensures u[i][j] == m[i][j]
      {
        FlattenIndex(m, cols, i, j);
        MulBound(i, |m|, cols);
        assert u[i] == r[i * cols .. i * cols + cols];
        assert u[i][j] == r[i * cols + j];
      }
    }
  }

  /** Flattening a 0/1 matrix gives a 0/1 list. */
  lemma FlattenBinary(rows: nat, cols: nat, m: Grid)
    requires IsGrid(m, rows, cols) && BinaryGrid(m)
    ensures BinaryRow(Flatten(m, cols))
  {
    var r := Flatten(m, cols);
    forall k | 0 <= k < |r|
      ensures IsBit(r[k])
    {
      var i, j := SplitIndex(k, rows, cols);
      FlattenIndex(m, cols, i, j);
      assert r[k] == m[i][j];
      assert IsBit(m[i][j]);
    }
  }

  /** CS: surgeon `s` may use room `j` when entry `s * num_rooms + j` is 1. */
  function SurgeonRoomEligibility(numSurgeons: nat, numRooms: nat, draws: Grid): (r: Row)
    requires IsGrid(draws, numSurgeons, numRooms) && BinaryGrid(draws)
    ensures |r| == numSurgeons * numRooms && BinaryRow(r)
    ensures Unflatten(r, numSurgeons, numRooms) == draws
  {
    FlattenRoundTrip(draws, numRooms);
    FlattenBinary(numSurgeons, numRooms, draws);
    Flatten(draws, numRooms)
  }

  /** CP: surgeon `s` has specialty `p` when entry `s * num_specialties + p` is 1. */
  function SurgeonSpecialty(numSurgeons: nat, numSpecialties: nat, draws: Grid): (r: Row)
    requires IsGrid(draws, numSurgeons, numSpecialties) && BinaryGrid(draws)
    ensures |r| == numSurgeons * numSpecialties && BinaryRow(r)
    ensures Unflatten(r, numSurgeons, numSpecialties) == draws
  {
    FlattenRoundTrip(draws, numSpecialties);
    FlattenBinary(numSurgeons, numSpecialties, draws);
    Flatten(draws, numSpecialties)
  }
}
