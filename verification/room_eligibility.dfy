/** Room eligibility A (operations x rooms): `add_room_eligibility_for_operation`.

    The source draws `random.uniform(0, 1)` per cell and keeps the room when the
    draw is below `percentage`. Here that comparison arrives as a boolean draw per
    cell. With `all_rooms_possible` the percentage becomes 1, which a draw in
    `[0, 1)` never reaches, so every drawn cell is kept. The last room of a row is
    forced to 1, without consulting its draw, when no earlier room was kept. */
module RoomEligibility {
  import opened Grids

  /** The draw of cell `j` after the `all_rooms_possible` override. */
  function Kept(draws: seq<bool>, allRoomsPossible: bool, j: nat): bool
    requires j < |draws|
  {
    allRoomsPossible || draws[j]
  }

  /** No room in `[from, to)` was kept. */
  ghost predicate NoneKept(draws: seq<bool>, allRoomsPossible: bool, from: nat, to: nat)
    requires from <= to <= |draws|
  {
    forall m :: from <= m < to ==> !Kept(draws, allRoomsPossible, m)
  }

  /** Cells `j..numRooms-1` of one row; `allZeros` says no earlier cell was set. */
  function RoomRowFrom(draws: seq<bool>, allRoomsPossible: bool, j: nat, allZeros: bool): (r: Row)
    requires j <= |draws|
    decreases |draws| - j
    ensures |r| == |draws| - j
    ensures BinaryRow(r)
    ensures allZeros && j < |draws| ==> HasOne(r)
  {
    if j == |draws| then []
    else if j == |draws| - 1 && allZeros then
      assert [1][0] == 1;
      [1]
    else if Kept(draws, allRoomsPossible, j) then
      var r := [1] + RoomRowFrom(draws, allRoomsPossible, j + 1, false);
      assert r[0] == 1;
      r
    else
      var rest := RoomRowFrom(draws, allRoomsPossible, j + 1, allZeros);
      assert HasOne(rest) ==> HasOne([0] + rest) by {
        if HasOne(rest) {
          var k :| 0 <= k < |rest| && rest[k] == 1;
          assert ([0] + rest)[k + 1] == 1;
        }
      }
      [0] + rest
  }

  /** One row of A: the row's draws, one per room. */
  function RoomRow(draws: seq<bool>, allRoomsPossible: bool): (r: Row)
    ensures |r| == |draws| && BinaryRow(r)
    ensures |draws| >= 1 ==> HasOne(r)
  {
    RoomRowFrom(draws, allRoomsPossible, 0, true)
  }

  /** A itself: `draws[i][j]` is the draw for operation `i` and room `j`.
      There are no requirements on the sizes: with zero rooms every row is
      empty, which is the source's behaviour too. */
  function RoomEligibility(numOperations: nat, numRooms: nat, allRoomsPossible: bool,
                           draws: seq<seq<bool>>): (a: Grid)
    requires |draws| == numOperations
    requires forall i :: 0 <= i < |draws| ==> |draws[i]| == numRooms
    ensures IsGrid(a, numOperations, numRooms)
    ensures BinaryGrid(a)
    ensures numRooms >= 1 ==> forall i :: 0 <= i < |a| ==> HasOne(a[i])
  {
    seq(numOperations, i requires 0 <= i < numOperations => RoomRow(draws[i], allRoomsPossible))
  }

  /** Nothing kept in `[j, to)` means nothing kept at `j` nor in `[j + 1, to)`. */
  lemma NoneKeptStep(draws: seq<bool>, allRoomsPossible: bool, j: nat, to: nat)
    requires j < to <= |draws|
    ensures NoneKept(draws, allRoomsPossible, j, to)
        <==> !Kept(draws, allRoomsPossible, j) && NoneKept(draws, allRoomsPossible, j + 1, to)
  {
  }

  /** The first cell of `RoomRowFrom` and the cells after it. */
  lemma RoomRowFromStep(draws: seq<bool>, allRoomsPossible: bool, j: nat, allZeros: bool)
    requires j < |draws| && !(j == |draws| - 1 && allZeros)
    ensures var kept := Kept(draws, allRoomsPossible, j);
      RoomRowFrom(draws, allRoomsPossible, j, allZeros)
        == [if kept then 1 else 0] + RoomRowFrom(draws, allRoomsPossible, j + 1, if kept then false else allZeros)
  {
  }

  /** Reference reading of a row: cell `k` is 1 exactly when its draw kept it,
      or when it is the last room and nothing before it was kept. */
  lemma {:induction false} RoomRowFromCells(draws: seq<bool>, allRoomsPossible: bool, j: nat, allZeros: bool, k: nat)
    requires j <= k < |draws|
    ensures var r := RoomRowFrom(draws, allRoomsPossible, j, allZeros);
      r[k - j] == 1 <==>
        (Kept(draws, allRoomsPossible, k)
         || (k == |draws| - 1 && allZeros && NoneKept(draws, allRoomsPossible, j, |draws| - 1)))
    decreases |draws| - j
  {
    var n := |draws|;
    if j == n - 1 && allZeros {
      assert k == j;
    } else {
      var kept := Kept(draws, allRoomsPossible, j);
      var next := if kept then false else allZeros;
      RoomRowFromStep(draws, allRoomsPossible, j, allZeros);
      if k == j {
        if !kept && k == n - 1 {
          assert !allZeros;
        }
      } else {
        RoomRowFromCells(draws, allRoomsPossible, j + 1, next, k);
        if k == n - 1 {
          NoneKeptStep(draws, allRoomsPossible, j, n - 1);
        }
      }
    }
  }

  /** A[i][j] == 1 exactly when room `j` was drawn eligible for operation `i`,
      or `j` is the last room and no earlier room of the row was drawn. */
  lemma RoomEligibilityCells(numOperations: nat, numRooms: nat, allRoomsPossible: bool,
                             draws: seq<seq<bool>>, i: nat, j: nat)
    requires |draws| == numOperations
    requires forall o :: 0 <= o < |draws| ==> |draws[o]| == numRooms
    requires i < numOperations && j < numRooms
    ensures var a := RoomEligibility(numOperations, numRooms, allRoomsPossible, draws);
      a[i][j] == 1 <==>
        (Kept(draws[i], allRoomsPossible, j)
         || (j == numRooms - 1 && NoneKept(draws[i], allRoomsPossible, 0, numRooms - 1)))
  {
    RoomRowFromCells(draws[i], allRoomsPossible, 0, true, j);
  }

  /** With `all_rooms_possible` every operation may use every room. */
  lemma AllRoomsPossibleGivesAllOnes(numOperations: nat, numRooms: nat, draws: seq<seq<bool>>, i: nat, j: nat)
    requires |draws| == numOperations
    requires forall o :: 0 <= o < |draws| ==> |draws[o]| == numRooms
    requires i < numOperations && j < numRooms
    ensures RoomEligibility(numOperations, numRooms, true, draws)[i][j] == 1
  {
    RoomEligibilityCells(numOperations, numRooms, true, draws, i, j);
  }

  /** The edge case the size check guards against: with zero rooms a row has
      no eligible room at all. */
  lemma ZeroRoomsLeavesOperationWithoutRoom(draws: seq<seq<bool>>)
    requires draws == [[]]
    ensures !HasOne(RoomEligibility(1, 0, false, draws)[0])
  {
  }
}
