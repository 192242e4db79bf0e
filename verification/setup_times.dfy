/** Setup times between operation types TCSTO (types x types):
    `add_setup_times_between_types`.

    Switching from a type to itself costs nothing. Between two different types
    the cost is a `randint(0, upper_bound_random)` when the setup-time feature
    is on, and 0 when it is off. `draws[i][j]` is the draw for the ordered pair
    `(i, j)`; the diagonal's slots, and every slot when the feature is off, are
    never consulted, as the source draws nothing there. */
module SetupTimes {
  import opened Grids

  /** `upper_bound_random`'s default, the one the assembler uses. */
  const DefaultUpperBound: nat := 60

  ghost predicate ValidSetupDraws(draws: Grid, numOpTypes: nat, upperBound: nat) {
    && IsGrid(draws, numOpTypes, numOpTypes)
    && forall i, j :: 0 <= i < numOpTypes && 0 <= j < numOpTypes && i != j ==> 0 <= draws[i][j] <= upperBound
  }

  function SetupRow(i: nat, withSetupTime: bool, drawRow: Row): (r: Row)
    ensures |r| == |drawRow|
  {
    seq(|drawRow|, j requires 0 <= j < |drawRow| => if i == j || !withSetupTime then 0 else drawRow[j])
  }

  function SetupTimes(numOpTypes: nat, withSetupTime: bool, upperBound: nat, draws: Grid): (m: Grid)
    requires ValidSetupDraws(draws, numOpTypes, upperBound)
    ensures IsGrid(m, numOpTypes, numOpTypes)
    ensures forall i :: 0 <= i < numOpTypes ==> m[i][i] == 0
    ensures forall i, j :: 0 <= i < numOpTypes && 0 <= j < numOpTypes ==> 0 <= m[i][j] <= upperBound
    ensures !withSetupTime ==> forall i :: 0 <= i < numOpTypes ==> AllZero(m[i])
  {
    seq(numOpTypes, i requires 0 <= i < numOpTypes => SetupRow(i, withSetupTime, draws[i]))
  }

  /** With the feature on, every switch between two different types costs
      exactly what was drawn for it, so any cost in `[0, upper bound]` can
      appear; with it off no draw matters. */
  lemma SetupTimesUseDraws(numOpTypes: nat, upperBound: nat, draws: Grid, other: Grid)
    requires ValidSetupDraws(draws, numOpTypes, upperBound)
    requires ValidSetupDraws(other, numOpTypes, upperBound)
    ensures forall i, j :: 0 <= i < numOpTypes && 0 <= j < numOpTypes && i != j ==>
              SetupTimes(numOpTypes, true, upperBound, draws)[i][j] == draws[i][j]
    ensures SetupTimes(numOpTypes, false, upperBound, draws) == SetupTimes(numOpTypes, false, upperBound, other)
  {
    var a := SetupTimes(numOpTypes, false, upperBound, draws);
    var b := SetupTimes(numOpTypes, false, upperBound, other);
    forall i | 0 <= i < numOpTypes
      ensures a[i] == b[i]
    {
      assert |a[i]| == |b[i]|;
      assert forall j :: 0 <= j < numOpTypes ==> a[i][j] == 0 == b[i][j];
    }
  }
}
