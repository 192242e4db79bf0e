/** Surgeon assignment C (surgeons x operations): the round-robin builder
    `add_surgeon_assignment_for_operation` that the assembler uses, and the
    unused uniform variant `add_surgeon_assignment_random_version`.

    Both start from one empty row per surgeon and then, operation by operation,
    append to every row a 1 for the chosen surgeon and a 0 for the others. They
    differ only in how the surgeon of operation `i` is chosen, so both are
    written here over the list of choices. */
module SurgeonAssignment {
  import opened Grids
  import opened Wrappers

  /** Appends `col` as a new last column of `m`. */
  function AppendColumn(m: Grid, col: Row): (r: Grid)
    requires |col| == |m|
    ensures |r| == |m|
    ensures forall j :: 0 <= j < |m| ==> r[j] == m[j] + [col[j]]
  {
    seq(|m|, j requires 0 <= j < |m| => m[j] + [col[j]])
  }

  /** Each operation `i` has exactly one surgeon, and `choices[i]` is it. */
  ghost predicate AssignsByChoice(c: Grid, numSurgeons: nat, choices: seq<nat>) {
    && IsGrid(c, numSurgeons, |choices|)
    && forall j, i {:trigger c[j][i]} :: 0 <= j < numSurgeons && 0 <= i < |choices| ==>
         (c[j][i] == 1 <==> choices[i] == j) && IsBit(c[j][i])
  }

  /** Builds C column by column from the surgeon chosen for each operation. */
  function AssignByChoice(numSurgeons: nat, choices: seq<nat>): (c: Grid)
    ensures AssignsByChoice(c, numSurgeons, choices)
    decreases |choices|
  {
    if |choices| == 0 then seq(numSurgeons, j => [])
    else
      var n := |choices| - 1;
      var prefix := AssignByChoice(numSurgeons, choices[..n]);
      AppendColumn(prefix, OneHot(numSurgeons, choices[n]))
  }

  /** The round-robin choice `i mod num_surgeons` for every operation. */
  function RoundRobinChoices(numSurgeons: nat, numOperations: nat): (s: seq<nat>)
    requires numSurgeons > 0
    ensures |s| == numOperations
    ensures forall i :: 0 <= i < numOperations ==> s[i] < numSurgeons
  {
    seq(numOperations, i => i % numSurgeons)
  }

  /** The round-robin C. Operation `i` goes to surgeon `i mod num_surgeons`. */
  function SurgeonAssignment(numSurgeons: nat, numOperations: nat): (c: Grid)
    requires numSurgeons > 0
    ensures IsGrid(c, numSurgeons, numOperations) && BinaryGrid(c)
    ensures forall j, i :: 0 <= j < numSurgeons && 0 <= i < numOperations ==>
              (c[j][i] == 1 <==> i % numSurgeons == j)
  {
    AssignByChoice(numSurgeons, RoundRobinChoices(numSurgeons, numOperations))
  }

  /** The uniform variant: `draws[i]` is the `randint(0, num_surgeons - 1)`
      drawn for operation `i`. */
  function SurgeonAssignmentRandom(numSurgeons: nat, draws: seq<nat>): (c: Grid)
    requires forall i :: 0 <= i < |draws| ==> draws[i] < numSurgeons
    ensures IsGrid(c, numSurgeons, |draws|) && BinaryGrid(c)
    ensures forall j, i :: 0 <= j < numSurgeons && 0 <= i < |draws| ==>
              (c[j][i] == 1 <==> draws[i] == j)
  {
    AssignByChoice(numSurgeons, draws)
  }

  /** Surgeon `s` is the only one with a 1 for operation `i`. */
  ghost predicate SoleSurgeon(c: Grid, i: nat, s: int) {
    && 0 <= s < |c|
    && (forall j :: 0 <= j < |c| ==> i < |c[j]|)
    && c[s][i] == 1
    && forall j :: 0 <= j < |c| && j != s ==> c[j][i] == 0
  }

  /** Every operation's column of C is one-hot. */
  ghost predicate ColumnsOneHot(c: Grid, numOperations: nat) {
    forall i :: 0 <= i < numOperations ==> HasSoleSurgeon(c, i)
  }

  ghost predicate HasSoleSurgeon(c: Grid, i: nat) {
    exists s :: SoleSurgeon(c, i, s)
  }

  /** When every choice names a real surgeon, the column of operation `i` has
      its only 1 at `choices[i]` and sums to 1. */
  lemma ChoicesGiveOneHotColumn(c: Grid, numSurgeons: nat, choices: seq<nat>, i: nat)
    requires AssignsByChoice(c, numSurgeons, choices)
    requires forall o :: 0 <= o < |choices| ==> choices[o] < numSurgeons
    requires i < |choices|
    ensures OneHotAt(Column(c, i), choices[i]) && Sum(Column(c, i)) == 1
    ensures SoleSurgeon(c, i, choices[i])
  {
    var col := Column(c, i);
    forall j | 0 <= j < |col| && j != choices[i]
      ensures col[j] == 0
    {
      assert IsBit(c[j][i]);
    }
    SumOfOneHot(col, choices[i]);
  }

  lemma ChoicesGiveOneHotColumns(c: Grid, numSurgeons: nat, choices: seq<nat>)
    requires AssignsByChoice(c, numSurgeons, choices)
    requires forall o :: 0 <= o < |choices| ==> choices[o] < numSurgeons
    ensures ColumnsOneHot(c, |choices|)
  {
    forall i | 0 <= i < |choices|
      ensures HasSoleSurgeon(c, i)
    {
      ChoicesGiveOneHotColumn(c, numSurgeons, choices, i);
    }
  }

  /** The round-robin C has one-hot columns; the 1 of operation `i` is in row
      `i mod num_surgeons` and every column sums to 1. */
  lemma RoundRobinColumnsOneHot(numSurgeons: nat, numOperations: nat)
    requires numSurgeons > 0
    ensures var c := SurgeonAssignment(numSurgeons, numOperations);
      && ColumnsOneHot(c, numOperations)
      && forall i :: 0 <= i < numOperations ==>
           OneHotAt(Column(c, i), i % numSurgeons) && Sum(Column(c, i)) == 1
  {
    var choices := RoundRobinChoices(numSurgeons, numOperations);
    var c := AssignByChoice(numSurgeons, choices);
    ChoicesGiveOneHotColumns(c, numSurgeons, choices);
    forall i | 0 <= i < numOperations
      ensures OneHotAt(Column(c, i), i % numSurgeons) && Sum(Column(c, i)) == 1
    {
      ChoicesGiveOneHotColumn(c, numSurgeons, choices, i);
    }
  }

  /** The uniform variant has one-hot columns too, with the 1 at the draw. */
  lemma RandomColumnsOneHot(numSurgeons: nat, draws: seq<nat>)
    requires forall i :: 0 <= i < |draws| ==> draws[i] < numSurgeons
    ensures var c := SurgeonAssignmentRandom(numSurgeons, draws);
      && ColumnsOneHot(c, |draws|)
      && forall i :: 0 <= i < |draws| ==> OneHotAt(Column(c, i), draws[i]) && Sum(Column(c, i)) == 1
  {
    var c := AssignByChoice(numSurgeons, draws);
    ChoicesGiveOneHotColumns(c, numSurgeons, draws);
    forall i | 0 <= i < |draws|
      ensures OneHotAt(Column(c, i), draws[i]) && Sum(Column(c, i)) == 1
    {
      ChoicesGiveOneHotColumn(c, numSurgeons, draws, i);
    }
  }

  /** Why the source can fail. */
  datatype Fault = ZeroDivisionError

  /** The round-robin builder as written: with operations but no surgeons,
      `i % num_surgeons` raises before anything is returned. */
  function SurgeonAssignmentAsWritten(numSurgeons: nat, numOperations: nat): (r: Result<Grid, Fault>)
    ensures r.Failure? <==> numSurgeons == 0 && numOperations > 0
    ensures r.Success? ==> IsGrid(r.value, numSurgeons, numOperations)
  {
    if numOperations == 0 then Success(seq(numSurgeons, j => []))
    else if numSurgeons == 0 then Failure(ZeroDivisionError)
    else Success(SurgeonAssignment(numSurgeons, numOperations))
  }

  /** The input that shows it: one operation and no surgeon. */
  lemma ZeroSurgeonsDivideByZero()
    ensures SurgeonAssignmentAsWritten(0, 1) == Failure(ZeroDivisionError)
  {
  }
}
