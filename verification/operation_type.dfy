/** Operation type T (operations x types): `add_operation_type`.

    Every surgeon draws one type, `randint(0, num_op_types - 1)`. Operation `o`
    takes the type of the first surgeon whose row of C has a 1 at `o`; T's row
    for `o` starts all zeros and gets a 1 in that type's column. An operation
    no surgeon performs keeps an all-zero row. */
module OperationType {
  import opened Grids
  import opened Wrappers
  import SurgeonAssignment

  /** The first surgeon, from `from` on, that performs operation `o`. */
  function FirstSurgeon(c: Grid, o: nat, from: nat): (r: Option<nat>)
    requires forall j :: 0 <= j < |c| ==> o < |c[j]|
    requires from <= |c|
    decreases |c| - from
    ensures r.Some? ==> from <= r.value < |c| && c[r.value][o] == 1
    ensures r.Some? ==> forall j :: from <= j < r.value ==> c[j][o] != 1
    ensures r.None? ==> forall j :: from <= j < |c| ==> c[j][o] != 1
  {
    if from == |c| then None
    else if c[from][o] == 1 then Some(from)
    else FirstSurgeon(c, o, from + 1)
  }

  ghost predicate ValidTypeDraws(typePerSurgeon: seq<int>, numOpTypes: nat) {
    forall s :: 0 <= s < |typePerSurgeon| ==> 0 <= typePerSurgeon[s] < numOpTypes
  }

  /** T from C and the type drawn per surgeon (`type_per_surgeon`). C has one
      row per surgeon and at least `numOperations` columns, as the source's
      `matrix_C[c][o]` needs. */
  function OperationType(numOperations: nat, numOpTypes: nat, c: Grid, typePerSurgeon: seq<int>): (t: Grid)
    requires |typePerSurgeon| == |c|
    requires forall j :: 0 <= j < |c| ==> numOperations <= |c[j]|
    requires ValidTypeDraws(typePerSurgeon, numOpTypes)
    ensures IsGrid(t, numOperations, numOpTypes) && BinaryGrid(t)
    ensures forall o :: 0 <= o < numOperations && (forall s :: 0 <= s < |c| ==> c[s][o] != 1) ==> AllZero(t[o])
  {
    seq(numOperations, o requires 0 <= o < numOperations =>
      match FirstSurgeon(c, o, 0)
      case Some(s) => OneHot(numOpTypes, typePerSurgeon[s])
      case None => Zeros(numOpTypes))
  }

  /** The row of an operation is one-hot at the type of its (first) surgeon. */
  lemma OperationTakesSurgeonType(numOperations: nat, numOpTypes: nat, c: Grid, typePerSurgeon: seq<int>,
                                  o: nat, s: nat)
    requires |typePerSurgeon| == |c|
    requires forall j :: 0 <= j < |c| ==> numOperations <= |c[j]|
    requires ValidTypeDraws(typePerSurgeon, numOpTypes)
    requires o < numOperations && s < |c| && c[s][o] == 1
    requires forall j :: 0 <= j < s ==> c[j][o] != 1
    ensures var t := OperationType(numOperations, numOpTypes, c, typePerSurgeon);
      OneHotAt(t[o], typePerSurgeon[s]) && Sum(t[o]) == 1
  {
    var t := OperationType(numOperations, numOpTypes, c, typePerSurgeon);
    var first := FirstSurgeon(c, o, 0);
    assert first == Some(s);
    OneHotIsOneHotAt(numOpTypes, typePerSurgeon[s]);
    SumOfOneHot(t[o], typePerSurgeon[s]);
  }

  /** With the round-robin C the type of operation `o` is the one drawn for
      surgeon `o mod num_surgeons`, and every row of T has exactly one 1. */
  lemma RoundRobinOperationType(numOperations: nat, numSurgeons: nat, numOpTypes: nat, typePerSurgeon: seq<int>)
    requires numSurgeons > 0
    requires |typePerSurgeon| == numSurgeons
    requires ValidTypeDraws(typePerSurgeon, numOpTypes)
    ensures var t := OperationType(numOperations, numOpTypes,
                                   SurgeonAssignment.SurgeonAssignment(numSurgeons, numOperations), typePerSurgeon);
      forall o :: 0 <= o < numOperations ==>
        OneHotAt(t[o], typePerSurgeon[o % numSurgeons]) && Sum(t[o]) == 1
  {
    var c := SurgeonAssignment.SurgeonAssignment(numSurgeons, numOperations);
    forall o | 0 <= o < numOperations
      ensures var t := OperationType(numOperations, numOpTypes, c, typePerSurgeon);
        OneHotAt(t[o], typePerSurgeon[o % numSurgeons]) && Sum(t[o]) == 1
    {
      OperationTakesSurgeonType(numOperations, numOpTypes, c, typePerSurgeon, o, o % numSurgeons);
    }
  }

  /** The same for any C whose columns are one-hot, such as the uniform variant's. */
  lemma OneHotColumnsGiveOneHotTypes(numOperations: nat, numOpTypes: nat, c: Grid, typePerSurgeon: seq<int>,
                                     o: nat, s: nat)
    requires |typePerSurgeon| == |c|
    requires forall j :: 0 <= j < |c| ==> numOperations <= |c[j]|
    requires ValidTypeDraws(typePerSurgeon, numOpTypes)
    requires o < numOperations && SurgeonAssignment.SoleSurgeon(c, o, s)
    ensures OneHotAt(OperationType(numOperations, numOpTypes, c, typePerSurgeon)[o], typePerSurgeon[s])
  {
    OperationTakesSurgeonType(numOperations, numOpTypes, c, typePerSurgeon, o, s);
  }
}
