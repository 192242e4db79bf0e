/** Patient conditions I (infectious) and L (latex allergy):
    `add_patient_conditions`, and the operation-patient identity K:
    `add_operation_patient_identity`. There is one patient per operation. */
module Patients {
  import opened Grids

  /** The two Bernoulli draws of one patient, in the order the source takes
      them: latex first, then infectious. Each is the comparison
      `random.uniform(0, 1) <= probability`. */
  datatype PatientDraw = PatientDraw(latex: bool, infectious: bool)

  datatype Conditions = Conditions(infectious: seq<int>, latex: seq<int>)

  function Flag(b: bool): int {
    if b then 1 else 0
  }

  /** I and L for `numOperations` patients. */
  function PatientConditions(numOperations: nat, draws: seq<PatientDraw>): (c: Conditions)
    requires |draws| == numOperations
    ensures |c.infectious| == numOperations && |c.latex| == numOperations
    ensures BinaryRow(c.infectious) && BinaryRow(c.latex)
    ensures forall i :: 0 <= i < numOperations ==>
              (c.infectious[i] == 1 <==> draws[i].infectious) && (c.latex[i] == 1 <==> draws[i].latex)
  {
    Conditions(seq(numOperations, i requires 0 <= i < numOperations => Flag(draws[i].infectious)),
               seq(numOperations, i requires 0 <= i < numOperations => Flag(draws[i].latex)))
  }

  /** Reads the draws back from the two flag lists. */
  function DrawsOf(c: Conditions): (d: seq<PatientDraw>)
    requires |c.infectious| == |c.latex|
    ensures |d| == |c.latex|
  {
    seq(|c.latex|, i requires 0 <= i < |c.latex| => PatientDraw(c.latex[i] == 1, c.infectious[i] == 1))
  }

  /** Nothing is lost or mixed up: each patient's flags are that patient's
      own draws, latex in L and infectious in I. */
  lemma ConditionsRoundTrip(numOperations: nat, draws: seq<PatientDraw>)
    requires |draws| == numOperations
    ensures DrawsOf(PatientConditions(numOperations, draws)) == draws
  {
  }

  /** K: operation `i` belongs to patient `i`. */
  function OperationPatientIdentity(numOperations: nat): (k: Grid)
    ensures IsGrid(k, numOperations, numOperations) && BinaryGrid(k)
    ensures forall i :: 0 <= i < numOperations ==> OneHotAt(k[i], i)
  {
    seq(numOperations, i => OneHot(numOperations, i))
  }

  /** K is a permutation matrix that is its own transpose: every patient has
      exactly one operation, the one with the same index. */
  lemma IdentityColumnsAndSymmetry(numOperations: nat)
    ensures var k := OperationPatientIdentity(numOperations);
      && (forall j :: 0 <= j < numOperations ==> OneHotAt(Column(k, j), j) && Sum(Column(k, j)) == 1)
      && (forall i, j :: 0 <= i < numOperations && 0 <= j < numOperations ==> k[i][j] == k[j][i])
  {
    var k := OperationPatientIdentity(numOperations);
    forall j | 0 <= j < numOperations
      ensures OneHotAt(Column(k, j), j) && Sum(Column(k, j)) == 1
    {
      SumOfOneHot(Column(k, j), j);
    }
  }
}
