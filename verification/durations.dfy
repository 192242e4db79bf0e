/** Operation durations TP (preparation), TC (surgery) and TN (cleaning):
    `add_operation_times`.

    Per operation the source draws, in this order, `randint(5, 30)` for the
    preparation, `int(lognormal(4, 0.5) + 1)` for the surgery and
    `randint(10, 20)` for the cleaning. The surgery time comes from a
    floating-point sampler outside the model and arrives as a draw of at least
    1 (a positive real plus one, truncated). */
module Durations {

  const PrepMin: int := 5
  const PrepMax: int := 30
  const CleaningMin: int := 10
  const CleaningMax: int := 20

  datatype TimeDraw = TimeDraw(prep: int, surgery: int, cleaning: int)

  datatype Times = Times(prep: seq<int>, surgery: seq<int>, cleaning: seq<int>)

  predicate ValidTimeDraw(d: TimeDraw) {
    PrepMin <= d.prep <= PrepMax && 1 <= d.surgery && CleaningMin <= d.cleaning <= CleaningMax
  }

  /** TP, TC and TN for `numOperations` operations. */
  function OperationTimes(numOperations: nat, draws: seq<TimeDraw>): (t: Times)
    requires |draws| == numOperations
    requires forall i :: 0 <= i < |draws| ==> ValidTimeDraw(draws[i])
    ensures |t.prep| == numOperations && |t.surgery| == numOperations && |t.cleaning| == numOperations
    ensures forall i :: 0 <= i < numOperations ==> PrepMin <= t.prep[i] <= PrepMax
    ensures forall i :: 0 <= i < numOperations ==> CleaningMin <= t.cleaning[i] <= CleaningMax
    ensures forall i :: 0 <= i < numOperations ==> 1 <= t.surgery[i]
  {
    if numOperations == 0 then Times([], [], [])
    else
      var n := numOperations - 1;
      var prefix := OperationTimes(n, draws[..n]);
      assert forall i :: 0 <= i < n ==> draws[..n][i] == draws[i];
      assert ValidTimeDraw(draws[n]);
      Times(prefix.prep + [draws[n].prep], prefix.surgery + [draws[n].surgery], prefix.cleaning + [draws[n].cleaning])
  }

  /** Zips the three lists back into per-operation draws. */
  function DrawsOf(t: Times): (d: seq<TimeDraw>)
    requires |t.prep| == |t.surgery| == |t.cleaning|
    ensures |d| == |t.prep|
  {
    seq(|t.prep|, i requires 0 <= i < |t.prep| => TimeDraw(t.prep[i], t.surgery[i], t.cleaning[i]))
  }

  /** The three lists keep each operation's times together and in operation
      order: zipping them gives back the draws. */
  lemma {:induction false} TimesRoundTrip(numOperations: nat, draws: seq<TimeDraw>)
    requires |draws| == numOperations
    requires forall i :: 0 <= i < |draws| ==> ValidTimeDraw(draws[i])
    ensures DrawsOf(OperationTimes(numOperations, draws)) == draws
  {
    if numOperations > 0 {
      var n := numOperations - 1;
      TimesRoundTrip(n, draws[..n]);
      var t := OperationTimes(numOperations, draws);
      var prefix := OperationTimes(n, draws[..n]);
      forall i | 0 <= i < numOperations
        ensures DrawsOf(t)[i] == draws[i]
      {
        if i < n {
          assert DrawsOf(prefix)[i] == draws[..n][i];
        }
      }
    }
  }
}
