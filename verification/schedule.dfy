/** Surgeon working windows `start_time` / `end_time`: `add_surgeon_schedule`.

    Each surgeon gets one of three windows of the day `[0, 900]` minutes:
    morning `[0, 450]`, afternoon `[450, 900]` or the full day `[0, 900]`.
    A `randint(0, 2)` is drawn for every surgeon; when schedules are switched
    off the draw is overridden by the full day. */
module Schedules {

  /** Length of the working day in minutes (`max_val`). */
  const MaxTime: int := 900

  /** `int(max_val / 2)`: the float division truncated; 450 either way. */
  const HalfTime: int := MaxTime / 2

  const Morning: int := 0
  const Afternoon: int := 1
  const FullDay: int := 2

  datatype Schedule = Schedule(start: seq<int>, end: seq<int>)

  predicate ValidScheduleDraw(d: int) {
    Morning <= d <= FullDay
  }

  /** The window a schedule kind stands for. */
  function WindowStart(kind: int): int {
    if kind == Afternoon then HalfTime else 0
  }

  function WindowEnd(kind: int): int {
    if kind == Morning then HalfTime else MaxTime
  }

  /** One of the three windows the generator knows. */
  ghost predicate IsKnownWindow(start: int, end: int) {
    (start == 0 && end == HalfTime) || (start == HalfTime && end == MaxTime) || (start == 0 && end == MaxTime)
  }

  /** The schedules of surgeons `0..|draws|-1`; `draws[i]` is the `randint(0, 2)`
      drawn for surgeon `i`, and `withSchedule` is the switch that decides
      whether the draw is used. */
  function SurgeonSchedule(withSchedule: bool, draws: seq<int>): (s: Schedule)
    requires forall i :: 0 <= i < |draws| ==> ValidScheduleDraw(draws[i])
    ensures |s.start| == |draws| && |s.end| == |draws|
    ensures forall i :: 0 <= i < |draws| ==> 0 <= s.start[i] < s.end[i] <= MaxTime
    ensures forall i :: 0 <= i < |draws| ==> IsKnownWindow(s.start[i], s.end[i])
    ensures !withSchedule ==> forall i :: 0 <= i < |draws| ==> s.start[i] == 0 && s.end[i] == MaxTime
    ensures withSchedule ==> forall i :: 0 <= i < |draws| ==>
              (s.start[i] == HalfTime <==> draws[i] == Afternoon) && (s.end[i] == HalfTime <==> draws[i] == Morning)
  {
    if |draws| == 0 then Schedule([], [])
    else
      var n := |draws| - 1;
      var prefix := SurgeonSchedule(withSchedule, draws[..n]);
      var kind := if withSchedule then draws[n] else FullDay;
      Schedule(prefix.start + [WindowStart(kind)], prefix.end + [WindowEnd(kind)])
  }

  /** The function as written: it takes a `with_schedule` argument but reads
      the global `global_with_schedule` instead, so the argument is ignored. */
  function SurgeonScheduleAsWritten(numSurgeons: nat, withScheduleArgument: bool, globalWithSchedule: bool,
                                    draws: seq<int>): (s: Schedule)
    requires |draws| == numSurgeons
    requires forall i :: 0 <= i < |draws| ==> ValidScheduleDraw(draws[i])
    ensures |s.start| == numSurgeons && |s.end| == numSurgeons
    ensures forall i :: 0 <= i < numSurgeons ==>
              0 <= s.start[i] < s.end[i] <= MaxTime && IsKnownWindow(s.start[i], s.end[i])
    ensures globalWithSchedule ==> forall i :: 0 <= i < numSurgeons ==>
              (s.start[i] == HalfTime <==> draws[i] == Afternoon) && (s.end[i] == HalfTime <==> draws[i] == Morning)
    ensures !globalWithSchedule ==> forall i :: 0 <= i < numSurgeons ==> s.start[i] == 0 && s.end[i] == MaxTime
  {
    SurgeonSchedule(globalWithSchedule, draws)
  }

  /** Asking for schedules through the argument has no effect while the
      global is off: one surgeon whose draw is "morning" still works all day,
      where the argument-honouring version gives the morning window. */
  lemma ScheduleArgumentIgnored()
    ensures SurgeonScheduleAsWritten(1, true, false, [Morning]).end == [MaxTime]
    ensures SurgeonSchedule(true, [Morning]).end == [HalfTime]
  {
  }

  /** The model's assembler passes the global as the switch, so for the call
      the source makes the argument-honouring version gives the same lists. */
  lemma AsWrittenAgreesWhenArgumentIsTheGlobal(numSurgeons: nat, argument: bool, globalWithSchedule: bool,
                                               draws: seq<int>)
    requires |draws| == numSurgeons
    requires forall i :: 0 <= i < |draws| ==> ValidScheduleDraw(draws[i])
    ensures SurgeonScheduleAsWritten(numSurgeons, argument, globalWithSchedule, draws)
         == SurgeonScheduleAsWritten(numSurgeons, globalWithSchedule, globalWithSchedule, draws)
  {
  }
}
