/** The instance assembler `create_file` and the header writer `add_variables`.

    `create_file` writes a blank line, the seven scalar declarations, then one
    declaration per parameter in the fixed order A, C, start_time, end_time,
    I, L, T, TP, TC, TN, TCSTO, and a final blank line. The C it prints is the
    same matrix it hands to the operation-type builder. K, CS and CP have
    builders but `create_file` does not call them. */
module Instance {
  import opened Wrappers
  import opened Grids
  import opened Text
  import opened Declarations
  import RoomEligibility
  import SurgeonAssignment
  import Schedules
  import Patients
  import OperationType
  import Durations
  import SetupTimes

  /** The process-wide switches of the source, as one immutable value. */
  datatype Config = Config(withSetupTime: bool, allRoomsPossible: bool, withSchedule: bool)

  datatype Sizes = Sizes(operations: nat, surgeons: nat, rooms: nat, opTypes: nat)

  /** Every random draw one instance consumes, grouped by builder. */
  datatype Draws = Draws(
    rooms: seq<seq<bool>>,
    schedule: seq<int>,
    patients: seq<Patients.PatientDraw>,
    typePerSurgeon: seq<int>,
    times: seq<Durations.TimeDraw>,
    setup: Grid)

  /** The draws have the shapes the sizes ask for and lie in the ranges of
      the source's `randint` calls. */
  ghost predicate ValidDraws(s: Sizes, d: Draws) {
    && |d.rooms| == s.operations
    && (forall i :: 0 <= i < |d.rooms| ==> |d.rooms[i]| == s.rooms)
    && |d.schedule| == s.surgeons
    && (forall i :: 0 <= i < |d.schedule| ==> Schedules.ValidScheduleDraw(d.schedule[i]))
    && |d.patients| == s.operations
    && |d.typePerSurgeon| == s.surgeons
    && OperationType.ValidTypeDraws(d.typePerSurgeon, s.opTypes)
    && |d.times| == s.operations
    && (forall i :: 0 <= i < |d.times| ==> Durations.ValidTimeDraw(d.times[i]))
    && SetupTimes.ValidSetupDraws(d.setup, s.opTypes, SetupTimes.DefaultUpperBound)
  }

  datatype Instance = Instance(
    a: Grid,
    c: Grid,
    schedule: Schedules.Schedule,
    conditions: Patients.Conditions,
    t: Grid,
    times: Durations.Times,
    setup: Grid)

  /** A: one binary row per operation, with an eligible room whenever there
      is a room, and every room when all rooms are possible. */
  ghost predicate RoomsWellFormed(inst: Instance, cfg: Config, s: Sizes) {
    && IsGrid(inst.a, s.operations, s.rooms) && BinaryGrid(inst.a)
    && (s.rooms >= 1 ==> forall i :: 0 <= i < s.operations ==> HasOne(inst.a[i]))
    && (cfg.allRoomsPossible ==> forall i, j :: 0 <= i < s.operations && 0 <= j < s.rooms ==> inst.a[i][j] == 1)
  }

  /** C, the working windows and T: one surgeon per operation, windows within
      the day and the full day when schedules are off, and the type of each
      operation taken from its round-robin surgeon. */
  ghost predicate SurgeonsWellFormed(inst: Instance, cfg: Config, s: Sizes, d: Draws)
    requires |d.typePerSurgeon| == s.surgeons
  {
    && IsGrid(inst.c, s.surgeons, s.operations) && BinaryGrid(inst.c)
    && SurgeonAssignment.ColumnsOneHot(inst.c, s.operations)
    && |inst.schedule.start| == s.surgeons && |inst.schedule.end| == s.surgeons
    && (forall j :: 0 <= j < s.surgeons ==> 0 <= inst.schedule.start[j] < inst.schedule.end[j] <= Schedules.MaxTime)
    && (!cfg.withSchedule ==> forall j :: 0 <= j < s.surgeons ==>
          inst.schedule.start[j] == 0 && inst.schedule.end[j] == Schedules.MaxTime)
    && IsGrid(inst.t, s.operations, s.opTypes)
    && (s.surgeons > 0 ==> forall o :: 0 <= o < s.operations ==> OneHotAt(inst.t[o], d.typePerSurgeon[o % s.surgeons]))
  }

  /** I, L, TP, TC and TN: one binary flag and three durations in their
      ranges per operation. */
  ghost predicate OperationsWellFormed(inst: Instance, s: Sizes) {
    && |inst.conditions.infectious| == s.operations && |inst.conditions.latex| == s.operations
    && BinaryRow(inst.conditions.infectious) && BinaryRow(inst.conditions.latex)
    && |inst.times.prep| == s.operations && |inst.times.surgery| == s.operations && |inst.times.cleaning| == s.operations
    && (forall o :: 0 <= o < s.operations ==> Durations.PrepMin <= inst.times.prep[o] <= Durations.PrepMax)
    && (forall o :: 0 <= o < s.operations ==> 1 <= inst.times.surgery[o])
    && (forall o :: 0 <= o < s.operations ==> Durations.CleaningMin <= inst.times.cleaning[o] <= Durations.CleaningMax)
  }

  /** TCSTO: square over the types, zero diagonal, entries within the bound,
      and all zero when setup times are off. */
  ghost predicate SetupWellFormed(inst: Instance, cfg: Config, s: Sizes) {
    && IsGrid(inst.setup, s.opTypes, s.opTypes)
    && (forall k :: 0 <= k < s.opTypes ==> inst.setup[k][k] == 0)
    && (forall k, l :: 0 <= k < s.opTypes && 0 <= l < s.opTypes ==> 0 <= inst.setup[k][l] <= SetupTimes.DefaultUpperBound)
    && (!cfg.withSetupTime ==> forall k :: 0 <= k < s.opTypes ==> AllZero(inst.setup[k]))
  }

  /** The dimension and structure guarantees of a built instance. */
  ghost predicate WellFormed(inst: Instance, cfg: Config, s: Sizes, d: Draws)
    requires |d.typePerSurgeon| == s.surgeons
  {
    && RoomsWellFormed(inst, cfg, s)
    && SurgeonsWellFormed(inst, cfg, s, d)
    && OperationsWellFormed(inst, s)
    && SetupWellFormed(inst, cfg, s)
  }

  /** The round-robin C, and the empty C the source builds when there are no
      surgeons and no operations. */
  function AssemblerAssignment(s: Sizes): (c: Grid)
    requires s.surgeons > 0 || s.operations == 0
    ensures IsGrid(c, s.surgeons, s.operations) && BinaryGrid(c)
    ensures SurgeonAssignment.ColumnsOneHot(c, s.operations)
    ensures s.surgeons > 0 ==> c == SurgeonAssignment.SurgeonAssignment(s.surgeons, s.operations)
  {
    if s.surgeons == 0 then []
    else
      SurgeonAssignment.RoundRobinColumnsOneHot(s.surgeons, s.operations);
      SurgeonAssignment.SurgeonAssignment(s.surgeons, s.operations)
  }

  /** The matrices `create_file` builds, in its order. The only way the
      source fails here, a division by zero, needs operations without
      surgeons; the draw ranges rule out `randint` on an empty range. */
  function BuildInstance(cfg: Config, s: Sizes, d: Draws): (inst: Instance)
    requires s.surgeons > 0 || s.operations == 0
    requires ValidDraws(s, d)
    ensures WellFormed(inst, cfg, s, d)
    ensures inst.t == OperationType.OperationType(s.operations, s.opTypes, inst.c, d.typePerSurgeon)
  {
    var a := RoomEligibility.RoomEligibility(s.operations, s.rooms, cfg.allRoomsPossible, d.rooms);
    var c := AssemblerAssignment(s);
    var schedule := Schedules.SurgeonSchedule(cfg.withSchedule, d.schedule);
    var conditions := Patients.PatientConditions(s.operations, d.patients);
    var t := OperationType.OperationType(s.operations, s.opTypes, c, d.typePerSurgeon);
    var times := Durations.OperationTimes(s.operations, d.times);
    var setup := SetupTimes.SetupTimes(s.opTypes, cfg.withSetupTime, SetupTimes.DefaultUpperBound, d.setup);
    AllRoomsPossibleRows(s, d);
    TypesFollowRoundRobin(s, d);
    Instance(a, c, schedule, conditions, t, times, setup)
  }

  lemma AllRoomsPossibleRows(s: Sizes, d: Draws)
    requires ValidDraws(s, d)
    ensures forall i, j :: 0 <= i < s.operations && 0 <= j < s.rooms ==>
              RoomEligibility.RoomEligibility(s.operations, s.rooms, true, d.rooms)[i][j] == 1
  {
    forall i, j | 0 <= i < s.operations && 0 <= j < s.rooms
      ensures RoomEligibility.RoomEligibility(s.operations, s.rooms, true, d.rooms)[i][j] == 1
    {
      RoomEligibility.AllRoomsPossibleGivesAllOnes(s.operations, s.rooms, d.rooms, i, j);
    }
  }

  lemma TypesFollowRoundRobin(s: Sizes, d: Draws)
    requires s.surgeons > 0 || s.operations == 0
    requires ValidDraws(s, d)
    ensures var t := OperationType.OperationType(s.operations, s.opTypes, AssemblerAssignment(s), d.typePerSurgeon);
      s.surgeons > 0 ==> forall o :: 0 <= o < s.operations ==> OneHotAt(t[o], d.typePerSurgeon[o % s.surgeons])
  {
    if s.surgeons > 0 {
      OperationType.RoundRobinOperationType(s.operations, s.surgeons, s.opTypes, d.typePerSurgeon);
    }
  }

  /** The names `add_variables` writes, in order. */
  const HeaderNames: seq<string> :=
    [ "num_surgeons", "num_rooms", "num_operations", "num_op_types", "num_patients",
      "infection_time", "latex_time" ]

  /** The names of the parameter blocks `create_file` writes after the header, in order. */
  const BodyNames: seq<string> :=
    [ "A", "C", "start_time", "end_time", "I", "L", "T", "TP", "TC", "TN", "TCSTO" ]

  /** The declaration names of the file format, in order. */
  const DeclarationOrder: seq<string> := HeaderNames + BodyNames

  /** The seven scalar declarations of `add_variables`: only the first has no
      space before its newline, and `num_patients` is written from the number
      of operations. */
  function HeaderDecls(numSurgeons: nat, numRooms: nat, numOperations: nat, numOpTypes: nat,
                       infectionTime: nat, latexTime: nat): seq<Decl>
  {
    var values := [numSurgeons, numRooms, numOperations, numOpTypes, numOperations, infectionTime, latexTime];
    seq(7, i requires 0 <= i < 7 => Decl(HeaderNames[i], NatToString(values[i]), false, false, i != 0))
  }

  /** `add_variables`: the header text. It reads back as the seven names in
      order, each with the number it was written from; `num_patients`
      carries the number of operations. */
  function AddVariables(numSurgeons: nat, numRooms: nat, numOperations: nat, numOpTypes: nat,
                        infectionTime: nat, latexTime: nat): (text: string)
    ensures var p := ParseAll(text);
      && p.Some? && |p.value| == 7
      && (forall i :: 0 <= i < 7 ==> p.value[i].0 == HeaderNames[i])
      && ParseNat(p.value[0].1) == Some(numSurgeons)
      && ParseNat(p.value[1].1) == Some(numRooms)
      && ParseNat(p.value[2].1) == Some(numOperations)
      && ParseNat(p.value[3].1) == Some(numOpTypes)
      && ParseNat(p.value[4].1) == Some(numOperations)
      && ParseNat(p.value[5].1) == Some(infectionTime)
      && ParseNat(p.value[6].1) == Some(latexTime)
  {
    HeaderParses(numSurgeons, numRooms, numOperations, numOpTypes, infectionTime, latexTime);
    HeaderPairs(numSurgeons, numRooms, numOperations, numOpTypes, infectionTime, latexTime);
    NatRoundTrip(numSurgeons);
    NatRoundTrip(numRooms);
    NatRoundTrip(numOperations);
    NatRoundTrip(numOpTypes);
    NatRoundTrip(infectionTime);
    NatRoundTrip(latexTime);
    RenderAll(HeaderDecls(numSurgeons, numRooms, numOperations, numOpTypes, infectionTime, latexTime))
  }

  /** The printed values of the parameter blocks, in the order of `BodyNames`. */
  function BodyValues(inst: Instance): seq<string> {
    [ ReprGrid(inst.a), ReprGrid(inst.c),
      ReprList(inst.schedule.start), ReprList(inst.schedule.end),
      ReprList(inst.conditions.infectious), ReprList(inst.conditions.latex),
      ReprGrid(inst.t),
      ReprList(inst.times.prep), ReprList(inst.times.surgery), ReprList(inst.times.cleaning),
      ReprGrid(inst.setup) ]
  }

  /** Each block is `NAME = <str(value)>; \n`, except that `end_time` and `L`
      have no space before their `=`. */
  function BodyDecls(inst: Instance): seq<Decl> {
    var values := BodyValues(inst);
    seq(11, i requires 0 <= i < 11 => Decl(BodyNames[i], values[i], i != 3 && i != 5, true, true))
  }

  /** A blank line, the header text, the parameter blocks of `inst`, and a
      blank line. */
  function FileText(header: string, inst: Instance): string {
    "\n" + (header + RenderAll(BodyDecls(inst))) + "\n"
  }

  /** The text of one instance file. It reads back in the fixed order with
      the sizes it was built for, every block carries the printed value of the
      instance it built, and the C and T printed in it are the C and T of that
      instance, T having been derived from that C. */
  function CreateFile(cfg: Config, s: Sizes, infectionTime: nat, latexTime: nat, d: Draws): (text: string)
    requires s.surgeons > 0 || s.operations == 0
    requires ValidDraws(s, d)
    ensures var p := ParseFile(text);
      && p.Some? && |p.value| == |DeclarationOrder|
      && (forall i :: 0 <= i < |DeclarationOrder| ==> p.value[i].0 == DeclarationOrder[i])
      && ParseNat(p.value[0].1) == Some(s.surgeons)
      && ParseNat(p.value[1].1) == Some(s.rooms)
      && ParseNat(p.value[2].1) == Some(s.operations)
      && ParseNat(p.value[3].1) == Some(s.opTypes)
      && ParseNat(p.value[4].1) == Some(s.operations)
      && ParseNat(p.value[5].1) == Some(infectionTime)
      && ParseNat(p.value[6].1) == Some(latexTime)
      && (forall k :: 0 <= k < 11 ==> p.value[7 + k].1 == BodyValues(BuildInstance(cfg, s, d))[k])
      // The printed C and T, spelled out: T is the one derived from this C.
      && p.value[8].1 == ReprGrid(BuildInstance(cfg, s, d).c)
      && p.value[13].1 == ReprGrid(BuildInstance(cfg, s, d).t)
  {
    var inst := BuildInstance(cfg, s, d);
    FileRoundTrip(s, infectionTime, latexTime, inst);
    FileText(AddVariables(s.surgeons, s.rooms, s.operations, s.opTypes, infectionTime, latexTime), inst)
  }

  /** Reads an instance file back into its declarations. */
  function ParseFile(text: string): Option<seq<(string, string)>> {
    if |text| >= 2 && text[0] == '\n' && text[|text| - 1] == '\n' then ParseAll(text[1..|text| - 1])
    else None
  }

  lemma HeaderReadable(numSurgeons: nat, numRooms: nat, numOperations: nat, numOpTypes: nat,
                       infectionTime: nat, latexTime: nat)
    ensures var ds := HeaderDecls(numSurgeons, numRooms, numOperations, numOpTypes, infectionTime, latexTime);
      forall i :: 0 <= i < |ds| ==> Readable(ds[i])
  {
  }

  /** No declaration name holds `=` or ends in a space. */
  lemma NamesReadable()
    ensures forall k :: 0 <= k < |BodyNames| ==> '=' !in BodyNames[k] && BodyNames[k][|BodyNames[k]| - 1] != ' '
  {
  }

  /** No printed block value holds `;` or starts with a space. */
  lemma ValuesReadable(inst: Instance)
    ensures forall k :: 0 <= k < 11 ==> ';' !in BodyValues(inst)[k] && BodyValues(inst)[k][0] == '['
  {
    var vs := BodyValues(inst);
    forall k | 0 <= k < 11
      ensures ';' !in vs[k] && vs[k][0] == '['
    {
      ReprTextHasNoSemicolon(vs[k]);
    }
  }

  lemma BodyReadable(inst: Instance)
    ensures forall i :: 0 <= i < |BodyDecls(inst)| ==> Readable(BodyDecls(inst)[i])
  {
    NamesReadable();
    ValuesReadable(inst);
  }

  /** The header parses back to the names and value texts it was written from. */
  lemma HeaderParses(numSurgeons: nat, numRooms: nat, numOperations: nat, numOpTypes: nat,
                     infectionTime: nat, latexTime: nat)
    ensures ParseAll(RenderAll(HeaderDecls(numSurgeons, numRooms, numOperations, numOpTypes, infectionTime, latexTime)))
         == Some(Pairs(HeaderDecls(numSurgeons, numRooms, numOperations, numOpTypes, infectionTime, latexTime)))
  {
    HeaderReadable(numSurgeons, numRooms, numOperations, numOpTypes, infectionTime, latexTime);
    ParseRenderedAll(HeaderDecls(numSurgeons, numRooms, numOperations, numOpTypes, infectionTime, latexTime));
  }

  /** The names and value texts of the header, position by position. */
  lemma HeaderPairs(numSurgeons: nat, numRooms: nat, numOperations: nat, numOpTypes: nat,
                    infectionTime: nat, latexTime: nat)
    ensures var ps := Pairs(HeaderDecls(numSurgeons, numRooms, numOperations, numOpTypes, infectionTime, latexTime));
      && |ps| == 7
      && (forall i :: 0 <= i < 7 ==> ps[i].0 == HeaderNames[i])
      && ps[0].1 == NatToString(numSurgeons)
      && ps[1].1 == NatToString(numRooms)
      && ps[2].1 == NatToString(numOperations)
      && ps[3].1 == NatToString(numOpTypes)
      && ps[4].1 == NatToString(numOperations)
      && ps[5].1 == NatToString(infectionTime)
      && ps[6].1 == NatToString(latexTime)
  {
  }

  /** The names and value texts of the parameter blocks, position by position. */
  lemma BodyPairs(inst: Instance)
    ensures var ps := Pairs(BodyDecls(inst));
      && |ps| == 11
      && (forall k :: 0 <= k < 11 ==> ps[k] == (BodyNames[k], BodyValues(inst)[k]))
      // The C and T blocks, spelled out for the file round trip.
      && ps[1].1 == ReprGrid(inst.c)
      && ps[6].1 == ReprGrid(inst.t)
  {
  }

  /** The file reader strips the opening and closing blank lines. */
  lemma Unframe(inner: string)
    ensures ParseFile("\n" + inner + "\n") == ParseAll(inner)
  {
    var text := "\n" + inner + "\n";
    assert text[1..|text| - 1] == inner;
  }

  /** A blank line, two runs of readable declarations and a blank line parse
      back to the pairs of both runs. */
  lemma ParseFramed(header: seq<Decl>, body: seq<Decl>)
    requires forall i :: 0 <= i < |header| ==> Readable(header[i])
    requires forall i :: 0 <= i < |body| ==> Readable(body[i])
    ensures ParseFile("\n" + (RenderAll(header) + RenderAll(body)) + "\n") == Some(Pairs(header) + Pairs(body))
  {
    Unframe(RenderAll(header) + RenderAll(body));
    RenderAllAppend(header, body);
    ReadableAppend(header, body);
    ParseRenderedAll(header + body);
    PairsAppend(header, body);
  }

  /** A whole file parses back to the header's pairs followed by the blocks' pairs. */
  lemma FileParses(s: Sizes, infectionTime: nat, latexTime: nat, inst: Instance)
    ensures var header := HeaderDecls(s.surgeons, s.rooms, s.operations, s.opTypes, infectionTime, latexTime);
      ParseFile(FileText(RenderAll(header), inst)) == Some(Pairs(header) + Pairs(BodyDecls(inst)))
  {
    HeaderReadable(s.surgeons, s.rooms, s.operations, s.opTypes, infectionTime, latexTime);
    BodyReadable(inst);
    ParseFramed(HeaderDecls(s.surgeons, s.rooms, s.operations, s.opTypes, infectionTime, latexTime), BodyDecls(inst));
  }

  /** Reading back the file of any instance gives the eighteen declarations
      in the fixed order; the counts read back as the sizes, and every block
      carries the printed matrix or list it was written from. */
  lemma FileRoundTrip(s: Sizes, infectionTime: nat, latexTime: nat, inst: Instance)
    ensures var p := ParseFile(FileText(AddVariables(s.surgeons, s.rooms, s.operations, s.opTypes, infectionTime, latexTime), inst));
      && p.Some? && |p.value| == |DeclarationOrder|
      && (forall i :: 0 <= i < |DeclarationOrder| ==> p.value[i].0 == DeclarationOrder[i])
      && ParseNat(p.value[0].1) == Some(s.surgeons)
      && ParseNat(p.value[1].1) == Some(s.rooms)
      && ParseNat(p.value[2].1) == Some(s.operations)
      && ParseNat(p.value[3].1) == Some(s.opTypes)
      && ParseNat(p.value[4].1) == Some(s.operations)
      && ParseNat(p.value[5].1) == Some(infectionTime)
      && ParseNat(p.value[6].1) == Some(latexTime)
      && (forall k :: 0 <= k < 11 ==> p.value[7 + k].1 == BodyValues(inst)[k])
      // The C and T blocks, spelled out for the callers that tie T to this C.
      && p.value[8].1 == ReprGrid(inst.c)
      && p.value[13].1 == ReprGrid(inst.t)
  {
    var hs := Pairs(HeaderDecls(s.surgeons, s.rooms, s.operations, s.opTypes, infectionTime, latexTime));
    var bs := Pairs(BodyDecls(inst));
    FileParses(s, infectionTime, latexTime, inst);
    HeaderPairs(s.surgeons, s.rooms, s.operations, s.opTypes, infectionTime, latexTime);
    BodyPairs(inst);
    var ps := hs + bs;
    assert forall i :: 0 <= i < 7 ==> ps[i] == hs[i];
    assert forall k :: 0 <= k < 11 ==> ps[7 + k] == bs[k];
    NatRoundTrip(s.surgeons);
    NatRoundTrip(s.rooms);
    NatRoundTrip(s.operations);
    NatRoundTrip(s.opTypes);
    NatRoundTrip(infectionTime);
    NatRoundTrip(latexTime);
  }
}
