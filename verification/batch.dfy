/** The batch driver `generate_n_instances`: choose the sizes of each
    instance, build its text with `create_file`, and name its file
    `o<ops>_c<surgeons>_s<rooms>[_ST]_num_<i>_id_<id>.txt`.

    The sizes are either the fixed configuration or one `randint` per size
    within its configured range; the identifier is a `randint(0, 99999)`. Both
    arrive as inputs. Writing the files is left to the caller: the result is
    the list of (folder, name, content) triples the driver would write. */
module Batch {
  import opened Wrappers
  import opened Text
  import opened Grids
  import Instance
  import SurgeonAssignment

  /** The largest random file identifier. */
  const MaxId: nat := 99999

  /** Everything the file name records. */
  datatype FileNameParts = FileNameParts(
    operations: nat, surgeons: nat, rooms: nat, withSetupTime: bool, index: nat, id: nat)

  /** `tag` followed by `str(n)` and then `rest`. */
  function Tagged(tag: string, n: nat, rest: string): string {
    tag + (NatToString(n) + rest)
  }

  function SetupMarker(withSetupTime: bool): string {
    if withSetupTime then "_ST" else ""
  }

  /** The name of one output file, without its folder. It reads back as the
      parts it was made from, so different parts never share a name. */
  function FileName(p: FileNameParts): (name: string)
    ensures ParseFileName(name) == Some(p)
  {
    var tail3 := NameTail(p);
    var tail2 := Tagged("_s", p.rooms, tail3);
    var tail1 := Tagged("_c", p.surgeons, tail2);
    assert tail3[0] == '_';
    ReadTaggedGlued("o", p.operations, tail1);
    ReadTaggedGlued("_c", p.surgeons, tail2);
    ReadTaggedGlued("_s", p.rooms, tail3);
    NameTailRoundTrip(p);
    Tagged("o", p.operations, tail1)
  }

  /** What follows the room count: `_ST` when the setup-time feature is on,
      then the position and the identifier. */
  function NameTail(p: FileNameParts): string {
    SetupMarker(p.withSetupTime) + Tagged("_num_", p.index, Tagged("_id_", p.id, ".txt"))
  }

  /** What follows `prefix` in `s`, when `s` starts with it. */
  function Expect(prefix: string, s: string): Option<string> {
    if |prefix| <= |s| && s[..|prefix|] == prefix then Some(s[|prefix|..]) else None
  }

  /** The length of the run of digits `s` starts with. */
  function DigitRun(s: string): (k: nat)
    ensures k <= |s| && AllDigits(s[..k])
    ensures k < |s| ==> !IsDigit(s[k])
  {
    if |s| == 0 || !IsDigit(s[0]) then 0
    else
      var k := 1 + DigitRun(s[1..]);
      assert s[..k] == [s[0]] + s[1..][..k - 1];
      k
  }

  /** Reads the number `s` starts with, and what follows it. */
  function ReadNumber(s: string): Option<(nat, string)> {
    var k := DigitRun(s);
    match ParseNat(s[..k])
    case None => None
    case Some(n) => Some((n, s[k..]))
  }

  function ReadTagged(tag: string, s: string): Option<(nat, string)> {
    match Expect(tag, s)
    case None => None
    case Some(r) => ReadNumber(r)
  }

  /** Reads a file name back into its parts. */
  function ParseFileName(name: string): Option<FileNameParts> {
    match ReadTagged("o", name)
    case None => None
    case Some((operations, r1)) =>
      match ReadTagged("_c", r1)
      case None => None
      case Some((surgeons, r2)) =>
        match ReadTagged("_s", r2)
        case None => None
        case Some((rooms, r3)) => ParseNameTail(operations, surgeons, rooms, r3)
  }

  /** Reads what follows the room count: the optional `_ST`, the position
      and the identifier. */
  function ParseNameTail(operations: nat, surgeons: nat, rooms: nat, s: string): Option<FileNameParts> {
    var marked := Expect("_ST", s);
    var rest := if marked.Some? then marked.value else s;
    match ReadTagged("_num_", rest)
    case None => None
    case Some((index, r1)) =>
      match ReadTagged("_id_", r1)
      case None => None
      case Some((id, r2)) =>
        if r2 == ".txt" then Some(FileNameParts(operations, surgeons, rooms, marked.Some?, index, id))
        else None
  }

  lemma ExpectGlued(prefix: string, rest: string)
    ensures Expect(prefix, prefix + rest) == Some(rest)
  {
    assert (prefix + rest)[..|prefix|] == prefix;
    assert (prefix + rest)[|prefix|..] == rest;
  }

  /** A run of digits ends where the digits end. */
  lemma {:induction false} DigitRunGlued(a: string, b: string)
    requires AllDigits(a)
    requires |b| == 0 || !IsDigit(b[0])
    ensures DigitRun(a + b) == |a|
  {
    if |a| > 0 {
      assert (a + b)[0] == a[0];
      assert (a + b)[1..] == a[1..] + b;
      DigitRunGlued(a[1..], b);
    } else {
      assert a + b == b;
    }
  }

  lemma ReadNumberGlued(n: nat, rest: string)
    requires |rest| == 0 || !IsDigit(rest[0])
    ensures ReadNumber(NatToString(n) + rest) == Some((n, rest))
  {
    var s := NatToString(n) + rest;
    DigitRunGlued(NatToString(n), rest);
    assert s[..|NatToString(n)|] == NatToString(n);
    assert s[|NatToString(n)|..] == rest;
    NatRoundTrip(n);
  }

  /** Reading a tagged number back gives the number and what followed it. */
  lemma ReadTaggedGlued(tag: string, n: nat, rest: string)
    requires |rest| == 0 || !IsDigit(rest[0])
    ensures ReadTagged(tag, Tagged(tag, n, rest)) == Some((n, rest))
  {
    ExpectGlued(tag, NatToString(n) + rest);
    ReadNumberGlued(n, rest);
  }

  /** After the room count, the name reads `_ST` exactly when the setup-time
      feature is on, and then `_num_`. */
  lemma MarkerRead(withSetupTime: bool, rest: string)
    ensures var s := SetupMarker(withSetupTime) + ("_num_" + rest);
      var marked := Expect("_ST", s);
      && marked.Some? == withSetupTime
      && (if marked.Some? then marked.value else s) == "_num_" + rest
  {
    var s := SetupMarker(withSetupTime) + ("_num_" + rest);
    if withSetupTime {
      ExpectGlued("_ST", "_num_" + rest);
    } else {
      assert s == "_num_" + rest;
      assert s[..3] == "_nu";
    }
  }

  lemma NameTailRoundTrip(p: FileNameParts)
    ensures ParseNameTail(p.operations, p.surgeons, p.rooms, NameTail(p)) == Some(p)
  {
    var tail := Tagged("_id_", p.id, ".txt");
    MarkerRead(p.withSetupTime, NatToString(p.index) + tail);
    ReadTaggedGlued("_num_", p.index, tail);
    ReadTaggedGlued("_id_", p.id, ".txt");
  }

  /** Different parts never share a file name. */
  lemma FileNameInjective(p: FileNameParts, q: FileNameParts)
    ensures p != q ==> FileName(p) != FileName(q)
  {
  }

  /** An inclusive `randint` range. */
  datatype Range = Range(lo: int, hi: int)

  /** The module-level settings `generate_n_instances` reads. */
  datatype Settings = Settings(
    cfg: Instance.Config,
    useRandom: bool,
    operations: Range, surgeons: Range, rooms: Range, opTypes: Range,
    fixed: Instance.Sizes,
    infectionTime: nat, latexTime: nat)

  /** The draws of one instance: its random sizes (used only with
      `use_random`), the draws of its matrices, and its file identifier. */
  datatype InstanceDraws = InstanceDraws(drawnSizes: Instance.Sizes, draws: Instance.Draws, id: nat)

  datatype BatchError = MissingOutputFolder | InvalidSizes

  datatype OutputFile = OutputFile(folder: string, name: string, content: string)

  predicate InRange(x: int, r: Range) {
    r.lo <= x <= r.hi
  }

  predicate SizesInRanges(st: Settings, s: Instance.Sizes) {
    && InRange(s.operations, st.operations) && InRange(s.surgeons, st.surgeons)
    && InRange(s.rooms, st.rooms) && InRange(s.opTypes, st.opTypes)
  }

  predicate Positive(s: Instance.Sizes) {
    s.operations >= 1 && s.surgeons >= 1 && s.rooms >= 1 && s.opTypes >= 1
  }

  predicate PositiveRange(r: Range) {
    1 <= r.lo <= r.hi
  }

  /** The size check the driver needs: every size it can use is at least 1,
      so no instance divides by zero or has an operation without a room. */
  predicate ValidSettings(st: Settings) {
    if st.useRandom then
      PositiveRange(st.operations) && PositiveRange(st.surgeons)
      && PositiveRange(st.rooms) && PositiveRange(st.opTypes)
    else Positive(st.fixed)
  }

  /** The sizes of one instance: the random draw or the fixed configuration. */
  function ChosenSizes(st: Settings, drawn: Instance.Sizes): (s: Instance.Sizes)
    requires st.useRandom ==> SizesInRanges(st, drawn)
    ensures st.useRandom ==> SizesInRanges(st, s) && s == drawn
    ensures !st.useRandom ==> s == st.fixed
    ensures ValidSettings(st) ==> Positive(s)
  {
    if st.useRandom then drawn else st.fixed
  }

  /** Draws of one instance that lie in the ranges of the source's
      `randint` calls. */
  ghost predicate ValidInstanceDraws(st: Settings, di: InstanceDraws) {
    && (st.useRandom ==> SizesInRanges(st, di.drawnSizes))
    && di.id <= MaxId
    && Instance.ValidDraws(ChosenSizes(st, di.drawnSizes), di.draws)
  }

  ghost predicate ValidBatchDraws(st: Settings, ds: seq<InstanceDraws>) {
    forall i :: 0 <= i < |ds| ==> ValidInstanceDraws(st, ds[i])
  }

  function PartsOf(st: Settings, s: Instance.Sizes, index: nat, id: nat): FileNameParts {
    FileNameParts(s.operations, s.surgeons, s.rooms, st.cfg.withSetupTime, index, id)
  }

  /** The parts the name of the `index`-th file records. */
  function NameParts(st: Settings, index: nat, di: InstanceDraws): FileNameParts
    requires st.useRandom ==> SizesInRanges(st, di.drawnSizes)
  {
    PartsOf(st, ChosenSizes(st, di.drawnSizes), index, di.id)
  }

  /** The text of a file reads back in the fixed declaration order, and the
      counts it declares are the sizes its name records. */
  ghost predicate ContentAgreesWithName(content: string, parts: FileNameParts) {
    var p := Instance.ParseFile(content);
    && p.Some? && |p.value| == |Instance.DeclarationOrder|
    && (forall i :: 0 <= i < |Instance.DeclarationOrder| ==> p.value[i].0 == Instance.DeclarationOrder[i])
    && ParseNat(p.value[0].1) == Some(parts.surgeons)
    && ParseNat(p.value[1].1) == Some(parts.rooms)
    && ParseNat(p.value[2].1) == Some(parts.operations)
    && ParseNat(p.value[4].1) == Some(parts.operations)
  }

  /** The file of the `index`-th instance: its name records its parts, and
      its text is the instance `create_file` builds for the sizes that name
      records. */
  function InstanceFile(st: Settings, folder: string, index: nat, di: InstanceDraws): (f: OutputFile)
    requires ValidSettings(st) && ValidInstanceDraws(st, di)
    ensures f.folder == folder
    ensures ParseFileName(f.name) == Some(NameParts(st, index, di))
    ensures f.content == Instance.CreateFile(st.cfg, ChosenSizes(st, di.drawnSizes), st.infectionTime, st.latexTime, di.draws)
    ensures ContentAgreesWithName(f.content, NameParts(st, index, di))
  {
    var s := ChosenSizes(st, di.drawnSizes);
    var parts := PartsOf(st, s, index, di.id);
    OutputFile(folder, FileName(parts),
               Instance.CreateFile(st.cfg, s, st.infectionTime, st.latexTime, di.draws))
  }

  /** Files made at two different positions have different names. */
  lemma InstanceFilesDistinct(st: Settings, folder: string, i: nat, di: InstanceDraws, j: nat, dj: InstanceDraws)
    requires ValidSettings(st) && ValidInstanceDraws(st, di) && ValidInstanceDraws(st, dj)
    requires i != j
    ensures InstanceFile(st, folder, i, di).name != InstanceFile(st, folder, j, dj).name
  {
    var pi := ParseFileName(InstanceFile(st, folder, i, di).name);
    var pj := ParseFileName(InstanceFile(st, folder, j, dj).name);
    assert pi.value.index == i && pj.value.index == j;
  }

  /** The files of a whole batch, one per draw, in order. */
  function BatchFiles(st: Settings, folder: string, ds: seq<InstanceDraws>): (files: seq<OutputFile>)
    requires ValidSettings(st) && ValidBatchDraws(st, ds)
    ensures |files| == |ds|
    ensures forall i :: 0 <= i < |ds| ==>
              && files[i].folder == folder
              && ParseFileName(files[i].name) == Some(NameParts(st, i, ds[i]))
              && ContentAgreesWithName(files[i].content, NameParts(st, i, ds[i]))
    ensures forall i, j :: 0 <= i < j < |ds| ==> files[i].name != files[j].name
  {
    var files := seq(|ds|, i requires 0 <= i < |ds| => InstanceFile(st, folder, i, ds[i]));
    forall i, j | 0 <= i < j < |ds|
      ensures files[i].name != files[j].name
    {
      InstanceFilesDistinct(st, folder, i, ds[i], j, ds[j]);
    }
    files
  }

  /** `generate_n_instances`: fails without an output folder and, in place of
      the crashes the source can hit, when a size can be below 1; otherwise
      one file per instance, each name recording its sizes, the setup-time
      flag and its position, so no two names coincide. */
  function GenerateBatch(n: nat, folder: Option<string>, st: Settings, ds: seq<InstanceDraws>)
    : (r: Result<seq<OutputFile>, BatchError>)
    requires |ds| == n
    requires folder.Some? && ValidSettings(st) ==> ValidBatchDraws(st, ds)
    ensures folder.None? ==> r == Failure(MissingOutputFolder)
    ensures folder.Some? && !ValidSettings(st) ==> r == Failure(InvalidSizes)
    ensures folder.Some? && ValidSettings(st) ==> r.Success?
    ensures r.Success? ==> |r.value| == n
    ensures r.Success? ==> forall i :: 0 <= i < n ==>
              && r.value[i].folder == folder.value
              && ParseFileName(r.value[i].name) == Some(NameParts(st, i, ds[i]))
              && ContentAgreesWithName(r.value[i].content, NameParts(st, i, ds[i]))
    ensures r.Success? ==> forall i, j :: 0 <= i < j < n ==> r.value[i].name != r.value[j].name
  {
    if folder.None? then Failure(MissingOutputFolder)
    else if !ValidSettings(st) then Failure(InvalidSizes)
    else Success(BatchFiles(st, folder.value, ds))
  }

  /** A random size range with no value in it is reported, whatever the draws. */
  lemma EmptyRangeRejected(n: nat, folder: string, st: Settings, ds: seq<InstanceDraws>)
    requires |ds| == n && st.useRandom && st.surgeons.hi < st.surgeons.lo
    ensures GenerateBatch(n, Some(folder), st, ds) == Failure(InvalidSizes)
  {
  }

  /** Under the size check every instance of a batch has surgeons, so the
      round-robin C is defined, and has rooms, so every operation has an
      eligible room. */
  lemma ValidatedInstancesAvoidFaults(st: Settings, di: InstanceDraws)
    requires ValidSettings(st) && ValidInstanceDraws(st, di)
    ensures var s := ChosenSizes(st, di.drawnSizes);
      && SurgeonAssignment.SurgeonAssignmentAsWritten(s.surgeons, s.operations).Success?
      && var inst := Instance.BuildInstance(st.cfg, s, di.draws);
         forall o :: 0 <= o < s.operations ==> HasOne(inst.a[o])
  {
  }
}
