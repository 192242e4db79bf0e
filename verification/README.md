# Operating-room instance generator, modelled in Dafny

`instance_generator.py` writes random instances of an operating-room
scheduling problem. Each instance is one text file. The file declares the
sizes of the instance (surgeons, rooms, operations, operation types, patients,
infection and latex times) and then one parameter per line:

- room eligibility `A`;
- surgeon assignment `C`;
- surgeon working windows `start_time` / `end_time`;
- patient conditions `I` / `L`;
- operation types `T`;
- durations `TP` / `TC` / `TN`;
- setup times between types `TCSTO`.

A batch driver writes several such files and names each after its sizes, the
setup-time switch, its position and a random identifier.

This project models every matrix builder as a pure function over
`seq<seq<int>>`. The random numbers come in as explicit draw sequences whose
requires clauses state the ranges of the source's `randint` calls. The
Bernoulli comparisons (`uniform(0, 1) < percentage` and
`uniform(0, 1) <= probability`) come in as boolean draws. The three global
switches are fields of `Instance.Config`. The file text is built concretely:
Python's `str()` of ints and of (nested) int lists, and the `NAME = value; \n`
declaration spellings, are written out. A reader of that text is modelled too,
so that order and content can be stated as round trips.

Modules, one per file:

- `Grids`: rows, grids, one-hot vectors, column sums.
- `RoomEligibility`: A.
- `SurgeonAssignment`: C, both variants.
- `Schedules`: the surgeon working windows.
- `Patients`: I, L and K.
- `OperationType`: T.
- `Durations`: TP, TC and TN.
- `SetupTimes`: TCSTO.
- `SurgeonEligibility`: CS and CP.
- `Text`: `str()` of ints and lists, decimal parsing.
- `Declarations`: declaration lines and their reader.
- `Instance`: `add_variables` and `create_file`.
- `Batch`: `generate_n_instances` and the file name.

## Model

| member | source | states |
|---|---|---|
| RoomEligibility.RoomEligibility | instance_generator.py:45-65 | A has `num_operations` rows of `num_rooms` entries, all 0 or 1, and with at least one room every row holds a 1 |
| RoomEligibility.RoomRowFromCells | instance_generator.py:52-63 | cell `j` of a row is 1 exactly when its draw keeps it, or it is the last room and no earlier room was kept |
| RoomEligibility.RoomEligibilityCells | instance_generator.py:45-65 | the same characterisation for every cell `A[i][j]` of the matrix |
| RoomEligibility.AllRoomsPossibleGivesAllOnes | instance_generator.py:49-50 | with `all_rooms_possible` every room is eligible for every operation |
| SurgeonAssignment.AssignByChoice | instance_generator.py:71-80 | the column of operation `i` has a 1 exactly in the row of the surgeon chosen for `i` |
| SurgeonAssignment.SurgeonAssignment | instance_generator.py:84-97 | round-robin C is `num_surgeons` x `num_operations`, binary, and `C[j][i] == 1` iff `i mod num_surgeons == j` |
| SurgeonAssignment.RoundRobinColumnsOneHot | instance_generator.py:89-96 | every column of the round-robin C is one-hot at `i mod num_surgeons` and sums to 1 |
| SurgeonAssignment.SurgeonAssignmentRandom | instance_generator.py:68-81 | the uniform variant puts operation `i` with the surgeon drawn for it and nowhere else |
| SurgeonAssignment.RandomColumnsOneHot | instance_generator.py:73-80 | every column of the uniform variant's C is one-hot at its draw and sums to 1 |
| SurgeonAssignment.SurgeonAssignmentAsWritten | instance_generator.py:88-91 | the round-robin builder fails exactly when there are operations but no surgeons |
| SurgeonAssignment.ZeroSurgeonsDivideByZero | instance_generator.py:91 | one operation and no surgeon raise the division by zero |
| Schedules.SurgeonSchedule | instance_generator.py:100-120 | one window per surgeon, each with `0 <= start < end <= 900` and one of the three known windows; all `(0, 900)` when schedules are off; otherwise the start is 450 iff afternoon and the end is 450 iff morning |
| Schedules.SurgeonScheduleAsWritten | instance_generator.py:100-120 | the source's function reads the global switch, whatever its argument says: every window is one of the three known windows within the day; with the global on, each window follows its surgeon's draw; with it off, every window is the full day |
| Schedules.ScheduleArgumentIgnored | instance_generator.py:100-110 | with the argument on and the global off, a surgeon whose draw is morning still gets the full day |
| Patients.PatientConditions | instance_generator.py:123-139 | I and L have one binary flag per operation, each set exactly when that patient's own draw says so |
| Patients.ConditionsRoundTrip | instance_generator.py:129-138 | reading the draws back from I and L gives the draws, latex in L and infectious in I |
| Patients.OperationPatientIdentity | instance_generator.py:142-154 | K is `num_operations` x `num_operations`, binary, and row `i` is one-hot at `i` |
| Patients.IdentityColumnsAndSymmetry | instance_generator.py:142-154 | every column of K is one-hot on the diagonal and sums to 1, and K equals its transpose |
| OperationType.OperationType | instance_generator.py:157-174 | T is `num_operations` x `num_op_types` and binary; an operation no surgeon performs keeps an all-zero row |
| OperationType.OperationTakesSurgeonType | instance_generator.py:166-172 | the row of operation `o` is one-hot at the type drawn for the first surgeon with a 1 at `o` |
| OperationType.RoundRobinOperationType | instance_generator.py:157-174 | with the round-robin C, row `o` of T is one-hot at `type_per_surgeon[o mod num_surgeons]` and sums to 1 |
| OperationType.OneHotColumnsGiveOneHotTypes | instance_generator.py:166-172 | the same for any C whose column `o` has a single surgeon |
| Durations.OperationTimes | instance_generator.py:177-194 | TP, TC and TN have one entry per operation; prep in [5, 30], cleaning in [10, 20], surgery at least 1 |
| Durations.TimesRoundTrip | instance_generator.py:181-189 | zipping TP, TC and TN gives back each operation's three draws, in operation order |
| SetupTimes.SetupTimes | instance_generator.py:197-207 | TCSTO is `num_op_types` square with a zero diagonal and entries in [0, upper bound]; all zero when setup times are off |
| SetupTimes.SetupTimesUseDraws | instance_generator.py:201-206 | with setup times on, every off-diagonal entry is its draw; with them off the draws do not matter |
| SurgeonEligibility.SurgeonRoomEligibility | instance_generator.py:210-217 | CS is a binary list of `num_surgeons * num_rooms` entries that cuts back, row by row, into the drawn matrix |
| SurgeonEligibility.SurgeonSpecialty | instance_generator.py:220-227 | CP is a binary list of `num_surgeons * num_specialties` entries that cuts back, row by row, into the drawn matrix |
| SurgeonEligibility.FlattenIndex | instance_generator.py:212-215 | the draw for surgeon `i` and column `j` sits at position `i * cols + j` |
| SurgeonEligibility.FlattenRoundTrip | instance_generator.py:212-215 | cutting the flat list back into rows gives the matrix |
| Text.NatRoundTrip | instance_generator.py:35-41 | `str(n)` of a natural reads back as `n` |
| Text.SplitAtGlued | instance_generator.py:35-41 | a text glued at its first separator splits back into its two pieces |
| Declarations.ParseRendered | instance_generator.py:35-41 | a `NAME=value;` line, in any of the source's spacings, reads back as its name and value, leaving the following text untouched |
| Declarations.ParseRenderedAll | instance_generator.py:34-42 | a run of declarations reads back as its names and values, in order |
| Instance.BuildInstance | instance_generator.py:230-255 | the matrices of one instance have their shapes; A, C, I, L, T and the TCSTO off switch keep their 0/1 guarantees; windows lie within the day and are the full day when schedules are off; TP is in [5, 30], TC at least 1, TN in [10, 20] and TCSTO in [0, 60]; and T is derived from the very C that is printed |
| Instance.TypesFollowRoundRobin | instance_generator.py:241-249 | in an assembled instance, the type of operation `o` is the one drawn for surgeon `o mod num_surgeons` |
| Instance.AddVariables | instance_generator.py:33-42 | the header reads back as the seven names in order, each with its number; `num_patients` carries the number of operations |
| Instance.FileRoundTrip | instance_generator.py:230-255 | a file reads back as the 18 declarations in the fixed order, with the sizes and every printed matrix or list |
| Instance.CreateFile | instance_generator.py:230-255 | the text of one instance reads back in the fixed order, with its sizes, with every block the printed value of the instance it built, and with the C and T of that instance |
| Batch.FileName | instance_generator.py:289-297 | a file name reads back as its sizes, its `_ST` flag, its position and its identifier |
| Batch.FileNameInjective | instance_generator.py:288-297 | two different sets of parts never give the same file name |
| Batch.InstanceFile | instance_generator.py:276-299 | the `i`-th file's name records its chosen sizes, the setup-time switch, `i` and its identifier; its text is `create_file` of those sizes and reads back with the counts the name records |
| Batch.BatchFiles | instance_generator.py:265-299 | one file per draw, in the given folder, each with a text whose counts match its name, and no two names in a batch coincide |
| Batch.GenerateBatch | instance_generator.py:258-299 | fails without a folder; with the size check, fails when a size can be below 1, whatever the draws; otherwise `n` files with distinct names that record their parts, each with a text whose counts match its name |
| Batch.EmptyRangeRejected | instance_generator.py:266-271 | a random size range with no value in it gives the size error for any draws |
| Batch.ChosenSizes | instance_generator.py:266-277 | under `use_random` the sizes are exactly the random draw, within the configured ranges; otherwise the fixed configuration |
| Batch.ValidatedInstancesAvoidFaults | instance_generator.py:84-97 | with the size check, every instance has surgeons, so C is defined, and every operation has an eligible room |

## Left out

- Writing the files is left out: `os.makedirs`, `open`/`write`, `print`, and the module-level run. A batch is returned as a list of (folder, name, content) triples.
- The random number generator is left out. Every `randint` arrives as an integer draw in its range. Every `uniform(0, 1)` comparison arrives as a boolean draw.
- Each builder gets its own draw sequences. The order in which the source interleaves draws from one generator is not modelled.
- Cells where the source draws nothing are still given a draw, which is never read. These are A's forced last room, TCSTO's diagonal and TCSTO when the feature is off.
- The surgery time TC comes from `numpy.random.lognormal` plus one, truncated. It arrives as an integer draw of at least 1; the floating-point sampling is not modelled.
- `percentage` and `probability` are not modelled as numbers. They only matter through the boolean draws. Their defaults (0.9 and 0.1) and the `all_rooms_possible` override to 1 appear only as the rule that every cell is kept.
- Python's `str()` is modelled only for ints and lists of ints, which is all the generator prints.
- K, CS and CP have builders, but `create_file` does not print them, so the model's file does not contain them either.
- The globals are immutable parameters. `use_random`, the ranges and the fixed sizes are fields of `Batch.Settings`.
- The docstring of `add_surgeon_schedule` speaks of a day of 300 minutes with windows (0,50) and (50,100). The code uses `max_val = 900` and halves it, and the model follows the code.
- Batch.GenerateBatch: a configuration in which a size can be below 1, or a random range is empty, returns an error instead of reproducing what the source does. The source behaves differently per case. `randint` raises ValueError for an empty range. Zero surgeons raises ZeroDivisionError only when there is at least one operation. Zero operations does not crash: it writes a file of empty matrices. Zero rooms does not crash either: it writes rows with no eligible room, as `RoomEligibility.ZeroRoomsLeavesOperationWithoutRoom` shows. Zero operation types raises ValueError from `randint(0, -1)` as soon as there is a surgeon.

## Findings

| source | as written | input that shows it | evidently intended | confidence | as-written member | corrected member |
|---|---|---|---|---|---|---|
| instance_generator.py:100-110 | `add_surgeon_schedule` takes `with_schedule` but tests the global `global_with_schedule` | `with_schedule=True` with the global False, one surgeon drawing morning: the window is (0, 900) | the argument decides whether the draw is used | medium, not executed | Schedules.ScheduleArgumentIgnored | Schedules.SurgeonSchedule |
| instance_generator.py:88-91 | `i % num_surgeons` with no size check | `num_surgeons = 0`, `num_operations = 1`: ZeroDivisionError | sizes below 1 are rejected before building | high, not executed | SurgeonAssignment.ZeroSurgeonsDivideByZero | Batch.ValidatedInstancesAvoidFaults |
| instance_generator.py:53-63 | the forced room needs a last room to exist | `num_rooms = 0`, one operation: its row is `[]`, with no eligible room | every operation has at least one eligible room | medium, not executed | RoomEligibility.ZeroRoomsLeavesOperationWithoutRoom | Batch.ValidatedInstancesAvoidFaults |
