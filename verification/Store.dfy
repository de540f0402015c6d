/**
 The store as a state machine: writes, memtable switches, flushes, moves, compactions and snapshots,
 interleaved as the background thread and the writers interleave them, and crashes with the recovery
 that follows.

 `history` is every entry ever written.  It is not part of the program; it is what reads are judged by.
*/
module Store {
  import opened Format
  import opened Reads
  import opened DropRule
  import opened Tables
  import opened Ranges
  import opened Boundary
  import opened Lookup
  import opened Picking

  /** A compaction in progress: its inputs, the version they were picked from, and its drop horizon. */
  datatype Running = Running(manual: bool, level: nat, in0: set<Table>, in1: set<Table>, small: InternalKey,
                             large: InternalKey,
                             inputLevels: Levels, horizon: SequenceNumber)

  datatype State = State(mem: set<Entry>, imm: set<Entry>, levels: Levels, lastSequence: SequenceNumber,
                         snapshots: seq<SequenceNumber>, nextFile: nat, job: Option<Running>, history: set<Entry>,
                         recovering: bool)

  datatype Op = Put(user: UserKey, value: Bytes) | Delete(user: UserKey)

  function EntryOf(op: Op, sequence: SequenceNumber): Entry {
    match op
    case Put(user, value) => Entry(InternalKey(user, sequence, Value), value)
    case Delete(user) => Entry(InternalKey(user, sequence, Deletion), [])
  }

  /** The entries of a batch: consecutive sequence numbers from `first`. */
  ghost function BatchEntries(batch: seq<Op>, first: nat): set<Entry>
    requires first + |batch| <= MAX_SEQUENCE + 1
  {
    set i | 0 <= i < |batch| :: EntryOf(batch[i], first + i)
  }

  datatype Label =
    | Write(batch: seq<Op>)
    | SwitchMemTable
    | TakeSnapshot
    | ReleaseSnapshot(index: nat)
    | FlushEmpty
    | Flush(f: Table, level: nat)
    | TrivialMove(level: nat, f: Table)
    | Begin(job: Running)
    | Finish(outputs: set<Table>)
    | Abandon
    | Crash(kept: set<Entry>, last: SequenceNumber, nextFile: nat)
    | Replay(chunk: set<Entry>)
    | Opened

  ghost function Contents(s: State): set<Entry> {
    s.mem + (s.imm + AllEntries(s.levels))
  }

  ghost function Init(): State {
    State({}, {}, seq(NUM_LEVELS, _ => {}), 0, [], 2, None, {}, false)
  }

  predicate IsBaseIn(levels: Levels, level: nat, user: UserKey) {
    forall lvl, f | level + 2 <= lvl < |levels| && f in levels[lvl] :: !(f.smallest.user <= user <= f.largest.user)
  }

  ghost function BaseIn(levels: Levels, level: nat): UserKey -> bool {
    user => IsBaseIn(levels, level, user)
  }

  /** The smallest live snapshot, or the last sequence number when there is none. */
  ghost predicate IsHorizon(s: State, horizon: SequenceNumber) {
    && (forall i :: 0 <= i < |s.snapshots| ==> horizon <= s.snapshots[i])
    && (if s.snapshots == [] then horizon == s.lastSequence else horizon in s.snapshots)
  }

  ghost predicate Outside(files: set<Table>, f: Table) {
    forall g :: g in files ==> Disjoint(f, g)
  }

  ghost function JobInputs(r: Running): set<Entry> {
    EntriesOf(r.in0 + r.in1)
  }

  // ----- steps -----

  /** As deep as nothing overlaps the file on the way, and no deeper: what is in the way of the next level is an
      overlap there, or one in the level after it that is too large. */
  ghost predicate LevelFor(levels: Levels, f: Table, level: nat)
    requires |levels| == NUM_LEVELS && level <= MAX_MEM_COMPACT_LEVEL
  {
    && (level > 0 ==> forall l :: 0 <= l <= level ==> Outside(levels[l], f))
    && (level < MAX_MEM_COMPACT_LEVEL ==>
          || (level == 0 && !Outside(levels[0], f)) || !Outside(levels[level + 1], f) || !Outside(levels[level + 2], f))
  }

  /** Tables written while logs are replayed go to level zero. */
  ghost predicate FlushEnabled(s: State, f: Table, level: nat) {
    && |s.levels| == NUM_LEVELS && level <= MAX_MEM_COMPACT_LEVEL
    && s.imm != {} && Filled(f) && ToSet(f.entries) == s.imm
    && f.number == s.nextFile
    && (if s.recovering then level == 0 else LevelFor(s.levels, f, level))
  }

  ghost predicate MoveEnabled(s: State, level: nat, f: Table) {
    && s.job == None && |s.levels| == NUM_LEVELS && level + 1 < NUM_LEVELS
    && Picked(s.levels[level], s.levels[level + 1], {f}, {}, f.smallest, f.largest)
  }

  ghost predicate BeginEnabled(s: State, r: Running) {
    && s.job == None && |s.levels| == NUM_LEVELS && r.level + 1 < NUM_LEVELS
    && Picked(s.levels[r.level], s.levels[r.level + 1], r.in0, r.in1, r.small, r.large)
    && (!r.manual ==> GaplessSet(r.in0 + r.in1))
    && r.inputLevels == s.levels && IsHorizon(s, r.horizon)
  }

  ghost predicate FinishEnabled(s: State, outputs: set<Table>) {
    && s.job.Some? && |s.levels| == NUM_LEVELS && s.job.value.level + 1 < NUM_LEVELS
    && var r := s.job.value;
       && AllFilled(outputs) && Separated(outputs)
       && EntriesOf(outputs) == Survivors(JobInputs(r), r.horizon, BaseIn(r.inputLevels, r.level))
  }

  ghost predicate WriteStep(s: State, s': State, batch: seq<Op>) {
    && s.lastSequence + |batch| < MAX_SEQUENCE
    && var added := BatchEntries(batch, s.lastSequence + 1);
       s' == s.(mem := s.mem + added, history := s.history + added, lastSequence := s.lastSequence + |batch|)
  }

  ghost predicate SwitchStep(s: State, s': State) {
    s.imm == {} && s' == s.(imm := s.mem, mem := {}, nextFile := s.nextFile + 1)
  }

  ghost predicate ReleaseStep(s: State, s': State, i: nat) {
    i < |s.snapshots| && s' == s.(snapshots := s.snapshots[..i] + s.snapshots[i + 1..])
  }

  ghost predicate FlushStep(s: State, s': State, f: Table, level: nat) {
    && FlushEnabled(s, f, level)
    && s' == s.(imm := {}, levels := s.levels[level := s.levels[level] + {f}], nextFile := s.nextFile + 1)
  }

  ghost predicate MoveStep(s: State, s': State, level: nat, f: Table) {
    && MoveEnabled(s, level, f)
    && s' == s.(levels := Replace(s.levels, level, {f}, {}, {f}))
  }

  ghost predicate BeginStep(s: State, s': State, r: Running) {
    BeginEnabled(s, r) && s' == s.(job := Some(r))
  }

  ghost predicate FinishStep(s: State, s': State, outputs: set<Table>) {
    && FinishEnabled(s, outputs)
    && var r := s.job.value;
       s' == s.(job := None, nextFile := s.nextFile + |outputs|,
                levels := Replace(s.levels, r.level, r.in0, r.in1, outputs))
  }

  /** The levels with the inputs of a compaction taken out and its outputs put in. */
  ghost function Replace(levels: Levels, level: nat, in0: set<Table>, in1: set<Table>, outputs: set<Table>): Levels
    requires level + 1 < |levels|
  {
    levels[level := levels[level] - in0][level + 1 := levels[level + 1] - in1 + outputs]
  }

  /** What was written and is in no table. */
  ghost function Unstored(s: State): set<Entry> {
    s.mem + s.imm
  }

  /** The process ends.  Of what is in no table, `kept` is what the logs still hold; snapshots and a compaction in
      progress are gone.  The last sequence number and the next file number are what manifest and logs tell. */
  ghost predicate CrashStep(s: State, s': State, kept: set<Entry>, last: SequenceNumber, nextFile: nat) {
    && kept <= Unstored(s)
    && (forall e :: e in s.history - (Unstored(s) - kept) ==> e.key.sequence <= last)
    && (forall l, f :: 0 <= l < |s.levels| && f in s.levels[l] ==> f.number < nextFile)
    && s' == s.(mem := kept, imm := {}, snapshots := [], job := None, lastSequence := last, nextFile := nextFile,
                history := s.history - (Unstored(s) - kept), recovering := true)
  }

  /** RecoverLogFile has read this much into a memtable, and is going to write it out. */
  ghost predicate ReplayStep(s: State, s': State, chunk: set<Entry>) {
    && s.imm == {} && chunk <= s.mem
    && (forall x, y :: x in chunk && y in s.mem - chunk ==> x.key.sequence < y.key.sequence)
    && s' == s.(mem := s.mem - chunk, imm := chunk)
  }

  /** A file number may be drawn without a table coming of it. */
  ghost predicate Step(s: State, s': State, step: Label) {
    match step
    case Write(batch) => !s.recovering && WriteStep(s, s', batch)
    case SwitchMemTable => !s.recovering && SwitchStep(s, s')
    case TakeSnapshot => !s.recovering && s' == s.(snapshots := s.snapshots + [s.lastSequence])
    case ReleaseSnapshot(i) => ReleaseStep(s, s', i)
    case FlushEmpty => s.imm == {} && s' == s.(nextFile := s.nextFile + 1)
    case Flush(f, level) => FlushStep(s, s', f, level)
    case TrivialMove(level, f) => !s.recovering && MoveStep(s, s', level, f)
    case Begin(r) => !s.recovering && BeginStep(s, s', r)
    case Finish(outputs) => FinishStep(s, s', outputs)
    case Abandon => s' == s.(job := None)
    case Crash(kept, last, nextFile) => CrashStep(s, s', kept, last, nextFile)
    case Replay(chunk) => s.recovering && ReplayStep(s, s', chunk)
    case Opened => s.recovering && s.imm == {} && s' == s.(recovering := false)
  }
}
