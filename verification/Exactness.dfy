/**
 Where the two hypotheses of the run theorems come from: exactly when a finished compaction changes
 a live read, which files can make it so, and exactly when a flush in the middle of a manual
 compaction can break the order of a level.
*/
module Exactness {
  import opened Format
  import opened Reads
  import opened DropRule
  import opened Tables
  import opened Ranges
  import opened Boundary
  import opened Lookup
  import opened Picking
  import opened Store
  import opened Invariant
  import opened Runs

  /** A finished compaction leaves all reads from its horizon on as they were if and only if it exposes nothing. */
  lemma FinishReadsIff(s: State, s': State, outputs: set<Table>)
    requires Inv(s) && FinishStep(s, s', outputs)
    ensures (forall user: UserKey, q: nat :: s.job.value.horizon <= q ==>
               Read(Contents(s'), user, q) == Read(Contents(s), user, q))
            <==> !Exposing(s)
  {
    var r := s.job.value;
    hide LevelsSound, JobSound, Read, Exposes, NewerThan;
    FinishContents(s, s', outputs);
    ReadsPreservedIff(Others(s, r), JobInputs(r), r.horizon, BaseIn(r.inputLevels, r.level));
  }

  /** A file of the next level, not among the inputs, goes on with the last user key of an input of that level. */
  ghost predicate BoundaryLeft(next: set<Table>, in1: set<Table>) {
    exists f, g :: f in in1 && g in next - in1 && IsBoundary(g, f.largest)
  }

  /** What the tables read from its horizon on stays as it was if and only if it exposes nothing to them. */
  lemma FinishDurableIff(s: State, s': State, outputs: set<Table>)
    requires Inv(s) && FinishStep(s, s', outputs)
    ensures (forall user: UserKey, q: nat :: s.job.value.horizon <= q
              ==> Read(AllEntries(s'.levels), user, q) == Read(AllEntries(s.levels), user, q))
            <==> !ExposingStored(s)
  {
    var r := s.job.value;
    StoredContents(s, s', outputs);
    hide Inv, Read, Exposes, NewerThan;
    ReadsPreservedIff(Rest(s.levels, r.level, r.in0, r.in1), JobInputs(r), r.horizon, BaseIn(r.inputLevels, r.level));
  }

  lemma NotAbove(over: set<Entry>, under: set<Entry>, d: Entry, v: Entry)
    requires NewerThan(over, under) && d in under && v.key.user == d.key.user && v.key.sequence < d.key.sequence
    ensures v !in over
  {
  }

  /** An older entry left of the same key as an input is not in the inputs' own level, nor above it. */
  lemma OlderNotAbove(levels: Levels, level: nat, in0: set<Table>, in1: set<Table>, d: Entry, v: Entry, l: nat)
    requires NewerAbove(levels) && l <= level && level + 1 < |levels|
    requires Taken(levels[level], levels[level + 1], in0, in1)
    requires d in EntriesOf(in0) + EntriesOf(in1) && v.key.user == d.key.user && v.key.sequence < d.key.sequence
    ensures v !in EntriesOf(if l == level then levels[l] - in0 else levels[l])
  {
    var here, next := levels[level], levels[level + 1];
    EntriesMonotone(in0, here);
    EntriesMonotone(in1, next);
    EntriesMonotone(here - in0, here);
    var under := if d in EntriesOf(in1) then EntriesOf(next)
                 else if l == level then EntriesOf(in0) else EntriesOf(here);
    var over := if l == level then EntriesOf(here - in0) else EntriesOf(levels[l]);
    assert NewerThan(EntriesOf(levels[l]), EntriesOf(next));
    assert l < level ==> NewerThan(EntriesOf(levels[l]), EntriesOf(here));
    assert NewerThan(over, under);
    NotAbove(over, under, d, v);
  }

  /** An older entry left of the same key as a dropped marker can only be in the next level, under an
      input of that level. */
  lemma OlderIsNext(levels: Levels, r: Running, d: Entry, v: Entry, l: nat)
    requires |levels| == NUM_LEVELS && l < NUM_LEVELS && r.level + 1 < NUM_LEVELS
    requires NewerAbove(levels) && Taken(levels[r.level], levels[r.level + 1], r.in0, r.in1) && BaseHolds(levels, r)
    requires d in EntriesOf(r.in0) + EntriesOf(r.in1) && IsBaseIn(r.inputLevels, r.level, d.key.user)
    requires v in EntriesOf(Replace(levels, r.level, r.in0, r.in1, {})[l])
    requires v.key.user == d.key.user && v.key.sequence < d.key.sequence
    ensures l == r.level + 1 && v in EntriesOf(levels[l] - r.in1) && d in EntriesOf(r.in1)
  {
    hide NewerThan;
    EntriesUnion(r.in0, r.in1);
    if l <= r.level {
      OlderNotAbove(levels, r.level, r.in0, r.in1, d, v, l);
    } else if l == r.level + 1 {
      assert levels[l] - r.in1 + {} == levels[l] - r.in1;
    }
  }

  lemma OlderBehind(f: Table, g: Table, d: Entry, v: Entry)
    requires Filled(f) && Filled(g) && d in f.entries && v in g.entries
    requires Before(f.largest, g.smallest) || Before(g.largest, f.smallest)
    requires v.key.user == d.key.user && v.key.sequence < d.key.sequence
    ensures IsBoundary(g, f.largest)
  {
    EntryWithin(f, d);
    EntryWithin(g, v);
  }

  lemma BoundaryBetween(next: set<Table>, in1: set<Table>, d: Entry, v: Entry)
    requires AllFilled(next) && Separated(next) && in1 <= next
    requires d in EntriesOf(in1) && v in EntriesOf(next - in1)
    requires v.key.user == d.key.user && v.key.sequence < d.key.sequence
    ensures BoundaryLeft(next, in1)
  {
    var g :| g in next - in1 && v in g.entries;
    var f :| f in in1 && d in f.entries;
    OlderBehind(f, g, d, v);
  }

  lemma ExposedIsLeft(s: State, r: Running, d: Entry, v: Entry)
    requires Inv(s) && s.job == Some(r) && d in JobInputs(r) && v in Rest(s.levels, r.level, r.in0, r.in1)
    requires IsBaseIn(r.inputLevels, r.level, d.key.user)
    requires v.key.user == d.key.user && v.key.sequence < d.key.sequence
    ensures d in EntriesOf(r.in1) && v in EntriesOf(s.levels[r.level + 1] - r.in1)
  {
    hide NewerAbove, LevelSound, LeavesOnlyNewer, KeysDisjoint, AllOneSide, ClearOfBase, IsRange, GaplessSet;
    hide Unique, Bounded, NewerThan;
    EntriesUnion(r.in0, r.in1);
    var l := InLevel(Replace(s.levels, r.level, r.in0, r.in1, {}), v);
    OlderIsNext(s.levels, r, d, v, l);
  }

  lemma SomeExposed(s: State) returns (d: Entry, v: Entry)
    requires ExposingStored(s)
    ensures var r := s.job.value;
            && d in JobInputs(r) && v in Rest(s.levels, r.level, r.in0, r.in1)
            && IsBaseIn(r.inputLevels, r.level, d.key.user)
    ensures v.key.user == d.key.user && v.key.sequence < d.key.sequence
  {
    var r := s.job.value;
    var rest := Rest(s.levels, r.level, r.in0, r.in1);
    d, v :| Exposes(rest, JobInputs(r), r.horizon, BaseIn(r.inputLevels, r.level), d, v);
  }

  lemma JobFound(s: State)
    requires ExposingStored(s)
    ensures s.job.Some? && s.job.value.level + 1 < |s.levels|
  {
  }

  lemma NextLevelSound(s: State)
    requires Inv(s) && s.job.Some? && s.job.value.level + 1 < |s.levels|
    ensures var next := s.levels[s.job.value.level + 1];
            AllFilled(next) && Separated(next) && s.job.value.in1 <= next
  {
    hide NewerAbove, LeavesOnlyNewer, KeysDisjoint, AllOneSide, BaseHolds, IsRange, GaplessSet, Separated, AllFilled;
    hide SequencesSound;
    var r := s.job.value;
    assert LevelSound(r.level + 1, s.levels[r.level + 1]);
  }

  /** Only a boundary file that the selection leaves behind in the next level can be exposed. */
  lemma ExposureNeedsBoundary(s: State)
    requires Inv(s) && ExposingStored(s)
    ensures BoundaryLeft(s.levels[s.job.value.level + 1], s.job.value.in1)
  {
    var r := s.job.value;
    hide Inv, ExposingStored, BoundaryLeft, IsBaseIn, Separated, AllFilled;
    JobFound(s);
    var d, v := SomeExposed(s);
    ExposedIsLeft(s, r, d, v);
    NextLevelSound(s);
    BoundaryBetween(s.levels[r.level + 1], r.in1, d, v);
  }

  /** So a compaction whose next-level inputs have no boundary file left behind keeps every read from its horizon on. */
  lemma NoBoundaryKeepsReads(s: State, s': State, outputs: set<Table>)
    requires Inv(s) && FinishStep(s, s', outputs)
    requires !BoundaryLeft(s.levels[s.job.value.level + 1], s.job.value.in1)
    ensures forall user: UserKey, q: nat :: s.job.value.horizon <= q ==>
              Read(Contents(s'), user, q) == Read(Contents(s), user, q)
  {
    hide Inv, Read, BoundaryLeft, Exposing, ExposingStored;
    if Exposing(s) {
      ExposingIsStored(s);
      ExposureNeedsBoundary(s);
    }
    FinishReadsIff(s, s', outputs);
  }

  /** When the inputs were chosen, no boundary file of the next level was left out of them. */
  ghost predicate ChosenWhole(step: Label) {
    step.Begin? ==> step.job.level + 1 < |step.job.inputLevels|
                    && !BoundaryLeft(step.job.inputLevels[step.job.level + 1], step.job.in1)
  }

  /** And none has come since. */
  ghost predicate StillWhole(s: State) {
    s.job.Some? && s.job.value.level + 1 < |s.levels| ==>
      !BoundaryLeft(s.levels[s.job.value.level + 1], s.job.value.in1)
  }

  /** A file flushed into a level shares no user key with any file there, so it goes on with no key of theirs. */
  lemma FlushLeavesNoBoundary(next: set<Table>, in1: set<Table>, f: Table)
    requires !BoundaryLeft(next, in1) && in1 <= next && Outside(next, f)
    ensures !BoundaryLeft(next + {f}, in1)
  {
    forall g, h | g in in1 && h in next + {f} - in1 ensures !IsBoundary(h, g.largest) {
      if h == f {
        assert Disjoint(f, g);
      } else {
        assert h in next - in1;
      }
    }
  }

  lemma FlushKeepsWhole(s: State, s': State, f: Table, level: nat)
    requires StillWhole(s) && FlushStep(s, s', f, level)
    requires s.job.Some? ==> s.job.value.level + 1 < NUM_LEVELS && s.job.value.in1 <= s.levels[s.job.value.level + 1]
    ensures StillWhole(s')
  {
    hide BoundaryLeft, Outside, Filled;
    if s.job.Some? && level == s.job.value.level + 1 {
      OutsideLevel(s, f, level);
      FlushLeavesNoBoundary(s.levels[level], s.job.value.in1, f);
    }
  }

  lemma OutsideLevel(s: State, f: Table, level: nat)
    requires FlushEnabled(s, f, level) && level > 0
    ensures Outside(s.levels[level], f)
  {
  }

  lemma StepKeepsWhole(s: State, s': State, step: Label)
    requires Inv(s) && StillWhole(s) && Step(s, s', step) && ChosenWhole(step)
    ensures StillWhole(s')
  {
    if s.job.Some? {
      JobFiles(s);
    }
    hide Inv, StillWhole, BoundaryLeft, FlushEnabled, FinishEnabled, BeginEnabled, MoveEnabled, WriteStep, CrashStep;
    match step {
      case Flush(f, level) => FlushKeepsWhole(s, s', f, level);
      case Crash(kept, last, nextFile) => CrashEndsJob(s, s', kept, last, nextFile); NoJobWhole(s');
      case Write(batch) => WriteKeepsJob(s, s', batch); SameJobWhole(s, s');
      case Begin(r) => BeginsWhole(s, s', r);
      case TrivialMove(level, f) => MoveHasNoJob(s, s', level, f); NoJobWhole(s');
      case Finish(outputs) => NoJobWhole(s');
      case Abandon => NoJobWhole(s');
      case _ => SameJobWhole(s, s');
    }
  }

  lemma SameJobWhole(s: State, s': State)
    requires StillWhole(s) && s'.job == s.job && s'.levels == s.levels
    ensures StillWhole(s')
  {
  }

  lemma NoJobWhole(s: State)
    requires s.job == None
    ensures StillWhole(s)
  {
  }

  lemma MoveHasNoJob(s: State, s': State, level: nat, f: Table)
    requires MoveStep(s, s', level, f)
    ensures s'.job == None
  {
  }

  lemma BeginsWhole(s: State, s': State, r: Running)
    requires BeginStep(s, s', r) && ChosenWhole(Begin(r))
    ensures StillWhole(s')
  {
  }

  lemma CrashEndsJob(s: State, s': State, kept: set<Entry>, last: SequenceNumber, nextFile: nat)
    requires CrashStep(s, s', kept, last, nextFile)
    ensures s'.job == None
  {
  }

  lemma WriteKeepsJob(s: State, s': State, batch: seq<Op>)
    requires WriteStep(s, s', batch)
    ensures s'.job == s.job && s'.levels == s.levels
  {
  }

  /** In a run whose compactions each leave no boundary file of the next level out when their inputs are chosen, every
      state reads the history, through flushes, compactions and crashes. */
  lemma {:induction false} WholeRunReadsHistory(states: seq<State>, steps: seq<Label>, n: nat)
    requires IsRun(states, steps) && n < |states|
    requires forall i :: 0 <= i < |steps| ==> Orderly(states[i], steps[i]) && ChosenWhole(steps[i])
    ensures Good(states[n]) && StillWhole(states[n])
  {
    hide Good, StillWhole, ChosenWhole, Orderly, Step, CoveredOnDisk;
    if n == 0 {
      InitHolds();
      InitWhole();
    } else {
      var i := n - 1;
      WholeRunReadsHistory(states, steps, i);
      assert Step(states[i], states[i + 1], steps[i]);
      WholeStep(states[i], states[i + 1], steps[i]);
    }
  }

  lemma InitWhole()
    ensures StillWhole(Init())
  {
  }

  lemma WholeStep(s: State, s': State, step: Label)
    requires Good(s) && StillWhole(s) && Step(s, s', step) && Orderly(s, step) && ChosenWhole(step)
    ensures Good(s') && StillWhole(s')
  {
    hide Inv, ReadsTrue, DurableTrue, Recorded, Orderly, ChosenWhole, BoundaryLeft;
    if step.Finish? && ExposingStored(s) {
      ExposureNeedsBoundary(s);
    }
    hide ExposingStored, StillWhole, Step;
    StepKeepsWhole(s, s', step);
    StepKeepsGood(s, s', step);
  }

  // ----- a flush in the middle of a manual compaction -----

  /** The survivors of a job, written as one table. */
  lemma OneOutput(s: State, r: Running) returns (o: Table)
    requires s.job == Some(r) && |s.levels| == NUM_LEVELS && r.level + 1 < NUM_LEVELS
    requires Unique(JobSurvivors(r)) && JobSurvivors(r) != {}
    ensures Filled(o) && ToSet(o.entries) == JobSurvivors(r) && FinishEnabled(s, {o})
  {
    o := TableHolding(JobSurvivors(r), 0);
    hide Filled, JobSurvivors;
    assert EntriesOf({o}) == ToSet(o.entries);
  }

  /** A table that holds entries on both sides of another overlaps it. */
  lemma SpansBreaks(o: Table, f: Table, x: Entry, y: Entry)
    requires Filled(o) && x in o.entries && y in o.entries && Before(x.key, f.smallest) && Before(f.largest, y.key)
    ensures o != f && !Before(o.largest, f.smallest) && !Before(f.largest, o.smallest)
  {
    EntryWithin(o, x);
    EntryWithin(o, y);
  }

  lemma SurvivorBesideFile(inputs: set<Table>, f: Table, e: Entry)
    requires AllFilled(inputs) && Outside(inputs, f) && e in EntriesOf(inputs)
    ensures Before(e.key, f.smallest) || Before(f.largest, e.key)
  {
    var g :| g in inputs && e in g.entries;
    EntryWithin(g, e);
  }

  /** Survivors of both kinds exist when the flushed file is not on one side of them. */
  lemma BothSides(inputs: set<Table>, f: Table, es: set<Entry>) returns (x: Entry, y: Entry)
    requires AllFilled(inputs) && Outside(inputs, f) && es <= EntriesOf(inputs) && !OneSide(f, es)
    ensures x in es && y in es && Before(x.key, f.smallest) && Before(f.largest, y.key)
  {
    x :| x in es && !Before(f.largest, x.key);
    y :| y in es && !Before(y.key, f.smallest);
    SurvivorBesideFile(inputs, f, x);
    SurvivorBesideFile(inputs, f, y);
  }

  lemma GapInputs(here: set<Table>, next: set<Table>, r: Running, f: Table)
    requires AllFilled(here) && AllFilled(next) && Outside(here, f) && Outside(next, f)
    requires r.in0 <= here && r.in1 <= next
    ensures AllFilled(r.in0 + r.in1) && Outside(r.in0 + r.in1, f) && f !in r.in1
    ensures JobSurvivors(r) <= EntriesOf(r.in0 + r.in1)
  {
    OutsideBoth(here, next, r.in0, r.in1, f);
    assert !Disjoint(f, f);
  }

  lemma JobFiles(s: State)
    requires FilesSound(s) && s.job.Some?
    ensures var r := s.job.value;
            && r.level + 1 < NUM_LEVELS && AllFilled(s.levels[r.level]) && AllFilled(s.levels[r.level + 1])
            && r.in0 <= s.levels[r.level] && r.in1 <= s.levels[r.level + 1]
  {
    hide NewerAbove, LeavesOnlyNewer, KeysDisjoint, AllOneSide, BaseHolds, IsRange, GaplessSet, NewerByNumber;
    hide Separated;
    var r := s.job.value;
    assert LevelSound(r.level, s.levels[r.level]) && LevelSound(r.level + 1, s.levels[r.level + 1]);
  }

  lemma SurvivorsUnique(s: State, r: Running)
    requires Unique(Contents(s)) && |s.levels| == NUM_LEVELS && r.level + 1 < NUM_LEVELS
    requires r.in0 <= s.levels[r.level] && r.in1 <= s.levels[r.level + 1]
    ensures Unique(JobSurvivors(r))
  {
    EntriesUnion(r.in0, r.in1);
    EntriesMonotone(r.in0, s.levels[r.level]);
    EntriesMonotone(r.in1, s.levels[r.level + 1]);
    assert JobInputs(r) <= AllEntries(s.levels);
    assert JobSurvivors(r) <= JobInputs(r);
  }

  /** A flush that falls in a gap can be followed by a finish that leaves two overlapping files in one level. */
  lemma GapBreaks(s: State, s1: State, f: Table, level: nat) returns (o: Table, s2: State)
    requires Inv(s) && FlushStep(s, s1, f, level) && FallsInGap(s, f, level)
    ensures FinishStep(s1, s2, {o}) && !Separated(s2.levels[level])
  {
    hide LevelsSound, JobSound, AgesSound, HistorySound, SnapshotsSound, NumbersSound, Disjoint, Filled, OneSide;
    hide JobSurvivors, Unique, AllFilled, Outside;
    var r := s.job.value;
    JobFiles(s);
    UniqueContents(s);
    SurvivorsUnique(s, r);
    GapInputs(s.levels[r.level], s.levels[r.level + 1], r, f);
    var x, y := BothSides(r.in0 + r.in1, f, JobSurvivors(r));
    o := OneOutput(s1, r);
    s2 := s1.(job := None, nextFile := s1.nextFile + 1, levels := Replace(s1.levels, r.level, r.in0, r.in1, {o}));
    SpansBreaks(o, f, x, y);
    NotSeparated(s2.levels[level], o, f);
  }

  lemma UniqueContents(s: State)
    requires SequencesSound(s)
    ensures Unique(Contents(s))
  {
  }

  lemma NotSeparated(files: set<Table>, o: Table, f: Table)
    requires o in files && f in files && o != f && !Before(o.largest, f.smallest) && !Before(f.largest, o.smallest)
    ensures !Separated(files)
  {
  }

  /** Exactly the flushes that fall in a gap of a manual compaction put the order of a level at risk. */
  lemma GapIff(s: State, s1: State, f: Table, level: nat)
    requires Inv(s) && FlushStep(s, s1, f, level)
    ensures (forall outputs, s2 :: FinishStep(s1, s2, outputs) ==> LevelsSound(s2.levels)) <==> !FallsInGap(s, f, level)
  {
    hide FallsInGap, AgesSound, HistorySound, SnapshotsSound, NumbersSound, JobsSound, FlushStep, FinishStep;
    hide LevelsSound;
    if FallsInGap(s, f, level) {
      GapCanBreak(s, s1, f, level);
    } else {
      FlushedStaysSound(s, s1, f, level);
      forall outputs, s2 | FinishStep(s1, s2, outputs) ensures LevelsSound(s2.levels) {
        FinishKeepsFiles(s1, s2, outputs);
      }
    }
  }

  lemma FlushedStaysSound(s: State, s1: State, f: Table, level: nat)
    requires Inv(s) && FlushStep(s, s1, f, level) && !FallsInGap(s, f, level)
    ensures FilesSound(s1)
  {
    hide LevelsSound, JobsSound, NumbersSound, NewerThan, Unique, Bounded, HistorySound, SnapshotsSound, FlushEnabled;
    hide FallsInGap;
    FlushKeepsFiles(s, s1, f, level);
  }

  lemma GapCanBreak(s: State, s1: State, f: Table, level: nat)
    requires Inv(s) && FlushStep(s, s1, f, level) && FallsInGap(s, f, level)
    ensures exists outputs, s2 :: FinishStep(s1, s2, outputs) && !LevelsSound(s2.levels)
  {
    hide JobsSound, AgesSound, HistorySound, SnapshotsSound, NumbersSound, AllFilled, Separated, NewerAbove, Outside;
    var o, s2 := GapBreaks(s, s1, f, level);
    assert !LevelSound(level, s2.levels[level]);
    assert FinishStep(s1, s2, {o}) && !LevelsSound(s2.levels);
  }
}
