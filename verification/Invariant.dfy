/**
 What every step of the store keeps: the order of the levels, recency between them, and the standing
 of a compaction in progress.
*/
module Invariant {
  import opened Format
  import opened Reads
  import opened DropRule
  import opened Tables
  import opened Ranges
  import opened Boundary
  import opened Lookup
  import opened Picking
  import opened Store

  // ----- the levels -----

  ghost predicate LevelSound(level: nat, files: set<Table>) {
    && AllFilled(files)
    && (if level == 0 then NewerByNumber(files) else Separated(files))
  }

  ghost predicate LevelsSound(levels: Levels) {
    && |levels| == NUM_LEVELS
    && (forall l :: 0 <= l < NUM_LEVELS ==> LevelSound(l, levels[l]))
    && NewerAbove(levels)
  }

  /** A job's inputs are still in place, still ahead of everything around them, and still gapless if automatic. */
  ghost predicate JobSound(levels: Levels, r: Running)
    requires |levels| == NUM_LEVELS
  {
    && r.level + 1 < NUM_LEVELS && |r.inputLevels| == NUM_LEVELS
    && IsRange(r.in0 + r.in1, r.small, r.large)
    && Taken(levels[r.level], levels[r.level + 1], r.in0, r.in1)
    && AllOneSide(levels[r.level + 1] - r.in1, JobSurvivors(r))
    && (!r.manual ==> GaplessSet(r.in0 + r.in1))
    && BaseHolds(levels, r)
  }

  /** The inputs are in place, and nothing they leave behind is out of age order with them. */
  ghost predicate Taken(here: set<Table>, next: set<Table>, in0: set<Table>, in1: set<Table>) {
    && in0 != {} && in0 <= here && in1 <= next
    && LeavesOnlyNewer(here, in0)
    && KeysDisjoint(EntriesOf(next - in1), EntriesOf(in0))
  }

  /** What the job will write. */
  ghost function JobSurvivors(r: Running): set<Entry> {
    Survivors(JobInputs(r), r.horizon, BaseIn(r.inputLevels, r.level))
  }

  /** The table lies wholly before, or wholly after, all of the entries. */
  ghost predicate OneSide(g: Table, es: set<Entry>) {
    (forall e :: e in es ==> Before(g.largest, e.key)) || (forall e :: e in es ==> Before(e.key, g.smallest))
  }

  ghost predicate AllOneSide(files: set<Table>, es: set<Entry>) {
    forall g :: g in files ==> OneSide(g, es)
  }

  /** Where the input version calls a user key base, no deeper level holds an entry of it now either. */
  ghost predicate BaseHolds(levels: Levels, r: Running) {
    forall l :: r.level + 2 <= l < |levels| ==> ClearOfBase(levels[l], r)
  }

  ghost predicate ClearOfBase(files: set<Table>, r: Running) {
    forall x, y :: x in EntriesOf(files) && y in JobInputs(r) && x.key.user == y.key.user
                   ==> !IsBaseIn(r.inputLevels, r.level, y.key.user)
  }

  ghost predicate Bounded(es: set<Entry>, last: SequenceNumber) {
    forall e :: e in es ==> e.key.sequence <= last
  }

  /** Memtables are newer than what is stored under them; sequence numbers tell all entries apart. */
  ghost predicate AgesSound(mem: set<Entry>, imm: set<Entry>, stored: set<Entry>, last: SequenceNumber) {
    && NewerThan(mem, imm + stored) && NewerThan(imm, stored)
    && Unique(mem + (imm + stored)) && Bounded(mem + (imm + stored), last)
  }

  ghost predicate HistorySound(history: set<Entry>, last: SequenceNumber) {
    Unique(history) && Bounded(history, last)
  }

  ghost predicate NumbersSound(levelZero: set<Table>, nextFile: nat) {
    forall f :: f in levelZero ==> f.number < nextFile
  }

  ghost predicate SnapshotsSound(snapshots: seq<SequenceNumber>, horizon: nat, last: SequenceNumber) {
    horizon <= last && forall i :: 0 <= i < |snapshots| ==> horizon <= snapshots[i] <= last
  }

  ghost function Horizon(job: Option<Running>): nat {
    if job.Some? then job.value.horizon else 0
  }

  ghost predicate JobsSound(levels: Levels, job: Option<Running>)
    requires |levels| == NUM_LEVELS
  {
    job.Some? ==> JobSound(levels, job.value)
  }

  /** Files and levels. */
  ghost predicate FilesSound(s: State) {
    && LevelsSound(s.levels)
    && NumbersSound(s.levels[0], s.nextFile)
    && JobsSound(s.levels, s.job)
  }

  /** Sequence numbers. */
  ghost predicate SequencesSound(s: State) {
    && AgesSound(s.mem, s.imm, AllEntries(s.levels), s.lastSequence)
    && HistorySound(s.history, s.lastSequence)
    && SnapshotsSound(s.snapshots, Horizon(s.job), s.lastSequence)
  }

  ghost predicate Inv(s: State) {
    FilesSound(s) && SequencesSound(s)
  }

  /** The one thing that can break the order of a level: a flush into the level a manual compaction writes to,
      between two of the entries it will write. */
  ghost predicate FallsInGap(s: State, f: Table, level: nat) {
    && s.job.Some? && s.job.value.manual && level == s.job.value.level + 1
    && !OneSide(f, JobSurvivors(s.job.value))
  }

  lemma InLevel(levels: Levels, e: Entry) returns (l: nat)
    requires e in AllEntries(levels)
    ensures l < |levels| && e in EntriesOf(levels[l])
  {
    l :| 0 <= l < |levels| && e in EntriesOf(levels[l]);
  }

  // ----- flush -----

  /** A file disjoint from every input of a gapless job lies beside its hull. */
  lemma OutsideGaplessIsBeside(f: Table, files: set<Table>, small: InternalKey, large: InternalKey)
    requires GaplessSet(files) && IsRange(files, small, large) && Outside(files, f)
    ensures Beside(f, small, large)
  {
    assert ApartFromAll(f.smallest.user, f.largest.user, files);
    assert Gapless(files, small.user, large.user);
  }

  lemma AddedEntries(files: set<Table>, f: Table)
    ensures EntriesOf(files + {f}) == EntriesOf(files) + ToSet(f.entries)
  {
  }

  lemma OutsideKeys(files: set<Table>, f: Table)
    requires AllFilled(files) && Filled(f) && Outside(files, f)
    ensures KeysDisjoint(ToSet(f.entries), EntriesOf(files))
  {
    forall x, y | x in ToSet(f.entries) && y in EntriesOf(files) ensures x.key.user != y.key.user {
      var g :| g in files && y in g.entries;
      DisjointKeys(f, g, x, y);
    }
  }

  lemma FlushLevelZero(files: set<Table>, f: Table, nextFile: nat)
    requires LevelSound(0, files) && Filled(f) && f.number == nextFile && forall g :: g in files ==> g.number < nextFile
    requires NewerThan(ToSet(f.entries), EntriesOf(files))
    ensures LevelSound(0, files + {f})
  {
    forall g | g in files ensures NewerThan(ToSet(f.entries), ToSet(g.entries)) {
      assert ToSet(g.entries) <= EntriesOf(files);
    }
  }

  lemma FlushOrderedLevel(level: nat, files: set<Table>, f: Table)
    requires level > 0 && LevelSound(level, files) && Filled(f) && Outside(files, f)
    ensures LevelSound(level, files + {f})
  {
  }

  lemma FlushNewerAbove(levels: Levels, level: nat, f: Table)
    requires LevelsSound(levels) && level < NUM_LEVELS && Filled(f)
    requires NewerThan(ToSet(f.entries), AllEntries(levels))
    requires forall l :: 0 <= l < level ==> Outside(levels[l], f)
    ensures NewerAbove(levels[level := levels[level] + {f}])
  {
    var levels' := levels[level := levels[level] + {f}];
    AddedEntries(levels[level], f);
    forall i, j | 0 <= i < j < |levels'| ensures NewerThan(EntriesOf(levels'[i]), EntriesOf(levels'[j])) {
      assert NewerThan(EntriesOf(levels[i]), EntriesOf(levels[j]));
      if i == level {
        assert EntriesOf(levels[j]) <= AllEntries(levels);
      } else if j == level {
        OutsideKeys(levels[i], f);
      }
    }
  }

  lemma FlushHereKeepsTaken(here: set<Table>, next: set<Table>, in0: set<Table>, in1: set<Table>, f: Table)
    requires Taken(here, next, in0, in1) && NewerThan(ToSet(f.entries), EntriesOf(here))
    ensures Taken(here + {f}, next, in0, in1)
  {
    forall x, y | x in EntriesOf(here + {f} - in0) && y in EntriesOf(in0) && x.key.user == y.key.user
      ensures x.key.sequence > y.key.sequence
    {
      assert y in EntriesOf(here);
      assert x in EntriesOf(here - in0) || x in ToSet(f.entries);
    }
  }

  lemma FlushNextKeepsTaken(here: set<Table>, next: set<Table>, in0: set<Table>, in1: set<Table>, f: Table)
    requires Taken(here, next, in0, in1) && AllFilled(here) && Filled(f) && Outside(here, f)
    ensures Taken(here, next + {f}, in0, in1)
  {
    OutsideKeys(in0, f);
    forall x, y | x in EntriesOf(next + {f} - in1) && y in EntriesOf(in0) ensures x.key.user != y.key.user {
      assert x in EntriesOf(next - in1) || x in ToSet(f.entries);
    }
  }

  /** A file disjoint from the job's inputs shares no user key with them. */
  lemma FlushKeepsBase(files: set<Table>, r: Running, f: Table)
    requires ClearOfBase(files, r) && Filled(f) && AllFilled(r.in0 + r.in1) && Outside(r.in0 + r.in1, f)
    ensures ClearOfBase(files + {f}, r)
  {
    AddedEntries(files, f);
    OutsideKeys(r.in0 + r.in1, f);
  }

  lemma BesideIsOneSide(inputs: set<Table>, small: InternalKey, large: InternalKey, g: Table, es: set<Entry>)
    requires AllFilled(inputs) && IsRange(inputs, small, large) && Beside(g, small, large) && es <= EntriesOf(inputs)
    ensures OneSide(g, es)
  {
    forall e | e in es ensures !Before(e.key, small) && !Before(large, e.key) {
      var f :| f in inputs && e in f.entries;
      EntryWithin(f, e);
    }
  }

  /** In an automatic compaction a flushed file disjoint from the inputs is on one side of all of them. */
  lemma FlushBesideAutomatic(r: Running, f: Table)
    requires IsRange(r.in0 + r.in1, r.small, r.large) && AllFilled(r.in0 + r.in1)
    requires Outside(r.in0 + r.in1, f) && GaplessSet(r.in0 + r.in1)
    ensures OneSide(f, JobSurvivors(r))
  {
    OutsideGaplessIsBeside(f, r.in0 + r.in1, r.small, r.large);
    BesideIsOneSide(r.in0 + r.in1, r.small, r.large, f, JobSurvivors(r));
  }

  lemma FlushKeepsSides(next: set<Table>, in1: set<Table>, es: set<Entry>, f: Table)
    requires AllOneSide(next - in1, es) && OneSide(f, es)
    ensures AllOneSide(next + {f} - in1, es)
  {
  }

  lemma FlushKeepsSelection(levels: Levels, r: Running, f: Table, level: nat)
    requires LevelsSound(levels) && JobSound(levels, r) && level < NUM_LEVELS && Filled(f)
    requires NewerThan(ToSet(f.entries), AllEntries(levels))
    requires level > 0 ==> forall l :: 0 <= l <= level ==> Outside(levels[l], f)
    ensures var levels' := levels[level := levels[level] + {f}];
            Taken(levels'[r.level], levels'[r.level + 1], r.in0, r.in1)
  {
    var here, next := levels[r.level], levels[r.level + 1];
    assert LevelSound(r.level, here);
    if level == r.level {
      assert EntriesOf(here) <= AllEntries(levels);
      FlushHereKeepsTaken(here, next, r.in0, r.in1, f);
    } else if level == r.level + 1 {
      assert Outside(here, f);
      FlushNextKeepsTaken(here, next, r.in0, r.in1, f);
    }
  }

  lemma OutsideBoth(here: set<Table>, next: set<Table>, in0: set<Table>, in1: set<Table>, f: Table)
    requires in0 <= here && in1 <= next && Outside(here, f) && Outside(next, f) && AllFilled(here) && AllFilled(next)
    ensures Outside(in0 + in1, f) && AllFilled(in0 + in1)
  {
  }

  lemma FlushKeepsSurvivorSides(levels: Levels, r: Running, f: Table, level: nat)
    requires LevelsSound(levels) && JobSound(levels, r) && level < NUM_LEVELS && Filled(f)
    requires level > 0 ==> forall l :: 0 <= l <= level ==> Outside(levels[l], f)
    requires r.manual && level == r.level + 1 ==> OneSide(f, JobSurvivors(r))
    ensures AllOneSide(levels[level := levels[level] + {f}][r.level + 1] - r.in1, JobSurvivors(r))
  {
    hide NewerAbove, LeavesOnlyNewer, KeysDisjoint, BaseHolds, NewerByNumber, Separated, AllOneSide, OneSide;
    hide JobSurvivors, Disjoint, Filled;
    hide IsRange, GaplessSet;
    if level == r.level + 1 {
      var here, next := levels[r.level], levels[r.level + 1];
      assert LevelSound(r.level, here) && LevelSound(r.level + 1, next) && Outside(here, f) && Outside(next, f);
      OutsideBoth(here, next, r.in0, r.in1, f);
      if !r.manual {
        FlushBesideAutomatic(r, f);
      }
      FlushKeepsSides(next, r.in1, JobSurvivors(r), f);
    }
  }

  lemma FlushKeepsAllBase(levels: Levels, r: Running, f: Table, level: nat)
    requires LevelsSound(levels) && JobSound(levels, r) && level < NUM_LEVELS && Filled(f)
    requires level > 0 ==> forall l :: 0 <= l <= level ==> Outside(levels[l], f)
    ensures BaseHolds(levels[level := levels[level] + {f}], r)
  {
    hide NewerAbove, LeavesOnlyNewer, KeysDisjoint, NewerByNumber, Separated, IsRange, GaplessSet;
    if level >= r.level + 2 {
      var here, next := levels[r.level], levels[r.level + 1];
      assert LevelSound(r.level, here) && LevelSound(r.level + 1, next) && Outside(here, f) && Outside(next, f);
      OutsideBoth(here, next, r.in0, r.in1, f);
      FlushKeepsBase(levels[level], r, f);
    }
  }

  /** A flush leaves a job in progress sound, unless it falls in a gap of a manual one. */
  lemma FlushKeepsJob(levels: Levels, r: Running, f: Table, level: nat)
    requires LevelsSound(levels) && JobSound(levels, r) && level < NUM_LEVELS && Filled(f)
    requires NewerThan(ToSet(f.entries), AllEntries(levels))
    requires level > 0 ==> forall l :: 0 <= l <= level ==> Outside(levels[l], f)
    requires r.manual && level == r.level + 1 ==> OneSide(f, JobSurvivors(r))
    ensures JobSound(levels[level := levels[level] + {f}], r)
  {
    FlushKeepsSelection(levels, r, f, level);
    FlushKeepsSurvivorSides(levels, r, f, level);
    FlushKeepsAllBase(levels, r, f, level);
  }

  // ----- what a selection gives -----

  lemma PickedIsTaken(here: set<Table>, next: set<Table>, in0: set<Table>, in1: set<Table>,
                      small: InternalKey, large: InternalKey, es: set<Entry>)
    requires Picked(here, next, in0, in1, small, large) && AllFilled(here) && AllFilled(next)
    requires es <= EntriesOf(in0 + in1)
    ensures Taken(here, next, in0, in1) && AllOneSide(next - in1, es)
  {
    forall g | g in next - in1 ensures OneSide(g, es) {
      BesideIsOneSide(in0 + in1, small, large, g, es);
    }
  }

  // ----- replacing inputs by outputs -----

  lemma EntriesMonotone(a: set<Table>, b: set<Table>)
    requires a <= b
    ensures EntriesOf(a) <= EntriesOf(b)
  {
  }

  lemma EntriesUnion(a: set<Table>, b: set<Table>)
    ensures EntriesOf(a + b) == EntriesOf(a) + EntriesOf(b)
  {
  }

  lemma OutputsSeparated(next: set<Table>, in1: set<Table>, outputs: set<Table>)
    requires Separated(next) && AllOneSide(next - in1, EntriesOf(outputs))
    requires AllFilled(outputs) && Separated(outputs)
    ensures Separated(next - in1 + outputs)
  {
    forall o, g | o in outputs && g in next - in1 ensures Before(g.largest, o.smallest) || Before(o.largest,
                                                                                                  g.smallest) {
      OneSideOfTable(g, o, EntriesOf(outputs));
    }
  }

  lemma OneSideOfTable(g: Table, o: Table, es: set<Entry>)
    requires Filled(o) && ToSet(o.entries) <= es && OneSide(g, es)
    ensures Before(g.largest, o.smallest) || Before(o.largest, g.smallest)
  {
    assert o.entries[0] in ToSet(o.entries) && o.entries[|o.entries| - 1] in ToSet(o.entries);
  }

  lemma OutputsNewerAbove(levels: Levels, level: nat, in0: set<Table>, in1: set<Table>, outputs: set<Table>, i: nat,
                          j: nat)
    requires |levels| == NUM_LEVELS && NewerAbove(levels) && level + 1 < NUM_LEVELS
    requires Taken(levels[level], levels[level + 1], in0, in1)
    requires EntriesOf(outputs) <= EntriesOf(in0 + in1) && i < j < NUM_LEVELS
    ensures var levels' := Replace(levels, level, in0, in1, outputs);
            NewerThan(EntriesOf(levels'[i]), EntriesOf(levels'[j]))
  {
    var levels' := Replace(levels, level, in0, in1, outputs);
    assert NewerThan(EntriesOf(levels[i]), EntriesOf(levels[j]));
    EntriesUnion(in0, in1);
    EntriesUnion(levels[level + 1] - in1, outputs);
    EntriesMonotone(levels[level] - in0, levels[level]);
    EntriesMonotone(levels[level + 1] - in1, levels[level + 1]);
    EntriesMonotone(in0, levels[level]);
    EntriesMonotone(in1, levels[level + 1]);
    if j == level + 1 && i < level {
      assert NewerThan(EntriesOf(levels[i]), EntriesOf(levels[level]));
    } else if i == level + 1 {
      assert NewerThan(EntriesOf(levels[level]), EntriesOf(levels[j]));
    }
  }

  lemma SubsetSound(level: nat, files: set<Table>, kept: set<Table>)
    requires LevelSound(level, files) && kept <= files
    ensures LevelSound(level, kept)
  {
  }

  /** Replacing taken inputs by separated tables of their own entries keeps every level and their order of age. */
  lemma ReplaceKeepsSound(levels: Levels, level: nat, in0: set<Table>, in1: set<Table>, outputs: set<Table>)
    requires LevelsSound(levels) && level + 1 < NUM_LEVELS
    requires Taken(levels[level], levels[level + 1], in0, in1)
    requires AllOneSide(levels[level + 1] - in1, EntriesOf(outputs))
    requires AllFilled(outputs) && Separated(outputs) && EntriesOf(outputs) <= EntriesOf(in0 + in1)
    ensures LevelsSound(Replace(levels, level, in0, in1, outputs))
  {
    var levels' := Replace(levels, level, in0, in1, outputs);
    SubsetSound(level, levels[level], levels[level] - in0);
    OutputsSeparated(levels[level + 1], in1, outputs);
    forall i, j | 0 <= i < j < NUM_LEVELS ensures NewerThan(EntriesOf(levels'[i]), EntriesOf(levels'[j])) {
      OutputsNewerAbove(levels, level, in0, in1, outputs, i, j);
    }
  }

  // ----- contents -----

  ghost function Rest(levels: Levels, level: nat, in0: set<Table>, in1: set<Table>): set<Entry>
    requires level + 1 < |levels|
  {
    AllEntries(Replace(levels, level, in0, in1, {}))
  }

  lemma UpdateEntries(levels: Levels, l: nat, files: set<Table>, more: set<Table>)
    requires l < |levels| && levels[l] == files + more
    ensures AllEntries(levels) == AllEntries(levels[l := files]) + EntriesOf(more)
  {
    EntriesUnion(files, more);
    var levels' := levels[l := files];
    forall e | e in AllEntries(levels) ensures e in AllEntries(levels') + EntriesOf(more) {
      var i := InLevel(levels, e);
      assert i == l || e in EntriesOf(levels'[i]);
      assert e in EntriesOf(files) ==> e in EntriesOf(levels'[l]);
    }
    forall e | e in AllEntries(levels') ensures e in AllEntries(levels) {
      var i := InLevel(levels', e);
      assert e in EntriesOf(levels[i]);
    }
  }

  lemma ReplacedContents(levels: Levels, level: nat, in0: set<Table>, in1: set<Table>, outputs: set<Table>)
    requires level + 1 < |levels| && in0 <= levels[level] && in1 <= levels[level + 1]
    ensures AllEntries(levels) == Rest(levels, level, in0, in1) + EntriesOf(in0 + in1)
    ensures AllEntries(Replace(levels, level, in0, in1, outputs)) == Rest(levels, level, in0, in1) + EntriesOf(outputs)
  {
    var none := Replace(levels, level, in0, in1, {});
    EntriesUnion(in0, in1);
    assert levels[level] == levels[level] - in0 + in0;
    UpdateEntries(levels, level, levels[level] - in0, in0);
    var one := levels[level := levels[level] - in0];
    assert one[level + 1] == levels[level + 1] - in1 + in1;
    UpdateEntries(one, level + 1, levels[level + 1] - in1, in1);
    assert levels[level + 1] - in1 + {} == levels[level + 1] - in1;
    assert one[level + 1 := levels[level + 1] - in1] == none;
    var out := Replace(levels, level, in0, in1, outputs);
    UpdateEntries(out, level + 1, levels[level + 1] - in1, outputs);
    assert out[level + 1 := levels[level + 1] - in1] == none;
  }
}
