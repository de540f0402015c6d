/**
 Whole runs of the store: the invariant holds in every reachable state, and every live snapshot
 reads what the history of writes says it should.
*/
module Runs {
  import opened Format
  import opened Reads
  import opened DropRule
  import opened Tables
  import opened Ranges
  import opened Boundary
  import opened Lookup
  import opened Picking
  import opened Store
  import opened Invariant

  /** Reads at every live snapshot, and at the latest sequence number or beyond, agree with the history. */
  ghost predicate Agree(contents: set<Entry>, history: set<Entry>, snapshots: seq<SequenceNumber>,
                        last: SequenceNumber) {
    forall user: UserKey, q: nat :: q in snapshots || q >= last ==> Read(contents, user, q) == Read(history, user, q)
  }

  ghost predicate ReadsTrue(s: State) {
    Agree(Contents(s), s.history, s.snapshots, s.lastSequence)
  }

  /** Everything in the store outside the inputs of the job. */
  ghost function Others(s: State, r: Running): set<Entry>
    requires r.level + 1 < |s.levels|
  {
    s.mem + (s.imm + Rest(s.levels, r.level, r.in0, r.in1))
  }

  /** Dropping a deletion marker of the running compaction would uncover an older value. */
  ghost predicate Exposing(s: State) {
    && s.job.Some? && s.job.value.level + 1 < |s.levels|
    && var r := s.job.value;
       exists d, v :: Exposes(Others(s, r), JobInputs(r), r.horizon, BaseIn(r.inputLevels, r.level), d, v)
  }

  /** What was written and has gone into tables. */
  ghost function Flushed(s: State): set<Entry> {
    s.history - Unstored(s)
  }

  /** All that is stored was written, and what is in no table is newer than all that was flushed. */
  ghost predicate Recorded(s: State) {
    Unstored(s) <= s.history && AllEntries(s.levels) <= Flushed(s) && NewerThan(Unstored(s), Flushed(s))
  }

  /** The tables alone read what was flushed: what a crash leaves is as good as what was there before. */
  ghost predicate DurableTrue(s: State) {
    Agree(AllEntries(s.levels), Flushed(s), [], s.lastSequence)
  }

  /** The same uncovering, seen by the tables alone.  A newer entry in a memtable does not help: it may be lost. */
  ghost predicate ExposingStored(s: State) {
    && s.job.Some? && s.job.value.level + 1 < |s.levels|
    && var r := s.job.value;
       exists d, v ::
         Exposes(Rest(s.levels, r.level, r.in0, r.in1), JobInputs(r), r.horizon, BaseIn(r.inputLevels, r.level), d, v)
  }

  lemma InitHolds()
    ensures Good(Init())
  {
    assert AllEntries(Init().levels) == {};
    assert Contents(Init()) == {};
    assert Flushed(Init()) == {};
  }

  // ----- writes -----

  ghost predicate Above(es: set<Entry>, last: SequenceNumber) {
    forall e :: e in es ==> e.key.sequence > last
  }

  lemma BatchFresh(batch: seq<Op>, last: SequenceNumber)
    requires last + |batch| < MAX_SEQUENCE
    ensures Unique(BatchEntries(batch, last + 1)) && Bounded(BatchEntries(batch, last + 1), last + |batch|)
    ensures Above(BatchEntries(batch, last + 1), last)
  {
  }

  lemma AddFresh(es: set<Entry>, added: set<Entry>, last: SequenceNumber, last': SequenceNumber)
    requires Unique(es) && Bounded(es, last) && last <= last'
    requires Unique(added) && Bounded(added, last') && Above(added, last)
    ensures Unique(es + added) && Bounded(es + added, last') && NewerThan(added, es)
  {
  }

  lemma WriteKeepsAges(mem: set<Entry>, imm: set<Entry>, stored: set<Entry>, last: SequenceNumber,
                       added: set<Entry>, last': SequenceNumber)
    requires AgesSound(mem, imm, stored, last) && last <= last'
    requires Unique(added) && Bounded(added, last') && Above(added, last)
    ensures AgesSound(mem + added, imm, stored, last')
  {
    AddFresh(mem + (imm + stored), added, last, last');
    assert mem + added + (imm + stored) == mem + (imm + stored) + added;
  }

  lemma WriteKeepsSequences(s: State, s': State, batch: seq<Op>)
    requires SequencesSound(s) && WriteStep(s, s', batch)
    ensures SequencesSound(s')
  {
    var added := BatchEntries(batch, s.lastSequence + 1);
    BatchKeepsAges(s.mem, s.imm, AllEntries(s.levels), s.history, batch, s.lastSequence);
  }

  lemma BatchKeepsAges(mem: set<Entry>, imm: set<Entry>, stored: set<Entry>, history: set<Entry>, batch: seq<Op>,
                       last: SequenceNumber)
    requires AgesSound(mem, imm, stored, last) && HistorySound(history, last) && last + |batch| < MAX_SEQUENCE
    ensures AgesSound(mem + BatchEntries(batch, last + 1), imm, stored, last + |batch|)
    ensures HistorySound(history + BatchEntries(batch, last + 1), last + |batch|)
  {
    var added := BatchEntries(batch, last + 1);
    BatchFresh(batch, last);
    WriteKeepsAges(mem, imm, stored, last, added, last + |batch|);
    AddFresh(history, added, last, last + |batch|);
  }

  /** Adding the same newer entries to two sets that read alike keeps them reading alike. */
  lemma ReadAfterAdding(a: set<Entry>, b: set<Entry>, added: set<Entry>, user: UserKey, q: nat)
    requires Unique(a + added) && Unique(b + added) && NewerThan(added, a) && NewerThan(added, b)
    requires Read(a, user, q) == Read(b, user, q)
    ensures Read(a + added, user, q) == Read(b + added, user, q)
  {
    NewestExists(added, user, q);
    if Nothing(added, user, q) {
      ReadIgnoring(a, added, user, q);
      ReadIgnoring(b, added, user, q);
    } else {
      var e :| Newest(added, user, q, e);
      ReadAdded(a, added, user, q, e);
      ReadAdded(b, added, user, q, e);
    }
  }

  lemma ReadIgnoring(a: set<Entry>, added: set<Entry>, user: UserKey, q: nat)
    requires Unique(a + added) && Nothing(added, user, q)
    ensures Read(a + added, user, q) == Read(a, user, q)
  {
    NewestExists(a, user, q);
    if Nothing(a, user, q) {
      forall x ensures !Visible(a + added, user, q, x) {
        assert !Visible(a, user, q, x) && !Visible(added, user, q, x);
      }
      ReadNothing(a, user, q);
      ReadNothing(a + added, user, q);
    } else {
      var e :| Newest(a, user, q, e);
      forall x | Visible(a + added, user, q, x) ensures x.key.sequence <= e.key.sequence {
        assert !Visible(added, user, q, x);
        assert Visible(a, user, q, x);
      }
      ReadNewest(a, user, q, e);
      ReadNewest(a + added, user, q, e);
    }
  }

  lemma ReadAdded(a: set<Entry>, added: set<Entry>, user: UserKey, q: nat, e: Entry)
    requires Unique(a + added) && NewerThan(added, a) && Newest(added, user, q, e)
    ensures Read(a + added, user, q) == Result(e)
  {
    forall x | Visible(a + added, user, q, x) ensures x.key.sequence <= e.key.sequence {
      assert x in added ==> Visible(added, user, q, x);
    }
    ReadNewest(a + added, user, q, e);
  }

  lemma WriteKeepsAgreement(contents: set<Entry>, history: set<Entry>, snapshots: seq<SequenceNumber>,
                            last: SequenceNumber,
                            added: set<Entry>, last': SequenceNumber)
    requires Agree(contents, history, snapshots, last) && last <= last'
    requires Unique(contents) && Bounded(contents, last) && HistorySound(history, last)
    requires Unique(added) && Bounded(added, last') && Above(added, last)
    ensures Agree(contents + added, history + added, snapshots, last')
  {
    AddFresh(contents, added, last, last');
    AddFresh(history, added, last, last');
    forall user: UserKey, q: nat | q in snapshots || q >= last'
      ensures Read(contents + added, user, q) == Read(history + added, user, q)
    {
      ReadAfterAdding(contents, history, added, user, q);
    }
  }

  lemma BatchKeepsAgreement(contents: set<Entry>, history: set<Entry>, snapshots: seq<SequenceNumber>,
                            last: SequenceNumber,
                            batch: seq<Op>)
    requires Agree(contents, history, snapshots, last) && last + |batch| < MAX_SEQUENCE
    requires Unique(contents) && Bounded(contents, last) && HistorySound(history, last)
    ensures Agree(contents + BatchEntries(batch, last + 1), history + BatchEntries(batch, last + 1), snapshots,
                  last + |batch|)
  {
    BatchFresh(batch, last);
    WriteKeepsAgreement(contents, history, snapshots, last, BatchEntries(batch, last + 1), last + |batch|);
  }

  lemma UnionSwap(a: set<Entry>, b: set<Entry>, c: set<Entry>)
    ensures a + b + c == a + c + b
  {
  }

  lemma WriteKeepsReads(s: State, s': State, batch: seq<Op>)
    requires SequencesSound(s) && ReadsTrue(s) && WriteStep(s, s', batch)
    ensures ReadsTrue(s')
  {
    hide Read, Unique, Bounded, NewerThan;
    UnionSwap(s.mem, BatchEntries(batch, s.lastSequence + 1), s.imm + AllEntries(s.levels));
    BatchKeepsAgreement(Contents(s), s.history, s.snapshots, s.lastSequence, batch);
  }

  // ----- memtable switch, snapshots -----

  lemma SwitchKeepsAges(mem: set<Entry>, stored: set<Entry>, last: SequenceNumber)
    requires AgesSound(mem, {}, stored, last)
    ensures AgesSound({}, mem, stored, last)
    ensures mem + ({} + stored) == {} + (mem + stored)
  {
    assert {} + stored == stored;
    assert {} + (mem + stored) == mem + ({} + stored);
  }

  lemma SwitchKeepsSequences(s: State, s': State)
    requires SequencesSound(s) && SwitchStep(s, s')
    ensures SequencesSound(s') && Contents(s') == Contents(s)
  {
    SwitchKeepsAges(s.mem, AllEntries(s.levels), s.lastSequence);
  }

  lemma TakeKeepsSequences(s: State, s': State)
    requires SequencesSound(s) && s' == s.(snapshots := s.snapshots + [s.lastSequence])
    ensures SequencesSound(s') && (ReadsTrue(s) ==> ReadsTrue(s'))
  {
    assert forall q: nat :: q in s'.snapshots ==> q in s.snapshots || q == s.lastSequence;
  }

  lemma ReleaseKeepsSequences(s: State, s': State, i: nat)
    requires SequencesSound(s) && ReleaseStep(s, s', i)
    ensures SequencesSound(s') && (ReadsTrue(s) ==> ReadsTrue(s'))
  {
    assert forall q: nat :: q in s'.snapshots ==> q in s.snapshots;
  }

  // ----- flush -----

  lemma FlushedEntries(levels: Levels, f: Table, level: nat)
    requires level < |levels|
    ensures AllEntries(levels[level := levels[level] + {f}]) == AllEntries(levels) + ToSet(f.entries)
  {
    var levels' := levels[level := levels[level] + {f}];
    UpdateEntries(levels', level, levels[level], {f});
    assert levels'[level := levels[level]] == levels;
    assert EntriesOf({f}) == ToSet(f.entries);
  }

  lemma FlushKeepsLevels(levels: Levels, f: Table, level: nat, nextFile: nat)
    requires LevelsSound(levels) && level < NUM_LEVELS && Filled(f) && f.number == nextFile
    requires NumbersSound(levels[0], nextFile)
    requires NewerThan(ToSet(f.entries), AllEntries(levels))
    requires level > 0 ==> forall l :: 0 <= l <= level ==> Outside(levels[l], f)
    ensures LevelsSound(levels[level := levels[level] + {f}])
  {
    assert LevelSound(level, levels[level]);
    if level == 0 {
      assert EntriesOf(levels[0]) <= AllEntries(levels);
      FlushLevelZero(levels[0], f, nextFile);
    } else {
      FlushOrderedLevel(level, levels[level], f);
    }
    FlushNewerAbove(levels, level, f);
  }

  lemma FlushKeepsAges(mem: set<Entry>, imm: set<Entry>, stored: set<Entry>, last: SequenceNumber)
    requires AgesSound(mem, imm, stored, last)
    ensures AgesSound(mem, {}, stored + imm, last)
    ensures mem + ({} + (stored + imm)) == mem + (imm + stored)
  {
    assert {} + (stored + imm) == imm + stored;
  }

  lemma FlushKeepsNumbers(levels: Levels, f: Table, level: nat, nextFile: nat)
    requires level < |levels| && NumbersSound(levels[0], nextFile) && f.number == nextFile
    ensures NumbersSound(levels[level := levels[level] + {f}][0], nextFile + 1)
  {
  }

  lemma FlushKeepsSequences(s: State, s': State, f: Table, level: nat)
    requires SequencesSound(s) && FlushStep(s, s', f, level)
    ensures SequencesSound(s') && Contents(s') == Contents(s)
  {
    FlushedEntries(s.levels, f, level);
    FlushKeepsAges(s.mem, s.imm, AllEntries(s.levels), s.lastSequence);
  }

  lemma FlushKeepsFiles(s: State, s': State, f: Table, level: nat)
    requires FilesSound(s) && NewerThan(s.imm, AllEntries(s.levels))
    requires FlushStep(s, s', f, level) && !FallsInGap(s, f, level)
    ensures FilesSound(s')
  {
    FlushKeepsLevels(s.levels, f, level, s.nextFile);
    FlushKeepsNumbers(s.levels, f, level, s.nextFile);
    if s.job.Some? {
      FlushKeepsJob(s.levels, s.job.value, f, level);
    }
  }

  // ----- compactions -----

  lemma BeginBase(levels: Levels, r: Running, l: nat)
    requires LevelsSound(levels) && r.inputLevels == levels && r.level + 2 <= l < |levels|
    ensures ClearOfBase(levels[l], r)
  {
    assert LevelSound(l, levels[l]);
    forall x, y | x in EntriesOf(levels[l]) && y in JobInputs(r) && x.key.user == y.key.user
      ensures !IsBaseIn(r.inputLevels, r.level, y.key.user)
    {
      var f :| f in levels[l] && x in f.entries;
      EntryWithin(f, x);
    }
  }

  lemma BeginJobSound(levels: Levels, r: Running)
    requires LevelsSound(levels) && r.inputLevels == levels && r.level + 1 < NUM_LEVELS
    requires Picked(levels[r.level], levels[r.level + 1], r.in0, r.in1, r.small, r.large)
    requires !r.manual ==> GaplessSet(r.in0 + r.in1)
    ensures JobSound(levels, r)
  {
    assert LevelSound(r.level, levels[r.level]) && LevelSound(r.level + 1, levels[r.level + 1]);
    PickedIsTaken(levels[r.level], levels[r.level + 1], r.in0, r.in1, r.small, r.large, JobSurvivors(r));
    forall l | r.level + 2 <= l < |levels| ensures ClearOfBase(levels[l], r) {
      BeginBase(levels, r, l);
    }
  }

  lemma BeginKeepsFiles(s: State, s': State, r: Running)
    requires FilesSound(s) && BeginStep(s, s', r)
    ensures FilesSound(s')
  {
    BeginJobSound(s.levels, r);
  }

  lemma BeginKeepsSequences(s: State, s': State, r: Running)
    requires SequencesSound(s) && BeginStep(s, s', r)
    ensures SequencesSound(s')
  {
    if s.snapshots != [] {
      var i :| 0 <= i < |s.snapshots| && s.snapshots[i] == r.horizon;
    }
  }

  lemma FewerStoredKeepAges(mem: set<Entry>, imm: set<Entry>, stored: set<Entry>, stored': set<Entry>,
                            last: SequenceNumber)
    requires AgesSound(mem, imm, stored, last) && stored' <= stored
    ensures AgesSound(mem, imm, stored', last)
  {
    assert mem + (imm + stored') <= mem + (imm + stored);
  }

  lemma MoveKeepsLevels(levels: Levels, level: nat, f: Table)
    requires LevelsSound(levels) && level + 1 < NUM_LEVELS
    requires Picked(levels[level], levels[level + 1], {f}, {}, f.smallest, f.largest)
    ensures LevelsSound(Replace(levels, level, {f}, {}, {f}))
    ensures AllEntries(Replace(levels, level, {f}, {}, {f})) == AllEntries(levels)
  {
    assert LevelSound(level, levels[level]) && LevelSound(level + 1, levels[level + 1]);
    assert {f} + {} == {f};
    PickedIsTaken(levels[level], levels[level + 1], {f}, {}, f.smallest, f.largest, EntriesOf({f}));
    ReplaceKeepsSound(levels, level, {f}, {}, {f});
    ReplacedContents(levels, level, {f}, {}, {f});
  }

  lemma MoveKeepsFiles(s: State, s': State, level: nat, f: Table)
    requires FilesSound(s) && MoveStep(s, s', level, f)
    ensures FilesSound(s') && AllEntries(s'.levels) == AllEntries(s.levels)
  {
    MoveKeepsLevels(s.levels, level, f);
    FinishKeepsNumbers(s.levels, level, {f}, {}, {f}, s.nextFile, s'.nextFile);
  }

  lemma FinishKeepsLevels(levels: Levels, r: Running, outputs: set<Table>)
    requires LevelsSound(levels) && JobSound(levels, r)
    requires AllFilled(outputs) && Separated(outputs)
    requires EntriesOf(outputs) == Survivors(JobInputs(r), r.horizon, BaseIn(r.inputLevels, r.level))
    ensures var levels' := Replace(levels, r.level, r.in0, r.in1, outputs);
            && LevelsSound(levels')
            && AllEntries(levels) == Rest(levels, r.level, r.in0, r.in1) + JobInputs(r)
            && AllEntries(levels') == Rest(levels, r.level, r.in0, r.in1) + EntriesOf(outputs)
  {
    ReplaceKeepsSound(levels, r.level, r.in0, r.in1, outputs);
    ReplacedContents(levels, r.level, r.in0, r.in1, outputs);
  }

  lemma FinishKeepsNumbers(levels: Levels, level: nat, in0: set<Table>, in1: set<Table>, outputs: set<Table>,
                           nextFile: nat, nextFile': nat)
    requires level + 1 < |levels| && NumbersSound(levels[0], nextFile) && nextFile <= nextFile'
    ensures NumbersSound(Replace(levels, level, in0, in1, outputs)[0], nextFile')
  {
  }

  lemma FinishKeepsFiles(s: State, s': State, outputs: set<Table>)
    requires FilesSound(s) && FinishStep(s, s', outputs)
    ensures FilesSound(s') && AllEntries(s'.levels) <= AllEntries(s.levels)
  {
    var r := s.job.value;
    FinishKeepsLevels(s.levels, r, outputs);
    FinishKeepsNumbers(s.levels, r.level, r.in0, r.in1, outputs, s.nextFile, s'.nextFile);
  }

  lemma FinishKeepsSequences(s: State, s': State, outputs: set<Table>)
    requires SequencesSound(s) && FinishStep(s, s', outputs) && AllEntries(s'.levels) <= AllEntries(s.levels)
    ensures SequencesSound(s')
  {
    FewerStoredKeepAges(s.mem, s.imm, AllEntries(s.levels), AllEntries(s'.levels), s.lastSequence);
  }

  // ----- the inputs of a compaction are apart from the rest -----

  lemma NewerIsApart(a: set<Entry>, b: set<Entry>)
    requires NewerThan(a, b)
    ensures a !! b
  {
  }

  lemma SeparatedExcludes(files: set<Table>, others: set<Table>, inputs: set<Table>)
    requires AllFilled(files) && Separated(files) && inputs <= files && others <= files && others !! inputs
    ensures EntriesOf(inputs) !! EntriesOf(others)
  {
    forall f, g, e | f in inputs && g in others && e in f.entries ensures e !in g.entries {
      SeparatedMisses(f, g, e);
    }
  }

  lemma SeparatedMisses(f: Table, g: Table, e: Entry)
    requires Filled(f) && Filled(g) && e in f.entries
    requires (Before(f.largest, g.smallest) || Before(g.largest, f.smallest))
    ensures e !in g.entries
  {
    EntryWithin(f, e);
    if e in g.entries {
      EntryWithin(g, e);
    }
  }

  lemma LevelApart(levels: Levels, level: nat, in0: set<Table>, in1: set<Table>, l: nat)
    requires LevelsSound(levels) && level + 1 < NUM_LEVELS && l < NUM_LEVELS
    requires Taken(levels[level], levels[level + 1], in0, in1)
    ensures EntriesOf(in0) + EntriesOf(in1) !! EntriesOf(Replace(levels, level, in0, in1, {})[l])
  {
    var here, next := levels[level], levels[level + 1];
    if l == level {
      assert NewerThan(EntriesOf(here), EntriesOf(next));
      HereApart(here, next, in0, in1);
    } else if l == level + 1 {
      assert LevelSound(level + 1, next);
      assert NewerThan(EntriesOf(here), EntriesOf(next));
      NextApart(here, next, in0, in1);
    } else {
      OtherApart(levels, level, in0, in1, l);
    }
  }

  lemma OtherApart(levels: Levels, level: nat, in0: set<Table>, in1: set<Table>, l: nat)
    requires NewerAbove(levels) && level + 1 < |levels| && l < |levels| && l != level && l != level + 1
    requires in0 <= levels[level] && in1 <= levels[level + 1]
    ensures EntriesOf(in0) + EntriesOf(in1) !! EntriesOf(levels[l])
  {
    EntriesMonotone(in0, levels[level]);
    EntriesMonotone(in1, levels[level + 1]);
    if l < level {
      NewerIsApart(EntriesOf(levels[l]), EntriesOf(levels[level]));
      NewerIsApart(EntriesOf(levels[l]), EntriesOf(levels[level + 1]));
    } else {
      NewerIsApart(EntriesOf(levels[level]), EntriesOf(levels[l]));
      NewerIsApart(EntriesOf(levels[level + 1]), EntriesOf(levels[l]));
    }
  }

  lemma HereApart(here: set<Table>, next: set<Table>, in0: set<Table>, in1: set<Table>)
    requires Taken(here, next, in0, in1) && NewerThan(EntriesOf(here), EntriesOf(next))
    ensures EntriesOf(in0) + EntriesOf(in1) !! EntriesOf(here - in0)
  {
    NewerIsApart(EntriesOf(here - in0), EntriesOf(in0));
    EntriesMonotone(here - in0, here);
    EntriesMonotone(in1, next);
    NewerIsApart(EntriesOf(here), EntriesOf(next));
  }

  lemma NextApart(here: set<Table>, next: set<Table>, in0: set<Table>, in1: set<Table>)
    requires Taken(here, next, in0, in1) && NewerThan(EntriesOf(here), EntriesOf(next)) && AllFilled(next)
    requires Separated(next)
    ensures EntriesOf(in0) + EntriesOf(in1) !! EntriesOf(next - in1 + {})
  {
    assert next - in1 + {} == next - in1;
    SeparatedExcludes(next, next - in1, in1);
    EntriesMonotone(next - in1, next);
    EntriesMonotone(in0, here);
    NewerIsApart(EntriesOf(here), EntriesOf(next));
  }

  lemma RestApart(levels: Levels, level: nat, in0: set<Table>, in1: set<Table>)
    requires LevelsSound(levels) && level + 1 < NUM_LEVELS && Taken(levels[level], levels[level + 1], in0, in1)
    ensures EntriesOf(in0) + EntriesOf(in1) !! Rest(levels, level, in0, in1)
  {
    var none := Replace(levels, level, in0, in1, {});
    forall l | 0 <= l < |none| ensures EntriesOf(in0) + EntriesOf(in1) !! EntriesOf(none[l]) {
      LevelApart(levels, level, in0, in1, l);
    }
  }

  lemma UnionApart(mem: set<Entry>, imm: set<Entry>, stored: set<Entry>, rest: set<Entry>, inputs: set<Entry>)
    requires NewerThan(mem, imm + stored) && NewerThan(imm, stored) && stored == rest + inputs && inputs !! rest
    ensures mem + (imm + rest) !! inputs
    ensures mem + (imm + stored) == mem + (imm + rest) + inputs
  {
    NewerIsApart(mem, imm + stored);
    NewerIsApart(imm, stored);
  }

  /** No stored entry is held both inside and outside the inputs. */
  lemma InputsApart(s: State, r: Running)
    requires Inv(s) && s.job == Some(r)
    ensures Others(s, r) !! JobInputs(r)
    ensures Contents(s) == Others(s, r) + JobInputs(r)
  {
    RestApart(s.levels, r.level, r.in0, r.in1);
    EntriesUnion(r.in0, r.in1);
    ReplacedContents(s.levels, r.level, r.in0, r.in1, {});
    UnionApart(s.mem, s.imm, AllEntries(s.levels), Rest(s.levels, r.level, r.in0, r.in1), JobInputs(r));
  }

  /** What the store holds before and after a compaction: the same rest, with the inputs or with their survivors. */
  lemma FinishContents(s: State, s': State, outputs: set<Table>)
    requires Inv(s) && FinishStep(s, s', outputs)
    ensures var r := s.job.value;
            && Others(s, r) !! JobInputs(r)
            && Contents(s) == Others(s, r) + JobInputs(r)
            && Contents(s') == Others(s, r) + JobSurvivors(r)
            && Unique(Contents(s))
  {
    var r := s.job.value;
    hide LevelSound, NewerAbove, JobSound, Unique, Bounded, NewerThan;
    FinishKeepsLevels(s.levels, r, outputs);
    InputsApart(s, r);
    assert s.imm + (Rest(s.levels, r.level, r.in0, r.in1) + EntriesOf(outputs))
        == s.imm + Rest(s.levels, r.level, r.in0, r.in1) + EntriesOf(outputs);
  }

  lemma DropKeepsAgreement(rest: set<Entry>, inputs: set<Entry>, horizon: SequenceNumber, base: UserKey -> bool,
                           history: set<Entry>, snapshots: seq<SequenceNumber>, last: SequenceNumber)
    requires Unique(rest + inputs) && rest !! inputs && SnapshotsSound(snapshots, horizon, last)
    requires !exists d, v :: Exposes(rest, inputs, horizon, base, d, v)
    requires Agree(rest + inputs, history, snapshots, last)
    ensures Agree(rest + Survivors(inputs, horizon, base), history, snapshots, last)
  {
    forall user: UserKey, q: nat | q in snapshots || q >= last
      ensures Read(rest + Survivors(inputs, horizon, base), user, q) == Read(history, user, q)
    {
      DropKeepsReadAt(rest, inputs, horizon, base, user, q);
    }
  }

  /** Finishing a compaction that exposes nothing keeps every live read. */
  lemma FinishKeepsReads(s: State, s': State, outputs: set<Table>)
    requires Inv(s) && ReadsTrue(s) && FinishStep(s, s', outputs) && !Exposing(s)
    ensures ReadsTrue(s')
  {
    var r := s.job.value;
    hide LevelsSound, JobSound, Exposes, Read, NewerThan, Bounded;
    FinishContents(s, s', outputs);
    DropKeepsAgreement(Others(s, r), JobInputs(r), r.horizon, BaseIn(r.inputLevels, r.level), s.history, s.snapshots,
                       s.lastSequence);
  }

  // ----- what the tables hold by themselves -----

  lemma WriteKeepsDurable(s: State, s': State, batch: seq<Op>)
    requires SequencesSound(s) && Recorded(s) && WriteStep(s, s', batch)
    ensures Recorded(s') && (DurableTrue(s) ==> DurableTrue(s'))
  {
    var added := BatchEntries(batch, s.lastSequence + 1);
    BatchFresh(batch, s.lastSequence);
    NewAreOthers(s.history, added, s.lastSequence);
    assert Unstored(s') == Unstored(s) + added;
    assert Flushed(s') == Flushed(s);
  }

  lemma NewAreOthers(es: set<Entry>, added: set<Entry>, last: SequenceNumber)
    requires Bounded(es, last) && Above(added, last)
    ensures es !! added && NewerThan(added, es)
  {
  }

  lemma FlushKeepsDurable(s: State, s': State, f: Table, level: nat)
    requires SequencesSound(s) && Recorded(s) && FlushStep(s, s', f, level)
    ensures Recorded(s') && (DurableTrue(s) ==> DurableTrue(s'))
  {
    var stored := AllEntries(s.levels);
    hide Read;
    FlushedEntries(s.levels, f, level);
    MemoryApart(s.mem, s.imm, stored, s.lastSequence);
    assert Flushed(s') == Flushed(s) + s.imm;
    assert Unique(Flushed(s) + s.imm) && Unique(stored + s.imm);
    forall user: UserKey, q: nat | q >= s.lastSequence && DurableTrue(s)
      ensures Read(stored + s.imm, user, q) == Read(Flushed(s) + s.imm, user, q)
    {
      ReadAfterAdding(stored, Flushed(s), s.imm, user, q);
    }
  }

  lemma MemoryApart(mem: set<Entry>, imm: set<Entry>, stored: set<Entry>, last: SequenceNumber)
    requires AgesSound(mem, imm, stored, last)
    ensures mem !! imm && NewerThan(mem + imm, stored) && NewerThan(mem, imm)
  {
  }

  /** Finishing a compaction that exposes nothing to the tables keeps what they read. */
  lemma FinishKeepsDurable(s: State, s': State, outputs: set<Table>)
    requires Inv(s) && Recorded(s) && FinishStep(s, s', outputs)
    ensures Recorded(s') && (DurableTrue(s) && !ExposingStored(s) ==> DurableTrue(s'))
  {
    hide Inv, Exposes, Read, NewerThan, Unique, Agree, FinishEnabled, JobInputs, Survivors, Recorded, SnapshotsSound;
    FinishLeaves(s, s', outputs);
    var r := s.job.value;
    var rest := Rest(s.levels, r.level, r.in0, r.in1);
    StoredContents(s, s', outputs);
    HorizonBelow(s);
    FewerFlushed(s, s');
    if DurableTrue(s) && !ExposingStored(s) {
      DropKeepsAgreement(rest, JobInputs(r), r.horizon, BaseIn(r.inputLevels, r.level), Flushed(s), [], s.lastSequence);
    }
  }

  lemma FinishLeaves(s: State, s': State, outputs: set<Table>)
    requires FinishStep(s, s', outputs)
    ensures s.job.Some? && s.job.value.level + 1 < |s.levels|
    ensures s'.mem == s.mem && s'.imm == s.imm && s'.history == s.history && s'.lastSequence == s.lastSequence
  {
  }

  lemma FewerFlushed(s: State, s': State)
    requires Recorded(s) && s'.mem == s.mem && s'.imm == s.imm && s'.history == s.history
    requires AllEntries(s'.levels) <= AllEntries(s.levels)
    ensures Recorded(s') && Flushed(s') == Flushed(s)
  {
  }

  lemma HorizonBelow(s: State)
    requires Inv(s) && s.job.Some?
    ensures SnapshotsSound([], s.job.value.horizon, s.lastSequence)
  {
  }

  /** What the tables hold before and after a compaction. */
  lemma StoredContents(s: State, s': State, outputs: set<Table>)
    requires Inv(s) && FinishStep(s, s', outputs)
    ensures var r, rest := s.job.value, Rest(s.levels, s.job.value.level, s.job.value.in0, s.job.value.in1);
            && rest !! JobInputs(r) && AllEntries(s.levels) == rest + JobInputs(r)
            && AllEntries(s'.levels) == rest + JobSurvivors(r) && JobSurvivors(r) <= JobInputs(r)
            && Unique(rest + JobInputs(r))
  {
    var r := s.job.value;
    InputsApart(s, r);
    hide LevelSound, NewerAbove, JobSound, Bounded, NewerThan;
    FinishKeepsLevels(s.levels, r, outputs);
  }

  lemma StoredSplit(s: State, r: Running)
    requires Inv(s) && s.job == Some(r)
    ensures AllEntries(s.levels) == Rest(s.levels, r.level, r.in0, r.in1) + JobInputs(r)
  {
    hide LevelSound, NewerAbove, NewerThan, Unique, Bounded, LeavesOnlyNewer, KeysDisjoint, BaseHolds, AllOneSide;
    hide IsRange;
    EntriesUnion(r.in0, r.in1);
    ReplacedContents(s.levels, r.level, r.in0, r.in1, {});
  }

  /** Uncovering seen by the whole store is uncovering seen by its tables. */
  lemma ExposingIsStored(s: State)
    requires Inv(s) && Exposing(s)
    ensures ExposingStored(s)
  {
    var r := s.job.value;
    var rest := Rest(s.levels, r.level, r.in0, r.in1);
    StoredSplit(s, r);
    hide FilesSound, NewerThan, Unique, Bounded, JobInputs, Newest, Exposes;
    var d, v :| Exposes(Others(s, r), JobInputs(r), r.horizon, BaseIn(r.inputLevels, r.level), d, v);
    ExposedStored(s.mem, s.imm, rest, JobInputs(r), r.horizon, BaseIn(r.inputLevels, r.level), d, v);
  }

  lemma ExposedStored(mem: set<Entry>, imm: set<Entry>, rest: set<Entry>, inputs: set<Entry>, q: SequenceNumber,
                      base: UserKey -> bool, d: Entry, v: Entry)
    requires NewerThan(mem, imm + (rest + inputs)) && NewerThan(imm, rest + inputs)
    requires Exposes(mem + (imm + rest), inputs, q, base, d, v)
    ensures Exposes(rest, inputs, q, base, d, v)
  {
    OlderIsStored(mem, imm, rest, inputs, q, d, v);
  }

  lemma OlderIsStored(mem: set<Entry>, imm: set<Entry>, rest: set<Entry>, inputs: set<Entry>, q: nat, d: Entry,
                      v: Entry)
    requires NewerThan(mem, imm + (rest + inputs)) && NewerThan(imm, rest + inputs) && d in inputs
    requires Newest(mem + (imm + rest), d.key.user, q, v) && v.key.sequence < d.key.sequence && v.key.user == d.key.user
    ensures Newest(rest, d.key.user, q, v)
  {
    assert v in rest;
    forall x | Visible(rest, d.key.user, q, x) ensures x.key.sequence <= v.key.sequence {
      assert Visible(mem + (imm + rest), d.key.user, q, x);
    }
  }

  /** Beyond the last sequence number all reads are alike. */
  lemma ReadBeyond(es: set<Entry>, user: UserKey, q: nat, q': nat, last: nat)
    requires Unique(es) && last <= q && last <= q' && forall e :: e in es ==> e.key.sequence <= last
    ensures Read(es, user, q) == Read(es, user, q')
  {
    NewestExists(es, user, q);
    if Nothing(es, user, q) {
      forall x ensures !Visible(es, user, q', x) {
        assert !Visible(es, user, q, x);
      }
      ReadNothing(es, user, q);
      ReadNothing(es, user, q');
    } else {
      var e :| Newest(es, user, q, e);
      ReadNewest(es, user, q, e);
      forall x | Visible(es, user, q', x) ensures x.key.sequence <= e.key.sequence {
        assert Visible(es, user, q, x);
      }
      ReadNewest(es, user, q', e);
    }
  }

  /** After a crash every entry left is at most as new as the last sequence number that is recovered. */
  lemma LeftAfterCrash(s: State, s': State, kept: set<Entry>, last: SequenceNumber, nextFile: nat)
    requires Inv(s) && Recorded(s) && CrashStep(s, s', kept, last, nextFile)
    ensures Flushed(s') == Flushed(s) && s'.history == Flushed(s) + kept
    ensures Contents(s') == AllEntries(s.levels) + kept
    ensures Bounded(s'.history, last) && Bounded(Contents(s'), last) && Unique(s'.history) && Unique(Contents(s'))
    ensures NewerThan(kept, Flushed(s)) && NewerThan(kept, AllEntries(s.levels))
  {
    var stored := AllEntries(s.levels);
    MemoryApart(s.mem, s.imm, stored, s.lastSequence);
    assert stored !! Unstored(s);
    assert s'.history == Flushed(s) + kept;
    assert Contents(s') == stored + kept;
    assert Contents(s') <= Contents(s) && s'.history <= s.history;
    assert stored <= s'.history;
  }
  lemma CrashKeepsSequences(s: State, s': State, kept: set<Entry>, last: SequenceNumber, nextFile: nat)
    requires Inv(s) && Recorded(s) && CrashStep(s, s', kept, last, nextFile)
    ensures SequencesSound(s') && Recorded(s')
  {
    hide Agree, LevelsSound, JobsSound;
    LeftAfterCrash(s, s', kept, last, nextFile);
    assert {} + AllEntries(s.levels) == AllEntries(s.levels);
    assert kept + AllEntries(s.levels) == AllEntries(s.levels) + kept;
  }

  /** After a crash the store reads the history of what was not lost. */
  lemma CrashKeepsReads(s: State, s': State, kept: set<Entry>, last: SequenceNumber, nextFile: nat)
    requires Inv(s) && Recorded(s) && DurableTrue(s) && CrashStep(s, s', kept, last, nextFile)
    ensures ReadsTrue(s') && DurableTrue(s')
  {
    var stored := AllEntries(s.levels);
    LeftAfterCrash(s, s', kept, last, nextFile);
    hide Inv, Read, Unique, Bounded, NewerThan;
    assert stored + kept == Contents(s') && Unstored(s') == kept;
    forall user: UserKey, q: nat | q >= last
      ensures Read(stored, user, q) == Read(Flushed(s), user, q)
      ensures Read(Contents(s'), user, q) == Read(s'.history, user, q)
    {
      CrashKeepsReadAt(stored, Flushed(s), kept, user, q, last, s.lastSequence);
    }
  }

  lemma CrashKeepsReadAt(stored: set<Entry>, flushed: set<Entry>, kept: set<Entry>, user: UserKey, q: nat, last: nat,
                        before: SequenceNumber)
    requires Agree(stored, flushed, [], before) && last <= q
    requires Unique(stored + kept) && Unique(flushed + kept) && NewerThan(kept, stored) && NewerThan(kept, flushed)
    requires forall e :: e in stored + flushed ==> e.key.sequence <= last
    ensures Read(stored, user, q) == Read(flushed, user, q)
    ensures Read(stored + kept, user, q) == Read(flushed + kept, user, q)
  {
    var q' := if q < before then before else q;
    assert Read(stored, user, q') == Read(flushed, user, q');
    ReadBeyond(stored, user, q, q', last);
    ReadBeyond(flushed, user, q, q', last);
    ReadAfterAdding(stored, flushed, kept, user, q);
  }

  /** Taking the oldest of the recovered entries to be written out. */
  lemma ReplayKeepsSequences(s: State, s': State, chunk: set<Entry>)
    requires SequencesSound(s) && ReplayStep(s, s', chunk)
    ensures SequencesSound(s') && Contents(s') == Contents(s) && Unstored(s') == Unstored(s)
  {
    ReplayKeepsAges(s.mem, chunk, AllEntries(s.levels), s.lastSequence);
    assert s'.mem + s'.imm == s.mem + s.imm;
  }

  lemma ReplayKeepsAges(mem: set<Entry>, chunk: set<Entry>, stored: set<Entry>, last: SequenceNumber)
    requires AgesSound(mem, {}, stored, last) && chunk <= mem
    requires forall x, y :: x in chunk && y in mem - chunk ==> x.key.sequence < y.key.sequence
    ensures AgesSound(mem - chunk, chunk, stored, last)
    ensures (mem - chunk) + (chunk + stored) == mem + ({} + stored)
  {
    assert {} + stored == stored;
    assert (mem - chunk) + (chunk + stored) == mem + stored;
  }

  // ----- every step, every run -----

  /** The step does not let a flush fall in a gap of a manual compaction. */
  ghost predicate Orderly(s: State, step: Label) {
    step.Flush? ==> !FallsInGap(s, step.f, step.level)
  }

  /** The step does not finish a compaction whose dropped deletions uncover older values. */
  ghost predicate Covered(s: State, step: Label) {
    step.Finish? ==> !Exposing(s)
  }

  /** Nor one whose dropped deletions uncover older values when the memtables are lost. */
  ghost predicate CoveredOnDisk(s: State, step: Label) {
    step.Finish? ==> !ExposingStored(s)
  }

  lemma CrashKeepsFiles(s: State, s': State, kept: set<Entry>, last: SequenceNumber, nextFile: nat)
    requires FilesSound(s) && CrashStep(s, s', kept, last, nextFile)
    ensures FilesSound(s')
  {
  }

  lemma StepKeepsFiles(s: State, s': State, step: Label)
    requires FilesSound(s) && NewerThan(s.imm, AllEntries(s.levels)) && Step(s, s', step) && Orderly(s, step)
    ensures FilesSound(s')
  {
    hide CrashStep;
    match step {
      case Flush(f, level) => FlushKeepsFiles(s, s', f, level);
      case TrivialMove(level, f) => MoveKeepsFiles(s, s', level, f);
      case Begin(r) => BeginKeepsFiles(s, s', r);
      case Finish(outputs) => FinishKeepsFiles(s, s', outputs);
      case Crash(kept, last, nextFile) => CrashKeepsFiles(s, s', kept, last, nextFile);
      case _ =>
    }
  }

  lemma StepKeepsSequences(s: State, s': State, step: Label)
    requires Inv(s) && Step(s, s', step) && (step.Crash? ==> Recorded(s))
    ensures SequencesSound(s')
  {
    hide AgesSound, HistorySound, DurableTrue, CrashStep, WriteStep, ReplayStep, FlushEnabled, BeginEnabled;
    hide FinishEnabled;
    match step {
      case Write(batch) => WriteKeepsSequences(s, s', batch);
      case SwitchMemTable => SwitchKeepsSequences(s, s');
      case TakeSnapshot => TakeKeepsSequences(s, s');
      case ReleaseSnapshot(i) => ReleaseKeepsSequences(s, s', i);
      case Flush(f, level) => FlushKeepsSequences(s, s', f, level);
      case TrivialMove(level, f) => MoveKeepsFiles(s, s', level, f);
      case Begin(r) => BeginKeepsSequences(s, s', r);
      case Finish(outputs) => FinishKeepsFiles(s, s', outputs); FinishKeepsSequences(s, s', outputs);
      case Crash(kept, last, nextFile) => CrashKeepsSequences(s, s', kept, last, nextFile);
      case Replay(chunk) => ReplayKeepsSequences(s, s', chunk);
      case _ =>
    }
  }

  lemma StepKeepsReads(s: State, s': State, step: Label)
    requires Inv(s) && ReadsTrue(s) && Step(s, s', step) && Covered(s, step)
    requires step.Crash? ==> Recorded(s) && DurableTrue(s)
    ensures ReadsTrue(s')
  {
    hide Inv, ReadsTrue, DurableTrue, CrashStep, WriteStep, ReplayStep, FlushEnabled, BeginEnabled, FinishEnabled;
    hide Exposing;
    hide SequencesSound, FilesSound, Recorded;
    InvParts(s);
    match step {
      case Write(batch) => WriteKeepsReads(s, s', batch);
      case SwitchMemTable => SwitchKeepsSequences(s, s'); SameReads(s, s');
      case TakeSnapshot => TakeKeepsSequences(s, s');
      case ReleaseSnapshot(i) => ReleaseKeepsSequences(s, s', i);
      case Flush(f, level) => FlushKeepsSequences(s, s', f, level); SameReads(s, s');
      case TrivialMove(level, f) => MoveKeepsFiles(s, s', level, f); SameReads(s, s');
      case Finish(outputs) => FinishKeepsReads(s, s', outputs);
      case Crash(kept, last, nextFile) => CrashKeepsReads(s, s', kept, last, nextFile);
      case Replay(chunk) => ReplayKeepsSequences(s, s', chunk); ReplayIs(s, s', chunk); SameReads(s, s');
      case _ => SameReads(s, s');
    }
  }

  lemma SameReads(s: State, s': State)
    requires ReadsTrue(s) && Contents(s') == Contents(s) && s'.history == s.history && s'.snapshots == s.snapshots
    requires s'.lastSequence == s.lastSequence
    ensures ReadsTrue(s')
  {
  }

  lemma ReplayIs(s: State, s': State, chunk: set<Entry>)
    requires ReplayStep(s, s', chunk)
    ensures s'.history == s.history && s'.snapshots == s.snapshots && s'.lastSequence == s.lastSequence
  {
  }

  lemma InvParts(s: State)
    requires Inv(s)
    ensures FilesSound(s) && SequencesSound(s)
  {
  }

  lemma StepKeepsDurable(s: State, s': State, step: Label)
    requires Inv(s) && Recorded(s) && Step(s, s', step)
    ensures Recorded(s') && (DurableTrue(s) && CoveredOnDisk(s, step) ==> DurableTrue(s'))
  {
    hide Inv, Agree, CrashStep, WriteStep, ReplayStep, FlushEnabled, BeginEnabled, FinishEnabled, ExposingStored;
    hide NewerThan;
    InvParts(s);
    match step {
      case Write(batch) => WriteKeepsDurable(s, s', batch);
      case SwitchMemTable => assert Unstored(s') == Unstored(s);
      case Flush(f, level) => FlushKeepsDurable(s, s', f, level);
      case TrivialMove(level, f) => MoveKeepsFiles(s, s', level, f);
      case Finish(outputs) => FinishKeepsDurable(s, s', outputs);
      case Crash(kept, last, nextFile) => CrashKeepsDurable(s, s', kept, last, nextFile);
      case Replay(chunk) => ReplayKeepsSequences(s, s', chunk); ReplayKeepsDurable(s, s', chunk);
      case _ =>
    }
  }

  lemma CrashKeepsDurable(s: State, s': State, kept: set<Entry>, last: SequenceNumber, nextFile: nat)
    requires Inv(s) && Recorded(s) && CrashStep(s, s', kept, last, nextFile)
    ensures Recorded(s') && (DurableTrue(s) ==> DurableTrue(s'))
  {
    CrashKeepsSequences(s, s', kept, last, nextFile);
    if DurableTrue(s) {
      CrashKeepsReads(s, s', kept, last, nextFile);
    }
  }

  lemma ReplayKeepsDurable(s: State, s': State, chunk: set<Entry>)
    requires Recorded(s) && ReplayStep(s, s', chunk) && Unstored(s') == Unstored(s)
    ensures Recorded(s') && (DurableTrue(s) ==> DurableTrue(s'))
  {
    hide Agree, NewerThan;
  }

  /** A run: states joined by steps, from the empty store. */
  ghost predicate IsRun(states: seq<State>, steps: seq<Label>) {
    && |states| == |steps| + 1 && states[0] == Init()
    && forall i :: 0 <= i < |steps| ==> Step(states[i], states[i + 1], steps[i])
  }

  lemma StepKeepsInv(s: State, s': State, step: Label)
    requires Inv(s) && Step(s, s', step) && Orderly(s, step) && (step.Crash? ==> Recorded(s))
    ensures Inv(s')
  {
    StepKeepsFiles(s, s', step);
    StepKeepsSequences(s, s', step);
  }

  /** Every state of every orderly run, crashes and recoveries included, keeps the levels ordered and
      newer above older. */
  lemma {:induction false} RunKeepsInv(states: seq<State>, steps: seq<Label>, n: nat)
    requires IsRun(states, steps) && n < |states|
    requires forall i :: 0 <= i < |steps| ==> Orderly(states[i], steps[i])
    ensures Inv(states[n]) && Recorded(states[n])
  {
    if n == 0 {
      InitHolds();
    } else {
      RunKeepsInv(states, steps, n - 1);
      assert Step(states[n - 1], states[n - 1 + 1], steps[n - 1]);
      StepKeepsInv(states[n - 1], states[n], steps[n - 1]);
      StepKeepsDurable(states[n - 1], states[n], steps[n - 1]);
    }
  }

  /** As long as nothing crashes and no finished compaction uncovers a value, every live snapshot reads the history. */
  lemma {:induction false} RunReadsHistory(states: seq<State>, steps: seq<Label>, n: nat)
    requires IsRun(states, steps) && n < |states|
    requires forall i :: 0 <= i < |steps| ==>
               Orderly(states[i], steps[i]) && Covered(states[i], steps[i]) && !steps[i].Crash?
    ensures Inv(states[n]) && ReadsTrue(states[n])
  {
    if n == 0 {
      InitHolds();
    } else {
      RunReadsHistory(states, steps, n - 1);
      var i := n - 1;
      assert Step(states[i], states[i + 1], steps[i]);
      StepKeepsInv(states[i], states[i + 1], steps[i]);
      StepKeepsReads(states[i], states[i + 1], steps[i]);
    }
  }

  ghost predicate Good(s: State) {
    Inv(s) && Recorded(s) && ReadsTrue(s) && DurableTrue(s)
  }

  lemma StepKeepsGood(s: State, s': State, step: Label)
    requires Good(s) && Step(s, s', step) && Orderly(s, step) && CoveredOnDisk(s, step)
    ensures Good(s')
  {
    hide Step, Inv, ReadsTrue, DurableTrue, Recorded, Orderly, ExposingStored, Exposing;
    if step.Finish? && Exposing(s) {
      ExposingIsStored(s);
    }
    StepKeepsInv(s, s', step);
    StepKeepsReads(s, s', step);
    StepKeepsDurable(s, s', step);
  }

  /** And if no finished compaction uncovers a value for the tables, so it stays through crashes: every live snapshot
      reads the history of what was written and not lost. */
  lemma {:induction false} RunSurvivesCrashes(states: seq<State>, steps: seq<Label>, n: nat)
    requires IsRun(states, steps) && n < |states|
    requires forall i :: 0 <= i < |steps| ==> Orderly(states[i], steps[i]) && CoveredOnDisk(states[i], steps[i])
    ensures Good(states[n])
  {
    if n == 0 {
      InitHolds();
    } else {
      RunSurvivesCrashes(states, steps, n - 1);
      var i := n - 1;
      assert Step(states[i], states[i + 1], steps[i]);
      StepKeepsGood(states[i], states[i + 1], steps[i]);
    }
  }
}
