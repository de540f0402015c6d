/**
 The database object: the methods that write, read, flush and compact, over a version set.
 Each is a step of the store, so every sequence of calls is a run of it.
*/
module Database {
  import opened Format
  import opened Reads
  import opened DropRule
  import opened Tables
  import opened Ranges
  import opened Boundary
  import opened Lookup
  import opened Picking
  import Compaction
  import opened Store
  import opened Invariant
  import opened Manifest
  import opened Runs
  import opened Writes
  import DbIter
  import Snapshots

  // ----- what the lists of a version satisfy -----

  ghost predicate Listed(files: seq<seq<Table>>) {
    |files| == NUM_LEVELS && forall l :: 0 <= l < NUM_LEVELS ==> BySmallest(files[l])
  }

  lemma OrderedLevels(files: seq<seq<Table>>, l: nat)
    requires Listed(files) && LevelsSound(LevelsOf(files)) && 1 <= l < NUM_LEVELS
    ensures Ordered(files[l])
  {
    assert LevelSound(l, LevelsOf(files)[l]);
    BuilderOrderIsKeyOrder(files[l]);
  }

  lemma LevelsSearchable(files: seq<seq<Table>>)
    requires Listed(files) && LevelsSound(LevelsOf(files))
    ensures Searchable(files)
  {
    hide NewerAbove, NewerByNumber, Separated, BySmallest;
    forall l | 1 <= l < NUM_LEVELS ensures Ordered(files[l]) {
      OrderedLevels(files, l);
    }
    forall l | 0 <= l < NUM_LEVELS ensures AllFilled(ToSet(files[l])) {
      assert LevelSound(l, LevelsOf(files)[l]);
    }
    assert LevelSound(0, LevelsOf(files)[0]);
  }

  lemma LevelUnique(levels: Levels, l: nat)
    requires l < |levels| && Unique(AllEntries(levels))
    ensures Unique(EntriesOf(levels[l]))
  {
    assert EntriesOf(levels[l]) <= AllEntries(levels);
  }

  lemma LevelsWellFormed(files: seq<seq<Table>>)
    requires Listed(files) && LevelsSound(LevelsOf(files)) && Unique(AllEntries(LevelsOf(files)))
    ensures WellFormed(files)
  {
    hide NewerAbove, NewerByNumber, Separated, BySmallest, Unique;
    forall l | 0 <= l < NUM_LEVELS ensures LevelOk(l, files[l]) {
      assert LevelSound(l, LevelsOf(files)[l]);
      LevelUnique(LevelsOf(files), l);
      if l > 0 {
        OrderedLevels(files, l);
      }
    }
  }

  // ----- what an edit does to the sets of files -----

  /** Taking files out by number, and putting in files with numbers of their own. */
  lemma SavedEffect(now: set<Table>, e: Edit, level: nat, gone: set<Table>, more: set<Table>)
    requires gone <= now && Distinct(now)
    requires DeletedAt(e, level) == Numbers(gone) && Incoming(e, level) == more && Numbers(more) !! Numbers(now)
    ensures Saved(now, ApplyAt(EMPTY, e, level)) == now - gone + more
  {
    AddAllNumbers(e.added, level);
    forall f | f in now ensures f.number in Numbers(gone) <==> f in gone {
    }
    assert forall f :: f in now ==> f.number in Numbers(now);
    assert forall f :: f in more ==> f.number in Numbers(more);
  }

  /** The additions of an edit: a list of files, all at one level. */
  function Placed(files: seq<Table>, level: nat): (r: seq<(nat, Table)>)
    ensures |r| == |files| && forall i :: 0 <= i < |r| ==> r[i] == (level, files[i])
  {
    seq(|files|, i requires 0 <= i < |files| => (level, files[i]))
  }

  lemma {:induction false} PlacedAt(files: seq<Table>, level: nat, l: nat)
    requires NoTies(ToSet(files))
    ensures AddAll({}, Placed(files, level), l) == if l == level then ToSet(files) else {}
  {
    if files != [] {
      var n := |files| - 1;
      ToSetTake(files, n);
      assert files[..n + 1] == files;
      assert Placed(files, level)[..n] == Placed(files[..n], level);
      PlacedAt(files[..n], level, l);
    }
  }

  /** The edit of a compaction: both input lists deleted, the outputs added one level down. */
  function CompactionEdit(level: nat, in0: seq<Table>, in1: seq<Table>, outputs: seq<Table>): Edit {
    Edit(None, None, None, None,
         (set f | f in in0 :: (level, f.number)) + (set f | f in in1 :: (level + 1, f.number)),
         Placed(outputs, level + 1))
  }

  lemma CompactionDeletes(level: nat, in0: seq<Table>, in1: seq<Table>, outputs: seq<Table>, l: nat)
    ensures var e := CompactionEdit(level, in0, in1, outputs);
            DeletedAt(e, l) == if l == level then Numbers(ToSet(in0))
                               else if l == level + 1 then Numbers(ToSet(in1)) else {}
  {
    var e := CompactionEdit(level, in0, in1, outputs);
    forall m ensures m in DeletedAt(e, l) <==> (l, m) in e.deleted {
      if (l, m) in e.deleted {
        assert (l, m).0 == l && (l, m).1 == m;
      }
    }
    forall m ensures (l, m) in e.deleted
                     <==> (l == level && m in Numbers(ToSet(in0))) || (l == level + 1 && m in Numbers(ToSet(in1)))
    {
      if l == level && m in Numbers(ToSet(in0)) {
        var f :| f in ToSet(in0) && f.number == m;
        assert (level, f.number) in e.deleted;
      }
      if l == level + 1 && m in Numbers(ToSet(in1)) {
        var f :| f in ToSet(in1) && f.number == m;
        assert (level + 1, f.number) in e.deleted;
      }
    }
  }

  /** Logging the edit of a compaction replaces its inputs by its outputs. */
  lemma CompactionEffect(levels: Levels, level: nat, in0: seq<Table>, in1: seq<Table>, outputs: seq<Table>, l: nat)
    requires level + 1 < |levels| && l < |levels|
    requires ToSet(in0) <= levels[level] && ToSet(in1) <= levels[level + 1]
    requires Distinct(levels[l]) && NoTies(ToSet(outputs)) && Numbers(ToSet(outputs)) !! Numbers(levels[level + 1])
    ensures Saved(levels[l], ApplyAt(EMPTY, CompactionEdit(level, in0, in1, outputs), l))
            == Replace(levels, level, ToSet(in0), ToSet(in1), ToSet(outputs))[l]
  {
    var e := CompactionEdit(level, in0, in1, outputs);
    var gone := if l == level then ToSet(in0) else if l == level + 1 then ToSet(in1) else {};
    var more := if l == level + 1 then ToSet(outputs) else {};
    CompactionDeletes(level, in0, in1, outputs, l);
    PlacedAt(outputs, level + 1, l);
    assert Numbers({}) == {};
    SavedEffect(levels[l], e, l, gone, more);
  }

  /** The edit of a flush: the log that is now the oldest one needed, and the new file if there is one. */
  function FlushEdit(logNumber: nat, level: nat, files: seq<Table>): Edit {
    Edit(Some(logNumber), Some(0), None, None, {}, Placed(files, level))
  }

  lemma FlushEffect(now: set<Table>, logNumber: nat, level: nat, files: seq<Table>, l: nat)
    requires Distinct(now) && NoTies(ToSet(files)) && Numbers(ToSet(files)) !! Numbers(now)
    ensures Saved(now, ApplyAt(EMPTY, FlushEdit(logNumber, level, files), l))
            == if l == level then now + ToSet(files) else now
  {
    PlacedAt(files, level, l);
    assert Numbers({}) == {} && DeletedAt(FlushEdit(logNumber, level, files), l) == {};
    SavedEffect(now, FlushEdit(logNumber, level, files), l, {}, if l == level then ToSet(files) else {});
  }

  // ----- writing -----

  /** MemTable::Add, on the sorted run a memtable's skip list holds. */
  method Insert(run: seq<Entry>, e: Entry) returns (r: seq<Entry>)
    requires Sorted(run) && forall x :: x in run ==> x.key != e.key
    ensures Sorted(r) && ToSet(r) == ToSet(run) + {e}
  {
    var at := 0;
    while at < |run| && Before(run[at].key, e.key)
      invariant 0 <= at <= |run|
      invariant forall i :: 0 <= i < at ==> Before(run[i].key, e.key)
    {
      at := at + 1;
    }
    r := InsertAt(run, at, e);
    InsertAtMembers(run, at, e);
    forall i | at <= i < |run| ensures Before(e.key, run[i].key) {
      CompareIsTotalOrder(run[at].key, e.key);
      assert i == at || Before(run[at].key, run[i].key);
    }
  }

  lemma BatchNext(batch: seq<Op>, first: nat, i: nat)
    requires i < |batch| && first + |batch| <= MAX_SEQUENCE + 1
    ensures BatchEntries(batch[..i + 1], first) == BatchEntries(batch[..i], first) + {EntryOf(batch[i], first + i)}
  {
    forall e ensures e in BatchEntries(batch[..i + 1], first)
                     <==> e in BatchEntries(batch[..i], first) || e == EntryOf(batch[i], first + i)
    {
      if e in BatchEntries(batch[..i + 1], first) {
        var j :| 0 <= j < i + 1 && e == EntryOf(batch[..i + 1][j], first + j);
        assert j < i ==> batch[..i][j] == batch[..i + 1][j];
      }
      if e in BatchEntries(batch[..i], first) {
        var j :| 0 <= j < i && e == EntryOf(batch[..i][j], first + j);
        assert batch[..i][j] == batch[..i + 1][j];
      }
      assert batch[..i + 1][i] == batch[i];
    }
  }

  /** WriteBatchInternal::InsertInto. */
  method InsertBatch(mem: seq<Entry>, batch: seq<Op>, first: nat) returns (r: seq<Entry>)
    requires first + |batch| <= MAX_SEQUENCE + 1
    requires Sorted(mem) && forall x :: x in mem ==> x.key.sequence < first
    ensures Sorted(r) && ToSet(r) == ToSet(mem) + BatchEntries(batch, first)
    ensures forall i :: 0 <= i < |batch| ==>
              match batch[i]
              case Put(user, value) => Entry(InternalKey(user, first + i, Value), value) in r
              case Delete(user) => Entry(InternalKey(user, first + i, Deletion), []) in r
    ensures forall x :: x in r ==>
              x in mem || exists i :: 0 <= i < |batch| && x.key.user == batch[i].user && x.key.sequence == first + i
  {
    r := mem;
    for i := 0 to |batch|
      invariant Sorted(r) && ToSet(r) == ToSet(mem) + BatchEntries(batch[..i], first)
    {
      forall x | x in r ensures x.key.sequence < first + i {
        assert x in ToSet(r);
      }
      r := Insert(r, EntryOf(batch[i], first + i));
      BatchNext(batch, first, i);
    }
    assert batch[..|batch|] == batch;
    forall i | 0 <= i < |batch| ensures EntryOf(batch[i], first + i) in r {
      assert EntryOf(batch[i], first + i) in ToSet(r);
    }
    assert forall x :: x in r ==> x in ToSet(mem) + BatchEntries(batch, first);
  }

  /** A table built from a sorted run. */
  method BuildTable(number: nat, run: seq<Entry>, bytes: seq<Entry> -> nat) returns (f: Table)
    requires Sorted(run) && run != []
    ensures Filled(f) && f.entries == run && f.number == number && f.smallest.user <= f.largest.user
    ensures f.size == bytes(run)
  {
    Compaction.BuilderIsTable(run, number, bytes);
    f := Compaction.Built(number, run, bytes);
    AscendingIsSorted(run);
  }

  // ----- file numbers -----

  ghost predicate Below(files: set<Table>, n: nat) {
    forall f :: f in files ==> f.number < n
  }

  /** Files with numbers drawn from the counter clash with none that came before. */
  lemma NewNumbers(ever: set<Table>, all: set<Table>, now: set<Table>, next: nat, more: set<Table>)
    requires ever <= all && now <= all && Distinct(all) && Below(all, next)
    requires Distinct(more) && forall f :: f in more ==> next <= f.number
    ensures Distinct(ever + more) && now !! more && Numbers(more) !! Numbers(now)
  {
  }

  ghost function Gathered(sets: seq<set<Table>>): set<Table> {
    set l, f | 0 <= l < |sets| && f in sets[l] :: f
  }

  lemma InGathered(sets: seq<set<Table>>, l: nat)
    requires l < |sets|
    ensures sets[l] <= Gathered(sets)
  {
  }

  lemma GatheredMore(sets: seq<set<Table>>, sets': seq<set<Table>>, level: nat, more: set<Table>)
    requires |sets| == |sets'| && level < |sets|
    requires forall l :: 0 <= l < |sets| ==> sets'[l] == sets[l] + if l == level then more else {}
    ensures Gathered(sets') == Gathered(sets) + more
  {
    assert sets'[level] == sets[level] + more;
    forall f ensures f in Gathered(sets') <==> f in Gathered(sets) + more {
      if l :| 0 <= l < |sets| && f in sets[l] {
        assert f in sets'[l];
      }
      if l :| 0 <= l < |sets| && f in sets'[l] {
        assert f in sets[l] || l == level;
      }
    }
  }

  /** A step of a good state gives a good state, unless it is one of the two that need not. */
  lemma StepKeepsAll(s: State, s': State, step: Label)
    requires Inv(s) && Step(s, s', step) && Orderly(s, step) && !step.Crash?
    ensures Inv(s') && (ReadsTrue(s) && Covered(s, step) ==> ReadsTrue(s'))
  {
    StepKeepsInv(s, s', step);
    if ReadsTrue(s) && Covered(s, step) {
      StepKeepsReads(s, s', step);
    }
  }

  lemma WriteTold(s: State, s': State, batch: seq<Op>)
    requires Inv(s) && Step(s, s', Write(batch))
    ensures s'.lastSequence == s.lastSequence + |batch|
    ensures forall user: UserKey, i: nat :: LastOn(batch, user, i) ==>
              Read(s'.history, user, s'.lastSequence) == if batch[i].Put? then Some(batch[i].value) else None
    ensures forall user: UserKey :: Untouched(batch, user) ==>
              Read(s'.history, user, s'.lastSequence) == Read(s.history, user, s.lastSequence)
    ensures forall user: UserKey, q: nat :: q <= s.lastSequence ==>
              Read(s'.history, user, q) == Read(s.history, user, q)
  {
    hide Step, SequencesSound, FilesSound, Read, LastOn, Untouched;
    InvParts(s);
    WriteIsRead(s, s', batch);
  }

  lemma WriteIsStep(s: State, s': State, batch: seq<Op>)
    requires s.lastSequence + |batch| < MAX_SEQUENCE && !s.recovering
    requires s'.mem == s.mem + BatchEntries(batch, s.lastSequence + 1)
    requires s'.history == s.history + BatchEntries(batch, s.lastSequence + 1)
    requires s' == s.(mem := s'.mem, history := s'.history, lastSequence := s.lastSequence + |batch|)
    ensures Step(s, s', Label.Write(batch)) && Orderly(s, Label.Write(batch)) && Covered(s, Label.Write(batch))
  {
  }

  lemma MemBelow(s: State, first: nat)
    requires Inv(s) && first == s.lastSequence + 1
    ensures forall x :: x in s.mem ==> x.key.sequence < first
  {
    assert forall x :: x in s.mem ==> x in Contents(s);
  }

  /** What a lookup needs of the memtables and the levels. */
  lemma LookupReady(s: State, files: seq<seq<Table>>)
    requires Inv(s) && s.levels == LevelsOf(files) && Listed(files)
    ensures Searchable(files) && WellFormed(files)
    ensures NewerThan(s.mem, s.imm + AllEntries(s.levels)) && NewerThan(s.imm, AllEntries(s.levels))
    ensures Unique(Contents(s))
  {
    hide LevelSound, NewerAbove, NewerThan, Bounded;
    LevelsSearchable(files);
    StoredUnique(s.mem, s.imm, AllEntries(s.levels));
    LevelsWellFormed(files);
  }

  lemma StoredUnique(mem: set<Entry>, imm: set<Entry>, stored: set<Entry>)
    requires Unique(mem + (imm + stored))
    ensures Unique(stored) && Unique(imm + stored)
  {
  }

  /** What PickLevelForMemTableOutput promises about its choice. */
  ghost predicate RightLevel(cur: seq<seq<Table>>, f: Table, level: nat, grandparentLimit: nat)
    requires |cur| == NUM_LEVELS && level <= MAX_MEM_COMPACT_LEVEL
  {
    var small, large := f.smallest.user, f.largest.user;
    && (level > 0 ==> forall l :: 0 <= l <= level ==> NoOverlap(cur[l], small, large))
    && (forall l :: 2 <= l < level + 2 ==>
          TotalFileSize(Overlapping(cur[l], Some(small), Some(large))) <= grandparentLimit)
    && (level < MAX_MEM_COMPACT_LEVEL ==>
          || (level == 0 && !NoOverlap(cur[0], small, large))
          || !NoOverlap(cur[level + 1], small, large)
          || TotalFileSize(Overlapping(cur[level + 2], Some(small), Some(large))) > grandparentLimit)
  }

  lemma NoOverlapIsOutside(files: seq<Table>, f: Table)
    ensures NoOverlap(files, f.smallest.user, f.largest.user) <==> Outside(ToSet(files), f)
  {
    assert forall g :: g in files <==> g in ToSet(files);
    assert forall g: Table :: Disjoint(f, g) <==> g.largest.user < f.smallest.user || f.largest.user < g.smallest.user;
  }

  lemma SomeOverlap(files: seq<Table>, f: Table)
    requires f.smallest.user <= f.largest.user
    requires Overlapping(files, Some(f.smallest.user), Some(f.largest.user)) != []
    ensures !Outside(ToSet(files), f)
  {
    var found := Overlapping(files, Some(f.smallest.user), Some(f.largest.user));
    OverlappingMembers(files, Some(f.smallest.user), Some(f.largest.user));
    assert found[0] in ToSet(found);
  }

  lemma RightLevelFor(cur: seq<seq<Table>>, f: Table, level: nat, grandparentLimit: nat)
    requires |cur| == NUM_LEVELS && level <= MAX_MEM_COMPACT_LEVEL && RightLevel(cur, f, level, grandparentLimit)
    requires f.smallest.user <= f.largest.user
    ensures LevelFor(LevelsOf(cur), f, level)
  {
    hide NoOverlap, Outside, Overlapping;
    forall l | 0 <= l < NUM_LEVELS
      ensures NoOverlap(cur[l], f.smallest.user, f.largest.user) <==> Outside(LevelsOf(cur)[l], f)
    {
      NoOverlapIsOutside(cur[l], f);
    }
    if level < MAX_MEM_COMPACT_LEVEL && Overlapping(cur[level + 2], Some(f.smallest.user), Some(f.largest.user)) != [] {
      SomeOverlap(cur[level + 2], f);
    }
  }

  /** The table of a flushed memtable, and where it may go. */
  lemma FlushIsStep(s: State, s': State, cur: seq<seq<Table>>, f: Table, level: nat, grandparentLimit: nat)
    requires Inv(s) && s.levels == LevelsOf(cur) && |cur| == NUM_LEVELS && level <= MAX_MEM_COMPACT_LEVEL
    requires !s.recovering
    requires Filled(f) && ToSet(f.entries) == s.imm && f.number == s.nextFile && f.smallest.user <= f.largest.user
    requires RightLevel(cur, f, level, grandparentLimit)
    requires s' == s.(imm := {}, levels := s.levels[level := s.levels[level] + {f}], nextFile := s.nextFile + 1)
    ensures Step(s, s', Label.Flush(f, level))
  {
    hide Inv, LevelFor, RightLevel;
    assert f.entries[0] in s.imm;
    RightLevelFor(cur, f, level, grandparentLimit);
  }

  lemma FlushedIsStep(s: State, s': State, cur: seq<seq<Table>>, level: nat, added: seq<Table>, grandparentLimit: nat,
                      step: Label)
    requires Inv(s) && s.levels == LevelsOf(cur) && |cur| == NUM_LEVELS && level <= MAX_MEM_COMPACT_LEVEL
    requires !s.recovering
    requires if added == [] then s.imm == {} else |added| == 1
    requires forall f :: f in added ==>
               && Filled(f) && ToSet(f.entries) == s.imm && f.number == s.nextFile && f.smallest.user <= f.largest.user
               && RightLevel(cur, f, level, grandparentLimit)
    requires s' == s.(imm := {}, levels := s.levels[level := s.levels[level] + ToSet(added)],
                      nextFile := s.nextFile + 1)
    requires step == if added == [] then FlushEmpty else Label.Flush(added[0], level)
    ensures Step(s, s', step)
  {
    hide Inv, RightLevel, Filled, FlushEnabled;
    if added == [] {
      assert s.levels[level] + ToSet(added) == s.levels[level];
    } else {
      assert ToSet(added) == {added[0]};
      FlushIsStep(s, s', cur, added[0], level, grandparentLimit);
    }
  }

  lemma FlushedLevels(cur: seq<seq<Table>>, cur': seq<seq<Table>>, evers: seq<set<Table>>, next: nat, logNumber: nat,
                      level: nat, added: seq<Table>)
    requires |cur| == NUM_LEVELS && |cur'| == NUM_LEVELS && level < NUM_LEVELS
    requires Covering(cur, evers) && NumbersOk(Gathered(evers), next)
    requires |added| <= 1 && forall f :: f in added ==> f.number == next
    requires forall l :: 0 <= l < NUM_LEVELS ==>
               ToSet(cur'[l]) == Saved(ToSet(cur[l]), ApplyAt(EMPTY, FlushEdit(logNumber, level, added), l))
    ensures LevelsOf(cur') == LevelsOf(cur)[level := LevelsOf(cur)[level] + ToSet(added)]
  {
    hide ApplyAt, Saved;
    FlushLoggable(cur, evers, next, logNumber, level, added);
    forall l | 0 <= l < NUM_LEVELS
      ensures ToSet(cur'[l]) == if l == level then ToSet(cur[l]) + ToSet(added) else ToSet(cur[l])
    {
    }
  }

  lemma MoveFacts(s: State, cur: seq<seq<Table>>, evers: seq<set<Table>>, c: Inputs, f: Table, next: nat)
    requires Inv(s) && s.levels == LevelsOf(cur) && Covering(cur, evers) && c.level + 1 < NUM_LEVELS
    requires SoundInputs(cur, c) && c.in0 == [f] && c.in1 == [] && NumbersOk(Gathered(evers), next)
    ensures ToSet([f]) <= ToSet(cur[c.level]) && f !in cur[c.level + 1]
    ensures NumbersOk(Gathered(evers) + ToSet([f]), next)
    ensures Picked(s.levels[c.level], s.levels[c.level + 1], {f}, {}, f.smallest, f.largest)
  {
    assert ToSet([f]) == {f} && ToSet<Table>([]) == {} && {f} + {} == {f};
    assert Picked(s.levels[c.level], s.levels[c.level + 1], {f}, {}, c.small, c.large);
    RangeUnique({f}, c.small, c.large, f.smallest, f.largest);
    InGathered(evers, c.level);
    assert Gathered(evers) + {f} == Gathered(evers);
    InOneLevel(s.levels, c.level, f);
  }

  lemma MoveIsStep(s: State, s': State, level: nat, f: Table)
    requires |s.levels| == NUM_LEVELS && level + 1 < NUM_LEVELS && s.job == None && !s.recovering
    requires Picked(s.levels[level], s.levels[level + 1], {f}, {}, f.smallest, f.largest)
    requires s' == s.(levels := Replace(s.levels, level, ToSet([f]), ToSet<Table>([]), ToSet([f])))
    ensures Step(s, s', TrivialMove(level, f))
  {
    assert ToSet([f]) == {f} && ToSet<Table>([]) == {};
  }

  /** A file of one level is not also in the next: its entries would have to be newer than themselves. */
  lemma InOneLevel(levels: Levels, level: nat, f: Table)
    requires LevelsSound(levels) && level + 1 < NUM_LEVELS && f in levels[level]
    ensures f !in levels[level + 1]
  {
    assert LevelSound(level, levels[level]);
    var e := f.entries[0];
    assert e in f.entries && e in EntriesOf(levels[level]);
    assert NewerThan(EntriesOf(levels[level]), EntriesOf(levels[level + 1]));
    assert e !in EntriesOf(levels[level + 1]);
  }

  lemma StartIsStep(s: State, s': State, r: Running, cur: seq<seq<Table>>, c: Inputs)
    requires s.job == None && |cur| == NUM_LEVELS && s.levels == LevelsOf(cur) && c.level + 1 < NUM_LEVELS
    requires !s.recovering
    requires SoundInputs(cur, c) && IsHorizon(s, r.horizon)
    requires r == Running(r.manual, c.level, ToSet(c.in0), ToSet(c.in1), c.small, c.large, s.levels, r.horizon)
    requires !r.manual ==> GaplessSet(ToSet(c.in0) + ToSet(c.in1))
    requires s' == s.(job := Some(r))
    ensures Step(s, s', Begin(r))
  {
  }

  lemma SmallestIsHorizon(s: State, smallest: SequenceNumber)
    requires Snapshots.NonDecreasing(s.snapshots) && smallest == if s.snapshots == [] then s.lastSequence
                                                                 else s.snapshots[0]
    ensures IsHorizon(s, smallest)
  {
  }

  /** The smallest snapshot a compaction has to keep, from the list of live snapshots. */
  method SmallestSnapshot(list: Snapshots.SnapshotList, lastSequence: SequenceNumber, ghost s: State)
    returns (smallest: SequenceNumber)
    requires list.Valid() && s.snapshots == list.Numbers() && s.lastSequence == lastSequence
    ensures IsHorizon(s, smallest)
  {
    var empty := list.Empty();
    if empty {
      return lastSequence;
    }
    var oldest := list.Oldest();
    smallest := oldest.sequenceNumber;
    SmallestIsHorizon(s, smallest);
  }

  lemma StartOk(s: State, t: Task)
    requires Inv(s) && s.lastSequence < MAX_SEQUENCE && t.c.level + 1 < NUM_LEVELS && WellFormed(t.files)
    requires t.smallest == if s.snapshots == [] then s.lastSequence else s.snapshots[0]
    ensures TaskOk(Some(t))
  {
    forall l | 1 <= l < NUM_LEVELS ensures Ordered(t.files[l]) {
      assert LevelOk(l, t.files[l]);
    }
  }

  lemma TakenLast(s: State)
    requires Inv(s) && Snapshots.NonDecreasing(s.snapshots)
    ensures Snapshots.NonDecreasing(s.snapshots + [s.lastSequence])
  {
  }

  lemma ContentsUnique(s: State)
    requires Inv(s)
    ensures Unique(Contents(s))
  {
  }

  lemma SnapshotsRead(s: State, q: nat)
    ensures ReadsTrue(s) && (q in s.snapshots || q >= s.lastSequence) ==>
              forall user :: Read(Contents(s), user, q) == Read(s.history, user, q)
  {
    hide Read, Contents;
  }

  // ----- the database -----

  /** A compaction in progress: its inputs, the version they came from, and the smallest snapshot when it began. */
  datatype Task = Task(manual: bool, c: Inputs, files: seq<seq<Table>>, smallest: SequenceNumber)

  ghost function RunningOf(task: Option<Task>): Option<Running> {
    if task.None? then None
    else
      var t := task.value;
      Some(Running(t.manual, t.c.level, ToSet(t.c.in0), ToSet(t.c.in1), t.c.small, t.c.large, LevelsOf(t.files),
                   t.smallest))
  }

  ghost predicate TaskOk(task: Option<Task>) {
    task.Some? ==>
      && task.value.c.level + 1 < NUM_LEVELS && |task.value.files| == NUM_LEVELS
      && task.value.smallest < MAX_SEQUENCE
      && forall l :: 1 <= l < NUM_LEVELS ==> Ordered(task.value.files[l])
  }

  lemma DistinctUnion(all: set<Table>, ever: set<Table>, more: set<Table>)
    requires Distinct(all + more) && ever <= all
    ensures Distinct(ever + more) && NoTies(more)
  {
  }

  /** The edit of a compaction can be logged, and replaces its inputs by its outputs. */
  lemma CompactionLoggable(cur: seq<seq<Table>>, evers: seq<set<Table>>, level: nat,
                           in0: seq<Table>, in1: seq<Table>, outputs: seq<Table>)
    requires Covering(cur, evers) && Distinct(Gathered(evers) + ToSet(outputs)) && level + 1 < NUM_LEVELS
    requires ToSet(in0) <= ToSet(cur[level]) && ToSet(in1) <= ToSet(cur[level + 1])
    requires ToSet(cur[level + 1]) !! ToSet(outputs)
    ensures Loggable(cur, evers, CompactionEdit(level, in0, in1, outputs), level + 1, ToSet(outputs))
    ensures forall l :: 0 <= l < NUM_LEVELS ==>
              Saved(ToSet(cur[l]), ApplyAt(EMPTY, CompactionEdit(level, in0, in1, outputs), l))
              == Replace(LevelsOf(cur), level, ToSet(in0), ToSet(in1), ToSet(outputs))[l]
  {
    hide Saved, ApplyAt;
    var e := CompactionEdit(level, in0, in1, outputs);
    forall l | 0 <= l < NUM_LEVELS
      ensures Incoming(e, l) == if l == level + 1 then ToSet(outputs) else {}
      ensures ToSet(cur[l]) !! Incoming(e, l) && Distinct(evers[l] + Incoming(e, l))
      ensures Saved(ToSet(cur[l]), ApplyAt(EMPTY, e, l))
              == Replace(LevelsOf(cur), level, ToSet(in0), ToSet(in1), ToSet(outputs))[l]
    {
      InGathered(evers, l);
      InGathered(evers, level + 1);
      DistinctUnion(Gathered(evers), evers[l], ToSet(outputs));
      PlacedAt(outputs, level + 1, l);
      OwnNumbers(Gathered(evers), ToSet(cur[level + 1]), ToSet(outputs));
      CompactionEffect(LevelsOf(cur), level, in0, in1, outputs, l);
    }
  }

  lemma ReplacedLevels(cur: seq<seq<Table>>, cur': seq<seq<Table>>, evers: seq<set<Table>>, level: nat,
                       in0: seq<Table>, in1: seq<Table>, outputs: seq<Table>)
    requires Covering(cur, evers) && Distinct(Gathered(evers) + ToSet(outputs)) && level + 1 < NUM_LEVELS
    requires |cur'| == NUM_LEVELS
    requires ToSet(in0) <= ToSet(cur[level]) && ToSet(in1) <= ToSet(cur[level + 1])
    requires ToSet(cur[level + 1]) !! ToSet(outputs)
    requires forall l :: 0 <= l < NUM_LEVELS ==>
               ToSet(cur'[l]) == Saved(ToSet(cur[l]), ApplyAt(EMPTY, CompactionEdit(level, in0, in1, outputs), l))
    ensures LevelsOf(cur') == Replace(LevelsOf(cur), level, ToSet(in0), ToSet(in1), ToSet(outputs))
  {
    hide ApplyAt, Saved, Replace;
    CompactionLoggable(cur, evers, level, in0, in1, outputs);
    var replaced := Replace(LevelsOf(cur), level, ToSet(in0), ToSet(in1), ToSet(outputs));
    SameLength(LevelsOf(cur), level, ToSet(in0), ToSet(in1), ToSet(outputs));
    forall l | 0 <= l < NUM_LEVELS ensures LevelsOf(cur')[l] == replaced[l] {
    }
  }

  lemma SameLength(levels: Levels, level: nat, in0: set<Table>, in1: set<Table>, outputs: set<Table>)
    requires level + 1 < |levels|
    ensures |Replace(levels, level, in0, in1, outputs)| == |levels|
  {
  }

  lemma OwnNumbers(all: set<Table>, now: set<Table>, more: set<Table>)
    requires Distinct(all + more) && now <= all && now !! more
    ensures Numbers(more) !! Numbers(now)
  {
  }

  ghost predicate MemoryOk(mem: seq<Entry>, imm: Option<seq<Entry>>, snapshots: seq<SequenceNumber>) {
    Sorted(mem) && (imm.Some? ==> Sorted(imm.value)) && Snapshots.NonDecreasing(snapshots)
  }

  ghost predicate NumbersOk(ever: set<Table>, next: nat) {
    Distinct(ever) && Below(ever, next)
  }

  lemma NothingYet(evers: seq<set<Table>>, next: nat)
    requires forall l :: 0 <= l < |evers| ==> evers[l] == {}
    ensures NumbersOk(Gathered(evers), next)
  {
    assert Gathered(evers) == {};
  }

  lemma SmallIsDistinct(files: seq<Table>)
    requires |files| <= 1
    ensures Distinct(ToSet(files))
  {
  }

  lemma NumbersMore(ever: set<Table>, next: nat, more: set<Table>, next': nat)
    requires NumbersOk(ever, next) && Distinct(more) && forall f :: f in more ==> next <= f.number < next'
    requires next <= next'
    ensures NumbersOk(ever + more, next')
  {
  }

  /** An edit that can be logged: it puts `more` in at `level`, with numbers never used before. */
  ghost predicate Loggable(cur: seq<seq<Table>>, evers: seq<set<Table>>, e: Edit, level: nat, more: set<Table>) {
    && |cur| == NUM_LEVELS && |evers| == NUM_LEVELS && ValidEdit(e)
    && (forall l :: 0 <= l < NUM_LEVELS ==> Incoming(e, l) == if l == level then more else {})
    && (forall l :: 0 <= l < NUM_LEVELS ==> ToSet(cur[l]) !! Incoming(e, l) && Distinct(evers[l] + Incoming(e, l)))
  }

  /** The current files are among those that ever were. */
  ghost predicate Covering(cur: seq<seq<Table>>, evers: seq<set<Table>>) {
    |cur| == NUM_LEVELS && |evers| == NUM_LEVELS && forall l :: 0 <= l < NUM_LEVELS ==> ToSet(cur[l]) <= evers[l]
  }

  lemma FlushLoggable(cur: seq<seq<Table>>, evers: seq<set<Table>>, next: nat, logNumber: nat, level: nat,
                      added: seq<Table>)
    requires Covering(cur, evers) && NumbersOk(Gathered(evers), next) && level < NUM_LEVELS
    requires |added| <= 1 && forall f :: f in added ==> f.number == next
    ensures Loggable(cur, evers, FlushEdit(logNumber, level, added), level, ToSet(added))
    ensures forall l :: 0 <= l < NUM_LEVELS ==>
              Saved(ToSet(cur[l]), ApplyAt(EMPTY, FlushEdit(logNumber, level, added), l))
              == if l == level then ToSet(cur[l]) + ToSet(added) else ToSet(cur[l])
  {
    var e := FlushEdit(logNumber, level, added);
    forall l | 0 <= l < NUM_LEVELS
      ensures Incoming(e, l) == if l == level then ToSet(added) else {}
      ensures ToSet(cur[l]) !! Incoming(e, l) && Distinct(evers[l] + Incoming(e, l))
      ensures Saved(ToSet(cur[l]), ApplyAt(EMPTY, e, l)) == if l == level then ToSet(cur[l]) + ToSet(added)
                                                            else ToSet(cur[l])
    {
      InGathered(evers, l);
      PlacedAt(added, level, l);
      NewNumbers(evers[l], Gathered(evers), ToSet(cur[l]), next, ToSet(added));
      FlushEffect(ToSet(cur[l]), logNumber, level, added, l);
    }
  }

  /** The new tables have consecutive numbers from `first`. */
  ghost predicate Numbered(outputs: seq<Table>, first: nat) {
    forall i :: 0 <= i < |outputs| ==> outputs[i].number == first + i
  }

  /** An output ends when it is full, or when it overlaps too much of the level after next. */
  ghost predicate CutRightly(t: Task, input: seq<Entry>, outputs: seq<Table>, bytes: seq<Entry> -> nat,
                             maxOutputSize: nat, grandparentLimit: nat) {
    && Compaction.AllInTime(outputs, bytes, maxOutputSize)
    && Compaction.EndsExplained(outputs, input, t.c.grandparents, grandparentLimit, bytes, maxOutputSize)
    && forall j :: 0 <= j < |outputs| ==> outputs[j].size == bytes(outputs[j].entries)
  }

  /** Run a compaction's merged input through the drop rule. */
  method RunCompaction(t: Task, input: seq<Entry>, firstNumber: nat, bytes: seq<Entry> -> nat, maxOutputSize: nat,
                       grandparentLimit: nat) returns (outputs: seq<Table>)
    requires TaskOk(Some(t)) && Sorted(input) && Unique(ToSet(input))
    ensures Ordered(outputs) && AllFilled(ToSet(outputs)) && Numbered(outputs, firstNumber)
    ensures EntriesOf(ToSet(outputs)) == Survivors(ToSet(input), t.smallest, Compaction.BaseOf(t.files, t.c.level))
    ensures CutRightly(t, input, outputs, bytes, maxOutputSize, grandparentLimit)
  {
    hide Sorted, Survivors, Compaction.EndsExplained;
    var job := new Compaction.Job(t.c.level, t.files, t.c.grandparents, grandparentLimit);
    outputs := Compaction.DoCompactionWork(job, input, t.smallest, firstNumber, bytes, maxOutputSize);
  }

  lemma SameBase(files: seq<seq<Table>>, level: nat, user: UserKey)
    ensures Compaction.IsBase(files, level, user) == IsBaseIn(LevelsOf(files), level, user)
  {
    var levels := LevelsOf(files);
    if !Compaction.IsBase(files, level, user) {
      var l, f :| level + 2 <= l < |files| && f in files[l] && f.smallest.user <= user <= f.largest.user;
      assert f in levels[l];
    }
    if !IsBaseIn(levels, level, user) {
      var l: int, f: Table :| level + 2 <= l < |levels| && f in levels[l] && f.smallest.user <= user <= f.largest.user;
      assert f in files[l];
    }
  }

  lemma SameSurvivors(inputs: set<Entry>, smallest: SequenceNumber, base: UserKey -> bool, base': UserKey -> bool)
    requires forall user :: base(user) == base'(user)
    ensures Survivors(inputs, smallest, base) == Survivors(inputs, smallest, base')
  {
    forall x ensures Obsolete(inputs, x, smallest, base) <==> Obsolete(inputs, x, smallest, base') {
    }
  }

  /** The remembered-position test on the input version is the one the store's job is defined by. */
  lemma SurvivorsAgree(files: seq<seq<Table>>, level: nat, inputs: set<Entry>, smallest: SequenceNumber)
    ensures Survivors(inputs, smallest, Compaction.BaseOf(files, level))
            == Survivors(inputs, smallest, BaseIn(LevelsOf(files), level))
  {
    forall user ensures Compaction.BaseOf(files, level)(user) == BaseIn(LevelsOf(files), level)(user) {
      SameBase(files, level, user);
    }
    SameSurvivors(inputs, smallest, Compaction.BaseOf(files, level), BaseIn(LevelsOf(files), level));
  }

  lemma NumberedDistinct(outputs: seq<Table>, next: nat, ever: set<Table>, now: set<Table>)
    requires Numbered(outputs, next) && NumbersOk(ever, next) && now <= ever
    ensures NumbersOk(ever + ToSet(outputs), next + |outputs|) && now !! ToSet(outputs)
  {
    forall f | f in ToSet(outputs) ensures next <= f.number < next + |outputs| {
      var i :| 0 <= i < |outputs| && outputs[i] == f;
    }
    forall f, g | f in ToSet(outputs) && g in ToSet(outputs) && f.number == g.number ensures f == g {
      var i :| 0 <= i < |outputs| && outputs[i] == f;
      var j :| 0 <= j < |outputs| && outputs[j] == g;
    }
    NumbersMore(ever, next, ToSet(outputs), next + |outputs|);
    assert Below(ever, next);
  }

  /** A job's inputs are files of the levels it works on. */
  lemma JobInPlace(s: State)
    requires Inv(s) && s.job.Some?
    ensures var r := s.job.value;
            && |s.levels| == NUM_LEVELS && r.level + 1 < NUM_LEVELS
            && r.in0 <= s.levels[r.level] && r.in1 <= s.levels[r.level + 1]
    ensures Unique(AllEntries(s.levels))
  {
    hide LevelSound, NewerAbove, NewerThan, LeavesOnlyNewer, KeysDisjoint, AllOneSide, BaseHolds, GaplessSet;
    StoredUnique(s.mem, s.imm, AllEntries(s.levels));
  }

  lemma InputsUnique(s: State, input: seq<Entry>)
    requires Inv(s) && s.job.Some? && ToSet(input) == JobInputs(s.job.value)
    ensures Unique(ToSet(input))
  {
    hide Inv, Unique;
    JobInPlace(s);
    var r := s.job.value;
    ReplacedContents(s.levels, r.level, r.in0, r.in1, {});
    StoredPart(AllEntries(s.levels), ToSet(input));
  }

  lemma StoredPart(es: set<Entry>, part: set<Entry>)
    requires Unique(es) && part <= es
    ensures Unique(part)
  {
  }

  lemma FinishFacts(s: State, cur: seq<seq<Table>>, evers: seq<set<Table>>, t: Task, outputs: seq<Table>, next: nat)
    requires Inv(s) && s.job == RunningOf(Some(t)) && s.levels == LevelsOf(cur) && Covering(cur, evers)
    requires NumbersOk(Gathered(evers), next) && Numbered(outputs, next)
    ensures |s.levels| == NUM_LEVELS && t.c.level + 1 < NUM_LEVELS
    ensures ToSet(t.c.in0) <= ToSet(cur[t.c.level]) && ToSet(t.c.in1) <= ToSet(cur[t.c.level + 1])
    ensures ToSet(cur[t.c.level + 1]) !! ToSet(outputs)
    ensures NumbersOk(Gathered(evers) + ToSet(outputs), next + |outputs|)
  {
    hide Inv, Unique, Numbered, NumbersOk, Gathered;
    JobInPlace(s);
    InGathered(evers, t.c.level + 1);
    NumberedDistinct(outputs, next, Gathered(evers), ToSet(cur[t.c.level + 1]));
  }

  lemma {:induction false} NumberedSize(outputs: seq<Table>, first: nat)
    requires Numbered(outputs, first)
    ensures |ToSet(outputs)| == |outputs|
  {
    if outputs != [] {
      var n := |outputs| - 1;
      NumberedSize(outputs[..n], first);
      ToSetTake(outputs, n);
      assert outputs[..n + 1] == outputs;
      assert outputs[n] !in ToSet(outputs[..n]);
    }
  }

  lemma FinishIsStep(s: State, s': State, t: Task, input: seq<Entry>, outputs: seq<Table>, next: nat)
    requires |s.levels| == NUM_LEVELS && s.job == RunningOf(Some(t)) && t.c.level + 1 < NUM_LEVELS && s.nextFile == next
    requires ToSet(input) == JobInputs(s.job.value)
    requires Ordered(outputs) && AllFilled(ToSet(outputs)) && Numbered(outputs, next)
    requires EntriesOf(ToSet(outputs)) == Survivors(ToSet(input), t.smallest, Compaction.BaseOf(t.files, t.c.level))
    requires s' == s.(job := None, nextFile := next + |outputs|,
                      levels := Replace(s.levels, t.c.level, ToSet(t.c.in0), ToSet(t.c.in1), ToSet(outputs)))
    ensures Step(s, s', Finish(ToSet(outputs)))
  {
    OrderedIsSeparated(outputs);
    NumberedSize(outputs, next);
    SurvivorsAgree(t.files, t.c.level, ToSet(input), t.smallest);
  }

  lemma AllNoted(cur: seq<seq<Table>>, evers: seq<set<Table>>, next: nat, s: State)
    requires Covering(cur, evers) && NumbersOk(Gathered(evers), next)
    requires s.levels == LevelsOf(cur) && SequencesSound(s)
    ensures forall l, f :: 0 <= l < |cur| && f in cur[l] ==>
              f.number < next && forall x :: x in f.entries ==> x.key.sequence <= s.lastSequence
  {
    forall l, f | 0 <= l < |cur| && f in cur[l]
      ensures f.number < next && forall x :: x in f.entries ==> x.key.sequence <= s.lastSequence
    {
      assert f in ToSet(cur[l]) && f in Gathered(evers);
      forall x | x in f.entries ensures x.key.sequence <= s.lastSequence {
        assert x in EntriesOf(s.levels[l]) && x in AllEntries(s.levels);
      }
    }
  }

  class DB {
    const versions: VersionSet
    var mem: seq<Entry>
    var imm: Option<seq<Entry>>
    var snapshots: seq<SequenceNumber>
    var task: Option<Task>
    var logFileNumber: nat
    /** Every entry ever written. */
    ghost var history: set<Entry>

    /** The files each level has ever held. */
    ghost function Evers(): (r: seq<set<Table>>)
      requires |versions.current| == NUM_LEVELS
      reads versions`manifest, versions`current
      ensures |r| == NUM_LEVELS && forall l :: 0 <= l < NUM_LEVELS ==> r[l] == versions.EverAt(l)
    {
      [versions.EverAt(0), versions.EverAt(1), versions.EverAt(2), versions.EverAt(3), versions.EverAt(4),
       versions.EverAt(5), versions.EverAt(6)]
    }

    ghost predicate Shape()
      reads this, versions
    {
      && versions.Valid() && versions.lastSequence < MAX_SEQUENCE
      && MemoryOk(mem, imm, snapshots) && TaskOk(task)
      && versions.logNumber <= logFileNumber < versions.nextFileNumber
      && NumbersOk(Gathered(Evers()), versions.nextFileNumber)
      && (versions.manifest != [] ==> versions.Noted())
    }

    /** The state of the store this object stands for. */
    ghost function S(): State
      requires versions.lastSequence < MAX_SEQUENCE
      reads this, versions
    {
      State(ToSet(mem), ImmEntries(imm), LevelsOf(versions.current), versions.lastSequence, snapshots,
            versions.nextFileNumber, RunningOf(task), history, false)
    }

    ghost predicate Valid()
      reads this, versions
    {
      Shape() && Inv(S())
    }

    constructor ()
      ensures Valid() && fresh(versions) && S() == Init()
    {
      hide Valid, Shape, VersionSet.Valid, VersionSet.EverAt, Inv, Gathered, NumbersOk, Init, ReadsTrue, DurableTrue;
      hide Recorded;
      versions := new VersionSet(seq(NUM_LEVELS, _ => []), 0, 0, 2, 0);
      mem, imm, snapshots, task, logFileNumber, history := [], None, [], None, 0, {};
      new;
      NothingStored();
      InitHolds();
      Assembled();
    }

    lemma NothingStored()
      requires versions.manifest == [] && versions.current == seq(NUM_LEVELS, _ => [])
      ensures NumbersOk(Gathered(Evers()), 2)
      ensures State({}, {}, LevelsOf(versions.current), 0, [], 2, None, {}, false) == Init()
    {
      assert forall l :: 0 <= l < NUM_LEVELS ==> Evers()[l] == {} && LevelsOf(versions.current)[l] == {};
      NothingYet(Evers(), 2);
      assert LevelsOf(versions.current) == Init().levels;
    }

    /** What `Valid` consists of, one fact at a time. */
    lemma Parts()
      requires Valid()
      ensures versions.Valid() && versions.lastSequence < MAX_SEQUENCE && MemoryOk(mem, imm, snapshots) && TaskOk(task)
      ensures versions.logNumber <= logFileNumber < versions.nextFileNumber
      ensures NumbersOk(Gathered(Evers()), versions.nextFileNumber) && Inv(S())
      ensures versions.manifest != [] ==> versions.Noted()
    {
    }

    lemma Assembled()
      requires versions.Valid() && versions.lastSequence < MAX_SEQUENCE && MemoryOk(mem, imm, snapshots) && TaskOk(task)
      requires versions.logNumber <= logFileNumber < versions.nextFileNumber
      requires NumbersOk(Gathered(Evers()), versions.nextFileNumber) && Inv(S())
      requires versions.manifest != [] ==> versions.Noted()
      ensures Valid()
    {
    }

    /** After a step taken in `before`, and back in shape. */
    lemma AssembledFrom(before: State, step: Label)
      requires versions.Valid() && versions.lastSequence < MAX_SEQUENCE && MemoryOk(mem, imm, snapshots) && TaskOk(task)
      requires versions.logNumber <= logFileNumber < versions.nextFileNumber
      requires NumbersOk(Gathered(Evers()), versions.nextFileNumber)
      requires Inv(before) && Step(before, S(), step) && !step.Crash?
      requires versions.manifest != [] ==> versions.Noted()
      ensures Shape()
      ensures Orderly(before, step) ==>
                Valid() && (ReadsTrue(before) && Covered(before, step) ==> ReadsTrue(S()))
    {
      hide Inv, Step, ReadsTrue, Orderly, Covered, VersionSet.Valid;
      if Orderly(before, step) {
        StepKeepsAll(before, S(), step);
      }
    }

    /** What has just been logged covers the version that the step leads to. */
    lemma Logged(before: State, step: Label)
      requires versions.Valid() && versions.lastSequence < MAX_SEQUENCE
      requires NumbersOk(Gathered(Evers()), versions.nextFileNumber)
      requires Inv(before) && Step(before, S(), step) && !step.Crash?
      requires Seen(versions.manifest) == Counters(Some(versions.logNumber), Some(versions.prevLogNumber),
                                                   Some(versions.nextFileNumber), Some(versions.lastSequence))
      ensures versions.Noted()
    {
      hide Inv, Step, VersionSet.Valid, VersionSet.EverAt, VersionSet.Noted, Seen, NumbersOk, Covering, Gathered;
      hide LevelsOf;
      StepKeepsSequences(before, S(), step);
      Versions();
      AllNoted(versions.current, Evers(), versions.nextFileNumber, S());
      versions.NotedNow();
    }

    method Write(batch: seq<Op>)
      requires Valid() && versions.lastSequence + |batch| < MAX_SEQUENCE
      modifies this`mem, this`history, versions`lastSequence
      ensures Valid() && Step(old(S()), S(), Label.Write(batch))
      ensures old(ReadsTrue(S())) ==> ReadsTrue(S())
      ensures versions.lastSequence == old(versions.lastSequence) + |batch|
      ensures forall user: UserKey, i: nat :: LastOn(batch, user, i) ==>
                Read(history, user, versions.lastSequence) == if batch[i].Put? then Some(batch[i].value) else None
      ensures forall user: UserKey :: Untouched(batch, user) ==>
                Read(history, user, versions.lastSequence) == old(Read(history, user, versions.lastSequence))
      ensures forall user: UserKey, q: nat :: q <= old(versions.lastSequence) ==>
                Read(history, user, q) == old(Read(history, user, q))
    {
      hide Valid, Shape, VersionSet.Valid, Evers, VersionSet.EverAt, Inv, ReadsTrue, Step, NumbersOk, TaskOk;
      hide Sorted, BatchEntries, ImmEntries, RunningOf, LevelsOf, Read, LastOn, Untouched;
      Parts();
      ghost var before := S();
      var first := versions.lastSequence + 1;
      MemBelow(before, first);
      mem := InsertBatch(mem, batch, first);
      history := history + BatchEntries(batch, first);
      versions.SetLastSequence(versions.lastSequence + |batch|);
      WriteIsStep(before, S(), batch);
      StepKeepsAll(before, S(), Label.Write(batch));
      WriteTold(before, S(), batch);
      Assembled();
    }

    /** The switch in MakeRoomForWrite: a new log, and a new memtable. */
    method SwitchMemTable()
      requires Valid() && imm == None
      modifies this`mem, this`imm, this`logFileNumber, versions`nextFileNumber
      ensures Valid() && Step(old(S()), S(), Label.SwitchMemTable) && imm == Some(old(mem)) && mem == []
      ensures logFileNumber == old(versions.nextFileNumber) && versions.nextFileNumber == logFileNumber + 1
      ensures old(ReadsTrue(S())) ==> ReadsTrue(S())
    {
      hide Valid, Shape, VersionSet.Valid, Evers, VersionSet.EverAt, Inv, ReadsTrue, TaskOk;
      hide RunningOf, LevelsOf;
      Parts();
      ghost var before := S();
      logFileNumber := versions.NewFileNumber();
      imm, mem := Some(mem), [];
      assert S().mem == {};
      StepKeepsAll(before, S(), Label.SwitchMemTable);
      Assembled();
    }

    method GetSnapshot() returns (q: SequenceNumber)
      requires Valid()
      modifies this`snapshots
      ensures Valid() && Step(old(S()), S(), Label.TakeSnapshot) && snapshots == old(snapshots) + [q]
      ensures q == versions.lastSequence
      ensures old(ReadsTrue(S())) ==> ReadsTrue(S())
    {
      hide Valid, Shape, VersionSet.Valid, Evers, VersionSet.EverAt, Inv, ReadsTrue, TaskOk;
      hide Sorted, RunningOf, LevelsOf;
      Parts();
      ghost var before := S();
      q := versions.lastSequence;
      TakenLast(before);
      snapshots := snapshots + [q];
      StepKeepsAll(before, S(), Label.TakeSnapshot);
      Assembled();
    }

    method ReleaseSnapshot(i: nat)
      requires Valid() && i < |snapshots|
      modifies this`snapshots
      ensures Valid() && Step(old(S()), S(), Label.ReleaseSnapshot(i))
      ensures snapshots == old(snapshots)[..i] + old(snapshots)[i + 1..]
      ensures old(ReadsTrue(S())) ==> ReadsTrue(S())
    {
      hide Valid, Shape, VersionSet.Valid, Evers, VersionSet.EverAt, Inv, ReadsTrue, TaskOk;
      hide Sorted, RunningOf, LevelsOf;
      Parts();
      ghost var before := S();
      snapshots := snapshots[..i] + snapshots[i + 1..];
      StepKeepsAll(before, S(), Label.ReleaseSnapshot(i));
      Assembled();
    }

    /** DB::Get, at a snapshot or at the latest sequence number. */
    method Get(user: UserKey, snapshot: Option<SequenceNumber>) returns (result: Option<Bytes>)
      requires Valid()
      ensures var q := if snapshot.Some? then snapshot.value else versions.lastSequence;
              && result == Read(Contents(S()), user, q)
              && (ReadsTrue(S()) && (snapshot.Some? ==> q in snapshots) ==> result == Read(history, user, q))
    {
      hide Valid, Shape, VersionSet.Valid, Evers, VersionSet.EverAt, Inv, TaskOk;
      hide Sorted, RunningOf, LevelsOf, Searchable, WellFormed, NewerThan, Unique, Read;
      Parts();
      var q := if snapshot.Some? then snapshot.value else versions.lastSequence;
      Versions();
      LookupReady(S(), versions.current);
      result := Lookup.Get(mem, imm, versions.current, user, q);
    }

    lemma Versions()
      requires versions.Valid()
      ensures Listed(versions.current) && Covering(versions.current, Evers())
    {
      versions.CurrentCovered();
    }

    /** Log an edit that puts new files in at one level. */
    method Install(e: Edit, ghost level: nat, ghost more: set<Table>)
      requires versions.Valid() && level < NUM_LEVELS && Loggable(versions.current, Evers(), e, level, more)
      requires e.logNumber.Some? ==> versions.logNumber <= e.logNumber.value < versions.nextFileNumber
      modifies versions
      ensures versions.Valid() && |versions.current| == NUM_LEVELS
      ensures Gathered(Evers()) == old(Gathered(Evers())) + more
      ensures forall l :: 0 <= l < NUM_LEVELS ==>
                ToSet(versions.current[l]) == Saved(ToSet(old(versions.current)[l]), ApplyAt(EMPTY, e, l))
      ensures versions.logNumber == if e.logNumber.Some? then e.logNumber.value else old(versions.logNumber)
      ensures versions.prevLogNumber
              == if e.prevLogNumber.Some? then e.prevLogNumber.value else old(versions.prevLogNumber)
      ensures versions.nextFileNumber == old(versions.nextFileNumber)
      ensures versions.lastSequence == old(versions.lastSequence)
      ensures Seen(versions.manifest) == Counters(Some(versions.logNumber), Some(versions.prevLogNumber),
                                                  Some(versions.nextFileNumber), Some(versions.lastSequence))
    {
      hide Seen;
      hide VersionSet.Valid, VersionSet.EverAt, Gathered, Distinct, Saved, ApplyAt, AddAll, ValidEdit;
      ghost var evers := Evers();
      versions.LogAndApply(e);
      Versions();
      GatheredMore(evers, Evers(), level, more);
    }

    /** DBImpl::WriteLevel0Table: build a table from the immutable memtable, if it has entries, and pick its level. */
    method WriteLevel0Table(run: seq<Entry>, bytes: seq<Entry> -> nat, grandparentLimit: nat)
      returns (level: nat, added: seq<Table>)
      requires versions.Valid() && WellFormed(versions.current) && Sorted(run)
      modifies versions`nextFileNumber
      ensures versions.Valid() && versions.nextFileNumber == old(versions.nextFileNumber) + 1
      ensures level <= MAX_MEM_COMPACT_LEVEL && (if run == [] then added == [] else |added| == 1)
      ensures forall f :: f in added ==>
                && Filled(f) && f.entries == run && f.number == old(versions.nextFileNumber) && f.size == bytes(run)
                && f.smallest.user <= f.largest.user && |versions.current| == NUM_LEVELS
                && RightLevel(versions.current, f, level, grandparentLimit)
    {
      hide VersionSet.Valid, WellFormed, Sorted, Filled, NoOverlap;
      level, added := 0, [];
      var number := versions.NewFileNumber();
      if run != [] {
        var f := BuildTable(number, run, bytes);
        level := PickLevelForMemTableOutput(versions.current, f.smallest.user, f.largest.user, grandparentLimit);
        added := [f];
      }
    }

    /** Log a flush: the new table, if any, joins its level, and the old log is needed no more. */
    method InstallFlush(level: nat, added: seq<Table>, ghost number: nat)
      requires versions.Valid() && level < NUM_LEVELS && versions.logNumber <= logFileNumber < versions.nextFileNumber
      requires NumbersOk(Gathered(Evers()), number) && versions.nextFileNumber == number + 1
      requires |added| <= 1 && forall f :: f in added ==> f.number == number
      modifies versions
      ensures versions.Valid() && NumbersOk(Gathered(Evers()), versions.nextFileNumber)
      ensures LevelsOf(versions.current)
              == old(LevelsOf(versions.current))[level := old(LevelsOf(versions.current))[level] + ToSet(added)]
      ensures versions.logNumber == logFileNumber && versions.prevLogNumber == 0
      ensures versions.nextFileNumber == old(versions.nextFileNumber)
      ensures versions.lastSequence == old(versions.lastSequence)
      ensures Seen(versions.manifest) == Counters(Some(versions.logNumber), Some(versions.prevLogNumber),
                                                  Some(versions.nextFileNumber), Some(versions.lastSequence))
    {
      hide Seen;
      hide VersionSet.Valid, Gathered, VersionSet.EverAt, NumbersOk, Covering, Loggable, Distinct, Placed, ApplyAt;
      hide Saved;
      Versions();
      ghost var cur, evers := versions.current, Evers();
      FlushLoggable(cur, evers, number, logFileNumber, level, added);
      SmallIsDistinct(added);
      NumbersMore(Gathered(evers), number, ToSet(added), number + 1);
      var e := FlushEdit(logFileNumber, level, added);
      Install(e, level, ToSet(added));
      FlushedLevels(cur, versions.current, evers, number, logFileNumber, level, added);
    }

    /** DBImpl::CompactMemTable.  `bytes` gives the size of a table with given entries. */
    method CompactMemTable(bytes: seq<Entry> -> nat, grandparentLimit: nat) returns (ghost step: Label)
      requires Valid() && imm.Some?
      modifies this`imm, versions
      ensures imm == None && Shape() && Step(old(S()), S(), step)
      ensures versions.logNumber == logFileNumber && versions.prevLogNumber == 0
      ensures Orderly(old(S()), step) ==> Valid() && (old(ReadsTrue(S())) ==> ReadsTrue(S()))
    {
      hide VersionSet.Noted, Seen;
      hide Valid, Shape, VersionSet.Valid, Gathered, VersionSet.EverAt, Inv, ReadsTrue, TaskOk, Step, Orderly;
      hide NumbersOk;
      hide RunningOf, LevelsOf, RightLevel, Sorted, Filled, WellFormed, Searchable, NewerThan, Unique, BySmallest;
      Parts();
      ghost var before, cur, number := S(), versions.current, versions.nextFileNumber;
      Versions();
      LookupReady(before, cur);
      var level, added := WriteLevel0Table(imm.value, bytes, grandparentLimit);
      InstallFlush(level, added, number);
      imm := None;
      step := if added == [] then FlushEmpty else Label.Flush(added[0], level);
      FlushedIsStep(before, S(), cur, level, added, grandparentLimit, step);
      Logged(before, step);
      AssembledFrom(before, step);
    }

    /** Log the edit of a compaction. */
    method InstallCompaction(level: nat, in0: seq<Table>, in1: seq<Table>, outputs: seq<Table>)
      requires versions.Valid() && level + 1 < NUM_LEVELS && |versions.current| == NUM_LEVELS
      requires NumbersOk(Gathered(Evers()) + ToSet(outputs), versions.nextFileNumber)
      requires ToSet(in0) <= ToSet(versions.current[level]) && ToSet(in1) <= ToSet(versions.current[level + 1])
      requires ToSet(versions.current[level + 1]) !! ToSet(outputs)
      modifies versions
      ensures versions.Valid() && NumbersOk(Gathered(Evers()), versions.nextFileNumber)
      ensures LevelsOf(versions.current)
              == Replace(old(LevelsOf(versions.current)), level, ToSet(in0), ToSet(in1), ToSet(outputs))
      ensures versions.logNumber == old(versions.logNumber)
      ensures versions.nextFileNumber == old(versions.nextFileNumber)
      ensures versions.lastSequence == old(versions.lastSequence)
      ensures Seen(versions.manifest) == Counters(Some(versions.logNumber), Some(versions.prevLogNumber),
                                                  Some(versions.nextFileNumber), Some(versions.lastSequence))
    {
      hide Seen;
      hide VersionSet.Valid, Gathered, VersionSet.EverAt, Covering, Loggable, Distinct, Below, Placed, ApplyAt, Saved;
      hide Replace;
      Versions();
      ghost var cur, evers := versions.current, Evers();
      CompactionLoggable(cur, evers, level, in0, in1, outputs);
      var e := CompactionEdit(level, in0, in1, outputs);
      Install(e, level + 1, ToSet(outputs));
      ReplacedLevels(cur, versions.current, evers, level, in0, in1, outputs);
    }

    /** A trivial move: the one input file goes down a level as it is. */
    method Move(c: Inputs) returns (ghost step: Label)
      requires Valid() && task == None && |versions.current| == NUM_LEVELS && c.level + 1 < NUM_LEVELS
      requires SoundInputs(versions.current, c) && |c.in0| == 1 && c.in1 == []
      modifies versions
      ensures Valid() && step == TrivialMove(c.level, c.in0[0]) && Step(old(S()), S(), step)
      ensures old(ReadsTrue(S())) ==> ReadsTrue(S())
    {
      hide VersionSet.Noted, Seen;
      hide Valid, Shape, VersionSet.Valid, Gathered, VersionSet.EverAt, Inv, ReadsTrue, TaskOk, Step, NumbersOk;
      hide Sorted, WellFormed, BySmallest, Replace;
      Parts();
      ghost var before := S();
      var f := c.in0[0];
      Versions();
      MoveFacts(before, versions.current, Evers(), c, f, versions.nextFileNumber);
      InstallCompaction(c.level, [f], [], [f]);
      step := TrivialMove(c.level, f);
      MoveIsStep(before, S(), c.level, f);
      Logged(before, step);
      AssembledFrom(before, step);
    }

    /** Begin a compaction of the chosen inputs of the current version. */
    method Start(c: Inputs, manual: bool) returns (ghost step: Label)
      requires Valid() && task == None && |versions.current| == NUM_LEVELS && c.level + 1 < NUM_LEVELS
      requires SoundInputs(versions.current, c) && (!manual ==> GaplessSet(ToSet(c.in0) + ToSet(c.in1)))
      modifies this`task
      ensures Valid() && step.Begin? && step.job.manual == manual && RunningOf(task) == Some(step.job)
      ensures task.Some? && task.value.c == c
      ensures Step(old(S()), S(), step)
      ensures old(ReadsTrue(S())) ==> ReadsTrue(S())
    {
      hide Valid, Shape, VersionSet.Valid, Gathered, VersionSet.EverAt, Inv, ReadsTrue, NumbersOk;
      hide Sorted, BySmallest, Picked, GaplessSet, LevelsOf, WellFormed, TaskOk, Searchable, NewerThan, Unique, Step;
      hide Contents;
      Parts();
      ghost var before := S();
      Versions();
      LookupReady(before, versions.current);
      var smallest := if snapshots == [] then versions.lastSequence else snapshots[0];
      SmallestIsHorizon(before, smallest);
      task := Some(Task(manual, c, versions.current, smallest));
      StartOk(before, task.value);
      step := Begin(RunningOf(task).value);
      StartIsStep(before, S(), step.job, versions.current, c);
      AssembledFrom(before, step);
    }

    /** BackgroundCompaction, automatic, once VersionSet::Finalize has chosen the level: a trivial move if it can be
        one, and otherwise the start of a compaction. */
    method BeginAutomatic(level: nat, pointer: Option<InternalKey>, seek: Option<Table>, growLimit: nat,
                          grandparentLimit: nat)
      returns (ghost step: Label, ghost c: Inputs)
      requires Valid() && task == None && level + 1 < NUM_LEVELS && |versions.current| == NUM_LEVELS
      requires versions.current[level] != [] && (seek.Some? ==> seek.value in versions.current[level])
      modifies this`task, versions
      ensures Valid() && (step.TrivialMove? || (step.Begin? && !step.job.manual)) && Step(old(S()), S(), step)
      ensures old(ReadsTrue(S())) ==> ReadsTrue(S())
      ensures c.level == level && AutomaticChoice(old(versions.current), level, pointer, seek, growLimit, c)
      ensures step.TrivialMove? <==> |c.in0| == 1 && c.in1 == [] && TotalFileSize(c.grandparents) <= grandparentLimit
      ensures if step.TrivialMove? then step == TrivialMove(level, c.in0[0]) else task.Some? && task.value.c == c
    {
      hide Valid, Shape, VersionSet.Valid, Inv, ReadsTrue, Step, WellFormed, Picked, GaplessSet, Searchable, Listed;
      hide Contents;
      Parts();
      Versions();
      LookupReady(S(), versions.current);
      hide AutomaticChoice;
      var inputs := PickCompaction(versions.current, level, pointer, seek, growLimit);
      c := inputs;
      if IsTrivialMove(inputs, grandparentLimit) {
        step := Move(inputs);
      } else {
        step := Start(inputs, false);
      }
    }

    /** BackgroundCompaction, manual: never a trivial move, and nothing at all if no file overlaps the range. */
    method BeginManual(level: nat, begin: Option<UserKey>, end: Option<UserKey>, fileLimit: nat, growLimit: nat)
      returns (started: bool, ghost step: Option<Label>)
      requires Valid() && task == None && level + 1 < NUM_LEVELS && |versions.current| == NUM_LEVELS
      modifies this`task
      ensures Valid() && (old(ReadsTrue(S())) ==> ReadsTrue(S()))
      ensures started ==> step.Some? && step.value.Begin? && step.value.job.manual && Step(old(S()), S(), step.value)
      ensures !started <==> forall f :: f in versions.current[level] ==> !Overlaps(f, begin, end)
      ensures if started then
                task.Some? && ManualChoice(versions.current, level, begin, end, fileLimit, growLimit, task.value.c)
              else task == None && step == None
    {
      hide Valid, Shape, VersionSet.Valid, Inv, ReadsTrue, Step, WellFormed, Picked, GaplessSet, Searchable, Listed;
      hide Contents;
      Parts();
      Versions();
      LookupReady(S(), versions.current);
      hide ManualChoice, SoundInputs, Overlaps, NewerThan, Unique, TaskOk, RunningOf, LevelsOf;
      var c := CompactRange(versions.current, level, begin, end, fileLimit, growLimit);
      if c.None? {
        return false, None;
      }
      ghost var begun := Start(c.value, true);
      return true, Some(begun);
    }

    method DrawNumbers(n: nat)
      requires versions.Valid()
      modifies versions`nextFileNumber
      ensures versions.Valid() && versions.nextFileNumber == old(versions.nextFileNumber) + n
    {
      hide VersionSet.Valid;
      for i := 0 to n
        invariant versions.Valid() && versions.nextFileNumber == old(versions.nextFileNumber) + i
      {
        var _ := versions.NewFileNumber();
      }
    }

    /** DoCompactionWork and InstallCompactionResults.  `input` is what the merging iterator over the inputs yields. */
    method FinishCompaction(input: seq<Entry>, bytes: seq<Entry> -> nat, maxOutputSize: nat, grandparentLimit: nat)
      returns (ghost step: Label, ghost outputs: seq<Table>)
      requires Valid() && task.Some?
      requires Sorted(input) && ToSet(input) == JobInputs(RunningOf(task).value)
      modifies this`task, versions
      ensures Valid() && task == None && step == Finish(ToSet(outputs)) && Step(old(S()), S(), step)
      ensures Ordered(outputs) && Numbered(outputs, old(versions.nextFileNumber))
      ensures CutRightly(old(task).value, input, outputs, bytes, maxOutputSize, grandparentLimit)
      ensures old(ReadsTrue(S())) && !old(Exposing(S())) ==> ReadsTrue(S())
    {
      hide VersionSet.Noted, Seen;
      hide Valid, Shape, VersionSet.Valid, Gathered, VersionSet.EverAt, Inv, ReadsTrue, Step, NumbersOk, Exposing;
      hide Sorted, BySmallest, LevelsOf, Listed, Covering, Contents, CutRightly;
      Parts();
      ghost var before := S();
      Versions();
      var t := task.value;
      ghost var cur, evers, next := versions.current, Evers(), versions.nextFileNumber;
      InputsUnique(before, input);
      var tables := RunCompaction(t, input, versions.nextFileNumber, bytes, maxOutputSize, grandparentLimit);
      outputs := tables;
      DrawNumbers(|tables|);
      FinishFacts(before, cur, evers, t, tables, next);
      InstallCompaction(t.c.level, t.c.in0, t.c.in1, tables);
      task := None;
      step := Finish(ToSet(tables));
      FinishIsStep(before, S(), t, input, tables, next);
      Logged(before, step);
      AssembledFrom(before, step);
    }

    /** What VersionSet::Recover makes of the manifest as it stands: the same files, numbered past all of them, and a
        sequence number that sees every entry in them. */
    method RecoverVersions() returns (r: Recovered)
      requires Valid() && versions.manifest != []
      ensures r.Recovered? && r.files == versions.current && r.logNumber == versions.logNumber
      ensures r.lastSequence <= versions.lastSequence
      ensures forall l, f :: 0 <= l < |r.files| && f in r.files[l] ==>
                f.number < r.nextFileNumber && forall x :: x in f.entries ==> x.key.sequence <= r.lastSequence
    {
      hide Shape, Valid, VersionSet.Valid, VersionSet.EverAt, Inv, VersionSet.Noted, Seen, NumbersOk;
      Parts();
      r := versions.Reopen();
    }

    /** A new iterator over everything in the store, at a snapshot or at the latest sequence number.  `run` is what
        the internal iterator yields.  What the iterator shows is the sorted map of the writes up to then. */
    method NewIterator(run: seq<Entry>, snapshot: Option<SequenceNumber>) returns (it: DbIter.DBIter)
      requires Valid() && Sorted(run) && ToSet(run) == Contents(S())
      ensures fresh(it) && it.Ok() && !it.valid && it.run == run
      ensures it.sequence == if snapshot.Some? then snapshot.value else versions.lastSequence
      ensures forall c, d :: 0 <= c < d < |it.View()| ==> it.View()[c].0 < it.View()[d].0
      ensures ReadsTrue(S()) && (snapshot.Some? ==> snapshot.value in snapshots) ==>
                forall user, value :: (user, value) in it.View() <==> Read(history, user, it.sequence) == Some(value)
    {
      hide Valid, Shape, VersionSet.Valid, Inv, Read, ReadsTrue, Contents, DbIter.Yields, DbIter.ViewOf, Sorted;
      Parts();
      ContentsUnique(S());
      var q := if snapshot.Some? then snapshot.value else versions.lastSequence;
      it := new DbIter.DBIter(run, q);
      DbIter.ViewIsSnapshot(run, q);
      SnapshotsRead(S(), q);
    }
  }
}
