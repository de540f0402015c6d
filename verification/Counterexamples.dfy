/**
 Two runs, from the empty store, that show the hypotheses of the run theorems are needed.  Every flush in them goes to
 the level the code picks, every compaction takes the files the code selects, and outputs are cut where they are full.
*/
module Counterexamples {
  import opened Format
  import opened Reads
  import opened DropRule
  import opened Tables
  import opened Ranges
  import opened Boundary
  import opened Lookup
  import opened Picking
  import opened Store
  import opened Invariant
  import opened Runs
  import Compaction

  function Value1(user: UserKey, sequence: SequenceNumber): Entry {
    Entry(InternalKey(user, sequence, Value), [])
  }

  /** The bytes of the values in a table. */
  function ValueBytes(entries: seq<Entry>): nat {
    if entries == [] then 0 else ValueBytes(entries[..|entries| - 1]) + |entries[|entries| - 1].value|
  }

  function TableOf(number: nat, entries: seq<Entry>): File
    requires entries != []
  {
    File(number, ValueBytes(entries), entries[0].key, entries[|entries| - 1].key, entries)
  }

  /** Levels with files in levels one and two only. */
  ghost function OneTwo(one: set<Table>, two: set<Table>): (levels: Levels)
    ensures |levels| == NUM_LEVELS && levels[1] == one && levels[2] == two
    ensures forall l :: 0 <= l < NUM_LEVELS && l != 1 && l != 2 ==> levels[l] == {}
  {
    [{}, one, two, {}, {}, {}, {}]
  }

  // ----- runs -----

  /** A run under construction. */
  datatype Run = Run(states: seq<State>, steps: seq<Label>) {
    ghost predicate Valid() {
      states != [] && IsRun(states, steps)
    }

    function Last(): State
      requires states != []
    {
      states[|states| - 1]
    }

    /** No compaction was asked for by hand. */
    predicate Automatic() {
      forall i :: 0 <= i < |steps| && steps[i].Begin? ==> !steps[i].job.manual
    }
  }

  lemma Extend(run: Run, step: Label, s': State) returns (run': Run)
    requires run.Valid() && Step(run.Last(), s', step)
    ensures run'.Valid() && run'.Last() == s' && run'.steps == run.steps + [step] && run'.states == run.states + [s']
    ensures run.Automatic() && (step.Begin? ==> !step.job.manual) ==> run'.Automatic()
  {
    run' := Run(run.states + [s'], run.steps + [step]);
    forall i | 0 <= i < |run'.steps| ensures Step(run'.states[i], run'.states[i + 1], run'.steps[i]) {
      if i == |run.steps| {
        assert run'.states[i] == run.Last() && run'.states[i + 1] == s';
      } else {
        assert run'.states[i] == run.states[i] && run'.states[i + 1] == run.states[i + 1];
      }
    }
  }

  lemma StartRun() returns (run: Run)
    ensures run.Valid() && run.Automatic() && run.Last() == Init() && Init().levels == OneTwo({}, {})
  {
    run := Run([Init()], []);
    assert Init().levels == OneTwo({}, {});
  }

  /** Write one value and switch memtables. */
  lemma PutAndSwitch(s: State, user: UserKey) returns (a: State, b: State)
    requires s.mem == {} && s.imm == {} && s.lastSequence + 1 < MAX_SEQUENCE && !s.recovering
    ensures Step(s, a, Write([Put(user, [])])) && Step(a, b, SwitchMemTable)
    ensures var e := Value1(user, s.lastSequence + 1);
            b == s.(imm := {e}, nextFile := s.nextFile + 1, lastSequence := s.lastSequence + 1,
                    history := s.history + {e})
  {
    var e := Value1(user, s.lastSequence + 1);
    var added := BatchEntries([Put(user, [])], s.lastSequence + 1);
    assert EntryOf([Put(user, [])][0], s.lastSequence + 1 + 0) == e;
    assert added == {e};
    a := s.(mem := s.mem + added, history := s.history + added, lastSequence := s.lastSequence + 1);
    assert {} + {e} == {e};
    b := a.(imm := a.mem, mem := {}, nextFile := a.nextFile + 1);
  }

  lemma OneEntryTable(number: nat, e: Entry) returns (f: Table)
    ensures f == TableOf(number, [e]) && Filled(f) && ToSet(f.entries) == {e} && EntriesOf({f}) == {e}
    ensures f.smallest == e.key && f.largest == e.key
  {
    f := TableOf(number, [e]);
  }

  ghost predicate NoneAt(files: set<Table>, user: UserKey) {
    forall g :: g in files ==> user < g.smallest.user || g.largest.user < user
  }

  /** The level a table of one user key goes to, when only levels one and two hold files. */
  ghost predicate GoesTo(one: set<Table>, two: set<Table>, user: UserKey, level: nat) {
    NoneAt(one, user) && level == if NoneAt(two, user) then 2 else 1
  }

  lemma GoesToLevel(one: set<Table>, two: set<Table>, f: Table, level: nat)
    requires GoesTo(one, two, f.smallest.user, level) && f.smallest.user == f.largest.user
    ensures LevelFor(OneTwo(one, two), f, level)
  {
    var levels := OneTwo(one, two);
    forall l | 0 <= l <= level ensures Outside(levels[l], f) {
    }
    if level == 1 {
      assert !Outside(levels[2], f);
    }
  }

  lemma PutSwitchFlush(run: Run, user: UserKey, level: nat, one: set<Table>, two: set<Table>)
    returns (run': Run, f: Table)
    requires run.Valid() && GoesTo(one, two, user, level)
    requires var s := run.Last();
             && s.mem == {} && s.imm == {} && s.lastSequence + 1 < MAX_SEQUENCE && !s.recovering
             && s.levels == OneTwo(one, two)
    ensures run'.Valid() && (run.Automatic() ==> run'.Automatic())
    ensures run.steps <= run'.steps
    ensures var s, e := run.Last(), Value1(user, run.Last().lastSequence + 1);
            && f == TableOf(s.nextFile + 1, [e]) && Filled(f)
            && run'.Last() == s.(nextFile := s.nextFile + 2, lastSequence := s.lastSequence + 1,
                                 history := s.history + {e},
                                 levels := if level == 1 then OneTwo(one + {f}, two) else OneTwo(one, two + {f}))
  {
    hide IsRun, Step, GoesTo, OneTwo, Filled;
    var s := run.Last();
    var a, c := PutAndSwitch(s, user);
    var r1 := Extend(run, Write([Put(user, [])]), a);
    var r2 := Extend(r1, SwitchMemTable, c);
    var s';
    s', f := FlushOne(c, user, s.lastSequence + 1, level, one, two);
    run' := Extend(r2, Flush(f, level), s');
  }

  lemma FlushOne(c: State, user: UserKey, sequence: SequenceNumber, level: nat, one: set<Table>, two: set<Table>)
    returns (s': State, f: Table)
    requires c.imm == {Value1(user, sequence)} && c.levels == OneTwo(one, two) && !c.recovering
    requires GoesTo(one, two, user, level)
    ensures Step(c, s', Flush(f, level)) && f == TableOf(c.nextFile, [Value1(user, sequence)]) && Filled(f)
    ensures s' == c.(imm := {}, nextFile := c.nextFile + 1,
                     levels := if level == 1 then OneTwo(one + {f}, two) else OneTwo(one, two + {f}))
  {
    f := OneEntryTable(c.nextFile, Value1(user, sequence));
    GoesToLevel(one, two, f, level);
    hide Filled, LevelFor;
    var levels' := if level == 1 then OneTwo(one + {f}, two) else OneTwo(one, two + {f});
    assert c.levels[level := c.levels[level] + {f}] == levels';
    s' := c.(imm := {}, levels := levels', nextFile := c.nextFile + 1);
    assert FlushStep(c, s', f, level);
  }

  lemma TwoEntryTable(number: nat, x: Entry, y: Entry) returns (o: Table)
    requires Before(x.key, y.key)
    ensures o == TableOf(number, [x, y]) && Filled(o) && EntriesOf({o}) == {x, y} && o.smallest == x.key
    ensures o.largest == y.key
  {
    assert Ascending([x, y][..1]);
    o := TableOf(number, [x, y]);
    assert ToSet([x, y]) == {x, y};
  }

  lemma EntriesOfOne(f: Table, e: Entry)
    requires f.entries == [e]
    ensures EntriesOf({f}) == {e}
  {
    assert f.entries[0] == e && e in f.entries;
  }

  lemma EntriesOfPair(f: Table, g: Table, x: Entry, y: Entry)
    requires f.entries == [x] && g.entries == [y]
    ensures EntriesOf({f, g}) == {x, y}
  {
    assert {f, g} == {f} + {g};
    EntriesUnion({f}, {g});
    EntriesOfOne(f, x);
    EntriesOfOne(g, y);
  }

  // ----- a flush falling in the gap of a manual compaction -----

  const LOW1: Entry := Value1(1.0, 1)
  const HIGH1: Entry := Value1(5.0, 2)
  const LOW2: Entry := Value1(1.0, 3)
  const HIGH2: Entry := Value1(5.0, 4)

  /** The files of the manual compaction, at levels one and two, each with one entry. */
  datatype Ends = Ends(low1: Table, high1: Table, low2: Table, high2: Table) {
    ghost predicate Valid() {
      && low1 == TableOf(3, [LOW1]) && high1 == TableOf(5, [HIGH1]) && low2 == TableOf(7, [LOW2])
      && high2 == TableOf(9, [HIGH2])
      && Filled(low1) && Filled(high1) && Filled(low2) && Filled(high2)
    }

    ghost function Upper(): set<Table> {
      {low2, high2}
    }

    ghost function Lower(): set<Table> {
      {low1, high1}
    }
  }

  ghost predicate Quiet(s: State, last: SequenceNumber, nextFile: nat) {
    && s.mem == {} && s.imm == {} && s.job == None && s.snapshots == [] && !s.recovering
    && s.lastSequence == last && s.nextFile == nextFile
  }

  lemma LowerEnds() returns (run: Run, low: Table, high: Table)
    ensures run.Valid() && Quiet(run.Last(), 2, 6) && run.Last().levels == OneTwo({}, {low, high})
    ensures low == TableOf(3, [LOW1]) && high == TableOf(5, [HIGH1]) && Filled(low) && Filled(high)
  {
    hide IsRun, Step, Filled;
    var r0 := StartRun();
    var r1;
    r1, low := PutSwitchFlush(r0, 1.0, 2, {}, {});
    assert {} + {low} == {low};
    run, high := PutSwitchFlush(r1, 5.0, 2, {}, {low});
    assert {low} + {high} == {low, high};
  }

  /** The two end keys are flushed to level two, and then, with those in the way, to level one. */
  lemma GapSetup() returns (run: Run, e: Ends)
    ensures run.Valid() && e.Valid() && Quiet(run.Last(), 4, 10) && run.Last().levels == OneTwo(e.Upper(), e.Lower())
  {
    hide IsRun, Step, Filled;
    var r2, low1, high1 := LowerEnds();
    assert low1 in {low1, high1} && high1 in {low1, high1};
    assert !NoneAt({low1, high1}, 1.0) && !NoneAt({low1, high1}, 5.0);
    var r3, low2 := PutSwitchFlush(r2, 1.0, 1, {}, {low1, high1});
    assert {} + {low2} == {low2};
    var high2;
    run, high2 := PutSwitchFlush(r3, 5.0, 1, {low2}, {low1, high1});
    assert {low2} + {high2} == {low2, high2};
    e := Ends(low1, high1, low2, high2);
  }

  /** All files of both levels are a selection. */
  lemma EndsPicked(e: Ends)
    requires e.Valid()
    ensures Picked(e.Upper(), e.Lower(), e.Upper(), e.Lower(), LOW2.key, HIGH1.key)
  {
    var all := e.Upper() + e.Lower();
    assert e.low2 in all && e.high1 in all && e.low1 in all && e.high2 in all;
    assert e.Upper() - e.Upper() == {} && e.Lower() - e.Lower() == {};
  }

  lemma EndsSurvive(r: Running, e: Ends)
    requires e.Valid() && r.in0 == e.Upper() && r.in1 == e.Lower() && r.horizon == 4
    ensures JobSurvivors(r) == {LOW2, HIGH2}
  {
    EntriesUnion(e.Upper(), e.Lower());
    EntriesOfPair(e.low2, e.high2, LOW2, HIGH2);
    EntriesOfPair(e.low1, e.high1, LOW1, HIGH1);
    hide Survivors, EntriesOf, Filled;
    assert JobInputs(r) == {LOW2, HIGH2, LOW1, HIGH1};
    NewerEndsSurvive(JobInputs(r), BaseIn(r.inputLevels, r.level));
  }

  lemma NewerEndsSurvive(inputs: set<Entry>, base: UserKey -> bool)
    requires inputs == {LOW2, HIGH2, LOW1, HIGH1}
    ensures Survivors(inputs, 4, base) == {LOW2, HIGH2}
  {
    assert Obsolete(inputs, LOW1, 4, base) && Obsolete(inputs, HIGH1, 4, base);
    assert !Obsolete(inputs, LOW2, 4, base) && !Obsolete(inputs, HIGH2, 4, base);
  }

  lemma GapBegin(run: Run, e: Ends) returns (run': Run, job: Running)
    requires run.Valid() && e.Valid()
    requires var s := run.Last();
             && s.levels == OneTwo(e.Upper(), e.Lower()) && s.job == None && s.snapshots == []
             && s.lastSequence == 4 && !s.recovering
    ensures job == Running(true, 1, e.Upper(), e.Lower(), LOW2.key, HIGH1.key, run.Last().levels, 4)
    ensures run'.Valid() && run'.Last() == run.Last().(job := Some(job))
  {
    hide IsRun, Picked;
    var s := run.Last();
    EndsPicked(e);
    job := Running(true, 1, e.Upper(), e.Lower(), LOW2.key, HIGH1.key, s.levels, 4);
    assert BeginEnabled(s, job);
    run' := Extend(run, Begin(job), s.(job := Some(job)));
  }

  lemma GapFinish(run: Run, e: Ends, h: Table, job: Running) returns (run': Run, o: Table)
    requires run.Valid() && e.Valid() && h.smallest.user == 3.0
    requires job.level == 1 && job.in0 == e.Upper() && job.in1 == e.Lower() && job.horizon == 4
    requires run.Last().job == Some(job) && run.Last().levels == OneTwo(e.Upper(), e.Lower() + {h})
    ensures run'.Valid() && o == TableOf(12, [LOW2, HIGH2])
    ensures |run'.Last().levels| == NUM_LEVELS && run'.Last().levels[2] == {h, o}
  {
    hide IsRun, JobSurvivors, Filled;
    EndsSurvive(job, e);
    o := TwoEntryTable(12, LOW2, HIGH2);
    run' := FinishOne(run, job, o);
    assert e.Lower() + {h} - e.Lower() + {o} == {h, o};
  }

  /** A compaction of level one into a single table. */
  lemma FinishOne(run: Run, job: Running, o: Table) returns (run': Run)
    requires run.Valid() && run.Last().job == Some(job) && job.level == 1 && |run.Last().levels| == NUM_LEVELS
    requires Filled(o) && EntriesOf({o}) == JobSurvivors(job)
    ensures run'.Valid() && (run.Automatic() ==> run'.Automatic()) && run.steps <= run'.steps
    ensures var t := run.Last();
            run'.Last() == t.(job := None, nextFile := t.nextFile + 1,
                              levels := Replace(t.levels, 1, job.in0, job.in1, {o}))
  {
    hide IsRun, JobSurvivors, Filled, EntriesOf, Survivors, JobInputs, Replace;
    var t := run.Last();
    SurvivorsOf(job);
    assert FinishEnabled(t, {o});
    run' := Extend(run, Finish({o}), t.(job := None, nextFile := t.nextFile + 1,
                                        levels := Replace(t.levels, 1, job.in0, job.in1, {o})));
  }

  lemma SurvivorsOf(r: Running)
    ensures JobSurvivors(r) == Survivors(JobInputs(r), r.horizon, BaseIn(r.inputLevels, r.level))
  {
  }

  /** A manual compaction of files with a gap between them, a flush into the gap, and the
      compaction's single output over it. */
  lemma ManualGapRun() returns (run: Run)
    ensures run.Valid() && |run.Last().levels| == NUM_LEVELS && !Separated(run.Last().levels[2])
  {
    hide IsRun;
    var r2, e := GapSetup();
    var r3, job := GapBegin(r2, e);
    var r4, h := PutSwitchFlush(r3, 3.0, 2, e.Upper(), e.Lower());
    var o;
    run, o := GapFinish(r4, e, h, job);
    assert h.smallest.user == 3.0 && o.smallest.user == 1.0 && o.largest.user == 5.0;
    assert h in run.Last().levels[2] && o in run.Last().levels[2];
  }

  // ----- a deletion undone by a compaction -----

  /** The size at which an output is closed. */
  const FULL: nat := 0x20_0000

  function Zeros(n: nat): (r: Bytes)
    ensures |r| == n
  {
    if n == 0 then [] else Zeros(n - 1) + [0]
  }

  const KEPT: Entry := Value1(1.5, 1)
  const OLD: Entry := Value1(2.0, 2)
  const OTHER: Entry := Value1(1.0, 3)
  const MID: Entry := Entry(InternalKey(2.0, 4, Value), Zeros(FULL))
  const DEAD: Entry := Entry(InternalKey(2.0, 5, Deletion), [])
  const LATER: Entry := Value1(1.0, 6)

  ghost function Written(): set<Entry> {
    {KEPT, OLD, OTHER, MID, DEAD}
  }

  ghost function At(levels: Levels, snapshots: seq<SequenceNumber>, nextFile: nat, last: SequenceNumber,
                    history: set<Entry>): State {
    State({}, {}, levels, last, snapshots, nextFile, None, history, false)
  }

  /** The old value, and a snapshot that sees it. */
  lemma WriteOld(run: Run, x: Table) returns (run': Run)
    requires run.Valid() && run.Automatic() && run.Last() == At(OneTwo({}, {x}), [], 4, 1, {KEPT})
    ensures run'.Valid() && run'.Automatic()
    ensures run'.Last() == At(OneTwo({}, {x}), [2], 4, 2, {KEPT, OLD}).(mem := {OLD})
  {
    hide IsRun;
    var s := run.Last();
    var added := BatchEntries([Put(2.0, [])], 2);
    assert EntryOf([Put(2.0, [])][0], 2 + 0) == OLD;
    assert added == {OLD} && s.mem + added == {OLD} && s.history + added == {KEPT, OLD};
    var a := s.(mem := {OLD}, history := {KEPT, OLD}, lastSequence := 2);
    var r1 := Extend(run, Write([Put(2.0, [])]), a);
    assert s.snapshots + [a.lastSequence] == [2];
    run' := Extend(r1, TakeSnapshot, a.(snapshots := [2]));
  }

  /** Another key, a large value over the old one, and its deletion. */
  lemma WriteRest(run: Run, x: Table) returns (run': Run)
    requires run.Valid() && run.Automatic() && run.Last() == At(OneTwo({}, {x}), [2], 4, 2, {KEPT, OLD}).(mem := {OLD})
    ensures run'.Valid() && run'.Automatic()
    ensures run'.Last() == At(OneTwo({}, {x}), [2], 5, 5, Written()).(imm := {OTHER, DEAD, MID, OLD})
  {
    hide IsRun;
    var s := run.Last();
    var batch := [Put(1.0, []), Put(2.0, MID.value), Delete(2.0)];
    var added := BatchEntries(batch, 3);
    assert EntryOf(batch[0], 3 + 0) == OTHER && EntryOf(batch[1], 3 + 1) == MID && EntryOf(batch[2], 3 + 2) == DEAD;
    assert added == {OTHER, MID, DEAD};
    assert s.mem + added == {OTHER, DEAD, MID, OLD} && s.history + added == Written();
    var a := s.(mem := {OTHER, DEAD, MID, OLD}, history := Written(), lastSequence := 5);
    var r1 := Extend(run, Write(batch), a);
    run' := Extend(r1, SwitchMemTable, a.(imm := a.mem, mem := {}, nextFile := 5));
  }

  lemma FourEntries(es: seq<Entry>)
    requires |es| == 4 && Before(es[0].key, es[1].key) && Before(es[1].key, es[2].key) && Before(es[2].key, es[3].key)
    ensures Ascending(es) && ToSet(es) == {es[0], es[1], es[2], es[3]}
    ensures ValueBytes(es) == |es[0].value| + |es[1].value| + |es[2].value| + |es[3].value|
    ensures ValueBytes(es[..1]) == |es[0].value| && ValueBytes(es[..2]) == |es[0].value| + |es[1].value|
    ensures ValueBytes(es[..3]) == |es[0].value| + |es[1].value| + |es[2].value|
  {
    var three, two, one := es[..3], es[..2], es[..1];
    assert three[..2] == two && two[..1] == one && one[..0] == [];
    assert Ascending(one) && Ascending(two) && Ascending(three);
    assert ValueBytes(one) == |es[0].value|;
    assert ValueBytes(two) == ValueBytes(one) + |es[1].value|;
    assert ValueBytes(three) == ValueBytes(two) + |es[2].value|;
  }

  lemma FourEntryTable(number: nat, es: seq<Entry>) returns (f: Table)
    requires |es| == 4 && Before(es[0].key, es[1].key) && Before(es[1].key, es[2].key) && Before(es[2].key, es[3].key)
    ensures f == TableOf(number, es) && Filled(f) && ToSet(f.entries) == {es[0], es[1], es[2], es[3]}
    ensures EntriesOf({f}) == {es[0], es[1], es[2], es[3]}
  {
    FourEntries(es);
    f := TableOf(number, es);
    assert EntriesOf({f}) == ToSet(f.entries);
  }

  /** The table overlaps the one at level two, and so goes to level one. */
  lemma FlushRest(run: Run, x: Table) returns (run': Run, t: Table)
    requires run.Valid() && run.Automatic() && x == TableOf(3, [KEPT])
    requires run.Last() == At(OneTwo({}, {x}), [2], 5, 5, Written()).(imm := {OTHER, DEAD, MID, OLD})
    ensures run'.Valid() && run'.Automatic() && t == TableOf(5, [OTHER, DEAD, MID, OLD]) && Filled(t)
    ensures EntriesOf({t}) == {OTHER, DEAD, MID, OLD}
    ensures run'.Last() == At(OneTwo({t}, {x}), [2], 6, 5, Written())
  {
    hide IsRun;
    var s := run.Last();
    t := FourEntryTable(5, [OTHER, DEAD, MID, OLD]);
    hide Filled;
    assert LevelFor(s.levels, t, 1) by {
      assert x in s.levels[2] && !Disjoint(t, x);
    }
    assert {} + {t} == {t} && s.levels[1 := s.levels[1] + {t}] == OneTwo({t}, {x});
    assert FlushEnabled(s, t, 1);
    run' := Extend(run, Flush(t, 1), At(OneTwo({t}, {x}), [2], 6, 5, Written()));
  }

  /** The tables at levels one and two overlap and leave nothing behind. */
  lemma FirstPicked(t: Table, x: Table)
    requires t == TableOf(5, [OTHER, DEAD, MID, OLD]) && x == TableOf(3, [KEPT])
    ensures Exactly({x}, {x}, Some(t.smallest.user), Some(t.largest.user))
    ensures Picked({t}, {x}, {t}, {x}, OTHER.key, OLD.key) && GaplessSet({t} + {x})
  {
    assert t in {t} + {x} && x in {t} + {x} && {x} - {x} == {} && {t} - {t} == {};
    SingleIsGapless(t);
    GaplessAdd({t}, t.smallest, t.largest, {x});
  }

  lemma BeginFirst(run: Run, t: Table, x: Table) returns (run': Run, job: Running)
    requires run.Valid() && run.Automatic() && t == TableOf(5, [OTHER, DEAD, MID, OLD]) && x == TableOf(3, [KEPT])
    requires run.Last() == At(OneTwo({t}, {x}), [2], 6, 5, Written())
    ensures job == Running(false, 1, {t}, {x}, OTHER.key, OLD.key, OneTwo({t}, {x}), 2)
    ensures run'.Valid() && run'.Automatic() && run'.Last() == run.Last().(job := Some(job))
  {
    hide IsRun, Picked, GaplessSet;
    var s := run.Last();
    FirstPicked(t, x);
    job := Running(false, 1, {t}, {x}, OTHER.key, OLD.key, s.levels, 2);
    assert BeginEnabled(s, job);
    run' := Extend(run, Begin(job), s.(job := Some(job)));
  }

  /** With the snapshot live nothing is dropped. */
  lemma FirstSurvivors(r: Running, t: Table, x: Table)
    requires r.in0 == {t} && r.in1 == {x} && r.horizon == 2 && EntriesOf({t}) == {OTHER, DEAD, MID, OLD}
    requires x.entries == [KEPT]
    ensures JobSurvivors(r) == Written()
  {
    EntriesUnion({t}, {x});
    EntriesOfOne(x, KEPT);
    assert JobInputs(r) == Written();
  }

  /** The output is full once the large value is in it; the old value starts the next. */
  ghost predicate CutWhenFull(a: Table, b: Table) {
    Compaction.AllInTime([a, b], ValueBytes, FULL) && Compaction.FullOnes([a, b], 1, ValueBytes, FULL)
  }

  lemma FirstIsFull(a: Table, b: Table)
    requires a == TableOf(6, [OTHER, KEPT, DEAD, MID]) && b == TableOf(7, [OLD])
    ensures CutWhenFull(a, b)
  {
    FourEntries([OTHER, KEPT, DEAD, MID]);
    hide Ascending, ValueBytes;
    assert Compaction.ClosedInTime([OTHER, KEPT, DEAD, MID], ValueBytes, FULL);
  }

  lemma FirstOutputs() returns (a: Table, b: Table)
    ensures a == TableOf(6, [OTHER, KEPT, DEAD, MID]) && b == TableOf(7, [OLD]) && CutWhenFull(a, b)
    ensures AllFilled({a, b}) && Separated({a, b}) && EntriesOf({a, b}) == Written() && |{a, b}| == 2
    ensures EntriesOf({a}) == {OTHER, KEPT, DEAD, MID}
  {
    var es := [OTHER, KEPT, DEAD, MID];
    a := FourEntryTable(6, es);
    b := OneEntryTable(7, OLD);
    FirstIsFull(a, b);
    FirstApart(a, b);
    hide Filled, Ascending, ValueBytes, CutWhenFull, Separated, Written;
    FirstContents(a, b);
  }

  lemma FirstContents(a: Table, b: Table)
    requires EntriesOf({a}) == {OTHER, KEPT, DEAD, MID} && EntriesOf({b}) == {OLD}
    ensures EntriesOf({a, b}) == Written()
  {
    assert {a, b} == {a} + {b};
    EntriesUnion({a}, {b});
  }

  lemma FirstApart(a: Table, b: Table)
    requires a == TableOf(6, [OTHER, KEPT, DEAD, MID]) && b == TableOf(7, [OLD])
    ensures Separated({a, b}) && |{a, b}| == 2
  {
    hide ValueBytes;
    assert a != b;
  }

  lemma FinishFirst(run: Run, t: Table, x: Table, job: Running, a: Table, b: Table) returns (run': Run)
    requires run.Valid() && run.Automatic()
    requires run.Last() == At(OneTwo({t}, {x}), [2], 6, 5, Written()).(job := Some(job))
    requires job == Running(false, 1, {t}, {x}, OTHER.key, OLD.key, OneTwo({t}, {x}), 2)
    requires JobSurvivors(job) == Written() && EntriesOf({a, b}) == Written()
    requires AllFilled({a, b}) && Separated({a, b}) && |{a, b}| == 2
    ensures run'.Valid() && run'.Automatic() && run'.steps == run.steps + [Finish({a, b})]
    ensures run'.Last() == At(OneTwo({}, {a, b}), [2], 8, 5, Written())
  {
    hide IsRun, AllFilled, Separated, Survivors, JobInputs, Written, IsBaseIn;
    var s := run.Last();
    assert FinishEnabled(s, {a, b});
    assert {t} - {t} == {} && {x} - {x} + {a, b} == {a, b};
    assert Replace(s.levels, 1, {t}, {x}, {a, b}) == OneTwo({}, {a, b});
    run' := Extend(run, Finish({a, b}), At(OneTwo({}, {a, b}), [2], 8, 5, Written()));
  }

  /** Both the old value and its deletion survive, in two files of one level; then the snapshot is released. */
  lemma SplitAcrossFiles(run: Run, t: Table, x: Table) returns (run': Run, a: Table, b: Table)
    requires run.Valid() && run.Automatic() && t == TableOf(5, [OTHER, DEAD, MID, OLD]) && x == TableOf(3, [KEPT])
    requires EntriesOf({t}) == {OTHER, DEAD, MID, OLD} && run.Last() == At(OneTwo({t}, {x}), [2], 6, 5, Written())
    ensures run'.Valid() && run'.Automatic() && a == TableOf(6, [OTHER, KEPT, DEAD, MID]) && b == TableOf(7, [OLD])
    ensures Filled(a) && Filled(b) && EntriesOf({a}) == {OTHER, KEPT, DEAD, MID}
    ensures CutWhenFull(a, b) && Finish({a, b}) in run'.steps
    ensures run'.Last() == At(OneTwo({}, {a, b}), [], 8, 5, Written())
  {
    hide IsRun, Filled, Separated, Picked, JobSurvivors, CutWhenFull, Written, ValueBytes;
    var r1, job := BeginFirst(run, t, x);
    FirstSurvivors(job, t, x);
    a, b := FirstOutputs();
    var r2 := FinishFirst(r1, t, x, job, a, b);
    assert r2.steps[|r1.steps|] == Finish({a, b});
    assert [2 as SequenceNumber][..0] + [2 as SequenceNumber][1..] == [];
    run' := Extend(r2, ReleaseSnapshot(0), At(OneTwo({}, {a, b}), [], 8, 5, Written()));
    assert run'.steps[|r1.steps|] == Finish({a, b});
    FilledPair(a, b);
  }

  lemma FilledPair(a: Table, b: Table)
    requires AllFilled({a, b})
    ensures Filled(a) && Filled(b)
  {
  }

  /** The selection rule takes the file that holds the deletion and leaves the one that holds the old value. */
  lemma DeletionPicked(h: Table, a: Table, b: Table)
    requires h == TableOf(9, [LATER]) && a == TableOf(6, [OTHER, KEPT, DEAD, MID]) && b == TableOf(7, [OLD])
    ensures Exactly({a}, {a, b}, Some(h.smallest.user), Some(h.largest.user))
    ensures Picked({h}, {a, b}, {h}, {a}, LATER.key, MID.key) && GaplessSet({h} + {a})
  {
    assert {a, b} - {a} == {b} && {h} - {h} == {} && h in {h} + {a} && a in {h} + {a};
    EntriesOfOne(b, OLD);
    EntriesOfOne(h, LATER);
    SingleIsGapless(h);
    GaplessAdd({h}, h.smallest, h.largest, {a});
  }

  lemma MarkerDropped(r: Running, h: Table, a: Table, b: Table)
    requires r.in0 == {h} && r.in1 == {a} && h.entries == [LATER] && EntriesOf({a}) == {OTHER, KEPT, DEAD, MID}
    requires r.horizon == 6 && r.level == 1 && r.inputLevels == OneTwo({h}, {a, b})
    ensures JobSurvivors(r) == {LATER, KEPT}
  {
    EntriesUnion({h}, {a});
    EntriesOfOne(h, LATER);
    assert JobInputs(r) == {LATER, OTHER, KEPT, DEAD, MID};
    assert IsBaseIn(r.inputLevels, 1, 2.0);
  }

  ghost function BeforeDrop(h: Table, a: Table, b: Table): State {
    At(OneTwo({h}, {a, b}), [], 10, 6, Written() + {LATER})
  }

  lemma BeginDrop(run: Run, h: Table, a: Table, b: Table) returns (run': Run, job: Running)
    requires run.Valid() && run.Automatic() && run.Last() == BeforeDrop(h, a, b)
    requires h == TableOf(9, [LATER]) && a == TableOf(6, [OTHER, KEPT, DEAD, MID]) && b == TableOf(7, [OLD])
    ensures job == Running(false, 1, {h}, {a}, LATER.key, MID.key, OneTwo({h}, {a, b}), 6)
    ensures run'.Valid() && run'.Automatic() && run'.Last() == BeforeDrop(h, a, b).(job := Some(job))
    ensures run.steps <= run'.steps
  {
    hide IsRun, Picked, GaplessSet;
    var s := run.Last();
    DeletionPicked(h, a, b);
    job := Running(false, 1, {h}, {a}, LATER.key, MID.key, s.levels, 6);
    assert BeginEnabled(s, job);
    run' := Extend(run, Begin(job), s.(job := Some(job)));
  }

  lemma DropMarker(run: Run, h: Table, a: Table, b: Table) returns (run': Run, o: Table)
    requires run.Valid() && run.Automatic() && run.Last() == BeforeDrop(h, a, b)
    requires h == TableOf(9, [LATER]) && a == TableOf(6, [OTHER, KEPT, DEAD, MID]) && b == TableOf(7, [OLD])
    requires EntriesOf({a}) == {OTHER, KEPT, DEAD, MID}
    ensures run'.Valid() && run'.Automatic() && run.steps <= run'.steps && o == TableOf(10, [LATER, KEPT])
    ensures EntriesOf({o}) == {LATER, KEPT}
    ensures run'.Last() == BeforeDrop(h, a, b).(levels := OneTwo({}, {b, o}), nextFile := 11)
  {
    hide IsRun, Picked, GaplessSet, JobSurvivors, ValueBytes, Written, Filled;
    var r1, job := BeginDrop(run, h, a, b);
    MarkerDropped(job, h, a, b);
    o := TwoEntryTable(10, LATER, KEPT);
    run' := FinishOne(r1, job, o);
    DropReplaces(h, a, b, o);
  }

  lemma DropReplaces(h: Table, a: Table, b: Table, o: Table)
    requires a.number == 6 && b.number == 7
    ensures Replace(OneTwo({h}, {a, b}), 1, {h}, {a}, {o}) == OneTwo({}, {b, o})
  {
    assert {h} - {h} == {} && {a, b} - {a} + {o} == {b, o};
  }

  lemma FinalContents(s: State, o: Table, b: Table)
    requires s.mem == {} && s.imm == {} && s.levels == OneTwo({}, {b, o})
    requires EntriesOf({o}) == {LATER, KEPT} && b.entries == [OLD]
    ensures Contents(s) == {OLD, LATER, KEPT}
  {
    assert {b, o} == {b} + {o};
    EntriesUnion({b}, {o});
    EntriesOfOne(b, OLD);
    assert EntriesOf({}) == {};
    forall e ensures e in AllEntries(s.levels) <==> e in {OLD, LATER, KEPT} {
      assert e in {OLD, LATER, KEPT} ==> e in EntriesOf(s.levels[2]);
    }
  }

  lemma FinalReads(s: State, o: Table, b: Table)
    requires s.mem == {} && s.imm == {} && s.levels == OneTwo({}, {b, o}) && s.history == Written() + {LATER}
    requires EntriesOf({o}) == {LATER, KEPT} && b.entries == [OLD]
    ensures Read(s.history, 2.0, 6) == None && Read(Contents(s), 2.0, 6) == Some([])
  {
    hide Read, Written, Contents, At;
    FinalContents(s, o, b);
    ReadsBackOld(Contents(s));
    ReadsDeleted(s.history);
  }

  lemma ReadsDeleted(es: set<Entry>)
    requires es == Written() + {LATER}
    ensures Read(es, 2.0, 6) == None
  {
    assert Newest(es, 2.0, 6, DEAD);
    ReadNewest(es, 2.0, 6, DEAD);
  }

  lemma ReadsBackOld(es: set<Entry>)
    requires es == {OLD, LATER, KEPT}
    ensures Read(es, 2.0, 6) == Some([])
  {
    assert Newest(es, 2.0, 6, OLD);
    ReadNewest(es, 2.0, 6, OLD);
  }

  lemma OldBelowItsDeletion() returns (run: Run, a: Table, b: Table)
    ensures run.Valid() && run.Automatic() && a == TableOf(6, [OTHER, KEPT, DEAD, MID]) && b == TableOf(7, [OLD])
    ensures Filled(a) && Filled(b) && EntriesOf({a}) == {OTHER, KEPT, DEAD, MID}
    ensures CutWhenFull(a, b) && Finish({a, b}) in run.steps
    ensures run.Last() == At(OneTwo({}, {a, b}), [], 8, 5, Written())
  {
    hide IsRun, Read, Filled, CutWhenFull, Written;
    var r0 := StartRun();
    assert NoneAt({}, 1.5);
    var r1, x := PutSwitchFlush(r0, 1.5, 2, {}, {});
    assert {} + {x} == {x} && {} + {KEPT} == {KEPT};
    var r2 := WriteOld(r1, x);
    var r3 := WriteRest(r2, x);
    var r4, t := FlushRest(r3, x);
    run, a, b := SplitAcrossFiles(r4, t, x);
  }

  /** A run without manual compactions, its one cut made where the output was full, after which the newest entry of a
      key is a deletion and a read still finds a value from before it. */
  lemma DeletionUndoneRun() returns (run: Run, a: Table, b: Table)
    ensures run.Valid() && run.Automatic() && run.Last().lastSequence == 6
    ensures Finish({a, b}) in run.steps && CutWhenFull(a, b)
    ensures Read(run.Last().history, 2.0, 6) == None
    ensures Read(Contents(run.Last()), 2.0, 6) == Some([])
  {
    hide IsRun, Read, Filled, CutWhenFull, Written;
    var r5;
    r5, a, b := OldBelowItsDeletion();
    assert a in {a, b} && !NoneAt({a, b}, 1.0);
    var r6, h := PutSwitchFlush(r5, 1.0, 1, {}, {a, b});
    assert {} + {h} == {h};
    var o;
    run, o := DropMarker(r6, h, a, b);
    FinalReads(run.Last(), o, b);
  }
}
