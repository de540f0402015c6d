/**
 A crash and what follows it, to the end: whatever part of the memtables the logs still hold, recovery can put it into
 tables of level zero, and the store that is opened reads what was written and not lost.
*/
module Reopening {
  import opened Format
  import opened Reads
  import opened Tables
  import opened Lookup
  import opened Store
  import opened Invariant
  import opened Runs

  ghost predicate IsPath(states: seq<State>, steps: seq<Label>) {
    && |states| == |steps| + 1
    && forall i :: 0 <= i < |steps| ==> Step(states[i], states[i + 1], steps[i])
  }

  lemma StepFirst(s: State, step: Label, states: seq<State>, steps: seq<Label>)
    requires IsPath(states, steps) && Step(s, states[0], step)
    ensures IsPath([s] + states, [step] + steps)
  {
    hide Step;
    var states', steps' := [s] + states, [step] + steps;
    forall i | 0 <= i < |steps'| ensures Step(states'[i], states'[i + 1], steps'[i]) {
      if i > 0 {
        assert Step(states[i - 1], states[i - 1 + 1], steps[i - 1]);
      }
    }
  }

  lemma NoSteps(s: State)
    ensures IsPath([s], [])
  {
  }

  lemma {:induction false} AboveAll(ns: set<nat>) returns (n: nat)
    ensures forall m :: m in ns ==> m < n
    decreases ns
  {
    n := 0;
    if m :| m in ns {
      var rest := AboveAll(ns - {m});
      n := if m < rest then rest else m + 1;
      assert forall x :: x in ns ==> x == m || x in ns - {m};
    }
  }

  lemma NumberAbove(levels: Levels) returns (n: nat)
    ensures forall l, f :: 0 <= l < |levels| && f in levels[l] ==> f.number < n
  {
    var ns := set l, f | 0 <= l < |levels| && f in levels[l] :: f.number;
    n := AboveAll(ns);
    forall l, f | 0 <= l < |levels| && f in levels[l] ensures f.number < n {
      assert f.number in ns;
    }
  }

  /** The state right after the crash: nothing runs, and no snapshot lives. */
  lemma CrashTaken(s: State, kept: set<Entry>) returns (last: SequenceNumber, nextFile: nat, s': State)
    requires Runs.Good(s) && kept <= Unstored(s)
    ensures Step(s, s', Crash(kept, last, nextFile)) && Runs.Good(s')
    ensures s'.mem == kept && s'.imm == {} && s'.levels == s.levels && s'.recovering && s'.job == None
    ensures s'.history == s.history - (Unstored(s) - kept)
  {
    last := s.lastSequence;
    nextFile := NumberAbove(s.levels);
    s' := s.(mem := kept, imm := {}, snapshots := [], job := None, lastSequence := last, nextFile := nextFile,
             history := s.history - (Unstored(s) - kept), recovering := true);
    HistoryBounded(s);
    hide Inv, Recorded, ReadsTrue, DurableTrue;
    StepKeepsGood(s, s', Crash(kept, last, nextFile));
  }

  lemma HistoryBounded(s: State)
    requires Inv(s)
    ensures forall e :: e in s.history ==> e.key.sequence <= s.lastSequence
  {
    InvParts(s);
    hide FilesSound;
  }

  /** All that the logs still hold goes into one table. */
  lemma ReplayTaken(s: State) returns (f: Table, s1: State, s2: State)
    requires Runs.Good(s) && s.recovering && s.imm == {} && s.mem != {} && s.job == None
    ensures Step(s, s1, Replay(s.mem)) && Step(s1, s2, Flush(f, 0)) && Runs.Good(s2)
    ensures s2.mem == {} && s2.imm == {} && s2.recovering && s2.history == s.history
    ensures AllEntries(s2.levels) == AllEntries(s.levels) + s.mem
  {
    hide Runs.Good;
    s1 := s.(mem := s.mem - s.mem, imm := s.mem);
    StepKeepsGood(s, s1, Replay(s.mem));
    UniqueMemory(s1);
    f := TableHolding(s1.imm, s1.nextFile);
    LevelsThere(s1);
    s2 := s1.(imm := {}, levels := s1.levels[0 := s1.levels[0] + {f}], nextFile := s1.nextFile + 1);
    hide Filled;
    assert FlushStep(s1, s2, f, 0);
    StepKeepsGood(s1, s2, Flush(f, 0));
    AddedAtZero(s1.levels, f);
  }

  lemma UniqueMemory(s: State)
    requires Runs.Good(s)
    ensures Unique(s.imm)
  {
    InvParts(s);
    hide FilesSound, NewerThan, Bounded, HistorySound, SnapshotsSound, Recorded, ReadsTrue, DurableTrue;
    assert forall e :: e in s.imm ==> e in s.mem + (s.imm + AllEntries(s.levels));
  }

  lemma LevelsThere(s: State)
    requires Runs.Good(s)
    ensures |s.levels| == NUM_LEVELS
  {
  }

  lemma AddedAtZero(levels: Levels, f: Table)
    requires |levels| == NUM_LEVELS
    ensures AllEntries(levels[0 := levels[0] + {f}]) == AllEntries(levels) + ToSet(f.entries)
  {
    var levels' := levels[0 := levels[0] + {f}];
    AddedEntries(levels[0], f);
    hide EntriesOf;
    forall e ensures e in AllEntries(levels') <==> e in AllEntries(levels) || e in ToSet(f.entries) {
      if e in AllEntries(levels) {
        var l := InLevel(levels, e);
        assert e in EntriesOf(levels'[l]);
      }
      if e in ToSet(f.entries) {
        assert e in EntriesOf(levels'[0]);
      }
      if e in AllEntries(levels') {
        var l := InLevel(levels', e);
        assert l > 0 ==> e in EntriesOf(levels[l]);
        assert l == 0 ==> e in EntriesOf(levels[0]) || e in ToSet(f.entries);
      }
    }
  }

  lemma OpenTaken(s: State) returns (s': State)
    requires Runs.Good(s) && s.recovering && s.imm == {}
    ensures Step(s, s', Opened) && Runs.Good(s') && s' == s.(recovering := false)
  {
    hide Runs.Good;
    s' := s.(recovering := false);
    StepKeepsGood(s, s', Opened);
  }

  /** From any good state a crash may leave any part of the memtables in the logs, and the store can be opened again:
      with that part and all that was in tables before, in tables; and reading what was written and not lost. */
  lemma CrashAndReopen(s: State, kept: set<Entry>) returns (states: seq<State>, steps: seq<Label>)
    requires Runs.Good(s) && kept <= Unstored(s)
    ensures IsPath(states, steps) && states[0] == s && steps != [] && steps[0].Crash?
    ensures var s' := states[|steps|];
            && Runs.Good(s') && !s'.recovering && s'.mem == {} && s'.imm == {}
            && AllEntries(s'.levels) == AllEntries(s.levels) + kept
            && s'.history == s.history - (Unstored(s) - kept)
            && forall user: UserKey, q: nat :: q >= s'.lastSequence ==>
                 Read(AllEntries(s'.levels), user, q) == Read(s'.history, user, q)
  {
    hide Step, Runs.Good, Read;
    var last, nextFile, crashed := CrashTaken(s, kept);
    var crash := Crash(kept, last, nextFile);
    if kept == {} {
      var s' := OpenTaken(crashed);
      NoSteps(s');
      StepFirst(crashed, Opened, [s'], []);
      StepFirst(s, crash, [crashed] + [s'], [Opened] + []);
      states, steps := [s] + ([crashed] + [s']), [crash] + ([Opened] + []);
      OpenReads(s');
    } else {
      var f, replayed, flushed := ReplayTaken(crashed);
      var s' := OpenTaken(flushed);
      NoSteps(s');
      StepFirst(flushed, Opened, [s'], []);
      StepFirst(replayed, Flush(f, 0), [flushed] + [s'], [Opened] + []);
      StepFirst(crashed, Replay(kept), [replayed] + ([flushed] + [s']), [Flush(f, 0)] + ([Opened] + []));
      StepFirst(s, crash, [crashed] + ([replayed] + ([flushed] + [s'])),
                [Replay(kept)] + ([Flush(f, 0)] + ([Opened] + [])));
      states := [s] + ([crashed] + ([replayed] + ([flushed] + [s'])));
      steps := [crash] + ([Replay(kept)] + ([Flush(f, 0)] + ([Opened] + [])));
      OpenReads(s');
    }
  }

  lemma OpenReads(s: State)
    requires Runs.Good(s) && s.mem == {} && s.imm == {}
    ensures forall user: UserKey, q: nat :: q >= s.lastSequence ==>
              Read(AllEntries(s.levels), user, q) == Read(s.history, user, q)
  {
    hide Read, Inv, Recorded, DurableTrue;
    assert Contents(s) == AllEntries(s.levels);
  }
}
