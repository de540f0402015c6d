/**
 What is begun can be finished: from any state a recovery runs to its end and brings back all that the files hold, a
 flush or a compaction can be built, recorded and installed, and a cleanup is possible in between.
*/
module Completion {
  import opened Format
  import opened DropRule
  import opened Recovery

  ghost predicate IsPath(states: seq<State>, steps: seq<Label>) {
    && |states| == |steps| + 1
    && forall i :: 0 <= i < |steps| ==> Step(states[i], states[i + 1], steps[i])
  }

  lemma StepFirst(s: State, step: Label, states: seq<State>, steps: seq<Label>)
    requires IsPath(states, steps) && Step(s, states[0], step)
    ensures IsPath([s] + states, [step] + steps)
    ensures ([s] + states)[|steps| + 1] == states[|steps|]
  {
    var states', steps' := [s] + states, [step] + steps;
    forall i | 0 <= i < |steps'| ensures Step(states'[i], states'[i + 1], steps'[i]) {
      if i > 0 {
        assert states'[i] == states[i - 1] && states'[i + 1] == states[i - 1 + 1] && steps'[i] == steps[i - 1];
      }
    }
  }

  lemma NoSteps(s: State)
    ensures IsPath([s], [])
  {
  }

  // ----- recovery -----

  lemma {:induction false} GreatestSequence(before: SequenceNumber, es: set<Entry>) returns (last: SequenceNumber)
    ensures GreatestOf(last, before, es)
    decreases es
  {
    last := before;
    if e :| e in es {
      var rest := GreatestSequence(before, es - {e});
      last := if e.key.sequence > rest then e.key.sequence else rest;
      assert forall x :: x in es ==> x == e || x in es - {e};
    }
  }

  /** Reading logs adds tables, and changes nothing else of what the files say. */
  ghost predicate SameFiles(d: Disk, d': Disk) {
    && d'.logs == d.logs && d'.version == d.version && d'.logNumber == d.logNumber
    && TableEntries(d'.tables, d.version) == TableEntries(d.tables, d.version)
  }

  lemma SpillAdds(s: State, s': State)
    requires Inv(s) && SpillStep(s, s')
    ensures SameFiles(s.disk, s'.disk)
  {
    hide TableEntries;
    var r := s.phase.r;
    if r.table != {} {
      OtherTable(s.disk.tables, r.nextFile, r.table, s.disk.version);
    }
  }

  /** A log that nothing has been read of yet, and those after it, are read to the end.  The last can be reused. */
  lemma {:induction false} LogsCanBeRead(s: State, reuse: bool) returns (states: seq<State>, steps: seq<Label>)
    requires Inv(s) && s.phase.Open? && s.phase.r.save && s.phase.r.reuse == None
    requires s.phase.r.pos == 0 && s.phase.r.table == {} && !s.phase.r.spilled
    ensures IsPath(states, steps) && states[0] == s
    ensures var s' := states[|steps|];
            && Inv(s') && SameFiles(s.disk, s'.disk) && s'.expected == s.expected
            && s'.phase.Open? && s'.phase.r.todo == [] && s'.phase.r.save
            && (s'.phase.r.reuse.Some? <==> reuse && s.phase.r.todo != [])
            && (s'.phase.r.reuse.None? ==> s'.phase.r.table == {})
    decreases |s.phase.r.todo|
  {
    hide Inv, Step, TableEntries, LogEntries;
    if s.phase.r.todo == [] {
      NoSteps(s);
      return [s], [];
    }
    var pos, last, read := ReadAll(s);
    if reuse && |s.phase.r.todo| == 1 {
      var s' := ReuseTaken(read);
      NoSteps(s');
      StepFirst(read, Reuse, [s'], []);
      StepFirst(s, ReadLog(pos, last), [read] + [s'], [Reuse] + []);
      return [s] + ([read] + [s']), [ReadLog(pos, last)] + ([Reuse] + []);
    }
    var spilled, next := SpiltAndNext(read);
    var more, moreSteps := LogsCanBeRead(next, reuse);
    StepFirst(spilled, NextLog, more, moreSteps);
    StepFirst(read, Spill, [spilled] + more, [NextLog] + moreSteps);
    StepFirst(s, ReadLog(pos, last), [read] + ([spilled] + more), [Spill] + ([NextLog] + moreSteps));
    states := [s] + ([read] + ([spilled] + more));
    steps := [ReadLog(pos, last)] + ([Spill] + ([NextLog] + moreSteps));
  }

  lemma ReadAll(s: State) returns (pos: nat, last: SequenceNumber, s': State)
    requires Inv(s) && s.phase.Open? && s.phase.r.todo != [] && s.phase.r.pos == 0
    ensures Inv(s') && Step(s, s', ReadLog(pos, last)) && s'.disk == s.disk && s'.expected == s.expected
    ensures s'.phase.Open? && s'.phase.r == s.phase.r.(pos := pos, table := s'.phase.r.table, lastSequence := last)
    ensures s.phase.r.todo[0] in s.disk.logs && pos == |s.disk.logs[s.phase.r.todo[0]].records|
  {
    var r := s.phase.r;
    var records := s.disk.logs[r.todo[0]].records;
    pos := |records|;
    var more := Records(records[r.pos..pos]);
    last := GreatestSequence(r.lastSequence, more);
    s' := s.(phase := Open(r.(pos := pos, table := r.table + more, lastSequence := last)));
    StepKeepsInv(s, s', ReadLog(pos, last));
  }

  lemma ReuseTaken(s: State) returns (s': State)
    requires Inv(s) && s.phase.Open? && |s.phase.r.todo| == 1 && !s.phase.r.spilled && s.phase.r.todo[0] in s.disk.logs
    requires s.phase.r.pos == |s.disk.logs[s.phase.r.todo[0]].records|
    ensures Inv(s') && Step(s, s', Reuse) && s'.disk == s.disk && s'.expected == s.expected
    ensures s'.phase.Open? && s'.phase.r.todo == [] && s'.phase.r.reuse.Some? && s'.phase.r.save == s.phase.r.save
  {
    hide Inv;
    var r := s.phase.r;
    s' := s.(phase := Open(r.(todo := [], reuse := Some(r.todo[0]),
                              nextFile := if r.nextFile <= r.todo[0] then r.todo[0] + 1 else r.nextFile)));
    StepKeepsInv(s, s', Reuse);
  }

  lemma SpiltAndNext(s: State) returns (spilled: State, s': State)
    requires Inv(s) && s.phase.Open? && s.phase.r.todo != [] && s.phase.r.todo[0] in s.disk.logs
    requires s.phase.r.pos == |s.disk.logs[s.phase.r.todo[0]].records|
    ensures Step(s, spilled, Spill) && Step(spilled, s', NextLog) && Inv(s')
    ensures SameFiles(s.disk, s'.disk) && s'.expected == s.expected
    ensures s'.phase.Open? && s'.phase.r.todo == s.phase.r.todo[1..] && s'.phase.r.save
    ensures s'.phase.r.reuse == s.phase.r.reuse
    ensures s'.phase.r.pos == 0 && s'.phase.r.table == {} && !s'.phase.r.spilled
  {
    hide Inv, TableEntries;
    var r := s.phase.r;
    spilled := if r.table == {} then s.(phase := Open(r.(nextFile := r.nextFile + 1, spilled := true, save := true)))
               else s.(disk := s.disk.(tables := s.disk.tables[r.nextFile := r.table]),
                       phase := Open(r.(table := {}, added := r.added + {r.nextFile}, nextFile := r.nextFile + 1,
                                        spilled := true, save := true)));
    StepKeepsInv(s, spilled, Spill);
    SpillAdds(s, spilled);
    var q := spilled.phase.r;
    s' := spilled.(phase := Open(q.(todo := q.todo[1..], pos := 0, spilled := false,
                                    nextFile := if q.nextFile <= q.todo[0] then q.todo[0] + 1 else q.nextFile)));
    StepKeepsInv(spilled, s', NextLog);
  }

  /** What the new database holds, once the last record is in the manifest. */
  lemma CommitTaken(s: State) returns (s': State)
    requires Inv(s) && s.phase.Open? && s.phase.r.todo == [] && s.phase.r.save
    ensures Inv(s') && Step(s, s', Commit) && s'.phase.Running? && s'.expected == s.expected
    ensures Rebuilt(s'.disk) == Rebuilt(s.disk)
    ensures s'.phase.m.imm == None && s'.phase.m.flush == NoFlush && s'.phase.m.job == NoJob
    ensures s'.phase.m.mem == s.phase.r.table
    ensures s'.phase.m.mem + TableEntries(s'.disk.tables, s'.phase.m.current) == Rebuilt(s.disk)
  {
    var r := s.phase.r;
    var logFile := if r.reuse.Some? then r.reuse.value else r.nextFile;
    var nextFile := if r.reuse.Some? then r.nextFile else r.nextFile + 1;
    var logs := if r.reuse.Some? then s.disk.logs else s.disk.logs[r.nextFile := NEW_LOG];
    var d := s.disk.(logs := logs, version := s.disk.version + r.added, logNumber := logFile, nextFile := nextFile,
                     lastSequence := r.lastSequence);
    s' := s.(disk := d, phase := Running(Memory(r.table, None, logFile, logFile, d.version, [], {}, nextFile,
                                                r.lastSequence, NoFlush, NoJob)));
    assert CommitStep(s, s');
    CommitKeepsAll(s.disk, r, d);
    hide Inv, Step, RunningOk, TableEntries, LogEntries;
    assert Step(s, s', Commit) by { CommitIsStep(s, s'); }
    StepKeepsInv(s, s', Commit);
    RunningIs(s');
    RebuildsMemory(s'.disk, s'.phase.m);
  }

  lemma CommitIsStep(s: State, s': State)
    requires CommitStep(s, s')
    ensures Step(s, s', Commit)
  {
  }

  lemma RunningIs(s: State)
    requires Inv(s) && s.phase.Running?
    ensures RunningOk(s.disk, s.phase.m)
  {
  }

  lemma CommitKeepsAll(d: Disk, r: Opening, d': Disk)
    requires OpenOk(d, r) && r.todo == []
    requires d'.tables == d.tables && d'.version == d.version + r.added
    requires if r.reuse.Some? then d'.logs == d.logs && d'.logNumber == r.reuse.value
             else d'.logs == d.logs[r.nextFile := NEW_LOG] && d'.logNumber == r.nextFile
    ensures Rebuilt(d') == Rebuilt(d)
  {
    TablesUnion(d.tables, d.version, r.added);
    hide TableEntries, LogEntries;
    if r.reuse.Some? {
      var l := r.reuse.value;
      assert Needed(d') == {l} && Needed(d) == (Needed(d) - {l}) + {l};
      assert Needed(d) - ToSet(r.todo) - {l} == Needed(d) - {l};
      LogsUnion(d.logs, Needed(d) - {l}, {l});
    } else {
      assert Needed(d') == {r.nextFile};
      assert Needed(d) - ToSet(r.todo) - {} == Needed(d);
      OneLog(d'.logs, r.nextFile);
      assert Logged(NEW_LOG) == {};
    }
  }

  /** After a crash in any state, the database can be begun again, and holds all that the manifest's tables and the
      needed logs held; in tables alone, unless the last log is reused. */
  lemma RecoveryCompletes(s: State, reuse: bool) returns (states: seq<State>, steps: seq<Label>)
    requires Inv(s) && s.phase.Down?
    ensures IsPath(states, steps) && states[0] == s
    ensures var s' := states[|steps|];
            && Inv(s') && s'.phase.Running? && s'.expected == s.expected && Rebuilt(s'.disk) == Rebuilt(s.disk)
            && s'.phase.m.imm == None && s'.phase.m.flush == NoFlush && s'.phase.m.job == NoJob
            && s'.phase.m.mem + TableEntries(s'.disk.tables, s'.phase.m.current) == Rebuilt(s.disk)
            && (!reuse ==> s'.phase.m.mem == {})
  {
    hide Inv, Step, TableEntries, LogEntries;
    var todo := RecoveryCanBegin(s);
    var begun := OpenTaken(s, todo);
    var read, readSteps := LogsCanBeRead(begun, reuse);
    var last := read[|readSteps|];
    var s' := CommitTaken(last);
    SameRebuilt(begun.disk, last.disk);
    StepLast(read, readSteps, s', Commit);
    StepFirst(s, BeginOpen(todo, true), read + [s'], readSteps + [Commit]);
    states, steps := [s] + (read + [s']), [BeginOpen(todo, true)] + (readSteps + [Commit]);
  }

  lemma StepLast(states: seq<State>, steps: seq<Label>, s: State, step: Label)
    requires IsPath(states, steps) && Step(states[|steps|], s, step)
    ensures IsPath(states + [s], steps + [step]) && (states + [s])[0] == states[0]
    ensures (states + [s])[|steps| + 1] == s
  {
    hide Step;
    var states', steps' := states + [s], steps + [step];
    forall i | 0 <= i < |steps'| ensures Step(states'[i], states'[i + 1], steps'[i]) {
      if i < |steps| {
        assert Step(states[i], states[i + 1], steps[i]);
      }
    }
  }

  lemma OpenTaken(s: State, todo: seq<nat>) returns (s': State)
    requires Inv(s) && s.phase.Down? && s.disk.version <= s.disk.tables.Keys
    requires Rising(todo) && ToSet(todo) == Needed(s.disk)
    ensures Inv(s') && Step(s, s', BeginOpen(todo, true)) && s'.disk == s.disk && s'.expected == s.expected
    ensures s'.phase.Open? && s'.phase.r.save && s'.phase.r.reuse == None && s'.phase.r.todo == todo
    ensures s'.phase.r.pos == 0 && s'.phase.r.table == {} && !s'.phase.r.spilled
  {
    hide Inv;
    s' := s.(phase := Open(Opening(todo, 0, {}, {}, s.disk.nextFile + 1, false, None, s.disk.lastSequence, true)));
    StepKeepsInv(s, s', BeginOpen(todo, true));
  }

  lemma SameRebuilt(d: Disk, d': Disk)
    requires SameFiles(d, d')
    ensures Rebuilt(d') == Rebuilt(d)
  {
    assert Needed(d') == Needed(d);
  }

  // ----- flushes -----

  /** The immutable memtable becomes a table of the version, and the logs before the current one are needed no more. */
  lemma FlushCompletes(s: State) returns (states: seq<State>, steps: seq<Label>)
    requires Inv(s) && s.phase.Running? && s.phase.m.imm.Some? && s.phase.m.flush == NoFlush
    requires !s.phase.m.job.Committed?
    ensures IsPath(states, steps) && states[0] == s
    ensures var m, s' := s.phase.m, states[|steps|];
            && Inv(s') && s'.phase.Running? && s'.expected == s.expected && Rebuilt(s'.disk) == Rebuilt(s.disk)
            && s'.phase.m.imm == None && s'.phase.m.mem == m.mem && s'.phase.m.flush == NoFlush
            && s'.phase.m.job == m.job
            && TableEntries(s'.disk.tables, s'.phase.m.current) == TableEntries(s.disk.tables, m.current) + m.imm.value
            && (forall n :: n in Needed(s'.disk) <==> n in s.disk.logs && n == m.logFile)
  {
    hide Step, TableEntries, LogEntries, RunningOk;
    var m := s.phase.m;
    var n, imm := m.nextFile, m.imm.value;
    var added := if imm == {} then {} else {n};
    var m1 := m.(pending := m.pending + {n}, flush := Building(n), nextFile := n + 1);
    var s1 := s.(phase := Running(m1));
    var d2 := if imm == {} then s.disk else s.disk.(tables := s.disk.tables[n := imm]);
    var m2 := m1.(pending := m1.pending - {n}, flush := Built(added));
    var s2 := s1.(disk := d2, phase := Running(m2));
    var d3 := d2.(version := d2.version + added, logNumber := m.logFile, nextFile := n + 1,
                  lastSequence := m.lastSequence);
    var m3 := m2.(flush := Saved(added));
    var s3 := s2.(disk := d3, phase := Running(m3));
    var m4 := m3.(current := m.current + added, logNumber := m.logFile, imm := None, flush := NoFlush);
    var s4 := s3.(phase := Running(m4));
    FlushSteps(s, s1, s2, s3, s4);
    NoSteps(s4);
    StepFirst(s3, InstallFlush, [s4], []);
    StepFirst(s2, LogFlush, [s3] + [s4], [InstallFlush] + []);
    StepFirst(s1, Build, [s2] + ([s3] + [s4]), [LogFlush] + ([InstallFlush] + []));
    StepFirst(s, StartFlush, [s1] + ([s2] + ([s3] + [s4])), [Build] + ([LogFlush] + ([InstallFlush] + [])));
    states := [s] + ([s1] + ([s2] + ([s3] + [s4])));
    steps := [StartFlush] + ([Build] + ([LogFlush] + ([InstallFlush] + [])));
    FlushedTables(s, n, imm, d2.tables, added);
    FlushedLogs(s, s4);
  }

  lemma FlushSteps(s: State, s1: State, s2: State, s3: State, s4: State)
    requires Inv(s) && FlushStep(s, s1) && BuildStep(s1, s2) && LogFlushStep(s2, s3) && InstallFlushStep(s3, s4)
    ensures Step(s, s1, StartFlush) && Step(s1, s2, Build) && Step(s2, s3, LogFlush) && Step(s3, s4, InstallFlush)
    ensures Inv(s4)
  {
    hide Inv, FlushStep, BuildStep, LogFlushStep, InstallFlushStep;
    StepKeepsInv(s, s1, StartFlush);
    StepKeepsInv(s1, s2, Build);
    StepKeepsInv(s2, s3, LogFlush);
    StepKeepsInv(s3, s4, InstallFlush);
  }

  lemma FlushedTables(s: State, n: nat, imm: set<Entry>, tables: map<nat, set<Entry>>, added: set<nat>)
    requires Inv(s) && s.phase.Running? && n == s.phase.m.nextFile
    requires added == (if imm == {} then {} else {n})
    requires tables == if imm == {} then s.disk.tables else s.disk.tables[n := imm]
    ensures TableEntries(tables, s.phase.m.current + added) == TableEntries(s.disk.tables, s.phase.m.current) + imm
  {
    var current := s.phase.m.current;
    hide TableEntries;
    TablesUnion(tables, current, added);
    if imm == {} {
      NoTables(tables);
    } else {
      OtherTable(s.disk.tables, n, imm, current);
      OneTable(tables, n);
    }
  }

  lemma NoTables(tables: map<nat, set<Entry>>)
    ensures TableEntries(tables, {}) == {}
  {
  }

  lemma FlushedLogs(s: State, s': State)
    requires Inv(s) && s.phase.Running? && Inv(s') && s'.phase.Running?
    requires s'.disk.logs == s.disk.logs && s'.disk.logNumber == s.phase.m.logFile
    requires s.phase.m.flush == NoFlush && s.phase.m.imm.Some? && !s.phase.m.job.Committed?
    requires s'.phase.m.job == s.phase.m.job && s'.phase.m.imm == None && s'.phase.m.mem == s.phase.m.mem
    requires TableEntries(s'.disk.tables, s'.phase.m.current)
             == TableEntries(s.disk.tables, s.phase.m.current) + s.phase.m.imm.value
    ensures Rebuilt(s'.disk) == Rebuilt(s.disk)
    ensures forall n :: n in Needed(s'.disk) <==> n in s.disk.logs && n == s.phase.m.logFile
  {
    hide TableEntries, LogEntries, FilesOk, FlushOk, JobOk, HeldApart;
    RebuildsMemory(s.disk, s.phase.m);
    RebuildsMemory(s'.disk, s'.phase.m);
  }

  // ----- compactions -----

  /** What is left of any inputs of the current version takes their place: as one table, or none if nothing is left. */
  lemma JobCompletes(s: State, inputs: set<nat>, horizon: SequenceNumber, base: UserKey -> bool)
    returns (states: seq<State>, steps: seq<Label>)
    requires Inv(s) && s.phase.Running? && s.phase.m.flush == NoFlush && s.phase.m.job == NoJob
    requires inputs <= s.phase.m.current && horizon <= s.phase.m.lastSequence
    ensures IsPath(states, steps) && states[0] == s
    ensures var m, s', es := s.phase.m, states[|steps|], Survivors(TableEntries(s.disk.tables, inputs), horizon, base);
            && Inv(s') && s'.phase.Running? && s'.expected == s.expected
            && s'.phase.m.mem == m.mem && s'.phase.m.imm == m.imm && s'.phase.m.job == NoJob
            && s'.phase.m.current == m.current - inputs + (if es == {} then {} else {m.nextFile})
            && (es != {} ==> m.nextFile in s'.disk.tables && s'.disk.tables[m.nextFile] == es)
            && TableEntries(s'.disk.tables, m.current - inputs) == TableEntries(s.disk.tables, m.current - inputs)
  {
    hide Inv, IsPath, TableEntries, Survivors;
    if Survivors(TableEntries(s.disk.tables, inputs), horizon, base) == {} {
      states, steps := NothingLeft(s, inputs, horizon, base);
    } else {
      states, steps := OneOutput(s, inputs, horizon, base);
    }
  }

  lemma NothingLeft(s: State, inputs: set<nat>, horizon: SequenceNumber, base: UserKey -> bool)
    returns (states: seq<State>, steps: seq<Label>)
    requires Inv(s) && s.phase.Running? && s.phase.m.flush == NoFlush && s.phase.m.job == NoJob
    requires inputs <= s.phase.m.current && horizon <= s.phase.m.lastSequence
    requires Survivors(TableEntries(s.disk.tables, inputs), horizon, base) == {}
    ensures IsPath(states, steps) && states[0] == s
    ensures var m, s' := s.phase.m, states[|steps|];
            && Inv(s') && s'.phase.Running? && s'.expected == s.expected
            && s'.phase.m.mem == m.mem && s'.phase.m.imm == m.imm && s'.phase.m.job == NoJob
            && s'.phase.m.current == m.current - inputs && s'.disk.tables == s.disk.tables
  {
    var m := s.phase.m;
    var s1 := s.(phase := Running(m.(job := Compacting(inputs, {}, {}, horizon))));
    var d := s.disk.(version := s.disk.version - inputs + {}, logNumber := m.logNumber, nextFile := m.nextFile,
                     lastSequence := m.lastSequence);
    var m2 := m.(job := Job.Committed(inputs, {}));
    var s2 := s1.(disk := d, phase := Running(m2), horizon := if horizon > s.horizon then horizon else s.horizon);
    var s3 := s2.(phase := Running(m2.(current := m.current - inputs + {}, pending := m.pending - {}, job := NoJob)));
    hide Step, RunningOk, Survivors, Inv;
    NoTables(s.disk.tables);
    EmptyJobSteps(s, s1, s2, s3, inputs, horizon, base);
    NoSteps(s3);
    StepFirst(s2, InstallJob, [s3], []);
    StepFirst(s1, LogJob(base), [s2] + [s3], [InstallJob] + []);
    StepFirst(s, StartJob(inputs, horizon), [s1] + ([s2] + [s3]), [LogJob(base)] + ([InstallJob] + []));
    states := [s] + ([s1] + ([s2] + [s3]));
    steps := [StartJob(inputs, horizon)] + ([LogJob(base)] + ([InstallJob] + []));
  }

  lemma EmptyJobSteps(s: State, s1: State, s2: State, s3: State, inputs: set<nat>, horizon: SequenceNumber,
                      base: UserKey -> bool)
    requires Inv(s) && StartJobStep(s, s1, inputs, horizon) && LogJobStep(s1, s2, base) && InstallJobStep(s2, s3)
    ensures Step(s, s1, StartJob(inputs, horizon)) && Step(s1, s2, LogJob(base)) && Step(s2, s3, InstallJob) && Inv(s3)
  {
    hide Inv, StartJobStep, LogJobStep, InstallJobStep;
    StepKeepsInv(s, s1, StartJob(inputs, horizon));
    StepKeepsInv(s1, s2, LogJob(base));
    StepKeepsInv(s2, s3, InstallJob);
  }

  lemma OneOutput(s: State, inputs: set<nat>, horizon: SequenceNumber, base: UserKey -> bool)
    returns (states: seq<State>, steps: seq<Label>)
    requires Inv(s) && s.phase.Running? && s.phase.m.flush == NoFlush && s.phase.m.job == NoJob
    requires inputs <= s.phase.m.current && horizon <= s.phase.m.lastSequence
    ensures IsPath(states, steps) && states[0] == s
    ensures var m, s' := s.phase.m, states[|steps|];
            && Inv(s') && s'.phase.Running? && s'.expected == s.expected
            && s'.phase.m.mem == m.mem && s'.phase.m.imm == m.imm && s'.phase.m.job == NoJob
            && s'.phase.m.current == m.current - inputs + {m.nextFile}
            && m.nextFile in s'.disk.tables
            && s'.disk.tables[m.nextFile] == Survivors(TableEntries(s.disk.tables, inputs), horizon, base)
            && TableEntries(s'.disk.tables, m.current - inputs) == TableEntries(s.disk.tables, m.current - inputs)
  {
    hide Step, TableEntries, LogEntries, RunningOk, Survivors;
    var m := s.phase.m;
    var n, es := m.nextFile, Survivors(TableEntries(s.disk.tables, inputs), horizon, base);
    var m1 := m.(job := Compacting(inputs, {}, {}, horizon));
    var s1 := s.(phase := Running(m1));
    var m2 := m1.(pending := m.pending + {n}, job := m1.job.(open := {n}), nextFile := n + 1);
    var s2 := s1.(phase := Running(m2));
    var d3 := s.disk.(tables := s.disk.tables[n := es]);
    var m3 := m2.(job := m2.job.(open := {n} - {n}, outputs := {} + {n}));
    var s3 := s2.(disk := d3, phase := Running(m3));
    var d4 := d3.(version := d3.version - inputs + {n}, logNumber := m.logNumber, nextFile := n + 1,
                  lastSequence := m.lastSequence);
    var m4 := m3.(job := Job.Committed(inputs, {n}));
    var s4 := s3.(disk := d4, phase := Running(m4), horizon := if horizon > s.horizon then horizon else s.horizon);
    var m5 := m4.(current := m.current - inputs + {n}, pending := m4.pending - {n}, job := NoJob);
    var s5 := s4.(phase := Running(m5));
    OutputHolds(s, inputs, horizon, base, m3.job, d3.tables);
    assert {n} - {n} == {} && {} + {n} == {n};
    JobSteps(s, s1, s2, s3, s4, s5, inputs, horizon, n, es, base);
    NoSteps(s5);
    StepFirst(s4, InstallJob, [s5], []);
    StepFirst(s3, LogJob(base), [s4] + [s5], [InstallJob] + []);
    StepFirst(s2, FinishOutput(n, es), [s3] + ([s4] + [s5]), [LogJob(base)] + ([InstallJob] + []));
    StepFirst(s1, OpenOutput, [s2] + ([s3] + ([s4] + [s5])),
              [FinishOutput(n, es)] + ([LogJob(base)] + ([InstallJob] + [])));
    StepFirst(s, StartJob(inputs, horizon), [s1] + ([s2] + ([s3] + ([s4] + [s5]))),
              [OpenOutput] + ([FinishOutput(n, es)] + ([LogJob(base)] + ([InstallJob] + []))));
    states := [s] + ([s1] + ([s2] + ([s3] + ([s4] + [s5]))));
    steps := [StartJob(inputs, horizon)]
             + ([OpenOutput] + ([FinishOutput(n, es)] + ([LogJob(base)] + ([InstallJob] + []))));
    OthersStay(s, inputs, n, es);
  }

  lemma OthersStay(s: State, inputs: set<nat>, n: nat, es: set<Entry>)
    requires Inv(s) && s.phase.Running? && n == s.phase.m.nextFile
    ensures TableEntries(s.disk.tables[n := es], s.phase.m.current - inputs)
            == TableEntries(s.disk.tables, s.phase.m.current - inputs)
  {
    hide TableEntries;
    OtherTable(s.disk.tables, n, es, s.phase.m.current - inputs);
  }

  lemma OutputHolds(s: State, inputs: set<nat>, horizon: SequenceNumber, base: UserKey -> bool, job: Job,
                    tables: map<nat, set<Entry>>)
    requires Inv(s) && s.phase.Running? && inputs <= s.phase.m.current
    requires var n := s.phase.m.nextFile;
             && tables == s.disk.tables[n := Survivors(TableEntries(s.disk.tables, inputs), horizon, base)]
             && job == Compacting(inputs, {}, {n}, horizon)
    ensures OutputsOf(tables, job, base)
  {
    hide TableEntries, Survivors;
    var n := s.phase.m.nextFile;
    OtherTable(s.disk.tables, n, tables[n], inputs);
    OneTable(tables, n);
  }

  lemma JobSteps(s: State, s1: State, s2: State, s3: State, s4: State, s5: State, inputs: set<nat>,
                 horizon: SequenceNumber, n: nat, es: set<Entry>, base: UserKey -> bool)
    requires Inv(s) && StartJobStep(s, s1, inputs, horizon) && OpenOutputStep(s1, s2)
    requires FinishOutputStep(s2, s3, n, es) && LogJobStep(s3, s4, base) && InstallJobStep(s4, s5)
    ensures Step(s, s1, StartJob(inputs, horizon)) && Step(s1, s2, OpenOutput) && Step(s2, s3, FinishOutput(n, es))
    ensures Step(s3, s4, LogJob(base)) && Step(s4, s5, InstallJob) && Inv(s5)
  {
    hide Inv, StartJobStep, OpenOutputStep, FinishOutputStep, LogJobStep, InstallJobStep;
    StepKeepsInv(s, s1, StartJob(inputs, horizon));
    StepKeepsInv(s1, s2, OpenOutput);
    StepKeepsInv(s2, s3, FinishOutput(n, es));
    StepKeepsInv(s3, s4, LogJob(base));
    StepKeepsInv(s4, s5, InstallJob);
  }

  // ----- in between -----

  /** An output that is begun can be given up; and whenever neither a flush nor an install is under way, what is not
      needed can be deleted.  Neither loses anything. */
  lemma CanGiveUpAndClean(s: State) returns (s1: State, s2: State)
    requires Inv(s) && s.phase.Running? && s.phase.m.flush == NoFlush && s.phase.m.job.Compacting?
    ensures Step(s, s1, AbandonJob) && Step(s1, s2, Delete) && Inv(s2)
    ensures Rebuilt(s2.disk) == Rebuilt(s.disk) && s2.expected == s.expected && s2.phase.Running?
    ensures s2.phase.m.current == s.phase.m.current && s2.phase.m.job == NoJob
    ensures forall n :: n in s2.disk.tables <==>
              && n in s.disk.tables
              && (|| n in s.phase.m.pending - s.phase.m.job.open - s.phase.m.job.outputs || n in s.phase.m.current
                  || exists v :: v in s.phase.m.held && n in v)
  {
    hide RunningOk, Rebuilt, Inv;
    var m := s.phase.m;
    s1 := s.(phase := Running(m.(pending := m.pending - m.job.outputs - m.job.open, job := NoJob)));
    StepKeepsInv(s, s1, AbandonJob);
    var m1 := s1.phase.m;
    s2 := s1.(disk := Cleaned(s1.disk, Live(m1), m1.logNumber));
    StepKeepsInv(s1, s2, Delete);
    GoodState(s1);
    DeleteKeeps(s1, s2);
  }

  /** A trivial move can be recorded, and changes nothing that recovery reads. */
  lemma MoveCanBeLogged(s: State) returns (s': State)
    requires Inv(s) && s.phase.Running? && s.phase.m.flush == NoFlush && s.phase.m.job == NoJob
    ensures Step(s, s', LogMove) && Inv(s') && Rebuilt(s'.disk) == Rebuilt(s.disk) && s'.phase == s.phase
    ensures s'.disk.nextFile == s.phase.m.nextFile && s'.disk.lastSequence == s.phase.m.lastSequence
  {
    hide TableEntries, LogEntries;
    var m := s.phase.m;
    s' := s.(disk := s.disk.(logNumber := m.logNumber, nextFile := m.nextFile, lastSequence := m.lastSequence));
    StepKeepsInv(s, s', LogMove);
    assert Needed(s'.disk) == Needed(s.disk);
  }

  /** The current version can be held at any time, and let go of again. */
  lemma CanHoldAndRelease(s: State) returns (s': State)
    requires Inv(s) && s.phase.Running?
    ensures Step(s, s', Hold) && Inv(s') && Step(s', s, Release(|s.phase.m.held|))
    ensures s'.phase.Running? && s'.phase.m.held == s.phase.m.held + [s.phase.m.current]
  {
    hide RunningOk;
    var m := s.phase.m;
    s' := s.(phase := Running(m.(held := m.held + [m.current])));
    StepKeepsInv(s, s', Hold);
    assert (m.held + [m.current])[..|m.held|] + (m.held + [m.current])[|m.held| + 1..] == m.held;
  }

  lemma GoodState(s: State)
    requires Inv(s)
    ensures Good(s)
  {
  }
}
