/**
 Files and crashes.  What is on disk - tables, logs and the manifest - rebuilds what is in memory at every moment of
 writing, flushing, compacting, cleaning up and recovering, and no file that this needs is ever deleted.  Durability.dfy
 says what the rebuilt contents are.
*/
module Recovery {
  import opened Format
  import opened DropRule
  import Store

  /** A log: one record for each batch written, the first `synced` of them known to be on the medium. */
  datatype LogFile = LogFile(records: seq<set<Entry>>, synced: nat)

  /** The files: logs by number, tables by number, and what the manifest says. */
  datatype Disk = Disk(logs: map<nat, LogFile>, tables: map<nat, set<Entry>>, version: set<nat>, logNumber: nat,
                       nextFile: nat, lastSequence: SequenceNumber)

  /** A flush by the background thread: the table being built; built but not recorded; recorded but not installed.
      An empty memtable gives no table. */
  datatype Flush = NoFlush | Building(number: nat) | Built(added: set<nat>) | Saved(added: set<nat>)

  /** A compaction by the background thread: its inputs, the output being written, those written, and the smallest
      snapshot it keeps; or recorded and not installed. */
  datatype Job = NoJob | Compacting(inputs: set<nat>, open: set<nat>, outputs: set<nat>, horizon: SequenceNumber)
               | Committed(inputs: set<nat>, outputs: set<nat>)

  /** A running database.  `held` are older versions that iterators or a compaction still use. */
  datatype Memory = Memory(mem: set<Entry>, imm: Option<set<Entry>>, logFile: nat, logNumber: nat, current: set<nat>,
                           held: seq<set<nat>>, pending: set<nat>, nextFile: nat, lastSequence: SequenceNumber,
                           flush: Flush, job: Job)

  /** A recovery: the logs still to read, how far the first of them is read, the memtable it is read into, the tables
      written so far, whether any of them was written from the first log, the log to go on with if one is reused,
      the greatest sequence number seen, and whether the manifest must be written. */
  datatype Opening = Opening(todo: seq<nat>, pos: nat, table: set<Entry>, added: set<nat>, nextFile: nat, spilled: bool,
                             reuse: Option<nat>, lastSequence: SequenceNumber, save: bool)

  datatype Phase = Down | Open(r: Opening) | Running(m: Memory)

  /** Not part of the program: `expected` is all that was written and not lost, `promised` is what was in a log when it
      was synced, and `horizon` is the greatest snapshot below which a recorded compaction has dropped entries. */
  datatype State = State(disk: Disk, phase: Phase, expected: set<Entry>, promised: set<Entry>, horizon: SequenceNumber)

  // ----- what the files say -----

  ghost function TableEntries(tables: map<nat, set<Entry>>, files: set<nat>): set<Entry> {
    set f, e | f in files && f in tables && e in tables[f] :: e
  }

  ghost function Records(records: seq<set<Entry>>): set<Entry> {
    set i, e | 0 <= i < |records| && e in records[i] :: e
  }

  ghost function Logged(log: LogFile): set<Entry> {
    Records(log.records)
  }

  ghost function LogEntries(logs: map<nat, LogFile>, numbers: set<nat>): set<Entry> {
    set n, e | n in numbers && n in logs && e in Logged(logs[n]) :: e
  }

  lemma RecordsConcat(a: seq<set<Entry>>, b: seq<set<Entry>>)
    ensures Records(a + b) == Records(a) + Records(b)
  {
    forall i, e | 0 <= i < |a| && e in a[i] ensures e in Records(a + b) {
      assert (a + b)[i] == a[i];
    }
    forall i, e | 0 <= i < |b| && e in b[i] ensures e in Records(a + b) {
      assert (a + b)[|a| + i] == b[i];
    }
  }

  lemma OneRecord(es: set<Entry>)
    ensures Records([es]) == es
  {
    forall e | e in es ensures e in Records([es]) {
      assert e in [es][0];
    }
  }

  /** The logs recovery will read. */
  ghost function Needed(d: Disk): set<nat> {
    set n | n in d.logs.Keys && n >= d.logNumber
  }

  /** What recovery would rebuild. */
  ghost function Rebuilt(d: Disk): set<Entry> {
    TableEntries(d.tables, d.version) + LogEntries(d.logs, Needed(d))
  }

  lemma TablesUnion(tables: map<nat, set<Entry>>, a: set<nat>, b: set<nat>)
    ensures TableEntries(tables, a + b) == TableEntries(tables, a) + TableEntries(tables, b)
  {
  }

  lemma LogsUnion(logs: map<nat, LogFile>, a: set<nat>, b: set<nat>)
    ensures LogEntries(logs, a + b) == LogEntries(logs, a) + LogEntries(logs, b)
  {
  }

  /** Writing a table changes nothing for files it is not among. */
  lemma OtherTable(tables: map<nat, set<Entry>>, n: nat, es: set<Entry>, files: set<nat>)
    requires n !in files
    ensures TableEntries(tables[n := es], files) == TableEntries(tables, files)
  {
    KeptTables(tables, tables[n := es], files);
  }

  lemma OneTable(tables: map<nat, set<Entry>>, n: nat)
    requires n in tables
    ensures TableEntries(tables, {n}) == tables[n]
  {
    var files := {n};
    forall e ensures e in TableEntries(tables, files) <==> e in tables[n] {
      if e in tables[n] {
        assert n in files && n in tables && e in tables[n];
      }
    }
    assert TableEntries(tables, files) == tables[n];
  }

  lemma OneLog(logs: map<nat, LogFile>, n: nat)
    requires n in logs
    ensures LogEntries(logs, {n}) == Logged(logs[n])
  {
    var numbers := {n};
    forall e ensures e in LogEntries(logs, numbers) <==> e in Logged(logs[n]) {
      if e in Logged(logs[n]) {
        assert n in numbers && n in logs && e in Logged(logs[n]);
      }
    }
    assert LogEntries(logs, numbers) == Logged(logs[n]);
  }

  lemma OtherLog(logs: map<nat, LogFile>, n: nat, log: LogFile, numbers: set<nat>)
    requires n !in numbers
    ensures LogEntries(logs[n := log], numbers) == LogEntries(logs, numbers)
  {
    KeptLogs(logs, logs[n := log], numbers);
  }

  /** Keeping only some of the files changes nothing for those. */
  lemma KeptTables(tables: map<nat, set<Entry>>, tables': map<nat, set<Entry>>, files: set<nat>)
    requires forall f :: f in files && f in tables ==> f in tables' && tables'[f] == tables[f]
    requires forall f :: f in files && f in tables' ==> f in tables
    ensures TableEntries(tables', files) == TableEntries(tables, files)
  {
  }

  lemma KeptLogs(logs: map<nat, LogFile>, logs': map<nat, LogFile>, numbers: set<nat>)
    requires forall n :: n in numbers && n in logs ==> n in logs' && logs'[n] == logs[n]
    requires forall n :: n in numbers && n in logs' ==> n in logs
    ensures LogEntries(logs', numbers) == LogEntries(logs, numbers)
  {
  }

  // ----- steps of a running database -----

  /** A batch: one record appended to the log, then its entries inserted in the memtable. */
  ghost predicate WriteStep(s: State, s': State, batch: seq<Store.Op>, sync: bool) {
    && s.phase.Running? && s.phase.m.logFile in s.disk.logs && s.phase.m.lastSequence + |batch| < MAX_SEQUENCE
    && var m := s.phase.m;
       var es := Store.BatchEntries(batch, m.lastSequence + 1);
       var log := Appended(s.disk.logs[m.logFile], es, sync);
       s' == s.(disk := s.disk.(logs := s.disk.logs[m.logFile := log]),
                phase := Running(m.(mem := m.mem + es, lastSequence := m.lastSequence + |batch|)),
                expected := s.expected + es, promised := if sync then s.promised + Logged(log) else s.promised)
  }

  function Appended(log: LogFile, es: set<Entry>, sync: bool): LogFile {
    LogFile(log.records + [es], if sync then |log.records| + 1 else log.synced)
  }

  const NEW_LOG: LogFile := LogFile([], 0)

  ghost predicate SwitchStep(s: State, s': State) {
    && s.phase.Running? && s.phase.m.imm == None
    && var m := s.phase.m;
       s' == s.(disk := s.disk.(logs := s.disk.logs[m.nextFile := NEW_LOG]),
                phase := Running(m.(imm := Some(m.mem), mem := {}, logFile := m.nextFile, nextFile := m.nextFile + 1)))
  }

  /** Someone starts to use the current version, or stops using a version. */
  ghost predicate HoldStep(s: State, s': State) {
    s.phase.Running? && s' == s.(phase := Running(s.phase.m.(held := s.phase.m.held + [s.phase.m.current])))
  }

  ghost predicate ReleaseStep(s: State, s': State, i: nat) {
    && s.phase.Running? && i < |s.phase.m.held|
    && s' == s.(phase := Running(s.phase.m.(held := s.phase.m.held[..i] + s.phase.m.held[i + 1..])))
  }

  /** WriteLevel0Table draws a number and protects it. */
  ghost predicate FlushStep(s: State, s': State) {
    && s.phase.Running? && s.phase.m.flush == NoFlush && s.phase.m.imm.Some? && !s.phase.m.job.Committed?
    && var m := s.phase.m;
       s' == s.(phase := Running(m.(pending := m.pending + {m.nextFile}, flush := Building(m.nextFile),
                                    nextFile := m.nextFile + 1)))
  }

  /** The table is written, if there is anything to write, and is no longer protected. */
  ghost predicate BuildStep(s: State, s': State) {
    && s.phase.Running? && s.phase.m.flush.Building? && s.phase.m.imm.Some?
    && var m := s.phase.m;
       var n := m.flush.number;
       if m.imm.value == {} then
         s' == s.(phase := Running(m.(pending := m.pending - {n}, flush := Built({}))))
       else
         s' == s.(disk := s.disk.(tables := s.disk.tables[n := m.imm.value]),
                  phase := Running(m.(pending := m.pending - {n}, flush := Built({n}))))
  }

  /** The manifest record of a flush: logs before the current one are not needed any more. */
  ghost predicate LogFlushStep(s: State, s': State) {
    && s.phase.Running? && s.phase.m.flush.Built?
    && var m := s.phase.m;
       s' == s.(disk := s.disk.(version := s.disk.version + m.flush.added, logNumber := m.logFile,
                                nextFile := m.nextFile,
                                lastSequence := m.lastSequence),
                phase := Running(m.(flush := Saved(m.flush.added))))
  }

  ghost predicate InstallFlushStep(s: State, s': State) {
    && s.phase.Running? && s.phase.m.flush.Saved?
    && var m := s.phase.m;
       s' == s.(phase := Running(m.(current := m.current + m.flush.added, logNumber := s.disk.logNumber, imm := None,
                                    flush := NoFlush)))
  }

  ghost predicate StartJobStep(s: State, s': State, inputs: set<nat>, horizon: SequenceNumber) {
    && s.phase.Running? && s.phase.m.flush == NoFlush && s.phase.m.job == NoJob && inputs <= s.phase.m.current
    && horizon <= s.phase.m.lastSequence
    && s' == s.(phase := Running(s.phase.m.(job := Compacting(inputs, {}, {}, horizon))))
  }

  ghost predicate OpenOutputStep(s: State, s': State) {
    && s.phase.Running? && s.phase.m.flush == NoFlush && s.phase.m.job.Compacting? && s.phase.m.job.open == {}
    && var m := s.phase.m;
       s' == s.(phase := Running(m.(pending := m.pending + {m.nextFile}, job := m.job.(open := {m.nextFile}),
                                    nextFile := m.nextFile + 1)))
  }

  ghost predicate FinishOutputStep(s: State, s': State, n: nat, es: set<Entry>) {
    && s.phase.Running? && s.phase.m.flush == NoFlush && s.phase.m.job.Compacting? && n in s.phase.m.job.open
    && var m := s.phase.m;
       s' == s.(disk := s.disk.(tables := s.disk.tables[n := es]),
                phase := Running(m.(job := m.job.(open := m.job.open - {n}, outputs := m.job.outputs + {n}))))
  }

  /** No entry is in two of the tables. */
  ghost predicate Apart(tables: map<nat, set<Entry>>, files: set<nat>) {
    forall f, g :: f in files && g in files && f in tables && g in tables && f != g ==> tables[f] !! tables[g]
  }

  /** The outputs hold what the drop rule leaves of the inputs, cut into tables. */
  ghost predicate OutputsOf(tables: map<nat, set<Entry>>, job: Job, base: UserKey -> bool)
    requires job.Compacting?
  {
    && TableEntries(tables, job.outputs) == Survivors(TableEntries(tables, job.inputs), job.horizon, base)
    && Apart(tables, job.outputs)
  }

  /** The manifest record of a compaction.  `base` says for which keys there is nothing below its output level. */
  ghost predicate LogJobStep(s: State, s': State, base: UserKey -> bool) {
    && s.phase.Running? && s.phase.m.flush == NoFlush && s.phase.m.job.Compacting? && s.phase.m.job.open == {}
    && var m := s.phase.m;
       && OutputsOf(s.disk.tables, m.job, base)
       && s' == s.(disk := s.disk.(version := s.disk.version - m.job.inputs + m.job.outputs, logNumber := m.logNumber,
                                   nextFile := m.nextFile, lastSequence := m.lastSequence),
                   phase := Running(m.(job := Committed(m.job.inputs, m.job.outputs))),
                   horizon := if m.job.horizon > s.horizon then m.job.horizon else s.horizon)
  }

  ghost predicate InstallJobStep(s: State, s': State) {
    && s.phase.Running? && s.phase.m.job.Committed?
    && var m := s.phase.m;
       s' == s.(phase := Running(m.(current := m.current - m.job.inputs + m.job.outputs,
                                    pending := m.pending - m.job.outputs,
                                    job := NoJob)))
  }

  ghost predicate AbandonJobStep(s: State, s': State) {
    && s.phase.Running? && s.phase.m.flush == NoFlush && s.phase.m.job.Compacting?
    && var m := s.phase.m;
       s' == s.(phase := Running(m.(pending := m.pending - m.job.outputs - m.job.open, job := NoJob)))
  }

  /** The manifest record of a trivial move, which leaves the files of the version as they are. */
  ghost predicate LogMoveStep(s: State, s': State) {
    && s.phase.Running? && s.phase.m.flush == NoFlush && s.phase.m.job == NoJob
    && s' == s.(disk := s.disk.(logNumber := s.phase.m.logNumber, nextFile := s.phase.m.nextFile,
                                lastSequence := s.phase.m.lastSequence))
  }

  ghost function Live(m: Memory): set<nat> {
    m.pending + m.current + set v, f | v in m.held && f in v :: f
  }

  /** What a file in the directory is, as ParseFileName tells from its name. */
  datatype FileName =
    | LogName(number: nat) | ManifestName(number: nat) | TableName(number: nat) | TempName(number: nat)
    | CurrentName | LockName | InfoLogName

  predicate Keep(name: FileName, live: set<nat>, logNumber: nat, prevLogNumber: nat, manifest: nat) {
    match name
    case LogName(n) => n >= logNumber || n == prevLogNumber
    case ManifestName(n) => n >= manifest
    case TableName(n) => n in live
    case TempName(n) => n in live
    case _ => true
  }

  /** DeleteObsoleteFiles, which only the background thread calls, between its other doings. */
  ghost predicate DeleteStep(s: State, s': State) {
    && s.phase.Running? && s.phase.m.flush == NoFlush && !s.phase.m.job.Committed?
    && var m := s.phase.m;
       s' == s.(disk := Cleaned(s.disk, Live(m), m.logNumber))
  }

  /** The tables and logs that are kept.  Previous log numbers are always zero. */
  function Cleaned(d: Disk, live: set<nat>, logNumber: nat): Disk {
    d.(tables := map f | f in d.tables && Keep(TableName(f), live, logNumber, 0, 0) :: d.tables[f],
       logs := map n | n in d.logs && Keep(LogName(n), live, logNumber, 0, 0) :: d.logs[n])
  }

  /** DeleteObsoleteFiles over the files of the directory; after a background error nothing is deleted. */
  method DeleteObsoleteFiles(names: seq<FileName>, failed: bool, live: set<nat>, logNumber: nat, prevLogNumber: nat,
                             manifest: nat) returns (kept: seq<FileName>, deleted: seq<FileName>)
    ensures multiset(kept) + multiset(deleted) == multiset(names)
    ensures forall n :: n in deleted ==> !failed && !Keep(n, live, logNumber, prevLogNumber, manifest)
    ensures forall n :: n in kept ==> failed || Keep(n, live, logNumber, prevLogNumber, manifest)
  {
    kept, deleted := [], [];
    if failed {
      kept := names;
      return;
    }
    for i := 0 to |names|
      invariant multiset(kept) + multiset(deleted) == multiset(names[..i])
      invariant forall n :: n in deleted ==> !Keep(n, live, logNumber, prevLogNumber, manifest)
      invariant forall n :: n in kept ==> Keep(n, live, logNumber, prevLogNumber, manifest)
    {
      assert names[..i + 1] == names[..i] + [names[i]];
      var keep := true;
      match names[i] {
        case LogName(n) => keep := n >= logNumber || n == prevLogNumber;
        case ManifestName(n) => keep := n >= manifest;
        case TableName(n) => keep := n in live;
        case TempName(n) => keep := n in live;
        case _ =>
      }
      if keep {
        kept := kept + [names[i]];
      } else {
        deleted := deleted + [names[i]];
      }
    }
    assert names[..|names|] == names;
  }

  // ----- what holds while the database runs -----

  /** The files that the manifest names once what is under way is installed. */
  ghost function Recorded(m: Memory): set<nat> {
    if m.flush.Saved? then m.current + m.flush.added
    else if m.job.Committed? then m.current - m.job.inputs + m.job.outputs
    else m.current
  }

  /** What is neither in a recorded table nor in the current memtable. */
  ghost function Unflushed(m: Memory): set<Entry> {
    if m.imm.Some? && !m.flush.Saved? then m.imm.value else {}
  }

  ghost predicate BelowNext(files: set<nat>, next: nat) {
    forall f :: f in files ==> f < next
  }

  ghost predicate AllHeld(held: seq<set<nat>>, tables: map<nat, set<Entry>>, next: nat) {
    forall i :: 0 <= i < |held| ==> held[i] <= tables.Keys && BelowNext(held[i], next)
  }

  /** Every file in use is there, and numbers still to be drawn are not in use. */
  ghost predicate FilesOk(d: Disk, m: Memory) {
    && d.version == Recorded(m) && d.version <= d.tables.Keys && m.current <= d.tables.Keys
    && AllHeld(m.held, d.tables, m.nextFile)
    && d.nextFile <= m.nextFile && BelowNext(d.version, d.nextFile) && BelowNext(m.current, m.nextFile)
    && BelowNext(m.pending, m.nextFile)
  }

  /** The current log holds the memtable; the needed logs before it hold what is unflushed. */
  ghost predicate LogsOk(d: Disk, m: Memory) {
    && m.logNumber <= d.logNumber <= m.logFile < m.nextFile && d.logNumber < d.nextFile
    && (!m.flush.Saved? ==> m.logNumber == d.logNumber)
    && m.logFile in d.logs && Logged(d.logs[m.logFile]) == m.mem
    && (forall n :: n in d.logs ==> n <= m.logFile)
    && LogEntries(d.logs, Needed(d) - {m.logFile}) == Unflushed(m)
  }

  ghost predicate FlushOk(d: Disk, m: Memory) {
    match m.flush
    case NoFlush => true
    case Building(n) => m.imm.Some? && n in m.pending && n !in m.current && n !in JobFiles(m.job) && !m.job.Committed?
    case Built(added) =>
      && m.imm.Some? && added <= d.tables.Keys && TableEntries(d.tables, added) == m.imm.value
      && BelowNext(added, m.nextFile)
      && added !! m.current && added !! JobFiles(m.job) && !m.job.Committed?
      && (forall f, g :: f in added && g in added ==> f == g)
    case Saved(added) =>
      && m.imm.Some? && TableEntries(d.tables, added) == m.imm.value && !m.job.Committed?
      && added !! JobFiles(m.job)
  }

  ghost function JobFiles(job: Job): set<nat> {
    match job
    case NoJob => {}
    case Compacting(_, open, outputs, _) => open + outputs
    case Committed(_, outputs) => outputs
  }

  ghost predicate JobOk(d: Disk, m: Memory) {
    match m.job
    case NoJob => true
    case Compacting(inputs, open, outputs, _) =>
      && inputs <= m.current && open + outputs <= m.pending && open + outputs !! m.current && open !! outputs
      && outputs <= d.tables.Keys
    case Committed(inputs, outputs) => inputs <= m.current && outputs <= m.pending && m.flush == NoFlush
  }

  ghost predicate HeldApart(m: Memory) {
    && (m.flush.Building? ==> forall i :: 0 <= i < |m.held| ==> m.flush.number !in m.held[i])
    && (m.job.Compacting? ==> forall i :: 0 <= i < |m.held| ==> m.job.open !! m.held[i])
  }

  ghost predicate RunningOk(d: Disk, m: Memory) {
    FilesOk(d, m) && LogsOk(d, m) && FlushOk(d, m) && JobOk(d, m) && HeldApart(m)
  }

  /** The current log is needed, so its entries and those of the earlier needed logs are what recovery reads. */
  lemma NeededLogs(d: Disk, m: Memory)
    requires LogsOk(d, m)
    ensures LogEntries(d.logs, Needed(d)) == m.mem + Unflushed(m)
  {
    assert Needed(d) == {m.logFile} + (Needed(d) - {m.logFile});
    LogsUnion(d.logs, {m.logFile}, Needed(d) - {m.logFile});
    OneLog(d.logs, m.logFile);
  }

  /** What recovery would rebuild is what the memtables and the tables of the current version hold; while a compaction
      is recorded and not yet installed, it is that with the compaction's outputs in place of its inputs. */
  lemma RebuildsMemory(d: Disk, m: Memory)
    requires RunningOk(d, m)
    ensures !m.job.Committed? ==>
              Rebuilt(d) == m.mem + (if m.imm.Some? then m.imm.value else {}) + TableEntries(d.tables, m.current)
    ensures m.job.Committed? ==>
              Rebuilt(d) == m.mem + (if m.imm.Some? then m.imm.value else {})
                            + TableEntries(d.tables, m.current - m.job.inputs + m.job.outputs)
  {
    NeededLogs(d, m);
    if m.flush.Saved? {
      TablesUnion(d.tables, m.current, m.flush.added);
    }
  }

  ghost predicate Good(s: State) {
    s.phase.Running? ==> RunningOk(s.disk, s.phase.m)
  }

  lemma WriteKeeps(s: State, s': State, batch: seq<Store.Op>, sync: bool)
    requires Good(s) && WriteStep(s, s', batch, sync)
    ensures Good(s')
  {
    var m, m' := s.phase.m, s'.phase.m;
    var rest := Needed(s.disk) - {m.logFile};
    assert Needed(s'.disk) == Needed(s.disk);
    OtherLog(s.disk.logs, m.logFile, s'.disk.logs[m.logFile], rest);
    var es := Store.BatchEntries(batch, m.lastSequence + 1);
    RecordsConcat(s.disk.logs[m.logFile].records, [es]);
    OneRecord(es);
  }

  lemma SwitchKeeps(s: State, s': State)
    requires Good(s) && SwitchStep(s, s')
    ensures Good(s')
  {
    var m, m' := s.phase.m, s'.phase.m;
    assert m.nextFile !in s.disk.logs;
    assert Needed(s'.disk) == Needed(s.disk) + {m.nextFile};
    assert Needed(s'.disk) - {m.nextFile} == Needed(s.disk);
    OtherLog(s.disk.logs, m.nextFile, NEW_LOG, Needed(s.disk));
    NeededLogs(s.disk, m);
  }

  lemma HoldKeeps(s: State, s': State)
    requires Good(s) && HoldStep(s, s')
    ensures Good(s')
  {
  }

  lemma ReleaseKeeps(s: State, s': State, i: nat)
    requires Good(s) && ReleaseStep(s, s', i)
    ensures Good(s')
  {
  }

  lemma FlushKeeps(s: State, s': State)
    requires Good(s) && FlushStep(s, s')
    ensures Good(s')
  {
  }

  lemma BuildKeeps(s: State, s': State)
    requires Good(s) && BuildStep(s, s')
    ensures Good(s')
  {
    var m := s.phase.m;
    var n := m.flush.number;
    if m.imm.value == {} {
      assert TableEntries(s.disk.tables, {}) == {};
    } else {
      OneTable(s'.disk.tables, n);
      OtherTable(s.disk.tables, n, m.imm.value, s.disk.version);
    }
  }

  lemma LogFlushKeeps(s: State, s': State)
    requires Good(s) && LogFlushStep(s, s')
    ensures Good(s')
  {
    var m := s.phase.m;
    assert Needed(s'.disk) == {m.logFile};
    assert Needed(s'.disk) - {m.logFile} == {};
    assert LogEntries(s.disk.logs, {}) == {};
  }

  lemma InstallFlushKeeps(s: State, s': State)
    requires Good(s) && InstallFlushStep(s, s')
    ensures Good(s')
  {
  }

  lemma StartJobKeeps(s: State, s': State, inputs: set<nat>, horizon: SequenceNumber)
    requires Good(s) && StartJobStep(s, s', inputs, horizon)
    ensures Good(s')
  {
  }

  lemma OpenOutputKeeps(s: State, s': State)
    requires Good(s) && OpenOutputStep(s, s')
    ensures Good(s')
  {
  }

  lemma FinishOutputKeeps(s: State, s': State, n: nat, es: set<Entry>)
    requires Good(s) && FinishOutputStep(s, s', n, es)
    ensures Good(s')
  {
    OtherTable(s.disk.tables, n, es, s.disk.version);
  }

  lemma LogJobKeeps(s: State, s': State, base: UserKey -> bool)
    requires Good(s) && LogJobStep(s, s', base)
    ensures Good(s')
  {
    assert Needed(s'.disk) == Needed(s.disk);
  }

  lemma InstallJobKeeps(s: State, s': State)
    requires Good(s) && InstallJobStep(s, s')
    ensures Good(s')
  {
  }

  lemma AbandonJobKeeps(s: State, s': State)
    requires Good(s) && AbandonJobStep(s, s')
    ensures Good(s')
  {
  }

  lemma LogMoveKeeps(s: State, s': State)
    requires Good(s) && LogMoveStep(s, s')
    ensures Good(s')
  {
    assert Needed(s'.disk) == Needed(s.disk);
  }

  /** What is left: the logs from the current number on, and the tables of versions in use and of unfinished work. */
  lemma CleanedUp(d: Disk, m: Memory)
    ensures var d' := Cleaned(d, Live(m), m.logNumber);
            && (forall n :: n in d'.logs <==> n in d.logs && (n >= m.logNumber || n == 0))
            && (forall n :: n in d'.tables <==>
                  n in d.tables && (n in m.pending || n in m.current || exists v :: v in m.held && n in v))
            && (forall n :: n in d'.logs ==> d'.logs[n] == d.logs[n])
            && (forall n :: n in d'.tables ==> d'.tables[n] == d.tables[n])
  {
  }

  /** Cleaning up deletes no file that recovery, the current version, a held version or unfinished work needs. */
  lemma DeleteKeeps(s: State, s': State)
    requires Good(s) && DeleteStep(s, s')
    ensures Good(s')
    ensures Rebuilt(s'.disk) == Rebuilt(s.disk)
    ensures var m := s.phase.m;
            && (forall n :: n in s'.disk.logs <==> n in s.disk.logs && (n >= m.logNumber || n == 0))
            && (forall n :: n in s'.disk.tables <==>
                  n in s.disk.tables && (n in m.pending || n in m.current || exists v :: v in m.held && n in v))
            && (forall n :: n in s'.disk.logs ==> s'.disk.logs[n] == s.disk.logs[n])
            && (forall n :: n in s'.disk.tables ==> s'.disk.tables[n] == s.disk.tables[n])
  {
    CleanedUp(s.disk, s.phase.m);
    var m := s.phase.m;
    assert s.disk.version <= Live(m) && m.current <= Live(m);
    forall i | 0 <= i < |m.held| ensures m.held[i] <= Live(m) {
      assert m.held[i] in m.held;
    }
    KeptTables(s.disk.tables, s'.disk.tables, s.disk.version);
    assert Needed(s'.disk) == Needed(s.disk);
    KeptLogs(s.disk.logs, s'.disk.logs, Needed(s.disk));
    KeptLogs(s.disk.logs, s'.disk.logs, Needed(s.disk) - {m.logFile});
  }

  // ----- crashes and recovery -----

  ghost predicate CrashStep(s: State, s': State) {
    s' == s.(phase := Down)
  }

  /** What a crash of the machine may do: the end of any log is lost, as far as it was not synced. */
  ghost predicate LoseTailStep(s: State, s': State, n: nat, k: nat) {
    && s.phase.Down? && n in s.disk.logs && s.disk.logs[n].synced <= k <= |s.disk.logs[n].records|
    && var log := s.disk.logs[n];
       s' == s.(disk := s.disk.(logs := s.disk.logs[n := log.(records := log.records[..k])]),
                expected := if n in Needed(s.disk) then s.expected - Records(log.records[k..]) else s.expected)
  }

  ghost predicate Rising(todo: seq<nat>) {
    forall i, j :: 0 <= i < j < |todo| ==> todo[i] < todo[j]
  }

  /** DBImpl::Recover: every table of the manifest's version must be there; the needed logs are read in order.  A new
      manifest is started, or not, if the old one is reused. */
  ghost predicate OpenStep(s: State, s': State, todo: seq<nat>, save: bool) {
    && s.phase.Down? && s.disk.version <= s.disk.tables.Keys
    && Rising(todo) && ToSet(todo) == Needed(s.disk)
    && s' == s.(phase := Open(Opening(todo, 0, {}, {}, s.disk.nextFile + 1, false, None, s.disk.lastSequence, save)))
  }

  /** The greatest of a sequence number and those of some entries. */
  ghost predicate GreatestOf(last: SequenceNumber, before: SequenceNumber, es: set<Entry>) {
    && before <= last && (forall e :: e in es ==> e.key.sequence <= last)
    && (last == before || exists e :: e in es && e.key.sequence == last)
  }

  /** RecoverLogFile reads some more records of the log into a memtable. */
  ghost predicate ReadStep(s: State, s': State, pos: nat, last: SequenceNumber) {
    && s.phase.Open? && s.phase.r.todo != [] && s.phase.r.todo[0] in s.disk.logs
    && s.phase.r.pos <= pos <= |s.disk.logs[s.phase.r.todo[0]].records|
    && var r := s.phase.r;
       var more := Records(s.disk.logs[r.todo[0]].records[r.pos..pos]);
       && GreatestOf(last, r.lastSequence, more)
       && s' == s.(phase := Open(r.(pos := pos, table := r.table + more, lastSequence := last)))
  }

  /** ... and writes it out as a table, if there is anything to write. */
  ghost predicate SpillStep(s: State, s': State) {
    && s.phase.Open? && s.phase.r.todo != []
    && var r := s.phase.r;
       if r.table == {} then
         s' == s.(phase := Open(r.(nextFile := r.nextFile + 1, spilled := true, save := true)))
       else
         s' == s.(disk := s.disk.(tables := s.disk.tables[r.nextFile := r.table]),
                  phase := Open(r.(table := {}, added := r.added + {r.nextFile}, nextFile := r.nextFile + 1,
                                   spilled := true,
                                   save := true)))
  }

  /** The log is read, and the memtable written out: MarkFileNumberUsed, and on to the next log. */
  ghost predicate NextLogStep(s: State, s': State) {
    && s.phase.Open? && s.phase.r.todo != [] && s.phase.r.table == {} && s.phase.r.todo[0] in s.disk.logs
    && s.phase.r.pos == |s.disk.logs[s.phase.r.todo[0]].records|
    && var r := s.phase.r;
       s' == s.(phase := Open(r.(todo := r.todo[1..], pos := 0, spilled := false,
                                 nextFile := if r.nextFile <= r.todo[0] then r.todo[0] + 1 else r.nextFile)))
  }

  /** The last log is read, and nothing of it was written out: go on with that log and the memtable read from it. */
  ghost predicate ReuseStep(s: State, s': State) {
    && s.phase.Open? && |s.phase.r.todo| == 1 && !s.phase.r.spilled && s.phase.r.todo[0] in s.disk.logs
    && s.phase.r.pos == |s.disk.logs[s.phase.r.todo[0]].records|
    && var r := s.phase.r;
       s' == s.(phase := Open(r.(todo := [], reuse := Some(r.todo[0]),
                                 nextFile := if r.nextFile <= r.todo[0] then r.todo[0] + 1 else r.nextFile)))
  }

  /** DB::Open: a new log unless one is reused, and, if there is something to save, a manifest record that adds the new
      tables and names the log. */
  ghost predicate CommitStep(s: State, s': State) {
    && s.phase.Open? && s.phase.r.todo == []
    && var r := s.phase.r;
       var logFile := if r.reuse.Some? then r.reuse.value else r.nextFile;
       var nextFile := if r.reuse.Some? then r.nextFile else r.nextFile + 1;
       var d := s.disk.(logs := if r.reuse.Some? then s.disk.logs else s.disk.logs[r.nextFile := NEW_LOG]);
       var d' := if r.save then d.(version := d.version + r.added, logNumber := logFile, nextFile := nextFile,
                                   lastSequence := r.lastSequence)
                 else d;
       s' == s.(disk := d', phase := Running(Memory(r.table, None, logFile, d'.logNumber, d'.version, [], {}, nextFile,
                                                    r.lastSequence, NoFlush, NoJob)))
  }

  /** What holds of the files at all times. */
  ghost predicate DiskOk(d: Disk) {
    && d.version <= d.tables.Keys && BelowNext(d.version, d.nextFile) && d.logNumber < d.nextFile
  }

  /** What is read so far is in the new tables and the memtable; of a log that nothing was written out from, in the
      memtable alone. */
  ghost predicate ReadOk(d: Disk, r: Opening)
    requires r.todo != [] ==> r.todo[0] in d.logs && r.pos <= |d.logs[r.todo[0]].records|
  {
    var done := LogEntries(d.logs, Needed(d) - ToSet(r.todo) - (if r.reuse.Some? then {r.reuse.value} else {}));
    if r.todo == [] then
      && TableEntries(d.tables, r.added) == done
      && r.table == if r.reuse.Some? then LogEntries(d.logs, {r.reuse.value}) else {}
    else
      && r.reuse == None
      && TableEntries(d.tables, r.added) + r.table == done + Records(d.logs[r.todo[0]].records[..r.pos])
      && (!r.spilled ==>
            && TableEntries(d.tables, r.added) == done
            && r.table == Records(d.logs[r.todo[0]].records[..r.pos]))
  }

  ghost predicate NumbersOk(d: Disk, r: Opening) {
    && d.nextFile < r.nextFile && r.added <= d.tables.Keys && (!r.save ==> r.added == {} && !r.spilled)
    && (forall f :: f in r.added ==> d.nextFile < f < r.nextFile)
    && Rising(r.todo) && ToSet(r.todo) <= Needed(d)
    && (forall n :: n in d.logs && n !in ToSet(r.todo) ==> n < r.nextFile)
    && (r.reuse.Some? ==> r.todo == [] && r.reuse.value in Needed(d) && forall n :: n in d.logs ==> n <= r.reuse.value)
    && (r.todo != [] ==>
          && r.todo[0] in d.logs && r.pos <= |d.logs[r.todo[0]].records|
          && forall n :: n in d.logs && n !in ToSet(r.todo) ==> n < r.todo[0])
  }

  ghost predicate OpenOk(d: Disk, r: Opening) {
    DiskOk(d) && NumbersOk(d, r) && ReadOk(d, r)
  }

  ghost predicate Inv(s: State) {
    && DiskOk(s.disk)
    && match s.phase
       case Down => true
       case Open(r) => OpenOk(s.disk, r)
       case Running(m) => RunningOk(s.disk, m)
  }

  lemma OpenKeeps(s: State, s': State, todo: seq<nat>, save: bool)
    requires Inv(s) && OpenStep(s, s', todo, save)
    ensures Inv(s')
  {
    assert Needed(s.disk) - ToSet(todo) - {} == {};
    assert LogEntries(s.disk.logs, {}) == {} && TableEntries(s.disk.tables, {}) == {};
    if todo != [] {
      assert todo[0] in ToSet(todo);
      assert Records(s.disk.logs[todo[0]].records[..0]) == {};
    }
  }

  lemma ReadKeeps(s: State, s': State, pos: nat, last: SequenceNumber)
    requires Inv(s) && ReadStep(s, s', pos, last)
    ensures Inv(s')
  {
    var r := s.phase.r;
    var log := s.disk.logs[r.todo[0]].records;
    assert log[..pos] == log[..r.pos] + log[r.pos..pos];
    RecordsConcat(log[..r.pos], log[r.pos..pos]);
  }

  lemma SpillKeeps(s: State, s': State)
    requires Inv(s) && SpillStep(s, s')
    ensures Inv(s')
  {
    var r := s.phase.r;
    if r.table != {} {
      OtherTable(s.disk.tables, r.nextFile, r.table, r.added);
      OneTable(s'.disk.tables, r.nextFile);
      TablesUnion(s'.disk.tables, r.added, {r.nextFile});
      assert Needed(s'.disk) == Needed(s.disk);
    }
  }

  lemma FirstTodo(todo: seq<nat>)
    requires todo != [] && Rising(todo)
    ensures ToSet(todo[1..]) == ToSet(todo) - {todo[0]}
    ensures forall n :: n in ToSet(todo[1..]) ==> todo[0] < n
    ensures todo[0] in ToSet(todo)
  {
    forall n | n in todo && n != todo[0] ensures n in todo[1..] {
      var i :| 0 <= i < |todo| && todo[i] == n;
      assert todo[1..][i - 1] == n;
    }
  }

  /** The logs that are done, once one more is. */
  lemma DoneMore(logs: map<nat, LogFile>, needed: set<nat>, todo: seq<nat>)
    requires todo != [] && Rising(todo) && ToSet(todo) <= needed && todo[0] in logs
    ensures LogEntries(logs, needed - ToSet(todo[1..]))
            == LogEntries(logs, needed - ToSet(todo)) + Logged(logs[todo[0]])
  {
    FirstTodo(todo);
    assert needed - ToSet(todo[1..]) == needed - ToSet(todo) + {todo[0]};
    LogsUnion(logs, needed - ToSet(todo), {todo[0]});
    OneLog(logs, todo[0]);
  }

  lemma NextLogKeeps(s: State, s': State)
    requires Inv(s) && NextLogStep(s, s')
    ensures Inv(s')
  {
    var r := s.phase.r;
    var log := s.disk.logs[r.todo[0]].records;
    FirstTodo(r.todo);
    DoneMore(s.disk.logs, Needed(s.disk), r.todo);
    assert log[..r.pos] == log;
    var r' := s'.phase.r;
    assert Needed(s.disk) - ToSet(r.todo) - {} == Needed(s.disk) - ToSet(r.todo);
    assert Needed(s.disk) - ToSet(r'.todo) - {} == Needed(s.disk) - ToSet(r'.todo);
    if r'.todo != [] {
      assert r'.todo[0] in ToSet(r'.todo);
      assert s.disk.logs[r'.todo[0]].records[..0] == [];
    }
  }

  lemma ReuseKeeps(s: State, s': State)
    requires Inv(s) && ReuseStep(s, s')
    ensures Inv(s')
  {
    var r := s.phase.r;
    var l := r.todo[0];
    var log := s.disk.logs[l].records;
    assert ToSet(r.todo) == {l};
    assert log[..r.pos] == log;
    OneLog(s.disk.logs, l);
    assert ToSet<nat>([]) == {};
    assert Needed(s.disk) - ToSet(r.todo) - {} == Needed(s.disk) - {} - {l};
  }

  lemma NothingRead(d: Disk, r: Opening)
    requires r.todo == [] && r.added == {} && ReadOk(d, r)
    ensures LogEntries(d.logs, Needed(d) - (if r.reuse.Some? then {r.reuse.value} else {})) == {}
  {
    assert ToSet<nat>([]) == {};
    assert TableEntries(d.tables, {}) == {};
    assert Needed(d) - {} == Needed(d);
  }

  lemma CommitNewLog(s: State, s': State)
    requires Inv(s) && CommitStep(s, s') && s.phase.r.reuse == None
    ensures Inv(s')
  {
    var r := s.phase.r;
    var d, d' := s.disk, s'.disk;
    assert r.nextFile !in d.logs && Logged(NEW_LOG) == {};
    if r.save {
      assert Needed(d') - {r.nextFile} == {};
      assert LogEntries(d'.logs, {}) == {};
    } else {
      NothingRead(d, r);
      assert Needed(d) - {} == Needed(d);
      assert Needed(d') - {r.nextFile} == Needed(d);
      OtherLog(d.logs, r.nextFile, NEW_LOG, Needed(d));
    }
  }

  lemma CommitReused(s: State, s': State)
    requires Inv(s) && CommitStep(s, s') && s.phase.r.reuse.Some?
    ensures Inv(s')
  {
    var r := s.phase.r;
    var d, d', l := s.disk, s'.disk, s.phase.r.reuse.value;
    OneLog(d.logs, l);
    if r.save {
      assert Needed(d') - {l} == {};
      assert LogEntries(d'.logs, {}) == {};
    } else {
      NothingRead(d, r);
    }
  }

  // ----- every step, every run -----

  datatype Label =
    | Write(batch: seq<Store.Op>, sync: bool) | Switch | Hold | Release(i: nat)
    | StartFlush | Build | LogFlush | InstallFlush
    | StartJob(inputs: set<nat>, smallest: SequenceNumber) | OpenOutput | FinishOutput(n: nat, contents: set<Entry>)
    | LogJob(base: UserKey -> bool) | InstallJob | AbandonJob | LogMove
    | Delete | Crash | LoseTail(log: nat, k: nat)
    | BeginOpen(todo: seq<nat>, save: bool) | ReadLog(pos: nat, last: SequenceNumber) | Spill | NextLog | Reuse | Commit

  ghost predicate Step(s: State, s': State, step: Label) {
    match step
    case Write(batch, sync) => WriteStep(s, s', batch, sync)
    case Switch => SwitchStep(s, s')
    case Hold => HoldStep(s, s')
    case Release(i) => ReleaseStep(s, s', i)
    case StartFlush => FlushStep(s, s')
    case Build => BuildStep(s, s')
    case LogFlush => LogFlushStep(s, s')
    case InstallFlush => InstallFlushStep(s, s')
    case StartJob(inputs, smallest) => StartJobStep(s, s', inputs, smallest)
    case OpenOutput => OpenOutputStep(s, s')
    case FinishOutput(n, es) => FinishOutputStep(s, s', n, es)
    case LogJob(base) => LogJobStep(s, s', base)
    case InstallJob => InstallJobStep(s, s')
    case AbandonJob => AbandonJobStep(s, s')
    case LogMove => LogMoveStep(s, s')
    case Delete => DeleteStep(s, s')
    case Crash => CrashStep(s, s')
    case LoseTail(n, k) => LoseTailStep(s, s', n, k)
    case BeginOpen(todo, save) => OpenStep(s, s', todo, save)
    case ReadLog(pos, last) => ReadStep(s, s', pos, last)
    case Spill => SpillStep(s, s')
    case NextLog => NextLogStep(s, s')
    case Reuse => ReuseStep(s, s')
    case Commit => CommitStep(s, s')
  }

  lemma RunningStepKeeps(s: State, s': State, step: Label)
    requires Good(s) && s.phase.Running? && Step(s, s', step) && !step.Crash?
    ensures Good(s') && s'.phase.Running?
  {
    hide RunningOk;
    match step {
      case Write(batch, sync) => WriteKeeps(s, s', batch, sync);
      case Switch => SwitchKeeps(s, s');
      case Hold => HoldKeeps(s, s');
      case Release(i) => ReleaseKeeps(s, s', i);
      case StartFlush => FlushKeeps(s, s');
      case Build => BuildKeeps(s, s');
      case LogFlush => LogFlushKeeps(s, s');
      case InstallFlush => InstallFlushKeeps(s, s');
      case StartJob(inputs, smallest) => StartJobKeeps(s, s', inputs, smallest);
      case OpenOutput => OpenOutputKeeps(s, s');
      case FinishOutput(n, es) => FinishOutputKeeps(s, s', n, es);
      case LogJob(base) => LogJobKeeps(s, s', base);
      case InstallJob => InstallJobKeeps(s, s');
      case AbandonJob => AbandonJobKeeps(s, s');
      case LogMove => LogMoveKeeps(s, s');
      case Delete => DeleteKeeps(s, s');
      case _ =>
    }
  }

  lemma LoseTailKeeps(s: State, s': State, n: nat, k: nat)
    requires Inv(s) && LoseTailStep(s, s', n, k)
    ensures Inv(s')
  {
  }

  lemma RunningDisk(d: Disk, m: Memory)
    requires RunningOk(d, m)
    ensures DiskOk(d)
  {
  }

  lemma StepKeepsInv(s: State, s': State, step: Label)
    requires Inv(s) && Step(s, s', step)
    ensures Inv(s')
  {
    hide RunningOk, OpenOk, DiskOk;
    if s.phase.Running? && !step.Crash? {
      RunningStepKeeps(s, s', step);
      RunningDisk(s'.disk, s'.phase.m);
    } else {
      match step {
        case LoseTail(n, k) => LoseTailKeeps(s, s', n, k);
        case BeginOpen(todo, save) => OpenKeeps(s, s', todo, save);
        case ReadLog(pos, last) => ReadKeeps(s, s', pos, last);
        case Spill => SpillKeeps(s, s');
        case NextLog => NextLogKeeps(s, s');
        case Reuse => ReuseKeeps(s, s');
        case Commit => if s.phase.r.reuse.Some? { CommitReused(s, s'); } else { CommitNewLog(s, s'); }
        case _ =>
      }
    }
  }

  /** A new database: NewDB has written a manifest with no files. */
  ghost function Init(): State {
    State(Disk(map[], map[], {}, 0, 2, 0), Down, {}, {}, 0)
  }

  ghost predicate IsRun(states: seq<State>, steps: seq<Label>) {
    && |states| == |steps| + 1 && states[0] == Init()
    && forall i :: 0 <= i < |steps| ==> Step(states[i], states[i + 1], steps[i])
  }

  /** In every run, crashes at any moment included, the files stay in step with what is in memory. */
  lemma {:induction false} RunKeepsInv(states: seq<State>, steps: seq<Label>, n: nat)
    requires IsRun(states, steps) && n < |states|
    ensures Inv(states[n])
  {
    if n == 0 {
    } else {
      RunKeepsInv(states, steps, n - 1);
      assert Step(states[n - 1], states[n - 1 + 1], steps[n - 1]);
      StepKeepsInv(states[n - 1], states[n], steps[n - 1]);
    }
  }

  /** A recovery never finds a table missing, and always has a way to order the logs it needs. */
  lemma RecoveryCanBegin(s: State) returns (todo: seq<nat>)
    requires Inv(s) && s.phase.Down?
    ensures s.disk.version <= s.disk.tables.Keys && Rising(todo) && ToSet(todo) == Needed(s.disk)
  {
    todo := InRisingOrder(Needed(s.disk));
  }

  lemma {:induction false} InRisingOrder(ns: set<nat>) returns (s: seq<nat>)
    ensures Rising(s) && ToSet(s) == ns
    decreases ns
  {
    s := [];
    if ns != {} {
      var max := Greatest(ns);
      var front := InRisingOrder(ns - {max});
      ToSetConcat(front, [max]);
      s := front + [max];
      forall i | 0 <= i < |front| ensures front[i] < max {
        assert front[i] in ToSet(front);
      }
    }
  }

  lemma {:induction false} Greatest(ns: set<nat>) returns (max: nat)
    requires ns != {}
    ensures max in ns && forall n :: n in ns ==> n <= max
    decreases ns
  {
    var some :| some in ns;
    max := some;
    if ns != {some} {
      var m := Greatest(ns - {some});
      max := if m > some then m else some;
    }
    assert forall n :: n in ns ==> n == some || n in ns - {some};
  }
}
