/**
 What survives.  Only writes add to what the database should hold, and only the unsynced end of a log is ever lost; what
 the files rebuild reads as that, at every snapshot a compaction has not given up, through crashes at any moment.
*/
module Durability {
  import opened Format
  import opened Reads
  import opened DropRule
  import opened Recovery
  import Store
  import Runs

  /** What recovery reads: the needed logs, the tables of the version, and the recorded last sequence number. */
  datatype View = View(logs: map<nat, LogFile>, tables: map<nat, set<Entry>>, last: SequenceNumber)

  ghost function ViewOf(d: Disk): View {
    View(map n | n in d.logs && n >= d.logNumber :: d.logs[n], map f | f in d.tables && f in d.version :: d.tables[f],
         d.lastSequence)
  }

  ghost function InLogs(logs: map<nat, LogFile>): set<Entry> {
    set n, e | n in logs && e in Logged(logs[n]) :: e
  }

  ghost function InTables(tables: map<nat, set<Entry>>): set<Entry> {
    set f, e | f in tables && e in tables[f] :: e
  }

  /** All that is expected and is not in a needed log. */
  ghost function Settled(v: View, expected: set<Entry>): set<Entry> {
    expected - InLogs(v.logs)
  }

  /** Every entry of `a` was written before every entry of `b`. */
  ghost predicate Earlier(a: set<Entry>, b: set<Entry>) {
    forall x, y :: x in a && y in b ==> x.key.sequence < y.key.sequence
  }

  ghost predicate UpTo(es: set<Entry>, last: SequenceNumber) {
    forall e :: e in es ==> e.key.sequence <= last
  }

  ghost predicate InOrder(records: seq<set<Entry>>) {
    forall i, j :: 0 <= i < j < |records| ==> Earlier(records[i], records[j])
  }

  ghost predicate LogsInOrder(logs: map<nat, LogFile>) {
    && (forall n :: n in logs ==> InOrder(logs[n].records) && logs[n].synced <= |logs[n].records|)
    && (forall m, n :: m in logs && n in logs && m < n ==> Earlier(Logged(logs[m]), Logged(logs[n])))
  }

  ghost predicate TablesApart(tables: map<nat, set<Entry>>) {
    forall f, g :: f in tables && g in tables && f != g ==> tables[f] !! tables[g]
  }

  /** What is on disk and what is expected: the logs hold the latest of it, in order, and the tables hold only what is
      older, no entry twice. */
  ghost predicate Sound(v: View, expected: set<Entry>) {
    && Unique(expected) && InLogs(v.logs) <= expected && InTables(v.tables) <= Settled(v, expected)
    && Earlier(Settled(v, expected), InLogs(v.logs)) && UpTo(Settled(v, expected), v.last)
    && LogsInOrder(v.logs) && TablesApart(v.tables)
  }

  /** The tables read what went into them, at every snapshot from the horizon on. */
  ghost predicate TablesRead(v: View, expected: set<Entry>, horizon: SequenceNumber) {
    forall user: UserKey, q: nat :: q >= horizon ==>
      Read(InTables(v.tables), user, q) == Read(Settled(v, expected), user, q)
  }

  ghost function SyncedRecords(logs: map<nat, LogFile>): set<Entry> {
    set n, i, e | n in logs && 0 <= i < |logs[n].records| && i < logs[n].synced && e in logs[n].records[i] :: e
  }

  /** What was synced is settled or in the synced part of a log. */
  ghost predicate PromiseKept(v: View, expected: set<Entry>, promised: set<Entry>) {
    promised <= Settled(v, expected) + SyncedRecords(v.logs)
  }

  // ----- logs -----

  lemma LogsSplit(logs: map<nat, LogFile>, gone: set<nat>)
    ensures InLogs(logs) == InLogs(logs - gone) + LogEntries(logs, gone)
  {
    forall e | e in InLogs(logs) ensures e in InLogs(logs - gone) + LogEntries(logs, gone) {
      var n :| n in logs && e in Logged(logs[n]);
      if n !in gone {
        assert (logs - gone)[n] == logs[n];
      }
    }
    forall e | e in InLogs(logs - gone) ensures e in InLogs(logs) {
      var n :| n in logs - gone && e in Logged((logs - gone)[n]);
    }
  }

  lemma OneIn(logs: map<nat, LogFile>, n: nat)
    requires n in logs
    ensures InLogs(logs) == InLogs(logs - {n}) + Logged(logs[n])
  {
    LogsSplit(logs, {n});
    OneLog(logs, n);
  }

  /** Changing one log. */
  lemma ChangedLog(logs: map<nat, LogFile>, n: nat, log: LogFile)
    ensures InLogs(logs[n := log]) == InLogs(logs - {n}) + Logged(log)
  {
    OneIn(logs[n := log], n);
    assert logs[n := log] - {n} == logs - {n};
  }

  lemma SyncedChanged(logs: map<nat, LogFile>, n: nat, log: LogFile, e: Entry)
    requires e in SyncedRecords(logs)
    requires n in logs ==> logs[n].synced <= log.synced
    requires n in logs ==> forall i :: 0 <= i < |logs[n].records| && i < logs[n].synced ==>
                             i < |log.records| && log.records[i] == logs[n].records[i]
    ensures e in SyncedRecords(logs[n := log])
  {
    var m, i :| m in logs && 0 <= i < |logs[m].records| && i < logs[m].synced && e in logs[m].records[i];
    var logs' := logs[n := log];
    assert m in logs' && 0 <= i < |logs'[m].records| && i < logs'[m].synced && e in logs'[m].records[i];
  }

  // ----- a write -----

  ghost predicate After(es: set<Entry>, last: nat) {
    forall e :: e in es ==> e.key.sequence > last
  }

  lemma AppendedLog(log: LogFile, es: set<Entry>, sync: bool)
    ensures Logged(Appended(log, es, sync)) == Logged(log) + es
  {
    RecordsConcat(log.records, [es]);
    OneRecord(es);
  }

  lemma AppendOrder(log: LogFile, es: set<Entry>, sync: bool, last: SequenceNumber)
    requires InOrder(log.records) && UpTo(Logged(log), last) && After(es, last)
    ensures InOrder(Appended(log, es, sync).records)
  {
    var records := log.records + [es];
    forall i, j | 0 <= i < j < |records| ensures Earlier(records[i], records[j]) {
      if j == |log.records| {
        assert records[i] == log.records[i];
        assert forall x :: x in log.records[i] ==> x in Logged(log);
      }
    }
  }

  lemma AppendLogsOrder(logs: map<nat, LogFile>, n: nat, es: set<Entry>, sync: bool, last: SequenceNumber)
    requires LogsInOrder(logs) && n in logs && (forall m :: m in logs ==> m <= n)
    requires UpTo(InLogs(logs), last) && After(es, last)
    ensures LogsInOrder(logs[n := Appended(logs[n], es, sync)])
  {
    hide InOrder, Logged, Earlier;
    var logs' := logs[n := Appended(logs[n], es, sync)];
    AppendedLog(logs[n], es, sync);
    OneIn(logs, n);
    AppendOrder(logs[n], es, sync, last);
    forall m, k | m in logs' && k in logs' && m < k ensures Earlier(Logged(logs'[m]), Logged(logs'[k])) {
      assert Earlier(Logged(logs[m]), Logged(logs[k]));
      if k == n {
        OneIn(logs, m);
        EarlierMore(Logged(logs[m]), Logged(logs[n]), es, last);
      }
    }
  }

  lemma EarlierMore(a: set<Entry>, b: set<Entry>, es: set<Entry>, last: SequenceNumber)
    requires Earlier(a, b) && UpTo(a, last) && After(es, last)
    ensures Earlier(a, b + es)
  {
  }

  ghost function WithRecord(v: View, n: nat, es: set<Entry>, sync: bool): View
    requires n in v.logs
  {
    v.(logs := v.logs[n := Appended(v.logs[n], es, sync)])
  }

  lemma AppendContents(v: View, expected: set<Entry>, n: nat, es: set<Entry>, sync: bool)
    requires n in v.logs && InLogs(v.logs) <= expected && es !! expected
    ensures InLogs(WithRecord(v, n, es, sync).logs) == InLogs(v.logs) + es
    ensures Settled(WithRecord(v, n, es, sync), expected + es) == Settled(v, expected)
  {
    OneIn(v.logs, n);
    AppendedLog(v.logs[n], es, sync);
    ChangedLog(v.logs, n, Appended(v.logs[n], es, sync));
    assert InLogs(WithRecord(v, n, es, sync).logs) == InLogs(v.logs) + es;
  }

  lemma AppendSound(v: View, expected: set<Entry>, n: nat, es: set<Entry>, sync: bool, last: SequenceNumber)
    requires Sound(v, expected) && n in v.logs && (forall m :: m in v.logs ==> m <= n)
    requires UpTo(expected, last) && After(es, last) && Unique(es)
    ensures es !! expected && Sound(WithRecord(v, n, es, sync), expected + es)
  {
    AppendContents(v, expected, n, es, sync);
    AppendLogsOrder(v.logs, n, es, sync, last);
    hide LogsInOrder, TablesApart, InLogs, InTables;
  }

  lemma AppendPromise(v: View, expected: set<Entry>, promised: set<Entry>, n: nat, es: set<Entry>, sync: bool)
    requires PromiseKept(v, expected, promised) && LogsInOrder(v.logs)
    requires n in v.logs && InLogs(v.logs) <= expected && es !! expected
    ensures var v' := WithRecord(v, n, es, sync);
            PromiseKept(v', expected + es, if sync then promised + Logged(v'.logs[n]) else promised)
  {
    AppendContents(v, expected, n, es, sync);
    var log := Appended(v.logs[n], es, sync);
    var logs' := v.logs[n := log];
    forall e | e in SyncedRecords(v.logs) ensures e in SyncedRecords(logs') {
      SyncedChanged(v.logs, n, log, e);
    }
    if sync {
      forall e | e in Logged(log) ensures e in SyncedRecords(logs') {
        var i :| 0 <= i < |log.records| && e in log.records[i];
        assert n in logs' && 0 <= i < |logs'[n].records| && i < logs'[n].synced && e in logs'[n].records[i];
      }
    }
  }

  // ----- a new log -----

  lemma NewLogKeeps(v: View, expected: set<Entry>, promised: set<Entry>, n: nat)
    requires Sound(v, expected) && PromiseKept(v, expected, promised) && n !in v.logs
    ensures var v' := v.(logs := v.logs[n := NEW_LOG]);
            && InLogs(v'.logs) == InLogs(v.logs) && Sound(v', expected) && PromiseKept(v', expected, promised)
  {
    var logs' := v.logs[n := NEW_LOG];
    assert Logged(NEW_LOG) == {};
    assert v.logs - {n} == v.logs;
    ChangedLog(v.logs, n, NEW_LOG);
    assert InLogs(logs') == InLogs(v.logs);
    NewLogOrder(v.logs, n);
    forall e | e in SyncedRecords(v.logs) ensures e in SyncedRecords(logs') {
      SyncedChanged(v.logs, n, NEW_LOG, e);
    }
  }

  lemma NewLogOrder(logs: map<nat, LogFile>, n: nat)
    requires LogsInOrder(logs) && n !in logs
    ensures LogsInOrder(logs[n := NEW_LOG])
  {
    assert Logged(NEW_LOG) == {};
  }

  // ----- logs written out as tables -----

  /** Logs before the others are done with, and tables hold their entries instead. */
  ghost predicate Moves(v: View, gone: set<nat>, tables: map<nat, set<Entry>>, last: SequenceNumber) {
    && (forall m, n :: m in gone && m in v.logs && n in v.logs && n !in gone ==> m < n)
    && tables.Keys !! v.tables.Keys && TablesApart(tables) && InTables(tables) == LogEntries(v.logs, gone)
    && v.last <= last && UpTo(LogEntries(v.logs, gone), last)
  }

  ghost function Moved(v: View, gone: set<nat>, tables: map<nat, set<Entry>>, last: SequenceNumber): View {
    View(v.logs - gone, v.tables + tables, last)
  }

  lemma TablesJoin(a: map<nat, set<Entry>>, b: map<nat, set<Entry>>)
    requires a.Keys !! b.Keys
    ensures InTables(a + b) == InTables(a) + InTables(b)
  {
    forall e | e in InTables(a) + InTables(b) ensures e in InTables(a + b) {
      if f :| f in a && e in a[f] {
        assert f in a + b && (a + b)[f] == a[f];
      } else {
        var f :| f in b && e in b[f];
        assert f in a + b && (a + b)[f] == b[f];
      }
    }
    forall e | e in InTables(a + b) ensures e in InTables(a) + InTables(b) {
      var f :| f in a + b && e in (a + b)[f];
      if f in b {
        assert (a + b)[f] == b[f];
      } else {
        assert (a + b)[f] == a[f];
      }
    }
  }

  lemma ApartJoin(a: map<nat, set<Entry>>, b: map<nat, set<Entry>>)
    requires a.Keys !! b.Keys && TablesApart(a) && TablesApart(b) && InTables(a) !! InTables(b)
    ensures TablesApart(a + b)
  {
    var c := a + b;
    forall f, g | f in c && g in c && f != g ensures c[f] !! c[g] {
      assert f !in b ==> c[f] == a[f] && a[f] <= InTables(a);
      assert g !in b ==> c[g] == a[g] && a[g] <= InTables(a);
      assert f in b ==> c[f] == b[f] && b[f] <= InTables(b);
      assert g in b ==> c[g] == b[g] && b[g] <= InTables(b);
    }
  }

  lemma GoneEarlier(v: View, gone: set<nat>)
    requires LogsInOrder(v.logs)
    requires forall m, n :: m in gone && m in v.logs && n in v.logs && n !in gone ==> m < n
    ensures Earlier(LogEntries(v.logs, gone), InLogs(v.logs - gone))
  {
    forall x, y | x in LogEntries(v.logs, gone) && y in InLogs(v.logs - gone) ensures x.key.sequence < y.key.sequence {
      var m :| m in gone && m in v.logs && x in Logged(v.logs[m]);
      var n :| n in v.logs - gone && y in Logged((v.logs - gone)[n]);
      assert n in v.logs && n !in gone && (v.logs - gone)[n] == v.logs[n];
      assert Earlier(Logged(v.logs[m]), Logged(v.logs[n]));
    }
  }

  lemma MoveContents(v: View, expected: set<Entry>, gone: set<nat>, tables: map<nat, set<Entry>>, last: SequenceNumber)
    requires Sound(v, expected) && Moves(v, gone, tables, last)
    ensures var v' := Moved(v, gone, tables, last);
            && Settled(v', expected) == Settled(v, expected) + LogEntries(v.logs, gone)
            && InTables(v'.tables) == InTables(v.tables) + LogEntries(v.logs, gone)
            && Earlier(Settled(v, expected), LogEntries(v.logs, gone)) && LogEntries(v.logs, gone) !! InTables(v.tables)
            && Earlier(LogEntries(v.logs, gone), InLogs(v'.logs)) && InLogs(v'.logs) <= InLogs(v.logs)
  {
    LogsSplit(v.logs, gone);
    GoneEarlier(v, gone);
    TablesJoin(v.tables, tables);
  }

  lemma FewerLogs(logs: map<nat, LogFile>, gone: set<nat>)
    requires LogsInOrder(logs)
    ensures LogsInOrder(logs - gone)
  {
  }

  lemma MoveSound(v: View, expected: set<Entry>, gone: set<nat>, tables: map<nat, set<Entry>>, last: SequenceNumber)
    requires Sound(v, expected) && Moves(v, gone, tables, last)
    ensures Sound(Moved(v, gone, tables, last), expected)
  {
    MoveContents(v, expected, gone, tables, last);
    ApartJoin(v.tables, tables);
    FewerLogs(v.logs, gone);
    hide LogsInOrder, TablesApart, InLogs, InTables;
  }

  lemma MovePromise(v: View, expected: set<Entry>, promised: set<Entry>, gone: set<nat>, tables: map<nat, set<Entry>>,
                    last: SequenceNumber)
    requires Sound(v, expected) && Moves(v, gone, tables, last) && PromiseKept(v, expected, promised)
    ensures PromiseKept(Moved(v, gone, tables, last), expected, promised)
  {
    MoveContents(v, expected, gone, tables, last);
    var v' := Moved(v, gone, tables, last);
    forall e | e in promised ensures e in Settled(v', expected) + SyncedRecords(v'.logs) {
      if e in SyncedRecords(v.logs) {
        SyncedMoved(v.logs, gone, e);
      }
    }
  }

  lemma SyncedMoved(logs: map<nat, LogFile>, gone: set<nat>, e: Entry)
    requires e in SyncedRecords(logs)
    ensures e in SyncedRecords(logs - gone) || e in LogEntries(logs, gone)
  {
    var n, i :| n in logs && 0 <= i < |logs[n].records| && i < logs[n].synced && e in logs[n].records[i];
    if n in gone {
      assert e in Logged(logs[n]);
    } else {
      var logs' := logs - gone;
      assert n in logs' && 0 <= i < |logs'[n].records| && i < logs'[n].synced && e in logs'[n].records[i];
    }
  }

  lemma MoveReads(v: View, expected: set<Entry>, horizon: SequenceNumber, gone: set<nat>, tables: map<nat, set<Entry>>,
                  last: SequenceNumber)
    requires Sound(v, expected) && Moves(v, gone, tables, last) && TablesRead(v, expected, horizon)
    ensures TablesRead(Moved(v, gone, tables, last), expected, horizon)
  {
    MoveContents(v, expected, gone, tables, last);
    var held, settled, more := InTables(v.tables), Settled(v, expected), LogEntries(v.logs, gone);
    assert settled + more <= expected;
    hide Moves, Read, LogsInOrder, TablesApart;
    forall user: UserKey, q: nat | q >= horizon ensures Read(held + more, user, q) == Read(settled + more, user, q) {
      Runs.ReadAfterAdding(held, settled, more, user, q);
    }
  }

  // ----- a compaction -----

  lemma ReplacedTables(tables: map<nat, set<Entry>>, inputs: set<nat>)
    ensures InTables(tables) == InTables(tables - inputs) + TableEntries(tables, inputs)
  {
    forall e | e in InTables(tables) ensures e in InTables(tables - inputs) + TableEntries(tables, inputs) {
      var f :| f in tables && e in tables[f];
      if f !in inputs {
        assert (tables - inputs)[f] == tables[f];
      }
    }
    forall e | e in InTables(tables - inputs) ensures e in InTables(tables) {
      var f :| f in tables - inputs && e in (tables - inputs)[f];
    }
  }

  lemma InputsApart(tables: map<nat, set<Entry>>, inputs: set<nat>)
    requires TablesApart(tables)
    ensures InTables(tables - inputs) !! TableEntries(tables, inputs)
  {
  }

  /** Tables in place of others, holding what the drop rule leaves of them. */
  ghost predicate Replaces(v: View, inputs: set<nat>, tables: map<nat, set<Entry>>, smallest: SequenceNumber,
                           base: UserKey -> bool) {
    && tables.Keys !! (v.tables - inputs).Keys && TablesApart(tables)
    && InTables(tables) == Survivors(TableEntries(v.tables, inputs), smallest, base)
  }

  lemma ReplaceSound(v: View, expected: set<Entry>, inputs: set<nat>, tables: map<nat, set<Entry>>,
                     smallest: SequenceNumber,
                     base: UserKey -> bool, last: SequenceNumber)
    requires Sound(v, expected) && Replaces(v, inputs, tables, smallest, base) && v.last <= last
    ensures var v' := View(v.logs, v.tables - inputs + tables, last);
            && Sound(v', expected) && InTables(v'.tables) == InTables(v.tables - inputs) + InTables(tables)
  {
    ReplacedTables(v.tables, inputs);
    InputsApart(v.tables, inputs);
    TablesJoin(v.tables - inputs, tables);
    FewerTables(v.tables, inputs);
    ApartJoin(v.tables - inputs, tables);
  }

  lemma FewerTables(tables: map<nat, set<Entry>>, inputs: set<nat>)
    requires TablesApart(tables)
    ensures TablesApart(tables - inputs)
  {
  }

  lemma ReplaceReads(v: View, expected: set<Entry>, horizon: SequenceNumber, horizon': SequenceNumber, inputs: set<nat>,
                     tables: map<nat, set<Entry>>, smallest: SequenceNumber, base: UserKey -> bool,
                     last: SequenceNumber)
    requires Sound(v, expected) && Replaces(v, inputs, tables, smallest, base) && v.last <= last
    requires TablesRead(v, expected, horizon) && horizon <= horizon' && smallest <= horizon'
    requires !exists d, w :: Exposes(InTables(v.tables - inputs), TableEntries(v.tables, inputs), smallest, base, d, w)
    ensures TablesRead(View(v.logs, v.tables - inputs + tables, last), expected, horizon')
  {
    var v' := View(v.logs, v.tables - inputs + tables, last);
    ReplaceSound(v, expected, inputs, tables, smallest, base, last);
    ReplacedTables(v.tables, inputs);
    InputsApart(v.tables, inputs);
    var rest, taken := InTables(v.tables - inputs), TableEntries(v.tables, inputs);
    assert rest + taken <= expected && Settled(v', expected) == Settled(v, expected);
    hide Read, Survivors, LogsInOrder, TablesApart, Exposes;
    forall user: UserKey, q: nat | q >= horizon'
      ensures Read(InTables(v'.tables), user, q) == Read(Settled(v', expected), user, q)
    {
      DropKeepsReadAt(rest, taken, smallest, base, user, q);
    }
  }

  // ----- a lost tail -----

  lemma CutLog(log: LogFile, k: nat)
    requires k <= |log.records| && InOrder(log.records)
    ensures Logged(log) == Records(log.records[..k]) + Records(log.records[k..])
    ensures Earlier(Records(log.records[..k]), Records(log.records[k..])) && InOrder(log.records[..k])
    ensures Records(log.records[..k]) !! Records(log.records[k..])
  {
    var records := log.records;
    assert records == records[..k] + records[k..];
    RecordsConcat(records[..k], records[k..]);
    forall x, y | x in Records(records[..k]) && y in Records(records[k..]) ensures x.key.sequence < y.key.sequence {
      var i :| 0 <= i < k && x in records[..k][i];
      var j :| 0 <= j < |records| - k && y in records[k..][j];
      assert Earlier(records[i], records[k + j]);
    }
    forall i, j | 0 <= i < j < k ensures Earlier(records[..k][i], records[..k][j]) {
      assert Earlier(records[i], records[j]);
    }
  }

  ghost function CutAt(v: View, n: nat, k: nat): View
    requires n in v.logs && k <= |v.logs[n].records|
  {
    v.(logs := v.logs[n := v.logs[n].(records := v.logs[n].records[..k])])
  }

  lemma LogsApart(logs: map<nat, LogFile>, m: nat, n: nat)
    requires LogsInOrder(logs) && m in logs && n in logs && m != n
    ensures Logged(logs[m]) !! Logged(logs[n])
  {
    if m < n {
      assert Earlier(Logged(logs[m]), Logged(logs[n]));
    } else {
      assert Earlier(Logged(logs[n]), Logged(logs[m]));
    }
  }

  lemma OthersApart(logs: map<nat, LogFile>, n: nat)
    requires LogsInOrder(logs) && n in logs
    ensures InLogs(logs - {n}) !! Logged(logs[n])
  {
    hide LogsInOrder, Logged;
    forall e | e in InLogs(logs - {n}) ensures e !in Logged(logs[n]) {
      var m :| m in logs - {n} && e in Logged((logs - {n})[m]);
      assert m in logs && e in Logged(logs[m]);
      LogsApart(logs, m, n);
    }
  }

  lemma CutContents(v: View, expected: set<Entry>, n: nat, k: nat)
    requires LogsInOrder(v.logs) && InLogs(v.logs) <= expected && n in v.logs && k <= |v.logs[n].records|
    ensures var v', lost := CutAt(v, n, k), Records(v.logs[n].records[k..]);
            && lost <= InLogs(v.logs) && InLogs(v'.logs) == InLogs(v.logs) - lost
            && Settled(v', expected - lost) == Settled(v, expected)
  {
    var log := v.logs[n].(records := v.logs[n].records[..k]);
    assert Logged(log) == Records(v.logs[n].records[..k]);
    OneIn(v.logs, n);
    CutLog(v.logs[n], k);
    OthersApart(v.logs, n);
    ChangedLog(v.logs, n, log);
    hide Records, Logged, InLogs, LogsInOrder, Earlier, InOrder;
    WithoutPart(InLogs(v.logs - {n}), Logged(log), Records(v.logs[n].records[k..]), expected);
  }

  lemma WithoutPart(a: set<Entry>, b: set<Entry>, lost: set<Entry>, all: set<Entry>)
    requires lost !! a && lost !! b && a + (b + lost) <= all
    ensures a + b == a + (b + lost) - lost && all - lost - (a + b) == all - (a + (b + lost))
  {
  }

  lemma CutOrder(logs: map<nat, LogFile>, n: nat, k: nat)
    requires LogsInOrder(logs) && n in logs && logs[n].synced <= k <= |logs[n].records|
    ensures LogsInOrder(logs[n := logs[n].(records := logs[n].records[..k])])
  {
    CutLog(logs[n], k);
    hide Records, InOrder;
    var logs' := logs[n := logs[n].(records := logs[n].records[..k])];
    forall m, j | m in logs' && j in logs' && m < j ensures Earlier(Logged(logs'[m]), Logged(logs'[j])) {
      assert Earlier(Logged(logs[m]), Logged(logs[j]));
    }
  }

  lemma CutSound(v: View, expected: set<Entry>, n: nat, k: nat)
    requires Sound(v, expected) && n in v.logs && v.logs[n].synced <= k <= |v.logs[n].records|
    ensures Sound(CutAt(v, n, k), expected - Records(v.logs[n].records[k..]))
  {
    CutContents(v, expected, n, k);
    CutOrder(v.logs, n, k);
    hide LogsInOrder, TablesApart, InLogs, InTables, Records;
  }

  lemma CutPromise(v: View, expected: set<Entry>, promised: set<Entry>, n: nat, k: nat)
    requires Sound(v, expected) && n in v.logs && v.logs[n].synced <= k <= |v.logs[n].records|
    requires PromiseKept(v, expected, promised)
    ensures PromiseKept(CutAt(v, n, k), expected - Records(v.logs[n].records[k..]), promised)
  {
    CutContents(v, expected, n, k);
    var log := v.logs[n].(records := v.logs[n].records[..k]);
    forall e | e in SyncedRecords(v.logs) ensures e in SyncedRecords(v.logs[n := log]) {
      SyncedChanged(v.logs, n, log, e);
    }
  }

  // ----- states -----

  ghost predicate DiskSound(s: State) {
    && Sound(ViewOf(s.disk), s.expected) && PromiseKept(ViewOf(s.disk), s.expected, s.promised)
    && s.horizon <= s.disk.lastSequence
  }

  /** Tables written during a recovery: no entry is in two of them, nor in one and still in the memtable. */
  ghost predicate AddedApart(d: Disk, r: Opening) {
    && Apart(d.tables, r.added) && r.table !! TableEntries(d.tables, r.added)
    && UpTo(r.table, r.lastSequence) && UpTo(TableEntries(d.tables, r.added), r.lastSequence)
  }

  ghost predicate PhaseSound(s: State) {
    match s.phase
    case Down => true
    case Open(r) => s.disk.lastSequence <= r.lastSequence && AddedApart(s.disk, r)
    case Running(m) =>
      && UpTo(s.expected, m.lastSequence) && s.disk.lastSequence <= m.lastSequence
      && (m.job.Compacting? ==> m.job.horizon <= m.lastSequence)
  }

  ghost predicate Durable(s: State) {
    DiskSound(s) && PhaseSound(s)
  }

  ghost predicate ReadsOk(s: State) {
    TablesRead(ViewOf(s.disk), s.expected, s.horizon)
  }

  lemma ViewEntries(d: Disk)
    ensures InLogs(ViewOf(d).logs) == LogEntries(d.logs, Needed(d))
    ensures InTables(ViewOf(d).tables) == TableEntries(d.tables, d.version)
  {
    var v := ViewOf(d);
    forall e | e in LogEntries(d.logs, Needed(d)) ensures e in InLogs(v.logs) {
      var n :| n in Needed(d) && n in d.logs && e in Logged(d.logs[n]);
      assert n in v.logs && v.logs[n] == d.logs[n];
    }
    forall e | e in InLogs(v.logs) ensures e in LogEntries(d.logs, Needed(d)) {
      var n :| n in v.logs && e in Logged(v.logs[n]);
      assert n in Needed(d) && n in d.logs && e in Logged(d.logs[n]);
    }
    forall e | e in TableEntries(d.tables, d.version) ensures e in InTables(v.tables) {
      var f :| f in d.version && f in d.tables && e in d.tables[f];
      assert f in v.tables && v.tables[f] == d.tables[f];
    }
    forall e | e in InTables(v.tables) ensures e in TableEntries(d.tables, d.version) {
      var f :| f in v.tables && e in v.tables[f];
      assert f in d.version && f in d.tables && e in d.tables[f];
    }
  }

  /** Steps after which recovery would read what it would have read before. */
  predicate Quiet(step: Label) {
    !(step.Write? || step.Switch? || step.LogFlush? || step.LogJob? || step.LogMove? || step.LoseTail? || step.Commit?)
  }

  lemma RunningFiles(s: State)
    requires Inv(s) && s.phase.Running?
    ensures RunningOk(s.disk, s.phase.m)
  {
  }

  lemma DeleteKeepsView(s: State, s': State)
    requires Inv(s) && DeleteStep(s, s')
    ensures ViewOf(s'.disk) == ViewOf(s.disk)
  {
    var m := s.phase.m;
    assert s.disk.version <= Live(m);
  }

  lemma RunningKeepsView(s: State, s': State, step: Label)
    requires Inv(s) && Step(s, s', step) && Quiet(step) && s.phase.Running? && !step.Crash? && !step.Delete?
    ensures ViewOf(s'.disk) == ViewOf(s.disk)
  {
    RunningFiles(s);
  }

  lemma QuietKeepsView(s: State, s': State, step: Label)
    requires Inv(s) && Step(s, s', step) && Quiet(step)
    ensures ViewOf(s'.disk) == ViewOf(s.disk)
    ensures s'.expected == s.expected && s'.promised == s.promised && s'.horizon == s.horizon
    ensures s'.disk.lastSequence == s.disk.lastSequence
  {
    hide ViewOf, RunningOk, OpenOk;
    if step.Delete? {
      DeleteKeepsView(s, s');
    } else if s.phase.Running? && !step.Crash? {
      RunningKeepsView(s, s', step);
    } else if step.Spill? {
      SpillKeepsView(s, s');
    }
  }

  lemma SpillKeepsView(s: State, s': State)
    requires Inv(s) && SpillStep(s, s')
    ensures ViewOf(s'.disk) == ViewOf(s.disk)
  {
  }

  lemma ReadKeepsApart(s: State, s': State, pos: nat, last: SequenceNumber)
    requires Inv(s) && Durable(s) && ReadStep(s, s', pos, last)
    ensures PhaseSound(s')
  {
    OpenFacts(s);
    hide Inv, DiskSound, Records, TableEntries, ViewOf, ReadOk, NumbersOk;
    MoreApart(s.disk, s.phase.r, pos);
  }

  lemma OpenFacts(s: State)
    requires Inv(s) && DiskSound(s) && s.phase.Open?
    ensures LogsInOrder(ViewOf(s.disk).logs) && NumbersOk(s.disk, s.phase.r) && ReadOk(s.disk, s.phase.r)
  {
  }

  /** The records read next are not among those read before. */
  lemma MoreApart(d: Disk, r: Opening, pos: nat)
    requires r.todo != [] && r.todo[0] in d.logs && r.pos <= pos <= |d.logs[r.todo[0]].records|
    requires LogsInOrder(ViewOf(d).logs) && NumbersOk(d, r) && ReadOk(d, r)
    ensures Records(d.logs[r.todo[0]].records[r.pos..pos]) !! TableEntries(d.tables, r.added)
  {
    var n, records := r.todo[0], d.logs[r.todo[0]].records;
    FirstTodo(r.todo);
    DoneEarlier(d, r, n);
    LogInOrder(d, n);
    CutLog(d.logs[n], r.pos);
    assert records[r.pos..] == records[r.pos..pos] + records[pos..];
    RecordsConcat(records[r.pos..pos], records[pos..]);
    var done := LogEntries(d.logs, Needed(d) - ToSet(r.todo) - {});
    assert TableEntries(d.tables, r.added) <= done + Records(records[..r.pos]);
    hide Records, TableEntries, LogEntries, ReadOk, NumbersOk, LogsInOrder, InOrder;
    ApartByOrder(done, Logged(d.logs[n]), Records(records[r.pos..]));
  }

  lemma ApartByOrder(a: set<Entry>, b: set<Entry>, part: set<Entry>)
    requires Earlier(a, b) && part <= b
    ensures a !! part
  {
  }

  lemma LogInOrder(d: Disk, n: nat)
    requires LogsInOrder(ViewOf(d).logs) && n in Needed(d)
    ensures InOrder(d.logs[n].records)
  {
    assert n in ViewOf(d).logs && ViewOf(d).logs[n] == d.logs[n];
  }

  /** The logs that recovery has read before the log it is reading. */
  lemma DoneEarlier(d: Disk, r: Opening, n: nat)
    requires LogsInOrder(ViewOf(d).logs) && NumbersOk(d, r) && r.todo != [] && r.todo[0] == n && n in Needed(d)
    ensures Earlier(LogEntries(d.logs, Needed(d) - ToSet(r.todo) - {}), Logged(d.logs[n]))
  {
    var v := ViewOf(d);
    forall x, y | x in LogEntries(d.logs, Needed(d) - ToSet(r.todo) - {}) && y in Logged(d.logs[n])
      ensures x.key.sequence < y.key.sequence
    {
      var m :| m in Needed(d) - ToSet(r.todo) - {} && m in d.logs && x in Logged(d.logs[m]);
      assert m in v.logs && n in v.logs && v.logs[m] == d.logs[m] && v.logs[n] == d.logs[n] && m < n;
      assert Earlier(Logged(v.logs[m]), Logged(v.logs[n]));
    }
  }

  lemma SpillKeepsApart(s: State, s': State)
    requires Inv(s) && Durable(s) && SpillStep(s, s')
    ensures PhaseSound(s')
  {
    var d, r, d', r' := s.disk, s.phase.r, s'.disk, s'.phase.r;
    if r.table != {} {
      OtherTable(d.tables, r.nextFile, r.table, r.added);
      OneTable(d'.tables, r.nextFile);
      TablesUnion(d'.tables, r.added, {r.nextFile});
      assert TableEntries(d'.tables, r'.added) == TableEntries(d.tables, r.added) + r.table;
      forall f | f in r.added && f in d.tables ensures d.tables[f] !! r.table && d'.tables[f] == d.tables[f] {
        assert d.tables[f] <= TableEntries(d.tables, r.added);
      }
    }
  }

  lemma QuietKeepsPhase(s: State, s': State, step: Label)
    requires Inv(s) && Durable(s) && Step(s, s', step) && Quiet(step)
    ensures PhaseSound(s')
  {
    hide Inv, DiskSound, Apart, RunningOk, OpenOk;
    match step {
      case ReadLog(pos, last) => ReadKeepsApart(s, s', pos, last);
      case Spill => SpillKeepsApart(s, s');
      case BeginOpen(todo, save) => NothingAdded(s.disk);
      case _ =>
    }
  }

  lemma NothingAdded(d: Disk)
    ensures Apart(d.tables, {}) && TableEntries(d.tables, {}) == {}
  {
  }

  lemma QuietKeeps(s: State, s': State, step: Label)
    requires Inv(s) && Durable(s) && Step(s, s', step) && Quiet(step)
    ensures Durable(s') && (ReadsOk(s) ==> ReadsOk(s'))
  {
    QuietKeepsView(s, s', step);
    QuietKeepsPhase(s, s', step);
    hide Inv, Step, PhaseSound, Sound, PromiseKept, TablesRead;
  }

  // ----- the other steps -----

  lemma GreatestLog(s: State)
    requires Inv(s) && s.phase.Running?
    ensures var v, n := ViewOf(s.disk), s.phase.m.logFile;
            && n in v.logs && v.logs[n] == s.disk.logs[n] && s.disk.logNumber <= n < s.phase.m.nextFile
            && (forall k :: k in s.disk.logs ==> k <= n) && (forall k :: k in v.logs ==> k <= n)
  {
  }

  lemma WriteKeepsDurable(s: State, s': State, batch: seq<Store.Op>, sync: bool)
    requires Inv(s) && Durable(s) && WriteStep(s, s', batch, sync)
    ensures Durable(s') && (ReadsOk(s) ==> ReadsOk(s'))
  {
    hide Inv, Sound, PromiseKept, TablesRead, Store.BatchEntries, InLogs, InTables, Settled, Logged, After, UpTo;
    hide ViewOf;
    hide Unique, WithRecord, Appended;
    GreatestLog(s);
    WriteView(s, s', batch, sync);
    var m, v := s.phase.m, ViewOf(s.disk);
    var es := Store.BatchEntries(batch, m.lastSequence + 1);
    BatchIsNew(batch, m.lastSequence);
    RecordKeeps(v, s.expected, s.promised, m.logFile, es, sync, m.lastSequence, m.lastSequence + |batch|, s.horizon);
  }

  lemma WriteView(s: State, s': State, batch: seq<Store.Op>, sync: bool)
    requires Inv(s) && WriteStep(s, s', batch, sync)
    ensures var m, v := s.phase.m, ViewOf(s.disk);
            && m.logFile in v.logs && v.logs[m.logFile] == s.disk.logs[m.logFile]
            && ViewOf(s'.disk) == WithRecord(v, m.logFile, Store.BatchEntries(batch, m.lastSequence + 1), sync)
            && ViewOf(s'.disk).logs[m.logFile] == s'.disk.logs[m.logFile]
  {
    GreatestLog(s);
    hide Inv, Store.BatchEntries;
  }

  lemma RecordKeeps(v: View, expected: set<Entry>, promised: set<Entry>, n: nat, es: set<Entry>, sync: bool,
                    last: SequenceNumber, last': SequenceNumber, horizon: SequenceNumber)
    requires Sound(v, expected) && PromiseKept(v, expected, promised) && n in v.logs
    requires (forall m :: m in v.logs ==> m <= n)
    requires UpTo(expected, last) && After(es, last) && Unique(es) && UpTo(es, last') && last <= last'
    ensures var v' := WithRecord(v, n, es, sync);
            && Sound(v', expected + es) && UpTo(expected + es, last')
            && PromiseKept(v', expected + es, if sync then promised + Logged(v'.logs[n]) else promised)
            && (TablesRead(v, expected, horizon) ==> TablesRead(v', expected + es, horizon))
  {
    AppendSound(v, expected, n, es, sync, last);
    SoundParts(v, expected);
    hide Sound, PromiseKept, TablesRead, InLogs, InTables, Settled, Logged, LogsInOrder, TablesApart;
    AppendPromise(v, expected, promised, n, es, sync);
    AppendContents(v, expected, n, es, sync);
    if TablesRead(v, expected, horizon) {
      SameTablesRead(v, WithRecord(v, n, es, sync), expected, expected + es, horizon);
    }
  }

  lemma BatchIsNew(batch: seq<Store.Op>, last: SequenceNumber)
    requires last + |batch| < MAX_SEQUENCE
    ensures var es := Store.BatchEntries(batch, last + 1); Unique(es) && After(es, last) && UpTo(es, last + |batch|)
  {
    Runs.BatchFresh(batch, last);
  }

  lemma SoundParts(v: View, expected: set<Entry>)
    requires Sound(v, expected)
    ensures LogsInOrder(v.logs) && InLogs(v.logs) <= expected && TablesApart(v.tables)
    ensures InTables(v.tables) <= Settled(v, expected) && UpTo(Settled(v, expected), v.last) && Unique(expected)
  {
  }

  lemma SameTablesRead(v: View, v': View, expected: set<Entry>, expected': set<Entry>, horizon: SequenceNumber)
    requires TablesRead(v, expected, horizon) && v'.tables == v.tables && Settled(v', expected') == Settled(v, expected)
    ensures TablesRead(v', expected', horizon)
  {
  }

  lemma SwitchKeepsDurable(s: State, s': State)
    requires Inv(s) && Durable(s) && SwitchStep(s, s')
    ensures Durable(s') && (ReadsOk(s) ==> ReadsOk(s'))
  {
    GreatestLog(s);
    hide Inv, Sound, PromiseKept, TablesRead;
    var v, n := ViewOf(s.disk), s.phase.m.nextFile;
    assert n !in v.logs;
    NewLogKeeps(v, s.expected, s.promised, n);
    assert ViewOf(s'.disk) == v.(logs := v.logs[n := NEW_LOG]);
    if ReadsOk(s) {
      SameTablesRead(v, ViewOf(s'.disk), s.expected, s.expected, s.horizon);
    }
  }

  lemma LastKeeps(v: View, expected: set<Entry>, promised: set<Entry>, horizon: SequenceNumber, last: SequenceNumber)
    requires Sound(v, expected) && PromiseKept(v, expected, promised) && v.last <= last
    ensures Sound(v.(last := last), expected) && PromiseKept(v.(last := last), expected, promised)
    ensures TablesRead(v, expected, horizon) ==> TablesRead(v.(last := last), expected, horizon)
  {
    if TablesRead(v, expected, horizon) {
      SameTablesRead(v, v.(last := last), expected, expected, horizon);
    }
  }

  lemma LogMoveKeepsDurable(s: State, s': State)
    requires Inv(s) && Durable(s) && LogMoveStep(s, s')
    ensures Durable(s') && (ReadsOk(s) ==> ReadsOk(s'))
  {
    assert s.phase.m.logNumber == s.disk.logNumber;
    hide Inv, Sound, PromiseKept, TablesRead;
    LastKeeps(ViewOf(s.disk), s.expected, s.promised, s.horizon, s.phase.m.lastSequence);
    assert ViewOf(s'.disk) == ViewOf(s.disk).(last := s.phase.m.lastSequence);
  }

  lemma LoseTailKeepsDurable(s: State, s': State, n: nat, k: nat)
    requires Inv(s) && Durable(s) && LoseTailStep(s, s', n, k)
    ensures Durable(s') && (ReadsOk(s) ==> ReadsOk(s'))
  {
    hide Inv, Sound, PromiseKept, TablesRead, Records;
    var v := ViewOf(s.disk);
    if n in Needed(s.disk) {
      assert n in v.logs && v.logs[n] == s.disk.logs[n];
      CutSound(v, s.expected, n, k);
      CutPromise(v, s.expected, s.promised, n, k);
      SoundParts(v, s.expected);
      CutContents(v, s.expected, n, k);
      assert ViewOf(s'.disk) == CutAt(v, n, k);
      if ReadsOk(s) {
        SameTablesRead(v, CutAt(v, n, k), s.expected, s'.expected, s.horizon);
      }
    } else {
      assert ViewOf(s'.disk) == v;
    }
  }

  /** The tables of a number of files. */
  ghost function Chosen(tables: map<nat, set<Entry>>, files: set<nat>): map<nat, set<Entry>> {
    map f | f in tables && f in files :: tables[f]
  }

  lemma ChosenEntries(tables: map<nat, set<Entry>>, files: set<nat>)
    ensures InTables(Chosen(tables, files)) == TableEntries(tables, files)
    ensures Apart(tables, files) ==> TablesApart(Chosen(tables, files))
  {
    var c := Chosen(tables, files);
    forall e | e in TableEntries(tables, files) ensures e in InTables(c) {
      var f :| f in files && f in tables && e in tables[f];
      assert f in c && c[f] == tables[f];
    }
  }

  lemma ChosenLogs(d: Disk, gone: set<nat>)
    requires gone <= Needed(d)
    ensures LogEntries(ViewOf(d).logs, gone) == LogEntries(d.logs, gone)
  {
  }

  lemma LogFlushView(s: State, s': State)
    requires Inv(s) && LogFlushStep(s, s')
    ensures var v, m, d := ViewOf(s.disk), s.phase.m, s.disk;
            ViewOf(s'.disk) == Moved(v, Needed(d) - {m.logFile}, Chosen(d.tables, m.flush.added), m.lastSequence)
  {
    var v, m, d := ViewOf(s.disk), s.phase.m, s.disk;
    GreatestLog(s);
    hide Inv, RunningOk;
    var gone, tables := Needed(d) - {m.logFile}, Chosen(d.tables, m.flush.added);
    assert ViewOf(s'.disk).logs == v.logs - gone;
    assert ViewOf(s'.disk).tables == v.tables + tables;
  }

  lemma LogFlushMoves(s: State)
    requires Inv(s) && Durable(s) && s.phase.Running? && s.phase.m.flush.Built?
    ensures var v, m, d := ViewOf(s.disk), s.phase.m, s.disk;
            Moves(v, Needed(d) - {m.logFile}, Chosen(d.tables, m.flush.added), m.lastSequence)
  {
    var v, m, d := ViewOf(s.disk), s.phase.m, s.disk;
    GreatestLog(s);
    FlushFacts(d, m);
    SoundParts(v, s.expected);
    hide Inv, DiskSound, InLogs, InTables, Sound, PromiseKept, TablesApart, RunningOk, LogEntries, TableEntries;
    hide Apart, LogsInOrder;
    var gone, tables := Needed(d) - {m.logFile}, Chosen(d.tables, m.flush.added);
    ChosenEntries(d.tables, m.flush.added);
    ChosenLogs(d, gone);
    LogsSplit(v.logs, gone);
    assert LogEntries(v.logs, gone) <= s.expected;
  }

  lemma FlushFacts(d: Disk, m: Memory)
    requires RunningOk(d, m) && m.flush.Built?
    ensures m.flush.added !! d.version && Apart(d.tables, m.flush.added)
    ensures TableEntries(d.tables, m.flush.added) == LogEntries(d.logs, Needed(d) - {m.logFile})
  {
  }

  lemma LogFlushKeepsDurable(s: State, s': State)
    requires Inv(s) && Durable(s) && LogFlushStep(s, s')
    ensures Durable(s') && (ReadsOk(s) ==> ReadsOk(s'))
  {
    var v, m, d := ViewOf(s.disk), s.phase.m, s.disk;
    var gone, tables := Needed(d) - {m.logFile}, Chosen(d.tables, m.flush.added);
    LogFlushMoves(s);
    LogFlushView(s, s');
    hide Inv, Sound, PromiseKept, TablesRead, Moves, Moved, Chosen;
    MoveSound(v, s.expected, gone, tables, m.lastSequence);
    MovePromise(v, s.expected, s.promised, gone, tables, m.lastSequence);
    if ReadsOk(s) {
      MoveReads(v, s.expected, s.horizon, gone, tables, m.lastSequence);
    }
  }

  // ----- recording a compaction -----

  /** A value outside the inputs would come back where the compaction drops a deletion marker. */
  ghost predicate Exposing(s: State, base: UserKey -> bool)
    requires s.phase.Running? && s.phase.m.job.Compacting?
  {
    var d, job := s.disk, s.phase.m.job;
    exists marker, w :: Exposes(TableEntries(d.tables, d.version - job.inputs), TableEntries(d.tables, job.inputs),
                                job.horizon, base, marker, w)
  }

  lemma JobFacts(d: Disk, m: Memory)
    requires RunningOk(d, m) && m.job.Compacting? && m.flush == NoFlush
    ensures m.logNumber == d.logNumber && m.job.inputs <= d.version && m.job.outputs !! d.version
    ensures d.version <= d.tables.Keys
  {
  }

  lemma JobEntries(d: Disk, inputs: set<nat>)
    requires inputs <= d.version && d.version <= d.tables.Keys
    ensures TableEntries(ViewOf(d).tables, inputs) == TableEntries(d.tables, inputs)
    ensures InTables(ViewOf(d).tables - inputs) == TableEntries(d.tables, d.version - inputs)
  {
    var v := ViewOf(d);
    forall e | e in TableEntries(d.tables, inputs) ensures e in TableEntries(v.tables, inputs) {
      var f :| f in inputs && f in d.tables && e in d.tables[f];
      assert f in v.tables && v.tables[f] == d.tables[f];
    }
    forall e | e in TableEntries(d.tables, d.version - inputs) ensures e in InTables(v.tables - inputs) {
      var f :| f in d.version - inputs && f in d.tables && e in d.tables[f];
      assert f in v.tables - inputs && (v.tables - inputs)[f] == d.tables[f];
    }
    forall e | e in InTables(v.tables - inputs) ensures e in TableEntries(d.tables, d.version - inputs) {
      var f :| f in v.tables - inputs && e in (v.tables - inputs)[f];
      assert f in d.version - inputs && f in d.tables && e in d.tables[f];
    }
  }

  lemma LogJobReplaces(s: State, s': State, base: UserKey -> bool)
    requires Inv(s) && LogJobStep(s, s', base)
    ensures var v, m, tables := ViewOf(s.disk), s.phase.m, Chosen(s.disk.tables, s.phase.m.job.outputs);
            && Replaces(v, m.job.inputs, tables, m.job.horizon, base)
            && ViewOf(s'.disk) == View(v.logs, v.tables - m.job.inputs + tables, m.lastSequence)
  {
    var v, m, tables := ViewOf(s.disk), s.phase.m, Chosen(s.disk.tables, s.phase.m.job.outputs);
    RunningFiles(s);
    JobFacts(s.disk, m);
    hide Inv, RunningOk, Survivors, InTables, TableEntries, Apart, TablesApart;
    JobEntries(s.disk, m.job.inputs);
    ChosenEntries(s.disk.tables, m.job.outputs);
    assert ViewOf(s'.disk).tables == v.tables - m.job.inputs + tables;
  }

  lemma LogJobKeepsDurable(s: State, s': State, base: UserKey -> bool)
    requires Inv(s) && Durable(s) && LogJobStep(s, s', base)
    ensures Durable(s') && (ReadsOk(s) && !Exposing(s, base) ==> ReadsOk(s'))
  {
    hide Inv, RunningOk, OutputsOf, Sound, PromiseKept, TablesRead, Replaces, ViewOf, Chosen, Exposing;
    var v, m, tables := ViewOf(s.disk), s.phase.m, Chosen(s.disk.tables, s.phase.m.job.outputs);
    LogJobReplaces(s, s', base);
    ViewLast(s.disk);
    ReplaceSound(v, s.expected, m.job.inputs, tables, m.job.horizon, base, m.lastSequence);
    SameLogsPromise(v, ViewOf(s'.disk), s.expected, s.promised);
    if ReadsOk(s) && !Exposing(s, base) {
      NotExposing(s, base);
      ReplaceReads(v, s.expected, s.horizon, s'.horizon, m.job.inputs, tables, m.job.horizon, base, m.lastSequence);
    }
  }

  lemma ViewLast(d: Disk)
    ensures ViewOf(d).last == d.lastSequence
  {
  }

  lemma SameLogsPromise(v: View, v': View, expected: set<Entry>, promised: set<Entry>)
    requires PromiseKept(v, expected, promised) && v'.logs == v.logs
    ensures PromiseKept(v', expected, promised)
  {
  }

  lemma NotExposing(s: State, base: UserKey -> bool)
    requires Inv(s) && s.phase.Running? && s.phase.m.job.Compacting? && s.phase.m.flush == NoFlush
    ensures var v, job := ViewOf(s.disk), s.phase.m.job;
            Exposing(s, base) <==>
              exists d, w ::
                Exposes(InTables(v.tables - job.inputs), TableEntries(v.tables, job.inputs), job.horizon, base, d, w)
  {
    RunningFiles(s);
    JobFacts(s.disk, s.phase.m);
    JobEntries(s.disk, s.phase.m.job.inputs);
    hide Inv, RunningOk, Exposes, InTables, TableEntries;
  }

  /** The compaction keeps reads at its smallest snapshot and beyond exactly when it exposes nothing. */
  lemma LogJobReadsIff(s: State, s': State, base: UserKey -> bool)
    requires Inv(s) && Durable(s) && ReadsOk(s) && LogJobStep(s, s', base) && s.horizon <= s.phase.m.job.horizon
    ensures ReadsOk(s') <==> !Exposing(s, base)
  {
    hide Inv, RunningOk, OutputsOf, Sound, PromiseKept, TablesRead, Replaces, ViewOf, Chosen, Exposing;
    LogJobKeepsDurable(s, s', base);
    if Exposing(s, base) {
      LogJobReplaces(s, s', base);
      ViewLast(s.disk);
      NotExposing(s, base);
      ReplaceBreaks(ViewOf(s.disk), s.expected, s.horizon, s.phase.m.job.inputs,
                    Chosen(s.disk.tables, s.phase.m.job.outputs), s.phase.m.job.horizon, base, s.phase.m.lastSequence);
    }
  }

  lemma ReplaceBreaks(v: View, expected: set<Entry>, horizon: SequenceNumber, inputs: set<nat>,
                      tables: map<nat, set<Entry>>, smallest: SequenceNumber, base: UserKey -> bool,
                      last: SequenceNumber)
    requires Sound(v, expected) && Replaces(v, inputs, tables, smallest, base) && v.last <= last
    requires TablesRead(v, expected, horizon) && horizon <= smallest
    requires exists d, w :: Exposes(InTables(v.tables - inputs), TableEntries(v.tables, inputs), smallest, base, d, w)
    ensures !TablesRead(View(v.logs, v.tables - inputs + tables, last), expected, smallest)
  {
    var v' := View(v.logs, v.tables - inputs + tables, last);
    ReplaceSound(v, expected, inputs, tables, smallest, base, last);
    ReplacedTables(v.tables, inputs);
    InputsApart(v.tables, inputs);
    var rest, taken := InTables(v.tables - inputs), TableEntries(v.tables, inputs);
    assert rest + taken <= expected && Settled(v', expected) == Settled(v, expected);
    hide Read, Survivors, LogsInOrder, TablesApart, Exposes, InTables, TableEntries;
    var d, w :| Exposes(rest, taken, smallest, base, d, w);
    ExposedValueReturns(rest, taken, smallest, base, d, w);
    assert Read(InTables(v.tables), d.key.user, smallest) == Read(Settled(v, expected), d.key.user, smallest);
    assert Read(InTables(v'.tables), d.key.user, smallest) != Read(Settled(v', expected), d.key.user, smallest);
  }

  // ----- opening -----

  lemma CommitFacts(s: State)
    requires Inv(s) && Durable(s) && s.phase.Open? && s.phase.r.todo == []
    ensures var d, r := s.disk, s.phase.r;
            var kept := if r.reuse.Some? then {r.reuse.value} else {};
            && TableEntries(d.tables, r.added) == LogEntries(d.logs, Needed(d) - kept)
            && r.table == LogEntries(d.logs, kept) && kept <= Needed(d) && kept <= d.logs.Keys
            && r.added !! d.version && (!r.save ==> r.added == {})
            && (r.reuse.Some? ==> forall n :: n in d.logs ==> n <= r.reuse.value)
            && (r.reuse == None ==> r.nextFile !in d.logs && forall n :: n in d.logs ==> n < r.nextFile)
            && d.logNumber < r.nextFile
  {
    var d, r := s.disk, s.phase.r;
    assert ToSet<nat>([]) == {};
    assert Needed(d) - {} == Needed(d);
    assert LogEntries(d.logs, {}) == {};
  }

  /** The greatest sequence number a recovery has seen bounds all that is expected. */
  lemma SeenAll(s: State)
    requires Inv(s) && Durable(s) && s.phase.Open? && s.phase.r.todo == []
    ensures UpTo(s.expected, s.phase.r.lastSequence)
  {
    var d, r, v := s.disk, s.phase.r, ViewOf(s.disk);
    var kept := if r.reuse.Some? then {r.reuse.value} else {};
    CommitFacts(s);
    ViewEntries(d);
    SoundParts(v, s.expected);
    ViewLast(d);
    hide Inv, DiskSound, LogEntries, TableEntries, InLogs, InTables, Sound, LogsInOrder, TablesApart, ViewOf;
    LogsUnion(d.logs, Needed(d) - kept, kept);
    assert Needed(d) - kept + kept == Needed(d);
    assert InLogs(v.logs) == TableEntries(d.tables, r.added) + r.table;
    assert s.expected <= Settled(v, s.expected) + InLogs(v.logs);
  }

  lemma CommitMoves(s: State)
    requires Inv(s) && Durable(s) && s.phase.Open? && s.phase.r.todo == []
    ensures var d, r := s.disk, s.phase.r;
            var kept := if r.reuse.Some? then {r.reuse.value} else {};
            Moves(ViewOf(d), Needed(d) - kept, Chosen(d.tables, r.added), r.lastSequence)
  {
    var d, r, v := s.disk, s.phase.r, ViewOf(s.disk);
    var kept := if r.reuse.Some? then {r.reuse.value} else {};
    CommitFacts(s);
    ViewLast(d);
    hide Inv, DiskSound, LogEntries, TableEntries, InLogs, InTables, Sound, LogsInOrder, TablesApart, Apart;
    ChosenEntries(d.tables, r.added);
    ChosenLogs(d, Needed(d) - kept);
  }

  lemma MoveKeeps(v: View, expected: set<Entry>, promised: set<Entry>, horizon: SequenceNumber, gone: set<nat>,
                  tables: map<nat, set<Entry>>, last: SequenceNumber)
    requires Sound(v, expected) && PromiseKept(v, expected, promised) && Moves(v, gone, tables, last)
    ensures var v' := Moved(v, gone, tables, last);
            && Sound(v', expected) && PromiseKept(v', expected, promised)
            && (TablesRead(v, expected, horizon) ==> TablesRead(v', expected, horizon))
  {
    MoveSound(v, expected, gone, tables, last);
    MovePromise(v, expected, promised, gone, tables, last);
    if TablesRead(v, expected, horizon) {
      MoveReads(v, expected, horizon, gone, tables, last);
    }
  }

  /** What recovery would read before the manifest record, with the log the database goes on with. */
  ghost function WithLog(s: State): View
    requires s.phase.Open?
  {
    var v, r := ViewOf(s.disk), s.phase.r;
    if r.reuse.Some? then v else v.(logs := v.logs[r.nextFile := NEW_LOG])
  }

  lemma CommitViewReused(s: State, s': State)
    requires Inv(s) && Durable(s) && CommitStep(s, s') && s.phase.r.reuse.Some?
    ensures var d, r := s.disk, s.phase.r;
            ViewOf(s'.disk) == if r.save then Moved(WithLog(s), Needed(d) - {r.reuse.value}, Chosen(d.tables, r.added),
                                                    r.lastSequence)
                               else WithLog(s)
  {
    hide Inv, Durable, LogEntries, TableEntries;
    CommitFacts(s);
    var d, r, d' := s.disk, s.phase.r, s'.disk;
    if r.save {
      var w := Moved(WithLog(s), Needed(d) - {r.reuse.value}, Chosen(d.tables, r.added), r.lastSequence);
      assert ViewOf(d').logs == w.logs;
      assert ViewOf(d').tables == w.tables;
    }
  }

  lemma CommitViewNew(s: State, s': State)
    requires Inv(s) && Durable(s) && CommitStep(s, s') && s.phase.r.reuse == None
    ensures var d, r := s.disk, s.phase.r;
            ViewOf(s'.disk) == if r.save then Moved(WithLog(s), Needed(d) - {}, Chosen(d.tables, r.added),
                                                    r.lastSequence)
                               else WithLog(s)
  {
    hide Inv, Durable, LogEntries, TableEntries;
    CommitFacts(s);
    var d, r, d' := s.disk, s.phase.r, s'.disk;
    if r.save {
      var w := Moved(WithLog(s), Needed(d) - {}, Chosen(d.tables, r.added), r.lastSequence);
      assert ViewOf(d').logs == w.logs;
      assert ViewOf(d').tables == w.tables;
    } else {
      assert ViewOf(d').logs == WithLog(s).logs;
    }
  }

  lemma WithLogKeeps(s: State)
    requires Inv(s) && Durable(s) && s.phase.Open? && s.phase.r.todo == []
    ensures Sound(WithLog(s), s.expected) && PromiseKept(WithLog(s), s.expected, s.promised)
    ensures ReadsOk(s) ==> TablesRead(WithLog(s), s.expected, s.horizon)
    ensures var d, r := s.disk, s.phase.r;
            var kept := if r.reuse.Some? then {r.reuse.value} else {};
            Moves(WithLog(s), Needed(d) - kept, Chosen(d.tables, r.added), r.lastSequence)
  {
    var v, d, r := ViewOf(s.disk), s.disk, s.phase.r;
    CommitMoves(s);
    CommitFacts(s);
    hide Inv, Sound, PromiseKept, TablesRead, LogEntries, TableEntries, PhaseSound;
    if r.reuse == None {
      NewLogKeeps(v, s.expected, s.promised, r.nextFile);
      assert NEW_LOG == WithLog(s).logs[r.nextFile];
      assert Needed(d) - {} == Needed(d);
      KeptLogs(v.logs, WithLog(s).logs, Needed(d));
      if ReadsOk(s) {
        SameTablesRead(v, WithLog(s), s.expected, s.expected, s.horizon);
      }
    }
  }

  lemma CommitKeepsDurable(s: State, s': State)
    requires Inv(s) && Durable(s) && CommitStep(s, s')
    ensures Durable(s') && (ReadsOk(s) ==> ReadsOk(s'))
  {
    hide Inv, Sound, PromiseKept, TablesRead, Moves, Moved, Chosen, WithLog, ViewOf, UpTo, AddedApart;
    var d, r := s.disk, s.phase.r;
    var kept := if r.reuse.Some? then {r.reuse.value} else {};
    if r.reuse.Some? {
      CommitViewReused(s, s');
    } else {
      CommitViewNew(s, s');
    }
    WithLogKeeps(s);
    SeenAll(s);
    if r.save {
      MoveKeeps(WithLog(s), s.expected, s.promised, s.horizon, Needed(d) - kept, Chosen(d.tables, r.added),
                r.lastSequence);
    }
  }

  // ----- every step, every run -----

  /** The step does not record a compaction whose dropped deletions uncover older values. */
  ghost predicate Covered(s: State, step: Label) {
    step.LogJob? && s.phase.Running? && s.phase.m.job.Compacting? ==> !Exposing(s, step.base)
  }

  lemma StepKeepsDurable(s: State, s': State, step: Label)
    requires Inv(s) && Durable(s) && Step(s, s', step)
    ensures Durable(s') && (ReadsOk(s) && Covered(s, step) ==> ReadsOk(s'))
  {
    hide Inv, Durable, ReadsOk, Exposing;
    match step {
      case Write(batch, sync) => WriteKeepsDurable(s, s', batch, sync);
      case Switch => SwitchKeepsDurable(s, s');
      case LogFlush => LogFlushKeepsDurable(s, s');
      case LogJob(base) => LogJobKeepsDurable(s, s', base);
      case LogMove => LogMoveKeepsDurable(s, s');
      case LoseTail(n, k) => LoseTailKeepsDurable(s, s', n, k);
      case Commit => CommitKeepsDurable(s, s');
      case _ => QuietKeeps(s, s', step);
    }
  }

  lemma InitDurable()
    ensures Inv(Init()) && Durable(Init()) && ReadsOk(Init())
  {
    var v := ViewOf(Init().disk);
    assert v.logs == map[] && v.tables == map[];
  }

  /** In every run the logs hold the latest of what was written and not lost, in order, the tables only older entries,
      and what was synced is not lost. */
  lemma {:induction false} RunStaysDurable(states: seq<State>, steps: seq<Label>, n: nat)
    requires IsRun(states, steps) && n < |states|
    ensures Inv(states[n]) && Durable(states[n])
  {
    hide Inv, Durable, Step;
    if n == 0 {
      InitDurable();
    } else {
      RunStaysDurable(states, steps, n - 1);
      assert Step(states[n - 1], states[n - 1 + 1], steps[n - 1]);
      StepKeepsInv(states[n - 1], states[n], steps[n - 1]);
      StepKeepsDurable(states[n - 1], states[n], steps[n - 1]);
    }
  }

  lemma {:induction false} RunKeepsReads(states: seq<State>, steps: seq<Label>, n: nat)
    requires IsRun(states, steps) && n < |states|
    requires forall i :: 0 <= i < |steps| ==> Covered(states[i], steps[i])
    ensures ReadsOk(states[n])
  {
    hide Inv, Durable, ReadsOk, Step, Covered;
    if n == 0 {
      InitDurable();
    } else {
      var i := n - 1;
      RunStaysDurable(states, steps, i);
      RunKeepsReads(states, steps, i);
      assert Step(states[i], states[i + 1], steps[i]);
      StepKeepsDurable(states[i], states[i + 1], steps[i]);
    }
  }

  lemma RebuiltReads(s: State, user: UserKey, q: nat)
    requires Inv(s) && Durable(s) && ReadsOk(s) && s.horizon <= q
    ensures Read(Rebuilt(s.disk), user, q) == Read(s.expected, user, q)
  {
    var v := ViewOf(s.disk);
    ViewEntries(s.disk);
    hide Inv, ViewOf, InTables, InLogs, Read, LogsInOrder, TablesApart;
    var held, settled, last := InTables(v.tables), Settled(v, s.expected), InLogs(v.logs);
    assert settled + last == s.expected && held + last <= s.expected;
    Runs.ReadAfterAdding(held, settled, last, user, q);
    assert Rebuilt(s.disk) == held + last;
  }

  /** In every run, crashes and recoveries at any moment included, as long as no recorded compaction uncovers a value:
      the files rebuild contents that read as all that was written and not lost, at every snapshot from the horizon
      on. A database opened again hands out no snapshot below the horizon. */
  lemma RunLosesNothing(states: seq<State>, steps: seq<Label>, n: nat, user: UserKey, q: nat)
    requires IsRun(states, steps) && n < |states| && states[n].horizon <= q
    requires forall i :: 0 <= i < |steps| ==> Covered(states[i], steps[i])
    ensures Read(Rebuilt(states[n].disk), user, q) == Read(states[n].expected, user, q)
    ensures states[n].horizon <= states[n].disk.lastSequence
    ensures states[n].phase.Running? ==> states[n].disk.lastSequence <= states[n].phase.m.lastSequence
  {
    hide Inv, ReadsOk, Rebuilt, Read, Covered, IsRun, Sound, PromiseKept;
    RunStaysDurable(states, steps, n);
    RunKeepsReads(states, steps, n);
    RebuiltReads(states[n], user, q);
  }

  /** What the memtables and the current tables of a running database hold. */
  ghost function Held(d: Disk, m: Memory): set<Entry> {
    m.mem + (if m.imm.Some? then m.imm.value else {}) + TableEntries(d.tables, m.current)
  }

  /** And a running database reads the same from its memtables and tables. */
  lemma RunningReads(states: seq<State>, steps: seq<Label>, n: nat, user: UserKey, q: nat)
    requires IsRun(states, steps) && n < |states| && states[n].horizon <= q
    requires forall i :: 0 <= i < |steps| ==> Covered(states[i], steps[i])
    requires states[n].phase.Running? && !states[n].phase.m.job.Committed?
    ensures Read(Held(states[n].disk, states[n].phase.m), user, q) == Read(states[n].expected, user, q)
  {
    RunStaysDurable(states, steps, n);
    RunLosesNothing(states, steps, n, user, q);
    RunningFiles(states[n]);
    RebuildsMemory(states[n].disk, states[n].phase.m);
  }

  // ----- what can be lost -----

  ghost function WrittenBy(s: State, step: Label): set<Entry> {
    if step.Write? && s.phase.Running? && s.phase.m.lastSequence + |step.batch| < MAX_SEQUENCE then
      Store.BatchEntries(step.batch, s.phase.m.lastSequence + 1)
    else {}
  }

  ghost predicate NoTailLost(steps: seq<Label>, n: nat)
    requires n <= |steps|
  {
    forall i :: 0 <= i < n ==> !steps[i].LoseTail?
  }

  lemma StepWrites(s: State, s': State, step: Label)
    requires Step(s, s', step)
    ensures s'.expected <= s.expected + WrittenBy(s, step)
    ensures !step.LoseTail? ==> s'.expected == s.expected + WrittenBy(s, step)
  {
  }

  /** All that is expected was written in the run; and as long as the machine does not crash, all
      that was written is. */
  lemma {:induction false} ExpectedIsWritten(states: seq<State>, steps: seq<Label>, n: nat, e: Entry)
    requires IsRun(states, steps) && n < |states|
    ensures e in states[n].expected ==> exists i :: 0 <= i < n && e in WrittenBy(states[i], steps[i])
    ensures NoTailLost(steps, n) ==>
              (e in states[n].expected <==> exists i :: 0 <= i < n && e in WrittenBy(states[i], steps[i]))
  {
    hide Step, WrittenBy;
    if n > 0 {
      ExpectedIsWritten(states, steps, n - 1, e);
      assert Step(states[n - 1], states[n - 1 + 1], steps[n - 1]);
      StepWrites(states[n - 1], states[n], steps[n - 1]);
    }
  }

  /** A machine crash loses batches whole or not at all, and of a log only the last of them. */
  lemma LoseTailLosesTail(s: State, s': State, n: nat, k: nat)
    requires Inv(s) && Durable(s) && LoseTailStep(s, s', n, k) && n in Needed(s.disk)
    ensures var records := s.disk.logs[n].records;
            && s.expected == s'.expected + Records(records[k..])
            && (forall i :: 0 <= i < k ==> records[i] <= s'.expected)
            && (forall i :: k <= i < |records| ==> records[i] !! s'.expected)
  {
    var v, log := ViewOf(s.disk), s.disk.logs[n];
    assert n in v.logs && v.logs[n] == log;
    SoundParts(v, s.expected);
    hide Inv, Durable, ViewOf, InLogs, InTables, LogsInOrder, Sound, TablesApart, Records;
    LogInOrder(s.disk, n);
    OneIn(v.logs, n);
    CutWhole(log, k, s.expected);
  }

  /** A log whose batches are in order, cut: each batch is left whole or not at all. */
  lemma CutWhole(log: LogFile, k: nat, expected: set<Entry>)
    requires k <= |log.records| && InOrder(log.records) && Logged(log) <= expected
    ensures var left := expected - Records(log.records[k..]);
            && expected == left + Records(log.records[k..])
            && (forall i :: 0 <= i < k ==> log.records[i] <= left)
            && (forall i :: k <= i < |log.records| ==> log.records[i] !! left)
  {
    CutLog(log, k);
    hide InOrder, Earlier, Logged, Records;
    forall i | 0 <= i < k ensures log.records[i] <= Records(log.records[..k]) {
      OneOf(log.records[..k], i);
    }
    forall i | k <= i < |log.records| ensures log.records[i] <= Records(log.records[k..]) {
      OneOf(log.records[k..], i - k);
    }
  }

  lemma OneOf(records: seq<set<Entry>>, i: nat)
    requires i < |records|
    ensures records[i] <= Records(records)
  {
  }

  lemma {:induction false} PromisesGrow(states: seq<State>, steps: seq<Label>, i: nat, n: nat)
    requires IsRun(states, steps) && i <= n < |states|
    ensures states[i].promised <= states[n].promised
  {
    hide Step;
    if i < n {
      PromisesGrow(states, steps, i, n - 1);
      assert Step(states[n - 1], states[n - 1 + 1], steps[n - 1]);
      StepPromises(states[n - 1], states[n], steps[n - 1]);
    }
  }

  lemma StepPromises(s: State, s': State, step: Label)
    requires Step(s, s', step)
    ensures s.promised <= s'.promised
    ensures step.Write? && step.sync ==>
              && s'.phase.Running? && s'.phase.m.logFile in s'.disk.logs
              && Logged(s'.disk.logs[s'.phase.m.logFile]) <= s'.promised
  {
  }

  lemma KeptIsExpected(s: State, kept: set<Entry>)
    requires Durable(s) && PromiseKept(ViewOf(s.disk), s.expected, kept)
    ensures kept <= s.expected
  {
    var v := ViewOf(s.disk);
    forall e | e in SyncedRecords(v.logs) ensures e in InLogs(v.logs) {
      var n, i :| n in v.logs && 0 <= i < |v.logs[n].records| && i < v.logs[n].synced && e in v.logs[n].records[i];
      assert e in Logged(v.logs[n]);
    }
  }

  /** Whatever crashes come later, no batch of the log that a write has synced is lost. */
  lemma SyncedSurvive(states: seq<State>, steps: seq<Label>, i: nat, n: nat)
    requires IsRun(states, steps) && i < n < |states| && steps[i].Write? && steps[i].sync
    ensures var after := states[i + 1];
            && after.phase.Running? && after.phase.m.logFile in after.disk.logs
            && Logged(after.disk.logs[after.phase.m.logFile]) <= states[n].expected
  {
    hide Step, Durable, Inv, Logged;
    assert Step(states[i], states[i + 1], steps[i]);
    StepPromises(states[i], states[i + 1], steps[i]);
    PromisesGrow(states, steps, i + 1, n);
    RunStaysDurable(states, steps, n);
    Promises(states[n]);
    KeptIsExpected(states[n], states[n].promised);
  }

  lemma Promises(s: State)
    requires Durable(s)
    ensures PromiseKept(ViewOf(s.disk), s.expected, s.promised)
  {
  }

  // ----- exactly when a synced write covers those before it -----

  /** A log before the current one, which recovery would read, has a batch that was never synced. */
  ghost predicate OlderUnsynced(d: Disk, logFile: nat) {
    exists n, i :: n in Needed(d) && n != logFile && d.logs[n].synced <= i < |d.logs[n].records|
                   && d.logs[n].records[i] != {}
  }

  /** However the run goes on, whatever crashes come, nothing is lost of what is expected at its end. */
  ghost predicate SafeFromHere(states: seq<State>, steps: seq<Label>)
    requires states != []
  {
    forall more: seq<State>, next: seq<Label> :: IsRun(states + more, steps + next) ==>
      states[|states| - 1].expected <= (states + more)[|states + more| - 1].expected
  }

  /** A promise that is kept stays so, whether or not anyone made it. */
  lemma StepKeepsKept(s: State, s': State, step: Label, kept: set<Entry>)
    requires Inv(s) && Durable(s) && Step(s, s', step) && PromiseKept(ViewOf(s.disk), s.expected, kept)
    ensures PromiseKept(ViewOf(s'.disk), s'.expected, kept)
  {
    var t, t' := s.(promised := s.promised + kept), s'.(promised := s'.promised + kept);
    PromisedStep(s, s', step, kept);
    Promising(s, kept);
    hide Inv, Step, Durable;
    StepKeepsDurable(t, t', step);
    Promised(t');
    assert kept <= t'.promised;
  }

  lemma Promising(s: State, kept: set<Entry>)
    requires Inv(s) && Durable(s) && PromiseKept(ViewOf(s.disk), s.expected, kept)
    ensures Inv(s.(promised := s.promised + kept)) && Durable(s.(promised := s.promised + kept))
  {
    hide RunningOk, OpenOk, Sound, ViewOf, Settled, SyncedRecords;
  }

  lemma Promised(s: State)
    requires Durable(s)
    ensures PromiseKept(ViewOf(s.disk), s.expected, s.promised)
  {
  }

  lemma PromisedStep(s: State, s': State, step: Label, kept: set<Entry>)
    requires Step(s, s', step)
    ensures Step(s.(promised := s.promised + kept), s'.(promised := s'.promised + kept), step)
  {
  }

  lemma {:induction false} RunKeepsKept(states: seq<State>, steps: seq<Label>, i: nat, n: nat, kept: set<Entry>)
    requires IsRun(states, steps) && i <= n < |states|
    requires PromiseKept(ViewOf(states[i].disk), states[i].expected, kept)
    ensures PromiseKept(ViewOf(states[n].disk), states[n].expected, kept)
  {
    hide Inv, Durable, Step, PromiseKept;
    if i < n {
      RunKeepsKept(states, steps, i, n - 1, kept);
      RunStaysDurable(states, steps, n - 1);
      assert Step(states[n - 1], states[n - 1 + 1], steps[n - 1]);
      StepKeepsKept(states[n - 1], states[n], steps[n - 1], kept);
    }
  }

  /** With the current log synced and nothing unsynced in those before it, all that is expected is settled or synced. */
  lemma AllSynced(s: State, logFile: nat)
    requires !OlderUnsynced(s.disk, logFile)
    requires logFile in s.disk.logs && s.disk.logs[logFile].synced == |s.disk.logs[logFile].records|
    ensures PromiseKept(ViewOf(s.disk), s.expected, s.expected)
  {
    var v := ViewOf(s.disk);
    forall e | e in InLogs(v.logs) ensures e in SyncedRecords(v.logs) {
      var n :| n in v.logs && e in Logged(v.logs[n]);
      var i :| 0 <= i < |v.logs[n].records| && e in v.logs[n].records[i];
      assert n in Needed(s.disk) && v.logs[n] == s.disk.logs[n];
      assert i < v.logs[n].synced;
      assert n in v.logs && 0 <= i < |v.logs[n].records| && i < v.logs[n].synced && e in v.logs[n].records[i];
    }
  }

  /** A machine crash right away loses the unsynced batch of an older log. */
  lemma LosesUnsynced(states: seq<State>, steps: seq<Label>, n: nat, i: nat)
    requires IsRun(states, steps) && var d := states[|states| - 1].disk;
      n in Needed(d) && d.logs[n].synced <= i < |d.logs[n].records| && d.logs[n].records[i] != {}
    ensures !SafeFromHere(states, steps)
  {
    RunStaysDurable(states, steps, |states| - 1);
    hide Inv, Durable, Step, Needed;
    var down, lost, k, e := TailLost(states[|states| - 1], n, i);
    RunOn(states, steps, down, lost, n, k);
    NotSafe(states, steps, [down, lost], [Crash, LoseTail(n, k)], e);
  }

  lemma NotSafe(states: seq<State>, steps: seq<Label>, more: seq<State>, next: seq<Label>, e: Entry)
    requires IsRun(states, steps) && IsRun(states + more, steps + next) && more != []
    requires e in states[|states| - 1].expected && e !in more[|more| - 1].expected
    ensures !SafeFromHere(states, steps)
  {
    hide Step;
    assert (states + more)[|states + more| - 1] == more[|more| - 1];
  }

  /** The two steps of a machine crash in which the unsynced end of a log is lost. */
  lemma TailLost(s: State, n: nat, i: nat) returns (down: State, lost: State, k: nat, e: Entry)
    requires Inv(s) && Durable(s) && n in Needed(s.disk)
    requires s.disk.logs[n].synced <= i < |s.disk.logs[n].records| && s.disk.logs[n].records[i] != {}
    ensures Step(s, down, Crash) && Step(down, lost, LoseTail(n, k)) && e in s.expected && e !in lost.expected
  {
    down := s.(phase := Down);
    var log := s.disk.logs[n];
    k := log.synced;
    lost := down.(disk := s.disk.(logs := s.disk.logs[n := log.(records := log.records[..k])]),
                  expected := s.expected - Records(log.records[k..]));
    assert CrashStep(s, down) && LoseTailStep(down, lost, n, k);
    CrashStaysDurable(s, down);
    hide Inv, Durable, LoseTailStep, Records;
    assert Step(s, down, Crash) && Step(down, lost, LoseTail(n, k));
    LoseTailLosesTail(down, lost, n, k);
    e :| e in log.records[i];
    InTail(log.records, k, i, e);
  }

  lemma CrashStaysDurable(s: State, down: State)
    requires Inv(s) && Durable(s) && CrashStep(s, down)
    ensures Inv(down) && Durable(down)
  {
  }

  lemma InTail(records: seq<set<Entry>>, k: nat, i: nat, e: Entry)
    requires k <= i < |records| && e in records[i]
    ensures e in Records(records[k..])
  {
    assert records[k..][i - k] == records[i];
  }

  lemma RunOn(states: seq<State>, steps: seq<Label>, down: State, lost: State, n: nat, k: nat)
    requires IsRun(states, steps)
    requires Step(states[|states| - 1], down, Crash) && Step(down, lost, LoseTail(n, k))
    ensures IsRun(states + [down, lost], steps + [Crash, LoseTail(n, k)])
  {
    hide Step;
    var all, labels := states + [down, lost], steps + [Crash, LoseTail(n, k)];
    forall i | 0 <= i < |labels| ensures Step(all[i], all[i + 1], labels[i]) {
      if i < |steps| {
        assert all[i] == states[i] && all[i + 1] == states[i + 1] && labels[i] == steps[i];
      }
    }
  }

  /** After a synced write, all that was written so far and not lost survives every later run if and only if, before it,
      no older log that recovery needs had an unsynced batch. */
  lemma SyncCoversIff(states: seq<State>, steps: seq<Label>)
    requires IsRun(states, steps) && steps != [] && steps[|steps| - 1].Write? && steps[|steps| - 1].sync
    ensures var before := states[|steps| - 1];
            && before.phase.Running?
            && (SafeFromHere(states, steps) <==> !OlderUnsynced(before.disk, before.phase.m.logFile))
  {
    var last := |steps| - 1;
    var s, s', step := states[last], states[last + 1], steps[last];
    assert Step(s, s', step);
    RunStaysDurable(states, steps, last);
    RunStaysDurable(states, steps, last + 1);
    var logFile := s.phase.m.logFile;
    WriteLeavesOlder(s, s', step.batch);
    hide Step, Inv, Durable, PromiseKept, ViewOf;
    if OlderUnsynced(s'.disk, logFile) {
      var n, i :| n in Needed(s'.disk) && n != logFile && s'.disk.logs[n].synced <= i < |s'.disk.logs[n].records|
                  && s'.disk.logs[n].records[i] != {};
      LosesUnsynced(states, steps, n, i);
    } else {
      AllSynced(s', logFile);
      forall more: seq<State>, next: seq<Label> | IsRun(states + more, steps + next)
        ensures s'.expected <= (states + more)[|states + more| - 1].expected
      {
        var all := states + more;
        RunStaysDurable(all, steps + next, |all| - 1);
        assert all[last + 1] == s';
        RunKeepsKept(all, steps + next, last + 1, |all| - 1, s'.expected);
        KeptIsExpected(all[|all| - 1], s'.expected);
      }
    }
  }

  lemma WriteLeavesOlder(s: State, s': State, batch: seq<Store.Op>)
    requires Inv(s) && WriteStep(s, s', batch, true)
    ensures var n := s.phase.m.logFile;
            && (OlderUnsynced(s'.disk, n) <==> OlderUnsynced(s.disk, n))
            && n in s'.disk.logs && s'.disk.logs[n].synced == |s'.disk.logs[n].records|
  {
    hide Inv, Store.BatchEntries;
    var n := s.phase.m.logFile;
    assert Needed(s'.disk) == Needed(s.disk);
    forall m | m in Needed(s.disk) && m != n ensures s'.disk.logs[m] == s.disk.logs[m] {
    }
    if OlderUnsynced(s.disk, n) {
      var m, i :| m in Needed(s.disk) && m != n && s.disk.logs[m].synced <= i < |s.disk.logs[m].records|
                  && s.disk.logs[m].records[i] != {};
      assert s'.disk.logs[m].records[i] != {};
    }
    if OlderUnsynced(s'.disk, n) {
      var m, i :| m in Needed(s'.disk) && m != n && s'.disk.logs[m].synced <= i < |s'.disk.logs[m].records|
                  && s'.disk.logs[m].records[i] != {};
      assert s.disk.logs[m].records[i] != {};
    }
  }

  ghost predicate OlderSynced(d: Disk, logFile: nat) {
    forall n :: n in Needed(d) && n != logFile ==> d.logs[n].synced >= |d.logs[n].records|
  }

  /** So a caller is safe while no immutable memtable waits to be recorded, or when the logs before the current one are
      synced to their ends. */
  lemma NothingWaiting(s: State)
    requires Inv(s) && s.phase.Running?
    ensures Unflushed(s.phase.m) == {} ==> !OlderUnsynced(s.disk, s.phase.m.logFile)
    ensures OlderSynced(s.disk, s.phase.m.logFile) ==> !OlderUnsynced(s.disk, s.phase.m.logFile)
  {
    var d, m := s.disk, s.phase.m;
    if OlderUnsynced(d, m.logFile) {
      var n, i :| n in Needed(d) && n != m.logFile && d.logs[n].synced <= i < |d.logs[n].records|
                  && d.logs[n].records[i] != {};
      var e :| e in d.logs[n].records[i];
      assert e in Logged(d.logs[n]);
      assert e in LogEntries(d.logs, Needed(d) - {m.logFile});
    }
  }

  // ----- what a synced write does not promise -----

  const FIRST: Entry := Entry(InternalKey(1.0, 1, Value), [])
  const SECOND: Entry := Entry(InternalKey(2.0, 2, Value), [])

  lemma OneBatch(user: UserKey, sequence: SequenceNumber)
    ensures Store.BatchEntries([Store.Put(user, [])], sequence) == {Entry(InternalKey(user, sequence, Value), [])}
  {
    var batch := [Store.Put(user, [])];
    assert Store.EntryOf(batch[0], sequence + 0) == Entry(InternalKey(user, sequence, Value), []);
  }

  ghost function Fresh(logs: map<nat, LogFile>, mem: set<Entry>, imm: Option<set<Entry>>, last: SequenceNumber,
                       expected: set<Entry>, promised: set<Entry>): State {
    var log, next := if imm.Some? then 4 else 3, if imm.Some? then 5 else 4;
    State(Disk(logs, map[], {}, 3, 4, 0), Running(Memory(mem, imm, log, 3, {}, [], {}, next, last, NoFlush, NoJob)),
          expected, promised, 0)
  }

  const LOG_ONE: LogFile := LogFile([{FIRST}], 0)
  const LOG_TWO: LogFile := LogFile([{SECOND}], 1)

  lemma WriteFirst()
    ensures WriteStep(Fresh(map[3 := NEW_LOG], {}, None, 0, {}, {}),
                      Fresh(map[3 := LOG_ONE], {FIRST}, None, 1, {FIRST}, {}),
                      [Store.Put(1.0, [])], false)
  {
    OneBatch(1.0, 1);
    assert Appended(NEW_LOG, {FIRST}, false) == LOG_ONE && {} + {FIRST} == {FIRST};
    assert map[3 := NEW_LOG][3 := LOG_ONE] == map[3 := LOG_ONE];
  }

  lemma WriteSecond()
    ensures WriteStep(Fresh(map[3 := LOG_ONE, 4 := NEW_LOG], {}, Some({FIRST}), 1, {FIRST}, {}),
                      Fresh(map[3 := LOG_ONE, 4 := LOG_TWO], {SECOND}, Some({FIRST}), 2, {FIRST, SECOND}, {SECOND}),
                      [Store.Put(2.0, [])], true)
  {
    OneBatch(2.0, 2);
    OneRecord({SECOND});
    assert Appended(NEW_LOG, {SECOND}, true) == LOG_TWO;
    assert {} + {SECOND} == {SECOND} && {FIRST} + {SECOND} == {FIRST, SECOND};
    assert map[3 := LOG_ONE, 4 := NEW_LOG][4 := LOG_TWO] == map[3 := LOG_ONE, 4 := LOG_TWO];
  }

  /** A new database is opened, one value is written to its first log and, after a change of memtables, another to the
      second log, with a sync. */
  lemma TwoLogs() returns (states: seq<State>, steps: seq<Label>)
    ensures IsRun(states, steps) && |steps| == 5 && steps[4].Write? && steps[4].sync && states[4].expected == {FIRST}
    ensures states[5] == Fresh(map[3 := LOG_ONE, 4 := LOG_TWO], {SECOND}, Some({FIRST}), 2, {FIRST, SECOND}, {SECOND})
  {
    var put1, put2 := [Store.Put(1.0, [])], [Store.Put(2.0, [])];
    var s0 := Init();
    var s1 := s0.(phase := Open(Opening([], 0, {}, {}, 3, false, None, 0, true)));
    var s2 := Fresh(map[3 := NEW_LOG], {}, None, 0, {}, {});
    var s3 := Fresh(map[3 := LOG_ONE], {FIRST}, None, 1, {FIRST}, {});
    var s4 := Fresh(map[3 := LOG_ONE, 4 := NEW_LOG], {}, Some({FIRST}), 1, {FIRST}, {});
    var s5 := Fresh(map[3 := LOG_ONE, 4 := LOG_TWO], {SECOND}, Some({FIRST}), 2, {FIRST, SECOND}, {SECOND});
    assert OpenStep(s0, s1, [], true) by {
      assert Needed(s0.disk) == {} && ToSet<nat>([]) == {};
    }
    assert CommitStep(s1, s2);
    WriteFirst();
    assert SwitchStep(s3, s4);
    WriteSecond();
    hide WriteStep, CommitStep, SwitchStep, OpenStep, Fresh;
    states := [s0, s1, s2, s3, s4, s5];
    steps := [BeginOpen([], true), Commit, Write(put1, false), Switch, Write(put2, true)];
  }

  /** The machine crashes: the write before the synced one is lost, for it is in a log that was not synced. */
  lemma SyncSkipsOlderLog() returns (states: seq<State>, steps: seq<Label>)
    ensures IsRun(states, steps) && |steps| == 7 && steps[4].Write? && steps[4].sync
    ensures FIRST in states[4].expected && states[7].expected == {SECOND}
  {
    var front, begun := TwoLogs();
    var s5 := front[5];
    var s6 := s5.(phase := Down);
    var cut := s6.disk.logs[3 := LogFile([], 0)];
    var s7 := s6.(disk := s6.disk.(logs := cut), expected := {SECOND});
    OneRecord({FIRST});
    assert [{FIRST}][0..] == [{FIRST}] && [{FIRST}][..0] == [];
    assert 3 in Needed(s6.disk) && {FIRST, SECOND} - {FIRST} == {SECOND};
    assert LoseTailStep(s6, s7, 3, 0);
    states, steps := front + [s6, s7], begun + [Crash, LoseTail(3, 0)];
  }
}
