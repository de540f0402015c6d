/**
 Point lookup: memtable, immutable memtable, then the levels of the current version, stopping at
 the first hit.  It returns what a flat scan of every stored entry would.
*/
module Lookup {
  import opened Format
  import opened Reads
  import opened Tables

  /** The levels of a version; level zero may overlap, the others are ordered. */
  type Levels = seq<set<Table>>

  ghost function AllEntries(levels: Levels): set<Entry> {
    set l, e | 0 <= l < |levels| && e in EntriesOf(levels[l]) :: e
  }

  ghost function LevelsOf(files: seq<seq<Table>>): Levels {
    seq(|files|, l requires 0 <= l < |files| => ToSet(files[l]))
  }

  /** Between two levels, the shallower one holds the newer entries of any user key they share. */
  ghost predicate NewerAbove(levels: Levels) {
    forall i, j :: 0 <= i < j < |levels| ==> NewerThan(EntriesOf(levels[i]), EntriesOf(levels[j]))
  }

  /** In level zero, file numbers order the entries of any user key two files share. */
  ghost predicate NewerByNumber(files: set<Table>) {
    && (forall f, g :: f in files && g in files && f.number == g.number ==> f == g)
    && (forall f, g :: f in files && g in files && f.number < g.number ==>
          NewerThan(ToSet(g.entries), ToSet(f.entries)))
  }

  ghost predicate Searchable(files: seq<seq<Table>>) {
    && |files| == NUM_LEVELS
    && NewerAbove(LevelsOf(files))
    && NewerByNumber(ToSet(files[0]))
    && (forall l :: 1 <= l < NUM_LEVELS ==> Ordered(files[l]))
    && (forall l :: 0 <= l < NUM_LEVELS ==> AllFilled(ToSet(files[l])))
  }

  datatype Found = NotHere | Here(e: Entry)

  ghost predicate FoundIn(es: set<Entry>, user: UserKey, snapshot: SequenceNumber, r: Found) {
    match r
    case NotHere => Nothing(es, user, snapshot)
    case Here(e) => Newest(es, user, snapshot, e)
  }

  /** Seek the lookup key in one sorted run; the entry there counts only if it has the user key sought. */
  method SeekRun(run: seq<Entry>, user: UserKey, snapshot: SequenceNumber) returns (r: Found)
    requires Sorted(run)
    ensures FoundIn(ToSet(run), user, snapshot, r)
  {
    var target := LookupKey(user, snapshot);
    var i := 0;
    while i < |run| && Before(run[i].key, target)
      invariant 0 <= i <= |run|
      invariant forall j :: 0 <= j < i ==> Before(run[j].key, target)
    {
      i := i + 1;
    }
    forall j | 0 <= j < |run| ensures Visible(ToSet(run), user, snapshot, run[j]) ==> i <= j {
      LookupKeySkips(user, snapshot, run[j].key);
    }
    if i < |run| && run[i].key.user == user {
      LookupKeySkips(user, snapshot, run[i].key);
      forall x | Visible(ToSet(run), user, snapshot, x) ensures x.key.sequence <= run[i].key.sequence {
        var j :| 0 <= j < |run| && run[j] == x;
        assert j == i || Before(run[i].key, run[j].key);
      }
      return Here(run[i]);
    }
    forall x ensures !Visible(ToSet(run), user, snapshot, x) {
      if j :| 0 <= j < |run| && run[j] == x {
        if i <= j {
          LookupKeySkips(user, snapshot, run[i].key);
          assert j == i || Before(run[i].key, run[j].key);
        }
      }
    }
    return NotHere;
  }

  ghost predicate Descending(files: seq<Table>) {
    forall i, j :: 0 <= i < j < |files| ==> files[i].number >= files[j].number
  }

  /** The first `n` files have nothing to offer. */
  ghost predicate Missed(files: seq<Table>, n: nat, user: UserKey, snapshot: SequenceNumber)
    requires n <= |files|
  {
    forall j :: 0 <= j < n ==> Nothing(ToSet(files[j].entries), user, snapshot)
  }

  method InsertNewestFirst(sorted: seq<Table>, f: Table) returns (r: seq<Table>)
    requires Descending(sorted)
    ensures Descending(r)
    ensures ToSet(r) == ToSet(sorted) + {f}
  {
    var at := 0;
    while at < |sorted| && sorted[at].number >= f.number
      invariant 0 <= at <= |sorted|
      invariant forall i :: 0 <= i < at ==> sorted[i].number >= f.number
    {
      at := at + 1;
    }
    r := InsertAt(sorted, at, f);
    InsertAtMembers(sorted, at, f);
  }

  /** Level-zero candidates in order of decreasing file number. */
  method NewestFirst(files: seq<Table>) returns (sorted: seq<Table>)
    ensures ToSet(sorted) == ToSet(files)
    ensures Descending(sorted)
  {
    sorted := [];
    for n := 0 to |files|
      invariant ToSet(sorted) == ToSet(files[..n])
      invariant Descending(sorted)
    {
      sorted := InsertNewestFirst(sorted, files[n]);
      ToSetTake(files, n);
    }
    assert files[..|files|] == files;
  }

  predicate Covers(f: Table, user: UserKey) {
    user >= f.smallest.user && user <= f.largest.user
  }

  method FilesCovering(files: seq<Table>, user: UserKey) returns (candidates: seq<Table>)
    ensures ToSet(candidates) == set f | f in ToSet(files) && Covers(f, user)
  {
    candidates := [];
    for i := 0 to |files|
      invariant ToSet(candidates) == set f | f in ToSet(files[..i]) && Covers(f, user)
    {
      ToSetTake(files, i);
      if Covers(files[i], user) {
        ToSetConcat(candidates, [files[i]]);
        candidates := candidates + [files[i]];
      }
    }
    assert files[..|files|] == files;
  }

  /** Newer files first: a hit after only misses is the newest entry of all. */
  lemma FirstHit(candidates: seq<Table>, i: nat, user: UserKey, snapshot: SequenceNumber, e: Entry)
    requires NewerByNumber(ToSet(candidates)) && i < |candidates|
    requires Descending(candidates)
    requires Missed(candidates, i, user, snapshot)
    requires Newest(ToSet(candidates[i].entries), user, snapshot, e)
    ensures Newest(EntriesOf(ToSet(candidates)), user, snapshot, e)
  {
    assert candidates[i] in ToSet(candidates);
    forall x | Visible(EntriesOf(ToSet(candidates)), user, snapshot, x) ensures x.key.sequence <= e.key.sequence {
      var f :| f in ToSet(candidates) && x in f.entries;
      var j :| 0 <= j < |candidates| && candidates[j] == f;
      LaterIsOlder(candidates, i, j, user, snapshot, e, x);
    }
  }

  lemma LaterIsOlder(candidates: seq<Table>, i: nat, j: nat, user: UserKey, snapshot: SequenceNumber, e: Entry,
                     x: Entry)
    requires NewerByNumber(ToSet(candidates)) && i < |candidates| && j < |candidates| && Descending(candidates)
    requires Missed(candidates, i, user, snapshot) && Newest(ToSet(candidates[i].entries), user, snapshot, e)
    requires Visible(ToSet(candidates[j].entries), user, snapshot, x)
    ensures x.key.sequence <= e.key.sequence
  {
    if j > i {
      assert candidates[i] in ToSet(candidates) && candidates[j] in ToSet(candidates);
      assert candidates[i] != candidates[j] ==> NewerThan(ToSet(candidates[i].entries), ToSet(candidates[j].entries));
    }
  }

  lemma NoHit(candidates: seq<Table>, user: UserKey, snapshot: SequenceNumber)
    requires Missed(candidates, |candidates|, user, snapshot)
    ensures Nothing(EntriesOf(ToSet(candidates)), user, snapshot)
  {
    forall f, x | f in ToSet(candidates) && x in f.entries ensures !(x.key.user == user && x.key.sequence <= snapshot) {
      var j :| 0 <= j < |candidates| && candidates[j] == f;
      assert !Visible(ToSet(f.entries), user, snapshot, x);
    }
  }

  lemma MissedOneMore(files: seq<Table>, n: nat, user: UserKey, snapshot: SequenceNumber)
    requires n < |files| && Missed(files, n, user, snapshot) && Nothing(ToSet(files[n].entries), user, snapshot)
    ensures Missed(files, n + 1, user, snapshot)
  {
  }

  method SearchInTurn(candidates: seq<Table>, user: UserKey, snapshot: SequenceNumber) returns (r: Found)
    requires NewerByNumber(ToSet(candidates)) && AllFilled(ToSet(candidates))
    requires Descending(candidates)
    ensures FoundIn(EntriesOf(ToSet(candidates)), user, snapshot, r)
  {
    for i := 0 to |candidates|
      invariant Missed(candidates, i, user, snapshot)
    {
      assert candidates[i] in ToSet(candidates);
      AscendingIsSorted(candidates[i].entries);
      r := SeekRun(candidates[i].entries, user, snapshot);
      if r.Here? {
        FirstHit(candidates, i, user, snapshot, r.e);
        return;
      }
      MissedOneMore(candidates, i, user, snapshot);
    }
    NoHit(candidates, user, snapshot);
    return NotHere;
  }

  lemma CoveringFilesDecide(files: set<Table>, covering: set<Table>, user: UserKey, snapshot: SequenceNumber, x: Entry)
    requires AllFilled(files) && covering == set f | f in files && Covers(f, user)
    ensures Visible(EntriesOf(files), user, snapshot, x) <==> Visible(EntriesOf(covering), user, snapshot, x)
  {
    if Visible(EntriesOf(files), user, snapshot, x) {
      var f :| f in files && x in f.entries;
      EntryWithin(f, x);
      assert f in covering;
    }
  }

  method SearchLevelZero(files: seq<Table>, user: UserKey, snapshot: SequenceNumber) returns (r: Found)
    requires NewerByNumber(ToSet(files)) && AllFilled(ToSet(files))
    ensures FoundIn(EntriesOf(ToSet(files)), user, snapshot, r)
  {
    var candidates := FilesCovering(files, user);
    var sorted := NewestFirst(candidates);
    r := SearchInTurn(sorted, user, snapshot);
    forall x ensures Visible(EntriesOf(ToSet(files)), user, snapshot, x)
                     <==> Visible(EntriesOf(ToSet(sorted)), user, snapshot, x)
    {
      CoveringFilesDecide(ToSet(files), ToSet(sorted), user, snapshot, x);
    }
  }

  method SearchOrderedLevel(files: seq<Table>, user: UserKey, snapshot: SequenceNumber) returns (r: Found)
    requires Ordered(files) && AllFilled(ToSet(files))
    ensures FoundIn(EntriesOf(ToSet(files)), user, snapshot, r)
  {
    var index := FindFile(files, LookupKey(user, snapshot));
    assert forall i :: 0 <= i < |files| ==> files[i] in ToSet(files);
    forall i, e | 0 <= i < index && e in files[i].entries ensures !(e.key.user == user && e.key.sequence <= snapshot) {
      EntryWithin(files[i], e);
      LookupKeySkips(user, snapshot, e.key);
    }
    if index >= |files| || user < files[index].smallest.user {
      forall i, e | index <= i < |files| && e in files[i].entries ensures e.key.user != user {
        EntryWithin(files[i], e);
        assert i == index || Before(files[index].largest, files[i].smallest);
      }
      return NotHere;
    }
    AscendingIsSorted(files[index].entries);
    r := SeekRun(files[index].entries, user, snapshot);
    LookupKeySkips(user, snapshot, files[index].largest);
    forall i, e | index < i < |files| && e in files[i].entries && e.key.user == user
      ensures files[index].largest.user == user && e.key.sequence <= files[index].largest.sequence <= snapshot
    {
      EntryWithin(files[i], e);
      assert Before(files[index].largest, files[i].smallest);
    }
    var last := files[index].entries[|files[index].entries| - 1];
    assert last in ToSet(files[index].entries);
    assert last.key.user == user ==> Visible(ToSet(files[index].entries), user, snapshot, last);
    forall x | Visible(EntriesOf(ToSet(files)), user, snapshot, x)
      ensures Visible(ToSet(files[index].entries), user, snapshot, x) || last.key.user == user
      ensures r.Here? && x.key.sequence <= r.e.key.sequence
    {
      var f :| f in ToSet(files) && x in f.entries;
      var j :| 0 <= j < |files| && files[j] == f;
      assert j >= index;
      assert j == index ==> Visible(ToSet(files[index].entries), user, snapshot, x);
    }
    assert files[index] in ToSet(files);
  }

  /** A hit in a shallower part decides, because everything under it is older. */
  lemma HitDecides(over: set<Entry>, under: set<Entry>, user: UserKey, snapshot: SequenceNumber, r: Found)
    requires NewerThan(over, under) && FoundIn(over, user, snapshot, r) && r.Here?
    ensures Newest(over + under, user, snapshot, r.e)
  {
    forall x | Visible(over + under, user, snapshot, x) ensures x.key.sequence <= r.e.key.sequence {
      assert x in over ==> Visible(over, user, snapshot, x);
    }
  }

  lemma MissDefers(over: set<Entry>, under: set<Entry>, user: UserKey, snapshot: SequenceNumber, r: Found)
    requires Nothing(over, user, snapshot) && FoundIn(under, user, snapshot, r)
    ensures FoundIn(over + under, user, snapshot, r)
  {
    forall x | Visible(over + under, user, snapshot, x) ensures Visible(under, user, snapshot, x) {
      assert !Visible(over, user, snapshot, x);
    }
    if r.NotHere? {
      forall x ensures !Visible(over + under, user, snapshot, x) {
        assert !Visible(under, user, snapshot, x);
      }
    }
  }

  lemma AllEntriesConcat(a: Levels, b: Levels)
    ensures AllEntries(a + b) == AllEntries(a) + AllEntries(b)
  {
    forall e ensures e in AllEntries(a + b) <==> e in AllEntries(a) + AllEntries(b) {
      if l :| 0 <= l < |a + b| && e in EntriesOf((a + b)[l]) {
        assert if l < |a| then e in EntriesOf(a[l]) else e in EntriesOf(b[l - |a|]);
      }
      if l :| 0 <= l < |a| && e in EntriesOf(a[l]) {
        assert e in EntriesOf((a + b)[l]);
      }
      if l :| 0 <= l < |b| && e in EntriesOf(b[l]) {
        assert e in EntriesOf((a + b)[|a| + l]);
      }
    }
  }

  lemma AllEntriesOne(files: set<Table>)
    ensures AllEntries([files]) == EntriesOf(files)
  {
    forall e ensures e in AllEntries([files]) <==> e in EntriesOf(files) {
      assert [files][0] == files;
    }
  }

  lemma SplitAt(levels: Levels, n: nat)
    requires n < |levels|
    ensures AllEntries(levels[..n + 1]) == AllEntries(levels[..n]) + EntriesOf(levels[n])
    ensures AllEntries(levels) == AllEntries(levels[..n + 1]) + AllEntries(levels[n + 1..])
  {
    assert levels[..n + 1] == levels[..n] + [levels[n]];
    AllEntriesConcat(levels[..n], [levels[n]]);
    AllEntriesOne(levels[n]);
    assert levels == levels[..n + 1] + levels[n + 1..];
    AllEntriesConcat(levels[..n + 1], levels[n + 1..]);
  }

  lemma UpperNewer(levels: Levels, n: nat)
    requires n <= |levels| && NewerAbove(levels)
    ensures NewerThan(AllEntries(levels[..n]), AllEntries(levels[n..]))
  {
    forall x, y | x in AllEntries(levels[..n]) && y in AllEntries(levels[n..]) && x.key.user == y.key.user
      ensures x.key.sequence > y.key.sequence
    {
      var i :| 0 <= i < n && x in EntriesOf(levels[..n][i]);
      var j :| 0 <= j < |levels| - n && y in EntriesOf(levels[n..][j]);
      assert NewerThan(EntriesOf(levels[i]), EntriesOf(levels[n + j]));
    }
  }

  /** After level `n`: either the lookup is decided, or nothing so far matches. */
  lemma LevelSearched(levels: Levels, n: nat, user: UserKey, snapshot: SequenceNumber, r: Found)
    requires n < |levels| && NewerAbove(levels)
    requires Nothing(AllEntries(levels[..n]), user, snapshot) && FoundIn(EntriesOf(levels[n]), user, snapshot, r)
    ensures r.Here? ==> FoundIn(AllEntries(levels), user, snapshot, r)
    ensures r.NotHere? ==> Nothing(AllEntries(levels[..n + 1]), user, snapshot)
  {
    SplitAt(levels, n);
    MissDefers(AllEntries(levels[..n]), EntriesOf(levels[n]), user, snapshot, r);
    if r.Here? {
      UpperNewer(levels, n + 1);
      HitDecides(AllEntries(levels[..n + 1]), AllEntries(levels[n + 1..]), user, snapshot, r);
    }
  }

  method SearchLevel(level: nat, files: seq<Table>, user: UserKey, snapshot: SequenceNumber) returns (r: Found)
    requires if level == 0 then NewerByNumber(ToSet(files)) else Ordered(files)
    requires AllFilled(ToSet(files))
    ensures FoundIn(EntriesOf(ToSet(files)), user, snapshot, r)
  {
    if files == [] {
      r := NotHere;
    } else if level == 0 {
      r := SearchLevelZero(files, user, snapshot);
    } else {
      r := SearchOrderedLevel(files, user, snapshot);
    }
  }

  /** Version::Get: level by level, stopping at the first hit. */
  method SearchVersion(files: seq<seq<Table>>, user: UserKey, snapshot: SequenceNumber) returns (r: Found)
    requires Searchable(files)
    ensures FoundIn(AllEntries(LevelsOf(files)), user, snapshot, r)
  {
    ghost var levels := LevelsOf(files);
    for level := 0 to NUM_LEVELS
      invariant Nothing(AllEntries(levels[..level]), user, snapshot)
    {
      r := SearchLevel(level, files[level], user, snapshot);
      assert levels[level] == ToSet(files[level]);
      LevelSearched(levels, level, user, snapshot, r);
      if r.Here? {
        return;
      }
    }
    assert levels[..NUM_LEVELS] == levels;
    return NotHere;
  }

  ghost function ImmEntries(imm: Option<seq<Entry>>): set<Entry> {
    if imm.Some? then ToSet(imm.value) else {}
  }

  /** DBImpl::Get.  Memtables are the sorted runs their skip lists hold. */
  method Get(mem: seq<Entry>, imm: Option<seq<Entry>>, files: seq<seq<Table>>,
             user: UserKey, snapshot: SequenceNumber) returns (result: Option<Bytes>)
    requires Sorted(mem) && (imm.Some? ==> Sorted(imm.value)) && Searchable(files)
    requires NewerThan(ToSet(mem), ImmEntries(imm) + AllEntries(LevelsOf(files)))
    requires NewerThan(ImmEntries(imm), AllEntries(LevelsOf(files)))
    requires Unique(ToSet(mem) + (ImmEntries(imm) + AllEntries(LevelsOf(files))))
    ensures result == Read(ToSet(mem) + (ImmEntries(imm) + AllEntries(LevelsOf(files))), user, snapshot)
  {
    ghost var under := AllEntries(LevelsOf(files));
    var r := SeekRun(mem, user, snapshot);
    if r.NotHere? {
      if imm.Some? {
        r := SeekRun(imm.value, user, snapshot);
      }
      if r.NotHere? {
        assert Nothing(ImmEntries(imm), user, snapshot);
        r := SearchVersion(files, user, snapshot);
        MissDefers(ImmEntries(imm), under, user, snapshot, r);
      } else {
        HitDecides(ImmEntries(imm), under, user, snapshot, r);
      }
      MissDefers(ToSet(mem), ImmEntries(imm) + under, user, snapshot, r);
    } else {
      HitDecides(ToSet(mem), ImmEntries(imm) + under, user, snapshot, r);
    }
    if r.Here? {
      ReadNewest(ToSet(mem) + (ImmEntries(imm) + under), user, snapshot, r.e);
      return Result(r.e);
    }
    ReadNothing(ToSet(mem) + (ImmEntries(imm) + under), user, snapshot);
    return None;
  }
}
