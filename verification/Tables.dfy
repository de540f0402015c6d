/**
 Table files: their metadata, the entries stored in them, and the two searches over the file
 list of one level.
*/
module Tables {
  import opened Format

  datatype File = File(number: nat, size: nat, smallest: InternalKey, largest: InternalKey, entries: seq<Entry>)

  type Table = f: File | !Before(f.largest, f.smallest)
    witness File(0, 0, InternalKey(0.0, 0, Value), InternalKey(0.0, 0, Value), [])

  /** The table stores a sorted run of entries, and its recorded bounds are the first and the last of them. */
  ghost predicate Filled(f: Table) {
    && f.entries != [] && Ascending(f.entries)
    && f.smallest == f.entries[0].key
    && f.largest == f.entries[|f.entries| - 1].key
  }

  ghost predicate AllFilled(files: set<Table>) {
    forall f :: f in files ==> Filled(f)
  }

  /** A level above zero: tables in key order, none overlapping the next. */
  ghost predicate Ordered(files: seq<Table>) {
    forall i, j :: 0 <= i < j < |files| ==> Before(files[i].largest, files[j].smallest)
  }

  ghost function EntriesOf(files: set<Table>): set<Entry> {
    set f, e | f in files && e in f.entries :: e
  }

  /** Any entries with different keys can be a table. */
  lemma TableHolding(es: set<Entry>, number: nat) returns (f: Table)
    requires Unique(es) && es != {}
    ensures Filled(f) && ToSet(f.entries) == es && f.number == number
  {
    var run := SortedRun(es);
    assert run != [] by {
      var e :| e in es;
      assert e in ToSet(run);
    }
    AscendingIsSorted(run);
    assert |run| == 1 || Before(run[0].key, run[|run| - 1].key);
    f := File(number, 0, run[0].key, run[|run| - 1].key, run);
  }

  lemma EntryWithin(f: Table, e: Entry)
    requires Filled(f) && e in f.entries
    ensures e.key == f.smallest || Before(f.smallest, e.key)
    ensures e.key == f.largest || Before(e.key, f.largest)
    ensures f.smallest.user <= e.key.user <= f.largest.user
  {
    AscendingIsSorted(f.entries);
    var i :| 0 <= i < |f.entries| && f.entries[i] == e;
    assert i == 0 || Before(f.entries[0].key, f.entries[i].key);
    assert i == |f.entries| - 1 || Before(f.entries[i].key, f.entries[|f.entries| - 1].key);
  }

  /** The first table whose largest key is not before `key`. */
  method FindFile(files: seq<Table>, key: InternalKey) returns (index: nat)
    requires Ordered(files)
    ensures index <= |files|
    ensures forall i :: 0 <= i < index ==> Before(files[i].largest, key)
    ensures forall i :: index <= i < |files| ==> !Before(files[i].largest, key)
  {
    var left, right := 0, |files|;
    while left < right
      invariant 0 <= left <= right <= |files|
      invariant forall i :: 0 <= i < left ==> Before(files[i].largest, key)
      invariant forall i :: right <= i < |files| ==> !Before(files[i].largest, key)
    {
      var mid := (left + right) / 2;
      if Before(files[mid].largest, key) {
        left := mid + 1;
      } else {
        right := mid;
      }
    }
    return right;
  }

  /** `None` as a lower bound is before all keys. */
  predicate AfterFile(user: Option<UserKey>, f: Table) {
    user.Some? && user.value > f.largest.user
  }

  /** `None` as an upper bound is after all keys. */
  predicate BeforeFile(user: Option<UserKey>, f: Table) {
    user.Some? && user.value < f.smallest.user
  }

  /** Some user key of the table's range is in the requested range. */
  predicate Overlaps(f: Table, begin: Option<UserKey>, end: Option<UserKey>) {
    !AfterFile(begin, f) && !BeforeFile(end, f)
  }

  method SomeFileOverlapsRange(disjointSorted: bool, files: seq<Table>,
                               smallestUser: Option<UserKey>, largestUser: Option<UserKey>) returns (found: bool)
    requires disjointSorted ==> Ordered(files)
    ensures found <==> exists f :: f in files && Overlaps(f, smallestUser, largestUser)
  {
    if !disjointSorted {
      for i := 0 to |files|
        invariant forall j :: 0 <= j < i ==> !Overlaps(files[j], smallestUser, largestUser)
      {
        if AfterFile(smallestUser, files[i]) || BeforeFile(largestUser, files[i]) {
        } else {
          assert files[i] in files && Overlaps(files[i], smallestUser, largestUser);
          return true;
        }
      }
      return false;
    }
    var index: nat := 0;
    if smallestUser.Some? {
      index := FindFile(files, InternalKey(smallestUser.value, MAX_SEQUENCE, Value));
    }
    forall i | 0 <= i < |files| ensures i < index <==> AfterFile(smallestUser, files[i]) {
      LookupKeySkips(if smallestUser.Some? then smallestUser.value else 0.0, MAX_SEQUENCE, files[i].largest);
    }
    if index >= |files| {
      return false;
    }
    forall i | index < i < |files| && BeforeFile(largestUser, files[index]) ensures BeforeFile(largestUser, files[i]) {
      assert Before(files[index].largest, files[i].smallest);
    }
    forall i | 0 <= i < |files| && BeforeFile(largestUser, files[index])
      ensures !Overlaps(files[i], smallestUser, largestUser)
    {
      assert i < index || i == index || BeforeFile(largestUser, files[i]);
    }
    assert files[index] in files;
    return !BeforeFile(largestUser, files[index]);
  }
}
