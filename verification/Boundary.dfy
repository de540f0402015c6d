/**
 Boundary files.  A level above zero may hold the entries of one user key in several consecutive
 files, newest first.  A compaction that takes one of them must take the ones after it.
*/
module Boundary {
  import opened Format
  import opened Tables
  import opened Reads

  method FindLargestKey(files: seq<Table>) returns (largest: Option<InternalKey>)
    ensures files == [] <==> largest == None
    ensures largest.Some? ==> exists f :: f in files && f.largest == largest.value
    ensures largest.Some? ==> forall f :: f in files ==> !Before(largest.value, f.largest)
  {
    if files == [] {
      return None;
    }
    var key := files[0].largest;
    for i := 1 to |files|
      invariant exists j :: 0 <= j < i && files[j].largest == key
      invariant forall j :: 0 <= j < i ==> !Before(key, files[j].largest)
    {
      if Before(key, files[i].largest) {
        key := files[i].largest;
      }
    }
    assert forall j :: 0 <= j < |files| ==> files[j] in files;
    return Some(key);
  }

  /** `f` begins after `key`, with the same user key. */
  predicate IsBoundary(f: Table, key: InternalKey) {
    Before(key, f.smallest) && f.smallest.user == key.user
  }

  ghost predicate IsSmallestBoundary(level: seq<Table>, key: InternalKey, f: Table) {
    && f in level && IsBoundary(f, key)
    && forall g :: g in level && IsBoundary(g, key) ==> !Before(g.smallest, f.smallest)
  }

  method FindSmallestBoundaryFile(level: seq<Table>, key: InternalKey) returns (r: Option<Table>)
    ensures r.None? ==> forall g :: g in level ==> !IsBoundary(g, key)
    ensures r.Some? ==> IsSmallestBoundary(level, key, r.value)
  {
    r := None;
    for i := 0 to |level|
      invariant r.None? ==> forall j :: 0 <= j < i ==> !IsBoundary(level[j], key)
      invariant r.Some? ==> r.value in level && IsBoundary(r.value, key)
      invariant r.Some? ==> forall j :: 0 <= j < i && IsBoundary(level[j], key) ==>
                  !Before(level[j].smallest, r.value.smallest)
    {
      if IsBoundary(level[i], key) {
        if r.None? || Before(level[i].smallest, r.value.smallest) {
          r := Some(level[i]);
        }
      }
    }
  }

  /** The files added one after another, each the smallest boundary of the one before. */
  ghost predicate Chain(level: seq<Table>, key: InternalKey, added: seq<Table>)
    decreases |added|
  {
    added == [] || (IsSmallestBoundary(level, key, added[0]) && Chain(level, added[0].largest, added[1..]))
  }

  ghost function ChainEnd(key: InternalKey, added: seq<Table>): InternalKey {
    if added == [] then key else added[|added| - 1].largest
  }

  lemma {:induction false} ChainExtend(level: seq<Table>, key: InternalKey, added: seq<Table>, f: Table)
    requires Chain(level, key, added) && IsSmallestBoundary(level, ChainEnd(key, added), f)
    ensures Chain(level, key, added + [f])
    decreases |added|
  {
    if added == [] {
      assert Chain(level, f.largest, []);
      assert (added + [f])[1..] == [];
    } else {
      ChainExtend(level, added[0].largest, added[1..], f);
      assert (added + [f])[1..] == added[1..] + [f];
    }
  }

  ghost function StartAfter(level: seq<Table>, key: InternalKey): set<Table> {
    set f | f in level && Before(key, f.smallest)
  }

  /** The key range of the inputs is followed through the files its last user key continues in. */
  method AddBoundaryInputs(level: seq<Table>, files: seq<Table>)
    returns (all: seq<Table>, ghost key: InternalKey, ghost added: seq<Table>)
    ensures all == files + added
    ensures files == [] ==> added == []
    ensures files != [] ==> LargestOf(ToSet(files), key) && Complete(level, key, added)
    ensures files <= all && (files != [] ==> Extended(level, files, all[|files|..]))
  {
    all, added := files, [];
    var largest := FindLargestKey(files);
    if largest.None? {
      key := InternalKey(0.0, 0, Value);
      return;
    }
    key := largest.value;
    var end := largest.value;
    var searching := true;
    while searching
      invariant all == files + added
      invariant Chain(level, key, added) && end == ChainEnd(key, added)
      invariant !searching ==> forall g :: g in level ==> !IsBoundary(g, end)
      decreases searching, StartAfter(level, end)
    {
      var next := FindSmallestBoundaryFile(level, end);
      if next.Some? {
        ChainExtend(level, key, added, next.value);
        assert next.value in StartAfter(level, end);
        assert next.value !in StartAfter(level, next.value.largest);
        all, added, end := all + [next.value], added + [next.value], next.value.largest;
      } else {
        searching := false;
      }
    }
    assert LargestOf(ToSet(files), key) && Complete(level, key, added);
    assert all[|files|..] == added;
  }

  /** The chain that was added begins at the largest key of the files. */
  ghost predicate Extended(level: seq<Table>, files: seq<Table>, added: seq<Table>) {
    exists key :: LargestOf(ToSet(files), key) && Complete(level, key, added)
  }

  /** A chain that has reached its end: the level has no boundary file for its last key. */
  ghost predicate Complete(level: seq<Table>, key: InternalKey, added: seq<Table>) {
    Chain(level, key, added) && forall g :: g in level ==> !IsBoundary(g, ChainEnd(key, added))
  }

  ghost predicate LargestOf(files: set<Table>, key: InternalKey) {
    (exists f :: f in files && f.largest == key) && forall f :: f in files ==> !Before(key, f.largest)
  }

  /** No file of the level lies between two chosen ones without being chosen. */
  ghost predicate Convex(level: set<Table>, chosen: set<Table>) {
    forall f, g, h ::
      f in chosen && h in chosen && g in level && Before(f.largest, g.smallest) && Before(g.largest, h.smallest)
      ==> g in chosen
  }

  /** What is left of the level is newer, for every user key it shares with the chosen files. */
  ghost predicate LeavesOnlyNewer(level: set<Table>, chosen: set<Table>) {
    NewerThan(EntriesOf(level - chosen), EntriesOf(chosen))
  }

  ghost predicate Separated(files: set<Table>) {
    forall f, g :: f in files && g in files && f != g ==> Before(f.largest, g.smallest) || Before(g.largest, f.smallest)
  }

  lemma NothingBetween(level: seq<Table>, key: InternalKey, f: Table, g: Table)
    requires IsSmallestBoundary(level, key, f) && g in level && Before(g.largest, f.smallest)
    ensures !Before(key, g.smallest)
  {
    assert IsBoundary(g, key) ==> !Before(g.smallest, f.smallest);
  }

  /** One chain link: the chosen files stay convex and the chosen maximum moves to the new file. */
  lemma LinkKeepsConvex(level: seq<Table>, chosen: set<Table>, key: InternalKey, f: Table)
    requires Separated(ToSet(level)) && chosen <= ToSet(level)
    requires Convex(ToSet(level), chosen) && LargestOf(chosen, key) && IsSmallestBoundary(level, key, f)
    ensures Convex(ToSet(level), chosen + {f}) && LargestOf(chosen + {f}, f.largest)
  {
    var top :| top in chosen && top.largest == key;
    forall e, g, h | e in chosen + {f} && h in chosen + {f} && g in ToSet(level)
                     && Before(e.largest, g.smallest) && Before(g.largest, h.smallest)
      ensures g in chosen + {f}
    {
      if h == f {
        NothingBetween(level, key, f, g);
        assert g == top || Before(g.largest, top.smallest);
      }
    }
  }

  ghost function Joined(chosen: set<Table>, added: seq<Table>): set<Table>
    decreases |added|
  {
    if added == [] then chosen else Joined(chosen + {added[0]}, added[1..])
  }

  lemma {:induction false} JoinedIsUnion(chosen: set<Table>, added: seq<Table>)
    ensures Joined(chosen, added) == chosen + ToSet(added)
    decreases |added|
  {
    if added != [] {
      JoinedIsUnion(chosen + {added[0]}, added[1..]);
      UnionHead(chosen, added);
    }
  }

  lemma {:induction false} ChainKeepsConvex(level: seq<Table>, chosen: set<Table>, key: InternalKey, added: seq<Table>)
    requires Separated(ToSet(level)) && chosen <= ToSet(level)
    requires Convex(ToSet(level), chosen) && LargestOf(chosen, key) && Chain(level, key, added)
    ensures Joined(chosen, added) <= ToSet(level)
    ensures Convex(ToSet(level), Joined(chosen, added)) && LargestOf(Joined(chosen, added), ChainEnd(key, added))
    decreases |added|
  {
    if added != [] {
      LinkKeepsConvex(level, chosen, key, added[0]);
      ChainKeepsConvex(level, chosen + {added[0]}, added[0].largest, added[1..]);
    }
  }

  /** A file not chosen lies wholly before any chosen one whose user key it shares. */
  lemma LeftBefore(level: set<Table>, chosen: set<Table>, key: InternalKey, f: Table, g: Table)
    requires Separated(level) && chosen <= level && Convex(level, chosen)
    requires LargestOf(chosen, key) && forall g :: g in level ==> !IsBoundary(g, key)
    requires f in level && f !in chosen && g in chosen
    ensures Before(f.largest, g.smallest) || g.largest.user < f.smallest.user
  {
    var top :| top in chosen && top.largest == key;
    assert !Before(key, g.largest);
    assert !IsBoundary(f, key);
    assert Before(f.largest, top.smallest) || Before(top.largest, f.smallest);
  }

  lemma EarlierFileNewer(f: Table, g: Table, x: Entry, y: Entry)
    requires Filled(f) && Filled(g) && x in f.entries && y in g.entries && x.key.user == y.key.user
    requires Before(f.largest, g.smallest) || g.largest.user < f.smallest.user
    ensures x != y && x.key.sequence >= y.key.sequence
  {
    EntryWithin(f, x);
    EntryWithin(g, y);
  }

  /** A convex choice whose maximum has no boundary file leaves nothing older behind. */
  lemma NoBoundaryLeavesOnlyNewer(level: set<Table>, chosen: set<Table>, key: InternalKey)
    requires Separated(level) && chosen <= level && Convex(level, chosen)
    requires LargestOf(chosen, key) && forall g :: g in level ==> !IsBoundary(g, key)
    requires Unique(EntriesOf(level)) && AllFilled(level)
    ensures LeavesOnlyNewer(level, chosen)
  {
    forall x, y | x in EntriesOf(level - chosen) && y in EntriesOf(chosen) && x.key.user == y.key.user
      ensures x.key.sequence > y.key.sequence
    {
      var f :| f in level - chosen && x in f.entries;
      var g :| g in chosen && y in g.entries;
      LeftBefore(level, chosen, key, f, g);
      EarlierFileNewer(f, g, x, y);
      assert x in EntriesOf(level) && y in EntriesOf(level);
    }
  }
}
