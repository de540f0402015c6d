/**
 Choosing the inputs of a compaction, and the level a flushed memtable goes to.
*/
module Picking {
  import opened Format
  import opened Reads
  import opened Tables
  import opened Ranges
  import opened Boundary
  import opened Lookup

  ghost predicate LevelOk(level: nat, files: seq<Table>) {
    && (if level == 0 then NewerByNumber(ToSet(files)) else Ordered(files))
    && Unique(EntriesOf(ToSet(files)))
    && AllFilled(ToSet(files))
  }

  ghost predicate WellFormed(files: seq<seq<Table>>) {
    |files| == NUM_LEVELS && forall l :: 0 <= l < NUM_LEVELS ==> LevelOk(l, files[l])
  }

  /** Every file of the level that overlaps the hull of the chosen ones is chosen. */
  ghost predicate HullClosed(level: set<Table>, chosen: set<Table>) {
    forall f, small, large ::
      f in level && IsRange(chosen, small, large) && Overlaps(f, Some(small.user), Some(large.user)) ==> f in chosen
  }

  /** A choice of files that the rest of the input selection can start from. */
  ghost predicate Choice(level: nat, files: set<Table>, chosen: set<Table>) {
    && chosen != {} && chosen <= files
    && (if level == 0 then HullClosed(files, chosen) else Convex(files, chosen))
  }

  ghost predicate GaplessSet(files: set<Table>) {
    forall small, large :: IsRange(files, small, large) ==> Gapless(files, small.user, large.user)
  }

  /** The inputs of a compaction from the files of one level into those of the next,
      with the least and greatest key of all inputs. */
  ghost predicate Picked(here: set<Table>, next: set<Table>, in0: set<Table>, in1: set<Table>,
                         small: InternalKey, large: InternalKey) {
    && in0 != {} && in0 <= here && in1 <= next
    && IsRange(in0 + in1, small, large)
    && LeavesOnlyNewer(here, in0)
    && AllBeside(next - in1, small, large)
    && KeysDisjoint(EntriesOf(next - in1), EntriesOf(in0))
  }

  ghost predicate AllBeside(files: set<Table>, small: InternalKey, large: InternalKey) {
    forall g :: g in files ==> Beside(g, small, large)
  }

  /** All of the table sorts before `small` or after `large`. */
  predicate Beside(g: Table, small: InternalKey, large: InternalKey) {
    Before(g.largest, small) || Before(large, g.smallest)
  }

  lemma OrderedIsSeparated(files: seq<Table>)
    requires Ordered(files)
    ensures Separated(ToSet(files))
  {
    forall f, g | f in ToSet(files) && g in ToSet(files) && f != g
      ensures Before(f.largest, g.smallest) || Before(g.largest, f.smallest)
    {
      var i :| 0 <= i < |files| && files[i] == f;
      var j :| 0 <= j < |files| && files[j] == g;
      assert if i < j then Before(files[i].largest, files[j].smallest) else Before(files[j].largest, files[i].smallest);
    }
  }

  lemma RangeUsers(files: set<Table>, small: InternalKey, large: InternalKey)
    requires IsRange(files, small, large)
    ensures small.user <= large.user
    ensures forall f :: f in files ==> small.user <= f.smallest.user && f.largest.user <= large.user
    ensures forall f :: f in files ==> Overlaps(f, Some(small.user), Some(large.user))
  {
    var f :| f in files && f.smallest == small;
    forall g | g in files ensures Overlaps(g, Some(small.user), Some(large.user)) {
      assert !Before(g.smallest, small) && !Before(large, g.largest);
    }
  }

  lemma RangeUnique(files: set<Table>, small: InternalKey, large: InternalKey, small': InternalKey, large': InternalKey)
    requires IsRange(files, small, large) && IsRange(files, small', large')
    ensures small == small' && large == large'
  {
    CompareIsTotalOrder(small, small');
    CompareIsTotalOrder(large, large');
  }

  // ----- no gap -----

  /** Files that each overlap a gapless hull extend it without a gap. */
  lemma GaplessAdd(files: set<Table>, small: InternalKey, large: InternalKey, more: set<Table>)
    requires IsRange(files, small, large) && Gapless(files, small.user, large.user)
    requires forall g :: g in more ==> Overlaps(g, Some(small.user), Some(large.user))
    ensures GaplessSet(files + more)
  {
    forall small', large' | IsRange(files + more, small', large') ensures Gapless(files + more, small'.user,
                                                                                  large'.user) {
      RangeUsers(files, small, large);
      var first :| first in files + more && first.smallest == small';
      var last :| last in files + more && last.largest == large';
      forall a, c | a <= c && ApartFromAll(a, c, files + more) ensures c < small'.user || a > large'.user {
        assert ApartFromAll(a, c, files);
        assert c < small.user || a > large.user;
        assert ApartFrom(a, c, first) && ApartFrom(a, c, last);
      }
    }
  }

  /** Level zero: the grown range of the search is bridged, so its files have no gap with the request. */
  lemma GaplessBridge(level: set<Table>, files: set<Table>, small: InternalKey, large: InternalKey,
                      lo: Option<UserKey>, hi: Option<UserKey>, more: set<Table>)
    requires IsRange(files, small, large) && Gapless(files, small.user, large.user)
    requires Bridged(level, Some(small.user), Some(large.user), lo, hi)
    requires Contains(lo, hi, Some(small.user), Some(large.user))
    requires Closed(level, lo, hi) && Exactly(more, level, lo, hi)
    ensures GaplessSet(files + more)
  {
    RangeUsers(files, small, large);
    forall small', large' | IsRange(files + more, small', large') ensures Gapless(files + more, small'.user,
                                                                                  large'.user) {
      var first :| first in files + more && first.smallest == small';
      var last :| last in files + more && last.largest == large';
      assert lo.Some? ==> lo.value <= small'.user;
      assert hi.Some? ==> large'.user <= hi.value;
      forall a, c | a <= c && ApartFromAll(a, c, files + more) ensures c < small'.user || a > large'.user {
        assert ApartFromAll(a, c, files) && ApartFromAll(a, c, more);
        assert Apart(a, c, Some(small.user), Some(large.user));
        assert Apart(a, c, lo, hi);
      }
    }
  }

  /** Chain files begin inside the hull, so they extend it without a gap; `extra` is part of the hull too. */
  lemma {:induction false} GaplessChain(level: seq<Table>, files: set<Table>, extra: set<Table>,
                                        key: InternalKey, added: seq<Table>)
    requires GaplessSet(files + extra) && LargestOf(files, key) && Chain(level, key, added)
    requires exists small, large :: IsRange(files + extra, small, large)
    ensures GaplessSet(files + ToSet(added) + extra)
    decreases |added|
  {
    if added == [] {
      assert files + ToSet(added) + extra == files + extra;
    } else {
      var f := added[0];
      LinkOverlapsHull(level, files, extra, key, f);
      GaplessChain(level, files + {f}, extra, f.largest, added[1..]);
      UnionHead(files, added);
    }
  }

  lemma LinkOverlapsHull(level: seq<Table>, files: set<Table>, extra: set<Table>, key: InternalKey, f: Table)
    requires GaplessSet(files + extra) && LargestOf(files, key) && IsSmallestBoundary(level, key, f)
    requires exists small, large :: IsRange(files + extra, small, large)
    ensures GaplessSet(files + {f} + extra) && LargestOf(files + {f}, f.largest)
    ensures exists small, large :: IsRange(files + {f} + extra, small, large)
  {
    var small, large :| IsRange(files + extra, small, large);
    RangeUsers(files + extra, small, large);
    var top :| top in files && top.largest == key;
    assert top in files + extra;
    GaplessAdd(files + extra, small, large, {f});
    assert files + extra + {f} == files + {f} + extra;
    var small' := if Before(f.smallest, small) then f.smallest else small;
    var large' := if Before(large, f.largest) then f.largest else large;
    assert IsRange(files + extra + {f}, small', large');
  }

  // ----- choices -----

  lemma SingleIsConvex(level: set<Table>, f: Table)
    ensures Convex(level, {f})
  {
    forall g: Table | Before(f.largest, g.smallest) ensures !Before(g.largest, f.smallest) {
    }
  }

  lemma SingleIsGapless(f: Table)
    ensures GaplessSet({f})
  {
    forall small, large | IsRange({f}, small, large) ensures Gapless({f}, small.user, large.user) {
      assert small == f.smallest && large == f.largest;
      forall a, c | a <= c && ApartFromAll(a, c, {f}) ensures c < small.user || a > large.user {
        assert ApartFrom(a, c, f);
      }
    }
  }

  lemma OverlappingIsChoice(levelZero: bool, level: seq<Table>, lo: Option<UserKey>, hi: Option<UserKey>,
                            found: set<Table>)
    requires if levelZero then Closed(ToSet(level), lo, hi) else Separated(ToSet(level))
    requires Exactly(found, ToSet(level), lo, hi)
    ensures if levelZero then HullClosed(ToSet(level), found) else Convex(ToSet(level), found)
  {
    if levelZero {
      forall f, small, large | f in ToSet(level) && IsRange(found, small, large) && Overlaps(f, Some(small.user),
                                                                                             Some(large.user))
        ensures f in found
      {
        var first :| first in found && first.smallest == small;
        var last :| last in found && last.largest == large;
      }
    } else {
      forall f, g, h | f in found && h in found && g in ToSet(level)
                       && Before(f.largest, g.smallest) && Before(g.largest, h.smallest)
        ensures g in found
      {
      }
    }
  }

  /** In level zero a hull-closed choice has no boundary file to add. */
  lemma NoBoundaryInClosed(level: set<Table>, chosen: set<Table>, small: InternalKey, key: InternalKey, f: Table)
    requires HullClosed(level, chosen) && IsRange(chosen, small, key) && f in level
    ensures !IsBoundary(f, key)
  {
    RangeUsers(chosen, small, key);
    if Overlaps(f, Some(small.user), Some(key.user)) {
      assert f in chosen && !Before(key, f.largest);
    }
  }

  predicate Disjoint(f: Table, g: Table) {
    f.largest.user < g.smallest.user || g.largest.user < f.smallest.user
  }

  lemma DisjointKeys(f: Table, g: Table, x: Entry, y: Entry)
    requires Filled(f) && Filled(g) && x in f.entries && y in g.entries && Disjoint(f, g)
    ensures x.key.user != y.key.user
  {
    EntryWithin(f, x);
    EntryWithin(g, y);
  }

  lemma DisjointFiles(a: set<Table>, b: set<Table>)
    requires AllFilled(a) && AllFilled(b) && forall f, g :: f in a && g in b ==> Disjoint(f, g)
    ensures KeysDisjoint(EntriesOf(a), EntriesOf(b))
  {
    forall x, y | x in EntriesOf(a) && y in EntriesOf(b) ensures x.key.user != y.key.user {
      var f :| f in a && x in f.entries;
      var g :| g in b && y in g.entries;
      DisjointKeys(f, g, x, y);
    }
  }

  lemma ClosedLeavesOnlyNewer(level: set<Table>, chosen: set<Table>, small: InternalKey, large: InternalKey)
    requires HullClosed(level, chosen) && chosen <= level && AllFilled(level) && IsRange(chosen, small, large)
    ensures LeavesOnlyNewer(level, chosen)
  {
    RangeUsers(chosen, small, large);
    forall f, g | f in level - chosen && g in chosen ensures Disjoint(f, g) {
      assert !Overlaps(f, Some(small.user), Some(large.user));
    }
    DisjointFiles(level - chosen, chosen);
  }

  lemma ExtendedLevelZero(files: seq<Table>, chosen: set<Table>, key: InternalKey, added: seq<Table>)
    requires HullClosed(ToSet(files), chosen) && chosen != {} && chosen <= ToSet(files) && AllFilled(ToSet(files))
    requires LargestOf(chosen, key) && Complete(files, key, added)
    ensures added == [] && LeavesOnlyNewer(ToSet(files), chosen)
  {
    RangeExists(chosen);
    var small, large :| IsRange(chosen, small, large);
    CompareIsTotalOrder(large, key);
    if added != [] {
      NoBoundaryInClosed(ToSet(files), chosen, small, key, added[0]);
    }
    ClosedLeavesOnlyNewer(ToSet(files), chosen, small, key);
  }

  lemma ExtendedOrdered(files: seq<Table>, chosen: set<Table>, key: InternalKey, added: seq<Table>)
    requires Ordered(files) && Unique(EntriesOf(ToSet(files))) && AllFilled(ToSet(files))
    requires Convex(ToSet(files), chosen) && chosen <= ToSet(files) && LargestOf(chosen, key)
    requires Complete(files, key, added)
    ensures Convex(ToSet(files), Joined(chosen, added)) && Joined(chosen, added) <= ToSet(files)
    ensures LeavesOnlyNewer(ToSet(files), Joined(chosen, added))
  {
    OrderedIsSeparated(files);
    ChainKeepsConvex(files, chosen, key, added);
    NoBoundaryLeavesOnlyNewer(ToSet(files), Joined(chosen, added), ChainEnd(key, added));
  }

  lemma {:induction false} RangeExists(files: set<Table>)
    requires files != {}
    ensures exists small, large :: IsRange(files, small, large)
    decreases files
  {
    var f :| f in files;
    var rest := files - {f};
    if rest == {} {
      assert files == {f};
      assert IsRange(files, f.smallest, f.largest);
    } else {
      RangeExists(rest);
      var small, large :| IsRange(rest, small, large);
      var small' := if Before(f.smallest, small) then f.smallest else small;
      var large' := if Before(large, f.largest) then f.largest else large;
      assert IsRange(files, small', large');
    }
  }

  lemma ExtensionLeavesNewer(level: nat, files: seq<Table>, chosen: set<Table>, key: InternalKey, added: seq<Table>)
    requires LevelOk(level, files)
    requires Choice(level, ToSet(files), chosen) && LargestOf(chosen, key) && Complete(files, key, added)
    ensures Joined(chosen, added) <= ToSet(files)
    ensures LeavesOnlyNewer(ToSet(files), Joined(chosen, added))
  {
    if level == 0 {
      ExtendedLevelZero(files, chosen, key, added);
    } else {
      ExtendedOrdered(files, chosen, key, added);
    }
  }

  /** Some files, and behind them the boundary files that belong with them. */
  ghost predicate WithBoundary(level: seq<Table>, files: seq<Table>, all: seq<Table>) {
    |files| <= |all| && all[..|files|] == files && Extended(level, files, all[|files|..])
  }

  /** AddBoundaryInputs on a choice: no gap where there was none, and nothing older left behind. */
  method Extend(level: nat, files: seq<Table>, chosen: seq<Table>, ghost extra: set<Table>) returns (all: seq<Table>)
    requires LevelOk(level, files)
    requires Choice(level, ToSet(files), ToSet(chosen))
    ensures ToSet(chosen) <= ToSet(all) <= ToSet(files)
    ensures LeavesOnlyNewer(ToSet(files), ToSet(all))
    ensures GaplessSet(ToSet(chosen) + extra) ==> GaplessSet(ToSet(all) + extra)
    ensures WithBoundary(files, chosen, all)
  {
    ghost var key, added;
    all, key, added := AddBoundaryInputs(files, chosen);
    assert all[..|chosen|] == chosen;
    NonEmpty(chosen);
    ToSetConcat(chosen, added);
    JoinedIsUnion(ToSet(chosen), added);
    ExtensionLeavesNewer(level, files, ToSet(chosen), key, added);
    if GaplessSet(ToSet(chosen) + extra) {
      RangeExists(ToSet(chosen) + extra);
      GaplessChain(files, ToSet(chosen), extra, key, added);
    }
  }

  /** The files of the next level that overlap the inputs leave every other file wholly to one side. */
  lemma OthersBeside(next: set<Table>, in0: set<Table>, small0: InternalKey, large0: InternalKey, in1: set<Table>,
                     small: InternalKey, large: InternalKey)
    requires Separated(next) && IsRange(in0, small0, large0) && IsRange(in0 + in1, small, large)
    requires Exactly(in1, next, Some(small0.user), Some(large0.user))
    ensures AllBeside(next - in1, small, large)
  {
    RangeUsers(in0, small0, large0);
    var first :| first in in0 + in1 && first.smallest == small;
    var last :| last in in0 + in1 && last.largest == large;
    forall g | g in next - in1 ensures Beside(g, small, large) {
      assert first in in1 ==> Before(g.largest, first.smallest) || Before(first.largest, g.smallest);
      assert last in in1 ==> Before(g.largest, last.smallest) || Before(last.largest, g.smallest);
    }
  }

  lemma OthersShareNoKey(next: set<Table>, in0: set<Table>, small0: InternalKey, large0: InternalKey, in1: set<Table>)
    requires IsRange(in0, small0, large0) && AllFilled(next) && AllFilled(in0)
    requires Exactly(in1, next, Some(small0.user), Some(large0.user))
    ensures KeysDisjoint(EntriesOf(next - in1), EntriesOf(in0))
  {
    RangeUsers(in0, small0, large0);
    forall g, h | g in next - in1 && h in in0 ensures Disjoint(g, h) {
      assert !Overlaps(g, Some(small0.user), Some(large0.user));
    }
    DisjointFiles(next - in1, in0);
  }

  lemma NextLevelPicked(here: set<Table>, next: set<Table>, in0: set<Table>, in1: set<Table>,
                        small0: InternalKey, large0: InternalKey, small: InternalKey, large: InternalKey)
    requires Separated(next) && AllFilled(next) && AllFilled(here) && in0 != {} && in0 <= here
    requires LeavesOnlyNewer(here, in0)
    requires IsRange(in0, small0, large0) && IsRange(in0 + in1, small, large)
    requires Exactly(in1, next, Some(small0.user), Some(large0.user))
    ensures Picked(here, next, in0, in1, small, large)
    ensures GaplessSet(in0) ==> GaplessSet(in0 + in1)
  {
    OthersBeside(next, in0, small0, large0, in1, small, large);
    OthersShareNoKey(next, in0, small0, large0, in1);
    if GaplessSet(in0) {
      GaplessAdd(in0, small0, large0, in1);
    }
  }

  // ----- whole selections -----

  /** The selected inputs: files of `level` and of the next level, the range they span, the files of the
      level after that which overlap it, and where the next compaction of the level should start. */
  datatype Inputs = Inputs(level: nat, in0: seq<Table>, in1: seq<Table>, small: InternalKey, large: InternalKey,
                           grandparents: seq<Table>, pointer: InternalKey)

  ghost predicate SoundInputs(files: seq<seq<Table>>, c: Inputs)
    requires |files| == NUM_LEVELS && c.level + 1 < NUM_LEVELS
  {
    && Picked(ToSet(files[c.level]), ToSet(files[c.level + 1]), ToSet(c.in0), ToSet(c.in1), c.small, c.large)
    && c.grandparents == (if c.level + 2 < NUM_LEVELS
                          then Overlapping(files[c.level + 2], Some(c.small.user), Some(c.large.user)) else [])
  }

  /** Growing the files of `level` over the range of both input sets keeps the hull without a gap. */
  lemma ExpansionGapless(levelZero: bool, level: set<Table>, in0: set<Table>, in1: set<Table>,
                         small: InternalKey, large: InternalKey, lo: Option<UserKey>, hi: Option<UserKey>,
                         found: set<Table>)
    requires GaplessSet(in0 + in1) && IsRange(in0 + in1, small, large) && in0 <= level
    requires Exactly(found, level, lo, hi)
    requires !levelZero ==> lo == Some(small.user) && hi == Some(large.user)
    requires levelZero ==> Contains(lo, hi, Some(small.user), Some(large.user)) && Closed(level, lo, hi)
                           && Bridged(level, Some(small.user), Some(large.user), lo, hi)
    ensures GaplessSet(found + in1)
  {
    RangeUsers(in0 + in1, small, large);
    GrowOverlaps(level, Some(small.user), Some(large.user), lo, hi);
    assert in0 <= found;
    assert in0 + in1 + found == found + in1;
    if levelZero {
      GaplessBridge(level, in0 + in1, small, large, lo, hi, found);
    } else {
      GaplessAdd(in0 + in1, small, large, found);
    }
  }

  lemma ExpansionKeeps(level: set<Table>, in0: set<Table>, in1: set<Table>, small: InternalKey, large: InternalKey,
                       lo: Option<UserKey>, hi: Option<UserKey>, found: set<Table>)
    requires IsRange(in0 + in1, small, large) && in0 <= level && Exactly(found, level, lo, hi)
    requires Contains(lo, hi, Some(small.user), Some(large.user))
    ensures in0 <= found
  {
    RangeUsers(in0 + in1, small, large);
    GrowOverlaps(level, Some(small.user), Some(large.user), lo, hi);
  }

  /** The re-selected files of the next level contain the old ones, and the hull stays without a gap. */
  lemma ReselectionGapless(next: set<Table>, in0: set<Table>, in1: set<Table>, small0: InternalKey, large0: InternalKey,
                           expanded0: set<Table>, small1: InternalKey, large1: InternalKey, expanded1: set<Table>)
    requires Exactly(in1, next, Some(small0.user), Some(large0.user)) && IsRange(in0, small0, large0)
    requires in0 <= expanded0 && IsRange(expanded0, small1, large1)
    requires Exactly(expanded1, next, Some(small1.user), Some(large1.user))
    requires GaplessSet(expanded0 + in1)
    ensures in1 <= expanded1 && GaplessSet(expanded0 + expanded1)
  {
    var first :| first in in0 && first.smallest == small0;
    var last :| last in in0 && last.largest == large0;
    assert !Before(first.smallest, small1) && !Before(large1, last.largest);
    RangeExists(expanded0 + in1);
    var small, large :| IsRange(expanded0 + in1, small, large);
    var first' :| first' in expanded0 && first'.smallest == small1;
    var last' :| last' in expanded0 && last'.largest == large1;
    assert !Before(first'.smallest, small) && !Before(large, last'.largest);
    GaplessAdd(expanded0 + in1, small, large, expanded1);
    assert expanded0 + in1 + expanded1 == expanded0 + expanded1;
  }

  /** What a search of the level finds: in level zero the files of the least closed range around the request, elsewhere
      the files that overlap it. */
  ghost predicate Found(level: nat, here: seq<Table>, begin: Option<UserKey>, end: Option<UserKey>, found: seq<Table>) {
    if level == 0 then
      exists lo, hi :: LeastClosed(ToSet(here), begin, end, lo, hi) && found == Overlapping(here, lo, hi)
    else found == Overlapping(here, begin, end)
  }

  /** What the level has in a range, with its boundary files. */
  ghost predicate Widened(level: nat, here: seq<Table>, small: InternalKey, large: InternalKey, wide: seq<Table>) {
    exists found :: Found(level, here, Some(small.user), Some(large.user), found) && WithBoundary(here, found, wide)
  }

  /** Re-run the search of `level` over the range of both input sets, and close it under boundary files. */
  method Expand(level: nat, here: seq<Table>, p: Pair) returns (expanded0: seq<Table>)
    requires LevelOk(level, here) && p.in0 != []
    requires ToSet(p.in0) <= ToSet(here) && IsRange(ToSet(p.in0) + ToSet(p.in1), p.small, p.large)
    ensures ToSet(p.in0) <= ToSet(expanded0) <= ToSet(here)
    ensures LeavesOnlyNewer(ToSet(here), ToSet(expanded0))
    ensures PairGapless(p) ==> GaplessSet(ToSet(expanded0) + ToSet(p.in1))
    ensures Widened(level, here, p.small, p.large, expanded0)
  {
    hide Extended, LeastClosed;
    ghost var lo, hi;
    expanded0, lo, hi := GetOverlappingInputs(level == 0, here, Some(p.small.user), Some(p.large.user));
    OverlappingMembers(here, lo, hi);
    OverlappingChoice(level, here, lo, hi, ToSet(expanded0));
    NonEmpty(p.in0);
    ExpansionKeeps(ToSet(here), ToSet(p.in0), ToSet(p.in1), p.small, p.large, lo, hi, ToSet(expanded0));
    if PairGapless(p) {
      ExpansionGapless(level == 0, ToSet(here), ToSet(p.in0), ToSet(p.in1), p.small, p.large, lo, hi, ToSet(expanded0));
    }
    assert Found(level, here, Some(p.small.user), Some(p.large.user), expanded0);
    expanded0 := Extend(level, here, expanded0, ToSet(p.in1));
  }

  lemma OverlappingChoice(level: nat, files: seq<Table>, lo: Option<UserKey>, hi: Option<UserKey>, found: set<Table>)
    requires if level == 0 then Closed(ToSet(files), lo, hi) else Ordered(files)
    requires Exactly(found, ToSet(files), lo, hi)
    ensures if level == 0 then HullClosed(ToSet(files), found) else Convex(ToSet(files), found)
  {
    if level > 0 {
      OrderedIsSeparated(files);
    }
    OverlappingIsChoice(level == 0, files, lo, hi, found);
  }

  /** Inputs of `level` together with everything of the next level that overlaps their hull. */
  datatype Pair = Pair(in0: seq<Table>, in1: seq<Table>, small0: InternalKey, large0: InternalKey,
                       small: InternalKey, large: InternalKey)

  ghost predicate SoundPair(here: set<Table>, next: set<Table>, p: Pair) {
    && Picked(here, next, ToSet(p.in0), ToSet(p.in1), p.small, p.large)
    && IsRange(ToSet(p.in0), p.small0, p.large0)
    && Exactly(ToSet(p.in1), next, Some(p.small0.user), Some(p.large0.user))
  }

  ghost predicate PairGapless(p: Pair) {
    GaplessSet(ToSet(p.in0) + ToSet(p.in1))
  }

  method SelectNext(level: nat, here: seq<Table>, next: seq<Table>, in0: seq<Table>) returns (p: Pair)
    requires LevelOk(level, here) && LevelOk(level + 1, next) && in0 != []
    requires ToSet(in0) <= ToSet(here) && LeavesOnlyNewer(ToSet(here), ToSet(in0))
    ensures p.in0 == in0 && SoundPair(ToSet(here), ToSet(next), p)
    ensures p.in1 == Overlapping(next, Some(p.small0.user), Some(p.large0.user))
    ensures GaplessSet(ToSet(in0)) ==> PairGapless(p)
  {
    var small0, large0 := GetRange(in0);
    var in1;
    ghost var lo, hi;
    in1, lo, hi := GetOverlappingInputs(false, next, Some(small0.user), Some(large0.user));
    OverlappingMembers(next, Some(small0.user), Some(large0.user));
    ToSetConcat(in0, in1);
    var small, large := GetRange(in0 + in1);
    p := Pair(in0, in1, small0, large0, small, large);
    OrderedIsSeparated(next);
    NonEmpty(in0);
    NextLevelPicked(ToSet(here), ToSet(next), ToSet(in0), ToSet(in1), small0, large0, small, large);
  }

  /** The wider choice is taken if it is one, stays within the limit, and needs as many files of the next level. */
  ghost predicate MayGrow(next: seq<Table>, p: Pair, wide: seq<Table>, small: InternalKey, large: InternalKey,
                          growLimit: nat) {
    && p.in1 != [] && |wide| > |p.in0| && TotalFileSize(p.in1) + TotalFileSize(wide) < growLimit
    && |Overlapping(next, Some(small.user), Some(large.user))| == |p.in1|
  }

  /** Grow the inputs of `level` when that does not change how many files of the next level are needed. */
  method Grow(level: nat, here: seq<Table>, next: seq<Table>, p: Pair, growLimit: nat)
    returns (q: Pair, ghost wide: seq<Table>, ghost small: InternalKey, ghost large: InternalKey)
    requires LevelOk(level, here) && LevelOk(level + 1, next)
    requires SoundPair(ToSet(here), ToSet(next), p)
    requires p.in1 == Overlapping(next, Some(p.small0.user), Some(p.large0.user))
    ensures ToSet(p.in0) <= ToSet(q.in0)
    ensures SoundPair(ToSet(here), ToSet(next), q)
    ensures q.in1 == Overlapping(next, Some(q.small0.user), Some(q.large0.user))
    ensures PairGapless(p) ==> PairGapless(q)
    ensures p.in1 != [] ==> Widened(level, here, p.small, p.large, wide) && IsRange(ToSet(wide), small, large)
    ensures q.in0 == if MayGrow(next, p, wide, small, large, growLimit) then wide else p.in0
  {
    hide LevelOk, Widened, Picked, GaplessSet, Overlapping, WithBoundary, LeavesOnlyNewer;
    q, wide, small, large := p, [], p.small, p.large;
    if p.in1 == [] {
      return;
    }
    NonEmpty(p.in0);
    PairParts(ToSet(here), ToSet(next), p);
    var expanded0 := Expand(level, here, p);
    wide := expanded0;
    NonEmpty(wide);
    RangeExists(ToSet(wide));
    small, large :| IsRange(ToSet(wide), small, large);
    if |expanded0| > |p.in0| && TotalFileSize(p.in1) + TotalFileSize(expanded0) < growLimit {
      var expanded := SelectNext(level, here, next, expanded0);
      RangeUnique(ToSet(wide), small, large, expanded.small0, expanded.large0);
      if |expanded.in1| == |p.in1| {
        q := expanded;
        if PairGapless(p) {
          ReselectionGapless(ToSet(next), ToSet(p.in0), ToSet(p.in1), p.small0, p.large0,
                             ToSet(q.in0), q.small0, q.large0, ToSet(q.in1));
        }
      }
    }
  }

  lemma PairParts(here: set<Table>, next: set<Table>, p: Pair)
    requires SoundPair(here, next, p)
    ensures ToSet(p.in0) != {} && ToSet(p.in0) <= here && IsRange(ToSet(p.in0) + ToSet(p.in1), p.small, p.large)
  {
  }

  lemma NonEmpty(s: seq<Table>)
    ensures s == [] <==> ToSet(s) == {}
  {
    if s != [] {
      assert s[0] in ToSet(s);
    }
  }

  method ExtendAlone(level: nat, files: seq<Table>, chosen: seq<Table>) returns (all: seq<Table>)
    requires LevelOk(level, files)
    requires Choice(level, ToSet(files), ToSet(chosen))
    ensures all != [] && ToSet(chosen) <= ToSet(all) <= ToSet(files)
    ensures LeavesOnlyNewer(ToSet(files), ToSet(all))
    ensures GaplessSet(ToSet(chosen)) ==> GaplessSet(ToSet(all))
    ensures WithBoundary(files, chosen, all)
  {
    hide LevelOk, WithBoundary, LeavesOnlyNewer;
    all := Extend(level, files, chosen, {});
    NonEmpty(all);
    assert ToSet(chosen) + {} == ToSet(chosen) && ToSet(all) + {} == ToSet(all);
  }

  /** How the inputs were chosen: a first choice, with what it overlaps in the next level, and a wider one. */
  datatype Growth = Growth(first: Pair, wide: seq<Table>, small: InternalKey, large: InternalKey)

  /** The first choice is what it started from with its boundary files; the wider one is what the level has in the range
      of the first and of what it overlaps; and it is taken if it may be. */
  ghost predicate Grew(level: nat, here: seq<Table>, next: seq<Table>, start: seq<Table>, growLimit: nat, g: Growth,
                       in0: seq<Table>) {
    var p := g.first;
    && WithBoundary(here, start, p.in0) && IsRange(ToSet(p.in0), p.small0, p.large0)
    && p.in1 == Overlapping(next, Some(p.small0.user), Some(p.large0.user))
    && IsRange(ToSet(p.in0) + ToSet(p.in1), p.small, p.large)
    && (p.in1 != [] ==> Widened(level, here, p.small, p.large, g.wide) && IsRange(ToSet(g.wide), g.small, g.large))
    && in0 == if MayGrow(next, p, g.wide, g.small, g.large, growLimit) then g.wide else p.in0
  }

  method SelectBoth(level: nat, here: seq<Table>, next: seq<Table>, start: seq<Table>, growLimit: nat)
    returns (p: Pair, ghost g: Growth)
    requires LevelOk(level, here) && LevelOk(level + 1, next)
    requires Choice(level, ToSet(here), ToSet(start))
    ensures ToSet(start) <= ToSet(p.in0)
    ensures SoundPair(ToSet(here), ToSet(next), p)
    ensures p.in1 == Overlapping(next, Some(p.small0.user), Some(p.large0.user))
    ensures GaplessSet(ToSet(start)) ==> PairGapless(p)
    ensures Grew(level, here, next, start, growLimit, g, p.in0)
  {
    hide LevelOk, WithBoundary, Widened, MayGrow, Overlapping, LeavesOnlyNewer, Choice, GaplessSet;
    var in0 := ExtendAlone(level, here, start);
    var first := SelectNext(level, here, next, in0);
    PairParts(ToSet(here), ToSet(next), first);
    ghost var wide, small, large;
    p, wide, small, large := Grow(level, here, next, first, growLimit);
    g := Growth(first, wide, small, large);
  }

  /** VersionSet::SetupOtherInputs.  `growLimit` is ExpandedCompactionByteSizeLimit. */
  method SetupOtherInputs(files: seq<seq<Table>>, level: nat, start: seq<Table>, growLimit: nat)
    returns (c: Inputs, ghost g: Growth)
    requires WellFormed(files) && level + 1 < NUM_LEVELS
    requires Choice(level, ToSet(files[level]), ToSet(start))
    ensures c.level == level && ToSet(start) <= ToSet(c.in0)
    ensures SoundInputs(files, c)
    ensures GaplessSet(ToSet(start)) ==> GaplessSet(ToSet(c.in0) + ToSet(c.in1))
    ensures GrownInputs(files, level, start, growLimit, g, c)
  {
    hide LevelOk, Grew, Picked, Choice, GaplessSet, Overlapping;
    var p;
    p, g := SelectBoth(level, files[level], files[level + 1], start, growLimit);
    c := Assemble(files, level, p);
  }

  /** The inputs of the next level are its files that overlap the range of the inputs of the level. */
  ghost predicate NextOverlap(next: seq<Table>, c: Inputs) {
    forall small, large ::
      IsRange(ToSet(c.in0), small, large) ==> c.in1 == Overlapping(next, Some(small.user), Some(large.user))
  }

  /** Add the overlapping files of the level after next, and the new compaction pointer. */
  method Assemble(files: seq<seq<Table>>, level: nat, p: Pair) returns (c: Inputs)
    requires WellFormed(files) && level + 1 < NUM_LEVELS
    requires SoundPair(ToSet(files[level]), ToSet(files[level + 1]), p)
    requires p.in1 == Overlapping(files[level + 1], Some(p.small0.user), Some(p.large0.user))
    ensures c.level == level && c.in0 == p.in0 && c.in1 == p.in1 && SoundInputs(files, c)
    ensures NextOverlap(files[level + 1], c) && LargestOf(ToSet(c.in0), c.pointer)
  {
    var grandparents: seq<Table> := [];
    if level + 2 < NUM_LEVELS {
      ghost var lo, hi;
      grandparents, lo, hi := GetOverlappingInputs(false, files[level + 2], Some(p.small.user), Some(p.large.user));
    }
    c := Inputs(level, p.in0, p.in1, p.small, p.large, grandparents, p.large0);
    forall small, large | IsRange(ToSet(c.in0), small, large) ensures small == p.small0 && large == p.large0 {
      RangeUnique(ToSet(c.in0), small, large, p.small0, p.large0);
    }
  }

  /** A file that the compaction pointer of the level has not passed yet. */
  predicate PastPointer(f: Table, pointer: Option<InternalKey>) {
    pointer.None? || Before(pointer.value, f.largest)
  }

  /** The file an automatic compaction starts from: one chosen by seeks, or the first past the compaction
      pointer, wrapping round to the first of the level. */
  ghost predicate StartsFrom(level: seq<Table>, pointer: Option<InternalKey>, seek: Option<Table>, f: Table) {
    if seek.Some? then f == seek.value
    else
      exists i :: 0 <= i < |level| && level[i] == f
                  && (forall j :: 0 <= j < i ==> !PastPointer(level[j], pointer))
                  && (|| PastPointer(f, pointer)
                      || (i == 0 && forall j :: 0 <= j < |level| ==> !PastPointer(level[j], pointer)))
  }

  method FirstFile(level: seq<Table>, pointer: Option<InternalKey>, seek: Option<Table>) returns (f: Table)
    requires level != [] && (seek.Some? ==> seek.value in level)
    ensures f in level && StartsFrom(level, pointer, seek, f)
  {
    if seek.Some? {
      return seek.value;
    }
    for i := 0 to |level|
      invariant forall j :: 0 <= j < i ==> !PastPointer(level[j], pointer)
    {
      if pointer.None? || Before(pointer.value, level[i].largest) {
        return level[i];
      }
    }
    return level[0];
  }

  /** VersionSet::PickCompaction, once the level is chosen. */
  method PickCompaction(files: seq<seq<Table>>, level: nat, pointer: Option<InternalKey>, seek: Option<Table>,
                        growLimit: nat)
    returns (c: Inputs)
    requires WellFormed(files) && level + 1 < NUM_LEVELS
    requires files[level] != [] && (seek.Some? ==> seek.value in files[level])
    ensures c.level == level && SoundInputs(files, c)
    ensures GaplessSet(ToSet(c.in0) + ToSet(c.in1))
    ensures AutomaticChoice(files, level, pointer, seek, growLimit, c)
  {
    hide WellFormed, LevelOk, Choice, SoundInputs, GaplessSet, AutomaticStart, GrownInputs;
    LevelParts(files, level);
    var f, start := ChooseFirst(level, files[level], pointer, seek);
    ghost var g;
    c, g := SetupOtherInputs(files, level, start, growLimit);
    assert f in ToSet(start) && f in ToSet(c.in0);
  }

  method ChooseFirst(level: nat, here: seq<Table>, pointer: Option<InternalKey>, seek: Option<Table>)
    returns (f: Table, start: seq<Table>)
    requires LevelOk(level, here) && here != [] && (seek.Some? ==> seek.value in here)
    ensures AutomaticStart(here, level, pointer, seek, f, start) && f in start
    ensures Choice(level, ToSet(here), ToSet(start)) && GaplessSet(ToSet(start))
  {
    hide StartsFrom;
    f := FirstFile(here, pointer, seek);
    start := [f];
    SingleIsConvex(ToSet(here), f);
    SingleIsGapless(f);
    assert ToSet(start) == {f};
    if level == 0 {
      ghost var lo, hi;
      start, lo, hi := GetOverlappingInputs(true, here, Some(f.smallest.user), Some(f.largest.user));
      LevelZeroStart(here, f, lo, hi);
      assert Found(0, here, Some(f.smallest.user), Some(f.largest.user), start);
      assert f in ToSet(start);
    }
  }

  /** The file to start from; in level zero, all that is found in its range. */
  ghost predicate AutomaticStart(here: seq<Table>, level: nat, pointer: Option<InternalKey>, seek: Option<Table>,
                                 f: Table, start: seq<Table>) {
    && StartsFrom(here, pointer, seek, f)
    && if level == 0 then Found(0, here, Some(f.smallest.user), Some(f.largest.user), start) else start == [f]
  }

  /** The inputs that grow from a start: the files of the next level are those they overlap, and the next compaction of
      the level goes on after the greatest key of theirs. */
  ghost predicate GrownInputs(files: seq<seq<Table>>, level: nat, start: seq<Table>, growLimit: nat, g: Growth,
                              c: Inputs)
    requires level + 1 < |files|
  {
    && Grew(level, files[level], files[level + 1], start, growLimit, g, c.in0)
    && NextOverlap(files[level + 1], c) && LargestOf(ToSet(c.in0), c.pointer)
  }

  ghost predicate AutomaticChoice(files: seq<seq<Table>>, level: nat, pointer: Option<InternalKey>, seek: Option<Table>,
                                  growLimit: nat, c: Inputs)
    requires level + 1 < |files|
  {
    exists f, start, g ::
      f in c.in0 && AutomaticStart(files[level], level, pointer, seek, f, start)
      && GrownInputs(files, level, start, growLimit, g, c)
  }

  ghost predicate ManualChoice(files: seq<seq<Table>>, level: nat, begin: Option<UserKey>, end: Option<UserKey>,
                               fileLimit: nat, growLimit: nat, c: Inputs)
    requires level + 1 < |files|
  {
    exists start, g ::
      Requested(level, files[level], begin, end, fileLimit, start) && GrownInputs(files, level, start, growLimit, g, c)
  }

  lemma LevelZeroStart(level: seq<Table>, f: Table, lo: Option<UserKey>, hi: Option<UserKey>)
    requires f in level
    requires LeastClosed(ToSet(level), Some(f.smallest.user), Some(f.largest.user), lo, hi)
    requires Bridged(ToSet(level), Some(f.smallest.user), Some(f.largest.user), lo, hi)
    ensures Choice(0, ToSet(level), ToSet(Overlapping(level, lo, hi)))
    ensures GaplessSet(ToSet(Overlapping(level, lo, hi))) && f in ToSet(Overlapping(level, lo, hi))
  {
    var found := ToSet(Overlapping(level, lo, hi));
    OverlappingMembers(level, lo, hi);
    OverlappingChoice(0, level, lo, hi, found);
    assert f in found;
    BridgedFromOne(ToSet(level), f, lo, hi, found);
  }

  lemma BridgedFromOne(level: set<Table>, f: Table, lo: Option<UserKey>, hi: Option<UserKey>, found: set<Table>)
    requires f in found && Exactly(found, level, lo, hi)
    requires Contains(lo, hi, Some(f.smallest.user), Some(f.largest.user)) && Closed(level, lo, hi)
    requires Bridged(level, Some(f.smallest.user), Some(f.largest.user), lo, hi)
    ensures GaplessSet(found)
  {
    SingleIsGapless(f);
    assert IsRange({f}, f.smallest, f.largest);
    GaplessBridge(level, {f}, f.smallest, f.largest, lo, hi, found);
    assert {f} + found == found;
  }

  /** How many of a manual compaction's files are taken: up to and including the one that reaches the size limit. */
  function PrefixToLimit(inputs: seq<Table>, limit: nat, i: nat, total: nat): (n: nat)
    requires i <= |inputs|
    ensures i <= n <= |inputs| && (i < |inputs| ==> i < n)
    decreases |inputs| - i
  {
    if i == |inputs| then i
    else if total + inputs[i].size >= limit then i + 1
    else PrefixToLimit(inputs, limit, i + 1, total + inputs[i].size)
  }

  /** What a manual compaction starts from: all that is found in the range in level zero, and elsewhere as many files,
      in order, as it takes to reach the limit. */
  ghost predicate Requested(level: nat, here: seq<Table>, begin: Option<UserKey>, end: Option<UserKey>, limit: nat,
                            start: seq<Table>) {
    if level == 0 then Found(0, here, begin, end, start)
    else
      var all, n := Overlapping(here, begin, end), |start|;
      && 0 < n <= |all| && start == all[..n] && (n > 1 ==> TotalFileSize(start[..n - 1]) < limit)
      && (n < |all| ==> TotalFileSize(start) >= limit)
  }

  lemma {:induction false} PrefixReaches(inputs: seq<Table>, limit: nat, i: nat)
    requires i < |inputs| && (i > 0 ==> TotalFileSize(inputs[..i]) < limit)
    ensures var n := PrefixToLimit(inputs, limit, i, TotalFileSize(inputs[..i]));
            && (n > 1 ==> TotalFileSize(inputs[..n - 1]) < limit)
            && (n < |inputs| ==> TotalFileSize(inputs[..n]) >= limit)
    decreases |inputs| - i
  {
    hide PrefixToLimit, TotalFileSize;
    TotalNext(inputs, i);
    PrefixStep(inputs, limit, i, TotalFileSize(inputs[..i]));
    if TotalFileSize(inputs[..i]) + inputs[i].size < limit && i + 1 < |inputs| {
      PrefixReaches(inputs, limit, i + 1);
    }
  }

  lemma PrefixStep(inputs: seq<Table>, limit: nat, i: nat, total: nat)
    requires i < |inputs|
    ensures PrefixToLimit(inputs, limit, i, total)
            == if total + inputs[i].size >= limit || i + 1 == |inputs| then i + 1
               else PrefixToLimit(inputs, limit, i + 1, total + inputs[i].size)
  {
  }

  lemma {:induction false} TotalNext(files: seq<Table>, i: nat)
    requires i < |files|
    ensures TotalFileSize(files[..i + 1]) == TotalFileSize(files[..i]) + files[i].size
  {
    if i > 0 {
      TotalNext(files[1..], i - 1);
      assert files[..i + 1][1..] == files[1..][..i] && files[..i][1..] == files[1..][..i - 1];
    }
  }

  /** VersionSet::CompactRange.  The inputs may leave gaps in their hull. */
  method CompactRange(files: seq<seq<Table>>, level: nat, begin: Option<UserKey>, end: Option<UserKey>,
                      fileLimit: nat, growLimit: nat)
    returns (r: Option<Inputs>)
    requires WellFormed(files) && level + 1 < NUM_LEVELS
    ensures r.None? <==> forall f :: f in files[level] ==> !Overlaps(f, begin, end)
    ensures r.Some? ==> r.value.level == level && SoundInputs(files, r.value)
    ensures r.Some? ==> ManualChoice(files, level, begin, end, fileLimit, growLimit, r.value)
  {
    hide WellFormed, LevelOk, Requested, Grew, NextOverlap, LargestOf, Overlapping, Choice, SoundInputs;
    LevelParts(files, level);
    var inputs := ChooseRange(level, files[level], begin, end, fileLimit);
    if inputs == [] {
      return None;
    }
    var c;
    ghost var g;
    c, g := SetupOtherInputs(files, level, inputs, growLimit);
    return Some(c);
  }

  lemma LevelParts(files: seq<seq<Table>>, level: nat)
    requires WellFormed(files) && level < NUM_LEVELS
    ensures |files| == NUM_LEVELS && LevelOk(level, files[level])
  {
  }

  /** The files of the range, up to the size limit. */
  method ChooseRange(level: nat, here: seq<Table>, begin: Option<UserKey>, end: Option<UserKey>, fileLimit: nat)
    returns (inputs: seq<Table>)
    requires LevelOk(level, here)
    ensures inputs == [] <==> forall f :: f in here ==> !Overlaps(f, begin, end)
    ensures inputs != [] ==>
              Requested(level, here, begin, end, fileLimit, inputs) && Choice(level, ToSet(here), ToSet(inputs))
  {
    hide LevelOk, LeastClosed, Bridged, Overlapping, TotalFileSize, Choice, Requested, PrefixToLimit;
    ghost var lo, hi;
    inputs, lo, hi := GetOverlappingInputs(level == 0, here, begin, end);
    FoundNone(level, here, begin, end, lo, hi);
    if inputs != [] {
      FoundIsChoice(level, here, begin, end, lo, hi);
      if level > 0 {
        PrefixIsRequested(level, here, begin, end, fileLimit);
        var n := PrefixToLimit(inputs, fileLimit, 0, 0);
        PrefixIsChoice(level, here, begin, end, n);
        inputs := inputs[..n];
      } else {
        LevelZeroRequested(here, begin, end, fileLimit, lo, hi);
      }
    }
  }

  lemma LevelZeroRequested(here: seq<Table>, begin: Option<UserKey>, end: Option<UserKey>, limit: nat,
                           lo: Option<UserKey>, hi: Option<UserKey>)
    requires LeastClosed(ToSet(here), begin, end, lo, hi)
    ensures Requested(0, here, begin, end, limit, Overlapping(here, lo, hi))
  {
    hide LeastClosed, Overlapping;
    assert Found(0, here, begin, end, Overlapping(here, lo, hi));
  }

  lemma PrefixIsRequested(level: nat, here: seq<Table>, begin: Option<UserKey>, end: Option<UserKey>, limit: nat)
    requires level > 0 && Overlapping(here, begin, end) != []
    ensures var all := Overlapping(here, begin, end);
            Requested(level, here, begin, end, limit, all[..PrefixToLimit(all, limit, 0, 0)])
  {
    hide Overlapping, Found;
    var all := Overlapping(here, begin, end);
    assert all[..0] == [] && TotalFileSize([]) == 0;
    PrefixReaches(all, limit, 0);
    var n := PrefixToLimit(all, limit, 0, 0);
    assert all[..n][..n - 1] == all[..n - 1];
  }

  lemma FoundIsChoice(level: nat, here: seq<Table>, begin: Option<UserKey>, end: Option<UserKey>, lo: Option<UserKey>,
                      hi: Option<UserKey>)
    requires LevelOk(level, here) && (level == 0 ==> LeastClosed(ToSet(here), begin, end, lo, hi))
    requires Overlapping(here, lo, hi) != []
    ensures Choice(level, ToSet(here), ToSet(Overlapping(here, lo, hi)))
  {
    OverlappingMembers(here, lo, hi);
    OverlappingChoice(level, here, lo, hi, ToSet(Overlapping(here, lo, hi)));
    NonEmpty(Overlapping(here, lo, hi));
  }

  lemma PrefixIsChoice(level: nat, here: seq<Table>, begin: Option<UserKey>, end: Option<UserKey>, n: nat)
    requires level > 0 && LevelOk(level, here) && 0 < n <= |Overlapping(here, begin, end)|
    ensures Choice(level, ToSet(here), ToSet(Overlapping(here, begin, end)[..n]))
  {
    PrefixConvex(here, begin, end, n);
    NonEmpty(Overlapping(here, begin, end)[..n]);
  }

  /** Nothing is found exactly when nothing overlaps the request. */
  lemma FoundNone(level: nat, here: seq<Table>, begin: Option<UserKey>, end: Option<UserKey>, lo: Option<UserKey>,
                  hi: Option<UserKey>)
    requires level > 0 ==> lo == begin && hi == end
    requires level == 0 ==> LeastClosed(ToSet(here), begin, end, lo, hi)
    ensures Overlapping(here, lo, hi) == [] <==> forall f :: f in here ==> !Overlaps(f, begin, end)
  {
    OverlappingMembers(here, lo, hi);
    NonEmpty(Overlapping(here, lo, hi));
    assert forall f :: f in here <==> f in ToSet(here);
    if level == 0 && forall f :: f in here ==> !Overlaps(f, begin, end) {
      assert Closed(ToSet(here), begin, end) && Contains(begin, end, begin, end);
      assert Contains(begin, end, lo, hi);
    }
    if f :| f in here && Overlaps(f, begin, end) {
      GrowOverlaps(ToSet(here), begin, end, lo, hi);
      assert f in ToSet(Overlapping(here, lo, hi));
    }
  }

  lemma {:induction false} OverlappingOrdered(files: seq<Table>, begin: Option<UserKey>, end: Option<UserKey>)
    requires Ordered(files)
    ensures Ordered(Overlapping(files, begin, end))
  {
    if files != [] {
      var n := |files| - 1;
      OverlappingOrdered(files[..n], begin, end);
      OverlappingMembers(files[..n], begin, end);
      var before := Overlapping(files[..n], begin, end);
      forall i | 0 <= i < |before| ensures Before(before[i].largest, files[n].smallest) {
        assert before[i] in ToSet(before);
        var j :| 0 <= j < n && files[..n][j] == before[i];
      }
    }
  }

  lemma PrefixMember(all: seq<Table>, n: nat, g: Table, h: Table)
    requires Ordered(all) && n <= |all|
    requires g in all && h in all[..n] && Before(g.largest, h.smallest)
    ensures g in all[..n]
  {
    var j :| 0 <= j < |all| && all[j] == g;
    var k :| 0 <= k < n && all[k] == h;
    assert all[..n][j] == g;
  }

  /** A prefix of the overlapping files of an ordered level skips no file between two of them. */
  lemma PrefixConvex(files: seq<Table>, begin: Option<UserKey>, end: Option<UserKey>, n: nat)
    requires Ordered(files) && n <= |Overlapping(files, begin, end)|
    ensures ToSet(Overlapping(files, begin, end)[..n]) <= ToSet(files)
    ensures Convex(ToSet(files), ToSet(Overlapping(files, begin, end)[..n]))
  {
    var all := Overlapping(files, begin, end);
    OverlappingMembers(files, begin, end);
    OverlappingOrdered(files, begin, end);
    OverlappingChoice(1, files, begin, end, ToSet(all));
    hide Overlapping, Ordered, Exactly;
    assert ToSet(all[..n]) <= ToSet(all);
    forall f, g, h | f in ToSet(all[..n]) && h in ToSet(all[..n]) && g in ToSet(files)
                     && Before(f.largest, g.smallest) && Before(g.largest, h.smallest)
      ensures g in ToSet(all[..n])
    {
      assert g in ToSet(all);
      PrefixMember(all, n, g, h);
    }
  }

  // ----- flushing -----

  ghost predicate NoOverlap(files: seq<Table>, smallest: UserKey, largest: UserKey) {
    forall f :: f in files ==> f.largest.user < smallest || largest < f.smallest.user
  }

  const MAX_MEM_COMPACT_LEVEL: nat := 2

  lemma LevelsParts(files: seq<seq<Table>>)
    requires WellFormed(files)
    ensures forall l :: 0 < l < NUM_LEVELS ==> Ordered(files[l])
    ensures forall l :: 0 <= l < NUM_LEVELS ==> AllFilled(ToSet(files[l]))
  {
  }

  /** Version::PickLevelForMemTableOutput. */
  method PickLevelForMemTableOutput(files: seq<seq<Table>>, smallest: UserKey, largest: UserKey, grandparentLimit: nat)
    returns (level: nat)
    requires WellFormed(files) && smallest <= largest
    ensures level <= 2
    ensures level > 0 ==> forall l :: 0 <= l <= level ==> NoOverlap(files[l], smallest, largest)
    ensures forall l :: 2 <= l < level + 2 ==>
              TotalFileSize(Overlapping(files[l], Some(smallest), Some(largest))) <= grandparentLimit
    ensures level < 2 ==>
              || (level == 0 && !NoOverlap(files[0], smallest, largest))
              || !NoOverlap(files[level + 1], smallest, largest)
              || TotalFileSize(Overlapping(files[level + 2], Some(smallest), Some(largest))) > grandparentLimit
  {
    hide TotalFileSize, Overlapping;
    LevelsParts(files);
    hide LevelOk, AllFilled, NewerByNumber, Unique;
    level := 0;
    var found := SomeFileOverlapsRange(false, files[0], Some(smallest), Some(largest));
    if !found {
      while level < MAX_MEM_COMPACT_LEVEL
        invariant level <= MAX_MEM_COMPACT_LEVEL
        invariant forall l :: 0 <= l <= level ==> NoOverlap(files[l], smallest, largest)
        invariant forall l :: 2 <= l < level + 2 ==>
                    TotalFileSize(Overlapping(files[l], Some(smallest), Some(largest))) <= grandparentLimit
      {
        found := SomeFileOverlapsRange(true, files[level + 1], Some(smallest), Some(largest));
        if found {
          break;
        }
        if level + 2 < NUM_LEVELS {
          var overlaps;
          ghost var lo, hi;
          overlaps, lo, hi := GetOverlappingInputs(false, files[level + 2], Some(smallest), Some(largest));
          if TotalFileSize(overlaps) > grandparentLimit {
            break;
          }
        }
        level := level + 1;
      }
    }
  }

  /** Compaction::IsTrivialMove. */
  predicate IsTrivialMove(c: Inputs, grandparentLimit: nat) {
    |c.in0| == 1 && |c.in1| == 0 && TotalFileSize(c.grandparents) <= grandparentLimit
  }
}
