/**
 Version edits and the builder that applies them.  A manifest is a list of edits; recovery applies
 them all to one builder, while normal running builds a version after every edit.
*/
module Manifest {
  import opened Format
  import opened Tables
  import opened Boundary
  import opened Lookup

  /** A version edit: counters, file numbers to delete and files to add, each at a level. */
  datatype Edit = Edit(logNumber: Option<nat>, prevLogNumber: Option<nat>, nextFileNumber: Option<nat>,
                       lastSequence: Option<nat>, deleted: set<(nat, nat)>, added: seq<(nat, Table)>)

  ghost predicate ValidEdit(e: Edit) {
    && (forall d :: d in e.deleted ==> d.0 < NUM_LEVELS)
    && (forall i :: 0 <= i < |e.added| ==> e.added[i].0 < NUM_LEVELS)
  }

  /** The builder's order: by smallest key, then by file number. */
  predicate FileBefore(f: Table, g: Table) {
    Before(f.smallest, g.smallest) || (f.smallest == g.smallest && f.number < g.number)
  }

  ghost predicate BySmallest(files: seq<Table>) {
    forall i, j :: 0 <= i < j < |files| ==> FileBefore(files[i], files[j])
  }

  predicate Tied(f: Table, g: Table) {
    f.smallest == g.smallest && f.number == g.number
  }

  lemma FileOrderTotal(f: Table, g: Table)
    ensures FileBefore(f, g) || FileBefore(g, f) || Tied(f, g)
    ensures !(FileBefore(f, g) && FileBefore(g, f)) && (Tied(f, g) ==> !FileBefore(f, g))
  {
    CompareIsTotalOrder(f.smallest, g.smallest);
  }

  /** By the smallest keys, greater sequence numbers first, and by numbers where those are the same. */
  lemma BuilderOrder(files: seq<Table>)
    ensures BySmallest(files)
            <==> forall i, j :: 0 <= i < j < |files| ==>
                   var k, l := files[i].smallest, files[j].smallest;
                   || k.user < l.user
                   || (k.user == l.user && k.sequence > l.sequence)
                   || (k.user == l.user && k.sequence == l.sequence && k.kind == Value && l.kind == Deletion)
                   || (k == l && files[i].number < files[j].number)
  {
    forall i, j | 0 <= i < j < |files|
      ensures Before(files[i].smallest, files[j].smallest)
              <==> var k, l := files[i].smallest, files[j].smallest;
                   || k.user < l.user
                   || (k.user == l.user && k.sequence > l.sequence)
                   || (k.user == l.user && k.sequence == l.sequence && k.kind == Value && l.kind == Deletion)
    {
    }
  }

  ghost function Numbers(files: set<Table>): set<nat> {
    set f | f in files :: f.number
  }

  /** One list per set: two lists in builder order with the same files are the same list. */
  lemma {:induction false} SameFilesSameList(a: seq<Table>, b: seq<Table>)
    requires BySmallest(a) && BySmallest(b) && ToSet(a) == ToSet(b)
    ensures a == b
  {
    if a == [] {
      if b != [] {
        LastIsLast(b, a);
      }
    } else {
      var n, m := |a| - 1, |b| - 1;
      assert a[n] in ToSet(b) && (b != [] ==> b[m] in ToSet(a));
      LastIsLast(a, b);
      ToSetTake(a, n);
      ToSetTake(b, m);
      assert a[..n + 1] == a && b[..m + 1] == b;
      NotInFront(a);
      NotInFront(b);
      assert ToSet(a[..n]) == ToSet(b[..m]);
      SameFilesSameList(a[..n], b[..m]);
      assert a == a[..n] + [a[n]] && b == b[..m] + [b[m]];
    }
  }

  lemma NotInFront(a: seq<Table>)
    requires BySmallest(a) && a != []
    ensures a[|a| - 1] !in ToSet(a[..|a| - 1])
  {
    var n := |a| - 1;
    forall i | 0 <= i < n ensures a[i] != a[n] {
      assert FileBefore(a[i], a[n]);
    }
  }

  lemma LastIsLast(a: seq<Table>, b: seq<Table>)
    requires BySmallest(a) && BySmallest(b) && ToSet(a) == ToSet(b) && a != []
    ensures b != [] && a[|a| - 1] == b[|b| - 1]
  {
    var n, m := |a| - 1, |b| - 1;
    assert a[n] in ToSet(b);
    var j :| 0 <= j < |b| && b[j] == a[n];
    assert b[m] in ToSet(a);
    var i :| 0 <= i < |a| && a[i] == b[m];
    assert i < n ==> FileBefore(a[i], a[n]);
    assert j < m ==> FileBefore(b[j], b[m]);
    FileOrderTotal(a[n], b[m]);
  }

  // ----- what a list of edits means for one level -----

  ghost function DeletedAt(e: Edit, level: nat): set<nat> {
    set d | d in e.deleted && d.0 == level :: d.1
  }

  /** An insertion into a set of files ordered by smallest key and number. */
  ghost function AddOne(files: set<Table>, f: Table): set<Table> {
    if exists g :: g in files && Tied(g, f) then files else files + {f}
  }

  ghost function AddAll(files: set<Table>, added: seq<(nat, Table)>, level: nat): set<Table> {
    if added == [] then files
    else
      var n := |added| - 1;
      var before := AddAll(files, added[..n], level);
      if added[n].0 == level then AddOne(before, added[n].1) else before
  }

  ghost function AddedNumbers(added: seq<(nat, Table)>, level: nat): set<nat> {
    set i | 0 <= i < |added| && added[i].0 == level :: added[i].1.number
  }

  /** One level of a builder: numbers to leave out, and files to put in. */
  datatype LevelState = LevelState(deleted: set<nat>, added: set<Table>)

  const EMPTY: LevelState := LevelState({}, {})

  /** Deletions first, then additions; adding a number takes back its deletion. */
  ghost function ApplyAt(st: LevelState, e: Edit, level: nat): LevelState {
    LevelState(st.deleted + DeletedAt(e, level) - AddedNumbers(e.added, level), AddAll(st.added, e.added, level))
  }

  ghost function Saved(base: set<Table>, st: LevelState): set<Table> {
    set f | f in base + st.added && f.number !in st.deleted
  }

  /** One builder, all the edits. */
  ghost function ReplayAt(edits: seq<Edit>, level: nat): LevelState {
    if edits == [] then EMPTY
    else ApplyAt(ReplayAt(edits[..|edits| - 1], level), edits[|edits| - 1], level)
  }

  /** A version after every edit. */
  ghost function VersionAt(base: set<Table>, edits: seq<Edit>, level: nat): set<Table> {
    if edits == [] then base
    else Saved(VersionAt(base, edits[..|edits| - 1], level), ApplyAt(EMPTY, edits[|edits| - 1], level))
  }

  /** Every file that stood at the level in some version. */
  ghost function Ever(base: set<Table>, edits: seq<Edit>, level: nat): set<Table> {
    if edits == [] then base
    else Ever(base, edits[..|edits| - 1], level) + VersionAt(base, edits, level)
  }

  ghost predicate NoTies(files: set<Table>) {
    forall f, g :: f in files && g in files && Tied(f, g) ==> f == g
  }

  lemma AddedNumbersNext(added: seq<(nat, Table)>, n: nat, level: nat)
    requires n < |added|
    ensures AddedNumbers(added[..n + 1], level)
            == AddedNumbers(added[..n], level) + if added[n].0 == level then {added[n].1.number} else {}
  {
    forall m ensures m in AddedNumbers(added[..n + 1], level)
                     <==> m in AddedNumbers(added[..n], level) || (added[n].0 == level && m == added[n].1.number)
    {
      if m in AddedNumbers(added[..n], level) {
        var i :| 0 <= i < n && added[..n][i].0 == level && added[..n][i].1.number == m;
        assert added[..n + 1][i] == added[..n][i];
      }
      if m in AddedNumbers(added[..n + 1], level) {
        var i :| 0 <= i <= n && added[..n + 1][i].0 == level && added[..n + 1][i].1.number == m;
        assert i < n ==> added[..n + 1][i] == added[..n][i];
      }
      assert added[..n + 1][n] == added[n];
    }
  }

  lemma {:induction false} AddAllNumbers(added: seq<(nat, Table)>, level: nat)
    ensures Numbers(AddAll({}, added, level)) == AddedNumbers(added, level)
  {
    if added != [] {
      var n := |added| - 1;
      var before := AddAll({}, added[..n], level);
      AddAllNumbers(added[..n], level);
      AddedNumbersNext(added, n, level);
      assert added[..n + 1] == added;
      forall m ensures m in Numbers(AddOne(before, added[n].1)) <==> m in Numbers(before) + {added[n].1.number} {
      }
    }
  }

  // ----- what is offered to one builder, and what it takes -----

  /** The files added at a level, in order. */
  ghost function OfferedIn(added: seq<(nat, Table)>, level: nat): seq<Table> {
    if added == [] then []
    else
      var n := |added| - 1;
      OfferedIn(added[..n], level) + if added[n].0 == level then [added[n].1] else []
  }

  ghost function Offered(edits: seq<Edit>, level: nat): seq<Table> {
    if edits == [] then []
    else Offered(edits[..|edits| - 1], level) + OfferedIn(edits[|edits| - 1].added, level)
  }

  /** No file before it has its number and its smallest key. */
  ghost predicate IsFirst(files: seq<Table>, k: nat) {
    k < |files| && forall j :: 0 <= j < k ==> !Tied(files[j], files[k])
  }

  ghost function Firsts(files: seq<Table>): set<Table> {
    set k | 0 <= k < |files| && IsFirst(files, k) :: files[k]
  }

  lemma {:induction false} FirstTied(files: seq<Table>, f: Table, j: nat) returns (k: nat)
    requires j < |files| && Tied(files[j], f)
    ensures k <= j && Tied(files[k], f) && IsFirst(files, k)
    decreases j
  {
    if i :| 0 <= i < j && Tied(files[i], files[j]) {
      k := FirstTied(files, f, i);
    } else {
      k := j;
    }
  }

  lemma FirstsNext(files: seq<Table>, f: Table)
    ensures Firsts(files + [f]) == AddOne(Firsts(files), f)
  {
    var more := files + [f];
    assert more[|files|] == f;
    forall k | 0 <= k < |files| ensures IsFirst(more, k) <==> IsFirst(files, k) {
      assert more[k] == files[k] && forall j :: 0 <= j < k ==> more[j] == files[j];
    }
    if j :| 0 <= j < |files| && Tied(files[j], f) {
      var k := FirstTied(files, f, j);
      assert files[k] in Firsts(files) && more[j] == files[j];
      assert !IsFirst(more, |files|);
    } else {
      assert forall j :: 0 <= j < |files| ==> more[j] == files[j];
      assert IsFirst(more, |files|);
    }
    forall g ensures g in Firsts(more) <==> g in AddOne(Firsts(files), f) {
      if g in Firsts(more) {
        var k :| 0 <= k < |more| && IsFirst(more, k) && more[k] == g;
      }
      if g in Firsts(files) {
        var k :| 0 <= k < |files| && IsFirst(files, k) && files[k] == g;
        assert more[k] == g;
      }
    }
  }

  lemma {:induction false} AddAllFirsts(files: seq<Table>, added: seq<(nat, Table)>, level: nat)
    ensures AddAll(Firsts(files), added, level) == Firsts(files + OfferedIn(added, level))
  {
    hide Firsts, AddOne;
    if added == [] {
      assert files + [] == files;
    } else {
      var n := |added| - 1;
      AddAllFirsts(files, added[..n], level);
      var before := files + OfferedIn(added[..n], level);
      if added[n].0 == level {
        FirstsNext(before, added[n].1);
        assert files + OfferedIn(added, level) == before + [added[n].1];
      } else {
        assert files + OfferedIn(added, level) == before;
      }
    }
  }

  /** The builder's ordered set takes the first of the files that are tied. */
  lemma {:induction false} ReplayTakesFirsts(edits: seq<Edit>, level: nat)
    ensures ReplayAt(edits, level).added == Firsts(Offered(edits, level))
  {
    if edits == [] {
    } else {
      var n := |edits| - 1;
      ReplayTakesFirsts(edits[..n], level);
      AddAllFirsts(Offered(edits[..n], level), edits[n].added, level);
    }
  }

  /** What the one builder has collected, in terms of the versions it never built. */
  ghost predicate Tracks(base: set<Table>, st: LevelState, ever: set<Table>, version: set<Table>) {
    && base + st.added <= ever
    && version <= ever
    && forall f :: f in ever ==> (f.number in st.deleted <==> f.number !in Numbers(version))
  }

  lemma {:induction false} AddAllWithin(files: set<Table>, added: seq<(nat, Table)>, level: nat)
    ensures files <= AddAll(files, added, level) <= files + AddAll({}, added, level)
  {
    if added != [] {
      var n := |added| - 1;
      AddAllWithin(files, added[..n], level);
      if added[n].0 == level {
        var none := AddAll({}, added[..n], level);
        if g :| g in none && Tied(g, added[n].1) {
          TiedIn(files, added[..n], level, g);
        }
      }
    }
  }

  /** A file that one set takes is tied with one that a larger set has. */
  lemma {:induction false} TiedIn(files: set<Table>, added: seq<(nat, Table)>, level: nat, g: Table)
    requires g in AddAll({}, added, level)
    ensures exists h :: h in AddAll(files, added, level) && Tied(h, g)
  {
    var n := |added| - 1;
    if added[n].0 == level && g == added[n].1 {
      var some := AddAll(files, added[..n], level);
      if !exists h :: h in some && Tied(h, g) {
        assert g in AddOne(some, g) && Tied(g, g);
      }
    } else {
      TiedIn(files, added[..n], level, g);
    }
  }

  lemma TracksNext(base: set<Table>, st: LevelState, ever: set<Table>, version: set<Table>, e: Edit, level: nat)
    requires Tracks(base, st, ever, version)
    ensures Tracks(base, ApplyAt(st, e, level), ever + Saved(version, ApplyAt(EMPTY, e, level)),
                   Saved(version, ApplyAt(EMPTY, e, level)))
  {
    var incoming := AddAll({}, e.added, level);
    var next := Saved(version, ApplyAt(EMPTY, e, level));
    AddAllNumbers(e.added, level);
    assert incoming <= next;
    AddAllWithin(st.added, e.added, level);
    forall f | f in ever + next
      ensures f.number in ApplyAt(st, e, level).deleted <==> f.number !in Numbers(next)
    {
      if f.number in Numbers(incoming) {
        var g :| g in incoming && g.number == f.number;
        assert g in next;
      } else if f.number in DeletedAt(e, level) {
        assert f.number in ApplyAt(EMPTY, e, level).deleted;
      } else if f.number in Numbers(version) {
        var g :| g in version && g.number == f.number;
        assert g in next;
      }
    }
  }

  lemma {:induction false} ReplayTracks(base: set<Table>, edits: seq<Edit>, level: nat)
    ensures Tracks(base, ReplayAt(edits, level), Ever(base, edits, level), VersionAt(base, edits, level))
  {
    if edits != [] {
      var n := |edits| - 1;
      ReplayTracks(base, edits[..n], level);
      TracksNext(base, ReplayAt(edits[..n], level), Ever(base, edits[..n], level), VersionAt(base, edits[..n], level),
                 edits[n], level);
    }
  }

  /** The files the edits leave to choose from: those of the base, and the first of those tied among the added ones. */
  ghost function Accepted(base: set<Table>, edits: seq<Edit>, level: nat): set<Table> {
    base + Firsts(Offered(edits, level))
  }

  /** No file that has left the level shares its number with one that is there. */
  ghost predicate NoneRevived(accepted: set<Table>, version: set<Table>) {
    forall f, g :: f in accepted && g in version && f.number == g.number ==> f in version
  }

  /** No file that is there was added after another with its number and its smallest key. */
  ghost predicate NoneDropped(accepted: set<Table>, version: set<Table>) {
    version <= accepted
  }

  /** Replaying the manifest gives the last version exactly when no number in it also names a file that has since left
      the level, and no file in it is tied with one added before it. */
  lemma ReplayIff(base: set<Table>, edits: seq<Edit>, level: nat)
    ensures Saved(base, ReplayAt(edits, level)) == VersionAt(base, edits, level)
            <==> NoneRevived(Accepted(base, edits, level), VersionAt(base, edits, level))
                 && NoneDropped(Accepted(base, edits, level), VersionAt(base, edits, level))
  {
    ReplayTracks(base, edits, level);
    ReplayTakesFirsts(edits, level);
    var accepted, version := Accepted(base, edits, level), VersionAt(base, edits, level);
    var replayed := Saved(base, ReplayAt(edits, level));
    forall f ensures f in replayed <==> f in accepted && f.number in Numbers(version) {
    }
    hide Saved, Accepted, Ever, VersionAt, ReplayAt, Firsts;
    if NoneRevived(accepted, version) && NoneDropped(accepted, version) {
      forall f ensures f in replayed <==> f in version {
        if f in version {
          assert f.number in Numbers(version);
        }
      }
    } else if f, g :| f in accepted && g in version && f.number == g.number && f !in version {
      assert g.number in Numbers(version);
      assert f in replayed;
    } else {
      var f :| f in version && f !in accepted;
      assert f !in replayed;
    }
  }

  /** So it does when no two files that ever stood at the level share a number. */
  lemma DistinctReplays(base: set<Table>, edits: seq<Edit>, level: nat)
    requires Distinct(Ever(base, edits, level))
    ensures Saved(base, ReplayAt(edits, level)) == VersionAt(base, edits, level)
  {
    ReplayTracks(base, edits, level);
    ReplayTakesFirsts(edits, level);
    var accepted, version := Accepted(base, edits, level), VersionAt(base, edits, level);
    var ever := Ever(base, edits, level);
    assert accepted <= ever && version <= ever;
    forall f | f in version ensures f in accepted {
      ComesFrom(base, edits, level, f);
    }
    hide Ever, VersionAt, ReplayAt, Firsts, Accepted, Saved;
    ReplayIff(base, edits, level);
  }

  /** A file of the version has a tied one, of its number, among those accepted. */
  lemma {:induction false} TakenNumber(base: set<Table>, edits: seq<Edit>, level: nat, f: Table)
    requires f in Ever(base, edits, level)
    ensures exists g :: g in base + ReplayAt(edits, level).added && g.number == f.number
  {
    if edits == [] {
      assert f in base + ReplayAt(edits, level).added;
    } else {
      var n := |edits| - 1;
      var st := ReplayAt(edits[..n], level);
      AddAllWithin(st.added, edits[n].added, level);
      if f in Ever(base, edits[..n], level) {
        TakenNumber(base, edits[..n], level, f);
        var g :| g in base + st.added && g.number == f.number;
        assert g in base + ReplayAt(edits, level).added;
      } else {
        ReplayTracks(base, edits[..n], level);
        assert f in AddAll({}, edits[n].added, level);
        TiedIn(st.added, edits[n].added, level, f);
        var h :| h in ReplayAt(edits, level).added && Tied(h, f);
        assert h in base + ReplayAt(edits, level).added && h.number == f.number;
      }
    }
  }

  lemma ComesFrom(base: set<Table>, edits: seq<Edit>, level: nat, f: Table)
    requires Distinct(Ever(base, edits, level)) && f in Ever(base, edits, level)
    ensures f in Accepted(base, edits, level)
  {
    TakenNumber(base, edits, level, f);
    ReplayTracks(base, edits, level);
    ReplayTakesFirsts(edits, level);
  }

  /** A table of one entry, to write examples with. */
  function OneEntryTable(number: nat, user: UserKey): Table {
    var key := InternalKey(user, 1, Value);
    File(number, 1, key, key, [Entry(key, [])])
  }

  function Adding(f: Table): Edit {
    Edit(None, None, None, None, {}, [(1, f)])
  }

  /** One edit that adds a file at level one, on top of what a builder or a version has. */
  lemma AddingOne(st: LevelState, version: set<Table>, f: Table)
    ensures AddAll({}, Adding(f).added, 1) == {f} && AddAll(st.added, Adding(f).added, 1) == AddOne(st.added, f)
    ensures ApplyAt(st, Adding(f), 1) == LevelState(st.deleted - {f.number}, AddOne(st.added, f))
    ensures Saved(version, ApplyAt(EMPTY, Adding(f), 1)) == version + {f}
    ensures OfferedIn(Adding(f).added, 1) == [f]
  {
    var added := Adding(f).added;
    assert added[..0] == [] && added[0] == (1, f);
    assert AddAll({}, added[..0], 1) == {} && AddAll(st.added, added[..0], 1) == st.added;
    assert AddOne({}, f) == {f};
    assert AddedNumbers(added, 1) == {f.number} by {
      assert added[0].1.number == f.number;
    }
    assert DeletedAt(Adding(f), 1) == {};
  }

  const DELETING: Edit := Edit(None, None, None, None, {(1, 9)}, [])

  lemma DeletingOne(st: LevelState, version: set<Table>)
    ensures ApplyAt(st, DELETING, 1) == LevelState(st.deleted + {9}, st.added)
    ensures Saved(version, ApplyAt(EMPTY, DELETING, 1)) == set f | f in version && f.number != 9
    ensures OfferedIn(DELETING.added, 1) == []
  {
    assert (1, 9) in DELETING.deleted && (1, 9).1 == 9;
    assert DeletedAt(DELETING, 1) == {9} && AddedNumbers(DELETING.added, 1) == {};
    assert AddAll(st.added, DELETING.added, 1) == st.added && AddAll({}, DELETING.added, 1) == {};
  }

  lemma OneEdit(e: Edit)
    ensures ReplayAt([e], 1) == ApplyAt(EMPTY, e, 1) && VersionAt({}, [e], 1) == Saved({}, ApplyAt(EMPTY, e, 1))
    ensures Offered([e], 1) == OfferedIn(e.added, 1)
  {
    assert [e][..0] == [] && [] + OfferedIn(e.added, 1) == OfferedIn(e.added, 1);
  }

  lemma OneMoreEdit(edits: seq<Edit>, e: Edit)
    ensures ReplayAt(edits + [e], 1) == ApplyAt(ReplayAt(edits, 1), e, 1)
    ensures VersionAt({}, edits + [e], 1) == Saved(VersionAt({}, edits, 1), ApplyAt(EMPTY, e, 1))
    ensures Offered(edits + [e], 1) == Offered(edits, 1) + OfferedIn(e.added, 1)
  {
    assert (edits + [e])[..|edits|] == edits;
  }

  /** Adding number 9, deleting it and using it again for another file: the replay brings the first file back. */
  lemma ReusedNumberRevives()
    ensures var gone, f := OneEntryTable(9, 1.0), OneEntryTable(9, 2.0);
            var edits := [Adding(gone), DELETING, Adding(f)];
            && VersionAt({}, edits, 1) == {f} && Saved({}, ReplayAt(edits, 1)) == {gone, f}
            && NoneDropped(Accepted({}, edits, 1), {f}) && !NoneRevived(Accepted({}, edits, 1), {f})
  {
    var gone, f := OneEntryTable(9, 1.0), OneEntryTable(9, 2.0);
    var a, b := Adding(gone), Adding(f);
    OneEdit(a);
    AddingOne(EMPTY, {}, gone);
    OneMoreEdit([a], DELETING);
    DeletingOne(LevelState({}, {gone}), {gone});
    OneMoreEdit([a, DELETING], b);
    AddingOne(LevelState({9}, {gone}), {}, f);
    hide ApplyAt, AddAll, OfferedIn, ReplayAt, VersionAt, Offered, DeletedAt, AddedNumbers;
    assert [a] + [DELETING] == [a, DELETING] && [a, DELETING] + [b] == [a, DELETING, b];
    TwoOffered(gone, f);
  }

  /** Adding two files with one number and one smallest key: the version has both, the replay drops the second. */
  lemma TieDropped()
    ensures var f := OneEntryTable(9, 1.0);
            var g := f.(size := 2);
            var edits := [Adding(f), Adding(g)];
            && VersionAt({}, edits, 1) == {f, g} && Saved({}, ReplayAt(edits, 1)) == {f}
            && !NoneDropped(Accepted({}, edits, 1), {f, g}) && NoneRevived(Accepted({}, edits, 1), {f, g})
  {
    var f := OneEntryTable(9, 1.0);
    var g := f.(size := 2);
    var a, b := Adding(f), Adding(g);
    OneEdit(a);
    AddingOne(EMPTY, {}, f);
    OneMoreEdit([a], b);
    AddingOne(LevelState({}, {f}), {f}, g);
    hide ApplyAt, AddAll, OfferedIn, ReplayAt, VersionAt, Offered, DeletedAt, AddedNumbers;
    assert [a] + [b] == [a, b];
    TwoOffered(f, g);
  }

  lemma TwoOffered(f: Table, g: Table)
    ensures [f] + [] + [g] == [f, g] == [f] + [g] && Firsts([f, g]) == if Tied(f, g) then {f} else {f, g}
  {
    FirstsNext([f], g);
    assert IsFirst([f], 0) && Firsts([f]) == {f};
    assert [f] + [g] == [f, g];
  }

  /** On a level above zero, builder order is key order. */
  lemma BuilderOrderIsKeyOrder(files: seq<Table>)
    requires BySmallest(files) && Separated(ToSet(files))
    ensures Ordered(files)
  {
    forall i, j | 0 <= i < j < |files| ensures Before(files[i].largest, files[j].smallest) {
      assert FileBefore(files[i], files[j]);
      FileOrderTotal(files[i], files[j]);
      assert files[i] in ToSet(files) && files[j] in ToSet(files);
    }
  }

  // ----- the builder -----

  /** An insertion into the builder's ordered set: a file tied with one already there is dropped. */
  method InsertFile(files: seq<Table>, f: Table) returns (r: seq<Table>)
    requires BySmallest(files)
    ensures BySmallest(r)
    ensures ToSet(r) == AddOne(ToSet(files), f)
  {
    var at := 0;
    while at < |files| && FileBefore(files[at], f)
      invariant 0 <= at <= |files|
      invariant forall i :: 0 <= i < at ==> FileBefore(files[i], f)
    {
      at := at + 1;
    }
    forall i | at <= i < |files| ensures i == at || FileBefore(f, files[i]) || Tied(files[at], f) {
      FileOrderTotal(files[at], f);
    }
    if at < |files| && Tied(files[at], f) {
      assert files[at] in files;
      return files;
    }
    forall i | 0 <= i < |files| ensures !Tied(files[i], f) {
      FileOrderTotal(files[i], f);
      if i >= at {
        FileOrderTotal(files[at], f);
        FileOrderTotal(f, files[i]);
      }
    }
    r := InsertAt(files, at, f);
    InsertAtMembers(files, at, f);
    forall i, j | 0 <= i < j < |r| ensures FileBefore(r[i], r[j]) {
      if at < |files| {
        FileOrderTotal(files[at], f);
      }
    }
  }

  /** Every file of `files` comes before `f` in builder order. */
  ghost predicate AllBefore(files: seq<Table>, f: Table) {
    forall i :: 0 <= i < |files| ==> FileBefore(files[i], f)
  }

  /** The first position of `base` from `from` on whose file is after `f`. */
  method UpperBound(base: seq<Table>, from: nat, f: Table) returns (at: nat)
    requires BySmallest(base) && from <= |base|
    ensures from <= at <= |base|
    ensures forall i :: from <= i < at ==> !FileBefore(f, base[i])
    ensures forall i :: at <= i < |base| ==> FileBefore(f, base[i])
  {
    var left, right := from, |base|;
    while left < right
      invariant from <= left <= right <= |base|
      invariant forall i :: from <= i < left ==> !FileBefore(f, base[i])
      invariant forall i :: right <= i < |base| ==> FileBefore(f, base[i])
    {
      var mid := (left + right) / 2;
      if FileBefore(f, base[mid]) {
        right := mid;
      } else {
        forall i | from <= i < mid ensures !FileBefore(f, base[i]) {
          assert FileBefore(base[i], base[mid]);
        }
        left := mid + 1;
      }
    }
    return left;
  }

  ghost predicate Untied(a: set<Table>, b: set<Table>) {
    forall f, g :: f in a && g in b ==> !Tied(f, g)
  }

  /** MaybeAddFile: append a file unless its number is deleted. */
  function Appended(files: seq<Table>, f: Table, deleted: set<nat>): seq<Table> {
    if f.number in deleted then files else files + [f]
  }

  lemma AppendedKeepsOrder(files: seq<Table>, f: Table, deleted: set<nat>)
    requires BySmallest(files) && AllBefore(files, f)
    ensures BySmallest(Appended(files, f, deleted))
  {
  }

  lemma AppendedSaves(files: seq<Table>, f: Table, base: set<Table>, st: LevelState)
    requires ToSet(files) == Saved(base, st)
    ensures ToSet(Appended(files, f, st.deleted)) == Saved(base + {f}, st)
    ensures ToSet(Appended(files, f, st.deleted)) == Saved(base, LevelState(st.deleted, st.added + {f}))
  {
    ToSetConcat(files, [f]);
  }

  /** All that is still to come, from `at` in `base` and from `n` in `added`, follows all that has been put out. */
  ghost predicate Merging(r: seq<Table>, base: seq<Table>, at: nat, added: seq<Table>, n: nat) {
    && BySmallest(r)
    && (forall i :: at <= i < |base| ==> AllBefore(r, base[i]))
    && (forall i :: n <= i < |added| ==> AllBefore(r, added[i]))
  }

  lemma MergeBase(r: seq<Table>, base: seq<Table>, at: nat, added: seq<Table>, n: nat, deleted: set<nat>)
    requires Merging(r, base, at, added, n) && at < |base| && BySmallest(base) && BySmallest(added)
    requires n < |added| ==> FileBefore(base[at], added[n])
    ensures Merging(Appended(r, base[at], deleted), base, at + 1, added, n)
  {
    AppendedKeepsOrder(r, base[at], deleted);
    forall i | n <= i < |added| ensures AllBefore(Appended(r, base[at], deleted), added[i]) {
      assert i == n || FileBefore(added[n], added[i]);
    }
  }

  lemma MergeAdded(r: seq<Table>, base: seq<Table>, at: nat, added: seq<Table>, n: nat, deleted: set<nat>)
    requires Merging(r, base, at, added, n) && n < |added| && BySmallest(base) && BySmallest(added)
    requires at < |base| ==> FileBefore(added[n], base[at])
    ensures Merging(Appended(r, added[n], deleted), base, at, added, n + 1)
  {
    AppendedKeepsOrder(r, added[n], deleted);
    forall i | at <= i < |base| ensures AllBefore(Appended(r, added[n], deleted), base[i]) {
      assert i == at || FileBefore(base[at], base[i]);
    }
  }

  lemma MergeStart(base: seq<Table>, added: seq<Table>, deleted: set<nat>)
    ensures Merging([], base, 0, added, 0)
    ensures ToSet<Table>([]) == Saved(ToSet(base[..0]), LevelState(deleted, ToSet(added[..0])))
  {
  }

  lemma TakesBefore(base: seq<Table>, at: nat, added: seq<Table>, n: nat)
    requires at < |base| && n < |added| && Untied(ToSet(base), ToSet(added)) && !FileBefore(added[n], base[at])
    ensures FileBefore(base[at], added[n])
  {
    FileOrderTotal(base[at], added[n]);
    assert base[at] in ToSet(base) && added[n] in ToSet(added);
  }

  /** One level of SaveTo: base files and added files merged in builder order, deleted numbers left out. */
  method SaveLevel(base: seq<Table>, deleted: set<nat>, added: seq<Table>) returns (r: seq<Table>)
    requires BySmallest(base) && BySmallest(added)
    ensures ToSet(r) == Saved(ToSet(base), LevelState(deleted, ToSet(added)))
    ensures Untied(ToSet(base), ToSet(added)) ==> BySmallest(r)
  {
    hide BySmallest, Saved, Appended;
    r := [];
    var at: nat := 0;
    ghost var untied := Untied(ToSet(base), ToSet(added));
    MergeStart(base, added, deleted);
    for n := 0 to |added|
      invariant at <= |base|
      invariant ToSet(r) == Saved(ToSet(base[..at]), LevelState(deleted, ToSet(added[..n])))
      invariant untied ==> Merging(r, base, at, added, n)
    {
      hide Merging;
      var end := UpperBound(base, at, added[n]);
      while at < end
        invariant at <= end
        invariant ToSet(r) == Saved(ToSet(base[..at]), LevelState(deleted, ToSet(added[..n])))
        invariant untied ==> Merging(r, base, at, added, n)
      {
        if untied {
          TakesBefore(base, at, added, n);
          MergeBase(r, base, at, added, n, deleted);
        }
        AppendedSaves(r, base[at], ToSet(base[..at]), LevelState(deleted, ToSet(added[..n])));
        ToSetTake(base, at);
        r := Appended(r, base[at], deleted);
        at := at + 1;
      }
      if untied {
        MergeAdded(r, base, at, added, n, deleted);
      }
      AppendedSaves(r, added[n], ToSet(base[..at]), LevelState(deleted, ToSet(added[..n])));
      ToSetTake(added, n);
      r := Appended(r, added[n], deleted);
    }
    while at < |base|
      invariant at <= |base|
      invariant ToSet(r) == Saved(ToSet(base[..at]), LevelState(deleted, ToSet(added[..|added|])))
      invariant untied ==> Merging(r, base, at, added, |added|)
    {
      if untied {
        MergeBase(r, base, at, added, |added|, deleted);
      }
      AppendedSaves(r, base[at], ToSet(base[..at]), LevelState(deleted, ToSet(added[..|added|])));
      ToSetTake(base, at);
      r := Appended(r, base[at], deleted);
      at := at + 1;
    }
    assert base[..|base|] == base && added[..|added|] == added;
  }

  class Builder {
    const base: seq<seq<Table>>
    var deleted: seq<set<nat>>
    var added: seq<seq<Table>>

    ghost predicate Valid()
      reads this
    {
      && |base| == NUM_LEVELS && |deleted| == NUM_LEVELS && |added| == NUM_LEVELS
      && (forall l :: 0 <= l < NUM_LEVELS ==> BySmallest(base[l]))
      && (forall l :: 0 <= l < NUM_LEVELS ==> BySmallest(added[l]))
    }

    ghost function At(level: nat): LevelState
      requires Valid() && level < NUM_LEVELS
      reads this
    {
      LevelState(deleted[level], ToSet(added[level]))
    }

    constructor (base: seq<seq<Table>>)
      requires |base| == NUM_LEVELS && forall l :: 0 <= l < NUM_LEVELS ==> BySmallest(base[l])
      ensures Valid() && this.base == base
      ensures forall l :: 0 <= l < NUM_LEVELS ==> At(l) == EMPTY
    {
      this.base := base;
      deleted := seq(NUM_LEVELS, _ => {});
      added := seq(NUM_LEVELS, _ => []);
    }

    /** Record the numbers an edit deletes. */
    method DeleteFiles(del: set<(nat, nat)>)
      requires Valid() && forall d :: d in del ==> d.0 < NUM_LEVELS
      modifies this`deleted
      ensures Valid()
      ensures forall l :: 0 <= l < NUM_LEVELS ==>
                deleted[l] == old(deleted)[l] + set d | d in del && d.0 == l :: d.1
    {
      var rest := del;
      while rest != {}
        invariant Valid() && rest <= del
        invariant forall l, m :: 0 <= l < NUM_LEVELS ==>
                    (m in deleted[l] <==> m in old(deleted)[l] || (l, m) in del - rest)
      {
        var d :| d in rest;
        deleted := deleted[d.0 := deleted[d.0] + {d.1}];
        rest := rest - {d};
      }
      forall l, m | 0 <= l < NUM_LEVELS
        ensures (l, m) in del <==> m in (set d | d in del && d.0 == l :: d.1)
      {
        if (l, m) in del {
          assert (l, m).0 == l && (l, m).1 == m;
        }
      }
    }

    /** Insert the files an edit adds, each taking back any deletion of its number. */
    method AddFiles(files: seq<(nat, Table)>)
      requires Valid() && forall i :: 0 <= i < |files| ==> files[i].0 < NUM_LEVELS
      modifies this
      ensures Valid()
      ensures forall l :: 0 <= l < NUM_LEVELS ==> deleted[l] == old(deleted)[l] - AddedNumbers(files, l)
      ensures forall l :: 0 <= l < NUM_LEVELS ==> ToSet(added[l]) == AddAll(ToSet(old(added)[l]), files, l)
    {
      for i := 0 to |files|
        invariant Valid()
        invariant forall l :: 0 <= l < NUM_LEVELS ==> deleted[l] == old(deleted)[l] - AddedNumbers(files[..i], l)
        invariant forall l :: 0 <= l < NUM_LEVELS ==> ToSet(added[l]) == AddAll(ToSet(old(added)[l]), files[..i], l)
      {
        var (level, f) := files[i];
        var inserted := InsertFile(added[level], f);
        deleted := deleted[level := deleted[level] - {f.number}];
        added := added[level := inserted];
        assert files[..i + 1][..i] == files[..i];
        forall l | 0 <= l < NUM_LEVELS
          ensures AddedNumbers(files[..i + 1], l) == AddedNumbers(files[..i], l) + if l == level then {f.number} else {}
        {
          AddedNumbersNext(files, i, l);
        }
      }
      assert files[..|files|] == files;
    }

    method Apply(e: Edit)
      requires Valid() && ValidEdit(e)
      modifies this
      ensures Valid()
      ensures forall l :: 0 <= l < NUM_LEVELS ==> At(l) == ApplyAt(old(At(l)), e, l)
    {
      DeleteFiles(e.deleted);
      AddFiles(e.added);
    }

    method SaveTo() returns (files: seq<seq<Table>>)
      requires Valid()
      ensures |files| == NUM_LEVELS
      ensures forall l :: 0 <= l < NUM_LEVELS ==> ToSet(files[l]) == Saved(ToSet(base[l]), At(l))
      ensures forall l :: 0 <= l < NUM_LEVELS && Untied(ToSet(base[l]), ToSet(added[l])) ==> BySmallest(files[l])
    {
      files := [];
      for level := 0 to NUM_LEVELS
        invariant |files| == level
        invariant forall l :: 0 <= l < level ==> ToSet(files[l]) == Saved(ToSet(base[l]), At(l))
        invariant forall l :: 0 <= l < level && Untied(ToSet(base[l]), ToSet(added[l])) ==> BySmallest(files[l])
      {
        var saved := SaveLevel(base[level], deleted[level], added[level]);
        files := files + [saved];
      }
    }
  }

  // ----- the version set -----

  /** A number names one file. */
  ghost predicate Distinct(files: set<Table>) {
    forall f, g :: f in files && g in files && f.number == g.number ==> f == g
  }

  datatype Recovered =
    | Recovered(files: seq<seq<Table>>, logNumber: nat, prevLogNumber: nat, nextFileNumber: nat, lastSequence: nat)
    | Corruption(message: string)

  function Latest(seen: Option<nat>, recorded: Option<nat>): Option<nat> {
    if recorded.Some? then recorded else seen
  }

  datatype Counters = Counters(logNumber: Option<nat>, prevLogNumber: Option<nat>, nextFileNumber: Option<nat>,
                               lastSequence: Option<nat>)

  /** The last recorded value of each counter. */
  ghost function Seen(edits: seq<Edit>): Counters {
    if edits == [] then Counters(None, None, None, None)
    else
      var seen, e := Seen(edits[..|edits| - 1]), edits[|edits| - 1];
      Counters(Latest(seen.logNumber, e.logNumber), Latest(seen.prevLogNumber, e.prevLogNumber),
               Latest(seen.nextFileNumber, e.nextFileNumber), Latest(seen.lastSequence, e.lastSequence))
  }

  ghost predicate ValidEdits(edits: seq<Edit>) {
    forall i :: 0 <= i < |edits| ==> ValidEdit(edits[i])
  }

  /** The counters a recovery needs are all recorded. */
  ghost predicate AllRecorded(c: Counters) {
    c.nextFileNumber.Some? && c.logNumber.Some? && c.lastSequence.Some?
  }

  /** VersionSet::Recover, from the decoded records of the manifest. */
  method Recover(edits: seq<Edit>) returns (r: Recovered)
    requires ValidEdits(edits)
    ensures r.Recovered? <==> AllRecorded(Seen(edits))
    ensures r.Recovered? ==>
              && |r.files| == NUM_LEVELS
              && (forall l :: 0 <= l < NUM_LEVELS ==> BySmallest(r.files[l]))
              && (forall l :: 0 <= l < NUM_LEVELS ==> ToSet(r.files[l]) == Saved({}, ReplayAt(edits, l)))
              && Some(r.logNumber) == Seen(edits).logNumber
              && r.prevLogNumber == (if Seen(edits).prevLogNumber.Some? then Seen(edits).prevLogNumber.value else 0)
              && Some(r.nextFileNumber - 1) == Seen(edits).nextFileNumber
              && Some(r.lastSequence) == Seen(edits).lastSequence
  {
    var builder := new Builder(seq(NUM_LEVELS, _ => []));
    var log, prevLog, next, last := None, None, None, None;
    for i := 0 to |edits|
      invariant builder.Valid() && fresh(builder) && builder.base == seq(NUM_LEVELS, _ => [])
      invariant forall l :: 0 <= l < NUM_LEVELS ==> builder.At(l) == ReplayAt(edits[..i], l)
      invariant Counters(log, prevLog, next, last) == Seen(edits[..i])
    {
      assert edits[..i + 1][..i] == edits[..i];
      builder.Apply(edits[i]);
      log, prevLog := Latest(log, edits[i].logNumber), Latest(prevLog, edits[i].prevLogNumber);
      next, last := Latest(next, edits[i].nextFileNumber), Latest(last, edits[i].lastSequence);
    }
    assert edits[..|edits|] == edits;
    if next == None {
      return Corruption("no meta-nextfile entry in descriptor");
    } else if log == None {
      return Corruption("no meta-lognumber entry in descriptor");
    } else if last == None {
      return Corruption("no last-sequence-number entry in descriptor");
    }
    var files := builder.SaveTo();
    return Recovered(files, log.value, if prevLog.Some? then prevLog.value else 0, next.value + 1, last.value);
  }

  ghost function Incoming(e: Edit, level: nat): set<Table> {
    AddAll({}, e.added, level)
  }

  /** A file already among `files` is not inserted twice. */
  lemma InsertsOnce(files: seq<Table>, i: nat)
    requires BySmallest(files) && i < |files|
    ensures AddOne(ToSet(files[..i]), files[i]) == ToSet(files[..i + 1])
  {
    ToSetTake(files, i);
    forall j | 0 <= j < i ensures !Tied(files[j], files[i]) {
      assert FileBefore(files[j], files[i]);
      FileOrderTotal(files[j], files[i]);
    }
  }

  /** VersionSet::WriteSnapshot: one edit that adds every file of a version. */
  method WriteSnapshot(files: seq<seq<Table>>) returns (e: Edit)
    requires |files| == NUM_LEVELS && forall l :: 0 <= l < NUM_LEVELS ==> BySmallest(files[l])
    ensures ValidEdit(e) && Seen([e]) == Counters(None, None, None, None) && e.deleted == {}
    ensures forall l :: 0 <= l < NUM_LEVELS ==> Incoming(e, l) == ToSet(files[l])
  {
    var added: seq<(nat, Table)> := [];
    for level := 0 to NUM_LEVELS
      invariant forall i :: 0 <= i < |added| ==> added[i].0 < NUM_LEVELS
      invariant forall l :: 0 <= l < NUM_LEVELS ==> AddAll({}, added, l) == if l < level then ToSet(files[l]) else {}
    {
      for i := 0 to |files[level]|
        invariant forall i :: 0 <= i < |added| ==> added[i].0 < NUM_LEVELS
        invariant forall l :: 0 <= l < NUM_LEVELS ==>
                    AddAll({}, added, l) == if l < level then ToSet(files[l])
                                            else if l == level then ToSet(files[l][..i])
                                            else {}
      {
        var more := added + [(level, files[level][i])];
        assert more[..|more| - 1] == added;
        InsertsOnce(files[level], i);
        added := more;
      }
      assert files[level][..|files[level]|] == files[level];
    }
    e := Edit(None, None, None, None, {}, added);
    assert [e][..0] == [];
  }

  lemma SnapshotStarts(snapshot: Edit, files: set<Table>, level: nat)
    requires snapshot.deleted == {} && Incoming(snapshot, level) == files
    ensures VersionAt({}, [snapshot], level) == files && Ever({}, [snapshot], level) == files
  {
    assert [snapshot][..0] == [];
    assert DeletedAt(snapshot, level) == {};
  }

  /** One more record: the version it makes, and the files that have stood at the level. */
  lemma RecordedOnce(records: seq<Edit>, e: Edit, level: nat)
    ensures VersionAt({}, records + [e], level) == Saved(VersionAt({}, records, level), ApplyAt(EMPTY, e, level))
    ensures Ever({}, records + [e], level) == Ever({}, records, level) + Incoming(e, level)
  {
    assert (records + [e])[..|records|] == records;
    EverCovers(records, level);
    AddAllNumbers(e.added, level);
  }

  lemma {:induction false} EverCovers(records: seq<Edit>, level: nat)
    ensures VersionAt({}, records, level) <= Ever({}, records, level)
  {
  }

  lemma SameChanges(a: Edit, b: Edit, level: nat)
    requires a.deleted == b.deleted && a.added == b.added
    ensures ApplyAt(EMPTY, a, level) == ApplyAt(EMPTY, b, level)
  {
  }

  lemma SeenNext(records: seq<Edit>, e: Edit)
    requires e.logNumber.Some? && e.prevLogNumber.Some? && e.nextFileNumber.Some? && e.lastSequence.Some?
    ensures Seen(records + [e]) == Counters(e.logNumber, e.prevLogNumber, e.nextFileNumber, e.lastSequence)
  {
  }

  lemma DisjointIsUntied(a: set<Table>, b: set<Table>, ever: set<Table>)
    requires a !! b && a <= ever && Distinct(ever + b)
    ensures Untied(a, b)
  {
  }

  /** A version made from another by one edit. */
  method BuildVersion(base: seq<seq<Table>>, e: Edit) returns (files: seq<seq<Table>>)
    requires |base| == NUM_LEVELS && forall l :: 0 <= l < NUM_LEVELS ==> BySmallest(base[l])
    requires ValidEdit(e)
    ensures |files| == NUM_LEVELS
    ensures forall l :: 0 <= l < NUM_LEVELS ==> ToSet(files[l]) == Saved(ToSet(base[l]), ApplyAt(EMPTY, e, l))
    ensures forall l :: 0 <= l < NUM_LEVELS && Untied(ToSet(base[l]), Incoming(e, l)) ==> BySmallest(files[l])
  {
    var builder := new Builder(base);
    builder.Apply(e);
    files := builder.SaveTo();
    forall l | 0 <= l < NUM_LEVELS ensures ToSet(builder.added[l]) == Incoming(e, l) {
      assert builder.At(l) == ApplyAt(EMPTY, e, l);
    }
  }

  lemma StartAll(snapshot: Edit, files: seq<seq<Table>>)
    requires |files| == NUM_LEVELS && snapshot.deleted == {}
    requires forall l :: 0 <= l < NUM_LEVELS ==> Incoming(snapshot, l) == ToSet(files[l])
    ensures forall l :: 0 <= l < NUM_LEVELS ==> VersionAt({}, [snapshot], l) == ToSet(files[l])
    ensures forall l :: 0 <= l < NUM_LEVELS ==> Ever({}, [snapshot], l) == ToSet(files[l])
  {
    forall l | 0 <= l < NUM_LEVELS
      ensures VersionAt({}, [snapshot], l) == ToSet(files[l]) && Ever({}, [snapshot], l) == ToSet(files[l])
    {
      SnapshotStarts(snapshot, ToSet(files[l]), l);
    }
  }

  lemma NextVersions(current: seq<seq<Table>>, records: seq<Edit>, e: Edit, edit: Edit, files: seq<seq<Table>>)
    requires |current| == NUM_LEVELS && |files| == NUM_LEVELS && edit.deleted == e.deleted && edit.added == e.added
    requires forall l :: 0 <= l < NUM_LEVELS ==> ToSet(current[l]) == VersionAt({}, records, l)
    requires forall l :: 0 <= l < NUM_LEVELS ==>
               ToSet(current[l]) !! Incoming(e, l) && Distinct(Ever({}, records, l) + Incoming(e, l))
    requires forall l :: 0 <= l < NUM_LEVELS ==> ToSet(files[l]) == Saved(ToSet(current[l]), ApplyAt(EMPTY, edit, l))
    requires forall l :: 0 <= l < NUM_LEVELS && Untied(ToSet(current[l]), Incoming(edit, l)) ==> BySmallest(files[l])
    ensures forall l :: 0 <= l < NUM_LEVELS ==> BySmallest(files[l])
    ensures forall l :: 0 <= l < NUM_LEVELS ==> ToSet(files[l]) == VersionAt({}, records + [edit], l)
    ensures forall l :: 0 <= l < NUM_LEVELS ==> ToSet(files[l]) == Saved(ToSet(current[l]), ApplyAt(EMPTY, e, l))
    ensures forall l :: 0 <= l < NUM_LEVELS ==> Ever({}, records + [edit], l) == Ever({}, records, l) + Incoming(e, l)
  {
    hide Distinct, BySmallest, Untied, Saved, ApplyAt, AddAll, VersionAt, Ever;
    forall l | 0 <= l < NUM_LEVELS
      ensures BySmallest(files[l]) && Ever({}, records + [edit], l) == Ever({}, records, l) + Incoming(e, l)
      ensures ToSet(files[l]) == VersionAt({}, records + [edit], l)
      ensures ToSet(files[l]) == Saved(ToSet(current[l]), ApplyAt(EMPTY, e, l))
    {
      SameChanges(e, edit, l);
      EverCovers(records, l);
      DisjointIsUntied(ToSet(current[l]), Incoming(e, l), Ever({}, records, l));
      RecordedOnce(records, edit, l);
    }
  }

  class VersionSet {
    var current: seq<seq<Table>>
    var manifest: seq<Edit>
    var logNumber: nat
    var prevLogNumber: nat
    var nextFileNumber: nat
    var lastSequence: nat

    /** Every file that has stood at the level since the manifest was started. */
    ghost function EverAt(level: nat): set<Table>
      requires level < |current|
      reads `manifest, `current
    {
      if manifest == [] then ToSet(current[level]) else Ever({}, manifest, level)
    }

    ghost predicate Valid()
      reads this
    {
      && |current| == NUM_LEVELS && ValidEdits(manifest)
      && (forall l :: 0 <= l < NUM_LEVELS ==> BySmallest(current[l]))
      && (forall l :: 0 <= l < NUM_LEVELS ==> Distinct(EverAt(l)))
      && (manifest != [] ==>
            && (forall l :: 0 <= l < NUM_LEVELS ==> ToSet(current[l]) == VersionAt({}, manifest, l))
            && var seen := Seen(manifest);
               && AllRecorded(seen) && seen.logNumber == Some(logNumber) && seen.prevLogNumber == Some(prevLogNumber)
               && seen.nextFileNumber.value <= nextFileNumber && seen.lastSequence.value <= lastSequence)
    }

    /** A version set that has just recovered `files`, and has not opened a manifest of its own yet. */
    constructor (files: seq<seq<Table>>, logNumber: nat, prevLogNumber: nat, nextFileNumber: nat, lastSequence: nat)
      requires |files| == NUM_LEVELS
      requires forall l :: 0 <= l < NUM_LEVELS ==> BySmallest(files[l]) && Distinct(ToSet(files[l]))
      ensures Valid() && current == files && manifest == []
      ensures this.logNumber == logNumber && this.prevLogNumber == prevLogNumber
      ensures this.nextFileNumber == nextFileNumber && this.lastSequence == lastSequence
    {
      current, manifest := files, [];
      this.logNumber, this.prevLogNumber := logNumber, prevLogNumber;
      this.nextFileNumber, this.lastSequence := nextFileNumber, lastSequence;
    }

    method NewFileNumber() returns (number: nat)
      requires Valid()
      modifies this`nextFileNumber
      ensures Valid() && number == old(nextFileNumber) && nextFileNumber == number + 1
    {
      number := nextFileNumber;
      nextFileNumber := nextFileNumber + 1;
    }

    /** Take back a number drawn since the last record, unless a newer one has been drawn. */
    method ReuseFileNumber(number: nat)
      requires Valid() && number < nextFileNumber
      requires manifest != [] ==> Seen(manifest).nextFileNumber.value <= number
      modifies this`nextFileNumber
      ensures Valid() && nextFileNumber == if old(nextFileNumber) == number + 1 then number else old(nextFileNumber)
    {
      if nextFileNumber == number + 1 {
        nextFileNumber := number;
      }
    }

    method SetLastSequence(s: nat)
      requires Valid() && lastSequence <= s
      modifies this`lastSequence
      ensures Valid() && lastSequence == s
    {
      lastSequence := s;
    }

    /** The edit as it is recorded: every counter filled in. */
    function Stamped(e: Edit): Edit
      reads this
    {
      e.(logNumber := if e.logNumber.Some? then e.logNumber else Some(logNumber),
         prevLogNumber := if e.prevLogNumber.Some? then e.prevLogNumber else Some(prevLogNumber),
         nextFileNumber := Some(nextFileNumber),
         lastSequence := Some(lastSequence))
    }

    /** The edit adds no file that is there already, and gives no file a number another file has had at that level. */
    ghost predicate FreshNumbers(e: Edit)
      requires |current| == NUM_LEVELS
      reads this
    {
      forall l :: 0 <= l < NUM_LEVELS ==>
        ToSet(current[l]) !! Incoming(e, l) && Distinct(EverAt(l) + Incoming(e, l))
    }

    /** The last record covers the version: a recovery will number files past all of its files, and reads at the
        recovered sequence number will see all of its entries. */
    ghost predicate Noted()
      reads `manifest, `current
    {
      var seen := Seen(manifest);
      && AllRecorded(seen)
      && forall l, f :: 0 <= l < |current| && f in current[l] ==>
           && f.number < seen.nextFileNumber.value
           && forall x :: x in f.entries ==> x.key.sequence <= seen.lastSequence.value
    }

    /** Right after a record has been logged. */
    lemma NotedNow()
      requires Seen(manifest) == Counters(Some(logNumber), Some(prevLogNumber), Some(nextFileNumber),
                                          Some(lastSequence))
      requires forall l, f :: 0 <= l < |current| && f in current[l] ==>
                 f.number < nextFileNumber && forall x :: x in f.entries ==> x.key.sequence <= lastSequence
      ensures Noted()
    {
      hide Seen;
    }

    method LogAndApply(e: Edit)
      requires Valid() && ValidEdit(e) && FreshNumbers(e)
      requires e.logNumber.Some? ==> logNumber <= e.logNumber.value < nextFileNumber
      modifies this
      ensures Valid() && manifest != [] && manifest[|manifest| - 1] == old(Stamped(e))
      ensures old(manifest) != [] ==> manifest[..|manifest| - 1] == old(manifest)
      ensures manifest[|manifest| - 1].deleted == e.deleted && manifest[|manifest| - 1].added == e.added
      ensures Seen(manifest) == Counters(Some(logNumber), Some(prevLogNumber), Some(nextFileNumber), Some(lastSequence))
      ensures forall l :: 0 <= l < NUM_LEVELS ==>
                ToSet(current[l]) == Saved(old(ToSet(current[l])), ApplyAt(EMPTY, e, l))
      ensures forall l :: 0 <= l < NUM_LEVELS ==> EverAt(l) == old(EverAt(l)) + Incoming(e, l)
      ensures logNumber == if e.logNumber.Some? then e.logNumber.value else old(logNumber)
      ensures prevLogNumber == if e.prevLogNumber.Some? then e.prevLogNumber.value else old(prevLogNumber)
      ensures nextFileNumber == old(nextFileNumber) && lastSequence == old(lastSequence)
    {
      hide Distinct, BySmallest, Untied, Saved, ApplyAt, AddAll, VersionAt, Ever, Seen;
      var edit := Stamped(e);
      var files := BuildVersion(current, edit);
      var records := manifest;
      if manifest == [] {
        var snapshot := WriteSnapshot(current);
        records := [snapshot];
        StartAll(snapshot, current);
      }
      NextVersions(current, records, e, edit, files);
      SeenNext(records, edit);
      manifest := records + [edit];
      current := files;
      logNumber := edit.logNumber.value;
      prevLogNumber := edit.prevLogNumber.value;
    }

    lemma CurrentCovered()
      requires Valid()
      ensures forall l :: 0 <= l < NUM_LEVELS ==> ToSet(current[l]) <= EverAt(l)
    {
      forall l | 0 <= l < NUM_LEVELS ensures ToSet(current[l]) <= EverAt(l) {
        EverCovers(manifest, l);
      }
    }

    /** Recovering the manifest gives back the current version, list for list. */
    method Reopen() returns (r: Recovered)
      requires Valid() && manifest != []
      ensures r.Recovered? && r.files == current
      ensures r.logNumber == logNumber && r.prevLogNumber == prevLogNumber
      ensures r.lastSequence <= lastSequence && r.nextFileNumber <= nextFileNumber + 1
      ensures Some(r.nextFileNumber - 1) == Seen(manifest).nextFileNumber
      ensures Some(r.lastSequence) == Seen(manifest).lastSequence
      ensures Noted() ==> forall l, f :: 0 <= l < |current| && f in current[l] ==>
                f.number < r.nextFileNumber && forall x :: x in f.entries ==> x.key.sequence <= r.lastSequence
    {
      r := Recover(manifest);
      forall l | 0 <= l < NUM_LEVELS ensures r.files[l] == current[l] {
        assert Distinct(EverAt(l));
        DistinctReplays({}, manifest, l);
        SameFilesSameList(r.files[l], current[l]);
      }
    }
  }
}
