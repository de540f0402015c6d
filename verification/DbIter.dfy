/**
 The database iterator: a bidirectional cursor over the user keys visible at a snapshot, made from
 an internal iterator over all entries.
*/
module DbIter {
  import opened Format
  import opened Reads

  /** Entry `i` is what a read of its user key finds: the newest one visible, and a value. */
  ghost predicate Yields(run: seq<Entry>, q: nat, i: nat) {
    && i < |run| && run[i].key.sequence <= q && run[i].key.kind == Value
    && forall j :: 0 <= j < i && run[j].key.user == run[i].key.user ==> run[j].key.sequence > q
  }

  /** The user keys and values that the first `n` entries yield, in order. */
  ghost function ViewOf(run: seq<Entry>, q: nat, n: nat): seq<(UserKey, Bytes)>
    requires n <= |run|
  {
    if n == 0 then []
    else if Yields(run, q, n - 1) then ViewOf(run, q, n - 1) + [(run[n - 1].key.user, run[n - 1].value)]
    else ViewOf(run, q, n - 1)
  }

  /** The position in the whole view of what entry `i` yields. */
  ghost function Rank(run: seq<Entry>, q: nat, i: nat): nat
    requires i <= |run|
  {
    |ViewOf(run, q, i)|
  }

  lemma {:induction false} ViewGrows(run: seq<Entry>, q: nat, i: nat, n: nat)
    requires i <= n <= |run|
    ensures ViewOf(run, q, i) <= ViewOf(run, q, n)
    ensures (forall j :: i <= j < n ==> !Yields(run, q, j)) ==> ViewOf(run, q, i) == ViewOf(run, q, n)
  {
    if i < n {
      ViewGrows(run, q, i, n - 1);
    }
  }

  lemma RankOf(run: seq<Entry>, q: nat, i: nat)
    requires Yields(run, q, i)
    ensures Rank(run, q, i) < |ViewOf(run, q, |run|)|
    ensures ViewOf(run, q, |run|)[Rank(run, q, i)] == (run[i].key.user, run[i].value)
  {
    ViewGrows(run, q, i + 1, |run|);
  }

  /** Where a position of the view comes from. */
  lemma {:induction false} ViewSource(run: seq<Entry>, q: nat, n: nat, c: nat) returns (i: nat)
    requires n <= |run| && c < |ViewOf(run, q, n)|
    ensures i < n && Yields(run, q, i) && Rank(run, q, i) == c
  {
    if Yields(run, q, n - 1) && c == |ViewOf(run, q, n - 1)| {
      i := n - 1;
    } else {
      i := ViewSource(run, q, n - 1, c);
    }
  }

  lemma UsersAscend(run: seq<Entry>, i: nat, j: nat)
    requires Sorted(run) && i <= j < |run|
    ensures run[i].key.user <= run[j].key.user
  {
    assert i == j || Before(run[i].key, run[j].key);
  }

  /** Two entries that both yield have different user keys, in the order of the run. */
  lemma YieldsApart(run: seq<Entry>, q: nat, i: nat, j: nat)
    requires Sorted(run) && Yields(run, q, i) && Yields(run, q, j) && i < j
    ensures run[i].key.user < run[j].key.user
  {
    UsersAscend(run, i, j);
  }

  /** Yielding is being what a read returns. */
  lemma YieldsIsRead(run: seq<Entry>, q: nat, i: nat)
    requires Sorted(run) && Unique(ToSet(run)) && Yields(run, q, i)
    ensures Read(ToSet(run), run[i].key.user, q) == Some(run[i].value)
  {
    var e := run[i];
    forall x | Visible(ToSet(run), e.key.user, q, x) ensures x.key.sequence <= e.key.sequence {
      var j :| 0 <= j < |run| && run[j] == x;
      assert i == j || Before(run[i].key, run[j].key);
    }
    assert e in ToSet(run);
    ReadNewest(ToSet(run), e.key.user, q, e);
  }

  lemma ReadIsYielded(run: seq<Entry>, q: nat, user: UserKey) returns (i: nat)
    requires Sorted(run) && Unique(ToSet(run)) && Read(ToSet(run), user, q).Some?
    ensures Yields(run, q, i) && run[i].key.user == user
  {
    var e := NewestEntry(ToSet(run), user, q);
    i :| 0 <= i < |run| && run[i] == e;
    forall j | 0 <= j < i && run[j].key.user == user ensures run[j].key.sequence > q {
      assert run[j] in ToSet(run) && Before(run[j].key, run[i].key);
      assert !Visible(ToSet(run), user, q, run[j]);
    }
  }

  /** The view is the sorted map of reads at the snapshot. */
  lemma ViewIsSnapshot(run: seq<Entry>, q: nat)
    requires Sorted(run) && Unique(ToSet(run))
    ensures var view := ViewOf(run, q, |run|);
            && (forall c, d :: 0 <= c < d < |view| ==> view[c].0 < view[d].0)
            && (forall user, value :: (user, value) in view <==> Read(ToSet(run), user, q) == Some(value))
  {
    var view := ViewOf(run, q, |run|);
    forall c, d | 0 <= c < d < |view| ensures view[c].0 < view[d].0 {
      var i := ViewSource(run, q, |run|, c);
      var j := ViewSource(run, q, |run|, d);
      RankOf(run, q, i);
      RankOf(run, q, j);
      if j <= i {
        ViewGrows(run, q, j, i);
      }
      YieldsApart(run, q, i, j);
    }
    forall user, value ensures (user, value) in view <==> Read(ToSet(run), user, q) == Some(value) {
      if (user, value) in view {
        var c :| 0 <= c < |view| && view[c] == (user, value);
        var i := ViewSource(run, q, |run|, c);
        RankOf(run, q, i);
        YieldsIsRead(run, q, i);
      }
      if Read(ToSet(run), user, q) == Some(value) {
        var i := ReadIsYielded(run, q, user);
        RankOf(run, q, i);
        YieldsIsRead(run, q, i);
      }
    }
  }

  /** Entry `i` is the first from `from` on that yields; without one, none from there on does. */
  ghost predicate NextYield(run: seq<Entry>, q: nat, from: nat, i: Option<nat>) {
    match i
    case Some(i) => from <= i && Yields(run, q, i) && forall j :: from <= j < i ==> !Yields(run, q, j)
    case None => forall j :: from <= j < |run| ==> !Yields(run, q, j)
  }

  /** Entry `i` is the last before `to` that yields; without one, none before does. */
  ghost predicate PrevYield(run: seq<Entry>, q: nat, to: nat, i: Option<nat>) {
    match i
    case Some(i) => i < to && Yields(run, q, i) && forall j :: i < j < to ==> !Yields(run, q, j)
    case None => forall j :: 0 <= j < to ==> !Yields(run, q, j)
  }

  /** All visible entries before `n` have smaller user keys. */
  ghost predicate SeenBelow(run: seq<Entry>, q: nat, n: nat, user: UserKey) {
    forall j :: 0 <= j < n && j < |run| && run[j].key.sequence <= q ==> run[j].key.user < user
  }

  /** No visible entry from `n` on has a smaller user key. */
  ghost predicate SeenFrom(run: seq<Entry>, q: nat, n: nat, user: UserKey) {
    forall j :: n <= j < |run| && run[j].key.sequence <= q ==> run[j].key.user >= user
  }

  class DBIter {
    const run: seq<Entry>
    const sequence: SequenceNumber
    /** The internal iterator; None when it is not valid. */
    var pos: Option<nat>
    var savedKey: Option<UserKey>
    var savedValue: Bytes
    var forward: bool
    var valid: bool

    constructor (run: seq<Entry>, sequence: SequenceNumber)
      requires Sorted(run)
      ensures this.run == run && this.sequence == sequence && Ok() && !valid
    {
      this.run, this.sequence := run, sequence;
      pos, savedKey, savedValue, forward, valid := None, None, [], true, false;
    }

    /** Past the internal iterator's entry, in the order of the run. */
    ghost function After(): nat
      reads `pos
    {
      if pos.Some? then pos.value + 1 else 0
    }

    /** The internal iterator is on entry `i` itself when moving forward; moving backward it is just before all
        entries of that user key, with only entries too new to be seen in between. */
    ghost predicate On(i: nat)
      reads this
    {
      && Yields(run, sequence, i)
      && if forward then pos == Some(i)
         else
           && savedKey == Some(run[i].key.user) && savedValue == run[i].value && After() <= i
           && SeenBelow(run, sequence, After(), run[i].key.user) && SeenFrom(run, sequence, After(), run[i].key.user)
    }

    ghost predicate Ok()
      reads this
    {
      && Sorted(run) && (pos.Some? ==> pos.value < |run|)
      && (valid ==> exists i :: On(i))
    }

    ghost function Current(): (i: nat)
      requires Ok() && valid
      reads this
      ensures On(i)
    {
      var i :| On(i);
      i
    }

    ghost function View(): seq<(UserKey, Bytes)>
    {
      ViewOf(run, sequence, |run|)
    }

    /** The position in the snapshot's sorted map, or None. */
    ghost function Cursor(): Option<nat>
      requires Ok()
      reads this
    {
      if valid then Some(Rank(run, sequence, Current())) else None
    }

    function Key(): UserKey
      requires Ok() && valid
      reads this
      ensures Cursor().Some? && Cursor().value < |View()| && Key() == View()[Cursor().value].0
    {
      RankOf(run, sequence, Current());
      if forward then run[pos.value].key.user else savedKey.value
    }

    function Value(): Bytes
      requires Ok() && valid
      reads this
      ensures Cursor().Some? && Cursor().value < |View()| && Value() == View()[Cursor().value].1
    {
      RankOf(run, sequence, Current());
      if forward then run[pos.value].value else savedValue
    }

    lemma OnlyOne(i: nat)
      requires Ok() && valid && On(i)
      ensures Current() == i
    {
      var k := Current();
    }

    // ----- the internal iterator -----

    method IterNext()
      requires pos.Some? && pos.value < |run|
      modifies `pos
      ensures pos == if old(pos.value) + 1 < |run| then Some(old(pos.value) + 1) else None
    {
      pos := if pos.value + 1 < |run| then Some(pos.value + 1) else None;
    }

    method IterPrev()
      requires pos.Some? && pos.value < |run|
      modifies `pos
      ensures pos == if old(pos.value) > 0 then Some(old(pos.value) - 1) else None
    {
      pos := if pos.value > 0 then Some(pos.value - 1) else None;
    }

    method IterSeek(target: InternalKey)
      requires Sorted(run)
      modifies `pos
      ensures pos.Some? ==> pos.value < |run| && !Before(run[pos.value].key, target)
      ensures forall j :: 0 <= j < (if pos.Some? then pos.value else |run|) ==> Before(run[j].key, target)
    {
      var i := 0;
      while i < |run| && Before(run[i].key, target)
        invariant 0 <= i <= |run|
        invariant forall j :: 0 <= j < i ==> Before(run[j].key, target)
      {
        i := i + 1;
      }
      pos := if i < |run| then Some(i) else None;
    }

    // ----- the loops -----

    /** Every visible entry before `n` is hidden by the skipped key, or has a user key before that of entry `n`. */
    ghost predicate Passed(n: nat, skipping: bool, skip: UserKey) {
      && (forall j :: 0 <= j < n && j < |run| && run[j].key.sequence <= sequence ==>
            (skipping && run[j].key.user <= skip) || (n < |run| ==> run[j].key.user < run[n].key.user))
      && (skipping ==> SeenFrom(run, sequence, n, skip))
    }

    /** What the forward loop does with entry `n`: nothing, hide its key, or find it hidden. */
    lemma PassedOne(n: nat, skipping: bool, skip: UserKey, skipping': bool, skip': UserKey)
      requires Sorted(run) && n < |run| && Passed(n, skipping, skip)
      requires if run[n].key.sequence > sequence then skipping' == skipping && skip' == skip
               else if run[n].key.kind == Deletion then skipping' && skip' == run[n].key.user
               else skipping' && skipping && run[n].key.user <= skip && skip' == skip
      ensures Passed(n + 1, skipping', skip')
      ensures skipping ==> skipping' && skip' >= skip
    {
      forall j | n < j < |run| ensures run[n].key.user <= run[j].key.user {
        UsersAscend(run, n, j);
      }
    }

    /** The skipped key is the one given at the start, or that of a deletion seen since. */
    ghost predicate SkipSource(n: nat, skipping: bool, skip: UserKey, skipping0: bool, skip0: UserKey) {
      skipping ==>
        || (skipping0 && skip == skip0)
        || exists d :: 0 <= d < n && d < |run| && run[d].key.user == skip && run[d].key.sequence <= sequence
    }

    lemma SkipSourceNext(n: nat, skipping: bool, skip: UserKey, skipping': bool, skip': UserKey, skipping0: bool,
                         skip0: UserKey)
      requires n < |run| && SkipSource(n, skipping, skip, skipping0, skip0)
      requires || (skipping' == skipping && skip' == skip)
               || (run[n].key.user == skip' && run[n].key.sequence <= sequence)
      ensures SkipSource(n + 1, skipping', skip', skipping0, skip0)
    {
      if run[n].key.user == skip' && run[n].key.sequence <= sequence {
      } else if skipping && !(skipping0 && skip == skip0) {
        var d :| 0 <= d < n && d < |run| && run[d].key.user == skip && run[d].key.sequence <= sequence;
        assert 0 <= d < n + 1 && run[d].key.user == skip';
      }
    }

    lemma FoundYields(n: nat, skipping: bool, skip: UserKey)
      requires n < |run| && Passed(n, skipping, skip) && run[n].key.sequence <= sequence
      requires run[n].key.kind == ValueType.Value
      requires skipping ==> run[n].key.user > skip
      ensures Yields(run, sequence, n)
    {
    }

    lemma HiddenNotYielding(n: nat, skip: UserKey, skipping0: bool, skip0: UserKey, from: nat)
      requires n < |run| && Passed(n, true, skip) && SkipSource(n, true, skip, skipping0, skip0)
      requires run[n].key.user <= skip && from <= n
      requires (skipping0 ==> forall j :: from <= j < |run| && run[j].key.user <= skip0 ==> !Yields(run, sequence, j))
      ensures !Yields(run, sequence, n)
    {
    }

    /** The key to skip is that of the entries from `n` up to `from`, and hides none after those. */
    ghost predicate Hides(n: nat, from: nat, skip: UserKey) {
      && (forall j :: n <= j < from && j < |run| ==> run[j].key.user <= skip)
      && (forall j :: from <= j < |run| && run[j].key.user <= skip ==> !Yields(run, sequence, j))
    }

    /** The forward loop, started with a key to skip or without, has come to entry `n` and found none that yields. */
    ghost predicate Scanning(n: nat, from: nat, skipping0: bool, skip0: UserKey, skipping: bool, skip: UserKey) {
      && Passed(n, skipping, skip) && SkipSource(n, skipping, skip, skipping0, skip0)
      && (skipping0 ==> skipping && skip >= skip0)
      && (forall j :: from <= j < n && j < |run| ==> !Yields(run, sequence, j))
    }

    /** Entry `n` is too new to see, or a deletion, or hidden: the loop goes on behind it. */
    lemma ScanOn(n: nat, from: nat, skipping0: bool, skip0: UserKey, skipping: bool, skip: UserKey,
                 skipping': bool, skip': UserKey)
      requires Sorted(run) && n < |run| && Scanning(n, from, skipping0, skip0, skipping, skip)
      requires skipping0 ==> forall j :: from <= j < |run| && run[j].key.user <= skip0 ==> !Yields(run, sequence, j)
      requires if run[n].key.sequence > sequence then skipping' == skipping && skip' == skip
               else if run[n].key.kind == Deletion then skipping' && skip' == run[n].key.user
               else skipping' && skipping && run[n].key.user <= skip && skip' == skip
      ensures Scanning(n + 1, from, skipping0, skip0, skipping', skip')
    {
      hide Passed, SkipSource, Hides, Sorted;
      PassedOne(n, skipping, skip, skipping', skip');
      SkipSourceNext(n, skipping, skip, skipping', skip', skipping0, skip0);
      if from <= n && run[n].key.sequence <= sequence && run[n].key.kind == ValueType.Value {
        HiddenNotYielding(n, skip, skipping0, skip0, from);
      }
    }

    /** Entry `n` is a value that is not hidden. */
    lemma ScanEnds(n: nat, from: nat, skipping0: bool, skip0: UserKey, skipping: bool, skip: UserKey)
      requires n < |run| && Scanning(n, from, skipping0, skip0, skipping, skip)
      requires skipping0 ==> from > n ==> run[n].key.user <= skip0
      requires !skipping0 ==> from <= n
      requires run[n].key.sequence <= sequence && run[n].key.kind == ValueType.Value
      requires skipping ==> run[n].key.user > skip
      ensures NextYield(run, sequence, from, Some(n))
    {
      hide Passed, SkipSource;
      FoundYields(n, skipping, skip);
    }

    /** Scan forward to the next entry that yields, from `from` on. */
    method FindNextUserEntry(skipping0: bool, skip0: UserKey, ghost from: nat)
      requires Sorted(run) && pos.Some? && pos.value < |run| && forward
      requires Passed(pos.value, skipping0, skip0)
      requires if skipping0 then pos.value <= from && Hides(pos.value, from, skip0) else from == pos.value
      modifies this
      ensures forward && (valid ==> pos.Some?) && NextYield(run, sequence, from, if valid then pos else None)
      ensures pos.Some? ==> pos.value < |run|
    {
      var skipping, skip := skipping0, skip0;
      var n := pos.value;
      ghost var n0 := n;
      while true
        invariant pos == Some(n) && n0 <= n < |run| && forward
        invariant Scanning(n, from, skipping0, skip0, skipping, skip)
        decreases |run| - n
      {
        hide Scanning, Sorted, NextYield, Passed, Yields;
        ghost var skipping1, skip1 := skipping, skip;
        var e := run[n];
        if e.key.sequence <= sequence {
          match e.key.kind
          case Deletion =>
            skip := e.key.user;
            skipping := true;
          case Value =>
            if skipping && e.key.user <= skip {
            } else {
              ScanEnds(n, from, skipping0, skip0, skipping, skip);
              valid := true;
              savedKey := None;
              return;
            }
        }
        ScanOn(n, from, skipping0, skip0, skipping1, skip1, skipping, skip);
        IterNext();
        n := n + 1;
        if pos.None? {
          break;
        }
      }
      savedKey := None;
      valid := false;
    }

    /** What the backward loop knows: entries from `n` up to `to` are scanned; the lowest visible one of them, if it
        is a value, is saved. */
    ghost predicate Scanned(n: nat, to: nat, kind: ValueType, i: nat) {
      && n <= to <= |run|
      && (forall j :: n <= j < to && (kind == Deletion || j != i) ==> !Yields(run, sequence, j))
      && (kind == ValueType.Value ==>
            && n <= i < to && run[i].key.sequence <= sequence && run[i].key.kind == ValueType.Value
            && forall j :: n <= j < i ==> run[j].key.sequence > sequence)
    }

    lemma ScannedOne(n: nat, to: nat, kind: ValueType, i: nat, kind': ValueType, i': nat)
      requires Sorted(run) && 0 < n && Scanned(n, to, kind, i)
      requires if run[n - 1].key.sequence > sequence then kind' == kind && i' == i
               else kind' == run[n - 1].key.kind && i' == n - 1
                    && (kind == ValueType.Value ==> run[n - 1].key.user >= run[i].key.user)
      ensures Scanned(n - 1, to, kind', i')
    {
      if run[n - 1].key.sequence <= sequence && kind == ValueType.Value {
        UsersAscend(run, n - 1, i);
        assert !Yields(run, sequence, i);
      }
    }

    /** The backward loop has reached an entry of an earlier key, or the start: the saved entry yields. */
    lemma ScanDone(n: nat, to: nat, i: nat)
      requires Sorted(run) && Scanned(n, to, ValueType.Value, i)
      requires n > 0 ==> run[n - 1].key.sequence <= sequence && run[n - 1].key.user < run[i].key.user
      ensures Yields(run, sequence, i) && forall j :: n <= j < to && j != i ==> !Yields(run, sequence, j)
      ensures SeenBelow(run, sequence, n, run[i].key.user) && SeenFrom(run, sequence, n, run[i].key.user)
    {
      forall j | 0 <= j < n ensures run[j].key.user < run[i].key.user {
        UsersAscend(run, j, n - 1);
      }
      forall j | i <= j < |run| ensures run[j].key.user >= run[i].key.user {
        UsersAscend(run, i, j);
      }
    }

    /** Scan backward to the last entry that yields before the internal iterator's, or at it. */
    method FindPrevUserEntry() returns (ghost i: nat)
      requires Sorted(run) && !forward && (pos.Some? ==> pos.value < |run|)
      modifies this
      ensures valid ==> !forward && On(i)
      ensures PrevYield(run, sequence, old(After()), if valid then Some(i) else None)
      ensures pos.Some? ==> pos.value < |run|
    {
      var kind := Deletion;
      i := 0;
      ghost var to := After();
      if pos.Some? {
        while true
          invariant !forward && pos.Some? && pos.value < |run|
          invariant Scanned(After(), to, kind, i)
          invariant kind == ValueType.Value ==> savedKey == Some(run[i].key.user) && savedValue == run[i].value
          decreases After()
        {
          ghost var n, kind1, i1 := After(), kind, i;
          var e := run[pos.value];
          if e.key.sequence <= sequence {
            if kind != Deletion && e.key.user < savedKey.value {
              break;
            }
            kind := e.key.kind;
            i := pos.value;
            if kind == Deletion {
              savedKey, savedValue := None, [];
            } else {
              savedKey, savedValue := Some(e.key.user), e.value;
            }
          }
          ScannedOne(n, to, kind1, i1, kind, i);
          IterPrev();
          if pos.None? {
            break;
          }
        }
      }
      if kind == Deletion {
        valid := false;
        savedKey, savedValue := None, [];
        forward := true;
      } else {
        valid := true;
        ScanDone(After(), to, i);
      }
    }

    // ----- the operations -----

    /** The cursor is on position `c`, or off the map if there is no such position. */
    ghost predicate CursorIs(c: nat)
      reads this
    {
      Ok() && Cursor() == if c < |View()| then Some(c) else None
    }

    lemma LandsForward(from: nat)
      requires Sorted(run) && from <= |run| && (pos.Some? ==> pos.value < |run|)
      requires forward && (valid ==> pos.Some?) && NextYield(run, sequence, from, if valid then pos else None)
      ensures CursorIs(Rank(run, sequence, from))
    {
      if valid {
        assert On(pos.value);
        OnlyOne(pos.value);
        ViewGrows(run, sequence, from, pos.value);
        RankOf(run, sequence, pos.value);
      } else {
        ViewGrows(run, sequence, from, |run|);
      }
    }

    lemma LandsBackward(to: nat, i: nat)
      requires Sorted(run) && to <= |run| && (pos.Some? ==> pos.value < |run|)
      requires (valid ==> On(i)) && PrevYield(run, sequence, to, if valid then Some(i) else None)
      ensures Ok() && Cursor() == if Rank(run, sequence, to) > 0 then Some(Rank(run, sequence, to) - 1) else None
    {
      if valid {
        OnlyOne(i);
        ViewGrows(run, sequence, i + 1, to);
      } else {
        ViewGrows(run, sequence, 0, to);
      }
    }

    /** Ranks follow the order of the run. */
    lemma RankOrder(i: nat, p: nat)
      requires Yields(run, sequence, i) && p <= |run|
      ensures i < p <==> Rank(run, sequence, i) < Rank(run, sequence, p)
    {
      if i < p {
        ViewGrows(run, sequence, i + 1, p);
      } else {
        ViewGrows(run, sequence, p, i);
      }
    }

    lemma SeekRank(target: UserKey, p: nat)
      requires Sorted(run) && p <= |run|
      requires forall j :: 0 <= j < |run| ==> (j < p <==> Before(run[j].key, LookupKey(target, sequence)))
      ensures forall c :: 0 <= c < |View()| ==> (View()[c].0 >= target <==> Rank(run, sequence, p) <= c)
    {
      forall c | 0 <= c < |View()| ensures View()[c].0 >= target <==> Rank(run, sequence, p) <= c {
        var i := ViewSource(run, sequence, |run|, c);
        RankOf(run, sequence, i);
        RankOrder(i, p);
        LookupKeySkips(target, sequence, run[i].key);
      }
    }

    lemma SoughtPassed(target: UserKey, p: nat)
      requires Sorted(run) && p < |run|
      requires forall j :: 0 <= j < |run| ==> (j < p <==> Before(run[j].key, LookupKey(target, sequence)))
      ensures Passed(p, false, 0.0)
    {
      forall j | 0 <= j < p && run[j].key.sequence <= sequence ensures run[j].key.user < run[p].key.user {
        LookupKeySkips(target, sequence, run[j].key);
        LookupKeySkips(target, sequence, run[p].key);
      }
    }

    /** Seek: on the first key not before the target. */
    method Seek(target: UserKey)
      requires Ok()
      modifies this
      ensures Ok()
      ensures forall c :: 0 <= c < |View()| ==> (View()[c].0 >= target <==> Cursor().Some? && Cursor().value <= c)
    {
      hide Passed, Yields;
      forward := true;
      savedValue, savedKey := [], None;
      IterSeek(LookupKey(target, sequence));
      ghost var p := if pos.Some? then pos.value else |run|;
      if pos.Some? {
        SoughtPassed(target, p);
        FindNextUserEntry(false, 0.0, p);
      } else {
        valid := false;
      }
      SeekRank(target, p);
      LandsForward(p);
    }

    method SeekToFirst()
      requires Ok()
      modifies this
      ensures CursorIs(0)
    {
      hide Yields;
      forward := true;
      savedValue := [];
      pos := if |run| > 0 then Some(0) else None;
      if pos.Some? {
        FindNextUserEntry(false, 0.0, 0);
      } else {
        valid := false;
      }
      LandsForward(0);
    }

    method SeekToLast()
      requires Ok()
      modifies this
      ensures Ok() && Cursor() == if |View()| > 0 then Some(|View()| - 1) else None
    {
      hide Yields;
      forward := false;
      savedValue := [];
      pos := if |run| > 0 then Some(|run| - 1) else None;
      ghost var i := FindPrevUserEntry();
      LandsBackward(|run|, i);
    }

    /** Before the forward scan that leaves entry `cur` behind, from entry `n` of its key or just before them. */
    lemma LeavesKey(n: nat, cur: nat)
      requires Sorted(run) && Yields(run, sequence, cur) && n <= cur
      requires SeenBelow(run, sequence, n, run[cur].key.user) && SeenFrom(run, sequence, n, run[cur].key.user)
      ensures Passed(n, true, run[cur].key.user) && Hides(n, cur + 1, run[cur].key.user)
    {
      forall j | n <= j <= cur ensures run[j].key.user <= run[cur].key.user {
        UsersAscend(run, j, cur);
      }
      forall j | cur < j < |run| ensures run[cur].key.user <= run[j].key.user {
        UsersAscend(run, cur, j);
      }
    }

    lemma OwnKey(cur: nat)
      requires Sorted(run) && Yields(run, sequence, cur)
      ensures SeenBelow(run, sequence, cur, run[cur].key.user) && SeenFrom(run, sequence, cur, run[cur].key.user)
    {
      forall j | 0 <= j < cur ensures run[j].key.user <= run[cur].key.user {
        UsersAscend(run, j, cur);
      }
      forall j | cur < j < |run| ensures run[cur].key.user <= run[j].key.user {
        UsersAscend(run, cur, j);
      }
    }

    /** From one position of the map to the next, whichever way the iterator was moving. */
    method Next()
      requires Ok() && valid
      modifies this
      ensures CursorIs(old(Cursor().value) + 1)
    {
      hide Yields, SeenBelow, SeenFrom, Passed, Hides;
      ghost var cur := Current();
      RankNext(cur);
      if !forward {
        forward := true;
        if pos.None? {
          pos := if |run| > 0 then Some(0) else None;
        } else {
          IterNext();
        }
        if pos.None? {
          // The entries of this key lie ahead: the end of the run cannot be reached here.
          assert false;
        }
      } else {
        OwnKey(cur);
        savedKey := Some(run[pos.value].key.user);
      }
      LeavesKey(pos.value, cur);
      FindNextUserEntry(true, savedKey.value, cur + 1);
      LandsForward(cur + 1);
    }

    lemma RankNext(cur: nat)
      requires Yields(run, sequence, cur)
      ensures cur < |run| && Rank(run, sequence, cur + 1) == Rank(run, sequence, cur) + 1
    {
    }

    /** The entries just before `cur`, from `n` on, are of its user key or too new to see: none of them yields. */
    lemma NoneBetween(n: nat, cur: nat)
      requires Sorted(run) && Yields(run, sequence, cur) && n <= cur
      requires SeenFrom(run, sequence, n, run[cur].key.user)
      ensures Rank(run, sequence, n) == Rank(run, sequence, cur)
    {
      forall j | n <= j < cur ensures !Yields(run, sequence, j) {
        UsersAscend(run, j, cur);
      }
      ViewGrows(run, sequence, n, cur);
    }

    /** From one position of the map to the one before, whichever way the iterator was moving. */
    method Prev()
      requires Ok() && valid
      modifies this
      ensures Ok() && Cursor() == if old(Cursor().value) > 0 then Some(old(Cursor().value) - 1) else None
    {
      hide Yields, SeenBelow;
      ghost var cur := Current();
      if forward {
        OwnKey(cur);
        savedKey := Some(run[pos.value].key.user);
        while true
          invariant pos.Some? && pos.value <= cur && savedKey == Some(run[cur].key.user) && valid && forward
          invariant SeenFrom(run, sequence, pos.value, run[cur].key.user)
          decreases pos.value
        {
          IterPrev();
          if pos.None? {
            NoneBetween(0, cur);
            valid := false;
            savedKey, savedValue := None, [];
            return;
          }
          if run[pos.value].key.user < savedKey.value {
            break;
          }
        }
        forward := false;
      }
      NoneBetween(After(), cur);
      ghost var to := After();
      ghost var i := FindPrevUserEntry();
      LandsBackward(to, i);
    }
  }
}
