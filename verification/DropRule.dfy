/**
 The drop rule of a compaction, on the sorted run of input entries the merging iterator yields,
 and what it does to reads.
*/
module DropRule {
  import opened Format
  import opened Reads

  /** Rule (A): the entry just before, for the same user key, is already visible at the smallest snapshot. */
  predicate HiddenAt(input: seq<Entry>, i: nat, smallest: SequenceNumber)
    requires i < |input|
  {
    i > 0 && input[i - 1].key.user == input[i].key.user && input[i - 1].key.sequence <= smallest
  }

  predicate DroppedAt(input: seq<Entry>, i: nat, smallest: SequenceNumber, base: UserKey -> bool)
    requires i < |input|
  {
    || HiddenAt(input, i, smallest)
    || (input[i].key.kind == Deletion && input[i].key.sequence <= smallest && base(input[i].key.user))
  }

  /** The entries among the first `n` that the compaction loop writes out. */
  function Kept(input: seq<Entry>, n: nat, smallest: SequenceNumber, base: UserKey -> bool): seq<Entry>
    requires n <= |input|
  {
    if n == 0 then []
    else if DroppedAt(input, n - 1, smallest, base) then Kept(input, n - 1, smallest, base)
    else Kept(input, n - 1, smallest, base) + [input[n - 1]]
  }

  /** The same rule without reference to the order of the run. */
  ghost predicate Obsolete(inputs: set<Entry>, x: Entry, smallest: SequenceNumber, base: UserKey -> bool) {
    || (exists y :: y in inputs && y.key.user == x.key.user && x.key.sequence < y.key.sequence <= smallest)
    || (x.key.kind == Deletion && x.key.sequence <= smallest && base(x.key.user))
  }

  ghost function Survivors(inputs: set<Entry>, smallest: SequenceNumber, base: UserKey -> bool): set<Entry> {
    set x | x in inputs && !Obsolete(inputs, x, smallest, base)
  }

  /** `d` is the newest input entry of its key at or below the smallest snapshot, and it is a dropped deletion. */
  ghost predicate DroppedMarker(inputs: set<Entry>, smallest: SequenceNumber, base: UserKey -> bool, d: Entry) {
    && Newest(inputs, d.key.user, smallest, d)
    && d.key.kind == Deletion
    && base(d.key.user)
  }

  /** Outside the inputs, the newest entry under the dropped marker `d` is the older value `v`. */
  ghost predicate Exposes(rest: set<Entry>, inputs: set<Entry>, smallest: SequenceNumber, base: UserKey -> bool,
                          d: Entry, v: Entry) {
    && DroppedMarker(inputs, smallest, base, d)
    && Newest(rest, d.key.user, smallest, v)
    && v.key.sequence < d.key.sequence
    && v.key.kind == Value
  }

  lemma {:induction false} KeptMembers(input: seq<Entry>, n: nat, smallest: SequenceNumber, base: UserKey -> bool,
                                       e: Entry)
    requires n <= |input|
    ensures e in Kept(input, n, smallest, base) <==>
            exists i :: 0 <= i < n && input[i] == e && !DroppedAt(input, i, smallest, base)
  {
    if n > 0 {
      KeptMembers(input, n - 1, smallest, base, e);
      if !DroppedAt(input, n - 1, smallest, base) && input[n - 1] == e {
        assert Kept(input, n, smallest, base)[|Kept(input, n, smallest, base)| - 1] == e;
      }
    }
  }

  lemma {:induction false} KeptSorted(input: seq<Entry>, n: nat, smallest: SequenceNumber, base: UserKey -> bool)
    requires n <= |input| && Sorted(input)
    ensures Sorted(Kept(input, n, smallest, base))
  {
    if n > 0 {
      KeptSorted(input, n - 1, smallest, base);
      var before := Kept(input, n - 1, smallest, base);
      forall j | 0 <= j < |before| ensures Before(before[j].key, input[n - 1].key) {
        KeptMembers(input, n - 1, smallest, base, before[j]);
      }
    }
  }

  lemma DroppedIsObsolete(input: seq<Entry>, i: nat, smallest: SequenceNumber, base: UserKey -> bool)
    requires i < |input| && Sorted(input) && Unique(ToSet(input))
    ensures DroppedAt(input, i, smallest, base) <==> Obsolete(ToSet(input), input[i], smallest, base)
  {
    var all := ToSet(input);
    var x := input[i];
    if HiddenAt(input, i, smallest) {
      assert input[i - 1] in all && Before(input[i - 1].key, x.key);
      assert input[i - 1] != x;
    } else if y :| y in all && y.key.user == x.key.user && x.key.sequence < y.key.sequence <= smallest {
      var j :| 0 <= j < |input| && input[j] == y;
      assert j < i;
      assert j == i - 1 || Before(y.key, input[i - 1].key);
      assert input[i - 1].key.user == x.key.user;
    }
  }

  /** The loop writes out exactly the surviving entries, still in order. */
  lemma KeptIsSurvivors(input: seq<Entry>, smallest: SequenceNumber, base: UserKey -> bool)
    requires Sorted(input) && Unique(ToSet(input))
    ensures Sorted(Kept(input, |input|, smallest, base))
    ensures ToSet(Kept(input, |input|, smallest, base)) == Survivors(ToSet(input), smallest, base)
  {
    KeptSorted(input, |input|, smallest, base);
    var kept := Kept(input, |input|, smallest, base);
    forall e ensures e in kept <==> e in Survivors(ToSet(input), smallest, base) {
      KeptMembers(input, |input|, smallest, base, e);
      if e in input {
        var i :| 0 <= i < |input| && input[i] == e;
        DroppedIsObsolete(input, i, smallest, base);
        forall j | 0 <= j < |input| && j != i ensures input[j] != e {
          assert if j < i then Before(input[j].key, input[i].key) else Before(input[i].key, input[j].key);
        }
      }
    }
  }

  /** What the loop writes out, key by key: everything above the number, and of the rest no more than the newest entry
      of a user key, which is dropped exactly if it is a deletion of a key that has nothing below. */
  lemma KeptKeyByKey(input: seq<Entry>, smallest: SequenceNumber, base: UserKey -> bool)
    requires Sorted(input) && Unique(ToSet(input))
    ensures var kept := Kept(input, |input|, smallest, base);
            && (forall x :: x in kept ==> x in input)
            && (forall x :: x in input && x.key.sequence > smallest ==> x in kept)
            && (forall x, y :: x in kept && y in kept && x.key.user == y.key.user ==>
                  x == y || x.key.sequence > smallest || y.key.sequence > smallest)
            && forall x: Entry :: Newest(ToSet(input), x.key.user, smallest, x) ==>
                 (x in kept <==> x.key.kind == Value || !base(x.key.user))
  {
    KeptIsSurvivors(input, smallest, base);
    hide Kept, Sorted;
    var kept := Kept(input, |input|, smallest, base);
    assert forall x :: x in kept <==> x in ToSet(kept);
  }

  /** At one key and one snapshot not below the smallest: unchanged, unless a marker exposes a value. */
  lemma DropKeepsReadAt(rest: set<Entry>, inputs: set<Entry>, smallest: SequenceNumber, base: UserKey -> bool,
                        user: UserKey, snapshot: nat)
    requires Unique(rest + inputs) && rest !! inputs && smallest <= snapshot
    requires !exists d, v :: Exposes(rest, inputs, smallest, base, d, v)
    ensures Read(rest + Survivors(inputs, smallest, base), user, snapshot) == Read(rest + inputs, user, snapshot)
  {
    var before, after := rest + inputs, rest + Survivors(inputs, smallest, base);
    NewestExists(before, user, snapshot);
    if Nothing(before, user, snapshot) {
      forall x ensures !Visible(after, user, snapshot, x) {
        assert !Visible(before, user, snapshot, x);
      }
    } else {
      var e :| Newest(before, user, snapshot, e);
      ReadNewest(before, user, snapshot, e);
      if e in after {
        assert forall x :: Visible(after, user, snapshot, x) ==> Visible(before, user, snapshot, x);
        assert Newest(after, user, snapshot, e);
        ReadNewest(after, user, snapshot, e);
      } else {
        MarkerGone(rest, inputs, smallest, base, user, snapshot, e);
      }
    }
  }

  /** The newest entry was dropped: then it was a deletion, and what is left under it reads as absent too. */
  lemma MarkerGone(rest: set<Entry>, inputs: set<Entry>, smallest: SequenceNumber, base: UserKey -> bool,
                   user: UserKey, snapshot: nat, e: Entry)
    requires Unique(rest + inputs) && rest !! inputs && smallest <= snapshot
    requires !exists d, v :: Exposes(rest, inputs, smallest, base, d, v)
    requires Newest(rest + inputs, user, snapshot, e) && e !in rest + Survivors(inputs, smallest, base)
    ensures e.key.kind == Deletion
    ensures Read(rest + Survivors(inputs, smallest, base), user, snapshot) == None
  {
    var before, after := rest + inputs, rest + Survivors(inputs, smallest, base);
    assert e in inputs && Obsolete(inputs, e, smallest, base);
    if y :| y in inputs && y.key.user == user && e.key.sequence < y.key.sequence <= smallest {
      assert Visible(before, user, snapshot, y);
      assert false;
    }
    forall x | Visible(inputs, user, smallest, x) ensures x.key.sequence <= e.key.sequence {
      assert Visible(before, user, snapshot, x);
    }
    assert Visible(inputs, user, smallest, e);
    assert DroppedMarker(inputs, smallest, base, e);
    NewestExists(after, user, snapshot);
    if v :| Newest(after, user, snapshot, v) {
      ReadNewest(after, user, snapshot, v);
      assert Visible(before, user, snapshot, v);
      assert v.key.sequence <= e.key.sequence && v != e;
      if v in inputs {
        assert Obsolete(inputs, v, smallest, base);
        assert false;
      }
      forall x | Visible(rest, user, smallest, x) ensures x.key.sequence <= v.key.sequence {
        assert Visible(after, user, snapshot, x);
      }
      assert Visible(rest, user, smallest, v);
      assert Newest(rest, user, smallest, v);
      assert !Exposes(rest, inputs, smallest, base, e, v);
    }
  }

  /** An exposed value reads back at the smallest snapshot, where before the marker made it absent. */
  lemma ExposedValueReturns(rest: set<Entry>, inputs: set<Entry>, smallest: SequenceNumber, base: UserKey -> bool,
                            d: Entry, v: Entry)
    requires Unique(rest + inputs) && rest !! inputs
    requires Exposes(rest, inputs, smallest, base, d, v)
    ensures Read(rest + inputs, d.key.user, smallest) == None
    ensures Read(rest + Survivors(inputs, smallest, base), d.key.user, smallest) == Some(v.value)
  {
    var user := d.key.user;
    var before, after := rest + inputs, rest + Survivors(inputs, smallest, base);
    forall x | Visible(before, user, smallest, x) ensures x.key.sequence <= d.key.sequence {
      assert Visible(rest, user, smallest, x) || Visible(inputs, user, smallest, x);
    }
    assert Visible(before, user, smallest, d);
    ReadNewest(before, user, smallest, d);
    forall x | x in inputs && Visible(before, user, smallest, x) ensures Obsolete(inputs, x, smallest, base) {
      assert Visible(inputs, user, smallest, x) && d in before;
    }
    forall x | Visible(after, user, smallest, x) ensures x.key.sequence <= v.key.sequence {
      assert Visible(before, user, smallest, x);
      assert Visible(rest, user, smallest, x);
    }
    assert Visible(after, user, smallest, v);
    ReadNewest(after, user, smallest, v);
  }

  /** Main result: reads at every live snapshot survive exactly when no dropped marker exposes a value. */
  lemma ReadsPreservedIff(rest: set<Entry>, inputs: set<Entry>, smallest: SequenceNumber, base: UserKey -> bool)
    requires Unique(rest + inputs) && rest !! inputs
    ensures (forall user: UserKey, snapshot: nat :: smallest <= snapshot ==>
               Read(rest + Survivors(inputs, smallest, base), user, snapshot) == Read(rest + inputs, user, snapshot))
            <==> !(exists d, v :: Exposes(rest, inputs, smallest, base, d, v))
  {
    if d, v :| Exposes(rest, inputs, smallest, base, d, v) {
      ExposedValueReturns(rest, inputs, smallest, base, d, v);
    } else {
      forall user: UserKey, snapshot: nat | smallest <= snapshot
        ensures Read(rest + Survivors(inputs, smallest, base), user, snapshot) == Read(rest + inputs, user, snapshot)
      {
        DropKeepsReadAt(rest, inputs, smallest, base, user, snapshot);
      }
    }
  }
}
