/**
 Internal keys: a user key, a sequence number and an entry type, in the order every table,
 memtable and level of the store uses.

 User keys are modelled as reals.  The store only ever compares them through a user-supplied
 total order; Bytewise.dfy shows that the default order on byte strings embeds in the reals.
*/
module Format {

  type UserKey = real

  newtype byte = x: int | 0 <= x < 256

  type Bytes = seq<byte>

  const NUM_LEVELS: nat := 7

  const MAX_SEQUENCE: nat := 0xFF_FFFF_FFFF_FFFF

  type SequenceNumber = s: nat | s <= MAX_SEQUENCE

  datatype Option<+T> = None | Some(value: T)

  datatype ValueType = Deletion | Value

  datatype InternalKey = InternalKey(user: UserKey, sequence: SequenceNumber, kind: ValueType)

  datatype Entry = Entry(key: InternalKey, value: Bytes)

  function TypeByte(kind: ValueType): nat {
    match kind
    case Deletion => 0
    case Value => 1
  }

  /** The eight trailing bytes of an encoded internal key, as a number. */
  function PackSequenceAndType(sequence: SequenceNumber, kind: ValueType): nat {
    sequence * 256 + TypeByte(kind)
  }

  /** Increasing user key, then decreasing packed sequence and type. */
  predicate Before(a: InternalKey, b: InternalKey) {
    || a.user < b.user
    || (a.user == b.user && PackSequenceAndType(a.sequence, a.kind) > PackSequenceAndType(b.sequence, b.kind))
  }

  function Compare(a: InternalKey, b: InternalKey): int {
    if a.user < b.user then -1
    else if a.user > b.user then 1
    else
      var anum := PackSequenceAndType(a.sequence, a.kind);
      var bnum := PackSequenceAndType(b.sequence, b.kind);
      if anum > bnum then -1 else if anum < bnum then 1 else 0
  }

  /** The comparator is a total order whose equality is equality of keys. */
  lemma CompareIsTotalOrder(a: InternalKey, b: InternalKey)
    ensures Compare(a, b) < 0 <==> Before(a, b)
    ensures Compare(a, b) > 0 <==> Before(b, a)
    ensures Compare(a, b) == 0 <==> a == b
    ensures forall c :: Compare(a, b) < 0 && Compare(b, c) < 0 ==> Compare(a, c) < 0
  {
    if Compare(a, b) == 0 {
      assert a.sequence * 256 + TypeByte(a.kind) == b.sequence * 256 + TypeByte(b.kind);
    }
  }

  /** The key that sorts at or before every entry of `user` visible at `sequence`. */
  function LookupKey(user: UserKey, sequence: SequenceNumber): InternalKey {
    InternalKey(user, sequence, Value)
  }

  /** Seeking a lookup key skips exactly the entries of smaller user keys and the newer entries of its own. */
  lemma LookupKeySkips(user: UserKey, sequence: SequenceNumber, k: InternalKey)
    ensures Before(k, LookupKey(user, sequence)) <==> (k.user < user || (k.user == user && k.sequence > sequence))
  {
  }

  ghost predicate Sorted(es: seq<Entry>) {
    forall i, j :: 0 <= i < j < |es| ==> Before(es[i].key, es[j].key)
  }

  /** `Sorted`, stated between neighbours only. */
  ghost predicate Ascending(es: seq<Entry>) {
    |es| <= 1 || (Before(es[|es| - 2].key, es[|es| - 1].key) && Ascending(es[..|es| - 1]))
  }

  lemma {:induction false} AscendingIsSorted(es: seq<Entry>)
    ensures Ascending(es) <==> Sorted(es)
  {
    if |es| > 1 {
      var n := |es| - 1;
      AscendingIsSorted(es[..n]);
      if Ascending(es) {
        forall i | 0 <= i < n ensures Before(es[i].key, es[n].key) {
          assert i == n - 1 || Before(es[..n][i].key, es[..n][n - 1].key);
        }
      }
    }
  }

  /** No two different entries have the same user key and sequence number. */
  ghost predicate Unique(es: set<Entry>) {
    forall x, y :: x in es && y in es && x.key.user == y.key.user && x.key.sequence == y.key.sequence ==> x == y
  }

  ghost function ToSet<T>(s: seq<T>): set<T> {
    set x | x in s
  }

  lemma ToSetConcat<T>(a: seq<T>, b: seq<T>)
    ensures ToSet(a + b) == ToSet(a) + ToSet(b)
  {
    forall x | x in a ensures x in a + b {
      var i :| 0 <= i < |a| && a[i] == x;
      assert (a + b)[i] == x;
    }
    forall x | x in b ensures x in a + b {
      var i :| 0 <= i < |b| && b[i] == x;
      assert (a + b)[|a| + i] == x;
    }
  }

  lemma UnionHead<T>(base: set<T>, s: seq<T>)
    requires s != []
    ensures base + ToSet(s) == base + {s[0]} + ToSet(s[1..])
  {
    assert s == [s[0]] + s[1..];
    ToSetConcat([s[0]], s[1..]);
  }

  lemma ToSetTake<T>(a: seq<T>, n: nat)
    requires n < |a|
    ensures ToSet(a[..n + 1]) == ToSet(a[..n]) + {a[n]}
  {
    assert a[..n + 1] == a[..n] + [a[n]];
    ToSetConcat(a[..n], [a[n]]);
  }

  function InsertAt<T>(s: seq<T>, at: nat, x: T): (r: seq<T>)
    requires at <= |s|
  {
    s[..at] + [x] + s[at..]
  }

  lemma InsertAtMembers<T>(s: seq<T>, at: nat, x: T)
    requires at <= |s|
    ensures ToSet(InsertAt(s, at, x)) == ToSet(s) + {x}
  {
    assert s == s[..at] + s[at..];
    ToSetConcat(s[..at], s[at..]);
    ToSetConcat(s[..at] + [x], s[at..]);
    ToSetConcat(s[..at], [x]);
  }

  /** Entries with different keys can be sorted. */
  lemma {:induction false} SortedRun(es: set<Entry>) returns (run: seq<Entry>)
    requires Unique(es)
    ensures Sorted(run) && ToSet(run) == es
    decreases es
  {
    run := [];
    if es != {} {
      var last := LastEntry(es);
      var front := SortedRun(es - {last});
      run := front + [last];
      ToSetConcat(front, [last]);
      forall i | 0 <= i < |front| ensures Before(front[i].key, last.key) {
        assert front[i] in ToSet(front);
      }
    }
  }

  lemma {:induction false} LastEntry(es: set<Entry>) returns (last: Entry)
    requires Unique(es) && es != {}
    ensures last in es && forall e :: e in es && e != last ==> Before(e.key, last.key)
    decreases es
  {
    last :| last in es;
    if es != {last} {
      var other := LastEntry(es - {last});
      assert other in es && last in es;
      last := if Before(last.key, other.key) then other else last;
    }
  }
}
