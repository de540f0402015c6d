/**
 What a read means: the newest entry of a user key at or below a snapshot sequence number decides,
 and a deletion marker reads as absent.  Every structure of the store refines this.
*/
module Reads {
  import opened Format

  ghost predicate Visible(es: set<Entry>, user: UserKey, snapshot: nat, e: Entry) {
    e in es && e.key.user == user && e.key.sequence <= snapshot
  }

  ghost predicate Newest(es: set<Entry>, user: UserKey, snapshot: nat, e: Entry) {
    && Visible(es, user, snapshot, e)
    && forall x :: Visible(es, user, snapshot, x) ==> x.key.sequence <= e.key.sequence
  }

  ghost predicate Nothing(es: set<Entry>, user: UserKey, snapshot: nat) {
    forall x :: !Visible(es, user, snapshot, x)
  }

  function Result(e: Entry): Option<Bytes> {
    if e.key.kind == Value then Some(e.value) else None
  }

  ghost function NewestEntry(es: set<Entry>, user: UserKey, snapshot: nat): (e: Entry)
    requires exists e :: Newest(es, user, snapshot, e)
    ensures Newest(es, user, snapshot, e)
  {
    var e :| Newest(es, user, snapshot, e);
    e
  }

  ghost function Read(es: set<Entry>, user: UserKey, snapshot: nat): Option<Bytes> {
    if exists e :: Newest(es, user, snapshot, e) then
      Result(NewestEntry(es, user, snapshot))
    else
      None
  }

  lemma {:induction false} NewestExists(es: set<Entry>, user: UserKey, snapshot: nat)
    ensures Nothing(es, user, snapshot) || exists e :: Newest(es, user, snapshot, e)
    decreases es
  {
    if x :| Visible(es, user, snapshot, x) {
      var rest := es - {x};
      NewestExists(rest, user, snapshot);
      if Nothing(rest, user, snapshot) {
        forall y | Visible(es, user, snapshot, y) ensures y == x {
          assert !Visible(rest, user, snapshot, y);
        }
        assert Newest(es, user, snapshot, x);
      } else {
        var e :| Newest(rest, user, snapshot, e);
        var best := if x.key.sequence <= e.key.sequence then e else x;
        forall y | Visible(es, user, snapshot, y) ensures y.key.sequence <= best.key.sequence {
          assert y == x || Visible(rest, user, snapshot, y);
        }
        assert Newest(es, user, snapshot, best);
      }
    }
  }

  lemma ReadNewest(es: set<Entry>, user: UserKey, snapshot: nat, e: Entry)
    requires Unique(es) && Newest(es, user, snapshot, e)
    ensures Read(es, user, snapshot) == Result(e)
  {
    var x := NewestEntry(es, user, snapshot);
    assert Visible(es, user, snapshot, e) && Visible(es, user, snapshot, x);
  }

  lemma ReadNothing(es: set<Entry>, user: UserKey, snapshot: nat)
    requires Nothing(es, user, snapshot)
    ensures Read(es, user, snapshot) == None
  {
  }

  /** Every entry of `over` is newer than any entry of `under` with its user key. */
  ghost predicate NewerThan(over: set<Entry>, under: set<Entry>) {
    forall x, y :: x in over && y in under && x.key.user == y.key.user ==> x.key.sequence > y.key.sequence
  }

  ghost predicate KeysDisjoint(a: set<Entry>, b: set<Entry>) {
    forall x, y :: x in a && y in b ==> x.key.user != y.key.user
  }
}
