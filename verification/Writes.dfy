/**
 What writing means to a reader, said over the operations themselves: after any run the store reads as the map
 that the operations leave when they are played one after another.
*/
module Writes {
  import opened Format
  import opened Reads
  import opened Store
  import opened Invariant
  import opened Runs

  /** The last operation on the user key is the one at `i`. */
  ghost predicate LastOn(ops: seq<Op>, user: UserKey, i: nat) {
    i < |ops| && ops[i].user == user && forall j :: i < j < |ops| ==> ops[j].user != user
  }

  ghost predicate Untouched(ops: seq<Op>, user: UserKey) {
    forall j :: 0 <= j < |ops| ==> ops[j].user != user
  }

  // ----- one batch -----

  /** Two sets whose entries up to a number are the same read the same there. */
  lemma ReadUpTo(a: set<Entry>, b: set<Entry>, user: UserKey, q: nat)
    requires Unique(a) && Unique(b) && forall e: Entry :: e.key.sequence <= q ==> (e in a <==> e in b)
    ensures Read(a, user, q) == Read(b, user, q)
  {
    NewestExists(a, user, q);
    if Nothing(a, user, q) {
      forall x ensures !Visible(b, user, q, x) {
        assert !Visible(a, user, q, x);
      }
      ReadNothing(a, user, q);
      ReadNothing(b, user, q);
    } else {
      var e :| Newest(a, user, q, e);
      forall x | Visible(b, user, q, x) ensures x.key.sequence <= e.key.sequence {
        assert Visible(a, user, q, x);
      }
      ReadNewest(a, user, q, e);
      ReadNewest(b, user, q, e);
    }
  }

  lemma OldReadsStay(history: set<Entry>, last: SequenceNumber, batch: seq<Op>, user: UserKey, q: nat)
    requires HistorySound(history, last) && last + |batch| < MAX_SEQUENCE && q <= last
    ensures Read(history + BatchEntries(batch, last + 1), user, q) == Read(history, user, q)
  {
    BatchFresh(batch, last);
    AddFresh(history, BatchEntries(batch, last + 1), last, last + |batch|);
    ReadUpTo(history + BatchEntries(batch, last + 1), history, user, q);
  }

  /** The last operation on a user key is what is read. */
  lemma LastIsRead(history: set<Entry>, last: SequenceNumber, batch: seq<Op>, user: UserKey, i: nat)
    requires HistorySound(history, last) && last + |batch| < MAX_SEQUENCE && LastOn(batch, user, i)
    ensures Read(history + BatchEntries(batch, last + 1), user, last + |batch|)
            == if batch[i].Put? then Some(batch[i].value) else None
  {
    var added := BatchEntries(batch, last + 1);
    BatchFresh(batch, last);
    AddFresh(history, added, last, last + |batch|);
    var e := EntryOf(batch[i], last + 1 + i);
    assert Visible(added, user, last + |batch|, e);
    ReadAdded(history, added, user, last + |batch|, e);
  }

  lemma NothingAdded(batch: seq<Op>, first: nat, user: UserKey, q: nat)
    requires first + |batch| <= MAX_SEQUENCE + 1 && Untouched(batch, user)
    ensures Nothing(BatchEntries(batch, first), user, q)
  {
  }

  lemma UntouchedIsRead(history: set<Entry>, last: SequenceNumber, batch: seq<Op>, user: UserKey)
    requires HistorySound(history, last) && last + |batch| < MAX_SEQUENCE && Untouched(batch, user)
    ensures Read(history + BatchEntries(batch, last + 1), user, last + |batch|) == Read(history, user, last)
  {
    hide Read, Unique;
    var added := BatchEntries(batch, last + 1);
    BatchFresh(batch, last);
    AddFresh(history, added, last, last + |batch|);
    NothingAdded(batch, last + 1, user, last + |batch|);
    ReadIgnoring(history, added, user, last + |batch|);
    ReadBeyond(history, user, last, last + |batch|, last);
  }

  /** Read-your-writes: the last operation on a user key decides, the others are as before, and so is the past. */
  lemma WriteIsRead(s: State, s': State, batch: seq<Op>)
    requires SequencesSound(s) && Step(s, s', Write(batch))
    ensures s'.lastSequence == s.lastSequence + |batch|
    ensures forall user: UserKey, i: nat :: LastOn(batch, user, i) ==>
              Read(s'.history, user, s'.lastSequence) == if batch[i].Put? then Some(batch[i].value) else None
    ensures forall user: UserKey :: Untouched(batch, user) ==>
              Read(s'.history, user, s'.lastSequence) == Read(s.history, user, s.lastSequence)
    ensures forall user: UserKey, q: nat :: q <= s.lastSequence ==>
              Read(s'.history, user, q) == Read(s.history, user, q)
  {
    hide Read, Untouched, BatchEntries;
    forall user: UserKey, i: nat | LastOn(batch, user, i)
      ensures Read(s'.history, user, s'.lastSequence) == if batch[i].Put? then Some(batch[i].value) else None
    {
      LastIsRead(s.history, s.lastSequence, batch, user, i);
    }
    forall user: UserKey | Untouched(batch, user)
      ensures Read(s'.history, user, s'.lastSequence) == Read(s.history, user, s.lastSequence)
    {
      UntouchedIsRead(s.history, s.lastSequence, batch, user);
    }
    forall user: UserKey, q: nat | q <= s.lastSequence
      ensures Read(s'.history, user, q) == Read(s.history, user, q)
    {
      OldReadsStay(s.history, s.lastSequence, batch, user, q);
    }
  }

  // ----- whole runs -----

  /** What the operations leave, played one after another. */
  function Played(ops: seq<Op>): map<UserKey, Bytes> {
    if ops == [] then
      map[]
    else
      var before := Played(ops[..|ops| - 1]);
      match ops[|ops| - 1]
      case Put(user, value) => before[user := value]
      case Delete(user) => before - {user}
  }

  function At(m: map<UserKey, Bytes>, user: UserKey): Option<Bytes> {
    if user in m then Some(m[user]) else None
  }

  /** The operations of a run, in the order they were numbered. */
  ghost function Ops(steps: seq<Label>): seq<Op> {
    if steps == [] then
      []
    else
      var step := steps[|steps| - 1];
      Ops(steps[..|steps| - 1]) + if step.Write? then step.batch else []
  }

  /** Each operation took one number, and each number reads what the operations up to it leave. */
  ghost predicate PlaysTo(history: set<Entry>, last: SequenceNumber, ops: seq<Op>) {
    && last == |ops|
    && forall user: UserKey, q: nat :: q <= last ==> Read(history, user, q) == At(Played(ops[..q]), user)
  }

  /** The entry numbered next decides its own user key and no other. */
  lemma NextNumber(es: set<Entry>, e: Entry, user: UserKey, q: nat, next: nat)
    requires Unique(es) && e in es && e.key.sequence == next == q + 1
    requires forall x :: x in es && x.key.sequence == next ==> x == e
    ensures Read(es, user, next) == if user == e.key.user then Result(e) else Read(es, user, q)
  {
    if user == e.key.user {
      ReadNewest(es, user, next, e);
    } else {
      NewestExists(es, user, q);
      if Nothing(es, user, q) {
        forall x ensures !Visible(es, user, next, x) {
          assert !Visible(es, user, q, x);
        }
        ReadNothing(es, user, q);
        ReadNothing(es, user, next);
      } else {
        var x :| Newest(es, user, q, x);
        forall y | Visible(es, user, next, y) ensures y.key.sequence <= x.key.sequence {
          assert Visible(es, user, q, y);
        }
        ReadNewest(es, user, q, x);
        ReadNewest(es, user, next, x);
      }
    }
  }

  lemma {:induction false} BatchPlays(history: set<Entry>, last: SequenceNumber, ops: seq<Op>, batch: seq<Op>, n: nat,
                                      user: UserKey)
    requires HistorySound(history, last) && PlaysTo(history, last, ops)
    requires last + |batch| < MAX_SEQUENCE && n <= |batch|
    ensures Read(history + BatchEntries(batch, last + 1), user, last + n) == At(Played(ops + batch[..n]), user)
  {
    hide Read, Unique, HistorySound, BatchEntries, Played;
    var es := history + BatchEntries(batch, last + 1);
    if n == 0 {
      OldReadsStay(history, last, batch, user, last);
      assert ops + batch[..0] == ops == ops[..last];
    } else {
      BatchPlays(history, last, ops, batch, n - 1, user);
      var e := EntryOf(batch[n - 1], last + 1 + (n - 1));
      NumberedOnce(history, last, batch, n - 1);
      NextNumber(es, e, user, last + n - 1, last + n);
      PlayedNext(ops, batch, n - 1);
    }
  }

  lemma NumberedOnce(history: set<Entry>, last: SequenceNumber, batch: seq<Op>, n: nat)
    requires HistorySound(history, last) && last + |batch| < MAX_SEQUENCE && n < |batch|
    ensures var es := history + BatchEntries(batch, last + 1); var e := EntryOf(batch[n], last + 1 + n);
            && Unique(es) && e in es && e.key.sequence == last + n + 1
            && forall x :: x in es && x.key.sequence == last + n + 1 ==> x == e
  {
    BatchFresh(batch, last);
    AddFresh(history, BatchEntries(batch, last + 1), last, last + |batch|);
  }

  lemma PlayedNext(ops: seq<Op>, batch: seq<Op>, n: nat)
    requires n < |batch|
    ensures Played(ops + batch[..n + 1])
            == match batch[n]
               case Put(user, value) => Played(ops + batch[..n])[user := value]
               case Delete(user) => Played(ops + batch[..n]) - {user}
  {
    var all := ops + batch[..n + 1];
    assert all[..|all| - 1] == ops + batch[..n];
  }

  lemma WritePlays(history: set<Entry>, last: SequenceNumber, ops: seq<Op>, batch: seq<Op>)
    requires HistorySound(history, last) && PlaysTo(history, last, ops) && last + |batch| < MAX_SEQUENCE
    ensures PlaysTo(history + BatchEntries(batch, last + 1), last + |batch|, ops + batch)
  {
    hide Read, Played, HistorySound;
    var es := history + BatchEntries(batch, last + 1);
    forall user: UserKey, q: nat | q <= last + |batch|
      ensures Read(es, user, q) == At(Played((ops + batch)[..q]), user)
    {
      if q <= last {
        OldReadsStay(history, last, batch, user, q);
        assert (ops + batch)[..q] == ops[..q];
      } else {
        BatchPlays(history, last, ops, batch, q - last, user);
        assert (ops + batch)[..q] == ops + batch[..q - last];
      }
    }
  }

  lemma NothingPlayed()
    ensures PlaysTo({}, 0, [])
  {
    forall user: UserKey ensures Read({}, user, 0) == None {
      ReadNothing({}, user, 0);
    }
  }

  lemma StepPlays(s: State, s': State, step: Label, ops: seq<Op>)
    requires SequencesSound(s) && Step(s, s', step) && !step.Crash? && PlaysTo(s.history, s.lastSequence, ops)
    ensures PlaysTo(s'.history, s'.lastSequence, ops + if step.Write? then step.batch else [])
  {
    hide PlaysTo, FlushEnabled, MoveEnabled, BeginEnabled, FinishEnabled, SequencesSound;
    if step.Write? {
      SoundHistory(s);
      WritePlays(s.history, s.lastSequence, ops, step.batch);
    } else {
      assert ops + [] == ops;
    }
  }

  lemma SoundHistory(s: State)
    requires SequencesSound(s)
    ensures HistorySound(s.history, s.lastSequence) && SnapshotsSound(s.snapshots, Horizon(s.job), s.lastSequence)
  {
  }

  lemma {:induction false} RunPlays(states: seq<State>, steps: seq<Label>, n: nat)
    requires IsRun(states, steps) && n < |states|
    requires forall i :: 0 <= i < |steps| ==> Orderly(states[i], steps[i]) && !steps[i].Crash?
    ensures PlaysTo(states[n].history, states[n].lastSequence, Ops(steps[..n]))
  {
    hide PlaysTo, Step, Orderly, Inv;
    if n == 0 {
      NothingPlayed();
    } else {
      var i := n - 1;
      RunPlays(states, steps, i);
      RunKeepsInv(states, steps, i);
      InvParts(states[i]);
      assert Step(states[i], states[i + 1], steps[i]);
      StepPlays(states[i], states[i + 1], steps[i], Ops(steps[..i]));
      assert steps[..n][..i] == steps[..i];
    }
  }

  /** The store is the map its operations make: with nothing crashed and no value uncovered, every live snapshot reads
      what the operations numbered up to it leave, and the present reads what all of them leave. */
  lemma RunReadsPlayed(states: seq<State>, steps: seq<Label>, n: nat, user: UserKey)
    requires IsRun(states, steps) && n < |states|
    requires forall i :: 0 <= i < |steps| ==>
               Orderly(states[i], steps[i]) && Covered(states[i], steps[i]) && !steps[i].Crash?
    ensures forall q :: q in states[n].snapshots ==>
              q <= |Ops(steps[..n])| && Read(Contents(states[n]), user, q) == At(Played(Ops(steps[..n])[..q]), user)
    ensures Read(Contents(states[n]), user, |Ops(steps[..n])|) == At(Played(Ops(steps[..n])), user)
  {
    hide Step, Orderly, Covered, Read, Played, Inv, SequencesSound, Contents;
    RunPlays(states, steps, n);
    RunReadsHistory(states, steps, n);
    InvParts(states[n]);
    SoundHistory(states[n]);
    var ops := Ops(steps[..n]);
    assert ops[..|ops|] == ops;
  }
}
