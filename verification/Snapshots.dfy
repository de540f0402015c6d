/**
 The list of live snapshots: a circular doubly linked list with a dummy head, oldest first.
*/
module Snapshots {
  import opened Format

  class SnapshotImpl {
    const sequenceNumber: SequenceNumber
    var prev: SnapshotImpl?
    var next: SnapshotImpl?

    constructor (sequenceNumber: SequenceNumber)
      ensures this.sequenceNumber == sequenceNumber
    {
      this.sequenceNumber := sequenceNumber;
      prev, next := null, null;
    }
  }

  ghost predicate NonDecreasing(s: seq<SequenceNumber>) {
    forall i, j :: 0 <= i < j < |s| ==> s[i] <= s[j]
  }

  lemma AppendNewest(s: seq<SequenceNumber>, q: SequenceNumber)
    requires NonDecreasing(s) && forall x :: x in s ==> x <= q
    ensures NonDecreasing(s + [q])
  {
    forall i | 0 <= i < |s| ensures s[i] <= q {
      assert s[i] in s;
    }
  }

  lemma RemoveOne(s: seq<SequenceNumber>, i: nat)
    requires NonDecreasing(s) && i < |s|
    ensures NonDecreasing(s[..i] + s[i + 1..])
  {
  }

  /** The head and the nodes are all different; the head comes again at the end. */
  ghost predicate Apart(ring: seq<SnapshotImpl>) {
    forall i, j :: 0 <= i < j < |ring| - 1 ==> ring[i] != ring[j]
  }

  lemma AppendApart(ring: seq<SnapshotImpl>, s: SnapshotImpl, head: SnapshotImpl)
    requires Apart(ring) && |ring| > 1 && s !in ring
    ensures Apart(ring[..|ring| - 1] + [s, head])
  {
  }

  lemma RemoveApart(ring: seq<SnapshotImpl>, i: nat)
    requires Apart(ring) && i < |ring|
    ensures Apart(ring[..i] + ring[i + 1..])
  {
  }

  class SnapshotList {
    const head: SnapshotImpl
    /** The live snapshots, oldest first. */
    ghost var nodes: seq<SnapshotImpl>

    /** The nodes in link order, from the head round to the head again. */
    ghost function Ring(): seq<SnapshotImpl>
      reads this
    {
      [head] + nodes + [head]
    }

    ghost function Repr(): set<object>
      reads this
    {
      {this, head} + set n | n in nodes
    }

    /** Neighbours in the ring are linked both ways. */
    ghost predicate Linked(ring: seq<SnapshotImpl>)
      reads set n | n in ring
    {
      forall i :: 0 <= i < |ring| - 1 ==> ring[i].next == ring[i + 1] && ring[i + 1].prev == ring[i]
    }

    ghost predicate Valid()
      reads this, Repr()
    {
      Apart(Ring()) && Linked(Ring()) && NonDecreasing(Numbers())
    }

    /** The sequence numbers of the live snapshots, oldest first. */
    ghost function Numbers(): (s: seq<SequenceNumber>)
      reads this
      ensures |s| == |nodes| && forall i :: 0 <= i < |s| ==> s[i] == nodes[i].sequenceNumber
    {
      seq(|nodes|, i requires 0 <= i < |nodes| reads this => nodes[i].sequenceNumber)
    }

    constructor ()
      ensures Valid() && Numbers() == [] && fresh(Repr())
    {
      head := new SnapshotImpl(0);
      nodes := [];
      new;
      head.prev, head.next := head, head;
    }

    method Empty() returns (empty: bool)
      requires Valid()
      ensures empty <==> Numbers() == []
    {
      assert Ring()[0].next == Ring()[1];
      empty := head.next == head;
    }

    /** The oldest live snapshot has the least sequence number of all. */
    method Oldest() returns (s: SnapshotImpl)
      requires Valid() && Numbers() != []
      ensures s in nodes && s.sequenceNumber == Numbers()[0]
      ensures forall q :: q in Numbers() ==> s.sequenceNumber <= q
    {
      assert Ring()[0].next == Ring()[1];
      s := head.next;
    }

    method Newest() returns (s: SnapshotImpl)
      requires Valid() && Numbers() != []
      ensures s in nodes && s.sequenceNumber == Numbers()[|Numbers()| - 1]
      ensures forall q :: q in Numbers() ==> q <= s.sequenceNumber
    {
      assert Ring()[|Ring()| - 1].prev == Ring()[|Ring()| - 2];
      s := head.prev;
    }

    /** Append a snapshot no older than the newest. */
    method New(sequenceNumber: SequenceNumber) returns (s: SnapshotImpl)
      requires Valid() && forall q :: q in Numbers() ==> q <= sequenceNumber
      modifies Repr()
      ensures Valid() && nodes == old(nodes) + [s] && s.sequenceNumber == sequenceNumber && fresh(Repr() - old(Repr()))
      ensures Numbers() == old(Numbers()) + [sequenceNumber]
    {
      ghost var ring := Ring();
      s := new SnapshotImpl(sequenceNumber);
      assert ring[|ring| - 1].prev == ring[|ring| - 2];
      s.next := head;
      s.prev := head.prev;
      s.prev.next := s;
      s.next.prev := s;
      nodes := nodes + [s];
      AppendNewest(old(Numbers()), sequenceNumber);
      AppendApart(ring, s, head);
      assert Numbers() == old(Numbers()) + [sequenceNumber];
      var n := |ring| - 2;
      assert Ring() == ring[..n + 1] + [s, head];
      forall k | 0 <= k < |Ring()| - 1 ensures Ring()[k].next == Ring()[k + 1] && Ring()[k + 1].prev == Ring()[k] {
        if k < n {
          assert ring[k] != ring[n] && (k + 1 < n ==> ring[k + 1] != ring[0]);
        }
      }
    }

    /** A ring in which one node is passed over both ways is linked without it. */
    lemma Unlinked(ring: seq<SnapshotImpl>, i: nat)
      requires i + 2 < |ring| && ring[i].next == ring[i + 2] && ring[i + 2].prev == ring[i]
      requires forall k :: 0 <= k < |ring| - 1 && k != i && k != i + 1 ==>
                 ring[k].next == ring[k + 1] && ring[k + 1].prev == ring[k]
      ensures Linked(ring[..i + 1] + ring[i + 2..])
    {
      var rest := ring[..i + 1] + ring[i + 2..];
      forall k | 0 <= k < |rest| - 1 ensures rest[k].next == rest[k + 1] && rest[k + 1].prev == rest[k] {
        assert k > i ==> rest[k] == ring[k + 1] && rest[k + 1] == ring[k + 2];
      }
    }

    /** Different places in the ring are different nodes, but for the head at both ends. */
    lemma DifferentNodes(ring: seq<SnapshotImpl>, a: nat, b: nat)
      requires Apart(ring) && a < b < |ring| && ring[0] == ring[|ring| - 1] && (a > 0 || b < |ring| - 1)
      ensures ring[a] != ring[b]
    {
      assert b == |ring| - 1 ==> ring[0] != ring[a];
    }

    /** The two stores that pass over a node. */
    method Unlink(s: SnapshotImpl, ghost ring: seq<SnapshotImpl>, ghost i: nat)
      requires i + 2 < |ring| && ring[i + 1] == s && Apart(ring) && ring[0] == ring[|ring| - 1] && Linked(ring)
      modifies ring[i], ring[i + 2]
      ensures Linked(ring[..i + 1] + ring[i + 2..])
    {
      assert ring[i].next == s && s.next == ring[i + 2] && s.prev == ring[i];
      DifferentNodes(ring, i, i + 1);
      s.prev.next := s.next;
      s.next.prev := s.prev;
      forall k | 0 <= k < |ring| - 1 && k != i && k != i + 1
        ensures ring[k].next == ring[k + 1] && ring[k + 1].prev == ring[k]
      {
        assert old(ring[k].next) == ring[k + 1] && old(ring[k + 1].prev) == ring[k];
        if k < i {
          DifferentNodes(ring, k, i);
          DifferentNodes(ring, k + 1, i + 2);
        } else {
          DifferentNodes(ring, i, k);
          DifferentNodes(ring, i + 2, k + 1);
        }
      }
      Unlinked(ring, i);
    }

    /** Unlink a live snapshot, given where it stands in the list. */
    method Delete(s: SnapshotImpl, ghost i: nat)
      requires Valid() && i < |nodes| && nodes[i] == s
      modifies Repr()
      ensures Valid() && nodes == old(nodes)[..i] + old(nodes)[i + 1..]
      ensures Numbers() == old(Numbers())[..i] + old(Numbers())[i + 1..]
    {
      hide Linked, NonDecreasing;
      ghost var ring := Ring();
      Unlink(s, ring, i);
      nodes := nodes[..i] + nodes[i + 1..];
      RemoveOne(old(Numbers()), i);
      RemoveApart(ring, i + 1);
      assert Numbers() == old(Numbers())[..i] + old(Numbers())[i + 1..];
      assert Ring() == ring[..i + 1] + ring[i + 2..];
    }
  }
}
