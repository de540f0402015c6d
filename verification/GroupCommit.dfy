/**
 Group commit: writers queue up, the one in front writes for a group of those behind it, and all of
 them get its status.  Other writers may join the queue whenever the leader lets go of the mutex.
*/
module GroupCommit {
  import opened Format
  import Store

  type Op = Store.Op

  /** A call of Write: a null batch only asks for a new memtable. */
  datatype Writer = Writer(batch: Option<seq<Op>>, sync: bool)

  datatype Status = OK | IOError

  // ----- forming a group -----

  function Ops(w: Writer): seq<Op> {
    if w.batch.Some? then w.batch.value else []
  }

  /** The batches of the writers, one after another. */
  function Joined(ws: seq<Writer>): seq<Op> {
    if ws == [] then [] else Joined(ws[..|ws| - 1]) + Ops(ws[|ws| - 1])
  }

  function TotalSize(ws: seq<Writer>, byteSize: seq<Op> -> nat): nat {
    if ws == [] then 0
    else
      var w := ws[|ws| - 1];
      TotalSize(ws[..|ws| - 1], byteSize) + if w.batch.Some? then byteSize(w.batch.value) else 0
  }

  /** A megabyte, or less if the first write is small. */
  function MaxSize(size: nat): nat {
    if size <= 131072 then size + 131072 else 1048576
  }

  /** The group of the first `n` writers of a queue. */
  ghost predicate IsGroup(queue: seq<Writer>, n: nat, byteSize: seq<Op> -> nat) {
    && 1 <= n <= |queue| && queue[0].batch.Some?
    && (forall i :: 0 <= i < n && queue[i].sync ==> queue[0].sync)
    && (n == 1 || TotalSize(queue[..n], byteSize) <= MaxSize(TotalSize(queue[..1], byteSize))
        || forall i :: 1 <= i < n ==> queue[i].batch.None?)
    && (n < |queue| ==>
          || (queue[n].sync && !queue[0].sync)
          || (queue[n].batch.Some? && TotalSize(queue[..n + 1], byteSize) > MaxSize(TotalSize(queue[..1], byteSize))))
  }

  lemma FirstOfGroup(queue: seq<Writer>, byteSize: seq<Op> -> nat)
    requires queue != [] && queue[0].batch.Some?
    ensures var size := byteSize(queue[0].batch.value);
            && Joined(queue[..1]) == queue[0].batch.value && TotalSize(queue[..1], byteSize) == size
            && MaxSize(size) == if size <= 0x2_0000 then size + 0x2_0000 else 0x10_0000
  {
    assert queue[..1][..0] == [];
  }

  lemma OneMoreWriter(queue: seq<Writer>, n: nat, byteSize: seq<Op> -> nat)
    requires n < |queue|
    ensures Joined(queue[..n + 1]) == Joined(queue[..n]) + Ops(queue[n])
    ensures TotalSize(queue[..n + 1], byteSize)
            == TotalSize(queue[..n], byteSize) + if queue[n].batch.Some? then byteSize(queue[n].batch.value) else 0
  {
    assert queue[..n + 1][..n] == queue[..n];
  }

  /** BuildBatchGroup: as many writers as fit, stopping short of a sync write behind a leader that does not sync. */
  method BuildBatchGroup(queue: seq<Writer>, byteSize: seq<Op> -> nat) returns (n: nat, result: seq<Op>)
    requires queue != [] && queue[0].batch.Some?
    ensures IsGroup(queue, n, byteSize) && result == Joined(queue[..n])
  {
    hide Joined, TotalSize, MaxSize;
    var first := queue[0];
    result := first.batch.value;
    var size := byteSize(first.batch.value);
    FirstOfGroup(queue, byteSize);
    var maxSize: nat := 0x10_0000;
    if size <= 0x2_0000 {
      maxSize := size + 0x2_0000;
    }
    n := 1;
    while n < |queue|
      invariant 1 <= n <= |queue| && result == Joined(queue[..n]) && size == TotalSize(queue[..n], byteSize)
      invariant forall i :: 0 <= i < n && queue[i].sync ==> first.sync
      invariant size <= maxSize || forall i :: 1 <= i < n ==> queue[i].batch.None?
    {
      var w := queue[n];
      OneMoreWriter(queue, n, byteSize);
      if w.sync && !first.sync {
        break;
      }
      if w.batch.Some? {
        if size + byteSize(w.batch.value) > maxSize {
          break;
        }
        size := size + byteSize(w.batch.value);
        result := result + w.batch.value;
      }
      n := n + 1;
    }
  }

  // ----- the queue as a state machine -----

  /** What the writer in front is doing: nothing yet, making room in the memtable, or writing for the first `n`. */
  datatype Leader = Waiting | MakingRoom | Writing(n: nat)

  /** Where an applied batch went: its first sequence number, and its record of the log. */
  datatype Place = Place(first: nat, record: nat)

  datatype Record = Record(first: nat, ops: seq<Op>)

  /** `writers` are all calls so far in order of arrival, of which the first `popped` have left the queue with an
      outcome.  `applied` is what went into the memtable, with its sequence numbers, and `switched` says of each writer
      that has left whether it had the memtables switched by asking for it. */
  datatype State = State(writers: seq<Writer>, popped: nat, outcomes: seq<Status>, leader: Leader, lastSequence: nat,
                         failing: bool, log: seq<Record>, synced: nat, places: seq<Option<Place>>,
                         applied: seq<(Op, nat)>, switched: seq<bool>)

  function Queue(s: State): seq<Writer>
    requires s.popped <= |s.writers|
  {
    s.writers[s.popped..]
  }

  function Init(): State {
    State([], 0, [], Waiting, 0, false, [], 0, [], [], [])
  }

  function Numbered(ops: seq<Op>, first: nat): (r: seq<(Op, nat)>)
    ensures |r| == |ops| && forall i :: 0 <= i < |r| ==> r[i] == (ops[i], first + i)
  {
    seq(|ops|, i requires 0 <= i < |ops| => (ops[i], first + i))
  }

  /** The places of a group's batches, one after another from `first`. */
  function Placed(ws: seq<Writer>, first: nat, record: nat): (r: seq<Option<Place>>)
    ensures |r| == |ws|
  {
    if ws == [] then []
    else
      var n := |ws| - 1;
      Placed(ws[..n], first, record)
      + [if ws[n].batch.Some? then Some(Place(first + |Joined(ws[..n])|, record)) else None]
  }

  ghost predicate EnqueueStep(s: State, s': State, w: Writer) {
    s' == s.(writers := s.writers + [w])
  }

  /** The writer at the front starts on MakeRoomForWrite. */
  ghost predicate LeadStep(s: State, s': State) {
    s.leader == Waiting && s.popped < |s.writers| && s' == s.(leader := MakingRoom)
  }

  /** The first `n` writers leave the queue with one status, the leader among them. */
  function Popped(s: State, n: nat, status: Status, places: seq<Option<Place>>, forced: bool): State {
    s.(popped := s.popped + n, outcomes := s.outcomes + seq(n, _ => status), leader := Waiting,
       places := s.places + places, switched := s.switched + seq(n, _ => forced))
  }

  /** MakeRoomForWrite failed, or there is no batch to write: the leader leaves alone.  Without a batch it has forced a
      switch of memtables, unless that failed. */
  ghost predicate LeaveStep(s: State, s': State, status: Status) {
    && s.leader == MakingRoom && s.popped < |s.writers|
    && (status == OK ==> !s.failing && s.writers[s.popped].batch.None?)
    && s' == Popped(s, 1, status, [None], status == OK)
  }

  /** There is room: the leader takes a group, and lets go of the mutex to write. */
  ghost predicate GroupStep(s: State, s': State, n: nat, byteSize: seq<Op> -> nat) {
    && s.leader == MakingRoom && !s.failing && s.popped < |s.writers|
    && IsGroup(Queue(s), n, byteSize) && s' == s.(leader := Writing(n))
  }

  /** The group's record was added to the log or not, synced or not, and applied if all went well.  A failed addition
      may have reached the log nevertheless.  A failed sync makes all later writes fail. */
  ghost predicate WrittenStep(s: State, s': State, added: bool, landed: bool, synced: bool) {
    && s.leader.Writing? && 1 <= s.leader.n && s.popped + s.leader.n <= |s.writers|
    && var n := s.leader.n;
       var group := Queue(s)[..n];
       var ops := Joined(group);
       var leader := group[0];
       var first := s.lastSequence + 1;
       var status := if added && (leader.sync ==> synced) then OK else IOError;
       var log := if added || landed then s.log + [Record(first, ops)] else s.log;
       && s' == Popped(s, n, status, if status == OK then Placed(group, first, |s.log|) else seq(n, _ => None), false)
                .(lastSequence := s.lastSequence + |ops|,
                  log := log,
                  synced := if added && leader.sync && synced then |log| else s.synced,
                  failing := s.failing || (added && leader.sync && !synced),
                  applied := if status == OK then s.applied + Numbered(ops, first) else s.applied)
  }

  datatype Label = Enqueue(w: Writer) | Lead | Leave(status: Status) | Group(n: nat, byteSize: seq<Op> -> nat)
                 | Written(added: bool, landed: bool, synced: bool)

  ghost predicate Step(s: State, s': State, step: Label) {
    match step
    case Enqueue(w) => EnqueueStep(s, s', w)
    case Lead => LeadStep(s, s')
    case Leave(status) => LeaveStep(s, s', status)
    case Group(n, byteSize) => GroupStep(s, s', n, byteSize)
    case Written(added, landed, synced) => WrittenStep(s, s', added, landed, synced)
  }

  // ----- what every step keeps -----

  /** The batch stands in the log record, from its first sequence number on. */
  ghost predicate InLog(log: seq<Record>, place: Place, batch: seq<Op>) {
    && place.record < |log| && log[place.record].first <= place.first
    && place.first - log[place.record].first + |batch| <= |log[place.record].ops|
    && var at := place.first - log[place.record].first; log[place.record].ops[at..at + |batch|] == batch
  }

  /** A writer that is done: applied exactly if it was told OK and had something to apply; then also in the log, and
      on disk if it asked for that. */
  ghost predicate Honest(w: Writer, status: Status, place: Option<Place>, log: seq<Record>, synced: nat) {
    && (place.Some? <==> status == OK && w.batch.Some?)
    && (place.Some? ==> InLog(log, place.value, Ops(w)) && (w.sync ==> place.value.record < synced))
  }

  /** The batches of those applied, each with its numbers, in order of arrival. */
  function AppliedOf(ws: seq<Writer>, places: seq<Option<Place>>): seq<(Op, nat)>
    requires |ws| == |places|
  {
    if ws == [] then []
    else
      var n := |ws| - 1;
      AppliedOf(ws[..n], places[..n]) + if places[n].Some? then Numbered(Ops(ws[n]), places[n].value.first) else []
  }

  /** Sequence numbers only grow. */
  ghost predicate Increasing(applied: seq<(Op, nat)>, last: nat) {
    && (forall i :: 0 <= i < |applied| ==> applied[i].1 <= last)
    && forall i, j :: 0 <= i < j < |applied| ==> applied[i].1 < applied[j].1
  }

  ghost predicate LeaderOk(s: State) {
    && (s.leader != Waiting ==> s.popped < |s.writers|)
    && (s.leader.Writing? ==>
          && 1 <= s.leader.n && s.popped + s.leader.n <= |s.writers|
          && forall i :: s.popped <= i < s.popped + s.leader.n && s.writers[i].sync ==> s.writers[s.popped].sync)
  }

  ghost predicate AllHonest(s: State)
    requires s.popped <= |s.writers| && |s.outcomes| == s.popped && |s.places| == s.popped
  {
    forall i :: 0 <= i < s.popped ==> Honest(s.writers[i], s.outcomes[i], s.places[i], s.log, s.synced)
  }

  ghost predicate Inv(s: State) {
    && s.popped <= |s.writers| && |s.outcomes| == s.popped && |s.places| == s.popped && s.synced <= |s.log|
    && |s.switched| == s.popped
    && LeaderOk(s) && AllHonest(s)
    && s.applied == AppliedOf(s.writers[..s.popped], s.places)
    && Increasing(s.applied, s.lastSequence)
  }

  lemma Slices(a: seq<Op>, b: seq<Op>, i: nat, j: nat)
    requires i <= j <= |a|
    ensures (a + b)[i..j] == a[i..j] && (a + b)[|a|..|a| + |b|] == b
  {
  }

  lemma {:induction false} JoinedSlice(ws: seq<Writer>, i: nat)
    requires i < |ws|
    ensures |Joined(ws[..i])| + |Ops(ws[i])| <= |Joined(ws)|
    ensures Joined(ws)[|Joined(ws[..i])|..|Joined(ws[..i])| + |Ops(ws[i])|] == Ops(ws[i])
    decreases |ws|
  {
    hide Ops;
    var n := |ws| - 1;
    if i < n {
      JoinedSlice(ws[..n], i);
      assert ws[..n][..i] == ws[..i];
      Slices(Joined(ws[..n]), Ops(ws[n]), |Joined(ws[..i])|, |Joined(ws[..i])| + |Ops(ws[i])|);
    } else {
      Slices(Joined(ws[..n]), Ops(ws[n]), 0, 0);
    }
  }

  lemma {:induction false} PlacedAt(ws: seq<Writer>, first: nat, record: nat, i: nat)
    requires i < |ws|
    ensures Placed(ws, first, record)[i]
            == if ws[i].batch.Some? then Some(Place(first + |Joined(ws[..i])|, record)) else None
    decreases |ws|
  {
    var n := |ws| - 1;
    if i < n {
      PlacedAt(ws[..n], first, record, i);
      assert ws[..n][..i] == ws[..i];
    }
  }

  /** The batches of a group with the places given out to them are the group's operations, numbered through. */
  lemma {:induction false} PlacedApplied(ws: seq<Writer>, first: nat, record: nat)
    ensures AppliedOf(ws, Placed(ws, first, record)) == Numbered(Joined(ws), first)
  {
    if ws != [] {
      var n := |ws| - 1;
      PlacedApplied(ws[..n], first, record);
      PlacedAt(ws, first, record, n);
      assert Placed(ws, first, record)[..n] == Placed(ws[..n], first, record);
      assert Numbered(Joined(ws), first) == Numbered(Joined(ws[..n]), first) + Numbered(Ops(ws[n]),
                                                                                        first + |Joined(ws[..n])|);
    }
  }

  lemma AppliedNone(b: seq<Writer>, q: seq<Option<Place>>)
    requires b == [] && q == []
    ensures AppliedOf(b, q) == []
  {
  }

  lemma LastApart<T>(a: seq<T>, b: seq<T>)
    requires b != []
    ensures a + b == (a + b[..|b| - 1]) + [b[|b| - 1]] && b == b[..|b| - 1] + [b[|b| - 1]]
  {
  }

  lemma {:induction false} AppliedConcat(a: seq<Writer>, b: seq<Writer>, p: seq<Option<Place>>, q: seq<Option<Place>>)
    requires |a| == |p| && |b| == |q|
    ensures AppliedOf(a + b, p + q) == AppliedOf(a, p) + AppliedOf(b, q)
    decreases |b|
  {
    if b == [] {
      AppliedNone(b, q);
      hide AppliedOf;
      assert a + b == a && p + q == p;
    } else {
      hide AppliedOf, Numbered;
      var n := |b| - 1;
      AppliedConcat(a, b[..n], p, q[..n]);
      LastApart(a, b);
      LastApart(p, q);
      AppliedLast(a + b[..n], p + q[..n], b[n], q[n]);
      AppliedLast(b[..n], q[..n], b[n], q[n]);
    }
  }

  lemma AppliedLast(ws: seq<Writer>, places: seq<Option<Place>>, w: Writer, place: Option<Place>)
    requires |ws| == |places|
    ensures AppliedOf(ws + [w], places + [place])
            == AppliedOf(ws, places) + if place.Some? then Numbered(Ops(w), place.value.first) else []
  {
    hide Numbered;
    assert (ws + [w])[..|ws|] == ws && (places + [place])[..|places|] == places;
  }

  lemma {:induction false} NothingApplied(ws: seq<Writer>, places: seq<Option<Place>>)
    requires |ws| == |places| && forall i :: 0 <= i < |places| ==> places[i] == None
    ensures AppliedOf(ws, places) == []
  {
    if ws != [] {
      NothingApplied(ws[..|ws| - 1], places[..|ws| - 1]);
    }
  }

  lemma MoreLogKeepsHonest(w: Writer, status: Status, place: Option<Place>, log: seq<Record>, synced: nat,
                           log': seq<Record>, synced': nat)
    requires Honest(w, status, place, log, synced) && log <= log' && synced <= synced'
    ensures Honest(w, status, place, log', synced')
  {
  }

  /** A writer of a group that was written: its place is in the group's record. */
  lemma {:induction false} GroupHonest(group: seq<Writer>, first: nat, log: seq<Record>, synced: nat, i: nat)
    requires i < |group| && log != [] && log[|log| - 1] == Record(first, Joined(group))
    requires group[i].sync ==> synced == |log|
    ensures Honest(group[i], OK, Placed(group, first, |log| - 1)[i], log, synced)
  {
    PlacedAt(group, first, |log| - 1, i);
    JoinedSlice(group, i);
  }

  lemma FailedHonest(w: Writer, log: seq<Record>, synced: nat)
    ensures Honest(w, IOError, None, log, synced)
  {
  }

  lemma NumberedIncreases(applied: seq<(Op, nat)>, last: nat, ops: seq<Op>)
    requires Increasing(applied, last)
    ensures Increasing(applied + Numbered(ops, last + 1), last + |ops|)
  {
  }

  lemma GroupApplied(before: seq<Writer>, places: seq<Option<Place>>, group: seq<Writer>, first: nat, record: nat)
    requires |before| == |places|
    ensures AppliedOf(before + group, places + Placed(group, first, record))
            == AppliedOf(before, places) + Numbered(Joined(group), first)
  {
    AppliedConcat(before, group, places, Placed(group, first, record));
    PlacedApplied(group, first, record);
  }

  lemma GroupFailed(before: seq<Writer>, places: seq<Option<Place>>, group: seq<Writer>)
    requires |before| == |places|
    ensures AppliedOf(before + group, places + seq(|group|, _ => None)) == AppliedOf(before, places)
  {
    AppliedConcat(before, group, places, seq(|group|, _ => None));
    NothingApplied(group, seq(|group|, _ => None));
  }

  lemma Regroup(ws: seq<Writer>, popped: nat, n: nat)
    requires popped + n <= |ws|
    ensures ws[..popped + n] == ws[..popped] + ws[popped..][..n]
    ensures forall i :: popped <= i < popped + n ==> ws[i] == ws[popped..][..n][i - popped]
  {
  }

  /** Honesty of the writers popped before, and of those of the group, gives honesty of all. */
  lemma AllHonestNow(s: State, s': State, group: seq<Writer>, status: Status, places: seq<Option<Place>>)
    requires Inv(s) && s'.writers == s.writers && s'.popped == s.popped + |group| <= |s.writers|
    requires group == s.writers[s.popped..][..|group|] && |places| == |group|
    requires s'.outcomes == s.outcomes + seq(|group|, _ => status) && s'.places == s.places + places
    requires s.log <= s'.log && s.synced <= s'.synced
    requires forall i :: 0 <= i < |group| ==> Honest(group[i], status, places[i], s'.log, s'.synced)
    ensures AllHonest(s')
  {
    hide Honest;
    Regroup(s.writers, s.popped, |group|);
    forall i | 0 <= i < s'.popped ensures Honest(s'.writers[i], s'.outcomes[i], s'.places[i], s'.log, s'.synced) {
      if i < s.popped {
        MoreLogKeepsHonest(s.writers[i], s.outcomes[i], s.places[i], s.log, s.synced, s'.log, s'.synced);
      } else {
        assert s'.outcomes[i] == status && s'.places[i] == places[i - s.popped];
      }
    }
  }

  lemma WrittenOk(s: State, s': State, landed: bool, synced: bool)
    requires Inv(s) && WrittenStep(s, s', true, landed, synced)
    requires Queue(s)[..s.leader.n][0].sync ==> synced
    ensures Inv(s')
  {
    hide Honest, Joined, Placed, Numbered, AppliedOf, Increasing, AllHonest, InLog;
    var n, first := s.leader.n, s.lastSequence + 1;
    var group := Queue(s)[..n];
    Regroup(s.writers, s.popped, n);
    assert s'.log == s.log + [Record(first, Joined(group))] && s.log == s'.log[..|s.log|];
    assert s'.places == s.places + Placed(group, first, |s.log|);
    forall i | 0 <= i < n ensures Honest(group[i], OK, Placed(group, first, |s.log|)[i], s'.log, s'.synced) {
      assert group[i].sync ==> group[0].sync;
      GroupHonest(group, first, s'.log, s'.synced, i);
    }
    AllHonestNow(s, s', group, OK, Placed(group, first, |s.log|));
    GroupApplied(s.writers[..s.popped], s.places, group, first, |s.log|);
    NumberedIncreases(s.applied, s.lastSequence, Joined(group));
  }

  lemma WrittenFailed(s: State, s': State, added: bool, landed: bool, synced: bool)
    requires Inv(s) && WrittenStep(s, s', added, landed, synced)
    requires !added || (Queue(s)[..s.leader.n][0].sync && !synced)
    ensures Inv(s')
  {
    hide Honest, Joined, Placed, Numbered, AppliedOf, Increasing, AllHonest, InLog;
    var n := s.leader.n;
    var group := Queue(s)[..n];
    Regroup(s.writers, s.popped, n);
    assert s.log == s'.log[..|s.log|];
    forall i | 0 <= i < n ensures Honest(group[i], IOError, None, s'.log, s'.synced) {
      FailedHonest(group[i], s'.log, s'.synced);
    }
    AllHonestNow(s, s', group, IOError, seq(n, _ => None));
    GroupFailed(s.writers[..s.popped], s.places, group);
    Weaker(s.applied, s.lastSequence, s'.lastSequence);
  }

  lemma Weaker(applied: seq<(Op, nat)>, last: nat, last': nat)
    requires Increasing(applied, last) && last <= last'
    ensures Increasing(applied, last')
  {
  }

  lemma LeaveKeeps(s: State, s': State, status: Status)
    requires Inv(s) && LeaveStep(s, s', status)
    ensures Inv(s')
  {
    hide AppliedOf, Increasing, Joined, InLog;
    var w := s.writers[s.popped];
    assert s'.writers[..s'.popped] == s.writers[..s.popped] + [w] && s'.places == s.places + [None];
    AppliedConcat(s.writers[..s.popped], [w], s.places, [None]);
    NothingApplied([w], [None]);
  }

  lemma GroupKeeps(s: State, s': State, n: nat, byteSize: seq<Op> -> nat)
    requires Inv(s) && GroupStep(s, s', n, byteSize)
    ensures Inv(s')
  {
    forall i | s.popped <= i < s.popped + n && s.writers[i].sync ensures s.writers[s.popped].sync {
      assert Queue(s)[i - s.popped] == s.writers[i];
    }
  }

  lemma EnqueueKeeps(s: State, s': State, w: Writer)
    requires Inv(s) && EnqueueStep(s, s', w)
    ensures Inv(s')
  {
    assert s'.writers[..s.popped] == s.writers[..s.popped];
  }

  lemma StepKeepsInv(s: State, s': State, step: Label)
    requires Inv(s) && Step(s, s', step)
    ensures Inv(s') && s.lastSequence <= s'.lastSequence
    ensures s.applied <= s'.applied && s.outcomes <= s'.outcomes && s.writers <= s'.writers
  {
    match step {
      case Enqueue(w) => EnqueueKeeps(s, s', w);
      case Lead =>
      case Leave(status) => LeaveKeeps(s, s', status);
      case Group(n, byteSize) => GroupKeeps(s, s', n, byteSize);
      case Written(added, landed, synced) =>
        if added && (Queue(s)[..s.leader.n][0].sync ==> synced) {
          WrittenOk(s, s', landed, synced);
        } else {
          WrittenFailed(s, s', added, landed, synced);
        }
    }
  }

  ghost predicate IsRun(states: seq<State>, steps: seq<Label>) {
    && |states| == |steps| + 1 && states[0] == Init()
    && forall i :: 0 <= i < |steps| ==> Step(states[i], states[i + 1], steps[i])
  }

  /** Over every interleaving of writers: what is in the memtable is the batches of the writers told OK, each once, in
      the order the writers came, with sequence numbers that run on within a batch and only grow; each is in the log,
      and a sync write that was told OK is on disk. */
  lemma {:induction false} RunKeepsInv(states: seq<State>, steps: seq<Label>, n: nat)
    requires IsRun(states, steps) && n < |states|
    ensures Inv(states[n])
  {
    if n > 0 {
      RunKeepsInv(states, steps, n - 1);
      assert Step(states[n - 1], states[n - 1 + 1], steps[n - 1]);
      StepKeepsInv(states[n - 1], states[n], steps[n - 1]);
    }
  }

  // ----- a writer without a batch -----

  /** The writers up to here have left the queue, or are in the group that is being written. */
  function Front(s: State): nat {
    s.popped + if s.leader.Writing? then s.leader.n else 0
  }

  /** A writer with a batch is ahead that could take writer `i` into its group. */
  ghost predicate CanBeAbsorbed(s: State, i: nat) {
    i < |s.writers| && exists j :: Front(s) <= j < i && Absorbs(s.writers, j, i)
  }

  ghost predicate Absorbs(writers: seq<Writer>, j: nat, i: nat)
    requires j < i < |writers|
  {
    writers[j].batch.Some? && forall k :: j < k <= i && writers[k].sync ==> writers[j].sync
  }

  /** Writer `i` waits where no one can absorb it, or has left, and got its switch if it was told OK. */
  ghost predicate SwitchSure(s: State, i: nat) {
    && i < |s.writers| && s.writers[i].batch.None?
    && if i < s.popped then i < |s.switched| && i < |s.outcomes| && (s.outcomes[i] == OK ==> s.switched[i])
       else Front(s) <= i && !CanBeAbsorbed(s, i)
  }

  lemma StepKeepsSure(s: State, s': State, step: Label, i: nat)
    requires Inv(s) && Step(s, s', step) && SwitchSure(s, i)
    ensures SwitchSure(s', i)
  {
    hide AppliedOf, Increasing, AllHonest, Joined, Placed;
    assert forall k :: 0 <= k < |s.writers| ==> s'.writers[k] == s.writers[k];
    if i >= s.popped {
      if step.Group? {
        LeaderAbsorbs(s, step.n, step.byteSize, i);
      }
      StillNotAbsorbed(s, s', i);
    }
  }

  lemma StillNotAbsorbed(s: State, s': State, i: nat)
    requires Front(s) <= Front(s') && s.writers <= s'.writers && i < |s.writers|
    ensures CanBeAbsorbed(s', i) ==> CanBeAbsorbed(s, i)
  {
    forall j | Front(s') <= j < i && Absorbs(s'.writers, j, i) ensures Absorbs(s.writers, j, i) {
      assert forall k :: j <= k <= i ==> s'.writers[k] == s.writers[k];
    }
  }

  /** A group that took writer `i` shows that its leader could. */
  lemma LeaderAbsorbs(s: State, n: nat, byteSize: seq<Op> -> nat, i: nat)
    requires Inv(s) && GroupStep(s, Popping(s, n), n, byteSize) && s.popped <= i < |s.writers|
    requires s.writers[i].batch.None?
    ensures i < s.popped + n ==> CanBeAbsorbed(s, i)
  {
    if i < s.popped + n {
      assert Queue(s)[0] == s.writers[s.popped];
      forall k | s.popped < k <= i && s.writers[k].sync ensures s.writers[s.popped].sync {
        assert Queue(s)[k - s.popped] == s.writers[k];
      }
      assert Absorbs(s.writers, s.popped, i);
    }
  }

  function Popping(s: State, n: nat): State {
    s.(leader := Writing(n))
  }

  /** A writer without a batch that no one ahead of it can absorb has its switch once it is told OK, in every run. */
  lemma {:induction false} RunSwitches(states: seq<State>, steps: seq<Label>, m: nat, n: nat, i: nat)
    requires IsRun(states, steps) && m <= n < |states| && Front(states[m]) <= i < |states[m].writers|
    requires states[m].writers[i].batch.None? && !CanBeAbsorbed(states[m], i)
    ensures SwitchSure(states[n], i)
  {
    hide Step, Inv;
    if n == m {
      RunKeepsInv(states, steps, n);
      FrontBounds(states[n]);
    } else {
      RunSwitches(states, steps, m, n - 1, i);
      RunKeepsInv(states, steps, n - 1);
      assert Step(states[n - 1], states[n - 1 + 1], steps[n - 1]);
      StepKeepsSure(states[n - 1], states[n], steps[n - 1], i);
    }
  }

  lemma FrontBounds(s: State)
    requires Inv(s)
    ensures s.popped <= Front(s)
  {
  }

  lemma {:induction false} GroupExists(queue: seq<Writer>, byteSize: seq<Op> -> nat) returns (n: nat)
    requires queue != [] && queue[0].batch.Some?
    ensures IsGroup(queue, n, byteSize)
  {
    n := 1;
    var most := MaxSize(TotalSize(queue[..1], byteSize));
    while n < |queue| && !(queue[n].sync && !queue[0].sync)
          && !(queue[n].batch.Some? && TotalSize(queue[..n + 1], byteSize) > most)
      invariant 1 <= n <= |queue| && forall i :: 0 <= i < n && queue[i].sync ==> queue[0].sync
      invariant TotalSize(queue[..n], byteSize) <= most || forall i :: 1 <= i < n ==> queue[i].batch.None?
    {
      assert queue[..n + 1][..n] == queue[..n];
      n := n + 1;
    }
  }

  const HUGE: nat := 2097152

  /** When every batch is huge, a group has only its leader's. */
  lemma {:induction false} HugeTotal(ws: seq<Writer>, k: nat)
    requires 0 < k < |ws| && ws[0].batch.Some? && ws[k].batch.Some?
    ensures TotalSize(ws, _ => HUGE) >= 2 * HUGE
    decreases |ws|
  {
    var n := |ws| - 1;
    if k < n {
      HugeTotal(ws[..n], k);
    } else {
      HugeOne(ws[..n]);
    }
  }

  lemma {:induction false} HugeOne(ws: seq<Writer>)
    requires ws != [] && ws[0].batch.Some?
    ensures TotalSize(ws, _ => HUGE) >= HUGE
    decreases |ws|
  {
    if |ws| > 1 {
      HugeOne(ws[..|ws| - 1]);
    }
  }

  lemma {:induction false} NoTotal(ws: seq<Writer>)
    ensures TotalSize(ws, _ => 0) == 0
    decreases |ws|
  {
    if ws != [] {
      NoTotal(ws[..|ws| - 1]);
    }
  }

  /** A group that leaves the writer at `k`, which has a batch, out. */
  lemma SmallGroup(queue: seq<Writer>, k: nat) returns (n: nat)
    requires 0 < k < |queue| && queue[0].batch.Some? && queue[k].batch.Some?
    ensures IsGroup(queue, n, _ => HUGE) && n <= k
  {
    n := GroupExists(queue, _ => HUGE);
    assert TotalSize(queue[..1], _ => HUGE) == HUGE by {
      assert queue[..1][..0] == [];
    }
    if n > k {
      HugeTotal(queue[..n], k);
    }
  }

  /** A group that takes the writer at `k` in. */
  lemma LargeGroup(queue: seq<Writer>, k: nat) returns (n: nat)
    requires k < |queue| && queue[0].batch.Some?
    requires forall j :: 0 < j <= k && queue[j].sync ==> queue[0].sync
    ensures IsGroup(queue, n, _ => 0) && k < n
  {
    n := GroupExists(queue, _ => 0);
    if n < |queue| {
      NoTotal(queue[..n + 1]);
    }
  }

  ghost predicate GoesOn(states: seq<State>, steps: seq<Label>, more: seq<State>, next: seq<Label>) {
    IsRun(states + more, steps + next)
  }

  /** Writer `i` was told OK and had no switch. */
  ghost predicate Absorbed(s: State, i: nat) {
    i < |s.outcomes| && i < |s.switched| && s.outcomes[i] == OK && !s.switched[i]
  }

  lemma OneStepOn(states: seq<State>, steps: seq<Label>, s': State, step: Label)
    requires IsRun(states, steps) && Step(states[|states| - 1], s', step)
    ensures IsRun(states + [s'], steps + [step])
  {
    hide Step;
    var all, labels := states + [s'], steps + [step];
    forall i | 0 <= i < |labels| ensures Step(all[i], all[i + 1], labels[i]) {
      if i < |steps| {
        assert all[i] == states[i] && all[i + 1] == states[i + 1] && labels[i] == steps[i];
      }
    }
  }

  ghost predicate CanGoOn(s: State, i: nat) {
    Inv(s) && !s.failing && i < |s.writers| && s.writers[i].batch.None? && Front(s) <= i && CanBeAbsorbed(s, i)
  }

  /** What comes next on the way to the absorption of writer `i`. */
  lemma NextOnTheWay(s: State, i: nat) returns (s': State, step: Label, done: bool)
    requires CanGoOn(s, i)
    ensures Step(s, s', step) && !s'.failing
    ensures if done then s'.leader.Writing? && s'.popped <= i < s'.popped + s'.leader.n
            else CanGoOn(s', i) && (s'.popped > s.popped || (s'.popped == s.popped && Stage(s') > Stage(s)))
  {
    hide AppliedOf, Increasing, AllHonest, Joined, Placed, Numbered, IsGroup, TotalSize;
    var j :| Front(s) <= j < i && Absorbs(s.writers, j, i);
    done := false;
    match s.leader
    case Writing(n) =>
      step := Written(true, true, Queue(s)[..n][0].sync);
      s' := WrittenWell(s);
      StepKeepsInv(s, s', step);
      assert Absorbs(s'.writers, j, i);
    case Waiting =>
      step, s' := Lead, s.(leader := MakingRoom);
      StepKeepsInv(s, s', step);
      assert Absorbs(s'.writers, j, i);
    case MakingRoom =>
      if s.writers[s.popped].batch.None? {
        step, s' := Leave(OK), Popped(s, 1, OK, [None], true);
        StepKeepsInv(s, s', step);
        assert Absorbs(s'.writers, j, i);
      } else if Absorbs(s.writers, s.popped, i) {
        var n := LargeGroup(Queue(s), i - s.popped);
        step, s', done := Group(n, _ => 0), s.(leader := Writing(n)), true;
        GroupSize(Queue(s), n, _ => 0);
      } else {
        var n := SmallGroup(Queue(s), j - s.popped);
        step, s' := Group(n, _ => HUGE), s.(leader := Writing(n));
        StepKeepsInv(s, s', step);
        assert Absorbs(s'.writers, j, i);
      }
  }

  function Stage(s: State): nat {
    match s.leader
    case Waiting => 0
    case MakingRoom => 1
    case Writing(_) => 2
  }

  lemma GroupSize(queue: seq<Writer>, n: nat, byteSize: seq<Op> -> nat)
    requires IsGroup(queue, n, byteSize)
    ensures 1 <= n <= |queue|
  {
  }

  /** The group's write succeeds. */
  ghost function WrittenWell(s: State): (r: State)
    requires s.leader.Writing? && 1 <= s.leader.n && s.popped + s.leader.n <= |s.writers|
    ensures WrittenStep(s, r, true, true, Queue(s)[..s.leader.n][0].sync)
    ensures r.popped == s.popped + s.leader.n && r.leader == Waiting && r.failing == s.failing && r.writers == s.writers
    ensures |s.outcomes| == |s.switched| == s.popped ==>
              forall k :: s.popped <= k < r.popped ==> r.outcomes[k] == OK && !r.switched[k]
  {
    var n := s.leader.n;
    var group := Queue(s)[..n];
    var ops, first := Joined(group), s.lastSequence + 1;
    var log := s.log + [Record(first, ops)];
    Popped(s, n, OK, Placed(group, first, |s.log|), false)
      .(lastSequence := s.lastSequence + |ops|, log := log, synced := if group[0].sync then |log| else s.synced,
        applied := s.applied + Numbered(ops, first))
  }

  /** A writer without a batch that someone ahead can absorb: a run goes on in which it is told OK and has no switch. */
  lemma {:induction false} AbsorbedRun(states: seq<State>, steps: seq<Label>, i: nat)
    returns (more: seq<State>, next: seq<Label>)
    requires IsRun(states, steps) && CanGoOn(states[|states| - 1], i)
    ensures GoesOn(states, steps, more, next) && Absorbed((states + more)[|states + more| - 1], i)
    decreases i - states[|states| - 1].popped, 2 - Stage(states[|states| - 1])
  {
    hide Step, Inv, CanBeAbsorbed, WrittenStep;
    var s := states[|states| - 1];
    var s', step, done := NextOnTheWay(s, i);
    OneStepOn(states, steps, s', step);
    var more', next';
    if done {
      StepFacts(s, s', step);
      var s'' := WrittenWell(s');
      var last := Written(true, true, Queue(s')[..s'.leader.n][0].sync);
      WrittenIsStep(s', s'', last.synced);
      OneStepOn(states + [s'], steps + [step], s'', last);
      more', next' := [s''], [last];
    } else {
      StepFacts(s, s', step);
      more', next' := AbsorbedRun(states + [s'], steps + [step], i);
    }
    more, next := [s'] + more', [step] + next';
    assert states + [s'] + more' == states + more && steps + [step] + next' == steps + next;
  }

  lemma StepFacts(s: State, s': State, step: Label)
    requires Inv(s) && Step(s, s', step)
    ensures Inv(s') && |s'.outcomes| == |s'.switched| == s'.popped <= |s'.writers| && s.popped <= Front(s)
    ensures s'.leader.Writing? ==> 1 <= s'.leader.n && s'.popped + s'.leader.n <= |s'.writers|
  {
    StepKeepsInv(s, s', step);
  }

  lemma WrittenIsStep(s: State, s': State, synced: bool)
    requires WrittenStep(s, s', true, true, synced)
    ensures Step(s, s', Written(true, true, synced))
  {
  }

  /** The switch that a writer without a batch asks for is sure, if it is told OK, exactly when no writer with a batch
      ahead of it could take it into its group. */
  lemma SwitchSureIff(states: seq<State>, steps: seq<Label>, i: nat)
    requires IsRun(states, steps)
    requires var s := states[|states| - 1];
             !s.failing && Front(s) <= i < |s.writers| && s.writers[i].batch.None?
    ensures (forall more: seq<State>, next: seq<Label> :: GoesOn(states, steps, more, next) ==>
               !Absorbed((states + more)[|states + more| - 1], i))
            <==> !CanBeAbsorbed(states[|states| - 1], i)
  {
    hide Step, CanBeAbsorbed, AllHonest, AppliedOf, Increasing;
    var m := |states| - 1;
    RunKeepsInv(states, steps, m);
    if CanBeAbsorbed(states[m], i) {
      var more, next := AbsorbedRun(states, steps, i);
    } else {
      forall more: seq<State>, next: seq<Label> | GoesOn(states, steps, more, next)
        ensures !Absorbed((states + more)[|states + more| - 1], i)
      {
        var all := states + more;
        assert all[m] == states[m];
        RunSwitches(all, steps + next, m, |all| - 1, i);
        RunKeepsInv(all, steps + next, |all| - 1);
      }
    }
  }

  // ----- failed syncs -----

  /** Writes fail, and none is under way. */
  ghost predicate Halted(s: State) {
    s.failing && !s.leader.Writing?
  }

  lemma StepKeepsHalted(s: State, s': State, step: Label)
    requires Inv(s) && Halted(s) && Step(s, s', step)
    ensures Halted(s') && s'.applied == s.applied && s.outcomes <= s'.outcomes && |s'.outcomes| == s'.popped
    ensures forall k :: s.popped <= k < s'.popped ==> s'.outcomes[k] == IOError
  {
    hide AllHonest, AppliedOf, Increasing;
  }

  lemma FailedSyncHalts(s: State, s': State, landed: bool)
    requires Inv(s) && Step(s, s', Written(true, landed, false)) && s.writers[s.popped].sync
    ensures Halted(s') && s'.applied == s.applied && s.outcomes <= s'.outcomes && |s'.outcomes| == s'.popped
    ensures forall k :: s.popped <= k < s'.popped ==> s'.outcomes[k] == IOError
  {
    hide AllHonest, AppliedOf, Increasing, Joined, Numbered, Placed;
    assert Queue(s)[..s.leader.n][0] == s.writers[s.popped];
  }

  /** A log that could not be synced takes no more writes: no writer that leaves afterwards is told OK, those of the
      failed group among them, and nothing more is applied. */
  lemma {:induction false} FailedSyncIsFinal(states: seq<State>, steps: seq<Label>, n: nat, m: nat)
    requires IsRun(states, steps) && n < m < |states|
    requires steps[n].Written? && steps[n].added && !steps[n].synced && states[n].popped < |states[n].writers|
    requires states[n].writers[states[n].popped].sync
    ensures Halted(states[m]) && states[m].applied == states[n].applied && |states[m].outcomes| == states[m].popped
    ensures forall k :: states[n].popped <= k < states[m].popped ==> states[m].outcomes[k] == IOError
  {
    hide Step, Inv, Halted;
    RunKeepsInv(states, steps, m - 1);
    assert Step(states[m - 1], states[m - 1 + 1], steps[m - 1]);
    if m == n + 1 {
      FailedSyncHalts(states[n], states[m], steps[n].landed);
    } else {
      FailedSyncIsFinal(states, steps, n, m - 1);
      StepKeepsHalted(states[m - 1], states[m], steps[m - 1]);
    }
  }

  // ----- every writer is served -----

  /** What comes next while there are writers in the queue and nothing fails. */
  lemma NextServed(s: State) returns (s': State, step: Label)
    requires Inv(s) && !s.failing && s.popped < |s.writers|
    ensures Step(s, s', step) && Inv(s') && !s'.failing && s'.writers == s.writers && s.outcomes <= s'.outcomes
    ensures s'.popped > s.popped || (s'.popped == s.popped && Stage(s') > Stage(s))
    ensures |s'.outcomes| == s'.popped && forall k :: s.popped <= k < s'.popped ==> s'.outcomes[k] == OK
  {
    hide AppliedOf, Increasing, AllHonest, Joined, Placed, Numbered, IsGroup, TotalSize;
    match s.leader
    case Writing(n) =>
      step, s' := Written(true, true, Queue(s)[..n][0].sync), WrittenWell(s);
      StepKeepsInv(s, s', step);
    case Waiting =>
      step, s' := Lead, s.(leader := MakingRoom);
      StepKeepsInv(s, s', step);
    case MakingRoom =>
      if s.writers[s.popped].batch.None? {
        step, s' := Leave(OK), Popped(s, 1, OK, [None], true);
        StepKeepsInv(s, s', step);
      } else {
        var n := GroupExists(Queue(s), _ => 0);
        step, s' := Group(n, _ => 0), s.(leader := Writing(n));
        StepKeepsInv(s, s', step);
      }
  }

  lemma {:induction false} AllServed(states: seq<State>, steps: seq<Label>)
    returns (more: seq<State>, next: seq<Label>)
    requires IsRun(states, steps) && Inv(states[|states| - 1]) && !states[|states| - 1].failing
    ensures GoesOn(states, steps, more, next)
    ensures var s, s' := states[|states| - 1], (states + more)[|states + more| - 1];
            && s'.writers == s.writers && s'.popped == |s'.writers| == |s'.outcomes| && s.outcomes <= s'.outcomes
            && !s'.failing && forall k :: s.popped <= k < s'.popped ==> s'.outcomes[k] == OK
    decreases |states[|states| - 1].writers| - states[|states| - 1].popped, 2 - Stage(states[|states| - 1])
  {
    hide Step;
    var s := states[|states| - 1];
    if s.popped == |s.writers| {
      more, next := [], [];
      assert states + more == states && steps + next == steps;
    } else {
      hide Inv;
      QueueSizes(s);
      var s', step := NextServed(s);
      QueueSizes(s');
      OneStepOn(states, steps, s', step);
      var more', next' := AllServed(states + [s'], steps + [step]);
      more, next := [s'] + more', [step] + next';
      assert states + [s'] + more' == states + more && steps + [step] + next' == steps + next;
    }
  }

  lemma QueueSizes(s: State)
    requires Inv(s)
    ensures s.popped <= |s.writers| && |s.outcomes| == s.popped
  {
  }

  /** Whoever joins the queue can be served: unless a sync has failed, every run goes on to a state where the queue is
      empty and all that were in it, and the one that joined it, were told OK. */
  lemma WriteIsServed(states: seq<State>, steps: seq<Label>, w: Writer) returns (more: seq<State>, next: seq<Label>)
    requires IsRun(states, steps) && !states[|states| - 1].failing
    ensures GoesOn(states, steps, more, next)
    ensures var s, s' := states[|states| - 1], (states + more)[|states + more| - 1];
            && s'.writers == s.writers + [w] && s'.popped == |s'.writers| == |s'.outcomes|
            && forall k :: s.popped <= k < s'.popped ==> s'.outcomes[k] == OK
  {
    hide Inv;
    var s := states[|states| - 1];
    RunKeepsInv(states, steps, |states| - 1);
    var s' := s.(writers := s.writers + [w]);
    StepKeepsInv(s, s', Enqueue(w));
    OneStepOn(states, steps, s', Enqueue(w));
    var more', next' := AllServed(states + [s'], steps + [Enqueue(w)]);
    more, next := [s'] + more', [Enqueue(w)] + next';
    assert states + [s'] + more' == states + more && steps + [Enqueue(w)] + next' == steps + next;
  }
}
