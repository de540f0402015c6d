/**
 The skip list under concurrent readers.  An insertion is a series of single stores, a search is a
 series of single loads, and any number of searches run between the stores of one inserter.
*/
module SkipList {
  import opened Format

  const MAX_HEIGHT: nat := 12

  /** The arena: nodes are numbered in order of allocation, and node 0 is the head.  A node's links are as many as
      it is high. */
  datatype Memory = Memory(keys: seq<InternalKey>, next: seq<seq<Option<nat>>>, maxHeight: nat)

  /** How far an insertion of node `x` has come: it is linked at the levels below `level`; `own` says that its own
      link at `level` is set already. */
  datatype Inserter = Idle | Inserting(x: nat, prev: seq<nat>, level: nat, own: bool)

  /** A search for the place of `target`, or for the end of the list: it is on node `x`, at `level`.  Once done, `next`
      is the node it found after `x`.  `start` are the nodes that were in the list when it began. */
  datatype Search = Search(target: Option<InternalKey>, x: nat, level: nat, done: bool, next: Option<nat>,
                           start: set<nat>)

  datatype State = State(mem: Memory, lists: seq<seq<nat>>, inserter: Inserter, searches: seq<Search>)

  // ----- what the memory stands for -----

  /** The nodes of a level, from the head on. */
  function Chain(list: seq<nat>): seq<nat> {
    [0] + list
  }

  predicate IsNode(mem: Memory, n: nat) {
    n < |mem.keys| && n < |mem.next|
  }

  predicate HasLevel(mem: Memory, n: nat, level: nat) {
    IsNode(mem, n) && level < |mem.next[n]|
  }

  /** Following the links of a level gives its list. */
  ghost predicate Linked(mem: Memory, list: seq<nat>, level: nat) {
    forall j :: 0 <= j <= |list| ==>
      && HasLevel(mem, Chain(list)[j], level)
      && mem.next[Chain(list)[j]][level] == if j < |list| then Some(list[j]) else None
  }

  ghost predicate InOrder(mem: Memory, list: seq<nat>) {
    && (forall j :: 0 <= j < |list| ==> 0 < list[j] < |mem.keys|)
    && forall j, k :: 0 <= j < k < |list| ==> Before(mem.keys[list[j]], mem.keys[list[k]])
  }

  ghost predicate LevelOk(mem: Memory, list: seq<nat>, level: nat) {
    Linked(mem, list, level) && InOrder(mem, list)
  }

  ghost predicate Within(list: seq<nat>, below: seq<nat>) {
    forall n :: n in list ==> n in below
  }

  ghost predicate MemoryOk(mem: Memory, lists: seq<seq<nat>>) {
    && |lists| == MAX_HEIGHT && |mem.keys| == |mem.next| && 1 <= mem.maxHeight <= MAX_HEIGHT
    && (forall l :: 0 <= l < MAX_HEIGHT ==> LevelOk(mem, lists[l], l))
    && (forall l :: 0 <= l < MAX_HEIGHT - 1 ==> Within(lists[l + 1], lists[l]))
    && (forall l :: mem.maxHeight <= l < MAX_HEIGHT ==> lists[l] == [])
  }

  /** Node `p` is the head, or a node of the list before `key`; the nodes after it are not before `key`. */
  ghost predicate IsPrev(mem: Memory, list: seq<nat>, p: nat, key: InternalKey)
    requires InOrder(mem, list)
  {
    exists j :: 0 <= j <= |list| && Chain(list)[j] == p && Splits(mem, list, j, key)
  }

  /** The first `j` nodes of the list are before `key`, the others are after it. */
  ghost predicate Splits(mem: Memory, list: seq<nat>, j: nat, key: InternalKey)
    requires InOrder(mem, list)
  {
    && j <= |list|
    && (forall k :: 0 <= k < j ==> Before(mem.keys[list[k]], key))
    && (forall k :: j <= k < |list| ==> Before(key, mem.keys[list[k]]))
  }

  /** The node is linked at the levels below `level`, and at no other. */
  ghost predicate LinkedBelow(lists: seq<seq<nat>>, x: nat, level: nat) {
    && (forall l :: 0 <= l < level && l < |lists| ==> x in lists[l])
    && (forall l :: level <= l < |lists| ==> x !in lists[l])
  }

  ghost predicate PrevsOk(mem: Memory, lists: seq<seq<nat>>, prev: seq<nat>, level: nat, key: InternalKey)
    requires MemoryOk(mem, lists) && |prev| <= MAX_HEIGHT
  {
    forall l :: level <= l < |prev| ==> IsPrev(mem, lists[l], prev[l], key)
  }

  ghost predicate InserterOk(mem: Memory, lists: seq<seq<nat>>, w: Inserter)
    requires MemoryOk(mem, lists)
  {
    w.Inserting? ==>
      && IsNode(mem, w.x) && w.x > 0 && w.level < |mem.next[w.x]| <= mem.maxHeight && |w.prev| == |mem.next[w.x]|
      && LinkedBelow(lists, w.x, w.level) && PrevsOk(mem, lists, w.prev, w.level, mem.keys[w.x])
      && (w.own ==> HasLevel(mem, w.prev[w.level], w.level)
                    && mem.next[w.x][w.level] == mem.next[w.prev[w.level]][w.level])
  }

  /** Is `key` before what the search looks for? */
  predicate IsBefore(key: InternalKey, target: Option<InternalKey>) {
    target.Some? ==> Before(key, target.value)
  }

  ghost predicate SearchOk(mem: Memory, lists: seq<seq<nat>>, r: Search)
    requires MemoryOk(mem, lists)
  {
    && r.level < MAX_HEIGHT
    && (r.x == 0 || (r.x in lists[r.level] && r.x < |mem.keys| && IsBefore(mem.keys[r.x], r.target)))
    && (r.done ==> r.level == 0 && (r.next.Some? ==> r.next.value in lists[0]))
    && (forall n :: n in r.start ==> n in lists[0])
  }

  ghost predicate Inv(s: State) {
    && MemoryOk(s.mem, s.lists) && InserterOk(s.mem, s.lists, s.inserter)
    && forall i :: 0 <= i < |s.searches| ==> SearchOk(s.mem, s.lists, s.searches[i])
  }

  // ----- steps -----

  /** A single store. */
  function SetNext(mem: Memory, n: nat, level: nat, v: Option<nat>): Memory
    requires HasLevel(mem, n, level)
  {
    mem.(next := mem.next[n := mem.next[n][level := v]])
  }

  /** The inserter has searched for its key; it raises the height of the list if it must, and makes its node. */
  ghost predicate StartStep(s: State, s': State, key: InternalKey, prev: seq<nat>) {
    && s.inserter.Idle? && MemoryOk(s.mem, s.lists) && 1 <= |prev| <= MAX_HEIGHT
    && (forall l :: 0 <= l < |prev| ==> IsPrev(s.mem, s.lists[l], prev[l], key))
    && s' == s.(mem := Memory(s.mem.keys + [key], s.mem.next + [seq(|prev|, _ => None)],
                              if |prev| > s.mem.maxHeight then |prev| else s.mem.maxHeight),
                inserter := Inserting(|s.mem.keys|, prev, 0, false))
  }

  /** The new node's own link, where no search can see it yet. */
  ghost predicate OwnStep(s: State, s': State) {
    && s.inserter.Inserting? && !s.inserter.own
    && var w := s.inserter;
       && HasLevel(s.mem, w.x, w.level) && w.level < |w.prev| && HasLevel(s.mem, w.prev[w.level], w.level)
       && s' == s.(mem := SetNext(s.mem, w.x, w.level, s.mem.next[w.prev[w.level]][w.level]),
                   inserter := w.(own := true))
  }

  /** The store that links the new node at one more level. */
  ghost predicate PublishStep(s: State, s': State, j: nat) {
    && s.inserter.Inserting? && s.inserter.own
    && var w := s.inserter;
       && w.level < |w.prev| && w.level < |s.lists| && j <= |s.lists[w.level]|
       && Chain(s.lists[w.level])[j] == w.prev[w.level]
       && HasLevel(s.mem, w.prev[w.level], w.level)
       && s' == s.(mem := SetNext(s.mem, w.prev[w.level], w.level, Some(w.x)),
                   lists := s.lists[w.level := InsertAt(s.lists[w.level], j, w.x)],
                   inserter := if w.level + 1 == |w.prev| then Idle else Inserting(w.x, w.prev, w.level + 1, false))
  }

  ghost predicate BeginStep(s: State, s': State, target: Option<InternalKey>) {
    && |s.lists| == MAX_HEIGHT && s.mem.maxHeight >= 1
    && s' == s.(searches := s.searches + [Search(target, 0, s.mem.maxHeight - 1, false, None, ToSet(s.lists[0]))])
  }

  /** KeyIsAfterNode: a null node is after every key. */
  predicate KeyIsAfterNode(mem: Memory, target: Option<InternalKey>, n: Option<nat>) {
    n.Some? && n.value < |mem.keys| && IsBefore(mem.keys[n.value], target)
  }

  /** One load of a search, and what it does next: go on along the level, go down a level, or stop. */
  function Loaded(mem: Memory, r: Search): Search
    requires HasLevel(mem, r.x, r.level)
  {
    var next := mem.next[r.x][r.level];
    if KeyIsAfterNode(mem, r.target, next) then r.(x := next.value)
    else if r.level == 0 then r.(done := true, next := next)
    else r.(level := r.level - 1)
  }

  ghost predicate LoadStep(s: State, s': State, i: nat) {
    && i < |s.searches| && !s.searches[i].done && HasLevel(s.mem, s.searches[i].x, s.searches[i].level)
    && s' == s.(searches := s.searches[i := Loaded(s.mem, s.searches[i])])
  }

  /** Iterator::Next, on a search that has found a node. */
  ghost predicate AdvanceStep(s: State, s': State, i: nat) {
    && i < |s.searches| && s.searches[i].done && s.searches[i].next.Some?
    && HasLevel(s.mem, s.searches[i].next.value, 0)
    && var r := s.searches[i];
       s' == s.(searches := s.searches[i := r.(target := None, x := r.next.value, level := 0,
                                               next := s.mem.next[r.next.value][0])])
  }

  datatype Label = Start(key: InternalKey, prev: seq<nat>) | Own | Publish(j: nat) | Begin(target: Option<InternalKey>)
                 | Load(i: nat) | Advance(i: nat)

  ghost predicate Step(s: State, s': State, step: Label) {
    match step
    case Start(key, prev) => StartStep(s, s', key, prev)
    case Own => OwnStep(s, s')
    case Publish(j) => PublishStep(s, s', j)
    case Begin(target) => BeginStep(s, s', target)
    case Load(i) => LoadStep(s, s', i)
    case Advance(i) => AdvanceStep(s, s', i)
  }

  function Init(): State {
    State(Memory([InternalKey(0.0, 0, Deletion)], [seq(MAX_HEIGHT, _ => None)], 1), seq(MAX_HEIGHT, _ => []), Idle, [])
  }

  // ----- searches -----

  /** A node of the chain of a level has a link there. */
  lemma InChain(mem: Memory, list: seq<nat>, level: nat, n: nat) returns (j: nat)
    requires LevelOk(mem, list, level) && (n == 0 || n in list)
    ensures j <= |list| && Chain(list)[j] == n && HasLevel(mem, n, level)
    ensures mem.next[n][level] == if j < |list| then Some(list[j]) else None
  {
    if n == 0 {
      j := 0;
    } else {
      var k :| 0 <= k < |list| && list[k] == n;
      j := k + 1;
    }
    assert Chain(list)[j] == n;
  }

  /** What a search that is done has found: the place in the bottom list where its target belongs. */
  ghost predicate Found(mem: Memory, list: seq<nat>, r: Search)
    requires InOrder(mem, list)
  {
    exists j :: 0 <= j <= |list| && Chain(list)[j] == r.x && FoundAt(mem, list, r, j)
  }

  ghost predicate FoundAt(mem: Memory, list: seq<nat>, r: Search, j: nat)
    requires InOrder(mem, list)
  {
    && j <= |list| && r.next == (if j < |list| then Some(list[j]) else None)
    && (forall k :: 0 <= k < j ==> IsBefore(mem.keys[list[k]], r.target))
    && (forall k :: j <= k < |list| ==> !IsBefore(mem.keys[list[k]], r.target))
  }

  lemma OrderSplits(mem: Memory, list: seq<nat>, j: nat, target: Option<InternalKey>)
    requires InOrder(mem, list) && j <= |list|
    requires j > 0 ==> IsBefore(mem.keys[list[j - 1]], target)
    requires j < |list| ==> !IsBefore(mem.keys[list[j]], target)
    ensures forall k :: 0 <= k < j ==> IsBefore(mem.keys[list[k]], target)
    ensures forall k :: j <= k < |list| ==> !IsBefore(mem.keys[list[k]], target)
  {
    forall k | 0 <= k < j ensures IsBefore(mem.keys[list[k]], target) {
      assert k == j - 1 || Before(mem.keys[list[k]], mem.keys[list[j - 1]]);
    }
    forall k | j <= k < |list| ensures !IsBefore(mem.keys[list[k]], target) {
      assert k == j || Before(mem.keys[list[j]], mem.keys[list[k]]);
    }
  }

  /** A load keeps a search on its way; the load that ends it has found the place of the target in
      the list of that moment. */
  lemma LoadKeepsSearch(mem: Memory, lists: seq<seq<nat>>, r: Search)
    requires MemoryOk(mem, lists) && SearchOk(mem, lists, r) && !r.done
    ensures HasLevel(mem, r.x, r.level) && SearchOk(mem, lists, Loaded(mem, r))
    ensures Loaded(mem, r).done ==> Found(mem, lists[0], Loaded(mem, r))
  {
    var list := lists[r.level];
    assert LevelOk(mem, list, r.level);
    var j := InChain(mem, list, r.level, r.x);
    var r' := Loaded(mem, r);
    if r'.done {
      OrderSplits(mem, list, j, r.target);
      assert FoundAt(mem, list, r', j);
    } else if r'.level < r.level {
      assert Within(lists[r'.level + 1], lists[r'.level]);
    }
  }

  // ----- insertion -----

  lemma PositionsApart(mem: Memory, list: seq<nat>, i: nat, j: nat)
    requires InOrder(mem, list) && i < j <= |list|
    ensures Chain(list)[i] != Chain(list)[j]
  {
    if i > 0 {
      assert Before(mem.keys[list[i - 1]], mem.keys[list[j - 1]]);
    }
  }

  /** A memory with one more node than another, and the same links otherwise. */
  ghost predicate Extends(mem: Memory, mem': Memory) {
    && mem.keys <= mem'.keys && mem.next <= mem'.next && |mem.keys| == |mem.next| && |mem'.keys| == |mem'.next|
  }

  lemma ExtendKeepsLevel(mem: Memory, mem': Memory, list: seq<nat>, level: nat)
    requires LevelOk(mem, list, level) && Extends(mem, mem')
    ensures LevelOk(mem', list, level)
  {
    forall j | 0 <= j <= |list| ensures HasLevel(mem', Chain(list)[j], level)
                                        && mem'.next[Chain(list)[j]][level] == mem.next[Chain(list)[j]][level]
    {
      assert HasLevel(mem, Chain(list)[j], level);
    }
  }

  lemma ExtendKeepsPrev(mem: Memory, mem': Memory, list: seq<nat>, p: nat, key: InternalKey)
    requires InOrder(mem, list) && InOrder(mem', list) && IsPrev(mem, list, p, key) && Extends(mem, mem')
    ensures IsPrev(mem', list, p, key)
  {
    var j :| 0 <= j <= |list| && Chain(list)[j] == p && Splits(mem, list, j, key);
    assert Splits(mem', list, j, key);
  }

  lemma StartKeepsMemory(s: State, s': State, key: InternalKey, prev: seq<nat>)
    requires StartStep(s, s', key, prev)
    ensures MemoryOk(s'.mem, s.lists) && Extends(s.mem, s'.mem)
    ensures forall l :: 0 <= l < MAX_HEIGHT ==> |s.mem.keys| !in s.lists[l]
  {
    assert Extends(s.mem, s'.mem);
    forall l | 0 <= l < MAX_HEIGHT ensures LevelOk(s'.mem, s.lists[l], l) && |s.mem.keys| !in s.lists[l] {
      ExtendKeepsLevel(s.mem, s'.mem, s.lists[l], l);
    }
  }

  lemma StartKeepsInserter(s: State, s': State, key: InternalKey, prev: seq<nat>)
    requires StartStep(s, s', key, prev)
    ensures MemoryOk(s'.mem, s'.lists) && InserterOk(s'.mem, s'.lists, s'.inserter)
  {
    StartKeepsMemory(s, s', key, prev);
    assert LevelOk(s.mem, s.lists[0], 0) && HasLevel(s.mem, Chain(s.lists[0])[0], 0);
    forall l | 0 <= l < |prev| ensures IsPrev(s'.mem, s.lists[l], prev[l], key) {
      ExtendKeepsPrev(s.mem, s'.mem, s.lists[l], prev[l], key);
    }
  }

  /** A store at `level` in a node that is not in that level's list changes no list. */
  lemma PrivateStoreKeepsLevel(mem: Memory, list: seq<nat>, l: nat, x: nat, level: nat, v: Option<nat>)
    requires LevelOk(mem, list, l) && HasLevel(mem, x, level) && x > 0 && (x !in list || l != level)
    ensures LevelOk(SetNext(mem, x, level, v), list, l)
  {
    var mem' := SetNext(mem, x, level, v);
    forall j | 0 <= j <= |list| ensures HasLevel(mem', Chain(list)[j], l)
                                        && mem'.next[Chain(list)[j]][l] == mem.next[Chain(list)[j]][l]
    {
      assert HasLevel(mem, Chain(list)[j], l);
    }
  }

  lemma OwnKeeps(s: State, s': State)
    requires MemoryOk(s.mem, s.lists) && InserterOk(s.mem, s.lists, s.inserter) && OwnStep(s, s')
    ensures MemoryOk(s'.mem, s'.lists) && InserterOk(s'.mem, s'.lists, s'.inserter)
  {
    var w := s.inserter;
    assert w.prev[w.level] != w.x by {
      assert IsPrev(s.mem, s.lists[w.level], w.prev[w.level], s.mem.keys[w.x]);
    }
    forall l | 0 <= l < MAX_HEIGHT ensures LevelOk(s'.mem, s.lists[l], l) {
      PrivateStoreKeepsLevel(s.mem, s.lists[l], l, w.x, w.level, s.mem.next[w.prev[w.level]][w.level]);
    }
    forall l | w.level <= l < |w.prev| ensures IsPrev(s'.mem, s.lists[l], w.prev[l], s'.mem.keys[w.x]) {
      SameKeysKeepPrev(s.mem, s'.mem, s.lists[l], w.prev[l], s.mem.keys[w.x]);
    }
  }

  lemma SameKeysKeepPrev(mem: Memory, mem': Memory, list: seq<nat>, p: nat, key: InternalKey)
    requires InOrder(mem, list) && mem'.keys == mem.keys && IsPrev(mem, list, p, key)
    ensures InOrder(mem', list) && IsPrev(mem', list, p, key)
  {
    var j :| 0 <= j <= |list| && Chain(list)[j] == p && Splits(mem, list, j, key);
    assert Splits(mem', list, j, key);
  }

  /** One link of the list after the store: up to the new node, at it, and after it. */
  lemma PublishedLink(mem: Memory, list: seq<nat>, level: nat, j: nat, x: nat, k: nat)
    requires Linked(mem, list, level) && InOrder(mem, list) && j <= |list| && HasLevel(mem, x, level) && x > 0
    requires x !in list
    requires HasLevel(mem, Chain(list)[j], level) && mem.next[x][level] == mem.next[Chain(list)[j]][level]
    requires k <= |list| + 1
    ensures var mem', list' := SetNext(mem, Chain(list)[j], level, Some(x)), InsertAt(list, j, x);
            && HasLevel(mem', Chain(list')[k], level)
            && mem'.next[Chain(list')[k]][level] == if k < |list'| then Some(list'[k]) else None
  {
    hide InOrder;
    var list' := InsertAt(list, j, x);
    if k <= j {
      assert Chain(list')[k] == Chain(list)[k] && HasLevel(mem, Chain(list)[k], level);
      if k < j {
        PositionsApart(mem, list, k, j);
      }
    } else if k == j + 1 {
      assert Chain(list')[k] == x && HasLevel(mem, Chain(list)[j], level);
    } else {
      assert Chain(list')[k] == Chain(list)[k - 1] && HasLevel(mem, Chain(list)[k - 1], level);
      PositionsApart(mem, list, j, k - 1);
    }
  }

  lemma InsertedInOrder(mem: Memory, list: seq<nat>, j: nat, x: nat)
    requires InOrder(mem, list) && j <= |list| && 0 < x < |mem.keys| && Splits(mem, list, j, mem.keys[x])
    ensures InOrder(mem, InsertAt(list, j, x))
  {
  }

  /** The store that links the node: its level's list has it in its place. */
  lemma PublishedLevel(mem: Memory, list: seq<nat>, level: nat, j: nat, x: nat)
    requires LevelOk(mem, list, level) && j <= |list| && HasLevel(mem, x, level) && 0 < x && x !in list
    requires Splits(mem, list, j, mem.keys[x]) && HasLevel(mem, Chain(list)[j], level)
    requires mem.next[x][level] == mem.next[Chain(list)[j]][level]
    ensures LevelOk(SetNext(mem, Chain(list)[j], level, Some(x)), InsertAt(list, j, x), level)
  {
    hide Splits;
    var list' := InsertAt(list, j, x);
    forall k | 0 <= k <= |list'|
      ensures var mem' := SetNext(mem, Chain(list)[j], level, Some(x));
              && HasLevel(mem', Chain(list')[k], level)
              && mem'.next[Chain(list')[k]][level] == if k < |list'| then Some(list'[k]) else None
    {
      PublishedLink(mem, list, level, j, x, k);
    }
    InsertedInOrder(mem, list, j, x);
  }

  lemma PublishKeepsOther(mem: Memory, list: seq<nat>, l: nat, p: nat, level: nat, x: nat)
    requires LevelOk(mem, list, l) && HasLevel(mem, p, level) && l != level
    ensures LevelOk(SetNext(mem, p, level, Some(x)), list, l)
  {
    var mem' := SetNext(mem, p, level, Some(x));
    forall j | 0 <= j <= |list| ensures HasLevel(mem', Chain(list)[j], l)
                                        && mem'.next[Chain(list)[j]][l] == mem.next[Chain(list)[j]][l]
    {
      assert HasLevel(mem, Chain(list)[j], l);
    }
  }

  lemma InsertedMembers(list: seq<nat>, j: nat, x: nat, n: nat)
    requires j <= |list|
    ensures n in InsertAt(list, j, x) <==> n in list || n == x
  {
    InsertAtMembers(list, j, x);
    assert n in ToSet(InsertAt(list, j, x)) <==> n in ToSet(list) + {x};
  }

  lemma PublishedWithin(lists: seq<seq<nat>>, level: nat, j: nat, x: nat, l: nat)
    requires level < |lists| && j <= |lists[level]| && l + 1 < |lists|
    requires Within(lists[l + 1], lists[l]) && (level > 0 ==> x in lists[level - 1])
    ensures var lists' := lists[level := InsertAt(lists[level], j, x)]; Within(lists'[l + 1], lists'[l])
  {
    forall n ensures n in InsertAt(lists[level], j, x) <==> n in lists[level] || n == x {
      InsertedMembers(lists[level], j, x, n);
    }
  }

  lemma PublishKeepsMemory(s: State, s': State, j: nat)
    requires MemoryOk(s.mem, s.lists) && InserterOk(s.mem, s.lists, s.inserter) && PublishStep(s, s', j)
    ensures MemoryOk(s'.mem, s'.lists)
  {
    var w := s.inserter;
    var list := s.lists[w.level];
    assert LevelOk(s.mem, list, w.level) && IsPrev(s.mem, list, w.prev[w.level], s.mem.keys[w.x]);
    var i :| 0 <= i <= |list| && Chain(list)[i] == w.prev[w.level] && Splits(s.mem, list, i, s.mem.keys[w.x]);
    if i < j {
      PositionsApart(s.mem, list, i, j);
    } else if j < i {
      PositionsApart(s.mem, list, j, i);
    }
    PublishedLevel(s.mem, list, w.level, j, w.x);
    forall l | 0 <= l < MAX_HEIGHT ensures LevelOk(s'.mem, s'.lists[l], l) {
      if l != w.level {
        PublishKeepsOther(s.mem, s.lists[l], l, w.prev[w.level], w.level, w.x);
      }
    }
    forall l | 0 <= l < MAX_HEIGHT - 1 ensures Within(s'.lists[l + 1], s'.lists[l]) {
      PublishedWithin(s.lists, w.level, j, w.x, l);
    }
  }

  lemma PublishKeepsInserter(s: State, s': State, j: nat)
    requires MemoryOk(s.mem, s.lists) && InserterOk(s.mem, s.lists, s.inserter) && PublishStep(s, s', j)
    requires MemoryOk(s'.mem, s'.lists)
    ensures InserterOk(s'.mem, s'.lists, s'.inserter)
    ensures forall l, n :: 0 <= l < MAX_HEIGHT && n in s.lists[l] ==> n in s'.lists[l]
  {
    var w := s.inserter;
    forall n ensures n in s'.lists[w.level] <==> n in s.lists[w.level] || n == w.x {
      InsertedMembers(s.lists[w.level], j, w.x, n);
    }
    forall l | w.level < l < |w.prev| ensures IsPrev(s'.mem, s'.lists[l], w.prev[l], s'.mem.keys[w.x]) {
      SameKeysKeepPrev(s.mem, s'.mem, s.lists[l], w.prev[l], s.mem.keys[w.x]);
    }
  }

  // ----- every step, every run -----

  /** Searches lose nothing when lists only grow and keys stay. */
  lemma GrownKeepsSearches(s: State, s': State)
    requires Inv(s) && MemoryOk(s'.mem, s'.lists) && s.mem.keys <= s'.mem.keys && s'.searches == s.searches
    requires forall l, n :: 0 <= l < MAX_HEIGHT && n in s.lists[l] ==> n in s'.lists[l]
    ensures forall i :: 0 <= i < |s'.searches| ==> SearchOk(s'.mem, s'.lists, s'.searches[i])
  {
    forall i | 0 <= i < |s.searches| ensures SearchOk(s'.mem, s'.lists, s'.searches[i]) {
      assert SearchOk(s.mem, s.lists, s.searches[i]);
    }
  }

  lemma AdvanceKeeps(mem: Memory, lists: seq<seq<nat>>, r: Search)
    requires MemoryOk(mem, lists) && SearchOk(mem, lists, r) && r.done && r.next.Some?
    ensures HasLevel(mem, r.next.value, 0)
    ensures var r' := r.(target := None, x := r.next.value, level := 0, next := mem.next[r.next.value][0]);
            SearchOk(mem, lists, r')
  {
    assert LevelOk(mem, lists[0], 0);
    var j := InChain(mem, lists[0], 0, r.next.value);
  }

  /** Every store and every load keeps the lists sorted, each within the one below, and every search on its way. */
  lemma StepKeepsInv(s: State, s': State, step: Label)
    requires Inv(s) && Step(s, s', step)
    ensures Inv(s')
    ensures forall l, n :: 0 <= l < MAX_HEIGHT && n in s.lists[l] ==> n in s'.lists[l]
  {
    hide LevelOk, Within;
    match step {
      case Start(key, prev) =>
        StartKeepsInserter(s, s', key, prev);
        GrownKeepsSearches(s, s');
      case Own =>
        OwnKeeps(s, s');
        GrownKeepsSearches(s, s');
      case Publish(j) =>
        PublishKeepsMemory(s, s', j);
        PublishKeepsInserter(s, s', j);
        GrownKeepsSearches(s, s');
      case Begin(target) =>
        assert forall n :: n in ToSet(s.lists[0]) ==> n in s.lists[0];
      case Load(i) =>
        LoadKeepsSearch(s.mem, s.lists, s.searches[i]);
      case Advance(i) =>
        AdvanceKeeps(s.mem, s.lists, s.searches[i]);
    }
  }

  lemma InitHolds()
    ensures Inv(Init())
  {
    forall l | 0 <= l < MAX_HEIGHT ensures LevelOk(Init().mem, Init().lists[l], l) {
    }
  }

  ghost predicate IsRun(states: seq<State>, steps: seq<Label>) {
    && |states| == |steps| + 1 && states[0] == Init()
    && forall i :: 0 <= i < |steps| ==> Step(states[i], states[i + 1], steps[i])
  }

  /** In every state of every run, whatever stores and loads are interleaved. */
  lemma {:induction false} RunKeepsInv(states: seq<State>, steps: seq<Label>, n: nat)
    requires IsRun(states, steps) && n < |states|
    ensures Inv(states[n])
  {
    if n == 0 {
      InitHolds();
    } else {
      RunKeepsInv(states, steps, n - 1);
      assert Step(states[n - 1], states[n - 1 + 1], steps[n - 1]);
      StepKeepsInv(states[n - 1], states[n], steps[n - 1]);
    }
  }

  /** A search that is done has found the first of the nodes not before its target, among those there when it began. */
  lemma FoundCoversStart(mem: Memory, list: seq<nat>, r: Search, n: nat)
    requires InOrder(mem, list) && Found(mem, list, r) && n in list && !IsBefore(mem.keys[n], r.target)
    ensures r.next.Some? && r.next.value in list && !IsBefore(mem.keys[r.next.value], r.target)
    ensures !Before(mem.keys[n], mem.keys[r.next.value])
    ensures r.target == Some(mem.keys[n]) ==> r.next == Some(n)
  {
    var j :| 0 <= j <= |list| && Chain(list)[j] == r.x && FoundAt(mem, list, r, j);
    var k :| 0 <= k < |list| && list[k] == n;
    assert k >= j;
    assert k == j || Before(mem.keys[list[j]], mem.keys[list[k]]);
  }

  /** From its beginning on, a search remembers what was in the list then, and what it looks for. */
  ghost predicate Remembers(s: State, i: nat, target: InternalKey, start: set<nat>) {
    i < |s.searches| && s.searches[i].start == start && (!s.searches[i].done ==> s.searches[i].target == Some(target))
  }

  lemma {:induction false} RunRemembers(states: seq<State>, steps: seq<Label>, b: nat, k: nat, i: nat,
                                        target: InternalKey)
    requires IsRun(states, steps) && b < k < |states| && steps[b] == Begin(Some(target)) && i == |states[b].searches|
    requires |states[b].lists| == MAX_HEIGHT
    ensures Remembers(states[k], i, target, ToSet(states[b].lists[0]))
  {
    assert Step(states[k - 1], states[k - 1 + 1], steps[k - 1]);
    if k - 1 > b {
      RunRemembers(states, steps, b, k - 1, i, target);
    }
  }

  /** In every run, a search for a key that was in the list when the search began finds it: the load that ends the
      search at step `e` yields the node of that key. */
  lemma RunFinds(states: seq<State>, steps: seq<Label>, b: nat, e: nat, i: nat, target: InternalKey, n: nat)
    requires IsRun(states, steps) && b < e < |steps| && steps[b] == Begin(Some(target)) && i == |states[b].searches|
    requires |states[b].lists| == MAX_HEIGHT && n in states[b].lists[0] && n < |states[e].mem.keys|
    requires states[e].mem.keys[n] == target
    requires steps[e] == Load(i) && i < |states[e + 1].searches| && states[e + 1].searches[i].done
    ensures states[e + 1].searches[i].next == Some(n)
  {
    var s, s' := states[e], states[e + 1];
    RunKeepsInv(states, steps, e);
    RunRemembers(states, steps, b, e, i, target);
    assert Step(states[e], states[e + 1], steps[e]);
    LoadKeepsSearch(s.mem, s.lists, s.searches[i]);
    assert n in s.searches[i].start && n in s.lists[0];
    assert LevelOk(s.mem, s.lists[0], 0);
    FoundCoversStart(s.mem, s.lists[0], s'.searches[i], n);
  }

  // ----- the list on its own -----

  /** What is left of a level after node `x`. */
  ghost function Remaining(mem: Memory, list: seq<nat>, level: nat, x: nat): (n: nat)
    requires LevelOk(mem, list, level) && (x == 0 || x in list)
  {
    var j := Position(mem, list, level, x);
    |list| - j
  }

  ghost function Position(mem: Memory, list: seq<nat>, level: nat, x: nat): (j: nat)
    requires LevelOk(mem, list, level) && (x == 0 || x in list)
    ensures j <= |list| && Chain(list)[j] == x
  {
    IsInChain(mem, list, level, x);
    var j :| 0 <= j <= |list| && Chain(list)[j] == x;
    j
  }

  lemma IsInChain(mem: Memory, list: seq<nat>, level: nat, x: nat)
    requires LevelOk(mem, list, level) && (x == 0 || x in list)
    ensures exists j :: 0 <= j <= |list| && Chain(list)[j] == x
  {
    var j := InChain(mem, list, level, x);
  }

  lemma GoesOn(mem: Memory, list: seq<nat>, level: nat, x: nat)
    requires LevelOk(mem, list, level) && (x == 0 || x in list) && HasLevel(mem, x, level) && mem.next[x][level].Some?
    ensures var n := mem.next[x][level].value;
            n in list && Remaining(mem, list, level, n) < Remaining(mem, list, level, x)
  {
    var j := InChain(mem, list, level, x);
    var n := list[j];
    assert Chain(list)[j + 1] == n;
    SamePosition(mem, list, j, Position(mem, list, level, x));
    SamePosition(mem, list, j + 1, Position(mem, list, level, n));
  }

  lemma SamePosition(mem: Memory, list: seq<nat>, i: nat, j: nat)
    requires InOrder(mem, list) && i <= |list| && j <= |list| && Chain(list)[i] == Chain(list)[j]
    ensures i == j
  {
    if i < j {
      PositionsApart(mem, list, i, j);
    } else if j < i {
      PositionsApart(mem, list, j, i);
    }
  }

  /** One turn of the search loop: the search goes on to a later node, or `x` parts the level. */
  lemma SearchStep(mem: Memory, lists: seq<seq<nat>>, target: Option<InternalKey>, x: nat, level: nat)
    requires MemoryOk(mem, lists) && SearchOk(mem, lists, Search(target, x, level, false, None, {}))
    ensures HasLevel(mem, x, level) && LevelOk(mem, lists[level], level) && (x == 0 || x in lists[level])
    ensures var next := mem.next[x][level];
            if KeyIsAfterNode(mem, target, next) then
              && next.Some? && next.value in lists[level]
              && SearchOk(mem, lists, Search(target, next.value, level, false, None, {}))
              && Remaining(mem, lists[level], level, next.value) < Remaining(mem, lists[level], level, x)
            else
              && Parts(mem, lists[level], x, target)
              && (level > 0 ==> SearchOk(mem, lists, Search(target, x, level - 1, false, None, {})))
              && (level == 0 ==> Found(mem, lists[0], Search(target, x, 0, true, next, {})))
  {
    hide Before;
    LoadKeepsSearch(mem, lists, Search(target, x, level, false, None, {}));
    assert LevelOk(mem, lists[level], level);
    if KeyIsAfterNode(mem, target, mem.next[x][level]) {
      GoesOn(mem, lists[level], level, x);
    } else {
      StopsAt(mem, lists[level], level, x, target);
    }
  }

  /** Each level's nodes are among those of the bottom level. */
  lemma {:induction false} InBottom(mem: Memory, lists: seq<seq<nat>>, l: nat, n: nat)
    requires MemoryOk(mem, lists) && l < MAX_HEIGHT && n in lists[l]
    ensures n in lists[0]
  {
    if l > 0 {
      assert Within(lists[(l - 1) + 1], lists[l - 1]);
      InBottom(mem, lists, l - 1, n);
    }
  }

  /** A key that is not in the list is before every node it is not after. */
  lemma NotAfterIsBefore(mem: Memory, lists: seq<seq<nat>>, l: nat, n: nat, key: InternalKey)
    requires MemoryOk(mem, lists) && l < MAX_HEIGHT && n in lists[l] && n < |mem.keys|
    requires key !in KeysOf(mem, lists[0]) && !Before(mem.keys[n], key)
    ensures Before(key, mem.keys[n])
  {
    InBottom(mem, lists, l, n);
    var m :| 0 <= m < |lists[0]| && lists[0][m] == n;
    assert KeysOf(mem, lists[0])[m] == mem.keys[n];
    CompareIsTotalOrder(mem.keys[n], key);
  }

  lemma PartsIsPrev(mem: Memory, lists: seq<seq<nat>>, l: nat, p: nat, key: InternalKey)
    requires MemoryOk(mem, lists) && l < MAX_HEIGHT && key !in KeysOf(mem, lists[0])
    requires InOrder(mem, lists[l]) && Parts(mem, lists[l], p, Some(key))
    ensures IsPrev(mem, lists[l], p, key)
  {
    var list := lists[l];
    hide MemoryOk, Before, KeysOf;
    var j :| 0 <= j <= |list| && Chain(list)[j] == p
             && (forall k :: 0 <= k < j ==> IsBefore(mem.keys[list[k]], Some(key)))
             && (forall k :: j <= k < |list| ==> !IsBefore(mem.keys[list[k]], Some(key)));
    forall k | j <= k < |list| ensures Before(key, mem.keys[list[k]]) {
      assert !IsBefore(mem.keys[list[k]], Some(key));
      assert list[k] in list;
      NotAfterIsBefore(mem, lists, l, list[k], key);
    }
    SplitsHere(mem, list, j, key);
  }

  lemma SplitsHere(mem: Memory, list: seq<nat>, j: nat, key: InternalKey)
    requires InOrder(mem, list) && j <= |list|
    requires forall k :: 0 <= k < j ==> IsBefore(mem.keys[list[k]], Some(key))
    requires forall k :: j <= k < |list| ==> Before(key, mem.keys[list[k]])
    ensures Splits(mem, list, j, key)
  {
    hide Before;
  }

  /** The nodes found for the levels in use, and the head for the levels that are new. */
  lemma PrevsFound(mem: Memory, lists: seq<seq<nat>>, prev: seq<nat>, key: InternalKey)
    requires MemoryOk(mem, lists) && |prev| <= MAX_HEIGHT && key !in KeysOf(mem, lists[0])
    requires forall l :: 0 <= l < |prev| && l < mem.maxHeight ==> Parts(mem, lists[l], prev[l], Some(key))
    requires forall l :: mem.maxHeight <= l < |prev| ==> prev[l] == 0
    ensures forall l :: 0 <= l < |prev| ==> LevelOk(mem, lists[l], l) && IsPrev(mem, lists[l], prev[l], key)
  {
    forall l | 0 <= l < |prev| ensures LevelOk(mem, lists[l], l) && IsPrev(mem, lists[l], prev[l], key) {
      if l < mem.maxHeight {
        PartsIsPrev(mem, lists, l, prev[l], key);
      } else {
        assert Splits(mem, lists[l], 0, key) && Chain(lists[l])[0] == 0;
      }
    }
  }

  lemma KeysInserted(mem: Memory, mem': Memory, list: seq<nat>, j: nat, x: nat, key: InternalKey)
    requires InOrder(mem, list) && mem'.keys == mem.keys + [key] && x == |mem.keys| && j <= |list|
    requires InOrder(mem', InsertAt(list, j, x))
    ensures KeysOf(mem', InsertAt(list, j, x)) == InsertAt(KeysOf(mem, list), j, key)
  {
    forall i | 0 <= i <= |list|
      ensures KeysOf(mem', InsertAt(list, j, x))[i] == InsertAt(KeysOf(mem, list), j, key)[i]
    {
    }
  }

  lemma MemoryFacts(mem: Memory, lists: seq<seq<nat>>)
    requires MemoryOk(mem, lists)
    ensures |lists| == MAX_HEIGHT && |mem.keys| == |mem.next| && 1 <= mem.maxHeight <= MAX_HEIGHT
    ensures forall l :: 0 <= l < MAX_HEIGHT ==> InOrder(mem, lists[l])
  {
    forall l | 0 <= l < MAX_HEIGHT ensures InOrder(mem, lists[l]) {
      assert LevelOk(mem, lists[l], l);
    }
  }

  lemma PrevFacts(s: State)
    requires MemoryOk(s.mem, s.lists) && InserterOk(s.mem, s.lists, s.inserter) && s.inserter.Inserting?
    requires !s.inserter.own
    ensures var w := s.inserter;
            && w.level < |w.prev| && HasLevel(s.mem, w.x, w.level) && HasLevel(s.mem, w.prev[w.level], w.level)
            && |s.lists| == MAX_HEIGHT && w.level < MAX_HEIGHT
  {
    var w := s.inserter;
    var list := s.lists[w.level];
    assert LevelOk(s.mem, list, w.level) && IsPrev(s.mem, list, w.prev[w.level], s.mem.keys[w.x]);
    var k := InChain(s.mem, list, w.level, w.prev[w.level]);
  }

  lemma PrevPosition(s: State) returns (j: nat)
    requires MemoryOk(s.mem, s.lists) && InserterOk(s.mem, s.lists, s.inserter) && s.inserter.Inserting?
    ensures var w := s.inserter;
            && w.level < |w.prev| && w.level < |s.lists| && j <= |s.lists[w.level]|
            && Chain(s.lists[w.level])[j] == w.prev[w.level]
            && InOrder(s.mem, s.lists[w.level]) && Splits(s.mem, s.lists[w.level], j, s.mem.keys[w.x])
  {
    var w := s.inserter;
    var list := s.lists[w.level];
    assert LevelOk(s.mem, list, w.level) && IsPrev(s.mem, list, w.prev[w.level], s.mem.keys[w.x]);
    j :| 0 <= j <= |list| && Chain(list)[j] == w.prev[w.level] && Splits(s.mem, list, j, s.mem.keys[w.x]);
  }

  lemma SameKeysSplit(mem: Memory, mem': Memory, list: seq<nat>, j: nat, key: InternalKey)
    requires InOrder(mem, list) && mem'.keys == mem.keys && Splits(mem, list, j, key)
    ensures InOrder(mem', list) && Splits(mem', list, j, key)
  {
  }

  class SkipList {
    var mem: Memory
    ghost var lists: seq<seq<nat>>

    ghost predicate Valid()
      reads this
    {
      MemoryOk(mem, lists)
    }

    /** The keys in the list, in order. */
    ghost function Keys(): (r: seq<InternalKey>)
      requires Valid()
      reads this
    {
      KeysOf(mem, lists[0])
    }

    constructor ()
      ensures Valid() && Keys() == [] && |mem.keys| == 1
    {
      mem, lists := Init().mem, Init().lists;
      new;
      InitHolds();
    }

    method FindGreaterOrEqual(key: InternalKey) returns (next: Option<nat>, prev: seq<nat>)
      requires Valid()
      ensures |prev| == mem.maxHeight
      ensures forall l :: 0 <= l < mem.maxHeight ==> Parts(mem, lists[l], prev[l], Some(key))
      ensures Found(mem, lists[0], Search(Some(key), prev[0], 0, true, next, {}))
    {
      var x: nat, level: nat := 0, mem.maxHeight - 1;
      prev := seq(mem.maxHeight, _ => 0);
      while true
        invariant level < mem.maxHeight && SearchOk(mem, lists, Search(Some(key), x, level, false, None, {}))
        invariant |prev| == mem.maxHeight
        invariant forall l :: level < l < mem.maxHeight ==> Parts(mem, lists[l], prev[l], Some(key))
        decreases level, Remaining(mem, lists[level], level, x)
      {
        hide MemoryOk, SearchOk, Parts, Found, LevelOk, KeyIsAfterNode, Remaining;
        SearchStep(mem, lists, Some(key), x, level);
        next := mem.next[x][level];
        if KeyIsAfterNode(mem, Some(key), next) {
          x := next.value;
        } else {
          prev := prev[level := x];
          if level == 0 {
            return;
          }
          level := level - 1;
        }
      }
    }

    /** FindLessThan, and without a target FindLast: the last node before it. */
    method FindBefore(target: Option<InternalKey>) returns (x: nat)
      requires Valid()
      ensures Parts(mem, lists[0], x, target)
    {
      x := 0;
      var level: nat := mem.maxHeight - 1;
      while true
        invariant level < mem.maxHeight && SearchOk(mem, lists, Search(target, x, level, false, None, {}))
        decreases level, Remaining(mem, lists[level], level, x)
      {
        hide MemoryOk, SearchOk, Parts, Found, LevelOk, KeyIsAfterNode, Remaining;
        SearchStep(mem, lists, target, x, level);
        var next := mem.next[x][level];
        if !KeyIsAfterNode(mem, target, next) {
          if level == 0 {
            return;
          }
          level := level - 1;
        } else {
          x := next.value;
        }
      }
    }

    method Contains(key: InternalKey) returns (found: bool)
      requires Valid()
      ensures found <==> key in Keys()
    {
      var next, prev := FindGreaterOrEqual(key);
      FoundMember(mem, lists[0], Search(Some(key), prev[0], 0, true, next, {}), key);
      found := next.Some? && CompareAt(next.value, key) == 0;
    }

    function CompareAt(n: nat, key: InternalKey): int
      requires n < |mem.keys|
      reads this
    {
      Compare(mem.keys[n], key)
    }

    /** Link the new node at one level: its own link first, then the link to it. */
    method LinkLevel(x: nat, prev: seq<nat>, i: nat) returns (ghost j: nat)
      requires Valid() && i < |prev| && InserterOk(mem, lists, Inserting(x, prev, i, false))
      modifies this
      ensures Valid() && mem.keys == old(mem.keys)
      ensures j <= |old(lists[i])| && lists == old(lists)[i := InsertAt(old(lists)[i], j, x)]
      ensures i + 1 < |prev| ==> InserterOk(mem, lists, Inserting(x, prev, i + 1, false))
      ensures Splits(mem, old(lists)[i], j, mem.keys[x])
    {
      hide MemoryOk, LinkedBelow, PrevsOk, IsPrev, Splits;
      ghost var a := State(mem, lists, Inserting(x, prev, i, false), []);
      PrevFacts(a);
      mem := SetNext(mem, x, i, mem.next[prev[i]][i]);
      ghost var b := State(mem, lists, Inserting(x, prev, i, true), []);
      OwnKeeps(a, b);
      j := PrevPosition(b);
      mem := SetNext(mem, prev[i], i, Some(x));
      lists := lists[i := InsertAt(lists[i], j, x)];
      ghost var c := State(mem, lists, if i + 1 == |prev| then Idle else Inserting(x, prev, i + 1, false), []);
      PublishKeepsMemory(b, c, j);
      PublishKeepsInserter(b, c, j);
      SameKeysSplit(b.mem, mem, b.lists[i], j, mem.keys[x]);
    }

    /** Raise the list if it must be, and allocate the node. */
    method MakeNode(key: InternalKey, height: nat, found: seq<nat>) returns (x: nat, prev: seq<nat>)
      requires Valid() && key !in Keys() && 1 <= height <= MAX_HEIGHT && |found| == mem.maxHeight
      requires forall l :: 0 <= l < mem.maxHeight ==> Parts(mem, lists[l], found[l], Some(key))
      modifies `mem
      ensures Valid() && x == |old(mem.keys)| && mem.keys == old(mem.keys) + [key] && |prev| == height
      ensures InserterOk(mem, lists, Inserting(x, prev, 0, false))
    {
      hide MemoryOk, Parts;
      MemoryFacts(mem, lists);
      ghost var a := State(mem, lists, Idle, []);
      x := |mem.keys|;
      prev := (found + seq(MAX_HEIGHT, _ => 0))[..height];
      PrevsFound(mem, lists, prev, key);
      if height > mem.maxHeight {
        mem := mem.(maxHeight := height);
      }
      mem := mem.(keys := mem.keys + [key], next := mem.next + [seq(height, _ => None)]);
      ghost var b := State(mem, lists, Inserting(x, prev, 0, false), []);
      StartKeepsInserter(a, b, key, prev);
    }

    /** Find the place, make the node, and link it level by level from the bottom. */
    method Insert(key: InternalKey, height: nat) returns (ghost at: nat)
      requires Valid() && key !in Keys() && 1 <= height <= MAX_HEIGHT
      modifies this
      ensures Valid() && at <= |old(Keys())| && Keys() == InsertAt(old(Keys()), at, key)
      ensures mem.keys == old(mem.keys) + [key] && lists[0] == InsertAt(old(lists[0]), at, |old(mem.keys)|)
    {
      hide MemoryOk, Parts, Found, InOrder, InserterOk, Splits;
      MemoryFacts(mem, lists);
      ghost var mem0, list := mem, lists[0];
      var next, found := FindGreaterOrEqual(key);
      var x, prev := MakeNode(key, height, found);
      MemoryFacts(mem, lists);
      ghost var j0 := LinkLevel(x, prev, 0);
      MemoryFacts(mem, lists);
      var i := 1;
      while i < height
        invariant 1 <= i <= height && Valid() && mem.keys == mem0.keys + [key]
        invariant |lists| == MAX_HEIGHT && lists[0] == InsertAt(list, j0, x)
        invariant i < height ==> InserterOk(mem, lists, Inserting(x, prev, i, false))
      {
        ghost var j := LinkLevel(x, prev, i);
        i := i + 1;
      }
      MemoryFacts(mem, lists);
      KeysInserted(mem0, mem, list, j0, x, key);
      at := j0;
    }
  }

  /** The keys of a list of nodes. */
  ghost function KeysOf(mem: Memory, list: seq<nat>): (r: seq<InternalKey>)
    requires InOrder(mem, list)
    ensures |r| == |list| && forall i :: 0 <= i < |r| ==> r[i] == mem.keys[list[i]]
  {
    seq(|list|, i requires 0 <= i < |list| => mem.keys[list[i]])
  }

  /** Node `p` parts the list: it and those before it are before the target, those after it are not. */
  ghost predicate Parts(mem: Memory, list: seq<nat>, p: nat, target: Option<InternalKey>)
    requires InOrder(mem, list)
  {
    exists j :: 0 <= j <= |list| && Chain(list)[j] == p
                && (forall k :: 0 <= k < j ==> IsBefore(mem.keys[list[k]], target))
                && (forall k :: j <= k < |list| ==> !IsBefore(mem.keys[list[k]], target))
  }

  lemma StopsAt(mem: Memory, list: seq<nat>, level: nat, x: nat, target: Option<InternalKey>)
    requires LevelOk(mem, list, level) && (x == 0 || (x in list && x < |mem.keys| && IsBefore(mem.keys[x], target)))
    requires HasLevel(mem, x, level) && !KeyIsAfterNode(mem, target, mem.next[x][level])
    ensures Parts(mem, list, x, target)
  {
    var j := InChain(mem, list, level, x);
    OrderSplits(mem, list, j, target);
  }

  lemma FoundMember(mem: Memory, list: seq<nat>, r: Search, key: InternalKey)
    requires InOrder(mem, list) && Found(mem, list, r) && r.target == Some(key)
    ensures r.next.Some? ==> r.next.value < |mem.keys|
    ensures key in KeysOf(mem, list) <==> r.next.Some? && Compare(mem.keys[r.next.value], key) == 0
  {
    var j :| 0 <= j <= |list| && Chain(list)[j] == r.x && FoundAt(mem, list, r, j);
    if j < |list| {
      CompareIsTotalOrder(mem.keys[list[j]], key);
      assert KeysOf(mem, list)[j] == mem.keys[list[j]];
    }
    forall k | 0 <= k < |list| && KeysOf(mem, list)[k] == key ensures k == j {
    }
  }
}
