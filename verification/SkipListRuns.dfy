/**
 What is begun in the skip list can be finished, whatever the state it is in: a search by loads alone, an insertion by
 stores alone.
*/
module SkipListRuns {
  import opened Format
  import opened SkipList

  ghost predicate IsPath(states: seq<State>, steps: seq<Label>) {
    && |states| == |steps| + 1
    && forall i :: 0 <= i < |steps| ==> Step(states[i], states[i + 1], steps[i])
  }

  lemma StepFirst(s: State, step: Label, states: seq<State>, steps: seq<Label>)
    requires IsPath(states, steps) && Step(s, states[0], step)
    ensures IsPath([s] + states, [step] + steps)
    ensures |states| == |steps| + 1 && ([s] + states)[|steps| + 1] == states[|steps|]
  {
    hide Step;
    var states', steps' := [s] + states, [step] + steps;
    forall i | 0 <= i < |steps'| ensures Step(states'[i], states'[i + 1], steps'[i]) {
      if i > 0 {
        assert Step(states[i - 1], states[i - 1 + 1], steps[i - 1]);
      }
    }
  }

  lemma NoSteps(s: State)
    ensures IsPath([s], [])
  {
  }

  // ----- searches -----

  /** How far a search is from its end at the level it is on. */
  ghost function ToGo(s: State, i: nat): nat
    requires Inv(s) && i < |s.searches|
  {
    var r := s.searches[i];
    assert LevelOk(s.mem, s.lists[r.level], r.level);
    Remaining(s.mem, s.lists[r.level], r.level, r.x)
  }

  /** A load goes on along the level, or down a level, or ends the search. */
  lemma LoadTaken(s: State, i: nat) returns (s': State)
    requires Inv(s) && i < |s.searches| && !s.searches[i].done
    ensures Inv(s') && Step(s, s', Load(i)) && s' == s.(searches := s'.searches) && |s'.searches| == |s.searches|
    ensures s'.searches[i].target == s.searches[i].target
    ensures s'.searches[i].done ==> Found(s.mem, s.lists[0], s'.searches[i])
    ensures !s'.searches[i].done ==>
              || s'.searches[i].level < s.searches[i].level
              || (s'.searches[i].level == s.searches[i].level && ToGo(s', i) < ToGo(s, i))
  {
    var r := s.searches[i];
    LoadKeepsSearch(s.mem, s.lists, r);
    s' := s.(searches := s.searches[i := Loaded(s.mem, r)]);
    StepKeepsInv(s, s', Load(i));
    var next := s.mem.next[r.x][r.level];
    if KeyIsAfterNode(s.mem, r.target, next) {
      assert LevelOk(s.mem, s.lists[r.level], r.level);
      GoesOn(s.mem, s.lists[r.level], r.level, r.x);
    }
  }

  /** In any state, in the middle of an insertion or not, a search that is under way ends after some loads of its own,
      at the place of its target in the list. */
  lemma {:induction false} SearchFinishes(s: State, i: nat) returns (states: seq<State>, steps: seq<Label>)
    requires Inv(s) && i < |s.searches| && !s.searches[i].done
    ensures IsPath(states, steps) && states[0] == s && forall k :: 0 <= k < |steps| ==> steps[k] == Load(i)
    ensures var s' := states[|steps|];
            && Inv(s') && s' == s.(searches := s'.searches) && |s'.searches| == |s.searches|
            && s'.searches[i].target == s.searches[i].target
            && s'.searches[i].done && Found(s.mem, s.lists[0], s'.searches[i])
    decreases s.searches[i].level, ToGo(s, i)
  {
    var s' := LoadTaken(s, i);
    hide Inv, Step, Found;
    if s'.searches[i].done {
      NoSteps(s');
      StepFirst(s, Load(i), [s'], []);
      states, steps := [s] + [s'], [Load(i)] + [];
    } else {
      var more, moreSteps := SearchFinishes(s', i);
      StepFirst(s, Load(i), more, moreSteps);
      states, steps := [s] + more, [Load(i)] + moreSteps;
    }
  }

  /** A search for a key, or for the end of the list, can begin in any state, and ends at the place of its target. */
  lemma SearchCompletes(s: State, target: Option<InternalKey>) returns (states: seq<State>, steps: seq<Label>)
    requires Inv(s)
    ensures IsPath(states, steps) && states[0] == s && steps != [] && steps[0] == Begin(target)
    ensures var s', i := states[|steps|], |s.searches|;
            && Inv(s') && s' == s.(searches := s'.searches) && |s'.searches| == i + 1
            && s'.searches[i].target == target
            && s'.searches[i].done && Found(s.mem, s.lists[0], s'.searches[i])
  {
    var s1 := s.(searches := s.searches + [Search(target, 0, s.mem.maxHeight - 1, false, None, ToSet(s.lists[0]))]);
    StepKeepsInv(s, s1, Begin(target));
    hide Inv, Step, Found;
    var more, moreSteps := SearchFinishes(s1, |s.searches|);
    StepFirst(s, Begin(target), more, moreSteps);
    states, steps := [s] + more, [Begin(target)] + moreSteps;
  }

  // ----- insertions -----

  /** The two stores that link the new node at one more level. */
  lemma LevelTaken(s: State) returns (s1: State, s2: State, j: nat)
    requires Inv(s) && s.inserter.Inserting? && !s.inserter.own
    ensures Step(s, s1, Own) && Step(s1, s2, Publish(j)) && Inv(s2) && s2.mem.keys == s.mem.keys
    ensures var w := s.inserter;
            && w.level < |w.prev| <= MAX_HEIGHT && |s.lists| == |s2.lists| == MAX_HEIGHT
            && s2.inserter == (if w.level + 1 == |w.prev| then Idle else Inserting(w.x, w.prev, w.level + 1, false))
            && j <= |s.lists[w.level]|
            && s2.lists == s.lists[w.level := InsertAt(s.lists[w.level], j, w.x)]
  {
    var w := s.inserter;
    PrevHasLevel(s);
    s1 := s.(mem := SetNext(s.mem, w.x, w.level, s.mem.next[w.prev[w.level]][w.level]), inserter := w.(own := true));
    StepKeepsInv(s, s1, Own);
    j := PrevPlace(s1);
    PrevHasLevel(s1);
    s2 := s1.(mem := SetNext(s1.mem, w.prev[w.level], w.level, Some(w.x)),
              lists := s1.lists[w.level := InsertAt(s1.lists[w.level], j, w.x)],
              inserter := if w.level + 1 == |w.prev| then Idle else Inserting(w.x, w.prev, w.level + 1, false));
    StepKeepsInv(s1, s2, Publish(j));
  }

  lemma PrevPlace(s: State) returns (j: nat)
    requires Inv(s) && s.inserter.Inserting?
    ensures s.inserter.level < |s.inserter.prev| <= MAX_HEIGHT && |s.lists| == MAX_HEIGHT
    ensures j <= |s.lists[s.inserter.level]|
    ensures Chain(s.lists[s.inserter.level])[j] == s.inserter.prev[s.inserter.level]
  {
    var w := s.inserter;
    assert LevelOk(s.mem, s.lists[w.level], w.level);
    assert IsPrev(s.mem, s.lists[w.level], w.prev[w.level], s.mem.keys[w.x]);
    j :| 0 <= j <= |s.lists[w.level]| && Chain(s.lists[w.level])[j] == w.prev[w.level];
  }

  lemma PrevHasLevel(s: State)
    requires Inv(s) && s.inserter.Inserting?
    ensures s.inserter.level < |s.inserter.prev|
    ensures HasLevel(s.mem, s.inserter.x, s.inserter.level)
    ensures HasLevel(s.mem, s.inserter.prev[s.inserter.level], s.inserter.level)
  {
    var w := s.inserter;
    var j := PrevPlace(s);
    assert LevelOk(s.mem, s.lists[w.level], w.level);
    assert HasLevel(s.mem, Chain(s.lists[w.level])[j], w.level);
  }

  /** An insertion that has begun goes on to its end: the new node is in every list below its height, and in no other
      place has a list changed. */
  lemma {:induction false} StoresFinish(s: State) returns (states: seq<State>, steps: seq<Label>)
    requires Inv(s) && s.inserter.Inserting? && !s.inserter.own
    ensures IsPath(states, steps) && states[0] == s
    ensures var w, s' := s.inserter, states[|steps|];
            && Inv(s') && s'.inserter == Idle && s'.mem.keys == s.mem.keys
            && w.level < |w.prev| <= MAX_HEIGHT && |s.lists| == |s'.lists| == MAX_HEIGHT
            && forall l, n :: 0 <= l < MAX_HEIGHT ==>
                 (n in s'.lists[l] <==> n in s.lists[l] || (w.level <= l < |w.prev| && n == w.x))
    decreases |s.inserter.prev| - s.inserter.level
  {
    var s1, s2, j := LevelTaken(s);
    var w := s.inserter;
    hide Inv, Step, InsertAt, IsPath;
    Inserted(s.lists, w.level, j, w.x, s2.lists);
    if w.level + 1 == |w.prev| {
      NoSteps(s2);
      StepFirst(s1, Publish(j), [s2], []);
      StepFirst(s, Own, [s1] + [s2], [Publish(j)] + []);
      states, steps := [s] + ([s1] + [s2]), [Own] + ([Publish(j)] + []);
    } else {
      var more, moreSteps := StoresFinish(s2);
      StepFirst(s1, Publish(j), more, moreSteps);
      StepFirst(s, Own, [s1] + more, [Publish(j)] + moreSteps);
      states, steps := [s] + ([s1] + more), [Own] + ([Publish(j)] + moreSteps);
    }
  }

  lemma Inserted(lists: seq<seq<nat>>, level: nat, j: nat, x: nat, lists': seq<seq<nat>>)
    requires level < |lists| && j <= |lists[level]| && lists' == lists[level := InsertAt(lists[level], j, x)]
    ensures forall l, n :: 0 <= l < |lists| ==> (n in lists'[l] <==> n in lists[l] || (l == level && n == x))
  {
    forall n ensures n in InsertAt(lists[level], j, x) <==> n in lists[level] || n == x {
      InsertedMembers(lists[level], j, x, n);
    }
  }

  /** Where a key that is not in a list belongs. */
  lemma {:induction false} SplitPoint(mem: Memory, list: seq<nat>, key: InternalKey, n: nat) returns (j: nat)
    requires InOrder(mem, list) && n <= |list|
    requires forall k :: 0 <= k < |list| ==> mem.keys[list[k]] != key
    requires forall k :: n <= k < |list| ==> Before(key, mem.keys[list[k]])
    ensures Splits(mem, list, j, key)
  {
    if n > 0 && Before(key, mem.keys[list[n - 1]]) {
      j := SplitPoint(mem, list, key, n - 1);
    } else {
      j := n;
      if n > 0 {
        CompareIsTotalOrder(mem.keys[list[n - 1]], key);
        forall k | 0 <= k < n ensures Before(mem.keys[list[k]], key) {
          assert k == n - 1 || Before(mem.keys[list[k]], mem.keys[list[n - 1]]);
        }
      }
    }
  }

  lemma {:induction false} Prevs(mem: Memory, lists: seq<seq<nat>>, key: InternalKey, height: nat)
    returns (prev: seq<nat>)
    requires MemoryOk(mem, lists) && height <= MAX_HEIGHT && Absent(mem, lists[0], key)
    ensures |prev| == height && forall l :: 0 <= l < height ==> IsPrev(mem, lists[l], prev[l], key)
  {
    prev := [];
    if height > 0 {
      var l := height - 1;
      prev := Prevs(mem, lists, key, l);
      assert LevelOk(mem, lists[l], l);
      forall k | 0 <= k < |lists[l]| ensures mem.keys[lists[l][k]] != key {
        InBottom(mem, lists, l, lists[l][k]);
        InOrderNodes(mem, lists, lists[l][k]);
      }
      var j := SplitPoint(mem, lists[l], key, |lists[l]|);
      prev := prev + [Chain(lists[l])[j]];
    }
  }

  /** The key is in no node of the bottom list, and so in none of any list. */
  ghost predicate Absent(mem: Memory, list: seq<nat>, key: InternalKey) {
    forall n :: n in list && n < |mem.keys| ==> mem.keys[n] != key
  }

  lemma InOrderNodes(mem: Memory, lists: seq<seq<nat>>, n: nat)
    requires MemoryOk(mem, lists) && n in lists[0]
    ensures n < |mem.keys|
  {
    assert LevelOk(mem, lists[0], 0);
  }

  lemma StartTaken(s: State, key: InternalKey, height: nat) returns (s': State, prev: seq<nat>)
    requires Inv(s) && s.inserter.Idle? && 1 <= height <= MAX_HEIGHT && Absent(s.mem, s.lists[0], key)
    ensures Inv(s') && Step(s, s', Start(key, prev)) && s'.lists == s.lists && s'.mem.keys == s.mem.keys + [key]
    ensures s'.inserter == Inserting(|s.mem.keys|, prev, 0, false) && |prev| == height
  {
    hide LevelOk, Within;
    prev := Prevs(s.mem, s.lists, key, height);
    s' := s.(mem := Memory(s.mem.keys + [key], s.mem.next + [seq(|prev|, _ => None)],
                           if |prev| > s.mem.maxHeight then |prev| else s.mem.maxHeight),
             inserter := Inserting(|s.mem.keys|, prev, 0, false));
    StepKeepsInv(s, s', Start(key, prev));
  }

  /** In any state without an insertion under way, whatever the searches, a key that is not in the list can be inserted,
      with any height up to 12; its node is then in the lists below that height and nothing else has changed. */
  lemma InsertFinishes(s: State, key: InternalKey, height: nat) returns (states: seq<State>, steps: seq<Label>)
    requires Inv(s) && s.inserter.Idle? && 1 <= height <= 12 && Absent(s.mem, s.lists[0], key)
    ensures IsPath(states, steps) && states[0] == s
    ensures var x, s' := |s.mem.keys|, states[|steps|];
            && Inv(s') && s'.inserter == Idle && s'.mem.keys == s.mem.keys + [key]
            && |s.lists| == |s'.lists| == 12
            && forall l, n :: 0 <= l < 12 ==> (n in s'.lists[l] <==> n in s.lists[l] || (l < height && n == x))
  {
    var s1, prev := StartTaken(s, key, height);
    var more, moreSteps := StoresFinish(s1);
    StepFirst(s, Start(key, prev), more, moreSteps);
    hide Inv, Step;
    states, steps := [s] + more, [Start(key, prev)] + moreSteps;
  }

  /** A search that has found a node goes on to the next of the list. */
  lemma AdvanceTaken(s: State, i: nat) returns (s': State)
    requires Inv(s) && i < |s.searches| && s.searches[i].done && s.searches[i].next.Some?
    ensures Inv(s') && Step(s, s', Advance(i)) && |s'.searches| == |s.searches| && |s.lists| > 0
    ensures exists j :: 0 <= j < |s.lists[0]| && s.lists[0][j] == s.searches[i].next.value
              && s'.searches[i].next == if j + 1 < |s.lists[0]| then Some(s.lists[0][j + 1]) else None
  {
    var r := s.searches[i];
    assert LevelOk(s.mem, s.lists[0], 0);
    AdvanceKeeps(s.mem, s.lists, r);
    var j := InChain(s.mem, s.lists[0], 0, r.next.value);
    s' := s.(searches := s.searches[i := r.(target := None, x := r.next.value, level := 0,
                                            next := s.mem.next[r.next.value][0])]);
    StepKeepsInv(s, s', Advance(i));
    assert s.lists[0][j - 1] == r.next.value;
  }
}
