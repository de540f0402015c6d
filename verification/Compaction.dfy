/**
 Running a compaction: the merged input run goes through the drop rule into output tables.
*/
module Compaction {
  import opened Format
  import opened Reads
  import opened DropRule
  import opened Tables
  import opened Ranges
  import opened Lookup

  /** No file two or more levels down from `level` has a key range that contains the user key. */
  predicate IsBase(files: seq<seq<Table>>, level: nat, user: UserKey) {
    forall lvl, f | level + 2 <= lvl < |files| && f in files[lvl] :: !(f.smallest.user <= user <= f.largest.user)
  }

  function BaseOf(files: seq<seq<Table>>, level: nat): UserKey -> bool {
    user => IsBase(files, level, user)
  }

  class Job {
    const level: nat
    const files: seq<seq<Table>>
    const grandparents: seq<Table>
    const grandparentLimit: nat
    const levelPtrs: array<nat>
    var grandparentIndex: nat
    var seenKey: bool
    var overlappedBytes: nat
    /** The greatest user key asked about so far. */
    ghost var floor: Option<UserKey>

    constructor (level: nat, files: seq<seq<Table>>, grandparents: seq<Table>, grandparentLimit: nat)
      requires |files| == NUM_LEVELS
      ensures this.level == level && this.files == files && this.grandparents == grandparents
      ensures this.grandparentLimit == grandparentLimit
      ensures Valid() && floor == None && fresh(levelPtrs)
      ensures grandparentIndex == 0 && !seenKey && overlappedBytes == 0
    {
      this.level, this.files, this.grandparents, this.grandparentLimit := level, files, grandparents, grandparentLimit;
      levelPtrs := new nat[NUM_LEVELS](_ => 0);
      grandparentIndex, seenKey, overlappedBytes, floor := 0, false, 0, None;
    }

    ghost predicate Valid()
      reads this, levelPtrs
    {
      && |files| == NUM_LEVELS && levelPtrs.Length == NUM_LEVELS
      && grandparentIndex <= |grandparents|
      && forall lvl :: level + 2 <= lvl < NUM_LEVELS ==> Passed(files[lvl], levelPtrs[lvl], floor)
    }

    /** The first `n` files end before every key still to be asked about. */
    static ghost predicate Passed(files: seq<Table>, n: nat, floor: Option<UserKey>) {
      && n <= |files|
      && forall i :: 0 <= i < n ==> floor.Some? && files[i].largest.user < floor.value
    }

    /** Compaction::IsBaseLevelForKey: the remembered positions answer as a full scan would. */
    method IsBaseLevelForKey(user: UserKey) returns (isBase: bool)
      requires Valid() && (floor.Some? ==> floor.value <= user)
      requires forall lvl :: level + 2 <= lvl < NUM_LEVELS ==> Ordered(files[lvl])
      modifies `floor, levelPtrs
      ensures Valid() && floor == Some(user)
      ensures isBase == IsBase(files, level, user)
    {
      floor := Some(user);
      var lvl := level + 2;
      while lvl < NUM_LEVELS
        invariant level + 2 <= lvl && Valid() && floor == Some(user)
        invariant forall l, f | level + 2 <= l < lvl && l < NUM_LEVELS && f in files[l] ::
                    !(f.smallest.user <= user <= f.largest.user)
      {
        isBase := ScanLevel(lvl, user);
        if !isBase {
          return;
        }
        lvl := lvl + 1;
      }
      return true;
    }

    /** Advance past the files of one level that end before the key; is the key outside every range? */
    method ScanLevel(lvl: nat, user: UserKey) returns (outside: bool)
      requires Valid() && floor == Some(user) && level + 2 <= lvl < NUM_LEVELS && Ordered(files[lvl])
      modifies levelPtrs
      ensures Valid()
      ensures outside <==> forall f :: f in files[lvl] ==> !(f.smallest.user <= user <= f.largest.user)
    {
      while levelPtrs[lvl] < |files[lvl]|
        invariant Valid()
        decreases |files[lvl]| - levelPtrs[lvl]
      {
        var f := files[lvl][levelPtrs[lvl]];
        if user <= f.largest.user {
          if user >= f.smallest.user {
            return false;
          }
          break;
        }
        levelPtrs[lvl] := levelPtrs[lvl] + 1;
      }
      ghost var n := levelPtrs[lvl];
      forall i | 0 <= i < |files[lvl]| ensures !(files[lvl][i].smallest.user <= user <= files[lvl][i].largest.user) {
        assert i > n ==> Before(files[lvl][n].largest, files[lvl][i].smallest);
      }
      return true;
    }

    /** Compaction::ShouldStopBefore: start a new output once the current one overlaps too many bytes of the
        level after next. */
    method ShouldStopBefore(key: InternalKey) returns (stop: bool)
      requires Valid()
      modifies `grandparentIndex, `seenKey, `overlappedBytes
      ensures Valid() && seenKey
      ensures old(grandparentIndex) <= grandparentIndex
      ensures forall i :: old(grandparentIndex) <= i < grandparentIndex ==> Before(grandparents[i].largest, key)
      ensures grandparentIndex < |grandparents| ==> !Before(grandparents[grandparentIndex].largest, key)
      ensures var passed :=
                old(overlappedBytes)
                + (if old(seenKey) then SizeBetween(grandparents, old(grandparentIndex), grandparentIndex) else 0);
              stop == (passed > grandparentLimit) && overlappedBytes == if stop then 0 else passed
    {
      while grandparentIndex < |grandparents| && Before(grandparents[grandparentIndex].largest, key)
        invariant Valid() && old(grandparentIndex) <= grandparentIndex && seenKey == old(seenKey)
        invariant forall i :: old(grandparentIndex) <= i < grandparentIndex ==> Before(grandparents[i].largest, key)
        invariant overlappedBytes
                  == old(overlappedBytes)
                     + (if seenKey then SizeBetween(grandparents, old(grandparentIndex), grandparentIndex) else 0)
      {
        if seenKey {
          overlappedBytes := overlappedBytes + grandparents[grandparentIndex].size;
        }
        grandparentIndex := grandparentIndex + 1;
      }
      seenKey := true;
      if overlappedBytes > grandparentLimit {
        overlappedBytes := 0;
        return true;
      }
      return false;
    }

    /** Nothing has been asked of ShouldStopBefore yet. */
    ghost predicate Unused()
      reads this
    {
      grandparentIndex == 0 && overlappedBytes == 0 && (!seenKey || grandparents == [])
    }

    lemma EmptyIsUnused()
      requires Valid()
      ensures grandparents == [] && overlappedBytes == 0 ==> Unused()
    {
    }
  }

  /** Total size of the files from index `i` up to `j`. */
  function SizeBetween(files: seq<Table>, i: nat, j: nat): nat
    requires i <= j <= |files|
    decreases j
  {
    if i == j then 0 else SizeBetween(files, i, j - 1) + files[j - 1].size
  }

  // ----- where a compaction stops -----

  /** Total size of the leading files that end before the key. */
  function PassedBytes(files: seq<Table>, key: InternalKey): nat {
    if files == [] || !Before(files[0].largest, key) then 0 else files[0].size + PassedBytes(files[1..], key)
  }

  /** The last of the first `i` input keys that were due for a stop, or the first key of all. */
  ghost function LastDue(grandparents: seq<Table>, limit: nat, input: seq<Entry>, i: nat): (r: nat)
    requires i <= |input|
    ensures r == 0 || r < i
    decreases i, 0
  {
    if i == 0 then 0 else if Due(grandparents, limit, input, i - 1) then i - 1
    else LastDue(grandparents, limit, input, i - 1)
  }

  /** At the input key `i`, the grandparent files passed since the last stop come to more than the limit. */
  ghost predicate Due(grandparents: seq<Table>, limit: nat, input: seq<Entry>, i: nat)
    requires i < |input|
    decreases i, 1
  {
    PassedBytes(grandparents, input[i].key)
    > PassedBytes(grandparents, input[LastDue(grandparents, limit, input, i)].key) + limit
  }

  ghost function DueKeys(grandparents: seq<Table>, limit: nat, input: seq<Entry>, i: nat): set<InternalKey>
    requires i <= |input|
  {
    set k | 0 <= k < i && Due(grandparents, limit, input, k) :: input[k].key
  }

  lemma {:induction false} SizeHead(files: seq<Table>, n: nat)
    requires 0 < n <= |files|
    ensures SizeBetween(files, 0, n) == files[0].size + SizeBetween(files[1..], 0, n - 1)
  {
    if n > 1 {
      SizeHead(files, n - 1);
    }
  }

  lemma {:induction false} SizeSplit(files: seq<Table>, i: nat, j: nat)
    requires i <= j <= |files|
    ensures SizeBetween(files, 0, j) == SizeBetween(files, 0, i) + SizeBetween(files, i, j)
  {
    if i < j {
      SizeSplit(files, i, j - 1);
    }
  }

  lemma {:induction false} PassedIs(files: seq<Table>, key: InternalKey, n: nat)
    requires n <= |files| && (forall i :: 0 <= i < n ==> Before(files[i].largest, key))
    requires n < |files| ==> !Before(files[n].largest, key)
    ensures PassedBytes(files, key) == SizeBetween(files, 0, n)
  {
    if n > 0 {
      SizeHead(files, n);
      PassedIs(files[1..], key, n - 1);
    }
  }

  /** What ShouldStopBefore remembers after the first `i` input keys. */
  ghost predicate Watched(grandparents: seq<Table>, limit: nat, input: seq<Entry>, i: nat, index: nat, seen: bool,
                          overlapped: nat)
    requires i <= |input|
  {
    && index <= |grandparents| && (grandparents != [] ==> seen == (i > 0))
    && (i == 0 ==> index == 0 && overlapped == 0)
    && (i > 0 ==>
          && (forall j :: 0 <= j < index ==> Before(grandparents[j].largest, input[i - 1].key))
          && PassedBytes(grandparents, input[i - 1].key) == SizeBetween(grandparents, 0, index)
          && SizeBetween(grandparents, 0, index)
             == PassedBytes(grandparents, input[LastDue(grandparents, limit, input, i)].key) + overlapped)
  }

  /** ShouldStopBefore answers that a stop is due exactly when it is. */
  lemma WatchNext(grandparents: seq<Table>, limit: nat, input: seq<Entry>, i: nat, index: nat, seen: bool,
                  overlapped: nat, index': nat, overlapped': nat, stop: bool)
    requires Sorted(input) && i < |input| && Watched(grandparents, limit, input, i, index, seen, overlapped)
    requires index <= index' <= |grandparents|
    requires forall j :: index <= j < index' ==> Before(grandparents[j].largest, input[i].key)
    requires index' < |grandparents| ==> !Before(grandparents[index'].largest, input[i].key)
    requires var passed := overlapped + if seen then SizeBetween(grandparents, index, index') else 0;
             stop == (passed > limit) && overlapped' == if stop then 0 else passed
    ensures stop == Due(grandparents, limit, input, i)
    ensures Watched(grandparents, limit, input, i + 1, index', true, overlapped')
  {
    forall j | 0 <= j < index' ensures Before(grandparents[j].largest, input[i].key) {
      assert i > 0 ==> Before(input[i - 1].key, input[i].key);
    }
    PassedIs(grandparents, input[i].key, index');
    SizeSplit(grandparents, index, index');
  }

  /** With no grandparent files nothing is ever due. */
  lemma NeverDue(limit: nat, input: seq<Entry>, i: nat)
    requires i < |input|
    ensures !Due([], limit, input, i)
  {
  }

  // ----- outputs -----

  function Flat(tables: seq<Table>): seq<Entry> {
    if tables == [] then [] else Flat(tables[..|tables| - 1]) + tables[|tables| - 1].entries
  }

  lemma {:induction false} FlatMembers(tables: seq<Table>)
    ensures ToSet(Flat(tables)) == EntriesOf(ToSet(tables))
  {
    if tables != [] {
      var n := |tables| - 1;
      FlatMembers(tables[..n]);
      ToSetConcat(Flat(tables[..n]), tables[n].entries);
      ToSetTake(tables, n);
      assert tables[..n + 1] == tables;
    }
  }

  /** The table records the first and last of its entries. */
  predicate Bounded(t: Table) {
    && t.entries != []
    && t.smallest == t.entries[0].key
    && t.largest == t.entries[|t.entries| - 1].key
  }

  lemma {:induction false} EarlierBeforeLater(tables: seq<Table>, i: nat, j: nat)
    requires Sorted(Flat(tables)) && i < j < |tables| && Bounded(tables[i]) && Bounded(tables[j])
    ensures Before(tables[i].largest, tables[j].smallest)
    decreases |tables|
  {
    var n := |tables| - 1;
    var before, all := Flat(tables[..n]), Flat(tables);
    assert forall k :: 0 <= k < |before| ==> all[k] == before[k];
    if j < n {
      EarlierBeforeLater(tables[..n], i, j);
    } else {
      var e := tables[i].entries[|tables[i].entries| - 1];
      FlatMembers(tables[..n]);
      assert tables[..n][i] in ToSet(tables[..n]) && e in tables[i].entries;
      assert e in ToSet(before);
      var k :| 0 <= k < |before| && before[k] == e;
      assert all[|before|] == tables[n].entries[0];
      assert Before(all[k].key, all[|before|].key);
    }
  }

  lemma {:induction false} PieceSorted(tables: seq<Table>, i: nat)
    requires Sorted(Flat(tables)) && i < |tables|
    ensures Ascending(tables[i].entries)
    decreases |tables|
  {
    var n := |tables| - 1;
    if i < n {
      assert forall k :: 0 <= k < |Flat(tables[..n])| ==> Flat(tables)[k] == Flat(tables[..n])[k];
      PieceSorted(tables[..n], i);
    } else {
      TailSorted(Flat(tables[..n]), tables[n].entries);
      AscendingIsSorted(tables[n].entries);
    }
  }

  /** Consecutive pieces of a sorted run are an ordered level of filled tables. */
  lemma PiecesOrdered(tables: seq<Table>)
    requires Sorted(Flat(tables)) && forall i :: 0 <= i < |tables| ==> Bounded(tables[i])
    ensures Ordered(tables) && AllFilled(ToSet(tables))
  {
    forall i, j | 0 <= i < j < |tables| ensures Before(tables[i].largest, tables[j].smallest) {
      EarlierBeforeLater(tables, i, j);
    }
    forall f | f in ToSet(tables) ensures Filled(f) {
      var i :| 0 <= i < |tables| && tables[i] == f;
      PieceSorted(tables, i);
    }
  }

  /** The table made of a builder's entries. */
  function Built(number: nat, entries: seq<Entry>, bytes: seq<Entry> -> nat): File
    requires entries != []
  {
    File(number, bytes(entries), entries[0].key, entries[|entries| - 1].key, entries)
  }

  ghost predicate GoodOutputs(tables: seq<Table>, firstNumber: nat, bytes: seq<Entry> -> nat) {
    forall i :: 0 <= i < |tables| ==>
      tables[i].entries != [] && tables[i] == Built(firstNumber + i, tables[i].entries, bytes)
  }

  lemma GoodNumbers(tables: seq<Table>, firstNumber: nat, bytes: seq<Entry> -> nat)
    requires GoodOutputs(tables, firstNumber, bytes)
    ensures forall j :: 0 <= j < |tables| ==>
              tables[j].number == firstNumber + j && tables[j].size == bytes(tables[j].entries)
  {
  }

  lemma BuilderIsTable(entries: seq<Entry>, number: nat, bytes: seq<Entry> -> nat)
    requires Sorted(entries) && entries != []
    ensures var f := Built(number, entries, bytes); !Before(f.largest, f.smallest)
  {
    assert |entries| == 1 || Before(entries[0].key, entries[|entries| - 1].key);
  }

  /** One more table, of the builder's entries. */
  ghost predicate Closed(outputs: seq<Table>, builder: seq<Entry>, all: seq<Table>) {
    |all| == |outputs| + 1 && all[..|outputs|] == outputs && all[|outputs|].entries == builder
  }

  method Finish(outputs: seq<Table>, builder: seq<Entry>, number: nat, ghost first: nat, bytes: seq<Entry> -> nat)
    returns (all: seq<Table>)
    requires builder != [] && Sorted(builder)
    requires GoodOutputs(outputs, first, bytes) && number == first + |outputs|
    ensures GoodOutputs(all, first, bytes) && Closed(outputs, builder, all)
    ensures Flat(all) == Flat(outputs) + builder
  {
    BuilderIsTable(builder, number, bytes);
    all := outputs + [Built(number, builder, bytes)];
    assert all[..|all| - 1] == outputs;
  }

  /** Nothing was added to the output once it was full. */
  ghost predicate ClosedInTime(entries: seq<Entry>, bytes: seq<Entry> -> nat, maxOutputSize: nat) {
    forall n :: 0 < n < |entries| ==> bytes(entries[..n]) < maxOutputSize
  }

  ghost predicate AllInTime(outputs: seq<Table>, bytes: seq<Entry> -> nat, maxOutputSize: nat) {
    forall i :: 0 <= i < |outputs| ==> ClosedInTime(outputs[i].entries, bytes, maxOutputSize)
  }

  /** The first `n` outputs were closed because they were full. */
  ghost predicate FullOnes(outputs: seq<Table>, n: int, bytes: seq<Entry> -> nat, maxOutputSize: nat) {
    forall i :: 0 <= i < n && i < |outputs| ==> bytes(outputs[i].entries) >= maxOutputSize
  }

  /** The open output is not full. */
  ghost predicate Filling(builder: seq<Entry>, bytes: seq<Entry> -> nat, maxOutputSize: nat) {
    builder != [] ==> ClosedInTime(builder, bytes, maxOutputSize) && bytes(builder) < maxOutputSize
  }

  lemma FillsOn(builder: seq<Entry>, e: Entry, bytes: seq<Entry> -> nat, maxOutputSize: nat)
    requires Filling(builder, bytes, maxOutputSize)
    ensures ClosedInTime(builder + [e], bytes, maxOutputSize)
  {
    forall n | 0 < n < |builder + [e]| ensures bytes((builder + [e])[..n]) < maxOutputSize {
      assert (builder + [e])[..n] == if n == |builder| then builder else builder[..n];
    }
  }

  lemma OneMoreInTime(outputs: seq<Table>, builder: seq<Entry>, all: seq<Table>, bytes: seq<Entry> -> nat,
                      maxOutputSize: nat)
    requires AllInTime(outputs, bytes, maxOutputSize) && Closed(outputs, builder, all)
    requires ClosedInTime(builder, bytes, maxOutputSize)
    ensures AllInTime(all, bytes, maxOutputSize)
  {
    assert forall i :: 0 <= i < |outputs| ==> all[i] == outputs[i];
  }

  lemma TailSorted(a: seq<Entry>, b: seq<Entry>)
    requires Sorted(a + b)
    ensures Sorted(b)
  {
    forall i, j | 0 <= i < j < |b| ensures Before(b[i].key, b[j].key) {
      assert (a + b)[|a| + i] == b[i] && (a + b)[|a| + j] == b[j];
    }
  }

  /** Write one more entry, and close the output once it is big enough. */
  method Emit(outputs: seq<Table>, builder: seq<Entry>, e: Entry, ghost first: nat, number: nat,
              bytes: seq<Entry> -> nat, maxOutputSize: nat) returns (outputs': seq<Table>, builder': seq<Entry>)
    requires GoodOutputs(outputs, first, bytes) && number == first + |outputs|
    requires Sorted(Flat(outputs) + builder + [e])
    requires AllInTime(outputs, bytes, maxOutputSize) && Filling(builder, bytes, maxOutputSize)
    ensures GoodOutputs(outputs', first, bytes)
    ensures Flat(outputs') + builder' == Flat(outputs) + builder + [e]
    ensures AllInTime(outputs', bytes, maxOutputSize) && Filling(builder', bytes, maxOutputSize)
    ensures if bytes(builder + [e]) >= maxOutputSize then Closed(outputs, builder + [e], outputs') && builder' == []
            else outputs' == outputs && builder' == builder + [e]
  {
    hide GoodOutputs, Flat, Sorted, AllInTime, ClosedInTime, Closed;
    outputs', builder' := outputs, builder + [e];
    FillsOn(builder, e, bytes, maxOutputSize);
    assert Flat(outputs) + builder + [e] == Flat(outputs) + builder';
    if bytes(builder') >= maxOutputSize {
      TailSorted(Flat(outputs), builder');
      outputs' := Finish(outputs, builder', number, first, bytes);
      OneMoreInTime(outputs, builder', outputs', bytes, maxOutputSize);
      builder' := [];
    }
  }

  /** Close the current output, if one is open. */
  method Close(outputs: seq<Table>, builder: seq<Entry>, ghost first: nat, number: nat, bytes: seq<Entry> -> nat,
               ghost maxOutputSize: nat) returns (outputs': seq<Table>)
    requires GoodOutputs(outputs, first, bytes) && number == first + |outputs|
    requires Sorted(Flat(outputs) + builder)
    requires AllInTime(outputs, bytes, maxOutputSize) && Filling(builder, bytes, maxOutputSize)
    ensures GoodOutputs(outputs', first, bytes)
    ensures Flat(outputs') == Flat(outputs) + builder
    ensures AllInTime(outputs', bytes, maxOutputSize)
    ensures if builder != [] then Closed(outputs, builder, outputs') else outputs' == outputs
  {
    hide GoodOutputs, Sorted, AllInTime, ClosedInTime, Closed;
    outputs' := outputs;
    if builder != [] {
      TailSorted(Flat(outputs), builder);
      outputs' := Finish(outputs, builder, number, first, bytes);
      OneMoreInTime(outputs, builder, outputs', bytes, maxOutputSize);
    }
  }

  // ----- why an output ends -----

  /** The entries go on past the key. */
  ghost predicate Straddles(f: Table, key: InternalKey) {
    Before(f.smallest, key) && !Before(f.largest, key)
  }

  ghost predicate NoneStraddles(outputs: seq<Table>, stops: set<InternalKey>) {
    forall j, key :: 0 <= j < |outputs| && key in stops ==> !Straddles(outputs[j], key)
  }

  /** A stop lies between output `j` and those that follow it. */
  ghost predicate Parted(outputs: seq<Table>, j: nat, stops: set<InternalKey>)
    requires j < |outputs|
  {
    exists key :: key in stops && Before(outputs[j].largest, key)
                  && forall i :: j < i < |outputs| ==> !Before(outputs[i].smallest, key)
  }

  /** Each of the first `n` outputs ended because it was full, or because a stop was due. */
  ghost predicate EndedRightly(outputs: seq<Table>, n: int, stops: set<InternalKey>, bytes: seq<Entry> -> nat,
                               maxOutputSize: nat) {
    forall j :: 0 <= j < n && j < |outputs| ==>
      bytes(outputs[j].entries) >= maxOutputSize || Parted(outputs, j, stops)
  }

  /** The open output began after the last stop. */
  ghost predicate BegunSince(builder: seq<Entry>, stops: set<InternalKey>) {
    builder != [] ==> forall key :: key in stops ==> !Before(builder[0].key, key)
  }

  ghost predicate Cut(outputs: seq<Table>, builder: seq<Entry>, stops: set<InternalKey>, bytes: seq<Entry> -> nat,
                      maxOutputSize: nat) {
    && NoneStraddles(outputs, stops) && EndedRightly(outputs, |outputs|, stops, bytes, maxOutputSize)
    && BegunSince(builder, stops)
  }

  lemma StillParted(outputs: seq<Table>, all: seq<Table>, j: nat, stops: set<InternalKey>, more: set<InternalKey>)
    requires j < |outputs| && |all| == |outputs| + 1 && all[..|outputs|] == outputs
    requires Parted(outputs, j, stops) && forall key :: key in stops ==> !Before(all[|outputs|].smallest, key)
    ensures Parted(all, j, stops + more)
  {
    var key :| key in stops && Before(outputs[j].largest, key)
               && forall i :: j < i < |outputs| ==> !Before(outputs[i].smallest, key);
    forall i | j < i < |all| ensures !Before(all[i].smallest, key) {
      assert i < |outputs| ==> all[i] == outputs[i];
    }
    assert all[j] == outputs[j];
  }

  /** Closing the builder, because it is full or because the next key is a stop. */
  lemma ClosedCut(outputs: seq<Table>, builder: seq<Entry>, all: seq<Table>, stops: set<InternalKey>,
                  bytes: seq<Entry> -> nat, maxOutputSize: nat)
    requires Cut(outputs, builder, stops, bytes, maxOutputSize) && Closed(outputs, builder, all) && builder != []
    requires all[|outputs|].smallest == builder[0].key
    ensures NoneStraddles(all, stops) && EndedRightly(all, |outputs|, stops, bytes, maxOutputSize)
  {
    assert forall j :: 0 <= j < |outputs| ==> all[j] == outputs[j];
    forall j | 0 <= j < |outputs|
      ensures bytes(all[j].entries) >= maxOutputSize || Parted(all, j, stops)
    {
      if Parted(outputs, j, stops) {
        StillParted(outputs, all, j, stops, {});
        assert stops + {} == stops;
      }
    }
  }

  /** A stop after all that has been closed. */
  lemma StopCut(all: seq<Table>, n: nat, stops: set<InternalKey>, key: InternalKey, bytes: seq<Entry> -> nat,
                maxOutputSize: nat)
    requires NoneStraddles(all, stops) && EndedRightly(all, n, stops, bytes, maxOutputSize) && |all| <= n + 1
    requires forall j :: 0 <= j < |all| ==> Before(all[j].largest, key)
    ensures Cut(all, [], stops + {key}, bytes, maxOutputSize)
  {
    forall j | 0 <= j < |all|
      ensures bytes(all[j].entries) >= maxOutputSize || Parted(all, j, stops + {key})
    {
      if j < n && Parted(all, j, stops) {
        var k :| k in stops && Before(all[j].largest, k)
                 && forall i :: j < i < |all| ==> !Before(all[i].smallest, k);
        assert k in stops + {key};
      } else if j >= n {
        assert key in stops + {key} && Before(all[j].largest, key);
      }
    }
  }

  lemma EmitCut(outputs: seq<Table>, builder: seq<Entry>, e: Entry, stops: set<InternalKey>, bytes: seq<Entry> -> nat,
                maxOutputSize: nat)
    requires Cut(outputs, builder, stops, bytes, maxOutputSize)
    requires forall key :: key in stops ==> !Before(e.key, key)
    ensures Cut(outputs, builder + [e], stops, bytes, maxOutputSize)
  {
    hide NoneStraddles, EndedRightly;
  }

  lemma FullCut(all: seq<Table>, n: nat, stops: set<InternalKey>, bytes: seq<Entry> -> nat, maxOutputSize: nat)
    requires NoneStraddles(all, stops) && EndedRightly(all, n, stops, bytes, maxOutputSize) && |all| == n + 1
    requires bytes(all[n].entries) >= maxOutputSize
    ensures Cut(all, [], stops, bytes, maxOutputSize)
  {
    hide NoneStraddles, Parted;
  }

  lemma OutputsAreSurvivors(outputs: seq<Table>, firstNumber: nat, bytes: seq<Entry> -> nat,
                            input: seq<Entry>, smallest: SequenceNumber, base: UserKey -> bool)
    requires Sorted(input) && Unique(ToSet(input)) && GoodOutputs(outputs, firstNumber, bytes)
    requires Flat(outputs) == Kept(input, |input|, smallest, base)
    ensures Ordered(outputs) && AllFilled(ToSet(outputs))
    ensures EntriesOf(ToSet(outputs)) == Survivors(ToSet(input), smallest, base)
  {
    KeptIsSurvivors(input, smallest, base);
    PiecesOrdered(outputs);
    FlatMembers(outputs);
  }

  lemma GoodTable(outputs: seq<Table>, first: nat, bytes: seq<Entry> -> nat, j: nat)
    requires GoodOutputs(outputs, first, bytes) && j < |outputs|
    ensures outputs[j].entries != [] && outputs[j].smallest == outputs[j].entries[0].key
    ensures outputs[j].largest == outputs[j].entries[|outputs[j].entries| - 1].key
    ensures outputs[j].entries[|outputs[j].entries| - 1] in ToSet(Flat(outputs))
  {
    FlatMembers(outputs);
    assert outputs[j] in ToSet(outputs);
  }

  /** All that has been closed ends before a key that all entries so far come before. */
  lemma AllEndBefore(outputs: seq<Table>, first: nat, bytes: seq<Entry> -> nat, key: InternalKey)
    requires GoodOutputs(outputs, first, bytes) && forall x :: x in Flat(outputs) ==> Before(x.key, key)
    ensures forall j :: 0 <= j < |outputs| ==> Before(outputs[j].largest, key)
  {
    hide GoodOutputs, Flat;
    forall j | 0 <= j < |outputs| ensures Before(outputs[j].largest, key) {
      GoodTable(outputs, first, bytes, j);
    }
  }

  /** Close the output before an entry at which a stop is due. */
  method StopIfDue(stop: bool, outputs: seq<Table>, builder: seq<Entry>, ghost key: InternalKey, ghost first: nat,
                   number: nat, bytes: seq<Entry> -> nat, ghost maxOutputSize: nat, ghost stops: set<InternalKey>)
    returns (outputs': seq<Table>, builder': seq<Entry>)
    requires GoodOutputs(outputs, first, bytes) && number == first + |outputs|
    requires Sorted(Flat(outputs) + builder) && forall x :: x in Flat(outputs) + builder ==> Before(x.key, key)
    requires AllInTime(outputs, bytes, maxOutputSize) && Filling(builder, bytes, maxOutputSize)
    ensures GoodOutputs(outputs', first, bytes)
    ensures Flat(outputs') + builder' == Flat(outputs) + builder
    ensures AllInTime(outputs', bytes, maxOutputSize) && Filling(builder', bytes, maxOutputSize)
    ensures Cut(outputs, builder, stops, bytes, maxOutputSize) ==>
              Cut(outputs', builder', if stop then stops + {key} else stops, bytes, maxOutputSize)
  {
    hide GoodOutputs, Flat, Sorted, AllInTime, ClosedInTime, NoneStraddles, EndedRightly;
    outputs', builder' := outputs, builder;
    if stop && builder != [] {
      outputs' := Close(outputs, builder, first, number, bytes, maxOutputSize);
      GoodTable(outputs', first, bytes, |outputs|);
      builder' := [];
    }
    if stop {
      assert Flat(outputs') == Flat(outputs) + builder;
      AllEndBefore(outputs', first, bytes, key);
      if Cut(outputs, builder, stops, bytes, maxOutputSize) {
        if builder != [] {
          ClosedCut(outputs, builder, outputs', stops, bytes, maxOutputSize);
        }
        StopCut(outputs', |outputs|, stops, key, bytes, maxOutputSize);
      }
    }
  }

  /** DBImpl::DoCompactionWork.  `bytes` is the size of the table built so far from given entries, and output
      numbers are drawn from a counter that starts at `firstNumber`. */
  method DoCompactionWork(job: Job, input: seq<Entry>, smallest: SequenceNumber, firstNumber: nat,
                          bytes: seq<Entry> -> nat, maxOutputSize: nat) returns (outputs: seq<Table>)
    requires job.Valid() && job.floor == None
    requires forall lvl :: job.level + 2 <= lvl < NUM_LEVELS ==> Ordered(job.files[lvl])
    requires Sorted(input) && Unique(ToSet(input)) && smallest < MAX_SEQUENCE
    modifies job, job.levelPtrs
    ensures Flat(outputs) == Kept(input, |input|, smallest, BaseOf(job.files, job.level))
    ensures GoodOutputs(outputs, firstNumber, bytes)
    ensures forall j :: 0 <= j < |outputs| ==>
              outputs[j].number == firstNumber + j && outputs[j].size == bytes(outputs[j].entries)
    ensures Ordered(outputs) && AllFilled(ToSet(outputs))
    ensures EntriesOf(ToSet(outputs)) == Survivors(ToSet(input), smallest, BaseOf(job.files, job.level))
    ensures AllInTime(outputs, bytes, maxOutputSize)
    ensures old(job.Unused()) ==>
              EndsExplained(outputs, input, job.grandparents, job.grandparentLimit, bytes, maxOutputSize)
    ensures job.grandparents == [] && old(job.overlappedBytes) == 0 ==>
              FullOnes(outputs, |outputs| - 1, bytes, maxOutputSize)
  {
    NothingWritten(input, smallest, firstNumber, bytes, maxOutputSize, BaseOf(job.files, job.level));
    hide WrittenSoFar, FullOnes, Kept, Sorted, Unique, Ordered, Survivors, Job.Valid, BaseOf, AllFilled, GoodOutputs;
    hide Flat, AllInTime, CutSoFar, EndsExplained;
    ghost var unused := job.Unused();
    ghost var base := BaseOf(job.files, job.level);
    job.EmptyIsUnused();
    StartCut(job.grandparents, job.grandparentLimit, input, job.seenKey, bytes, maxOutputSize);
    outputs := [];
    var builder: seq<Entry> := [];
    var currentUser: Option<UserKey> := None;
    var lastSequenceForKey: SequenceNumber := MAX_SEQUENCE;
    for i := 0 to |input|
      invariant job.Valid() && Remembers(job.floor, input, i, currentUser, lastSequenceForKey)
      invariant WrittenSoFar(input, i, outputs, builder, smallest, firstNumber, bytes, maxOutputSize, base)
      invariant unused ==> CutSoFar(job, input, i, outputs, builder, bytes, maxOutputSize)
    {
      outputs, builder, currentUser, lastSequenceForKey :=
        OneEntry(job, input, i, smallest, currentUser, lastSequenceForKey, outputs, builder, firstNumber, bytes,
                 maxOutputSize);
    }
    WrittenParts(input, |input|, outputs, builder, smallest, firstNumber, bytes, maxOutputSize, base);
    ghost var closed, open := outputs, builder;
    outputs := Close(outputs, builder, firstNumber, firstNumber + |outputs|, bytes, maxOutputSize);
    OutputsAreSurvivors(outputs, firstNumber, bytes, input, smallest, base);
    GoodNumbers(outputs, firstNumber, bytes);
    if unused {
      CutEnds(job, input, closed, open, outputs, firstNumber, bytes, maxOutputSize);
      AllFull(outputs, input, job.grandparents, job.grandparentLimit, bytes, maxOutputSize);
    }
  }

  /** Why an output ends: it is full, or the grandparent files passed since the last stop come to more than the limit
      at an input key between it and the next.  And no output goes on past an input key at which they do. */
  ghost predicate EndsExplained(outputs: seq<Table>, input: seq<Entry>, grandparents: seq<Table>, limit: nat,
                                bytes: seq<Entry> -> nat, maxOutputSize: nat) {
    && (forall j :: 0 <= j < |outputs| - 1 ==>
          || bytes(outputs[j].entries) >= maxOutputSize
          || exists k :: 0 <= k < |input| && Due(grandparents, limit, input, k)
                         && Before(outputs[j].largest, input[k].key) && !Before(outputs[j + 1].smallest, input[k].key))
    && (forall j, k :: 0 <= j < |outputs| && 0 <= k < |input| && Due(grandparents, limit, input, k) ==>
          !Straddles(outputs[j], input[k].key))
  }

  /** The state of the job and of the outputs after `i` entries. */
  ghost predicate CutSoFar(job: Job, input: seq<Entry>, i: nat, outputs: seq<Table>, builder: seq<Entry>,
                           bytes: seq<Entry> -> nat, maxOutputSize: nat)
    requires i <= |input|
    reads job
  {
    && Watched(job.grandparents, job.grandparentLimit, input, i, job.grandparentIndex, job.seenKey, job.overlappedBytes)
    && Cut(outputs, builder, DueKeys(job.grandparents, job.grandparentLimit, input, i), bytes, maxOutputSize)
  }

  lemma StartCut(grandparents: seq<Table>, limit: nat, input: seq<Entry>, seen: bool, bytes: seq<Entry> -> nat,
                 maxOutputSize: nat)
    ensures !seen || grandparents == [] ==> Watched(grandparents, limit, input, 0, 0, seen, 0)
    ensures Cut([], [], DueKeys(grandparents, limit, input, 0), bytes, maxOutputSize)
  {
  }

  /** The last output, if there is one open, ends with the input. */
  lemma CutEnds(job: Job, input: seq<Entry>, closed: seq<Table>, open: seq<Entry>, outputs: seq<Table>, first: nat,
                bytes: seq<Entry> -> nat, maxOutputSize: nat)
    requires CutSoFar(job, input, |input|, closed, open, bytes, maxOutputSize) && GoodOutputs(outputs, first, bytes)
    requires if open != [] then Closed(closed, open, outputs) else outputs == closed
    ensures EndsExplained(outputs, input, job.grandparents, job.grandparentLimit, bytes, maxOutputSize)
  {
    var stops := DueKeys(job.grandparents, job.grandparentLimit, input, |input|);
    if open != [] {
      GoodTable(outputs, first, bytes, |closed|);
      ClosedCut(closed, open, outputs, stops, bytes, maxOutputSize);
    }
    Explained(outputs, input, job.grandparents, job.grandparentLimit, bytes, maxOutputSize);
  }

  lemma Explained(outputs: seq<Table>, input: seq<Entry>, grandparents: seq<Table>, limit: nat,
                  bytes: seq<Entry> -> nat, maxOutputSize: nat)
    requires var stops := DueKeys(grandparents, limit, input, |input|);
             NoneStraddles(outputs, stops) && EndedRightly(outputs, |outputs| - 1, stops, bytes, maxOutputSize)
    ensures EndsExplained(outputs, input, grandparents, limit, bytes, maxOutputSize)
  {
    hide Due, Straddles;
    var stops := DueKeys(grandparents, limit, input, |input|);
    forall j | 0 <= j < |outputs| - 1
      ensures || bytes(outputs[j].entries) >= maxOutputSize
              || exists k :: 0 <= k < |input| && Due(grandparents, limit, input, k)
                             && Before(outputs[j].largest, input[k].key)
                             && !Before(outputs[j + 1].smallest, input[k].key)
    {
      if Parted(outputs, j, stops) {
        var key :| key in stops && Before(outputs[j].largest, key)
                   && forall i :: j < i < |outputs| ==> !Before(outputs[i].smallest, key);
        var k :| 0 <= k < |input| && Due(grandparents, limit, input, k) && input[k].key == key;
        assert !Before(outputs[j + 1].smallest, input[k].key);
      }
    }
    forall j, k | 0 <= j < |outputs| && 0 <= k < |input| && Due(grandparents, limit, input, k)
      ensures !Straddles(outputs[j], input[k].key)
    {
      assert input[k].key in stops;
    }
  }

  lemma AllFull(outputs: seq<Table>, input: seq<Entry>, grandparents: seq<Table>, limit: nat, bytes: seq<Entry> -> nat,
                maxOutputSize: nat)
    requires EndsExplained(outputs, input, grandparents, limit, bytes, maxOutputSize)
    ensures grandparents == [] ==> FullOnes(outputs, |outputs| - 1, bytes, maxOutputSize)
  {
    if grandparents == [] {
      forall k | 0 <= k < |input| ensures !Due(grandparents, limit, input, k) {
        NeverDue(limit, input, k);
      }
    }
  }

  /** What is in the outputs, closed and open, after `i` entries. */
  ghost predicate WrittenSoFar(input: seq<Entry>, i: nat, outputs: seq<Table>, builder: seq<Entry>,
                               smallest: SequenceNumber, first: nat, bytes: seq<Entry> -> nat, maxOutputSize: nat,
                               base: UserKey -> bool)
    requires i <= |input|
  {
    && GoodOutputs(outputs, first, bytes) && Flat(outputs) + builder == Kept(input, i, smallest, base)
    && AllInTime(outputs, bytes, maxOutputSize) && Filling(builder, bytes, maxOutputSize)
  }

  lemma WrittenParts(input: seq<Entry>, i: nat, outputs: seq<Table>, builder: seq<Entry>, smallest: SequenceNumber,
                     first: nat, bytes: seq<Entry> -> nat, maxOutputSize: nat, base: UserKey -> bool)
    requires Sorted(input) && i <= |input|
    requires WrittenSoFar(input, i, outputs, builder, smallest, first, bytes, maxOutputSize, base)
    ensures GoodOutputs(outputs, first, bytes) && Flat(outputs) + builder == Kept(input, i, smallest, base)
    ensures AllInTime(outputs, bytes, maxOutputSize) && Filling(builder, bytes, maxOutputSize)
    ensures Sorted(Flat(outputs) + builder)
  {
    KeptSorted(input, i, smallest, base);
  }

  /** What the loop knows of the entry before `i`. */
  ghost predicate Remembers(floor: Option<UserKey>, input: seq<Entry>, i: nat, currentUser: Option<UserKey>,
                            lastSequenceForKey: SequenceNumber)
    requires i <= |input|
  {
    && (floor.Some? ==> i > 0 && floor.value <= input[i - 1].key.user)
    && currentUser == (if i == 0 then None else Some(input[i - 1].key.user))
    && (i > 0 ==> lastSequenceForKey == input[i - 1].key.sequence)
  }

  /** Ask whether a stop is due at the entry, and close the output if it is. */
  method StopBefore(job: Job, input: seq<Entry>, i: nat, outputs: seq<Table>, builder: seq<Entry>, ghost first: nat,
                    number: nat, bytes: seq<Entry> -> nat, ghost maxOutputSize: nat)
    returns (outputs': seq<Table>, builder': seq<Entry>)
    requires job.Valid() && i < |input| && Sorted(input)
    requires GoodOutputs(outputs, first, bytes) && number == first + |outputs|
    requires Sorted(Flat(outputs) + builder) && forall x :: x in Flat(outputs) + builder ==> Before(x.key, input[i].key)
    requires AllInTime(outputs, bytes, maxOutputSize) && Filling(builder, bytes, maxOutputSize)
    modifies job`grandparentIndex, job`seenKey, job`overlappedBytes
    ensures job.Valid() && GoodOutputs(outputs', first, bytes)
    ensures Flat(outputs') + builder' == Flat(outputs) + builder
    ensures AllInTime(outputs', bytes, maxOutputSize) && Filling(builder', bytes, maxOutputSize)
    ensures old(CutSoFar(job, input, i, outputs, builder, bytes, maxOutputSize)) ==>
              CutSoFar(job, input, i + 1, outputs', builder', bytes, maxOutputSize)
  {
    hide GoodOutputs, AllInTime, Flat, ClosedInTime, Filling, Sorted, Job.Valid, Cut, Due, DueKeys, Watched;
    ghost var gp, limit := job.grandparents, job.grandparentLimit;
    ghost var index, seen, overlapped := job.grandparentIndex, job.seenKey, job.overlappedBytes;
    var stop := job.ShouldStopBefore(input[i].key);
    ghost var stops := DueKeys(gp, limit, input, i);
    outputs', builder' := StopIfDue(stop, outputs, builder, input[i].key, first, number, bytes, maxOutputSize, stops);
    if Watched(gp, limit, input, i, index, seen, overlapped) {
      IndexInRange(job);
      WatchNext(gp, limit, input, i, index, seen, overlapped, job.grandparentIndex, job.overlappedBytes, stop);
      DueNext(gp, limit, input, i);
      assert stops + {} == stops;
    }
  }

  lemma IndexInRange(job: Job)
    requires job.Valid()
    ensures job.grandparentIndex <= |job.grandparents|
  {
  }

  /** The body of the loop. */
  method OneEntry(job: Job, input: seq<Entry>, i: nat, smallest: SequenceNumber, currentUser: Option<UserKey>,
                  lastSequenceForKey: SequenceNumber, outputs: seq<Table>, builder: seq<Entry>, firstNumber: nat,
                  bytes: seq<Entry> -> nat, maxOutputSize: nat)
    returns (outputs': seq<Table>, builder': seq<Entry>, currentUser': Option<UserKey>,
             lastSequenceForKey': SequenceNumber)
    requires job.Valid() && i < |input| && Sorted(input) && smallest < MAX_SEQUENCE
    requires forall lvl :: job.level + 2 <= lvl < NUM_LEVELS ==> Ordered(job.files[lvl])
    requires Remembers(job.floor, input, i, currentUser, lastSequenceForKey)
    requires WrittenSoFar(input, i, outputs, builder, smallest, firstNumber, bytes, maxOutputSize,
                          BaseOf(job.files, job.level))
    modifies job, job.levelPtrs
    ensures job.Valid() && Remembers(job.floor, input, i + 1, currentUser', lastSequenceForKey')
    ensures WrittenSoFar(input, i + 1, outputs', builder', smallest, firstNumber, bytes, maxOutputSize,
                         BaseOf(job.files, job.level))
    ensures old(CutSoFar(job, input, i, outputs, builder, bytes, maxOutputSize)) ==>
              CutSoFar(job, input, i + 1, outputs', builder', bytes, maxOutputSize)
  {
    ghost var base := BaseOf(job.files, job.level);
    hide GoodOutputs, AllInTime, Flat, Kept, ClosedInTime, Filling, Sorted, Ordered, Job.Valid, DroppedAt, Cut, Due;
    hide BaseOf, DueKeys, Watched, Remembers, CutSoFar, Closed;
    KeptNext(input, i, smallest, base);
    WrittenParts(input, i, outputs, builder, smallest, firstNumber, bytes, maxOutputSize, base);
    KeptBelow(input, i, smallest, base);
    outputs', builder' := StopBefore(job, input, i, outputs, builder, firstNumber, firstNumber + |outputs|, bytes,
                                     maxOutputSize);
    var drop;
    drop, currentUser', lastSequenceForKey' := Decide(job, input, i, input[i].key, smallest, currentUser,
                                                      lastSequenceForKey);
    if !drop {
      ghost var closed, open := outputs', builder';
      outputs', builder' := Emit(outputs', builder', input[i], firstNumber, firstNumber + |outputs'|, bytes,
                                 maxOutputSize);
      DueNext(job.grandparents, job.grandparentLimit, input, i);
      EmittedCut(closed, open, input[i], outputs', builder', firstNumber,
                 DueKeys(job.grandparents, job.grandparentLimit, input, i + 1), bytes, maxOutputSize);
    }
  }

  /** Every entry kept so far comes before the next. */
  lemma {:induction false} KeptBelow(input: seq<Entry>, i: nat, smallest: SequenceNumber, base: UserKey -> bool)
    requires Sorted(input) && i < |input|
    ensures forall x :: x in Kept(input, i, smallest, base) ==> Before(x.key, input[i].key)
  {
    if i > 0 {
      KeptBelow(input, i - 1, smallest, base);
      assert Before(input[i - 1].key, input[i].key);
    }
  }

  lemma DueNext(grandparents: seq<Table>, limit: nat, input: seq<Entry>, i: nat)
    requires Sorted(input) && i < |input|
    ensures DueKeys(grandparents, limit, input, i + 1)
            == DueKeys(grandparents, limit, input, i)
               + if Due(grandparents, limit, input, i) then {input[i].key} else {}
    ensures forall key :: key in DueKeys(grandparents, limit, input, i + 1) ==> !Before(input[i].key, key)
  {
    hide Due;
    forall k | 0 <= k <= i ensures !Before(input[i].key, input[k].key) {
      assert k < i ==> Before(input[k].key, input[i].key);
    }
  }

  lemma EmittedCut(outputs: seq<Table>, builder: seq<Entry>, e: Entry, outputs': seq<Table>, builder': seq<Entry>,
                   first: nat, stops: set<InternalKey>, bytes: seq<Entry> -> nat, maxOutputSize: nat)
    requires GoodOutputs(outputs', first, bytes)
    requires if bytes(builder + [e]) >= maxOutputSize then Closed(outputs, builder + [e], outputs') && builder' == []
             else outputs' == outputs && builder' == builder + [e]
    ensures Cut(outputs, builder, stops, bytes, maxOutputSize)
            && (forall key :: key in stops ==> !Before(e.key, key)) ==>
              Cut(outputs', builder', stops, bytes, maxOutputSize)
  {
    hide Cut, GoodOutputs;
    if Cut(outputs, builder, stops, bytes, maxOutputSize) && (forall key :: key in stops ==> !Before(e.key, key)) {
      EmitCut(outputs, builder, e, stops, bytes, maxOutputSize);
      if bytes(builder + [e]) >= maxOutputSize {
        GoodTable(outputs', first, bytes, |outputs|);
        ClosedCut(outputs, builder + [e], outputs', stops, bytes, maxOutputSize);
        FullCut(outputs', |outputs|, stops, bytes, maxOutputSize);
      }
    }
  }

  lemma NothingWritten(input: seq<Entry>, smallest: SequenceNumber, first: nat, bytes: seq<Entry> -> nat,
                       maxOutputSize: nat,
                       base: UserKey -> bool)
    ensures WrittenSoFar(input, 0, [], [], smallest, first, bytes, maxOutputSize, base)
  {
  }

  lemma KeptNext(input: seq<Entry>, i: nat, smallest: SequenceNumber, base: UserKey -> bool)
    requires Sorted(input) && i < |input|
    ensures Kept(input, i + 1, smallest, base)
            == if DroppedAt(input, i, smallest, base) then Kept(input, i, smallest, base)
               else Kept(input, i, smallest, base) + [input[i]]
    ensures Sorted(Kept(input, i + 1, smallest, base))
  {
    KeptSorted(input, i + 1, smallest, base);
  }

  /** The loop's decision on one entry, from what it remembers of the entry before. */
  method Decide(job: Job, ghost input: seq<Entry>, ghost i: nat, key: InternalKey, smallest: SequenceNumber,
                currentUser: Option<UserKey>, lastSequenceForKey: SequenceNumber)
    returns (drop: bool, currentUser': Option<UserKey>, lastSequenceForKey': SequenceNumber)
    requires job.Valid() && forall lvl :: job.level + 2 <= lvl < NUM_LEVELS ==> Ordered(job.files[lvl])
    requires Sorted(input) && i < |input| && key == input[i].key && smallest < MAX_SEQUENCE
    requires job.floor.Some? ==> i > 0 && job.floor.value <= input[i - 1].key.user
    requires currentUser == if i == 0 then None else Some(input[i - 1].key.user)
    requires i > 0 ==> lastSequenceForKey == input[i - 1].key.sequence
    modifies job`floor, job.levelPtrs
    ensures job.Valid() && (job.floor.Some? ==> job.floor.value <= input[i].key.user)
    ensures currentUser' == Some(input[i].key.user) && lastSequenceForKey' == input[i].key.sequence
    ensures drop == DroppedAt(input, i, smallest, BaseOf(job.files, job.level))
  {
    assert i > 0 ==> Before(input[i - 1].key, key);
    currentUser', lastSequenceForKey' := currentUser, lastSequenceForKey;
    if currentUser == None || currentUser.value != key.user {
      currentUser', lastSequenceForKey' := Some(key.user), MAX_SEQUENCE;
    }
    drop := false;
    if lastSequenceForKey' <= smallest {
      drop := true;
    } else if key.kind == Deletion && key.sequence <= smallest {
      drop := job.IsBaseLevelForKey(key.user);
    }
    lastSequenceForKey' := key.sequence;
  }
}
