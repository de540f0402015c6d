/**
 The memtable: entries encoded into buffers, kept by a skip list in the order of the internal keys inside
 them, and the lookup that decodes the first entry at or after the key it seeks.
*/
module MemTable {
  import opened Format
  import opened Reads
  import opened Coding
  import opened Bytewise
  import L = SkipList

  datatype Row = Row(key: Parsed, value: Bytes)

  /** Lengths are 32-bit numbers. */
  predicate Fits(row: Row) {
    |row.key.user| + 8 < TWO32 && |row.value| < TWO32
  }

  function AsEntry(row: Row): Entry {
    Entry(Abstract(row.key), row.value)
  }

  function EncodeRow(row: Row): Bytes {
    Prefixed(Encoded(row.key)) + Prefixed(row.value)
  }

  /** A lookup key as the memtable takes it. */
  function MemKey(user: Bytes, sequence: SequenceNumber): Bytes {
    Prefixed(Encoded(SeekKey(user, sequence)))
  }

  /** A row in numbers: the internal key and the value, each with its length before it. */
  lemma RowInNumbers(row: Row)
    ensures var tag := 256 * row.key.sequence + match row.key.kind { case Value => 1 case Deletion => 0 };
            EncodeRow(row) == Varint(|row.key.user| + 8) + (row.key.user + (Four(tag) + Four(tag / 0x1_0000_0000)))
                              + (Varint(|row.value|) + row.value)
  {
    EncodedInNumbers(row.key);
  }

  lemma KeyOfRow(row: Row)
    requires Fits(row)
    ensures Unprefixed(EncodeRow(row)) == Some((Encoded(row.key), Prefixed(row.value)))
    ensures Unprefixed(Prefixed(row.value)) == Some((row.value, []))
  {
    PrefixedRoundTrip(Encoded(row.key), Prefixed(row.value));
    PrefixedRoundTrip(row.value, []);
    assert Prefixed(row.value) + [] == Prefixed(row.value);
  }

  lemma KeyOfSeek(user: Bytes, sequence: SequenceNumber)
    requires |user| + 8 < TWO32
    ensures Unprefixed(MemKey(user, sequence)) == Some((Encoded(SeekKey(user, sequence)), []))
  {
    PrefixedRoundTrip(Encoded(SeekKey(user, sequence)), []);
    assert MemKey(user, sequence) + [] == MemKey(user, sequence);
  }

  ghost function Entries(rows: seq<Row>): (r: seq<Entry>)
    ensures |r| == |rows| && forall i :: 0 <= i < |r| ==> r[i] == AsEntry(rows[i])
  {
    seq(|rows|, i requires 0 <= i < |rows| => AsEntry(rows[i]))
  }

  /** MemTable::KeyComparator: the internal keys with their lengths before them. */
  method CompareKeys(a: Bytes, b: Bytes, ghost x: Parsed, ghost y: Parsed) returns (r: int)
    requires Unprefixed(a).Some? && Unprefixed(a).value.0 == Encoded(x)
    requires Unprefixed(b).Some? && Unprefixed(b).value.0 == Encoded(y)
    ensures r < 0 <==> Before(Abstract(x), Abstract(y))
    ensures r > 0 <==> Before(Abstract(y), Abstract(x))
  {
    hide Unprefixed, Before, Abstract, Encoded, LessInternal;
    var p := GetLengthPrefixed(a);
    var q := GetLengthPrefixed(b);
    r := CompareInternal(p.value.0, q.value.0);
    EncodedOrder(x, y);
    EncodedOrder(y, x);
  }

  datatype Answer = Missing | Deleted | Present(value: Bytes)

  /** Node by node: the buffer of the node holds the row, and the list orders the node by the row's key.  Node 0 is the
      head. */
  ghost predicate Arena(keys: seq<InternalKey>, buffers: seq<Bytes>, rows: seq<Row>) {
    && |keys| == |buffers| == |rows|
    && forall n :: 1 <= n < |rows| ==>
         Fits(rows[n]) && buffers[n] == EncodeRow(rows[n]) && keys[n] == Abstract(rows[n].key)
  }

  ghost predicate Nodes(list: seq<nat>, n: nat) {
    forall i :: 0 <= i < |list| ==> 1 <= list[i] < n
  }

  /** The rows of a list of nodes. */
  ghost function Pick(rows: seq<Row>, list: seq<nat>): (r: seq<Row>)
    requires Nodes(list, |rows|)
    ensures |r| == |list| && forall i :: 0 <= i < |r| ==> r[i] == rows[list[i]]
  {
    seq(|list|, i requires 0 <= i < |list| => rows[list[i]])
  }

  const NO_ROW: Row := Row(Parsed([], 0, Value), [])

  class MemTable {
    const list: L.SkipList
    var buffers: seq<Bytes>
    /** What the buffers hold, by node. */
    ghost var arena: seq<Row>

    ghost predicate Valid()
      reads this, list
    {
      list.Valid() && Arena(list.mem.keys, buffers, arena)
    }

    /** The rows in the order of the list. */
    ghost function Rows(): seq<Row>
      requires Valid()
      reads this, list
    {
      InOrderNodes();
      Pick(arena, list.lists[0])
    }

    lemma InOrderNodes()
      requires Valid()
      ensures list.lists != [] && Nodes(list.lists[0], |arena|) && L.InOrder(list.mem, list.lists[0])
      ensures |list.mem.keys| == |buffers| == |arena| && Arena(list.mem.keys, buffers, arena)
    {
      L.MemoryFacts(list.mem, list.lists);
    }

    lemma RowsSorted()
      requires Valid()
      ensures Sorted(Entries(Rows()))
    {
      InOrderNodes();
    }

    constructor ()
      ensures Valid() && Rows() == [] && fresh(list)
    {
      list := new L.SkipList();
      new;
      buffers, arena := [[]], [NO_ROW];
    }

    /** The first node whose key is not before the one sought. */
    method Seek(target: Bytes, ghost key: Parsed) returns (node: Option<nat>, ghost at: nat)
      requires Valid() && Unprefixed(target).Some? && Unprefixed(target).value.0 == Encoded(key)
      ensures at <= |Rows()| && Place(Rows(), at, key)
      ensures node == if at < |Rows()| then Some(list.lists[0][at]) else None
    {
      hide Unprefixed, Encoded, ParseInternalKey, Before, Arena;
      var internalKey := GetLengthPrefixed(target);
      ParseExactly(internalKey.value.0, key);
      var k := Abstract(ParseInternalKey(internalKey.value.0).value);
      var next, prev := list.FindGreaterOrEqual(k);
      InOrderNodes();
      at := FoundPlace(list.mem, list.lists[0], buffers, arena, key, L.Search(Some(k), prev[0], 0, true, next, {}));
      node := next;
    }

    /** MemTable::Add: encode the entry into a buffer, and insert the buffer.  Its height is drawn at random. */
    method Add(sequence: SequenceNumber, kind: ValueType, key: Bytes, value: Bytes, height: nat)
      requires Valid() && |key| + 8 < TWO32 && |value| < TWO32 && 1 <= height <= L.MAX_HEIGHT
      requires Parsed(key, sequence, kind) !in Keys(Rows())
      modifies this, list
      ensures Valid()
      ensures ToSet(Entries(Rows())) == ToSet(Entries(old(Rows()))) + {AsEntry(Row(Parsed(key, sequence, kind), value))}
    {
      hide EncodeRow, Sorted, Unprefixed, Keys, ToSet, Encoded, Arena, Nodes, L.InOrder, L.MemoryOk, Abstract, Entries;
      ghost var row := Row(Parsed(key, sequence, kind), value);
      var buffer := EncodeEntry(sequence, kind, key, value);
      InOrderNodes();
      ghost var mem, nodes, rows := list.mem, list.lists[0], arena;
      KeyIsNew(mem, nodes, buffers, rows, row.key);
      ghost var at := list.Insert(Abstract(Parsed(key, sequence, kind)), height);
      L.MemoryFacts(list.mem, list.lists);
      FromOne(list.mem, list.lists[0], at);
      AddedRow(mem.keys, nodes, buffers, rows, row, at);
      buffers := buffers + [buffer];
      arena := rows + [row];
    }

    /** MemTable::Get. */
    method Get(user: Bytes, snapshot: SequenceNumber) returns (answer: Answer)
      requires Valid() && |user| + 8 < TWO32
      ensures Answers(ToSet(Entries(Rows())), Rank(user), snapshot, answer)
    {
      hide EncodeRow, Sorted, Place, Abstract, Unprefixed, ToSet, MemKey, Encoded, Newest, Nothing, Answers;
      KeyOfSeek(user, snapshot);
      var node, at := Seek(MemKey(user, snapshot), SeekKey(user, snapshot));
      RowsSorted();
      SeekDecides(Rows(), at, user, snapshot);
      if node == None {
        return Missing;
      }
      InOrderNodes();
      ghost var row := arena[node.value];
      KeyOfRow(row);
      EncodedParts(row.key);
      var entry := GetLengthPrefixed(buffers[node.value]);
      var internalKey := entry.value.0;
      var c := CompareSlices(UserOf(internalKey), user);
      if c != 0 {
        return Missing;
      }
      if TagOf(internalKey) % 256 == 1 {
        var v := GetLengthPrefixed(entry.value.1);
        return Present(v.value.0);
      }
      return Deleted;
    }
  }

  /** What the list's search finds is the place of the key among the rows. */
  lemma FoundPlace(mem: L.Memory, list: seq<nat>, buffers: seq<Bytes>, arena: seq<Row>, key: Parsed, r: L.Search)
    returns (at: nat)
    requires L.InOrder(mem, list) && Arena(mem.keys, buffers, arena) && Nodes(list, |arena|)
    requires r.target == Some(Abstract(key)) && L.Found(mem, list, r)
    ensures at <= |list| && Place(Pick(arena, list), at, key) && r.next == if at < |list| then Some(list[at]) else None
  {
    hide Abstract;
    at :| 0 <= at <= |list| && L.Chain(list)[at] == r.x && L.FoundAt(mem, list, r, at);
  }

  lemma FromOne(mem: L.Memory, list: seq<nat>, at: nat)
    requires L.InOrder(mem, list) && at < |list|
    ensures 0 < list[at]
  {
  }

  /** A node more in the arena, and in the list. */
  lemma AddedRow(keys: seq<InternalKey>, list: seq<nat>, buffers: seq<Bytes>, arena: seq<Row>, row: Row, at: nat)
    requires Arena(keys, buffers, arena) && keys != [] && Nodes(list, |arena|) && Fits(row) && at <= |list|
    ensures Arena(keys + [Abstract(row.key)], buffers + [EncodeRow(row)], arena + [row])
    ensures Nodes(InsertAt(list, at, |keys|), |arena| + 1)
    ensures ToSet(Entries(Pick(arena + [row], InsertAt(list, at, |keys|))))
            == ToSet(Entries(Pick(arena, list))) + {AsEntry(row)}
  {
    hide Abstract, EncodeRow, ToSet;
    var before, after := Entries(Pick(arena, list)), Entries(Pick(arena + [row], InsertAt(list, at, |keys|)));
    assert after == InsertAt(before, at, AsEntry(row));
    InsertAtMembers(before, at, AsEntry(row));
  }

  /** Different keys sort differently. */
  lemma KeyIsNew(mem: L.Memory, list: seq<nat>, buffers: seq<Bytes>, arena: seq<Row>, key: Parsed)
    requires L.InOrder(mem, list) && Arena(mem.keys, buffers, arena) && Nodes(list, |arena|)
    requires key !in Keys(Pick(arena, list))
    ensures Abstract(key) !in L.KeysOf(mem, list)
  {
    var rows := Pick(arena, list);
    forall i | 0 <= i < |list| ensures L.KeysOf(mem, list)[i] != Abstract(key) {
      assert rows[i].key in Keys(rows);
      RankEmbeds(rows[i].key.user, key.user);
      RankEmbeds(key.user, rows[i].key.user);
    }
  }

  method EncodeEntry(sequence: SequenceNumber, kind: ValueType, key: Bytes, value: Bytes) returns (buffer: Bytes)
    ensures buffer == EncodeRow(Row(Parsed(key, sequence, kind), value))
  {
    hide Varint, Fixed;
    buffer := PutVarint([], |key| + 8);
    assert buffer == Varint(|key| + 8);
    buffer := buffer + key;
    buffer := buffer + Fixed(sequence * 256 + TypeByte(kind), 8);
    buffer := PutVarint(buffer, |value|);
    buffer := buffer + value;
    Grouped(Varint(|key| + 8), key, Fixed(sequence * 256 + TypeByte(kind), 8), Varint(|value|), value);
  }

  lemma Grouped(a: Bytes, b: Bytes, c: Bytes, d: Bytes, e: Bytes)
    ensures a + b + c + d + e == a + (b + c) + (d + e)
  {
  }

  /** What the lookup reports, in terms of the entries in the memtable. */
  ghost predicate Answers(es: set<Entry>, user: UserKey, snapshot: SequenceNumber, answer: Answer) {
    match answer
    case Missing => Nothing(es, user, snapshot)
    case Deleted => exists e :: Newest(es, user, snapshot, e) && e.key.kind == Deletion
    case Present(v) => exists e :: Newest(es, user, snapshot, e) && e.key.kind == Value && e.value == v
  }

  /** Rows before the place are before the key, those from it on are not. */
  ghost predicate Place(rows: seq<Row>, at: nat, key: Parsed)
    requires at <= |rows|
  {
    && (forall i :: 0 <= i < at ==> Before(Abstract(rows[i].key), Abstract(key)))
    && (at < |rows| ==> !Before(Abstract(rows[at].key), Abstract(key)))
  }

  ghost function Keys(rows: seq<Row>): set<Parsed> {
    set i | 0 <= i < |rows| :: rows[i].key
  }

  /** The first row not before the seek key, if it has the user key, is the newest visible one; else there is none. */
  lemma SeekDecides(rows: seq<Row>, at: nat, user: Bytes, snapshot: SequenceNumber)
    requires Sorted(Entries(rows)) && at <= |rows| && Place(rows, at, SeekKey(user, snapshot))
    ensures at < |rows| && rows[at].key.user == user ==>
              Answers(ToSet(Entries(rows)), Rank(user), snapshot,
                      if rows[at].key.kind == Value then Present(rows[at].value) else Deleted)
    ensures (at < |rows| && rows[at].key.user == user) || Answers(ToSet(Entries(rows)), Rank(user), snapshot, Missing)
  {
    var run, u := Entries(rows), Rank(user);
    forall j | 0 <= j < |run| ensures Visible(ToSet(run), u, snapshot, run[j]) ==> at <= j {
      LookupKeySkips(u, snapshot, run[j].key);
    }
    if at < |run| {
      LookupKeySkips(u, snapshot, run[at].key);
      RankEmbeds(user, rows[at].key.user);
      forall x | Visible(ToSet(run), u, snapshot, x)
        ensures run[at].key.user == u && x.key.sequence <= run[at].key.sequence
      {
        var j :| 0 <= j < |run| && run[j] == x;
        assert j == at || Before(run[at].key, run[j].key);
      }
      if rows[at].key.user == user {
        assert Newest(ToSet(run), u, snapshot, run[at]);
      }
    }
  }

  /** So the memtable answers as a flat scan of its entries would. */
  lemma AnswerIsRead(es: set<Entry>, user: UserKey, snapshot: SequenceNumber, answer: Answer)
    requires Unique(es) && Answers(es, user, snapshot, answer)
    ensures Read(es, user, snapshot) == if answer.Present? then Some(answer.value) else None
  {
    if answer.Missing? {
      ReadNothing(es, user, snapshot);
    } else {
      var e :| Newest(es, user, snapshot, e)
               && if answer.Deleted? then e.key.kind == Deletion else e.key.kind == Value && e.value == answer.value;
      ReadNewest(es, user, snapshot, e);
    }
  }
}
