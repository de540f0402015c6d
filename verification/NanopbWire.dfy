/**
 The wire format in numbers, and what a reader makes of a message written with another descriptor: fields it does not
 know are passed over, and fields the writer does not know keep their defaults.
*/
module NanopbWire {
  import opened Format
  import opened Coding
  import opened NanopbVarint
  import opened NanopbMessage

  // ----- the bytes -----

  /** An unsigned number as protocol buffers give it to a varint: two's complement of 64 bits. */
  function Unsigned64(i: int): int {
    if i >= 0 then i else i + 0x1_0000_0000_0000_0000
  }

  /** Small magnitudes first: 0, -1, 1, -2, 2 and so on. */
  function Folded(i: int): int {
    if i >= 0 then 2 * i else -2 * i - 1
  }

  /** The key of a field, which is its number and its wire type, and then its value; all in numbers. */
  ghost predicate OnWire(tag: nat, t: Type, v: Value, b: Bytes)
    requires TypeOk(t) && ValueOk(t, v)
  {
    match t
    case Bool => b == Varint(8 * tag) + [if v.b then 1 else 0]
    case Int(_) => Unsigned64(v.i) >= 0 && b == Varint(8 * tag) + Varint(Unsigned64(v.i))
    case UInt(_) => b == Varint(8 * tag) + Varint(v.i)
    case SInt(_) => b == Varint(8 * tag) + Varint(Folded(v.i))
    case Fixed64 => b == Varint(8 * tag + 1) + (Four(v.i) + Four(v.i / 0x1_0000_0000))
    case Fixed32 => b == Varint(8 * tag + 5) + Four(v.i)
    case Message(fields) => b == Varint(8 * tag + 2) + (Varint(|Enc(fields, v.slots, 0)|) + Enc(fields, v.slots, 0))
    case _ => b == Varint(8 * tag + 2) + (Varint(|v.bytes|) + v.bytes)
  }

  /** One value with its key. */
  lemma ItemOnWire(tag: nat, t: Type, v: Value)
    requires TypeOk(t) && ValueOk(t, v)
    ensures OnWire(tag, t, v, TagBytes(tag, WireType(t)) + EncValue(t, v))
  {
    hide Varint, Fixed, Enc, Four, ZigZag;
    match t
    case Fixed32 => FixedOnWire(v.i);
    case Fixed64 => FixedOnWire(v.i);
    case Bool => SmallVarint(if v.b then 1 else 0);
    case SInt(_) => ZigZagFolds(v.i);
    case _ =>
  }

  lemma ZigZagFolds(i: int)
    requires Int64(i)
    ensures ZigZag(i) == Folded(i)
  {
  }

  lemma SmallVarint(v: nat)
    requires v < 128
    ensures Varint(v) == [v as byte]
  {
  }

  /** A required or optional field that is there, or a member of a oneof that is set. */
  lemma FieldOnWire(f: Field, s: Slot)
    requires TypeOk(f.t) && SlotOk(f, s) && Present(s) && !f.rule.Repeated?
    ensures OnWire(f.tag, f.t, if s.Member? then s.o.value else s.v, EncSlot(f, s))
  {
    hide OnWire, EncValue;
    ItemOnWire(f.tag, f.t, if s.Member? then s.o.value else s.v);
  }

  /** Numbers in an array go under one key, with the length of them all in front; other items have a key each. */
  lemma ArrayOnWire(f: Field, s: Slot)
    requires TypeOk(f.t) && SlotOk(f, s) && Present(s) && f.rule.Repeated?
    ensures var b := EncPacked(f.t, s.vs);
            && (f.t.Bool? || f.t.Int? || f.t.UInt? || f.t.SInt? || f.t.Fixed32? || f.t.Fixed64? ==>
                  EncSlot(f, s) == Varint(8 * f.tag + 2) + (Varint(|b|) + b))
            && (f.t.ByteArray? || f.t.Text? || f.t.FixedBytes? || f.t.Message? ==>
                  exists items: seq<Bytes> :: |items| == |s.vs| && EncSlot(f, s) == Joined(items)
                                              && forall i :: 0 <= i < |items| ==> OnWire(f.tag, f.t, s.vs[i], items[i]))
  {
    hide Varint, EncValue, OnWire, EncPacked;
    if !Packable(f.t) {
      var items := EachOnWire(f.tag, f.t, s.vs);
    }
  }

  function Joined(items: seq<Bytes>): Bytes {
    if items == [] then [] else items[0] + Joined(items[1..])
  }

  lemma {:induction false} EachOnWire(tag: nat, t: Type, vs: seq<Value>) returns (items: seq<Bytes>)
    requires TypeOk(t) && forall i :: 0 <= i < |vs| ==> ValueOk(t, vs[i])
    ensures |items| == |vs| && EncEach(tag, t, vs) == Joined(items)
    ensures forall i :: 0 <= i < |items| ==> OnWire(tag, t, vs[i], items[i])
    decreases |vs|
  {
    hide OnWire, EncValue, TagBytes, WireType, ValueOk;
    items := [];
    if vs != [] {
      var more := EachOnWire(tag, t, vs[1..]);
      items := [TagBytes(tag, WireType(t)) + EncValue(t, vs[0])] + more;
      ItemOnWire(tag, t, vs[0]);
      assert items[1..] == more;
    }
  }

  // ----- any number, and bytes of any length -----

  /** The range of an integer of so many bytes. */
  predicate InRange(i: int, size: nat, signed: bool) {
    if signed then
      (size == 1 && -0x80 <= i < 0x80) || (size == 2 && -0x8000 <= i < 0x8000)
      || (size == 4 && -0x8000_0000 <= i < 0x8000_0000)
      || (size == 8 && -0x8000_0000_0000_0000 <= i < 0x8000_0000_0000_0000)
    else
      0 <= i && ((size == 1 && i < 0x100) || (size == 2 && i < 0x1_0000) || (size == 4 && i < 0x1_0000_0000)
                 || (size == 8 && i < 0x1_0000_0000_0000_0000))
  }

  /** The number a varint stands for in a field of the type: folded, unsigned, or two's complement of 64 bits in a field
      of eight bytes and of the low 32 in a smaller one. */
  function Meant(t: Type, u: nat): int {
    match t
    case SInt(_) => if u % 2 == 0 then u / 2 else -((u + 1) / 2)
    case Int(size) =>
      if size == 8 then (if u < 0x8000_0000_0000_0000 then u else u - 0x1_0000_0000_0000_0000)
      else
        var low := u % 0x1_0000_0000;
        if low < 0x8000_0000 then low else low - 0x1_0000_0000
    case _ => u
  }

  /** Any number of 64 bits is read into an integer field that can hold what it stands for, and refused by any other. */
  lemma NumberDecodes(t: Type, u: nat, tail: Bytes)
    requires TypeOk(t) && (t.Int? || t.UInt? || t.SInt?) && u < TWO64
    ensures DecInt(t, Varint(u) + tail)
            == if InRange(Meant(t, u), t.size, !t.UInt?) then Got(Number(Meant(t, u)), tail) else Fail
  {
    hide Varied, Varint;
    Varint64RoundTrip(u, tail);
  }

  /** Bytes of any length are read into a field that has room for them, which a string field has if there is room for a
      terminator too; a field of fixed length takes just that many, or none for all zeros. */
  lemma BytesDecode(t: Type, b: Bytes, tail: Bytes)
    requires TypeOk(t) && (t.ByteArray? || t.Text? || t.FixedBytes?) && |b| < TWO32
    ensures DecSized(t, Prefixed(b) + tail)
            == match t
               case ByteArray(capacity) => if |b| <= capacity then Got(Raw(b), tail) else Fail
               case Text(dataSize) => if |b| + 1 <= dataSize then Got(Raw(UpToZero(b)), tail) else Fail
               case FixedBytes(dataSize) =>
                 if |b| == dataSize then Got(Raw(b), tail)
                 else if b == [] then Got(Raw(seq(dataSize, _ => 0 as byte)), tail)
                 else Fail
               case _ => Fail
  {
    hide Varint32, Varint, UpToZero;
    assert Prefixed(b) + tail == Varint(|b|) + (b + tail);
    NanopbVarint.Varint32RoundTrip(|b|, b + tail);
    ReadBack(b, tail);
    assert [] + tail == tail;
  }

  // ----- fields the reader does not know -----

  lemma {:induction false} VarintSkipped(v: nat, rest: Bytes)
    ensures SkipVarint(Varint(v) + rest) == Got((), rest)
  {
    var b := Varint(v) + rest;
    if v < 128 {
      assert b[1..] == rest;
    } else {
      assert b[1..] == Varint(v / 128) + rest;
      VarintSkipped(v / 128, rest);
    }
  }

  lemma BytesSkipped(b: Bytes, rest: Bytes)
    requires |b| < TWO32
    ensures Skip(2, Prefixed(b) + rest) == Got((), rest)
  {
    SubstreamRoundTrip(b, rest);
  }

  /** A value of any type is passed over to its last byte, by its wire type alone. */
  lemma ValueSkipped(t: Type, v: Value, rest: Bytes)
    requires TypeOk(t) && ValueOk(t, v) && |EncValue(t, v)| < TWO32
    ensures Skip(WireType(t), EncValue(t, v) + rest) == Got((), rest)
  {
    hide Varint, Enc, Prefixed, Substream;
    match t
    case Fixed32 => ReadBack(Fixed(v.i, 4), rest);
    case Fixed64 => ReadBack(Fixed(v.i, 8), rest);
    case Bool => VarintSkipped(if v.b then 1 else 0, rest);
    case Int(_) => VarintSkipped(ToUnsigned(v.i), rest);
    case UInt(_) => VarintSkipped(v.i, rest);
    case SInt(_) => VarintSkipped(ZigZag(v.i), rest);
    case Message(fields) =>
      PrefixedLonger(Enc(fields, v.slots, 0));
      BytesSkipped(Enc(fields, v.slots, 0), rest);
    case _ =>
      PrefixedLonger(v.bytes);
      BytesSkipped(v.bytes, rest);
  }

  /** Eight bytes, four bytes or a string; and no other wire type can be skipped. */
  lemma SkipTakes(wire: nat, input: Bytes)
    ensures wire == 1 ==> Skip(wire, input) == if |input| < 8 then Fail else Got((), input[8..])
    ensures wire == 5 ==> Skip(wire, input) == if |input| < 4 then Fail else Got((), input[4..])
    ensures wire == 3 || wire == 4 || wire > 5 ==> Skip(wire, input) == Fail
  {
  }

  ghost predicate Unknown(fields: seq<Field>, tag: nat) {
    forall i :: 0 <= i < |fields| ==> fields[i].tag != tag
  }

  /** A key that names no field, and something after it that can be skipped. */
  lemma KeySkipped(fields: seq<Field>, slots: seq<Slot>, seen: set<nat>, tag: nat, wire: nat, input: Bytes)
    requires FieldsOk(fields) && |slots| == |fields| && Unknown(fields, tag) && 0 < tag < 0x2000_0000 && wire < 8
    ensures var r := Skip(wire, input);
            DecFields(fields, slots, seen, TagBytes(tag, wire) + input)
            == if r.Fail? then Fail else DecFields(fields, slots, seen, r.rest)
  {
    hide Skip, Finish, Varint32, Varint, DecSlot;
    NanopbVarint.Varint32RoundTrip(tag * 8 + wire, input);
    assert Find(fields, tag, 0) == |fields|;
  }

  /** Field number 0, which no message has: in a message type without fields it finds the terminator of the descriptor,
      which reads as a bool, whatever the wire type; elsewhere it is passed over like any other. */
  lemma NumberZero(fields: seq<Field>, slots: seq<Slot>, seen: set<nat>, wire: nat, input: Bytes)
    requires FieldsOk(fields) && |slots| == |fields| && 0 < wire < 8
    ensures var u, r := Varint32(input), Skip(wire, input);
            (u.Some? ==> |u.value.1| < |input|)
            && DecFields(fields, slots, seen, [wire as byte] + input)
               == if fields == [] then if u == None then Fail else DecFields(fields, slots, seen, u.value.1)
                  else if r.Fail? then Fail
                  else DecFields(fields, slots, seen, r.rest)
  {
    hide Skip, Finish, DecSlot;
    Varint32Shrinks(input);
    var b := [wire as byte] + input;
    assert b[0] == wire as byte && b[1..] == input;
    assert Varint32(b) == Some((wire, input));
    assert Find(fields, 0, 0) == |fields|;
  }

  /** A field the descriptor does not have is passed over, whatever its type and value. */
  lemma UnknownSkipped(fields: seq<Field>, slots: seq<Slot>, seen: set<nat>, tag: nat, t: Type, v: Value, rest: Bytes)
    requires FieldsOk(fields) && |slots| == |fields| && Unknown(fields, tag) && 0 < tag < 0x2000_0000
    requires TypeOk(t) && ValueOk(t, v) && |EncValue(t, v)| < TWO32
    ensures DecFields(fields, slots, seen, TagBytes(tag, WireType(t)) + EncValue(t, v) + rest)
            == DecFields(fields, slots, seen, rest)
  {
    hide DecFields, FieldsOk, ValueOk, EncValue, Skip, TagBytes, Unknown;
    var b := EncValue(t, v);
    assert TagBytes(tag, WireType(t)) + b + rest == TagBytes(tag, WireType(t)) + (b + rest);
    KeySkipped(fields, slots, seen, tag, WireType(t), b + rest);
    ValueSkipped(t, v, rest);
  }

  lemma {:induction false} EachSkipped(fields: seq<Field>, slots: seq<Slot>, seen: set<nat>, tag: nat, t: Type,
                                       vs: seq<Value>, rest: Bytes)
    requires FieldsOk(fields) && |slots| == |fields| && Unknown(fields, tag) && 0 < tag < 0x2000_0000
    requires TypeOk(t) && (forall i :: 0 <= i < |vs| ==> ValueOk(t, vs[i])) && |EncEach(tag, t, vs)| < TWO32
    ensures DecFields(fields, slots, seen, EncEach(tag, t, vs) + rest) == DecFields(fields, slots, seen, rest)
    decreases |vs|
  {
    hide DecFields, FieldsOk, ValueOk, EncValue, TagBytes, Unknown;
    if vs == [] {
      assert EncEach(tag, t, vs) + rest == rest;
    } else {
      var more := EncEach(tag, t, vs[1..]);
      assert EncEach(tag, t, vs) + rest == TagBytes(tag, WireType(t)) + EncValue(t, vs[0]) + (more + rest);
      UnknownSkipped(fields, slots, seen, tag, t, vs[0], more + rest);
      EachSkipped(fields, slots, seen, tag, t, vs[1..], rest);
    }
  }

  /** All that a writer puts out for a field the reader does not have. */
  lemma SlotSkipped(fields: seq<Field>, slots: seq<Slot>, seen: set<nat>, f: Field, s: Slot, rest: Bytes)
    requires FieldsOk(fields) && |slots| == |fields| && Unknown(fields, f.tag) && 0 < f.tag < 0x2000_0000
    requires TypeOk(f.t) && SlotOk(f, s) && |EncSlot(f, s)| < TWO32
    ensures DecFields(fields, slots, seen, EncSlot(f, s) + rest) == DecFields(fields, slots, seen, rest)
  {
    hide DecFields, FieldsOk, ValueOk, EncValue, EncPacked, EncEach, TagBytes, Unknown, Prefixed, Skip;
    if !Present(s) {
      assert EncSlot(f, s) + rest == rest;
    } else if !f.rule.Repeated? {
      UnknownSkipped(fields, slots, seen, f.tag, f.t, if s.Member? then s.o.value else s.v, rest);
    } else if Packable(f.t) {
      var b := EncPacked(f.t, s.vs);
      PrefixedLonger(b);
      assert EncSlot(f, s) + rest == TagBytes(f.tag, 2) + (Prefixed(b) + rest);
      KeySkipped(fields, slots, seen, f.tag, 2, Prefixed(b) + rest);
      BytesSkipped(b, rest);
    } else {
      EachSkipped(fields, slots, seen, f.tag, f.t, s.vs, rest);
    }
  }

  // ----- another descriptor -----

  /** Where two descriptors use the same field number, they mean the same field. */
  ghost predicate Compatible(reader: seq<Field>, writer: seq<Field>) {
    forall i, j :: 0 <= i < |reader| && 0 <= j < |writer| && reader[i].tag == writer[j].tag ==> reader[i] == writer[j]
  }

  /** The reader's message once the writer's first `k` fields are in: those, and defaults. */
  function Taken(reader: seq<Field>, writer: seq<Field>, slots: seq<Slot>, k: nat): (r: seq<Slot>)
    requires |slots| == |writer| && k <= |writer|
    ensures |r| == |reader|
  {
    seq(|reader|, i requires 0 <= i < |reader| => TakenAt(reader[i], writer, slots, k))
  }

  function TakenAt(f: Field, writer: seq<Field>, slots: seq<Slot>, k: nat): Slot
    requires |slots| == |writer| && k <= |writer|
  {
    var j := Find(writer, f.tag, 0);
    if j < k then slots[j] else DefaultSlot(f)
  }

  /** The fields of the reader that the writer's fields from number `k` on put there. */
  ghost function Set(reader: seq<Field>, writer: seq<Field>, slots: seq<Slot>, k: nat): set<nat>
    requires |slots| == |writer|
  {
    set i | 0 <= i < |reader| && k <= Find(writer, reader[i].tag, 0) < |writer|
            && Present(slots[Find(writer, reader[i].tag, 0)])
  }

  /** From number `k` on, the strings in fields that the reader knows are shorter than their arrays. */
  ghost predicate KnownEnd(reader: seq<Field>, writer: seq<Field>, slots: seq<Slot>, k: nat)
    requires FieldsOk(writer) && SlotsOk(writer, slots)
  {
    forall j :: k <= j < |writer| && !Unknown(reader, writer[j].tag) ==> SlotEnds(writer[j], slots[j])
  }

  lemma FindIs(fields: seq<Field>, k: nat)
    requires FieldsOk(fields) && k < |fields|
    ensures forall tag :: Find(fields, tag, 0) == k <==> tag == fields[k].tag
  {
    TheField(fields, k);
  }

  lemma UnsetIsDefault(f: Field, s: Slot)
    requires TypeOk(f.t) && SlotOk(f, s) && !Present(s)
    ensures s == DefaultSlot(f)
  {
  }

  /** A field of the writer that leaves the reader's message as it is: unknown there, or not present. */
  lemma NothingTaken(reader: seq<Field>, writer: seq<Field>, slots: seq<Slot>, k: nat)
    requires FieldsOk(reader) && FieldsOk(writer) && SlotsOk(writer, slots) && |slots| == |writer| && k < |writer|
    requires TypeOk(writer[k].t) && SlotOk(writer[k], slots[k]) && Compatible(reader, writer)
    requires Unknown(reader, writer[k].tag) || !Present(slots[k])
    ensures Taken(reader, writer, slots, k + 1) == Taken(reader, writer, slots, k)
    ensures Set(reader, writer, slots, k + 1) == Set(reader, writer, slots, k)
  {
    hide SlotsOk, FieldsOk, SlotOk, DefaultSlot;
    FindIs(writer, k);
    if !Present(slots[k]) {
      UnsetIsDefault(writer[k], slots[k]);
    }
    forall i | 0 <= i < |reader|
      ensures TakenAt(reader[i], writer, slots, k + 1) == TakenAt(reader[i], writer, slots, k)
    {
    }
  }

  lemma OthersUnset(writer: seq<Field>, slots: seq<Slot>, k: nat, j: nat)
    requires FieldsOk(writer) && SlotsOk(writer, slots) && k < |writer| && j < |writer| && j != k
    requires |slots| == |writer| && SameUnion(writer[k], writer[j]) && IsSet(slots[k])
    ensures slots[j] == Member(None)
  {
    assert SlotOk(writer[j], slots[j]);
  }

  /** A field that is present and known goes to its place. */
  lemma OneTaken(reader: seq<Field>, writer: seq<Field>, slots: seq<Slot>, k: nat, m: nat)
    requires FieldsOk(reader) && FieldsOk(writer) && SlotsOk(writer, slots) && |slots| == |writer| && k < |writer|
    requires m < |reader| && reader[m] == writer[k] && Compatible(reader, writer)
    requires Present(slots[k]) && (writer[k].rule.OneOf? ==> IsSet(slots[k]))
    ensures Taken(reader, writer, slots, k)[m] == DefaultSlot(reader[m])
    ensures Place(reader, Taken(reader, writer, slots, k), m, slots[k]) == Taken(reader, writer, slots, k + 1)
  {
    FindIs(writer, k);
    FindIs(reader, m);
    hide SlotsOk, FieldsOk, Find, DefaultOf;
    forall i | 0 <= i < |reader| && i != m
      ensures TakenAt(reader[i], writer, slots, k + 1) == TakenAt(reader[i], writer, slots, k)
      ensures SameUnion(reader[m], reader[i]) ==> TakenAt(reader[i], writer, slots, k + 1) == Member(None)
    {
      var j := Find(writer, reader[i].tag, 0);
      assert Find(reader, reader[i].tag, 0) != m;
      if SameUnion(reader[m], reader[i]) && j < k {
        OthersUnset(writer, slots, k, j);
      }
    }
    var a, b := Place(reader, Taken(reader, writer, slots, k), m, slots[k]), Taken(reader, writer, slots, k + 1);
    forall i | 0 <= i < |reader| ensures a[i] == b[i] {
    }
  }

  lemma OneMoreSet(reader: seq<Field>, writer: seq<Field>, slots: seq<Slot>, k: nat, m: nat)
    requires FieldsOk(reader) && FieldsOk(writer) && |slots| == |writer| && k < |writer|
    requires m < |reader| && reader[m] == writer[k] && Present(slots[k])
    ensures {m} + Set(reader, writer, slots, k + 1) == Set(reader, writer, slots, k)
  {
    FindIs(writer, k);
    FindIs(reader, m);
    hide FieldsOk, Find, Present;
    forall i | 0 <= i < |reader|
      ensures i in Set(reader, writer, slots, k) <==> i == m || i in Set(reader, writer, slots, k + 1)
    {
      assert Find(reader, reader[i].tag, 0) == m ==> i == m by {
        if Find(reader, reader[i].tag, 0) == m {
          TheField(reader, i);
        }
      }
    }
  }

  lemma WriterParts(writer: seq<Field>, slots: seq<Slot>, k: nat)
    requires FieldsOk(writer) && SlotsOk(writer, slots) && SlotsFit(writer, slots) && k < |writer|
    ensures |slots| == |writer| && TypeOk(writer[k].t) && 0 < writer[k].tag < 0x2000_0000
    ensures SlotOk(writer[k], slots[k]) && SlotFits(writer[k], slots[k])
    ensures writer[k].rule.OneOf? && Present(slots[k]) ==> IsSet(slots[k])
  {
  }

  lemma KnownEndNext(reader: seq<Field>, writer: seq<Field>, slots: seq<Slot>, k: nat)
    requires FieldsOk(writer) && SlotsOk(writer, slots) && k < |writer|
    requires TypeOk(writer[k].t) && |slots| == |writer| && SlotOk(writer[k], slots[k])
    ensures KnownEnd(reader, writer, slots, k)
            <==> (Unknown(reader, writer[k].tag) || SlotEnds(writer[k], slots[k]))
                 && KnownEnd(reader, writer, slots, k + 1)
  {
  }

  lemma AbsentEnds(f: Field, s: Slot)
    requires TypeOk(f.t) && SlotOk(f, s) && !Present(s)
    ensures EncSlot(f, s) == [] && SlotEnds(f, s)
  {
  }

  lemma TheOther(reader: seq<Field>, writer: seq<Field>, k: nat) returns (m: nat)
    requires Compatible(reader, writer) && k < |writer| && !Unknown(reader, writer[k].tag)
    ensures m < |reader| && reader[m] == writer[k]
  {
    m :| m < |reader| && reader[m].tag == writer[k].tag;
  }

  lemma {:induction false} FieldsTaken(reader: seq<Field>, writer: seq<Field>, slots: seq<Slot>, k: nat,
                                       seen: set<nat>)
    requires FieldsOk(reader) && FieldsOk(writer) && SlotsOk(writer, slots) && SlotsFit(writer, slots)
    requires |slots| == |writer| && k <= |writer| && Compatible(reader, writer)
    requires |Enc(writer, slots, k)| < TWO32
    ensures DecFields(reader, Taken(reader, writer, slots, k), seen, Enc(writer, slots, k))
            == if KnownEnd(reader, writer, slots, k) then
                 DecFields(reader, Taken(reader, writer, slots, |writer|), seen + Set(reader, writer, slots, k), [])
               else Fail
    decreases |writer| - k
  {
    hide DecFields, FieldsOk, SlotsOk, SlotsFit, EncSlot, Taken, Set, KnownEnd, SlotOk, SlotFits, SlotEnds, Unknown;
    hide Present, IsSet, Compatible, Place, DefaultSlot;
    if k == |writer| {
      NoneLeft(reader, writer, slots, k);
      assert seen + Set(reader, writer, slots, k) == seen;
    } else {
      WriterParts(writer, slots, k);
      KnownEndNext(reader, writer, slots, k);
      var at, rest := Taken(reader, writer, slots, k), Enc(writer, slots, k + 1);
      if Unknown(reader, writer[k].tag) {
        NothingTaken(reader, writer, slots, k);
        SlotSkipped(reader, at, seen, writer[k], slots[k], rest);
        FieldsTaken(reader, writer, slots, k + 1, seen);
      } else if !Present(slots[k]) {
        NothingTaken(reader, writer, slots, k);
        AbsentEnds(writer[k], slots[k]);
        assert EncSlot(writer[k], slots[k]) + rest == rest;
        FieldsTaken(reader, writer, slots, k + 1, seen);
      } else {
        var m := TheOther(reader, writer, k);
        OneTaken(reader, writer, slots, k, m);
        OneMoreSet(reader, writer, slots, k, m);
        PresentSlot(reader, at, m, slots[k], seen, rest);
        FieldsTaken(reader, writer, slots, k + 1, seen + {m});
        assert seen + {m} + Set(reader, writer, slots, k + 1) == seen + Set(reader, writer, slots, k);
      }
    }
  }

  lemma NoneLeft(reader: seq<Field>, writer: seq<Field>, slots: seq<Slot>, k: nat)
    requires FieldsOk(writer) && SlotsOk(writer, slots) && |slots| == |writer| == k
    ensures Set(reader, writer, slots, k) == {} && KnownEnd(reader, writer, slots, k)
  {
  }

  /** A field of the message that was written with other fields: as the writer had it, or else unset. */
  ghost predicate FromWriter(f: Field, writer: seq<Field>, slots: seq<Slot>, s: Slot)
    requires |slots| == |writer|
  {
    && (forall j :: 0 <= j < |writer| && writer[j].tag == f.tag ==> s == slots[j])
    && (Unknown(writer, f.tag) ==> Unset(f, s))
  }

  ghost function RequiredAmong(fields: seq<Field>, n: nat): set<nat> {
    set i | 0 <= i < n && i < |fields| && fields[i].rule == Required
  }

  /** The fields pb_decode insists on, the first 64 that are required, are among those of the writer. */
  ghost predicate HasRequired(reader: seq<Field>, writer: seq<Field>) {
    forall i :: 0 <= i < |reader| && reader[i].rule == Required && |RequiredAmong(reader, i)| < 64 ==>
      !Unknown(writer, reader[i].tag)
  }

  lemma {:induction false} RequiredCount(fields: seq<Field>, n: nat)
    requires n <= |fields|
    ensures |RequiredAmong(fields, n)| == RequiredBefore(fields, n)
  {
    if n == 0 {
      assert RequiredAmong(fields, n) == {};
    } else {
      RequiredCount(fields, n - 1);
      var more: set<nat> := if fields[n - 1].rule == Required then {n - 1} else {};
      assert RequiredAmong(fields, n) == RequiredAmong(fields, n - 1) + more;
    }
  }

  lemma CountedAmong(fields: seq<Field>, i: nat)
    requires i < |fields|
    ensures Counted(fields, i) <==> fields[i].rule == Required && |RequiredAmong(fields, i)| < 64
  {
    RequiredCount(fields, i);
  }

  // ----- fields that are not set -----

  /** False, zero, empty or all zeros, unless the field has a default; every field of a message unset. */
  ghost predicate Initially(f: Field, v: Value)
    decreases f.t, 0
  {
    if f.initial.Some? then v == f.initial.value
    else
      match f.t
      case Bool => v == Truth(false)
      case ByteArray(_) => v == Raw([])
      case Text(_) => v == Raw([])
      case FixedBytes(size) => v.Raw? && |v.bytes| == size && forall i :: 0 <= i < size ==> v.bytes[i] == 0
      case Message(fields) =>
        v.Nested? && |v.slots| == |fields| && forall i :: 0 <= i < |fields| ==> Unset(fields[i], v.slots[i])
      case _ => v == Number(0)
  }

  ghost predicate Unset(f: Field, s: Slot)
    decreases f.t, 1
  {
    match f.rule
    case Required => s.Always? && Initially(f, s.v)
    case Optional => s.Maybe? && !s.has && Initially(f, s.v)
    case Repeated(_) => s == Many([])
    case OneOf(_) => s == Member(None)
  }

  lemma {:induction false} DefaultInitially(f: Field)
    ensures Initially(f, DefaultOf(f))
    decreases f.t, 0
  {
    if f.initial == None {
      assert DefaultOf(f) == Zero(f.t);
      if f.t.Message? {
        var fields := f.t.fields;
        assert Zero(f.t) == Nested(Defaults(fields));
        forall i | 0 <= i < |fields| ensures Unset(fields[i], Defaults(fields)[i]) {
          DefaultIsUnset(fields[i]);
          DefaultsAt(fields, i);
        }
      }
    }
  }

  /** pb_message_set_to_defaults leaves every field unset. */
  lemma {:induction false} DefaultIsUnset(f: Field)
    ensures Unset(f, DefaultSlot(f))
    decreases f.t, 1
  {
    hide Initially, DefaultOf;
    DefaultInitially(f);
  }

  lemma TakenAll(reader: seq<Field>, writer: seq<Field>, slots: seq<Slot>)
    requires FieldsOk(writer) && |slots| == |writer|
    ensures Taken(reader, writer, slots, 0) == Defaults(reader)
    ensures forall i :: 0 <= i < |reader| ==>
              FromWriter(reader[i], writer, slots, Taken(reader, writer, slots, |writer|)[i])
  {
    forall i | 0 <= i < |reader|
      ensures FromWriter(reader[i], writer, slots, Taken(reader, writer, slots, |writer|)[i])
    {
      DefaultIsUnset(reader[i]);
      forall j | 0 <= j < |writer| && writer[j].tag == reader[i].tag
        ensures Taken(reader, writer, slots, |writer|)[i] == slots[j]
      {
        FindIs(writer, j);
      }
    }
  }

  lemma RequiredSet(reader: seq<Field>, writer: seq<Field>, slots: seq<Slot>)
    requires FieldsOk(reader) && FieldsOk(writer) && SlotsOk(writer, slots) && |slots| == |writer|
    requires Compatible(reader, writer)
    ensures HasRequired(reader, writer)
            <==> forall i :: 0 <= i < |reader| && Counted(reader, i) ==> i in Set(reader, writer, slots, 0)
  {
    forall i | 0 <= i < |reader| && Counted(reader, i)
      ensures i in Set(reader, writer, slots, 0) <==> !Unknown(writer, reader[i].tag)
      ensures reader[i].rule == Required && |RequiredAmong(reader, i)| < 64
    {
      CountedAmong(reader, i);
      var j := Find(writer, reader[i].tag, 0);
      if j < |writer| {
        assert SlotOk(writer[j], slots[j]);
      }
    }
    forall i | 0 <= i < |reader| && reader[i].rule == Required && |RequiredAmong(reader, i)| < 64
      ensures Counted(reader, i)
    {
      CountedAmong(reader, i);
    }
  }

  /** A message read with another descriptor than it was written with.  It is read if and only if the fields the reader
      insists on are there and the strings it knows end; what both know is as it was written, what the reader does not
      know is passed over, and what the writer does not know is unset. */
  lemma OtherReader(reader: seq<Field>, writer: seq<Field>, slots: seq<Slot>)
    requires FieldsOk(reader) && FieldsOk(writer) && SlotsOk(writer, slots) && SlotsFit(writer, slots)
    requires |slots| == |writer| && Compatible(reader, writer) && |Enc(writer, slots, 0)| < TWO32
    ensures var r := Decode(reader, Enc(writer, slots, 0));
            && (r.Got? <==> HasRequired(reader, writer) && KnownEnd(reader, writer, slots, 0))
            && (r.Got? ==> |r.v| == |reader| && r.rest == []
                           && forall i :: 0 <= i < |reader| ==> FromWriter(reader[i], writer, slots, r.v[i]))
  {
    hide FieldsOk, SlotsOk, SlotsFit, Enc, Taken, Set, KnownEnd, HasRequired, Compatible, FromWriter, Defaults, Counted;
    TakenAll(reader, writer, slots);
    FieldsTaken(reader, writer, slots, 0, {});
    RequiredSet(reader, writer, slots);
    assert {} + Set(reader, writer, slots, 0) == Set(reader, writer, slots, 0);
    AtTheEnd(reader, Taken(reader, writer, slots, |writer|), Set(reader, writer, slots, 0));
  }

  lemma AtTheEnd(fields: seq<Field>, slots: seq<Slot>, seen: set<nat>)
    requires FieldsOk(fields) && |slots| == |fields|
    ensures DecFields(fields, slots, seen, [])
            == if forall i :: 0 <= i < |fields| && Counted(fields, i) ==> i in seen then Got(slots, []) else Fail
  {
  }
}
