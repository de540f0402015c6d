/**
 nanopb's encoder: a stream that either writes into a buffer of limited size or only counts, and the
 two passes that give every nested message its length.
*/
module NanopbEncode {
  import opened Format
  import opened Coding
  import opened NanopbVarint
  import opened NanopbMessage
  import opened NanopbIter

  lemma {:induction false} FixedSizes(t: Type, vs: seq<Value>)
    requires t.Fixed32? || t.Fixed64?
    requires forall i :: 0 <= i < |vs| ==> ValueOk(t, vs[i])
    ensures |EncPacked(t, vs)| == (if t.Fixed32? then 4 else 8) * |vs|
    decreases |vs|
  {
    if vs != [] {
      FixedSizes(t, vs[1..]);
    }
  }

  lemma PackedFrom(t: Type, vs: seq<Value>, i: nat)
    requires TypeOk(t) && Packable(t) && i < |vs| && ItemsOk(t, vs) && ItemsOk(t, vs[i..])
    requires |EncPacked(t, vs[i..])| < TWO64
    ensures ItemsOk(t, vs[i + 1..]) && ValueOk(t, vs[i]) && ValueFits(t, vs[i]) && |EncValue(t, vs[i])| < TWO64
    ensures EncPacked(t, vs[i..]) == EncValue(t, vs[i]) + EncPacked(t, vs[i + 1..])
  {
    assert vs[i..][0] == vs[i] && vs[i..][1..] == vs[i + 1..];
  }

  predicate ItemsOk(t: Type, vs: seq<Value>)
    requires TypeOk(t)
  {
    forall i :: 0 <= i < |vs| ==> ValueOk(t, vs[i])
  }

  predicate FitItems(t: Type, vs: seq<Value>, n: nat)
    requires TypeOk(t) && ItemsOk(t, vs) && n <= |vs|
  {
    forall i :: 0 <= i < n ==> ValueFits(t, vs[i])
  }

  lemma FitItem(t: Type, vs: seq<Value>, i: nat)
    requires TypeOk(t) && ItemsOk(t, vs) && i < |vs| && FitItems(t, vs, i)
    ensures ValueOk(t, vs[i]) && (ValueFits(t, vs[i]) <==> FitItems(t, vs, i + 1))
    ensures !ValueFits(t, vs[i]) ==> !FitItems(t, vs, |vs|)
  {
  }

  lemma EachFrom(tag: nat, t: Type, vs: seq<Value>, i: nat)
    requires TypeOk(t) && i < |vs| && ItemsOk(t, vs)
    ensures ItemsOk(t, vs[i..]) && ItemsOk(t, vs[i + 1..])
    ensures EncEach(tag, t, vs[i..]) == TagBytes(tag, WireType(t)) + EncValue(t, vs[i]) + EncEach(tag, t, vs[i + 1..])
    ensures |EncEach(tag, t, vs[i..])|
            == |TagBytes(tag, WireType(t)) + EncValue(t, vs[i])| + |EncEach(tag, t, vs[i + 1..])|
  {
    assert vs[i..][0] == vs[i] && vs[i..][1..] == vs[i + 1..];
  }

  /** pb_ostream_t.  A sizing stream has no callback; its `out` stays as it is. */
  lemma {:induction false} ZerosAfter(b: Bytes, n: nat)
    requires 0 !in b
    ensures UpToZero(b + seq(n, _ => 0 as byte)) == b
  {
    var zeros := seq(n, _ => 0 as byte);
    if b == [] {
      assert b + zeros == zeros;
    } else {
      ZerosAfter(b[1..], n);
      assert (b + zeros)[1..] == b[1..] + zeros;
    }
  }

  /** The loop that looks for the terminator, and stops at the end of the array. */
  method TextLength(memory: Bytes) returns (size: nat)
    ensures size <= |memory| && memory[..size] == UpToZero(memory)
    ensures size < |memory| ==> memory[size] == 0
  {
    size := 0;
    while size < |memory| && memory[size] != 0
      invariant size <= |memory| && UpToZero(memory) == memory[..size] + UpToZero(memory[size..])
    {
      assert memory[..size + 1] == memory[..size] + [memory[size]];
      assert memory[size..][1..] == memory[size + 1..];
      size := size + 1;
    }
    assert UpToZero(memory[size..]) == [];
  }

  class OStream {
    const sizing: bool
    const maxSize: nat
    var out: Bytes
    var bytesWritten: nat

    ghost predicate Valid()
      reads this
    {
      !sizing ==> bytesWritten <= maxSize
    }

    constructor (sizing: bool, out: Bytes, maxSize: nat)
      ensures Valid() && this.sizing == sizing && this.out == out && this.maxSize == maxSize && bytesWritten == 0
    {
      this.sizing, this.maxSize := sizing, maxSize;
      this.out, bytesWritten := out, 0;
    }

    /** There is room for `n` more bytes after the first `written`. */
    predicate Room(written: nat, n: nat) {
      sizing || written + n <= maxSize
    }

    /** The stream as it was with `out0` and `written`, and then `b`. */
    ghost predicate After(out0: Bytes, written: nat, b: Bytes)
      reads this
    {
      bytesWritten == written + |b| && out == if sizing then out0 else out0 + b
    }

    /** pb_write. */
    method Write(b: Bytes) returns (ok: bool)
      requires Valid()
      modifies this
      ensures Valid() && (ok <==> Room(old(bytesWritten), |b|))
      ensures ok ==> After(old(out), old(bytesWritten), b)
    {
      if |b| > 0 && !sizing {
        if bytesWritten + |b| > maxSize {
          return false;
        }
        out := out + b;
      }
      bytesWritten := bytesWritten + |b|;
      return true;
    }

    /** pb_write without a buffer. */
    method Count(n: nat)
      requires Valid() && sizing
      modifies this
      ensures Valid() && out == old(out) && bytesWritten == old(bytesWritten) + n
    {
      bytesWritten := bytesWritten + n;
    }

    method EncodeVarint(value: nat) returns (ok: bool)
      requires Valid() && value < TWO64
      modifies this
      ensures Valid() && (ok <==> Room(old(bytesWritten), |Varint(value)|))
      ensures ok ==> After(old(out), old(bytesWritten), Varint(value))
    {
      var buffer := NanopbVarint.EncodeVarint(value);
      ok := Write(buffer);
    }

    method EncodeTag(wire: nat, tag: nat) returns (ok: bool)
      requires Valid() && wire < 8 && tag < TWO32
      modifies this
      ensures Valid() && (ok <==> Room(old(bytesWritten), |TagBytes(tag, wire)|))
      ensures ok ==> After(old(out), old(bytesWritten), TagBytes(tag, wire))
    {
      ok := EncodeVarint(tag * 8 + wire);
    }

    /** pb_encode_string. */
    method EncodeString(b: Bytes) returns (ok: bool)
      requires Valid() && |b| < TWO64
      modifies this
      ensures Valid() && (ok <==> Room(old(bytesWritten), |Prefixed(b)|))
      ensures ok ==> After(old(out), old(bytesWritten), Prefixed(b))
    {
      ok := EncodeVarint(|b|);
      if ok {
        ok := Write(b);
        assert old(out) + Varint(|b|) + b == old(out) + Prefixed(b);
      }
    }

    /** pb_enc_string: what precedes the first zero of the array, or all of it. */
    method EncodeText(memory: Bytes) returns (ok: bool)
      requires Valid() && |UpToZero(memory)| < TWO64
      modifies this
      ensures Valid() && (ok <==> Room(old(bytesWritten), |Prefixed(UpToZero(memory))|))
      ensures ok ==> After(old(out), old(bytesWritten), Prefixed(UpToZero(memory)))
    {
      hide UpToZero, Prefixed;
      var size := TextLength(memory);
      ok := EncodeString(memory[..size]);
    }

    /** The encoders of all types but messages. */
    method EncodeScalar(t: Type, v: Value) returns (ok: bool)
      requires Valid() && TypeOk(t) && !t.Message? && ScalarOk(t, v) && |EncScalar(t, v)| < TWO64
      modifies this
      ensures Valid() && (ok <==> ScalarFits(t, v) && Room(old(bytesWritten), |EncScalar(t, v)|))
      ensures ok ==> After(old(out), old(bytesWritten), EncScalar(t, v))
    {
      match t {
        case Bool => ok := EncodeVarint(if v.b then 1 else 0);
        case Int(_) => ok := EncodeVarint(ToUnsigned(v.i));
        case UInt(_) => ok := EncodeVarint(v.i);
        case SInt(_) => ok := EncodeVarint(ZigZag(v.i));
        case Fixed32 => ok := Write(Fixed(v.i, 4));
        case Fixed64 => ok := Write(Fixed(v.i, 8));
        case ByteArray(capacity) =>
          if |v.bytes| > capacity {
            return false;
          }
          ok := EncodeString(v.bytes);
        case Text(dataSize) =>
          ZerosAfter(v.bytes, dataSize - |v.bytes|);
          ok := EncodeText(v.bytes + seq(dataSize - |v.bytes|, _ => 0 as byte));
        case FixedBytes(_) => ok := EncodeString(v.bytes);
      }
    }

    /** What every encoder below does: `b` if the value is within its bounds and there is room, and failure if not. */
    twostate predicate Encoded(ok: bool, fits: bool, b: Bytes)
      reads this
    {
      && Valid() && (ok <==> fits && Room(old(bytesWritten), |b|))
      && (ok ==> After(old(out), old(bytesWritten), b))
    }

    method EncodeValue(t: Type, v: Value) returns (ok: bool)
      requires Valid() && TypeOk(t) && ValueOk(t, v) && |EncValue(t, v)| < TWO64
      modifies this
      ensures Encoded(ok, ValueFits(t, v), EncValue(t, v))
      decreases t, 5
    {
      hide Enc, SlotsFit, SlotsOk, EncScalar;
      if t.Message? {
        ok := EncodeSubmessage(t.fields, v.slots);
      } else {
        ok := EncodeScalar(t, v);
      }
    }

    /** pb_encode_submessage: a sizing pass, then the real one into a stream of exactly that size.  That the second pass
        gives the same size again is checked, and always true. */
    method EncodeSubmessage(fields: seq<Field>, slots: seq<Slot>) returns (ok: bool)
      requires Valid() && FieldsOk(fields) && SlotsOk(fields, slots) && |Enc(fields, slots, 0)| < TWO64
      modifies this
      ensures Encoded(ok, SlotsFit(fields, slots), Prefixed(Enc(fields, slots, 0)))
      decreases Type.Message(fields), 4
    {
      hide Enc, SlotsFit, SlotsOk;
      var sub := new OStream(true, [], 0);
      ok := sub.Encode(fields, slots);
      if !ok {
        return false;
      }
      var size := sub.bytesWritten;
      ok := EncodeVarint(size);
      if !ok {
        return false;
      }
      if sizing {
        Count(size);
        return true;
      }
      if bytesWritten + size > maxSize {
        return false;
      }
      sub := new OStream(false, out, size);
      ok := sub.Encode(fields, slots);
      bytesWritten := bytesWritten + sub.bytesWritten;
      out := sub.out;
      ok := ok && sub.bytesWritten == size;
      assert old(out) + Varint(size) + Enc(fields, slots, 0) == old(out) + Prefixed(Enc(fields, slots, 0));
    }

    /** encode_array. */
    method EncodeArray(f: Field, vs: seq<Value>) returns (ok: bool)
      requires Valid() && TypeOk(f.t) && f.rule.Repeated? && SlotOk(f, Many(vs)) && f.tag < 0x2000_0000
      requires |EncSlot(f, Many(vs))| < TWO64
      modifies this
      ensures Encoded(ok, SlotFits(f, Many(vs)), EncSlot(f, Many(vs)))
      decreases f.t, 8
    {
      if vs == [] {
        return true;
      }
      if |vs| > f.rule.arraySize {
        return false;
      }
      hide EncValue, ValueOk, ValueFits;
      if Packable(f.t) {
        ok := EncodePacked(f, vs);
      } else {
        ok := EncodeEach(f, vs);
      }
    }

    /** After `written` come the bytes `b`. */
    lemma AfterMore(out0: Bytes, n: nat, written: Bytes, out1: Bytes, n1: nat, b: Bytes)
      requires n1 == n + |written| && out1 == (if sizing then out0 else out0 + written)
      requires After(out1, n1, b)
      ensures After(out0, n, written + b)
    {
      assert out0 + written + b == out0 + (written + b);
    }

    /** All of `whole` but `rest` has been added to `out0` and `n0`, and gives `o` and `n`. */
    ghost predicate Partway(o: Bytes, n: nat, out0: Bytes, n0: nat, whole: Bytes, rest: Bytes) {
      && |rest| <= |whole| && rest == whole[|whole| - |rest|..]
      && n == n0 + |whole| - |rest| && o == if sizing then out0 else out0 + whole[..|whole| - |rest|]
    }

    lemma PartwayStart(out0: Bytes, n0: nat, whole: Bytes)
      ensures Partway(out0, n0, out0, n0, whole, whole)
    {
    }

    lemma PartwayShorter(out0: Bytes, n0: nat, whole: Bytes, rest: Bytes)
      requires Partway(out, bytesWritten, out0, n0, whole, rest)
      ensures |rest| <= |whole|
    {
    }

    lemma PartwayOn(o: Bytes, n: nat, out0: Bytes, n0: nat, whole: Bytes, b: Bytes, rest: Bytes)
      requires Partway(o, n, out0, n0, whole, b + rest)
      ensures After(o, n, b) ==> Partway(out, bytesWritten, out0, n0, whole, rest)
      ensures !Room(n, |b|) ==> !Room(n0, |whole|)
    {
      var i, j := |whole| - |b + rest|, |whole| - |rest|;
      assert whole[i..][|b|..] == rest && whole[i..][..|b|] == b;
      assert whole[..i] + b == whole[..j];
      assert out0 + whole[..i] + b == out0 + whole[..j];
    }

    lemma PartwayEnd(out0: Bytes, n0: nat, whole: Bytes)
      requires Valid() && Partway(out, bytesWritten, out0, n0, whole, [])
      ensures After(out0, n0, whole) && Room(n0, |whole|)
    {
      assert whole[..|whole|] == whole;
    }

    /** The items of an array, without tags. */
    method EncodeItems(t: Type, vs: seq<Value>) returns (ok: bool)
      requires Valid() && TypeOk(t) && Packable(t) && ItemsOk(t, vs)
      requires |EncPacked(t, vs)| < TWO64
      modifies this
      ensures Encoded(ok, true, EncPacked(t, vs))
      decreases t, 6
    {
      PackedNone(t, vs);
      hide EncValue, ValueOk, EncPacked, After, Partway, ItemsOk, TypeOk, Packable, ValueFits, Valid, Room;
      ghost var whole, out0, n0 := EncPacked(t, vs), out, bytesWritten;
      assert vs[0..] == vs;
      PartwayStart(out0, n0, whole);
      for i := 0 to |vs|
        invariant Valid() && ItemsOk(t, vs[i..])
        invariant Partway(out, bytesWritten, out0, n0, whole, EncPacked(t, vs[i..]))
      {
        PartwayShorter(out0, n0, whole, EncPacked(t, vs[i..]));
        PackedFrom(t, vs, i);
        ghost var out1, n1 := out, bytesWritten;
        var done := EncodeValue(t, vs[i]);
        PartwayOn(out1, n1, out0, n0, whole, EncValue(t, vs[i]), EncPacked(t, vs[i + 1..]));
        if !done {
          return false;
        }
      }
      PartwayEnd(out0, n0, whole);
      return true;
    }

    /** The packed form: the length is known for fixed-width items, and otherwise counted in a pass of its own. */
    method EncodePacked(f: Field, vs: seq<Value>) returns (ok: bool)
      requires Valid() && TypeOk(f.t) && Packable(f.t) && f.tag < 0x2000_0000
      requires forall i :: 0 <= i < |vs| ==> ValueOk(f.t, vs[i])
      requires |EncPacked(f.t, vs)| < TWO64
      modifies this
      ensures Encoded(ok, true, TagBytes(f.tag, STRING) + Prefixed(EncPacked(f.t, vs)))
      decreases f.t, 7
    {
      ghost var tag, items := TagBytes(f.tag, STRING), EncPacked(f.t, vs);
      ok := EncodeTag(STRING, f.tag);
      if !ok {
        return false;
      }
      var size: nat;
      if f.t.Fixed32? {
        FixedSizes(f.t, vs);
        size := 4 * |vs|;
      } else if f.t.Fixed64? {
        FixedSizes(f.t, vs);
        size := 8 * |vs|;
      } else {
        var sizestream := new OStream(true, [], 0);
        ok := sizestream.EncodeItems(f.t, vs);
        if !ok {
          return false;
        }
        size := sizestream.bytesWritten;
      }
      assert size == |items|;
      hide EncPacked, ValueOk, TagBytes, Varint;
      label Tagged:
      ok := EncodeVarint(size);
      if !ok {
        return false;
      }
      if sizing {
        Count(size);
        return true;
      }
      ok := EncodeItems(f.t, vs);
      assert ok ==> After(old(out), old(bytesWritten), tag + Prefixed(items)) by {
        assert old(out) + tag + Varint(size) + items == old(out) + (tag + Prefixed(items));
      }
    }

    /** Items with a tag each. */
    method EncodeEach(f: Field, vs: seq<Value>) returns (ok: bool)
      requires Valid() && TypeOk(f.t) && f.tag < 0x2000_0000 && ItemsOk(f.t, vs)
      requires |EncEach(f.tag, f.t, vs)| < TWO64
      modifies this
      ensures Encoded(ok, FitItems(f.t, vs, |vs|), EncEach(f.tag, f.t, vs))
      decreases f.t, 7
    {
      EachNone(f.tag, f.t, vs);
      hide EncValue, ValueOk, EncEach, ValueFits, TagBytes, ItemsOk, FitItems, WireType, TypeOk, After, Partway;
      hide Valid, Room;
      ghost var whole, out0, n0 := EncEach(f.tag, f.t, vs), out, bytesWritten;
      assert vs[0..] == vs;
      PartwayStart(out0, n0, whole);
      for i := 0 to |vs|
        invariant Valid() && ItemsOk(f.t, vs[i..])
        invariant Partway(out, bytesWritten, out0, n0, whole, EncEach(f.tag, f.t, vs[i..]))
        invariant FitItems(f.t, vs, i)
      {
        PartwayShorter(out0, n0, whole, EncEach(f.tag, f.t, vs[i..]));
        EachFrom(f.tag, f.t, vs, i);
        FitItem(f.t, vs, i);
        ghost var out1, n1 := out, bytesWritten;
        var done := EncodeTagged(f, vs[i]);
        PartwayOn(out1, n1, out0, n0, whole, TagBytes(f.tag, WireType(f.t)) + EncValue(f.t, vs[i]),
                  EncEach(f.tag, f.t, vs[i + 1..]));
        if !done {
          return false;
        }
      }
      PartwayEnd(out0, n0, whole);
      return true;
    }

    /** A tag and a value. */
    method EncodeTagged(f: Field, v: Value) returns (ok: bool)
      requires Valid() && TypeOk(f.t) && f.tag < 0x2000_0000 && ValueOk(f.t, v)
      requires |TagBytes(f.tag, WireType(f.t))| + |EncValue(f.t, v)| < TWO64
      modifies this
      ensures Encoded(ok, ValueFits(f.t, v), TagBytes(f.tag, WireType(f.t)) + EncValue(f.t, v))
      decreases f.t, 6
    {
      hide EncValue, ValueOk, ValueFits, TagBytes;
      ok := EncodeTag(WireType(f.t), f.tag);
      if ok {
        ghost var out1, n1 := out, bytesWritten;
        ok := EncodeValue(f.t, v);
        if ok {
          AfterMore(old(out), old(bytesWritten), TagBytes(f.tag, WireType(f.t)), out1, n1, EncValue(f.t, v));
        }
      }
    }

    /** encode_basic_field. */
    method EncodeField(f: Field, s: Slot) returns (ok: bool)
      requires Valid() && TypeOk(f.t) && f.tag < 0x2000_0000 && SlotOk(f, s) && |EncSlot(f, s)| < TWO64
      modifies this
      ensures Encoded(ok, SlotFits(f, s), EncSlot(f, s))
      decreases f.t, 9
    {
      hide EncValue, ValueOk, ValueFits, TagBytes, EncPacked, EncEach;
      match f.rule {
        case Required => ok := EncodeTagged(f, s.v);
        case Optional =>
          ok := true;
          if s.has {
            ok := EncodeTagged(f, s.v);
          }
        case Repeated(_) => ok := EncodeArray(f, s.vs);
        case OneOf(_) =>
          ok := true;
          if s.o.Some? {
            ok := EncodeTagged(f, s.o.value);
          }
      }
    }

    /** pb_encode. */
    method Encode(fields: seq<Field>, slots: seq<Slot>) returns (ok: bool)
      requires Valid() && FieldsOk(fields) && SlotsOk(fields, slots) && |Enc(fields, slots, 0)| < TWO64
      modifies this
      ensures Encoded(ok, SlotsFit(fields, slots), Enc(fields, slots, 0))
      decreases Type.Message(fields), 3
    {
      hide FieldsOk, SlotsOk, SlotsFit, Enc, EncSlot, SlotOk, SlotFits, FitBefore, After, Partway, Valid, Room;
      FieldsParts(fields, slots);
      FitIff(fields, slots);
      ghost var whole, out0, n0 := Enc(fields, slots, 0), out, bytesWritten;
      PartwayStart(out0, n0, whole);
      EncFrom(fields, slots, |fields|);
      var iter := new FieldIter(fields);
      if fields == [] {
        PartwayEnd(out0, n0, whole);
        return true;
      }
      var more := true;
      while more
        invariant fresh(iter) && iter.Valid() && iter.fields == fields
        invariant !more ==> iter.pos == 0
        invariant Valid()
        invariant Partway(out, bytesWritten, out0, n0, whole, Enc(fields, slots, if more then iter.pos else |fields|))
        invariant FitBefore(fields, slots, if more then iter.pos else |fields|)
        decreases if more then |fields| - iter.pos else 0
      {
        var k := iter.pos;
        OneSlot(fields, slots, k);
        EncFrom(fields, slots, k);
        PartwayShorter(out0, n0, whole, Enc(fields, slots, k));
        ghost var out1, n1 := out, bytesWritten;
        ok := EncodeField(fields[k], slots[k]);
        PartwayOn(out1, n1, out0, n0, whole, EncSlot(fields[k], slots[k]), Enc(fields, slots, k + 1));
        if !ok {
          if !SlotFits(fields[k], slots[k]) {
            MisfitShows(fields, slots, k);
          }
          return false;
        }
        FitNext(fields, slots, k);
        more := iter.Next();
      }
      PartwayEnd(out0, n0, whole);
      return true;
    }
  }

  lemma PackedNone(t: Type, vs: seq<Value>)
    requires TypeOk(t) && ItemsOk(t, vs)
    ensures ItemsOk(t, vs[|vs|..]) && EncPacked(t, vs[|vs|..]) == [] && ItemsOk(t, vs[0..])
  {
  }

  lemma EachNone(tag: nat, t: Type, vs: seq<Value>)
    requires TypeOk(t) && ItemsOk(t, vs)
    ensures ItemsOk(t, vs[|vs|..]) && EncEach(tag, t, vs[|vs|..]) == [] && ItemsOk(t, vs[0..]) && FitItems(t, vs, 0)
  {
  }

  lemma EncFrom(fields: seq<Field>, slots: seq<Slot>, k: nat)
    requires FieldsOk(fields) && SlotsOk(fields, slots) && k <= |fields|
    ensures Enc(fields, slots, k) == if k == |fields| then []
                                     else EncSlot(fields[k], slots[k]) + Enc(fields, slots, k + 1)
  {
  }

  lemma OneSlot(fields: seq<Field>, slots: seq<Slot>, k: nat)
    requires FieldsOk(fields) && SlotsOk(fields, slots) && k < |fields|
    ensures TypeOk(fields[k].t) && 0 < fields[k].tag < 0x2000_0000 && SlotOk(fields[k], slots[k])
  {
  }

  predicate FitBefore(fields: seq<Field>, slots: seq<Slot>, k: nat)
    requires FieldsOk(fields) && SlotsOk(fields, slots) && k <= |fields|
  {
    forall i :: 0 <= i < k ==> SlotFits(fields[i], slots[i])
  }

  lemma FitIff(fields: seq<Field>, slots: seq<Slot>)
    requires FieldsOk(fields) && SlotsOk(fields, slots)
    ensures FitBefore(fields, slots, 0) && (FitBefore(fields, slots, |fields|) <==> SlotsFit(fields, slots))
  {
  }

  lemma MisfitShows(fields: seq<Field>, slots: seq<Slot>, k: nat)
    requires FieldsOk(fields) && SlotsOk(fields, slots) && k < |fields|
    requires TypeOk(fields[k].t) && SlotOk(fields[k], slots[k]) && !SlotFits(fields[k], slots[k])
    ensures !SlotsFit(fields, slots)
  {
  }

  lemma FitNext(fields: seq<Field>, slots: seq<Slot>, k: nat)
    requires FieldsOk(fields) && SlotsOk(fields, slots) && k < |fields| && FitBefore(fields, slots, k)
    requires TypeOk(fields[k].t) && SlotOk(fields[k], slots[k]) && SlotFits(fields[k], slots[k])
    ensures FitBefore(fields, slots, k + 1)
  {
  }

  /** pb_get_encoded_size: exactly the number of bytes that pb_encode would write. */
  method GetEncodedSize(fields: seq<Field>, slots: seq<Slot>) returns (size: Option<nat>)
    requires FieldsOk(fields) && SlotsOk(fields, slots) && |Enc(fields, slots, 0)| < TWO64
    ensures size == if SlotsFit(fields, slots) then Some(|Enc(fields, slots, 0)|) else None
  {
    hide FieldsOk, SlotsOk, SlotsFit, Enc;
    var stream := new OStream(true, [], 0);
    var ok := stream.Encode(fields, slots);
    if !ok {
      return None;
    }
    return Some(stream.bytesWritten);
  }

  /** A message encoded into a buffer of `capacity` bytes: either all of it is there, or it does not fit.  It decodes to
      the message exactly if every string in it is shorter than its array. */
  method EncodeToBuffer(fields: seq<Field>, slots: seq<Slot>, capacity: nat) returns (buffer: Option<Bytes>)
    requires FieldsOk(fields) && SlotsOk(fields, slots) && |Enc(fields, slots, 0)| < TWO32
    ensures buffer.Some? <==> SlotsFit(fields, slots) && |Enc(fields, slots, 0)| <= capacity
    ensures buffer.Some? ==> Decode(fields, buffer.value) == if SlotsEnd(fields, slots) then Got(slots, []) else Fail
  {
    hide FieldsOk, SlotsOk, SlotsFit, SlotsEnd, Enc, Decode;
    var stream := new OStream(false, [], capacity);
    var ok := stream.Encode(fields, slots);
    if !ok {
      return None;
    }
    assert stream.out == Enc(fields, slots, 0);
    MessageRoundTrip(fields, slots);
    return Some(stream.out);
  }
}
