/**
 nanopb's decoder: a stream over a buffer, substreams that share the buffer, and the loop over the
 fields of a message.
*/
module NanopbDecode {
  import opened Format
  import opened Coding
  import opened NanopbVarint
  import opened NanopbMessage
  import opened NanopbIter

  /** pb_istream_t over a buffer.  `state` is the position in it. */
  class IStream {
    const buffer: Bytes
    var state: nat
    var bytesLeft: nat

    ghost predicate Valid()
      reads this
    {
      state + bytesLeft <= |buffer|
    }

    constructor (buffer: Bytes, state: nat, bytesLeft: nat)
      requires state + bytesLeft <= |buffer|
      ensures Valid() && this.buffer == buffer && this.state == state && this.bytesLeft == bytesLeft
    {
      this.buffer, this.state, this.bytesLeft := buffer, state, bytesLeft;
    }

    ghost function Remaining(): (r: Bytes)
      requires Valid()
      reads this
      ensures |r| == bytesLeft
    {
      buffer[state..state + bytesLeft]
    }

    method ReadByte() returns (b: Option<byte>)
      requires Valid()
      modifies this
      ensures Valid() && End() == old(End())
      ensures b.None? <==> old(bytesLeft) == 0
      ensures b.Some? ==> b.value == old(Remaining())[0] && Remaining() == old(Remaining())[1..]
    {
      if bytesLeft == 0 {
        return None;
      }
      b := Some(buffer[state]);
      state := state + 1;
      bytesLeft := bytesLeft - 1;
    }

    function End(): nat
      reads this
    {
      state + bytesLeft
    }

    /** What a decoder makes of a stream that goes up to `end`: as `r` says, with the rest still in the stream. */
    ghost predicate Leaves<T>(v: Option<T>, r: Decoded<T>, end: nat)
      reads this
    {
      && Valid() && End() <= end && (v.None? <==> r.Fail?)
      && (v.Some? ==> End() == end && r == Got(v.value, Remaining()))
    }

    /** pb_read. */
    method Read(count: nat) returns (b: Option<Bytes>)
      requires Valid()
      modifies this
      ensures Leaves(b, NanopbMessage.Read(old(Remaining()), count), old(End()))
    {
      if bytesLeft < count {
        return None;
      }
      b := Some(buffer[state..state + count]);
      state := state + count;
      bytesLeft := bytesLeft - count;
      assert old(Remaining())[..count] == b.value;
      assert old(Remaining())[count..] == Remaining();
    }

    /** pb_decode_varint32_eof.  `eof` is set only if there was not even a first byte. */
    method DecodeVarint32Eof() returns (r: Option<nat>, eof: bool)
      requires Valid()
      modifies this
      ensures Leaves(r, Varint32Of(old(Remaining())), old(End())) && (eof <==> old(bytesLeft) == 0)
    {
      hide NextByte32;
      var first := ReadByte();
      eof := first == None;
      if eof {
        return None, eof;
      }
      var b := first.value;
      if b < 128 {
        return Some(b as nat), eof;
      }
      var bitpos: nat, result: nat := 7, b as nat - 128;
      while true
        invariant Valid() && End() == old(End()) && result < TWO32 && bitpos < 256
        invariant Varint32From(Remaining(), result, bitpos) == Varint32(old(Remaining()))
        decreases bytesLeft
      {
        var more := ReadByte();
        if more == None {
          return None, eof;
        }
        b := more.value;
        var next := NextByte32(result, bitpos, b);
        if next == None {
          return None, eof;
        }
        result := next.value;
        bitpos := (bitpos + 7) % 256;
        if b < 128 {
          break;
        }
      }
      if bitpos == 35 && (b as nat / 16) % 8 != 0 {
        return None, eof;
      }
      return Some(result), eof;
    }

    method DecodeVarint32() returns (r: Option<nat>)
      requires Valid()
      modifies this
      ensures Leaves(r, Varint32Of(old(Remaining())), old(End()))
    {
      var eof;
      r, eof := DecodeVarint32Eof();
    }

    /** pb_decode_varint: bits shifted beyond the 64th fall away. */
    method DecodeVarint() returns (r: Option<nat>)
      requires Valid()
      modifies this
      ensures Leaves(r, VarintOf(old(Remaining())), old(End()))
      ensures r.Some? ==> r.value < TWO64
    {
      hide Pending, Shifted, Varied;
      var bitpos: nat, result: nat := 0, 0;
      ghost var n: nat, full: nat := 0, 0;
      PendingStart(Remaining());
      while true
        invariant Valid() && End() == old(End()) && bitpos == 7 * n && n <= 10 && result == full % TWO64
        invariant Pending(Remaining(), full, n) == Pending(old(Remaining()), 0, 0)
        decreases bytesLeft
      {
        PendingNext(Remaining(), full, n);
        if bitpos >= 64 {
          return None;
        }
        var more := ReadByte();
        if more == None {
          return None;
        }
        var b := more.value;
        var low := Shifted(b, bitpos);
        result := (result + low) % TWO64;
        AddUnderModulus(full, low);
        full, n, bitpos := full + low, n + 1, bitpos + 7;
        if b < 128 {
          break;
        }
      }
      return Some(result);
    }

    /** pb_skip_varint. */
    method SkipVarint() returns (r: Option<()>)
      requires Valid()
      modifies this
      ensures Leaves(r, NanopbMessage.SkipVarint(old(Remaining())), old(End()))
    {
      while true
        invariant Valid() && End() == old(End())
        invariant NanopbMessage.SkipVarint(Remaining()) == NanopbMessage.SkipVarint(old(Remaining()))
        decreases bytesLeft
      {
        var b := ReadByte();
        if b == None {
          return None;
        }
        if b.value < 128 {
          return Some(());
        }
      }
    }

    /** pb_skip_field. */
    method SkipField(wire: nat) returns (r: Option<()>)
      requires Valid()
      modifies this
      ensures Leaves(r, Skip(wire, old(Remaining())), old(End()))
    {
      hide Varint32;
      var skipped: Option<Bytes>;
      if wire == VARINT {
        r := SkipVarint();
        return;
      } else if wire == BITS64 {
        skipped := Read(8);
      } else if wire == STRING {
        var length := DecodeVarint32();
        if length == None {
          return None;
        }
        skipped := Read(length.value);
      } else if wire == BITS32 {
        skipped := Read(4);
      } else {
        return None;
      }
      r := if skipped == None then None else Some(());
    }

    /** pb_make_string_substream: the substream is at the same position; the stream itself counts the bytes as gone, but
        stays where it is until the substream is closed. */
    method MakeSubstream() returns (sub: IStream?)
      requires Valid()
      modifies this
      ensures Valid() && End() <= old(End())
      ensures sub == null <==> Substream(old(Remaining())).Fail?
      ensures sub != null ==> fresh(sub) && sub.Valid() && sub.buffer == buffer && sub.bytesLeft < old(bytesLeft)
      ensures sub != null ==> sub.End() + bytesLeft == old(End())
      ensures sub != null ==>
                Substream(old(Remaining())) == Got(sub.Remaining(), buffer[sub.End()..sub.End() + bytesLeft])
    {
      hide Varint32;
      ghost var input := Remaining();
      Varint32Shrinks(input);
      var size := DecodeVarint32();
      if size == None || bytesLeft < size.value {
        return null;
      }
      sub := new IStream(buffer, state, size.value);
      assert Remaining()[..size.value] == sub.Remaining();
      assert Remaining()[size.value..] == buffer[sub.End()..End()];
      bytesLeft := bytesLeft - size.value;
    }

    /** pb_close_string_substream: skip what is left of the substream, and go on after it. */
    method CloseSubstream(sub: IStream)
      requires sub.Valid() && sub != this && sub.End() + bytesLeft <= |buffer|
      modifies this, sub
      ensures Valid() && bytesLeft == old(bytesLeft) && state == old(sub.End())
    {
      if sub.bytesLeft > 0 {
        var skipped := sub.Read(sub.bytesLeft);
      }
      state := sub.state;
    }

    // ----- the decoders of the types -----

    /** pb_dec_varint, pb_dec_uvarint and pb_dec_svarint. */
    method DecodeInt(t: Type) returns (v: Option<Value>)
      requires Valid() && TypeOk(t) && (t.Int? || t.UInt? || t.SInt?)
      modifies this
      ensures Leaves(v, DecInt(t, old(Remaining())), old(End()))
    {
      hide Varied;
      var u := DecodeVarint();
      if u == None {
        return None;
      }
      var i: int := u.value;
      if t.SInt? {
        i := UnZigZag(u.value);
      } else if t.Int? {
        i := if t.size == 8 then ToSigned(u.value) else Signed32(u.value);
      }
      return if ScalarOk(t, Number(i)) then Some(Number(i)) else None;
    }

    /** pb_dec_bytes, pb_dec_string and pb_dec_fixed_length_bytes. */
    method DecodeSized(t: Type) returns (v: Option<Value>)
      requires Valid() && (t.ByteArray? || t.Text? || t.FixedBytes?)
      modifies this
      ensures Leaves(v, DecSized(t, old(Remaining())), old(End()))
    {
      hide Varint32;
      var size := DecodeVarint32();
      if size == None || !LengthOk(t, size.value) {
        return None;
      }
      if t.FixedBytes? && size.value == 0 {
        return Some(Zero(t));
      }
      var b := Read(size.value);
      if b == None {
        return None;
      }
      return Some(Raw(if t.Text? then UpToZero(b.value) else b.value));
    }

    method DecodeScalar(t: Type) returns (v: Option<Value>)
      requires Valid() && TypeOk(t) && !t.Message?
      modifies this
      ensures Leaves(v, DecScalar(t, old(Remaining())), old(End()))
    {
      hide Varint32, Unfixed, DecInt, DecSized;
      match t {
        case Bool =>
          var u := DecodeVarint32();
          return if u == None then None else Some(Truth(u.value != 0));
        case Fixed32 =>
          var b := Read(4);
          return if b == None then None else Some(Number(Unfixed(b.value)));
        case Fixed64 =>
          var b := Read(8);
          return if b == None then None else Some(Number(Unfixed(b.value)));
        case Int(_) => v := DecodeInt(t);
        case UInt(_) => v := DecodeInt(t);
        case SInt(_) => v := DecodeInt(t);
        case ByteArray(_) => v := DecodeSized(t);
        case Text(_) => v := DecodeSized(t);
        case FixedBytes(_) => v := DecodeSized(t);
      }
    }

    /** The packed branch of decode_static_field: one item after another, as long as there are bytes and room. */
    method DecodePacked(t: Type, items: seq<Value>, arraySize: nat) returns (vs: Option<seq<Value>>)
      requires Valid() && TypeOk(t) && !t.Message?
      modifies this
      ensures Valid() && End() <= old(End())
      ensures var sub := Substream(old(Remaining()));
              var r := if sub.Fail? then Fail else DecPacked(t, items, arraySize, sub.v);
              Leaves(vs, if r.Fail? then Fail else Got(r.v, sub.rest), old(End()))
    {
      hide DecScalar, Substream;
      var sub := MakeSubstream();
      if sub == null {
        return None;
      }
      ghost var input, end := sub.Remaining(), sub.End();
      var status, found := true, items;
      while sub.bytesLeft > 0 && |found| < arraySize
        invariant fresh(sub) && sub.Valid() && sub.buffer == buffer && sub.End() <= end
        invariant status && sub.End() == end
        invariant DecPacked(t, found, arraySize, sub.Remaining()) == DecPacked(t, items, arraySize, input)
        decreases sub.bytesLeft
        modifies sub
      {
        var v := sub.DecodeScalar(t);
        if v == None {
          status := false;
          break;
        }
        found := found + [v.value];
      }
      if sub.bytesLeft != 0 {
        return None;
      }
      CloseSubstream(sub);
      return if status then Some(found) else None;
    }

    /** pb_dec_submessage.  Items of arrays and members of oneofs start from defaults. */
    method DecodeSubmessage(fields: seq<Field>, start: seq<Slot>) returns (v: Option<Value>)
      requires Valid() && FieldsOk(fields) && |start| == |fields|
      modifies this
      ensures var sub := Substream(old(Remaining()));
              var r := if sub.Fail? then Fail else DecFields(fields, start, {}, sub.v);
              Leaves(v, if r.Fail? then Fail else Got(Nested(r.v), sub.rest), old(End()))
      decreases bytesLeft, 0
    {
      hide DecFields, Substream, FieldsOk;
      var sub := MakeSubstream();
      if sub == null {
        return None;
      }
      ghost var end := sub.End();
      var slots := sub.DecodeNoInit(fields, start);
      CloseSubstream(sub);
      return if slots == None then None else Some(Nested(slots.value));
    }

    method DecodeValue(t: Type, s: Slot) returns (v: Option<Value>)
      requires Valid() && TypeOk(t)
      modifies this
      ensures Leaves(v, DecValue(t, s, old(Remaining())), old(End()))
      decreases bytesLeft, 1
    {
      hide DecFields, DecScalar, Substream, FieldsOk;
      if t.Message? {
        v := DecodeSubmessage(t.fields, StartFrom(t, s));
      } else {
        v := DecodeScalar(t);
      }
    }

    /** decode_static_field. */
    method DecodeSlot(f: Field, s: Slot, wire: nat) returns (r: Option<Slot>)
      requires Valid() && TypeOk(f.t)
      modifies this
      ensures Leaves(r, DecSlot(f, s, wire, old(Remaining())), old(End()))
      decreases bytesLeft, 2
    {
      hide DecValue, DecPacked, Substream;
      match f.rule {
        case Required =>
          var v := DecodeValue(f.t, s);
          return if v == None then None else Some(Always(v.value));
        case Optional =>
          var v := DecodeValue(f.t, s);
          return if v == None then None else Some(Maybe(true, v.value));
        case Repeated(arraySize) =>
          var items := Items(s);
          if wire == STRING && Packable(f.t) {
            var vs := DecodePacked(f.t, items, arraySize);
            return if vs == None then None else Some(Many(vs.value));
          }
          if |items| >= arraySize {
            return None;
          }
          var v := DecodeValue(f.t, Many([]));
          return if v == None then None else Some(Many(items + [v.value]));
        case OneOf(_) =>
          var v := DecodeValue(f.t, Member(None));
          return if v == None then None else Some(Member(Some(v.value)));
      }
    }

    /** pb_decode_tag: the wire type and the field number.  `eof` also for a zero tag. */
    method DecodeTag() returns (tag: Option<(nat, nat)>, eof: bool)
      requires Valid()
      modifies this
      ensures Valid() && End() <= old(End())
      ensures var r := Varint32Of(old(Remaining()));
              && (eof <==> old(bytesLeft) == 0 || (r.Got? && r.v == 0))
              && (r.Got? ==> Remaining() == r.rest && End() == old(End()))
              && (tag.Some? <==> r.Got? && r.v != 0)
              && (tag.Some? ==> tag.value == (r.v % 8, r.v / 8) && bytesLeft < old(bytesLeft))
    {
      hide Varint32;
      Varint32Shrinks(Remaining());
      var temp;
      temp, eof := DecodeVarint32Eof();
      if temp == None {
        return None, eof;
      }
      if temp.value == 0 {
        return None, true;
      }
      return Some((temp.value % 8, temp.value / 8)), eof;
    }

    /** pb_decode_noinit.  `fieldsSeen` has a bit for each of the first 64 required fields. */
    method DecodeNoInit(fields: seq<Field>, start: seq<Slot>) returns (r: Option<seq<Slot>>)
      requires Valid() && FieldsOk(fields) && |start| == |fields|
      modifies this
      ensures Leaves(r, DecFields(fields, start, {}, old(Remaining())), old(End()))
      ensures r.Some? ==> |r.value| == |fields|
      decreases bytesLeft, 3
    {
      hide DecFields, DecSlot, FieldsOk, Varint32, SkipUnknown, Finish, Place, BitsAre;
      var fieldsSeen := new bool[MAX_REQUIRED_FIELDS](_ => false);
      var iter := new FieldIter(fields);
      ghost var whole, seen: set<nat> := DecFields(fields, start, {}, Remaining()), {};
      var slots := start;
      NoBits(fields, fieldsSeen[..]);
      while bytesLeft > 0
        invariant Valid() && End() == old(End()) && |slots| == |fields|
        invariant fresh(iter) && iter.Valid() && iter.fields == fields
        invariant fresh(fieldsSeen) && BitsAre(fields, seen, fieldsSeen[..])
        invariant whole == DecFields(fields, slots, seen, Remaining())
        decreases bytesLeft
      {
        NextField(fields, slots, seen, Remaining());
        var tag, eof := DecodeTag();
        if tag == None {
          if eof {
            break;
          }
          return None;
        }
        var found := iter.FindTag(tag.value.1);
        FindIs(fields, tag.value.1, iter.pos, found);
        if !found || fields == [] {
          var skipped := SkipUnknownField(fields, tag.value);
          if skipped == None {
            return None;
          }
        } else {
          var k := iter.pos;
          FieldOk(fields, k);
          MarkSeen(iter, fieldsSeen, seen);
          var s := DecodeSlot(fields[k], slots[k], tag.value.0);
          if s == None {
            return None;
          }
          slots := Place(fields, slots, k, s.value);
          seen := seen + {k};
        }
      }
      if bytesLeft == 0 {
        NoMoreFields(fields, slots, seen, Remaining());
      }
      assert whole == Finish(fields, slots, seen, Remaining());
      var complete := AllRequired(fields, iter, fieldsSeen, slots, seen, Remaining());
      return if complete then Some(slots) else None;
    }

    method SkipUnknownField(fields: seq<Field>, tag: (nat, nat)) returns (r: Option<()>)
      requires Valid() && tag.0 < 8
      modifies this
      ensures Leaves(r, SkipUnknown(fields, tag.1 * 8 + tag.0, old(Remaining())), old(End()))
    {
      hide DecScalar, Skip;
      if fields == [] && tag.1 == 0 {
        var ignored := DecodeScalar(Bool);
        return if ignored == None then None else Some(());
      }
      r := SkipField(tag.0);
    }

    /** Set the bit of the field the iterator is at, if it has one. */
    method MarkSeen(iter: FieldIter, fieldsSeen: array<bool>, ghost seen: set<nat>)
      requires iter.Valid() && iter.pos < |iter.fields| && BitsAre(iter.fields, seen, fieldsSeen[..])
      modifies fieldsSeen
      ensures BitsAre(iter.fields, seen + {iter.pos}, fieldsSeen[..])
    {
      BitsLength(iter.fields, seen, fieldsSeen[..]);
      hide BitsAre, RequiredBefore;
      if iter.fields[iter.pos].rule.Required? && iter.requiredFieldIndex < MAX_REQUIRED_FIELDS {
        SetBit(iter.fields, seen, fieldsSeen[..], iter.pos);
        fieldsSeen[iter.requiredFieldIndex] := true;
      } else {
        NoBit(iter.fields, seen, fieldsSeen[..], iter.pos);
      }
    }

    /** The check for required fields: their number is found by going to the end of the descriptor. */
    method AllRequired(fields: seq<Field>, iter: FieldIter, fieldsSeen: array<bool>, ghost slots: seq<Slot>,
                       ghost seen: set<nat>,
        ghost rest: Bytes)
      returns (complete: bool)
      requires iter.Valid() && iter.fields == fields
      requires BitsAre(fields, seen, fieldsSeen[..])
      modifies iter
      ensures Finish(fields, slots, seen, rest) == if complete then Got(slots, rest) else Fail
    {
      BitsLength(fields, seen, fieldsSeen[..]);
      hide Finish, BitsAre;
      var count: nat := iter.requiredFieldIndex;
      var last := iter.pos;
      var more := true;
      while more
        invariant iter.Valid() && iter.fields == fields
        invariant !more ==> iter.pos == 0 && last == if fields == [] then 0 else |fields| - 1
        invariant !more ==> count == RequiredBefore(fields, last)
        decreases more, |fields| - iter.pos
      {
        count := iter.requiredFieldIndex;
        last := iter.pos;
        more := iter.Next();
      }
      if fields != [] && fields[last].rule.Required? {
        count := count + 1;
      }
      assert count == RequiredBefore(fields, |fields|);
      if count > MAX_REQUIRED_FIELDS {
        count := MAX_REQUIRED_FIELDS;
      }
      BitsDecide(fields, slots, seen, fieldsSeen[..], count, rest);
      for j := 0 to count
        invariant forall i :: 0 <= i < j ==> fieldsSeen[i]
      {
        if !fieldsSeen[j] {
          return false;
        }
      }
      return true;
    }

    /** pb_decode. */
    method Decode(fields: seq<Field>) returns (r: Option<seq<Slot>>)
      requires Valid() && FieldsOk(fields)
      modifies this
      ensures Leaves(r, NanopbMessage.Decode(fields, old(Remaining())), old(End()))
    {
      r := DecodeNoInit(fields, Defaults(fields));
    }
  }

  /** The low seven bits of a byte, in their place. */
  function Shifted(b: byte, bitpos: nat): nat {
    b as nat % 128 * Power(2, bitpos)
  }

  /** What the 64-bit decoder is going to give after `n` bytes that came to `full`, with `input` to come. */
  ghost function Pending(input: Bytes, full: nat, n: nat): Decoded<nat>
    requires n <= 10
  {
    var r := Unvarint(input, 10 - n);
    if r == None then Fail else Got(Joined(full, r.value.0, 7 * n), input[r.value.1..])
  }

  function Joined(full: nat, v: nat, bitpos: nat): nat {
    (full + Power(2, bitpos) * v) % TWO64
  }

  lemma JoinedLast(full: nat, b: byte, bitpos: nat)
    requires b < 128
    ensures Joined(full, b as nat, bitpos) == (full + Shifted(b, bitpos)) % TWO64
  {
  }

  lemma JoinedMore(full: nat, b: byte, v: nat, bitpos: nat)
    requires b >= 128
    ensures Joined(full, b as nat - 128 + 128 * v, bitpos) == Joined(full + Shifted(b, bitpos), v, bitpos + 7)
  {
    SevenUp(bitpos);
    hide Power;
    Distribute(full, b as nat - 128, v, Power(2, bitpos));
  }

  lemma PendingStart(input: Bytes)
    ensures Pending(input, 0, 0) == VarintOf(input)
  {
    hide Unvarint;
    assert Power(2, 0) == 1;
  }

  lemma AddUnderModulus(a: nat, b: nat)
    ensures (a % TWO64 + b) % TWO64 == (a + b) % TWO64
  {
  }

  lemma PendingNext(input: Bytes, full: nat, n: nat)
    requires n <= 10
    ensures input == [] || n == 10 ==> Pending(input, full, n) == Fail
    ensures input != [] && n < 10 ==>
              var next := full + Shifted(input[0], 7 * n);
              Pending(input, full, n) == if input[0] < 128 then Got(next % TWO64, input[1..]) else Pending(input[1..],
                                                                                                           next, n + 1)
  {
    hide Joined, Shifted;
    if input != [] && n < 10 {
      var r := Unvarint(input[1..], 9 - n);
      if input[0] < 128 {
        JoinedLast(full, input[0], 7 * n);
      } else if r.Some? {
        JoinedMore(full, input[0], r.value.0, 7 * n);
        assert input[1..][r.value.1..] == input[r.value.1 + 1..];
      }
    }
  }

  lemma Distribute(full: nat, low: nat, v: nat, p: nat)
    ensures full + p * (low + 128 * v) == full + low * p + 128 * p * v
  {
    assert p * (low + 128 * v) == p * low + p * (128 * v);
  }

  function Varint32Of(input: Bytes): Decoded<nat> {
    var r := Varint32(input);
    if r == None then Fail else Got(r.value.0, r.value.1)
  }

  function VarintOf(input: Bytes): Decoded<nat> {
    var r := Varied(input, MAX_VARINT64, TWO64);
    if r == None then Fail else Got(r.value.0, r.value.1)
  }

  // ----- required fields -----

  /** The bits that the decoder has set are those of the required fields among those seen. */
  ghost predicate BitsAre(fields: seq<Field>, seen: set<nat>, bits: seq<bool>) {
    |bits| == MAX_REQUIRED_FIELDS && forall k :: 0 <= k < |fields| && Counted(fields, k) ==>
      (bits[RequiredBefore(fields, k)] <==> k in seen)
  }

  lemma NoBits(fields: seq<Field>, bits: seq<bool>)
    requires |bits| == MAX_REQUIRED_FIELDS && forall i :: 0 <= i < |bits| ==> !bits[i]
    ensures BitsAre(fields, {}, bits)
  {
  }

  lemma {:induction false} RequiredGrows(fields: seq<Field>, i: nat, j: nat)
    requires i < j <= |fields|
    ensures RequiredBefore(fields, j) >= RequiredBefore(fields, i) + if fields[i].rule.Required? then 1 else 0
    decreases j
  {
    if i < j - 1 {
      RequiredGrows(fields, i, j - 1);
    }
  }

  lemma SetBit(fields: seq<Field>, seen: set<nat>, bits: seq<bool>, k: nat)
    requires k < |fields| && Counted(fields, k) && BitsAre(fields, seen, bits)
    ensures BitsAre(fields, seen + {k}, bits[RequiredBefore(fields, k) := true])
  {
    forall i | 0 <= i < |fields| && Counted(fields, i) && i != k
      ensures RequiredBefore(fields, i) != RequiredBefore(fields, k)
    {
      if i < k {
        RequiredGrows(fields, i, k);
      } else {
        RequiredGrows(fields, k, i);
      }
    }
  }

  lemma NoBit(fields: seq<Field>, seen: set<nat>, bits: seq<bool>, k: nat)
    requires k < |fields| && !Counted(fields, k) && BitsAre(fields, seen, bits)
    ensures BitsAre(fields, seen + {k}, bits)
  {
  }

  /** Every number below the count is that of some required field. */
  lemma {:induction false} NthRequired(fields: seq<Field>, n: nat, j: nat) returns (k: nat)
    requires n <= |fields| && j < RequiredBefore(fields, n)
    ensures k < n && fields[k].rule.Required? && RequiredBefore(fields, k) == j
    decreases n
  {
    if j < RequiredBefore(fields, n - 1) {
      k := NthRequired(fields, n - 1, j);
    } else {
      k := n - 1;
    }
  }

  /** Checking the bits is checking that every required field that counts has been seen. */
  lemma BitsDecide(fields: seq<Field>, slots: seq<Slot>, seen: set<nat>, bits: seq<bool>, n: nat, rest: Bytes)
    requires BitsAre(fields, seen, bits)
    requires n == if RequiredBefore(fields, |fields|) > MAX_REQUIRED_FIELDS then MAX_REQUIRED_FIELDS
                  else RequiredBefore(fields, |fields|)
    ensures Finish(fields, slots, seen, rest) == if forall j :: 0 <= j < n ==> bits[j] then Got(slots, rest) else Fail
  {
    if forall j :: 0 <= j < n ==> bits[j] {
      forall k | 0 <= k < |fields| && Counted(fields, k) ensures k in seen {
        RequiredGrows(fields, k, |fields|);
      }
    } else {
      var j :| 0 <= j < n && !bits[j];
      var k := NthRequired(fields, |fields|, j);
      assert Counted(fields, k) && k !in seen;
    }
  }

  /** One turn of the loop of pb_decode_noinit. */
  lemma NextField(fields: seq<Field>, slots: seq<Slot>, seen: set<nat>, input: Bytes)
    requires FieldsOk(fields) && |slots| == |fields| && input != []
    ensures var tag := Varint32Of(input);
            DecFields(fields, slots, seen, input)
            == if tag.Fail? then Fail
               else if tag.v == 0 then Finish(fields, slots, seen, tag.rest)
               else
                 var k := Find(fields, tag.v / 8, 0);
                 if k == |fields| then
                   var r := SkipUnknown(fields, tag.v, tag.rest);
                   if r.Fail? then Fail else DecFields(fields, slots, seen, r.rest)
                 else
                   var r := DecSlot(fields[k], slots[k], tag.v % 8, tag.rest);
                   if r.Fail? then Fail else DecFields(fields, Place(fields, slots, k, r.v), seen + {k}, r.rest)
  {
    hide Varint32, DecSlot, Place, Finish, SkipUnknown, Find;
  }

  lemma BitsLength(fields: seq<Field>, seen: set<nat>, bits: seq<bool>)
    requires BitsAre(fields, seen, bits)
    ensures |bits| == MAX_REQUIRED_FIELDS
  {
  }

  lemma NoMoreFields(fields: seq<Field>, slots: seq<Slot>, seen: set<nat>, input: Bytes)
    requires FieldsOk(fields) && |slots| == |fields| && input == []
    ensures DecFields(fields, slots, seen, input) == Finish(fields, slots, seen, input)
  {
  }

  lemma FindIs(fields: seq<Field>, tag: nat, pos: nat, found: bool)
    requires FieldsOk(fields) && pos <= |fields| && (fields != [] ==> pos < |fields|)
    requires found ==> tag == if pos == |fields| then 0 else fields[pos].tag
    requires !found ==> forall i :: 0 <= i < |fields| ==> fields[i].tag != tag
    ensures Find(fields, tag, 0) == if found && fields != [] then pos else |fields|
  {
    if found && fields != [] {
      TheField(fields, pos);
    }
  }

  /** pb_decode on a buffer: a message that fits its descriptor, or failure. */
  method DecodeBuffer(fields: seq<Field>, buffer: Bytes) returns (r: Option<seq<Slot>>)
    requires FieldsOk(fields)
    ensures r == (var d := Decode(fields, buffer); if d.Fail? then None else Some(d.v))
    ensures r.Some? ==> SlotsOk(fields, r.value) && SlotsFit(fields, r.value)
  {
    hide Decode, SlotsOk, SlotsFit, FieldsOk;
    var stream := new IStream(buffer, 0, |buffer|);
    assert stream.Remaining() == buffer;
    r := stream.Decode(fields);
    if r.Some? {
      DecodeStaysInBounds(fields, buffer);
    }
  }
}
