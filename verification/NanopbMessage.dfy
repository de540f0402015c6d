/**
 nanopb messages: descriptors, values, and the wire format they encode to and decode from.

 A message is a sequence of slots, one for each field of its descriptor.  An absent field holds its
 default value, as the decoder leaves it; of the members of a oneof at most one is set.
*/
module NanopbMessage {
  import opened Format
  import opened Coding
  import opened NanopbVarint

  const VARINT: nat := 0
  const BITS64: nat := 1
  const STRING: nat := 2
  const BITS32: nat := 5

  /** How a value is laid out: the lower type bits of a descriptor, with the sizes in bytes that go with them. */
  datatype Type =
    | Bool
    | Int(size: nat)
    | UInt(size: nat)
    | SInt(size: nat)
    | Fixed32
    | Fixed64
    | ByteArray(capacity: nat)
    | Text(dataSize: nat)
    | Message(fields: seq<Field>)
    | FixedBytes(dataSize: nat)

  datatype Rule = Required | Optional | Repeated(arraySize: nat) | OneOf(union: nat)

  /** `initial` is the default value of a field that has one and is not a message. */
  datatype Field = Field(tag: nat, rule: Rule, t: Type, initial: Option<Value>)

  datatype Value = Truth(b: bool) | Number(i: int) | Raw(bytes: Bytes) | Nested(slots: seq<Slot>)

  datatype Slot = Always(v: Value) | Maybe(has: bool, v: Value) | Many(vs: seq<Value>) | Member(o: Option<Value>)

  // ----- descriptors and values -----

  predicate IntSize(n: nat) {
    n == 1 || n == 2 || n == 4 || n == 8
  }

  predicate TypeOk(t: Type)
    decreases t, 1
  {
    match t
    case Int(size) => IntSize(size)
    case UInt(size) => IntSize(size)
    case SInt(size) => IntSize(size)
    case Message(fields) => FieldsOk(fields)
    case Text(dataSize) => dataSize > 0
    case _ => true
  }

  /** A descriptor: field numbers different and not zero, small enough for a 32-bit tag with its wire type. */
  predicate FieldsOk(fields: seq<Field>)
    decreases Type.Message(fields), 0
  {
    && (forall i :: 0 <= i < |fields| ==> 0 < fields[i].tag < 0x2000_0000 && TypeOk(fields[i].t))
    && (forall i, j :: 0 <= i < j < |fields| ==> fields[i].tag != fields[j].tag)
    && (forall i :: 0 <= i < |fields| ==> InitialOk(fields[i]))
  }

  predicate InitialOk(f: Field) {
    f.initial.Some? ==>
      !f.t.Message? && ScalarOk(f.t, f.initial.value) && ScalarFits(f.t, f.initial.value)
      && ScalarEnds(f.t, f.initial.value)
  }

  function Half(size: nat): int
    requires IntSize(size)
  {
    if size == 1 then 0x80 else if size == 2 then 0x8000 else if size == 4 then 0x8000_0000 else TWO63
  }

  /** A value of the type, for everything but messages: what the memory of the field can hold, except that the length
      of a byte array is a number of its own and may be out of bounds.  A string is what precedes the first zero; it
      may fill its array, and then has no zero after it. */
  predicate ScalarOk(t: Type, v: Value) {
    match t
    case Bool => v.Truth?
    case Int(size) => IntSize(size) && v.Number? && -Half(size) <= v.i < Half(size)
    case UInt(size) => IntSize(size) && v.Number? && 0 <= v.i < 2 * Half(size)
    case SInt(size) => IntSize(size) && v.Number? && -Half(size) <= v.i < Half(size)
    case Fixed32 => v.Number? && 0 <= v.i < TWO32
    case Fixed64 => v.Number? && 0 <= v.i < TWO64
    case ByteArray(_) => v.Raw?
    case Text(dataSize) => v.Raw? && |v.bytes| <= dataSize && 0 !in v.bytes
    case FixedBytes(dataSize) => v.Raw? && |v.bytes| == dataSize
    case Message(_) => false
  }

  predicate ValueOk(t: Type, v: Value)
    requires TypeOk(t)
    decreases t, 1
  {
    if t.Message? then v.Nested? && SlotsOk(t.fields, v.slots) else ScalarOk(t, v)
  }

  predicate SlotOk(f: Field, s: Slot)
    requires TypeOk(f.t)
    decreases f.t, 2
  {
    match f.rule
    case Required => s.Always? && ValueOk(f.t, s.v)
    case Optional => s.Maybe? && if s.has then ValueOk(f.t, s.v) else s.v == DefaultOf(f)
    case Repeated(_) => s.Many? && forall i :: 0 <= i < |s.vs| ==> ValueOk(f.t, s.vs[i])
    case OneOf(_) => s.Member? && (s.o.Some? ==> ValueOk(f.t, s.o.value))
  }

  predicate SameUnion(f: Field, g: Field) {
    f.rule.OneOf? && f.rule == g.rule
  }

  predicate IsSet(s: Slot) {
    s.Member? && s.o.Some?
  }

  /** At most one member of a union is set. */
  predicate OneSet(fields: seq<Field>, slots: seq<Slot>)
    requires |fields| == |slots|
  {
    forall i, j :: 0 <= i < j < |fields| && SameUnion(fields[i], fields[j]) ==> !IsSet(slots[i]) || !IsSet(slots[j])
  }

  predicate SlotsOk(fields: seq<Field>, slots: seq<Slot>)
    requires FieldsOk(fields)
    decreases Type.Message(fields), 0
  {
    && |slots| == |fields| && OneSet(fields, slots)
    && forall i :: 0 <= i < |fields| ==> SlotOk(fields[i], slots[i])
  }

  // ----- bounds -----

  predicate ScalarFits(t: Type, v: Value) {
    t.ByteArray? && v.Raw? ==> |v.bytes| <= t.capacity
  }

  predicate ValueFits(t: Type, v: Value)
    requires TypeOk(t) && ValueOk(t, v)
    decreases t, 1
  {
    if t.Message? then SlotsFit(t.fields, v.slots) else ScalarFits(t, v)
  }

  predicate SlotFits(f: Field, s: Slot)
    requires TypeOk(f.t) && SlotOk(f, s)
    decreases f.t, 2
  {
    match f.rule
    case Required => ValueFits(f.t, s.v)
    case Optional => s.has ==> ValueFits(f.t, s.v)
    case Repeated(arraySize) => |s.vs| <= arraySize && forall i :: 0 <= i < |s.vs| ==> ValueFits(f.t, s.vs[i])
    case OneOf(_) => s.o.Some? ==> ValueFits(f.t, s.o.value)
  }

  /** No array, of bytes or of items, is longer than its field. */
  predicate SlotsFit(fields: seq<Field>, slots: seq<Slot>)
    requires FieldsOk(fields) && SlotsOk(fields, slots)
    decreases Type.Message(fields), 0
  {
    forall i :: 0 <= i < |fields| ==> SlotFits(fields[i], slots[i])
  }

  // ----- strings that end -----

  /** A string leaves room for its terminator. */
  predicate ScalarEnds(t: Type, v: Value) {
    t.Text? && v.Raw? ==> |v.bytes| < t.dataSize
  }

  predicate ValueEnds(t: Type, v: Value)
    requires TypeOk(t) && ValueOk(t, v)
    decreases t, 1
  {
    if t.Message? then SlotsEnd(t.fields, v.slots) else ScalarEnds(t, v)
  }

  predicate SlotEnds(f: Field, s: Slot)
    requires TypeOk(f.t) && SlotOk(f, s)
    decreases f.t, 2
  {
    match f.rule
    case Required => ValueEnds(f.t, s.v)
    case Optional => s.has ==> ValueEnds(f.t, s.v)
    case Repeated(_) => forall i :: 0 <= i < |s.vs| ==> ValueEnds(f.t, s.vs[i])
    case OneOf(_) => s.o.Some? ==> ValueEnds(f.t, s.o.value)
  }

  /** Every string of the message, at any depth, is shorter than its array. */
  predicate SlotsEnd(fields: seq<Field>, slots: seq<Slot>)
    requires FieldsOk(fields) && SlotsOk(fields, slots)
    decreases Type.Message(fields), 0
  {
    forall i :: 0 <= i < |fields| ==> SlotEnds(fields[i], slots[i])
  }

  // ----- defaults -----

  function Zero(t: Type): Value
    decreases t, 1
  {
    match t
    case Bool => Truth(false)
    case ByteArray(_) => Raw([])
    case Text(_) => Raw([])
    case FixedBytes(dataSize) => Raw(seq(dataSize, _ => 0 as byte))
    case Message(fields) => Nested(Defaults(fields))
    case _ => Number(0)
  }

  /** pb_field_set_to_default. */
  function DefaultOf(f: Field): Value
    decreases f.t, 2
  {
    if f.initial.Some? then f.initial.value else Zero(f.t)
  }

  function DefaultSlot(f: Field): Slot
    decreases f.t, 3
  {
    match f.rule
    case Required => Always(DefaultOf(f))
    case Optional => Maybe(false, DefaultOf(f))
    case Repeated(_) => Many([])
    case OneOf(_) => Member(None)
  }

  /** pb_message_set_to_defaults. */
  function Defaults(fields: seq<Field>): (r: seq<Slot>)
    ensures |r| == |fields|
    decreases Type.Message(fields), 0
  {
    seq(|fields|, i requires 0 <= i < |fields| => DefaultSlot(fields[i]))
  }

  // ----- encoding -----

  function WireType(t: Type): nat {
    match t
    case Fixed32 => BITS32
    case Fixed64 => BITS64
    case Bool => VARINT
    case Int(_) => VARINT
    case UInt(_) => VARINT
    case SInt(_) => VARINT
    case _ => STRING
  }

  /** PB_LTYPE_LAST_PACKABLE. */
  predicate Packable(t: Type) {
    WireType(t) != STRING
  }

  function TagBytes(tag: nat, wire: nat): Bytes {
    Varint(tag * 8 + wire)
  }

  function EncScalar(t: Type, v: Value): (b: Bytes)
    requires ScalarOk(t, v)
  {
    match t
    case Bool => Varint(if v.b then 1 else 0)
    case Int(size) => Varint(ToUnsigned(v.i))
    case UInt(size) => Varint(v.i)
    case SInt(size) => Varint(ZigZag(v.i))
    case Fixed32 => Fixed(v.i, 4)
    case Fixed64 => Fixed(v.i, 8)
    case ByteArray(_) => Prefixed(v.bytes)
    case Text(_) => Prefixed(v.bytes)
    case FixedBytes(_) => Prefixed(v.bytes)
  }

  function EncValue(t: Type, v: Value): Bytes
    requires TypeOk(t) && ValueOk(t, v)
    decreases t, 1, 0
  {
    if t.Message? then Prefixed(Enc(t.fields, v.slots, 0)) else EncScalar(t, v)
  }

  /** The items of a packed array, one after another. */
  function EncPacked(t: Type, vs: seq<Value>): Bytes
    requires TypeOk(t) && forall i :: 0 <= i < |vs| ==> ValueOk(t, vs[i])
    decreases t, 2, |vs|
  {
    if vs == [] then [] else EncValue(t, vs[0]) + EncPacked(t, vs[1..])
  }

  /** The items of an array that cannot be packed, each with a tag of its own. */
  function EncEach(tag: nat, t: Type, vs: seq<Value>): Bytes
    requires TypeOk(t) && forall i :: 0 <= i < |vs| ==> ValueOk(t, vs[i])
    decreases t, 2, |vs|
  {
    if vs == [] then [] else TagBytes(tag, WireType(t)) + EncValue(t, vs[0]) + EncEach(tag, t, vs[1..])
  }

  function EncSlot(f: Field, s: Slot): Bytes
    requires TypeOk(f.t) && SlotOk(f, s)
    decreases f.t, 3, 0
  {
    match f.rule
    case Required => TagBytes(f.tag, WireType(f.t)) + EncValue(f.t, s.v)
    case Optional => if s.has then TagBytes(f.tag, WireType(f.t)) + EncValue(f.t, s.v) else []
    case Repeated(_) =>
      if s.vs == [] then []
      else if Packable(f.t) then TagBytes(f.tag, STRING) + Prefixed(EncPacked(f.t, s.vs))
      else EncEach(f.tag, f.t, s.vs)
    case OneOf(_) => if s.o.Some? then TagBytes(f.tag, WireType(f.t)) + EncValue(f.t, s.o.value) else []
  }

  /** The fields from number `k` on. */
  function Enc(fields: seq<Field>, slots: seq<Slot>, k: nat): Bytes
    requires FieldsOk(fields) && SlotsOk(fields, slots) && k <= |fields|
    decreases Type.Message(fields), 0, |fields| - k
  {
    if k == |fields| then [] else EncSlot(fields[k], slots[k]) + Enc(fields, slots, k + 1)
  }

  // ----- decoding -----

  datatype Decoded<T> = Got(v: T, rest: Bytes) | Fail

  function Signed32(u: nat): int {
    var low := u % TWO32;
    if low < 0x8000_0000 then low else low - TWO32
  }

  /** pb_read into a field. */
  function Read(input: Bytes, n: nat): (r: Decoded<Bytes>)
    ensures r.Got? ==> n <= |input| && r.rest == input[n..]
  {
    if |input| < n then Fail else Got(input[..n], input[n..])
  }

  /** A length and that many bytes: pb_make_string_substream. */
  function Substream(input: Bytes): (r: Decoded<Bytes>)
    ensures r.Got? ==> |r.v| < |input| && |r.rest| < |input|
  {
    var n := Varint32(input);
    if n == None then Fail
    else
      Varint32Shrinks(input);
      Read(n.value.1, n.value.0)
  }

  function DecInt(t: Type, input: Bytes): (r: Decoded<Value>)
    requires t.Int? || t.UInt? || t.SInt?
    requires TypeOk(t)
    ensures r.Got? ==> |r.rest| < |input|
  {
    var u := Varied(input, MAX_VARINT64, TWO64);
    if u == None then Fail
    else
      var n := u.value.0;
      var i := if t.UInt? then n else if t.SInt? then UnZigZag(n) else if t.size == 8 then ToSigned(n) else Signed32(n);
      if ScalarOk(t, Number(i)) then Got(Number(i), u.value.1) else Fail
  }

  /** A C string ends at its first zero. */
  function UpToZero(b: Bytes): (r: Bytes)
    ensures |r| <= |b| && 0 !in r
  {
    if b == [] || b[0] == 0 then [] else [b[0]] + UpToZero(b[1..])
  }

  predicate LengthOk(t: Type, size: nat)
    requires t.ByteArray? || t.Text? || t.FixedBytes?
  {
    match t
    case ByteArray(capacity) => size <= capacity
    case Text(dataSize) => size < dataSize
    case FixedBytes(dataSize) => size == 0 || size == dataSize
  }

  /** Bytes, strings and fixed-length bytes; the last are all zero when the length is. */
  function DecSized(t: Type, input: Bytes): (r: Decoded<Value>)
    requires t.ByteArray? || t.Text? || t.FixedBytes?
    ensures r.Got? ==> |r.rest| < |input|
  {
    var n := Varint32(input);
    if n == None || !LengthOk(t, n.value.0) then Fail
    else
      Varint32Shrinks(input);
      if t.FixedBytes? && n.value.0 == 0 then Got(Zero(t), n.value.1)
      else
        var r := Read(n.value.1, n.value.0);
        if r.Fail? then Fail else Got(Raw(if t.Text? then UpToZero(r.v) else r.v), r.rest)
  }

  /** The decoders of all types but messages. */
  function DecScalar(t: Type, input: Bytes): (r: Decoded<Value>)
    requires TypeOk(t) && !t.Message?
    ensures r.Got? ==> |r.rest| < |input|
  {
    match t
    case Bool =>
      var u := Varint32(input);
      if u == None then Fail else Varint32Shrinks(input); Got(Truth(u.value.0 != 0), u.value.1)
    case Fixed32 => var r := Read(input, 4); if r.Got? then Got(Number(Unfixed(r.v)), r.rest) else Fail
    case Fixed64 => var r := Read(input, 8); if r.Got? then Got(Number(Unfixed(r.v)), r.rest) else Fail
    case Int(_) => DecInt(t, input)
    case UInt(_) => DecInt(t, input)
    case SInt(_) => DecInt(t, input)
    case ByteArray(_) => DecSized(t, input)
    case Text(_) => DecSized(t, input)
    case FixedBytes(_) => DecSized(t, input)
  }

  /** The items of a packed array, added to those there are.  All of the substream must be used. */
  function DecPacked(t: Type, items: seq<Value>, arraySize: nat, input: Bytes): Decoded<seq<Value>>
    requires TypeOk(t) && !t.Message?
    decreases |input|
  {
    if input == [] then Got(items, [])
    else if |items| >= arraySize then Fail
    else
      var r := DecScalar(t, input);
      if r.Fail? then Fail else DecPacked(t, items + [r.v], arraySize, r.rest)
  }

  /** What a message in the field starts from, when the field is decoded into rather than set. */
  function StartFrom(t: Type, s: Slot): seq<Slot>
    requires t.Message?
  {
    if (s.Always? || s.Maybe?) && s.v.Nested? && |s.v.slots| == |t.fields| then s.v.slots else Defaults(t.fields)
  }

  /** A field's own decoder.  A message is read from its substream, of which the rest is skipped. */
  function DecValue(t: Type, s: Slot, input: Bytes): (r: Decoded<Value>)
    requires TypeOk(t)
    ensures r.Got? ==> |r.rest| < |input|
    decreases |input|, 0
  {
    if !t.Message? then DecScalar(t, input)
    else
      var sub := Substream(input);
      if sub.Fail? then Fail
      else
        var r := DecFields(t.fields, StartFrom(t, s), {}, sub.v);
        if r.Fail? then Fail else Got(Nested(r.v), sub.rest)
  }

  function Items(s: Slot): seq<Value> {
    if s.Many? then s.vs else []
  }

  /** decode_static_field.  The wire type matters only where it tells a packed array from one item. */
  function DecSlot(f: Field, s: Slot, wire: nat, input: Bytes): (r: Decoded<Slot>)
    requires TypeOk(f.t)
    ensures r.Got? ==> |r.rest| < |input|
    decreases |input|, 1
  {
    match f.rule
    case Required =>
      var r := DecValue(f.t, s, input);
      if r.Fail? then Fail else Got(Always(r.v), r.rest)
    case Optional =>
      var r := DecValue(f.t, s, input);
      if r.Fail? then Fail else Got(Maybe(true, r.v), r.rest)
    case Repeated(arraySize) =>
      if wire == STRING && Packable(f.t) then
        var sub := Substream(input);
        if sub.Fail? then Fail
        else
          var r := DecPacked(f.t, Items(s), arraySize, sub.v);
          if r.Fail? then Fail else Got(Many(r.v), sub.rest)
      else if |Items(s)| >= arraySize then Fail
      else
        var r := DecValue(f.t, Many([]), input);
        if r.Fail? then Fail else Got(Many(Items(s) + [r.v]), r.rest)
    case OneOf(_) =>
      var r := DecValue(f.t, Member(None), input);
      if r.Fail? then Fail else Got(Member(Some(r.v)), r.rest)
  }

  /** Setting a member of a oneof unsets the others. */
  function Place(fields: seq<Field>, slots: seq<Slot>, k: nat, s: Slot): (r: seq<Slot>)
    requires |slots| == |fields| && k < |fields|
    ensures |r| == |fields|
  {
    seq(|fields|, i requires 0 <= i < |fields| =>
      if i == k then s else if SameUnion(fields[k], fields[i]) then Member(None) else slots[i])
  }

  /** Unions are told apart by their numbers: setting a member of one leaves the others as they are, and a message may
      have a member of each set. */
  lemma UnionsApart(fields: seq<Field>, slots: seq<Slot>, k: nat, s: Slot)
    requires |slots| == |fields| && k < |fields|
    ensures forall i :: 0 <= i < |fields| ==>
              Place(fields, slots, k, s)[i]
              == if i == k then s
                 else if fields[k].rule.OneOf? && fields[i].rule.OneOf? && fields[i].rule.union == fields[k].rule.union
                 then Member(None)
                 else slots[i]
    ensures (forall i, j :: 0 <= i < j < |fields| && IsSet(slots[i]) && IsSet(slots[j]) ==>
               !fields[i].rule.OneOf? || !fields[j].rule.OneOf? || fields[i].rule.union != fields[j].rule.union)
            <==> OneSet(fields, slots)
  {
  }

  /** pb_field_iter_find: the number of the field with the tag, or the number of fields. */
  function Find(fields: seq<Field>, tag: nat, k: nat): (r: nat)
    requires k <= |fields|
    ensures k <= r <= |fields| && (r < |fields| ==> fields[r].tag == tag)
    ensures forall i :: k <= i < r ==> fields[i].tag != tag
    decreases |fields| - k
  {
    if k == |fields| || fields[k].tag == tag then k else Find(fields, tag, k + 1)
  }

  function SkipVarint(input: Bytes): (r: Decoded<()>)
    ensures r.Got? ==> |r.rest| < |input|
  {
    if input == [] then Fail else if input[0] < 128 then Got((), input[1..]) else SkipVarint(input[1..])
  }

  /** pb_skip_field. */
  function Skip(wire: nat, input: Bytes): (r: Decoded<()>)
    ensures r.Got? ==> |r.rest| <= |input|
  {
    if wire == VARINT then SkipVarint(input)
    else if wire == BITS64 || wire == BITS32 then
      var r := Read(input, if wire == BITS64 then 8 else 4);
      if r.Fail? then Fail else Got((), r.rest)
    else if wire == STRING then
      var sub := Substream(input);
      if sub.Fail? then Fail else Got((), sub.rest)
    else Fail
  }

  const MAX_REQUIRED_FIELDS: nat := 64

  /** How many of the first `k` fields are required. */
  function RequiredBefore(fields: seq<Field>, k: nat): nat
    requires k <= |fields|
  {
    if k == 0 then 0 else RequiredBefore(fields, k - 1) + if fields[k - 1].rule.Required? then 1 else 0
  }

  /** Only the first 64 required fields have a bit in fields_seen. */
  predicate Counted(fields: seq<Field>, k: nat)
    requires k < |fields|
  {
    fields[k].rule.Required? && RequiredBefore(fields, k) < MAX_REQUIRED_FIELDS
  }

  /** The end of the message: fail unless all required fields that count have been seen. */
  function Finish(fields: seq<Field>, slots: seq<Slot>, seen: set<nat>, rest: Bytes): Decoded<seq<Slot>> {
    if forall k :: 0 <= k < |fields| && Counted(fields, k) ==> k in seen then Got(slots, rest) else Fail
  }

  /** pb_decode_noinit: the fields of the message in the input, put into `slots`.  A zero tag ends the message early. */
  function DecFields(fields: seq<Field>, slots: seq<Slot>, seen: set<nat>, input: Bytes): (r: Decoded<seq<Slot>>)
    requires FieldsOk(fields) && |slots| == |fields|
    ensures r.Got? ==> |r.v| == |fields| && |r.rest| <= |input|
    decreases |input|, 2
  {
    if input == [] then Finish(fields, slots, seen, [])
    else
      var tag := Varint32(input);
      if tag == None then Fail
      else
        Varint32Shrinks(input);
        if tag.value.0 == 0 then Finish(fields, slots, seen, tag.value.1)
        else
          var k := Find(fields, tag.value.0 / 8, 0);
          if k == |fields| then
            var r := SkipUnknown(fields, tag.value.0, tag.value.1);
            if r.Fail? then Fail else DecFields(fields, slots, seen, r.rest)
          else
            var r := DecSlot(fields[k], slots[k], tag.value.0 % 8, tag.value.1);
            if r.Fail? then Fail else DecFields(fields, Place(fields, slots, k, r.v), seen + {k}, r.rest)
  }

  /** In a message type without fields, field number 0 finds the terminator of the descriptor, which reads as a bool. */
  function SkipUnknown(fields: seq<Field>, tag: nat, input: Bytes): (r: Decoded<()>)
    ensures r.Got? ==> |r.rest| <= |input|
  {
    if fields == [] && tag / 8 == 0 then
      var r := DecScalar(Bool, input);
      if r.Fail? then Fail else Got((), r.rest)
    else Skip(tag % 8, input)
  }

  /** pb_decode. */
  function Decode(fields: seq<Field>, input: Bytes): Decoded<seq<Slot>>
    requires FieldsOk(fields)
  {
    DecFields(fields, Defaults(fields), {}, input)
  }

  // ----- the round trip -----

  lemma UpToZeroOfText(b: Bytes)
    requires 0 !in b
    ensures UpToZero(b) == b
  {
    if b != [] {
      assert b == [b[0]] + b[1..];
      UpToZeroOfText(b[1..]);
    }
  }

  lemma SubstreamRoundTrip(b: Bytes, tail: Bytes)
    requires |b| < TWO32
    ensures Substream(Prefixed(b) + tail) == Got(b, tail)
  {
    assert Prefixed(b) + tail == Varint(|b|) + (b + tail);
    NanopbVarint.Varint32RoundTrip(|b|, b + tail);
    assert (b + tail)[..|b|] == b && (b + tail)[|b|..] == tail;
  }

  lemma ReadBack(b: Bytes, tail: Bytes)
    ensures Read(b + tail, |b|) == Got(b, tail)
  {
    assert (b + tail)[..|b|] == b && (b + tail)[|b|..] == tail;
  }

  lemma SizedRoundTrip(t: Type, b: Bytes, tail: Bytes)
    requires t.ByteArray? || t.Text? || t.FixedBytes?
    requires ScalarOk(t, Raw(b)) && ScalarFits(t, Raw(b)) && |b| < TWO32
    ensures DecSized(t, Prefixed(b) + tail) == if ScalarEnds(t, Raw(b)) then Got(Raw(b), tail) else Fail
  {
    assert Prefixed(b) + tail == Varint(|b|) + (b + tail);
    NanopbVarint.Varint32RoundTrip(|b|, b + tail);
    ReadBack(b, tail);
    if t.Text? {
      UpToZeroOfText(b);
    }
    if t.FixedBytes? && b == [] {
      assert Zero(t).bytes == b;
    }
    hide Varint32, Varint;
  }

  lemma IntRoundTrip(t: Type, i: int, tail: Bytes)
    requires TypeOk(t) && (t.Int? || t.UInt? || t.SInt?) && ScalarOk(t, Number(i))
    ensures DecInt(t, EncScalar(t, Number(i)) + tail) == Got(Number(i), tail)
  {
    hide Varied, Varint;
    if t.UInt? {
      Varint64RoundTrip(i, tail);
    } else if t.SInt? {
      Varint64RoundTrip(ZigZag(i), tail);
      ZigZagRoundTrip(i);
    } else {
      Varint64RoundTrip(ToUnsigned(i), tail);
    }
  }

  /** A value is read back, except that a string which fills its array is refused. */
  lemma ScalarRoundTrip(t: Type, v: Value, tail: Bytes)
    requires TypeOk(t) && ScalarOk(t, v) && ScalarFits(t, v) && |EncScalar(t, v)| < TWO32
    ensures DecScalar(t, EncScalar(t, v) + tail) == if ScalarEnds(t, v) then Got(v, tail) else Fail
  {
    hide Varint32, Varint, DecInt, DecSized, Fixed, Unfixed;
    match t
    case Bool => NanopbVarint.Varint32RoundTrip(if v.b then 1 else 0, tail);
    case Fixed32 =>
      Powers();
      FixedRoundTrip(v.i, 4);
      ReadBack(Fixed(v.i, 4), tail);
    case Fixed64 =>
      Powers();
      FixedRoundTrip(v.i, 8);
      ReadBack(Fixed(v.i, 8), tail);
    case Int(_) => IntRoundTrip(t, v.i, tail);
    case UInt(_) => IntRoundTrip(t, v.i, tail);
    case SInt(_) => IntRoundTrip(t, v.i, tail);
    case ByteArray(_) => SizedRoundTrip(t, v.bytes, tail);
    case Text(_) => SizedRoundTrip(t, v.bytes, tail);
    case FixedBytes(_) => SizedRoundTrip(t, v.bytes, tail);
  }

  lemma {:induction false} PackedRoundTrip(t: Type, items: seq<Value>, arraySize: nat, vs: seq<Value>)
    requires TypeOk(t) && Packable(t) && |items| <= arraySize
    requires forall i :: 0 <= i < |vs| ==> ScalarOk(t, vs[i])
    requires |EncPacked(t, vs)| < TWO32
    ensures DecPacked(t, items, arraySize, EncPacked(t, vs))
            == if |items| + |vs| <= arraySize then Got(items + vs, []) else Fail
    decreases |vs|
  {
    hide DecScalar, EncScalar;
    if vs == [] {
      assert items + vs == items;
    } else {
      ScalarNotEmpty(t, vs[0]);
      if |items| < arraySize {
        ScalarRoundTrip(t, vs[0], EncPacked(t, vs[1..]));
        PackedRoundTrip(t, items + [vs[0]], arraySize, vs[1..]);
        assert items + [vs[0]] + vs[1..] == items + vs;
      }
    }
  }

  lemma ScalarNotEmpty(t: Type, v: Value)
    requires ScalarOk(t, v)
    ensures EncScalar(t, v) != []
  {
  }

  /** The first `k` fields decoded, the others still at their defaults. */
  function Mixed(fields: seq<Field>, slots: seq<Slot>, k: nat): (r: seq<Slot>)
    requires |slots| == |fields| && k <= |fields|
    ensures |r| == |fields|
  {
    slots[..k] + Defaults(fields)[k..]
  }

  /** The field takes part in the encoding. */
  predicate Present(s: Slot) {
    match s
    case Always(_) => true
    case Maybe(has, _) => has
    case Many(vs) => vs != []
    case Member(o) => o.Some?
  }

  function Written(slots: seq<Slot>, k: nat): set<nat> {
    set i | k <= i < |slots| && Present(slots[i])
  }

  lemma TheField(fields: seq<Field>, k: nat)
    requires FieldsOk(fields) && k < |fields|
    ensures Find(fields, fields[k].tag, 0) == k
  {
    var r := Find(fields, fields[k].tag, 0);
    assert r <= k;
  }

  /** A tag and the field it names. */
  lemma OneField(fields: seq<Field>, slots: seq<Slot>, seen: set<nat>, k: nat, wire: nat, input: Bytes)
    requires FieldsOk(fields) && |slots| == |fields| && k < |fields| && wire < 8
    ensures var r := DecSlot(fields[k], slots[k], wire, input);
            DecFields(fields, slots, seen, TagBytes(fields[k].tag, wire) + input)
            == if r.Fail? then Fail else DecFields(fields, Place(fields, slots, k, r.v), seen + {k}, r.rest)
  {
    hide DecSlot, Place, Finish, Varint32, Varint, Find;
    NanopbVarint.Varint32RoundTrip(fields[k].tag * 8 + wire, input);
    TheField(fields, k);
  }

  lemma DefaultsAt(fields: seq<Field>, k: nat)
    requires k < |fields|
    ensures Defaults(fields)[k] == DefaultSlot(fields[k])
  {
  }

  /** Placing the value of a field that comes next. */
  lemma {:induction false} PlaceNext(fields: seq<Field>, slots: seq<Slot>, k: nat)
    requires FieldsOk(fields) && SlotsOk(fields, slots) && k < |fields|
    requires fields[k].rule.OneOf? ==> IsSet(slots[k])
    ensures Place(fields, Mixed(fields, slots, k), k, slots[k]) == Mixed(fields, slots, k + 1)
  {
    forall i | 0 <= i < |fields| && i != k && SameUnion(fields[k], fields[i])
      ensures Mixed(fields, slots, k + 1)[i] == Member(None) {
      DefaultsAt(fields, i);
      if i < k {
        assert SlotOk(fields[i], slots[i]);
        assert !IsSet(slots[i]);
      }
    }
  }

  /** Placing one more item of an array. */
  lemma PlaceItem(fields: seq<Field>, slots: seq<Slot>, k: nat, s: Slot)
    requires |slots| == |fields| && k < |fields| && !fields[k].rule.OneOf?
    ensures Place(fields, slots, k, s) == slots[k := s]
  {
  }

  lemma {:induction false} ValueRoundTrip(t: Type, v: Value, s: Slot, tail: Bytes)
    requires TypeOk(t) && ValueOk(t, v) && ValueFits(t, v) && |EncValue(t, v)| < TWO32
    requires t.Message? ==> StartFrom(t, s) == Defaults(t.fields)
    ensures DecValue(t, s, EncValue(t, v) + tail) == if ValueEnds(t, v) then Got(v, tail) else Fail
    decreases t, 4, 0
  {
    hide Enc, EncScalar, DecScalar, DecFields, SlotsOk, SlotsFit, SlotsEnd, Defaults, Substream, ScalarOk, ScalarFits;
    hide ScalarEnds;
    if t.Message? {
      var b := Enc(t.fields, v.slots, 0);
      SubstreamRoundTrip(b, tail);
      FieldsParts(t.fields, v.slots);
      FieldsRoundTrip(t.fields, v.slots, 0, {}, []);
      EndFromStart(t.fields, v.slots);
      assert b + [] == b;
      MixedNone(t.fields, v.slots);
      FinishWritten(t.fields, v.slots);
    } else {
      ScalarRoundTrip(t, v, tail);
    }
  }

  /** The strings of the fields from number `k` on end. */
  predicate EndFrom(fields: seq<Field>, slots: seq<Slot>, k: nat)
    requires FieldsOk(fields) && SlotsOk(fields, slots)
  {
    forall i :: k <= i < |fields| ==> SlotEnds(fields[i], slots[i])
  }

  lemma EndFromStart(fields: seq<Field>, slots: seq<Slot>)
    requires FieldsOk(fields) && SlotsOk(fields, slots)
    ensures EndFrom(fields, slots, 0) <==> SlotsEnd(fields, slots)
  {
  }

  lemma EndFromNext(fields: seq<Field>, slots: seq<Slot>, k: nat)
    requires FieldsOk(fields) && SlotsOk(fields, slots) && k <= |fields|
    ensures k == |fields| ==> EndFrom(fields, slots, k)
    ensures k < |fields| ==>
              && TypeOk(fields[k].t) && SlotOk(fields[k], slots[k])
              && (EndFrom(fields, slots, k) <==> SlotEnds(fields[k], slots[k]) && EndFrom(fields, slots, k + 1))
  {
  }

  lemma MixedNone(fields: seq<Field>, slots: seq<Slot>)
    requires |slots| == |fields|
    ensures Mixed(fields, slots, 0) == Defaults(fields) && Mixed(fields, slots, |fields|) == slots
  {
  }

  /** Nothing required is missing. */
  lemma FinishWritten(fields: seq<Field>, slots: seq<Slot>)
    requires FieldsOk(fields) && SlotsOk(fields, slots)
    ensures DecFields(fields, slots, {} + Written(slots, 0), []) == Got(slots, [])
  {
    forall k | 0 <= k < |fields| && Counted(fields, k) ensures k in Written(slots, 0) {
      assert SlotOk(fields[k], slots[k]);
    }
  }

  /** Items of an array with a tag each, numbers among them: the first `n` are there already. */
  lemma {:induction false} EachRoundTrip(fields: seq<Field>, slots: seq<Slot>, k: nat, vs: seq<Value>, n: nat,
                                         seen: set<nat>, tail: Bytes)
    requires FieldsOk(fields) && |slots| == |fields| && k < |fields| && n <= |vs|
    requires fields[k].rule.Repeated? && n <= fields[k].rule.arraySize
    requires forall i :: 0 <= i < |vs| ==> ValueOk(fields[k].t, vs[i]) && ValueFits(fields[k].t, vs[i])
    requires |EncEach(fields[k].tag, fields[k].t, vs[n..])| < TWO32
    ensures DecFields(fields, slots[k := Many(vs[..n])], seen, EncEach(fields[k].tag, fields[k].t, vs[n..]) + tail)
            == if |vs| <= fields[k].rule.arraySize && forall i :: n <= i < |vs| ==> ValueEnds(fields[k].t, vs[i]) then
                 DecFields(fields, slots[k := Many(vs)], if n < |vs| then seen + {k} else seen, tail)
               else Fail
    decreases Type.Message(fields), 0, |vs| - n
  {
    hide DecFields, FieldsOk, EncValue, DecValue, ValueOk, ValueFits, ValueEnds, TagBytes, Place, Defaults;
    var f := fields[k];
    FieldOk(fields, k);
    if n == |vs| {
      assert vs[..n] == vs && EncEach(f.tag, f.t, vs[n..]) + tail == tail;
    } else {
      var at := slots[k := Many(vs[..n])];
      var more := EncEach(f.tag, f.t, vs[n + 1..]);
      assert vs[n..][0] == vs[n] && vs[n..][1..] == vs[n + 1..];
      var b := EncValue(f.t, vs[n]);
      assert EncEach(f.tag, f.t, vs[n..]) + tail == TagBytes(f.tag, WireType(f.t)) + (b + (more + tail));
      OneField(fields, at, seen, k, WireType(f.t), b + (more + tail));
      if n < f.rule.arraySize {
        ValueRoundTrip(f.t, vs[n], Many([]), more + tail);
        PlaceItem(fields, at, k, Many(vs[..n] + [vs[n]]));
        assert vs[..n] + [vs[n]] == vs[..n + 1];
        assert at[k := Many(vs[..n + 1])] == slots[k := Many(vs[..n + 1])];
        EachRoundTrip(fields, slots, k, vs, n + 1, seen + {k}, tail);
        assert seen + {k} + {k} == seen + {k};
      }
    }
  }

  lemma FieldOk(fields: seq<Field>, k: nat)
    requires FieldsOk(fields) && k < |fields|
    ensures TypeOk(fields[k].t) && 0 < fields[k].tag < 0x2000_0000 && InitialOk(fields[k])
  {
  }

  lemma FieldsParts(fields: seq<Field>, slots: seq<Slot>)
    requires FieldsOk(fields) && SlotsOk(fields, slots)
    ensures |slots| == |fields|
  {
  }

  /** A packed array. */
  lemma {:induction false} PackedSlot(fields: seq<Field>, at: seq<Slot>, k: nat, s: Slot, seen: set<nat>, tail: Bytes)
    requires FieldsOk(fields) && |at| == |fields| && k < |fields| && at[k] == DefaultSlot(fields[k])
    requires TypeOk(fields[k].t) && SlotOk(fields[k], s) && SlotFits(fields[k], s)
    requires fields[k].rule.Repeated? && Packable(fields[k].t) && Present(s)
    requires |EncSlot(fields[k], s)| < TWO32
    ensures DecFields(fields, at, seen, EncSlot(fields[k], s) + tail)
            == DecFields(fields, Place(fields, at, k, s), seen + {k}, tail)
    ensures SlotEnds(fields[k], s)
  {
    var f := fields[k];
    PackableItems(f, s);
    hide DecFields, FieldsOk, EncValue, ValueOk, ValueFits, TagBytes, Place, Defaults, EncPacked;
    hide EncEach;
    hide DecPacked, ScalarOk, Substream, Prefixed;
    var b := EncPacked(f.t, s.vs);
    assert EncSlot(f, s) + tail == TagBytes(f.tag, STRING) + (Prefixed(b) + tail);
    OneField(fields, at, seen, k, STRING, Prefixed(b) + tail);
    PrefixedLonger(b);
    SubstreamRoundTrip(b, tail);
    PackedRoundTrip(f.t, [], f.rule.arraySize, s.vs);
    assert [] + s.vs == s.vs;
  }

  lemma PrefixedLonger(b: Bytes)
    ensures |Prefixed(b)| > |b|
  {
  }

  /** An array with a tag for each item. */
  lemma {:induction false} EachSlot(fields: seq<Field>, at: seq<Slot>, k: nat, s: Slot, seen: set<nat>, tail: Bytes)
    requires FieldsOk(fields) && |at| == |fields| && k < |fields| && at[k] == DefaultSlot(fields[k])
    requires TypeOk(fields[k].t) && SlotOk(fields[k], s) && SlotFits(fields[k], s)
    requires fields[k].rule.Repeated? && !Packable(fields[k].t) && Present(s)
    requires |EncSlot(fields[k], s)| < TWO32
    ensures DecFields(fields, at, seen, EncSlot(fields[k], s) + tail)
            == if SlotEnds(fields[k], s) then DecFields(fields, Place(fields, at, k, s), seen + {k}, tail) else Fail
    decreases Type.Message(fields), 1, 0
  {
    PlaceItem(fields, at, k, s);
    hide DecFields, FieldsOk, EncValue, ValueOk, ValueFits, TagBytes, Place, Defaults, EncPacked;
    hide EncEach, ValueEnds;
    assert s.vs[0..] == s.vs && s.vs[..0] == [];
    assert at[k := Many([])] == at;
    EachRoundTrip(fields, at, k, s.vs, 0, seen, tail);
  }

  /** A required or optional field, or a member of a oneof. */
  lemma {:induction false} SingleSlot(fields: seq<Field>, at: seq<Slot>, k: nat, s: Slot, seen: set<nat>, tail: Bytes)
    requires FieldsOk(fields) && |at| == |fields| && k < |fields| && at[k] == DefaultSlot(fields[k])
    requires TypeOk(fields[k].t) && SlotOk(fields[k], s) && SlotFits(fields[k], s)
    requires !fields[k].rule.Repeated? && Present(s)
    requires |EncSlot(fields[k], s)| < TWO32
    ensures DecFields(fields, at, seen, EncSlot(fields[k], s) + tail)
            == if SlotEnds(fields[k], s) then DecFields(fields, Place(fields, at, k, s), seen + {k}, tail) else Fail
    decreases Type.Message(fields), 1, 0
  {
    var f := fields[k];
    FieldOk(fields, k);
    if f.t.Message? {
      StartDefault(f);
    }
    hide DecFields, FieldsOk, EncValue, DecValue, ValueOk, ValueFits, TagBytes, Place, Defaults;
    hide StartFrom, ValueEnds;
    var v := if s.Member? then s.o.value else s.v;
    var b := EncValue(f.t, v);
    assert EncSlot(f, s) + tail == TagBytes(f.tag, WireType(f.t)) + (b + tail);
    OneField(fields, at, seen, k, WireType(f.t), b + tail);
    ValueRoundTrip(f.t, v, if f.rule.OneOf? then Member(None) else at[k], tail);
  }

  /** A field that is there, decoded into any slots that still have its default. */
  lemma {:induction false} PresentSlot(fields: seq<Field>, at: seq<Slot>, k: nat, s: Slot, seen: set<nat>, tail: Bytes)
    requires FieldsOk(fields) && |at| == |fields| && k < |fields| && at[k] == DefaultSlot(fields[k])
    requires TypeOk(fields[k].t) && SlotOk(fields[k], s) && SlotFits(fields[k], s) && Present(s)
    requires |EncSlot(fields[k], s)| < TWO32
    ensures DecFields(fields, at, seen, EncSlot(fields[k], s) + tail)
            == if SlotEnds(fields[k], s) then DecFields(fields, Place(fields, at, k, s), seen + {k}, tail) else Fail
    decreases Type.Message(fields), 1, 1
  {
    hide DecFields, FieldsOk, EncSlot, SlotOk, SlotFits, SlotEnds, DefaultSlot, Place;
    if !fields[k].rule.Repeated? {
      SingleSlot(fields, at, k, s, seen, tail);
    } else if Packable(fields[k].t) {
      PackedSlot(fields, at, k, s, seen, tail);
    } else {
      EachSlot(fields, at, k, s, seen, tail);
    }
  }

  lemma AtDefault(fields: seq<Field>, slots: seq<Slot>, k: nat)
    requires |slots| == |fields| && k < |fields|
    ensures Mixed(fields, slots, k)[k] == DefaultSlot(fields[k])
  {
  }

  lemma AbsentSlot(fields: seq<Field>, slots: seq<Slot>, k: nat)
    requires FieldsOk(fields) && SlotsOk(fields, slots) && k < |fields|
    requires TypeOk(fields[k].t) && SlotOk(fields[k], slots[k]) && !Present(slots[k])
    ensures EncSlot(fields[k], slots[k]) == [] && Mixed(fields, slots, k) == Mixed(fields, slots, k + 1)
    ensures SlotEnds(fields[k], slots[k])
  {
    AtDefault(fields, slots, k);
  }

  /** One field. */
  lemma SlotRoundTrip(fields: seq<Field>, slots: seq<Slot>, k: nat, seen: set<nat>, tail: Bytes)
    requires FieldsOk(fields) && SlotsOk(fields, slots) && SlotsFit(fields, slots) && k < |fields|
    requires |EncSlot(fields[k], slots[k])| < TWO32
    ensures DecFields(fields, Mixed(fields, slots, k), seen, EncSlot(fields[k], slots[k]) + tail)
            == if SlotEnds(fields[k], slots[k]) then
                 DecFields(fields, Mixed(fields, slots, k + 1), if Present(slots[k]) then seen + {k} else seen, tail)
               else Fail
    decreases Type.Message(fields), 2, 0
  {
    SlotParts(fields, slots, k);
    AtDefault(fields, slots, k);
    if Present(slots[k]) {
      PlaceNext(fields, slots, k);
    }
    hide DecFields, FieldsOk, SlotsOk, SlotsFit, EncSlot, SlotOk, SlotFits, SlotEnds, Mixed, DefaultSlot, Place;
    if !Present(slots[k]) {
      AbsentSlot(fields, slots, k);
      assert [] + tail == tail;
    } else {
      PresentSlot(fields, Mixed(fields, slots, k), k, slots[k], seen, tail);
    }
  }

  lemma StartDefault(f: Field)
    requires TypeOk(f.t) && InitialOk(f) && f.t.Message?
    ensures StartFrom(f.t, DefaultSlot(f)) == Defaults(f.t.fields)
    ensures StartFrom(f.t, Member(None)) == Defaults(f.t.fields)
  {
    assert DefaultOf(f) == Zero(f.t);
    assert Zero(f.t) == Nested(Defaults(f.t.fields));
  }

  lemma PackableItems(f: Field, s: Slot)
    requires TypeOk(f.t) && f.rule.Repeated? && SlotOk(f, s) && SlotFits(f, s) && Packable(f.t)
    ensures forall i :: 0 <= i < |s.vs| ==> ScalarOk(f.t, s.vs[i])
  {
  }

  lemma SlotParts(fields: seq<Field>, slots: seq<Slot>, k: nat)
    requires FieldsOk(fields) && SlotsOk(fields, slots) && SlotsFit(fields, slots) && k < |fields|
    ensures |slots| == |fields|
    ensures TypeOk(fields[k].t) && 0 < fields[k].tag < 0x2000_0000 && InitialOk(fields[k])
    ensures SlotOk(fields[k], slots[k]) && SlotFits(fields[k], slots[k])
  {
  }

  /** The fields from number `k` on, whatever follows them. */
  lemma {:induction false} FieldsRoundTrip(fields: seq<Field>, slots: seq<Slot>, k: nat, seen: set<nat>, tail: Bytes)
    requires FieldsOk(fields) && SlotsOk(fields, slots) && SlotsFit(fields, slots) && k <= |fields|
    requires |Enc(fields, slots, k)| < TWO32
    ensures DecFields(fields, Mixed(fields, slots, k), seen, Enc(fields, slots, k) + tail)
            == if EndFrom(fields, slots, k) then DecFields(fields, slots, seen + Written(slots, k), tail) else Fail
    decreases Type.Message(fields), 3, |fields| - k
  {
    hide DecFields, FieldsOk, SlotsOk, SlotsFit, EncSlot, Mixed, Defaults, EndFrom, SlotEnds;
    FieldsParts(fields, slots);
    EndFromNext(fields, slots, k);
    if k == |fields| {
      MixedNone(fields, slots);
      assert Enc(fields, slots, k) + tail == tail;
      assert seen + Written(slots, k) == seen;
    } else {
      SlotParts(fields, slots, k);
      var rest := Enc(fields, slots, k + 1);
      assert Enc(fields, slots, k) + tail == EncSlot(fields[k], slots[k]) + (rest + tail);
      var then_ := if Present(slots[k]) then seen + {k} else seen;
      SlotRoundTrip(fields, slots, k, seen, rest + tail);
      FieldsRoundTrip(fields, slots, k + 1, then_, tail);
      assert then_ + Written(slots, k + 1) == seen + Written(slots, k);
    }
  }

  /** What pb_encode writes for a message within its bounds, pb_decode turns back into that message, to the last byte,
      if and only if every string in it is shorter than its array; otherwise it fails. */
  lemma MessageRoundTrip(fields: seq<Field>, slots: seq<Slot>)
    requires FieldsOk(fields) && SlotsOk(fields, slots) && SlotsFit(fields, slots)
    requires |Enc(fields, slots, 0)| < TWO32
    ensures Decode(fields, Enc(fields, slots, 0)) == if SlotsEnd(fields, slots) then Got(slots, []) else Fail
  {
    hide DecFields, SlotsFit, Enc, Mixed, EndFrom, SlotsEnd;
    FieldsParts(fields, slots);
    EndFromStart(fields, slots);
    MixedNone(fields, slots);
    FieldsRoundTrip(fields, slots, 0, {}, []);
    FinishWritten(fields, slots);
    assert Enc(fields, slots, 0) + [] == Enc(fields, slots, 0);
  }

  const FULL_TEXT: Field := Field(1, Required, Text(2), None)
  const FULL_STRING: Slot := Always(Raw([97, 98]))

  lemma FullStringSlot()
    ensures FieldsOk([FULL_TEXT]) && SlotsOk([FULL_TEXT], [FULL_STRING]) && SlotsFit([FULL_TEXT], [FULL_STRING])
    ensures TypeOk(FULL_TEXT.t) && SlotOk(FULL_TEXT, FULL_STRING) && !SlotEnds(FULL_TEXT, FULL_STRING)
  {
  }

  lemma FullStringBytes()
    requires TypeOk(FULL_TEXT.t) && SlotOk(FULL_TEXT, FULL_STRING)
    ensures EncSlot(FULL_TEXT, FULL_STRING) == [10, 2, 97, 98]
  {
    assert Varint(10) == [10] && Varint(2) == [2];
    assert TagBytes(1, STRING) == [10] && Prefixed([97, 98]) == [2] + [97, 98];
  }

  /** A string of two characters in an array of two: it is encoded whole, and decoding refuses it. */
  lemma FullStringRefused()
    ensures var fields, slots := [FULL_TEXT], [FULL_STRING];
            && FieldsOk(fields) && SlotsOk(fields, slots) && SlotsFit(fields, slots)
            && Enc(fields, slots, 0) == [10, 2, 97, 98] && Decode(fields, [10, 2, 97, 98]) == Fail
  {
    var fields, slots := [FULL_TEXT], [FULL_STRING];
    FullStringSlot();
    FullStringBytes();
    assert Enc(fields, slots, 0) == EncSlot(FULL_TEXT, FULL_STRING) + Enc(fields, slots, 1);
    assert !SlotsEnd(fields, slots);
    hide Decode, FieldsOk, SlotsOk, SlotsFit, SlotsEnd;
    MessageRoundTrip(fields, slots);
  }

  /** A zero byte ends the message, and what follows is left in the stream: pb_encode_nullterminated. */
  lemma NullTerminatedRoundTrip(fields: seq<Field>, slots: seq<Slot>, tail: Bytes)
    requires FieldsOk(fields) && SlotsOk(fields, slots) && SlotsFit(fields, slots)
    requires |Enc(fields, slots, 0)| < TWO32
    ensures Decode(fields, Enc(fields, slots, 0) + ([0] + tail))
            == if SlotsEnd(fields, slots) then Got(slots, tail) else Fail
  {
    hide SlotsFit, Enc, Mixed, EndFrom, SlotsEnd;
    FieldsParts(fields, slots);
    EndFromStart(fields, slots);
    MixedNone(fields, slots);
    FieldsRoundTrip(fields, slots, 0, {}, [0] + tail);
    FinishWritten(fields, slots);
    assert ([0] + tail)[0] == 0 && ([0] + tail)[1..] == tail;
    assert Varint32([0] + tail) == Some((0, tail));
  }

  /** pb_encode_delimited and pb_decode_delimited: the message with its length before it. */
  lemma DelimitedRoundTrip(fields: seq<Field>, slots: seq<Slot>, tail: Bytes)
    requires FieldsOk(fields) && SlotsOk(fields, slots) && SlotsFit(fields, slots)
    requires |Prefixed(Enc(fields, slots, 0))| < TWO32
    ensures DecValue(Message(fields), Member(None), Prefixed(Enc(fields, slots, 0)) + tail)
            == if SlotsEnd(fields, slots) then Got(Nested(slots), tail) else Fail
  {
    hide Enc, DecValue, FieldsOk, SlotsOk, SlotsFit, SlotsEnd;
    ValueRoundTrip(Message(fields), Nested(slots), Member(None), tail);
  }

  // ----- any input at all -----

  lemma IntInBounds(t: Type, input: Bytes)
    requires TypeOk(t) && (t.Int? || t.UInt? || t.SInt?) && DecInt(t, input).Got?
    ensures ScalarOk(t, DecInt(t, input).v)
  {
  }

  lemma ScalarInBounds(t: Type, input: Bytes)
    requires TypeOk(t) && !t.Message? && DecScalar(t, input).Got?
    ensures ScalarOk(t, DecScalar(t, input).v) && ScalarFits(t, DecScalar(t, input).v)
    ensures ScalarEnds(t, DecScalar(t, input).v)
  {
    hide DecInt, Varint32, Unfixed;
    match t
    case Int(_) => IntInBounds(t, input);
    case UInt(_) => IntInBounds(t, input);
    case SInt(_) => IntInBounds(t, input);
    case Fixed32 =>
      Powers();
      UnfixedBound(Read(input, 4).v);
    case Fixed64 =>
      Powers();
      UnfixedBound(Read(input, 8).v);
    case _ =>
  }

  predicate ItemsFit(t: Type, vs: seq<Value>)
    requires TypeOk(t)
  {
    forall i :: 0 <= i < |vs| ==> ValueOk(t, vs[i]) && ValueFits(t, vs[i])
  }

  predicate ItemsEnd(t: Type, vs: seq<Value>)
    requires TypeOk(t) && ItemsFit(t, vs)
  {
    forall i :: 0 <= i < |vs| ==> ValueEnds(t, vs[i])
  }

  lemma {:induction false} PackedInBounds(t: Type, items: seq<Value>, arraySize: nat, input: Bytes)
    requires TypeOk(t) && !t.Message? && ItemsFit(t, items) && |items| <= arraySize
    requires DecPacked(t, items, arraySize, input).Got?
    ensures var vs := DecPacked(t, items, arraySize, input).v;
            |vs| <= arraySize && ItemsFit(t, vs) && (ItemsEnd(t, items) ==> ItemsEnd(t, vs))
    decreases |input|
  {
    hide DecScalar, ScalarOk, ScalarFits, ScalarEnds;
    if input != [] {
      ScalarInBounds(t, input);
      PackedInBounds(t, items + [DecScalar(t, input).v], arraySize, DecScalar(t, input).rest);
    }
  }

  lemma {:induction false} ZeroInBounds(t: Type)
    requires TypeOk(t)
    ensures ValueOk(t, Zero(t)) && ValueFits(t, Zero(t)) && ValueEnds(t, Zero(t))
    decreases t, 1
  {
    if t.Message? {
      DefaultsInBounds(t.fields);
    }
  }

  lemma DefaultInBounds(f: Field)
    requires TypeOk(f.t) && InitialOk(f)
    ensures ValueOk(f.t, DefaultOf(f)) && ValueFits(f.t, DefaultOf(f)) && ValueEnds(f.t, DefaultOf(f))
    decreases f.t, 2
  {
    if f.initial == None {
      ZeroInBounds(f.t);
    }
  }

  /** A message of defaults is in bounds. */
  lemma {:induction false} DefaultsInBounds(fields: seq<Field>)
    requires FieldsOk(fields)
    ensures SlotsOk(fields, Defaults(fields)) && SlotsFit(fields, Defaults(fields))
    ensures SlotsEnd(fields, Defaults(fields))
    decreases Type.Message(fields), 0
  {
    forall i | 0 <= i < |fields|
      ensures TypeOk(fields[i].t)
      ensures SlotOk(fields[i], Defaults(fields)[i]) && SlotFits(fields[i], Defaults(fields)[i])
      ensures SlotEnds(fields[i], Defaults(fields)[i])
    {
      hide ValueOk, ValueFits, ValueEnds, DefaultOf;
      FieldOk(fields, i);
      DefaultInBounds(fields[i]);
      DefaultsAt(fields, i);
    }
  }

  /** The strings in what a field starts from end. */
  predicate StartEnds(f: Field, s: Slot)
    requires TypeOk(f.t)
  {
    SlotOk(f, s) ==> SlotEnds(f, s)
  }

  /** What a field starts from is in bounds. */
  lemma StartInBounds(f: Field, s: Slot)
    requires TypeOk(f.t) && InitialOk(f) && f.t.Message?
    requires (SlotOk(f, s) && SlotFits(f, s)) || s == Many([]) || s == Member(None)
    ensures SlotsOk(f.t.fields, StartFrom(f.t, s)) && SlotsFit(f.t.fields, StartFrom(f.t, s))
    ensures StartEnds(f, s) ==> SlotsEnd(f.t.fields, StartFrom(f.t, s))
  {
    DefaultsInBounds(f.t.fields);
    if s.Maybe? && !s.has {
      DefaultInBounds(f);
    }
    if (s.Always? || s.Maybe?) && StartEnds(f, s) {
      assert ValueEnds(f.t, s.v);
    }
  }

  lemma ValueInBounds(f: Field, s: Slot, input: Bytes)
    requires TypeOk(f.t) && InitialOk(f) && DecValue(f.t, s, input).Got?
    requires (SlotOk(f, s) && SlotFits(f, s)) || s == Many([]) || s == Member(None)
    ensures ValueOk(f.t, DecValue(f.t, s, input).v) && ValueFits(f.t, DecValue(f.t, s, input).v)
    ensures StartEnds(f, s) ==> ValueEnds(f.t, DecValue(f.t, s, input).v)
    decreases |input|, 0
  {
    if f.t.Message? {
      StartInBounds(f, s);
      hide DecFields, SlotsOk, SlotsFit, SlotsEnd, FieldsOk, SlotOk, SlotFits, StartFrom, StartEnds, Substream;
      FieldsInBounds(f.t.fields, StartFrom(f.t, s), {}, Substream(input).v);
    } else {
      ScalarInBounds(f.t, input);
    }
  }

  lemma SlotInBounds(f: Field, s: Slot, wire: nat, input: Bytes)
    requires TypeOk(f.t) && InitialOk(f) && SlotOk(f, s) && SlotFits(f, s) && DecSlot(f, s, wire, input).Got?
    ensures var r := DecSlot(f, s, wire, input).v;
            SlotOk(f, r) && SlotFits(f, r) && (SlotEnds(f, s) ==> SlotEnds(f, r))
    decreases |input|, 1
  {
    hide DecValue, DecPacked, ValueOk, ValueFits, ValueEnds, Substream;
    match f.rule
    case Required => ValueInBounds(f, s, input);
    case Optional => ValueInBounds(f, s, input);
    case Repeated(arraySize) =>
      if wire == STRING && Packable(f.t) {
        PackedInBounds(f.t, s.vs, arraySize, Substream(input).v);
      } else {
        ValueInBounds(f, Many([]), input);
      }
    case OneOf(_) => ValueInBounds(f, Member(None), input);
  }

  lemma PlaceInBounds(fields: seq<Field>, slots: seq<Slot>, k: nat, s: Slot)
    requires FieldsOk(fields) && SlotsOk(fields, slots) && SlotsFit(fields, slots) && k < |fields|
    requires TypeOk(fields[k].t) && SlotOk(fields[k], s) && SlotFits(fields[k], s)
    requires s.Member? ==> s.o.Some?
    ensures SlotsOk(fields, Place(fields, slots, k, s)) && SlotsFit(fields, Place(fields, slots, k, s))
    ensures SlotsEnd(fields, slots) && SlotEnds(fields[k], s) ==> SlotsEnd(fields, Place(fields, slots, k, s))
  {
    var r := Place(fields, slots, k, s);
    forall i | 0 <= i < |fields|
      ensures TypeOk(fields[i].t) && SlotOk(fields[i], r[i]) && SlotFits(fields[i], r[i])
      ensures SlotsEnd(fields, slots) && SlotEnds(fields[k], s) ==> SlotEnds(fields[i], r[i])
    {
      hide ValueOk, ValueFits, ValueEnds;
      assert SlotOk(fields[i], slots[i]) && SlotFits(fields[i], slots[i]);
    }
  }

  lemma OneEnds(fields: seq<Field>, slots: seq<Slot>, k: nat)
    requires FieldsOk(fields) && SlotsOk(fields, slots) && SlotsEnd(fields, slots) && k < |fields|
    requires TypeOk(fields[k].t) && SlotOk(fields[k], slots[k])
    ensures SlotEnds(fields[k], slots[k])
  {
  }

  /** Whatever the input, decoding into a message within its bounds either fails or leaves it so, and its strings
      terminated if they were. */
  lemma {:induction false} FieldsInBounds(fields: seq<Field>, slots: seq<Slot>, seen: set<nat>, input: Bytes)
    requires FieldsOk(fields) && SlotsOk(fields, slots) && SlotsFit(fields, slots)
    requires DecFields(fields, slots, seen, input).Got?
    ensures var r := DecFields(fields, slots, seen, input).v;
            SlotsOk(fields, r) && SlotsFit(fields, r) && (SlotsEnd(fields, slots) ==> SlotsEnd(fields, r))
    decreases |input|, 2
  {
    hide SlotsOk, SlotsFit, SlotsEnd, FieldsOk, DecSlot, Place, SlotOk, SlotFits, SlotEnds, Finish, SkipUnknown;
    hide Varint32;
    FieldsParts(fields, slots);
    if input != [] {
      Varint32Shrinks(input);
      var tag := Varint32(input).value;
      if tag.0 == 0 {
        Finished(fields, slots, seen, tag.1);
      } else {
        var k := Find(fields, tag.0 / 8, 0);
        if k == |fields| {
          FieldsInBounds(fields, slots, seen, SkipUnknown(fields, tag.0, tag.1).rest);
        } else {
          SlotParts(fields, slots, k);
          SlotInBounds(fields[k], slots[k], tag.0 % 8, tag.1);
          var r := DecSlot(fields[k], slots[k], tag.0 % 8, tag.1);
          SetMember(fields[k], slots[k], tag.0 % 8, tag.1);
          if SlotsEnd(fields, slots) {
            OneEnds(fields, slots, k);
          }
          PlaceInBounds(fields, slots, k, r.v);
          FieldsInBounds(fields, Place(fields, slots, k, r.v), seen + {k}, r.rest);
        }
      }
    } else {
      Finished(fields, slots, seen, []);
    }
  }

  lemma Finished(fields: seq<Field>, slots: seq<Slot>, seen: set<nat>, rest: Bytes)
    ensures Finish(fields, slots, seen, rest).Got? ==> Finish(fields, slots, seen, rest).v == slots
  {
  }

  lemma SetMember(f: Field, s: Slot, wire: nat, input: Bytes)
    requires TypeOk(f.t) && DecSlot(f, s, wire, input).Got?
    ensures DecSlot(f, s, wire, input).v.Member? ==> DecSlot(f, s, wire, input).v.o.Some?
  {
    hide DecValue, DecPacked, Substream;
  }

  /** pb_decode never puts more into an array than it has room for, whatever it reads, and its result can be encoded and
      read again. */
  lemma DecodeStaysInBounds(fields: seq<Field>, input: Bytes)
    requires FieldsOk(fields) && Decode(fields, input).Got?
    ensures var slots := Decode(fields, input).v;
            && SlotsOk(fields, slots) && SlotsFit(fields, slots) && SlotsEnd(fields, slots)
            && (|Enc(fields, slots, 0)| < TWO32 ==> Decode(fields, Enc(fields, slots, 0)) == Got(slots, []))
  {
    hide SlotsOk, SlotsFit, SlotsEnd, FieldsOk, DecFields, Enc;
    DefaultsInBounds(fields);
    FieldsInBounds(fields, Defaults(fields), {}, input);
    var slots := Decode(fields, input).v;
    if |Enc(fields, slots, 0)| < TWO32 {
      MessageRoundTrip(fields, slots);
    }
  }
}
