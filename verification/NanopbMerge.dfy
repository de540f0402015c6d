/**
 Decoding into a message that holds something already: two messages one after the other read as the first with the
 second merged into it.
*/
module NanopbMerge {
  import opened Format
  import opened Coding
  import opened NanopbVarint
  import opened NanopbMessage

  // ----- the merged message -----

  /** The later value, except that a message keeps what the later one does not set. */
  function MergedValue(t: Type, x: Value, y: Value): Value
    decreases t, 1
  {
    if t.Message? && x.Nested? && y.Nested? && |x.slots| == |t.fields| == |y.slots| then
      Nested(Merged(t.fields, x.slots, y.slots))
    else y
  }

  function MergedSlot(f: Field, a: Slot, b: Slot): Slot
    decreases f.t, 2
  {
    if !Present(b) then a
    else
      match (a, b)
      case (Always(x), Always(y)) => Always(MergedValue(f.t, x, y))
      case (Maybe(_, x), Maybe(_, y)) => Maybe(true, MergedValue(f.t, x, y))
      case (Many(xs), Many(ys)) => Many(xs + ys)
      case _ => b
  }

  /** One of the first `k` fields is another member of the union of field `i`, and is set. */
  predicate Replaced(fields: seq<Field>, b: seq<Slot>, i: nat, k: nat)
    requires |b| == |fields| && i < |fields| && k <= |fields|
  {
    exists j :: 0 <= j < k && j != i && SameUnion(fields[j], fields[i]) && IsSet(b[j])
  }

  /** Later values win, arrays are joined, and a member of a union that the later message sets unsets the others. */
  function Merged(fields: seq<Field>, a: seq<Slot>, b: seq<Slot>): (r: seq<Slot>)
    requires |a| == |fields| == |b|
    ensures |r| == |fields|
    decreases Type.Message(fields), 0
  {
    seq(|fields|, i requires 0 <= i < |fields| =>
      if Replaced(fields, b, i, |fields|) then Member(None) else MergedSlot(fields[i], a[i], b[i]))
  }

  // ----- when it can be read -----

  predicate MergesValue(t: Type, x: Value, y: Value)
    requires TypeOk(t) && ValueOk(t, y)
    decreases t, 1
  {
    if t.Message? && x.Nested? && |x.slots| == |t.fields| then Merges(t.fields, x.slots, y.slots) else ValueEnds(t, y)
  }

  predicate MergesSlot(f: Field, a: Slot, b: Slot)
    requires TypeOk(f.t) && SlotOk(f, b)
    decreases f.t, 2
  {
    !Present(b) ||
    match f.rule
    case Required => a.Always? && MergesValue(f.t, a.v, b.v)
    case Optional => a.Maybe? && MergesValue(f.t, a.v, b.v)
    case Repeated(arraySize) => |Items(a)| + |b.vs| <= arraySize && SlotEnds(f, b)
    case OneOf(_) => SlotEnds(f, b)
  }

  /** The arrays have room for both messages' items, and the strings of the later one end. */
  predicate Merges(fields: seq<Field>, a: seq<Slot>, b: seq<Slot>)
    requires FieldsOk(fields) && SlotsOk(fields, b) && |a| == |fields|
    decreases Type.Message(fields), 0
  {
    forall i :: 0 <= i < |fields| ==> MergesSlot(fields[i], a[i], b[i])
  }

  predicate MergesFrom(fields: seq<Field>, a: seq<Slot>, b: seq<Slot>, k: nat)
    requires FieldsOk(fields) && SlotsOk(fields, b) && |a| == |fields|
  {
    forall i :: k <= i < |fields| ==> MergesSlot(fields[i], a[i], b[i])
  }

  // ----- field by field -----

  /** The first `k` fields of the later message are in. */
  function MergedUpTo(fields: seq<Field>, a: seq<Slot>, b: seq<Slot>, k: nat): (r: seq<Slot>)
    requires |a| == |fields| == |b| && k <= |fields|
    ensures |r| == |fields|
  {
    seq(|fields|, i requires 0 <= i < |fields| => MergedAt(fields, a, b, k, i))
  }

  function MergedAt(fields: seq<Field>, a: seq<Slot>, b: seq<Slot>, k: nat, i: nat): Slot
    requires |a| == |fields| == |b| && k <= |fields| && i < |fields|
  {
    if Replaced(fields, b, i, k) then Member(None) else if i < k then MergedSlot(fields[i], a[i], b[i]) else a[i]
  }

  lemma UpToEnds(fields: seq<Field>, a: seq<Slot>, b: seq<Slot>)
    requires |a| == |fields| == |b|
    ensures MergedUpTo(fields, a, b, 0) == a && MergedUpTo(fields, a, b, |fields|) == Merged(fields, a, b)
  {
    hide MergedSlot;
  }

  /** A field that the later message does not set. */
  lemma UpToAbsent(fields: seq<Field>, a: seq<Slot>, b: seq<Slot>, k: nat)
    requires |a| == |fields| == |b| && k < |fields| && !Present(b[k])
    ensures MergedUpTo(fields, a, b, k + 1) == MergedUpTo(fields, a, b, k)
  {
    forall i | 0 <= i < |fields| ensures MergedAt(fields, a, b, k + 1, i) == MergedAt(fields, a, b, k, i) {
      assert !IsSet(b[k]);
      assert Replaced(fields, b, i, k + 1) <==> Replaced(fields, b, i, k);
    }
  }

  lemma NoneReplaces(fields: seq<Field>, b: seq<Slot>, k: nat, n: nat)
    requires |b| == |fields| && OneSet(fields, b) && k < |fields| && n <= |fields|
    requires fields[k].rule.OneOf? ==> IsSet(b[k])
    ensures !Replaced(fields, b, k, n)
  {
    forall j | 0 <= j < n && j != k && SameUnion(fields[j], fields[k]) ensures !IsSet(b[j]) {
      assert SameUnion(fields[k], fields[j]);
    }
  }

  /** A field that it sets goes to its place. */
  lemma UpToPresent(fields: seq<Field>, a: seq<Slot>, b: seq<Slot>, k: nat)
    requires |a| == |fields| == |b| && OneSet(fields, b) && k < |fields|
    requires fields[k].rule.OneOf? <==> IsSet(b[k])
    ensures MergedUpTo(fields, a, b, k)[k] == a[k]
    ensures Place(fields, MergedUpTo(fields, a, b, k), k, MergedSlot(fields[k], a[k], b[k]))
            == MergedUpTo(fields, a, b, k + 1)
  {
    hide MergedSlot, OneSet;
    NoneReplaces(fields, b, k, k);
    NoneReplaces(fields, b, k, k + 1);
    var placed := Place(fields, MergedUpTo(fields, a, b, k), k, MergedSlot(fields[k], a[k], b[k]));
    forall i | 0 <= i < |fields| ensures placed[i] == MergedAt(fields, a, b, k + 1, i) {
      if i != k {
        assert SameUnion(fields[k], fields[i]) ==> Replaced(fields, b, i, k + 1);
        assert !SameUnion(fields[k], fields[i]) ==> (Replaced(fields, b, i, k + 1) <==> Replaced(fields, b, i, k));
      }
    }
  }

  /** What a required or optional field holds is a value, set or not. */
  lemma HeldOk(f: Field, a: Slot)
    requires TypeOk(f.t) && InitialOk(f) && SlotOk(f, a) && SlotFits(f, a) && (f.rule.Required? || f.rule.Optional?)
    ensures ValueOk(f.t, a.v) && ValueFits(f.t, a.v)
  {
    DefaultInBounds(f);
  }

  /** Nothing required is missing from the later message. */
  lemma {:induction false} FinishMerged(fields: seq<Field>, slots: seq<Slot>, b: seq<Slot>, seen: set<nat>)
    requires FieldsOk(fields) && SlotsOk(fields, b) && |slots| == |fields| && |b| == |fields|
    ensures DecFields(fields, slots, seen + Written(b, 0), []) == Got(slots, [])
  {
    forall k | 0 <= k < |fields| && Counted(fields, k) ensures k in seen + Written(b, 0) {
      assert SlotOk(fields[k], b[k]);
    }
  }

  /** A value read into a field that holds another. */
  lemma {:induction false} ValueInto(t: Type, x: Value, y: Value, s: Slot, tail: Bytes)
    requires TypeOk(t) && ValueOk(t, x) && ValueFits(t, x) && ValueOk(t, y) && ValueFits(t, y)
    requires |EncValue(t, y)| < TWO32 && (t.Message? ==> StartFrom(t, s) == x.slots)
    ensures DecValue(t, s, EncValue(t, y) + tail)
            == if MergesValue(t, x, y) then Got(MergedValue(t, x, y), tail) else Fail
    decreases t, 4, 0
  {
    hide Enc, EncScalar, DecScalar, DecFields, SlotsOk, SlotsFit, Merges, Merged, Substream, ScalarOk, ScalarFits;
    hide ScalarEnds;
    if t.Message? {
      var b := Enc(t.fields, y.slots, 0);
      FieldsParts(t.fields, x.slots);
      FieldsParts(t.fields, y.slots);
      SubstreamRoundTrip(b, tail);
      FieldsInto(t.fields, x.slots, y.slots, 0, {}, []);
      MergesAll(t.fields, x.slots, y.slots);
      assert b + [] == b;
      UpToEnds(t.fields, x.slots, y.slots);
      FinishMerged(t.fields, Merged(t.fields, x.slots, y.slots), y.slots, {});
    } else {
      ScalarRoundTrip(t, y, tail);
    }
  }

  lemma MergesAll(fields: seq<Field>, a: seq<Slot>, b: seq<Slot>)
    requires FieldsOk(fields) && SlotsOk(fields, b) && |a| == |fields|
    ensures MergesFrom(fields, a, b, 0) <==> Merges(fields, a, b)
  {
  }

  lemma MergesNext(fields: seq<Field>, a: seq<Slot>, b: seq<Slot>, k: nat)
    requires FieldsOk(fields) && SlotsOk(fields, b) && |a| == |fields| && k <= |fields|
    ensures k == |fields| ==> MergesFrom(fields, a, b, k)
    ensures k < |fields| ==>
              && TypeOk(fields[k].t) && SlotOk(fields[k], b[k])
              && (MergesFrom(fields, a, b, k)
                  <==> MergesSlot(fields[k], a[k], b[k]) && MergesFrom(fields, a, b, k + 1))
  {
    hide MergesSlot;
  }

  /** One field of the later message, at a place that holds `a`. */
  lemma {:induction false} SlotInto(fields: seq<Field>, at: seq<Slot>, k: nat, a: Slot, b: Slot, seen: set<nat>,
                                    tail: Bytes)
    requires FieldsOk(fields) && |at| == |fields| && k < |fields| && at[k] == a
    requires TypeOk(fields[k].t) && SlotOk(fields[k], a) && SlotFits(fields[k], a)
    requires SlotOk(fields[k], b) && SlotFits(fields[k], b) && Present(b) && |EncSlot(fields[k], b)| < TWO32
    ensures DecFields(fields, at, seen, EncSlot(fields[k], b) + tail)
            == if MergesSlot(fields[k], a, b) then
                 DecFields(fields, Place(fields, at, k, MergedSlot(fields[k], a, b)), seen + {k}, tail)
               else Fail
    decreases Type.Message(fields), 1, 1
  {
    FieldOk(fields, k);
    var f := fields[k];
    match f.rule
    case Required => OneInto(fields, at, k, a, b, seen, tail);
    case Optional => OneInto(fields, at, k, a, b, seen, tail);
    case Repeated(_) => ArrayInto(fields, at, k, a, b, seen, tail);
    case OneOf(_) => MemberInto(fields, at, k, a, b, seen, tail);
  }

  lemma {:induction false} OneInto(fields: seq<Field>, at: seq<Slot>, k: nat, a: Slot, b: Slot, seen: set<nat>,
                                   tail: Bytes)
    requires FieldsOk(fields) && |at| == |fields| && k < |fields| && at[k] == a
    requires TypeOk(fields[k].t) && InitialOk(fields[k]) && SlotOk(fields[k], a) && SlotFits(fields[k], a)
    requires SlotOk(fields[k], b) && SlotFits(fields[k], b) && Present(b) && |EncSlot(fields[k], b)| < TWO32
    requires fields[k].rule.Required? || fields[k].rule.Optional?
    ensures DecFields(fields, at, seen, EncSlot(fields[k], b) + tail)
            == if MergesSlot(fields[k], a, b) then
                 DecFields(fields, Place(fields, at, k, MergedSlot(fields[k], a, b)), seen + {k}, tail)
               else Fail
    decreases Type.Message(fields), 1, 0
  {
    var f := fields[k];
    HeldOk(f, a);
    if f.t.Message? {
      FieldsParts(f.t.fields, a.v.slots);
    }
    hide DecFields, FieldsOk, EncValue, DecValue, ValueOk, ValueFits, TagBytes, Place, MergesValue, MergedValue;
    var bytes := EncValue(f.t, b.v);
    assert EncSlot(f, b) + tail == TagBytes(f.tag, WireType(f.t)) + (bytes + tail);
    OneField(fields, at, seen, k, WireType(f.t), bytes + tail);
    ValueInto(f.t, a.v, b.v, a, tail);
  }

  lemma {:induction false} MemberInto(fields: seq<Field>, at: seq<Slot>, k: nat, a: Slot, b: Slot, seen: set<nat>,
                                      tail: Bytes)
    requires FieldsOk(fields) && |at| == |fields| && k < |fields| && at[k] == a
    requires TypeOk(fields[k].t) && InitialOk(fields[k]) && SlotOk(fields[k], a)
    requires SlotOk(fields[k], b) && SlotFits(fields[k], b) && Present(b) && |EncSlot(fields[k], b)| < TWO32
    requires fields[k].rule.OneOf?
    ensures DecFields(fields, at, seen, EncSlot(fields[k], b) + tail)
            == if MergesSlot(fields[k], a, b) then
                 DecFields(fields, Place(fields, at, k, MergedSlot(fields[k], a, b)), seen + {k}, tail)
               else Fail
  {
    var f := fields[k];
    if f.t.Message? {
      StartDefault(f);
    }
    hide DecFields, FieldsOk, EncValue, DecValue, ValueOk, ValueFits, ValueEnds, TagBytes, Place, StartFrom;
    var bytes := EncValue(f.t, b.o.value);
    assert EncSlot(f, b) + tail == TagBytes(f.tag, WireType(f.t)) + (bytes + tail);
    OneField(fields, at, seen, k, WireType(f.t), bytes + tail);
    ValueRoundTrip(f.t, b.o.value, Member(None), tail);
  }

  lemma {:induction false} ArrayInto(fields: seq<Field>, at: seq<Slot>, k: nat, a: Slot, b: Slot, seen: set<nat>,
                                     tail: Bytes)
    requires FieldsOk(fields) && |at| == |fields| && k < |fields| && at[k] == a
    requires TypeOk(fields[k].t) && SlotOk(fields[k], a) && SlotFits(fields[k], a)
    requires SlotOk(fields[k], b) && SlotFits(fields[k], b) && Present(b) && |EncSlot(fields[k], b)| < TWO32
    requires fields[k].rule.Repeated?
    ensures DecFields(fields, at, seen, EncSlot(fields[k], b) + tail)
            == if MergesSlot(fields[k], a, b) then
                 DecFields(fields, Place(fields, at, k, MergedSlot(fields[k], a, b)), seen + {k}, tail)
               else Fail
  {
    var f := fields[k];
    hide DecFields, FieldsOk, EncValue, ValueOk, ValueFits, TagBytes, Place, EncPacked, EncEach, DecPacked, ScalarOk;
    hide Substream, Prefixed, ValueEnds;
    if Packable(f.t) {
      PackableItems(f, b);
      PackableEnds(f, b);
      var bytes := EncPacked(f.t, b.vs);
      assert EncSlot(f, b) + tail == TagBytes(f.tag, STRING) + (Prefixed(bytes) + tail);
      OneField(fields, at, seen, k, STRING, Prefixed(bytes) + tail);
      PrefixedLonger(bytes);
      SubstreamRoundTrip(bytes, tail);
      PackedRoundTrip(f.t, a.vs, f.rule.arraySize, b.vs);
    } else {
      var vs := a.vs + b.vs;
      JoinedItems(f, a, b);
      PlaceItem(fields, at, k, Many(vs));
      assert vs[|a.vs|..] == b.vs && vs[..|a.vs|] == a.vs;
      assert at[k := Many(a.vs)] == at;
      EachRoundTrip(fields, at, k, vs, |a.vs|, seen, tail);
    }
  }

  lemma PackableEnds(f: Field, b: Slot)
    requires TypeOk(f.t) && f.rule.Repeated? && SlotOk(f, b) && Packable(f.t)
    ensures SlotEnds(f, b)
  {
  }

  lemma JoinedItems(f: Field, a: Slot, b: Slot)
    requires TypeOk(f.t) && f.rule.Repeated? && SlotOk(f, a) && SlotFits(f, a) && SlotOk(f, b) && SlotFits(f, b)
    ensures var vs := a.vs + b.vs;
            && (forall i :: 0 <= i < |vs| ==> ValueOk(f.t, vs[i]) && ValueFits(f.t, vs[i]))
            && ((forall i :: |a.vs| <= i < |vs| ==> ValueEnds(f.t, vs[i])) <==> SlotEnds(f, b))
  {
    hide ValueOk, ValueFits, ValueEnds;
    var vs := a.vs + b.vs;
    assert forall i :: 0 <= i < |b.vs| ==> vs[|a.vs| + i] == b.vs[i];
    forall i | |a.vs| <= i < |vs| ensures vs[i] == b.vs[i - |a.vs|] {
    }
  }

  lemma MergeParts(fields: seq<Field>, b: seq<Slot>, k: nat)
    requires FieldsOk(fields) && SlotsOk(fields, b) && SlotsFit(fields, b) && k < |fields|
    ensures |b| == |fields| && OneSet(fields, b)
    ensures TypeOk(fields[k].t) && SlotOk(fields[k], b[k]) && SlotFits(fields[k], b[k])
    ensures Present(b[k]) ==> (fields[k].rule.OneOf? <==> IsSet(b[k]))
  {
  }

  lemma AbsentMerges(f: Field, a: Slot, b: Slot)
    requires TypeOk(f.t) && SlotOk(f, b) && !Present(b)
    ensures EncSlot(f, b) == [] && MergesSlot(f, a, b)
  {
  }

  /** The fields of the later message from number `k` on. */
  lemma {:induction false} FieldsInto(fields: seq<Field>, a: seq<Slot>, b: seq<Slot>, k: nat, seen: set<nat>,
                                      tail: Bytes)
    requires FieldsOk(fields) && SlotsOk(fields, a) && SlotsFit(fields, a) && SlotsOk(fields, b) && SlotsFit(fields, b)
    requires |a| == |fields| == |b| && k <= |fields| && |Enc(fields, b, k)| < TWO32
    ensures DecFields(fields, MergedUpTo(fields, a, b, k), seen, Enc(fields, b, k) + tail)
            == if MergesFrom(fields, a, b, k) then DecFields(fields, Merged(fields, a, b), seen + Written(b, k), tail)
               else Fail
    decreases Type.Message(fields), 3, |fields| - k
  {
    hide DecFields, FieldsOk, SlotsOk, SlotsFit, EncSlot, MergedUpTo, Merged, MergesFrom, MergesSlot, MergedSlot, Place;
    hide SlotOk, SlotFits, OneSet, IsSet;
    MergesNext(fields, a, b, k);
    if k == |fields| {
      UpToEnds(fields, a, b);
      assert Enc(fields, b, k) + tail == tail;
      assert seen + Written(b, k) == seen;
    } else {
      MergeParts(fields, a, k);
      MergeParts(fields, b, k);
      var rest := Enc(fields, b, k + 1);
      var at := MergedUpTo(fields, a, b, k);
      assert Enc(fields, b, k) + tail == EncSlot(fields[k], b[k]) + (rest + tail);
      if Present(b[k]) {
        UpToPresent(fields, a, b, k);
        SlotInto(fields, at, k, a[k], b[k], seen, rest + tail);
        FieldsInto(fields, a, b, k + 1, seen + {k}, tail);
        assert seen + {k} + Written(b, k + 1) == seen + Written(b, k);
      } else {
        UpToAbsent(fields, a, b, k);
        AbsentMerges(fields[k], a[k], b[k]);
        assert [] + (rest + tail) == rest + tail;
        FieldsInto(fields, a, b, k + 1, seen, tail);
        assert seen + Written(b, k + 1) == seen + Written(b, k);
      }
    }
  }

  /** Two messages one after the other are read as one, the second merged into the first, if and only if the arrays have
      room for the items of both and all strings end. */
  lemma ConcatenationMerges(fields: seq<Field>, a: seq<Slot>, b: seq<Slot>)
    requires FieldsOk(fields) && SlotsOk(fields, a) && SlotsFit(fields, a) && SlotsOk(fields, b) && SlotsFit(fields, b)
    requires |a| == |fields| == |b| && |Enc(fields, a, 0)| < TWO32 && |Enc(fields, b, 0)| < TWO32
    ensures Decode(fields, Enc(fields, a, 0) + Enc(fields, b, 0))
            == if SlotsEnd(fields, a) && Merges(fields, a, b) then Got(Merged(fields, a, b), []) else Fail
  {
    hide DecFields, SlotsOk, SlotsFit, FieldsOk, Enc, Mixed, EndFrom, SlotsEnd, Merges, Merged, Defaults, MergesFrom;
    hide MergedUpTo;
    EndFromStart(fields, a);
    MixedNone(fields, a);
    var tail := Enc(fields, b, 0);
    FieldsRoundTrip(fields, a, 0, {}, tail);
    FieldsInto(fields, a, b, 0, {} + Written(a, 0), []);
    UpToEnds(fields, a, b);
    MergesAll(fields, a, b);
    assert tail + [] == tail;
    FinishMerged(fields, Merged(fields, a, b), b, {} + Written(a, 0));
  }
}
