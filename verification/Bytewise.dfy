/**
 Keys as bytes: the default order on user keys, the encoding of internal keys, their comparator on
 the encoded form, and the short keys that separate two others.
*/
module Bytewise {
  import opened Format
  import opened Coding

  /** Slice::compare: by the first byte that differs, and a proper prefix before the longer string. */
  predicate LessBytes(a: Bytes, b: Bytes) {
    b != [] && (a == [] || a[0] < b[0] || (a[0] == b[0] && LessBytes(a[1..], b[1..])))
  }

  /** The place of a byte string among the reals: a fraction in base 257. */
  function Rank(s: Bytes): (r: real)
    ensures 0.0 <= r < 1.0
  {
    if s == [] then 0.0 else (s[0] as int as real + 1.0 + Rank(s[1..])) / 257.0
  }

  /** The order of byte strings is that of their ranks, and different strings have different ranks. */
  lemma {:induction false} RankEmbeds(a: Bytes, b: Bytes)
    ensures LessBytes(a, b) <==> Rank(a) < Rank(b)
    ensures a == b <==> Rank(a) == Rank(b)
  {
    if a != [] && b != [] {
      RankEmbeds(a[1..], b[1..]);
      assert a == [a[0]] + a[1..] && b == [b[0]] + b[1..];
    }
  }

  lemma {:induction false} PrefixKeepsOrder(p: Bytes, a: Bytes, b: Bytes)
    ensures LessBytes(p + a, p + b) <==> LessBytes(a, b)
  {
    if p == [] {
      assert p + a == a && p + b == b;
    } else {
      PrefixKeepsOrder(p[1..], a, b);
      assert (p + a)[1..] == p[1..] + a && (p + b)[1..] == p[1..] + b;
    }
  }

  method CompareSlices(a: Bytes, b: Bytes) returns (r: int)
    ensures r < 0 <==> LessBytes(a, b)
    ensures r > 0 <==> LessBytes(b, a)
    ensures r == 0 <==> a == b
  {
    var i := 0;
    while i < |a| && i < |b| && a[i] == b[i]
      invariant i <= |a| && i <= |b| && a[..i] == b[..i]
    {
      i := i + 1;
    }
    assert a == a[..i] + a[i..] && b == a[..i] + b[i..];
    PrefixKeepsOrder(a[..i], a[i..], b[i..]);
    PrefixKeepsOrder(a[..i], b[i..], a[i..]);
    if i < |a| && i < |b| {
      return a[i] as int - b[i] as int;
    }
    return |a| - |b|;
  }

  // ----- short separators -----

  /** A byte made larger after a common prefix, and the rest cut off. */
  lemma Bumped(p: Bytes, a: Bytes, b: byte)
    requires a != [] && a[0] < b
    ensures LessBytes(p + a, p + [b])
  {
    PrefixKeepsOrder(p, a, [b]);
  }

  /** BytewiseComparator's FindShortestSeparator. */
  method FindShortestSeparator(start: Bytes, limit: Bytes) returns (r: Bytes)
    ensures r == start || (|r| <= |start| && LessBytes(start, r) && LessBytes(r, limit))
  {
    var i := 0;
    while i < |start| && i < |limit| && start[i] == limit[i]
      invariant i <= |start| && i <= |limit| && start[..i] == limit[..i]
    {
      i := i + 1;
    }
    if i < |start| && i < |limit| && start[i] < 255 && start[i] + 1 < limit[i] {
      r := start[..i] + [start[i] + 1];
      assert start == start[..i] + start[i..] && limit == start[..i] + limit[i..];
      Bumped(start[..i], start[i..], start[i] + 1);
      PrefixKeepsOrder(start[..i], [start[i] + 1], limit[i..]);
      return r;
    }
    return start;
  }

  /** BytewiseComparator's FindShortSuccessor: only a run of 0xFF has none. */
  method FindShortSuccessor(key: Bytes) returns (r: Bytes)
    ensures r == key || (|r| <= |key| && LessBytes(key, r))
    ensures r == key <==> forall i :: 0 <= i < |key| ==> key[i] == 255
  {
    for i := 0 to |key|
      invariant forall j :: 0 <= j < i ==> key[j] == 255
    {
      if key[i] != 255 {
        r := key[..i] + [key[i] + 1];
        assert key == key[..i] + key[i..];
        Bumped(key[..i], key[i..], key[i] + 1);
        assert r[i] != key[i];
        return r;
      }
    }
    return key;
  }

  // ----- internal keys -----

  datatype Parsed = Parsed(user: Bytes, sequence: SequenceNumber, kind: ValueType)

  function Abstract(k: Parsed): InternalKey {
    InternalKey(Rank(k.user), k.sequence, k.kind)
  }

  /** AppendInternalKey. */
  function Encoded(k: Parsed): (r: Bytes)
    ensures |r| == |k.user| + 8
  {
    k.user + Fixed(PackSequenceAndType(k.sequence, k.kind), 8)
  }

  function UserOf(b: Bytes): Bytes
    requires |b| >= 8
  {
    b[..|b| - 8]
  }

  function TagOf(b: Bytes): nat
    requires |b| >= 8
  {
    Unfixed(b[|b| - 8..])
  }

  /** ParseInternalKey. */
  function ParseInternalKey(b: Bytes): Option<Parsed> {
    if |b| < 8 then None
    else
      TagBound(b);
      var num := TagOf(b);
      if num % 256 > 1 then None
      else Some(Parsed(UserOf(b), num / 256, if num % 256 == 1 then Value else Deletion))
  }

  lemma TagBound(b: Bytes)
    requires |b| >= 8
    ensures TagOf(b) < TWO64
  {
    Powers();
    UnfixedBound(b[|b| - 8..]);
  }

  lemma EncodedParts(k: Parsed)
    ensures UserOf(Encoded(k)) == k.user && TagOf(Encoded(k)) == PackSequenceAndType(k.sequence, k.kind)
  {
    Powers();
    FixedRoundTrip(PackSequenceAndType(k.sequence, k.kind), 8);
    assert Encoded(k)[..|k.user|] == k.user;
    assert Encoded(k)[|k.user|..] == Fixed(PackSequenceAndType(k.sequence, k.kind), 8);
  }

  /** Behind the user key, eight bytes: the type, which is 1 for a value and 0 for a deletion, and the sequence number,
      least significant byte first. */
  lemma EncodedInNumbers(k: Parsed)
    ensures var tag := 256 * k.sequence + match k.kind { case Value => 1 case Deletion => 0 };
            Encoded(k) == k.user + (Four(tag) + Four(tag / 0x1_0000_0000))
  {
    hide Four, Fixed;
    FixedOnWire(PackSequenceAndType(k.sequence, k.kind));
  }

  lemma {:induction false} UnfixedRoundTrip(b: Bytes)
    ensures Fixed(Unfixed(b), |b|) == b
  {
    if b != [] {
      UnfixedRoundTrip(b[1..]);
      assert b == [b[0]] + b[1..];
    }
  }

  /** An encoded key parses to itself, and nothing but an encoded key parses. */
  lemma ParseExactly(b: Bytes, k: Parsed)
    ensures ParseInternalKey(b) == Some(k) <==> b == Encoded(k)
  {
    hide Fixed, Unfixed;
    if b == Encoded(k) {
      EncodedParts(k);
    }
    if ParseInternalKey(b) == Some(k) {
      UnfixedRoundTrip(b[|b| - 8..]);
      assert b == b[..|b| - 8] + b[|b| - 8..];
    }
  }

  /** InternalKeyComparator::Compare, on encoded keys. */
  method CompareInternal(a: Bytes, b: Bytes) returns (r: int)
    requires |a| >= 8 && |b| >= 8
    ensures r < 0 <==> LessInternal(a, b)
    ensures r > 0 <==> LessInternal(b, a)
  {
    r := CompareSlices(UserOf(a), UserOf(b));
    RankEmbeds(UserOf(a), UserOf(b));
    RankEmbeds(UserOf(b), UserOf(a));
    if r == 0 {
      if TagOf(a) > TagOf(b) {
        r := -1;
      } else if TagOf(a) < TagOf(b) {
        r := 1;
      }
    }
  }

  predicate LessInternal(a: Bytes, b: Bytes)
    requires |a| >= 8 && |b| >= 8
  {
    LessBytes(UserOf(a), UserOf(b)) || (UserOf(a) == UserOf(b) && TagOf(a) > TagOf(b))
  }

  /** The order of encoded keys is that of the keys of the model. */
  lemma EncodedOrder(a: Parsed, b: Parsed)
    ensures LessInternal(Encoded(a), Encoded(b)) <==> Before(Abstract(a), Abstract(b))
    ensures Encoded(a) == Encoded(b) <==> Abstract(a) == Abstract(b)
  {
    EncodedParts(a);
    EncodedParts(b);
    RankEmbeds(a.user, b.user);
    CompareIsTotalOrder(Abstract(a), Abstract(b));
  }

  /** The key at which a seek for `user` as of `sequence` begins. */
  function SeekKey(user: Bytes, sequence: SequenceNumber): Parsed {
    Parsed(user, sequence, Value)
  }

  /** InternalKeyComparator::FindShortestSeparator: a key from `start` on and before `limit`, never a longer one. */
  method FindShortestInternal(start: Bytes, limit: Bytes) returns (r: Bytes)
    requires |start| >= 8 && |limit| >= 8 && LessInternal(start, limit)
    ensures |start| >= |r| >= 8 && !LessInternal(r, start) && LessInternal(r, limit)
    ensures ParseInternalKey(start).Some? ==> ParseInternalKey(r).Some?
  {
    r := start;
    NotLess(UserOf(start));
    var tmp := FindShortestSeparator(UserOf(start), UserOf(limit));
    var c := CompareSlices(UserOf(start), tmp);
    if |tmp| < |UserOf(start)| && c < 0 {
      r := Encoded(SeekKey(tmp, MAX_SEQUENCE));
      EncodedParts(SeekKey(tmp, MAX_SEQUENCE));
      ParseExactly(r, SeekKey(tmp, MAX_SEQUENCE));
      RankEmbeds(UserOf(start), tmp);
      RankEmbeds(tmp, UserOf(start));
    }
  }

  /** InternalKeyComparator::FindShortSuccessor. */
  method FindShortSuccessorInternal(key: Bytes) returns (r: Bytes)
    requires |key| >= 8
    ensures |key| >= |r| >= 8 && !LessInternal(r, key)
    ensures ParseInternalKey(key).Some? ==> ParseInternalKey(r).Some?
  {
    r := key;
    NotLess(UserOf(key));
    var tmp := FindShortSuccessor(UserOf(key));
    var c := CompareSlices(UserOf(key), tmp);
    if |tmp| < |UserOf(key)| && c < 0 {
      r := Encoded(SeekKey(tmp, MAX_SEQUENCE));
      EncodedParts(SeekKey(tmp, MAX_SEQUENCE));
      ParseExactly(r, SeekKey(tmp, MAX_SEQUENCE));
      RankEmbeds(UserOf(key), tmp);
      RankEmbeds(tmp, UserOf(key));
    }
  }

  lemma NotLess(a: Bytes)
    ensures !LessBytes(a, a)
  {
    RankEmbeds(a, a);
  }
}
