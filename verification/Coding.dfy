/**
 Little-endian fixed-width integers, base-128 varints, length-prefixed strings, and the masking of
 stored checksums.
*/
module Coding {
  import opened Format

  // ----- fixed width -----

  /** `n` bytes, least significant first. */
  function Fixed(v: nat, n: nat): (r: Bytes)
    ensures |r| == n
  {
    if n == 0 then [] else [(v % 256) as byte] + Fixed(v / 256, n - 1)
  }

  function Unfixed(b: Bytes): nat {
    if b == [] then 0 else b[0] as nat + 256 * Unfixed(b[1..])
  }

  function Power(base: nat, n: nat): nat {
    if n == 0 then 1 else base * Power(base, n - 1)
  }

  lemma {:induction false} FixedRoundTrip(v: nat, n: nat)
    requires v < Power(256, n)
    ensures Unfixed(Fixed(v, n)) == v
  {
    if n > 0 {
      assert v / 256 < Power(256, n - 1);
      FixedRoundTrip(v / 256, n - 1);
      assert Fixed(v, n)[1..] == Fixed(v / 256, n - 1);
    }
  }

  lemma {:induction false} UnfixedBound(b: Bytes)
    ensures Unfixed(b) < Power(256, |b|)
  {
    if b != [] {
      UnfixedBound(b[1..]);
    }
  }

  /** The low four bytes, least significant first. */
  function Four(v: nat): Bytes {
    [(v % 256) as byte, (v / 0x100 % 256) as byte, (v / 0x1_0000 % 256) as byte, (v / 0x100_0000 % 256) as byte]
  }

  lemma FixedFour(v: nat, n: nat)
    ensures Fixed(v, n + 4) == Four(v) + Fixed(v / 0x1_0000_0000, n)
  {
    hide Fixed;
    FixedStep(v, n + 4);
    FixedStep(v / 0x100, n + 3);
    FixedStep(v / 0x1_0000, n + 2);
    FixedStep(v / 0x100_0000, n + 1);
    Divided(v);
  }

  lemma Divided(v: nat)
    ensures v / 0x100 / 256 == v / 0x1_0000 && v / 0x1_0000 / 256 == v / 0x100_0000
    ensures v / 0x100_0000 / 256 == v / 0x1_0000_0000
  {
  }

  /** Fixed-width numbers, byte for byte. */
  lemma FixedOnWire(v: nat)
    ensures Fixed(v, 4) == Four(v) && Fixed(v, 8) == Four(v) + Four(v / 0x1_0000_0000)
  {
    hide Four;
    FixedFour(v, 0);
    FixedFour(v, 4);
    FixedFour(v / 0x1_0000_0000, 0);
  }

  lemma FixedStep(v: nat, n: nat)
    requires n > 0
    ensures Fixed(v, n) == [(v % 256) as byte] + Fixed(v / 256, n - 1)
  {
  }

  const TWO32: nat := 0x1_0000_0000
  const TWO64: nat := 0x1_0000_0000_0000_0000

  lemma Powers()
    ensures Power(256, 4) == TWO32 && Power(256, 8) == TWO64
  {
    assert Power(256, 2) == 0x1_0000;
    assert Power(256, 4) == 256 * (256 * Power(256, 2));
    assert Power(256, 6) == 256 * (256 * Power(256, 4));
    assert Power(256, 8) == 256 * (256 * Power(256, 6));
  }

  // ----- varints -----

  /** Seven bits a byte, least significant first, with the high bit set on all but the last byte. */
  function Varint(v: nat): (r: Bytes)
    ensures r != []
  {
    if v < 128 then [v as byte] else [(v % 128 + 128) as byte] + Varint(v / 128)
  }

  /** The number that the bytes begin with, and how many bytes it takes, looking at no more than `limit` of them. */
  function Unvarint(b: Bytes, limit: nat): (r: Option<(nat, nat)>)
    ensures r.Some? ==> 1 <= r.value.1 <= |b| && r.value.1 <= limit
  {
    if b == [] || limit == 0 then None
    else if b[0] < 128 then Some((b[0] as nat, 1))
    else
      var rest := Unvarint(b[1..], limit - 1);
      if rest == None then None else Some((b[0] as nat - 128 + 128 * rest.value.0, rest.value.1 + 1))
  }

  lemma {:induction false} VarintRoundTrip(v: nat, limit: nat, rest: Bytes)
    requires limit > 0 && v < Power(128, limit)
    ensures Unvarint(Varint(v) + rest, limit) == Some((v, |Varint(v)|))
    ensures |Varint(v)| <= limit
  {
    if v >= 128 {
      assert limit > 1;
      assert v / 128 < Power(128, limit - 1);
      VarintRoundTrip(v / 128, limit - 1, rest);
      assert (Varint(v) + rest)[1..] == Varint(v / 128) + rest;
    }
  }

  lemma SevenBitPowers()
    ensures Power(128, 5) == 8 * TWO32 && Power(128, 10) == 64 * TWO64
  {
    assert Power(128, 2) == 0x4000;
    assert Power(128, 5) == 128 * (128 * (128 * Power(128, 2)));
    assert Power(128, 7) == 128 * (128 * Power(128, 5));
    assert Power(128, 10) == 128 * (128 * (128 * Power(128, 7)));
  }

  const MAX_VARINT32: nat := 5
  const MAX_VARINT64: nat := 10

  method PutVarint(dst: Bytes, v: nat) returns (r: Bytes)
    ensures r == dst + Varint(v)
  {
    r := dst;
    var left := v;
    while left >= 128
      invariant r + Varint(left) == dst + Varint(v)
    {
      r := r + [(left % 128 + 128) as byte];
      left := left / 128;
    }
    r := r + [left as byte];
  }

  /** What decoding a number of at most `limit` bytes gives: its value modulo the width of the
      result, and what is left. */
  function Varied(input: Bytes, limit: nat, modulus: nat): (r: Option<(nat, Bytes)>)
    requires modulus > 0
    ensures r.Some? ==> |r.value.1| < |input|
  {
    var r := Unvarint(input, limit);
    if r == None then None else Some((r.value.0 % modulus, input[r.value.1..]))
  }

  /** The first `n` bytes have given `result`, the next counts `scale` times; `rest` is what the others give. */
  function Combined(result: nat, scale: nat, n: nat, rest: Option<(nat, nat)>): Option<(nat, nat)> {
    if rest == None then None else Some((result + scale * rest.value.0, n + rest.value.1))
  }

  lemma CombinedNext(result: nat, scale: nat, n: nat, b: nat, rest: Option<(nat, nat)>)
    ensures Combined(result, scale, n, if rest == None then None else Some((b + 128 * rest.value.0, rest.value.1 + 1)))
            == Combined(result + b * scale, 128 * scale, n + 1, rest)
  {
    if rest.Some? {
      var v := rest.value.0;
      calc {
        scale * (b + 128 * v);
        scale * b + scale * (128 * v);
        b * scale + 128 * scale * v;
      }
    }
  }

  /** GetVarint32Ptr and GetVarint64Ptr.  Shifted bits beyond the width of the result fall away, as wrapping does. */
  method GetVarint(input: Bytes, limit: nat, modulus: nat) returns (r: Option<(nat, Bytes)>)
    requires modulus > 0
    ensures r == Varied(input, limit, modulus)
  {
    var result: nat, scale: nat, i: nat := 0, 1, 0;
    while i < limit && i < |input|
      invariant i <= |input| && i <= limit
      invariant Combined(result, scale, i, Unvarint(input[i..], limit - i)) == Unvarint(input, limit)
    {
      hide Combined;
      var b := input[i] as nat;
      assert input[i..][1..] == input[i + 1..];
      if b >= 128 {
        CombinedNext(result, scale, i, b - 128, Unvarint(input[i + 1..], limit - i - 1));
        result, scale, i := result + (b - 128) * scale, 128 * scale, i + 1;
      } else {
        CombinedLast(result, scale, i, b);
        return Some(((result + b * scale) % modulus, input[i + 1..]));
      }
    }
    return None;
  }

  lemma CombinedLast(result: nat, scale: nat, n: nat, b: nat)
    ensures Combined(result, scale, n, Some((b, 1))) == Some((result + b * scale, n + 1))
  {
  }

  lemma {:induction false} NoEnd(b: Bytes, limit: nat)
    requires limit <= |b| && forall i :: 0 <= i < limit ==> b[i] >= 128
    ensures Unvarint(b, limit) == None
  {
    if limit > 0 {
      NoEnd(b[1..], limit - 1);
    }
  }

  /** A number that goes on after five bytes, or after ten, is refused. */
  lemma TooLongRefused(b: Bytes)
    ensures |b| >= 5 && (forall i :: 0 <= i < 5 ==> b[i] >= 128) ==> Varied(b, MAX_VARINT32, TWO32) == None
    ensures |b| >= 10 && (forall i :: 0 <= i < 10 ==> b[i] >= 128) ==> Varied(b, MAX_VARINT64, TWO64) == None
  {
    if |b| >= 5 && forall i :: 0 <= i < 5 ==> b[i] >= 128 {
      NoEnd(b, 5);
    }
    if |b| >= 10 && forall i :: 0 <= i < 10 ==> b[i] >= 128 {
      NoEnd(b, 10);
    }
  }

  // ----- length-prefixed strings -----

  function Prefixed(s: Bytes): Bytes {
    Varint(|s|) + s
  }

  /** GetLengthPrefixedSlice. */
  method GetLengthPrefixed(input: Bytes) returns (r: Option<(Bytes, Bytes)>)
    ensures r == Unprefixed(input)
  {
    var len := GetVarint(input, MAX_VARINT32, TWO32);
    if len == None || |len.value.1| < len.value.0 {
      return None;
    }
    return Some((len.value.1[..len.value.0], len.value.1[len.value.0..]));
  }

  function Unprefixed(input: Bytes): (r: Option<(Bytes, Bytes)>)
    ensures r.Some? ==> |r.value.1| < |input|
  {
    var len := Varied(input, MAX_VARINT32, TWO32);
    if len == None || |len.value.1| < len.value.0 then None
    else Some((len.value.1[..len.value.0], len.value.1[len.value.0..]))
  }

  lemma Varint32RoundTrip(v: nat, rest: Bytes)
    requires v < TWO32
    ensures Varied(Varint(v) + rest, MAX_VARINT32, TWO32) == Some((v, rest)) && |Varint(v)| <= MAX_VARINT32
  {
    SevenBitPowers();
    VarintRoundTrip(v, MAX_VARINT32, rest);
    assert (Varint(v) + rest)[|Varint(v)|..] == rest;
  }

  lemma Varint64RoundTrip(v: nat, rest: Bytes)
    requires v < TWO64
    ensures Varied(Varint(v) + rest, MAX_VARINT64, TWO64) == Some((v, rest)) && |Varint(v)| <= MAX_VARINT64
  {
    SevenBitPowers();
    VarintRoundTrip(v, MAX_VARINT64, rest);
    assert (Varint(v) + rest)[|Varint(v)|..] == rest;
  }

  lemma PrefixedRoundTrip(s: Bytes, rest: Bytes)
    requires |s| < TWO32
    ensures Unprefixed(Prefixed(s) + rest) == Some((s, rest))
  {
    assert Prefixed(s) + rest == Varint(|s|) + (s + rest);
    Varint32RoundTrip(|s|, s + rest);
  }

  // ----- stored checksums -----

  const MASK_DELTA: nat := 0xa282ead8

  /** Rotate right by 15 bits and add a constant. */
  function Mask(crc: nat): (r: nat)
    requires crc < TWO32
    ensures r < TWO32
  {
    (crc / 0x8000 + crc % 0x8000 * 0x2_0000 + MASK_DELTA) % TWO32
  }

  function Unmask(masked: nat): (r: nat)
    requires masked < TWO32
    ensures r < TWO32
  {
    var rot := (masked + TWO32 - MASK_DELTA) % TWO32;
    rot / 0x2_0000 + rot % 0x2_0000 * 0x8000
  }

  lemma MaskRoundTrip(crc: nat)
    requires crc < TWO32
    ensures Unmask(Mask(crc)) == crc
  {
    var rotated := crc / 0x8000 + crc % 0x8000 * 0x2_0000;
    assert rotated / 0x2_0000 == crc % 0x8000 && rotated % 0x2_0000 == crc / 0x8000;
  }

  /** The low 15 bits go to the top, and the constant is added. */
  lemma MaskInNumbers(high: nat, low: nat)
    requires high < 0x2_0000 && low < 0x8000
    ensures high * 0x8000 + low < TWO32
    ensures Mask(high * 0x8000 + low) == (low * 0x2_0000 + high + 0xa282ead8) % 0x1_0000_0000
  {
  }
}
