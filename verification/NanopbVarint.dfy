/**
 nanopb's varints: the 64-bit decoder, the stricter 32-bit decoder, two's complement and zig-zag.
*/
module NanopbVarint {
  import opened Format
  import opened Coding

  /** pb_encode_varint fills a buffer of ten bytes and then clears the top bit of the last. */
  method EncodeVarint(value: nat) returns (buffer: Bytes)
    requires value < TWO64
    ensures buffer == Varint(value) && |buffer| <= MAX_VARINT64
  {
    SevenBitPowers();
    VarintRoundTrip(value, MAX_VARINT64, []);
    if value <= 0x7F {
      return [value as byte];
    }
    buffer := [];
    var left: nat := value;
    while left > 0
      invariant left == 0 ==> buffer != [] && buffer[|buffer| - 1] >= 128
      invariant left == 0 ==> buffer[..|buffer| - 1] + [buffer[|buffer| - 1] - 128] == Varint(value)
      invariant left > 0 ==> buffer + Varint(left) == Varint(value)
    {
      ghost var before := left;
      buffer := buffer + [(left % 128 + 128) as byte];
      left := left / 128;
      if left == 0 {
        assert buffer[..|buffer| - 1] + [buffer[|buffer| - 1] - 128] == buffer[..|buffer| - 1] + Varint(before);
      }
    }
    buffer := buffer[..|buffer| - 1] + [buffer[|buffer| - 1] - 128];
  }

  // ----- the 32-bit decoder -----

  /** What the loop of pb_decode_varint32_eof makes of the next byte, at `bitpos`: the new result, or None if the number
      overflows. */
  function NextByte32(result: nat, bitpos: nat, b: byte): (r: Option<nat>)
    requires result < TWO32 && bitpos < 256
    ensures r.Some? ==> r.value < TWO32
  {
    var low := b as nat % 128;
    if bitpos >= 32 then
      var signExtension: byte := if bitpos < 63 then 0xFF else 0x01;
      if low != 0 && (result < 0x8000_0000 || b != signExtension) then None else Some(result)
    else Some((result + low * Power(2, bitpos)) % TWO32)
  }

  /** The multibyte loop.  `bitpos` is an 8-bit variable. */
  function Varint32From(input: Bytes, result: nat, bitpos: nat): Option<(nat, Bytes)>
    requires result < TWO32 && bitpos < 256
    decreases |input|
  {
    if input == [] then None
    else
      var b := input[0];
      var next := NextByte32(result, bitpos, b);
      if next == None then None
      else if b >= 128 then Varint32From(input[1..], next.value, (bitpos + 7) % 256)
      else if (bitpos + 7) % 256 == 35 && (b as nat / 16) % 8 != 0 then None
      else Some((next.value, input[1..]))
  }

  function Varint32(input: Bytes): Option<(nat, Bytes)> {
    if input == [] then None
    else if input[0] < 128 then Some((input[0] as nat, input[1..]))
    else Varint32From(input[1..], input[0] as nat - 128, 7)
  }

  /** The 32-bit decoder takes at least one byte. */
  lemma Varint32Shrinks(input: Bytes)
    ensures Varint32(input).Some? ==> |Varint32(input).value.1| < |input|
  {
    if input != [] && input[0] >= 128 {
      Shrinks(input[1..], input[0] as nat - 128, 7);
    }
  }

  lemma SevenUp(n: nat)
    ensures Power(2, n + 7) == 128 * Power(2, n)
  {
    assert Power(2, n + 2) == 2 * (2 * Power(2, n));
    assert Power(2, n + 4) == 2 * (2 * Power(2, n + 2));
    assert Power(2, n + 6) == 2 * (2 * Power(2, n + 4));
  }

  lemma PowersOfTwo()
    ensures Power(2, 4) == 16 && Power(2, 7) == 128 && Power(2, 28) == 0x1000_0000 && Power(2, 32) == TWO32
    ensures Power(2, 35) == 8 * TWO32 && Power(2, 63) == 0x8000_0000_0000_0000
  {
    assert Power(2, 2) == 2 * (2 * Power(2, 0));
    assert Power(2, 4) == 2 * (2 * Power(2, 2));
    SevenUp(0);
    SevenUp(7);
    SevenUp(14);
    SevenUp(21);
    SevenUp(28);
    SevenUp(35);
    SevenUp(42);
    SevenUp(49);
    SevenUp(56);
    assert Power(2, 30) == 2 * (2 * Power(2, 28));
    assert Power(2, 32) == 2 * (2 * Power(2, 30));
  }

  /** Canonical encodings of 32-bit numbers are read back. */
  lemma Varint32RoundTrip(v: nat, rest: Bytes)
    requires v < TWO32
    ensures Varint32(Varint(v) + rest) == Some((v, rest))
  {
    if v >= 128 {
      FirstOfMore(v, rest);
      SevenUp(0);
      CanonicalFrom(v / 128, rest, v % 128, 1);
    }
  }

  /** A byte in the low 32 bits that overflows nothing. */
  lemma NextLow(result: nat, i: nat, b: byte)
    requires 1 <= i <= 4 && result + b as nat % 128 * Power(2, 7 * i) < TWO32
    ensures NextByte32(result, 7 * i, b) == Some(result + b as nat % 128 * Power(2, 7 * i))
  {
  }

  /** A byte of a canonical encoding that is not the last. */
  lemma MoreBytes(u: nat, rest: Bytes, result: nat, bitpos: nat)
    requires u >= 128 && result < TWO32 && bitpos < 249
    ensures var next := NextByte32(result, bitpos, (u % 128 + 128) as byte);
            Varint32From(Varint(u) + rest, result, bitpos)
            == if next == None then None else Varint32From(Varint(u / 128) + rest, next.value, bitpos + 7)
  {
    hide NextByte32;
    assert (Varint(u) + rest)[1..] == Varint(u / 128) + rest;
  }

  lemma LastByte(u: nat, rest: Bytes, result: nat, bitpos: nat)
    requires u < 128 && result < TWO32 && bitpos < 249
    ensures var next := NextByte32(result, bitpos, u as byte);
            Varint32From(Varint(u) + rest, result, bitpos)
            == if next == None || (bitpos == 28 && u / 16 % 8 != 0) then None else Some((next.value, rest))
  {
    hide NextByte32;
    assert (Varint(u) + rest)[1..] == rest;
  }

  /** After `i` bytes of a canonical encoding. */
  lemma {:induction false} CanonicalFrom(u: nat, rest: Bytes, result: nat, i: nat)
    requires 1 <= i <= 4 && result < Power(2, 7 * i) && result + u * Power(2, 7 * i) < TWO32
    ensures Varint32From(Varint(u) + rest, result, 7 * i) == Some((result + u * Power(2, 7 * i), rest))
    decreases u
  {
    hide Power, NextByte32, Varint32From, Varint;
    var p := Power(2, 7 * i);
    PowersOfTwo();
    Carry(u, p);
    if u < 128 {
      NextLow(result, i, u as byte);
      LastByte(u, rest, result, 7 * i);
      if i == 4 {
        LastDigit(result, u, p);
      }
    } else {
      NextLow(result, i, (u % 128 + 128) as byte);
      MoreBytes(u, rest, result, 7 * i);
      SevenUp(7 * i);
      SmallDigit(result, u % 128, p);
      if i == 4 {
        TooBig(u, p);
      }
      CanonicalFrom(u / 128, rest, result + u % 128 * p, i + 1);
    }
  }

  lemma LastDigit(result: nat, u: nat, p: nat)
    requires p == 0x1000_0000 && result + u * p < TWO32 && u < 128
    ensures u / 16 % 8 == 0
  {
  }

  lemma TooBig(u: nat, p: nat)
    requires p == 0x1000_0000 && u >= 128
    ensures u * p >= TWO32
  {
  }

  lemma Carry(u: nat, p: nat)
    ensures u * p == u % 128 * p + u / 128 * (128 * p)
  {
    var q, r := u / 128, u % 128;
    assert u == 128 * q + r;
    assert (128 * q + r) * p == 128 * q * p + r * p;
  }

  lemma SmallDigit(result: nat, low: nat, p: nat)
    requires result < p && low < 128
    ensures result + low * p < 128 * p
  {
    assert low * p <= 127 * p;
  }

  /** The first byte of a canonical encoding that goes on. */
  lemma FirstOfMore(v: nat, rest: Bytes)
    requires v >= 128
    ensures Varint32(Varint(v) + rest) == Varint32From(Varint(v / 128) + rest, v % 128, 7)
  {
    hide Varint32From;
    assert (Varint(v) + rest)[1..] == Varint(v / 128) + rest;
  }

  /** Numbers from 2^32 up to 2^63 are rejected. */
  lemma Varint32Rejects(v: nat, rest: Bytes)
    requires TWO32 <= v < 0x8000_0000_0000_0000
    ensures Varint32(Varint(v) + rest) == None
  {
    hide Power, Varint32, Varint32From, Varint;
    PowersOfTwo();
    SevenUp(25);
    SevenUp(56);
    FirstOfMore(v, rest);
    RejectsFrom(v / 128, rest, v % 128, 1);
  }

  /** While bits of the low 32 are still to come: what is left goes beyond them. */
  lemma {:induction false} RejectsFrom(u: nat, rest: Bytes, result: nat, i: nat)
    requires 1 <= i <= 4 && result < TWO32 && Power(2, 32 - 7 * i) <= u < Power(2, 63 - 7 * i)
    ensures Varint32From(Varint(u) + rest, result, 7 * i) == None
    decreases u
  {
    hide Power, Varint, Varint32From;
    PowersOfTwo();
    if i < 4 {
      SevenUp(32 - 7 * (i + 1));
      AtLeastOne(32 - 7 * (i + 1));
      SevenUp(63 - 7 * (i + 1));
      MoreBytes(u, rest, result, 7 * i);
      RejectsFrom(u / 128, rest, NextByte32(result, 7 * i, (u % 128 + 128) as byte).value, i + 1);
    } else if u >= 128 {
      SevenUp(28);
      MoreBytes(u, rest, result, 28);
      RejectsHigh(u / 128, rest, NextByte32(result, 28, (u % 128 + 128) as byte).value, 5);
    } else {
      LastByte(u, rest, result, 28);
    }
  }

  lemma AtLeastOne(n: nat)
    ensures Power(2, n) >= 1
  {
  }

  /** Beyond the low 32 bits: some bit is still set, and the encoding ends before it could be a sign extension. */
  lemma {:induction false} RejectsHigh(u: nat, rest: Bytes, result: nat, i: nat)
    requires 5 <= i <= 8 && result < TWO32 && 1 <= u < Power(2, 63 - 7 * i)
    ensures Varint32From(Varint(u) + rest, result, 7 * i) == None
    decreases u
  {
    hide Power, Varint, Varint32From;
    PowersOfTwo();
    if u >= 128 {
      assert i < 8;
      SevenUp(63 - 7 * (i + 1));
      MoreBytes(u, rest, result, 7 * i);
      if NextByte32(result, 7 * i, (u % 128 + 128) as byte).Some? {
        RejectsHigh(u / 128, rest, result, i + 1);
      }
    } else {
      LastByte(u, rest, result, 7 * i);
    }
  }

  /** Whatever the 32-bit decoder accepts in at most ten bytes is the low 32 bits of what the 64-bit decoder reads. */
  lemma Varint32IsLow32(input: Bytes, r: nat, rest: Bytes)
    requires Varint32(input) == Some((r, rest)) && |input| - |rest| <= 10
    ensures Varied(input, MAX_VARINT64, TWO64).Some?
    ensures Varied(input, MAX_VARINT64, TWO64).value.0 % TWO32 == r
    ensures Varied(input, MAX_VARINT64, TWO64).value.1 == rest
  {
    if input[0] < 128 {
      OneByte(input);
    } else {
      hide Varint32From, Unvarint, Power;
      PowersOfTwo();
      LowFrom(input[1..], r, rest, input[0] as nat - 128, 1);
      FirstGoesOn(input);
    }
    hide Varint32, Varint32From, Unvarint;
    LowOfLow(Unvarint(input, 10).value.0);
  }

  lemma OneByte(input: Bytes)
    requires input != [] && input[0] < 128
    ensures Unvarint(input, 10) == Some((input[0] as nat, 1)) && Varint32(input) == Some((input[0] as nat, input[1..]))
  {
  }

  lemma FirstGoesOn(input: Bytes)
    requires input != [] && input[0] >= 128
    ensures var u := Unvarint(input[1..], 9);
            u.Some? ==> Unvarint(input, 10) == Some((input[0] as nat - 128 + 128 * u.value.0, u.value.1 + 1))
                        && input[u.value.1 + 1..] == input[1..][u.value.1..]
  {
  }

  lemma LowOfLow(w: nat)
    ensures w % TWO64 % TWO32 == w % TWO32
  {
    assert w % TWO64 == w - w / TWO64 * TWO64;
    assert w / TWO64 * TWO64 == w / TWO64 * TWO32 * TWO32;
  }

  lemma ModAdd(a: nat, b: nat)
    ensures (a % TWO32 + b) % TWO32 == (a + b) % TWO32
  {
  }

  lemma ModMultiple(a: nat, k: nat)
    ensures (a + k * TWO32) % TWO32 == a % TWO32
  {
  }

  lemma {:induction false} HighPower(i: nat) returns (q: nat)
    requires i >= 5
    ensures Power(2, 7 * i) == q * TWO32
  {
    PowersOfTwo();
    if i == 5 {
      q := 8;
    } else {
      var r := HighPower(i - 1);
      SevenUp(7 * (i - 1));
      q := 128 * r;
    }
  }

  /** Bits beyond the low 32 do not show in the result. */
  lemma HighBits(result: nat, u: nat, i: nat)
    requires i >= 5 && result < TWO32
    ensures (result + u * Power(2, 7 * i)) % TWO32 == result
  {
    var q := HighPower(i);
    var p := Power(2, 7 * i);
    assert u * p == u * q * TWO32;
    ModMultiple(result, u * q);
  }

  lemma LowBits(result: nat, low: nat, more: nat, p: nat)
    ensures ((result + low * p) % TWO32 + more * (128 * p)) % TWO32 == (result + (low + 128 * more) * p) % TWO32
  {
    ModAdd(result + low * p, more * (128 * p));
    var u := low + 128 * more;
    assert u * p == low * p + 128 * more * p;
    assert more * (128 * p) == 128 * more * p;
  }

  lemma NextIs(result: nat, i: nat, b: byte)
    requires 1 <= i <= 10 && result < TWO32 && NextByte32(result, 7 * i, b).Some?
    ensures NextByte32(result, 7 * i, b).value == (result + b as nat % 128 * Power(2, 7 * i)) % TWO32
  {
    if i >= 5 {
      HighBits(result, b as nat % 128, i);
    }
  }

  /** Both decoders on a byte that is not the last. */
  lemma BothGoOn(input: Bytes, result: nat, i: nat)
    requires 1 <= i <= 9 && result < TWO32 && input != [] && input[0] >= 128
    requires NextByte32(result, 7 * i, input[0]).Some?
    ensures Varint32From(input, result, 7 * i)
            == Varint32From(input[1..], NextByte32(result, 7 * i, input[0]).value, 7 * (i + 1))
    ensures var u := Unvarint(input[1..], 10 - (i + 1));
            u.Some? ==> Unvarint(input, 10 - i) == Some((input[0] as nat - 128 + 128 * u.value.0, u.value.1 + 1))
                        && input[u.value.1 + 1..] == input[1..][u.value.1..]
  {
    hide NextByte32;
  }

  /** Both decoders on the last byte. */
  lemma BothStop(input: Bytes, result: nat, i: nat)
    requires 1 <= i <= 9 && result < TWO32 && input != [] && input[0] < 128
    ensures Varint32From(input, result, 7 * i).Some? ==>
              && NextByte32(result, 7 * i, input[0]).Some?
              && Varint32From(input, result, 7 * i) == Some((NextByte32(result, 7 * i, input[0]).value, input[1..]))
    ensures Unvarint(input, 10 - i) == Some((input[0] as nat, 1))
  {
    hide NextByte32;
  }

  lemma AcceptsFirst(input: Bytes, result: nat, bitpos: nat)
    requires result < TWO32 && bitpos < 256 && Varint32From(input, result, bitpos).Some?
    ensures input != [] && NextByte32(result, bitpos, input[0]).Some?
  {
  }

  /** After `i` bytes: `r` is the low 32 bits of what has been read and what is still to come. */
  lemma {:induction false} LowFrom(input: Bytes, r: nat, rest: Bytes, result: nat, i: nat)
    requires 1 <= i <= 10 && result < TWO32 && Varint32From(input, result, 7 * i) == Some((r, rest))
    requires |input| - |rest| <= 10 - i
    ensures var u := Unvarint(input, 10 - i);
            u.Some? && rest == input[u.value.1..] && r == (result + u.value.0 * Power(2, 7 * i)) % TWO32
    decreases |input|
  {
    hide Power, NextByte32, Varint32From, Unvarint;
    Shrinks(input, result, 7 * i);
    AcceptsFirst(input, result, 7 * i);
    NextIs(result, i, input[0]);
    if input[0] < 128 {
      BothStop(input, result, i);
    } else {
      var b, next := input[0] as nat - 128, NextByte32(result, 7 * i, input[0]).value;
      BothGoOn(input, result, i);
      Shrinks(input[1..], next, 7 * (i + 1));
      LowFrom(input[1..], r, rest, next, i + 1);
      SevenUp(7 * i);
      LowBits(result, b, Unvarint(input[1..], 10 - (i + 1)).value.0, Power(2, 7 * i));
    }
  }

  /** The decoder takes at least one byte. */
  lemma {:induction false} Shrinks(input: Bytes, result: nat, bitpos: nat)
    requires result < TWO32 && bitpos < 256
    ensures Varint32From(input, result, bitpos).Some? ==> |Varint32From(input, result, bitpos).value.1| < |input|
    decreases |input|
  {
    if input != [] {
      hide NextByte32;
      var next := NextByte32(result, bitpos, input[0]);
      if next.Some? && input[0] >= 128 {
        Shrinks(input[1..], next.value, (bitpos + 7) % 256);
      }
    }
  }

  // ----- signed numbers -----

  const TWO63: int := 0x8000_0000_0000_0000

  predicate Int64(i: int) {
    -TWO63 <= i < TWO63
  }

  /** Two's complement, as a cast to uint64_t. */
  function ToUnsigned(i: int): (u: nat)
    requires Int64(i)
    ensures u < TWO64
  {
    if i < 0 then i + TWO64 else i
  }

  function ToSigned(u: nat): (i: int)
    requires u < TWO64
    ensures Int64(i)
  {
    if u < TWO63 then u else u - TWO64
  }

  /** pb_encode_svarint: shift left by one bit, and complement if negative. */
  function ZigZag(i: int): (u: nat)
    requires Int64(i)
    ensures u < TWO64
  {
    var shifted := ToUnsigned(i) * 2 % TWO64;
    if i < 0 then TWO64 - 1 - shifted else shifted
  }

  /** pb_decode_svarint: shift right by one bit, and complement if the bit shifted out was set. */
  function UnZigZag(u: nat): (i: int)
    requires u < TWO64
    ensures Int64(i)
  {
    if u % 2 == 1 then ToSigned(TWO64 - 1 - u / 2) else ToSigned(u / 2)
  }

  /** Every signed number survives, and small magnitudes give small numbers. */
  lemma ZigZagRoundTrip(i: int)
    requires Int64(i)
    ensures UnZigZag(ZigZag(i)) == i
    ensures ZigZag(i) == if i >= 0 then 2 * i else -2 * i - 1
  {
  }

  /** pb_encode_svarint and pb_decode_svarint undo each other, in at most ten bytes. */
  lemma SvarintRoundTrip(i: int, rest: Bytes)
    requires Int64(i)
    ensures |Varint(ZigZag(i))| <= 10
    ensures var r := Varied(Varint(ZigZag(i)) + rest, MAX_VARINT64, TWO64);
            r.Some? && UnZigZag(r.value.0) == i && r.value.1 == rest
  {
    Varint64RoundTrip(ZigZag(i), rest);
    ZigZagRoundTrip(i);
  }
}
