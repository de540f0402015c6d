/**
 The log format: records cut into physical records that never cross a block, each with a checksum,
 a length and a type.  The writer appends; the reader takes them back out.
*/
module Log {
  import opened Format
  import opened Coding

  const BLOCK: nat := 32768
  const HEADER: nat := 7

  const FULL: byte := 1
  const FIRST: byte := 2
  const MIDDLE: byte := 3
  const LAST: byte := 4

  type Word = x: nat | x < TWO32

  // ----- the format -----

  function Zeros(n: nat): (r: Bytes)
    ensures |r| == n
  {
    seq(n, _ => 0 as byte)
  }

  /** How many bytes at position `p` are too few for a header, and are filled with zeros. */
  function Pad(p: nat): (n: nat)
    ensures n < HEADER
  {
    var leftover := BLOCK - p % BLOCK;
    if leftover < HEADER then leftover else 0
  }

  /** How many bytes of data fit into the block, after the padding and a header. */
  function Avail(p: nat): (n: nat)
    ensures (p + Pad(p)) % BLOCK + HEADER + n == BLOCK
  {
    BLOCK - (p + Pad(p)) % BLOCK - HEADER
  }

  function Take(left: nat, p: nat): (n: nat)
    ensures n <= left && n <= Avail(p)
  {
    if left < Avail(p) then left else Avail(p)
  }

  function KindOf(begin: bool, end: bool): byte {
    if begin && end then FULL else if begin then FIRST else if end then LAST else MIDDLE
  }

  /** Checksum, length and type. */
  function Header(t: byte, data: Bytes, crc: Bytes -> Word): (r: Bytes)
    requires |data| <= 0xffff
    ensures |r| == HEADER
  {
    Fixed(Mask(crc([t] + data)), 4) + [(|data| % 256) as byte, (|data| / 256) as byte, t]
  }

  function Physical(t: byte, data: Bytes, crc: Bytes -> Word): (r: Bytes)
    requires |data| <= 0xffff
    ensures |r| == HEADER + |data|
  {
    Header(t, data, crc) + data
  }

  /** A block with room for a header only is followed by one with room for data. */
  lemma AvailNext(p: nat)
    requires Avail(p) == 0
    ensures Avail(p + Pad(p) + HEADER) > 0
  {
  }

  /** The next physical record of a record with `data` left, with the padding in front of it. */
  function Here(data: Bytes, p: nat, begin: bool, crc: Bytes -> Word): (r: Bytes)
    ensures |r| == Pad(p) + HEADER + Take(|data|, p)
  {
    var n := Take(|data|, p);
    Zeros(Pad(p)) + Physical(KindOf(begin, n == |data|), data[..n], crc)
  }

  /** What the writer appends at position `p` for the rest of a record. */
  function Fragments(data: Bytes, p: nat, begin: bool, crc: Bytes -> Word): (r: Bytes)
    ensures |r| >= HEADER
    decreases |data|, if Avail(p) == 0 then 1 else 0
  {
    var n := Take(|data|, p);
    var here := Here(data, p, begin, crc);
    if n == |data| then here
    else
      assert n == 0 ==> Avail(p + |here|) > 0 by { if n == 0 { AvailNext(p); } }
      here + Fragments(data[n..], p + |here|, false, crc)
  }

  /** The records, one after another from position `p`. */
  function Written(records: seq<Bytes>, p: nat, crc: Bytes -> Word): Bytes {
    if records == [] then []
    else
      var f := Fragments(records[0], p, true, crc);
      f + Written(records[1..], p + |f|, crc)
  }

  /** A fragment in numbers: the masked checksum of type and data and the length, least significant byte first, and then
      the type. */
  function Framed(t: byte, data: Bytes, crc: Bytes -> Word): Bytes {
    Four(Mask(crc([t] + data))) + [(|data| % 256) as byte, (|data| / 256 % 256) as byte, t] + data
  }

  /** The format in numbers.  Blocks have 32768 bytes, of which fewer than seven at the end are zeros.  A record that
      fits in the block behind seven bytes is one fragment of type 1, or 4 if it has begun before; otherwise the block
      is filled with one of type 2, or 3, and the rest follows in the next. */
  lemma LayoutInNumbers(data: Bytes, p: nat, begin: bool, crc: Bytes -> Word)
    ensures var space := 32768 - p % 32768;
            Fragments(data, p, begin, crc)
            == if space < 7 then seq(space, _ => 0 as byte) + Fragments(data, p + space, begin, crc)
               else if |data| <= space - 7 then Framed(if begin then 1 else 4, data, crc)
               else Framed(if begin then 2 else 3, data[..space - 7], crc)
                    + Fragments(data[space - 7..], p + space, false, crc)
  {
    hide Framed, Pad, Avail, Fragments, Take;
    Space(p);
    if Pad(p) > 0 {
      AfterPadding(data, p, begin, crc);
    } else {
      Unpadded(data, p, begin, crc);
    }
  }

  lemma Unpadded(data: Bytes, p: nat, begin: bool, crc: Bytes -> Word)
    requires Pad(p) == 0
    ensures Fragments(data, p, begin, crc)
            == if |data| <= Avail(p) then Framed(if begin then 1 else 4, data, crc)
               else Framed(if begin then 2 else 3, data[..Avail(p)], crc)
                    + Fragments(data[Avail(p)..], p + HEADER + Avail(p), false, crc)
  {
    hide Physical, Framed, Avail;
    var n := Take(|data|, p);
    PhysicalInNumbers(KindOf(begin, n == |data|), data[..n], crc);
    assert n == |data| ==> data[..n] == data;
    assert Zeros(0) == [];
    assert Here(data, p, begin, crc) == Physical(KindOf(begin, n == |data|), data[..n], crc);
  }

  lemma Space(p: nat)
    ensures var space := 32768 - p % 32768;
            if space < 7 then Pad(p) == space > 0 else Pad(p) == 0 && Avail(p) == space - 7
  {
  }

  lemma PhysicalInNumbers(t: byte, data: Bytes, crc: Bytes -> Word)
    requires |data| <= 0xffff
    ensures Physical(t, data, crc) == Framed(t, data, crc)
  {
    hide Mask, Four, Fixed;
    FixedOnWire(Mask(crc([t] + data)));
  }

  lemma PadNext(p: nat)
    requires Pad(p) > 0
    ensures Pad(p + Pad(p)) == 0 && Avail(p + Pad(p)) == Avail(p)
  {
  }

  lemma HereAfterPadding(data: Bytes, p: nat, begin: bool, crc: Bytes -> Word)
    requires Pad(p) > 0
    ensures Take(|data|, p + Pad(p)) == Take(|data|, p)
    ensures Here(data, p, begin, crc) == Zeros(Pad(p)) + Here(data, p + Pad(p), begin, crc)
  {
    hide Physical, Pad, Avail;
    PadNext(p);
    assert Zeros(0) == [];
  }

  lemma {:induction false} AfterPadding(data: Bytes, p: nat, begin: bool, crc: Bytes -> Word)
    requires Pad(p) > 0
    ensures Fragments(data, p, begin, crc) == Zeros(Pad(p)) + Fragments(data, p + Pad(p), begin, crc)
  {
    hide Here, Take, Pad, Zeros;
    HereAfterPadding(data, p, begin, crc);
    var n := Take(|data|, p);
    var here, next := Here(data, p, begin, crc), Here(data, p + Pad(p), begin, crc);
    assert p + |here| == p + Pad(p) + |next|;
    if n < |data| {
      var rest := Fragments(data[n..], p + |here|, false, crc);
      assert here + rest == Zeros(Pad(p)) + (next + rest);
    }
  }

  lemma OffsetNext(offset: nat, length: nat, n: nat)
    requires offset % BLOCK == length % BLOCK
    ensures (offset + n) % BLOCK == (length + n) % BLOCK
  {
  }

  // ----- the writer -----

  class Writer {
    const crc: Bytes -> Word
    /** The file written to. */
    var dest: Bytes
    var blockOffset: nat

    ghost predicate Valid()
      reads this
    {
      blockOffset <= BLOCK && blockOffset % BLOCK == |dest| % BLOCK
    }

    /** A writer that goes on at the end of a file. */
    constructor (dest: Bytes, crc: Bytes -> Word)
      ensures Valid() && this.dest == dest && this.crc == crc
    {
      this.dest, this.crc := dest, crc;
      blockOffset := |dest| % BLOCK;
    }

    method EmitPhysicalRecord(t: byte, data: Bytes)
      requires Valid() && blockOffset + HEADER + |data| <= BLOCK
      modifies this
      ensures Valid() && dest == old(dest) + Physical(t, data, crc)
    {
      hide Header;
      OffsetNext(blockOffset, |dest|, HEADER + |data|);
      dest := dest + Header(t, data, crc);
      dest := dest + data;
      blockOffset := blockOffset + HEADER + |data|;
    }

    /** Go to a new block if this one has no room for a header, filling up the old one with zeros. */
    method SkipTrailer()
      requires Valid()
      modifies this
      ensures Valid() && dest == old(dest) + Zeros(Pad(|old(dest)|))
      ensures blockOffset + HEADER + Avail(|old(dest)|) == BLOCK
    {
      var leftover := BLOCK - blockOffset;
      if leftover < HEADER {
        if leftover > 0 {
          dest := dest + Zeros(leftover);
        }
        blockOffset := 0;
      }
      assert dest == old(dest) + Zeros(Pad(|old(dest)|));
    }

    method AddRecord(record: Bytes)
      requires Valid()
      modifies this
      ensures Valid() && dest == old(dest) + Fragments(record, |old(dest)|, true, crc)
    {
      hide Pad, Avail, Zeros, Physical, Fragments, Here;
      var left := record;
      var begin := true;
      while true
        invariant Valid()
        invariant dest + Fragments(left, |dest|, begin, crc) == old(dest) + Fragments(record, |old(dest)|, true, crc)
        decreases |left|, if Avail(|dest|) == 0 then 1 else 0
      {
        ghost var before := dest;
        SkipTrailer();
        var avail := BLOCK - blockOffset - HEADER;
        var length := if |left| < avail then |left| else avail;
        var end := length == |left|;
        EmitPhysicalRecord(KindOf(begin, end), left[..length]);
        HereParts(left, |before|, begin, before, crc);
        if end {
          FragmentsLast(left, |before|, begin, crc);
          return;
        }
        FragmentsMore(left, |before|, begin, before, crc);
        left := left[length..];
        begin := false;
      }
    }
  }

  lemma HereParts(left: Bytes, p: nat, begin: bool, before: Bytes, crc: Bytes -> Word)
    ensures var n := Take(|left|, p);
            before + Zeros(Pad(p)) + Physical(KindOf(begin, n == |left|), left[..n], crc)
            == before + Here(left, p, begin, crc)
  {
    hide Pad, Avail, Zeros, Physical;
  }

  lemma FragmentsLast(left: Bytes, p: nat, begin: bool, crc: Bytes -> Word)
    requires Take(|left|, p) == |left|
    ensures Fragments(left, p, begin, crc) == Here(left, p, begin, crc)
  {
    hide Pad, Avail, Here;
  }

  lemma FragmentsMore(left: Bytes, p: nat, begin: bool, before: Bytes, crc: Bytes -> Word)
    requires Take(|left|, p) < |left|
    ensures var n, here := Take(|left|, p), Here(left, p, begin, crc);
            && before + Fragments(left, p, begin, crc) == before + here + Fragments(left[n..], p + |here|, false, crc)
            && (n > 0 || (Avail(p) == 0 && Avail(p + |here|) > 0))
  {
    hide Pad, Avail, Here;
    if Take(|left|, p) == 0 {
      AvailNext(p);
    }
  }

  // ----- the reader -----

  /** At position `p` the file goes on with this physical record, wholly inside a block. */
  ghost predicate Ahead(whole: Bytes, p: nat, t: byte, data: Bytes, crc: Bytes -> Word) {
    && 1 <= t <= 4 && |data| <= 0xffff
    && (p + Pad(p)) % BLOCK + HEADER + |data| <= BLOCK
    && p + Pad(p) + HEADER + |data| <= |whole|
    && whole[p + Pad(p)..p + Pad(p) + HEADER + |data|] == Physical(t, data, crc)
  }

  lemma AheadKind(whole: Bytes, p: nat, t: byte, data: Bytes, crc: Bytes -> Word)
    requires Ahead(whole, p, t, data, crc)
    ensures t != 0
  {
  }

  /** A stretch of a file begins as the same stretch of what it is a prefix of. */
  lemma SameStart(file: Bytes, whole: Bytes, p: nat, end: nat, b: Bytes)
    requires file <= whole && p <= end <= |file| && p + |b| <= |whole| && whole[p..p + |b|] == b
    ensures var n := if end - p < |b| then end - p else |b|; file[p..end][..n] == b[..n]
  {
  }

  lemma HeaderKnown(buffer: Bytes, t: byte, data: Bytes, crc: Bytes -> Word)
    requires |data| <= 0xffff && |buffer| >= HEADER
    requires var b := Physical(t, data, crc);
             var n := if |buffer| < |b| then |buffer| else |b|;
             buffer[..n] == b[..n]
    ensures LengthOf(buffer) == |data| && buffer[6] == t && StoredCrc(buffer) == crc([t] + data)
    ensures |buffer| >= HEADER + |data| ==>
              buffer[6..HEADER + |data|] == [t] + data && buffer[HEADER..HEADER + |data|] == data
  {
    hide Physical;
    HeaderRoundTrip(t, data, crc);
    var b := Physical(t, data, crc);
    var n := if |buffer| < |b| then |buffer| else |b|;
    assert forall i :: 0 <= i < n ==> buffer[..n][i] == buffer[i] && b[..n][i] == b[i];
    assert buffer[..4] == buffer[..n][..4] && b[..4] == b[..n][..4];
    if n == |b| {
      assert buffer[6..n] == b[6..n] && buffer[7..n] == b[7..n];
    }
  }

  datatype Outcome = Eof | BadRecord | Got(t: byte, fragment: Bytes)

  function LengthOf(header: Bytes): nat
    requires |header| >= HEADER
  {
    header[4] as nat + 256 * header[5] as nat
  }

  /** The checksum a header stores. */
  function StoredCrc(header: Bytes): Word
    requires |header| >= HEADER
  {
    Powers();
    UnfixedBound(header[..4]);
    Unmask(Unfixed(header[..4]))
  }

  lemma HeaderRoundTrip(t: byte, data: Bytes, crc: Bytes -> Word)
    requires |data| <= 0xffff
    ensures var b := Physical(t, data, crc);
            && LengthOf(b) == |data| && b[6] == t && b[6..] == [t] + data && b[7..] == data
            && StoredCrc(b) == crc([t] + data)
  {
    hide Mask, Unmask, Fixed, Unfixed, Power;
    var masked := Mask(crc([t] + data));
    Powers();
    FixedRoundTrip(masked, 4);
    MaskRoundTrip(crc([t] + data));
    assert Physical(t, data, crc)[..4] == Fixed(masked, 4);
  }

  /** From position `p` on the whole file holds these records. */
  ghost predicate Expects(whole: Bytes, p: nat, records: seq<Bytes>, crc: Bytes -> Word) {
    p <= |whole| && whole[p..] == Written(records, p, crc)
  }

  /** From position `p` on the whole file holds the rest of a record, up to `end`, and then these records. */
  ghost predicate ExpectsRest(whole: Bytes, p: nat, left: Bytes, begin: bool, records: seq<Bytes>, end: nat,
                              crc: Bytes -> Word) {
    && p <= |whole| && end == p + |Fragments(left, p, begin, crc)|
    && whole[p..] == Fragments(left, p, begin, crc) + Written(records, end, crc)
  }

  lemma ExpectsFirst(whole: Bytes, p: nat, records: seq<Bytes>, crc: Bytes -> Word)
    requires p <= |whole|
    ensures Expects(whole, p, records, crc) && records == [] ==> p == |whole|
    ensures Expects(whole, p, records, crc) && records != [] ==>
              ExpectsRest(whole, p, records[0], true, records[1..], p + |Fragments(records[0], p, true, crc)|, crc)
  {
  }

  /** The next physical record, and what comes after it. */
  lemma {:induction false} RestAhead(whole: Bytes, p: nat, left: Bytes, begin: bool, records: seq<Bytes>, end: nat,
                                     crc: Bytes -> Word)
    requires ExpectsRest(whole, p, left, begin, records, end, crc)
    ensures var n := Take(|left|, p);
            var p' := p + Pad(p) + HEADER + n;
            && Ahead(whole, p, KindOf(begin, n == |left|), left[..n], crc)
            && p' <= end
            && if n == |left| then p' == end && Expects(whole, end, records, crc)
               else ExpectsRest(whole, p', left[n..], false, records, end, crc)
  {
    hide Pad, Avail, Here, Fragments, Written, Ahead, KindOf, Take;
    var n := Take(|left|, p);
    var here := Here(left, p, begin, crc);
    var after := Written(records, end, crc);
    HereLength(left, p, begin, crc);
    if n == |left| {
      FragmentsLast(left, p, begin, crc);
      CutAfter(whole, p, here, after);
    } else {
      var f := Fragments(left[n..], p + |here|, false, crc);
      FragmentsMore(left, p, begin, [], crc);
      NothingBefore(Fragments(left, p, begin, crc), here, f);
      Associate(here, f, after);
      CutAfter(whole, p, here, f + after);
    }
    HereAhead(whole, p, left, begin, crc);
  }

  lemma HereLength(left: Bytes, p: nat, begin: bool, crc: Bytes -> Word)
    ensures |Here(left, p, begin, crc)| == Pad(p) + HEADER + Take(|left|, p)
  {
    hide Pad, Avail;
  }

  lemma NothingBefore(a: Bytes, b: Bytes, c: Bytes)
    requires [] + a == [] + b + c
    ensures a == b + c
  {
    assert [] + a == a && [] + b == b;
  }

  lemma CutAfter(whole: Bytes, p: nat, a: Bytes, b: Bytes)
    requires p <= |whole| && whole[p..] == a + b
    ensures p + |a| <= |whole| && whole[p..p + |a|] == a && whole[p + |a|..] == b
  {
    assert whole[p..][..|a|] == a && whole[p..][|a|..] == b;
  }

  lemma HereAhead(whole: Bytes, p: nat, left: Bytes, begin: bool, crc: Bytes -> Word)
    requires p + |Here(left, p, begin, crc)| <= |whole|
    requires whole[p..p + |Here(left, p, begin, crc)|] == Here(left, p, begin, crc)
    ensures var n := Take(|left|, p); Ahead(whole, p, KindOf(begin, n == |left|), left[..n], crc)
  {
    hide Pad, Avail, Physical;
    var n := Take(|left|, p);
    var here := Here(left, p, begin, crc);
    var q := p + Pad(p);
    assert here[Pad(p)..] == Physical(KindOf(begin, n == |left|), left[..n], crc);
    assert whole[q..q + HEADER + n] == here[Pad(p)..];
  }

  lemma Cut(scratch: Bytes, left: Bytes, n: nat)
    requires n <= |left|
    ensures scratch + left[..n] + left[n..] == scratch + left
    ensures n == |left| ==> scratch + left[..n] == scratch + left && left[..n] == left
    ensures scratch == [] ==> scratch + left == left && scratch + left[..n] == left[..n]
  {
  }

  /** In the middle of putting together the first of the records: `scratch` is the part that is read, `left` is what
      lies ahead of it in the file. */
  ghost predicate Assembling(whole: Bytes, p: nat, records: seq<Bytes>, scratch: Bytes, left: Bytes, begin: bool,
                             end: nat, crc: Bytes -> Word) {
    && records != [] && ExpectsRest(whole, p, left, begin, records[1..], end, crc)
    && scratch + left == records[0] && (begin ==> scratch == [])
  }

  lemma AssemblingStarts(whole: Bytes, p: nat, records: seq<Bytes>, crc: Bytes -> Word)
    requires records != [] && p <= |whole| && Expects(whole, p, records, crc)
    ensures Assembling(whole, p, records, [], records[0], true, p + |Fragments(records[0], p, true, crc)|, crc)
  {
    hide Fragments, Expects, ExpectsRest;
    ExpectsFirst(whole, p, records, crc);
    assert [] + records[0] == records[0];
  }

  /** The fragment that comes next, and where the assembly stands with it. */
  lemma NextFragment(whole: Bytes, p: nat, records: seq<Bytes>, scratch: Bytes, left: Bytes, begin: bool, end: nat,
                     crc: Bytes -> Word)
    requires Assembling(whole, p, records, scratch, left, begin, end, crc)
    ensures var n := Take(|left|, p);
            && Ahead(whole, p, KindOf(begin, n == |left|), left[..n], crc) && p + Pad(p) + HEADER + n <= end
            && scratch + left[..n] == (if begin then left[..n] else scratch + left[..n])
            && if n == |left| then
                 && p + Pad(p) + HEADER + n == end && Expects(whole, end, records[1..], crc)
                 && scratch + left[..n] == records[0]
               else
                 Assembling(whole, p + Pad(p) + HEADER + n, records, scratch + left[..n], left[n..], false, end, crc)
  {
    hide ExpectsRest, Expects, Ahead, Pad, Take, KindOf;
    var n := Take(|left|, p);
    Cut(scratch, left, n);
    RestAhead(whole, p, left, begin, records[1..], end, crc);
  }

  class Reader {
    const crc: Bytes -> Word
    const file: Bytes
    /** How much of the file has been read into buffers. */
    var filePos: nat
    var buffer: Bytes
    var eof: bool
    /** Everything reported as dropped. */
    var reports: seq<(nat, string)>
    /** Where the block in the buffer begins. */
    ghost var base: nat

    ghost predicate Valid()
      reads this
    {
      && filePos <= |file| && |buffer| <= filePos && buffer == file[filePos - |buffer|..filePos]
      && base % BLOCK == 0 && base <= filePos - |buffer| && filePos <= base + BLOCK
      && (if eof then filePos == |file| else filePos % BLOCK == 0 && (filePos == 0 || filePos == base + BLOCK))
    }

    /** The position of the next byte to parse. */
    ghost function Pos(): (p: nat)
      requires Valid()
      reads this
      ensures p <= |file|
    {
      filePos - |buffer|
    }

    constructor (file: Bytes, crc: Bytes -> Word)
      ensures Valid() && this.file == file && this.crc == crc && reports == [] && Pos() == 0
    {
      this.file, this.crc := file, crc;
      filePos, buffer, eof, reports, base := 0, [], false, [], 0;
    }

    method ReportCorruption(bytes: nat, reason: string)
      requires Valid()
      modifies `reports
      ensures Valid() && Pos() == old(Pos()) && reports == old(reports) + [(bytes, reason)]
    {
      reports := reports + [(bytes, reason)];
    }

    /** Read the next block, or what there is of it. */
    method Refill()
      requires Valid() && !eof && |buffer| < HEADER
      modifies this
      ensures Valid() && reports == old(reports)
      ensures Pos() == old(filePos) == old(Pos() + Pad(Pos()))
      ensures |buffer| >= HEADER || eof
    {
      assert Pad(Pos()) == |buffer|;
      var end := if filePos + BLOCK <= |file| then filePos + BLOCK else |file|;
      buffer := file[filePos..end];
      base := filePos;
      filePos := end;
      eof := |buffer| < BLOCK;
    }

    /** Where the physical record ahead ends. */
    ghost function EndOf(data: Bytes): nat
      requires Valid()
      reads this
    {
      Pos() + Pad(Pos()) + HEADER + |data|
    }

    /** ReadPhysicalRecord.  When a physical record is ahead it is returned if the file holds all of it, and the end
        of the file is found if not; in neither case is anything reported as dropped. */
    method ReadPhysicalRecord(ghost whole: Bytes, ghost t: byte, ghost data: Bytes) returns (r: Outcome)
      requires Valid() && file <= whole
      modifies this
      ensures Valid() && (!r.Eof? ==> Pos() > old(Pos()))
      ensures old(Ahead(whole, Pos(), t, data, crc)) ==>
                reports == old(reports) &&
                if |file| >= old(EndOf(data)) then r == Got(t, data) && Pos() == old(EndOf(data)) else r == Eof
      ensures old(Pos()) == |whole| ==> r == Eof && reports == old(reports)
    {
      ghost var end := EndOf(data);
      ghost var ahead := Ahead(whole, Pos(), t, data, crc);
      while |buffer| < HEADER
        invariant Valid() && Pos() >= old(Pos()) && reports == old(reports)
        invariant ahead ==> Ahead(whole, Pos(), t, data, crc) && EndOf(data) == end
        invariant old(Pos()) == |whole| ==> Pos() == |whole|
        decreases |file| - filePos + if eof then 0 else 1
      {
        if !eof {
          Refill();
        } else {
          buffer := [];
          return Eof;
        }
      }
      r := ParseHeader(whole, t, data);
    }

    /** What the buffer holds of the physical record ahead. */
    lemma BufferAhead(whole: Bytes, t: byte, data: Bytes)
      requires Valid() && file <= whole && |buffer| >= HEADER && Ahead(whole, Pos(), t, data, crc)
      ensures LengthOf(buffer) == |data| && buffer[6] == t
      ensures |buffer| < HEADER + |data| ==> eof && |file| < EndOf(data)
      ensures |buffer| >= HEADER + |data| ==>
                && |file| >= EndOf(data) == Pos() + HEADER + |data|
                && StoredCrc(buffer) == crc(buffer[6..HEADER + |data|])
                && buffer[HEADER..HEADER + |data|] == data
    {
      hide Physical, StoredCrc, LengthOf;
      assert Pad(Pos()) == 0;
      SameStart(file, whole, Pos(), filePos, Physical(t, data, crc));
      HeaderKnown(buffer, t, data, crc);
    }

    /** Give up what is left in the buffer. */
    method Clear()
      requires Valid() && buffer != []
      modifies `buffer
      ensures Valid() && Pos() > old(Pos())
    {
      buffer := [];
    }

    method RemovePrefix(n: nat)
      requires Valid() && n <= |buffer|
      modifies `buffer
      ensures Valid() && Pos() == old(Pos()) + n
    {
      buffer := buffer[n..];
    }

    /** With a header in the buffer: the record behind it, the end of the file, or a corruption to report. */
    method ParseHeader(ghost whole: Bytes, ghost t: byte, ghost data: Bytes) returns (r: Outcome)
      requires Valid() && file <= whole && |buffer| >= HEADER
      modifies this
      ensures Valid() && (!r.Eof? ==> Pos() > old(Pos()))
      ensures old(Ahead(whole, Pos(), t, data, crc)) ==>
                reports == old(reports) &&
                if |file| >= old(EndOf(data)) then r == Got(t, data) && Pos() == old(EndOf(data)) else r == Eof
    {
      hide Ahead, StoredCrc, LengthOf, Pad, Valid, Pos;
      if Ahead(whole, Pos(), t, data, crc) {
        BufferAhead(whole, t, data);
        AheadKind(whole, Pos(), t, data, crc);
      }
      var length, kind := LengthOf(buffer), buffer[6];
      if HEADER + length > |buffer| {
        var dropSize := |buffer|;
        Clear();
        if !eof {
          ReportCorruption(dropSize, "bad record length");
          return BadRecord;
        }
        return Eof;
      }
      if kind == 0 && length == 0 {
        Clear();
        return BadRecord;
      }
      if StoredCrc(buffer) != crc(buffer[6..HEADER + length]) {
        var dropSize := |buffer|;
        Clear();
        ReportCorruption(dropSize, "checksum mismatch");
        return BadRecord;
      }
      r := Got(kind, buffer[HEADER..HEADER + length]);
      RemovePrefix(HEADER + length);
    }

    /** The switch of ReadRecord on the type of a physical record: put records together from their fragments. */
    method AddFragment(kind: byte, fragment: Bytes, scratch: Bytes, inFragmentedRecord: bool)
      returns (done: bool, scratch': Bytes, inFragmentedRecord': bool)
      requires Valid()
      modifies `reports
      ensures Valid() && Pos() == old(Pos())
      ensures (if inFragmentedRecord then kind == MIDDLE || kind == LAST else kind == FULL || kind == FIRST) ==>
                && reports == old(reports) && done == (kind == FULL || kind == LAST)
                && scratch' == (if inFragmentedRecord then scratch + fragment else fragment)
                && (!done ==> inFragmentedRecord')
    {
      done, scratch', inFragmentedRecord' := false, scratch, inFragmentedRecord;
      if kind == FULL {
        if inFragmentedRecord && scratch != [] {
          ReportCorruption(|scratch|, "partial record without end(1)");
        }
        done, scratch' := true, fragment;
      } else if kind == FIRST {
        if inFragmentedRecord && scratch != [] {
          ReportCorruption(|scratch|, "partial record without end(2)");
        }
        scratch', inFragmentedRecord' := fragment, true;
      } else if kind == MIDDLE {
        if !inFragmentedRecord {
          ReportCorruption(|fragment|, "missing start of fragmented record(1)");
        } else {
          scratch' := scratch + fragment;
        }
      } else if kind == LAST {
        if !inFragmentedRecord {
          ReportCorruption(|fragment|, "missing start of fragmented record(2)");
        } else {
          done, scratch' := true, scratch + fragment;
        }
      } else {
        ReportCorruption(|fragment| + (if inFragmentedRecord then |scratch| else 0), "unknown record type");
        scratch', inFragmentedRecord' := [], false;
      }
    }

    /** ReadRecord.  The next record, if the file holds all of it; nothing reported as dropped either way. */
    method ReadRecord(ghost whole: Bytes, ghost records: seq<Bytes>) returns (record: Option<Bytes>)
      requires Valid() && file <= whole
      modifies this
      ensures Valid() && (record.Some? ==> Pos() > old(Pos()))
      ensures Expects(whole, old(Pos()), records, crc) ==>
                && reports == old(reports)
                && (records == [] ==> record == None)
                && (records != [] ==>
                      var end := old(Pos()) + |Fragments(records[0], old(Pos()), true, crc)|;
                      if |file| >= end then
                        record == Some(records[0]) && Pos() == end && Expects(whole, end, records[1..], crc)
                      else record == None)
    {
      hide Expects, Assembling, Fragments, Ahead, Pad, Valid, Pos, Take;
      ghost var begin, p0 := true, Pos();
      ghost var expected := Expects(whole, p0, records, crc) && records != [];
      ghost var none := Expects(whole, p0, records, crc) && records == [];
      ghost var left := if records == [] then [] else records[0];
      ghost var end := p0 + |Fragments(left, p0, true, crc)|;
      ExpectsFirst(whole, p0, records, crc);
      if expected {
        AssemblingStarts(whole, p0, records, crc);
      }
      var scratch: Bytes := [];
      var inFragmentedRecord := false;
      while true
        invariant Valid() && Pos() >= p0 && (none ==> Pos() == |whole| && reports == old(reports))
        invariant expected ==> reports == old(reports) && inFragmentedRecord == !begin
        invariant expected ==> Assembling(whole, Pos(), records, scratch, left, begin, end, crc)
        decreases |file| - Pos()
      {
        ghost var n := Take(|left|, Pos());
        if expected {
          NextFragment(whole, Pos(), records, scratch, left, begin, end, crc);
        }
        var r := ReadPhysicalRecord(whole, KindOf(begin, n == |left|), left[..n]);
        match r
        case Eof =>
          return None;
        case BadRecord =>
          if inFragmentedRecord {
            ReportCorruption(|scratch|, "error in middle of record");
            inFragmentedRecord := false;
            scratch := [];
          }
        case Got(kind, fragment) =>
          var done;
          done, scratch, inFragmentedRecord := AddFragment(kind, fragment, scratch, inFragmentedRecord);
          if done {
            return Some(scratch);
          }
          left, begin := left[n..], false;
      }
    }
  }

  // ----- whole files -----

  lemma {:induction false} WrittenSplit(a: seq<Bytes>, b: seq<Bytes>, p: nat, crc: Bytes -> Word)
    ensures Written(a + b, p, crc) == Written(a, p, crc) + Written(b, p + |Written(a, p, crc)|, crc)
  {
    hide Fragments, Written;
    if a == [] {
      WrittenEmpty(p, crc);
      assert a + b == b && [] + Written(b, p, crc) == Written(b, p, crc);
    } else {
      var f := Fragments(a[0], p, true, crc);
      WrittenSplit(a[1..], b, p + |f|, crc);
      assert (a + b)[0] == a[0] && (a + b)[1..] == a[1..] + b;
      WrittenFirst(a, p, crc);
      WrittenFirst(a + b, p, crc);
      Associate(f, Written(a[1..], p + |f|, crc), Written(b, p + |Written(a, p, crc)|, crc));
    }
  }

  lemma Associate(a: Bytes, b: Bytes, c: Bytes)
    ensures a + (b + c) == a + b + c
  {
  }

  lemma WrittenEmpty(p: nat, crc: Bytes -> Word)
    ensures Written([], p, crc) == []
  {
  }

  lemma WrittenFirst(records: seq<Bytes>, p: nat, crc: Bytes -> Word)
    requires records != []
    ensures var f := Fragments(records[0], p, true, crc);
            Written(records, p, crc) == f + Written(records[1..], p + |f|, crc)
  {
  }

  lemma WrittenNext(records: seq<Bytes>, k: nat, crc: Bytes -> Word)
    requires k < |records|
    ensures var before := Written(records[..k], 0, crc);
            Written(records[..k + 1], 0, crc) == before + Fragments(records[k], |before|, true, crc)
  {
    assert records[..k + 1] == records[..k] + [records[k]];
    WrittenSplit(records[..k], [records[k]], 0, crc);
    var f := Fragments(records[k], |Written(records[..k], 0, crc)|, true, crc);
    assert Written([records[k]], |Written(records[..k], 0, crc)|, crc) == f + [];
  }

  method WriteAll(records: seq<Bytes>, crc: Bytes -> Word) returns (file: Bytes)
    ensures file == Written(records, 0, crc)
  {
    hide Written, Fragments;
    var w := new Writer([], crc);
    WrittenNone(records, crc);
    for k := 0 to |records|
      invariant w.Valid() && fresh(w) && w.crc == crc && w.dest == Written(records[..k], 0, crc)
    {
      WrittenNext(records, k, crc);
      w.AddRecord(records[k]);
    }
    assert records[..|records|] == records;
    file := w.dest;
  }

  lemma WrittenNone(records: seq<Bytes>, crc: Bytes -> Word)
    ensures Written(records[..0], 0, crc) == []
  {
  }

  /** Reading any prefix of what was written gives exactly the records that lie wholly inside it, and reports nothing
      as dropped. */
  method ReadAll(file: Bytes, ghost records: seq<Bytes>, crc: Bytes -> Word)
    returns (found: seq<Bytes>, reports: seq<(nat, string)>)
    ensures file <= Written(records, 0, crc) ==>
              && reports == [] && found <= records && |Written(found, 0, crc)| <= |file|
              && (found != records ==> |file| < |Written(records[..|found| + 1], 0, crc)|)
    ensures file == Written(records, 0, crc) ==> found == records
  {
    hide Written, Fragments, Expects, Reader.Valid, Reader.Pos;
    ghost var whole := if file <= Written(records, 0, crc) then Written(records, 0, crc) else file;
    ghost var good := file <= Written(records, 0, crc);
    var reader := new Reader(file, crc);
    found := [];
    WrittenNone(records, crc);
    StartsWith(records, crc);
    while true
      invariant reader.Valid() && fresh(reader) && reader.file == file && reader.crc == crc
      invariant good ==>
                  && reader.reports == [] && found <= records
                  && reader.Pos() == |Written(found, 0, crc)| && Expects(whole, reader.Pos(), records[|found|..], crc)
      decreases |file| - reader.Pos()
    {
      ghost var k := |found|;
      if good {
        OneMoreRecord(records, k, found, crc);
      }
      var record := reader.ReadRecord(whole, if good then records[k..] else []);
      if record == None {
        break;
      }
      found := found + [record.value];
    }
    reports := reader.reports;
  }

  /** The records found so far and the next one. */
  lemma OneMoreRecord(records: seq<Bytes>, k: nat, found: seq<Bytes>, crc: Bytes -> Word)
    requires found <= records && k == |found|
    ensures k == |records| ==> found == records && records[k..] == []
    ensures k < |records| ==>
              && records[k..] != [] && records[k..][0] == records[k] && records[k..][1..] == records[k + 1..]
              && found + [records[k]] == records[..k + 1] && found != records
              && |Written(records[..k + 1], 0, crc)|
                 == |Written(found, 0, crc)| + |Fragments(records[k], |Written(found, 0, crc)|, true, crc)|
              && |Written(records[..k + 1], 0, crc)| <= |Written(records, 0, crc)|
  {
    hide Written, Fragments;
    assert found == records[..k];
    if k < |records| {
      WrittenNext(records, k, crc);
      WrittenSplit(records[..k + 1], records[k + 1..], 0, crc);
      assert records[..k + 1] + records[k + 1..] == records;
    }
  }

  lemma StartsWith(records: seq<Bytes>, crc: Bytes -> Word)
    ensures Expects(Written(records, 0, crc), 0, records[0..], crc)
  {
    assert records[0..] == records;
  }
}
