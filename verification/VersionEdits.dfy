/**
 The record format of version edits: a list of tagged fields.
*/
module VersionEdits {
  import opened Format
  import opened Coding

  datatype FileMetaData = FileMetaData(number: nat, fileSize: nat, smallest: Bytes, largest: Bytes)

  /** The fields of an edit.  Internal keys are kept in their encoded form; the deleted files are in the order of
      their set, by level and then by number. */
  datatype Fields = Fields(comparator: Option<Bytes>, logNumber: Option<nat>, prevLogNumber: Option<nat>,
                           nextFileNumber: Option<nat>, lastSequence: Option<nat>,
                           compactPointers: seq<(nat, Bytes)>, deletedFiles: seq<(nat, nat)>,
                           newFiles: seq<(nat, FileMetaData)>)

  datatype Item =
    | Comparator(name: Bytes)
    | LogNumber(number: nat)
    | NextFileNumber(number: nat)
    | LastSequence(number: nat)
    | CompactPointer(level: nat, key: Bytes)
    | DeletedFile(level: nat, number: nat)
    | NewFile(level: nat, f: FileMetaData)
    | PrevLogNumber(number: nat)

  function Tag(i: Item): nat {
    match i
    case Comparator(_) => 1
    case LogNumber(_) => 2
    case NextFileNumber(_) => 3
    case LastSequence(_) => 4
    case CompactPointer(_, _) => 5
    case DeletedFile(_, _) => 6
    case NewFile(_, _) => 7
    case PrevLogNumber(_) => 9
  }

  function Payload(i: Item): Bytes {
    match i
    case Comparator(name) => Prefixed(name)
    case LogNumber(n) => Varint(n)
    case NextFileNumber(n) => Varint(n)
    case LastSequence(n) => Varint(n)
    case CompactPointer(level, key) => Varint(level) + Prefixed(key)
    case DeletedFile(level, number) => Varint(level) + Varint(number)
    case NewFile(level, f) =>
      Varint(level) + Varint(f.number) + Varint(f.fileSize) + Prefixed(f.smallest) + Prefixed(f.largest)
    case PrevLogNumber(n) => Varint(n)
  }

  function ItemBytes(i: Item): (b: Bytes)
    ensures b != []
  {
    Varint(Tag(i)) + Payload(i)
  }

  /** The format in numbers: a tag, and what it announces. */
  lemma ItemInNumbers(i: Item)
    ensures ItemBytes(i)
            == match i
               case Comparator(name) => [1] + (Varint(|name|) + name)
               case LogNumber(n) => [2] + Varint(n)
               case NextFileNumber(n) => [3] + Varint(n)
               case LastSequence(n) => [4] + Varint(n)
               case CompactPointer(level, key) => [5] + (Varint(level) + (Varint(|key|) + key))
               case DeletedFile(level, number) => [6] + (Varint(level) + Varint(number))
               case NewFile(level, f) =>
                 [7] + (Varint(level) + Varint(f.number) + Varint(f.fileSize) + (Varint(|f.smallest|) + f.smallest)
                        + (Varint(|f.largest|) + f.largest))
               case PrevLogNumber(n) => [9] + Varint(n)
  {
    assert Varint(Tag(i)) == [Tag(i) as byte];
    hide Varint;
  }

  /** The numbers fit their C types. */
  predicate Fits(i: Item) {
    match i
    case Comparator(name) => |name| < TWO32
    case LogNumber(n) => n < TWO64
    case NextFileNumber(n) => n < TWO64
    case LastSequence(n) => n < TWO64
    case CompactPointer(level, key) => level < TWO32 && |key| < TWO32
    case DeletedFile(level, number) => level < TWO32 && number < TWO64
    case NewFile(level, f) =>
      level < TWO32 && f.number < TWO64 && f.fileSize < TWO64 && |f.smallest| < TWO32 && |f.largest| < TWO32
    case PrevLogNumber(n) => n < TWO64
  }

  predicate LevelInRange(i: Item) {
    match i
    case CompactPointer(level, _) => level < NUM_LEVELS
    case DeletedFile(level, _) => level < NUM_LEVELS
    case NewFile(level, _) => level < NUM_LEVELS
    case _ => true
  }

  datatype Parsed = Ok(item: Item, rest: Bytes) | Bad(message: string)

  function Level(input: Bytes): (r: Option<(nat, Bytes)>)
    ensures r.Some? ==> |r.value.1| < |input|
  {
    var v := Varied(input, MAX_VARINT32, TWO32);
    if v.Some? && v.value.0 < NUM_LEVELS then v else None
  }

  function Number(input: Bytes): (r: Option<(nat, Bytes)>)
    ensures r.Some? ==> |r.value.1| < |input|
  {
    Varied(input, MAX_VARINT64, TWO64)
  }

  /** GetLevel: a level in range. */
  method GetLevel(input: Bytes) returns (r: Option<(nat, Bytes)>)
    ensures r == Level(input)
  {
    r := GetVarint(input, MAX_VARINT32, TWO32);
    if r.Some? && r.value.0 >= NUM_LEVELS {
      r := None;
    }
  }

  function ParseNumber(input: Bytes, make: nat -> Item, message: string): (r: Parsed)
    ensures r.Ok? ==> |r.rest| < |input|
  {
    var n := Number(input);
    if n.Some? then Ok(make(n.value.0), n.value.1) else Bad(message)
  }

  function ParsePointer(input: Bytes): (r: Parsed)
    ensures r.Ok? ==> |r.rest| < |input|
  {
    var level := Level(input);
    if level == None then Bad("compaction pointer")
    else
      var key := Unprefixed(level.value.1);
      if key == None then Bad("compaction pointer") else Ok(CompactPointer(level.value.0, key.value.0), key.value.1)
  }

  function ParseDeleted(input: Bytes): (r: Parsed)
    ensures r.Ok? ==> |r.rest| < |input|
  {
    var level := Level(input);
    if level == None then Bad("deleted file")
    else
      var n := Number(level.value.1);
      if n == None then Bad("deleted file") else Ok(DeletedFile(level.value.0, n.value.0), n.value.1)
  }

  function ParseNewFile(input: Bytes): (r: Parsed)
    ensures r.Ok? ==> |r.rest| < |input|
  {
    var level := Level(input);
    if level == None then Bad("new-file entry")
    else
      var number := Number(level.value.1);
      if number == None then Bad("new-file entry")
      else
        var size := Number(number.value.1);
        if size == None then Bad("new-file entry")
        else
          var smallest := Unprefixed(size.value.1);
          if smallest == None then Bad("new-file entry")
          else
            var largest := Unprefixed(smallest.value.1);
            if largest == None then Bad("new-file entry")
            else
              Ok(NewFile(level.value.0, FileMetaData(number.value.0, size.value.0, smallest.value.0, largest.value.0)),
                 largest.value.1)
  }

  /** What follows a tag. */
  function ParsePayload(tag: nat, input: Bytes): (r: Parsed)
    ensures r.Ok? ==> |r.rest| < |input|
  {
    if tag == 1 then
      var name := Unprefixed(input);
      if name == None then Bad("comparator name") else Ok(Comparator(name.value.0), name.value.1)
    else if tag == 2 then ParseNumber(input, (n: nat) => LogNumber(n), "log number")
    else if tag == 3 then ParseNumber(input, (n: nat) => NextFileNumber(n), "next file number")
    else if tag == 4 then ParseNumber(input, (n: nat) => LastSequence(n), "last sequence number")
    else if tag == 5 then ParsePointer(input)
    else if tag == 6 then ParseDeleted(input)
    else if tag == 7 then ParseNewFile(input)
    else if tag == 9 then ParseNumber(input, (n: nat) => PrevLogNumber(n), "previous log number")
    else Bad("unknown tag")
  }

  lemma NumberRoundTrip(n: nat, rest: Bytes)
    requires n < TWO64
    ensures Number(Varint(n) + rest) == Some((n, rest))
  {
    Varint64RoundTrip(n, rest);
  }

  lemma LevelRoundTrip(level: nat, rest: Bytes)
    requires level < TWO32
    ensures Level(Varint(level) + rest) == if level < NUM_LEVELS then Some((level, rest)) else None
  {
    Varint32RoundTrip(level, rest);
  }

  lemma PointerRoundTrip(level: nat, key: Bytes, rest: Bytes)
    requires level < TWO32 && |key| < TWO32
    ensures ParsePointer(Payload(CompactPointer(level, key)) + rest)
            == if level < NUM_LEVELS then Ok(CompactPointer(level, key), rest) else Bad("compaction pointer")
  {
    hide Varint, Varied, Unprefixed, Prefixed;
    assert Varint(level) + Prefixed(key) + rest == Varint(level) + (Prefixed(key) + rest);
    LevelRoundTrip(level, Prefixed(key) + rest);
    PrefixedRoundTrip(key, rest);
  }

  lemma DeletedRoundTrip(level: nat, number: nat, rest: Bytes)
    requires level < TWO32 && number < TWO64
    ensures ParseDeleted(Payload(DeletedFile(level, number)) + rest)
            == if level < NUM_LEVELS then Ok(DeletedFile(level, number), rest) else Bad("deleted file")
  {
    hide Varint, Varied;
    assert Varint(level) + Varint(number) + rest == Varint(level) + (Varint(number) + rest);
    LevelRoundTrip(level, Varint(number) + rest);
    NumberRoundTrip(number, rest);
  }

  lemma NewFileRoundTrip(level: nat, f: FileMetaData, rest: Bytes)
    requires Fits(NewFile(level, f))
    ensures ParseNewFile(Payload(NewFile(level, f)) + rest)
            == if level < NUM_LEVELS then Ok(NewFile(level, f), rest) else Bad("new-file entry")
  {
    hide Varint, Varied, Prefixed, Unprefixed;
    var r4 := Prefixed(f.largest) + rest;
    var r3 := Prefixed(f.smallest) + r4;
    var r2 := Varint(f.fileSize) + r3;
    var r1 := Varint(f.number) + r2;
    assert Payload(NewFile(level, f)) + rest == Varint(level) + r1;
    LevelRoundTrip(level, r1);
    NumberRoundTrip(f.number, r2);
    NumberRoundTrip(f.fileSize, r3);
    PrefixedRoundTrip(f.smallest, r4);
    PrefixedRoundTrip(f.largest, rest);
  }

  function Message(i: Item): string {
    match i
    case CompactPointer(_, _) => "compaction pointer"
    case DeletedFile(_, _) => "deleted file"
    case NewFile(_, _) => "new-file entry"
    case _ => ""
  }

  /** An item is read back if and only if its level is in range. */
  lemma ItemRoundTrip(i: Item, rest: Bytes)
    requires Fits(i)
    ensures ParsePayload(Tag(i), Payload(i) + rest) == if LevelInRange(i) then Ok(i, rest) else Bad(Message(i))
    ensures !LevelInRange(i) ==>
              Message(i) == if i.CompactPointer? then "compaction pointer" else if i.DeletedFile? then "deleted file"
                            else "new-file entry"
  {
    hide Varint, Prefixed, Varied, Unprefixed, Number, ParsePointer, ParseDeleted, ParseNewFile;
    match i {
      case Comparator(name) => PrefixedRoundTrip(name, rest);
      case CompactPointer(level, key) => PointerRoundTrip(level, key, rest);
      case DeletedFile(level, number) => DeletedRoundTrip(level, number, rest);
      case NewFile(level, f) => NewFileRoundTrip(level, f, rest);
      case LogNumber(n) => NumberRoundTrip(n, rest);
      case NextFileNumber(n) => NumberRoundTrip(n, rest);
      case LastSequence(n) => NumberRoundTrip(n, rest);
      case PrevLogNumber(n) => NumberRoundTrip(n, rest);
    }
  }

  // ----- whole edits -----

  predicate Earlier(a: (nat, nat), b: (nat, nat)) {
    a.0 < b.0 || (a.0 == b.0 && a.1 < b.1)
  }

  /** An insertion into the ordered set of deleted files. */
  function InsertDeleted(files: seq<(nat, nat)>, d: (nat, nat)): seq<(nat, nat)> {
    if files == [] then [d]
    else
      var n := |files| - 1;
      if files[n] == d then files
      else if Earlier(files[n], d) then files + [d]
      else InsertDeleted(files[..n], d) + [files[n]]
  }

  ghost predicate InSetOrder(files: seq<(nat, nat)>) {
    forall i, j :: 0 <= i < j < |files| ==> Earlier(files[i], files[j])
  }

  /** As an ordered set, in which nothing is twice. */
  lemma {:induction false} InsertedInSet(files: seq<(nat, nat)>, d: (nat, nat))
    requires InSetOrder(files)
    ensures InSetOrder(InsertDeleted(files, d))
    ensures forall x :: x in InsertDeleted(files, d) <==> x in files || x == d
  {
    if files != [] {
      var n := |files| - 1;
      InsertedInSet(files[..n], d);
      assert files == files[..n] + [files[n]];
      if files[n] != d && !Earlier(files[n], d) {
        var front := InsertDeleted(files[..n], d);
        forall i | 0 <= i < |front| ensures Earlier(front[i], files[n]) {
          assert front[i] in front;
          assert front[i] == d || front[i] in files[..n];
        }
      }
    }
  }

  function Apply(e: Fields, i: Item): Fields {
    match i
    case Comparator(name) => e.(comparator := Some(name))
    case LogNumber(n) => e.(logNumber := Some(n))
    case PrevLogNumber(n) => e.(prevLogNumber := Some(n))
    case NextFileNumber(n) => e.(nextFileNumber := Some(n))
    case LastSequence(n) => e.(lastSequence := Some(n))
    case CompactPointer(level, key) => e.(compactPointers := e.compactPointers + [(level, key)])
    case DeletedFile(level, number) => e.(deletedFiles := InsertDeleted(e.deletedFiles, (level, number)))
    case NewFile(level, f) => e.(newFiles := e.newFiles + [(level, f)])
  }

  function ApplyAll(e: Fields, items: seq<Item>): Fields
    decreases |items|
  {
    if items == [] then e else ApplyAll(Apply(e, items[0]), items[1..])
  }

  /** Clear leaves the compaction pointers as they are. */
  function Cleared(e: Fields): Fields {
    Fields(None, None, None, None, None, e.compactPointers, [], [])
  }

  datatype Decoded = Edit(e: Fields) | Corruption(message: string)

  /** Tagged items until the input runs out or makes no sense. */
  function DecodeItems(e: Fields, input: Bytes): Decoded
    decreases |input|
  {
    var tag := Varied(input, MAX_VARINT32, TWO32);
    if tag == None then if input == [] then Edit(e) else Corruption("invalid tag")
    else
      var p := ParsePayload(tag.value.0, tag.value.1);
      if p.Bad? then Corruption(p.message)
      else DecodeItems(Apply(e, p.item), p.rest)
  }

  function Encoded(items: seq<Item>): Bytes {
    if items == [] then [] else ItemBytes(items[0]) + Encoded(items[1..])
  }

  ghost predicate AllFit(items: seq<Item>) {
    forall i :: 0 <= i < |items| ==> Fits(items[i])
  }

  ghost predicate AllInRange(items: seq<Item>) {
    forall i :: 0 <= i < |items| ==> LevelInRange(items[i])
  }

  lemma {:induction false} DecodeEncoded(e: Fields, items: seq<Item>)
    requires AllFit(items)
    ensures AllInRange(items) ==> DecodeItems(e, Encoded(items)) == Edit(ApplyAll(e, items))
    ensures !AllInRange(items) ==> DecodeItems(e, Encoded(items)).Corruption?
    decreases |items|
  {
    hide Varint, Varied, ParsePayload, Payload, Apply, Fits, LevelInRange;
    if items == [] {
      NoTag();
    } else {
      var i, rest := items[0], Encoded(items[1..]);
      TagFits(i);
      assert Encoded(items) == Varint(Tag(i)) + (Payload(i) + rest);
      Varint32RoundTrip(Tag(i), Payload(i) + rest);
      ItemRoundTrip(i, rest);
      DecodeEncoded(Apply(e, i), items[1..]);
    }
  }

  lemma NoTag()
    ensures Varied([], MAX_VARINT32, TWO32) == None
  {
  }

  lemma TagFits(i: Item)
    ensures Tag(i) < TWO32
  {
  }

  function PointerItems(ps: seq<(nat, Bytes)>): (r: seq<Item>)
    ensures |r| == |ps|
  {
    seq(|ps|, i requires 0 <= i < |ps| => CompactPointer(ps[i].0, ps[i].1))
  }

  function DeletedItems(ds: seq<(nat, nat)>): (r: seq<Item>)
    ensures |r| == |ds|
  {
    seq(|ds|, i requires 0 <= i < |ds| => DeletedFile(ds[i].0, ds[i].1))
  }

  function NewFileItems(fs: seq<(nat, FileMetaData)>): (r: seq<Item>)
    ensures |r| == |fs|
  {
    seq(|fs|, i requires 0 <= i < |fs| => NewFile(fs[i].0, fs[i].1))
  }

  function HeadItems(e: Fields): seq<Item> {
    (if e.comparator.Some? then [Comparator(e.comparator.value)] else [])
    + (if e.logNumber.Some? then [LogNumber(e.logNumber.value)] else [])
    + (if e.prevLogNumber.Some? then [PrevLogNumber(e.prevLogNumber.value)] else [])
    + (if e.nextFileNumber.Some? then [NextFileNumber(e.nextFileNumber.value)] else [])
    + (if e.lastSequence.Some? then [LastSequence(e.lastSequence.value)] else [])
  }

  /** The fields of an edit, in the order EncodeTo writes them. */
  function Items(e: Fields): seq<Item> {
    HeadItems(e) + PointerItems(e.compactPointers) + DeletedItems(e.deletedFiles) + NewFileItems(e.newFiles)
  }

  lemma {:induction false} ApplyConcat(e: Fields, a: seq<Item>, b: seq<Item>)
    ensures ApplyAll(e, a + b) == ApplyAll(ApplyAll(e, a), b)
    decreases |a|
  {
    if a == [] {
      assert a + b == b;
    } else {
      assert (a + b)[1..] == a[1..] + b;
      ApplyConcat(Apply(e, a[0]), a[1..], b);
    }
  }

  lemma ApplyLast(e: Fields, a: seq<Item>, i: Item)
    ensures ApplyAll(e, a + [i]) == Apply(ApplyAll(e, a), i)
  {
    ApplyConcat(e, a, [i]);
    assert ApplyAll(ApplyAll(e, a), [i]) == ApplyAll(Apply(ApplyAll(e, a), i), []);
  }

  lemma {:induction false} ApplyPointers(e: Fields, ps: seq<(nat, Bytes)>)
    ensures ApplyAll(e, PointerItems(ps)) == e.(compactPointers := e.compactPointers + ps)
  {
    if ps == [] {
      assert e.compactPointers + ps == e.compactPointers;
    } else {
      var n := |ps| - 1;
      ApplyPointers(e, ps[..n]);
      assert PointerItems(ps) == PointerItems(ps[..n]) + [CompactPointer(ps[n].0, ps[n].1)];
      ApplyLast(e, PointerItems(ps[..n]), CompactPointer(ps[n].0, ps[n].1));
      assert e.compactPointers + ps == e.compactPointers + ps[..n] + [ps[n]];
    }
  }

  lemma {:induction false} ApplyNewFiles(e: Fields, fs: seq<(nat, FileMetaData)>)
    ensures ApplyAll(e, NewFileItems(fs)) == e.(newFiles := e.newFiles + fs)
  {
    if fs == [] {
      assert e.newFiles + fs == e.newFiles;
    } else {
      var n := |fs| - 1;
      ApplyNewFiles(e, fs[..n]);
      assert NewFileItems(fs) == NewFileItems(fs[..n]) + [NewFile(fs[n].0, fs[n].1)];
      ApplyLast(e, NewFileItems(fs[..n]), NewFile(fs[n].0, fs[n].1));
      assert e.newFiles + fs == e.newFiles + fs[..n] + [fs[n]];
    }
  }

  lemma {:induction false} ApplyDeleted(e: Fields, ds: seq<(nat, nat)>)
    requires e.deletedFiles == [] && InSetOrder(ds)
    ensures ApplyAll(e, DeletedItems(ds)) == e.(deletedFiles := ds)
  {
    if ds != [] {
      var n := |ds| - 1;
      ApplyDeleted(e, ds[..n]);
      assert DeletedItems(ds) == DeletedItems(ds[..n]) + [DeletedFile(ds[n].0, ds[n].1)];
      ApplyLast(e, DeletedItems(ds[..n]), DeletedFile(ds[n].0, ds[n].1));
      assert n > 0 ==> Earlier(ds[n - 1], ds[n]);
      assert InsertDeleted(ds[..n], ds[n]) == ds[..n] + [ds[n]] == ds;
    }
  }

  lemma ApplyHead(e: Fields, d: Fields)
    requires d.comparator == None && d.logNumber == None && d.prevLogNumber == None && d.nextFileNumber == None
    requires d.lastSequence == None
    ensures ApplyAll(d, HeadItems(e)) == d.(comparator := e.comparator, logNumber := e.logNumber,
                                            prevLogNumber := e.prevLogNumber, nextFileNumber := e.nextFileNumber,
                                            lastSequence := e.lastSequence)
  {
    var a := if e.comparator.Some? then [Comparator(e.comparator.value)] else [];
    var b := if e.logNumber.Some? then [LogNumber(e.logNumber.value)] else [];
    var c := if e.prevLogNumber.Some? then [PrevLogNumber(e.prevLogNumber.value)] else [];
    var f := if e.nextFileNumber.Some? then [NextFileNumber(e.nextFileNumber.value)] else [];
    var g := if e.lastSequence.Some? then [LastSequence(e.lastSequence.value)] else [];
    ApplyConcat(d, a + b + c + f, g);
    ApplyConcat(d, a + b + c, f);
    ApplyConcat(d, a + b, c);
    ApplyConcat(d, a, b);
    forall x: Fields, i: Item ensures ApplyAll(x, [i]) == Apply(x, i) && ApplyAll(x, []) == x {
      ApplyLast(x, [], i);
      assert [] + [i] == [i];
    }
  }

  /** Applying an edit's own fields to a cleared one gives the edit back, after the pointers that were never cleared. */
  lemma ApplyItems(e: Fields, d: Fields)
    requires InSetOrder(e.deletedFiles)
    ensures ApplyAll(Cleared(d), Items(e)) == e.(compactPointers := d.compactPointers + e.compactPointers)
  {
    hide HeadItems, PointerItems, DeletedItems, NewFileItems, ApplyAll;
    var head, pointers, deleted := HeadItems(e), PointerItems(e.compactPointers), DeletedItems(e.deletedFiles);
    ApplyConcat(Cleared(d), head + pointers + deleted, NewFileItems(e.newFiles));
    ApplyConcat(Cleared(d), head + pointers, deleted);
    ApplyConcat(Cleared(d), head, pointers);
    ApplyHead(e, Cleared(d));
    var withHead := ApplyAll(Cleared(d), head);
    ApplyPointers(withHead, e.compactPointers);
    var withPointers := ApplyAll(withHead, pointers);
    ApplyDeleted(withPointers, e.deletedFiles);
    ApplyNewFiles(ApplyAll(withPointers, deleted), e.newFiles);
    assert [] + e.newFiles == e.newFiles;
  }

  /** Every level an edit mentions is one the store has. */
  ghost predicate LevelsInRange(e: Fields) {
    && (forall i :: 0 <= i < |e.compactPointers| ==> e.compactPointers[i].0 < NUM_LEVELS)
    && (forall i :: 0 <= i < |e.deletedFiles| ==> e.deletedFiles[i].0 < NUM_LEVELS)
    && (forall i :: 0 <= i < |e.newFiles| ==> e.newFiles[i].0 < NUM_LEVELS)
  }

  /** Decoding what an edit encodes to succeeds exactly when its levels are in range, and then gives back every field;
      the compaction pointers come after those the receiving edit had before. */
  lemma EditRoundTrip(e: Fields, d: Fields)
    requires AllFit(Items(e)) && InSetOrder(e.deletedFiles)
    ensures DecodeItems(Cleared(d), Encoded(Items(e))).Edit? <==> LevelsInRange(e)
    ensures LevelsInRange(e) ==>
              DecodeItems(Cleared(d), Encoded(Items(e)))
              == Edit(e.(compactPointers := d.compactPointers + e.compactPointers))
  {
    ApplyItems(e, d);
    DecodeEncoded(Cleared(d), Items(e));
    RangeOfItems(e);
  }

  lemma RangeOfItems(e: Fields)
    ensures AllInRange(Items(e)) <==> LevelsInRange(e)
  {
    var h, p, d := |HeadItems(e)|, |e.compactPointers|, |e.deletedFiles|;
    forall i | 0 <= i < p ensures Items(e)[h + i] == CompactPointer(e.compactPointers[i].0, e.compactPointers[i].1) {
    }
    forall i | 0 <= i < d ensures Items(e)[h + p + i] == DeletedFile(e.deletedFiles[i].0, e.deletedFiles[i].1) {
    }
    forall i | 0 <= i < |e.newFiles| ensures Items(e)[h + p + d + i] == NewFile(e.newFiles[i].0, e.newFiles[i].1) {
    }
    if AllInRange(Items(e)) {
      forall i | 0 <= i < p ensures e.compactPointers[i].0 < NUM_LEVELS {
        assert LevelInRange(Items(e)[h + i]);
      }
      forall i | 0 <= i < d ensures e.deletedFiles[i].0 < NUM_LEVELS {
        assert LevelInRange(Items(e)[h + p + i]);
      }
      forall i | 0 <= i < |e.newFiles| ensures e.newFiles[i].0 < NUM_LEVELS {
        assert LevelInRange(Items(e)[h + p + d + i]);
      }
    }
  }

  // ----- the class -----

  lemma EncodedFirst(items: seq<Item>)
    requires items != []
    ensures Encoded(items) == ItemBytes(items[0]) + Encoded(items[1..])
  {
  }

  lemma {:induction false} EncodedLast(items: seq<Item>, i: Item)
    ensures Encoded(items + [i]) == Encoded(items) + ItemBytes(i)
    decreases |items|
  {
    hide ItemBytes;
    EncodedFirst(items + [i]);
    if items == [] {
      assert (items + [i])[1..] == [] && Encoded([]) == [];
    } else {
      EncodedLast(items[1..], i);
      EncodedFirst(items);
      hide Encoded;
      assert (items + [i])[1..] == items[1..] + [i];
    }
  }

  lemma NothingEncoded(dst: Bytes)
    ensures dst == dst + Encoded([])
  {
  }

  /** Append one tagged field. */
  method PutItem(dst: Bytes, i: Item, ghost items: seq<Item>, ghost dst0: Bytes) returns (r: Bytes)
    requires dst == dst0 + Encoded(items)
    ensures r == dst0 + Encoded(items + [i])
  {
    hide Payload, Varint;
    EncodedLast(items, i);
    r := PutVarint(dst, Tag(i));
    r := r + Payload(i);
    assert dst0 + Encoded(items) + Varint(Tag(i)) + Payload(i) == dst0 + (Encoded(items) + ItemBytes(i));
  }

  method PutHead(dst: Bytes, e: Fields) returns (r: Bytes)
    ensures r == dst + Encoded(HeadItems(e))
  {
    hide Encoded;
    NothingEncoded(dst);
    ghost var items: seq<Item> := [];
    r := dst;
    if e.comparator.Some? {
      r := PutItem(r, Comparator(e.comparator.value), items, dst);
      items := items + [Comparator(e.comparator.value)];
    }
    if e.logNumber.Some? {
      r := PutItem(r, LogNumber(e.logNumber.value), items, dst);
      items := items + [LogNumber(e.logNumber.value)];
    }
    if e.prevLogNumber.Some? {
      r := PutItem(r, PrevLogNumber(e.prevLogNumber.value), items, dst);
      items := items + [PrevLogNumber(e.prevLogNumber.value)];
    }
    if e.nextFileNumber.Some? {
      r := PutItem(r, NextFileNumber(e.nextFileNumber.value), items, dst);
      items := items + [NextFileNumber(e.nextFileNumber.value)];
    }
    if e.lastSequence.Some? {
      r := PutItem(r, LastSequence(e.lastSequence.value), items, dst);
      items := items + [LastSequence(e.lastSequence.value)];
    }
    assert items == HeadItems(e);
  }

  lemma LastOne(a: seq<Item>, b: seq<Item>, i: Item)
    ensures a + b + [i] == a + (b + [i])
  {
  }

  method PutPointers(dst: Bytes, ps: seq<(nat, Bytes)>, ghost items: seq<Item>, ghost dst0: Bytes) returns (r: Bytes)
    requires dst == dst0 + Encoded(items)
    ensures r == dst0 + Encoded(items + PointerItems(ps))
  {
    hide Encoded;
    r := dst;
    assert items + PointerItems(ps[..0]) == items;
    for i := 0 to |ps|
      invariant r == dst0 + Encoded(items + PointerItems(ps[..i]))
    {
      var item := CompactPointer(ps[i].0, ps[i].1);
      LastOne(items, PointerItems(ps[..i]), item);
      r := PutItem(r, item, items + PointerItems(ps[..i]), dst0);
      assert PointerItems(ps[..i + 1]) == PointerItems(ps[..i]) + [item];
    }
    assert ps[..|ps|] == ps;
  }

  method PutDeleted(dst: Bytes, ds: seq<(nat, nat)>, ghost items: seq<Item>, ghost dst0: Bytes) returns (r: Bytes)
    requires dst == dst0 + Encoded(items)
    ensures r == dst0 + Encoded(items + DeletedItems(ds))
  {
    hide Encoded;
    r := dst;
    assert items + DeletedItems(ds[..0]) == items;
    for i := 0 to |ds|
      invariant r == dst0 + Encoded(items + DeletedItems(ds[..i]))
    {
      var item := DeletedFile(ds[i].0, ds[i].1);
      LastOne(items, DeletedItems(ds[..i]), item);
      r := PutItem(r, item, items + DeletedItems(ds[..i]), dst0);
      assert DeletedItems(ds[..i + 1]) == DeletedItems(ds[..i]) + [item];
    }
    assert ds[..|ds|] == ds;
  }

  method PutNewFiles(dst: Bytes, fs: seq<(nat, FileMetaData)>, ghost items: seq<Item>,
                     ghost dst0: Bytes) returns (r: Bytes)
    requires dst == dst0 + Encoded(items)
    ensures r == dst0 + Encoded(items + NewFileItems(fs))
  {
    hide Encoded;
    r := dst;
    assert items + NewFileItems(fs[..0]) == items;
    for i := 0 to |fs|
      invariant r == dst0 + Encoded(items + NewFileItems(fs[..i]))
    {
      var item := NewFile(fs[i].0, fs[i].1);
      LastOne(items, NewFileItems(fs[..i]), item);
      r := PutItem(r, item, items + NewFileItems(fs[..i]), dst0);
      assert NewFileItems(fs[..i + 1]) == NewFileItems(fs[..i]) + [item];
    }
    assert fs[..|fs|] == fs;
  }

  /** GetVarint64 into a field of an edit. */
  method GetNumber(input: Bytes) returns (r: Option<(nat, Bytes)>)
    ensures r == Number(input)
  {
    r := GetVarint(input, MAX_VARINT64, TWO64);
  }

  method GetPointer(input: Bytes) returns (p: Parsed)
    ensures p == ParsePointer(input)
  {
    var level := GetLevel(input);
    if level.Some? {
      var key := GetLengthPrefixed(level.value.1);
      if key.Some? {
        return Ok(CompactPointer(level.value.0, key.value.0), key.value.1);
      }
    }
    return Bad("compaction pointer");
  }

  method GetDeleted(input: Bytes) returns (p: Parsed)
    ensures p == ParseDeleted(input)
  {
    var level := GetLevel(input);
    if level.Some? {
      var n := GetNumber(level.value.1);
      if n.Some? {
        return Ok(DeletedFile(level.value.0, n.value.0), n.value.1);
      }
    }
    return Bad("deleted file");
  }

  method GetNewFile(input: Bytes) returns (p: Parsed)
    ensures p == ParseNewFile(input)
  {
    hide Level, Number, Unprefixed;
    p := Bad("new-file entry");
    var level := GetLevel(input);
    if level == None { return; }
    var number := GetNumber(level.value.1);
    if number == None { return; }
    var size := GetNumber(number.value.1);
    if size == None { return; }
    var smallest := GetLengthPrefixed(size.value.1);
    if smallest == None { return; }
    var largest := GetLengthPrefixed(smallest.value.1);
    if largest == None { return; }
    p := Ok(NewFile(level.value.0, FileMetaData(number.value.0, size.value.0, smallest.value.0, largest.value.0)),
            largest.value.1);
  }

  /** The switch of DecodeFrom: parse what a tag announces. */
  method GetItem(tag: nat, input: Bytes) returns (p: Parsed)
    ensures p == ParsePayload(tag, input)
  {
    hide Number, Unprefixed, ParsePointer, ParseDeleted, ParseNewFile;
    match tag
    case 1 =>
      var name := GetLengthPrefixed(input);
      p := if name.Some? then Ok(Comparator(name.value.0), name.value.1) else Bad("comparator name");
    case 2 =>
      var n := GetNumber(input);
      p := if n.Some? then Ok(LogNumber(n.value.0), n.value.1) else Bad("log number");
    case 3 =>
      var n := GetNumber(input);
      p := if n.Some? then Ok(NextFileNumber(n.value.0), n.value.1) else Bad("next file number");
    case 4 =>
      var n := GetNumber(input);
      p := if n.Some? then Ok(LastSequence(n.value.0), n.value.1) else Bad("last sequence number");
    case 5 =>
      p := GetPointer(input);
    case 6 =>
      p := GetDeleted(input);
    case 7 =>
      p := GetNewFile(input);
    case 9 =>
      var n := GetNumber(input);
      p := if n.Some? then Ok(PrevLogNumber(n.value.0), n.value.1) else Bad("previous log number");
    case _ =>
      p := Bad("unknown tag");
  }

  class VersionEdit {
    var comparator: Option<Bytes>
    var logNumber: Option<nat>
    var prevLogNumber: Option<nat>
    var nextFileNumber: Option<nat>
    var lastSequence: Option<nat>
    var compactPointers: seq<(nat, Bytes)>
    var deletedFiles: seq<(nat, nat)>
    var newFiles: seq<(nat, FileMetaData)>

    function Value(): Fields
      reads this
    {
      Fields(comparator, logNumber, prevLogNumber, nextFileNumber, lastSequence, compactPointers, deletedFiles,
             newFiles)
    }

    constructor ()
      ensures Value() == Fields(None, None, None, None, None, [], [], [])
    {
      comparator, logNumber, prevLogNumber, nextFileNumber, lastSequence := None, None, None, None, None;
      compactPointers, deletedFiles, newFiles := [], [], [];
    }

    method Clear()
      modifies this
      ensures Value() == Cleared(old(Value()))
    {
      comparator, logNumber, prevLogNumber, nextFileNumber, lastSequence := None, None, None, None, None;
      deletedFiles, newFiles := [], [];
    }

    method EncodeTo(dst: Bytes) returns (r: Bytes)
      ensures r == dst + Encoded(Items(Value()))
    {
      hide Encoded, HeadItems, PointerItems, DeletedItems, NewFileItems;
      ghost var items := HeadItems(Value());
      r := PutHead(dst, Value());
      r := PutPointers(r, compactPointers, items, dst);
      items := items + PointerItems(compactPointers);
      r := PutDeleted(r, deletedFiles, items, dst);
      items := items + DeletedItems(deletedFiles);
      r := PutNewFiles(r, newFiles, items, dst);
    }

    method DecodeFrom(src: Bytes) returns (error: Option<string>)
      modifies this
      ensures var r := DecodeItems(old(Cleared(Value())), src);
              match r
              case Edit(e) => error == None && Value() == e
              case Corruption(message) => error == Some(message)
    {
      hide Varied, ParsePayload;
      Clear();
      var input := src;
      while true
        invariant DecodeItems(Value(), input) == DecodeItems(old(Cleared(Value())), src)
        decreases |input|
      {
        var tag := GetVarint(input, MAX_VARINT32, TWO32);
        if tag == None {
          return if input == [] then None else Some("invalid tag");
        }
        var p := GetItem(tag.value.0, tag.value.1);
        match p
        case Bad(message) =>
          return Some(message);
        case Ok(item, rest) =>
          Store(item);
          input := rest;
      }
    }

    /** Put a decoded field where it belongs. */
    method Store(item: Item)
      modifies this
      ensures Value() == Apply(old(Value()), item)
    {
      match item
      case Comparator(name) => comparator := Some(name);
      case LogNumber(n) => logNumber := Some(n);
      case PrevLogNumber(n) => prevLogNumber := Some(n);
      case NextFileNumber(n) => nextFileNumber := Some(n);
      case LastSequence(n) => lastSequence := Some(n);
      case CompactPointer(level, key) => compactPointers := compactPointers + [(level, key)];
      case DeletedFile(level, number) => deletedFiles := InsertDeleted(deletedFiles, (level, number));
      case NewFile(level, f) => newFiles := newFiles + [(level, f)];
    }
  }
}
