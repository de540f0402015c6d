/**
 The manifest as a file: version edits encoded into log records, and recovery from the bytes.  A file cut anywhere, as a
 crash in the middle of a record leaves it, recovers the version of the records that are whole.
*/
module ManifestFile {
  import opened Format
  import opened Tables
  import opened Coding
  import opened VersionEdits
  import B = Bytewise
  import Log
  import M = Manifest

  // ----- what an encoded edit means -----

  /** The encoded keys of a file are keys, in order. */
  predicate KeysParse(f: FileMetaData) {
    var small, large := B.ParseInternalKey(f.smallest), B.ParseInternalKey(f.largest);
    small.Some? && large.Some? && !Before(B.Abstract(large.value), B.Abstract(small.value))
  }

  /** The file that an edit adds; `contents` is what the table files hold. */
  function TableOf(f: FileMetaData, contents: nat -> seq<Entry>): Table
    requires KeysParse(f)
  {
    File(f.number, f.fileSize, B.Abstract(B.ParseInternalKey(f.smallest).value),
         B.Abstract(B.ParseInternalKey(f.largest).value), contents(f.number))
  }

  predicate FilesParse(fs: seq<(nat, FileMetaData)>) {
    forall i :: 0 <= i < |fs| ==> KeysParse(fs[i].1)
  }

  function Added(fs: seq<(nat, FileMetaData)>, contents: nat -> seq<Entry>): seq<(nat, Table)>
    requires FilesParse(fs)
  {
    seq(|fs|, i requires 0 <= i < |fs| => (fs[i].0, TableOf(fs[i].1, contents)))
  }

  function Meaning(e: Fields, contents: nat -> seq<Entry>): M.Edit
    requires FilesParse(e.newFiles)
  {
    M.Edit(e.logNumber, e.prevLogNumber, e.nextFileNumber, e.lastSequence, (set d | d in e.deletedFiles),
           Added(e.newFiles, contents))
  }

  /** An edit means what its fields say: counters and deleted files as they are, and each new file with its level,
      number, size and contents, and with the keys that its encoded keys parse to. */
  lemma MeaningIs(e: Fields, contents: nat -> seq<Entry>)
    requires FilesParse(e.newFiles)
    ensures var m := Meaning(e, contents);
            && m.logNumber == e.logNumber && m.prevLogNumber == e.prevLogNumber
            && m.nextFileNumber == e.nextFileNumber && m.lastSequence == e.lastSequence
            && (forall d :: d in m.deleted <==> d in e.deletedFiles)
            && |m.added| == |e.newFiles|
            && forall i :: 0 <= i < |m.added| ==>
                 var (level, f) := m.added[i]; var g := e.newFiles[i].1;
                 && level == e.newFiles[i].0 && f.number == g.number && f.size == g.fileSize
                 && f.entries == contents(g.number)
                 && (exists k :: B.Encoded(k) == g.smallest && f.smallest == B.Abstract(k))
                 && exists k :: B.Encoded(k) == g.largest && f.largest == B.Abstract(k)
  {
    hide B.Encoded, B.ParseInternalKey, B.Abstract;
    forall i | 0 <= i < |e.newFiles|
      ensures exists k :: B.Encoded(k) == e.newFiles[i].1.smallest
                          && TableOf(e.newFiles[i].1, contents).smallest == B.Abstract(k)
      ensures exists k :: B.Encoded(k) == e.newFiles[i].1.largest
                          && TableOf(e.newFiles[i].1, contents).largest == B.Abstract(k)
    {
      var g := e.newFiles[i].1;
      B.ParseExactly(g.smallest, B.ParseInternalKey(g.smallest).value);
      B.ParseExactly(g.largest, B.ParseInternalKey(g.largest).value);
    }
  }

  /** An edit as the program writes them: numbers fit their types, levels are in range, keys are keys. */
  ghost predicate Writable(e: Fields) {
    AllFit(Items(e)) && InSetOrder(e.deletedFiles) && LevelsInRange(e) && FilesParse(e.newFiles)
  }

  ghost predicate AllWritable(es: seq<Fields>) {
    forall i :: 0 <= i < |es| ==> Writable(es[i])
  }

  ghost function Meanings(es: seq<Fields>, contents: nat -> seq<Entry>): seq<M.Edit>
    requires AllWritable(es)
  {
    seq(|es|, i requires 0 <= i < |es| => Meaning(es[i], contents))
  }

  ghost function Records(es: seq<Fields>): seq<Bytes> {
    seq(|es|, i requires 0 <= i < |es| => Encoded(Items(es[i])))
  }

  /** No edit names another comparator. */
  ghost predicate Compared(es: seq<Fields>, name: Bytes) {
    forall i :: 0 <= i < |es| ==> es[i].comparator == None || es[i].comparator == Some(name)
  }

  lemma MeaningIsValid(e: Fields, contents: nat -> seq<Entry>)
    requires LevelsInRange(e) && FilesParse(e.newFiles)
    ensures M.ValidEdit(Meaning(e, contents))
  {
    forall d | d in Meaning(e, contents).deleted ensures d.0 < NUM_LEVELS {
      var i :| 0 <= i < |e.deletedFiles| && e.deletedFiles[i] == d;
    }
  }

  lemma {:induction false} InsertInRange(files: seq<(nat, nat)>, d: (nat, nat))
    requires d.0 < NUM_LEVELS && forall i :: 0 <= i < |files| ==> files[i].0 < NUM_LEVELS
    ensures forall i :: 0 <= i < |InsertDeleted(files, d)| ==> InsertDeleted(files, d)[i].0 < NUM_LEVELS
  {
    if files != [] {
      InsertInRange(files[..|files| - 1], d);
    }
  }

  lemma ParsedInRange(tag: nat, input: Bytes)
    ensures ParsePayload(tag, input).Ok? ==> LevelInRange(ParsePayload(tag, input).item)
  {
    hide Varied, Unprefixed;
  }

  lemma AppliedInRange(e: Fields, i: Item)
    requires LevelsInRange(e) && LevelInRange(i)
    ensures LevelsInRange(Apply(e, i))
  {
    if i.DeletedFile? {
      InsertInRange(e.deletedFiles, (i.level, i.number));
    }
  }

  /** Whatever bytes are decoded, the levels are ones the store has. */
  lemma {:induction false} DecodedInRange(e: Fields, input: Bytes)
    requires LevelsInRange(e)
    ensures DecodeItems(e, input).Edit? ==> LevelsInRange(DecodeItems(e, input).e)
    decreases |input|
  {
    hide LevelsInRange, ParsePayload, Apply;
    var tag := Varied(input, MAX_VARINT32, TWO32);
    if tag.Some? {
      ParsedInRange(tag.value.0, tag.value.1);
      var p := ParsePayload(tag.value.0, tag.value.1);
      if p.Ok? {
        AppliedInRange(e, p.item);
        DecodedInRange(Apply(e, p.item), p.rest);
      }
    }
  }

  /** A fresh edit decodes a record to what was encoded. */
  lemma DecodesTo(e: Fields, blank: Fields)
    requires Writable(e) && blank.compactPointers == []
    ensures DecodeItems(Cleared(blank), Encoded(Items(e))) == Edit(e)
  {
    EditRoundTrip(e, blank);
    assert [] + e.compactPointers == e.compactPointers;
  }

  lemma WritableFiles(e: Fields)
    requires Writable(e)
    ensures FilesParse(e.newFiles)
  {
  }

  // ----- recovery -----

  datatype Outcome = Read(r: M.Recovered) | Unreadable(message: string) | OtherComparator(name: Bytes)

  /** The file is a manifest as the program writes it, cut anywhere. */
  ghost predicate IsManifest(file: Bytes, es: seq<Fields>, crc: Bytes -> Log.Word) {
    AllWritable(es) && file <= Log.Written(Records(es), 0, crc)
  }

  /** Exactly the first `k` records lie wholly in the file. */
  ghost predicate WholeRecords(file: Bytes, es: seq<Fields>, k: nat, crc: Bytes -> Log.Word) {
    && k <= |es| && |Log.Written(Records(es)[..k], 0, crc)| <= |file|
    && (k < |es| ==> |file| < |Log.Written(Records(es)[..k + 1], 0, crc)|)
  }

  /** Decode the records of a manifest.  The keys of files are read as keys here; the program keeps their bytes. */
  method DecodeAll(records: seq<Bytes>, name: Bytes, contents: nat -> seq<Entry>, ghost good: bool,
                   ghost es: seq<Fields>)
    returns (edits: seq<M.Edit>, failure: Option<Outcome>)
    requires good ==> AllWritable(es) && records == Records(es)
    ensures forall i :: 0 <= i < |edits| ==> M.ValidEdit(edits[i])
    ensures good ==> if Compared(es, name) then failure == None && edits == Meanings(es, contents)
                     else failure.Some? && failure.value.OtherComparator?
  {
    hide Items, Encoded, DecodeItems, Writable, Meaning, M.ValidEdit;
    edits, failure := [], None;
    for i := 0 to |records|
      invariant forall j :: 0 <= j < |edits| ==> M.ValidEdit(edits[j])
      invariant good ==> i <= |es| && AllWritable(es[..i]) && Compared(es[..i], name)
      invariant good ==> edits == Meanings(es[..i], contents)
    {
      var edit := new VersionEdit();
      ghost var blank := Cleared(edit.Value());
      assert LevelsInRange(blank);
      if good {
        assert Writable(es[i]) && records[i] == Encoded(Items(es[i]));
        DecodesTo(es[i], edit.Value());
        WritableFiles(es[i]);
      }
      var error := edit.DecodeFrom(records[i]);
      if error.Some? {
        return edits, Some(Unreadable(error.value));
      }
      if edit.comparator.Some? && edit.comparator.value != name {
        return edits, Some(OtherComparator(edit.comparator.value));
      }
      if !FilesParse(edit.newFiles) {
        return edits, Some(Unreadable("file keys"));
      }
      DecodedInRange(blank, records[i]);
      MeaningIsValid(edit.Value(), contents);
      edits := edits + [Meaning(edit.Value(), contents)];
      assert good ==> es[..i + 1] == es[..i] + [es[i]];
    }
    assert good ==> es[..|records|] == es;
  }

  lemma WholeWritable(es: seq<Fields>, k: nat)
    requires AllWritable(es) && k <= |es|
    ensures AllWritable(es[..k]) && Records(es)[..k] == Records(es[..k])
  {
  }

  /** What recovery gives from the first `k` edits: the files of every level and the counters, or what is missing. */
  ghost predicate FromEdits(r: M.Recovered, edits: seq<M.Edit>) {
    && (r.Recovered? <==> M.AllRecorded(M.Seen(edits)))
    && (r.Recovered? ==>
          && |r.files| == NUM_LEVELS
          && (forall l :: 0 <= l < NUM_LEVELS ==>
                M.BySmallest(r.files[l]) && ToSet(r.files[l]) == M.Saved({}, M.ReplayAt(edits, l)))
          && Some(r.logNumber) == M.Seen(edits).logNumber && Some(r.nextFileNumber - 1) == M.Seen(edits).nextFileNumber
          && Some(r.lastSequence) == M.Seen(edits).lastSequence)
  }

  /** What comes of the first `k` edits. */
  ghost predicate Recovers(r: Outcome, es: seq<Fields>, k: nat, name: Bytes, contents: nat -> seq<Entry>)
    requires AllWritable(es)
  {
    && k <= |es| && AllWritable(es[..k])
    && if Compared(es[..k], name) then r.Read? && FromEdits(r.r, Meanings(es[..k], contents)) else r.OtherComparator?
  }

  lemma {:induction false} MoreIsLonger(records: seq<Bytes>, a: nat, b: nat, crc: Bytes -> Log.Word)
    requires a <= b <= |records|
    ensures |Log.Written(records[..a], 0, crc)| <= |Log.Written(records[..b], 0, crc)|
  {
    assert records[..b] == records[..a] + records[a..b];
    Log.WrittenSplit(records[..a], records[a..b], 0, crc);
  }

  /** How many records are whole is a matter of the file alone. */
  lemma OneCount(file: Bytes, es: seq<Fields>, j: nat, k: nat, crc: Bytes -> Log.Word)
    requires WholeRecords(file, es, j, crc) && WholeRecords(file, es, k, crc)
    ensures j == k
  {
    hide Log.Written;
    if j < k {
      MoreIsLonger(Records(es), j + 1, k, crc);
    } else if k < j {
      MoreIsLonger(Records(es), k + 1, j, crc);
    }
  }

  /** VersionSet::Recover, from the bytes.  Of a manifest cut anywhere the whole records count, each as the edit that
      was written, and nothing else; a record that names another comparator is refused. */
  method RecoverManifest(file: Bytes, name: Bytes, contents: nat -> seq<Entry>, crc: Bytes -> Log.Word,
                         ghost es: seq<Fields>)
    returns (r: Outcome)
    ensures IsManifest(file, es, crc) ==>
              && (exists k :: WholeRecords(file, es, k, crc))
              && forall k :: WholeRecords(file, es, k, crc) ==> Recovers(r, es, k, name, contents)
    ensures IsManifest(file, es, crc) && file == Log.Written(Records(es), 0, crc) ==>
              Recovers(r, es, |es|, name, contents)
  {
    hide Log.Written, Writable, Meanings, Compared, M.Seen, M.ReplayAt, M.BySmallest;
    ghost var good := IsManifest(file, es, crc);
    var records, reports := Log.ReadAll(file, Records(es), crc);
    ghost var k := |records|;
    if reports != [] {
      return Unreadable(reports[0].1);
    }
    if good {
      assert records == Records(es)[..k];
      WholeWritable(es, k);
    }
    var edits, failure := DecodeAll(records, name, contents, good, if good then es[..k] else []);
    if failure.Some? {
      r := failure.value;
    } else {
      var recovered := M.Recover(edits);
      r := Read(recovered);
    }
    if good {
      assert WholeRecords(file, es, k, crc) && Recovers(r, es, k, name, contents);
      forall j | WholeRecords(file, es, j, crc) ensures j == k {
        OneCount(file, es, j, k, crc);
      }
    }
  }
}
