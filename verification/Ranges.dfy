/**
 Key ranges of sets of tables, and the search for all files of a level that overlap a range.
 In level zero the range grows with every file found, so the search restarts until it is closed.
*/
module Ranges {
  import opened Format
  import opened Tables

  /** The interval [a, c] of user keys lies outside [lo, hi]; `None` is unbounded. */
  ghost predicate Apart(a: UserKey, c: UserKey, lo: Option<UserKey>, hi: Option<UserKey>) {
    (lo.Some? && c < lo.value) || (hi.Some? && a > hi.value)
  }

  ghost predicate ApartFrom(a: UserKey, c: UserKey, f: Table) {
    c < f.smallest.user || a > f.largest.user
  }

  ghost predicate ApartFromAll(a: UserKey, c: UserKey, files: set<Table>) {
    forall f :: f in files ==> ApartFrom(a, c, f)
  }

  /** An interval that meets none of the files lies outside their hull [lo, hi]: the hull has no gap. */
  ghost predicate Gapless(files: set<Table>, lo: UserKey, hi: UserKey) {
    forall a, c :: a <= c && ApartFromAll(a, c, files) ==> c < lo || a > hi
  }

  /** `small` and `large` are the least and greatest keys of the files. */
  ghost predicate IsRange(files: set<Table>, small: InternalKey, large: InternalKey) {
    && (exists f :: f in files && f.smallest == small)
    && (exists f :: f in files && f.largest == large)
    && (forall f :: f in files ==> !Before(f.smallest, small) && !Before(large, f.largest))
  }

  method GetRange(inputs: seq<Table>) returns (small: InternalKey, large: InternalKey)
    requires inputs != []
    ensures IsRange(ToSet(inputs), small, large)
  {
    small, large := inputs[0].smallest, inputs[0].largest;
    for i := 1 to |inputs|
      invariant exists j :: 0 <= j < i && inputs[j].smallest == small
      invariant exists j :: 0 <= j < i && inputs[j].largest == large
      invariant forall j :: 0 <= j < i ==> !Before(inputs[j].smallest, small) && !Before(large, inputs[j].largest)
    {
      if Before(inputs[i].smallest, small) {
        small := inputs[i].smallest;
      }
      if Before(large, inputs[i].largest) {
        large := inputs[i].largest;
      }
    }
    assert forall j :: 0 <= j < |inputs| ==> inputs[j] in ToSet(inputs);
  }

  function TotalFileSize(files: seq<Table>): nat {
    if files == [] then 0 else files[0].size + TotalFileSize(files[1..])
  }

  /** The files of the list that overlap a range, in order. */
  function Overlapping(files: seq<Table>, begin: Option<UserKey>, end: Option<UserKey>): seq<Table> {
    if files == [] then []
    else
      var n := |files| - 1;
      Overlapping(files[..n], begin, end) + (if Overlaps(files[n], begin, end) then [files[n]] else [])
  }

  /** `found` are the files of the level that overlap the range. */
  ghost predicate Exactly(found: set<Table>, level: set<Table>, lo: Option<UserKey>, hi: Option<UserKey>) {
    forall f :: f in found <==> f in level && Overlaps(f, lo, hi)
  }

  lemma {:induction false} OverlappingMembers(files: seq<Table>, begin: Option<UserKey>, end: Option<UserKey>)
    ensures Exactly(ToSet(Overlapping(files, begin, end)), ToSet(files), begin, end)
  {
    if files != [] {
      var n := |files| - 1;
      OverlappingMembers(files[..n], begin, end);
      ToSetTake(files, n);
      assert files[..n + 1] == files;
      ToSetConcat(Overlapping(files[..n], begin, end), if Overlaps(files[n], begin, end) then [files[n]] else []);
    }
  }

  /** Every file that overlaps the range lies inside it. */
  ghost predicate Closed(files: set<Table>, lo: Option<UserKey>, hi: Option<UserKey>) {
    forall f :: f in files && Overlaps(f, lo, hi) ==> Within(f, lo, hi)
  }

  predicate Within(f: Table, lo: Option<UserKey>, hi: Option<UserKey>) {
    (lo.Some? ==> lo.value <= f.smallest.user) && (hi.Some? ==> f.largest.user <= hi.value)
  }

  /** [lo, hi] contains [begin, end]. */
  predicate Contains(lo: Option<UserKey>, hi: Option<UserKey>, begin: Option<UserKey>, end: Option<UserKey>) {
    && (lo.Some? ==> begin.Some? && lo.value <= begin.value)
    && (hi.Some? ==> end.Some? && end.value <= hi.value)
  }

  /** An interval outside the request and outside every overlapping file lies outside the grown range. */
  ghost predicate Bridged(files: set<Table>, begin: Option<UserKey>, end: Option<UserKey>,
                          lo: Option<UserKey>, hi: Option<UserKey>) {
    forall a, c ::
      a <= c && Apart(a, c, begin, end) && ApartFromAll(a, c, set f | f in files && Overlaps(f, lo, hi))
      ==> Apart(a, c, lo, hi)
  }

  ghost predicate LeastClosed(files: set<Table>, begin: Option<UserKey>, end: Option<UserKey>,
                              lo: Option<UserKey>, hi: Option<UserKey>) {
    && Contains(lo, hi, begin, end)
    && Closed(files, lo, hi)
    && forall x, y :: Contains(x, y, begin, end) && Closed(files, x, y) ==> Contains(x, y, lo, hi)
  }

  /** What every range reached by the level-zero search keeps: no closed range around the request is smaller. */
  ghost predicate Grown(files: set<Table>, begin: Option<UserKey>, end: Option<UserKey>,
                        lo: Option<UserKey>, hi: Option<UserKey>) {
    && Contains(lo, hi, begin, end)
    && (begin.Some? <==> lo.Some?) && (end.Some? <==> hi.Some?)
    && (forall x, y :: Contains(x, y, begin, end) && Closed(files, x, y) ==> Contains(x, y, lo, hi))
    && Bridged(files, begin, end, lo, hi)
  }

  lemma GrowOverlaps(files: set<Table>, lo: Option<UserKey>, hi: Option<UserKey>, lo': Option<UserKey>,
                     hi': Option<UserKey>)
    requires Contains(lo', hi', lo, hi)
    ensures forall f :: f in files && Overlaps(f, lo, hi) ==> Overlaps(f, lo', hi')
  {
  }

  lemma GrowBegin(files: set<Table>, begin: Option<UserKey>, end: Option<UserKey>,
                  lo: Option<UserKey>, hi: Option<UserKey>, f: Table)
    requires Grown(files, begin, end, lo, hi) && f in files && Overlaps(f, lo, hi)
    requires lo.Some? && f.smallest.user < lo.value
    ensures Grown(files, begin, end, Some(f.smallest.user), hi)
  {
    var lo' := Some(f.smallest.user);
    forall x, y | Contains(x, y, begin, end) && Closed(files, x, y) ensures Contains(x, y, lo', hi) {
      GrowOverlaps(files, lo, hi, x, y);
      assert Overlaps(f, x, y);
    }
    GrowOverlaps(files, lo, hi, lo', hi);
    forall a, c | a <= c && Apart(a, c, begin, end) && ApartFromAll(a, c, set g | g in files && Overlaps(g, lo', hi))
      ensures Apart(a, c, lo', hi)
    {
      assert ApartFromAll(a, c, set g | g in files && Overlaps(g, lo, hi));
      assert Overlaps(f, lo', hi) && ApartFrom(a, c, f);
    }
  }

  lemma GrowEnd(files: set<Table>, begin: Option<UserKey>, end: Option<UserKey>,
                lo: Option<UserKey>, hi: Option<UserKey>, f: Table)
    requires Grown(files, begin, end, lo, hi) && f in files && Overlaps(f, lo, hi)
    requires hi.Some? && f.largest.user > hi.value
    ensures Grown(files, begin, end, lo, Some(f.largest.user))
  {
    var hi' := Some(f.largest.user);
    forall x, y | Contains(x, y, begin, end) && Closed(files, x, y) ensures Contains(x, y, lo, hi') {
      GrowOverlaps(files, lo, hi, x, y);
      assert Overlaps(f, x, y);
    }
    GrowOverlaps(files, lo, hi, lo, hi');
    forall a, c | a <= c && Apart(a, c, begin, end) && ApartFromAll(a, c, set g | g in files && Overlaps(g, lo, hi'))
      ensures Apart(a, c, lo, hi')
    {
      assert ApartFromAll(a, c, set g | g in files && Overlaps(g, lo, hi));
      assert Overlaps(f, lo, hi') && ApartFrom(a, c, f);
    }
  }

  ghost function StartBelow(files: seq<Table>, lo: Option<UserKey>): set<Table> {
    set f | f in files && lo.Some? && f.smallest.user < lo.value
  }

  ghost function EndAbove(files: seq<Table>, hi: Option<UserKey>): set<Table> {
    set f | f in files && hi.Some? && f.largest.user > hi.value
  }

  /** Version::GetOverlappingInputs.  [lo, hi] is the range the search ends with. */
  method GetOverlappingInputs(levelZero: bool, files: seq<Table>, begin: Option<UserKey>, end: Option<UserKey>)
    returns (inputs: seq<Table>, ghost lo: Option<UserKey>, ghost hi: Option<UserKey>)
    ensures inputs == Overlapping(files, lo, hi)
    ensures !levelZero ==> lo == begin && hi == end
    ensures levelZero ==> LeastClosed(ToSet(files), begin, end, lo, hi) && Bridged(ToSet(files), begin, end, lo, hi)
  {
    inputs := [];
    var userBegin, userEnd := begin, end;
    var i := 0;
    while i < |files|
      invariant 0 <= i <= |files|
      invariant inputs == Overlapping(files[..i], userBegin, userEnd)
      invariant !levelZero ==> userBegin == begin && userEnd == end
      invariant levelZero ==> Grown(ToSet(files), begin, end, userBegin, userEnd)
      invariant levelZero ==> forall j :: 0 <= j < i && Overlaps(files[j], userBegin, userEnd) ==>
                  Within(files[j], userBegin, userEnd)
      decreases StartBelow(files, userBegin), EndAbove(files, userEnd), |files| - i
    {
      var f := files[i];
      assert files[..i + 1][..i] == files[..i];
      i := i + 1;
      ghost var below, above := StartBelow(files, userBegin), EndAbove(files, userEnd);
      if AfterFile(userBegin, f) || BeforeFile(userEnd, f) {
      } else {
        inputs := inputs + [f];
        if levelZero {
          if userBegin.Some? && f.smallest.user < userBegin.value {
            GrowBegin(ToSet(files), begin, end, userBegin, userEnd, f);
            assert f in below;
            userBegin, inputs, i := Some(f.smallest.user), [], 0;
            assert f !in StartBelow(files, userBegin);
          } else if userEnd.Some? && f.largest.user > userEnd.value {
            GrowEnd(ToSet(files), begin, end, userBegin, userEnd, f);
            assert f in above;
            userEnd, inputs, i := Some(f.largest.user), [], 0;
            assert f !in EndAbove(files, userEnd);
          }
        }
      }
    }
    assert files[..|files|] == files;
    lo, hi := userBegin, userEnd;
  }
}
