/** Picking the labels of a lead email out of overlapping hits, and the values that follow them.  A hit is what one
    regular-expression match of one label gave; the hits come in the order the labels are tried. */
module LeadLabels {
  datatype Hit = Hit(start: nat, end: nat, key: string, index: nat, size: nat, name: string)

  // --- sorting the hits ------------------------------------------------------------------------------------

  /** The sort key is the start, then the label's length, longest first. */
  predicate NotAfter(a: Hit, b: Hit) {
    a.start < b.start || (a.start == b.start && a.size >= b.size)
  }

  function Inserted(sorted: seq<Hit>, h: Hit): seq<Hit> {
    if sorted == [] || NotAfter(sorted[|sorted| - 1], h) then sorted + [h]
    else Inserted(sorted[..|sorted| - 1], h) + [sorted[|sorted| - 1]]
  }

  /** `hits.sort`, which keeps hits with equal keys in their order. */
  function Sorted(hits: seq<Hit>): seq<Hit> {
    if hits == [] then [] else Inserted(Sorted(hits[..|hits| - 1]), hits[|hits| - 1])
  }

  ghost predicate IsSorted(hits: seq<Hit>) {
    forall i, j | 0 <= i < j < |hits| :: NotAfter(hits[i], hits[j])
  }

  function TieOf(h: Hit, start: nat, size: nat): seq<Hit> {
    if h.start == start && h.size == size then [h] else []
  }

  /** The hits with one start and label length, in order. */
  function Ties(hits: seq<Hit>, start: nat, size: nat): seq<Hit> {
    if hits == [] then [] else Ties(hits[..|hits| - 1], start, size) + TieOf(hits[|hits| - 1], start, size)
  }

  lemma {:induction false} InsertedOk(sorted: seq<Hit>, h: Hit)
    requires IsSorted(sorted)
    ensures IsSorted(Inserted(sorted, h))
    ensures forall x :: x in Inserted(sorted, h) <==> x in sorted || x == h
  {
    if sorted != [] && !NotAfter(sorted[|sorted| - 1], h) {
      var rest, last := sorted[..|sorted| - 1], sorted[|sorted| - 1];
      InsertedOk(rest, h);
      var r := Inserted(rest, h);
      forall i | 0 <= i < |r| ensures NotAfter(r[i], last) {
        assert r[i] in r;
      }
      assert sorted == rest + [last];
    }
  }

  lemma TiesOfAppended(hits: seq<Hit>, h: Hit, start: nat, size: nat)
    ensures Ties(hits + [h], start, size) == Ties(hits, start, size) + TieOf(h, start, size)
  {
    assert (hits + [h])[..|hits|] == hits;
  }

  lemma TiesSwapped(rest: seq<Hit>, a: Hit, b: Hit, start: nat, size: nat)
    requires a.start != b.start || a.size != b.size
    ensures Ties(rest + [a] + [b], start, size) == Ties(rest + [b] + [a], start, size)
  {
    TiesOfAppended(rest + [a], b, start, size);
    TiesOfAppended(rest + [b], a, start, size);
    TiesOfAppended(rest, a, start, size);
    TiesOfAppended(rest, b, start, size);
  }

  lemma TiesMovedPast(inserted: seq<Hit>, rest: seq<Hit>, last: Hit, h: Hit, start: nat, size: nat)
    requires last.start != h.start || last.size != h.size
    requires Ties(inserted, start, size) == Ties(rest + [h], start, size)
    ensures Ties(inserted + [last], start, size) == Ties(rest + [last] + [h], start, size)
  {
    TiesOfAppended(inserted, last, start, size);
    TiesOfAppended(rest + [h], last, start, size);
    TiesSwapped(rest, last, h, start, size);
  }

  /** A hit never passes another it ties with. */
  lemma {:induction false} InsertedKeepsTies(sorted: seq<Hit>, h: Hit, start: nat, size: nat)
    ensures Ties(Inserted(sorted, h), start, size) == Ties(sorted + [h], start, size)
  {
    if sorted != [] && !NotAfter(sorted[|sorted| - 1], h) {
      var rest, last := sorted[..|sorted| - 1], sorted[|sorted| - 1];
      assert rest + [last] == sorted;
      InsertedKeepsTies(rest, h, start, size);
      TiesMovedPast(Inserted(rest, h), rest, last, h, start, size);
    }
  }

  lemma {:induction false} SortedOk(hits: seq<Hit>)
    ensures IsSorted(Sorted(hits))
    ensures forall x :: x in Sorted(hits) <==> x in hits
  {
    if hits != [] {
      var rest, last := hits[..|hits| - 1], hits[|hits| - 1];
      SortedOk(rest);
      InsertedOk(Sorted(rest), last);
      assert rest + [last] == hits;
    }
  }

  lemma {:induction false} SortedKeepsTies(hits: seq<Hit>, start: nat, size: nat)
    ensures Ties(Sorted(hits), start, size) == Ties(hits, start, size)
  {
    if hits != [] {
      var rest, last := hits[..|hits| - 1], hits[|hits| - 1];
      SortedKeepsTies(rest, start, size);
      InsertedKeepsTies(Sorted(rest), last, start, size);
      TiesOfAppended(Sorted(rest), last, start, size);
    }
  }

  // --- leftmost-longest ------------------------------------------------------------------------------------

  predicate Covers(k: Hit, at: nat) {
    k.start <= at < k.end
  }

  ghost predicate Covered(kept: seq<Hit>, at: nat) {
    exists k :: 0 <= k < |kept| && Covers(kept[k], at)
  }

  /** No hit at the same start has a longer label, and of the equally long ones this is the first tried. */
  ghost predicate Wins(hits: seq<Hit>, h: Hit) {
    && (forall x | x in hits && x.start == h.start :: x.size <= h.size)
    && Ties(hits, h.start, h.size) != [] && Ties(hits, h.start, h.size)[0] == h
  }

  /** `kept` is the leftmost-longest selection from the hits that start at `from` or later. */
  ghost predicate LeftmostLongest(hits: seq<Hit>, kept: seq<Hit>, from: int) {
    && (forall k | 0 <= k < |kept| :: kept[k] in hits && kept[k].start >= from && Wins(hits, kept[k]))
    && (forall i, j | 0 <= i < j < |kept| :: kept[i].end <= kept[j].start)
    && (forall x | x in hits && x.start >= from :: Covered(kept, x.start))
  }

  ghost predicate NonEmptySpans(hits: seq<Hit>) {
    forall x | x in hits :: x.start < x.end
  }

  lemma FirstCoversFirst(hits: seq<Hit>, a: seq<Hit>, b: seq<Hit>, from: int)
    requires NonEmptySpans(hits) && LeftmostLongest(hits, a, from) && LeftmostLongest(hits, b, from) && a != []
    ensures b != [] && b[0].start <= a[0].start
  {
    assert Covered(b, a[0].start);
    var k :| 0 <= k < |b| && Covers(b[k], a[0].start);
    if k > 0 {
      assert b[0] in hits && b[0].start < b[0].end <= b[k].start;
    }
  }

  lemma RestIsLeftmostLongest(hits: seq<Hit>, kept: seq<Hit>, from: int)
    requires LeftmostLongest(hits, kept, from) && kept != []
    requires kept[0].start >= from && kept[0].end >= from
    ensures LeftmostLongest(hits, kept[1..], kept[0].end)
  {
    var rest := kept[1..];
    assert forall k | 0 <= k < |rest| :: rest[k] == kept[k + 1];
    forall x | x in hits && x.start >= kept[0].end ensures Covered(rest, x.start) {
      assert Covered(kept, x.start);
      var k :| 0 <= k < |kept| && Covers(kept[k], x.start);
      assert rest[k - 1] == kept[k];
    }
  }

  /** There is only one leftmost-longest selection. */
  lemma {:induction false} LeftmostLongestIsUnique(hits: seq<Hit>, a: seq<Hit>, b: seq<Hit>, from: int)
    requires NonEmptySpans(hits) && LeftmostLongest(hits, a, from) && LeftmostLongest(hits, b, from)
    ensures a == b
    decreases |a|
  {
    if a == [] {
      if b != [] {
        FirstCoversFirst(hits, b, a, from);
      }
    } else {
      FirstCoversFirst(hits, a, b, from);
      FirstCoversFirst(hits, b, a, from);
      assert a[0] in hits && b[0] in hits && Wins(hits, a[0]) && Wins(hits, b[0]);
      assert a[0] == b[0];
      RestIsLeftmostLongest(hits, a, from);
      RestIsLeftmostLongest(hits, b, from);
      LeftmostLongestIsUnique(hits, a[1..], b[1..], a[0].end);
    }
  }

  /** The first hit of the sorted list at its start wins there. */
  lemma FirstAtItsStartWins(hits: seq<Hit>, j: nat)
    requires j < |Sorted(hits)|
    requires forall i | 0 <= i < j :: Sorted(hits)[i].start != Sorted(hits)[j].start
    ensures Wins(hits, Sorted(hits)[j])
  {
    var s := Sorted(hits);
    var h := s[j];
    SortedOk(hits);
    forall x | x in hits && x.start == h.start ensures x.size <= h.size {
      var i :| 0 <= i < |s| && s[i] == x;
      assert i == j || NotAfter(h, x);
    }
    FirstTie(s, j);
    SortedKeepsTies(hits, h.start, h.size);
  }

  lemma {:induction false} FirstTie(s: seq<Hit>, j: nat)
    requires j < |s| && forall i | 0 <= i < j :: s[i].start != s[j].start
    ensures Ties(s, s[j].start, s[j].size) != [] && Ties(s, s[j].start, s[j].size)[0] == s[j]
    decreases |s|
  {
    var rest := s[..|s| - 1];
    if j < |rest| {
      FirstTie(rest, j);
    } else {
      NoTie(rest, s[j].start, s[j].size);
    }
  }

  lemma {:induction false} NoTie(s: seq<Hit>, start: nat, size: nat)
    requires forall i | 0 <= i < |s| :: s[i].start != start
    ensures Ties(s, start, size) == []
  {
    if s != [] {
      NoTie(s[..|s| - 1], start, size);
    }
  }

  ghost predicate AllWin(hits: seq<Hit>, kept: seq<Hit>) {
    forall k | 0 <= k < |kept| :: kept[k] in hits && Wins(hits, kept[k])
  }

  ghost predicate Apart(kept: seq<Hit>) {
    forall k, l | 0 <= k < l < |kept| :: kept[k].end <= kept[l].start
  }

  ghost predicate StartBefore(kept: seq<Hit>, sorted: seq<Hit>, i: nat) {
    forall k, j | 0 <= k < |kept| && i <= j < |sorted| :: kept[k].start <= sorted[j].start
  }

  ghost predicate CoverUpTo(kept: seq<Hit>, sorted: seq<Hit>, i: nat)
    requires i <= |sorted|
  {
    forall j | 0 <= j < i :: Covered(kept, sorted[j].start)
  }

  /** The selection as it stands before the `i`th sorted hit. */
  ghost predicate Selecting(hits: seq<Hit>, kept: seq<Hit>, i: nat)
    requires i <= |Sorted(hits)|
  {
    AllWin(hits, kept) && Apart(kept) && StartBefore(kept, Sorted(hits), i) && CoverUpTo(kept, Sorted(hits), i)
  }

  function LastEnd(kept: seq<Hit>): int {
    if kept == [] then -1 else kept[|kept| - 1].end
  }

  lemma HitSkipped(hits: seq<Hit>, kept: seq<Hit>, i: nat)
    requires i < |Sorted(hits)| && Selecting(hits, kept, i) && Sorted(hits)[i].start < LastEnd(kept)
    ensures Selecting(hits, kept, i + 1)
  {
    assert Covers(kept[|kept| - 1], Sorted(hits)[i].start);
  }

  lemma KeptEndsByNow(hits: seq<Hit>, kept: seq<Hit>, i: nat)
    requires NonEmptySpans(hits) && i <= |Sorted(hits)| && Selecting(hits, kept, i)
    ensures forall k | 0 <= k < |kept| :: kept[k].end <= LastEnd(kept)
  {
    forall k | 0 <= k < |kept| ensures kept[k].end <= LastEnd(kept) {
      assert kept[|kept| - 1] in hits;
    }
  }

  /** A hit that starts where no kept one reaches is the first at its start. */
  lemma NextWins(hits: seq<Hit>, kept: seq<Hit>, i: nat)
    requires NonEmptySpans(hits)
    requires i < |Sorted(hits)| && Selecting(hits, kept, i) && Sorted(hits)[i].start >= LastEnd(kept)
    ensures Wins(hits, Sorted(hits)[i])
  {
    KeptEndsByNow(hits, kept, i);
    forall j | 0 <= j < i ensures Sorted(hits)[j].start != Sorted(hits)[i].start {
      assert Covered(kept, Sorted(hits)[j].start);
    }
    FirstAtItsStartWins(hits, i);
  }

  lemma StillCovered(kept: seq<Hit>, h: Hit, at: nat)
    requires Covered(kept, at) || Covers(h, at)
    ensures Covered(kept + [h], at)
  {
    var now := kept + [h];
    if Covered(kept, at) {
      var k :| 0 <= k < |kept| && Covers(kept[k], at);
      assert Covers(now[k], at);
    } else {
      assert Covers(now[|kept|], at);
    }
  }

  lemma CoverGrows(kept: seq<Hit>, sorted: seq<Hit>, i: nat)
    requires i < |sorted| && sorted[i].start < sorted[i].end && CoverUpTo(kept, sorted, i)
    ensures CoverUpTo(kept + [sorted[i]], sorted, i + 1)
  {
    forall j | 0 <= j < i + 1 ensures Covered(kept + [sorted[i]], sorted[j].start) {
      StillCovered(kept, sorted[i], sorted[j].start);
    }
  }

  lemma StartsGrow(kept: seq<Hit>, sorted: seq<Hit>, i: nat)
    requires i < |sorted| && IsSorted(sorted) && StartBefore(kept, sorted, i)
    ensures StartBefore(kept + [sorted[i]], sorted, i + 1)
  {
    forall j | i + 1 <= j < |sorted| ensures sorted[i].start <= sorted[j].start {
      assert NotAfter(sorted[i], sorted[j]);
    }
  }

  lemma ApartGrows(kept: seq<Hit>, h: Hit)
    requires Apart(kept) && LastEnd(kept) <= h.start && forall k | 0 <= k < |kept| :: kept[k].end <= LastEnd(kept)
    ensures Apart(kept + [h])
  {
  }

  lemma HitKept(hits: seq<Hit>, kept: seq<Hit>, i: nat)
    requires NonEmptySpans(hits)
    requires i < |Sorted(hits)| && Selecting(hits, kept, i) && Sorted(hits)[i].start >= LastEnd(kept)
    ensures Selecting(hits, kept + [Sorted(hits)[i]], i + 1)
  {
    var h := Sorted(hits)[i];
    SortedOk(hits);
    assert h in Sorted(hits);
    KeptEndsByNow(hits, kept, i);
    NextWins(hits, kept, i);
    ApartGrows(kept, h);
    CoverGrows(kept, Sorted(hits), i);
    StartsGrow(kept, Sorted(hits), i);
    assert AllWin(hits, kept + [h]);
  }

  /** The selection loop of `_scan_labels`: the kept hits are the leftmost-longest selection. */
  method ScanLabels(hits: seq<Hit>) returns (kept: seq<Hit>)
    requires NonEmptySpans(hits)
    ensures LeftmostLongest(hits, kept, -1)
  {
    var sorted := Sorted(hits);
    kept := [];
    var lastEnd: int := -1;
    for i := 0 to |sorted|
      invariant lastEnd == LastEnd(kept)
      invariant Selecting(hits, kept, i)
    {
      var h := sorted[i];
      if h.start >= lastEnd {
        HitKept(hits, kept, i);
        kept := kept + [h];
        lastEnd := h.end;
      } else {
        HitSkipped(hits, kept, i);
      }
    }
    SortedOk(hits);
    forall x | x in hits && x.start >= -1 ensures Covered(kept, x.start) {
      assert x in sorted;
    }
  }
}
