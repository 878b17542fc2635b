/** A list of ranges kept in order without overlap. */
module RangeLists {
  import opened TextModel

  datatype Range = Range(start: Pos, end: Pos) {
    predicate IsEmpty() { start == end }
    predicate Proper() { AtMost(start, end) }
    predicate Holds(p: Pos) { AtMost(start, p) && AtMost(p, end) }
  }

  /** `comparePoints`: its sign says which position comes first. */
  function Compare(p: Pos, q: Pos): (c: int)
    ensures c <= 0 <==> AtMost(p, q)
    ensures c == 0 <==> p == q
  {
    if p.row - q.row != 0 then p.row - q.row else p.column - q.column
  }

  /** `a` lies before `b`: they may touch, unless one of them is empty. */
  predicate Clear(a: Range, b: Range) {
    Compare(a.end, b.start) < 0 || (a.end == b.start && !a.IsEmpty() && !b.IsEmpty())
  }

  predicate Separated(rs: seq<Range>) {
    && (forall k :: 0 <= k < |rs| ==> rs[k].Proper())
    && (forall i, j :: 0 <= i < j < |rs| ==> Clear(rs[i], rs[j]))
  }

  /** `r` overlaps `e`. */
  predicate Blocks(r: Range, e: Range) {
    !Clear(r, e) && !Clear(e, r)
  }

  /** An empty range right where one range ends and the next begins. */
  predicate BetweenTwo(rs: seq<Range>, e: Range) {
    e.IsEmpty() && exists k :: 0 < k < |rs| && rs[k - 1].end == e.start == rs[k].start
  }

  predicate Covered(rs: seq<Range>, p: Pos) {
    exists k :: 0 <= k < |rs| && rs[k].Holds(p)
  }

  /** The first range from `from` on that does not end before p. */
  predicate Reaches(rs: seq<Range>, p: Pos, from: nat, k: nat) {
    && from <= k <= |rs|
    && (forall m :: from <= m < k ==> Compare(rs[m].end, p) < 0)
    && (k < |rs| ==> Compare(rs[k].end, p) >= 0)
  }

  function FirstReaching(rs: seq<Range>, p: Pos, from: nat): (k: nat)
    requires from <= |rs|
    ensures Reaches(rs, p, from, k)
    decreases |rs| - from
  {
    if from == |rs| || Compare(rs[from].end, p) >= 0 then from else FirstReaching(rs, p, from + 1)
  }

  /** What `pointIndex` says when k is that range: k itself for a hit, else minus the place to insert, minus 1. */
  function PointIndexAt(rs: seq<Range>, p: Pos, exclude: bool, k: int): int
    requires 0 <= k <= |rs|
  {
    if k == |rs| then -k - 1
    else if rs[k].end == p then (if exclude && rs[k].start != p then -k - 2 else k)
    else if Compare(p, rs[k].start) > 0 || (p == rs[k].start && !exclude) then k
    else -k - 1
  }

  class RangeList {
    var ranges: seq<Range>

    constructor ()
      ensures ranges == []
    {
      ranges := [];
    }

    method PointIndex(p: Pos, exclude: bool, from: nat) returns (r: int)
      requires from <= |ranges|
      ensures r == PointIndexAt(ranges, p, exclude, FirstReaching(ranges, p, from))
    {
      var i := from;
      while i < |ranges|
        invariant from <= i <= |ranges|
        invariant FirstReaching(ranges, p, i) == FirstReaching(ranges, p, from)
        decreases |ranges| - i
      {
        var range := ranges[i];
        var cmpEnd := Compare(p, range.end);
        if cmpEnd > 0 { i := i + 1; continue; }
        var cmpStart := Compare(p, range.start);
        if cmpEnd == 0 {
          return if exclude && cmpStart != 0 then -i - 2 else i;
        }
        return if cmpStart > 0 || (cmpStart == 0 && !exclude) then i else -i - 1;
      }
      r := -i - 1;
    }

    /** Whether a position is in one of the ranges, ends included. */
    method ContainsPoint(p: Pos) returns (b: bool)
      requires Separated(ranges)
      ensures b <==> Covered(ranges, p)
    {
      var r := PointIndex(p, false, 0);
      ghost var k := FirstReaching(ranges, p, 0);
      b := r >= 0;
      if b {
        assert ranges[k].Holds(p);
      } else {
        forall m | 0 <= m < |ranges| ensures !ranges[m].Holds(p) {
          if m > k { assert Clear(ranges[k], ranges[m]); }
        }
      }
    }

    /** Adds a range in place of the ranges it overlaps, which it returns. The list stays separated, and
        the ranges removed are exactly the overlapping ones, unless an empty range is put right between
        two touching ranges: then only the first of the two goes. */
    method Add(e: Range) returns (removed: seq<Range>, ghost i: nat, ghost j: nat)
      requires Separated(ranges) && e.Proper()
      modifies this
      ensures i <= j <= |old(ranges)|
      ensures removed == old(ranges)[i..j]
      ensures ranges == old(ranges)[..i] + [e] + old(ranges)[j..]
      ensures !BetweenTwo(old(ranges), e) ==> Exactly(old(ranges), e, i, j)
      ensures Separated(ranges) <==> !BetweenTwo(old(ranges), e)
    {
      var exclude := !e.IsEmpty();
      var first := PointIndex(e.start, exclude, 0);
      ghost var k := FirstReaching(ranges, e.start, 0);
      if first < 0 { first := -first - 1; }
      var last := PointIndex(e.end, exclude, first);
      ghost var l := FirstReaching(ranges, e.end, first);
      if last < 0 { last := -last - 1; } else { last := last + 1; }
      if exclude { AddNonEmpty(ranges, e, k, first, l, last); } else { AddEmpty(ranges, e, k, first, l, last); }
      removed := ranges[first..last];
      AddResult(ranges, e, first, last);
      ranges := ranges[..first] + [e] + ranges[last..];
      i, j := first, last;
    }

    /** Merges overlapping ranges; returns the ranges that were merged into others: of two, the one that starts later or
        is sorted behind. */
    method Merge() returns (merged: seq<Range>, ghost kept: seq<Range>)
      requires forall k :: 0 <= k < |ranges| ==> ranges[k].Proper()
      modifies this
      ensures Separated(ranges) && |ranges| + |merged| == |old(ranges)|
      ensures forall p :: Covered(ranges, p) <==> Covered(old(ranges), p)
      ensures multiset(kept) + multiset(merged) == multiset(old(ranges)) && Grows(kept, ranges) && Swallowed(merged, ranges)
    {
      hide SortByStart, Covered, Grows, Swallowed;
      var sorted := SortByStart(ranges);
      SortCount(ranges);
      SameCover(ranges, sorted);
      forall k | 0 <= k < |sorted| ensures sorted[k].Proper() { assert sorted[k] in ranges; }
      ranges, merged, kept := MergeSorted(sorted);
    }
  }

  // ---------------------------------------------------------------- adding

  /** The ranges that overlap `e` are those from i up to j. */
  predicate Exactly(rs: seq<Range>, e: Range, i: nat, j: nat) {
    forall k :: 0 <= k < |rs| ==> (Blocks(rs[k], e) <==> i <= k < j)
  }

  /** The place of `e` in the list: what is before i lies before it, what is from i up to j overlaps it,
      and what follows lies after it, except when it is put between two touching ranges. */
  ghost predicate Place(rs: seq<Range>, e: Range, i: nat, j: nat) {
    && i <= j <= |rs|
    && (forall m :: 0 <= m < i ==> Clear(rs[m], e))
    && (forall m :: i <= m < j ==> Blocks(rs[m], e))
    && (!BetweenTwo(rs, e) ==> forall m :: j <= m < |rs| ==> Clear(e, rs[m]))
    && (BetweenTwo(rs, e) ==> j < |rs| && !Clear(e, rs[j]))
  }

  /** The start of an empty range and its end are looked up alike. */
  lemma {:induction false} AddEmpty(rs: seq<Range>, e: Range, k: nat, i: nat, l: nat, j: nat)
    requires Separated(rs) && e.IsEmpty()
    requires Reaches(rs, e.start, 0, k) && i == Found(PointIndexAt(rs, e.start, false, k), 0)
    requires i <= |rs| && Reaches(rs, e.end, i, l) && j == Found(PointIndexAt(rs, e.end, false, l), 1)
    ensures Place(rs, e, i, j)
  {
    if BetweenTwo(rs, e) {
      AddBetween(rs, e, k);
    } else if k < |rs| {
      AfterEmpty(rs, e, k);
    }
  }

  /** Between two touching ranges the first of them is found. */
  lemma {:induction false} AddBetween(rs: seq<Range>, e: Range, k: nat)
    requires Separated(rs) && e.IsEmpty() && BetweenTwo(rs, e) && Reaches(rs, e.start, 0, k)
    ensures k + 1 < |rs| && rs[k].end == e.start == rs[k + 1].start
  {
    var m :| 0 < m < |rs| && rs[m - 1].end == e.start == rs[m].start;
    assert k < m - 1 ==> Clear(rs[k], rs[m - 1]);
  }

  lemma {:induction false} AfterEmpty(rs: seq<Range>, e: Range, k: nat)
    requires Separated(rs) && e.IsEmpty() && !BetweenTwo(rs, e) && Reaches(rs, e.start, 0, k) && k < |rs|
    ensures forall m :: k < m < |rs| ==> Clear(e, rs[m])
  {
    forall m | k < m < |rs| ensures Clear(e, rs[m]) {
      assert Clear(rs[k], rs[m]);
      if m > k + 1 { assert Clear(rs[k], rs[k + 1]) && Clear(rs[k + 1], rs[m]); }
      else { assert rs[m - 1] == rs[k]; }
    }
  }

  lemma {:induction false} AddNonEmpty(rs: seq<Range>, e: Range, k: nat, i: nat, l: nat, j: nat)
    requires Separated(rs) && e.Proper() && !e.IsEmpty()
    requires Reaches(rs, e.start, 0, k) && i == Found(PointIndexAt(rs, e.start, true, k), 0)
    requires i <= |rs| && Reaches(rs, e.end, i, l) && j == Found(PointIndexAt(rs, e.end, true, l), 1)
    ensures Place(rs, e, i, j)
  {
    StartFound(rs, e, k, i);
    EndFound(rs, e, i, l, j);
    hide Separated, Clear, Reaches, PointIndexAt;
  }

  /** The ranges before the place of the start lie before `e`, and no others do. */
  lemma StartFound(rs: seq<Range>, e: Range, k: nat, i: nat)
    requires Separated(rs) && e.Proper() && !e.IsEmpty()
    requires Reaches(rs, e.start, 0, k) && i == Found(PointIndexAt(rs, e.start, true, k), 0)
    ensures forall m :: 0 <= m < |rs| ==> (Clear(rs[m], e) <==> m < i)
  {
    if k < |rs| {
      forall m | k < m < |rs| ensures Clear(rs[k], rs[m]) {}
    }
  }

  /** Of the ranges that do not lie before `e`, those from the place of the end on lie after it, and no others do. */
  lemma EndFound(rs: seq<Range>, e: Range, i: nat, l: nat, j: nat)
    requires Separated(rs) && e.Proper() && !e.IsEmpty()
    requires i <= |rs| && Reaches(rs, e.end, i, l) && j == Found(PointIndexAt(rs, e.end, true, l), 1)
    requires forall m :: 0 <= m < |rs| ==> (Clear(rs[m], e) <==> m < i)
    ensures i <= j <= |rs| && forall m :: i <= m < |rs| ==> (Clear(e, rs[m]) <==> j <= m)
  {
    if l < |rs| {
      forall m | l < m < |rs| ensures Clear(rs[l], rs[m]) {}
    }
  }

  /** The index a result of `pointIndex` stands for; a hit counts `hit` further. */
  function Found(r: int, hit: int): int {
    if r < 0 then -r - 1 else r + hit
  }

  lemma {:induction false} AddResult(rs: seq<Range>, e: Range, i: nat, j: nat)
    requires Separated(rs) && e.Proper() && Place(rs, e, i, j)
    ensures !BetweenTwo(rs, e) ==> Exactly(rs, e, i, j)
    ensures Separated(rs[..i] + [e] + rs[j..]) <==> !BetweenTwo(rs, e)
  {
    var now := rs[..i] + [e] + rs[j..];
    if BetweenTwo(rs, e) {
      assert now[i] == e && now[i + 1] == rs[j];
    } else {
      hide BetweenTwo;
      PlacedExactly(rs, e, i, j);
      hide Clear;
      forall a, b | 0 <= a < b < |now| ensures Clear(now[a], now[b]) {
        var a' := if a < i then a else a - i - 1 + j;
        var b' := if b < i then b else b - i - 1 + j;
        if a != i && b != i { assert now[a] == rs[a'] && now[b] == rs[b'] && Clear(rs[a'], rs[b']); }
      }
    }
  }

  lemma PlacedExactly(rs: seq<Range>, e: Range, i: nat, j: nat)
    requires Place(rs, e, i, j) && !BetweenTwo(rs, e)
    ensures Exactly(rs, e, i, j)
  {
    hide BetweenTwo, Clear;
  }

  // ---------------------------------------------------------------- merging

  predicate SortedByStart(rs: seq<Range>) {
    forall i, j :: 0 <= i < j < |rs| ==> AtMost(rs[i].start, rs[j].start)
  }

  function InsertByStart(rs: seq<Range>, r: Range): (t: seq<Range>)
    requires SortedByStart(rs)
    ensures SortedByStart(t) && |t| == |rs| + 1
    ensures forall x :: x in t <==> x in rs || x == r
  {
    if rs == [] || !AtMost(rs[0].start, r.start) then [r] + rs
    else
      var rest := InsertByStart(rs[1..], r);
      assert forall x :: x in rest ==> AtMost(rs[0].start, x.start);
      assert rs == [rs[0]] + rs[1..];
      [rs[0]] + rest
  }

  /** `ranges.sort(...)` by start: some order of the same ranges. */
  function SortByStart(rs: seq<Range>): (t: seq<Range>)
    ensures SortedByStart(t) && |t| == |rs|
    ensures forall x :: x in t <==> x in rs
  {
    if rs == [] then []
    else
      var t := InsertByStart(SortByStart(rs[..|rs| - 1]), rs[|rs| - 1]);
      assert rs == rs[..|rs| - 1] + [rs[|rs| - 1]];
      t
  }

  lemma {:induction false} InsertCount(rs: seq<Range>, r: Range)
    requires SortedByStart(rs)
    ensures multiset(InsertByStart(rs, r)) == multiset(rs) + multiset{r}
    decreases |rs|
  {
    if rs != [] && AtMost(rs[0].start, r.start) {
      assert rs == [rs[0]] + rs[1..];
      InsertCount(rs[1..], r);
    }
  }

  lemma {:induction false} SortCount(rs: seq<Range>)
    ensures multiset(SortByStart(rs)) == multiset(rs)
    decreases |rs|
  {
    if rs != [] {
      var n := |rs| - 1;
      assert rs == rs[..n] + [rs[n]];
      SortCount(rs[..n]);
      InsertCount(SortByStart(rs[..n]), rs[n]);
    }
  }

  lemma SameCover(a: seq<Range>, b: seq<Range>)
    requires forall x :: x in a <==> x in b
    ensures forall p :: Covered(a, p) <==> Covered(b, p)
  {
    forall p ensures Covered(a, p) <==> Covered(b, p) {
      if Covered(a, p) { var k :| 0 <= k < |a| && a[k].Holds(p); assert a[k] in b; }
      if Covered(b, p) { var k :| 0 <= k < |b| && b[k].Holds(p); assert b[k] in a; }
    }
  }

  /** Two ranges that are not clear of one another cover together what the merged one does. */
  lemma {:induction false} MergedCovers(t: seq<Range>, s: nat)
    requires 1 <= s < |t| && t[s - 1].Proper() && t[s].Proper()
    requires AtMost(t[s - 1].start, t[s].start) && !Clear(t[s - 1], t[s])
    ensures forall p :: Covered(MergedAt(t, s), p) <==> Covered(t, p)
  {
    var u := MergedAt(t, s);
    forall p ensures Covered(u, p) <==> Covered(t, p) {
      if Covered(t, p) {
        var k :| 0 <= k < |t| && t[k].Holds(p);
        assert k < s - 1 ==> u[k] == t[k];
        assert k > s ==> u[k - 1] == t[k];
        assert k == s - 1 || k == s ==> u[s - 1].Holds(p);
      }
      if Covered(u, p) {
        var k :| 0 <= k < |u| && u[k].Holds(p);
        assert k < s - 1 ==> t[k] == u[k];
        assert k >= s ==> t[k + 1] == u[k];
        assert k == s - 1 ==> t[s - 1].Holds(p) || t[s].Holds(p);
      }
    }
  }

  /** Range s merged into the one before it. */
  function MergedAt(t: seq<Range>, s: nat): seq<Range>
    requires 1 <= s < |t|
  {
    var r := t[s - 1];
    var end := if Compare(r.end, t[s].end) < 0 then t[s].end else r.end;
    t[..s - 1] + [Range(r.start, end)] + t[s + 1..]
  }

  lemma {:induction false} NextClear(t: seq<Range>, s: nat)
    requires 1 <= s < |t| && Separated(t[..s]) && t[s].Proper() && Clear(t[s - 1], t[s])
    ensures Separated(t[..s + 1])
  {
    var u := t[..s + 1];
    forall i, j | 0 <= i < j < |u| ensures Clear(u[i], u[j]) {
      if j < s {
        assert Clear(t[..s][i], t[..s][j]);
      } else if i < s - 1 {
        assert Clear(t[..s][i], t[..s][s - 1]);
      }
    }
    forall k | 0 <= k < |u| ensures u[k].Proper() {
      if k < s { assert t[..s][k].Proper(); }
    }
  }

  lemma {:induction false} MergedSeparated(t: seq<Range>, s: nat)
    requires 1 <= s < |t| && Separated(t[..s]) && t[s].Proper() && AtMost(t[s - 1].start, t[s].start) && !Clear(t[s - 1], t[s])
    ensures Separated(MergedAt(t, s)[..s])
  {
    var u := MergedAt(t, s)[..s];
    forall i, j | 0 <= i < j < |u| ensures Clear(u[i], u[j]) {
      assert Clear(t[..s][i], t[..s][j]);
    }
    forall k | 0 <= k < |u| ensures u[k].Proper() {
      assert t[..s][k].Proper();
    }
  }

  /** The loop of `merge`, over ranges sorted by start in whatever way; it removes ranges from the list it
      walks. */
  method MergeSorted(sorted: seq<Range>) returns (t: seq<Range>, merged: seq<Range>, ghost kept: seq<Range>)
    requires SortedByStart(sorted) && (forall k :: 0 <= k < |sorted| ==> sorted[k].Proper())
    ensures Separated(t) && |t| + |merged| == |sorted|
    ensures forall p :: Covered(t, p) <==> Covered(sorted, p)
    ensures multiset(kept) + multiset(merged) == multiset(sorted) && Grows(kept, t) && Swallowed(merged, t)
  {
    hide Covered, Grows, Swallowed;
    t, merged, kept := sorted, [], sorted;
    NothingMerged(sorted);
    if |t| == 0 { return; }
    var s := 1;
    while s < |t|
      invariant 1 <= s <= |t| && |t| + |merged| == |sorted|
      invariant Separated(t[..s]) && (forall k :: 0 <= k < |t| ==> t[k].Proper())
      invariant SortedByStart(t)
      invariant forall p :: Covered(t, p) <==> Covered(sorted, p)
      invariant |kept| == |t| && multiset(kept) + multiset(merged) == multiset(sorted) && Grows(kept, t) && Swallowed(merged, t) && kept[s..] == t[s..]
      decreases |t| - s
    {
      var r, n := t[s - 1], t[s];
      var c := Compare(r.end, n.start);
      if c < 0 || (c == 0 && !r.IsEmpty() && !n.IsEmpty()) {
        NextClear(t, s);
        s := s + 1;
        continue;
      }
      MergedCovers(t, s);
      MergedSeparated(t, s);
      MergedKeeps(t, s);
      MergedGrows(kept, t, s);
      MergedCount(kept, merged, s);
      MergedSwallows(merged, t, s);
      kept := kept[..s] + kept[s + 1..];
      var end := if Compare(r.end, n.end) < 0 then n.end else r.end;
      t := t[..s - 1] + [Range(r.start, end)] + t[s + 1..];
      merged := merged + [n];
    }
    assert t[..s] == t;
  }

  /** Each range of the list has the start of one that was there, and reaches at least as far. */
  ghost predicate Grows(kept: seq<Range>, t: seq<Range>) {
    |kept| == |t| && forall k :: 0 <= k < |t| ==> t[k].start == kept[k].start && AtMost(kept[k].end, t[k].end)
  }

  /** Each of these ranges lies inside one of the list. */
  ghost predicate Swallowed(merged: seq<Range>, t: seq<Range>) {
    forall r :: r in merged ==> SwallowedBy(r, t)
  }

  ghost predicate SwallowedBy(r: Range, t: seq<Range>) {
    exists k :: 0 <= k < |t| && Inside(r, t[k])
  }

  predicate Inside(r: Range, s: Range) { AtMost(s.start, r.start) && AtMost(r.end, s.end) }

  lemma NothingMerged(t: seq<Range>)
    ensures Grows(t, t) && Swallowed([], t)
  {
  }

  lemma MergedCount(kept: seq<Range>, merged: seq<Range>, s: nat)
    requires s < |kept|
    ensures multiset(kept[..s] + kept[s + 1..]) + multiset(merged + [kept[s]]) == multiset(kept) + multiset(merged)
  {
    assert kept == kept[..s] + [kept[s]] + kept[s + 1..];
  }

  lemma MergedGrows(kept: seq<Range>, t: seq<Range>, s: nat)
    requires 1 <= s < |t| && Grows(kept, t) && kept[s..] == t[s..]
    ensures kept[s] == t[s] && Grows(kept[..s] + kept[s + 1..], MergedAt(t, s))
    ensures (kept[..s] + kept[s + 1..])[s..] == MergedAt(t, s)[s..]
  {
    var left, u := kept[..s] + kept[s + 1..], MergedAt(t, s);
    assert kept[s] == kept[s..][0] == t[s..][0] == t[s];
    assert left[s..] == kept[s..][1..] && u[s..] == t[s..][1..];
    forall k | 0 <= k < |u| ensures u[k].start == left[k].start && AtMost(left[k].end, u[k].end) {
      var l := if k < s then k else k + 1;
      assert left[k] == kept[l] && t[l].start == kept[l].start && AtMost(kept[l].end, t[l].end);
    }
  }

  lemma MergedSwallows(merged: seq<Range>, t: seq<Range>, s: nat)
    requires 1 <= s < |t| && SortedByStart(t) && Swallowed(merged, t)
    ensures Swallowed(merged + [t[s]], MergedAt(t, s))
  {
    var u := MergedAt(t, s);
    assert AtMost(t[s - 1].start, t[s].start);
    assert Inside(t[s], u[s - 1]);
    forall r | r in merged ensures SwallowedBy(r, u) {
      var k :| 0 <= k < |t| && Inside(r, t[k]);
      assert Inside(r, u[if k < s then k else k - 1]);
    }
  }

  lemma {:induction false} MergedKeeps(t: seq<Range>, s: nat)
    requires 1 <= s < |t| && SortedByStart(t) && (forall k :: 0 <= k < |t| ==> t[k].Proper())
    ensures SortedByStart(MergedAt(t, s)) && (forall k :: 0 <= k < |MergedAt(t, s)| ==> MergedAt(t, s)[k].Proper())
  {
    var u := MergedAt(t, s);
    forall i, j | 0 <= i < j < |u| ensures AtMost(u[i].start, u[j].start) {
      assert u[i].start == t[if i < s then i else i + 1].start;
      assert u[j].start == t[if j < s then j else j + 1].start;
    }
  }

  /** Adding an empty range right between two touching ones: one of them goes, and the list overlaps. */
  lemma BetweenTouching()
    ensures var rs, e := [Range(Pos(0, 0), Pos(0, 1)), Range(Pos(0, 1), Pos(0, 2))], Range(Pos(0, 1), Pos(0, 1));
            && Separated(rs) && BetweenTwo(rs, e) && Place(rs, e, 0, 1)
            && PointIndexAt(rs, e.start, false, FirstReaching(rs, e.start, 0)) == 0
            && !Separated(rs[..0] + [e] + rs[1..])
  {
    var rs, e := [Range(Pos(0, 0), Pos(0, 1)), Range(Pos(0, 1), Pos(0, 2))], Range(Pos(0, 1), Pos(0, 1));
    assert rs[1 - 1].end == e.start == rs[1].start;
    AddResult(rs, e, 0, 1);
  }
}
