/** The memory layout on the command line: page alignment of a region, and the merging of regions that
    overlap, in 64-bit arithmetic. */
module Regions {
  import opened Common

  /** mem_cfg_t.  The size is at most 2^64 - 1, so that the whole address space is not a region. */
  datatype Region = Region(base: nat, size: nat)
  {
    /** What mem_cfg_t::check_if_supported and the argument checks leave: not empty, not past 2^64. */
    predicate Valid() { 0 < size < U64 && base + size <= U64 }

    predicate Aligned() { base % PGSIZE == 0 && size % PGSIZE == 0 }

    /** base + size - 1, as a 64-bit sum */
    function InclusiveEnd(): nat { (base + size + U64 - 1) % U64 }

    predicate Contains(a: nat) { base <= a < base + size }
  }

  function Min(a: nat, b: nat): nat { if a < b then a else b }

  function Max(a: nat, b: nat): nat { if a < b then b else a }

  predicate CheckOverlap(l: Region, r: Region) {
    Max(l.base, r.base) <= Min(l.InclusiveEnd(), r.InclusiveEnd())
  }

  predicate MergeCovers64BitSpace(l: Region, r: Region) {
    && CheckOverlap(l, r)
    && Min(l.base, r.base) == 0
    && Max(l.InclusiveEnd(), r.InclusiveEnd()) == U64 - 1
  }

  function MergeRegions(l: Region, r: Region): Region {
    var base := Min(l.base, r.base);
    var end := Max(l.InclusiveEnd(), r.InclusiveEnd());
    Region(base, (end + U64 - base + 1) % U64)
  }

  lemma EndOf(r: Region)
    requires r.Valid()
    ensures r.InclusiveEnd() == r.base + r.size - 1
  {
  }

  lemma OverlapIsIntersection(l: Region, r: Region)
    requires l.Valid() && r.Valid()
    ensures CheckOverlap(l, r) <==> exists a: nat :: l.Contains(a) && r.Contains(a)
  {
    EndOf(l);
    EndOf(r);
    if CheckOverlap(l, r) {
      assert l.Contains(Max(l.base, r.base)) && r.Contains(Max(l.base, r.base));
    }
  }

  lemma CoversSpaceMeans(l: Region, r: Region)
    requires l.Valid() && r.Valid() && CheckOverlap(l, r)
    ensures MergeCovers64BitSpace(l, r) <==> forall a: nat | a < U64 :: l.Contains(a) || r.Contains(a)
  {
    EndOf(l);
    EndOf(r);
    if forall a: nat | a < U64 :: l.Contains(a) || r.Contains(a) {
      assert l.Contains(0) || r.Contains(0);
      assert l.Contains(U64 - 1) || r.Contains(U64 - 1);
    }
  }

  lemma MergeIsUnion(l: Region, r: Region)
    requires l.Valid() && r.Valid() && CheckOverlap(l, r) && !MergeCovers64BitSpace(l, r)
    ensures var m := MergeRegions(l, r);
            && m.Valid() && m.base == Min(l.base, r.base)
            && m.base + m.size == Max(l.base + l.size, r.base + r.size)
            && (forall a: nat :: m.Contains(a) <==> l.Contains(a) || r.Contains(a))
            && (l.Aligned() && r.Aligned() ==> m.Aligned())
  {
    EndOf(l);
    EndOf(r);
    var m := MergeRegions(l, r);
    assert m.base + m.size == Max(l.base + l.size, r.base + r.size);
    if l.Aligned() && r.Aligned() {
      EndAligned(l);
      EndAligned(r);
      SizeAligned(m);
    }
  }

  lemma EndAligned(r: Region)
    requires r.Aligned()
    ensures (r.base + r.size) % PGSIZE == 0
  {
    assert r.base + r.size == (r.base / PGSIZE + r.size / PGSIZE) * PGSIZE;
  }

  lemma SizeAligned(r: Region)
    requires r.base % PGSIZE == 0 && (r.base + r.size) % PGSIZE == 0
    ensures r.Aligned()
  {
    assert r.size == ((r.base + r.size) / PGSIZE - r.base / PGSIZE) * PGSIZE;
  }

  // ----- lists of regions

  ghost predicate Covers(regions: seq<Region>, a: nat) {
    exists i | 0 <= i < |regions| :: regions[i].Contains(a)
  }

  ghost predicate AllValid(regions: seq<Region>) {
    forall i | 0 <= i < |regions| :: regions[i].Valid()
  }

  ghost predicate AllAligned(regions: seq<Region>) {
    forall i | 0 <= i < |regions| :: regions[i].Aligned()
  }

  /** In order of address, and no address in two of them. */
  ghost predicate Disjoint(regions: seq<Region>) {
    forall i, j | 0 <= i < j < |regions| :: regions[i].base + regions[i].size <= regions[j].base
  }

  lemma CoversSnoc(regions: seq<Region>, r: Region)
    ensures forall a: nat :: Covers(regions + [r], a) <==> Covers(regions, a) || r.Contains(a)
  {
    forall a: nat ensures Covers(regions + [r], a) <==> Covers(regions, a) || r.Contains(a) {
      assert (regions + [r])[|regions|] == r;
      if i :| 0 <= i < |regions| && regions[i].Contains(a) {
        assert (regions + [r])[i].Contains(a);
      }
    }
  }

  // ----- the sort

  /** sort_mem_region */
  predicate Before(a: Region, b: Region) {
    if a.base == b.base then a.size < b.size else a.base < b.base
  }

  ghost predicate InOrder(regions: seq<Region>) {
    forall i, j | 0 <= i < j < |regions| :: !Before(regions[j], regions[i])
  }

  function InsertRegion(r: Region, regions: seq<Region>): (s: seq<Region>)
    ensures multiset(s) == multiset(regions) + multiset{r}
  {
    if regions == [] || !Before(regions[0], r) then
      [r] + regions
    else
      assert regions == [regions[0]] + regions[1..];
      [regions[0]] + InsertRegion(r, regions[1..])
  }

  lemma {:induction false} InsertKeepsOrder(r: Region, regions: seq<Region>)
    requires InOrder(regions)
    ensures InOrder(InsertRegion(r, regions))
  {
    if regions != [] && Before(regions[0], r) {
      InsertKeepsOrder(r, regions[1..]);
      var rest := InsertRegion(r, regions[1..]);
      forall j | 0 <= j < |rest| ensures !Before(rest[j], regions[0]) {
        assert rest[j] in multiset(rest);
        assert rest[j] in multiset(regions[1..]) || rest[j] == r;
      }
    }
  }

  /** std::sort */
  function Sorted(regions: seq<Region>): (s: seq<Region>)
    ensures multiset(s) == multiset(regions)
  {
    if regions == [] then []
    else
      assert regions == [regions[0]] + regions[1..];
      InsertRegion(regions[0], Sorted(regions[1..]))
  }

  lemma {:induction false} SortedIsInOrder(regions: seq<Region>)
    ensures InOrder(Sorted(regions))
  {
    if regions != [] {
      SortedIsInOrder(regions[1..]);
      InsertKeepsOrder(regions[0], Sorted(regions[1..]));
    }
  }

  lemma SortKeepsRegions(regions: seq<Region>)
    ensures |Sorted(regions)| == |regions|
    ensures AllValid(regions) ==> AllValid(Sorted(regions))
    ensures AllAligned(regions) ==> AllAligned(Sorted(regions))
    ensures forall a: nat :: Covers(Sorted(regions), a) <==> Covers(regions, a)
  {
    var s := Sorted(regions);
    assert |multiset(s)| == |multiset(regions)|;
    forall i | 0 <= i < |s| ensures s[i] in regions {
      assert s[i] in multiset(s);
    }
    forall i | 0 <= i < |regions| ensures regions[i] in s {
      assert regions[i] in multiset(regions);
    }
  }

  // ----- the merge

  /** What the loop has made of the regions it has seen. */
  ghost predicate Merged(seen: seq<Region>, merged: seq<Region>) {
    && merged != [] && AllValid(merged) && Disjoint(merged)
    && (AllAligned(seen) ==> AllAligned(merged))
    && (forall a: nat :: Covers(merged, a) <==> Covers(seen, a))
  }

  lemma MergeAppend(seen: seq<Region>, merged: seq<Region>, next: Region)
    requires Merged(seen, merged) && next.Valid() && merged[|merged| - 1].base <= next.base
    requires !CheckOverlap(merged[|merged| - 1], next)
    ensures Merged(seen + [next], merged + [next])
  {
    var last := merged[|merged| - 1];
    EndOf(last);
    EndOf(next);
    assert last.base + last.size <= next.base;
    CoversSnoc(seen, next);
    CoversSnoc(merged, next);
    AlignedSnoc(seen, next);
  }

  lemma AlignedSnoc(seen: seq<Region>, next: Region)
    ensures AllAligned(seen + [next]) <==> AllAligned(seen) && next.Aligned()
  {
    assert (seen + [next])[|seen|] == next;
    assert forall i | 0 <= i < |seen| :: (seen + [next])[i] == seen[i];
  }

  lemma MergeLast(seen: seq<Region>, merged: seq<Region>, next: Region)
    requires Merged(seen, merged) && next.Valid() && merged[|merged| - 1].base <= next.base
    requires CheckOverlap(merged[|merged| - 1], next) && !MergeCovers64BitSpace(merged[|merged| - 1], next)
    ensures Merged(seen + [next], merged[|merged| - 1 := MergeRegions(merged[|merged| - 1], next)])
  {
    var front, last := merged[..|merged| - 1], merged[|merged| - 1];
    var m := MergeRegions(last, next);
    MergeIsUnion(last, next);
    assert merged == front + [last] && merged[|merged| - 1 := m] == front + [m];
    CoversSnoc(front, last);
    CoversSnoc(front, m);
    CoversSnoc(seen, next);
    AlignedSnoc(seen, next);
    AlignedSnoc(front, last);
    AlignedSnoc(front, m);
  }

  /** 2^64 bytes in two regions, since one of that size has no 64-bit size. */
  const WholeSpace: seq<Region> := [Region(0, U64 - PGSIZE), Region(U64 - PGSIZE, PGSIZE)]

  lemma CoveredBelow(regions: seq<Region>, a: nat)
    requires AllValid(regions) && Covers(regions, a)
    ensures a < U64
  {
  }

  lemma MergeWhole(seen: seq<Region>, merged: seq<Region>, next: Region, all: seq<Region>)
    requires Merged(seen, merged) && AllValid(all) && seen + [next] <= all && next.Valid()
    requires MergeCovers64BitSpace(merged[|merged| - 1], next)
    ensures Merged(all, WholeSpace)
  {
    CoversSpaceMeans(merged[|merged| - 1], next);
    CoversSnoc(seen, next);
    forall a: nat ensures Covers(WholeSpace, a) <==> a < U64 {
      assert a < U64 ==> WholeSpace[0].Contains(a) || WholeSpace[1].Contains(a);
    }
    forall a: nat ensures Covers(all, a) <==> a < U64 {
      if Covers(all, a) {
        CoveredBelow(all, a);
      }
      if a < U64 {
        assert Covers(merged, a) || next.Contains(a);
        var i :| 0 <= i < |seen + [next]| && (seen + [next])[i].Contains(a);
        assert all[i].Contains(a);
      }
    }
  }

  /** The loop has seen the first `n` of the sorted regions; the others begin no earlier than its last. */
  ghost predicate Progress(mems: seq<Region>, n: nat, merged: seq<Region>) {
    && 1 <= n <= |mems| && AllValid(mems) && InOrder(mems)
    && Merged(mems[..n], merged)
    && merged[|merged| - 1].base <= mems[n - 1].base
  }

  lemma ProgressStep(mems: seq<Region>, n: nat, merged: seq<Region>)
    requires Progress(mems, n, merged) && n < |mems|
    ensures var back := merged[|merged| - 1];
            if !CheckOverlap(back, mems[n]) then Progress(mems, n + 1, merged + [mems[n]])
            else if MergeCovers64BitSpace(back, mems[n]) then Merged(mems, WholeSpace)
            else Progress(mems, n + 1, merged[|merged| - 1 := MergeRegions(back, mems[n])])
  {
    var back, next := merged[|merged| - 1], mems[n];
    assert mems[..n + 1] == mems[..n] + [next];
    assert !Before(next, mems[n - 1]);
    if !CheckOverlap(back, next) {
      MergeAppend(mems[..n], merged, next);
    } else if MergeCovers64BitSpace(back, next) {
      MergeWhole(mems[..n], merged, next, mems);
    } else {
      MergeLast(mems[..n], merged, next);
    }
  }

  /** The loop of merge_overlapping_memory_regions over the sorted regions. */
  method MergeSorted(mems: seq<Region>) returns (merged: seq<Region>)
    requires mems != [] && AllValid(mems) && InOrder(mems)
    ensures Merged(mems, merged)
  {
    merged := [mems[0]];
    assert mems[..1] == [mems[0]];
    var n := 1;
    while n < |mems|
      invariant Progress(mems, n, merged)
    {
      var next := mems[n];
      var back := merged[|merged| - 1];
      ProgressStep(mems, n, merged);
      n := n + 1;
      if !CheckOverlap(back, next) {
        merged := merged + [next];
        continue;
      }
      if MergeCovers64BitSpace(back, next) {
        return WholeSpace;
      }
      merged := merged[|merged| - 1 := MergeRegions(back, next)];
    }
    assert mems[..n] == mems;
  }

  /** merge_overlapping_memory_regions: the result is in order, disjoint, representable, aligned if the
      regions were, and has exactly their addresses. */
  method MergeOverlappingMemoryRegions(regions: seq<Region>) returns (merged: seq<Region>)
    requires AllValid(regions)
    ensures AllValid(merged) && Disjoint(merged)
    ensures AllAligned(regions) ==> AllAligned(merged)
    ensures forall a: nat :: Covers(merged, a) <==> Covers(regions, a)
  {
    if regions == [] {
      return [];
    }
    SortedIsInOrder(regions);
    SortKeepsRegions(regions);
    merged := MergeSorted(Sorted(regions));
  }

  // ----- page alignment

  function RoundUp(n: nat): (r: nat)
    ensures n <= r < n + PGSIZE && r % PGSIZE == 0
  {
    if n % PGSIZE == 0 then n else n + PGSIZE - n % PGSIZE
  }

  /** The alignment in parse_mem_layout, on 64-bit values. */
  function PageAlign(request: Region): Region {
    var size := (request.size + request.base % PGSIZE) % U64;
    Region(request.base - request.base % PGSIZE,
           if size % PGSIZE == 0 then size else (size + PGSIZE - size % PGSIZE) % U64)
  }

  ghost predicate Within(inner: Region, outer: Region) {
    outer.base <= inner.base && inner.base + inner.size <= outer.base + outer.size
  }

  /** The aligned region contains the request if and only if the rounded size is representable. */
  lemma AlignmentHoldsExactlyWhenItFits(request: Region)
    requires request.base < U64 && 0 < request.size < U64
    ensures Within(request, PageAlign(request)) <==> RoundUp(request.size + request.base % PGSIZE) < U64
  {
    if request.size + request.base % PGSIZE < U64 {
      AlignmentWithoutWrap(request);
    } else {
      AlignmentWithWrap(request);
    }
  }

  lemma AlignmentWithoutWrap(request: Region)
    requires request.base < U64 && 0 < request.size && request.size + request.base % PGSIZE < U64
    ensures Within(request, PageAlign(request)) <==> RoundUp(request.size + request.base % PGSIZE) < U64
  {
    var up := RoundUp(request.size + request.base % PGSIZE);
    assert PageAlign(request).size == up % U64;
    if up < U64 {
      assert up % U64 == up;
    } else {
      assert up % U64 == up - U64 < PGSIZE;
    }
  }

  lemma AlignmentWithWrap(request: Region)
    requires request.base < U64 && request.size < U64 && request.size + request.base % PGSIZE >= U64
    ensures !Within(request, PageAlign(request))
  {
    var size := (request.size + request.base % PGSIZE) % U64;
    assert size == request.size + request.base % PGSIZE - U64 < PGSIZE;
    assert PageAlign(request).size <= PGSIZE;
  }

  /** And then it is the least aligned region that does. */
  lemma AlignmentIsLeast(request: Region, other: Region)
    requires request.base < U64 && 0 < request.size < U64
    requires Within(request, PageAlign(request))
    ensures PageAlign(request).Aligned()
    ensures other.Aligned() && Within(request, other) ==> Within(PageAlign(request), other)
  {
    AlignmentHoldsExactlyWhenItFits(request);
    var r := PageAlign(request);
    if other.Aligned() && Within(request, other) {
      assert (request.base - request.base % PGSIZE) % PGSIZE == 0;
      NoAlignedBetween(other.base, request.base);
      EndAligned(other);
      EndAligned(r);
      NoAlignedAfter(request.base + request.size, r.base + r.size, other.base + other.size);
    }
  }

  lemma NoAlignedBetween(a: nat, n: nat)
    requires a % PGSIZE == 0 && a <= n
    ensures a <= n - n % PGSIZE
  {
  }

  lemma NoAlignedAfter(n: nat, up: nat, a: nat)
    requires up % PGSIZE == 0 && a % PGSIZE == 0 && n <= up < n + PGSIZE && n <= a
    ensures up <= a
  {
  }

  /** A request whose sum wraps can pass as one page. */
  lemma AlignmentCanShrink()
    ensures PageAlign(Region(4095, U64 - 1)) == Region(0, PGSIZE)
    ensures PageAlign(Region(4095, U64 - 1)).Valid() && !Within(Region(4095, U64 - 1), Region(0, PGSIZE))
  {
    assert (U64 - 1 + 4095) % U64 == 4094;
  }
}
