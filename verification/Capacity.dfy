/** The manager's capacity check and counters: when a check that passes can be relied on, and what the
    numbers it is made of count. */
module Capacity {
  import opened BlockMath
  import opened InternalPages
  import opened PageDict
  import opened Manager
  import opened ManagerProofs
  import opened Seqs

  // ---- blocks of pages to come ---------------------------------------------------------------

  lemma OpenedSize(z: Sizes, id: nat)
    requires z.Valid()
    ensures BlocksPerPage(z) - 1 <= |Opened(z, id).free| <= BlocksPerPage(z)
    ensures z.page % z.block == 0 ==> |Opened(z, id).free| == BlocksPerPage(z)
  {
    RangeSize(z, id);
    if z.page % z.block == 0 { RangeSizeDivisible(z, id); }
  }

  /** The estimate the capacity check uses, pages times floor(page / block), exceeds the blocks those pages
      really hold by at most one block a page, and is exact when the block size divides the page size. */
  lemma {:induction false} EstimateGap(z: Sizes, ids: seq<nat>)
    requires z.Valid()
    ensures 0 <= |ids| * BlocksPerPage(z) - Usable(z, ids) <= |ids|
    ensures z.page % z.block == 0 ==> Usable(z, ids) == |ids| * BlocksPerPage(z)
  {
    if ids != [] {
      hide BlocksPerPage, Opened;
      OpenedSize(z, ids[0]);
      EstimateGap(z, ids[1..]);
      Distribute(|ids[1..]|, 1, BlocksPerPage(z));
    }
  }

  // ---- _alloc ----------------------------------------------------------------------------------

  /** Reserved blocks are distinct and allocated: they wait for their caller. */
  ghost predicate ReservedOk(m: Mgr) {
    NoDup(m.reserved) && Elems(m.reserved) <= Allocated(m)
  }

  lemma TakenReserved(m: Mgr, need: nat)
    requires NoDup(m.reserved)
    ensures var (m1, taken) := TakeReserved(m, need);
      && NoDup(taken) && NoDup(m1.reserved) && Elems(taken) !! Elems(m1.reserved)
      && Elems(m.reserved) == Elems(taken) + Elems(m1.reserved)
      && |taken| == (if |m.reserved| < need then |m.reserved| else need) && |m1.reserved| == |m.reserved| - |taken|
      && m1 == m.(reserved := m1.reserved)
  {
    var k := if |m.reserved| < need then |m.reserved| else need;
    NoDupSplit(m.reserved, k);
    assert Elems(m.reserved) == Elems(m.reserved[..k]) + Elems(m.reserved[k..]);
    forall b | b in Elems(m.reserved[..k]) ensures b !in Elems(m.reserved[k..]) {
      assert b in m.reserved[..k];
    }
  }

  /** What the capacity check counts: the reserved blocks, the free ones of the pages held, and, unless a shrink is
      pending, floor(page / block) for every free page reported. */
  ghost function Estimate(z: Sizes, m: Mgr, freePages: int): int
    requires z.Valid()
  {
    |m.reserved| + SumFree(m.avail) + if m.inShrink then 0 else freePages * (z.page / z.block)
  }

  lemma EstimateIsCheck(z: Sizes, m: Mgr, freePages: int)
    requires z.Valid() && MgrOk(z, m)
    ensures AvailableSize(z, m, freePages) == Estimate(z, m, freePages)
  {
    hide DictsOk, PagesPlaced;
  }

  lemma AllocCases(z: Sizes, m: Mgr, need: nat, freePages: int, supply: seq<nat>)
    requires z.Valid() && MgrOk(z, m) && ReservedOk(m) && NewPages(Owned(m), supply)
    ensures var (m', r) := Alloc(z, m, need, freePages, supply);
      && (r.Unavailable? <==> AvailableSize(z, m, freePages) < need)
      && (r.Blocks? <==> AvailableSize(z, m, freePages) >= need
                         && need <= |m.reserved| + m.numAvail + Usable(z, supply))
      && (r.Blocks? ==> |r.blocks| == need && NoDup(r.blocks)
                        && forall b :: b in r.blocks ==> b in m.reserved || b !in Allocated(m))
      && MgrOk(z, m') && Owned(m) <= Owned(m') && ReservedOk(m')
      && (r.Blocks? ==> Elems(r.blocks) !! Elems(m'.reserved) && Elems(r.blocks) <= Allocated(m'))
  {
    hide MgrOk, Allocated, Owned, Usable, AvailableSize, AllocLoop, SameRest;
    var (m1, taken) := TakeReserved(m, need);
    TakenReserved(m, need);
    SameBooks(z, m, m1);
    NoneHeld(z, m1);
    var o := AllocLoop(z, m1, need - |taken|, supply);
    AllocLoopOk(z, m1, need - |taken|, supply);
    Joined(taken, o.blocks);
    KeptReserved(m1, o.m);
  }

  /** _alloc in full: it refuses exactly when the estimate is short; otherwise it returns `need` distinct
      blocks, each either reserved before or allocated to nobody, exactly when the reserved blocks, the held
      pages and the pages to come really hold that many, and raises when they do not. */
  lemma AllocExact(z: Sizes, m: Mgr, need: nat, freePages: int, supply: seq<nat>)
    requires z.Valid() && MgrOk(z, m) && ReservedOk(m) && NewPages(Owned(m), supply)
    ensures var (m', r) := Alloc(z, m, need, freePages, supply);
      && (r.Unavailable? <==> need > Estimate(z, m, freePages))
      && (r.Blocks? <==> need <= Estimate(z, m, freePages)
                         && need <= |m.reserved| + SumFree(m.avail) + Usable(z, supply))
      && (r.Blocks? ==> |r.blocks| == need && NoDup(r.blocks)
                        && forall b :: b in r.blocks ==> b in m.reserved || b !in Allocated(m))
      && MgrOk(z, m') && Owned(m) <= Owned(m') && ReservedOk(m')
      && (r.Blocks? ==> Elems(r.blocks) !! Elems(m'.reserved) && Elems(r.blocks) <= Allocated(m'))
  {
    EstimateIsCheck(z, m, freePages);
    CountedFree(z, m);
    AllocCases(z, m, need, freePages, supply);
    hide MgrOk, Allocated, Owned, Usable, AvailableSize, Alloc, Estimate, SumFree;
  }

  lemma CountedFree(z: Sizes, m: Mgr)
    requires z.Valid() && MgrOk(z, m)
    ensures m.numAvail == SumFree(m.avail)
  {
    hide DictsOk, PagesPlaced;
  }

  /** When the pages reported are the pages to come, _alloc serves a request exactly when the blocks exist: those
      reserved, those free in pages held and, unless a shrink is pending, those of the pages to come. Under
      divisibility it refuses all others; without it the estimate may let a few through that then raise. */
  lemma ServesExactly(z: Sizes, m: Mgr, need: nat, supply: seq<nat>)
    requires z.Valid() && MgrOk(z, m) && ReservedOk(m) && NewPages(Owned(m), supply)
    ensures var r := Alloc(z, m, need, |supply|, supply).1;
      && (r.Blocks? <==> need <= |m.reserved| + SumFree(m.avail) + if m.inShrink then 0 else Usable(z, supply))
      && (r.Raised? ==> !m.inShrink && z.page % z.block != 0)
      && (z.page % z.block == 0 && !m.inShrink ==> Usable(z, supply) == |supply| * (z.page / z.block))
  {
    AllocExact(z, m, need, |supply|, supply);
    EstimateGap(z, supply);
    hide MgrOk, Allocated, Owned, Usable, AllocLoop, SumFree, Alloc;
  }

  lemma SameBooks(z: Sizes, m: Mgr, m1: Mgr)
    requires z.Valid() && m1 == m.(reserved := m1.reserved)
    ensures MgrOk(z, m1) <==> MgrOk(z, m)
    ensures Allocated(m1) == Allocated(m) && Owned(m1) == Owned(m)
  {
  }

  lemma KeptReserved(m: Mgr, m': Mgr)
    requires SameRest(m, m')
    ensures m'.reserved == m.reserved && m'.inShrink == m.inShrink
  {
  }

  /** When the block size divides the page size and the allocator can really supply the pages counted, a
      capacity check that passes is kept: _alloc returns exactly the blocks asked for. */
  lemma CapacityCheckSound(z: Sizes, m: Mgr, need: nat, freePages: int, supply: seq<nat>)
    requires z.Valid() && MgrOk(z, m) && ReservedOk(m) && NewPages(Owned(m), supply)
    requires z.page % z.block == 0 && (m.inShrink || freePages <= |supply|)
    requires AvailableSize(z, m, freePages) >= need
    ensures Alloc(z, m, need, freePages, supply).1.Blocks?
    ensures |Alloc(z, m, need, freePages, supply).1.blocks| == need
  {
    EstimateGap(z, supply);
    EstimateIsCheck(z, m, freePages);
    if !m.inShrink { MulMonotone(freePages, |supply|, BlocksPerPage(z)); }
    AllocExact(z, m, need, freePages, supply);
  }

  /** While a shrink is pending, a request that passes the check is served from reserved blocks and pages
      already held: the manager asks the page allocator for nothing, even if it has nothing to give. */
  lemma ShrinkServesFromHeld(z: Sizes, m: Mgr, need: nat, freePages: int, supply: seq<nat>)
    requires z.Valid() && MgrOk(z, m) && ReservedOk(m) && NewPages(Owned(m), supply) && m.inShrink
    requires AvailableSize(z, m, freePages) >= need
    ensures Alloc(z, m, need, freePages, supply).1.Blocks?
    ensures Owned(Alloc(z, m, need, freePages, supply).0) == Owned(m)
    ensures Alloc(z, m, need, freePages, supply).0.inShrink
  {
    var (m1, taken) := TakeReserved(m, need);
    TakenReserved(m, need);
    SameBooks(z, m, m1);
    hide MgrOk, Allocated, Owned, Usable, AllocLoop;
    AllocLoopOk(z, m1, need - |taken|, supply);
    assert supply[..0] == [];
  }

  /** A reservation that succeeds leaves max(old, k) blocks reserved. */
  lemma ReserveSize(z: Sizes, m: Mgr, need: nat, freePages: int, supply: seq<nat>)
    requires z.Valid() && MgrOk(z, m) && ReservedOk(m) && NewPages(Owned(m), supply)
    ensures var (m', r) := TryToReserve(z, m, need, freePages, supply);
      && (r.Blocks? ==> |m'.reserved| == (if |m.reserved| < need then need else |m.reserved|))
      && ReservedOk(m') && MgrOk(z, m')
  {
    hide MgrOk, Allocated, Owned, Usable, AvailableSize, AllocLoop, SameRest;
    AllocExact(z, m, need, freePages, supply);
    var (m1, r) := Alloc(z, m, need, freePages, supply);
    if r.Blocks? {
      var (m0, taken) := TakeReserved(m, need);
      TakenReserved(m, need);
      SameBooks(z, m, m0);
      AllocLoopOk(z, m0, need - |taken|, supply);
      KeptReserved(m0, m1);
      Joined(m1.reserved, r.blocks);
      SameBooks(z, m1, m1.(reserved := m1.reserved + r.blocks));
    }
  }

  // ---- the count of allocated blocks -----------------------------------------------------------

  lemma PageSize(z: Sizes, p: Page)
    requires z.Valid() && z.page % z.block == 0 && Sound(p) && Placed(z, p)
    ensures |HandedOut(p)| + |p.free| == BlocksPerPage(z)
  {
    RangeSizeDivisible(z, p.id);
    IntervalMembers(p.start, p.end);
    NoDupCard(Interval(p.start, p.end));
    NoDupCard(p.free);
    var all := Elems(Interval(p.start, p.end));
    forall b | b in Elems(p.free) ensures b in all {
      assert b in Interval(p.start, p.end);
    }
    assert all == (all - Elems(p.free)) + Elems(p.free);
    assert |all| == |HandedOut(p)| + |Elems(p.free)|;
  }

  lemma {:induction false} DictSize(z: Sizes, d: seq<Page>, full: bool)
    requires z.Valid() && z.page % z.block == 0 && DictOk(d, full) && AllPlaced(z, d)
    ensures |Handouts(d)| + SumFree(d) == |d| * BlocksPerPage(z)
  {
    if d != [] {
      var front, p := d[..|d| - 1], d[|d| - 1];
      DictSize(z, front, full);
      PageSize(z, p);
      forall b | b in HandedOut(p) ensures b !in Handouts(front) {
        HandedOutHere(z, p, b);
        if b in Handouts(front) { HandoutsOwned(z, front, b); }
      }
      hide HandedOut, BlocksPerPage;
      Distribute(|front|, 1, BlocksPerPage(z));
    }
  }

  lemma {:induction false} FullHasNoFree(d: seq<Page>)
    requires DictOk(d, true)
    ensures SumFree(d) == 0
  {
    if d != [] { FullHasNoFree(d[..|d| - 1]); }
  }

  /** _get_num_alloced_blocks adds the reserved blocks to a count that already has them: under divisibility
      it is the number of allocated blocks plus, once more, the reserved ones. */
  lemma NumAllocedCountsReservedTwice(z: Sizes, m: Mgr)
    requires z.Valid() && z.page % z.block == 0 && MgrOk(z, m)
    ensures NumAlloced(z, m) == |Allocated(m)| + |m.reserved|
  {
    DictSize(z, m.avail, false);
    DictSize(z, m.full, true);
    FullHasNoFree(m.full);
    forall b | b in Handouts(m.avail) ensures b !in Handouts(m.full) {
      HandoutsOwned(z, m.avail, b);
      if b in Handouts(m.full) { HandoutsOwned(z, m.full, b); }
    }
    hide Handouts, SumFree, Ids;
  }
}
