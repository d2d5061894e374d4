/** Resizing by the manager with nobody else at work: what a resize leaves, and what becomes of a pending shrink. */
module Shrinking {
  import opened BlockMath
  import opened PageLists
  import opened Seqs
  import opened Machine
  import opened System
  import A = Accounting
  import CL = Calls
  import C = Capacity
  import K = KVCacheManagers
  import M = Manager
  import P = ManagerProofs
  import RZ = Resizing
  import S = Safety
  import SP = SystemProofs

  /** The pages asked for hold those in use and those lost. */
  ghost predicate FitsPages(s: State, pages: int) {
    pages >= |s.inUse| + |s.lost|
  }

  /** resize succeeds exactly when the new size fits; it then ends a pending shrink. A refusal starts one, or,
      exactly if blocks are still reserved, trips the assertion, which raises and changes nothing. */
  lemma ResizeCallExact(w: World, m: M.Mgr, s: State, newMemSize: nat)
    requires w.z.Valid() && Inv(s) && Covered(s) && s.flights == map[]
    ensures var pages := newMemSize / w.z.page; var fits := FitsPages(s, pages);
      var (m', l, reply) := K.ResizeCall(w.z, w.c, m, s.lists, newMemSize, true);
      && reply == (if fits then Done(true) else if m.reserved != [] then Raises else Done(false))
      && l.numTotal == (if fits then pages else s.lists.numTotal) && l.InUse() == s.lists.InUse()
      && m' == m.(inShrink := m'.inShrink, target := m'.target)
      && (fits ==> !m'.inShrink)
      && (!fits && m.reserved == [] ==> m'.inShrink && m'.target == newMemSize / w.z.block)
      && (!fits && m.reserved != [] ==> m' == m)
  {
    Quotient(newMemSize, w.z.page);
    RZ.ResizeWholeExact(w.c, s, newMemSize / w.z.page);
    hide Inv, Covered, ResizeWhole;
  }

  /** free retries a pending shrink once few enough blocks are allocated. The retry succeeds exactly when the
      pages for those blocks hold the pages in use and the lost ones; either way the shrink is over, and after a
      refusal the total is what it was. */
  lemma RetryExact(w: World, x: Sys) returns (acts: seq<Act>)
    requires w.z.Valid() && SP.SysInv(w, x) && Covered(x.s) && x.pc.Checking? && x.s.flights == map[]
    requires M.ShrinkDue(w.z, x.m)
    ensures S.CanRun(w, x, acts)
    ensures var y := S.After(w, x, acts); var pages := ShrinkPages(w, x.m); var fits := FitsPages(x.s, pages);
      && ResizeWhole(w.c, x.s.lists, pages, true).1 == Done(fits)
      && y.pc == AtRest && !y.m.inShrink && y.s.inUse == x.s.inUse && y.held == x.held
      && y.s.lists.numTotal == (if fits then pages else x.s.lists.numTotal)
      && (y.s.lists.numTotal == pages <==> fits)
  {
    SP.OpenInv(w, x);
    RZ.ResizeWholeExact(w.c, x.s, ShrinkPages(w, x.m));
    TotalHolds(x.s);
    acts := CL.LoneCheck(w, x);
    hide SP.SysInv, Inv, Covered, ResizeWhole, ShrinkPages, Clashes, S.CanRun, S.After, S.NoHazard;
  }

  // ---- when a pending shrink is retried ------------------------------------------------------------

  /** Blocks the shrink test counts: those callers have or a failed _alloc dropped, and the reserved ones twice;
      but free_reserved runs the test before it clears its list, when the blocks it has just freed are still
      counted once. */
  ghost function CountedBlocks(x: Sys): nat {
    |x.held| + |x.dropped| + if SP.OwnPhase(x.pc) then |x.m.reserved| else 2 * |x.m.reserved|
  }

  lemma CountIs(w: World, x: Sys)
    requires w.z.Valid() && w.z.page % w.z.block == 0 && SP.SysInv(w, x) && x.pc.Checking?
    ensures M.NumAlloced(w.z, x.m) == CountedBlocks(x)
  {
    C.NumAllocedCountsReservedTwice(w.z, x.m);
    CountedApart(w, x);
    hide SP.SysInv, P.MgrOk, P.Allocated, M.NumAlloced;
  }

  lemma CountedApart(w: World, x: Sys)
    requires w.z.Valid() && SP.SysInv(w, x) && x.pc.Checking?
    ensures P.MgrOk(w.z, x.m) && |P.Allocated(x.m)| + |x.m.reserved| == CountedBlocks(x)
  {
    hide Inv, P.MgrOk, P.Allocated, P.Owned;
    if SP.OwnPhase(x.pc) {
      A.Union(x.held, x.dropped);
    } else {
      NoDupCard(x.m.reserved);
      A.Union(x.held, Elems(x.m.reserved));
      A.Union(x.held + Elems(x.m.reserved), x.dropped);
    }
  }

  /** free's shrink test, whatever came before: the pending shrink is tried or over after it exactly when the blocks
      counted are no more than the target, and otherwise stays pending with nothing done. */
  lemma RetryDueIff(w: World, x: Sys)
    requires w.z.Valid() && w.z.page % w.z.block == 0 && SP.SysInv(w, x) && Can(w, x, CheckShrink)
    ensures M.ShrinkDue(w.z, x.m) <==> x.m.inShrink && CountedBlocks(x) <= x.m.target
    ensures var y := Next(w, x, CheckShrink);
      (y.pc.AtRest? && y.m.inShrink) <==> x.m.inShrink && CountedBlocks(x) > x.m.target
    ensures x.m.inShrink && CountedBlocks(x) > x.m.target ==> Next(w, x, CheckShrink).s == x.s
  {
    MayCheck(w, x);
    CountIs(w, x);
    CheckEnds(w, x);
    hide SP.SysInv, M.NumAlloced, Can, Next, CountedBlocks;
  }

  lemma MayCheck(w: World, x: Sys)
    requires w.z.Valid() && Can(w, x, CheckShrink)
    ensures x.pc.Checking?
  {
  }

  lemma CheckEnds(w: World, x: Sys)
    requires w.z.Valid() && Can(w, x, CheckShrink)
    ensures var y := Next(w, x, CheckShrink); var due := M.ShrinkDue(w.z, x.m);
      && ((y.pc.AtRest? && y.m.inShrink) <==> x.m.inShrink && !due) && (!due ==> y.s == x.s)
  {
    assert Next(w, x, CheckShrink) == DoCheckShrink(w, x);
    hide M.NumAlloced, ShrinkPages, StepResizeBegin, Can, Next;
  }

  /** When the block size divides the page size, the retry asks for just the pages that the refused resize asked for;
      otherwise for no more. */
  lemma RetryAsksTheSame(w: World, m: M.Mgr, newMemSize: nat)
    requires w.z.Valid()
    ensures var pages := ShrinkPages(w, M.AfterResize(w.z, m, newMemSize, false));
      && (m.reserved == [] ==> pages <= newMemSize / w.z.page)
      && (m.reserved == [] && w.z.page % w.z.block == 0 ==> pages == newMemSize / w.z.page)
  {
    if m.reserved == [] {
      RoundedDown(newMemSize, w.z.block, w.z.page);
    }
  }

  lemma RoundedDown(n: nat, block: nat, page: nat)
    requires block > 0 && page > 0
    ensures 0 <= (n / block) * block <= n && (n / block) * block / page <= n / page
    ensures page % block == 0 ==> (n / block) * block / page == n / page
  {
    Quotient(n, block);
    var m, q := (n / block) * block, n / page;
    Quotient(n, page);
    MulMonotone(0, n / block, block);
    FloorAbove(m, page, q + 1);
    assert (q + 1) * page == q * page + page;
    if page % block == 0 {
      var k := page / block;
      Reassociate(q, k, block);
      assert q * page == (q * k) * block;
      FloorAbove(n, block, q * k);
      MulMonotone(q * k, n / block, block);
      FloorAbove(m, page, q);
    }
  }

  lemma PendingAfter(w: World, x1: Sys, y: Sys, l: Lists, own: bool)
    requires w.z.Valid() && w.z.page % w.z.block == 0 && SP.SysInv(w, x1) && x1.pc == Checking(own)
    requires CL.Rested(x1, y, l, CL.AfterCheck(w, x1.m, own)) && (!M.ShrinkDue(w.z, x1.m) ==> l == x1.s.lists)
    ensures y.m.inShrink <==> x1.m.inShrink && CountedBlocks(x1) > x1.m.target
    ensures y.m.inShrink ==> y.m.target == x1.m.target && y.s.lists == x1.s.lists
    ensures y.m.reserved == (if own then [] else x1.m.reserved)
    ensures CountedBlocks(x1) == |y.held| + |y.dropped| + if own then |x1.m.reserved| else 2 * |y.m.reserved|
  {
    CountIs(w, x1);
    hide SP.SysInv, M.NumAlloced;
  }

  lemma FreedKeeps(w: World, x: Sys, x1: Sys, indices: seq<int>, order: seq<int>, own: bool)
    requires w.z.Valid() && CL.Freed(w, x, x1, indices, order, own)
    ensures x1.m.inShrink == x.m.inShrink && x1.m.target == x.m.target && x1.m.reserved == x.m.reserved
    ensures x1.s.lists.numTotal == x.s.lists.numTotal
  {
    CL.SameTarget(w, x.m, indices, order);
    hide M.FreeGroups;
  }

  /** What a whole free by a lone caller does to a pending shrink: it is still pending, with its target, exactly when
      the blocks that count are more than the target. After free_reserved the blocks just freed count once more. */
  lemma FreeKeepsPendingIff(w: World, x: Sys, a: Act, indices: seq<int>, order: seq<int>, own: bool)
    returns (acts: seq<Act>)
    requires w.z.Valid() && w.z.page % w.z.block == 0 && CL.FreeStarts(w, x, a, indices, order, own)
    ensures S.CanRun(w, x, acts) && CL.FreeDone(w, x, S.After(w, x, acts), indices, order, own)
    ensures var y := S.After(w, x, acts);
      var count := |y.held| + |y.dropped| + if own then |x.m.reserved| else 2 * |y.m.reserved|;
      && (y.m.inShrink <==> x.m.inShrink && count > x.m.target)
      && (y.m.inShrink ==> y.m.target == x.m.target && y.s.lists.numTotal == x.s.lists.numTotal)
      && y.m.reserved == (if own then [] else x.m.reserved)
  {
    var first, rest := CL.LoneFreeInTwo(w, x, a, indices, order, own);
    var x1 := S.After(w, x, first);
    hide SP.SysInv, S.CanRun, S.NoHazard, S.After, M.ShrinkDue, CL.FreeStarts, CL.Freed, CL.FreeDone, CL.Rested, ResizeWhole,
      ShrinkPages, CL.AfterCheck, CountedBlocks;
    FreedKeeps(w, x, x1, indices, order, own);
    var l := if M.ShrinkDue(w.z, x1.m) then ResizeWhole(w.c, x1.s.lists, ShrinkPages(w, x1.m), true).0 else x1.s.lists;
    PendingAfter(w, x1, S.After(w, x1, rest), l, own);
    acts := first + rest;
  }

  lemma TotalHolds(s: State)
    requires Inv(s) && Covered(s)
    ensures FitsPages(s, s.lists.numTotal)
  {
    A.FreeCountMeaning(s);
  }
}
