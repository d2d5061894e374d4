/** The promises of the whole allocator, over every run. */
module Safety {
  import opened BlockMath
  import opened Seqs
  import opened PageLists
  import opened Machine
  import A = Accounting
  import M = Manager
  import P = ManagerProofs
  import C = Capacity
  import D = PageDict
  import I = InternalPages
  import opened System
  import opened SystemProofs

  ghost predicate CanRun(w: World, x: Sys, acts: seq<Act>)
    requires w.z.Valid()
    decreases |acts|
  {
    acts == [] || (Can(w, x, acts[0]) && CanRun(w, Next(w, x, acts[0]), acts[1..]))
  }

  ghost function After(w: World, x: Sys, acts: seq<Act>): Sys
    requires w.z.Valid() && CanRun(w, x, acts)
    decreases |acts|
  {
    if acts == [] then x else After(w, Next(w, x, acts[0]), acts[1..])
  }

  ghost predicate NoHazard(w: World, x: Sys, acts: seq<Act>)
    requires w.z.Valid() && CanRun(w, x, acts)
    decreases |acts|
  {
    acts == [] || (!Hazard(w, x, acts[0]) && NoHazard(w, Next(w, x, acts[0]), acts[1..]))
  }

  ghost predicate AlwaysInv(w: World, x: Sys, acts: seq<Act>)
    requires w.z.Valid() && CanRun(w, x, acts)
    decreases |acts|
  {
    SysInv(w, x) && (acts == [] || AlwaysInv(w, Next(w, x, acts[0]), acts[1..]))
  }

  lemma AlwaysStartsInv(w: World, x: Sys, acts: seq<Act>)
    requires w.z.Valid() && CanRun(w, x, acts)
    ensures AlwaysInv(w, x, acts) ==> SysInv(w, x)
  {
  }

  /** Along a run the system's invariant holds throughout if and only if no step is a hazard. */
  lemma {:induction false} RunInvIff(w: World, x: Sys, acts: seq<Act>)
    requires w.z.Valid() && SysInv(w, x) && CanRun(w, x, acts)
    ensures AlwaysInv(w, x, acts) <==> NoHazard(w, x, acts)
    decreases |acts|
  {
    hide SysInv, Can, Hazard, Next;
    if acts != [] {
      StepSafeIff(w, x, acts[0]);
      if !Hazard(w, x, acts[0]) {
        RunInvIff(w, Next(w, x, acts[0]), acts[1..]);
      } else {
        AlwaysStartsInv(w, Next(w, x, acts[0]), acts[1..]);
      }
    }
  }

  lemma {:induction false} RunKeepsInv(w: World, x: Sys, acts: seq<Act>)
    requires w.z.Valid() && SysInv(w, x) && CanRun(w, x, acts) && NoHazard(w, x, acts)
    ensures SysInv(w, After(w, x, acts))
    decreases |acts|
  {
    hide SysInv, Can, Hazard, Next;
    if acts != [] {
      StepSafeIff(w, x, acts[0]);
      RunKeepsInv(w, Next(w, x, acts[0]), acts[1..]);
    }
  }

  // ---- what safety means -------------------------------------------------------------------------

  /** Block b lies wholly inside one page, which the manager has and which every rank has mapped. */
  ghost predicate WellPlaced(w: World, x: Sys, b: int)
    requires w.z.Valid()
  {
    && b >= 0 && PageOf(w.z, b) >= 0
    && PageOf(w.z, b) * w.z.page <= b * w.z.block && (b + 1) * w.z.block <= (PageOf(w.z, b) + 1) * w.z.page
    && PageOf(w.z, b) in x.s.inUse
    && forall r :: 0 <= r < |x.s.mapped| ==> PageOf(w.z, b) in x.s.mapped[r]
  }

  /** No block is listed twice, and blocks of different owners differ. */
  ghost predicate OwnersDiffer(x: Sys) {
    && (!OwnPhase(x.pc) ==> NoDup(x.m.reserved) && x.held !! Elems(x.m.reserved))
    && (x.pc.Serving? ==> NoDup(x.pc.got) && Elems(x.pc.got) !! x.held && Elems(x.pc.got) !! Elems(x.m.reserved))
  }

  /** Different outstanding blocks share no byte. */
  ghost predicate BytesApart(w: World, x: Sys)
    requires w.z.Valid()
  {
    forall a, b :: a in Outstanding(x) && b in Outstanding(x) && a < b ==> (a + 1) * w.z.block <= b * w.z.block
  }

  ghost predicate Safe(w: World, x: Sys)
    requires w.z.Valid()
  {
    OwnersDiffer(x) && BytesApart(w, x) && forall b :: b in Outstanding(x) ==> WellPlaced(w, x, b)
  }

  lemma UsedIsMapped(s: State, p: PageId)
    requires Inv(s) && p in s.inUse
    ensures forall r :: 0 <= r < |s.mapped| ==> p in s.mapped[r]
  {
  }

  lemma OutstandingPlaced(w: World, x: Sys, b: int)
    requires w.z.Valid() && SysInv(w, x) && b in Outstanding(x)
    ensures WellPlaced(w, x, b)
  {
    hide Inv, P.Allocated, P.Owned, P.PagesPlaced, Owns, PageOf;
    assert b in P.Allocated(x.m);
    P.AllocatedOwned(w.z, x.m, b);
    OwnsIffInside(w.z, PageOf(w.z, b), b);
    UsedIsMapped(x.s, PageOf(w.z, b));
  }

  lemma OutstandingApart(w: World, x: Sys)
    requires w.z.Valid()
    ensures BytesApart(w, x)
  {
    hide Outstanding;
    forall a, b | a in Outstanding(x) && b in Outstanding(x) && a < b ensures (a + 1) * w.z.block <= b * w.z.block {
      BlockBytesDisjoint(w.z, a, b);
    }
  }

  lemma OwnersDo(w: World, x: Sys)
    requires w.z.Valid() && SysInv(w, x)
    ensures OwnersDiffer(x)
  {
    hide Inv, P.Allocated, P.MgrOk;
  }

  lemma InvIsSafe(w: World, x: Sys)
    requires w.z.Valid() && SysInv(w, x)
    ensures Safe(w, x)
  {
    hide SysInv, OwnersDiffer, BytesApart, WellPlaced, Outstanding;
    forall b | b in Outstanding(x) ensures WellPlaced(w, x, b) {
      OutstandingPlaced(w, x, b);
    }
    OutstandingApart(w, x);
    OwnersDo(w, x);
  }

  /** The top-level promise: from a fresh allocator, whatever the calls, the worker and the ranks do, short of
      the two hazards, no two outstanding blocks overlap and each lies in one page in use, mapped on every rank. */
  lemma EveryRunIsSafe(w: World, numPages: nat, worldSize: nat, acts: seq<Act>)
    requires w.z.Valid() && CanRun(w, Start(w, numPages, worldSize), acts)
    requires NoHazard(w, Start(w, numPages, worldSize), acts)
    ensures Safe(w, After(w, Start(w, numPages, worldSize), acts))
  {
    StartOk(w, numPages, worldSize);
    RunKeepsInv(w, Start(w, numPages, worldSize), acts);
    InvIsSafe(w, After(w, Start(w, numPages, worldSize), acts));
  }

  /** The manager's bookkeeping: the counter is the free blocks of the available pages, no page is in both
      dictionaries, together they hold exactly the pages in use, and only available pages have free blocks. */
  ghost predicate Booked(x: Sys) {
    && x.m.numAvail == D.SumFree(x.m.avail) && D.Ids(x.m.avail) !! D.Ids(x.m.full)
    && D.Ids(x.m.avail) + D.Ids(x.m.full) == x.s.inUse
    && (forall p :: p in x.m.avail ==> p.free != []) && (forall p :: p in x.m.full ==> p.free == [])
  }

  lemma {:induction false} PagesAsFiled(d: seq<I.Page>, full: bool)
    requires D.DictOk(d, full)
    ensures forall p :: p in d ==> (p.free == [] <==> full)
  {
    if d != [] {
      PagesAsFiled(d[..|d| - 1], full);
      assert d == d[..|d| - 1] + [d[|d| - 1]];
    }
  }

  /** The bookkeeping is right in every state any run reaches, in the middle of calls as well. */
  lemma EveryRunIsBooked(w: World, numPages: nat, worldSize: nat, acts: seq<Act>)
    requires w.z.Valid() && CanRun(w, Start(w, numPages, worldSize), acts)
    requires NoHazard(w, Start(w, numPages, worldSize), acts)
    ensures Booked(After(w, Start(w, numPages, worldSize), acts))
  {
    StartOk(w, numPages, worldSize);
    RunKeepsInv(w, Start(w, numPages, worldSize), acts);
    var x := After(w, Start(w, numPages, worldSize), acts);
    hide CanRun, After, Inv, P.PagesPlaced, Books, D.DictOk, D.Ids;
    PagesAsFiled(x.m.avail, false);
    PagesAsFiled(x.m.full, true);
  }

  /** Why a failing free_reserved is a hazard, whether it raises in free_pages or in the retried shrink: the very
      next _alloc, of as many blocks as are listed as reserved, is served with blocks that are free, or lie in a
      page that was given up. */
  lemma StaleReserveHandedOut(w: World, x: Sys, raise: Act, freePages: int)
    requires w.z.Valid() && SysInv(w, x) && Can(w, x, raise) && Hazard(w, x, raise)
    requires raise == ReleaseAnswered || raise == ShrinkAnswered
    requires 0 <= freePages <= Next(w, x, raise).s.lists.numFree
    ensures var x1 := Next(w, x, raise); var a := StartAlloc(|x.m.reserved|, freePages, false);
      && Can(w, x1, a) && var x2 := Next(w, x1, a);
         Can(w, x2, FinishAlloc) && Next(w, x2, FinishAlloc).held == x.held + Elems(x.m.reserved)
         && x.m.reserved != [] && Elems(x.m.reserved) !! P.Allocated(Next(w, x2, FinishAlloc).m)
  {
    RaisedKeepsFields(w, x, raise);
    StaleListed(w, x, raise);
    P.NoneHeld(w.z, x.m);
    hide SysInv, Hazard, Next, Can, P.MgrOk, P.Allocated;
    AllListedTaken(w, Next(w, x, raise), freePages);
    MgrSame(w, x.m, x.m.(reserved := []));
  }

  /** A request for as many blocks as are reserved takes exactly those. */
  lemma AllListedTaken(w: World, x: Sys, freePages: int)
    requires w.z.Valid() && x.pc.AtRest? && x.m.numAvail >= 0 && 0 <= freePages <= x.s.lists.numFree
    ensures var a := StartAlloc(|x.m.reserved|, freePages, false);
      && Can(w, x, a) && var x2 := Next(w, x, a);
         Can(w, x2, FinishAlloc) && Next(w, x2, FinishAlloc).held == x.held + Elems(x.m.reserved)
         && Next(w, x2, FinishAlloc).m == x.m.(reserved := [])
  {
    MulMonotone(0, freePages, BlocksPerPage(w.z));
    assert x.m.reserved[..|x.m.reserved|] == x.m.reserved && x.m.reserved[|x.m.reserved|..] == [];
  }

  lemma RaisedKeepsFields(w: World, x: Sys, raise: Act)
    requires w.z.Valid() && Can(w, x, raise) && Hazard(w, x, raise)
    requires raise == ReleaseAnswered || raise == ShrinkAnswered
    ensures var x1 := Next(w, x, raise); x1.m == x.m && x1.held == x.held && x1.pc == AtRest
  {
    hide Clashes, M.ShrinkDue, ShrinkPages;
  }

  lemma StaleListed(w: World, x: Sys, raise: Act)
    requires w.z.Valid() && SysInv(w, x) && Hazard(w, x, raise)
    requires raise == ReleaseAnswered || raise == ShrinkAnswered
    ensures P.MgrOk(w.z, x.m) && x.m.reserved != [] && Elems(x.m.reserved) !! P.Allocated(x.m)
  {
    hide Inv, P.MgrOk, P.Allocated, P.Owned, Clashes;
  }

  // ---- the shrink protocol -------------------------------------------------------------------------

  /** Only a page handed out by alloc_page adds to the pages in use. */
  lemma OnlyAllocAdds(w: World, x: Sys, a: Act)
    requires w.z.Valid() && Can(w, x, a) && !a.RequestPage? && !a.PageAnswered? && !a.Background?
    ensures Next(w, x, a).s.inUse <= x.s.inUse
  {
    hide M.FreeGroups, M.ServeHeld, M.TakeReserved, M.AvailableSize, M.Enumerates, M.ShrinkDue, BeginResize,
      FinishResize, FreePages, BeginTrim, Enabled, ShrinkPages;
  }

  lemma NoRequestWhileShrinking(w: World, x: Sys, a: Act)
    requires w.z.Valid() && SysInv(w, x) && Can(w, x, a) && x.m.inShrink
    ensures !a.RequestPage? && !a.PageAnswered?
  {
    hide P.Owned, P.Allocated, P.MgrOk, Inv, Enabled;
    P.NoneHeld(w.z, x.m);
  }

  /** While a shrink is pending no step makes the manager hold more pages: no request reaches alloc_page. */
  lemma ShrinkNeverGrows(w: World, x: Sys, a: Act)
    requires w.z.Valid() && SysInv(w, x) && Can(w, x, a) && x.m.inShrink
    ensures !a.RequestPage? && !a.PageAnswered? && Next(w, x, a).s.inUse <= x.s.inUse
  {
    NoRequestWhileShrinking(w, x, a);
    if a.Background? {
      OpenInv(w, x);
      hide SysInv, Inv, Enabled, Step;
      BackgroundStep(w.c, x.s, a.e);
    } else {
      hide SysInv, Can, Next;
      OnlyAllocAdds(w, x, a);
    }
  }

  ghost predicate ShrinkPending(w: World, x: Sys, acts: seq<Act>)
    requires w.z.Valid() && CanRun(w, x, acts)
    decreases |acts|
  {
    x.m.inShrink && (acts == [] || ShrinkPending(w, Next(w, x, acts[0]), acts[1..]))
  }

  /** From a refused resize until the shrink is over, the pages in use only ever go down. */
  lemma {:induction false} ShrinkProtocol(w: World, x: Sys, acts: seq<Act>)
    requires w.z.Valid() && SysInv(w, x) && CanRun(w, x, acts) && NoHazard(w, x, acts)
    requires ShrinkPending(w, x, acts)
    ensures After(w, x, acts).s.inUse <= x.s.inUse
    decreases |acts|
  {
    hide SysInv, Can, Hazard, Next;
    if acts != [] {
      StepSafeIff(w, x, acts[0]);
      ShrinkNeverGrows(w, x, acts[0]);
      ShrinkProtocol(w, Next(w, x, acts[0]), acts[1..]);
    }
  }

  // ---- bookkeeping ---------------------------------------------------------------------------------

  /** Between calls, when the block size divides the page size, the count behind the shrink test is the blocks
      callers hold, those a failed _alloc dropped, and twice the reserved ones. */
  lemma NumAllocedMeaning(w: World, x: Sys)
    requires w.z.Valid() && w.z.page % w.z.block == 0 && SysInv(w, x) && x.pc.AtRest?
    ensures M.NumAlloced(w.z, x.m) == |x.held| + |x.dropped| + 2 * |x.m.reserved|
  {
    hide P.MgrOk, P.Allocated, M.NumAlloced, Inv;
    C.NumAllocedCountsReservedTwice(w.z, x.m);
    NoDupCard(x.m.reserved);
    A.Union(x.held, Elems(x.m.reserved));
    A.Union(x.held + Elems(x.m.reserved), x.dropped);
  }

  // ---- the capacity check against the real allocator -------------------------------------------------

  lemma SupplyIsNew(s: State) returns (ids: seq<nat>)
    requires Inv(s) && Covered(s) && s.flights == map[] && s.lost == {}
    ensures ids == Supply(s.lists, |s.lists.free|) && |ids| == s.lists.numFree && P.NewPages(s.inUse, ids)
  {
    A.FreeCountMeaning(s);
    assert A.Away(s) == {};
    var supply := Supply(s.lists, |s.lists.free|);
    assert s.lists.free[..|s.lists.free|] == s.lists.free;
    forall i | 0 <= i < |supply| ensures supply[i] >= 0 && supply[i] !in s.inUse {
      assert At(s, Reserved, supply[i]) || At(s, Free, supply[i]);
      assert Somewhere(s, supply[i]) && !At(s, InUse, supply[i]);
    }
    forall p | p in s.lists.reserved ensures p !in s.lists.free {
      assert At(s, Reserved, p) && !At(s, Free, p);
    }
    NoDupConcat(s.lists.reserved, s.lists.free);
    ids := supply;
    P.AllNew(s.inUse, ids);
  }

  /** With nobody else at work, nothing lost and block sizes that divide the page size, the check is sound
      for the pages the allocator really has: if it passes, _alloc returns the blocks asked for. */
  lemma CapacityCheckHolds(w: World, x: Sys, need: nat, freePages: int) returns (ids: seq<nat>)
    requires w.z.Valid() && SysInv(w, x) && Covered(x.s) && x.pc.AtRest? && x.s.flights == map[] && x.s.lost == {}
    requires w.z.page % w.z.block == 0 && freePages <= x.s.lists.numFree
    requires M.AvailableSize(w.z, x.m, freePages) >= need
    ensures ids == Supply(x.s.lists, |x.s.lists.free|)
    ensures M.Alloc(w.z, x.m, need, freePages, ids).1.Blocks?
    ensures |M.Alloc(w.z, x.m, need, freePages, ids).1.blocks| == need
  {
    ids := SupplyIsNew(x.s);
    hide P.MgrOk, P.Owned, P.Allocated, Inv, M.Alloc, M.AvailableSize;
    C.CapacityCheckSound(w.z, x.m, need, freePages, ids);
  }

  /** Then it serves a request exactly when the blocks exist: those reserved, those free in its own pages and,
      unless a shrink is pending, those of all free pages. */
  lemma ServesWhatIsThere(w: World, x: Sys, need: nat) returns (ids: seq<nat>)
    requires w.z.Valid() && SysInv(w, x) && Covered(x.s) && x.pc.AtRest? && x.s.flights == map[] && x.s.lost == {}
    ensures ids == Supply(x.s.lists, |x.s.lists.free|)
    ensures M.Alloc(w.z, x.m, need, x.s.lists.numFree, ids).1.Blocks?
       <==> need <= |x.m.reserved| + D.SumFree(x.m.avail) + if x.m.inShrink then 0 else P.Usable(w.z, ids)
    ensures w.z.page % w.z.block == 0 ==> !M.Alloc(w.z, x.m, need, x.s.lists.numFree, ids).1.Raised?
  {
    ids := SupplyIsNew(x.s);
    hide P.MgrOk, P.Owned, P.Allocated, Inv, M.Alloc, P.Usable, D.SumFree;
    C.ServesExactly(w.z, x.m, need, ids);
  }

  // ---- how a request for a page ends ---------------------------------------------------------------

  lemma RequestEnds(w: World, x: Sys)
    requires w.z.Valid() && SysInv(w, x) && Can(w, x, RequestPage)
    ensures var a := TryAlloc(w.c, x.s.lists).1; var y := Next(w, x, RequestPage);
      && (y == x <==> a == Wait) && (y.pc.AtRest? <==> a == NoneLeft || a == Inconsistent)
  {
    hide P.MgrOk, P.Owned, P.Allocated, Books;
    var l := TryAlloc(w.c, x.s.lists).0;
    if x.s.lists.reserved != [] {
      ReadyServes(w, x);
    } else if x.s.lists.free != [] {
      assert Next(w, x, RequestPage).pc.asking;
    }
  }

  lemma ReadyServes(w: World, x: Sys)
    requires w.z.Valid() && SysInv(w, x) && Can(w, x, RequestPage) && x.s.lists.reserved != []
    ensures Next(w, x, RequestPage) != x && Next(w, x, RequestPage).pc.Serving?
  {
    hide P.MgrOk, P.Owned, P.Allocated, Books;
    var p := x.s.lists.reserved[0];
    assert At(x.s, Reserved, p) && Somewhere(x.s, p) && !At(x.s, InUse, p);
    P.NewIsTurn(w.z, x.m, p, x.pc.need);
    var s := StepAllocTry(w.c, x.s, User);
    assert s.lists.numFree == x.s.lists.numFree - 1;
    hide M.ServeNew, Inv;
  }

  /** In every state a run without hazards reaches, the loop of _alloc that asks for a page waits exactly when pool
      and free list are empty, not every page is charged to a caller and there is a worker; it raises exactly when
      they are empty and every page is charged to a caller or there is no worker. */
  lemma RequestExact(w: World, numPages: nat, worldSize: nat, acts: seq<Act>)
    requires w.z.Valid() && CanRun(w, Start(w, numPages, worldSize), acts)
    requires NoHazard(w, Start(w, numPages, worldSize), acts)
    requires Can(w, After(w, Start(w, numPages, worldSize), acts), RequestPage)
    ensures var x := After(w, Start(w, numPages, worldSize), acts); var y := Next(w, x, RequestPage);
      var empty := x.s.lists.reserved == [] && x.s.lists.free == [];
      && (y == x <==> empty && x.s.lists.numTotal > A.ChargedPages(x.s) && w.c.prealloc)
      && (y.pc.AtRest? <==> empty && (x.s.lists.numTotal <= A.ChargedPages(x.s) || !w.c.prealloc))
  {
    StartOk(w, numPages, worldSize);
    hide SysInv, CanRun, After, Can, Next, NoHazard, Start;
    RunKeepsInv(w, Start(w, numPages, worldSize), acts);
    var x := After(w, Start(w, numPages, worldSize), acts);
    OpenInv(w, x);
    RequestEnds(w, x);
    A.AnswerExact(w.c, x.s);
  }

  /** So without a worker no caller waits for ever, and with one no caller is turned away while another thread still
      has a page to give back or one was lost. */
  lemma TurnedAwayOnlyWhenFull(w: World, numPages: nat, worldSize: nat, acts: seq<Act>)
    requires w.z.Valid() && CanRun(w, Start(w, numPages, worldSize), acts)
    requires NoHazard(w, Start(w, numPages, worldSize), acts)
    requires Can(w, After(w, Start(w, numPages, worldSize), acts), RequestPage)
    ensures var x := After(w, Start(w, numPages, worldSize), acts); var y := Next(w, x, RequestPage);
      && (!w.c.prealloc ==> y != x)
      && (w.c.prealloc && (A.Away(x.s) != {} || x.s.lost != {}) ==> !y.pc.AtRest?)
  {
    RequestExact(w, numPages, worldSize, acts);
    StartOk(w, numPages, worldSize);
    hide SysInv, CanRun, After, Can, Next, NoHazard, Start;
    RunKeepsInv(w, Start(w, numPages, worldSize), acts);
    var x := After(w, Start(w, numPages, worldSize), acts);
    OpenInv(w, x);
    A.FreeCountCovers(x.s);
    ChargedIs(x.s);
  }

  lemma ChargedIs(s: State)
    requires Inv(s)
    ensures s.lists.numTotal - s.lists.numFree == A.ChargedPages(s)
  {
  }
}
