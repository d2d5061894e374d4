/** How much the manager holds: a page it has is one with an allocated block, or one whose block range is empty.
    Pages of the second kind are parked with the full ones and no free ever touches them. */
module Elastic {
  import opened BlockMath
  import opened InternalPages
  import opened PageDict
  import opened PageLists
  import opened Machine
  import opened Seqs
  import opened System
  import M = Manager
  import P = ManagerProofs
  import S = Safety
  import SP = SystemProofs

  /** The page holds no whole block. */
  predicate EmptyRange(z: Sizes, id: nat)
    requires z.Valid()
  {
    EndBlock(z, id) <= StartBlock(z, id)
  }

  /** Every page the manager has is needed for some block, unless its range is empty. */
  ghost predicate Needed(z: Sizes, m: M.Mgr)
    requires z.Valid()
  {
    forall id: nat :: id in P.Owned(m) && !EmptyRange(z, id) ==> !P.NoneIn(z, m, id)
  }

  /** Pages with empty ranges that the manager had it still has. */
  ghost predicate KeepsParked(z: Sizes, m: M.Mgr, m1: M.Mgr)
    requires z.Valid()
  {
    forall id: nat :: id in P.Owned(m) && EmptyRange(z, id) ==> id in P.Owned(m1)
  }

  // ---- the steps that change the dictionaries ----------------------------------------------------------

  lemma MoreAllocated(z: Sizes, m: M.Mgr, m1: M.Mgr, id: int)
    requires z.Valid() && P.Allocated(m) <= P.Allocated(m1) && !P.NoneIn(z, m, id)
    ensures !P.NoneIn(z, m1, id)
  {
    hide P.Allocated, PageOf;
  }

  lemma HeldNeeded(z: Sizes, m: M.Mgr, need: nat)
    requires z.Valid() && P.MgrOk(z, m) && m.avail != [] && need > 0 && Needed(z, m)
    ensures Needed(z, M.ServeHeld(m, need).0) && KeepsParked(z, m, M.ServeHeld(m, need).0)
  {
    P.HeldIsTurn(z, m, need);
    hide P.MgrOk, P.Allocated, P.Owned, M.ServeHeld, P.NoneIn, EmptyRange;
    var m1 := M.ServeHeld(m, need).0;
    forall id: nat | id in P.Owned(m1) && !EmptyRange(z, id) ensures !P.NoneIn(z, m1, id) {
      MoreAllocated(z, m, m1, id);
    }
  }

  /** A new page with blocks is used at once. */
  lemma NewBlock(z: Sizes, m: M.Mgr, id: nat, need: nat)
    requires z.Valid() && need > 0 && !EmptyRange(z, id)
    ensures var blocks := M.ServeNew(z, m, id, need).1; blocks != [] && PageOf(z, blocks[0]) == id
  {
    var p := Opened(z, id);
    assert p.free[0] == StartBlock(z, id);
    var n := if |p.free| < need then |p.free| else need;
    assert M.ServeNew(z, m, id, need).1 == p.free[..n];
    PageOfOwned(z, id, p.free[0]);
  }

  lemma NewNeeded(z: Sizes, m: M.Mgr, id: nat, need: nat)
    requires z.Valid() && P.MgrOk(z, m) && id !in P.Owned(m) && need > 0 && Needed(z, m)
    ensures Needed(z, M.ServeNew(z, m, id, need).0) && KeepsParked(z, m, M.ServeNew(z, m, id, need).0)
  {
    P.NewIsTurn(z, m, id, need);
    var (m1, blocks) := M.ServeNew(z, m, id, need);
    if !EmptyRange(z, id) {
      NewBlock(z, m, id, need);
      assert blocks[0] in Elems(blocks);
    }
    hide P.MgrOk, P.Allocated, P.Owned, M.ServeNew, EmptyRange, PageOf;
    forall i: nat | i in P.Owned(m1) && !EmptyRange(z, i) ensures !P.NoneIn(z, m1, i) {
      if i != id {
        MoreAllocated(z, m, m1, i);
      }
    }
  }

  lemma UntouchedPage(z: Sizes, m: M.Mgr, m1: M.Mgr, indices: seq<int>, order: seq<int>, id: int)
    requires z.Valid() && M.Enumerates(z, indices, order) && id !in order && !P.NoneIn(z, m, id)
    requires P.Allocated(m1) == P.Allocated(m) - P.InPages(z, indices, order)
    ensures !P.NoneIn(z, m1, id)
  {
    hide P.Allocated, PageOf;
    var b :| b in P.Allocated(m) && PageOf(z, b) == id;
    assert b in P.Allocated(m1);
  }

  lemma FreedNeeded(z: Sizes, m: M.Mgr, indices: seq<int>, order: seq<int>)
    requires z.Valid() && P.MgrOk(z, m) && Needed(z, m) && NoDup(indices) && Elems(indices) <= P.Allocated(m)
    requires M.Enumerates(z, indices, order)
    ensures Needed(z, M.FreeGroups(z, m, indices, order).0)
  {
    P.FreeGroupsOk(z, m, indices, order);
    var (m1, gone) := M.FreeGroups(z, m, indices, order);
    hide P.MgrOk, P.Allocated, P.Owned, M.FreeGroups, P.NoneIn, EmptyRange, PageOf, P.InPages;
    forall id: nat | id in P.Owned(m1) && !EmptyRange(z, id) ensures !P.NoneIn(z, m1, id) {
      if id in order {
        P.GivesBackExactly(z, m, indices, order, id);
        assert id in gone ==> id in Elems(gone);
      } else {
        UntouchedPage(z, m, m1, indices, order, id);
      }
    }
  }

  // ---- every step --------------------------------------------------------------------------------------

  ghost predicate Reshapes(a: Act) {
    a.ServeFromHeld? || a.RequestPage? || a.PageAnswered? || a.StartFree? || a.StartFreeReserved?
  }

  lemma DictsStay(w: World, x: Sys, a: Act)
    requires w.z.Valid() && Can(w, x, a) && !Reshapes(a)
    ensures Next(w, x, a).m.avail == x.m.avail && Next(w, x, a).m.full == x.m.full
  {
    hide Enabled, FreePages, BeginTrim, BeginResize, FinishResize, M.FreeGroups, M.ShrinkDue, M.AvailableSize,
      M.Enumerates, ShrinkPages, Step, StepUnmapDone, StepResizeBegin, StepTrimBegin;
  }

  lemma SameNeeded(z: Sizes, m: M.Mgr, m1: M.Mgr)
    requires z.Valid() && Needed(z, m) && m1.avail == m.avail && m1.full == m.full
    ensures Needed(z, m1) && KeepsParked(z, m, m1)
  {
    assert P.Owned(m1) == P.Owned(m) && P.Allocated(m1) == P.Allocated(m);
    hide P.Owned, P.Allocated, EmptyRange;
    forall id: nat | id in P.Owned(m1) && !EmptyRange(z, id) ensures !P.NoneIn(z, m1, id) {
      MoreAllocated(z, m, m1, id);
    }
  }

  lemma GotNeeded(w: World, x: Sys, s: State, p: PageId)
    requires w.z.Valid() && SP.SysInv(w, x) && x.pc.Serving? && x.pc.need > 0 && p !in x.s.inUse && Needed(w.z, x.m)
    ensures Needed(w.z, GotPage(w, x, s, p).m) && KeepsParked(w.z, x.m, GotPage(w, x, s, p).m)
  {
    hide P.MgrOk, P.Owned, P.Allocated, Inv, M.ServeNew, Needed, SP.Books, KeepsParked;
    SameParked(w.z, x.m);
    if p >= 0 {
      NewNeeded(w.z, x.m, p, x.pc.need);
    }
  }

  lemma SameParked(z: Sizes, m: M.Mgr)
    requires z.Valid()
    ensures KeepsParked(z, m, m)
  {
  }

  lemma RequestNeeded(w: World, x: Sys)
    requires w.z.Valid() && SP.SysInv(w, x) && Can(w, x, RequestPage) && Needed(w.z, x.m)
    ensures Needed(w.z, DoRequestPage(w, x).m) && KeepsParked(w.z, x.m, DoRequestPage(w, x).m)
  {
    hide SP.SysInv, Inv, StepAllocTry, TryAlloc, GotPage, RaisedFrom, DoRequestPage, Needed, KeepsParked;
    SameParked(w.z, x.m);
    SP.OpenInv(w, x);
    SP.TryStep(w.c, x.s);
    var s, a := StepAllocTry(w.c, x.s, User), TryAlloc(w.c, x.s.lists).1;
    SP.RequestCases(w, x, s, a);
    RaisedSame(w, x, s);
    if a.Ready? { GotNeeded(w, x, s, a.page); }
  }

  lemma RaisedSame(w: World, x: Sys, s: State)
    ensures RaisedFrom(x, s).m == x.m
  {
  }

  lemma AnsweredNeeded(w: World, x: Sys)
    requires w.z.Valid() && SP.SysInv(w, x) && Can(w, x, PageAnswered) && Needed(w.z, x.m)
    ensures var y := Next(w, x, PageAnswered); Needed(w.z, y.m) && KeepsParked(w.z, x.m, y.m)
  {
    SP.OpenInv(w, x);
    SameParked(w.z, x.m);
    hide SP.SysInv, Inv, StepAllocDone, GotPage, RaisedFrom, Needed, KeepsParked;
    SP.AnswerStep(w.c, x.s);
    RaisedSame(w, x, StepAllocDone(w.c, x.s, User));
    if !x.s.flights[User].failed {
      GotNeeded(w, x, StepAllocDone(w.c, x.s, User), x.s.flights[User].pages[0]);
    }
  }

  lemma FreeKeepsNeeded(w: World, x: Sys, indices: seq<int>, order: seq<int>, own: bool)
    requires w.z.Valid() && SP.SysInv(w, x) && x.pc.AtRest? && Needed(w.z, x.m)
    requires NoDup(indices) && M.Enumerates(w.z, indices, order)
    requires if own then indices == x.m.reserved else Elems(indices) <= x.held
    ensures Needed(w.z, DoFree(w, x, indices, order, own).m) && KeepsParked(w.z, x.m, DoFree(w, x, indices, order, own).m)
  {
    FreedParked(w, x, indices, order, own);
    hide P.MgrOk, P.Owned, P.Allocated, Inv, M.FreeGroups, Needed, M.Enumerates, StepFreeBegin, KeepsParked;
    assert Elems(indices) <= P.Allocated(x.m);
    FreedNeeded(w.z, x.m, indices, order);
  }

  /** Every step keeps every page held needed, and gives none with an empty range back. */
  lemma StepNeeded(w: World, x: Sys, a: Act)
    requires w.z.Valid() && SP.SysInv(w, x) && Can(w, x, a) && Needed(w.z, x.m)
    ensures Needed(w.z, Next(w, x, a).m) && KeepsParked(w.z, x.m, Next(w, x, a).m)
  {
    if !Reshapes(a) {
      hide SP.SysInv, Can, Next, Needed, KeepsParked;
      DictsStay(w, x, a);
      SameNeeded(w.z, x.m, Next(w, x, a).m);
    } else {
      StepReshapes(w, x, a);
    }
  }

  lemma StepReshapes(w: World, x: Sys, a: Act)
    requires w.z.Valid() && SP.SysInv(w, x) && Can(w, x, a) && Needed(w.z, x.m) && Reshapes(a)
    ensures Needed(w.z, Next(w, x, a).m) && KeepsParked(w.z, x.m, Next(w, x, a).m)
  {
    hide Needed, KeepsParked, DoRequestPage, DoPageAnswered, DoFree, M.ServeHeld, M.Enumerates, SP.SysInv;
    match a
    case ServeFromHeld => OkOf(w, x); HeldNeeded(w.z, x.m, x.pc.need);
    case RequestPage => RequestNeeded(w, x);
    case PageAnswered => AnsweredNeeded(w, x);
    case StartFree(indices, order) => FreeKeepsNeeded(w, x, indices, order, false);
    case StartFreeReserved(order) => SP.ReservedDistinct(w, x); FreeKeepsNeeded(w, x, x.m.reserved, order, true);
  }

  lemma OkOf(w: World, x: Sys)
    requires w.z.Valid() && SP.SysInv(w, x)
    ensures P.MgrOk(w.z, x.m)
  {
  }

  lemma {:induction false} RunNeeded(w: World, x: Sys, acts: seq<Act>)
    requires w.z.Valid() && SP.SysInv(w, x) && Needed(w.z, x.m) && S.CanRun(w, x, acts) && S.NoHazard(w, x, acts)
    ensures SP.SysInv(w, S.After(w, x, acts)) && Needed(w.z, S.After(w, x, acts).m)
    ensures KeepsParked(w.z, x.m, S.After(w, x, acts).m)
    decreases |acts|
  {
    hide SP.SysInv, Can, Hazard, Next, Needed, P.Owned, EmptyRange;
    if acts != [] {
      SP.StepSafeIff(w, x, acts[0]);
      StepNeeded(w, x, acts[0]);
      RunNeeded(w, Next(w, x, acts[0]), acts[1..]);
    }
  }

  /** Some block that is outstanding, or was dropped by a failed _alloc, lies in page p. */
  ghost predicate HasBlock(w: World, x: Sys, p: int)
    requires w.z.Valid()
  {
    exists b :: b in SP.Outstanding(x) + x.dropped && PageOf(w.z, b) == p
  }

  /** The manager holds just what it needs: in every state any run reaches, in the middle of calls as well, a page
      in use has an allocated block exactly when its block range is not empty. */
  lemma EveryRunIsElastic(w: World, numPages: nat, worldSize: nat, acts: seq<Act>)
    requires w.z.Valid() && S.CanRun(w, Start(w, numPages, worldSize), acts)
    requires S.NoHazard(w, Start(w, numPages, worldSize), acts)
    ensures var x := S.After(w, Start(w, numPages, worldSize), acts);
      forall p :: p in x.s.inUse ==> p >= 0 && (HasBlock(w, x, p) <==> !EmptyRange(w.z, p))
  {
    SP.StartOk(w, numPages, worldSize);
    StartNeeded(w, numPages, worldSize);
    hide SP.SysInv, Needed, HasBlock, EmptyRange, S.CanRun, S.NoHazard, S.After;
    RunNeeded(w, Start(w, numPages, worldSize), acts);
    var x := S.After(w, Start(w, numPages, worldSize), acts);
    forall p | p in x.s.inUse ensures p >= 0 && (HasBlock(w, x, p) <==> !EmptyRange(w.z, p)) {
      NeededMeaning(w, x, p);
    }
  }

  lemma StartNeeded(w: World, numPages: nat, worldSize: nat)
    requires w.z.Valid()
    ensures Needed(w.z, Start(w, numPages, worldSize).m)
  {
  }

  lemma NeededMeaning(w: World, x: Sys, p: int)
    requires w.z.Valid() && SP.SysInv(w, x) && Needed(w.z, x.m) && p in x.s.inUse
    ensures p >= 0 && (HasBlock(w, x, p) <==> !EmptyRange(w.z, p))
  {
    UsedNatural(w, x, p);
    AllocatedAre(w, x);
    hide Inv, P.Owned, P.Allocated, SP.Outstanding, PageOf, SP.Books;
    if HasBlock(w, x, p) {
      var b :| b in SP.Outstanding(x) + x.dropped && PageOf(w.z, b) == p;
      InRangeOf(w, x, b);
    } else {
      assert P.NoneIn(w.z, x.m, p);
    }
  }

  lemma UsedNatural(w: World, x: Sys, p: int)
    requires w.z.Valid() && SP.SysInv(w, x) && p in x.s.inUse
    ensures p >= 0 && p in P.Owned(x.m)
  {
    hide P.MgrOk, P.Owned, P.Allocated, SP.Books;
    assert At(x.s, InUse, p) && Somewhere(x.s, p);
  }

  lemma AllocatedAre(w: World, x: Sys)
    requires w.z.Valid() && SP.SysInv(w, x)
    ensures P.Allocated(x.m) == SP.Outstanding(x) + x.dropped && P.PagesPlaced(w.z, x.m)
  {
    hide Inv, P.Allocated, P.Owned;
  }

  lemma InRangeOf(w: World, x: Sys, b: int)
    requires w.z.Valid() && P.PagesPlaced(w.z, x.m) && b in P.Allocated(x.m)
    ensures PageOf(w.z, b) >= 0 && !EmptyRange(w.z, PageOf(w.z, b))
  {
    P.AllocatedOwned(w.z, x.m, b);
  }

  // ---- parked pages ------------------------------------------------------------------------------------

  lemma LookupLast(front: seq<Page>, p: Page, id: int)
    ensures id in Ids(front + [p]) <==> id in Ids(front) || p.id == id
    ensures id in Ids(front + [p]) ==> Lookup(front + [p], id) == if p.id == id then p else Lookup(front, id)
  {
    assert (front + [p])[..|front|] == front;
  }

  lemma {:induction false} OthersStay(d: seq<Page>, other: int, id: int)
    requires id != other && id in Ids(d)
    ensures id in Ids(Without(d, other)) && Lookup(Without(d, other), id) == Lookup(d, id)
  {
    var front, p := d[..|d| - 1], d[|d| - 1];
    assert d == front + [p];
    LookupLast(front, p, id);
    LookupLast(Without(front, other), p, id);
    hide Ids, Lookup;
    if p.id != other && p.id != id {
      OthersStay(front, other, id);
    }
  }

  lemma GroupLeaves(m: M.Mgr, other: int, blocks: seq<int>, id: int)
    requires id != other && id in Ids(m.full)
    ensures var m1 := M.FreeGroup(m, other, blocks).0; id in Ids(m1.full) && Lookup(m1.full, id) == Lookup(m.full, id)
    ensures id !in M.FreeGroup(m, other, blocks).1
  {
    if other in Ids(m.full) {
      OthersStay(m.full, other, id);
    }
    hide Ids, Lookup, Without, Put, PutBack;
  }

  lemma {:induction false} GroupsLeave(z: Sizes, m: M.Mgr, indices: seq<int>, order: seq<int>, id: int)
    requires z.Valid() && id !in order && id in Ids(m.full)
    ensures var (m1, gone) := M.FreeGroups(z, m, indices, order);
      id in Ids(m1.full) && Lookup(m1.full, id) == Lookup(m.full, id) && id !in gone
  {
    hide M.FreeGroup, Group, Ids, Lookup;
    if order != [] {
      var front, last := order[..|order| - 1], order[|order| - 1];
      assert order == front + [last] && last in order;
      GroupsLeave(z, m, indices, front, id);
      GroupLeaves(M.FreeGroups(z, m, indices, front).0, last, Group(z, indices, last), id);
    }
  }

  lemma AvailableHasBlocks(z: Sizes, m: M.Mgr, id: nat)
    requires z.Valid() && P.MgrOk(z, m) && id in Ids(m.avail)
    ensures !EmptyRange(z, id)
  {
    hide Ids, Without, DictOk, AllPlaced, StartBlock, EndBlock;
    WithoutOk(m.avail, false, id);
    WithoutPlaced(z, m.avail, id);
    var p := Lookup(m.avail, id);
    assert p.id == id && p.free[0] in p.free;
    assert p.start <= p.free[0] < p.end;
  }

  /** A page with an empty range is among the full ones. */
  lemma ParkedIsFull(z: Sizes, m: M.Mgr, id: nat)
    requires z.Valid() && P.MgrOk(z, m) && id in P.Owned(m) && EmptyRange(z, id)
    ensures id in Ids(m.full)
  {
    hide Ids, P.MgrOk, EmptyRange;
    if id in Ids(m.avail) {
      AvailableHasBlocks(z, m, id);
    }
  }

  /** No free changes a page with an empty range or gives it back. */
  lemma ParkedUntouched(w: World, x: Sys, indices: seq<int>, order: seq<int>, own: bool, id: nat)
    requires w.z.Valid() && SP.SysInv(w, x) && x.pc.AtRest? && M.Enumerates(w.z, indices, order)
    requires if own then indices == x.m.reserved else Elems(indices) <= x.held
    requires id in P.Owned(x.m) && EmptyRange(w.z, id)
    ensures var (m1, gone) := M.FreeGroups(w.z, x.m, indices, order);
      && id in Ids(x.m.full) && id in Ids(m1.full) && Lookup(m1.full, id) == Lookup(x.m.full, id)
      && id !in gone
  {
    OkOf(w, x);
    ParkedIsFull(w.z, x.m, id);
    NotTouched(w, x, indices, order, own, id);
    GroupsLeave(w.z, x.m, indices, order, id);
  }

  lemma FreedParked(w: World, x: Sys, indices: seq<int>, order: seq<int>, own: bool)
    requires w.z.Valid() && SP.SysInv(w, x) && x.pc.AtRest? && M.Enumerates(w.z, indices, order)
    requires if own then indices == x.m.reserved else Elems(indices) <= x.held
    ensures KeepsParked(w.z, x.m, M.FreeGroups(w.z, x.m, indices, order).0)
  {
    var m1 := M.FreeGroups(w.z, x.m, indices, order).0;
    hide SP.SysInv, M.FreeGroups, M.Enumerates, EmptyRange, Ids, Lookup;
    forall id: nat | id in P.Owned(x.m) && EmptyRange(w.z, id) ensures id in P.Owned(m1) {
      ParkedUntouched(w, x, indices, order, own, id);
    }
  }

  /** Nothing but clear gives a page with an empty range back: once in use it stays so, whatever calls follow. */
  lemma ParkedForever(w: World, numPages: nat, worldSize: nat, acts: seq<Act>, more: seq<Act>, id: int)
    requires w.z.Valid() && S.CanRun(w, Start(w, numPages, worldSize), acts)
    requires S.NoHazard(w, Start(w, numPages, worldSize), acts)
    requires var x := S.After(w, Start(w, numPages, worldSize), acts);
      && S.CanRun(w, x, more) && S.NoHazard(w, x, more) && id in x.s.inUse && id >= 0 && EmptyRange(w.z, id)
    ensures id in S.After(w, S.After(w, Start(w, numPages, worldSize), acts), more).s.inUse
  {
    SP.StartOk(w, numPages, worldSize);
    StartNeeded(w, numPages, worldSize);
    hide SP.SysInv, S.CanRun, S.NoHazard, S.After, EmptyRange, Needed;
    RunNeeded(w, Start(w, numPages, worldSize), acts);
    var x := S.After(w, Start(w, numPages, worldSize), acts);
    UsedNatural(w, x, id);
    RunNeeded(w, x, more);
    OwnedUsed(w, S.After(w, x, more));
  }

  lemma OwnedUsed(w: World, x: Sys)
    requires w.z.Valid() && SP.SysInv(w, x)
    ensures P.Owned(x.m) == x.s.inUse
  {
    hide P.MgrOk, P.Owned, P.Allocated, Inv;
  }

  lemma NotTouched(w: World, x: Sys, indices: seq<int>, order: seq<int>, own: bool, id: nat)
    requires w.z.Valid() && SP.SysInv(w, x) && x.pc.AtRest? && M.Enumerates(w.z, indices, order)
    requires if own then indices == x.m.reserved else Elems(indices) <= x.held
    requires EmptyRange(w.z, id)
    ensures id !in order
  {
    AllocatedAre(w, x);
    hide Inv, P.Owned, P.Allocated, P.MgrOk, P.PagesPlaced, EmptyRange, PageOf;
    if id in order {
      var b := SomeOf(w.z, indices, id);
      assert b in Elems(indices);
      InRangeOf(w, x, b);
    }
  }

  lemma {:induction false} SomeOf(z: Sizes, indices: seq<int>, id: int) returns (b: int)
    requires z.Valid() && Group(z, indices, id) != []
    ensures b in indices && PageOf(z, b) == id
  {
    hide PageOf;
    var front, last := indices[..|indices| - 1], indices[|indices| - 1];
    if PageOf(z, last) == id {
      b := last;
    } else {
      b := SomeOf(z, front, id);
    }
  }
}
