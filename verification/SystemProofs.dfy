/** Safety of the whole allocator, over every interleaving: no two outstanding blocks overlap, and every one
    lies inside one page that the manager has and that is mapped on every rank. */
module SystemProofs {
  import opened BlockMath
  import opened Seqs
  import opened PageLists
  import opened Machine
  import opened Conservation
  import R = Runs
  import RZ = Resizing
  import M = Manager
  import P = ManagerProofs
  import C = Capacity
  import opened System

  ghost predicate OwnPhase(pc: Pc) {
    (pc.Releasing? || pc.Checking? || pc.Shrinking?) && pc.own
  }

  /** Blocks that are outstanding: with callers, reserved, or already picked by the _alloc in progress. */
  ghost function Outstanding(x: Sys): set<int> {
    x.held + (if OwnPhase(x.pc) then {} else Elems(x.m.reserved)) + (if x.pc.Serving? then Elems(x.pc.got) else {})
  }

  /** Every allocated block is outstanding or dropped, never both; the outstanding groups are disjoint and
      nothing is listed twice. While free_reserved runs, its blocks are on the reserved list although they
      are free. During a pending shrink a request is small enough for the pages already held. */
  ghost predicate Books(x: Sys) {
    && P.Allocated(x.m) == Outstanding(x) + x.dropped && Outstanding(x) !! x.dropped
    && (if OwnPhase(x.pc) then x.m.reserved != [] && Elems(x.m.reserved) !! P.Allocated(x.m)
        else NoDup(x.m.reserved) && x.held !! Elems(x.m.reserved))
    && (x.pc.Serving? ==> NoDup(x.pc.got) && Elems(x.pc.got) !! x.held && Elems(x.pc.got) !! Elems(x.m.reserved))
    && (x.pc.Serving? && x.m.inShrink ==> x.pc.need <= x.m.numAvail && !x.pc.asking)
  }

  ghost predicate SysInv(w: World, x: Sys)
    requires w.z.Valid()
  {
    Inv(x.s) && P.MgrOk(w.z, x.m) && P.Owned(x.m) == x.s.inUse && Books(x)
  }

  lemma StartOk(w: World, numPages: nat, worldSize: nat)
    requires w.z.Valid()
    ensures SysInv(w, Start(w, numPages, worldSize))
  {
    InitInv(numPages, worldSize);
  }

  // ---- the page allocator's side -----------------------------------------------------------------

  lemma BackgroundOk(w: World, x: Sys, e: Event)
    requires w.z.Valid() && SysInv(w, x) && Can(w, x, Background(e))
    ensures SysInv(w, Next(w, x, Background(e)))
  {
    BackgroundStep(w.c, x.s, e) by { OpenInv(w, x); }
    hide P.MgrOk, P.Owned, P.Allocated, Inv, Step, Enabled, Books;
    BooksAnyState(x, Step(w.c, x.s, e));
  }

  lemma BackgroundStep(c: Config, s: State, e: Event)
    requires Inv(s) && Enabled(c, s, e) && !e.AllocTry? && !e.AllocDone? && !e.FreeBegin? && !e.ResizeBegin?
    ensures Inv(Step(c, s, e)) && Step(c, s, e).inUse == s.inUse
  {
    hide Inv;
    StepKeepsInv(c, s, e);
    R.CallersView(c, s, e);
  }

  /** A step of the manager's thread that changes nothing the manager holds. */
  lemma QuietStep(w: World, x: Sys, x': Sys)
    requires w.z.Valid() && SysInv(w, x) && Inv(x'.s) && x'.s.inUse == x.s.inUse
    requires x'.m == x.m.(inShrink := x'.m.inShrink, target := x'.m.target)
    requires x'.held == x.held && x'.dropped == x.dropped
    requires !x.pc.Serving? && !x'.pc.Serving? && OwnPhase(x'.pc) == OwnPhase(x.pc)
    ensures SysInv(w, x')
  {
    MgrSame(w, x.m, x'.m);
  }

  lemma MgrSame(w: World, m: M.Mgr, m': M.Mgr)
    requires w.z.Valid() && m' == m.(inShrink := m'.inShrink, target := m'.target, reserved := m'.reserved)
    ensures P.MgrOk(w.z, m') == P.MgrOk(w.z, m) && P.Owned(m') == P.Owned(m) && P.Allocated(m') == P.Allocated(m)
  {
  }

  // ---- _alloc ------------------------------------------------------------------------------------

  lemma StartAllocOk(w: World, x: Sys, need: nat, freePages: int, keep: bool)
    requires w.z.Valid() && SysInv(w, x) && x.pc.AtRest?
    ensures SysInv(w, DoStartAlloc(w, x, need, freePages, keep))
  {
    hide P.MgrOk, P.Owned, P.Allocated, Inv;
    var (m, taken) := M.TakeReserved(x.m, need);
    C.TakenReserved(x.m, need);
    MgrSame(w, x.m, m);
    P.NoneHeld(w.z, m);
  }

  /** One turn of the allocation loop, together with the allocator step that made it possible. */
  lemma TurnOk(w: World, x: Sys, s: State, m: M.Mgr, blocks: seq<int>)
    requires w.z.Valid() && SysInv(w, x) && x.pc.Serving? && |blocks| <= x.pc.need
    requires Inv(s) && P.Turn(w.z, x.m, m, blocks) && P.Owned(m) == s.inUse
    requires x.m.inShrink ==> m.numAvail >= x.m.numAvail - |blocks|
    ensures SysInv(w, Served(x.(s := s), m, blocks))
  {
    hide P.MgrOk, P.Owned, P.Allocated, Inv;
    P.Joined(x.pc.got, blocks);
  }

  lemma ServeHeldOk(w: World, x: Sys)
    requires w.z.Valid() && SysInv(w, x) && Can(w, x, ServeFromHeld)
    ensures SysInv(w, Next(w, x, ServeFromHeld))
  {
    hide P.MgrOk, P.Owned, P.Allocated, P.Turn, Inv, M.ServeHeld, Books;
    P.HeldIsTurn(w.z, x.m, x.pc.need);
    var (m, blocks) := M.ServeHeld(x.m, x.pc.need);
    TurnOk(w, x, x.s, m, blocks);
  }

  lemma GotPageOk(w: World, x: Sys, s: State, p: PageId)
    requires w.z.Valid() && SysInv(w, x) && x.pc.Serving? && x.pc.need > 0
    requires Inv(s) && 0 <= p && p !in x.s.inUse && s.inUse == x.s.inUse + {p}
    ensures SysInv(w, GotPage(w, x, s, p))
  {
    hide P.MgrOk, P.Owned, P.Allocated, P.Turn, Inv, M.ServeNew, Books;
    P.NewIsTurn(w.z, x.m, p, x.pc.need);
    var (m, blocks) := M.ServeNew(w.z, x.m, p, x.pc.need);
    TurnOk(w, x, s, m, blocks);
  }

  lemma DropOk(w: World, x: Sys, s: State)
    requires w.z.Valid() && SysInv(w, x) && Inv(s) && s.inUse == x.s.inUse && !OwnPhase(x.pc)
    ensures SysInv(w, RaisedFrom(x, s))
  {
    hide P.MgrOk, P.Owned, P.Allocated, Inv;
  }

  /** What one locked pass of alloc_page gives the manager. */
  lemma TryStep(c: Config, s: State)
    requires Inv(s) && Machine.Idle(s, User)
    ensures var s' := StepAllocTry(c, s, User); var a := TryAlloc(c, s.lists).1;
      && Inv(s')
      && (a.Ready? ==> 0 <= a.page && a.page !in s.inUse && s'.inUse == s.inUse + {a.page})
      && (!a.Ready? ==> s'.inUse == s.inUse)
  {
    var e := AllocTry(User);
    StepKeepsInv(c, s, e);
    R.CallersView(c, s, e);
    if s.lists.reserved != [] { R.GrantIsNew(c, s, e, s.lists.reserved[0]); }
  }

  lemma AnswerStep(c: Config, s: State)
    requires Inv(s) && Enabled(c, s, AllocDone(User))
    ensures var s' := StepAllocDone(c, s, User); var p := s.flights[User].pages[0];
      && Inv(s')
      && (s.flights[User].failed ==> s'.inUse == s.inUse)
      && (!s.flights[User].failed ==> 0 <= p && p !in s.inUse && s'.inUse == s.inUse + {p})
  {
    var e := AllocDone(User);
    StepKeepsInv(c, s, e);
    R.CallersView(c, s, e);
    if !s.flights[User].failed { R.GrantIsNew(c, s, e, s.flights[User].pages[0]); }
  }

  lemma RequestCases(w: World, x: Sys, s: State, a: Attempt)
    requires w.z.Valid() && x.pc.Serving? && a == TryAlloc(w.c, x.s.lists).1 && s == StepAllocTry(w.c, x.s, User)
    ensures DoRequestPage(w, x) == (if a.Ready? then GotPage(w, x, s, a.page)
      else if a.ToMap? then x.(s := s, pc := x.pc.(asking := true))
      else if a.Wait? then x
      else RaisedFrom(x, s))
  {
  }

  lemma RequestPageOk(w: World, x: Sys)
    requires w.z.Valid() && SysInv(w, x) && x.pc.Serving? && x.pc.need > 0 && x.m.avail == []
    requires Machine.Idle(x.s, User)
    ensures SysInv(w, DoRequestPage(w, x))
  {
    hide Inv, SysInv, StepAllocTry, TryAlloc, GotPage, RaisedFrom, Machine.Idle, DoRequestPage;
    OpenInv(w, x);
    TryStep(w.c, x.s);
    var s, a := StepAllocTry(w.c, x.s, User), TryAlloc(w.c, x.s.lists).1;
    RequestCases(w, x, s, a);
    if a.Ready? {
      GotPageOk(w, x, s, a.page);
    } else if a.ToMap? {
      AskingOk(w, x, s);
    } else {
      DropOk(w, x, s);
    }
  }

  lemma OpenInv(w: World, x: Sys)
    requires w.z.Valid() && SysInv(w, x)
    ensures Inv(x.s)
  {
  }

  /** alloc_page starts mapping a page, which cannot happen during a pending shrink. */
  lemma AskingOk(w: World, x: Sys, s: State)
    requires w.z.Valid() && SysInv(w, x) && Inv(s) && s.inUse == x.s.inUse
    requires x.pc.Serving? && x.pc.need > 0 && x.m.avail == []
    ensures SysInv(w, x.(s := s, pc := x.pc.(asking := true)))
  {
    hide P.MgrOk, P.Owned, P.Allocated, Inv;
    P.NoneHeld(w.z, x.m);
  }

  lemma PageAnsweredOk(w: World, x: Sys)
    requires w.z.Valid() && SysInv(w, x) && x.pc.Serving? && x.pc.need > 0 && Enabled(w.c, x.s, AllocDone(User))
    ensures SysInv(w, DoPageAnswered(w, x))
  {
    OpenInv(w, x);
    hide Inv, SysInv, StepAllocDone, GotPage, RaisedFrom;
    AnswerStep(w.c, x.s);
    var s := StepAllocDone(w.c, x.s, User);
    if x.s.flights[User].failed {
      DropOk(w, x, s);
    } else {
      GotPageOk(w, x, s, x.s.flights[User].pages[0]);
    }
  }

  lemma FinishAllocOk(w: World, x: Sys)
    requires w.z.Valid() && SysInv(w, x) && Can(w, x, FinishAlloc)
    ensures SysInv(w, Next(w, x, FinishAlloc))
  {
    hide P.MgrOk, P.Owned, P.Allocated, Inv;
    P.Joined(x.m.reserved, x.pc.got);
    MgrSame(w, x.m, Next(w, x, FinishAlloc).m);
  }

  // ---- free --------------------------------------------------------------------------------------

  lemma EnumeratesAll(w: World, indices: seq<int>, order: seq<int>)
    requires w.z.Valid() && M.Enumerates(w.z, indices, order)
    ensures P.InPages(w.z, indices, order) == Elems(indices)
  {
  }

  /** The manager's half of a free, and the pages it gives back. */
  lemma FreedBooks(w: World, x: Sys, indices: seq<int>, order: seq<int>, own: bool)
    requires w.z.Valid() && SysInv(w, x) && x.pc.AtRest? && NoDup(indices) && M.Enumerates(w.z, indices, order)
    requires if own then indices == x.m.reserved && indices != [] else Elems(indices) <= x.held
    ensures var (m, gone) := M.FreeGroups(w.z, x.m, indices, order);
      var x1 := x.(m := m, held := if own then x.held else x.held - Elems(indices));
      && P.MgrOk(w.z, m) && Books(x1.(pc := Checking(own))) && Books(x1.(pc := Releasing(own)))
      && NoDup(gone) && Elems(gone) <= x.s.inUse && P.Owned(m) == x.s.inUse - Elems(gone)
  {
    hide P.MgrOk, P.Owned, P.Allocated, Inv, M.FreeGroups;
    assert Elems(indices) <= P.Allocated(x.m);
    EnumeratesAll(w, indices, order);
    P.FreeGroupsOk(w.z, x.m, indices, order);
  }

  /** The allocator's half of a free. */
  lemma FreedPages(c: Config, s: State, gone: seq<PageId>)
    requires Inv(s) && Machine.Idle(s, User) && NoDup(gone) && Elems(gone) <= s.inUse
    ensures Inv(StepFreeBegin(c, s, User, gone))
    ensures StepFreeBegin(c, s, User, gone).inUse == s.inUse - Elems(gone)
  {
    FreeKept(c, s, User, gone);
  }

  lemma FreeOk(w: World, x: Sys, indices: seq<int>, order: seq<int>, own: bool)
    requires w.z.Valid() && SysInv(w, x) && x.pc.AtRest? && NoDup(indices) && M.Enumerates(w.z, indices, order)
    requires if own then indices == x.m.reserved && indices != [] else Elems(indices) <= x.held
    requires Machine.Idle(x.s, User)
    ensures SysInv(w, DoFree(w, x, indices, order, own))
  {
    hide P.MgrOk, P.Owned, P.Allocated, Inv, M.FreeGroups, Books, M.Enumerates, StepFreeBegin, SysInv, OwnPhase, NoDup,
      DoFree, Machine.Idle;
    OpenInv(w, x);
    FreedBooks(w, x, indices, order, own);
    var (m, gone) := M.FreeGroups(w.z, x.m, indices, order);
    var x1 := x.(m := m, held := if own then x.held else x.held - Elems(indices));
    FreeCases(w, x, indices, order, own, x1, gone);
    if gone == [] {
      P.ElemsNone();
      FreedInv(w, x1.(pc := Checking(own)));
    } else {
      var s := StepFreeBegin(w.c, x.s, User, gone);
      FreedPages(w.c, x.s, gone);
      BooksAnyState(x1.(pc := Releasing(own)), s);
      BooksAnyState(x1.(pc := Checking(own)), s);
      FreedInv(w, DoFree(w, x, indices, order, own));
    }
  }

  lemma FreeCases(w: World, x: Sys, indices: seq<int>, order: seq<int>, own: bool, x1: Sys, gone: seq<PageId>)
    requires w.z.Valid() && gone == M.FreeGroups(w.z, x.m, indices, order).1
    requires x1 == x.(m := M.FreeGroups(w.z, x.m, indices, order).0, held := if own then x.held else x.held - Elems(indices))
    ensures var s := StepFreeBegin(w.c, x.s, User, gone);
      DoFree(w, x, indices, order, own) == (if gone == [] then x1.(pc := Checking(own))
        else if User in s.flights then x1.(pc := Releasing(own), s := s)
        else x1.(pc := Checking(own), s := s))
  {
  }

  lemma FreedInv(w: World, x: Sys)
    requires w.z.Valid() && Inv(x.s) && P.MgrOk(w.z, x.m) && P.Owned(x.m) == x.s.inUse && Books(x)
    ensures SysInv(w, x)
  {
  }

  lemma BooksAnyState(x: Sys, s: State)
    requires Books(x)
    ensures Books(x.(s := s))
  {
  }

  lemma UnmapDoneInUse(s: State, t: Thread)
    requires t in s.flights
    ensures StepUnmapDone(s, t).inUse == s.inUse
  {
  }

  lemma ResizeInUse(c: Config, s: State, t: Thread, target: int)
    ensures StepResizeBegin(c, s, t, target).inUse == s.inUse
  {
  }

  /** free_reserved empties the list whose blocks it freed. */
  lemma ClearedOk(w: World, x: Sys, x': Sys)
    requires w.z.Valid() && SysInv(w, x) && OwnPhase(x.pc) && Inv(x'.s) && x'.s.inUse == x.s.inUse
    requires x'.pc.AtRest? && x'.held == x.held && x'.dropped == x.dropped
    requires x'.m == x.m.(reserved := [], inShrink := x'.m.inShrink, target := x'.m.target)
    ensures SysInv(w, x')
  {
    MgrSame(w, x.m, x'.m);
  }

  lemma FreeOverOk(w: World, x: Sys, s: State, m: M.Mgr)
    requires w.z.Valid() && SysInv(w, x) && (x.pc.Checking? || x.pc.Shrinking?)
    requires Inv(s) && s.inUse == x.s.inUse && m == x.m.(inShrink := m.inShrink, target := m.target)
    ensures SysInv(w, FreeOver(x.(s := s, m := m), x.pc.own))
  {
    hide P.MgrOk, P.Owned, P.Allocated, Inv, Books, SysInv;
    var x' := FreeOver(x.(s := s, m := m), x.pc.own);
    if x.pc.own { ClearedOk(w, x, x'); } else { QuietStep(w, x, x'); }
  }

  /** free_reserved raised: its blocks stay on the reserved list although they are free. */
  lemma StaleReserve(w: World, x: Sys, s: State)
    requires w.z.Valid() && SysInv(w, x) && OwnPhase(x.pc)
    ensures !SysInv(w, RaisedFrom(x, s))
    ensures exists b :: b in x.m.reserved && b !in P.Allocated(x.m)
  {
    var b := x.m.reserved[0];
    assert b in Elems(x.m.reserved);
    assert b in Outstanding(RaisedFrom(x, s));
  }

  lemma UnmapAnswered(w: World, x: Sys)
    requires w.z.Valid() && SysInv(w, x) && UserAnswered(x.s)
    ensures Inv(StepUnmapDone(x.s, User)) && StepUnmapDone(x.s, User).inUse == x.s.inUse
  {
    hide P.MgrOk, P.Owned, P.Allocated, Books, Inv;
    UnmapDoneKept(x.s, User);
    UnmapDoneInUse(x.s, User);
  }

  /** The manager's thread has every answer to its unmap request. */
  ghost predicate UserAnswered(s: State) {
    Answered(s, User) && !s.flights[User].job.Maps()
  }

  lemma ReleaseAnsweredIff(w: World, x: Sys)
    requires w.z.Valid() && SysInv(w, x) && x.pc.Releasing? && UserAnswered(x.s)
    ensures SysInv(w, DoReleaseAnswered(x)) <==> !(x.pc.own && x.s.flights[User].failed)
  {
    UnmapAnswered(w, x);
    hide Inv, SysInv, StepUnmapDone;
    var s := StepUnmapDone(x.s, User);
    if !x.s.flights[User].failed {
      QuietStep(w, x, x.(s := s, pc := Checking(x.pc.own)));
    } else if x.pc.own {
      StaleReserve(w, x, s);
    } else {
      DropOk(w, x, s);
    }
  }

  lemma ShrinkAnsweredIff(w: World, x: Sys)
    requires w.z.Valid() && SysInv(w, x) && x.pc.Shrinking? && UserAnswered(x.s)
    ensures SysInv(w, DoShrinkAnswered(x)) <==> !(x.pc.own && x.s.flights[User].failed)
  {
    UnmapAnswered(w, x);
    hide Inv, SysInv, StepUnmapDone;
    var s := StepUnmapDone(x.s, User);
    if !x.s.flights[User].failed {
      FreeOverOk(w, x, s, M.ShrinkOver(x.m));
    } else if x.pc.own {
      StaleReserve(w, x, s);
    } else {
      DropOk(w, x, s);
    }
  }

  // ---- resize and trim -----------------------------------------------------------------------------

  lemma ResizeFlight(c: Config, s: State, target: int)
    requires Machine.Idle(s, User)
    ensures User in StepResizeBegin(c, s, User, target).flights <==> BeginResize(c, s.lists, target).1.MustUnmap?
  {
    hide FreshId, Expand, Reclaim;
  }

  lemma ResizeIff(c: Config, s: State, target: int)
    requires Inv(s) && Machine.Idle(s, User)
    ensures Inv(StepResizeBegin(c, s, User, target)) <==> !Clashes(c, s, target)
  {
    hide Inv, Clashes, StepResizeBegin, Machine.Idle;
    StepIff(c, s, ResizeBegin(User, target));
  }

  /** The first section of resize keeps the allocator's invariant exactly when it does not clash. */
  lemma ResizeStep(w: World, x: Sys, target: nat)
    requires w.z.Valid() && SysInv(w, x) && Machine.Idle(x.s, User)
    ensures Inv(StepResizeBegin(w.c, x.s, User, target)) <==> !Clashes(w.c, x.s, target)
    ensures StepResizeBegin(w.c, x.s, User, target).inUse == x.s.inUse
    ensures User in StepResizeBegin(w.c, x.s, User, target).flights <==> BeginResize(w.c, x.s.lists, target).1.MustUnmap?
    ensures Clashes(w.c, x.s, target) ==> !BeginResize(w.c, x.s.lists, target).1.MustUnmap?
  {
    OpenInv(w, x);
    hide SysInv, Inv, Clashes, StepResizeBegin, BeginResize, Machine.Idle;
    ResizeFlight(w.c, x.s, target);
    ResizeInUse(w.c, x.s, User, target);
    ResizeIff(w.c, x.s, target);
    if BeginResize(w.c, x.s.lists, target).1.MustUnmap? { RZ.NoClashUnmapping(w.c, x.s, target); }
  }

  lemma NotInv(w: World, x: Sys)
    requires w.z.Valid() && !Inv(x.s)
    ensures !SysInv(w, x)
  {
  }

  lemma CheckShrinkIff(w: World, x: Sys)
    requires w.z.Valid() && SysInv(w, x) && x.pc.Checking? && Machine.Idle(x.s, User)
    ensures SysInv(w, DoCheckShrink(w, x))
            <==> !(M.ShrinkDue(w.z, x.m) && Clashes(w.c, x.s, ShrinkPages(w, x.m)))
  {
    OpenInv(w, x);
    hide Inv, SysInv, StepResizeBegin, Clashes, ShrinkPages, M.ShrinkDue, BeginResize;
    if !M.ShrinkDue(w.z, x.m) {
      FreeOverOk(w, x, x.s, x.m);
    } else {
      var target := ShrinkPages(w, x.m);
      var s := StepResizeBegin(w.c, x.s, User, target);
      ResizeStep(w, x, target);
      if Clashes(w.c, x.s, target) {
        NotInv(w, DoCheckShrink(w, x));
      } else if User in s.flights {
        QuietStep(w, x, x.(s := s, pc := Shrinking(x.pc.own)));
      } else {
        FreeOverOk(w, x, s, M.ShrinkOver(x.m));
      }
    }
  }

  lemma StartResizeIff(w: World, x: Sys, newMemSize: nat)
    requires w.z.Valid() && SysInv(w, x) && x.pc.AtRest? && Machine.Idle(x.s, User)
    ensures SysInv(w, DoStartResize(w, x, newMemSize)) <==> !Clashes(w.c, x.s, newMemSize / w.z.page)
  {
    Quotient(newMemSize, w.z.page);
    var target: nat := newMemSize / w.z.page;
    ResizeStep(w, x, target);
    hide Inv, SysInv, StepResizeBegin, Clashes, BeginResize;
    if Clashes(w.c, x.s, target) {
      NotInv(w, DoStartResize(w, x, newMemSize));
    } else {
      QuietStep(w, x, DoStartResize(w, x, newMemSize));
    }
  }

  lemma ResizedShape(w: World, m: M.Mgr, newMemSize: nat, ok: bool)
    requires w.z.Valid()
    ensures var m' := M.AfterResize(w.z, m, newMemSize, ok); m' == m.(inShrink := m'.inShrink, target := m'.target)
  {
  }

  lemma ResizeAnsweredCases(w: World, x: Sys)
    requires w.z.Valid() && x.pc.Resizing? && User in x.s.flights
    ensures var s := StepUnmapDone(x.s, User); var f := x.s.flights[User];
      var ok := FinishResize(x.s.lists, f.pages, x.pc.newMemSize / w.z.page).1;
      DoResizeAnswered(w, x) == if f.failed then RaisedFrom(x, s)
                                else x.(s := s, pc := AtRest, m := M.AfterResize(w.z, x.m, x.pc.newMemSize, ok))
  {
  }

  lemma ResizeAnsweredOk(w: World, x: Sys)
    requires w.z.Valid() && SysInv(w, x) && x.pc.Resizing? && UserAnswered(x.s)
    ensures SysInv(w, DoResizeAnswered(w, x))
  {
    UnmapAnswered(w, x);
    ResizeAnsweredCases(w, x);
    hide Inv, SysInv, StepUnmapDone, M.AfterResize, RaisedFrom, DoResizeAnswered, FinishResize;
    ResizedShape(w, x.m, x.pc.newMemSize, true);
    ResizedShape(w, x.m, x.pc.newMemSize, false);
    if x.s.flights[User].failed {
      DropOk(w, x, StepUnmapDone(x.s, User));
    } else {
      QuietStep(w, x, DoResizeAnswered(w, x));
    }
  }

  lemma StartTrimOk(w: World, x: Sys)
    requires w.z.Valid() && SysInv(w, x) && x.pc.AtRest? && Machine.Idle(x.s, User)
    ensures SysInv(w, DoStartTrim(x))
  {
    OpenInv(w, x);
    TrimKept(x.s, User);
    assert StepTrimBegin(x.s, User).inUse == x.s.inUse;
    hide Inv, SysInv, StepTrimBegin;
    QuietStep(w, x, DoStartTrim(x));
  }

  lemma TrimAnsweredOk(w: World, x: Sys)
    requires w.z.Valid() && SysInv(w, x) && x.pc.Trimming? && UserAnswered(x.s)
    ensures SysInv(w, RaisedFrom(x, StepUnmapDone(x.s, User)))
  {
    UnmapAnswered(w, x);
    hide Inv, SysInv, StepUnmapDone;
    DropOk(w, x, StepUnmapDone(x.s, User));
  }

  // ---- every step ----------------------------------------------------------------------------------

  lemma ReservedDistinct(w: World, x: Sys)
    requires w.z.Valid() && SysInv(w, x) && x.pc.AtRest?
    ensures NoDup(x.m.reserved)
  {
  }

  /** A step keeps the system's invariant exactly when it is not one of the two hazards. */
  lemma StepSafeIff(w: World, x: Sys, a: Act)
    requires w.z.Valid() && SysInv(w, x) && Can(w, x, a)
    ensures SysInv(w, Next(w, x, a)) <==> !Hazard(w, x, a)
  {
    hide SysInv, Clashes, M.ShrinkDue, ShrinkPages, DoFree, M.Enumerates, DoStartAlloc, DoRequestPage, DoPageAnswered,
      DoFinishAlloc, DoReleaseAnswered, DoCheckShrink, DoShrinkAnswered, DoStartResize, DoResizeAnswered, DoStartTrim;
    match a
    case Background(e) => BackgroundOk(w, x, e);
    case StartAlloc(need, freePages, keep) => StartAllocOk(w, x, need, freePages, keep);
    case ServeFromHeld => ServeHeldOk(w, x);
    case RequestPage => RequestPageOk(w, x);
    case PageAnswered => PageAnsweredOk(w, x);
    case FinishAlloc => FinishAllocOk(w, x);
    case StartFree(indices, order) => FreeOk(w, x, indices, order, false);
    case StartFreeReserved(order) => ReservedDistinct(w, x); FreeOk(w, x, x.m.reserved, order, true);
    case ReleaseAnswered => ReleaseAnsweredIff(w, x);
    case CheckShrink => CheckShrinkIff(w, x);
    case ShrinkAnswered => ShrinkAnsweredIff(w, x);
    case StartResize(newMemSize) => StartResizeIff(w, x, newMemSize);
    case ResizeAnswered => ResizeAnsweredOk(w, x);
    case StartTrim => StartTrimOk(w, x);
    case TrimAnswered => TrimAnsweredOk(w, x);
  }
}
