/** The manager on top of the page allocator. Its methods run under the manager's lock, one at a time, but
    every call they make into the page allocator is split at the points where that releases its own lock,
    and between any two steps the worker and the ranks may act. */
module System {
  import opened BlockMath
  import opened Seqs
  import opened PageLists
  import opened Machine
  import M = Manager

  /** The thread that runs the manager's methods. */
  const User := Client(0)

  datatype World = World(z: Sizes, c: Config)

  /** Where the manager is. In Serving, `got` are the blocks picked so far and `asking` says that alloc_page
      is mapping a page for it; `own` marks free_reserved, whose blocks leave reserved_blocks only at the end. */
  datatype Pc =
    | AtRest
    | Serving(need: nat, got: seq<int>, keep: bool, asking: bool)
    | Releasing(own: bool)
    | Checking(own: bool)
    | Shrinking(own: bool)
    | Resizing(newMemSize: nat)
    | Trimming

  /** held: the blocks callers have; dropped: blocks a failed _alloc had picked and gave to nobody. */
  datatype Sys = Sys(m: M.Mgr, s: State, held: set<int>, dropped: set<int>, pc: Pc)

  function Start(w: World, numPages: nat, worldSize: nat): Sys {
    Sys(M.Fresh, Init(numPages, worldSize), {}, {}, AtRest)
  }

  datatype Act =
    | Background(e: Event)
    | StartAlloc(need: nat, freePages: int, keep: bool)
    | ServeFromHeld
    | RequestPage
    | PageAnswered
    | FinishAlloc
    | StartFree(indices: seq<int>, order: seq<int>)
    | StartFreeReserved(order: seq<int>)
    | ReleaseAnswered
    | CheckShrink
    | ShrinkAnswered
    | StartResize(newMemSize: nat)
    | ResizeAnswered
    | StartTrim
    | TrimAnswered

  ghost predicate Can(w: World, x: Sys, a: Act)
    requires w.z.Valid()
  {
    match a
    case Background(e) =>
      (e.WorkerBegin? || e.WorkerDone? || e.RankMap? || e.RankUnmap? || e.Trigger?) && Enabled(w.c, x.s, e)
    case StartAlloc(_, freePages, _) => x.pc.AtRest? && freePages <= x.s.lists.numFree
    case ServeFromHeld => x.pc.Serving? && !x.pc.asking && x.pc.need > 0 && x.m.avail != []
    case RequestPage =>
      x.pc.Serving? && !x.pc.asking && x.pc.need > 0 && x.m.avail == [] && Enabled(w.c, x.s, AllocTry(User))
    case PageAnswered => x.pc.Serving? && x.pc.asking && x.pc.need > 0 && Enabled(w.c, x.s, AllocDone(User))
    case FinishAlloc => x.pc.Serving? && !x.pc.asking && x.pc.need == 0
    case StartFree(indices, order) =>
      // a valid free: distinct blocks the callers have
      && x.pc.AtRest? && Machine.Idle(x.s, User) && indices != [] && NoDup(indices) && Elems(indices) <= x.held
      && M.Enumerates(w.z, indices, order)
    case StartFreeReserved(order) =>
      && x.pc.AtRest? && Machine.Idle(x.s, User) && x.m.reserved != []
      && M.Enumerates(w.z, x.m.reserved, order)
    case ReleaseAnswered => x.pc.Releasing? && Enabled(w.c, x.s, UnmapDone(User))
    case CheckShrink => x.pc.Checking? && Machine.Idle(x.s, User)
    case ShrinkAnswered => x.pc.Shrinking? && Enabled(w.c, x.s, UnmapDone(User))
    case StartResize(newMemSize) => x.pc.AtRest? && newMemSize > 0 && Machine.Idle(x.s, User)
    case ResizeAnswered => x.pc.Resizing? && Enabled(w.c, x.s, UnmapDone(User))
    case StartTrim => x.pc.AtRest? && Machine.Idle(x.s, User)
    case TrimAnswered => x.pc.Trimming? && Enabled(w.c, x.s, UnmapDone(User))
  }

  // ---- effects ----------------------------------------------------------------------------

  function DoStartAlloc(w: World, x: Sys, need: nat, freePages: int, keep: bool): Sys
    requires w.z.Valid()
  {
    if M.AvailableSize(w.z, x.m, freePages) < need then x
    else
      var (m, taken) := M.TakeReserved(x.m, need);
      x.(m := m, pc := Serving(need - |taken|, taken, keep, false))
  }

  function Served(x: Sys, m: M.Mgr, blocks: seq<int>): Sys
    requires x.pc.Serving? && |blocks| <= x.pc.need
  {
    x.(m := m, pc := x.pc.(need := x.pc.need - |blocks|, got := x.pc.got + blocks, asking := false))
  }

  /** The page allocator handed out page p. Page ids are never negative; that is part of the invariant. */
  function GotPage(w: World, x: Sys, s: State, p: PageId): Sys
    requires w.z.Valid() && x.pc.Serving?
  {
    if p < 0 then x
    else
      var (m, blocks) := M.ServeNew(w.z, x.m, p, x.pc.need);
      if |blocks| <= x.pc.need then Served(x.(s := s), m, blocks) else x
  }

  /** A call that raises drops what it had already picked: those blocks reach nobody. */
  function RaisedFrom(x: Sys, s: State): Sys {
    x.(s := s, pc := AtRest, dropped := if x.pc.Serving? then x.dropped + Elems(x.pc.got) else x.dropped)
  }

  function DoRequestPage(w: World, x: Sys): Sys
    requires w.z.Valid() && x.pc.Serving?
  {
    var s := StepAllocTry(w.c, x.s, User);
    match TryAlloc(w.c, x.s.lists).1
    case Ready(p) => GotPage(w, x, s, p)
    case ToMap(_) => x.(s := s, pc := x.pc.(asking := true))
    case Wait => x
    case _ => RaisedFrom(x, s)
  }

  function DoPageAnswered(w: World, x: Sys): Sys
    requires w.z.Valid() && x.pc.Serving? && User in x.s.flights && |x.s.flights[User].pages| > 0
  {
    var s := StepAllocDone(w.c, x.s, User);
    if x.s.flights[User].failed then RaisedFrom(x, s) else GotPage(w, x, s, x.s.flights[User].pages[0])
  }

  function DoFinishAlloc(x: Sys): Sys
    requires x.pc.Serving?
  {
    if x.pc.keep then x.(m := x.m.(reserved := x.m.reserved + x.pc.got), pc := AtRest)
    else x.(held := x.held + Elems(x.pc.got), pc := AtRest)
  }

  function DoFree(w: World, x: Sys, indices: seq<int>, order: seq<int>, own: bool): Sys
    requires w.z.Valid()
  {
    var (m, gone) := M.FreeGroups(w.z, x.m, indices, order);
    var x1 := x.(m := m, held := if own then x.held else x.held - Elems(indices));
    if gone == [] then x1.(pc := Checking(own))
    else
      var s := StepFreeBegin(w.c, x.s, User, gone);
      x1.(s := s, pc := if User in s.flights then Releasing(own) else Checking(own))
  }

  function DoReleaseAnswered(x: Sys): Sys
    requires x.pc.Releasing? && User in x.s.flights
  {
    var s := StepUnmapDone(x.s, User);
    if x.s.flights[User].failed then RaisedFrom(x, s) else x.(s := s, pc := Checking(x.pc.own))
  }

  /** free returns; free_reserved then clears the list it freed. */
  function FreeOver(x: Sys, own: bool): Sys {
    x.(pc := AtRest, m := if own then x.m.(reserved := []) else x.m)
  }

  function ShrinkPages(w: World, m: M.Mgr): nat
    requires w.z.Valid()
  {
    MulMonotone(0, m.target, w.z.block);
    Quotient(m.target * w.z.block, w.z.page);
    (m.target * w.z.block) / w.z.page
  }

  /** A pending shrink is retried once few enough blocks are allocated; its result is ignored. */
  function DoCheckShrink(w: World, x: Sys): Sys
    requires w.z.Valid() && x.pc.Checking?
  {
    if !M.ShrinkDue(w.z, x.m) then FreeOver(x, x.pc.own)
    else
      var s := StepResizeBegin(w.c, x.s, User, ShrinkPages(w, x.m));
      if User in s.flights then x.(s := s, pc := Shrinking(x.pc.own))
      else FreeOver(x.(s := s, m := M.ShrinkOver(x.m)), x.pc.own)
  }

  function DoShrinkAnswered(x: Sys): Sys
    requires x.pc.Shrinking? && User in x.s.flights
  {
    var s := StepUnmapDone(x.s, User);
    if x.s.flights[User].failed then RaisedFrom(x, s)
    else FreeOver(x.(s := s, m := M.ShrinkOver(x.m)), x.pc.own)
  }

  function DoStartResize(w: World, x: Sys, newMemSize: nat): Sys
    requires w.z.Valid()
  {
    var target := newMemSize / w.z.page;
    var s := StepResizeBegin(w.c, x.s, User, target);
    match BeginResize(w.c, x.s.lists, target).1
    case MustUnmap(_) => x.(s := s, pc := Resizing(newMemSize))
    case r => x.(s := s, m := M.AfterResize(w.z, x.m, newMemSize, r.Resized?))
  }

  function DoResizeAnswered(w: World, x: Sys): Sys
    requires w.z.Valid() && x.pc.Resizing? && User in x.s.flights
  {
    var f := x.s.flights[User];
    var s := StepUnmapDone(x.s, User);
    if f.failed then RaisedFrom(x, s)
    else x.(s := s, pc := AtRest,
            m := M.AfterResize(w.z, x.m, x.pc.newMemSize,
                         FinishResize(x.s.lists, f.pages, x.pc.newMemSize / w.z.page).1))
  }

  function DoStartTrim(x: Sys): Sys {
    var s := StepTrimBegin(x.s, User);
    x.(s := s, pc := if User in s.flights then Trimming else AtRest)
  }

  function Next(w: World, x: Sys, a: Act): Sys
    requires w.z.Valid() && Can(w, x, a)
  {
    match a
    case Background(e) => x.(s := Step(w.c, x.s, e))
    case StartAlloc(need, freePages, keep) => DoStartAlloc(w, x, need, freePages, keep)
    case ServeFromHeld => var (m, blocks) := M.ServeHeld(x.m, x.pc.need); Served(x, m, blocks)
    case RequestPage => DoRequestPage(w, x)
    case PageAnswered => DoPageAnswered(w, x)
    case FinishAlloc => DoFinishAlloc(x)
    case StartFree(indices, order) => DoFree(w, x, indices, order, false)
    case StartFreeReserved(order) => DoFree(w, x, x.m.reserved, order, true)
    case ReleaseAnswered => DoReleaseAnswered(x)
    case CheckShrink => DoCheckShrink(w, x)
    case ShrinkAnswered => DoShrinkAnswered(x)
    case StartResize(newMemSize) => DoStartResize(w, x, newMemSize)
    case ResizeAnswered => DoResizeAnswered(w, x)
    case StartTrim => DoStartTrim(x)
    case TrimAnswered => RaisedFrom(x, StepUnmapDone(x.s, User))
  }

  // ---- what goes wrong in the code as written ---------------------------------------------------

  /** Steps after which the invariant is lost: an expansion that gives out an id in hand, and a free_reserved
      that raises, because it leaves the freed blocks on the reserved list. */
  ghost predicate Hazard(w: World, x: Sys, a: Act)
    requires w.z.Valid()
  {
    match a
    case StartResize(newMemSize) => Clashes(w.c, x.s, newMemSize / w.z.page)
    case CheckShrink => M.ShrinkDue(w.z, x.m) && Clashes(w.c, x.s, ShrinkPages(w, x.m))
    case ReleaseAnswered => x.pc.Releasing? && x.pc.own && User in x.s.flights && x.s.flights[User].failed
    case ShrinkAnswered => x.pc.Shrinking? && x.pc.own && User in x.s.flights && x.s.flights[User].failed
    case _ => false
  }
}
