/** What holds along every run of the page allocator, however its threads and ranks interleave. */
module Runs {
  import opened Seqs
  import opened PageLists
  import opened Machine
  import opened Conservation
  import opened Accounting

  ghost predicate CanRun(c: Config, s: State, es: seq<Event>)
    decreases |es|
  {
    es == [] || (Enabled(c, s, es[0]) && CanRun(c, Step(c, s, es[0]), es[1..]))
  }

  ghost function After(c: Config, s: State, es: seq<Event>): State
    requires CanRun(c, s, es)
    decreases |es|
  {
    if es == [] then s else After(c, Step(c, s, es[0]), es[1..])
  }

  /** No expansion gives out an id that is in hand. */
  ghost predicate NeverClashes(c: Config, s: State, es: seq<Event>)
    requires CanRun(c, s, es)
    decreases |es|
  {
    es == [] || (!Clash(c, s, es[0]) && NeverClashes(c, Step(c, s, es[0]), es[1..]))
  }

  /** No expansion mixes reclaimed and fresh pages. */
  ghost predicate NeverCollides(c: Config, s: State, es: seq<Event>)
    requires CanRun(c, s, es)
    decreases |es|
  {
    es == [] || (!Collision(c, s, es[0]) && NeverCollides(c, Step(c, s, es[0]), es[1..]))
  }

  ghost predicate AlwaysInv(c: Config, s: State, es: seq<Event>)
    requires CanRun(c, s, es)
    decreases |es|
  {
    Inv(s) && (es == [] || AlwaysInv(c, Step(c, s, es[0]), es[1..]))
  }

  /** Along a run the invariant holds throughout if and only if no expansion clashes. */
  lemma {:induction false} RunInvIff(c: Config, s: State, es: seq<Event>)
    requires Inv(s) && CanRun(c, s, es)
    ensures AlwaysInv(c, s, es) <==> NeverClashes(c, s, es)
    decreases |es|
  {
    hide Inv, Enabled, Step, Clash;
    if es != [] {
      StepIff(c, s, es[0]);
      if !Clash(c, s, es[0]) {
        RunInvIff(c, Step(c, s, es[0]), es[1..]);
      } else {
        AlwaysStartsInv(c, Step(c, s, es[0]), es[1..]);
      }
    }
  }

  lemma AlwaysStartsInv(c: Config, s: State, es: seq<Event>)
    requires CanRun(c, s, es)
    ensures AlwaysInv(c, s, es) ==> Inv(s)
  {
  }

  lemma {:induction false} RunKeepsInv(c: Config, s: State, es: seq<Event>)
    requires Inv(s) && CanRun(c, s, es) && NeverClashes(c, s, es)
    ensures Inv(After(c, s, es))
    decreases |es|
  {
    hide Inv, Enabled, Step, Clash;
    if es != [] {
      StepIff(c, s, es[0]);
      RunKeepsInv(c, Step(c, s, es[0]), es[1..]);
    }
  }

  /** An expansion that does not collide does not clash either, while no page is missing. */
  lemma {:induction false} RunKeepsCovered(c: Config, s: State, es: seq<Event>)
    requires Inv(s) && Covered(s) && CanRun(c, s, es) && NeverCollides(c, s, es)
    ensures NeverClashes(c, s, es) && Inv(After(c, s, es)) && Covered(After(c, s, es))
    decreases |es|
  {
    hide Inv, Covered, Enabled, Step, Clashes, Collides;
    if es != [] {
      if es[0].ResizeBegin? { ClashIff(c, s, es[0].target); }
      StepKeepsInv(c, s, es[0]);
      RunKeepsCovered(c, Step(c, s, es[0]), es[1..]);
    }
  }

  /** From a fresh allocator, whatever the events, unless an expansion gives out an id in hand: no page is in
      two places, and a page that is in use or reserved is mapped on every rank. */
  lemma EveryRunIsSafe(c: Config, numPages: nat, worldSize: nat, es: seq<Event>)
    requires CanRun(c, Init(numPages, worldSize), es) && NeverClashes(c, Init(numPages, worldSize), es)
    ensures var s := After(c, Init(numPages, worldSize), es);
      Exclusive(s) && NoRepeats(s) && |s.mapped| == worldSize
      && (forall r, p | 0 <= r < |s.mapped| && (p in s.inUse || p in s.lists.reserved) :: p in s.mapped[r])
  {
    hide CanRun, After, NeverClashes, Init;
    InitInv(numPages, worldSize);
    InitRanks(numPages, worldSize);
    RunKeepsInv(c, Init(numPages, worldSize), es);
    RanksConstant(c, Init(numPages, worldSize), es);
  }

  /** From a fresh allocator, whatever the events, unless an expansion mixes reclaimed and fresh pages: the page
      lists, callers, threads and the lost pages divide the ids below total + |reclaimed| among them. */
  lemma EveryRunConserves(c: Config, numPages: nat, worldSize: nat, es: seq<Event>)
    requires CanRun(c, Init(numPages, worldSize), es) && NeverCollides(c, Init(numPages, worldSize), es)
    ensures var s := After(c, Init(numPages, worldSize), es); Exclusive(s) && NoRepeats(s) && Covered(s)
  {
    InitInv(numPages, worldSize);
    RunKeepsCovered(c, Init(numPages, worldSize), es);
  }

  lemma InitRanks(numPages: nat, worldSize: nat)
    ensures |Init(numPages, worldSize).mapped| == worldSize
  {
  }

  lemma {:induction false} RanksConstant(c: Config, s: State, es: seq<Event>)
    requires CanRun(c, s, es)
    ensures |After(c, s, es).mapped| == |s.mapped|
    decreases |es|
  {
    if es != [] {
      RanksConstant(c, Step(c, s, es[0]), es[1..]);
    }
  }

  // ---- lost pages ----------------------------------------------------------------------------

  /** The step is an expansion that gives p's id out as a fresh one. */
  predicate Reissues(c: Config, s: State, e: Event, p: PageId) {
    e.ResizeBegin? && FreshId(c, s.lists, e.target, p)
  }

  lemma LostAfterResize(c: Config, s: State, t: Thread, target: int, p: PageId)
    requires p in s.lost
    ensures p in StepResizeBegin(c, s, t, target).lost <==> !FreshId(c, s.lists, target, p)
    ensures FreshId(c, s.lists, target, p) ==> p in StepResizeBegin(c, s, t, target).lists.free
  {
    if s.lists.numTotal < target && s.lists.InUse() <= target {
      FreshMembers(c, s.lists, target);
    }
  }

  /** A lost page comes back, onto the free list, exactly when an expansion gives its id out again. */
  lemma LostComesBackIff(c: Config, s: State, e: Event, p: PageId)
    requires Enabled(c, s, e) && p in s.lost
    ensures p in Step(c, s, e).lost <==> !Reissues(c, s, e, p)
    ensures Reissues(c, s, e, p) ==> p in Step(c, s, e).lists.free
  {
    hide FreshId, BeginResize, StepResizeBegin, FreePages, BeginTrim, FinishResize, WorkerTake, SortFree, Touches;
    if e.ResizeBegin? {
      LostAfterResize(c, s, e.t, e.target, p);
    }
  }

  /** While no page is missing, that takes an expansion that mixes reclaimed and fresh pages and whose fresh
      range, from numTotal up to target - |reclaimed|, contains the page. */
  lemma ReissueIff(c: Config, s: State, e: Event, p: PageId)
    requires Exclusive(s) && Covered(s) && p in s.lost
    ensures Reissues(c, s, e, p)
       <==> Collision(c, s, e) && s.lists.numTotal <= p < e.target - |s.lists.reclaimed|
  {
    assert At(s, Lost, p) && Somewhere(s, p);
    if e.ResizeBegin? { FreshBelowBound(c, s, e.target, p); }
  }

  ghost predicate NeverReissued(c: Config, s: State, es: seq<Event>, p: PageId)
    requires CanRun(c, s, es)
    decreases |es|
  {
    es == [] || (!Reissues(c, s, es[0], p) && NeverReissued(c, Step(c, s, es[0]), es[1..], p))
  }

  /** Until then it stays lost: it is never in use, reserved or free again. */
  lemma {:induction false} LostUntilReissued(c: Config, s: State, es: seq<Event>, p: PageId)
    requires Inv(s) && CanRun(c, s, es) && NeverClashes(c, s, es) && NeverReissued(c, s, es, p) && p in s.lost
    ensures p in After(c, s, es).lost
    ensures p !in After(c, s, es).inUse && p !in After(c, s, es).lists.free && p !in After(c, s, es).lists.reserved
    decreases |es|
  {
    if es != [] {
      hide Inv, Enabled, Step, Clash, Reissues;
      StepIff(c, s, es[0]);
      LostComesBackIff(c, s, es[0], p);
      LostUntilReissued(c, Step(c, s, es[0]), es[1..], p);
    } else {
      assert At(s, Lost, p);
      assert !At(s, InUse, p) && !At(s, Free, p) && !At(s, Reserved, p);
    }
  }

  const AsWritten: Config := Config(0, 0, false, true, false)
  const OneLost: State := State(Lists([], [], [2], 1, 3, false), {0, 1}, map[], {3}, [])

  lemma OneLostOk()
    ensures Inv(OneLost) && Covered(OneLost)
  {
    var s := OneLost;
    assert At(s, InUse, 0) && At(s, InUse, 1) && At(s, Reclaimed, 2) && At(s, Lost, 3);
    assert Opening(s) == {};
  }

  /** Four pages, of which 0 and 1 are in use, 2 is reclaimed and 3 is lost: growing to five gives 3 out again. */
  lemma LostPageReturns()
    ensures var e := ResizeBegin(Client(0), 5);
      && Inv(OneLost) && Covered(OneLost) && Enabled(AsWritten, OneLost, e) && Reissues(AsWritten, OneLost, e, 3)
      && var s' := Step(AsWritten, OneLost, e); s'.lists.free == [2, 3] && 3 !in s'.lost && Inv(s')
  {
    var c, s, e := AsWritten, OneLost, ResizeBegin(Client(0), 5);
    OneLostOk();
    assert s.lists.reclaimed[..1] == [2] && Interval(3, 4) == [3] && [] + [2] + [3] == [2, 3];
    assert Expand(c, s.lists, 5).free == [2, 3];
    forall p | FreshId(c, s.lists, 5, p) ensures !InHand(s, p) {
      InHandIff(s, p);
    }
    hide Inv, Covered, InHand;
    StepKeepsInv(c, s, e);
  }

  // ---- what callers see ----------------------------------------------------------------------

  /** The page, if any, that the step hands to its caller. */
  ghost function Granted(c: Config, s: State, e: Event): set<PageId>
    requires Enabled(c, s, e)
  {
    if e.AllocTry? && s.lists.reserved != [] then {s.lists.reserved[0]}
    else if e.AllocDone? && !s.flights[e.t].failed then {s.flights[e.t].pages[0]}
    else {}
  }

  ghost predicate MappedEverywhere(s: State, p: PageId) {
    forall r :: 0 <= r < |s.mapped| ==> p in s.mapped[r]
  }

  /** Callers get pages one at a time and pages leave callers only by being freed: everything else the
      threads and ranks do is invisible to them. */
  lemma CallersView(c: Config, s: State, e: Event)
    requires Inv(s) && Enabled(c, s, e)
    ensures Step(c, s, e).inUse == if e.FreeBegin? then s.inUse - Elems(e.pages) else s.inUse + Granted(c, s, e)
    ensures |Granted(c, s, e)| <= 1
  {
    hide Inv, Touches, FreePages, BeginTrim, BeginResize, FinishResize, WorkerTake, SortFree;
    if !e.AllocTry? && !e.AllocDone? && !e.FreeBegin? {
      UnseenByCallers(c, s, e);
      hide Step, Enabled;
    }
  }

  lemma UnseenByCallers(c: Config, s: State, e: Event)
    requires Enabled(c, s, e) && !e.AllocTry? && !e.AllocDone? && !e.FreeBegin?
    ensures Step(c, s, e).inUse == s.inUse
  {
    hide Touches, BeginTrim, BeginResize, FinishResize, WorkerTake, SortFree, FreshId;
  }

  /** A page is handed out only if no caller has it, and then it is mapped on every rank. */
  lemma GrantIsNew(c: Config, s: State, e: Event, p: PageId)
    requires Inv(s) && Enabled(c, s, e) && p in Granted(c, s, e)
    ensures p !in s.inUse && 0 <= p && MappedEverywhere(Step(c, s, e), p)
  {
    assert At(s, Reserved, p) || At(s, Flying(e.t), p);
    assert Somewhere(s, p) && !At(s, InUse, p);
    StepKeepsInv(c, s, e);
    CallersView(c, s, e);
  }

  /** A rank asked to unmap still has every page mapped, so only the transport can make an unmap fail. */
  lemma UnmapNeverRefused(s: State, t: Thread, r: nat)
    requires Inv(s) && t in s.flights && !s.flights[t].job.Maps() && r in s.flights[t].pending && r < |s.mapped|
    ensures Elems(s.flights[t].pages) <= s.mapped[r]
  {
    forall p | p in s.flights[t].pages ensures p in s.mapped[r] {
      assert MustBeMapped(s.flights[t], r);
    }
  }

  /** A failed map puts its page at the head of the free list, charged to nobody, so the next attempt from
      an empty pool retries that very page. */
  lemma FailedMapRetried(c: Config, s: State, t: Thread, u: Thread)
    requires Inv(s) && Enabled(c, s, AllocDone(t)) && s.flights[t].failed && s.lists.reserved == []
    requires u.Client? && (u == t || u !in s.flights)
    ensures var s1 := Step(c, s, AllocDone(t)); var p := s.flights[t].pages[0];
      && s1.lists.numFree == s.lists.numFree + 1 && s1.lists.free == [p] + s.lists.free
      && Enabled(c, s1, AllocTry(u))
      && Step(c, s1, AllocTry(u)) == Launch(s1, s1.lists.(free := s.lists.free, numFree := s.lists.numFree), u, ForAlloc, [p])
  {
    var p := s.flights[t].pages[0];
    assert ([p] + s.lists.free)[1..] == s.lists.free;
  }

  // ---- the reserved pool ---------------------------------------------------------------------

  ghost function Filling(s: State): nat {
    if Worker in s.flights then |s.flights[Worker].pages| else 0
  }

  ghost predicate PoolBounded(c: Config, s: State) {
    && Filling(s) <= c.minReserved
    && (Filling(s) > 0 ==> |s.lists.reserved| <= c.maxReserved)
    && |s.lists.reserved| + Filling(s) <= c.maxReserved + c.minReserved
  }

  /** A round of the worker takes no more pages than physical memory backs, and takes any exactly when the pool is
      below the minimum, a page is free and memory is left. */
  lemma WorkerWithinMemory(c: Config, s: State, physical: int)
    requires Enabled(c, s, WorkerBegin(physical))
    ensures var s' := Step(c, s, WorkerBegin(physical));
      && Filling(s') <= Backable(physical)
      && (Filling(s') > 0 <==> |s.lists.reserved| < c.minReserved && s.lists.free != [] && physical > 0)
  {
    WorkerRefills(c, s.lists, physical);
  }

  // ---- waking the worker ---------------------------------------------------------------------

  /** A page handed out that leaves the pool short, any page that had to be mapped for its caller, and a trigger call
      for a round of the worker: it can begin at once, or when the round under way is over. */
  lemma GrantWakes(c: Config, s: State, e: Event)
    requires c.prealloc && Enabled(c, s, e)
    requires e.Trigger? || (Granted(c, s, e) != {} && (e.AllocDone? || |s.lists.reserved| <= c.minReserved))
    ensures var s' := Step(c, s, e); s'.lists.wake && (Worker !in s'.flights ==> Enabled(c, s', WorkerBegin(0)))
  {
  }

  ghost predicate NoRound(es: seq<Event>) {
    forall e :: e in es ==> !e.WorkerBegin?
  }

  lemma WakeStays(c: Config, s: State, e: Event)
    requires Enabled(c, s, e) && !e.WorkerBegin? && s.lists.wake
    ensures Step(c, s, e).lists.wake
  {
    hide Touches, Sort, Backwards, Interval;
  }

  /** The call stays until a round begins: along any run without one, the worker can begin whenever it is idle. */
  lemma {:induction false} CalledUntilRound(c: Config, s: State, es: seq<Event>, physical: int)
    requires c.prealloc && CanRun(c, s, es) && NoRound(es) && s.lists.wake
    ensures var s' := After(c, s, es);
      s'.lists.wake && (Worker !in s'.flights ==> Enabled(c, s', WorkerBegin(physical)))
    decreases |es|
  {
    hide Step;
    if es != [] {
      WakeStays(c, s, es[0]);
      CalledUntilRound(c, Step(c, s, es[0]), es[1..], physical);
    }
  }

  /** Only the worker maps pages for the pool. */
  ghost predicate WorkerFills(s: State) {
    forall t :: t in s.flights ==> (s.flights[t].job.ForPool? <==> t == Worker)
  }

  lemma StepWorkerFills(c: Config, s: State, e: Event)
    requires WorkerFills(s) && Enabled(c, s, e)
    ensures WorkerFills(Step(c, s, e))
  {
    hide Touches, Sort, Backwards, Interval;
  }

  lemma PoolStep(c: Config, s: State, e: Event)
    requires !c.deferUnmap && c.minReserved <= c.maxReserved
    requires WorkerFills(s) && Enabled(c, s, e) && PoolBounded(c, s)
    ensures PoolBounded(c, Step(c, s, e))
  {
    hide Touches, Sort;
    if e.FreeBegin? {
      FreeLists(c, s.lists, e.pages);
    }
  }

  /** Without deferred unmapping the pool and the pages the worker is mapping for it never exceed
      maxReserved + minReserved, over every interleaving. */
  lemma {:induction false} PoolNeverOverflows(c: Config, s: State, es: seq<Event>)
    requires !c.deferUnmap && c.minReserved <= c.maxReserved
    requires WorkerFills(s) && PoolBounded(c, s) && CanRun(c, s, es)
    ensures PoolBounded(c, After(c, s, es))
    decreases |es|
  {
    if es != [] {
      PoolStep(c, s, es[0]);
      StepWorkerFills(c, s, es[0]);
      PoolNeverOverflows(c, Step(c, s, es[0]), es[1..]);
    }
  }

  /** No pages are freed while the worker is mapping pages for the pool. */
  ghost predicate FreesAvoidWorker(c: Config, s: State, es: seq<Event>)
    requires CanRun(c, s, es)
    decreases |es|
  {
    es == [] || ((es[0].FreeBegin? ==> Worker !in s.flights) && FreesAvoidWorker(c, Step(c, s, es[0]), es[1..]))
  }

  lemma PoolStepApart(c: Config, s: State, e: Event)
    requires !c.deferUnmap && c.minReserved <= c.maxReserved
    requires WorkerFills(s) && Enabled(c, s, e) && (e.FreeBegin? ==> Worker !in s.flights)
    requires |s.lists.reserved| + Filling(s) <= c.maxReserved
    ensures |Step(c, s, e).lists.reserved| + Filling(Step(c, s, e)) <= c.maxReserved
  {
    hide Touches, Sort;
    if e.FreeBegin? {
      FreeLists(c, s.lists, e.pages);
    }
  }

  /** When frees and the worker do not overlap the pool itself stays within maxReserved. */
  lemma {:induction false} PoolWithinMax(c: Config, s: State, es: seq<Event>)
    requires !c.deferUnmap && c.minReserved <= c.maxReserved
    requires WorkerFills(s) && |s.lists.reserved| + Filling(s) <= c.maxReserved
    requires CanRun(c, s, es) && FreesAvoidWorker(c, s, es)
    ensures |After(c, s, es).lists.reserved| + Filling(After(c, s, es)) <= c.maxReserved
    decreases |es|
  {
    if es != [] {
      PoolStepApart(c, s, es[0]);
      StepWorkerFills(c, s, es[0]);
      PoolWithinMax(c, Step(c, s, es[0]), es[1..]);
    }
  }
}
