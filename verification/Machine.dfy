/** The page allocator as a state machine over its locked sections. Between the sections of one call any
    other thread, the preallocation worker and every tensor-parallel rank may act, so a page is always in
    exactly one place: a list, a caller's hands, a thread that is mapping or unmapping it, or lost. */
module Machine {
  import opened Seqs
  import opened PageLists

  datatype Thread = Worker | Client(id: nat)

  datatype Job = ForAlloc | ForPool | ForFree | ForTrim | ForResize(target: int) {
    predicate Maps() { ForAlloc? || ForPool? }
  }

  /** A broadcast under way: the ranks still to answer, and whether any answered with a failure. */
  datatype Flight = Flight(job: Job, pages: seq<PageId>, pending: set<nat>, failed: bool)

  /** mapped[r] is the set of pages rank r has mapped in its KV tensors; lost are the pages that a failed unmap
      has left on no list. */
  datatype State = State(lists: Lists, inUse: set<PageId>, flights: map<Thread, Flight>,
                         lost: set<PageId>, mapped: seq<set<PageId>>)
  {
    function Ranks(): set<nat> { RanksBelow(|mapped|) }

    /** Every page id ever issued is below this bound. */
    function Bound(): int { lists.numTotal + |lists.reclaimed| }
  }

  function RanksBelow(n: nat): (ranks: set<nat>)
    ensures forall r: nat :: r in ranks <==> r < n
  {
    if n == 0 then {} else RanksBelow(n - 1) + {n - 1}
  }

  function Init(numPages: nat, worldSize: nat): State {
    State(Created(numPages), {}, map[], {}, seq(worldSize, _ => {}))
  }

  datatype Event =
    | AllocTry(t: Thread)
    | AllocDone(t: Thread)
    | FreeBegin(t: Thread, pages: seq<PageId>)
    | TrimBegin(t: Thread)
    | ResizeBegin(t: Thread, target: int)
    | UnmapDone(t: Thread)
    | WorkerBegin(physical: int)
    | WorkerDone
    | RankMap(t: Thread, r: nat, now: set<PageId>, ok: bool)
    | RankUnmap(t: Thread, r: nat, now: set<PageId>, ok: bool)
    | Trigger
    | ResetOrder

  ghost predicate Idle(s: State, t: Thread) {
    t.Client? && t !in s.flights
  }

  ghost predicate Answered(s: State, t: Thread) {
    t in s.flights && s.flights[t].pending == {}
  }

  /** Only the pages asked for may have changed. */
  ghost predicate Touches(pages: seq<PageId>, before: set<PageId>, now: set<PageId>) {
    now - Elems(pages) == before - Elems(pages)
  }

  /** A rank that reports success has carried out the whole request; one that fails may leave the pages asked
      for in any state. A rank accepts an unmap request only when all its pages are mapped there. */
  ghost predicate Enabled(c: Config, s: State, e: Event) {
    match e
    case AllocTry(t) => Idle(s, t)
    case AllocDone(t) => Answered(s, t) && s.flights[t].job.ForAlloc? && |s.flights[t].pages| == 1
    case FreeBegin(t, pages) => Idle(s, t) && NoDup(pages) && Elems(pages) <= s.inUse
    case TrimBegin(t) => Idle(s, t)
    case ResizeBegin(t, _) => Idle(s, t)
    case UnmapDone(t) => Answered(s, t) && !s.flights[t].job.Maps()
    case WorkerBegin(_) => c.prealloc && s.lists.wake && Worker !in s.flights
    case WorkerDone => Answered(s, Worker)
    case RankMap(t, r, now, ok) =>
      && t in s.flights && s.flights[t].job.Maps() && r in s.flights[t].pending && r < |s.mapped|
      && Touches(s.flights[t].pages, s.mapped[r], now) && (ok ==> Elems(s.flights[t].pages) <= now)
    case RankUnmap(t, r, now, ok) =>
      && t in s.flights && !s.flights[t].job.Maps() && r in s.flights[t].pending && r < |s.mapped|
      && Touches(s.flights[t].pages, s.mapped[r], now)
      && (ok ==> Elems(s.flights[t].pages) <= s.mapped[r] && Elems(s.flights[t].pages) !! now)
    case Trigger => true
    case ResetOrder => true
  }

  // ---- effects ----------------------------------------------------------------------------

  function Launch(s: State, l: Lists, t: Thread, job: Job, pages: seq<PageId>): State {
    s.(lists := l, flights := s.flights[t := Flight(job, pages, s.Ranks(), false)])
  }

  function Land(s: State, t: Thread): State {
    s.(flights := s.flights - {t})
  }

  function StepAllocTry(c: Config, s: State, t: Thread): State {
    var (l, a) := TryAlloc(c, s.lists);
    match a
    case Ready(p) => s.(lists := l, inUse := s.inUse + {p})
    case ToMap(p) => Launch(s, l, t, ForAlloc, [p])
    case _ => s
  }

  function StepAllocDone(c: Config, s: State, t: Thread): State
    requires t in s.flights && |s.flights[t].pages| > 0
  {
    var p := s.flights[t].pages[0];
    if s.flights[t].failed then
      Land(s, t).(lists := AllocMapFailed(s.lists, p))
    else
      Land(s, t).(lists := AllocMapped(c, s.lists), inUse := s.inUse + {p})
  }

  function StepFreeBegin(c: Config, s: State, t: Thread, pages: seq<PageId>): State {
    var (l, u) := FreePages(c, s.lists, pages);
    var s1 := s.(lists := l, inUse := s.inUse - Elems(pages));
    match u
    case Nothing => s1
    case Pages(ps) => Launch(s1, l, t, ForFree, ps)
  }

  function StepTrimBegin(s: State, t: Thread): State {
    var (l, u) := BeginTrim(s.lists);
    match u
    case Nothing => s
    case Pages(ps) => Launch(s, l, t, ForTrim, ps)
  }

  function StepResizeBegin(c: Config, s: State, t: Thread, target: int): State {
    var (l, u) := BeginResize(c, s.lists, target);
    match u
    case MustUnmap(ps) => Launch(s, l, t, ForResize(target), ps)
    case _ => s.(lists := l, lost := set p | p in s.lost && !FreshId(c, s.lists, target, p))
  }

  function StepUnmapDone(s: State, t: Thread): State
    requires t in s.flights
  {
    var f := s.flights[t];
    if f.failed then
      Land(s, t).(lost := s.lost + Elems(f.pages))
    else
      Land(s, t).(lists := if f.job.ForResize? then FinishResize(s.lists, f.pages, f.job.target).0
                           else Unmapped(s.lists, f.pages))
  }

  function StepWorkerBegin(c: Config, s: State, physical: int): State {
    var (l, ps) := WorkerTake(c, s.lists, physical);
    if ps == [] then s.(lists := l) else Launch(s, l, Worker, ForPool, ps)
  }

  function StepWorkerDone(s: State): State
    requires Worker in s.flights
  {
    var f := s.flights[Worker];
    Land(s, Worker).(lists := if f.failed then WorkerMapFailed(s.lists, f.pages)
                              else WorkerMapped(s.lists, f.pages))
  }

  function Answer(s: State, t: Thread, r: nat, ok: bool, now: set<PageId>): State
    requires t in s.flights && r < |s.mapped|
  {
    var f := s.flights[t];
    s.(mapped := s.mapped[r := now],
       flights := s.flights[t := f.(pending := f.pending - {r}, failed := f.failed || !ok)])
  }

  function Step(c: Config, s: State, e: Event): State
    requires Enabled(c, s, e)
  {
    match e
    case AllocTry(t) => StepAllocTry(c, s, t)
    case AllocDone(t) => StepAllocDone(c, s, t)
    case FreeBegin(t, pages) => StepFreeBegin(c, s, t, pages)
    case TrimBegin(t) => StepTrimBegin(s, t)
    case ResizeBegin(t, target) => StepResizeBegin(c, s, t, target)
    case UnmapDone(t) => StepUnmapDone(s, t)
    case WorkerBegin(physical) => StepWorkerBegin(c, s, physical)
    case WorkerDone => StepWorkerDone(s)
    case RankMap(t, r, now, ok) => Answer(s, t, r, ok, now)
    case RankUnmap(t, r, now, ok) => Answer(s, t, r, ok, now)
    case Trigger => s.(lists := AllocMapped(c, s.lists))
    case ResetOrder => s.(lists := SortFree(s.lists))
  }

  // ---- the invariant ----------------------------------------------------------------------

  datatype Place = Free | Reserved | Reclaimed | InUse | Flying(t: Thread) | Lost

  ghost predicate At(s: State, pl: Place, p: PageId) {
    match pl
    case Free => p in s.lists.free
    case Reserved => p in s.lists.reserved
    case Reclaimed => p in s.lists.reclaimed
    case InUse => p in s.inUse
    case Flying(t) => t in s.flights && p in s.flights[t].pages
    case Lost => p in s.lost
  }

  ghost predicate Somewhere(s: State, p: PageId) {
    exists pl :: At(s, pl, p)
  }

  /** No page is in two places, and every id in circulation is below the bound. */
  ghost predicate Exclusive(s: State) {
    && (forall p, a, b :: At(s, a, p) && At(s, b, p) ==> a == b)
    && (forall p :: Somewhere(s, p) ==> 0 <= p < s.Bound())
  }

  /** No id below the bound is missing. */
  ghost predicate Covered(s: State) {
    forall p :: Somewhere(s, p) <==> 0 <= p < s.Bound()
  }

  ghost predicate NoRepeats(s: State) {
    && NoDup(s.lists.free) && NoDup(s.lists.reserved) && NoDup(s.lists.reclaimed)
    && forall t :: t in s.flights ==> NoDup(s.flights[t].pages)
  }

  ghost predicate WellFormed(s: State) {
    && s.lists.numTotal >= 0
    && forall t :: t in s.flights ==>
      && (s.flights[t].job.ForPool? <==> t == Worker)
      && (s.flights[t].job.ForAlloc? ==> |s.flights[t].pages| == 1)
      && (s.flights[t].job.ForResize? ==> s.flights[t].job.target >= 0)
      && s.flights[t].pending <= s.Ranks()
  }

  /** Threads whose popped page is already charged to a caller. */
  ghost function Opening(s: State): set<Thread> {
    set t | t in s.flights && s.flights[t].job.ForAlloc?
  }

  ghost predicate Charged(s: State) {
    s.lists.InUse() == |s.inUse| + |Opening(s)|
  }

  ghost predicate MustBeMapped(f: Flight, r: nat) {
    if f.job.Maps() then !f.failed && r !in f.pending else r in f.pending
  }

  /** Pages that may be touched, or handed out without mapping, are mapped on every rank; a mapping request
      has been applied by every rank that answered well; an unmap request still finds its pages mapped. */
  ghost predicate Backed(s: State) {
    && (forall r, p | 0 <= r < |s.mapped| && (p in s.inUse || p in s.lists.reserved) :: p in s.mapped[r])
    && (forall t, r, p | t in s.flights && 0 <= r < |s.mapped| && p in s.flights[t].pages
          :: MustBeMapped(s.flights[t], r) ==> p in s.mapped[r])
  }

  ghost predicate Inv(s: State) {
    Exclusive(s) && NoRepeats(s) && WellFormed(s) && Charged(s) && Backed(s)
  }

  // ---- expansions that go wrong ------------------------------------------------------------

  /** Some, but not all, of the new pages come from the reclaimed list, and the code numbers the others from the
      old total. */
  predicate Collides(c: Config, l: Lists, target: int) {
    !c.freshAfterReclaimed && l.numTotal < target && l.InUse() <= target && 0 < |l.reclaimed| < target - l.numTotal
  }

  ghost predicate InHand(s: State, p: PageId) {
    exists pl :: pl != Lost && At(s, pl, p)
  }

  /** An expansion numbers a page that some list, caller or thread already has. */
  ghost predicate Clashes(c: Config, s: State, target: int) {
    exists p :: FreshId(c, s.lists, target, p) && InHand(s, p)
  }

  ghost predicate Clash(c: Config, s: State, e: Event) {
    e.ResizeBegin? && Clashes(c, s, e.target)
  }

  predicate Collision(c: Config, s: State, e: Event) {
    e.ResizeBegin? && Collides(c, s.lists, e.target)
  }
}
