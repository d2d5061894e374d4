/** Every step of the page allocator keeps the machine's invariant: no page is duplicated, dropped or
    handed out unmapped, whatever the interleaving and whichever ranks fail. */
module Conservation {
  import opened Seqs
  import opened PageLists
  import opened Machine

  // ---- moving pages between places ----------------------------------------------------------

  /** Only the places src and dst changed: the pages in moved went from src to dst. */
  ghost predicate Moved(s: State, s': State, src: Place, dst: Place, moved: set<PageId>) {
    && src != dst && s'.Bound() == s.Bound()
    && (forall p :: p in moved ==> At(s, src, p))
    && (forall p :: At(s', src, p) <==> At(s, src, p) && p !in moved)
    && (forall p :: At(s', dst, p) <==> At(s, dst, p) || p in moved)
    && (forall pl, p :: pl != src && pl != dst ==> (At(s', pl, p) <==> At(s, pl, p)))
  }

  /** Pages stay in one place each, and if none was missing none is. */
  ghost predicate StayPut(s: State, s': State) {
    Exclusive(s') && (Covered(s) ==> Covered(s'))
  }

  lemma MoveSomewhere(s: State, s': State, src: Place, dst: Place, moved: set<PageId>, p: PageId)
    requires Moved(s, s', src, dst, moved)
    ensures Somewhere(s', p) <==> Somewhere(s, p)
  {
    if pl :| At(s, pl, p) {
      assert At(s', if p in moved then dst else pl, p);
    }
    if pl :| At(s', pl, p) {
      assert At(s, if p in moved then src else pl, p);
    }
  }

  lemma MoveConserves(s: State, s': State, src: Place, dst: Place, moved: set<PageId>)
    requires Exclusive(s) && Moved(s, s', src, dst, moved)
    ensures StayPut(s, s')
  {
    forall p, a, b | At(s', a, p) && At(s', b, p) ensures a == b {
      if p in moved {
        assert At(s, src, p);
        assert a != dst ==> At(s, a, p);
        assert b != dst ==> At(s, b, p);
      } else {
        assert At(s, a, p) && At(s, b, p);
      }
    }
    forall p ensures Somewhere(s', p) <==> Somewhere(s, p) {
      MoveSomewhere(s, s', src, dst, moved, p);
    }
  }

  lemma SamePlaces(s: State, s': State)
    requires Exclusive(s) && s'.Bound() == s.Bound()
    requires forall pl, p :: At(s', pl, p) <==> At(s, pl, p)
    ensures StayPut(s, s')
  {
    forall p ensures Somewhere(s', p) <==> Somewhere(s, p) {
      if pl :| At(s, pl, p) { assert At(s', pl, p); }
      if pl :| At(s', pl, p) { assert At(s, pl, p); }
    }
  }

  /** A page that is in a list, in use or lost is in no thread's hands. */
  lemma NotFlying(s: State, pl: Place, p: PageId)
    requires Exclusive(s) && At(s, pl, p)
    ensures forall t :: t in s.flights && p in s.flights[t].pages ==> pl == Flying(t)
  {
    forall t | t in s.flights && p in s.flights[t].pages ensures pl == Flying(t) {
      assert At(s, Flying(t), p);
    }
  }

  lemma Apart(s: State, a: Place, b: Place)
    requires Exclusive(s) && a != b
    ensures forall p :: At(s, a, p) ==> !At(s, b, p)
  {
  }

  /** What a step that goes well does: the invariant is kept, and no page goes missing. */
  ghost predicate Keeps(s: State, s': State) {
    Inv(s') && (Covered(s) ==> Covered(s'))
  }

  // ---- the parts of the invariant that list changes leave alone ------------------------------

  ghost predicate Rest(s: State) {
    WellFormed(s) && Charged(s) && Backed(s)
  }

  lemma ListsOnly(s: State, l: Lists)
    requires Rest(s) && l.numTotal >= 0 && l.InUse() == s.lists.InUse()
    requires forall p :: p in l.reserved ==> p in s.lists.reserved
    ensures Rest(s.(lists := l))
  {
    assert Opening(s.(lists := l)) == Opening(s);
  }

  /** Starting an unmap of pages that are mapped everywhere. */
  lemma LaunchUnmap(s: State, l: Lists, t: Thread, job: Job, pages: seq<PageId>)
    requires Rest(s) && Idle(s, t) && !job.Maps() && (job.ForResize? ==> job.target >= 0)
    requires l.numTotal >= 0 && l.InUse() == s.lists.InUse()
    requires forall p :: p in l.reserved ==> p in s.lists.reserved
    requires forall r, p :: 0 <= r < |s.mapped| && p in pages ==> p in s.mapped[r]
    ensures Rest(Launch(s, l, t, job, pages))
  {
    assert Opening(Launch(s, l, t, job, pages)) == Opening(s);
  }

  lemma LandUnmap(s: State, t: Thread)
    requires Rest(s) && t in s.flights && !s.flights[t].job.ForAlloc?
    ensures Rest(Land(s, t))
  {
    assert Opening(Land(s, t)) == Opening(s);
  }

  // ---- initial state -------------------------------------------------------------------------

  lemma InitInv(numPages: nat, worldSize: nat)
    ensures Inv(Init(numPages, worldSize)) && Covered(Init(numPages, worldSize))
  {
    var s := Init(numPages, worldSize);
    IntervalMembers(0, numPages);
    forall p ensures Somewhere(s, p) <==> 0 <= p < s.Bound() {
      if 0 <= p < numPages { assert At(s, Free, p); }
    }
    assert Opening(s) == {};
  }

  // ---- alloc_page ---------------------------------------------------------------------------

  lemma HeadTail(s: seq<PageId>)
    requires NoDup(s) && s != []
    ensures NoDup(s[1..])
    ensures forall p :: p in s[1..] <==> p in s && p != s[0]
  {
    assert s == [s[0]] + s[1..];
  }

  lemma TakeReady(s: State, l: Lists, p: PageId)
    requires Rest(s) && s.lists.reserved != [] && p == s.lists.reserved[0] && p !in s.inUse
    requires l.numTotal == s.lists.numTotal && l.numFree == s.lists.numFree - 1 && l.reserved == s.lists.reserved[1..]
    ensures Rest(s.(lists := l, inUse := s.inUse + {p}))
  {
    var s' := s.(lists := l, inUse := s.inUse + {p});
    assert Opening(s') == Opening(s);
    assert p in s.lists.reserved;
    assert forall q :: q in l.reserved ==> q in s.lists.reserved;
    assert |s'.inUse| == |s.inUse| + 1;
  }

  lemma ReadyPlaces(c: Config, s: State, t: Thread)
    requires Exclusive(s) && NoRepeats(s) && Idle(s, t) && s.lists.reserved != []
    ensures var s' := StepAllocTry(c, s, t); StayPut(s, s') && NoRepeats(s')
    ensures s.lists.reserved[0] !in s.inUse
  {
    HeadTail(s.lists.reserved);
    var p := s.lists.reserved[0];
    assert At(s, Reserved, p) && !At(s, InUse, p);
    MoveConserves(s, StepAllocTry(c, s, t), Reserved, InUse, {p});
  }

  lemma AllocReady(c: Config, s: State, t: Thread)
    requires Inv(s) && Idle(s, t) && s.lists.reserved != []
    ensures Keeps(s, StepAllocTry(c, s, t))
  {
    hide Exclusive, NoRepeats, Covered, WellFormed, Charged, Backed;
    ReadyPlaces(c, s, t);
    TakeReady(s, StepAllocTry(c, s, t).lists, s.lists.reserved[0]);
  }

  lemma LaunchCharged(s: State, l: Lists, t: Thread, p: PageId)
    requires Charged(s) && Idle(s, t) && l.numTotal == s.lists.numTotal && l.numFree == s.lists.numFree - 1
    ensures Charged(Launch(s, l, t, ForAlloc, [p]))
  {
    assert Opening(Launch(s, l, t, ForAlloc, [p])) == Opening(s) + {t};
  }

  lemma LaunchBacked(s: State, l: Lists, t: Thread, p: PageId)
    requires Backed(s) && Idle(s, t) && l.reserved == s.lists.reserved
    ensures Backed(Launch(s, l, t, ForAlloc, [p]))
  {
  }

  lemma LaunchAlloc(s: State, l: Lists, t: Thread, p: PageId)
    requires Rest(s) && Idle(s, t)
    requires l.numTotal == s.lists.numTotal && l.numFree == s.lists.numFree - 1 && l.reserved == s.lists.reserved
    ensures Rest(Launch(s, l, t, ForAlloc, [p]))
  {
    LaunchCharged(s, l, t, p);
    LaunchBacked(s, l, t, p);
    hide Charged, Backed;
  }

  lemma AllocToMap(c: Config, s: State, t: Thread)
    requires Inv(s) && Idle(s, t) && s.lists.reserved == [] && s.lists.free != []
    ensures Keeps(s, StepAllocTry(c, s, t))
  {
    var l, p := TryAlloc(c, s.lists).0, s.lists.free[0];
    HeadTail(s.lists.free);
    MoveConserves(s, Launch(s, l, t, ForAlloc, [p]), Free, Flying(t), {p});
    LaunchAlloc(s, l, t, p);
  }

  lemma LandAlloc(c: Config, s: State, t: Thread)
    requires Rest(s) && Answered(s, t) && s.flights[t].job.ForAlloc? && s.flights[t].pages[0] !in s.inUse
    ensures Rest(StepAllocDone(c, s, t))
  {
    assert Opening(StepAllocDone(c, s, t)) == Opening(s) - {t};
  }

  lemma AllocDelivered(c: Config, s: State, t: Thread)
    requires Inv(s) && Answered(s, t) && s.flights[t].job.ForAlloc?
    ensures Keeps(s, StepAllocDone(c, s, t))
  {
    var s', p := StepAllocDone(c, s, t), s.flights[t].pages[0];
    assert s.flights[t].pages == [p];
    assert At(s, Flying(t), p) && !At(s, InUse, p) && !At(s, Free, p);
    MoveConserves(s, s', Flying(t), if s.flights[t].failed then Free else InUse, {p});
    NoDupConcat([p], s.lists.free);
    LandAlloc(c, s, t);
  }

  // ---- free_pages ----------------------------------------------------------------------------

  /** How many of n freed pages stay mapped in the reserved pool. */
  function Kept(c: Config, l: Lists, n: nat): nat {
    var room := if c.deferUnmap then n else c.maxReserved - |l.reserved|;
    if room <= 0 then 0 else if room < n then room else n
  }

  lemma FreeLists(c: Config, l: Lists, pages: seq<PageId>)
    ensures var (l', u) := FreePages(c, l, pages); var k := Kept(c, l, |pages|);
      && l' == l.(numFree := l.numFree + |pages|, reserved := l.reserved + pages[..k])
      && (u.Pages? ==> u.pages == pages[k..])
      && (u.Nothing? ==> pages[k..] == [])
  {
    assert pages[..0] == [] && pages[0..] == pages && l.reserved + [] == l.reserved;
  }

  function PoolPages(s: State, pages: seq<PageId>): State {
    s.(inUse := s.inUse - Elems(pages),
       lists := s.lists.(numFree := s.lists.numFree + |pages|, reserved := s.lists.reserved + pages))
  }

  function SendPages(s: State, t: Thread, pages: seq<PageId>): State {
    Launch(s.(inUse := s.inUse - Elems(pages)), s.lists.(numFree := s.lists.numFree + |pages|), t, ForFree, pages)
  }

  /** free_pages pools the first pages and sends the rest off to be unmapped. */
  lemma FreeInTwoParts(c: Config, s: State, t: Thread, pages: seq<PageId>)
    ensures var k := Kept(c, s.lists, |pages|); var s' := StepFreeBegin(c, s, t, pages);
      (s' == PoolPages(s, pages) && pages == pages[..k]) || s' == SendPages(PoolPages(s, pages[..k]), t, pages[k..])
  {
    var k := Kept(c, s.lists, |pages|);
    FreeLists(c, s.lists, pages);
    assert pages == pages[..k] + pages[k..];
    assert s.inUse - Elems(pages) == PoolPages(s, pages[..k]).inUse - Elems(pages[k..]);
  }

  lemma Pooled(s: State, pages: seq<PageId>)
    requires Inv(s) && NoDup(pages) && Elems(pages) <= s.inUse
    ensures Keeps(s, PoolPages(s, pages))
  {
    var s' := PoolPages(s, pages);
    Apart(s, Reserved, InUse);
    forall p | p in s.lists.reserved ensures p !in pages {
      assert At(s, Reserved, p);
    }
    NoDupConcat(s.lists.reserved, pages);
    MoveConserves(s, s', InUse, Reserved, Elems(pages));
    NoDupCard(pages);
    assert |s.inUse - Elems(pages)| == |s.inUse| - |Elems(pages)|;
    assert Opening(s') == Opening(s);
  }

  lemma Sent(s: State, t: Thread, pages: seq<PageId>)
    requires Inv(s) && Idle(s, t) && NoDup(pages) && Elems(pages) <= s.inUse
    ensures Keeps(s, SendPages(s, t, pages))
  {
    var s1 := s.(inUse := s.inUse - Elems(pages), lists := s.lists.(numFree := s.lists.numFree + |pages|));
    MoveConserves(s, SendPages(s, t, pages), InUse, Flying(t), Elems(pages));
    NoDupCard(pages);
    assert |s.inUse - Elems(pages)| == |s.inUse| - |Elems(pages)|;
    assert Opening(s1) == Opening(s);
    LaunchUnmap(s1, s1.lists, t, ForFree, pages);
  }

  lemma FreeKept(c: Config, s: State, t: Thread, pages: seq<PageId>)
    requires Inv(s) && Idle(s, t) && NoDup(pages) && Elems(pages) <= s.inUse
    ensures Keeps(s, StepFreeBegin(c, s, t, pages))
  {
    var k := Kept(c, s.lists, |pages|);
    FreeInTwoParts(c, s, t, pages);
    NoDupSplit(pages, k);
    Pooled(s, pages);
    Pooled(s, pages[..k]);
    Sent(PoolPages(s, pages[..k]), t, pages[k..]);
  }

  // ---- trim and resize -----------------------------------------------------------------------

  lemma ReservedLaunched(s: State, t: Thread, job: Job)
    requires Inv(s) && Idle(s, t) && !job.Maps() && (job.ForResize? ==> job.target >= 0)
    ensures Keeps(s, Launch(s, s.lists.(reserved := []), t, job, s.lists.reserved))
  {
    var ps := s.lists.reserved;
    var s' := Launch(s, s.lists.(reserved := []), t, job, ps);
    MoveConserves(s, s', Reserved, Flying(t), Elems(ps));
    LaunchUnmap(s, s.lists.(reserved := []), t, job, ps);
  }

  lemma ReclaimLists(l: Lists, k: nat, target: int)
    requires k <= |l.free| && NoDup(l.free) && NoDup(l.reclaimed)
    requires forall p :: p in l.free ==> p !in l.reclaimed
    ensures var l' := Reclaim(l, k, target); var moved := Elems(l.free[|l.free| - k..]);
      && NoDup(l'.free) && NoDup(l'.reclaimed)
      && |l'.reclaimed| == |l.reclaimed| + k
      && (forall p :: p in l'.free <==> p in l.free && p !in moved)
      && (forall p :: p in l'.reclaimed <==> p in l.reclaimed || p in moved)
      && (forall p :: p in moved ==> p in l.free)
  {
    var moved := l.free[|l.free| - k..];
    NoDupSplit(l.free, |l.free| - k);
    BackwardsMembers(moved);
    NoDupConcat(l.reclaimed, Backwards(moved));
  }

  lemma ReclaimKept(s: State, k: nat, target: int)
    requires Inv(s) && k <= |s.lists.free| && target == s.lists.numTotal - k >= 0
    ensures Keeps(s, s.(lists := Reclaim(s.lists, k, target)))
  {
    var l' := Reclaim(s.lists, k, target);
    Apart(s, Free, Reclaimed);
    forall p | p in s.lists.free ensures p !in s.lists.reclaimed {
      assert At(s, Free, p) && !At(s, Reclaimed, p);
    }
    ReclaimLists(s.lists, k, target);
    MovedToReclaimed(s, l', Elems(s.lists.free[|s.lists.free| - k..]));
  }

  lemma MovedToReclaimed(s: State, l': Lists, moved: set<PageId>)
    requires Inv(s) && l'.numTotal >= 0 && l'.InUse() == s.lists.InUse() && l'.reserved == s.lists.reserved
    requires l'.numTotal + |l'.reclaimed| == s.Bound()
    requires NoDup(l'.free) && NoDup(l'.reclaimed)
    requires forall p :: p in l'.free <==> p in s.lists.free && p !in moved
    requires forall p :: p in l'.reclaimed <==> p in s.lists.reclaimed || p in moved
    requires forall p :: p in moved ==> p in s.lists.free
    ensures Keeps(s, s.(lists := l'))
  {
    MoveConserves(s, s.(lists := l'), Free, Reclaimed, moved);
    ListsOnly(s, l');
  }

  ghost function FreshIds(c: Config, l: Lists, target: int): seq<PageId>
    requires l.numTotal < target
  {
    var first := FirstFresh(c, l, target);
    Interval(first, first + (target - l.numTotal - Reused(l, target)))
  }

  lemma FreshMembers(c: Config, l: Lists, target: int)
    requires l.numTotal < target && l.InUse() <= target
    ensures NoDup(FreshIds(c, l, target))
    ensures forall p :: p in FreshIds(c, l, target) <==> FreshId(c, l, target, p)
    ensures Expand(c, l, target).free == l.free + l.reclaimed[..Reused(l, target)] + FreshIds(c, l, target)
  {
    var first := FirstFresh(c, l, target);
    IntervalMembers(first, first + (target - l.numTotal - Reused(l, target)));
  }

  lemma ExpandLists(c: Config, l: Lists, target: int)
    requires target > l.numTotal && l.InUse() <= target
    requires NoDup(l.free) && NoDup(l.reclaimed)
    requires forall p :: p in l.free ==> p !in l.reclaimed
    requires forall p :: FreshId(c, l, target, p) ==> p !in l.free && p !in l.reclaimed
    ensures var l' := Expand(c, l, target); var r := Reused(l, target);
      && NoDup(l'.free) && NoDup(l'.reclaimed)
      && (forall p :: p in l'.free <==> p in l.free || p in l.reclaimed[..r] || FreshId(c, l, target, p))
      && (forall p :: p in l'.reclaimed <==> p in l.reclaimed && p !in l.reclaimed[..r])
  {
    var back := l.reclaimed[..Reused(l, target)];
    NoDupSplit(l.reclaimed, Reused(l, target));
    FreshMembers(c, l, target);
    hide FreshId, FirstFresh;
    forall p | p in l.free ensures p !in back {
      assert p in back ==> p in l.reclaimed;
    }
    NoDupConcat(l.free, back);
    var newIds := FreshIds(c, l, target);
    forall p | p in l.free + back ensures p !in newIds {
      assert p in l.free || p in l.reclaimed;
    }
    NoDupConcat(l.free + back, newIds);
  }

  function Expansion(c: Config, s: State, target: int): State
    requires target > s.lists.numTotal
  {
    s.(lists := Expand(c, s.lists, target), lost := set p | p in s.lost && !FreshId(c, s.lists, target, p))
  }

  /** Where pages are after an expansion: reclaimed ones are back, fresh ones are free and no longer lost. */
  lemma ExpandedPlaces(c: Config, s: State, target: int)
    requires Inv(s) && target > s.lists.numTotal && !Clashes(c, s, target) && s.lists.InUse() <= target
    ensures var s' := Expansion(c, s, target); var back := s.lists.reclaimed[..Reused(s.lists, target)];
      && NoRepeats(s') && (forall p :: p in back ==> At(s, Reclaimed, p))
      && (forall p :: At(s', Free, p) <==> At(s, Free, p) || p in back || FreshId(c, s.lists, target, p))
      && (forall p :: At(s', Reclaimed, p) <==> At(s, Reclaimed, p) && p !in back)
      && (forall p :: At(s', Lost, p) <==> At(s, Lost, p) && !FreshId(c, s.lists, target, p))
  {
    var l := s.lists;
    forall p | p in l.free ensures p !in l.reclaimed {
      assert At(s, Free, p) && !At(s, Reclaimed, p);
    }
    forall p | FreshId(c, l, target, p) ensures p !in l.free && p !in l.reclaimed {
      assert !InHand(s, p);
      assert !At(s, Free, p) && !At(s, Reclaimed, p);
    }
    ExpandLists(c, l, target);
    NoDupSplit(l.reclaimed, Reused(l, target));
  }

  lemma ExpandedExclusive(c: Config, s: State, target: int)
    requires Inv(s) && target > s.lists.numTotal && !Clashes(c, s, target) && s.lists.InUse() <= target
    ensures Exclusive(Expansion(c, s, target)) && NoRepeats(Expansion(c, s, target))
  {
    ExpandedPlaces(c, s, target);
    hide FreshId, Expand, NoRepeats, WellFormed, Charged, Backed;
    var s' := Expansion(c, s, target);
    var back := s.lists.reclaimed[..Reused(s.lists, target)];
    forall p, a, b | At(s', a, p) && At(s', b, p) ensures a == b {
      if FreshId(c, s.lists, target, p) {
        assert !InHand(s, p);
        FreshOnlyFree(c, s, target, p, a);
        FreshOnlyFree(c, s, target, p, b);
      } else if p in back {
        assert At(s, Reclaimed, p);
        assert a != Free ==> At(s, a, p);
        assert b != Free ==> At(s, b, p);
      } else {
        assert At(s, a, p) && At(s, b, p);
      }
    }
    forall p | Somewhere(s', p) ensures 0 <= p < s'.Bound() {
      var pl :| At(s', pl, p);
      BoundGrows(c, s, target, p);
      if !FreshId(c, s.lists, target, p) {
        assert At(s, if p in back then Reclaimed else pl, p) && Somewhere(s, p);
      }
    }
  }

  lemma BoundGrows(c: Config, s: State, target: int, p: PageId)
    requires WellFormed(s) && s.lists.numTotal < target
    ensures s.Bound() <= Expansion(c, s, target).Bound()
    ensures FreshId(c, s.lists, target, p) ==> 0 <= p < Expansion(c, s, target).Bound()
  {
  }

  lemma FreshOnlyFree(c: Config, s: State, target: int, p: PageId, pl: Place)
    requires Inv(s) && target > s.lists.numTotal && !Clashes(c, s, target) && s.lists.InUse() <= target
    requires FreshId(c, s.lists, target, p) && At(Expansion(c, s, target), pl, p)
    ensures pl == Free
  {
    ExpandedPlaces(c, s, target);
    hide FreshId, Expand, NoRepeats, WellFormed, Charged, Backed;
    assert !InHand(s, p);
    assert pl != Free && pl != Lost ==> At(s, pl, p);
  }

  lemma ExpandedCovered(c: Config, s: State, target: int)
    requires Inv(s) && target > s.lists.numTotal && !Clashes(c, s, target) && s.lists.InUse() <= target
    requires Covered(s) && !Collides(c, s.lists, target)
    ensures Covered(Expansion(c, s, target))
  {
    ExpandedPlaces(c, s, target);
    hide NoRepeats, WellFormed, Charged, Backed;
    var s' := Expansion(c, s, target);
    var back := s.lists.reclaimed[..Reused(s.lists, target)];
    forall p ensures Somewhere(s', p) <==> 0 <= p < s'.Bound() {
      if pl :| At(s', pl, p) {
        assert FreshId(c, s.lists, target, p) || At(s, if p in back then Reclaimed else pl, p);
        assert FreshId(c, s.lists, target, p) || Somewhere(s, p);
      }
      if 0 <= p < s.Bound() {
        assert Somewhere(s, p);
        var pl :| At(s, pl, p);
        assert At(s', if p in back || FreshId(c, s.lists, target, p) then Free else pl, p);
      } else if 0 <= p < s'.Bound() {
        assert At(s', Free, p);
      }
    }
  }

  lemma ExpandedRest(c: Config, s: State, target: int)
    requires Inv(s) && target > s.lists.numTotal
    ensures Rest(Expansion(c, s, target))
  {
    var l' := Expand(c, s.lists, target);
    ListsOnly(s, l');
    var s' := Expansion(c, s, target);
    assert Opening(s') == Opening(s);
  }

  /** An expansion that clashes with nothing keeps the invariant, and coverage too if it does not collide. */
  lemma ExpandKept(c: Config, s: State, target: int)
    requires Inv(s) && target > s.lists.numTotal && !Clashes(c, s, target) && s.lists.InUse() <= target
    ensures Inv(Expansion(c, s, target))
    ensures Covered(s) && !Collides(c, s.lists, target) ==> Covered(Expansion(c, s, target))
  {
    hide Clashes, Collides, Expansion, Covered;
    ExpandedExclusive(c, s, target);
    ExpandedRest(c, s, target);
    if Covered(s) && !Collides(c, s.lists, target) {
      ExpandedCovered(c, s, target);
    }
  }

  lemma TrimKept(s: State, t: Thread)
    requires Inv(s) && Idle(s, t)
    ensures Keeps(s, StepTrimBegin(s, t))
  {
    if s.lists.reserved != [] {
      ReservedLaunched(s, t, ForTrim);
    }
  }

  lemma NothingFresh(c: Config, s: State, target: int)
    requires target < s.lists.InUse() || target <= s.lists.numTotal
    ensures (set p | p in s.lost && !FreshId(c, s.lists, target, p)) == s.lost
  {
  }

  lemma ResizeKept(c: Config, s: State, t: Thread, target: int)
    requires Inv(s) && Idle(s, t) && !Clashes(c, s, target)
    ensures Inv(StepResizeBegin(c, s, t, target))
    ensures Covered(s) && !Collides(c, s.lists, target) ==> Covered(StepResizeBegin(c, s, t, target))
  {
    var l := s.lists;
    if target >= l.InUse() && target > l.numTotal {
      ExpandKept(c, s, target);
    } else {
      NothingFresh(c, s, target);
      if target < l.InUse() || target == l.numTotal {
      } else if |l.free| >= l.numTotal - target {
        ReclaimKept(s, l.numTotal - target, target);
      } else if l.reserved != [] {
        ReservedLaunched(s, t, ForResize(target));
      }
    }
  }

  lemma LandedUnmap(s: State, t: Thread, failed: bool)
    requires Inv(s) && t in s.flights && !s.flights[t].job.Maps()
    ensures failed ==> Keeps(s, Land(s, t).(lost := s.lost + Elems(s.flights[t].pages)))
    ensures !failed ==> Keeps(s, Land(s, t).(lists := Unmapped(s.lists, s.flights[t].pages)))
  {
    var ps := s.flights[t].pages;
    var lost := Land(s, t).(lost := s.lost + Elems(ps));
    var back := Land(s, t).(lists := Unmapped(s.lists, ps));
    LandUnmap(s, t);
    if failed {
      MoveConserves(s, lost, Flying(t), Lost, Elems(ps));
      assert Opening(lost) == Opening(s);
    } else {
      MoveConserves(s, back, Flying(t), Free, Elems(ps));
      forall p | p in s.lists.free ensures p !in ps {
        assert At(s, Free, p) && !At(s, Flying(t), p);
      }
      NoDupConcat(s.lists.free, ps);
      ListsOnly(Land(s, t), back.lists);
    }
  }

  lemma UnmapDoneKept(s: State, t: Thread)
    requires Inv(s) && Answered(s, t) && !s.flights[t].job.Maps()
    ensures Keeps(s, StepUnmapDone(s, t))
  {
    var f := s.flights[t];
    LandedUnmap(s, t, f.failed);
    if !f.failed && f.job.ForResize? {
      var back := Unmapped(s.lists, f.pages);
      var k := back.numTotal - f.job.target;
      if 0 <= k <= |back.free| {
        ReclaimKept(Land(s, t).(lists := back), k, f.job.target);
      }
    }
  }

  // ---- preallocation worker ------------------------------------------------------------------

  lemma WorkerBeginKept(c: Config, s: State, physical: int)
    requires Inv(s) && Worker !in s.flights
    ensures Keeps(s, StepWorkerBegin(c, s, physical))
  {
    var (l, ps) := WorkerTake(c, s.lists, physical);
    if ps == [] {
      SamePlaces(s, s.(lists := l));
      ListsOnly(s, l);
    } else {
      NoDupSplit(s.lists.free, |ps|);
      var s' := Launch(s, l, Worker, ForPool, ps);
      MoveConserves(s, s', Free, Flying(Worker), Elems(ps));
      assert Opening(s') == Opening(s);
    }
  }

  lemma WorkerDoneKept(s: State)
    requires Inv(s) && Answered(s, Worker)
    ensures Keeps(s, StepWorkerDone(s))
  {
    var f := s.flights[Worker];
    var s' := StepWorkerDone(s);
    var dst := if f.failed then Free else Reserved;
    MoveConserves(s, s', Flying(Worker), dst, Elems(f.pages));
    forall p | p in f.pages ensures p !in s.lists.free && p !in s.lists.reserved {
      assert At(s, Flying(Worker), p) && !At(s, Free, p) && !At(s, Reserved, p);
    }
    NoDupConcat(f.pages, s.lists.free);
    NoDupConcat(s.lists.reserved, f.pages);
    assert Opening(s') == Opening(s);
  }

  // ---- ranks ---------------------------------------------------------------------------------

  lemma AnswerPlaces(s: State, t: Thread, r: nat, ok: bool, now: set<PageId>)
    requires Inv(s) && t in s.flights && r < |s.mapped|
    ensures var s' := Answer(s, t, r, ok, now);
      StayPut(s, s') && NoRepeats(s') && WellFormed(s') && Charged(s')
  {
    var s' := Answer(s, t, r, ok, now);
    assert Opening(s') == Opening(s);
    SamePlaces(s, s');
  }

  /** Pages a thread is working on are in no one else's hands. */
  lemma OnlyTheirs(s: State, t: Thread, p: PageId)
    requires Inv(s) && t in s.flights && p in s.flights[t].pages
    ensures p !in s.inUse && p !in s.lists.reserved
    ensures forall u :: u in s.flights && u != t ==> p !in s.flights[u].pages
  {
    assert At(s, Flying(t), p);
    assert !At(s, InUse, p) && !At(s, Reserved, p);
    NotFlying(s, Flying(t), p);
  }

  lemma Untouched(pages: seq<PageId>, before: set<PageId>, now: set<PageId>, p: PageId)
    requires Touches(pages, before, now) && p !in pages
    ensures p in now <==> p in before
  {
    assert p in now - Elems(pages) <==> p in before - Elems(pages);
  }

  lemma RankKept(s: State, t: Thread, r: nat, ok: bool, now: set<PageId>)
    requires Inv(s) && t in s.flights && r < |s.mapped| && r in s.flights[t].pending
    requires Touches(s.flights[t].pages, s.mapped[r], now)
    requires s.flights[t].job.Maps() && ok ==> Elems(s.flights[t].pages) <= now
    ensures Keeps(s, Answer(s, t, r, ok, now))
  {
    var s' := Answer(s, t, r, ok, now);
    AnswerPlaces(s, t, r, ok, now);
    forall q, p | 0 <= q < |s'.mapped| && (p in s'.inUse || p in s'.lists.reserved) ensures p in s'.mapped[q] {
      if p in s.flights[t].pages { OnlyTheirs(s, t, p); }
      Untouched(s.flights[t].pages, s.mapped[r], now, p);
    }
    forall u, q, p | u in s'.flights && 0 <= q < |s'.mapped| && p in s'.flights[u].pages && MustBeMapped(s'.flights[u], q)
      ensures p in s'.mapped[q]
    {
      if u != t {
        if p in s.flights[t].pages { OnlyTheirs(s, t, p); }
        Untouched(s.flights[t].pages, s.mapped[r], now, p);
      } else if q == r {
        assert p in Elems(s.flights[t].pages);
      }
    }
  }

  lemma ResetKept(s: State)
    requires Inv(s)
    ensures Keeps(s, s.(lists := SortFree(s.lists)))
  {
    var s' := s.(lists := SortFree(s.lists));
    SortSorts(s.lists.free);
    SamePlaces(s, s');
    ListsOnly(s, s'.lists);
  }

  lemma TriggerKept(c: Config, s: State)
    requires Inv(s)
    ensures Keeps(s, s.(lists := AllocMapped(c, s.lists)))
  {
    var s' := s.(lists := AllocMapped(c, s.lists));
    SamePlaces(s, s');
    ListsOnly(s, s'.lists);
  }

  // ---- every step ----------------------------------------------------------------------------

  /** Any step but a clashing expansion keeps the invariant; any but a colliding one keeps coverage as well. */
  lemma StepKeepsInv(c: Config, s: State, e: Event)
    requires Inv(s) && Enabled(c, s, e) && !Clash(c, s, e)
    ensures Inv(Step(c, s, e))
    ensures Covered(s) && !Collision(c, s, e) ==> Covered(Step(c, s, e))
  {
    hide Inv, Covered, Clashes, Collides, StepAllocTry, StepAllocDone, StepFreeBegin, StepTrimBegin, StepResizeBegin,
      StepUnmapDone, StepWorkerBegin, StepWorkerDone, Answer, Touches;
    match e
    case AllocTry(t) => TryKept(c, s, t);
    case AllocDone(t) => AllocDelivered(c, s, t);
    case FreeBegin(t, pages) => FreeKept(c, s, t, pages);
    case TrimBegin(t) => TrimKept(s, t);
    case ResizeBegin(t, target) => ResizeKept(c, s, t, target);
    case UnmapDone(t) => UnmapDoneKept(s, t);
    case WorkerBegin(physical) => WorkerBeginKept(c, s, physical);
    case WorkerDone => WorkerDoneKept(s);
    case RankMap(t, r, now, ok) => RankKept(s, t, r, ok, now);
    case RankUnmap(t, r, now, ok) => RankKept(s, t, r, ok, now);
    case Trigger => TriggerKept(c, s);
    case ResetOrder => ResetKept(s);
  }

  lemma TryKept(c: Config, s: State, t: Thread)
    requires Inv(s) && Idle(s, t)
    ensures Keeps(s, StepAllocTry(c, s, t))
  {
    if s.lists.reserved != [] {
      AllocReady(c, s, t);
    } else if s.lists.free != [] {
      AllocToMap(c, s, t);
    }
  }

  /** A clashing expansion puts an id on the free list that a list, a caller or a thread already has. */
  lemma ClashDuplicates(c: Config, s: State, e: Event)
    requires Inv(s) && Enabled(c, s, e) && Clash(c, s, e)
    ensures !Inv(Step(c, s, e))
    ensures exists p :: InHand(s, p) && FreshId(c, s.lists, e.target, p) && p in Step(c, s, e).lists.free
  {
    var l, target, s' := s.lists, e.target, Step(c, s, e);
    var n :| FreshId(c, l, target, n) && InHand(s, n);
    var pl :| pl != Lost && At(s, pl, n);
    FreshMembers(c, l, target);
    var newIds := FreshIds(c, l, target);
    hide FreshIds, FirstFresh, Backed, Charged, WellFormed;
    assert n in newIds && n in s'.lists.free;
    if pl == Free || pl == Reclaimed {
      var front := l.free + l.reclaimed[..Reused(l, target)];
      AllReused(c, l, target, n);
      assert n in front;
      TwiceThere(front, newIds, n);
      assert !NoRepeats(s');
    } else {
      assert At(s', Free, n) && At(s', pl, n);
      assert !Exclusive(s');
    }
  }

  lemma AllReused(c: Config, l: Lists, target: int, p: PageId)
    requires FreshId(c, l, target, p)
    ensures l.reclaimed[..Reused(l, target)] == l.reclaimed
  {
  }

  lemma TwiceThere(a: seq<PageId>, b: seq<PageId>, p: PageId)
    requires p in a && p in b
    ensures !NoDup(a + b)
  {
    NoDupApart(a, b);
  }

  /** The exact statement: a step keeps the invariant if and only if it is no clashing expansion. */
  lemma StepIff(c: Config, s: State, e: Event)
    requires Inv(s) && Enabled(c, s, e)
    ensures Inv(Step(c, s, e)) <==> !Clash(c, s, e)
  {
    hide Inv, Clash, Step, Enabled;
    if Clash(c, s, e) { ClashDuplicates(c, s, e); } else { StepKeepsInv(c, s, e); }
  }
}
