/** What the counters of the page allocator mean, and what holds along every run of the machine. */
module Accounting {
  import opened Seqs
  import opened PageLists
  import opened Machine
  import opened Conservation

  // ---- the free counter ----------------------------------------------------------------------

  /** Pages a thread is unmapping, or the worker is mapping. */
  ghost function Away(s: State): set<PageId> {
    set t, p | t in s.flights && !s.flights[t].job.ForAlloc? && p in s.flights[t].pages :: p
  }

  ghost function PagesOf(s: State, ts: set<Thread>): set<PageId>
    requires forall t :: t in ts ==> t in s.flights && |s.flights[t].pages| == 1
  {
    set t | t in ts :: s.flights[t].pages[0]
  }

  lemma {:induction false} OnePageEach(s: State, ts: set<Thread>)
    requires Exclusive(s)
    requires forall t :: t in ts ==> t in s.flights && |s.flights[t].pages| == 1
    ensures |PagesOf(s, ts)| == |ts|
  {
    if t :| t in ts {
      var rest := ts - {t};
      OnePageEach(s, rest);
      var p := s.flights[t].pages[0];
      assert PagesOf(s, ts) == PagesOf(s, rest) + {p};
      forall u | u in rest ensures s.flights[u].pages[0] != p {
        assert At(s, Flying(t), p) && !At(s, Flying(u), p);
      }
    }
  }

  lemma Union<T>(a: set<T>, b: set<T>)
    requires a !! b
    ensures |a + b| == |a| + |b|
  {
  }

  ghost function Uncounted(s: State): set<PageId>
    requires WellFormed(s)
  {
    Elems(s.lists.reclaimed) + s.inUse + PagesOf(s, Opening(s))
  }

  ghost function Counted(s: State): set<PageId> {
    Elems(s.lists.free) + Elems(s.lists.reserved) + Away(s) + s.lost
  }

  lemma PlaceOfCounted(s: State, p: PageId)
    requires Exclusive(s) && Covered(s) && WellFormed(s)
    ensures p in Counted(s) ==> 0 <= p < s.Bound() && p !in Uncounted(s)
    ensures p in Uncounted(s) ==> 0 <= p < s.Bound()
    ensures 0 <= p < s.Bound() ==> p in Counted(s) || p in Uncounted(s)
  {
    if p in Counted(s) {
      assert At(s, Free, p) || At(s, Reserved, p) || At(s, Lost, p) || exists t :: t in s.flights && At(s, Flying(t), p);
      assert Somewhere(s, p);
    }
    if p in Uncounted(s) {
      assert At(s, Reclaimed, p) || At(s, InUse, p) || exists t :: t in s.flights && At(s, Flying(t), p);
      assert Somewhere(s, p);
    }
    if 0 <= p < s.Bound() {
      assert Somewhere(s, p);
      var pl :| At(s, pl, p);
      if pl.Flying? && s.flights[pl.t].job.ForAlloc? {
        assert s.flights[pl.t].pages[0] == p;
      }
    }
    if p in Counted(s) && p in Uncounted(s) {
      var a :| At(s, a, p) && !a.Reclaimed? && !a.InUse? && (a.Flying? ==> !s.flights[a.t].job.ForAlloc?);
      var b :| At(s, b, p) && (b.Reclaimed? || b.InUse? || (b.Flying? && s.flights[b.t].job.ForAlloc?));
    }
  }

  /** num_free_pages_ counts every page except the reclaimed ones and those in use or being mapped for a
      caller, so pages in other threads' hands and lost pages are counted as free. */
  lemma FreeCountMeaning(s: State)
    requires Inv(s) && Covered(s)
    ensures s.lists.numFree == |s.lists.free| + |s.lists.reserved| + |Away(s)| + |s.lost|
  {
    var all := Elems(Interval(0, s.Bound()));
    IntervalMembers(0, s.Bound());
    NoDupCard(Interval(0, s.Bound()));
    forall p ensures p in all <==> p in Counted(s) + Uncounted(s) {
      PlaceOfCounted(s, p);
    }
    forall p | p in Counted(s) ensures p !in Uncounted(s) {
      PlaceOfCounted(s, p);
    }
    assert all == Counted(s) + Uncounted(s);
    Union(Counted(s), Uncounted(s));
    CountedSize(s);
    UncountedSize(s);
  }

  lemma CountedSize(s: State)
    requires Exclusive(s) && NoRepeats(s)
    ensures |Counted(s)| == |s.lists.free| + |s.lists.reserved| + |Away(s)| + |s.lost|
  {
    var a, b := Elems(s.lists.free), Elems(s.lists.reserved);
    NoDupCard(s.lists.free);
    NoDupCard(s.lists.reserved);
    forall p | p in a ensures p !in b && p !in Away(s) && p !in s.lost {
      assert At(s, Free, p) && !At(s, Reserved, p) && !At(s, Lost, p);
      NotFlying(s, Free, p);
    }
    forall p | p in b ensures p !in Away(s) && p !in s.lost {
      assert At(s, Reserved, p) && !At(s, Lost, p);
      NotFlying(s, Reserved, p);
    }
    forall p | p in s.lost ensures p !in Away(s) {
      assert At(s, Lost, p);
      NotFlying(s, Lost, p);
    }
    Union(a, b);
    Union(a + b, Away(s));
    Union(a + b + Away(s), s.lost);
  }

  lemma UncountedSize(s: State)
    requires Exclusive(s) && NoRepeats(s) && WellFormed(s)
    ensures |Uncounted(s)| == |s.lists.reclaimed| + |s.inUse| + |Opening(s)|
  {
    var a, b := Elems(s.lists.reclaimed), PagesOf(s, Opening(s));
    NoDupCard(s.lists.reclaimed);
    OnePageEach(s, Opening(s));
    forall p | p in a ensures p !in s.inUse && p !in b {
      assert At(s, Reclaimed, p) && !At(s, InUse, p);
      NotFlying(s, Reclaimed, p);
    }
    forall p | p in s.inUse ensures p !in b {
      assert At(s, InUse, p);
      NotFlying(s, InUse, p);
    }
    Union(a, s.inUse);
    Union(a + s.inUse, b);
  }

  /** Pages in use, or popped and being mapped for a caller, are charged to callers. */
  ghost function ChargedPages(s: State): nat {
    |s.inUse| + |Opening(s)|
  }

  /** How alloc_page answers: from the pool, else from the free list; with both empty it says that no page is left
      exactly when every page is charged to a caller, and otherwise waits exactly when there is a worker, and
      reports an inconsistent state exactly when there is none. */
  lemma AnswerExact(c: Config, s: State)
    requires Inv(s)
    ensures var a := TryAlloc(c, s.lists).1; var empty := s.lists.reserved == [] && s.lists.free == [];
      && (a.Ready? <==> s.lists.reserved != []) && (a.ToMap? <==> s.lists.reserved == [] && s.lists.free != [])
      && (a == NoneLeft <==> empty && s.lists.numTotal <= ChargedPages(s))
      && (a == Wait <==> empty && s.lists.numTotal > ChargedPages(s) && c.prealloc)
      && (a == Inconsistent <==> empty && s.lists.numTotal > ChargedPages(s) && !c.prealloc)
  {
    hide Exclusive, NoRepeats, WellFormed, Backed;
  }

  /** While no page is missing, a caller is made to wait in alloc_page, with a worker, or told that the state is
      inconsistent, without one, exactly when pool and free list are empty but another thread or the worker holds a
      page, or one was lost; alloc_page says "No free pages left" exactly when every page is in use or being mapped
      for another caller. */
  lemma WaitingMeansAway(c: Config, s: State)
    requires Inv(s) && Covered(s)
    ensures var a := TryAlloc(c, s.lists).1; var empty := s.lists.reserved == [] && s.lists.free == [];
      var missing := Away(s) != {} || s.lost != {};
      && (a == Wait <==> empty && missing && c.prealloc) && (a == Inconsistent <==> empty && missing && !c.prealloc)
      && (a == NoneLeft <==> s.lists.numTotal == ChargedPages(s))
  {
    FreeCountMeaning(s);
  }

  ghost function Accounted(s: State): set<PageId>
    requires WellFormed(s)
  {
    Counted(s) + Uncounted(s)
  }

  lemma AccountedBelow(s: State, p: PageId)
    requires Exclusive(s) && WellFormed(s) && p in Accounted(s)
    ensures 0 <= p < s.Bound()
  {
    assert Somewhere(s, p) by {
      if p in Away(s) {
        var t :| t in s.flights && p in s.flights[t].pages;
        assert At(s, Flying(t), p);
      } else if p in PagesOf(s, Opening(s)) {
        var t :| t in Opening(s) && s.flights[t].pages[0] == p;
        assert At(s, Flying(t), p);
      } else {
        assert At(s, Free, p) || At(s, Reserved, p) || At(s, Lost, p) || At(s, Reclaimed, p) || At(s, InUse, p);
      }
    }
  }

  lemma CountedApart(s: State, p: PageId)
    requires Exclusive(s) && WellFormed(s)
    ensures !(p in Counted(s) && p in Uncounted(s))
  {
    if p in Counted(s) && p in Uncounted(s) {
      var a := WhereCounted(s, p);
      var b := WhereUncounted(s, p);
    }
  }

  lemma WhereCounted(s: State, p: PageId) returns (a: Place)
    requires p in Counted(s)
    ensures At(s, a, p) && !a.Reclaimed? && !a.InUse? && (a.Flying? ==> !s.flights[a.t].job.ForAlloc?)
  {
    if p in Away(s) {
      var t :| t in s.flights && !s.flights[t].job.ForAlloc? && p in s.flights[t].pages;
      a := Flying(t);
    } else {
      a := if p in s.lists.free then Free else if p in s.lists.reserved then Reserved else Lost;
    }
  }

  lemma WhereUncounted(s: State, p: PageId) returns (b: Place)
    requires WellFormed(s) && p in Uncounted(s)
    ensures At(s, b, p) && (b.Reclaimed? || b.InUse? || (b.Flying? && s.flights[b.t].job.ForAlloc?))
  {
    if p in PagesOf(s, Opening(s)) {
      var t :| t in Opening(s) && s.flights[t].pages[0] == p;
      b := Flying(t);
    } else {
      b := if p in s.inUse then InUse else Reclaimed;
    }
  }

  /** Even if ids are missing, the free counter covers every free, reserved, lost or travelling page. */
  lemma FreeCountCovers(s: State)
    requires Inv(s)
    ensures s.lists.numFree >= |s.lists.free| + |s.lists.reserved| + |Away(s)| + |s.lost|
  {
    var all := Elems(Interval(0, s.Bound()));
    IntervalMembers(0, s.Bound());
    NoDupCard(Interval(0, s.Bound()));
    forall p | p in Accounted(s) ensures p in all {
      AccountedBelow(s, p);
      assert p in Interval(0, s.Bound());
    }
    forall p | p in Counted(s) ensures p !in Uncounted(s) {
      CountedApart(s, p);
    }
    Union(Counted(s), Uncounted(s));
    SubsetCard(Accounted(s), all);
    CountedSize(s);
    UncountedSize(s);
  }

  // ---- expansions ------------------------------------------------------------------------------

  lemma InHandIff(s: State, p: PageId)
    requires Exclusive(s) && Covered(s)
    ensures InHand(s, p) <==> 0 <= p < s.Bound() && p !in s.lost
  {
    if InHand(s, p) {
      var pl :| pl != Lost && At(s, pl, p);
      assert Somewhere(s, p) && !At(s, Lost, p);
    }
    if 0 <= p < s.Bound() && p !in s.lost {
      assert Somewhere(s, p);
      var pl :| At(s, pl, p);
    }
  }

  lemma FreshBelowBound(c: Config, s: State, target: int, p: PageId)
    ensures FreshId(c, s.lists, target, p) && p < s.Bound()
       <==> Collides(c, s.lists, target) && s.lists.numTotal <= p < target - |s.lists.reclaimed| && p < s.Bound()
  {
  }

  /** Some id from numTotal up to target - |reclaimed| is below the bound and not lost. */
  ghost predicate LiveInRange(s: State, target: int) {
    exists p :: s.lists.numTotal <= p < target - |s.lists.reclaimed| && p < s.Bound() && p !in s.lost
  }

  /** As long as no page is missing, a resize gives an id out twice exactly when it collides and one of the ids
      from numTotal up to target - |reclaimed| belongs to a page that is not lost. */
  lemma ClashIff(c: Config, s: State, target: int)
    requires Inv(s) && Covered(s)
    ensures Clashes(c, s, target)
       <==> Collides(c, s.lists, target) && LiveInRange(s, target)
  {
    hide FreshId, Collides, InHand, Covered, NoRepeats, Charged, Backed;
    if Clashes(c, s, target) {
      var p :| FreshId(c, s.lists, target, p) && InHand(s, p);
      InHandIff(s, p);
      FreshBelowBound(c, s, target, p);
    }
    forall p | Collides(c, s.lists, target)
               && s.lists.numTotal <= p < target - |s.lists.reclaimed| && p < s.Bound() && p !in s.lost
      ensures Clashes(c, s, target)
    {
      FreshBelowBound(c, s, target, p);
      InHandIff(s, p);
    }
  }

  /** A collision that clashes with nothing leaves a gap: the last id below the new bound is nowhere. */
  lemma CollisionLeavesGap(c: Config, s: State, t: Thread, target: int)
    requires WellFormed(s) && Covered(s) && Collides(c, s.lists, target)
    ensures !Covered(StepResizeBegin(c, s, t, target))
  {
    var s', p := StepResizeBegin(c, s, t, target), target - 1;
    FreshMembers(c, s.lists, target);
    assert !Somewhere(s, p) && !FreshId(c, s.lists, target, p);
    assert !At(s, Free, p) && !At(s, Reclaimed, p) && !At(s, Lost, p);
    forall pl ensures !At(s', pl, p) {
      assert !At(s, pl, p);
    }
    assert s'.Bound() == target && !Somewhere(s', p);
  }

  /** Expansion keeps the ids unique and complete exactly when it does not mix reclaimed and fresh pages; it
      keeps them unique exactly when, if it does, the ids it gives out again are all lost. */
  lemma ExpandUniqueIff(c: Config, s: State, t: Thread, target: int)
    requires Inv(s) && Covered(s) && Idle(s, t)
    ensures var s' := Step(c, s, ResizeBegin(t, target));
      var mixed := !c.freshAfterReclaimed && 0 < |s.lists.reclaimed| < target - s.lists.numTotal;
      (Inv(s') && Covered(s') <==> !mixed) && (Inv(s') <==> !(mixed && LiveInRange(s, target)))
  {
    var e := ResizeBegin(t, target);
    FreeCountMeaning(s);
    MixedCollides(c, s, target);
    StepIff(c, s, e);
    ClashIff(c, s, target);
    hide Inv, Covered, Collides, Clashes, FreshId, LiveInRange, StepResizeBegin;
    assert Inv(Step(c, s, e)) <==> !(Collides(c, s.lists, target) && LiveInRange(s, target));
    if Collides(c, s.lists, target) {
      CollisionLeavesGap(c, s, t, target);
    } else {
      StepKeepsInv(c, s, e);
    }
  }

  lemma MixedCollides(c: Config, s: State, target: int)
    requires s.lists.numFree >= 0
    ensures Collides(c, s.lists, target)
       <==> !c.freshAfterReclaimed && 0 < |s.lists.reclaimed| < target - s.lists.numTotal
  {
  }
}
