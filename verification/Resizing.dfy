/** resize with no other call in progress and every rank answering: when it succeeds and what it leaves. */
module Resizing {
  import opened Seqs
  import opened PageLists
  import opened Machine
  import opened Conservation
  import opened Accounting

  /** Ranks n-1, ..., 0 answer thread t's unmap request successfully. */
  ghost function UnmapOnRanks(c: Config, s: State, t: Thread, n: nat): State
    requires t in s.flights && n <= |s.mapped|
    ensures t in UnmapOnRanks(c, s, t, n).flights && |UnmapOnRanks(c, s, t, n).mapped| == |s.mapped|
    decreases n
  {
    if n == 0 then s
    else UnmapOnRanks(c, Answer(s, t, n - 1, true, s.mapped[n - 1] - Elems(s.flights[t].pages)), t, n - 1)
  }

  lemma {:induction false} RanksAnswered(c: Config, s: State, t: Thread, n: nat)
    requires Inv(s) && t in s.flights && !s.flights[t].job.Maps() && n <= |s.mapped|
    requires s.flights[t].pending == RanksBelow(n) && !s.flights[t].failed
    ensures var s' := UnmapOnRanks(c, s, t, n);
      && Inv(s') && s'.lists == s.lists && s'.inUse == s.inUse && s'.lost == s.lost
      && s'.flights == s.flights[t := s.flights[t].(pending := {})]
    decreases n
  {
    if n > 0 {
      var e := RankUnmap(t, n - 1, s.mapped[n - 1] - Elems(s.flights[t].pages), true);
      forall p | p in s.flights[t].pages ensures p in s.mapped[n - 1] {
        assert MustBeMapped(s.flights[t], n - 1);
      }
      StepKeepsInv(c, s, e);
      assert RanksBelow(n) - {n - 1} == RanksBelow(n - 1);
      RanksAnswered(c, Step(c, s, e), t, n - 1);
    } else {
      assert s.flights == s.flights[t := s.flights[t].(pending := {})];
    }
  }

  /** A whole resize call by thread t, with its result. */
  ghost function Resize(c: Config, s: State, t: Thread, target: int): (State, bool)
    requires Idle(s, t)
  {
    var s1 := StepResizeBegin(c, s, t, target);
    match BeginResize(c, s.lists, target).1
    case Refused => (s1, false)
    case Resized => (s1, true)
    case MustUnmap(pages) =>
      var s2 := UnmapOnRanks(c, s1, t, |s1.mapped|);
      (StepUnmapDone(s2, t), FinishResize(s2.lists, pages, target).1)
  }

  lemma UnmappedThenFinished(c: Config, s: State, t: Thread, target: int)
    requires Inv(s) && Idle(s, t) && BeginResize(c, s.lists, target).1.MustUnmap?
    ensures var l := s.lists.(reserved := []);
      && Resize(c, s, t, target).0.lists == FinishResize(l, s.lists.reserved, target).0
      && Resize(c, s, t, target).1 == FinishResize(l, s.lists.reserved, target).1
      && Resize(c, s, t, target).0.inUse == s.inUse
      && Inv(Resize(c, s, t, target).0)
  {
    var s1 := StepResizeBegin(c, s, t, target);
    ResizeKept(c, s, t, target);
    RanksAnswered(c, s1, t, |s1.mapped|);
    UnmapDoneKept(UnmapOnRanks(c, s1, t, |s1.mapped|), t);
  }

  /** With nobody else mapping or unmapping, resize succeeds exactly when the target holds the pages in use
      and the lost ones. Then the total is the target and the pages in use are untouched; a refusal leaves
      the total alone. */
  lemma ResizeExact(c: Config, s: State, t: Thread, target: int)
    requires Inv(s) && Covered(s) && s.flights == map[] && t.Client?
    ensures var (s', ok) := Resize(c, s, t, target);
      && (ok <==> target >= |s.inUse| + |s.lost|)
      && s'.lists.numTotal == (if ok then target else s.lists.numTotal)
      && s'.inUse == s.inUse
      && s'.lists.InUse() == s.lists.InUse()
  {
    FreeCountMeaning(s);
    assert Away(s) == {} && Opening(s) == {};
    if BeginResize(c, s.lists, target).1.MustUnmap? {
      UnmappedThenFinished(c, s, t, target);
    }
  }

  /** The same of the page lists alone, for a call whose unmapping works. */
  lemma ResizeWholeExact(c: Config, s: State, target: int)
    requires Inv(s) && Covered(s) && s.flights == map[]
    ensures var (l, reply) := ResizeWhole(c, s.lists, target, true);
      && reply == Done(target >= |s.inUse| + |s.lost|)
      && l.numTotal == (if target >= |s.inUse| + |s.lost| then target else s.lists.numTotal)
      && l.InUse() == s.lists.InUse()
  {
    FreeCountMeaning(s);
    assert Away(s) == {} && Opening(s) == {};
  }

  /** With nothing lost as well, neither of the late refusals of the shrinking path is ever taken: a request
      that covers the pages in use always succeeds. */
  lemma ShrinkNeverFailsLate(c: Config, s: State, t: Thread, target: int)
    requires Inv(s) && Covered(s) && s.flights == map[] && t.Client? && s.lost == {} && target >= s.lists.InUse()
    ensures !BeginResize(c, s.lists, target).1.Refused?
    ensures BeginResize(c, s.lists, target).1.MustUnmap?
            ==> FinishResize(s.lists.(reserved := []), s.lists.reserved, target).1
  {
    FreeCountMeaning(s);
    assert Away(s) == {} && Opening(s) == {};
  }

  /** A whole resize keeps the invariant, and so every page in use mapped on every rank, exactly when it does
      not clash. */
  lemma ResizeKeepsInvIff(c: Config, s: State, t: Thread, target: int)
    requires Inv(s) && Idle(s, t)
    ensures Inv(Resize(c, s, t, target).0) <==> !Clashes(c, s, target)
  {
    var e := ResizeBegin(t, target);
    StepIff(c, s, e);
    hide Inv, Clashes;
    if BeginResize(c, s.lists, target).1.MustUnmap? {
      NoClashUnmapping(c, s, target);
      UnmappedThenFinished(c, s, t, target);
    }
  }

  lemma NoClashUnmapping(c: Config, s: State, target: int)
    requires BeginResize(c, s.lists, target).1.MustUnmap?
    ensures !Clashes(c, s, target)
  {
  }

  /** Shrinking four pages to three and growing to six puts page 3 on the free list twice. */
  lemma CollisionHappens()
    ensures var c := Config(0, 0, false, true, false);
      var l3 := BeginResize(c, Created(4), 3).0;
      Collides(c, l3, 6) && !NoDup(BeginResize(c, l3, 6).0.free)
  {
    var c, l := Config(0, 0, false, true, false), Created(4);
    var l3 := Reclaim(l, 1, 3);
    assert l3.free[..] == l.free[..3] && l3.reclaimed == Backwards(l.free[3..]);
    assert l3.reclaimed[0] == 3 && |l3.reclaimed| == 1;
    var free := Expand(c, l3, 6).free;
    assert free == l3.free + l3.reclaimed[..1] + Interval(3, 5);
    assert free[3] == free[4] == 3;
  }
}
