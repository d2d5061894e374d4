/** Whole calls of the page allocator as runs of the machine: what the functions of PageLists say a lone caller finds
    is what the steps leave, whether the broadcast works or fails. */
module Wholes {
  import opened Conservation
  import opened Machine
  import opened PageLists
  import opened Seqs
  import RZ = Resizing

  // ---- however the broadcast ends ----------------------------------------------------------------------

  /** Thread t's request, begun in s, has been answered by every rank; meanwhile the lists have not changed. */
  ghost predicate Ended(s: State, s': State, t: Thread, ok: bool)
    requires t in s.flights
  {
    && t in s'.flights && s'.flights[t].pages == s.flights[t].pages && s'.flights[t].job == s.flights[t].job
    && s'.flights[t].failed == !ok && s'.flights[t].pending == {} && s'.lists == s.lists && s'.lost == s.lost
  }

  /** The pages of a request that failed are on no list. */
  ghost predicate LeftOut(s: State, s': State, t: Thread, ok: bool)
    requires t in s.flights
  {
    s'.lost == if ok then s.lost else s.lost + Elems(s.flights[t].pages)
  }

  /** free_pages ends where its two locked sections do; if the unmap fails it raises with the pages on no list. */
  lemma FreeIsSteps(c: Config, s: State, t: Thread, pages: seq<PageId>, s2: State, ok: bool)
    requires t !in s.flights
    requires var s1 := StepFreeBegin(c, s, t, pages); t in s1.flights ==> Ended(s1, s2, t, ok)
    ensures var s1 := StepFreeBegin(c, s, t, pages);
      && (t !in s1.flights ==> FreeWhole(c, s.lists, pages, ok) == (s1.lists, true))
      && (t in s1.flights ==> FreeWhole(c, s.lists, pages, ok) == (StepUnmapDone(s2, t).lists, ok)
                              && LeftOut(s2, StepUnmapDone(s2, t), t, ok))
  {
  }

  lemma TrimIsSteps(s: State, t: Thread, s2: State, ok: bool)
    requires t !in s.flights
    requires var s1 := StepTrimBegin(s, t); t in s1.flights ==> Ended(s1, s2, t, ok)
    ensures var s1 := StepTrimBegin(s, t);
      && (t !in s1.flights ==> TrimWhole(s.lists, ok) == (s1.lists, true))
      && (t in s1.flights ==> TrimWhole(s.lists, ok) == (StepUnmapDone(s2, t).lists, ok)
                              && LeftOut(s2, StepUnmapDone(s2, t), t, ok))
  {
  }

  /** resize likewise; it raises exactly when it had to unmap and that failed. */
  lemma ResizeIsSteps(c: Config, s: State, t: Thread, target: int, s2: State, ok: bool)
    requires t !in s.flights
    requires var s1 := StepResizeBegin(c, s, t, target); t in s1.flights ==> Ended(s1, s2, t, ok)
    ensures var s1 := StepResizeBegin(c, s, t, target); var (l, reply) := ResizeWhole(c, s.lists, target, ok);
      && (t !in s1.flights ==> l == s1.lists && !reply.Raises?)
      && (t in s1.flights ==> l == StepUnmapDone(s2, t).lists && (reply.Raises? <==> !ok)
                              && LeftOut(s2, StepUnmapDone(s2, t), t, ok))
  {
    hide Expand, Reclaim, FreshId;
  }

  // ---- calls that nobody interrupts and whose broadcasts work ------------------------------------------

  ghost predicate Quiet(s: State) {
    Inv(s) && s.flights == map[]
  }

  const Lone := Client(0)

  /** s' is s with other lists and pages in use, and perhaps other tables. */
  ghost predicate Became(s: State, s': State, l: Lists, used: set<PageId>, lost: set<PageId>) {
    s' == s.(lists := l, inUse := used, lost := lost, mapped := s'.mapped)
  }

  lemma AnsweredPlaces(s: State, s': State, t: Thread)
    requires Inv(s) && t in s.flights && s'.lists == s.lists && s'.inUse == s.inUse && s'.lost == s.lost
    requires s'.flights == s.flights[t := s.flights[t].(pending := {})]
    ensures Covered(s) ==> Covered(s')
  {
    SamePlaces(s, s');
  }

  /** The lone caller has just asked every rank to unmap. */
  ghost predicate Asked(s: State) {
    && s.flights.Keys == {Lone} && !s.flights[Lone].job.Maps() && !s.flights[Lone].failed
    && s.flights[Lone].pending == s.Ranks()
  }

  /** The lone caller's request to unmap is answered by every rank and carried out. */
  lemma Carried(c: Config, s1: State) returns (s2: State, s': State)
    requires Inv(s1) && Asked(s1)
    ensures Ended(s1, s2, Lone, true) && s' == StepUnmapDone(s2, Lone)
    ensures Quiet(s') && (Covered(s1) ==> Covered(s'))
    ensures s'.inUse == s1.inUse && s'.lost == s1.lost
  {
    RZ.RanksAnswered(c, s1, Lone, |s1.mapped|);
    s2 := RZ.UnmapOnRanks(c, s1, Lone, |s1.mapped|);
    AnsweredPlaces(s1, s2, Lone);
    UnmapDoneKept(s2, Lone);
    s' := StepUnmapDone(s2, Lone);
    hide Inv, Covered;
    assert s2.flights - {Lone} == map[];
  }

  lemma FreeAlone(c: Config, s: State, pages: seq<PageId>) returns (s': State)
    requires Quiet(s) && NoDup(pages) && Elems(pages) <= s.inUse
    ensures Quiet(s') && (Covered(s) ==> Covered(s'))
    ensures Became(s, s', FreeWhole(c, s.lists, pages, true).0, s.inUse - Elems(pages), s.lost)
  {
    FreeKept(c, s, Lone, pages);
    var s1 := StepFreeBegin(c, s, Lone, pages);
    FreeShape(c, s, pages);
    hide Inv, Covered, FreePages, StepFreeBegin;
    if Lone in s1.flights {
      var s2;
      s2, s' := Carried(c, s1);
      FreeIsSteps(c, s, Lone, pages, s2, true);
    } else {
      FreeIsSteps(c, s, Lone, pages, s1, true);
      s' := s1;
    }
  }

  lemma FreeShape(c: Config, s: State, pages: seq<PageId>)
    requires s.flights == map[]
    ensures var s1 := StepFreeBegin(c, s, Lone, pages);
      && s1.inUse == s.inUse - Elems(pages) && s1.lost == s.lost && s1.mapped == s.mapped
      && (Lone !in s1.flights ==> s1.flights == map[])
      && (Lone in s1.flights ==> Asked(s1))
  {
  }

  lemma TrimAlone(c: Config, s: State) returns (s': State)
    requires Quiet(s)
    ensures Quiet(s') && (Covered(s) ==> Covered(s'))
    ensures Became(s, s', TrimWhole(s.lists, true).0, s.inUse, s.lost)
  {
    TrimKept(s, Lone);
    var s1 := StepTrimBegin(s, Lone);
    hide Inv, Covered;
    if Lone in s1.flights {
      var s2;
      s2, s' := Carried(c, s1);
      TrimIsSteps(s, Lone, s2, true);
    } else {
      TrimIsSteps(s, Lone, s1, true);
      s' := s1;
    }
  }

  lemma ResizeAlone(c: Config, s: State, target: int) returns (s': State)
    requires Quiet(s) && !Clashes(c, s, target)
    ensures Quiet(s') && (Covered(s) && !Collides(c, s.lists, target) ==> Covered(s'))
    ensures Became(s, s', ResizeWhole(c, s.lists, target, true).0, s.inUse, s'.lost) && s'.lost <= s.lost
  {
    ResizeKept(c, s, Lone, target);
    ResizeShape(c, s, target);
    var s1 := StepResizeBegin(c, s, Lone, target);
    hide Inv, Covered, Clashes, BeginResize, StepResizeBegin;
    if Lone in s1.flights {
      var s2;
      s2, s' := Carried(c, s1);
      ResizeIsSteps(c, s, Lone, target, s2, true);
    } else {
      ResizeIsSteps(c, s, Lone, target, s1, true);
      s' := s1;
    }
  }

  lemma ResizeShape(c: Config, s: State, target: int)
    requires s.flights == map[]
    ensures var s1 := StepResizeBegin(c, s, Lone, target);
      && s1.inUse == s.inUse && s1.lost <= s.lost && s1.mapped == s.mapped
      && (Lone !in s1.flights ==> s1.flights == map[])
      && (Lone in s1.flights ==> Asked(s1))
  {
    hide Expand, Reclaim, FreshId;
  }
}
