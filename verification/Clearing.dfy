/** clear: what it gives back, and when the null block can be reserved again afterwards. */
module Clearing {
  import opened BlockMath
  import opened InternalPages
  import opened PageDict
  import opened PageLists
  import opened Machine
  import opened Seqs
  import opened KVCacheManagers
  import A = Accounting
  import C = Capacity
  import M = Manager
  import P = ManagerProofs
  import W = Wholes

  ghost function Pooled(l: Lists): set<PageId> {
    Elems(l.free) + Elems(l.reserved) + Elems(l.reclaimed)
  }

  lemma Concat(a: seq<PageId>, b: seq<PageId>)
    ensures Elems(a + b) == Elems(a) + Elems(b)
  {
  }

  lemma FreedArePooled(c: Config, l: Lists, pages: seq<PageId>)
    ensures Pooled(FreeWhole(c, l, pages, true).0) == Pooled(l) + Elems(pages)
  {
    var room := if c.deferUnmap then |pages| else c.maxReserved - |l.reserved|;
    if room > 0 {
      var k := if room < |pages| then room else |pages|;
      assert pages == pages[..k] + pages[k..];
      Concat(pages[..k], pages[k..]);
      Concat(l.reserved, pages[..k]);
      Concat(l.free, pages[k..]);
    } else {
      Concat(l.free, pages);
    }
  }

  lemma ReclaimPooled(l: Lists, k: nat, target: int)
    requires k <= |l.free|
    ensures Pooled(Reclaim(l, k, target)) == Pooled(l)
  {
    var keep := |l.free| - k;
    BackwardsMembers(l.free[keep..]);
    var tail := l.free[keep..];
    forall p ensures p in Elems(Backwards(tail)) <==> p in Elems(tail) {
      assert p in Backwards(tail) <==> p in tail;
    }
    assert Elems(Backwards(tail)) == Elems(tail);
    assert l.free == l.free[..keep] + l.free[keep..];
    Concat(l.free[..keep], l.free[keep..]);
    Concat(l.reclaimed, Backwards(l.free[keep..]));
  }

  lemma ExpandPooled(c: Config, l: Lists, target: int)
    requires target >= l.numTotal
    ensures Pooled(l) <= Pooled(Expand(c, l, target))
  {
    var r := Reused(l, target);
    assert l.reclaimed == l.reclaimed[..r] + l.reclaimed[r..];
    Concat(l.reclaimed[..r], l.reclaimed[r..]);
  }

  lemma EmptiedPool(l: Lists)
    ensures Pooled(Unmapped(l.(reserved := []), l.reserved)) == Pooled(l)
  {
    Concat(l.free, l.reserved);
  }

  lemma ResizePooled(c: Config, l: Lists, target: int, unmapOk: bool)
    requires !ResizeWhole(c, l, target, unmapOk).1.Raises?
    ensures Pooled(l) <= Pooled(ResizeWhole(c, l, target, unmapOk).0)
  {
    hide Expand, Reclaim, Pooled;
    var k := l.numTotal - target;
    var back := Unmapped(l.(reserved := []), l.reserved);
    EmptiedPool(l);
    if target >= l.InUse() && target > l.numTotal {
      ExpandPooled(c, l, target);
    } else if target >= l.InUse() && target < l.numTotal && |l.free| >= k {
      ReclaimPooled(l, k, target);
    } else if target >= l.InUse() && target < l.numTotal && |back.free| >= k {
      ReclaimPooled(back, k, target);
    }
  }

  lemma TrimPooled(l: Lists)
    ensures Pooled(TrimWhole(l, true).0) == Pooled(l) && TrimWhole(l, true).0.reserved == []
  {
    Concat(l.free, l.reserved);
  }

  lemma SortPooled(l: Lists)
    ensures Pooled(SortFree(l)) == Pooled(l)
  {
    SortSorts(l.free);
  }

  lemma {:induction false} KeysAreIds(d: seq<Page>)
    ensures Elems(Keys(d)) == Ids(d)
  {
    if d != [] {
      var front := d[..|d| - 1];
      KeysAreIds(front);
      assert Keys(d) == Keys(front) + [d[|d| - 1].id];
    }
  }

  /** A free that returns loses no page: what the manager had it still has, or it is pooled again. */
  lemma FreeLosesNothing(z: Sizes, c: Config, m: M.Mgr, l: Lists, indices: seq<int>, order: seq<int>,
                         unmapOk: bool, shrinkOk: bool)
    requires z.Valid() && P.MgrOk(z, m) && NoDup(indices) && Elems(indices) <= P.Allocated(m)
    requires M.Enumerates(z, indices, order)
    requires FreeCall(z, c, m, l, indices, order, unmapOk, shrinkOk).returned
    ensures var a := FreeCall(z, c, m, l, indices, order, unmapOk, shrinkOk);
      Pooled(l) + P.Owned(m) <= Pooled(a.l) + P.Owned(a.m)
  {
    hide P.MgrOk, P.Allocated, ResizeWhole, RetryPages, M.FreeGroups, FreeWhole;
    if indices != [] {
      P.FreeGroupsOk(z, m, indices, order);
      var (m1, gone) := M.FreeGroups(z, m, indices, order);
      FreedArePooled(c, l, gone);
      FreedOnly(c, l, gone);
      var l1 := if gone == [] then l else FreeWhole(c, l, gone, unmapOk).0;
      if M.ShrinkDue(z, m1) {
        ResizePooled(c, l1, RetryPages(z, m1), shrinkOk);
      }
    }
  }

  lemma FreedOnly(c: Config, l: Lists, pages: seq<PageId>)
    ensures !FreeWhole(c, l, pages, false).1 || FreeWhole(c, l, pages, false) == FreeWhole(c, l, pages, true)
  {
  }

  /** A clear that returns leaves the manager fresh and the pool empty, with the free list in order, and
      every page there was is free or reclaimed. */
  lemma ClearRestores(z: Sizes, c: Config, m: M.Mgr, l: Lists, order: seq<int>, unmapOk: bool, shrinkOk: bool,
                      releaseOk: bool, trimOk: bool)
    requires z.Valid() && P.MgrOk(z, m) && C.ReservedOk(m) && M.Enumerates(z, m.reserved, order)
    requires ClearCall(z, c, m, l, order, unmapOk, shrinkOk, releaseOk, trimOk).returned
    ensures var a := ClearCall(z, c, m, l, order, unmapOk, shrinkOk, releaseOk, trimOk);
      && a.m == M.Fresh && a.l.reserved == [] && Ascending(a.l.free)
      && Pooled(l) + P.Owned(m) <= Elems(a.l.free) + Elems(a.l.reclaimed)
  {
    hide P.MgrOk, P.Allocated, FreeCall, FreeWhole, M.Enumerates, TrimWhole, SortFree, Pooled;
    FreeReturned(z, c, m, l, order, unmapOk, shrinkOk);
    FreeLosesNothing(z, c, m, l, m.reserved, order, unmapOk, shrinkOk);
    var a := FreeReservedCall(z, c, m, l, order, unmapOk, shrinkOk);
    var gone := Keys(a.m.avail) + Keys(a.m.full);
    Concat(Keys(a.m.avail), Keys(a.m.full));
    KeysAreIds(a.m.avail);
    KeysAreIds(a.m.full);
    FreedArePooled(c, a.l, gone);
    FreedOnly(c, a.l, gone);
    var l1 := if gone == [] then a.l else FreeWhole(c, a.l, gone, releaseOk).0;
    TrimPooled(l1);
    TrimmedOnly(l1);
    SortPooled(TrimWhole(l1, trimOk).0);
    Sorted(TrimWhole(l1, trimOk).0);
  }

  lemma FreeReturned(z: Sizes, c: Config, m: M.Mgr, l: Lists, order: seq<int>, unmapOk: bool, shrinkOk: bool)
    requires z.Valid() && FreeReservedCall(z, c, m, l, order, unmapOk, shrinkOk).returned
    ensures FreeCall(z, c, m, l, m.reserved, order, unmapOk, shrinkOk).returned
    ensures FreeReservedCall(z, c, m, l, order, unmapOk, shrinkOk).m.reserved == []
  {
  }

  lemma TrimmedOnly(l: Lists)
    ensures TrimWhole(l, false).1 ==> TrimWhole(l, false) == TrimWhole(l, true)
  {
  }

  lemma Sorted(l: Lists)
    ensures Ascending(SortFree(l).free) && SortFree(l).reserved == l.reserved
    ensures Pooled(SortFree(l)) == Elems(SortFree(l).free) + Elems(l.reserved) + Elems(SortFree(l).reclaimed)
  {
    SortSorts(l.free);
  }

  // ---- the allocator after a clear -----------------------------------------------------------------

  lemma {:induction false} KeysApart(d: seq<Page>, full: bool)
    requires DictOk(d, full)
    ensures NoDup(Keys(d)) && Elems(Keys(d)) == Ids(d)
  {
    if d != [] {
      var front, last := d[..|d| - 1], d[|d| - 1].id;
      KeysApart(front, full);
      var keys := Keys(front);
      assert Keys(d) == keys + [last];
      assert last in keys ==> last in Elems(keys);
      NoDupSnoc(keys, last);
    }
  }

  /** The pages given back together are the manager's, each once. */
  lemma AllKeys(z: Sizes, m: M.Mgr)
    requires z.Valid() && P.MgrOk(z, m)
    ensures var gone := Keys(m.avail) + Keys(m.full); NoDup(gone) && Elems(gone) == P.Owned(m)
  {
    KeysApart(m.avail, false);
    KeysApart(m.full, true);
    hide Keys, Ids, DictOk, P.PagesPlaced;
    Concat(Keys(m.avail), Keys(m.full));
    forall p | p in Keys(m.avail) ensures p !in Keys(m.full) {
      assert p in Elems(Keys(m.avail)) && (p in Keys(m.full) ==> p in Elems(Keys(m.full)));
    }
    NoDupConcat(Keys(m.avail), Keys(m.full));
  }

  /** The pages that hold the reserved blocks, given back. */
  ghost function AfterGiving(c: Config, s: State, gone: seq<PageId>): State {
    if gone == [] then s
    else s.(lists := FreeWhole(c, s.lists, gone, true).0, inUse := s.inUse - Elems(gone))
  }

  /** clear frees the reserved blocks first, and that may retry a pending shrink: here the resize gives out an id
      that is in hand, or mixes reclaimed and fresh pages. */
  ghost predicate RetryClashes(z: Sizes, c: Config, m: M.Mgr, s: State, order: seq<int>)
    requires z.Valid()
  {
    var (m1, gone) := M.FreeGroups(z, m, m.reserved, order);
    m.reserved != [] && M.ShrinkDue(z, m1) && Clashes(c, AfterGiving(c, s, gone), RetryPages(z, m1))
  }

  ghost predicate RetryCollides(z: Sizes, c: Config, m: M.Mgr, s: State, order: seq<int>)
    requires z.Valid()
  {
    var (m1, gone) := M.FreeGroups(z, m, m.reserved, order);
    m.reserved != [] && M.ShrinkDue(z, m1) && Collides(c, AfterGiving(c, s, gone).lists, RetryPages(z, m1))
  }

  lemma TablesDoNotClash(c: Config, s: State, s': State, target: int)
    requires s' == s.(mapped := s'.mapped)
    ensures Clashes(c, s', target) <==> Clashes(c, s, target)
  {
    hide FreshId;
    forall p ensures InHand(s', p) <==> InHand(s, p) {
      if pl :| pl != Lost && At(s, pl, p) { assert At(s', pl, p); }
      if pl :| pl != Lost && At(s', pl, p) { assert At(s, pl, p); }
    }
  }

  /** The pages without blocks are given back. */
  lemma GivenBack(c: Config, s: State, gone: seq<PageId>) returns (s1: State)
    requires W.Quiet(s) && NoDup(gone) && Elems(gone) <= s.inUse
    ensures W.Quiet(s1) && (Covered(s) ==> Covered(s1)) && s1 == AfterGiving(c, s, gone).(mapped := s1.mapped)
  {
    hide Inv, Covered, FreeWhole;
    if gone == [] {
      s1 := s;
    } else {
      s1 := W.FreeAlone(c, s, gone);
    }
  }

  lemma ReturnedWell(c: Config, l: Lists, target: int)
    ensures !ResizeWhole(c, l, target, false).1.Raises? ==>
              ResizeWhole(c, l, target, false) == ResizeWhole(c, l, target, true)
  {
  }

  lemma ReservedGroups(z: Sizes, m: M.Mgr, order: seq<int>)
    requires z.Valid() && P.MgrOk(z, m) && C.ReservedOk(m) && M.Enumerates(z, m.reserved, order)
    ensures var (m1, gone) := M.FreeGroups(z, m, m.reserved, order);
      P.MgrOk(z, m1) && NoDup(gone) && Elems(gone) <= P.Owned(m) && P.Owned(m1) == P.Owned(m) - Elems(gone)
  {
    P.FreeGroupsOk(z, m, m.reserved, order);
  }

  /** free_reserved by a lone caller, as a run of the machine. */
  lemma ReservedFreed(z: Sizes, c: Config, m: M.Mgr, s: State, order: seq<int>, unmapOk: bool, shrinkOk: bool)
    returns (s2: State)
    requires z.Valid() && P.MgrOk(z, m) && C.ReservedOk(m) && M.Enumerates(z, m.reserved, order)
    requires W.Quiet(s) && P.Owned(m) == s.inUse && !RetryClashes(z, c, m, s, order)
    requires FreeReservedCall(z, c, m, s.lists, order, unmapOk, shrinkOk).returned
    ensures var a := FreeReservedCall(z, c, m, s.lists, order, unmapOk, shrinkOk);
      && W.Quiet(s2) && s2.lists == a.l && P.MgrOk(z, a.m) && P.Owned(a.m) == s2.inUse && s2.lost <= s.lost
      && (Covered(s) && !RetryCollides(z, c, m, s, order) ==> Covered(s2))
  {
    if m.reserved == [] {
      s2 := s;
    } else {
      ReservedGroups(z, m, order);
      var (m1, gone) := M.FreeGroups(z, m, m.reserved, order);
      FieldsOnly(z, m1);
      GroupsKeepReserved(z, m, m.reserved, order);
      FreedOnly(c, s.lists, gone);
      hide P.MgrOk, P.Owned, M.FreeGroups, M.Enumerates, FreeWhole, ResizeWhole, Clashes, Collides, Inv, Covered,
        M.ShrinkDue, RetryPages, C.ReservedOk, AfterGiving, FreeReservedCall;
      var s1 := GivenBack(c, s, gone);
      GivingDoes(c, s, gone);
      s2 := Retried(z, c, m1, AfterGiving(c, s, gone), s1, shrinkOk);
      CallInParts(z, c, m, s.lists, order, unmapOk, shrinkOk, m1, gone);
    }
  }

  lemma {:induction false} GroupsKeepReserved(z: Sizes, m: M.Mgr, indices: seq<int>, order: seq<int>)
    requires z.Valid()
    ensures M.FreeGroups(z, m, indices, order).0.reserved == m.reserved
  {
    if order != [] {
      GroupsKeepReserved(z, m, indices, order[..|order| - 1]);
    }
  }

  lemma GivingDoes(c: Config, s: State, gone: seq<PageId>)
    ensures var s1 := AfterGiving(c, s, gone);
      && s1.lists == (if gone == [] then s.lists else FreeWhole(c, s.lists, gone, true).0)
      && s1.inUse == s.inUse - Elems(gone) && s1.lost == s.lost
  {
    if gone == [] { P.ElemsNone(); }
  }

  /** The fields and lists once free's shrink test is over. */
  function AfterTest(z: Sizes, c: Config, m: M.Mgr, l: Lists, shrinkOk: bool): (M.Mgr, Lists, bool)
    requires z.Valid()
  {
    if !M.ShrinkDue(z, m) then (m, l, true)
    else
      var (l2, reply) := ResizeWhole(c, l, RetryPages(z, m), shrinkOk);
      (if reply.Raises? then m else M.ShrinkOver(m), l2, !reply.Raises?)
  }

  lemma CallInParts(z: Sizes, c: Config, m: M.Mgr, l: Lists, order: seq<int>, unmapOk: bool, shrinkOk: bool,
                    m1: M.Mgr, gone: seq<PageId>)
    requires z.Valid() && m.reserved != [] && FreeReservedCall(z, c, m, l, order, unmapOk, shrinkOk).returned
    requires M.FreeGroups(z, m, m.reserved, order) == (m1, gone)
    ensures var a := FreeReservedCall(z, c, m, l, order, unmapOk, shrinkOk);
      var l1 := if gone == [] then l else FreeWhole(c, l, gone, true).0;
      var (m2, l2, ok) := AfterTest(z, c, m1, l1, shrinkOk);
      ok && a.m == m2.(reserved := []) && a.l == l2
  {
    hide M.FreeGroups, M.ShrinkDue, FreeWhole, ResizeWhole, RetryPages, AfterTest;
    FreedOnly(c, l, gone);
    var l1 := if gone == [] then l else FreeWhole(c, l, gone, true).0;
    TestDoes(z, c, m1, l1, shrinkOk);
    var f := FreeCall(z, c, m, l, m.reserved, order, unmapOk, shrinkOk);
    assert f == AfterOf(AfterTest(z, c, m1, l1, shrinkOk));
  }

  function AfterOf(t: (M.Mgr, Lists, bool)): After {
    After(t.0, t.1, t.2)
  }

  lemma TestDoes(z: Sizes, c: Config, m: M.Mgr, l: Lists, shrinkOk: bool)
    requires z.Valid()
    ensures var r := ResizeWhole(c, l, RetryPages(z, m), shrinkOk);
      AfterOf(AfterTest(z, c, m, l, shrinkOk))
        == if !M.ShrinkDue(z, m) then After(m, l, true)
           else if r.1.Raises? then After(m, r.0, false) else After(M.ShrinkOver(m), r.0, true)
  {
    hide M.ShrinkDue, ResizeWhole, RetryPages;
  }

  /** free's shrink test as a run of the machine; s is s1 but for what the ranks have mapped. */
  lemma Retried(z: Sizes, c: Config, m: M.Mgr, s: State, s1: State, shrinkOk: bool) returns (s2: State)
    requires z.Valid() && W.Quiet(s1) && s1 == s.(mapped := s1.mapped)
    requires M.ShrinkDue(z, m) && AfterTest(z, c, m, s.lists, shrinkOk).2 ==> !Clashes(c, s, RetryPages(z, m))
    ensures var (m2, l2, ok) := AfterTest(z, c, m, s.lists, shrinkOk);
      ok ==>
        && W.Quiet(s2) && s2.lists == l2 && s2.inUse == s.inUse && s2.lost <= s.lost
        && (m2 == m || m2 == M.ShrinkOver(m))
        && (Covered(s1) && !(M.ShrinkDue(z, m) && Collides(c, s.lists, RetryPages(z, m))) ==> Covered(s2))
  {
    s2 := s1;
    hide ResizeWhole, Clashes, Collides, Inv, Covered, M.ShrinkDue, RetryPages;
    if M.ShrinkDue(z, m) && AfterTest(z, c, m, s.lists, shrinkOk).2 {
      TablesDoNotClash(c, s, s1, RetryPages(z, m));
      s2 := W.ResizeAlone(c, s1, RetryPages(z, m));
      ReturnedWell(c, s1.lists, RetryPages(z, m));
    }
  }

  /** Ending a shrink and clearing the reserved list change nothing about the pages. */
  lemma FieldsOnly(z: Sizes, m: M.Mgr)
    requires z.Valid() && P.MgrOk(z, m)
    ensures P.MgrOk(z, m.(reserved := [])) && P.MgrOk(z, M.ShrinkOver(m).(reserved := []))
    ensures P.Owned(m.(reserved := [])) == P.Owned(M.ShrinkOver(m).(reserved := [])) == P.Owned(m)
  {
  }

  /** A clear that returns, with nobody at work: the state t just before the free list is sorted. Every page is back,
      the pool is empty, and the page allocator's invariant holds, so that no page is listed twice and the counter is
      right; if no id was missing none is. */
  lemma ClearedState(z: Sizes, c: Config, m: M.Mgr, s: State, order: seq<int>, unmapOk: bool, shrinkOk: bool,
                     releaseOk: bool, trimOk: bool) returns (t: State)
    requires z.Valid() && P.MgrOk(z, m) && C.ReservedOk(m) && M.Enumerates(z, m.reserved, order)
    requires W.Quiet(s) && P.Owned(m) == s.inUse && !RetryClashes(z, c, m, s, order)
    requires ClearCall(z, c, m, s.lists, order, unmapOk, shrinkOk, releaseOk, trimOk).returned
    ensures ClearCall(z, c, m, s.lists, order, unmapOk, shrinkOk, releaseOk, trimOk).l == SortFree(t.lists)
    ensures W.Quiet(t) && t.inUse == {} && t.lists.reserved == [] && t.lost <= s.lost
    ensures Covered(s) && !RetryCollides(z, c, m, s, order) ==> Covered(t)
  {
    hide P.MgrOk, P.Owned, FreeReservedCall, FreeWhole, TrimWhole, SortFree, M.Enumerates, Inv, Covered, Keys,
      RetryClashes, RetryCollides, C.ReservedOk;
    var s2 := ReservedFreed(z, c, m, s, order, unmapOk, shrinkOk);
    var a := FreeReservedCall(z, c, m, s.lists, order, unmapOk, shrinkOk);
    AllKeys(z, a.m);
    var gone := Keys(a.m.avail) + Keys(a.m.full);
    var s3 := GivenBack(c, s2, gone);
    FreedOnly(c, s2.lists, gone);
    t := W.TrimAlone(c, s3);
    TrimmedOnly(s3.lists);
    TrimPooled(s3.lists);
  }

  /** The page lists after such a clear: every page counted as free, none in use, none listed twice. */
  lemma ClearLeavesAll(z: Sizes, c: Config, m: M.Mgr, s: State, order: seq<int>, unmapOk: bool, shrinkOk: bool,
                       releaseOk: bool, trimOk: bool)
    requires z.Valid() && P.MgrOk(z, m) && C.ReservedOk(m) && M.Enumerates(z, m.reserved, order)
    requires W.Quiet(s) && P.Owned(m) == s.inUse && !RetryClashes(z, c, m, s, order)
    requires ClearCall(z, c, m, s.lists, order, unmapOk, shrinkOk, releaseOk, trimOk).returned
    ensures var l := ClearCall(z, c, m, s.lists, order, unmapOk, shrinkOk, releaseOk, trimOk).l;
      && l.InUse() == 0 && NoDup(l.free + l.reclaimed) && l.reserved == []
      && (Covered(s) && !RetryCollides(z, c, m, s, order) ==> |l.free| <= l.numFree <= |l.free| + |s.lost|)
  {
    var t := ClearedState(z, c, m, s, order, unmapOk, shrinkOk, releaseOk, trimOk);
    hide ClearCall, RetryClashes, RetryCollides, P.MgrOk, P.Owned, M.Enumerates, C.ReservedOk;
    ListsOfCleared(t);
    SubsetCard(t.lost, s.lost);
  }

  lemma ListsOfCleared(t: State)
    requires W.Quiet(t) && t.inUse == {} && t.lists.reserved == []
    ensures var l := SortFree(t.lists);
      && l.InUse() == 0 && NoDup(l.free + l.reclaimed) && l.reserved == []
      && (Covered(t) ==> l.numFree == |l.free| + |t.lost|)
  {
    var l := t.lists;
    SortSorts(l.free);
    assert |Sort(l.free)| == |multiset(Sort(l.free))| == |multiset(l.free)| == |l.free|;
    forall p | p in Sort(l.free) ensures p !in l.reclaimed {
      assert At(t, Free, p) && !At(t, Reclaimed, p);
    }
    NoDupConcat(Sort(l.free), l.reclaimed);
    assert Opening(t) == {} && A.Away(t) == {};
    if Covered(t) { A.FreeCountMeaning(t); }
  }

  // ---- the null block ----------------------------------------------------------------------------

  lemma IdSetMember(ids: seq<nat>, n: nat, p: int)
    requires n <= |ids| && p in P.IdSet(ids[..n])
    ensures p in ids
    decreases n
  {
    if n > 0 && p != ids[0] {
      assert ids[..n][1..] == ids[1..][..n - 1];
      IdSetMember(ids[1..], n - 1, p);
    }
  }

  lemma FreshOk(z: Sizes)
    requires z.Valid()
    ensures P.MgrOk(z, M.Fresh) && P.Owned(M.Fresh) == {}
  {
  }

  lemma ZeroFromSupply(z: Sizes, ids: seq<nat>, o: M.Outcome)
    requires z.Valid() && o.used <= |ids| && P.LoopPromise(z, M.Fresh, 1, ids, o) && 0 in o.blocks
    ensures 0 in ids
  {
    hide P.IdSet, P.Usable, P.Allocated, BlocksPerPage;
    assert 0 in P.Allocated(o.m);
    P.AllocatedOwned(z, o.m, 0);
    FreshOk(z);
    IdSetMember(ids, o.used, 0);
  }

  /** The block 0 lies in page 0, and only a page allocator that returns page 0 makes _alloc return it. */
  lemma ZeroNeedsPageZero(z: Sizes, freePages: int, ids: seq<nat>)
    requires z.Valid() && P.NewPages({}, ids)
    requires M.Alloc(z, M.Fresh, 1, freePages, ids).1 == M.Blocks([0])
    ensures 0 in ids && z.block <= z.page && freePages >= 1
  {
    hide M.AllocLoop, P.IdSet, P.NewPages, P.LoopPromise, P.Usable;
    assert M.TakeReserved(M.Fresh, 1) == (M.Fresh, []);
    var o := M.AllocLoop(z, M.Fresh, 1, ids);
    assert [] + o.blocks == o.blocks;
    FreshOk(z);
    P.AllocLoopOk(z, M.Fresh, 1, ids);
    ZeroFromSupply(z, ids, o);
    if freePages < 1 {
      MulMonotone(freePages, 0, BlocksPerPage(z));
    }
  }

  lemma PageZeroFirst(z: Sizes, freePages: int, ids: seq<nat>)
    requires z.Valid() && ids != [] && ids[0] == 0 && z.block <= z.page && freePages >= 1
    ensures M.Alloc(z, M.Fresh, 1, freePages, ids).1 == M.Blocks([0])
  {
    FloorAbove(z.page, z.block, 1);
    MulMonotone(1, freePages, BlocksPerPage(z));
    var p := Opened(z, 0);
    FloorAbove(z.block - 1, z.block, 1);
    FloorAbove(z.block - 1, z.block, 0);
    assert p.start == 0 && p.end == BlocksPerPage(z) >= 1;
    assert p.free[..1] == [0];
    M.LoopNew(z, M.Fresh, 1, ids);
    M.LoopDone(z, M.ServeNew(z, M.Fresh, 0, 1).0, ids[1..]);
    assert M.Fresh.reserved[..0] == [] && M.Fresh.(reserved := M.Fresh.reserved[0..]) == M.Fresh;
  }

  lemma SmallestFirst(l: Lists, maps: nat)
    requires NoDup(l.free) && l.reserved == [] && 0 in l.free && maps >= 1
    requires forall p :: p in l.free ==> p >= 0
    ensures var ids := Supply(SortFree(l), maps); ids != [] && ids[0] == 0
  {
    SortSorts(l.free);
    var s := Sort(l.free);
    var i :| 0 <= i < |s| && s[i] == 0;
    assert s[0] in l.free;
    assert s[0] <= s[i];
  }

  /** After a clear with nobody at work and no id missing, the null block is block 0 exactly when a page holds a
      block, the allocator reports and maps a page, no shrink has taken page 0 away and it is not lost. */
  lemma NullBlockIsZero(z: Sizes, s: State, freePages: int, maps: nat, ids: seq<nat>)
    requires z.Valid() && Inv(s) && Covered(s) && s.flights == map[] && s.inUse == {} && s.lists.reserved == []
    requires ids == Supply(SortFree(s.lists), maps)
    ensures M.Alloc(z, M.Fresh, 1, freePages, ids).1 == M.Blocks([0])
       <==> z.block <= z.page && freePages >= 1 && maps >= 1 && s.Bound() > 0 && 0 !in s.lists.reclaimed && 0 !in s.lost
  {
    var l := s.lists;
    FreeOrReclaimed(s);
    SortSorts(l.free);
    assert SortFree(l).reserved == [];
    var k := if maps < |l.free| then maps else |l.free|;
    assert ids == Sort(l.free)[..if maps < |Sort(l.free)| then maps else |Sort(l.free)|];
    NoDupSplit(Sort(l.free), |ids|);
    P.AllNew({}, ids);
    hide Inv, M.Alloc, Sort, Supply;
    if M.Alloc(z, M.Fresh, 1, freePages, ids).1 == M.Blocks([0]) {
      ZeroNeedsPageZero(z, freePages, ids);
    } else if z.block <= z.page && freePages >= 1 && maps >= 1 && s.Bound() > 0 && 0 !in l.reclaimed && 0 !in s.lost {
      SmallestFirst(l, maps);
      PageZeroFirst(z, freePages, ids);
    }
  }

  /** After a clear that returns, with nobody at work and no id missing, reserving the null block gives block 0
      exactly when a page holds a block, one is reported and mapped, and page 0 is free; which it is unless there is no
      page, a shrink has taken it away or it was lost. */
  lemma NullBlockAfterClear(z: Sizes, c: Config, m: M.Mgr, s: State, order: seq<int>, unmapOk: bool, shrinkOk: bool,
                            releaseOk: bool, trimOk: bool, freePages: int, maps: nat, ids: seq<nat>)
    requires z.Valid() && P.MgrOk(z, m) && C.ReservedOk(m) && M.Enumerates(z, m.reserved, order)
    requires W.Quiet(s) && Covered(s) && P.Owned(m) == s.inUse
    requires !RetryClashes(z, c, m, s, order) && !RetryCollides(z, c, m, s, order)
    requires ClearCall(z, c, m, s.lists, order, unmapOk, shrinkOk, releaseOk, trimOk).returned
    requires ids == Supply(ClearCall(z, c, m, s.lists, order, unmapOk, shrinkOk, releaseOk, trimOk).l, maps)
    ensures var a := ClearCall(z, c, m, s.lists, order, unmapOk, shrinkOk, releaseOk, trimOk);
      && (M.Alloc(z, a.m, 1, freePages, ids).1 == M.Blocks([0]) <==>
          z.block <= z.page && freePages >= 1 && maps >= 1 && 0 in a.l.free)
      && (a.l.numTotal + |a.l.reclaimed| > 0 && 0 !in a.l.reclaimed && 0 !in s.lost ==> 0 in a.l.free)
  {
    var t := ClearedState(z, c, m, s, order, unmapOk, shrinkOk, releaseOk, trimOk);
    ClearRestores(z, c, m, s.lists, order, unmapOk, shrinkOk, releaseOk, trimOk);
    FreeOrReclaimed(t);
    SortSorts(t.lists.free);
    NullBlockIsZero(z, t, freePages, maps, ids);
    hide ClearCall, RetryClashes, RetryCollides, P.MgrOk, P.Owned, M.Enumerates, C.ReservedOk, Inv, Covered, M.Alloc, Sort,
      Supply;
  }

  lemma FreeOrReclaimed(s: State)
    requires Inv(s) && Covered(s) && s.flights == map[] && s.inUse == {} && s.lists.reserved == []
    ensures NoDup(s.lists.free) && forall p :: p in s.lists.free ==> p >= 0
    ensures 0 in s.lists.free <==> s.Bound() > 0 && 0 !in s.lists.reclaimed && 0 !in s.lost
  {
    forall p | p in s.lists.free ensures p >= 0 {
      assert At(s, Free, p) && Somewhere(s, p);
    }
    if 0 in s.lists.free {
      assert At(s, Free, 0) && Somewhere(s, 0) && !At(s, Reclaimed, 0) && !At(s, Lost, 0);
    }
    if s.Bound() > 0 && 0 !in s.lists.reclaimed && 0 !in s.lost {
      assert Somewhere(s, 0);
      var pl :| At(s, pl, 0);
    }
  }
}
