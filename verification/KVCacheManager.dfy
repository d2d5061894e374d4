/** The KVCacheManager class working on its page allocator, for calls that nothing else interleaves with; how
    each broadcast ends is an input. The interleavings are the subject of System.dfy, on the same functions. */
module KVCacheManagers {
  import opened BlockMath
  import opened InternalPages
  import opened PageDict
  import opened PageLists
  import M = Manager
  import PA = PageAllocators

  // ---- what the calls that reach the page allocator leave -------------------------------------------

  /** Manager fields, page lists, and whether the call returned rather than raised. */
  datatype After = After(m: M.Mgr, l: Lists, returned: bool)

  /** The pages for the blocks of a pending shrink's target. */
  function RetryPages(z: Sizes, m: M.Mgr): int
    requires z.Valid()
  {
    PA.Truncated(m.target * z.block, z.page)
  }

  function FreeCall(z: Sizes, c: Config, m: M.Mgr, l: Lists, indices: seq<int>, order: seq<int>,
                    unmapOk: bool, shrinkOk: bool): After
    requires z.Valid()
  {
    if indices == [] then After(m, l, true)
    else
      var (m1, gone) := M.FreeGroups(z, m, indices, order);
      var (l1, ok) := if gone == [] then (l, true) else FreeWhole(c, l, gone, unmapOk);
      if !ok then After(m1, l1, false)
      else if !M.ShrinkDue(z, m1) then After(m1, l1, true)
      else
        var (l2, reply) := ResizeWhole(c, l1, RetryPages(z, m1), shrinkOk);
        if reply.Raises? then After(m1, l2, false) else After(M.ShrinkOver(m1), l2, true)
  }

  function FreeReservedCall(z: Sizes, c: Config, m: M.Mgr, l: Lists, order: seq<int>,
                            unmapOk: bool, shrinkOk: bool): After
    requires z.Valid()
  {
    var a := FreeCall(z, c, m, l, m.reserved, order, unmapOk, shrinkOk);
    if m.reserved != [] && a.returned then a.(m := a.m.(reserved := [])) else a
  }

  /** A refusal with blocks still reserved trips the source's assertion, which raises. */
  function ResizeCall(z: Sizes, c: Config, m: M.Mgr, l: Lists, newMemSize: nat, unmapOk: bool): (M.Mgr, Lists, Reply)
    requires z.Valid()
  {
    var (l1, reply) := ResizeWhole(c, l, PA.Truncated(newMemSize, z.page), unmapOk);
    match reply
    case Raises => (m, l1, Raises)
    case Done(ok) =>
      (M.AfterResize(z, m, newMemSize, ok), l1, if !ok && m.reserved != [] then Raises else reply)
  }

  function Keys(d: seq<Page>): seq<int> {
    seq(|d|, i requires 0 <= i < |d| => d[i].id)
  }

  /** clear up to the point where the null block is reserved again. */
  function ClearCall(z: Sizes, c: Config, m: M.Mgr, l: Lists, order: seq<int>, unmapOk: bool, shrinkOk: bool,
                     releaseOk: bool, trimOk: bool): After
    requires z.Valid()
  {
    var a := FreeReservedCall(z, c, m, l, order, unmapOk, shrinkOk);
    if !a.returned then a
    else
      var gone := Keys(a.m.avail) + Keys(a.m.full);
      var (l1, ok) := if gone == [] then (a.l, true) else FreeWhole(c, a.l, gone, releaseOk);
      if !ok then After(a.m, l1, false)
      else
        var (l2, ok2) := TrimWhole(l1, trimOk);
        if !ok2 then After(a.m.(avail := [], full := []), l2, false)
        else After(M.Fresh.(reserved := a.m.reserved), SortFree(l2), true)
  }

  // ---- the page allocator as the source of pages -----------------------------------------------------

  lemma NextPooled(c: Config, l: Lists, maps: nat)
    requires l.reserved != []
    ensures var s := Supply(l, maps); var (l1, a) := TryAlloc(c, l);
      s != [] && a == Ready(s[0]) && Supply(l1, maps) == s[1..]
  {
    var rest := l.free[..if maps < |l.free| then maps else |l.free|];
    assert Supply(l, maps) == l.reserved + rest;
    assert (l.reserved + rest)[1..] == l.reserved[1..] + rest;
  }

  lemma NextMapped(c: Config, l: Lists, maps: nat)
    requires l.reserved == [] && l.free != [] && maps > 0
    ensures var s := Supply(l, maps); var (l1, a) := TryAlloc(c, l);
      s != [] && a == ToMap(s[0]) && Supply(AllocMapped(c, l1), maps - 1) == s[1..]
  {
    var k := if maps < |l.free| then maps else |l.free|;
    var s := l.free[..k];
    assert Supply(l, maps) == s;
    assert l.free[1..][..k - 1] == s[1..];
  }

  lemma NextPage(c: Config, l: Lists, maps: nat)
    ensures var s := Supply(l, maps); var (l1, a) := TryAlloc(c, l);
      && (l.reserved != [] ==> s != [] && a == Ready(s[0]) && Supply(l1, maps) == s[1..])
      && (l.reserved == [] && l.free != [] && maps > 0 ==>
            s != [] && a == ToMap(s[0]) && Supply(AllocMapped(c, l1), maps - 1) == s[1..])
      && (l.reserved == [] && l.free != [] && maps == 0 ==>
            s == [] && a == ToMap(l.free[0]) && AllocMapFailed(l1, l.free[0]) == l)
      && (l.reserved == [] && l.free == [] ==> s == [] && !a.Ready? && !a.ToMap? && l1 == l)
  {
    if l.reserved != [] {
      NextPooled(c, l, maps);
      hide Supply, TryAlloc;
    } else if l.free != [] && maps > 0 {
      NextMapped(c, l, maps);
      hide Supply, TryAlloc;
    } else if l.free != [] {
      FailedMapUndone(c, l);
    }
  }

  lemma DrawnZero(c: Config, l: Lists)
    ensures Drawn(c, l, 0) == l
  {
  }

  lemma DrawnNext(c: Config, l: Lists, n: nat)
    ensures Drawn(c, l, n + 1) == DrawOne(c, Drawn(c, l, n))
  {
  }

  /** A run of the loop that has found `blocks` in `used` pages ends as `whole` if what is left ends as `rest`. */
  ghost predicate Resumes(whole: M.Outcome, blocks: seq<int>, used: nat, rest: M.Outcome) {
    whole == M.Outcome(rest.m, blocks + rest.blocks, used + rest.used, rest.done)
  }

  class KVCacheManager {
    const blockMemSize: nat
    const pageAllocator: PA.PageAllocator
    var numAvailBlocks: int
    var availPages: seq<Page>
    var fullPages: seq<Page>
    var reservedBlocks: seq<int>
    var inShrink: bool
    var targetNumBlocks: nat

    constructor (blockMemSize: nat, pageAllocator: PA.PageAllocator)
      ensures this.blockMemSize == blockMemSize && this.pageAllocator == pageAllocator
      ensures View() == M.Fresh
    {
      this.blockMemSize, this.pageAllocator := blockMemSize, pageAllocator;
      numAvailBlocks, availPages, fullPages, reservedBlocks := 0, [], [], [];
      inShrink, targetNumBlocks := false, 0;
    }

    function Z(): Sizes {
      Sizes(pageAllocator.pageSize, blockMemSize)
    }

    function View(): M.Mgr
      reads this
    {
      M.Mgr(availPages, fullPages, numAvailBlocks, reservedBlocks, inShrink, targetNumBlocks)
    }

    function Lists(): PageLists.Lists
      reads pageAllocator
    {
      pageAllocator.View()
    }

    /** freePages is what the page allocator reports, capped by the physical memory left. */
    method AvailableSize(freePages: int) returns (n: int)
      requires Z().Valid()
      ensures n == M.AvailableSize(Z(), View(), freePages)
    {
      var availBlocks := numAvailBlocks + |reservedBlocks|;
      var blocksFromFreePages := if inShrink then 0 else freePages * BlocksPerPage(Z());
      n := availBlocks + blocksFromFreePages;
    }

    method GetNumAllocedBlocks() returns (n: int)
      requires Z().Valid()
      ensures n == M.NumAlloced(Z(), View())
    {
      var perPage := BlocksPerPage(Z());
      n := |fullPages| * perPage + (|availPages| * perPage - numAvailBlocks) + |reservedBlocks|;
    }

    /** The end of one round of _alloc's loop: up to `remaining` blocks from the page in hand. */
    method ServeFrom(page: Page, remaining: nat) returns (alloced: seq<int>)
      modifies this
      ensures (View(), alloced) == M.Serve(old(View()), page, remaining)
    {
      var numFromPage := if |page.free| < remaining then |page.free| else remaining;
      var taken := Take(page, numFromPage);
      alloced := taken.1;
      if taken.0.Full() {
        fullPages := Put(fullPages, taken.0);
      } else {
        availPages := Put(availPages, taken.0);
      }
      numAvailBlocks := numAvailBlocks - numFromPage;
    }

    /** alloc_page, with `maps` more mapping requests going to succeed. */
    method DrawPage(maps: nat) returns (ok: bool, id: int, left: nat)
      modifies pageAllocator
      ensures ok <==> old(Supply(Lists(), maps)) != []
      ensures ok ==> id == old(Supply(Lists(), maps))[0] && Supply(Lists(), left) == old(Supply(Lists(), maps))[1..]
      ensures Lists() == if ok then DrawOne(pageAllocator.c, old(Lists())) else old(Lists())
    {
      NextPage(pageAllocator.c, Lists(), maps);
      left := if pageAllocator.reservedList == [] && maps > 0 then maps - 1 else maps;
      var a := pageAllocator.AllocPage(maps > 0);
      ok := a.Got?;
      id := if ok then a.page else -1;
    }

    /** The pages to come are the pool's and then the free list's, while mapping works: `maps` times. */
    method Alloc(need: nat, freePages: int, maps: nat) returns (r: M.AllocResult)
      requires Z().Valid()
      requires forall i :: 0 <= i < |Supply(Lists(), maps)| ==> Supply(Lists(), maps)[i] >= 0
      modifies this, pageAllocator
      ensures (View(), r) == M.Alloc(Z(), old(View()), need, freePages, old(Supply(Lists(), maps)))
      ensures Lists() == Drawn(pageAllocator.c, old(Lists()),
                               M.PagesUsed(Z(), old(View()), need, freePages, old(Supply(Lists(), maps))))
    {
      hide Supply, DrawOne, Drawn, M.AllocLoop, M.AvailableSize;
      ghost var ids: seq<nat> := Supply(Lists(), maps);
      var available := AvailableSize(freePages);
      if available < need {
        DrawnZero(pageAllocator.c, Lists());
        return M.Unavailable;
      }
      var numFromReserved := if |reservedBlocks| < need then |reservedBlocks| else need;
      var retIndex := reservedBlocks[..numFromReserved];
      reservedBlocks := reservedBlocks[numFromReserved..];
      var alloced, done := AllocFromPages(need - numFromReserved, maps, ids);
      r := if done then M.Blocks(retIndex + alloced) else M.Raised;
    }

    /** One round of _alloc's loop; it is over when alloc_page raises. */
    method ServeOnce(remaining: nat, maps: nat, ghost ids: seq<nat>) returns (ok: bool, taken: seq<int>, left: nat)
      requires Z().Valid() && remaining > 0 && ids == Supply(Lists(), maps)
      modifies this, pageAllocator
      ensures !ok <==> old(availPages) == [] && ids == []
      ensures !ok ==> View() == old(View()) && Lists() == old(Lists())
      ensures old(availPages) != [] ==> (View(), taken) == M.ServeHeld(old(View()), remaining)
      ensures old(availPages) != [] ==> Lists() == old(Lists()) && left == maps
      ensures old(availPages) == [] && ok ==> (View(), taken) == M.ServeNew(Z(), old(View()), ids[0], remaining)
      ensures old(availPages) == [] && ok ==> Lists() == DrawOne(pageAllocator.c, old(Lists()))
      ensures old(availPages) == [] && ok ==> Supply(Lists(), left) == ids[1..]
    {
      hide Supply, DrawOne, TryAlloc, M.Serve, Opened, Put;
      var page;
      ok, taken, left := true, [], maps;
      if availPages == [] {
        var id;
        ok, id, left := DrawPage(maps);
        if !ok {
          return;
        }
        page := Opened(Z(), id);
        if |page.free| == 0 {
          fullPages := Put(fullPages, page);
          return;
        }
        numAvailBlocks := numAvailBlocks + |page.free|;
      } else {
        page := availPages[|availPages| - 1];
        availPages := availPages[..|availPages| - 1];
      }
      taken := ServeFrom(page, remaining);
    }

    /** _alloc's loop over pages. */
    method AllocFromPages(need: nat, maps: nat, ghost ids: seq<nat>) returns (alloced: seq<int>, done: bool)
      requires Z().Valid() && ids == Supply(Lists(), maps)
      modifies this, pageAllocator
      ensures var o := M.AllocLoop(Z(), old(View()), need, ids);
        && View() == o.m && done == o.done && (done ==> alloced == o.blocks)
        && Lists() == Drawn(pageAllocator.c, old(Lists()), o.used)
    {
      hide Supply, DrawOne, Drawn, M.AllocLoop, M.ServeHeld, M.ServeNew;
      ghost var used: nat := 0;
      ghost var m := View();
      var remaining: nat := need;
      var left := maps;
      alloced := [];
      assert ids[0..] == ids;
      DrawnZero(pageAllocator.c, Lists());
      while remaining > 0
        invariant used <= |ids| && ids[used..] == Supply(Lists(), left)
        invariant Lists() == Drawn(pageAllocator.c, old(Lists()), used)
        invariant Resumes(M.AllocLoop(Z(), m, need, ids), alloced, used,
                          M.AllocLoop(Z(), View(), remaining, ids[used..]))
        decreases remaining, |ids| - used, |availPages|
      {
        if availPages != [] {
          M.LoopHeld(Z(), View(), remaining, ids[used..]);
        } else if ids[used..] != [] {
          M.LoopNew(Z(), View(), remaining, ids[used..]);
        } else {
          M.LoopDry(Z(), View(), remaining);
        }
        DrawnNext(pageAllocator.c, old(Lists()), used);
        var drawing := availPages == [];
        var ok, taken, maps1 := ServeOnce(remaining, left, ids[used..]);
        if !ok {
          return alloced, false;
        }
        if drawing {
          assert ids[used..][1..] == ids[used + 1..];
          used := used + 1;
        }
        alloced, remaining, left := alloced + taken, remaining - |taken|, maps1;
      }
      M.LoopDone(Z(), View(), ids[used..]);
      done := true;
    }

    method TryToReserve(need: nat, freePages: int, maps: nat) returns (r: M.AllocResult)
      requires Z().Valid()
      requires forall i :: 0 <= i < |Supply(Lists(), maps)| ==> Supply(Lists(), maps)[i] >= 0
      modifies this, pageAllocator
      ensures (View(), r) == M.TryToReserve(Z(), old(View()), need, freePages, old(Supply(Lists(), maps)))
      ensures Lists() == Drawn(pageAllocator.c, old(Lists()),
                               M.PagesUsed(Z(), old(View()), need, freePages, old(Supply(Lists(), maps))))
    {
      hide Supply, DrawOne, Drawn, M.AllocLoop, M.AvailableSize;
      var available := AvailableSize(freePages);
      if available < need {
        DrawnZero(pageAllocator.c, Lists());
        return M.Unavailable;
      }
      r := Alloc(need, freePages, maps);
      if r.Blocks? {
        reservedBlocks := reservedBlocks + r.blocks;
      }
    }

    /** One group of free's loop; the page's id is returned when the page is to be given back. */
    method GiveBack(pageId: int, idxs: seq<int>) returns (gone: seq<int>)
      modifies this
      ensures (View(), gone) == M.FreeGroup(old(View()), pageId, idxs)
    {
      gone := [];
      var page;
      if pageId in Ids(fullPages) {
        page := Lookup(fullPages, pageId);
        fullPages := Without(fullPages, pageId);
      } else if pageId in Ids(availPages) {
        page := Lookup(availPages, pageId);
        availPages := Without(availPages, pageId);
      } else {
        return;
      }
      numAvailBlocks := numAvailBlocks + |idxs|;
      page := PutBack(page, idxs);
      if page.Empty() {
        gone := [page.id];
        numAvailBlocks := numAvailBlocks - |page.free|;
      } else {
        availPages := Put(availPages, page);
      }
    }

    /** order is the order in which the hash map of groups is walked. */
    method Free(indices: seq<int>, order: seq<int>, unmapOk: bool, shrinkOk: bool) returns (returned: bool)
      requires Z().Valid() && M.Enumerates(Z(), indices, order)
      requires indices == [] || blockMemSize <= pageAllocator.pageSize
      modifies this, pageAllocator
      ensures After(View(), Lists(), returned)
           == FreeCall(Z(), pageAllocator.c, old(View()), old(Lists()), indices, order, unmapOk, shrinkOk)
    {
      if indices == [] {
        return true;
      }
      var idxDict := pageAllocator.GroupIndicesByPage(indices, blockMemSize);
      ghost var m := View();
      var pagesToFree := [];
      for i := 0 to |order|
        invariant (View(), pagesToFree) == M.FreeGroups(Z(), m, indices, order[..i])
        invariant Lists() == old(Lists())
      {
        assert order[..i + 1][..i] == order[..i];
        var gone := GiveBack(order[i], idxDict[order[i]]);
        pagesToFree := pagesToFree + gone;
      }
      assert order[..|order|] == order;
      if pagesToFree != [] {
        var ok := pageAllocator.Free(pagesToFree, unmapOk);
        if !ok {
          return false;
        }
      }
      if inShrink {
        var alloced := GetNumAllocedBlocks();
        if alloced <= targetNumBlocks {
          var reply := pageAllocator.Resize(targetNumBlocks * blockMemSize, shrinkOk);
          if reply.Raises? {
            return false;
          }
          inShrink, targetNumBlocks := false, 0;
        }
      }
      returned := true;
    }

    method FreeReserved(order: seq<int>, unmapOk: bool, shrinkOk: bool) returns (returned: bool)
      requires Z().Valid() && M.Enumerates(Z(), reservedBlocks, order)
      requires reservedBlocks == [] || blockMemSize <= pageAllocator.pageSize
      modifies this, pageAllocator
      ensures After(View(), Lists(), returned)
           == FreeReservedCall(Z(), pageAllocator.c, old(View()), old(Lists()), order, unmapOk, shrinkOk)
    {
      returned := true;
      if reservedBlocks != [] {
        returned := Free(reservedBlocks, order, unmapOk, shrinkOk);
        if returned {
          reservedBlocks := [];
        }
      }
    }

    /** What follows a refusal with nothing reserved, free_reserved on an empty list, does nothing. */
    method Resize(newMemSize: nat, unmapOk: bool) returns (reply: Reply)
      requires Z().Valid() && newMemSize > 0
      modifies this, pageAllocator
      ensures (View(), Lists(), reply)
           == ResizeCall(Z(), pageAllocator.c, old(View()), old(Lists()), newMemSize, unmapOk)
    {
      hide ResizeWhole, PA.Truncated;
      reply := pageAllocator.Resize(newMemSize, unmapOk);
      if reply == Done(true) {
        if inShrink {
          inShrink, targetNumBlocks := false, 0;
        }
      } else if reply == Done(false) {
        if reservedBlocks != [] {
          return Raises;
        }
        inShrink, targetNumBlocks := true, newMemSize / blockMemSize;
      }
    }

    method PageIds(pages: seq<Page>) returns (ids: seq<int>)
      ensures ids == Keys(pages)
    {
      ids := [];
      for i := 0 to |pages|
        invariant ids == Keys(pages[..i])
      {
        ids := ids + [pages[i].id];
        assert Keys(pages[..i + 1]) == Keys(pages[..i]) + [pages[i].id];
      }
      assert pages[..|pages|] == pages;
    }

    /** Every page goes back to the page allocator; the dictionaries are cleared only after that. */
    method GiveAllBack(releaseOk: bool) returns (ok: bool)
      modifies pageAllocator
      ensures var gone := Keys(availPages) + Keys(fullPages);
        (Lists(), ok) == if gone == [] then (old(Lists()), true)
                         else FreeWhole(pageAllocator.c, old(Lists()), gone, releaseOk)
    {
      hide Keys, FreeWhole;
      var fromAvail := PageIds(availPages);
      var fromFull := PageIds(fullPages);
      var pagesToFree := fromAvail + fromFull;
      ok := true;
      if pagesToFree != [] {
        ok := pageAllocator.Free(pagesToFree, releaseOk);
      }
    }

    method Clear(order: seq<int>, unmapOk: bool, shrinkOk: bool, releaseOk: bool, trimOk: bool)
      returns (returned: bool)
      requires Z().Valid() && M.Enumerates(Z(), reservedBlocks, order)
      requires reservedBlocks == [] || blockMemSize <= pageAllocator.pageSize
      modifies this, pageAllocator
      ensures After(View(), Lists(), returned)
           == ClearCall(Z(), pageAllocator.c, old(View()), old(Lists()), order, unmapOk, shrinkOk, releaseOk, trimOk)
    {
      hide FreeReservedCall, FreeWhole, TrimWhole, SortFree, M.Enumerates, Keys;
      returned := FreeReserved(order, unmapOk, shrinkOk);
      if !returned {
        return;
      }
      returned := GiveAllBack(releaseOk);
      if !returned {
        return;
      }
      availPages, fullPages := [], [];
      returned := pageAllocator.Trim(trimOk);
      if !returned {
        return;
      }
      pageAllocator.ResetFreePageOrder();
      inShrink, targetNumBlocks, numAvailBlocks := false, 0, 0;
    }
  }
}
