/** The PageAllocator class. Each method with a lock-protected body in the source is proved to compute the
    function of PageLists.dfy that the state machine interleaves; the calls that release the lock in the
    middle are given whole as well, for a caller that runs alone, with the broadcast's outcome as input. */
module PageAllocators {
  import opened BlockMath
  import opened Seqs
  import opened PageLists

  /** Division of int64_t values, which truncates toward zero. */
  function Truncated(a: int, d: nat): (q: int)
    requires d > 0
    ensures a >= 0 ==> q * d <= a < q * d + d
    ensures a < 0 ==> q * d - d < a <= q * d
  {
    if a >= 0 then a / d else -((-a) / d)
  }

  /** r is the setting, or the number of pages when that is less. */
  predicate Capped(r: nat, setting: nat, pages: nat) {
    r <= setting && r <= pages && (r == setting || r == pages)
  }

  function Least(a: nat, b: nat): (r: nat)
    ensures Capped(r, b, a)
  {
    if b < a then b else a
  }

  datatype Allocated = Got(page: PageId) | MapFailed(page: PageId) | NoFreePages | BadState | Blocks

  class PageAllocator {
    const c: Config
    const pageSize: nat
    var freeList: seq<PageId>
    var reservedList: seq<PageId>
    var reclaimedList: seq<PageId>
    var numFreePages: int
    var numTotalPages: int
    var preallocNeeded: bool

    function View(): Lists
      reads this
    {
      Lists(freeList, reservedList, reclaimedList, numFreePages, numTotalPages, preallocNeeded)
    }

    /** The reserve bounds are capped by the number of pages. */
    constructor (settings: Config, memSizePerLayer: nat, pageSize: nat)
      requires pageSize > 0
      ensures this.pageSize == pageSize
      ensures c == settings.(minReserved := c.minReserved, maxReserved := c.maxReserved)
      ensures Capped(c.minReserved, settings.minReserved, memSizePerLayer / pageSize)
      ensures Capped(c.maxReserved, settings.maxReserved, memSizePerLayer / pageSize)
      ensures View() == Created(memSizePerLayer / pageSize)
    {
      this.pageSize := pageSize;
      c := settings.(minReserved := Least(memSizePerLayer / pageSize, settings.minReserved),
                     maxReserved := Least(memSizePerLayer / pageSize, settings.maxReserved));
      numFreePages, numTotalPages := memSizePerLayer / pageSize, memSizePerLayer / pageSize;
      freeList, reservedList, reclaimedList, preallocNeeded := [], [], [], false;
      new;
      var i := 0;
      while i < numFreePages
        invariant 0 <= i <= numFreePages
        invariant View() == Created(memSizePerLayer / pageSize).(free := Interval(0, i))
      {
        freeList := freeList + [i];
        i := i + 1;
      }
    }

    /** The locked part of alloc_page: one pass of its loop. */
    method TryAlloc() returns (a: Attempt)
      modifies this
      ensures (View(), a) == PageLists.TryAlloc(c, old(View()))
    {
      if reservedList != [] {
        a := Ready(reservedList[0]);
        reservedList := reservedList[1..];
        numFreePages := numFreePages - 1;
        if |reservedList| < c.minReserved {
          preallocNeeded := true;
        }
      } else if freeList != [] {
        a := ToMap(freeList[0]);
        freeList := freeList[1..];
        numFreePages := numFreePages - 1;
      } else if numFreePages <= 0 {
        a := NoneLeft;
      } else if !c.prealloc {
        a := Inconsistent;
      } else {
        a := Wait;
      }
    }

    /** alloc_page for a lone caller, given whether mapping would succeed. */
    method AllocPage(mapOk: bool) returns (r: Allocated)
      modifies this
      ensures var (l, a) := PageLists.TryAlloc(c, old(View()));
        match a
        case Ready(p) => View() == l && r == Got(p)
        case ToMap(p) => if mapOk then View() == AllocMapped(c, l) && r == Got(p)
                         else View() == AllocMapFailed(l, p) && r == MapFailed(p)
        case NoneLeft => View() == l && r == NoFreePages
        case Inconsistent => View() == l && r == BadState
        case Wait => View() == l && r == Blocks
    {
      var a := TryAlloc();
      match a {
        case Ready(p) => r := Got(p);
        case ToMap(p) =>
          if mapOk {
            if c.prealloc {
              preallocNeeded := true;
            }
            r := Got(p);
          } else {
            freeList := [p] + freeList;
            numFreePages := numFreePages + 1;
            r := MapFailed(p);
          }
        case NoneLeft => r := NoFreePages;
        case Inconsistent => r := BadState;
        case Wait => r := Blocks;
      }
    }

    /** The first locked part of free_pages. */
    method BeginFree(pages: seq<PageId>) returns (u: Unmapping)
      modifies this
      ensures (View(), u) == FreePages(c, old(View()), pages)
    {
      numFreePages := numFreePages + |pages|;
      var numToReserve := if c.deferUnmap then |pages| else c.maxReserved - |reservedList|;
      if numToReserve > 0 {
        var reserveEnd := if numToReserve < |pages| then numToReserve else |pages|;
        reservedList := reservedList + pages[..reserveEnd];
        var pagesToUnmap := pages[reserveEnd..];
        u := if pagesToUnmap == [] then Nothing else Pages(pagesToUnmap);
      } else {
        u := Pages(pages);
      }
    }

    /** free_pages for a lone caller. A failed unmap raises after the counter has moved: the pages are on no list. */
    method Free(pages: seq<PageId>, unmapOk: bool) returns (ok: bool)
      modifies this
      ensures (View(), ok) == FreeWhole(c, old(View()), pages, unmapOk)
    {
      var u := BeginFree(pages);
      ok := true;
      if u.Pages? {
        ok := unmapOk;
        if ok {
          freeList := freeList + u.pages;
        }
      }
    }

    method ReclaimLast(k: nat, target: int)
      requires k <= |freeList|
      modifies this
      ensures View() == Reclaim(old(View()), k, target)
    {
      hide Backwards;
      ghost var l := View();
      NothingBackwards(l.free);
      var i := 0;
      while i < k
        invariant 0 <= i <= k
        invariant freeList == l.free[..|l.free| - i]
        invariant View() == l.(free := freeList, reclaimed := l.reclaimed + Backwards(l.free[|l.free| - i..]))
      {
        BackwardsGrows(l.free, |l.free| - i - 1);
        var last := freeList[|freeList| - 1];
        reclaimedList := reclaimedList + [last];
        freeList := freeList[..|freeList| - 1];
        i := i + 1;
      }
      numFreePages := numFreePages - k;
      numTotalPages := target;
    }

    /** The expansion's first loop. */
    method ReuseReclaimed(k: nat)
      requires k <= |reclaimedList|
      modifies this
      ensures View() == old(View()).(free := old(freeList) + old(reclaimedList)[..k], reclaimed := old(reclaimedList)[k..])
    {
      ghost var l := View();
      for i := 0 to k
        invariant freeList == l.free + l.reclaimed[..i] && reclaimedList == l.reclaimed[i..]
        invariant View() == l.(free := freeList, reclaimed := reclaimedList)
      {
        freeList := freeList + [reclaimedList[0]];
        reclaimedList := reclaimedList[1..];
      }
    }

    /** Its second loop. */
    method AddFresh(first: int, k: nat)
      modifies this
      ensures View() == old(View()).(free := old(freeList) + Interval(first, first + k))
    {
      ghost var l := View();
      var n := first;
      while n < first + k
        invariant first <= n <= first + k
        invariant View() == l.(free := l.free + Interval(first, n))
      {
        freeList := freeList + [n];
        n := n + 1;
      }
    }

    method ExpandTo(target: int)
      requires target >= numTotalPages
      modifies this
      ensures View() == Expand(c, old(View()), target)
    {
      var numToExpand := target - numTotalPages;
      var numToReuse := if |reclaimedList| < numToExpand then |reclaimedList| else numToExpand;
      var firstNew := if c.freshAfterReclaimed then numTotalPages + numToReuse else numTotalPages;
      ReuseReclaimed(numToReuse);
      AddFresh(firstNew, numToExpand - numToReuse);
      numFreePages := numFreePages + numToExpand;
      numTotalPages := target;
    }

    /** The first locked part of resize. */
    method BeginResize(target: int) returns (r: ResizeStart)
      modifies this
      ensures (View(), r) == PageLists.BeginResize(c, old(View()), target)
    {
      if target < numTotalPages - numFreePages {
        return Refused;
      }
      if target == numTotalPages {
        return Resized;
      }
      if target > numTotalPages {
        ExpandTo(target);
        return Resized;
      }
      var numToReclaim := numTotalPages - target;
      if |freeList| < numToReclaim {
        if reservedList != [] {
          r := MustUnmap(reservedList);
          reservedList := [];
        } else {
          r := Refused;
        }
      } else {
        ReclaimLast(numToReclaim, target);
        r := Resized;
      }
    }

    /** resize for a lone caller. */
    method Resize(newMemSize: int, unmapOk: bool) returns (a: Reply)
      requires pageSize > 0
      modifies this
      ensures (View(), a) == ResizeWhole(c, old(View()), Truncated(newMemSize, pageSize), unmapOk)
    {
      var target := Truncated(newMemSize, pageSize);
      var r := BeginResize(target);
      match r {
        case Refused => a := Done(false);
        case Resized => a := Done(true);
        case MustUnmap(ps) =>
          if !unmapOk {
            return Raises;
          }
          var numToReclaim := numTotalPages - target;
          freeList := freeList + ps;
          if numToReclaim < 0 || |freeList| < numToReclaim {
            a := Done(false);
          } else {
            ReclaimLast(numToReclaim, target);
            a := Done(true);
          }
      }
    }

    method Trim(unmapOk: bool) returns (ok: bool)
      modifies this
      ensures (View(), ok) == TrimWhole(old(View()), unmapOk)
    {
      var pagesToUnmap := reservedList;
      reservedList := [];
      if pagesToUnmap == [] {
        return true;
      }
      if unmapOk {
        freeList := freeList + pagesToUnmap;
      }
      ok := unmapOk;
    }

    /** The locked part of one round of the preallocation worker. */
    method TakeForPool(physical: int) returns (pagesToReserve: seq<PageId>)
      modifies this
      ensures (View(), pagesToReserve) == WorkerTake(c, old(View()), physical)
    {
      ghost var l := View();
      preallocNeeded := false;
      var toReserve := if |reservedList| < c.minReserved then c.minReserved - |reservedList| else 0;
      if |freeList| < toReserve {
        toReserve := |freeList|;
      }
      if physical < toReserve {
        toReserve := physical;
      }
      pagesToReserve := [];
      if toReserve <= 0 {
        return;
      }
      var i := 0;
      while i < toReserve && freeList != []
        invariant 0 <= i <= toReserve <= |l.free|
        invariant pagesToReserve == l.free[..i] && freeList == l.free[i..]
        invariant View() == l.(free := freeList, wake := false)
      {
        pagesToReserve := pagesToReserve + [freeList[0]];
        freeList := freeList[1..];
        i := i + 1;
      }
    }

    /** Its second locked part. */
    method PoolAnswer(pages: seq<PageId>, mapOk: bool)
      modifies this
      ensures View() == if mapOk then WorkerMapped(old(View()), pages) else WorkerMapFailed(old(View()), pages)
    {
      if mapOk {
        reservedList := reservedList + pages;
      } else {
        freeList := pages + freeList;
      }
    }

    /** The source divides by the blocks in a page, which must not be zero. */
    method GroupIndicesByPage(indices: seq<int>, blockMemSize: nat) returns (result: map<int, seq<int>>)
      requires 0 < blockMemSize <= pageSize
      ensures var z := Sizes(pageSize, blockMemSize);
        && (forall id :: id in result <==> exists b :: b in indices && PageOf(z, b) == id)
        && (forall id :: id in result ==> result[id] == Group(z, indices, id) != [])
        && (forall id :: Group(z, indices, id) != [] ==> id in result)
    {
      ghost var z := Sizes(pageSize, blockMemSize);
      result := map[];
      for i := 0 to |indices|
        invariant forall id :: id !in result ==> Group(z, indices[..i], id) == []
        invariant forall id :: id in result ==> result[id] == Group(z, indices[..i], id) != []
        invariant forall id :: id in result ==> exists b :: b in indices && PageOf(z, b) == id
        invariant forall j :: 0 <= j < i ==> PageOf(z, indices[j]) in result
      {
        var idx := indices[i];
        var pageId := Truncated(idx * blockMemSize, pageSize);
        assert pageId == PageOf(z, idx);
        assert indices[..i + 1][..i] == indices[..i];
        result := result[pageId := (if pageId in result then result[pageId] else []) + [idx]];
      }
      assert indices[..|indices|] == indices;
    }

    method ResetFreePageOrder()
      modifies this
      ensures View() == SortFree(old(View()))
    {
      freeList := Sort(freeList);
    }
  }
}
