/** What each locked section of PageAllocator does to the page lists and counters. The sections are
    functions on the value of those fields; the class in PageAllocator.dfy computes them in place and
    the state machine in Machine.dfy interleaves them. */
module PageLists {
  import opened Seqs

  type PageId = int

  /** minReserved and maxReserved bound the preallocated pool, deferUnmap keeps every freed page mapped,
      prealloc says whether the background worker exists. freshAfterReclaimed is false for the code as
      written; true gives the repaired expansion, whose fresh ids start after the reused ones. */
  datatype Config = Config(minReserved: nat, maxReserved: nat, deferUnmap: bool, prealloc: bool,
                           freshAfterReclaimed: bool)

  datatype Lists = Lists(free: seq<PageId>, reserved: seq<PageId>, reclaimed: seq<PageId>,
                         numFree: int, numTotal: int, wake: bool)
  {
    function InUse(): int { numTotal - numFree }
  }

  function Created(numPages: nat): Lists {
    Lists(Interval(0, numPages), [], [], numPages, numPages, false)
  }

  // ---- alloc_page -------------------------------------------------------------------------

  /** One pass of alloc_page's loop under the lock. */
  datatype Attempt =
    | Ready(page: PageId)      // from the reserved pool, already mapped
    | ToMap(page: PageId)      // from the free list, must be mapped with the lock released
    | NoneLeft                 // throws "No free pages left"
    | Inconsistent             // throws "Inconsistent page allocator state"
    | Wait                     // blocks on the condition variable

  function TryAlloc(c: Config, l: Lists): (Lists, Attempt) {
    if l.reserved != [] then
      (l.(reserved := l.reserved[1..], numFree := l.numFree - 1,
          wake := l.wake || |l.reserved| - 1 < c.minReserved),
       Ready(l.reserved[0]))
    else if l.free != [] then
      (l.(free := l.free[1..], numFree := l.numFree - 1), ToMap(l.free[0]))
    else if l.numFree <= 0 then (l, NoneLeft)
    else if !c.prealloc then (l, Inconsistent)
    else (l, Wait)
  }

  function AllocMapped(c: Config, l: Lists): Lists {
    l.(wake := l.wake || c.prealloc)
  }

  function AllocMapFailed(l: Lists, page: PageId): Lists {
    l.(free := [page] + l.free, numFree := l.numFree + 1)
  }

  // ---- free_page / free_pages / trim ------------------------------------------------------

  /** Some(pages) are to be unmapped with the lock released; None means the call is already over. */
  datatype Unmapping = Nothing | Pages(pages: seq<PageId>)

  function FreePages(c: Config, l: Lists, pages: seq<PageId>): (Lists, Unmapping) {
    var room := if c.deferUnmap then |pages| else c.maxReserved - |l.reserved|;
    var counted := l.(numFree := l.numFree + |pages|);
    if room > 0 then
      var k := if room < |pages| then room else |pages|;
      (counted.(reserved := l.reserved + pages[..k]),
       if pages[k..] == [] then Nothing else Pages(pages[k..]))
    else
      (counted, Pages(pages))
  }

  function FreePage(c: Config, l: Lists, page: PageId): (Lists, Unmapping) {
    var counted := l.(numFree := l.numFree + 1);
    if c.deferUnmap || |l.reserved| < c.maxReserved then
      (counted.(reserved := l.reserved + [page]), Nothing)
    else
      (counted, Pages([page]))
  }

  function Unmapped(l: Lists, pages: seq<PageId>): Lists {
    l.(free := l.free + pages)
  }

  function BeginTrim(l: Lists): (Lists, Unmapping) {
    (l.(reserved := []), if l.reserved == [] then Nothing else Pages(l.reserved))
  }

  // ---- resize -----------------------------------------------------------------------------

  datatype ResizeStart = Refused | Resized | MustUnmap(pages: seq<PageId>)

  /** How many reclaimed pages an expansion to target reuses. */
  function Reused(l: Lists, target: int): nat
    requires target >= l.numTotal
  {
    if |l.reclaimed| < target - l.numTotal then |l.reclaimed| else target - l.numTotal
  }

  /** The number of the first fresh page of an expansion. */
  function FirstFresh(c: Config, l: Lists, target: int): int
    requires target >= l.numTotal
  {
    if c.freshAfterReclaimed then l.numTotal + Reused(l, target) else l.numTotal
  }

  /** A resize to target numbers p as a fresh page. */
  predicate FreshId(c: Config, l: Lists, target: int, p: PageId) {
    && l.numTotal < target && l.InUse() <= target
    && FirstFresh(c, l, target) <= p < FirstFresh(c, l, target) + (target - l.numTotal - Reused(l, target))
  }

  function Expand(c: Config, l: Lists, target: int): Lists
    requires target >= l.numTotal
  {
    var r := Reused(l, target);
    var first := FirstFresh(c, l, target);
    l.(free := l.free + l.reclaimed[..r] + Interval(first, first + (target - l.numTotal - r)),
       reclaimed := l.reclaimed[r..],
       numFree := l.numFree + (target - l.numTotal), numTotal := target)
  }

  function Backwards(s: seq<PageId>): (r: seq<PageId>)
    ensures |r| == |s|
    ensures forall i :: 0 <= i < |r| ==> r[i] == s[|s| - 1 - i]
  {
    if s == [] then [] else Backwards(s[1..]) + [s[0]]
  }

  /** Moves the last k free pages, last first, to the reclaimed list. */
  function Reclaim(l: Lists, k: nat, target: int): Lists
    requires k <= |l.free|
  {
    var keep := |l.free| - k;
    l.(free := l.free[..keep], reclaimed := l.reclaimed + Backwards(l.free[keep..]),
       numFree := l.numFree - k, numTotal := target)
  }

  function BeginResize(c: Config, l: Lists, target: int): (Lists, ResizeStart) {
    if target < l.InUse() then (l, Refused)
    else if target == l.numTotal then (l, Resized)
    else if target > l.numTotal then (Expand(c, l, target), Resized)
    else
      var k := l.numTotal - target;
      if |l.free| < k then
        if l.reserved != [] then (l.(reserved := []), MustUnmap(l.reserved)) else (l, Refused)
      else (Reclaim(l, k, target), Resized)
  }

  /** The second locked section. Another thread may have changed numTotal meanwhile; a negative count,
      compared as unsigned in the source, always fails the test. */
  function FinishResize(l: Lists, pages: seq<PageId>, target: int): (Lists, bool) {
    var back := Unmapped(l, pages);
    var k := l.numTotal - target;
    if k < 0 || |back.free| < k then (back, false) else (Reclaim(back, k, target), true)
  }

  // ---- whole calls by a lone caller, given how the broadcast ends ------------------------------

  /** The second component says whether the call returns; otherwise it raises. */
  function FreeWhole(c: Config, l: Lists, pages: seq<PageId>, unmapOk: bool): (Lists, bool) {
    var (l1, u) := FreePages(c, l, pages);
    match u
    case Nothing => (l1, true)
    case Pages(ps) => (if unmapOk then Unmapped(l1, ps) else l1, unmapOk)
  }

  function TrimWhole(l: Lists, unmapOk: bool): (Lists, bool) {
    var (l1, u) := BeginTrim(l);
    match u
    case Nothing => (l1, true)
    case Pages(ps) => (if unmapOk then Unmapped(l1, ps) else l1, unmapOk)
  }

  datatype Reply = Done(ok: bool) | Raises

  function ResizeWhole(c: Config, l: Lists, target: int, unmapOk: bool): (Lists, Reply) {
    var (l1, r) := BeginResize(c, l, target);
    match r
    case Refused => (l1, Done(false))
    case Resized => (l1, Done(true))
    case MustUnmap(ps) =>
      if unmapOk then var (l2, ok) := FinishResize(l1, ps, target); (l2, Done(ok)) else (l1, Raises)
  }

  /** The pages alloc_page returns one after another when the first `maps` mapping requests succeed. */
  function Supply(l: Lists, maps: nat): seq<PageId> {
    l.reserved + l.free[..if maps < |l.free| then maps else |l.free|]
  }

  /** The lists once one page has been returned, and once n have. */
  function DrawOne(c: Config, l: Lists): Lists {
    var (l1, a) := TryAlloc(c, l);
    if a.ToMap? then AllocMapped(c, l1) else l1
  }

  function Drawn(c: Config, l: Lists, n: nat): Lists {
    if n == 0 then l else DrawOne(c, Drawn(c, l, n - 1))
  }

  lemma DrawOneInOrder(c: Config, l: Lists)
    requires l.reserved + l.free != []
    ensures var d := DrawOne(c, l);
      && d.reserved + d.free == (l.reserved + l.free)[1..]
      && d.reserved == (if l.reserved == [] then [] else l.reserved[1..])
      && d.numFree == l.numFree - 1 && d.numTotal == l.numTotal && d.reclaimed == l.reclaimed
  {
    if l.reserved == [] {
      assert [] + l.free == l.free && [] + l.free[1..] == l.free[1..];
    } else {
      assert (l.reserved + l.free)[1..] == l.reserved[1..] + l.free;
    }
  }

  /** Pages are returned in order, pool first, and each is charged to the free counter. */
  lemma {:induction false} DrawnInOrder(c: Config, l: Lists, n: nat)
    requires n <= |l.reserved + l.free|
    ensures var d := Drawn(c, l, n);
      && d.reserved + d.free == (l.reserved + l.free)[n..]
      && d.numFree == l.numFree - n && d.numTotal == l.numTotal && d.reclaimed == l.reclaimed
  {
    hide DrawOne;
    if n > 0 {
      DrawnInOrder(c, l, n - 1);
      DrawOneInOrder(c, Drawn(c, l, n - 1));
      assert (l.reserved + l.free)[n - 1..][1..] == (l.reserved + l.free)[n..];
    }
  }

  /** A page whose mapping failed is back where it was: the lists are unchanged. */
  lemma FailedMapUndone(c: Config, l: Lists)
    requires l.reserved == [] && l.free != []
    ensures AllocMapFailed(TryAlloc(c, l).0, l.free[0]) == l
  {
    assert [l.free[0]] + l.free[1..] == l.free;
  }

  // ---- preallocation worker ---------------------------------------------------------------

  function WorkerTake(c: Config, l: Lists, physical: int): (Lists, seq<PageId>) {
    var want := if |l.reserved| < c.minReserved then c.minReserved - |l.reserved| else 0;
    var avail := if |l.free| < physical then |l.free| else physical;
    var n := if want < avail then want else avail;
    if n <= 0 then (l.(wake := false), [])
    else (l.(wake := false, free := l.free[n..]), l.free[..n])
  }

  function WorkerMapped(l: Lists, pages: seq<PageId>): Lists {
    l.(reserved := l.reserved + pages)
  }

  function WorkerMapFailed(l: Lists, pages: seq<PageId>): Lists {
    l.(free := pages + l.free)
  }

  /** How many pages the physical memory left would back. */
  function Backable(physical: int): nat {
    if physical < 0 then 0 else physical
  }

  /** A round of the worker never maps more pages than physical memory backs. One that succeeds fills the pool up
      to the minimum, unless free pages or physical memory run out, from the front of the free list and no further
      than needed. */
  lemma WorkerRefills(c: Config, l: Lists, physical: int)
    ensures var (l1, ps) := WorkerTake(c, l, physical); var l2 := WorkerMapped(l1, ps);
      && |ps| <= Backable(physical)
      && (|l2.reserved| >= c.minReserved || l2.free == [] || |ps| == Backable(physical))
      && |l2.reserved| <= (if |l.reserved| < c.minReserved then c.minReserved else |l.reserved|)
      && l2.reserved + l2.free == l.reserved + l.free && !l2.wake && l2.numFree == l.numFree
      && WorkerMapFailed(l1, ps) == l.(wake := false)
  {
    var (l1, ps) := WorkerTake(c, l, physical);
    assert ps + l1.free == l.free;
    assert (l.reserved + ps) + l1.free == l.reserved + (ps + l1.free);
  }

  /** What free_pages does with mapped pages: the first of them fill the pool up to the maximum, all of them with
      deferred unmapping, and the others are to be unmapped; every page counts as free at once. */
  lemma FreeFillsPool(c: Config, l: Lists, pages: seq<PageId>)
    requires pages != []
    ensures var (l1, u) := FreePages(c, l, pages); var left := if u.Pages? then u.pages else [];
      && l1.reserved + left == l.reserved + pages && (u.Pages? ==> u.pages != [])
      && (left != [] ==> !c.deferUnmap && |l1.reserved| >= c.maxReserved)
      && (!c.deferUnmap && |l1.reserved| > c.maxReserved ==> left == pages)
      && l1 == l.(reserved := l1.reserved, numFree := l.numFree + |pages|)
  {
    var room := if c.deferUnmap then |pages| else c.maxReserved - |l.reserved|;
    if room > 0 {
      var k := if room < |pages| then room else |pages|;
      assert pages == pages[..k] + pages[k..];
      assert (l.reserved + pages[..k]) + pages[k..] == l.reserved + pages;
    }
  }

  // ---- reset_free_page_order --------------------------------------------------------------

  function Insert(x: PageId, s: seq<PageId>): seq<PageId> {
    if s == [] || x <= s[0] then [x] + s else [s[0]] + Insert(x, s[1..])
  }

  function Sort(s: seq<PageId>): seq<PageId> {
    if s == [] then [] else Insert(s[0], Sort(s[1..]))
  }

  function SortFree(l: Lists): Lists {
    l.(free := Sort(l.free))
  }

  ghost predicate Ascending(s: seq<PageId>) {
    forall i, j :: 0 <= i < j < |s| ==> s[i] <= s[j]
  }

  lemma {:induction false} InsertAdds(x: PageId, s: seq<PageId>)
    ensures multiset(Insert(x, s)) == multiset(s) + multiset{x}
  {
    if s != [] && x > s[0] {
      InsertAdds(x, s[1..]);
      assert s == [s[0]] + s[1..];
    }
  }

  lemma InsertMembers(x: PageId, s: seq<PageId>)
    ensures forall y :: y in Insert(x, s) <==> y == x || y in s
  {
    InsertAdds(x, s);
    forall y ensures y in Insert(x, s) <==> y == x || y in s {
      assert y in multiset(Insert(x, s)) <==> y in multiset(s) + multiset{x};
    }
  }

  lemma PrependSorted(x: PageId, s: seq<PageId>)
    requires Ascending(s) && forall y :: y in s ==> x <= y
    ensures Ascending([x] + s)
  {
    forall i | 0 <= i < |s| ensures x <= s[i] {
      assert s[i] in s;
    }
  }

  lemma {:induction false} InsertSorted(x: PageId, s: seq<PageId>)
    requires Ascending(s)
    ensures Ascending(Insert(x, s))
  {
    if s == [] || x <= s[0] {
      forall y | y in s ensures x <= y {
        var i :| 0 <= i < |s| && s[i] == y;
        assert s[0] <= s[i];
      }
      PrependSorted(x, s);
    } else {
      InsertSorted(x, s[1..]);
      InsertMembers(x, s[1..]);
      forall y | y in s[1..] ensures s[0] <= y {
        var i :| 0 <= i < |s[1..]| && s[1..][i] == y;
        assert s[0] <= s[i + 1];
      }
      PrependSorted(s[0], Insert(x, s[1..]));
    }
  }

  /** reset_free_page_order leaves the same pages, in increasing order. */
  lemma {:induction false} SortSorts(s: seq<PageId>)
    ensures Ascending(Sort(s)) && multiset(Sort(s)) == multiset(s)
    ensures forall y :: y in Sort(s) <==> y in s
    ensures NoDup(s) ==> NoDup(Sort(s))
  {
    if s != [] {
      assert s == [s[0]] + s[1..];
      SortSorts(s[1..]);
      InsertAdds(s[0], Sort(s[1..]));
      InsertSorted(s[0], Sort(s[1..]));
      InsertMembers(s[0], Sort(s[1..]));
      if NoDup(s) {
        MultiplicityOne(s, Sort(s));
      }
    }
  }

  lemma Twice(s: seq<PageId>, i: nat, j: nat)
    requires i < j < |s| && s[i] == s[j]
    ensures multiset(s)[s[i]] >= 2
  {
    assert s == s[..j] + [s[j]] + s[j + 1..];
    assert s[..j][i] == s[i];
  }

  lemma {:induction false} CountsAtMostOnce(s: seq<PageId>, x: PageId)
    requires NoDup(s)
    ensures multiset(s)[x] <= 1
  {
    if s != [] {
      assert s == [s[0]] + s[1..];
      CountsAtMostOnce(s[1..], x);
      assert s[0] !in s[1..];
    }
  }

  lemma MultiplicityOne(s: seq<PageId>, t: seq<PageId>)
    requires NoDup(s) && multiset(s) == multiset(t)
    ensures NoDup(t)
  {
    forall i, j | 0 <= i < j < |t| ensures t[i] != t[j] {
      if t[i] == t[j] {
        Twice(t, i, j);
        CountsAtMostOnce(s, t[i]);
      }
    }
  }

  // ---- facts about single sections ---------------------------------------------------------

  /** free_page is free_pages on one page. */
  lemma FreeOneIsFreeMany(c: Config, l: Lists, page: PageId)
    ensures FreePage(c, l, page) == FreePages(c, l, [page])
  {
    assert [page][..1] == [page] && [page][1..] == [];
  }

  lemma BackwardsGrows(s: seq<PageId>, i: nat)
    requires i < |s|
    ensures Backwards(s[i..]) == Backwards(s[i + 1..]) + [s[i]]
  {
    assert s[i..][1..] == s[i + 1..];
  }

  lemma NothingBackwards(s: seq<PageId>)
    ensures Backwards(s[|s|..]) == [] && s[..|s|] == s
  {
  }

  lemma BackwardsMembers(s: seq<PageId>)
    ensures forall p :: p in Backwards(s) <==> p in s
    ensures NoDup(s) ==> NoDup(Backwards(s))
  {
    forall p | p in s ensures p in Backwards(s) {
      var i :| 0 <= i < |s| && s[i] == p;
      assert Backwards(s)[|s| - 1 - i] == p;
    }
  }
}
