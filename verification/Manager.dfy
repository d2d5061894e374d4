/** What KVCacheManager's methods do to its fields, as functions on their values. */
module Manager {
  import opened BlockMath
  import opened InternalPages
  import opened PageDict
  import opened Seqs

  /** target is meaningful only while inShrink. */
  datatype Mgr = Mgr(avail: seq<Page>, full: seq<Page>, numAvail: int, reserved: seq<int>,
                     inShrink: bool, target: nat)

  const Fresh: Mgr := Mgr([], [], 0, [], false, 0)

  // ---- capacity ------------------------------------------------------------------------------

  function AvailableSize(z: Sizes, m: Mgr, freePages: int): int
    requires z.Valid()
  {
    m.numAvail + |m.reserved| + if m.inShrink then 0 else freePages * BlocksPerPage(z)
  }

  function NumAlloced(z: Sizes, m: Mgr): int
    requires z.Valid()
  {
    |m.full| * BlocksPerPage(z) + (|m.avail| * BlocksPerPage(z) - m.numAvail) + |m.reserved|
  }

  // ---- _alloc --------------------------------------------------------------------------------

  function TakeReserved(m: Mgr, need: nat): (Mgr, seq<int>) {
    var k := if |m.reserved| < need then |m.reserved| else need;
    (m.(reserved := m.reserved[k..]), m.reserved[..k])
  }

  /** Serve up to need blocks from a page that is in neither dictionary. */
  function Serve(m: Mgr, p: Page, need: nat): (Mgr, seq<int>) {
    var n := if |p.free| < need then |p.free| else need;
    var (p', blocks) := Take(p, n);
    var m' := m.(numAvail := m.numAvail - n);
    (if p'.Full() then m'.(full := Put(m.full, p')) else m'.(avail := Put(m.avail, p')), blocks)
  }

  function ServeHeld(m: Mgr, need: nat): (Mgr, seq<int>)
    requires m.avail != []
  {
    Serve(m.(avail := m.avail[..|m.avail| - 1]), m.avail[|m.avail| - 1], need)
  }

  /** A page just obtained from the page allocator; one without usable blocks is parked with the full pages. */
  function ServeNew(z: Sizes, m: Mgr, id: nat, need: nat): (Mgr, seq<int>)
    requires z.Valid()
  {
    var p := Opened(z, id);
    if p.free == [] then (m.(full := Put(m.full, p)), [])
    else Serve(m.(numAvail := m.numAvail + |p.free|), p, need)
  }

  /** How the loop ends: done with the blocks found, or because alloc_page raised after `used` pages. */
  datatype Outcome = Outcome(m: Mgr, blocks: seq<int>, used: nat, done: bool)

  /** The allocation loop; supply lists the pages alloc_page would return, after which it raises. */
  function AllocLoop(z: Sizes, m: Mgr, need: nat, supply: seq<nat>): (o: Outcome)
    requires z.Valid()
    ensures o.used <= |supply|
    decreases need, |supply|, |m.avail|
  {
    if need == 0 then Outcome(m, [], 0, true)
    else if m.avail != [] then
      var (m', blocks) := ServeHeld(m, need);
      var o := AllocLoop(z, m', need - |blocks|, supply);
      o.(blocks := blocks + o.blocks)
    else if supply == [] then Outcome(m, [], 0, false)
    else
      var (m', blocks) := ServeNew(z, m, supply[0], need);
      var o := AllocLoop(z, m', need - |blocks|, supply[1..]);
      o.(blocks := blocks + o.blocks, used := o.used + 1)
  }

  // One turn of the loop.

  lemma LoopDone(z: Sizes, m: Mgr, supply: seq<nat>)
    requires z.Valid()
    ensures AllocLoop(z, m, 0, supply) == Outcome(m, [], 0, true)
  {
  }

  lemma LoopDry(z: Sizes, m: Mgr, need: nat)
    requires z.Valid() && need > 0 && m.avail == []
    ensures AllocLoop(z, m, need, []) == Outcome(m, [], 0, false)
  {
  }

  lemma LoopHeld(z: Sizes, m: Mgr, need: nat, supply: seq<nat>)
    requires z.Valid() && need > 0 && m.avail != []
    ensures var (m', blocks) := ServeHeld(m, need);
      |blocks| <= need && (|blocks| > 0 || |m'.avail| < |m.avail|)
      && var rest := AllocLoop(z, m', need - |blocks|, supply);
         AllocLoop(z, m, need, supply) == Outcome(rest.m, blocks + rest.blocks, rest.used, rest.done)
  {
  }

  lemma LoopNew(z: Sizes, m: Mgr, need: nat, supply: seq<nat>)
    requires z.Valid() && need > 0 && m.avail == [] && supply != []
    ensures var (m', blocks) := ServeNew(z, m, supply[0], need);
      |blocks| <= need
      && var rest := AllocLoop(z, m', need - |blocks|, supply[1..]);
         AllocLoop(z, m, need, supply) == Outcome(rest.m, blocks + rest.blocks, rest.used + 1, rest.done)
  {
  }

  datatype AllocResult = Unavailable | Blocks(blocks: seq<int>) | Raised

  /** _alloc after its resize check. */
  function Alloc(z: Sizes, m: Mgr, need: nat, freePages: int, supply: seq<nat>): (Mgr, AllocResult)
    requires z.Valid()
  {
    if AvailableSize(z, m, freePages) < need then (m, Unavailable)
    else
      var (m1, taken) := TakeReserved(m, need);
      var o := AllocLoop(z, m1, need - |taken|, supply);
      (o.m, if o.done then Blocks(taken + o.blocks) else Raised)
  }

  /** How many pages _alloc draws from the page allocator. */
  function PagesUsed(z: Sizes, m: Mgr, need: nat, freePages: int, supply: seq<nat>): (n: nat)
    requires z.Valid()
    ensures n <= |supply|
  {
    if AvailableSize(z, m, freePages) < need then 0
    else
      var (m1, taken) := TakeReserved(m, need);
      AllocLoop(z, m1, need - |taken|, supply).used
  }

  function TryToReserve(z: Sizes, m: Mgr, need: nat, freePages: int, supply: seq<nat>): (Mgr, AllocResult)
    requires z.Valid()
  {
    var (m', r) := Alloc(z, m, need, freePages, supply);
    (if r.Blocks? then m'.(reserved := m'.reserved + r.blocks) else m', r)
  }

  // ---- free ----------------------------------------------------------------------------------

  /** Give one page its blocks back; the page id is returned when the page became empty. An unknown page is
      skipped, as the source does with its sanity checks off. */
  function FreeGroup(m: Mgr, id: int, blocks: seq<int>): (Mgr, seq<int>) {
    if id !in Ids(m.full) && id !in Ids(m.avail) then (m, [])
    else
      var p := PutBack(if id in Ids(m.full) then Lookup(m.full, id) else Lookup(m.avail, id), blocks);
      var m1 := if id in Ids(m.full) then m.(full := Without(m.full, id)) else m.(avail := Without(m.avail, id));
      if p.Empty() then (m1.(numAvail := m.numAvail + |blocks| - |p.free|), [p.id])
      else (m1.(numAvail := m.numAvail + |blocks|, avail := Put(m1.avail, p)), [])
  }

  /** All groups, in the order the hash map yields the page ids; also the ids of the pages to give back. */
  function FreeGroups(z: Sizes, m: Mgr, indices: seq<int>, order: seq<int>): (Mgr, seq<int>)
    requires z.Valid()
  {
    if order == [] then (m, [])
    else
      var (m1, e1) := FreeGroups(z, m, indices, order[..|order| - 1]);
      var id := order[|order| - 1];
      var (m2, e2) := FreeGroup(m1, id, Group(z, indices, id));
      (m2, e1 + e2)
  }

  /** A valid iteration order: each page id that occurs, once. */
  ghost predicate Enumerates(z: Sizes, indices: seq<int>, order: seq<int>)
    requires z.Valid()
  {
    && NoDup(order)
    && (forall b :: b in indices ==> PageOf(z, b) in order)
    && (forall id :: id in order ==> Group(z, indices, id) != [])
  }

  // ---- shrinking -----------------------------------------------------------------------------

  predicate ShrinkDue(z: Sizes, m: Mgr)
    requires z.Valid()
  {
    m.inShrink && NumAlloced(z, m) <= m.target
  }

  function ShrinkOver(m: Mgr): Mgr {
    m.(inShrink := false, target := 0)
  }

  function ShrinkWanted(z: Sizes, m: Mgr, newMemSize: nat): Mgr
    requires z.Valid()
  {
    m.(inShrink := true, target := newMemSize / z.block)
  }

  /** What resize does with the page allocator's answer: success ends a pending shrink; a refusal starts one,
      or, with blocks still reserved, is an assertion error. */
  function AfterResize(z: Sizes, m: Mgr, newMemSize: nat, ok: bool): Mgr
    requires z.Valid()
  {
    if ok then (if m.inShrink then ShrinkOver(m) else m)
    else if m.reserved != [] then m
    else ShrinkWanted(z, m, newMemSize)
  }
}
