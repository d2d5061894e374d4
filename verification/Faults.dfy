/** Runs that show what the departures of the code lead to. One rank, nothing preallocated. */
module Faults {
  import opened BlockMath
  import opened InternalPages
  import opened PageDict
  import opened PageLists
  import opened Machine
  import opened Seqs
  import opened System
  import A = Accounting
  import BB = BlockBytes
  import C = Conservation
  import CL = Calls
  import K = KVCacheManagers
  import LY = Layouts
  import M = Manager
  import P = ManagerProofs
  import S = Safety
  import SH = Shrinking
  import SP = SystemProofs

  const Plain: Config := Config(0, 0, false, false, false)

  /** Pages of one block, and pages of two. */
  const Ones: World := World(Sizes(1, 1), Plain)
  const Twos: World := World(Sizes(2, 1), Plain)

  // ---- small allocations, computed -----------------------------------------------------------------

  lemma OneBlock(id: nat)
    ensures Ones.z.Valid() && BlocksPerPage(Ones.z) == 1 && Opened(Ones.z, id) == Page(id, id, id + 1, [id])
  {
    assert Interval(id, id + 1) == [id];
  }

  /** The manager with the page p, full, put into its dictionary. */
  function WithFull(m: M.Mgr, p: Page): M.Mgr {
    m.(full := Put(m.full, p))
  }

  lemma WholePage(z: Sizes, m: M.Mgr, id: nat, need: nat, p: Page)
    requires z.Valid() && p == Opened(z, id) && p.free != [] && |p.free| <= need
    ensures M.ServeNew(z, m, id, need) == (WithFull(m, p.(free := [])), p.free)
  {
    assert p.free[|p.free|..] == [] && p.free[..|p.free|] == p.free;
  }

  lemma WithFullFields(m: M.Mgr, p: Page)
    ensures var m1 := WithFull(m, p);
      && m1.avail == m.avail && m1.reserved == m.reserved && m1.numAvail == m.numAvail && m1.inShrink == m.inShrink
  {
  }

  lemma NothingReserved(m: M.Mgr, need: nat)
    requires m.reserved == []
    ensures M.TakeReserved(m, need) == (m, [])
  {
    assert m.reserved[..0] == [] && m.reserved[0..] == [];
    assert m.(reserved := []) == m;
  }

  lemma OnePageOnly(z: Sizes, m: M.Mgr, a: nat, rest: seq<nat>, p: Page)
    requires z.Valid() && m.avail == [] && p == Opened(z, a) && p.free != []
    ensures M.AllocLoop(z, m, |p.free|, [a] + rest) == M.Outcome(WithFull(m, p.(free := [])), p.free, 1, true)
  {
    assert ([a] + rest)[1..] == rest;
    hide Opened, M.AllocLoop, M.ServeNew;
    WholePage(z, m, a, |p.free|, p);
    M.LoopNew(z, m, |p.free|, [a] + rest);
    M.LoopDone(z, WithFull(m, p.(free := [])), rest);
    assert p.free + [] == p.free;
  }

  /** A loop that takes two whole pages and has enough. */
  lemma TwoPages(z: Sizes, m: M.Mgr, a: nat, b: nat, rest: seq<nat>, p: Page, q: Page)
    requires z.Valid() && m.avail == [] && p == Opened(z, a) && q == Opened(z, b) && p.free != [] && q.free != []
    ensures M.AllocLoop(z, m, |p.free| + |q.free|, [a, b] + rest)
         == M.Outcome(WithFull(WithFull(m, p.(free := [])), q.(free := [])), p.free + q.free, 2, true)
  {
    var supply := [a, b] + rest;
    var m1 := WithFull(m, p.(free := []));
    var n := |p.free| + |q.free|;
    assert supply[1..] == [b] + rest;
    WithFullFields(m, p.(free := []));
    hide Opened, M.AllocLoop, M.ServeNew, WithFull;
    WholePage(z, m, a, n, p);
    M.LoopNew(z, m, n, supply);
    OnePageOnly(z, m1, b, rest, q);
  }

  // ---- an expansion that clashes ---------------------------------------------------------------------

  const Shrunk: Lists := Lists([0], [], [1], 1, 1, false)
  const Regrown: Lists := Lists([0, 1, 1], [], [], 3, 3, false)

  lemma ShrinkTwoToOne()
    ensures Created(2) == Lists([0, 1], [], [], 2, 2, false)
    ensures ResizeWhole(Plain, Created(2), 1, true) == (Shrunk, Done(true))
  {
    assert Interval(0, 2) == [0, 1];
    var l := Created(2);
    assert l.free[..1] == [0] && l.free[1..] == [1] && Backwards([1]) == [1];
    assert Reclaim(l, 1, 1) == Shrunk;
  }

  lemma GrowOneToThree()
    ensures ResizeWhole(Plain, Shrunk, 3, true) == (Regrown, Done(true)) && Collides(Plain, Shrunk, 3)
  {
    assert Shrunk.reclaimed[..1] == [1] && Shrunk.reclaimed[1..] == [] && Interval(1, 2) == [1];
    assert [0] + [1] + [1] == [0, 1, 1];
    assert Expand(Plain, Shrunk, 3) == Regrown;
  }

  /** A resize of a manager without a pending shrink that the page lists accept. */
  lemma Accepted(w: World, m: M.Mgr, l: Lists, newMemSize: nat, l': Lists)
    requires w.z.Valid() && !m.inShrink && ResizeWhole(w.c, l, newMemSize / w.z.page, true) == (l', Done(true))
    ensures K.ResizeCall(w.z, w.c, m, l, newMemSize, true) == (m, l', Done(true))
  {
    Quotient(newMemSize, w.z.page);
    hide ResizeWhole;
  }

  lemma NoClashDown(c: Config, s: State, target: int)
    requires target <= s.lists.numTotal
    ensures !Clashes(c, s, target)
  {
  }

  /** From two free pages: shrunk to one, grown to three. */
  lemma RegrowRun() returns (acts: seq<Act>)
    ensures Ones.z.Valid() && S.CanRun(Ones, Start(Ones, 2, 1), acts)
    ensures var y := S.After(Ones, Start(Ones, 2, 1), acts);
      y.m == M.Fresh && y.s.lists == Regrown && y.pc == AtRest && y.s.flights == map[] && y.held == {}
  {
    var x := Start(Ones, 2, 1);
    SP.StartOk(Ones, 2, 1);
    ShrinkTwoToOne();
    GrowOneToThree();
    assert 1 / Ones.z.page == 1 && 3 / Ones.z.page == 3;
    Accepted(Ones, M.Fresh, Created(2), 1, Shrunk);
    Accepted(Ones, M.Fresh, Shrunk, 3, Regrown);
    NoClashDown(Plain, x.s, 1);
    hide SP.SysInv, K.ResizeCall, ResizeWhole, Clashes, S.CanRun, S.After, S.NoHazard;
    var down := CL.LoneResize(Ones, x, 1);
    S.RunKeepsInv(Ones, x, down);
    var x1 := S.After(Ones, x, down);
    var up := CL.LoneResize(Ones, x1, 3);
    CL.RunThen(Ones, x, down, up);
    acts := down + up;
  }

  lemma IdsOne(p: Page)
    ensures Ids([p]) == {p.id} && Ids([]) == {}
  {
    assert [p][..0] == [];
  }

  lemma BothFull(p: Page, q: Page)
    requires p.id != q.id
    ensures WithFull(WithFull(M.Fresh, p), q) == M.Fresh.(full := [p, q])
  {
    IdsOne(p);
    hide Put, Ids;
    assert [] + [p] == [p] && [p] + [q] == [p, q];
  }

  /** _alloc with nothing reserved is its loop. */
  lemma AllocIsLoop(z: Sizes, m: M.Mgr, need: nat, freePages: int, ids: seq<nat>, o: M.Outcome)
    requires z.Valid() && m.reserved == [] && M.AvailableSize(z, m, freePages) >= need
    requires M.AllocLoop(z, m, need, ids) == o && o.done
    ensures M.Alloc(z, m, need, freePages, ids) == (o.m, M.Blocks(o.blocks))
    ensures M.PagesUsed(z, m, need, freePages, ids) == o.used
  {
    hide M.AllocLoop, M.TakeReserved, M.AvailableSize, BlocksPerPage;
    NothingReserved(m, need);
    assert [] + o.blocks == o.blocks;
  }

  /** A fresh manager asked for all the blocks of the first two pages. */
  lemma FirstTwo(z: Sizes, freePages: int, rest: seq<nat>, p: Page, q: Page)
    requires z.Valid() && p == Opened(z, 0) && q == Opened(z, 1) && p.free != [] && q.free != []
    requires freePages * BlocksPerPage(z) >= |p.free| + |q.free|
    ensures var need := |p.free| + |q.free|; var ids := [0, 1] + rest;
      && M.Alloc(z, M.Fresh, need, freePages, ids)
         == (M.Fresh.(full := [p.(free := []), q.(free := [])]), M.Blocks(p.free + q.free))
      && M.PagesUsed(z, M.Fresh, need, freePages, ids) == 2
  {
    TwoPages(z, M.Fresh, 0, 1, rest, p, q);
    BothFull(p.(free := []), q.(free := []));
    hide M.AllocLoop, M.Alloc, M.PagesUsed, Opened, BlocksPerPage, WithFull;
    var o := M.Outcome(M.Fresh.(full := [p.(free := []), q.(free := [])]), p.free + q.free, 2, true);
    AllocIsLoop(z, M.Fresh, |p.free| + |q.free|, freePages, [0, 1] + rest, o);
  }

  lemma FirstTwoOnes(freePages: int, rest: seq<nat>)
    requires freePages >= 2
    ensures Ones.z.Valid() && var ids := [0, 1] + rest;
      && M.Alloc(Ones.z, M.Fresh, 2, freePages, ids)
         == (M.Fresh.(full := [Page(0, 0, 1, []), Page(1, 1, 2, [])]), M.Blocks([0, 1]))
      && M.PagesUsed(Ones.z, M.Fresh, 2, freePages, ids) == 2
  {
    OneBlock(0);
    OneBlock(1);
    hide M.Alloc, M.PagesUsed, Opened, BlocksPerPage;
    FirstTwo(Ones.z, freePages, rest, Page(0, 0, 1, [0]), Page(1, 1, 2, [1]));
    assert [0] + [1] == [0, 1];
  }

  lemma AgainOne(m: M.Mgr)
    requires m.avail == [] && m.reserved == [] && m.numAvail == 0 && !m.inShrink
    ensures Ones.z.Valid() && M.Alloc(Ones.z, m, 1, 1, [1]).1 == M.Blocks([1])
  {
    OneBlock(1);
    var p := Page(1, 1, 2, [1]);
    OnePageOnly(Ones.z, m, 1, [], p);
    hide M.AllocLoop, M.Alloc, M.PagesUsed, Opened, BlocksPerPage, WithFull;
    assert [1] + [] == [1];
    AllocIsLoop(Ones.z, m, 1, 1, [1], M.Outcome(WithFull(m, p.(free := [])), [1], 1, true));
  }

  ghost predicate Calm(x: Sys) {
    x.pc == AtRest && x.s.flights == map[]
  }

  lemma OneLeft(l: Lists)
    requires l == Drawn(Plain, Regrown, 2)
    ensures l.reserved == [] && l.free == [1] && l.numFree == 1 && Supply(l, 1) == [1]
  {
    var one := DrawOne(Plain, Regrown);
    assert [0, 1, 1][1..] == [1, 1] && [1, 1][1..] == [1] && [1][..1] == [1];
    assert one == Regrown.(free := [1, 1], numFree := 2, wake := one.wake);
    assert Drawn(Plain, Regrown, 1) == one;
  }

  /** A lone _alloc from a fresh manager, its result known. */
  lemma TakeKnown(w: World, x: Sys, need: nat, freePages: int, maps: nat, ids: seq<nat>, m: M.Mgr, blocks: seq<int>, used: nat)
    returns (acts: seq<Act>)
    requires w.z.Valid() && Calm(x) && freePages <= x.s.lists.numFree && ids == Supply(x.s.lists, maps)
    requires M.Alloc(w.z, x.m, need, freePages, ids) == (m, M.Blocks(blocks))
    requires M.PagesUsed(w.z, x.m, need, freePages, ids) == used
    ensures S.CanRun(w, x, acts) && S.NoHazard(w, x, acts)
    ensures var y := S.After(w, x, acts);
      && Calm(y) && y.m == m && y.held == x.held + Elems(blocks) && y.s.lists == Drawn(w.c, x.s.lists, used)
      && y.s.inUse == x.s.inUse + P.IdSet(ids[..used])
  {
    hide M.Alloc, M.PagesUsed, S.CanRun, S.After, S.NoHazard, Drawn, P.IdSet, Supply;
    acts := CL.LoneAllocReturns(w, x, need, freePages, false, maps, ids);
  }

  lemma RegrownSupply()
    ensures Supply(Regrown, 3) == [0, 1, 1] && Elems([0, 1]) == {0, 1}
  {
    assert Regrown.free[..3] == [0, 1, 1];
  }

  /** What a caller asking for two blocks gets after the expansion. */
  lemma FirstPick() returns (ids: seq<nat>, m: M.Mgr, blocks: seq<int>)
    ensures Ones.z.Valid() && ids == Supply(Regrown, 3) && Regrown.numFree == 3
    ensures M.Alloc(Ones.z, M.Fresh, 2, 3, ids) == (m, M.Blocks(blocks)) && M.PagesUsed(Ones.z, M.Fresh, 2, 3, ids) == 2
    ensures Elems(blocks) == {0, 1} && m.avail == [] && m.reserved == [] && m.numAvail == 0 && !m.inShrink
  {
    RegrownSupply();
    ids, m, blocks := [0, 1, 1], M.Fresh.(full := [Page(0, 0, 1, []), Page(1, 1, 2, [])]), [0, 1];
    assert [0, 1] + [1] == ids;
    hide M.Alloc, M.PagesUsed, Supply, Elems;
    FirstTwoOnes(3, [1]);
  }

  lemma TakeOneMore(x: Sys) returns (acts: seq<Act>)
    requires Calm(x) && x.s.lists == Drawn(Plain, Regrown, 2)
    requires x.m.avail == [] && x.m.reserved == [] && x.m.numAvail == 0 && !x.m.inShrink
    ensures Ones.z.Valid() && S.CanRun(Ones, x, acts)
    ensures var y := S.After(Ones, x, acts); y.pc == Serving(0, [1], false, false) && y.held == x.held
  {
    OneLeft(x.s.lists);
    AgainOne(x.m);
    hide M.Alloc, M.PagesUsed, S.CanRun, S.After, S.NoHazard, Drawn, P.IdSet, Supply;
    acts := CL.LoneAlloc(Ones, x, 1, 1, false, 1, [1]);
  }

  /** After a clashing expansion one block can have two owners: a caller has block 1, and _alloc has picked block 1
      for another. */
  lemma TwoOwners() returns (acts: seq<Act>)
    ensures Ones.z.Valid() && S.CanRun(Ones, Start(Ones, 2, 1), acts)
    ensures var y := S.After(Ones, Start(Ones, 2, 1), acts);
      y.pc.Serving? && y.pc.got == [1] && 1 in y.held && !S.Safe(Ones, y)
  {
    hide S.CanRun, S.After, S.NoHazard, Drawn, Start, S.Safe;
    var x := Start(Ones, 2, 1);
    var resize := RegrowRun();
    var x1 := S.After(Ones, x, resize);
    var ids, m, blocks := FirstPick();
    hide M.Alloc, M.PagesUsed, Supply, P.IdSet;
    var first := TakeKnown(Ones, x1, 2, 3, 3, ids, m, blocks, 2);
    var x2 := S.After(Ones, x1, first);
    var second := TakeOneMore(x2);
    CL.RunThen(Ones, x, resize, first);
    CL.RunThen(Ones, x, resize + first, second);
    acts := resize + first + second;
    NotApart(Ones, S.After(Ones, x2, second), 1);
  }

  lemma NotApart(w: World, x: Sys, b: int)
    requires w.z.Valid() && x.pc.Serving? && b in x.pc.got && b in x.held
    ensures !S.Safe(w, x)
  {
    assert b in Elems(x.pc.got);
  }

  // ---- a resize beyond the tensors -------------------------------------------------------------------

  /** A split tensor with room for one page of K and one of V. */
  const OnePair: LY.Geometry := LY.Geometry(LY.Split, 1, 1, 2, 2)

  lemma PairShape()
    ensures var g := OnePair; g.Valid() && LY.Fits(g) && LY.Region(g) == 1 && LY.VBase(g) == 1
    ensures Ones.z.Valid() && OnePair.page == Ones.z.page
  {
  }

  lemma SharedByte()
    ensures OnePair.Valid() && BB.ByteOf(OnePair, Ones.z, 0, 1) && BB.ByteOf(OnePair, Ones.z, 1, 1)
  {
    PairShape();
    assert BB.Within(OnePair, Ones.z, 0, 0) && BB.Within(OnePair, Ones.z, 1, 1);
  }

  const Grown: Lists := Lists([0, 1], [], [], 2, 2, false)

  lemma GrowOneToTwo()
    ensures ResizeWhole(Plain, Created(1), 2, true) == (Grown, Done(true))
    ensures Created(1).reclaimed == [] && Supply(Grown, 2) == [0, 1] && Elems([0, 1]) == {0, 1}
  {
    assert Interval(0, 1) == [0] && Interval(1, 2) == [1] && [0] + [1] == [0, 1] && [0] + [] == [0];
    assert Grown.free[..2] == [0, 1];
    assert Expand(Plain, Created(1), 2) == Grown;
  }

  lemma GrowRun() returns (acts: seq<Act>)
    ensures var x := Start(Ones, 1, 1);
      Ones.z.Valid() && S.CanRun(Ones, x, acts) && S.NoHazard(Ones, x, acts)
    ensures var y := S.After(Ones, Start(Ones, 1, 1), acts);
      y.m == M.Fresh && y.s.lists == Grown && Calm(y) && y.held == {}
  {
    var x := Start(Ones, 1, 1);
    SP.StartOk(Ones, 1, 1);
    GrowOneToTwo();
    Accepted(Ones, M.Fresh, Created(1), 2, Grown);
    StartGrows(x.s);
    assert 2 / Ones.z.page == 2;
    hide SP.SysInv, K.ResizeCall, ResizeWhole, Clashes, S.CanRun, S.After, S.NoHazard;
    acts := CL.LoneResize(Ones, x, 2);
  }

  lemma StartGrows(s: State)
    requires s == Init(1, 1)
    ensures !Clashes(Plain, s, 2)
  {
    C.InitInv(1, 1);
    A.ClashIff(Plain, s, 2);
  }

  /** Nothing keeps a resize within the tensors. With room for one page, one resize and one _alloc later two blocks
      are outstanding, no hazard has occurred, and the V byte of one is the K byte of the other. */
  lemma OutgrownBlocksOverlap() returns (acts: seq<Act>)
    ensures var x := Start(Ones, 1, 1);
      Ones.z.Valid() && S.CanRun(Ones, x, acts) && S.NoHazard(Ones, x, acts)
    ensures S.After(Ones, Start(Ones, 1, 1), acts).held == {0, 1}
    ensures var g := OnePair;
      && g.Valid() && LY.Fits(g) && LY.Region(g) == 1 && g.page == Ones.z.page
      && BB.ByteOf(g, Ones.z, 0, 1) && BB.ByteOf(g, Ones.z, 1, 1)
  {
    PairShape();
    SharedByte();
    hide LY.Fits, LY.Region, BB.ByteOf, S.CanRun, S.After, S.NoHazard, M.Alloc, M.PagesUsed, Start;
    var x := Start(Ones, 1, 1);
    var grow := GrowRun();
    var x1 := S.After(Ones, x, grow);
    var ids, m, blocks := BothPages();
    hide Supply, P.IdSet, Drawn;
    var take := TakeKnown(Ones, x1, 2, 2, 2, ids, m, blocks, 2);
    CL.RunThen(Ones, x, grow, take);
    acts := grow + take;
  }

  lemma BothPages() returns (ids: seq<nat>, m: M.Mgr, blocks: seq<int>)
    ensures Ones.z.Valid() && ids == Supply(Grown, 2) && Grown.numFree == 2
    ensures M.Alloc(Ones.z, M.Fresh, 2, 2, ids) == (m, M.Blocks(blocks)) && M.PagesUsed(Ones.z, M.Fresh, 2, 2, ids) == 2
    ensures Elems(blocks) == {0, 1}
  {
    GrowOneToTwo();
    ids, m, blocks := [0, 1], M.Fresh.(full := [Page(0, 0, 1, []), Page(1, 1, 2, [])]), [0, 1];
    assert [0, 1] + [] == ids;
    hide M.Alloc, M.PagesUsed, Supply, Elems;
    FirstTwoOnes(2, []);
  }

  // ---- a shrink that is dropped ------------------------------------------------------------------------

  const P0: Page := Page(0, 0, 2, [])
  const P1: Page := Page(1, 2, 4, [])

  lemma TwoBlocks()
    ensures Twos.z.Valid() && BlocksPerPage(Twos.z) == 2
    ensures Opened(Twos.z, 0) == Page(0, 0, 2, [0, 1]) && Opened(Twos.z, 1) == Page(1, 2, 4, [2, 3])
    ensures PageOf(Twos.z, 0) == 0 && PageOf(Twos.z, 2) == 1
  {
    assert Interval(0, 2) == [0, 1] && Interval(2, 4) == [2, 3];
  }

  lemma TwoPagesSupply(ids: seq<nat>)
    requires ids == [0, 1]
    ensures ids == Supply(Created(2), 2) && Created(2).numFree == 2 && Created(2).numTotal == 2
    ensures P.IdSet(ids[..2]) == {0, 1}
  {
    assert Interval(0, 2) == [0, 1] && [0, 1][..2] == [0, 1] && [] + [0, 1] == [0, 1];
    var one: seq<nat> := [1];
    assert ids[..2] == ids && ids[1..] == one && one[1..] == [];
    assert P.IdSet(one) == {1} + P.IdSet(one[1..]);
  }

  lemma FourBlocks()
    ensures Elems([0, 1, 2, 3]) == {0, 1, 2, 3}
  {
  }

  lemma AllFour() returns (ids: seq<nat>, m: M.Mgr, blocks: seq<int>)
    ensures Twos.z.Valid() && ids == [0, 1]
    ensures M.Alloc(Twos.z, M.Fresh, 4, 2, ids) == (m, M.Blocks(blocks)) && M.PagesUsed(Twos.z, M.Fresh, 4, 2, ids) == 2
    ensures Elems(blocks) == {0, 1, 2, 3} && m == M.Fresh.(full := [P0, P1])
  {
    ids, m, blocks := [0, 1], M.Fresh.(full := [P0, P1]), [0, 1, 2, 3];
    assert [0, 1] + [] == [0, 1] && [0, 1] + [2, 3] == blocks;
    FourBlocks();
    TwoBlocks();
    hide M.Alloc, M.PagesUsed, Opened, BlocksPerPage, Elems;
    FirstTwo(Twos.z, 2, [], Page(0, 0, 2, [0, 1]), Page(1, 2, 4, [2, 3]));
  }

  /** Page a leaves the front of a dictionary of two. */
  lemma FrontOfTwo(p: Page, q: Page)
    requires p.id != q.id
    ensures Ids([p, q]) == {p.id, q.id} && Lookup([p, q], p.id) == p && Without([p, q], p.id) == [q]
  {
    IdsOne(p);
    assert [p, q][..1] == [p] && [p][..0] == [];
  }

  lemma OnlyPage(p: Page)
    ensures Ids([p]) == {p.id} && Lookup([p], p.id) == p && Without([p], p.id) == []
  {
    IdsOne(p);
    assert [p][..0] == [];
  }

  /** One block back into each of two full pages that are not emptied by it. */
  lemma BackIntoBoth(m: M.Mgr, p: Page, q: Page, a: int, b: int)
    requires m.full == [p, q] && m.avail == [] && p.id != q.id && p.free == [] && q.free == []
    requires !PutBack(p, [a]).Empty() && !PutBack(q, [b]).Empty()
    ensures var m1 := m.(full := [q], avail := [PutBack(p, [a])], numAvail := m.numAvail + 1);
      && M.FreeGroup(m, p.id, [a]) == (m1, [])
      && M.FreeGroup(m1, q.id, [b])
         == (m.(full := [], avail := [PutBack(p, [a]), PutBack(q, [b])], numAvail := m.numAvail + 2), [])
  {
    FrontOfTwo(p, q);
    OnlyPage(q);
    var p', q' := PutBack(p, [a]), PutBack(q, [b]);
    IdsOne(p');
    hide Ids, Lookup, Without, Put;
    assert [] + [p'] == [p'] && [p'] + [q'] == [p', q'];
  }

  lemma Groups()
    ensures Twos.z.Valid() && Group(Twos.z, [0, 2], 0) == [0] && Group(Twos.z, [0, 2], 1) == [2]
    ensures M.Enumerates(Twos.z, [0, 2], [0, 1]) && Elems([0, 2]) == {0, 2}
  {
    TwoBlocks();
    var two, one := [0, 2], [0];
    assert two[..1] == one && one[..0] == [];
    hide PageOf, Opened, BlocksPerPage;
    assert Group(Twos.z, one, 0) == Group(Twos.z, one[..0], 0) + [0];
    assert Group(Twos.z, one, 1) == Group(Twos.z, one[..0], 1);
    assert Group(Twos.z, two, 0) == Group(Twos.z, one, 0);
    assert Group(Twos.z, two, 1) == Group(Twos.z, one, 1) + [2];
  }

  const HalfFree: M.Mgr := M.Mgr([Page(0, 0, 2, [0]), Page(1, 2, 4, [2])], [], 2, [], true, 2)

  lemma FreeOneEach(m: M.Mgr)
    requires m == M.Fresh.(full := [P0, P1], inShrink := true, target := 2)
    ensures Twos.z.Valid() && M.FreeGroups(Twos.z, m, [0, 2], [0, 1]) == (HalfFree, [])
  {
    Groups();
    BackIntoBoth(m, P0, P1, 0, 2);
    hide M.FreeGroup, Group, M.Enumerates;
    var two, one := [0, 1], [0];
    assert two[..1] == one && one[..0] == [];
    assert M.FreeGroups(Twos.z, m, [0, 2], one[..0]) == (m, []);
    assert M.FreeGroups(Twos.z, m, [0, 2], one).1 == [];
  }

  lemma RetryRefused(l: Lists)
    requires l.numFree == 0 && l.numTotal == 2
    ensures ResizeWhole(Plain, l, 1, true) == (l, Done(false))
  {
  }

  lemma RetryIsDue()
    ensures Twos.z.Valid() && M.ShrinkDue(Twos.z, HalfFree) && ShrinkPages(Twos, HalfFree) == 1
  {
    TwoBlocks();
  }

  const Waiting: M.Mgr := M.Fresh.(full := [P0, P1], inShrink := true, target := 2)

  /** Both pages are handed out whole, and a resize to one of them has been refused. */
  ghost predicate ShrinkAsked(x: Sys) {
    && Calm(x) && x.m == Waiting && x.held == {0, 1, 2, 3} && x.s.inUse == {0, 1}
    && x.s.lists.numFree == 0 && x.s.lists.numTotal == 2
  }

  lemma Refused(l: Lists, m: M.Mgr)
    requires l.numFree == 0 && l.numTotal == 2 && m == M.Fresh.(full := [P0, P1])
    ensures Twos.z.Valid() && K.ResizeCall(Twos.z, Plain, m, l, 2, true) == (Waiting, l, Done(false))
  {
    RetryRefused(l);
    assert 2 / Twos.z.page == 1;
    hide ResizeWhole;
  }

  lemma TwoDrawn(l: Lists)
    requires l == Drawn(Plain, Created(2), 2)
    ensures l.numFree == 0 && l.numTotal == 2
  {
    DrawnInOrder(Plain, Created(2), 2);
  }

  /** A lone resize, its result known. */
  lemma ResizeKnown(w: World, x: Sys, newMemSize: nat, m: M.Mgr, l: Lists, reply: Reply) returns (acts: seq<Act>)
    requires w.z.Valid() && SP.SysInv(w, x) && Calm(x) && newMemSize > 0 && newMemSize / w.z.page <= x.s.lists.numTotal
    requires K.ResizeCall(w.z, w.c, x.m, x.s.lists, newMemSize, true) == (m, l, reply)
    ensures S.CanRun(w, x, acts) && S.NoHazard(w, x, acts)
    ensures var y := S.After(w, x, acts);
      Calm(y) && y.m == m && y.s.lists == l && y.held == x.held && y.s.inUse == x.s.inUse
  {
    NoClashDown(w.c, x.s, newMemSize / w.z.page);
    hide SP.SysInv, S.CanRun, S.After, S.NoHazard, K.ResizeCall, Clashes;
    acts := CL.LoneResize(w, x, newMemSize);
  }

  ghost predicate AllTaken(x: Sys) {
    && Calm(x) && x.m == M.Fresh.(full := [P0, P1]) && x.held == {0, 1, 2, 3} && x.s.inUse == {0, 1}
    && x.s.lists == Drawn(Plain, Created(2), 2)
  }

  lemma TakeFour() returns (acts: seq<Act>)
    ensures var x := Start(Twos, 2, 1); Twos.z.Valid() && S.CanRun(Twos, x, acts) && S.NoHazard(Twos, x, acts)
    ensures AllTaken(S.After(Twos, Start(Twos, 2, 1), acts))
  {
    var x := Start(Twos, 2, 1);
    var ids, m, blocks := AllFour();
    TwoPagesSupply(ids);
    hide M.Alloc, M.PagesUsed, S.CanRun, S.After, S.NoHazard, Drawn, P.IdSet, Supply;
    acts := TakeKnown(Twos, x, 4, 2, 2, ids, m, blocks, 2);
  }

  lemma AskAgain(x: Sys) returns (acts: seq<Act>)
    requires Twos.z.Valid() && SP.SysInv(Twos, x) && AllTaken(x)
    ensures S.CanRun(Twos, x, acts) && S.NoHazard(Twos, x, acts) && ShrinkAsked(S.After(Twos, x, acts))
  {
    TwoDrawn(x.s.lists);
    Refused(x.s.lists, x.m);
    assert 2 / Twos.z.page == 1;
    hide SP.SysInv, S.CanRun, S.After, S.NoHazard, Drawn, K.ResizeCall;
    acts := ResizeKnown(Twos, x, 2, Waiting, x.s.lists, Done(false));
  }

  lemma AskToShrink() returns (acts: seq<Act>)
    ensures var x := Start(Twos, 2, 1); Twos.z.Valid() && S.CanRun(Twos, x, acts) && S.NoHazard(Twos, x, acts)
    ensures ShrinkAsked(S.After(Twos, Start(Twos, 2, 1), acts))
    ensures SP.SysInv(Twos, S.After(Twos, Start(Twos, 2, 1), acts))
  {
    hide SP.SysInv, S.CanRun, S.After, S.NoHazard, Start, AllTaken, ShrinkAsked;
    var x := Start(Twos, 2, 1);
    SP.StartOk(Twos, 2, 1);
    var take := TakeFour();
    S.RunKeepsInv(Twos, x, take);
    var ask := AskAgain(S.After(Twos, x, take));
    CL.RunThen(Twos, x, take, ask);
    acts := take + ask;
    S.RunKeepsInv(Twos, x, acts);
  }

  lemma MayFree(x: Sys)
    requires ShrinkAsked(x) && SP.SysInv(Twos, x)
    ensures Twos.z.Valid() && CL.FreeStarts(Twos, x, StartFree([0, 2], [0, 1]), [0, 2], [0, 1], false)
  {
    Groups();
    hide SP.SysInv, M.Enumerates;
  }

  /** What the class's free computes here: the retry is due, refused and forgotten. */
  lemma FreeForgets(l: Lists)
    requires l.numFree == 0 && l.numTotal == 2
    ensures Twos.z.Valid()
    ensures K.FreeCall(Twos.z, Plain, Waiting, l, [0, 2], [0, 1], true, true)
         == K.After(M.ShrinkOver(HalfFree), l, true)
  {
    FreeOneEach(Waiting);
    RetryIsDue();
    RetryRefused(l);
    CL.ShrinkTarget(Twos, HalfFree);
    hide M.FreeGroups, M.ShrinkDue, ShrinkPages, ResizeWhole, K.RetryPages;
  }

  /** The answer to the retried shrink is ignored: with a shrink to one page pending, a caller frees a block in each
      of two pages; few enough blocks are left for one page, so the retry is made, it is refused because both pages
      are in use, and the shrink is forgotten with the total as it was. */
  lemma ShrinkDropped() returns (before: seq<Act>, freeing: seq<Act>)
    ensures Twos.z.Valid() && S.CanRun(Twos, Start(Twos, 2, 1), before)
    ensures var x := S.After(Twos, Start(Twos, 2, 1), before);
      && ShrinkAsked(x) && S.CanRun(Twos, x, freeing)
      && var y := S.After(Twos, x, freeing);
         Calm(y) && !y.m.inShrink && y.s.lists.numTotal == 2 && y.s.inUse == {0, 1} && y.held == {1, 3}
  {
    before := AskToShrink();
    var x := S.After(Twos, Start(Twos, 2, 1), before);
    hide S.CanRun, S.After, S.NoHazard, Start;
    freeing := FreeAfterAsking(x);
  }

  /** A lone free, its result known. */
  lemma FreeKnown(w: World, x: Sys, a: Act, indices: seq<int>, order: seq<int>, m: M.Mgr, l: Lists)
    returns (acts: seq<Act>)
    requires w.z.Valid() && CL.FreeStarts(w, x, a, indices, order, false)
    requires K.FreeCall(w.z, w.c, x.m, x.s.lists, indices, order, true, true) == K.After(m, l, true)
    ensures S.CanRun(w, x, acts)
    ensures var y := S.After(w, x, acts);
      && Calm(y) && y.m == m && y.s.lists == l && y.held == x.held - Elems(indices)
      && y.s.inUse == x.s.inUse - Elems(M.FreeGroups(w.z, x.m, indices, order).1)
  {
    hide SP.SysInv, S.CanRun, S.After, S.NoHazard, K.FreeCall, M.FreeGroups, Elems, CL.FreeStarts;
    acts := CL.LoneFree(w, x, a, indices, order, false);
  }

  lemma FreedPair() returns (indices: seq<int>)
    ensures indices == [0, 2] && Elems(indices) == {0, 2}
  {
    indices := [0, 2];
  }

  lemma FreeFacts(x: Sys) returns (a: Act, indices: seq<int>, order: seq<int>, m: M.Mgr)
    requires ShrinkAsked(x) && SP.SysInv(Twos, x)
    ensures Twos.z.Valid() && CL.FreeStarts(Twos, x, a, indices, order, false)
    ensures K.FreeCall(Twos.z, Twos.c, x.m, x.s.lists, indices, order, true, true) == K.After(m, x.s.lists, true)
    ensures Elems(M.FreeGroups(Twos.z, x.m, indices, order).1) == {} && Elems(indices) == {0, 2} && !m.inShrink
  {
    hide SP.SysInv, K.FreeCall, M.FreeGroups, CL.FreeStarts, M.Enumerates, Elems;
    MayFree(x);
    FreeForgets(x.s.lists);
    FreeOneEach(Waiting);
    P.ElemsNone();
    indices := FreedPair();
    order, m := [0, 1], M.ShrinkOver(HalfFree);
    a := StartFree(indices, order);
  }

  lemma FreeAfterAsking(x: Sys) returns (freeing: seq<Act>)
    requires ShrinkAsked(x) && SP.SysInv(Twos, x)
    ensures Twos.z.Valid() && S.CanRun(Twos, x, freeing)
    ensures var y := S.After(Twos, x, freeing);
      Calm(y) && !y.m.inShrink && y.s.lists.numTotal == 2 && y.s.inUse == {0, 1} && y.held == {1, 3}
  {
    hide SP.SysInv, S.CanRun, S.After, S.NoHazard, K.FreeCall, M.FreeGroups, Elems, CL.FreeStarts;
    var a, indices, order, m := FreeFacts(x);
    freeing := FreeKnown(Twos, x, a, indices, order, m, x.s.lists);
    assert {0, 1, 2, 3} - {0, 2} == {1, 3};
  }

  lemma FirstGroup()
    ensures Twos.z.Valid() && M.Enumerates(Twos.z, [0], [0]) && Elems([0]) == {0}
  {
    TwoBlocks();
    var one := [0];
    assert one[..0] == [];
    hide PageOf, Opened, BlocksPerPage;
    assert Group(Twos.z, one, 0) == Group(Twos.z, one[..0], 0) + [0];
  }

  lemma MayFreeFirst(x: Sys) returns (indices: seq<int>, order: seq<int>)
    requires ShrinkAsked(x) && SP.SysInv(Twos, x)
    ensures Twos.z.Valid() && CL.FreeStarts(Twos, x, StartFree(indices, order), indices, order, false)
    ensures Elems(indices) == {0} && Twos.z.page % Twos.z.block == 0
    ensures x.m.inShrink && x.m.target == 2 && x.held == {0, 1, 2, 3}
  {
    FirstGroup();
    indices, order := [0], [0];
    hide SP.SysInv, M.Enumerates;
  }

  lemma ThreeLeft(held: set<int>)
    requires held == {0, 1, 2, 3} - {0}
    ensures held == {1, 2, 3} && |held| == 3
  {
  }

  /** Freed too little, a shrink stays pending: from the same state a caller frees one block, three are still
      allocated, and no retry is made. */
  lemma ShrinkStays() returns (before: seq<Act>, freeing: seq<Act>)
    ensures Twos.z.Valid() && S.CanRun(Twos, Start(Twos, 2, 1), before)
    ensures var x := S.After(Twos, Start(Twos, 2, 1), before);
      && ShrinkAsked(x) && S.CanRun(Twos, x, freeing)
      && var y := S.After(Twos, x, freeing); y.pc == AtRest && y.m.inShrink && y.m.target == 2 && y.held == {1, 2, 3}
  {
    hide S.CanRun, S.After, S.NoHazard, Start, ShrinkAsked, CL.FreeStarts, SP.SysInv, Elems;
    before := AskToShrink();
    var x := S.After(Twos, Start(Twos, 2, 1), before);
    var indices, order := MayFreeFirst(x);
    freeing := SH.FreeKeepsPendingIff(Twos, x, StartFree(indices, order), indices, order, false);
    var y := S.After(Twos, x, freeing);
    FreedRests(x, y, indices, order);
    ThreeLeft(y.held);
  }

  lemma FreedRests(x: Sys, y: Sys, indices: seq<int>, order: seq<int>)
    requires Twos.z.Valid() && CL.FreeDone(Twos, x, y, indices, order, false)
    ensures y.pc == AtRest && y.held == x.held - Elems(indices)
  {
    hide K.FreeCall, M.FreeGroups, Elems;
  }
}
