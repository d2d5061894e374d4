/** Calls that nobody interrupts and whose broadcasts succeed: step by step, the system does what the methods of
    the KVCacheManager class compute. */
module Calls {
  import opened BlockMath
  import opened PageLists
  import opened Machine
  import opened Seqs
  import opened System
  import C = Conservation
  import K = KVCacheManagers
  import M = Manager
  import P = ManagerProofs
  import R = Runs
  import RZ = Resizing
  import S = Safety
  import SP = SystemProofs

  // ---- runs one after another --------------------------------------------------------------------

  lemma {:induction false} RunThen(w: World, x: Sys, a: seq<Act>, b: seq<Act>)
    requires w.z.Valid() && S.CanRun(w, x, a) && S.CanRun(w, S.After(w, x, a), b)
    ensures S.CanRun(w, x, a + b) && S.After(w, x, a + b) == S.After(w, S.After(w, x, a), b)
    ensures S.NoHazard(w, x, a + b) <==> S.NoHazard(w, x, a) && S.NoHazard(w, S.After(w, x, a), b)
    decreases |a|
  {
    hide Can, Next, Hazard;
    if a == [] {
      assert a + b == b;
    } else {
      RunThen(w, Next(w, x, a[0]), a[1..], b);
      assert (a + b)[1..] == a[1..] + b;
    }
  }

  lemma OneAct(w: World, x: Sys, a: Act)
    requires w.z.Valid() && Can(w, x, a)
    ensures S.CanRun(w, x, [a]) && S.After(w, x, [a]) == Next(w, x, a)
    ensures S.NoHazard(w, x, [a]) <==> !Hazard(w, x, a)
  {
    hide Can, Next, Hazard;
  }

  lemma NoAct(w: World, x: Sys)
    requires w.z.Valid()
    ensures S.CanRun(w, x, []) && S.After(w, x, []) == x && S.NoHazard(w, x, [])
  {
  }

  // ---- every rank answers ------------------------------------------------------------------------

  /** y is x except that the user's request has been answered by every rank. */
  ghost predicate AllAnswered(x: Sys, y: Sys) {
    && User in x.s.flights && y == x.(s := y.s) && |y.s.mapped| == |x.s.mapped|
    && y.s == x.s.(mapped := y.s.mapped, flights := x.s.flights[User := x.s.flights[User].(pending := {})])
  }

  lemma {:induction false} RanksMap(w: World, x: Sys, n: nat) returns (acts: seq<Act>)
    requires w.z.Valid() && User in x.s.flights && x.s.flights[User].job.Maps() && n <= |x.s.mapped|
    requires x.s.flights[User].pending == RanksBelow(n)
    ensures S.CanRun(w, x, acts) && S.NoHazard(w, x, acts) && AllAnswered(x, S.After(w, x, acts))
    ensures S.After(w, x, acts).s.flights[User].failed == x.s.flights[User].failed
    decreases n
  {
    if n == 0 {
      acts := [];
      assert x.s.flights == x.s.flights[User := x.s.flights[User].(pending := {})];
    } else {
      var f := x.s.flights[User];
      var e := RankMap(User, n - 1, x.s.mapped[n - 1] + Elems(f.pages), true);
      var x1 := Next(w, x, Background(e));
      assert RanksBelow(n) - {n - 1} == RanksBelow(n - 1);
      var rest := RanksMap(w, x1, n - 1);
      OneAct(w, x, Background(e));
      hide Can, Next;
      RunThen(w, x, [Background(e)], rest);
      acts := [Background(e)] + rest;
    }
  }

  lemma {:induction false} RanksUnmap(w: World, x: Sys, n: nat) returns (acts: seq<Act>)
    requires w.z.Valid() && Inv(x.s) && User in x.s.flights && !x.s.flights[User].job.Maps() && n <= |x.s.mapped|
    requires x.s.flights[User].pending == RanksBelow(n)
    ensures S.CanRun(w, x, acts) && S.NoHazard(w, x, acts) && AllAnswered(x, S.After(w, x, acts)) && Inv(S.After(w, x, acts).s)
    ensures S.After(w, x, acts).s.flights[User].failed == x.s.flights[User].failed
    decreases n
  {
    if n == 0 {
      acts := [];
      assert x.s.flights == x.s.flights[User := x.s.flights[User].(pending := {})];
    } else {
      var f := x.s.flights[User];
      var e := RankUnmap(User, n - 1, x.s.mapped[n - 1] - Elems(f.pages), true);
      R.UnmapNeverRefused(x.s, User, n - 1);
      C.StepKeepsInv(w.c, x.s, e);
      var x1 := Next(w, x, Background(e));
      assert RanksBelow(n) - {n - 1} == RanksBelow(n - 1);
      var rest := RanksUnmap(w, x1, n - 1);
      OneAct(w, x, Background(e));
      hide Can, Next, Inv;
      RunThen(w, x, [Background(e)], rest);
      acts := [Background(e)] + rest;
    }
  }

  // ---- _alloc --------------------------------------------------------------------------------------

  /** The state of an _alloc under way, quiet otherwise. */
  ghost predicate Serving0(x: Sys) {
    x.pc.Serving? && !x.pc.asking && x.s.flights == map[]
  }

  /** y has served `blocks` more than x and drawn the first `used` pages of supply. */
  ghost predicate Served0(w: World, x: Sys, y: Sys, m: M.Mgr, blocks: seq<int>, supply: seq<nat>, used: nat)
    requires used <= |supply|
  {
    && Serving0(x) && Serving0(y) && |blocks| <= x.pc.need
    && y.m == m && y.pc == x.pc.(need := x.pc.need - |blocks|, got := x.pc.got + blocks)
    && y.held == x.held && y.dropped == x.dropped && y.s.lost == x.s.lost && |y.s.mapped| == |x.s.mapped|
    && y.s.inUse == x.s.inUse + P.IdSet(supply[..used]) && y.s.lists == Drawn(w.c, x.s.lists, used)
  }

  lemma {:induction false} DrawnFirst(c: Config, l: Lists, n: nat)
    ensures Drawn(c, DrawOne(c, l), n) == Drawn(c, l, n + 1)
  {
    hide DrawOne;
    if n > 0 {
      DrawnFirst(c, l, n - 1);
    }
  }

  lemma PageSet(supply: seq<nat>)
    requires supply != []
    ensures P.IdSet(supply[..1]) == {supply[0] as int}
  {
    assert supply[..1][1..] == [];
  }

  /** The page just mapped is handed over. */
  lemma PageGiven(w: World, x: Sys, p: PageId)
    requires w.z.Valid() && x.pc.Serving? && x.pc.asking && x.pc.need > 0
    requires x.s.flights == map[User := Flight(ForAlloc, [p], {}, false)]
    ensures Can(w, x, PageAnswered)
    ensures StepAllocDone(w.c, x.s, User)
         == x.s.(flights := map[], lists := AllocMapped(w.c, x.s.lists), inUse := x.s.inUse + {p})
  {
    assert x.s.flights - {User} == map[];
  }

  /** One page from the page allocator, mapped by the ranks if it was not in the pool. */
  lemma OnePage(w: World, x: Sys, maps: nat, supply: seq<nat>) returns (acts: seq<Act>, left: nat)
    requires w.z.Valid() && Serving0(x) && x.pc.need > 0 && x.m.avail == []
    requires supply == Supply(x.s.lists, maps) && supply != []
    requires |M.ServeNew(w.z, x.m, supply[0], x.pc.need).1| <= x.pc.need
    ensures S.CanRun(w, x, acts) && S.NoHazard(w, x, acts)
    ensures var (m, blocks) := M.ServeNew(w.z, x.m, supply[0], x.pc.need); var y := S.After(w, x, acts);
      Served0(w, x, y, m, blocks, supply, 1) && supply[1..] == Supply(y.s.lists, left)
  {
    if x.s.lists.reserved != [] {
      OneFromPool(w, x, maps, supply);
      acts, left := [RequestPage], maps;
    } else {
      K.NextPage(w.c, x.s.lists, maps);
      left := maps - 1;
      acts := OneMapped(w, x, maps, supply);
    }
  }

  lemma OneFromPool(w: World, x: Sys, maps: nat, supply: seq<nat>)
    requires w.z.Valid() && Serving0(x) && x.pc.need > 0 && x.m.avail == [] && x.s.lists.reserved != []
    requires supply == Supply(x.s.lists, maps) && supply != []
    requires |M.ServeNew(w.z, x.m, supply[0], x.pc.need).1| <= x.pc.need
    ensures S.CanRun(w, x, [RequestPage]) && S.NoHazard(w, x, [RequestPage])
    ensures var (m, blocks) := M.ServeNew(w.z, x.m, supply[0], x.pc.need); var y := S.After(w, x, [RequestPage]);
      Served0(w, x, y, m, blocks, supply, 1) && supply[1..] == Supply(y.s.lists, maps)
  {
    K.NextPage(w.c, x.s.lists, maps);
    PageSet(supply);
    K.DrawnNext(w.c, x.s.lists, 0);
    K.DrawnZero(w.c, x.s.lists);
    hide M.ServeNew, Supply, P.IdSet, Drawn;
    OneAct(w, x, RequestPage);
  }

  /** The page is popped and asked for. */
  lemma PageAsked(w: World, x: Sys, maps: nat, supply: seq<nat>)
    requires w.z.Valid() && Serving0(x) && x.pc.need > 0 && x.m.avail == [] && x.s.lists.reserved == []
    requires supply == Supply(x.s.lists, maps) && supply != []
    ensures S.CanRun(w, x, [RequestPage]) && S.NoHazard(w, x, [RequestPage])
    ensures var x1 := S.After(w, x, [RequestPage]); var l := TryAlloc(w.c, x.s.lists).0;
      && x1 == x.(s := x1.s, pc := x.pc.(asking := true))
      && x1.s == x.s.(lists := l, flights := map[User := Flight(ForAlloc, [supply[0] as int], x.s.Ranks(), false)])
      && AllocMapped(w.c, l) == DrawOne(w.c, x.s.lists)
  {
    K.NextPage(w.c, x.s.lists, maps);
    hide Supply;
    OneAct(w, x, RequestPage);
  }

  lemma OneMapped(w: World, x: Sys, maps: nat, supply: seq<nat>) returns (acts: seq<Act>)
    requires w.z.Valid() && Serving0(x) && x.pc.need > 0 && x.m.avail == [] && x.s.lists.reserved == []
    requires supply == Supply(x.s.lists, maps) && supply != [] && maps > 0
    requires |M.ServeNew(w.z, x.m, supply[0], x.pc.need).1| <= x.pc.need
    ensures S.CanRun(w, x, acts) && S.NoHazard(w, x, acts)
    ensures var (m, blocks) := M.ServeNew(w.z, x.m, supply[0], x.pc.need); var y := S.After(w, x, acts);
      Served0(w, x, y, m, blocks, supply, 1) && supply[1..] == Supply(y.s.lists, maps - 1)
  {
    K.NextPage(w.c, x.s.lists, maps);
    PageSet(supply);
    K.DrawnNext(w.c, x.s.lists, 0);
    K.DrawnZero(w.c, x.s.lists);
    PageAsked(w, x, maps, supply);
    hide M.ServeNew, Supply, P.IdSet, Drawn, TryAlloc, DrawOne;
    var x1 := S.After(w, x, [RequestPage]);
    var mapping := RanksMap(w, x1, |x1.s.mapped|);
    var x2 := S.After(w, x1, mapping);
    PageGiven(w, x2, supply[0]);
    OneAct(w, x2, PageAnswered);
    hide Can, Next;
    RunThen(w, x1, mapping, [PageAnswered]);
    RunThen(w, x, [RequestPage], mapping + [PageAnswered]);
    acts := [RequestPage] + (mapping + [PageAnswered]);
  }

  lemma HeldThen(w: World, x: Sys, x1: Sys, y: Sys, m: M.Mgr, first: seq<int>, rest: seq<int>, supply: seq<nat>, used: nat)
    requires used <= |supply| && Serving0(x) && |first| <= x.pc.need && x1 == Served(x, x1.m, first)
    requires Served0(w, x1, y, m, rest, supply, used)
    ensures Served0(w, x, y, m, first + rest, supply, used)
  {
    hide Drawn, P.IdSet;
    assert (x.pc.got + first) + rest == x.pc.got + (first + rest);
  }

  lemma NewThen(w: World, x: Sys, x1: Sys, y: Sys, m: M.Mgr, first: seq<int>, rest: seq<int>, supply: seq<nat>, used: nat)
    requires supply != [] && used <= |supply[1..]| && Served0(w, x, x1, x1.m, first, supply, 1)
    requires Served0(w, x1, y, m, rest, supply[1..], used)
    ensures Served0(w, x, y, m, first + rest, supply, used + 1)
  {
    DrawnFirst(w.c, x.s.lists, used);
    K.DrawnNext(w.c, x.s.lists, 0);
    K.DrawnZero(w.c, x.s.lists);
    PageSet(supply);
    assert supply[..used + 1][1..] == supply[1..][..used];
    assert P.IdSet(supply[..used + 1]) == {supply[0] as int} + P.IdSet(supply[1..][..used]);
    hide Drawn, P.IdSet;
    assert (x.pc.got + first) + rest == x.pc.got + (first + rest);
  }

  lemma NoneYet(w: World, x: Sys, supply: seq<nat>)
    requires Serving0(x)
    ensures Served0(w, x, x, x.m, [], supply, 0)
  {
    assert supply[..0] == [] && x.pc.got + [] == x.pc.got;
  }

  lemma HeldAct(w: World, x: Sys)
    requires w.z.Valid() && Serving0(x) && x.pc.need > 0 && x.m.avail != []
    requires |M.ServeHeld(x.m, x.pc.need).1| <= x.pc.need
    ensures S.CanRun(w, x, [ServeFromHeld]) && S.NoHazard(w, x, [ServeFromHeld])
    ensures var (m, blocks) := M.ServeHeld(x.m, x.pc.need); S.After(w, x, [ServeFromHeld]) == Served(x, m, blocks)
  {
    OneAct(w, x, ServeFromHeld);
  }

  lemma HeldRun(w: World, x: Sys, rest: seq<Act>, m: M.Mgr, found: seq<int>, supply: seq<nat>, used: nat)
    requires w.z.Valid() && Serving0(x) && x.pc.need > 0 && x.m.avail != [] && used <= |supply|
    requires |M.ServeHeld(x.m, x.pc.need).1| <= x.pc.need
    requires var (m1, first) := M.ServeHeld(x.m, x.pc.need); var x1 := Served(x, m1, first);
      S.CanRun(w, x1, rest) && S.NoHazard(w, x1, rest) && Served0(w, x1, S.After(w, x1, rest), m, found, supply, used)
    ensures var first := M.ServeHeld(x.m, x.pc.need).1; var acts := [ServeFromHeld] + rest;
      S.CanRun(w, x, acts) && S.NoHazard(w, x, acts) && Served0(w, x, S.After(w, x, acts), m, first + found, supply, used)
  {
    hide M.ServeHeld, Served0, P.IdSet, Drawn, Can, Next, S.CanRun, S.NoHazard, S.After;
    var (m1, first) := M.ServeHeld(x.m, x.pc.need);
    var x1 := Served(x, m1, first);
    HeldAct(w, x);
    HeldThen(w, x, x1, S.After(w, x1, rest), m, first, found, supply, used);
    RunThen(w, x, [ServeFromHeld], rest);
  }

  lemma NewRun(w: World, x: Sys, one: seq<Act>, rest: seq<Act>, m1: M.Mgr, first: seq<int>, m: M.Mgr, found: seq<int>,
               supply: seq<nat>, used: nat)
    requires w.z.Valid() && supply != [] && used <= |supply[1..]|
    requires S.CanRun(w, x, one) && S.NoHazard(w, x, one) && Served0(w, x, S.After(w, x, one), m1, first, supply, 1)
    requires var x1 := S.After(w, x, one);
      S.CanRun(w, x1, rest) && S.NoHazard(w, x1, rest) && Served0(w, x1, S.After(w, x1, rest), m, found, supply[1..], used)
    ensures S.CanRun(w, x, one + rest) && S.NoHazard(w, x, one + rest)
    ensures Served0(w, x, S.After(w, x, one + rest), m, first + found, supply, used + 1)
  {
    hide Served0, P.IdSet, Drawn, Can, Next, S.CanRun, S.NoHazard, S.After;
    var x1 := S.After(w, x, one);
    AfterOne(w, x, x1, m1, first, supply);
    NewThen(w, x, x1, S.After(w, x1, rest), m, first, found, supply, used);
    RunThen(w, x, one, rest);
  }

  /** The loop of _alloc, while mapping works `maps` times: the steps end as the loop function does. */
  lemma {:induction false} LoneLoop(w: World, x: Sys, maps: nat, supply: seq<nat>) returns (acts: seq<Act>)
    requires w.z.Valid() && Serving0(x) && supply == Supply(x.s.lists, maps)
    requires M.AllocLoop(w.z, x.m, x.pc.need, supply).done
    ensures S.CanRun(w, x, acts) && S.NoHazard(w, x, acts)
    ensures var o := M.AllocLoop(w.z, x.m, x.pc.need, supply);
      Served0(w, x, S.After(w, x, acts), o.m, o.blocks, supply, o.used) && |o.blocks| == x.pc.need
    decreases x.pc.need, |supply|, |x.m.avail|
  {
    hide M.AllocLoop, M.ServeHeld, M.ServeNew, Supply, Served0, P.IdSet, Drawn, Can, Next, S.CanRun, S.NoHazard, S.After;
    if x.pc.need == 0 {
      M.LoopDone(w.z, x.m, supply);
      NoAct(w, x);
      acts := [];
      NoneYet(w, x, supply);
    } else if x.m.avail != [] {
      M.LoopHeld(w.z, x.m, x.pc.need, supply);
      var (m1, first) := M.ServeHeld(x.m, x.pc.need);
      var rest := LoneLoop(w, Served(x, m1, first), maps, supply);
      var o := M.AllocLoop(w.z, m1, x.pc.need - |first|, supply);
      HeldRun(w, x, rest, o.m, o.blocks, supply, o.used);
      acts := [ServeFromHeld] + rest;
    } else {
      if supply == [] { M.LoopDry(w.z, x.m, x.pc.need); }
      M.LoopNew(w.z, x.m, x.pc.need, supply);
      var (m1, first) := M.ServeNew(w.z, x.m, supply[0], x.pc.need);
      var one, left := OnePage(w, x, maps, supply);
      AfterOne(w, x, S.After(w, x, one), m1, first, supply);
      var rest := LoneLoop(w, S.After(w, x, one), left, supply[1..]);
      var o := M.AllocLoop(w.z, m1, x.pc.need - |first|, supply[1..]);
      NewRun(w, x, one, rest, m1, first, o.m, o.blocks, supply, o.used);
      acts := one + rest;
    }
  }

  lemma AfterOne(w: World, x: Sys, x1: Sys, m: M.Mgr, blocks: seq<int>, supply: seq<nat>)
    requires supply != [] && Served0(w, x, x1, m, blocks, supply, 1)
    ensures Serving0(x1) && x1.m == m && x1.pc.need == x.pc.need - |blocks|
  {
  }

  lemma AllocBegins(w: World, x: Sys, need: nat, freePages: int, keep: bool)
    requires w.z.Valid() && x.pc.AtRest? && freePages <= x.s.lists.numFree
    requires M.AvailableSize(w.z, x.m, freePages) >= need
    ensures var a := StartAlloc(need, freePages, keep); var (m, taken) := M.TakeReserved(x.m, need);
      && Can(w, x, a) && !Hazard(w, x, a)
      && Next(w, x, a) == x.(m := m, pc := Serving(need - |taken|, taken, keep, false))
  {
    hide M.AvailableSize;
  }

  lemma AllocInParts(z: Sizes, m: M.Mgr, need: nat, freePages: int, supply: seq<nat>)
    requires z.Valid() && M.Alloc(z, m, need, freePages, supply).1.Blocks?
    ensures var (m1, taken) := M.TakeReserved(m, need); var o := M.AllocLoop(z, m1, need - |taken|, supply);
      && M.AvailableSize(z, m, freePages) >= need && o.done
      && M.Alloc(z, m, need, freePages, supply) == (o.m, M.Blocks(taken + o.blocks))
      && M.PagesUsed(z, m, need, freePages, supply) == o.used
  {
    hide M.AvailableSize, M.AllocLoop, M.TakeReserved;
  }

  /** The caller has been served: m are the fields, `blocks` what was picked, the first `used` pages were drawn. */
  ghost predicate Picked(w: World, x: Sys, y: Sys, m: M.Mgr, blocks: seq<int>, keep: bool, supply: seq<nat>, used: nat)
    requires used <= |supply|
  {
    && y.m == m && y.pc == Serving(0, blocks, keep, false) && y.held == x.held && y.dropped == x.dropped
    && y.s.lists == Drawn(w.c, x.s.lists, used) && y.s.inUse == x.s.inUse + P.IdSet(supply[..used])
    && y.s.flights == map[] && y.s.lost == x.s.lost && |y.s.mapped| == |x.s.mapped|
  }

  lemma AllPicked(w: World, x: Sys, x1: Sys, y: Sys, m: M.Mgr, taken: seq<int>, found: seq<int>, need: nat, keep: bool,
                  supply: seq<nat>, used: nat)
    requires used <= |supply| && |taken| <= need && Served0(w, x1, y, m, found, supply, used) && |found| == need - |taken|
    requires x1 == x.(m := x1.m, pc := Serving(need - |taken|, taken, keep, false))
    ensures Picked(w, x, y, m, taken + found, keep, supply, used)
  {
    hide Drawn, P.IdSet;
  }

  lemma AllocStarted(w: World, x: Sys, need: nat, freePages: int, keep: bool, supply: seq<nat>)
    returns (x1: Sys, taken: seq<int>)
    requires w.z.Valid() && x.pc.AtRest? && x.s.flights == map[] && freePages <= x.s.lists.numFree
    requires M.Alloc(w.z, x.m, need, freePages, supply).1.Blocks?
    ensures var a := StartAlloc(need, freePages, keep);
      S.CanRun(w, x, [a]) && S.NoHazard(w, x, [a]) && S.After(w, x, [a]) == x1
    ensures |taken| <= need && x1 == x.(m := x1.m, pc := Serving(need - |taken|, taken, keep, false)) && Serving0(x1)
    ensures var o := M.AllocLoop(w.z, x1.m, need - |taken|, supply);
      && o.done && M.Alloc(w.z, x.m, need, freePages, supply) == (o.m, M.Blocks(taken + o.blocks))
      && M.PagesUsed(w.z, x.m, need, freePages, supply) == o.used
  {
    AllocInParts(w.z, x.m, need, freePages, supply);
    AllocBegins(w, x, need, freePages, keep);
    OneAct(w, x, StartAlloc(need, freePages, keep));
    taken := M.TakeReserved(x.m, need).1;
    x1 := x.(m := M.TakeReserved(x.m, need).0, pc := Serving(need - |taken|, taken, keep, false));
    hide Can, Next, Hazard, M.Alloc, M.PagesUsed, M.AvailableSize, M.AllocLoop, S.CanRun, S.NoHazard, S.After;
  }

  /** _alloc for a caller alone, up to the moment it returns: picked are the blocks M.Alloc finds, the fields and
      page lists are what the class method leaves. */
  lemma LoneAlloc(w: World, x: Sys, need: nat, freePages: int, keep: bool, maps: nat, supply: seq<nat>)
    returns (acts: seq<Act>)
    requires w.z.Valid() && x.pc.AtRest? && x.s.flights == map[] && freePages <= x.s.lists.numFree
    requires supply == Supply(x.s.lists, maps) && M.Alloc(w.z, x.m, need, freePages, supply).1.Blocks?
    ensures S.CanRun(w, x, acts) && S.NoHazard(w, x, acts)
    ensures var (m, r) := M.Alloc(w.z, x.m, need, freePages, supply);
      Picked(w, x, S.After(w, x, acts), m, r.blocks, keep, supply, M.PagesUsed(w.z, x.m, need, freePages, supply))
  {
    hide Can, Next, Hazard, M.Alloc, M.PagesUsed, M.AllocLoop, Drawn, P.IdSet, Supply, S.CanRun, S.NoHazard, S.After,
      Served0, Picked;
    var x1, taken := AllocStarted(w, x, need, freePages, keep, supply);
    var rest := LoneLoop(w, x1, maps, supply);
    var o := M.AllocLoop(w.z, x1.m, need - |taken|, supply);
    AllPicked(w, x, x1, S.After(w, x1, rest), o.m, taken, o.blocks, need, keep, supply, o.used);
    acts := [StartAlloc(need, freePages, keep)] + rest;
    RunThen(w, x, [StartAlloc(need, freePages, keep)], rest);
  }

  /** The same with the return: the caller has the blocks, or they are reserved. */
  lemma LoneAllocReturns(w: World, x: Sys, need: nat, freePages: int, keep: bool, maps: nat, supply: seq<nat>)
    returns (acts: seq<Act>)
    requires w.z.Valid() && x.pc.AtRest? && x.s.flights == map[] && freePages <= x.s.lists.numFree
    requires supply == Supply(x.s.lists, maps) && M.Alloc(w.z, x.m, need, freePages, supply).1.Blocks?
    ensures S.CanRun(w, x, acts) && S.NoHazard(w, x, acts)
    ensures var y := S.After(w, x, acts); var (m, r) := M.Alloc(w.z, x.m, need, freePages, supply);
      var used := M.PagesUsed(w.z, x.m, need, freePages, supply);
      && y.m == (if keep then M.TryToReserve(w.z, x.m, need, freePages, supply).0 else m)
      && y.held == (if keep then x.held else x.held + Elems(r.blocks))
      && y.pc == AtRest && y.dropped == x.dropped
      && y.s.lists == Drawn(w.c, x.s.lists, used) && y.s.inUse == x.s.inUse + P.IdSet(supply[..used])
      && y.s.flights == map[] && y.s.lost == x.s.lost && |y.s.mapped| == |x.s.mapped|
  {
    var first := LoneAlloc(w, x, need, freePages, keep, maps, supply);
    var x1 := S.After(w, x, first);
    OneAct(w, x1, FinishAlloc);
    hide Can, M.Alloc, Drawn, P.IdSet, Supply;
    RunThen(w, x, first, [FinishAlloc]);
    acts := first + [FinishAlloc];
  }

  // ---- free ------------------------------------------------------------------------------------------

  /** The user's request to unmap is answered well by every rank. */
  lemma UnmapAnswers(w: World, x: Sys) returns (acts: seq<Act>)
    requires w.z.Valid() && Inv(x.s) && User in x.s.flights && !x.s.flights[User].job.Maps()
    requires x.s.flights[User].pending == x.s.Ranks() && !x.s.flights[User].failed
    ensures S.CanRun(w, x, acts) && S.NoHazard(w, x, acts)
    ensures var y := S.After(w, x, acts);
      && y == x.(s := y.s) && Inv(y.s) && SP.UserAnswered(y.s) && |y.s.mapped| == |x.s.mapped|
      && y.s == x.s.(mapped := y.s.mapped, flights := y.s.flights)
      && y.s.flights == x.s.flights[User := x.s.flights[User].(pending := {})]
  {
    acts := RanksUnmap(w, x, |x.s.mapped|);
  }

  /** What is left once a lone caller's unmapping is over. */
  lemma LandedAlone(s: State)
    requires s.flights.Keys == {User} && SP.UserAnswered(s) && !s.flights[User].failed
    ensures var s' := StepUnmapDone(s, User); var f := s.flights[User];
      && s'.flights == map[] && s'.inUse == s.inUse && s'.lost == s.lost && s'.mapped == s.mapped
      && s'.lists == (if f.job.ForResize? then FinishResize(s.lists, f.pages, f.job.target).0
                      else Unmapped(s.lists, f.pages))
  {
    assert s.flights - {User} == map[];
  }

  lemma FreeBegun(c: Config, s: State, gone: seq<PageId>)
    requires s.flights == map[]
    ensures var s1 := StepFreeBegin(c, s, User, gone); var (l, u) := FreePages(c, s.lists, gone);
      && s1.lists == l && s1.inUse == s.inUse - Elems(gone) && s1.lost == s.lost && s1.mapped == s.mapped
      && (u.Nothing? ==> s1.flights == map[])
      && (u.Pages? ==> s1.flights == map[User := Flight(ForFree, u.pages, s.Ranks(), false)])
  {
  }

  /** The blocks are back and the pages left without any are given up. */
  ghost predicate Freed(w: World, x: Sys, y: Sys, indices: seq<int>, order: seq<int>, own: bool)
    requires w.z.Valid()
  {
    var (m, gone) := M.FreeGroups(w.z, x.m, indices, order);
    && y.m == m && y.pc == Checking(own) && y.held == (if own then x.held else x.held - Elems(indices))
    && y.dropped == x.dropped && y.s.flights == map[] && y.s.lost == x.s.lost && |y.s.mapped| == |x.s.mapped|
    && y.s.inUse == x.s.inUse - Elems(gone)
    && y.s.lists == if gone == [] then x.s.lists else FreeWhole(w.c, x.s.lists, gone, true).0
  }

  ghost predicate FreeStarts(w: World, x: Sys, a: Act, indices: seq<int>, order: seq<int>, own: bool)
    requires w.z.Valid()
  {
    && SP.SysInv(w, x) && x.s.flights == map[] && Can(w, x, a)
    && (if own then a == StartFreeReserved(order) && indices == x.m.reserved else a == StartFree(indices, order))
  }

  lemma FreeStart(w: World, x: Sys, a: Act, indices: seq<int>, order: seq<int>, own: bool)
    requires w.z.Valid() && FreeStarts(w, x, a, indices, order, own)
    ensures Next(w, x, a) == DoFree(w, x, indices, order, own)
    ensures SP.SysInv(w, Next(w, x, a)) && !Hazard(w, x, a) && Inv(Next(w, x, a).s)
  {
    hide SP.SysInv, DoFree, M.Enumerates;
    SP.StepSafeIff(w, x, a);
    SP.OpenInv(w, Next(w, x, a));
  }

  lemma FreeOut(w: World, x: Sys, indices: seq<int>, order: seq<int>, own: bool)
    requires w.z.Valid() && x.s.flights == map[]
    ensures var y := DoFree(w, x, indices, order, own);
      y.pc.Checking? ==> Freed(w, x, y, indices, order, own)
    ensures var y := DoFree(w, x, indices, order, own); var gone := M.FreeGroups(w.z, x.m, indices, order).1;
      !y.pc.Checking? ==>
        && y.pc == Releasing(own) && FreePages(w.c, x.s.lists, gone).1.Pages? && gone != []
        && y.s == StepFreeBegin(w.c, x.s, User, gone)
        && y == x.(m := M.FreeGroups(w.z, x.m, indices, order).0, s := y.s, pc := y.pc,
                   held := if own then x.held else x.held - Elems(indices))
  {
    var (m, gone) := M.FreeGroups(w.z, x.m, indices, order);
    FreeBegun(w.c, x.s, gone);
    hide M.FreeGroups, FreePages, StepFreeBegin;
    if gone == [] { P.ElemsNone(); }
  }

  /** free up to its shrink test. */
  lemma LoneRelease(w: World, x: Sys, a: Act, indices: seq<int>, order: seq<int>, own: bool) returns (acts: seq<Act>)
    requires w.z.Valid() && FreeStarts(w, x, a, indices, order, own)
    ensures S.CanRun(w, x, acts) && S.NoHazard(w, x, acts)
    ensures Freed(w, x, S.After(w, x, acts), indices, order, own)
  {
    FreeStart(w, x, a, indices, order, own);
    OneAct(w, x, a);
    FreeOut(w, x, indices, order, own);
    var x1 := Next(w, x, a);
    hide SP.SysInv, Inv, M.FreeGroups, FreePages, DoFree, Can, Next, Freed;
    if x1.pc.Checking? {
      acts := [a];
    } else {
      var gone := M.FreeGroups(w.z, x.m, indices, order).1;
      FreeBegun(w.c, x.s, gone);
      hide StepFreeBegin;
      var rest := LoneReleased(w, x, x1, indices, order, own);
      RunThen(w, x, [a], rest);
      acts := [a] + rest;
    }
  }

  lemma LoneReleased(w: World, x: Sys, x1: Sys, indices: seq<int>, order: seq<int>, own: bool) returns (acts: seq<Act>)
    requires w.z.Valid() && Inv(x1.s) && x.s.flights == map[]
    requires var (m, gone) := M.FreeGroups(w.z, x.m, indices, order); var (l, u) := FreePages(w.c, x.s.lists, gone);
      && u.Pages? && gone != [] && x1.s.lists == l && x1.s.inUse == x.s.inUse - Elems(gone) && x1.s.lost == x.s.lost
      && x1.s.mapped == x.s.mapped && x1.s.flights == map[User := Flight(ForFree, u.pages, x.s.Ranks(), false)]
      && x1 == x.(m := m, s := x1.s, pc := Releasing(own), held := if own then x.held else x.held - Elems(indices))
    ensures S.CanRun(w, x1, acts) && S.NoHazard(w, x1, acts)
    ensures Freed(w, x, S.After(w, x1, acts), indices, order, own)
  {
    var answers := UnmapAnswers(w, x1);
    var x2 := S.After(w, x1, answers);
    LandedAlone(x2.s);
    ReleaseLands(w, x2);
    hide SP.SysInv, Inv, M.FreeGroups, FreePages, Can, Next, StepUnmapDone;
    RunThen(w, x1, answers, [ReleaseAnswered]);
    acts := answers + [ReleaseAnswered];
  }

  lemma ReleaseLands(w: World, x: Sys)
    requires w.z.Valid() && x.pc.Releasing? && SP.UserAnswered(x.s) && !x.s.flights[User].failed
    ensures S.CanRun(w, x, [ReleaseAnswered]) && S.NoHazard(w, x, [ReleaseAnswered])
    ensures S.After(w, x, [ReleaseAnswered]) == x.(s := StepUnmapDone(x.s, User), pc := Checking(x.pc.own))
  {
    OneAct(w, x, ReleaseAnswered);
  }

  // ---- resize, and the shrink retried by free --------------------------------------------------------

  lemma ResizeBegun(c: Config, s: State, target: int)
    requires s.flights == map[]
    ensures var s1 := StepResizeBegin(c, s, User, target); var (l, r) := BeginResize(c, s.lists, target);
      && s1.lists == l && s1.inUse == s.inUse && s1.mapped == s.mapped
      && (!r.MustUnmap? ==> s1.flights == map[] && (l, Done(r.Resized?)) == ResizeWhole(c, s.lists, target, true))
      && (r.MustUnmap? ==>
            && s1.flights == map[User := Flight(ForResize(target), r.pages, s.Ranks(), false)] && s1.lost == s.lost
            && var (l2, ok) := FinishResize(l, r.pages, target); (l2, Done(ok)) == ResizeWhole(c, s.lists, target, true))
  {
    hide Expand, Reclaim, FreshId;
  }

  lemma UnmappingKeeps(w: World, s: State, target: nat)
    requires Inv(s) && s.flights == map[] && BeginResize(w.c, s.lists, target).1.MustUnmap?
    ensures Inv(StepResizeBegin(w.c, s, User, target)) && !Clashes(w.c, s, target)
  {
    RZ.NoClashUnmapping(w.c, s, target);
    C.ResizeKept(w.c, s, User, target);
  }

  /** y is x at rest, with the page lists l and the fields m. */
  ghost predicate Rested(x: Sys, y: Sys, l: Lists, m: M.Mgr) {
    && y.pc == AtRest && y.m == m && y.s.lists == l && y.held == x.held && y.dropped == x.dropped
    && y.s.flights == map[] && y.s.inUse == x.s.inUse && |y.s.mapped| == |x.s.mapped|
  }

  function AfterCheck(w: World, m: M.Mgr, own: bool): M.Mgr
    requires w.z.Valid()
  {
    var m1 := if M.ShrinkDue(w.z, m) then M.ShrinkOver(m) else m;
    if own then m1.(reserved := []) else m1
  }

  lemma CheckOut(w: World, x: Sys)
    requires w.z.Valid() && x.pc.Checking? && x.s.flights == map[]
    ensures Can(w, x, CheckShrink) && Next(w, x, CheckShrink) == DoCheckShrink(w, x)
    ensures Hazard(w, x, CheckShrink) <==> M.ShrinkDue(w.z, x.m) && Clashes(w.c, x.s, ShrinkPages(w, x.m))
    ensures var y := DoCheckShrink(w, x); var due := M.ShrinkDue(w.z, x.m); var target := ShrinkPages(w, x.m);
      && (!due ==> Rested(x, y, x.s.lists, AfterCheck(w, x.m, x.pc.own)))
      && (due && !BeginResize(w.c, x.s.lists, target).1.MustUnmap? ==>
            Rested(x, y, ResizeWhole(w.c, x.s.lists, target, true).0, AfterCheck(w, x.m, x.pc.own)))
      && (due && BeginResize(w.c, x.s.lists, target).1.MustUnmap? ==>
            y == x.(s := StepResizeBegin(w.c, x.s, User, target), pc := Shrinking(x.pc.own)))
  {
    ResizeBegun(w.c, x.s, ShrinkPages(w, x.m));
    hide M.ShrinkDue, ShrinkPages, BeginResize, ResizeWhole, StepResizeBegin, Clashes;
  }

  lemma ShrinkLands(w: World, x: Sys)
    requires w.z.Valid() && x.pc.Shrinking? && SP.UserAnswered(x.s) && !x.s.flights[User].failed
    ensures S.CanRun(w, x, [ShrinkAnswered]) && S.NoHazard(w, x, [ShrinkAnswered])
    ensures S.After(w, x, [ShrinkAnswered])
         == FreeOver(x.(s := StepUnmapDone(x.s, User), m := M.ShrinkOver(x.m)), x.pc.own)
  {
    OneAct(w, x, ShrinkAnswered);
  }

  /** The end of free: its shrink test and, if a shrink is due, the retry, whose answer is ignored. */
  lemma LoneCheck(w: World, x: Sys) returns (acts: seq<Act>)
    requires w.z.Valid() && x.pc.Checking? && Inv(x.s) && x.s.flights == map[]
    ensures S.CanRun(w, x, acts)
    ensures S.NoHazard(w, x, acts) <==> !(M.ShrinkDue(w.z, x.m) && Clashes(w.c, x.s, ShrinkPages(w, x.m)))
    ensures Rested(x, S.After(w, x, acts),
                   if M.ShrinkDue(w.z, x.m) then ResizeWhole(w.c, x.s.lists, ShrinkPages(w, x.m), true).0 else x.s.lists,
                   AfterCheck(w, x.m, x.pc.own))
  {
    CheckOut(w, x);
    OneAct(w, x, CheckShrink);
    var target := ShrinkPages(w, x.m);
    hide M.ShrinkDue, ShrinkPages, BeginResize, ResizeWhole, StepResizeBegin, Clashes, Inv, Can, Next, DoCheckShrink, Hazard;
    if M.ShrinkDue(w.z, x.m) && BeginResize(w.c, x.s.lists, target).1.MustUnmap? {
      UnmappingKeeps(w, x.s, target);
      ResizeBegun(w.c, x.s, target);
      var x1 := Next(w, x, CheckShrink);
      var answers := UnmapAnswers(w, x1);
      var x2 := S.After(w, x1, answers);
      LandedAlone(x2.s);
      ShrinkLands(w, x2);
      hide StepUnmapDone, FinishResize;
      RunThen(w, x1, answers, [ShrinkAnswered]);
      RunThen(w, x, [CheckShrink], answers + [ShrinkAnswered]);
      acts := [CheckShrink] + (answers + [ShrinkAnswered]);
    } else {
      acts := [CheckShrink];
    }
  }

  /** The fields, page lists and blocks after a whole free. */
  ghost predicate FreeDone(w: World, x: Sys, y: Sys, indices: seq<int>, order: seq<int>, own: bool)
    requires w.z.Valid()
  {
    var a := if own then K.FreeReservedCall(w.z, w.c, x.m, x.s.lists, order, true, true)
             else K.FreeCall(w.z, w.c, x.m, x.s.lists, indices, order, true, true);
    && a.returned && y.m == a.m && y.s.lists == a.l && y.pc == AtRest && y.s.flights == map[]
    && y.held == (if own then x.held else x.held - Elems(indices)) && y.dropped == x.dropped
    && y.s.inUse == x.s.inUse - Elems(M.FreeGroups(w.z, x.m, indices, order).1) && |y.s.mapped| == |x.s.mapped|
  }

  lemma ShrinkTarget(w: World, m: M.Mgr)
    requires w.z.Valid()
    ensures K.RetryPages(w.z, m) == ShrinkPages(w, m)
  {
    MulMonotone(0, m.target, w.z.block);
  }

  lemma FreeComputed(w: World, x: Sys, x1: Sys, y: Sys, indices: seq<int>, order: seq<int>, own: bool)
    requires w.z.Valid() && Freed(w, x, x1, indices, order, own) && indices != [] && (own ==> indices == x.m.reserved)
    requires Rested(x1, y,
                    if M.ShrinkDue(w.z, x1.m) then ResizeWhole(w.c, x1.s.lists, ShrinkPages(w, x1.m), true).0
                    else x1.s.lists,
                    AfterCheck(w, x1.m, own))
    ensures FreeDone(w, x, y, indices, order, own)
  {
    ShrinkTarget(w, x1.m);
    hide M.FreeGroups, M.ShrinkDue, ShrinkPages, K.RetryPages;
  }

  lemma RetryCalm(w: World, x: Sys, x1: Sys, indices: seq<int>, order: seq<int>, own: bool)
    requires w.z.Valid() && Freed(w, x, x1, indices, order, own)
    requires !x.m.inShrink || ShrinkPages(w, x.m) <= x.s.lists.numTotal
    ensures !(M.ShrinkDue(w.z, x1.m) && Clashes(w.c, x1.s, ShrinkPages(w, x1.m)))
  {
    SameTarget(w, x.m, indices, order);
    hide M.FreeGroups, M.NumAlloced;
  }

  lemma {:induction false} SameTarget(w: World, m: M.Mgr, indices: seq<int>, order: seq<int>)
    requires w.z.Valid()
    ensures var m1 := M.FreeGroups(w.z, m, indices, order).0; 
      m1.inShrink == m.inShrink && m1.target == m.target && m1.reserved == m.reserved
  {
    if order != [] {
      SameTarget(w, m, indices, order[..|order| - 1]);
    }
  }

  lemma FreedCalm(w: World, x: Sys, acts: seq<Act>)
    requires w.z.Valid() && SP.SysInv(w, x) && S.CanRun(w, x, acts) && S.NoHazard(w, x, acts)
    ensures SP.SysInv(w, S.After(w, x, acts)) && Inv(S.After(w, x, acts).s)
  {
    S.RunKeepsInv(w, x, acts);
  }

  /** The two parts of a lone free, up to its shrink test and from there. */
  lemma LoneFreeInTwo(w: World, x: Sys, a: Act, indices: seq<int>, order: seq<int>, own: bool)
    returns (release: seq<Act>, check: seq<Act>)
    requires w.z.Valid() && FreeStarts(w, x, a, indices, order, own)
    ensures S.CanRun(w, x, release)
    ensures var x1 := S.After(w, x, release);
      && SP.SysInv(w, x1) && Freed(w, x, x1, indices, order, own) && x1.pc == Checking(own) && S.CanRun(w, x1, check)
      && Rested(x1, S.After(w, x1, check),
                if M.ShrinkDue(w.z, x1.m) then ResizeWhole(w.c, x1.s.lists, ShrinkPages(w, x1.m), true).0 else x1.s.lists,
                AfterCheck(w, x1.m, own))
    ensures S.CanRun(w, x, release + check)
    ensures S.After(w, x, release + check) == S.After(w, S.After(w, x, release), check)
    ensures FreeDone(w, x, S.After(w, x, release + check), indices, order, own)
    ensures !x.m.inShrink || ShrinkPages(w, x.m) <= x.s.lists.numTotal ==> S.NoHazard(w, x, release + check)
  {
    FreeNotEmpty(w, x, a, indices, order, own);
    hide SP.SysInv, Inv, Can, Next, M.FreeGroups, M.ShrinkDue, ShrinkPages, ResizeWhole, FreeDone, Clashes, Freed,
      FreeStarts, Rested, S.CanRun, S.NoHazard, S.After;
    release := LoneRelease(w, x, a, indices, order, own);
    var x1 := S.After(w, x, release);
    FreedCalm(w, x, release);
    FreedShape(w, x, x1, indices, order, own);
    if !x.m.inShrink || ShrinkPages(w, x.m) <= x.s.lists.numTotal {
      RetryCalm(w, x, x1, indices, order, own);
    }
    check := LoneCheck(w, x1);
    FreeComputed(w, x, x1, S.After(w, x1, check), indices, order, own);
    RunThen(w, x, release, check);
  }

  /** free, or free_reserved, for a caller alone, broadcasts working: fields and page lists end as the class
      method computes them, and the caller's blocks are gone. */
  lemma LoneFree(w: World, x: Sys, a: Act, indices: seq<int>, order: seq<int>, own: bool) returns (acts: seq<Act>)
    requires w.z.Valid() && FreeStarts(w, x, a, indices, order, own)
    ensures S.CanRun(w, x, acts) && FreeDone(w, x, S.After(w, x, acts), indices, order, own)
    ensures !x.m.inShrink || ShrinkPages(w, x.m) <= x.s.lists.numTotal ==> S.NoHazard(w, x, acts)
  {
    hide SP.SysInv, M.FreeGroups, ShrinkPages, ResizeWhole, FreeDone, FreeStarts, S.CanRun, S.NoHazard, S.After;
    var release, check := LoneFreeInTwo(w, x, a, indices, order, own);
    acts := release + check;
  }

  lemma FreeNotEmpty(w: World, x: Sys, a: Act, indices: seq<int>, order: seq<int>, own: bool)
    requires w.z.Valid() && FreeStarts(w, x, a, indices, order, own)
    ensures indices != [] && SP.SysInv(w, x) && (own ==> indices == x.m.reserved)
  {
  }

  lemma FreedShape(w: World, x: Sys, x1: Sys, indices: seq<int>, order: seq<int>, own: bool)
    requires w.z.Valid() && Freed(w, x, x1, indices, order, own)
    ensures x1.pc == Checking(own) && x1.s.flights == map[]
  {
  }

  // ---- resize ------------------------------------------------------------------------------------------

  lemma ResizeOut(w: World, x: Sys, newMemSize: nat)
    requires w.z.Valid() && x.pc.AtRest? && x.s.flights == map[] && newMemSize > 0
    ensures Can(w, x, StartResize(newMemSize)) && Next(w, x, StartResize(newMemSize)) == DoStartResize(w, x, newMemSize)
    ensures Hazard(w, x, StartResize(newMemSize)) <==> Clashes(w.c, x.s, newMemSize / w.z.page)
    ensures var y := DoStartResize(w, x, newMemSize); var target := newMemSize / w.z.page;
      var (m, l, _) := K.ResizeCall(w.z, w.c, x.m, x.s.lists, newMemSize, true);
      && (!BeginResize(w.c, x.s.lists, target).1.MustUnmap? ==> Rested(x, y, l, m))
      && (BeginResize(w.c, x.s.lists, target).1.MustUnmap? ==>
            y == x.(s := StepResizeBegin(w.c, x.s, User, target), pc := Resizing(newMemSize)))
  {
    Quotient(newMemSize, w.z.page);
    ResizeBegun(w.c, x.s, newMemSize / w.z.page);
    hide BeginResize, ResizeWhole, StepResizeBegin, Clashes, M.AfterResize;
  }

  lemma ResizeLands(w: World, x: Sys)
    requires w.z.Valid() && x.pc.Resizing? && SP.UserAnswered(x.s) && !x.s.flights[User].failed
    ensures S.CanRun(w, x, [ResizeAnswered]) && S.NoHazard(w, x, [ResizeAnswered])
    ensures var ok := FinishResize(x.s.lists, x.s.flights[User].pages, x.pc.newMemSize / w.z.page).1;
      S.After(w, x, [ResizeAnswered]) == x.(s := StepUnmapDone(x.s, User), pc := AtRest,
                                            m := M.AfterResize(w.z, x.m, x.pc.newMemSize, ok))
  {
    OneAct(w, x, ResizeAnswered);
  }

  lemma ResizeComputed(w: World, x: Sys, newMemSize: nat, ok: bool)
    requires w.z.Valid()
    requires var (l, r) := BeginResize(w.c, x.s.lists, newMemSize / w.z.page);
      r.MustUnmap? && ok == FinishResize(l, r.pages, newMemSize / w.z.page).1
    ensures var (l, r) := BeginResize(w.c, x.s.lists, newMemSize / w.z.page);
      var (m, l2, _) := K.ResizeCall(w.z, w.c, x.m, x.s.lists, newMemSize, true);
      m == M.AfterResize(w.z, x.m, newMemSize, ok) && l2 == FinishResize(l, r.pages, newMemSize / w.z.page).0
  {
    Quotient(newMemSize, w.z.page);
    hide BeginResize, FinishResize, M.AfterResize;
  }

  /** The rest of a resize that unmaps the pool. */
  lemma LoneResizing(w: World, x: Sys, x1: Sys, newMemSize: nat) returns (acts: seq<Act>)
    requires w.z.Valid() && Inv(x1.s) && x.s.flights == map[]
    requires var target := newMemSize / w.z.page; var (l, r) := BeginResize(w.c, x.s.lists, target);
      && target >= 0 && r.MustUnmap? && x1 == x.(s := x1.s, pc := Resizing(newMemSize))
      && x1.s.lists == l && x1.s.inUse == x.s.inUse && x1.s.mapped == x.s.mapped
      && x1.s.flights == map[User := Flight(ForResize(target), r.pages, x.s.Ranks(), false)]
    ensures S.CanRun(w, x1, acts) && S.NoHazard(w, x1, acts)
    ensures var (m, l, _) := K.ResizeCall(w.z, w.c, x.m, x.s.lists, newMemSize, true);
      Rested(x, S.After(w, x1, acts), l, m)
  {
    hide BeginResize, Inv, Can, Next, K.ResizeCall, FinishResize, StepUnmapDone;
    var answers := UnmapAnswers(w, x1);
    var x2 := S.After(w, x1, answers);
    LandedAlone(x2.s);
    ResizeLands(w, x2);
    ResizeComputed(w, x, newMemSize, FinishResize(x2.s.lists, x2.s.flights[User].pages, newMemSize / w.z.page).1);
    RunThen(w, x1, answers, [ResizeAnswered]);
    acts := answers + [ResizeAnswered];
  }

  /** resize for a caller alone, broadcasts working: fields and page lists end as the class method computes them. */
  lemma LoneResize(w: World, x: Sys, newMemSize: nat) returns (acts: seq<Act>)
    requires w.z.Valid() && SP.SysInv(w, x) && x.pc.AtRest? && x.s.flights == map[] && newMemSize > 0
    ensures S.CanRun(w, x, acts)
    ensures S.NoHazard(w, x, acts) <==> !Clashes(w.c, x.s, newMemSize / w.z.page)
    ensures var (m, l, _) := K.ResizeCall(w.z, w.c, x.m, x.s.lists, newMemSize, true);
      Rested(x, S.After(w, x, acts), l, m)
  {
    Quotient(newMemSize, w.z.page);
    var target: nat := newMemSize / w.z.page;
    SP.OpenInv(w, x);
    ResizeOut(w, x, newMemSize);
    OneAct(w, x, StartResize(newMemSize));
    hide BeginResize, ResizeWhole, StepResizeBegin, Clashes, Inv, Can, Next, DoStartResize, Hazard, SP.SysInv, K.ResizeCall,
      FinishResize;
    if BeginResize(w.c, x.s.lists, target).1.MustUnmap? {
      UnmappingKeeps(w, x.s, target);
      ResizeBegun(w.c, x.s, target);
      var x1 := Next(w, x, StartResize(newMemSize));
      var rest := LoneResizing(w, x, x1, newMemSize);
      RunThen(w, x, [StartResize(newMemSize)], rest);
      acts := [StartResize(newMemSize)] + rest;
    } else {
      acts := [StartResize(newMemSize)];
    }
  }
}
