/** A run of the whole system, step by step: a block is reserved and is resident; then the broadcast that should
    unmap its page is lost, and a block that is free is handed out. One page, one block, one rank. */
module Scenario {
  import opened BlockMath
  import opened InternalPages
  import opened PageDict
  import opened PageLists
  import opened Machine
  import opened Layouts
  import opened FTensorAllocators
  import opened Seqs
  import opened System
  import opened Ranks
  import F = Faults
  import M = Manager
  import P = ManagerProofs
  import S = Safety
  import SP = SystemProofs

  const W: World := World(Sizes(1, 1), Config(0, 0, false, false, false))
  const G: Geometry := Geometry(Unified, 1, 1, 1, 1)

  const TheTarget: Target := Target(0, 0)
  const NoneFree: Lists := Lists([], [], [], 0, 1, false)
  const OneFull: M.Mgr := M.Mgr([], [Page(0, 0, 1, [])], 0, [], false, 0)

  function Mapping(pending: set<nat>): map<Thread, Flight> {
    map[User := Flight(ForAlloc, [0], pending, false)]
  }

  function Freeing(pending: set<nat>, failed: bool): map<Thread, Flight> {
    map[User := Flight(ForFree, [0], pending, failed)]
  }

  // The states of the run.

  function Fresh0(pc: Pc): Cluster {
    Cluster(Sys(M.Fresh, Init(1, 1), {}, {}, pc), [{}])
  }

  function Asking(pending: set<nat>, mapped: set<PageId>, table: set<Target>): Cluster {
    Cluster(Sys(M.Fresh, State(NoneFree, {}, Mapping(pending), {}, [mapped]), {}, {}, Serving(1, [], true, true)), [table])
  }

  function Held(m: M.Mgr, pc: Pc): Cluster {
    Cluster(Sys(m, State(NoneFree, {0}, map[], {}, [{0}]), {}, {}, pc), [{TheTarget}])
  }

  function Letting(pending: set<nat>, failed: bool): Cluster {
    Cluster(Sys(M.Fresh.(reserved := [0]),
                State(NoneFree.(numFree := 1), {}, Freeing(pending, failed), {}, [{0}]), {}, {}, Releasing(true)),
            [{TheTarget}])
  }

  lemma Shapes()
    ensures W.z.Valid() && G.Valid() && Fits(G) && Region(G) == 1 && BlocksPerPage(W.z) == 1
    ensures Targets(G, [0]) == [TheTarget] && Opened(W.z, 0) == Page(0, 0, 1, [0])
    ensures PageOf(W.z, 0) == 0 && RanksBelow(1) == {0} && Created(1) == Lists([0], [], [], 1, 1, false)
  {
    assert Interval(0, 1) == [0];
    assert LayerTargets(G, 0, [0]) == [TheTarget];
    assert TargetsBelow(G, 1, [0]) == TargetsBelow(G, 0, [0]) + LayerTargets(G, 0, [0]);
    assert RanksBelow(1) == RanksBelow(0) + {0};
  }

  lemma WholeHere(table: set<Target>)
    ensures G.Valid() && Fits(G) && Whole(G, table) == if TheTarget in table then {0} else {}
  {
    Shapes();
    assert forall t :: For(G, t, 0) <==> t == TheTarget;
  }

  /** A step of the manager's own, from what it may do and what comes of it. */
  lemma LocalMove(n: Cluster, a: Act, x: Sys)
    requires W.z.Valid() && G.Valid() && Fits(G) && Region(G) == 1
    requires !IsAnswer(a) && Can(W, n.x, a) && !Hazard(W, n.x, a) && Next(W, n.x, a) == x && x.s.Bound() <= 1
    ensures CanMove(W, G, n, Local(a)) && Moved(W, G, n, Local(a)) == Cluster(x, n.tables)
  {
    hide Can, Next, Hazard, Fits, Region, State.Bound;
  }

  lemma RankMove(n: Cluster, d: Delivery, after: set<Target>, a: Act, x: Sys)
    requires W.z.Valid() && G.Valid() && Fits(G)
    requires User in n.x.s.flights && 0 in n.x.s.flights[User].pending && |n.tables| == |n.x.s.mapped| == 1
    requires Answering(G, n, User, 0, d) == (after, a) && Can(W, n.x, a) && Next(W, n.x, a) == x
    ensures CanMove(W, G, n, RankActs(User, 0, d))
    ensures Moved(W, G, n, RankActs(User, 0, d)) == Cluster(x, [after])
  {
    hide Can, Next, Hazard, Fits, Region, Answering;
    assert n.tables[0 := after] == [after];
  }

  lemma AllocStarts()
    ensures W.z.Valid() && G.Valid() && Fits(G)
    ensures var a := Local(StartAlloc(1, 1, true));
      CanMove(W, G, Fresh0(AtRest), a) && Moved(W, G, Fresh0(AtRest), a) == Fresh0(Serving(1, [], true, false))
  {
    Shapes();
    assert M.TakeReserved(M.Fresh, 1) == (M.Fresh, []);
    hide Fits, Region;
    LocalMove(Fresh0(AtRest), StartAlloc(1, 1, true), Fresh0(Serving(1, [], true, false)).x);
  }

  lemma FirstTry()
    ensures TryAlloc(W.c, Created(1)) == (NoneFree, ToMap(0))
    ensures StepAllocTry(W.c, Init(1, 1), User) == Asking({0}, {}, {}).x.s
  {
    Shapes();
    hide Fits, Region, BlocksPerPage, Targets, Opened;
    assert [0][1..] == [];
    assert Launch(Init(1, 1), NoneFree, User, ForAlloc, [0]).flights == Mapping({0});
  }

  lemma PageRequested()
    ensures W.z.Valid() && G.Valid() && Fits(G)
    ensures var n := Fresh0(Serving(1, [], true, false)); var a := Local(RequestPage);
      CanMove(W, G, n, a) && Moved(W, G, n, a) == Asking({0}, {}, {})
  {
    Shapes();
    FirstTry();
    hide Fits, Region, BlocksPerPage, Targets, Opened, TryAlloc, StepAllocTry, Created, Init, GotPage;
    var n := Fresh0(Serving(1, [], true, false));
    InitLists();
    assert Next(W, n.x, RequestPage) == Asking({0}, {}, {}).x;
    LocalMove(n, RequestPage, Asking({0}, {}, {}).x);
  }

  lemma InitLists()
    ensures Init(1, 1).lists == Created(1) && Init(1, 1).flights == map[]
  {
  }

  lemma MapAnswer()
    ensures W.z.Valid() && G.Valid() && Fits(G)
    ensures Answering(G, Asking({0}, {}, {}), User, 0, Delivered(1, true))
         == ({TheTarget}, Background(RankMap(User, 0, {0}, true)))
  {
    Shapes();
    WholeHere({TheTarget});
    hide Fits, Region, Targets, Whole;
    var none: set<Target> := {};
    assert Elems([TheTarget]) == {TheTarget} && none + {TheTarget} == {TheTarget};
    assert RankMaps(G, none, [0], Delivered(1, true)) == ({TheTarget}, true);
  }

  lemma MapShown()
    ensures W.z.Valid()
    ensures var a := Background(RankMap(User, 0, {0}, true)); var x := Asking({0}, {}, {}).x;
      Can(W, x, a) && Next(W, x, a) == Asking({}, {0}, {}).x
  {
    var s := Asking({0}, {}, {}).x.s;
    assert Elems([0 as PageId]) == {0};
    assert Answer(s, User, 0, true, {0}) == Asking({}, {0}, {}).x.s by {
      var pending: set<nat> := {0};
      assert pending - {0} == {};
      assert Answer(s, User, 0, true, {0}).flights == Mapping({});
    }
    hide Answer;
  }

  lemma RankMapped()
    ensures W.z.Valid() && G.Valid() && Fits(G)
    ensures var n := Asking({0}, {}, {}); var a := RankActs(User, 0, Delivered(1, true));
      CanMove(W, G, n, a) && Moved(W, G, n, a) == Asking({}, {0}, {TheTarget})
  {
    MapAnswer();
    MapShown();
    hide Fits, Answering, Can, Next;
    RankMove(Asking({0}, {}, {}), Delivered(1, true), {TheTarget}, Background(RankMap(User, 0, {0}, true)),
             Asking({}, {0}, {}).x);
  }

  lemma ServedWhole()
    ensures W.z.Valid() && M.ServeNew(W.z, M.Fresh, 0, 1) == (OneFull, [0])
  {
    Shapes();
    hide Fits, Region, BlocksPerPage, Targets, Opened;
    assert [0][1..] == [] && [0][..1] == [0];
    assert Take(Page(0, 0, 1, [0]), 1) == (Page(0, 0, 1, []), [0]);
    assert Put([], Page(0, 0, 1, [])) == [Page(0, 0, 1, [])];
  }

  lemma PageArrives()
    ensures W.z.Valid() && G.Valid() && Fits(G)
    ensures var n := Asking({}, {0}, {TheTarget}); var a := Local(PageAnswered);
      CanMove(W, G, n, a) && Moved(W, G, n, a) == Held(OneFull, Serving(0, [0], true, false))
  {
    Shapes();
    ServedWhole();
    hide Fits, Region, BlocksPerPage, Targets, Opened, M.ServeNew;
    var n := Asking({}, {0}, {TheTarget});
    assert StepAllocDone(W.c, n.x.s, User) == Held(OneFull, AtRest).x.s;
    hide StepAllocDone;
    assert [] + [0] == [0];
    LocalMove(n, PageAnswered, Held(OneFull, Serving(0, [0], true, false)).x);
  }

  lemma Reserved()
    ensures W.z.Valid() && G.Valid() && Fits(G)
    ensures var n := Held(OneFull, Serving(0, [0], true, false)); var a := Local(FinishAlloc);
      CanMove(W, G, n, a) && Moved(W, G, n, a) == Held(OneFull.(reserved := [0]), AtRest)
  {
    Shapes();
    hide Fits, Region, BlocksPerPage, Targets, Opened;
    assert [] + [0] == [0];
    LocalMove(Held(OneFull, Serving(0, [0], true, false)), FinishAlloc, Held(OneFull.(reserved := [0]), AtRest).x);
  }

  lemma OneGroupOf()
    ensures W.z.Valid() && Group(W.z, [0], 0) == [0] && M.Enumerates(W.z, [0], [0])
  {
    Shapes();
    hide Fits, Region, BlocksPerPage, Targets, Opened, PageOf;
    var one := [0];
    assert one[..0] == [];
    assert Group(W.z, one, 0) == Group(W.z, one[..0], 0) + [0];
  }

  /** Block 0 back into its page, which is then given up. */
  lemma OneGivenBack(m: M.Mgr)
    requires m == OneFull.(reserved := [0])
    ensures M.FreeGroup(m, 0, [0]) == (M.Fresh.(reserved := [0]), [0])
  {
    F.OnlyPage(Page(0, 0, 1, []));
    hide Ids, Lookup, Without, Put;
    assert [] + [0] == [0];
  }

  lemma OneGroup()
    ensures W.z.Valid() && M.Enumerates(W.z, [0], [0])
    ensures M.FreeGroups(W.z, OneFull.(reserved := [0]), [0], [0]) == (M.Fresh.(reserved := [0]), [0])
  {
    OneGroupOf();
    var m, one := OneFull.(reserved := [0]), [0];
    OneGivenBack(m);
    hide M.FreeGroup, Group, M.Enumerates;
    assert one[..0] == [] && [] + one == one;
    assert M.FreeGroups(W.z, m, one, one[..0]) == (m, []);
  }

  lemma FreeBegun()
    ensures StepFreeBegin(W.c, Held(OneFull, AtRest).x.s, User, [0]) == Letting({0}, false).x.s
  {
    Shapes();
    hide Fits, Region, BlocksPerPage, Targets, Opened;
    assert FreePages(W.c, NoneFree, [0]) == (NoneFree.(numFree := 1), Pages([0]));
    hide FreePages;
    assert Elems([0 as PageId]) == {0};
    var s := Held(OneFull, AtRest).x.s;
    assert Launch(s, NoneFree.(numFree := 1), User, ForFree, [0]).flights == Freeing({0}, false);
  }

  lemma FreeStarts()
    ensures W.z.Valid() && G.Valid() && Fits(G)
    ensures var n := Held(OneFull.(reserved := [0]), AtRest); var a := Local(StartFreeReserved([0]));
      CanMove(W, G, n, a) && Moved(W, G, n, a) == Letting({0}, false)
  {
    Shapes();
    OneGroup();
    FreeBegun();
    hide Fits, Region, BlocksPerPage, Targets, Opened, M.FreeGroups, M.Enumerates, Group, StepFreeBegin;
    LocalMove(Held(OneFull.(reserved := [0]), AtRest), StartFreeReserved([0]), Letting({0}, false).x);
  }

  lemma LostAnswer()
    ensures W.z.Valid() && G.Valid() && Fits(G)
    ensures Answering(G, Letting({0}, false), User, 0, Undelivered)
         == ({TheTarget}, Background(RankUnmap(User, 0, {0}, false)))
  {
    Shapes();
    WholeHere({TheTarget});
    hide Fits, Region, Targets, Whole, UnmapWhole;
  }

  lemma LossShown()
    ensures W.z.Valid()
    ensures var a := Background(RankUnmap(User, 0, {0}, false)); var x := Letting({0}, false).x;
      Can(W, x, a) && Next(W, x, a) == Letting({}, true).x
  {
    var s := Letting({0}, false).x.s;
    assert Elems([0 as PageId]) == {0};
    assert Answer(s, User, 0, false, {0}) == Letting({}, true).x.s by {
      var pending: set<nat> := {0};
      assert pending - {0} == {};
      assert Answer(s, User, 0, false, {0}).flights == Freeing({}, true);
    }
    hide Answer;
  }

  lemma RequestLost()
    ensures W.z.Valid() && G.Valid() && Fits(G)
    ensures var n := Letting({0}, false); var a := RankActs(User, 0, Undelivered);
      CanMove(W, G, n, a) && Moved(W, G, n, a) == Letting({}, true)
  {
    LostAnswer();
    LossShown();
    hide Fits, Answering, Can, Next;
    RankMove(Letting({0}, false), Undelivered, {TheTarget}, Background(RankUnmap(User, 0, {0}, false)),
             Letting({}, true).x);
  }

  lemma MoveThen(n: Cluster, mv: Move, n': Cluster, mvs: seq<Move>)
    requires W.z.Valid() && G.Valid() && Fits(G)
    requires CanMove(W, G, n, mv) && Moved(W, G, n, mv) == n' && CanRun(W, G, n', mvs)
    ensures CanRun(W, G, n, [mv] + mvs) && After(W, G, n, [mv] + mvs) == After(W, G, n', mvs)
  {
    hide CanMove, Moved;
    assert ([mv] + mvs)[1..] == mvs;
  }

  lemma NoMove(n: Cluster)
    requires W.z.Valid() && G.Valid() && Fits(G)
    ensures CanRun(W, G, n, []) && After(W, G, n, []) == n
  {
  }

  lemma FreeFails() returns (mvs: seq<Move>)
    ensures W.z.Valid() && G.Valid() && Fits(G)
    ensures CanRun(W, G, Held(OneFull.(reserved := [0]), AtRest), mvs)
    ensures After(W, G, Held(OneFull.(reserved := [0]), AtRest), mvs) == Letting({}, true)
  {
    Shapes();
    hide CanMove, Moved, CanRun, After, Fits;
    NoMove(Letting({}, true));
    RequestLost();
    MoveThen(Letting({0}, false), RankActs(User, 0, Undelivered), Letting({}, true), []);
    mvs := [RankActs(User, 0, Undelivered)] + [];
    FreeStarts();
    MoveThen(Held(OneFull.(reserved := [0]), AtRest), Local(StartFreeReserved([0])), Letting({0}, false), mvs);
    mvs := [Local(StartFreeReserved([0]))] + mvs;
  }

  /** Any run from the state with one reserved block is the end of a run from the start. */
  lemma ReserveFirst(mvs: seq<Move>) returns (all: seq<Move>)
    requires W.z.Valid() && G.Valid() && Fits(G) && CanRun(W, G, Held(OneFull.(reserved := [0]), AtRest), mvs)
    ensures CanRun(W, G, StartCluster(W, 1, 1), all)
    ensures After(W, G, StartCluster(W, 1, 1), all) == After(W, G, Held(OneFull.(reserved := [0]), AtRest), mvs)
  {
    hide CanMove, Moved, CanRun, After, Fits;
    Reserved();
    MoveThen(Held(OneFull, Serving(0, [0], true, false)), Local(FinishAlloc), Held(OneFull.(reserved := [0]), AtRest), mvs);
    all := [Local(FinishAlloc)] + mvs;
    PageArrives();
    MoveThen(Asking({}, {0}, {TheTarget}), Local(PageAnswered), Held(OneFull, Serving(0, [0], true, false)), all);
    all := [Local(PageAnswered)] + all;
    RankMapped();
    MoveThen(Asking({0}, {}, {}), RankActs(User, 0, Delivered(1, true)), Asking({}, {0}, {TheTarget}), all);
    all := [RankActs(User, 0, Delivered(1, true))] + all;
    PageRequested();
    MoveThen(Fresh0(Serving(1, [], true, false)), Local(RequestPage), Asking({0}, {}, {}), all);
    all := [Local(RequestPage)] + all;
    AllocStarts();
    MoveThen(Fresh0(AtRest), Local(StartAlloc(1, 1, true)), Fresh0(Serving(1, [], true, false)), all);
    all := [Local(StartAlloc(1, 1, true))] + all;
    assert StartCluster(W, 1, 1) == Fresh0(AtRest);
  }

  /** Runs that hand out blocks exist: in this one a block is reserved, and it is resident. */
  lemma SomeBlockResident() returns (all: seq<Move>)
    ensures W.z.Valid() && G.Valid() && Fits(G) && CanRun(W, G, StartCluster(W, 1, 1), all)
    ensures var n := After(W, G, StartCluster(W, 1, 1), all); 0 in SP.Outstanding(n.x) && Resident(W, G, n, 0)
  {
    Shapes();
    NoMove(Held(OneFull.(reserved := [0]), AtRest));
    all := ReserveFirst([]);
    var n := Held(OneFull.(reserved := [0]), AtRest);
    assert 0 in n.x.m.reserved;
    hide CanRun, After, Fits, Region;
    EveryBlockResident(W, G, 1, 1, all);
  }

  lemma ReleaseRaises()
    ensures var x := Letting({}, true).x;
      W.z.Valid() && Can(W, x, ReleaseAnswered) && Hazard(W, x, ReleaseAnswered)
      && Next(W, x, ReleaseAnswered).s.lists.numFree == 1
  {
  }

  /** Where the broken state is: block 0 is listed as reserved, free_reserved is about to raise. */
  ghost predicate AboutToRaise(x: Sys) {
    && W.z.Valid() && SP.SysInv(W, x) && Can(W, x, ReleaseAnswered) && Hazard(W, x, ReleaseAnswered)
    && Next(W, x, ReleaseAnswered).s.lists.numFree == 1 && x.m.reserved == [0] && x.held == {}
  }

  /** The next _alloc of one block returns block 0, which is allocated to nobody. */
  ghost predicate HandsOutFree(x: Sys) {
    && W.z.Valid() && Can(W, x, ReleaseAnswered)
    && var x1 := Next(W, x, ReleaseAnswered); var a := StartAlloc(1, 0, false);
       Can(W, x1, a) && var x2 := Next(W, x1, a);
       Can(W, x2, FinishAlloc) && var x3 := Next(W, x2, FinishAlloc); x3.held == {0} && 0 !in P.Allocated(x3.m)
  }

  lemma RaisedHandsOut(x: Sys)
    requires AboutToRaise(x)
    ensures HandsOutFree(x)
  {
    hide SP.SysInv, Next, Can, Hazard;
    S.StaleReserveHandedOut(W, x, ReleaseAnswered, 0);
    assert Elems([0]) == {0} && {} + {0} == {0};
  }

  lemma RaiseReached(all: seq<Move>)
    requires W.z.Valid() && G.Valid() && Fits(G) && CanRun(W, G, StartCluster(W, 1, 1), all)
    requires After(W, G, StartCluster(W, 1, 1), all) == Letting({}, true)
    ensures AboutToRaise(Letting({}, true).x)
  {
    StartLinked(W, G, 1, 1);
    RunKeepsLinked(W, G, StartCluster(W, 1, 1), all);
    hide CanRun, After, Fits, Region, SP.SysInv, Whole;
    ReleaseRaises();
    hide Next, Can, Hazard;
  }

  /** From a fresh allocator the broken state is reachable: free_reserved raises because a request was lost, and
      the next _alloc of one block returns block 0, which is allocated to nobody. */
  lemma FreeBlockHandedOut() returns (all: seq<Move>)
    ensures W.z.Valid() && G.Valid() && Fits(G) && CanRun(W, G, StartCluster(W, 1, 1), all)
    ensures HandsOutFree(After(W, G, StartCluster(W, 1, 1), all).x)
  {
    Shapes();
    hide CanRun, After, Fits, Region, AboutToRaise, HandsOutFree;
    var mvs := FreeFails();
    all := ReserveFirst(mvs);
    RaiseReached(all);
    RaisedHandsOut(Letting({}, true).x);
  }
}
