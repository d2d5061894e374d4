/** The whole system down to the tensor pages: each rank keeps a set of tensor pages with private memory and
    carries out broadcast requests on it, and the page allocator's idea of what is mapped is what they hold. */
module Ranks {
  import opened BlockMath
  import opened Seqs
  import opened PageLists
  import opened Machine
  import opened Layouts
  import opened FTensorAllocators
  import opened System
  import BB = BlockBytes
  import P = ManagerProofs
  import R = Runs
  import S = Safety
  import SP = SystemProofs

  // ---- one rank ------------------------------------------------------------------------------------

  /** A request may never arrive, and the answer to one that did may be lost; either counts as a failure. */
  datatype Delivery = Undelivered | Delivered(failAt: nat, heard: bool)

  function RankMaps(g: Geometry, table: set<Target>, pages: seq<PageId>, d: Delivery): (set<Target>, bool)
    requires g.Valid()
  {
    match d
    case Undelivered => (table, false)
    case Delivered(failAt, heard) =>
      var (after, ok) := MapWhole(table, Targets(g, pages), failAt);
      (after, ok && heard)
  }

  ghost function RankUnmaps(g: Geometry, table: set<Target>, pages: seq<PageId>, d: Delivery): (set<Target>, bool)
    requires g.Valid()
  {
    match d
    case Undelivered => (table, false)
    case Delivered(_, heard) =>
      var (after, ok) := UnmapWhole(table, Targets(g, pages));
      (after, ok && heard)
  }

  /** Page p has private memory in every tensor. */
  ghost predicate Complete(g: Geometry, table: set<Target>, p: PageId)
    requires g.Valid()
  {
    forall t :: For(g, t, p) ==> t in table
  }

  ghost function Whole(g: Geometry, table: set<Target>): set<PageId>
    requires g.Valid() && Fits(g)
  {
    set p: PageId | 0 <= p < Region(g) && Complete(g, table, p)
  }

  ghost predicate HaveRoom(g: Geometry, pages: seq<PageId>)
    requires g.Valid() && Fits(g)
  {
    forall p :: p in pages ==> 0 <= p < Region(g)
  }

  lemma OtherPagesKept(g: Geometry, before: set<Target>, after: set<Target>, pages: seq<PageId>)
    requires g.Valid() && Fits(g) && HaveRoom(g, pages)
    requires forall t :: t !in Targets(g, pages) ==> (t in before <==> t in after)
    ensures Touches(pages, Whole(g, before), Whole(g, after))
  {
    hide Region, Fits, For, Targets;
    forall p | 0 <= p < Region(g) && p !in pages
      ensures Complete(g, before, p) <==> Complete(g, after, p)
    {
      forall t | For(g, t, p) ensures t !in Targets(g, pages) {
        TargetsAreTheirs(g, pages, t);
        if t in Targets(g, pages) {
          var q :| q in pages && For(g, t, q);
          Injective(g, p, q);
        }
      }
    }
  }

  lemma TargetsComplete(g: Geometry, table: set<Target>, pages: seq<PageId>)
    requires g.Valid() && Fits(g) && HaveRoom(g, pages)
    ensures Elems(Targets(g, pages)) <= table <==> Elems(pages) <= Whole(g, table)
  {
    hide Region, Fits, For, Targets;
    if Elems(Targets(g, pages)) <= table {
      forall p, t | p in pages && For(g, t, p) ensures t in table {
        TargetsAreTheirs(g, pages, t);
        assert t in Elems(Targets(g, pages));
      }
    }
    if Elems(pages) <= Whole(g, table) {
      forall t | t in Targets(g, pages) ensures t in table {
        TargetsAreTheirs(g, pages, t);
        var p :| p in pages && For(g, t, p);
        assert p in Elems(pages) && p in Whole(g, table);
      }
    }
  }

  /** A map request changes nothing but its own pages, and a rank that answers well holds all of them,
      whatever an earlier attempt had left: a retry completes a page that was mapped in part. */
  lemma MapOnRank(g: Geometry, table: set<Target>, pages: seq<PageId>, d: Delivery)
    requires g.Valid() && Fits(g) && HaveRoom(g, pages)
    ensures var (after, ok) := RankMaps(g, table, pages, d);
      && Touches(pages, Whole(g, table), Whole(g, after)) && (ok ==> Elems(pages) <= Whole(g, after))
      && (ok <==> d.Delivered? && d.heard && d.failAt >= |Targets(g, pages)|)
  {
    var (after, ok) := RankMaps(g, table, pages, d);
    forall t | t !in Targets(g, pages) ensures t in table <==> t in after {
      if d.Delivered? && d.failAt < |Targets(g, pages)| {
        assert t !in Targets(g, pages)[..d.failAt];
      }
    }
    hide Whole, Targets, HaveRoom;
    OtherPagesKept(g, table, after, pages);
    TargetsComplete(g, after, pages);
  }

  lemma FirstTarget(g: Geometry, p: PageId) returns (t: Target)
    requires g.Valid()
    ensures For(g, t, p)
  {
    t := Target(0, p);
  }

  /** An unmap request changes nothing but its own pages. A rank that answers well held all of them and holds
      none any more, and one that is reached refuses only if it lacks one. */
  lemma UnmapOnRank(g: Geometry, table: set<Target>, pages: seq<PageId>, d: Delivery)
    requires g.Valid() && Fits(g) && HaveRoom(g, pages) && NoDup(pages)
    ensures var (after, ok) := RankUnmaps(g, table, pages, d);
      && Touches(pages, Whole(g, table), Whole(g, after))
      && (ok ==> Elems(pages) <= Whole(g, table) && Elems(pages) !! Whole(g, after))
      && (ok <==> d.Delivered? && d.heard && Elems(pages) <= Whole(g, table))
  {
    var ts := Targets(g, pages);
    var (after, ok) := RankUnmaps(g, table, pages, d);
    DistinctInRoom(g, pages);
    assert forall t :: t in Elems(ts) <==> t in ts;
    hide Whole, Targets, HaveRoom;
    OtherPagesKept(g, table, after, pages);
    TargetsComplete(g, table, pages);
    if ok {
      forall p | p in pages ensures p !in Whole(g, after) {
        Emptied(g, after, pages, p);
      }
    }
  }

  lemma DistinctInRoom(g: Geometry, pages: seq<PageId>)
    requires g.Valid() && Fits(g) && HaveRoom(g, pages) && NoDup(pages)
    ensures NoDup(Targets(g, pages))
  {
    TargetsDistinctIff(g, pages);
    forall p, q | p in pages && q in pages ensures !Meet(g, p, q) {
    }
  }

  lemma Emptied(g: Geometry, after: set<Target>, pages: seq<PageId>, p: PageId)
    requires g.Valid() && Fits(g) && p in pages && Elems(Targets(g, pages)) !! after
    ensures p !in Whole(g, after)
  {
    var t := FirstTarget(g, p);
    TargetsAreTheirs(g, pages, t);
    assert t in Elems(Targets(g, pages));
    assert t !in after;
  }

  // ---- the system with its ranks ---------------------------------------------------------------------

  datatype Cluster = Cluster(x: Sys, tables: seq<set<Target>>)

  datatype Move = Local(a: Act) | RankActs(t: Thread, r: nat, d: Delivery)

  ghost predicate IsAnswer(a: Act) {
    a.Background? && (a.e.RankMap? || a.e.RankUnmap?)
  }

  /** How a rank's work on a request shows in the page allocator's world. */
  ghost function Answering(g: Geometry, n: Cluster, t: Thread, r: nat, d: Delivery): (set<Target>, Act)
    requires g.Valid() && Fits(g) && t in n.x.s.flights && r < |n.tables|
  {
    var f := n.x.s.flights[t];
    if f.job.Maps() then
      var (after, ok) := RankMaps(g, n.tables[r], f.pages, d);
      (after, Background(RankMap(t, r, Whole(g, after), ok)))
    else
      var (after, ok) := RankUnmaps(g, n.tables[r], f.pages, d);
      (after, Background(RankUnmap(t, r, Whole(g, after), ok)))
  }

  /** Resizing must leave room: nothing in the source keeps a resize from asking for more pages than the
      tensors have. */
  ghost predicate CanMove(w: World, g: Geometry, n: Cluster, mv: Move)
    requires w.z.Valid() && g.Valid() && Fits(g)
  {
    match mv
    case Local(a) =>
      !IsAnswer(a) && Can(w, n.x, a) && !Hazard(w, n.x, a) && Next(w, n.x, a).s.Bound() <= Region(g)
    case RankActs(t, r, _) =>
      t in n.x.s.flights && r in n.x.s.flights[t].pending && r < |n.tables| == |n.x.s.mapped|
  }

  ghost predicate Linked(w: World, g: Geometry, n: Cluster)
    requires w.z.Valid() && g.Valid() && Fits(g)
  {
    && SP.SysInv(w, n.x) && |n.tables| == |n.x.s.mapped| && n.x.s.Bound() <= Region(g)
    && forall r :: 0 <= r < |n.tables| ==> n.x.s.mapped[r] == Whole(g, n.tables[r])
  }

  /** What a rank does is always one of the answers the page allocator is prepared for. */
  lemma AnswerAllowed(w: World, g: Geometry, n: Cluster, t: Thread, r: nat, d: Delivery)
    requires w.z.Valid() && g.Valid() && Fits(g) && Linked(w, g, n) && CanMove(w, g, n, RankActs(t, r, d))
    ensures Can(w, n.x, Answering(g, n, t, r, d).1)
  {
    var f := n.x.s.flights[t];
    FlightHasRoom(g, n.x.s, t);
    hide SP.SysInv, Inv, Whole, RankMaps, RankUnmaps, Touches, HaveRoom;
    if f.job.Maps() {
      MapOnRank(g, n.tables[r], f.pages, d);
    } else {
      UnmapOnRank(g, n.tables[r], f.pages, d);
    }
  }

  lemma FlightHasRoom(g: Geometry, s: State, t: Thread)
    requires g.Valid() && Fits(g) && Inv(s) && t in s.flights && s.Bound() <= Region(g)
    ensures HaveRoom(g, s.flights[t].pages) && NoDup(s.flights[t].pages)
  {
    hide Region, Fits;
    forall p | p in s.flights[t].pages ensures 0 <= p < Region(g) {
      assert At(s, Flying(t), p) && Somewhere(s, p);
    }
  }

  /** By AnswerAllowed the last case never arises from a linked cluster. */
  ghost function Moved(w: World, g: Geometry, n: Cluster, mv: Move): Cluster
    requires w.z.Valid() && g.Valid() && Fits(g) && CanMove(w, g, n, mv)
  {
    match mv
    case Local(a) => Cluster(Next(w, n.x, a), n.tables)
    case RankActs(t, r, d) =>
      var (after, a) := Answering(g, n, t, r, d);
      if Can(w, n.x, a) then Cluster(Next(w, n.x, a), n.tables[r := after]) else n
  }

  /** Only the ranks change what is mapped on them. */
  lemma LocalKeepsMapped(w: World, x: Sys, a: Act)
    requires w.z.Valid() && Can(w, x, a) && !IsAnswer(a)
    ensures Next(w, x, a).s.mapped == x.s.mapped
  {
    hide Enabled, TryAlloc, FreePages, BeginTrim, BeginResize, FinishResize, WorkerTake, SortFree, FreshId, M.FreeGroups,
      M.ServeNew, M.ServeHeld, M.ShrinkDue, M.AvailableSize, M.Enumerates, ShrinkPages, M.AfterResize;
  }

  lemma MoveKeepsLinked(w: World, g: Geometry, n: Cluster, mv: Move)
    requires w.z.Valid() && g.Valid() && Fits(g) && Linked(w, g, n) && CanMove(w, g, n, mv)
    ensures Linked(w, g, Moved(w, g, n, mv))
  {
    match mv {
      case Local(a) =>
        hide SP.SysInv, Can, Next, Hazard, Whole;
        SP.StepSafeIff(w, n.x, a);
        LocalKeepsMapped(w, n.x, a);
      case RankActs(t, r, d) =>
        AnswerAllowed(w, g, n, t, r, d);
        var (after, a) := Answering(g, n, t, r, d);
        AnswerShown(w, n.x, a);
        hide SP.SysInv, Can, Next, Whole, RankMaps, RankUnmaps;
        SP.StepSafeIff(w, n.x, a);
    }
  }

  lemma AnswerShown(w: World, x: Sys, a: Act)
    requires w.z.Valid() && Can(w, x, a) && IsAnswer(a)
    ensures a.e.r < |x.s.mapped| && !Hazard(w, x, a)
    ensures Next(w, x, a).s.mapped == x.s.mapped[a.e.r := a.e.now] && Next(w, x, a).s.Bound() == x.s.Bound()
  {
    hide Touches;
  }

  // ---- runs ----------------------------------------------------------------------------------------

  ghost predicate CanRun(w: World, g: Geometry, n: Cluster, mvs: seq<Move>)
    requires w.z.Valid() && g.Valid() && Fits(g)
    decreases |mvs|
  {
    mvs == [] || (CanMove(w, g, n, mvs[0]) && CanRun(w, g, Moved(w, g, n, mvs[0]), mvs[1..]))
  }

  ghost function After(w: World, g: Geometry, n: Cluster, mvs: seq<Move>): Cluster
    requires w.z.Valid() && g.Valid() && Fits(g) && CanRun(w, g, n, mvs)
    decreases |mvs|
  {
    if mvs == [] then n else After(w, g, Moved(w, g, n, mvs[0]), mvs[1..])
  }

  lemma {:induction false} RunKeepsLinked(w: World, g: Geometry, n: Cluster, mvs: seq<Move>)
    requires w.z.Valid() && g.Valid() && Fits(g) && Linked(w, g, n) && CanRun(w, g, n, mvs)
    ensures Linked(w, g, After(w, g, n, mvs)) && |After(w, g, n, mvs).tables| == |n.tables|
    decreases |mvs|
  {
    hide Linked, CanMove, Moved;
    if mvs != [] {
      MoveKeepsLinked(w, g, n, mvs[0]);
      SameRanks(w, g, n, mvs[0]);
      RunKeepsLinked(w, g, Moved(w, g, n, mvs[0]), mvs[1..]);
    }
  }

  lemma SameRanks(w: World, g: Geometry, n: Cluster, mv: Move)
    requires w.z.Valid() && g.Valid() && Fits(g) && CanMove(w, g, n, mv)
    ensures |Moved(w, g, n, mv).tables| == |n.tables|
  {
    hide Can, Next, Hazard, Answering;
  }

  function StartCluster(w: World, numPages: nat, worldSize: nat): Cluster {
    Cluster(Start(w, numPages, worldSize), seq(worldSize, _ => {}))
  }

  lemma StartLinked(w: World, g: Geometry, numPages: nat, worldSize: nat)
    requires w.z.Valid() && g.Valid() && Fits(g) && numPages <= Region(g)
    ensures Linked(w, g, StartCluster(w, numPages, worldSize))
  {
    SP.StartOk(w, numPages, worldSize);
    hide SP.SysInv, Region, For;
    forall p ensures p !in Whole(g, {}) {
      var t := FirstTarget(g, p);
      assert p in Whole(g, {}) ==> Complete(g, {}, p);
    }
  }

  /** Every byte of the block, in every tensor of every rank, lies in a tensor page with private memory. */
  ghost predicate Resident(w: World, g: Geometry, n: Cluster, b: int)
    requires w.z.Valid() && g.Valid() && TensorPage(g) > 0
  {
    forall r, i: nat, y | 0 <= r < |n.tables| && i < NumTensors(g) && BB.ByteOf(g, w.z, b, y)
      :: Target(i, y / TensorPage(g)) in n.tables[r]
  }

  /** No byte belongs to two outstanding blocks. */
  ghost predicate NoByteShared(w: World, g: Geometry, n: Cluster)
    requires g.Valid()
  {
    forall a, b, y | a in SP.Outstanding(n.x) && b in SP.Outstanding(n.x) && a != b
      :: !(BB.ByteOf(g, w.z, a, y) && BB.ByteOf(g, w.z, b, y))
  }

  lemma PlacedOwned(w: World, x: Sys, b: int)
    requires w.z.Valid() && SP.SysInv(w, x) && b in SP.Outstanding(x)
    ensures PageOf(w.z, b) >= 0 && Owns(w.z, PageOf(w.z, b), b) && S.WellPlaced(w, x, b)
  {
    hide PageOf, Owns, Inv, P.Owned, P.Allocated, P.PagesPlaced;
    S.OutstandingPlaced(w, x, b);
    assert b in P.Allocated(x.m);
    P.AllocatedOwned(w.z, x.m, b);
  }

  lemma OutstandingResident(w: World, g: Geometry, n: Cluster, b: int)
    requires w.z.Valid() && g.Valid() && Fits(g) && g.page == w.z.page && Linked(w, g, n) && b in SP.Outstanding(n.x)
    ensures Resident(w, g, n, b) && PageOf(w.z, b) < Region(g)
  {
    PlacedOwned(w, n.x, b);
    hide SP.SysInv, SP.Outstanding, Complete, PageOf, Owns, Fits, Region, BB.ByteOf;
    var p := PageOf(w.z, b);
    PageBelow(w, g, n, p);
    forall r, i: nat, y | 0 <= r < |n.tables| && i < NumTensors(g) && BB.ByteOf(g, w.z, b, y)
      ensures Target(i, y / TensorPage(g)) in n.tables[r]
    {
      BB.BytesInTargets(g, w.z, b, i, y);
      MappedComplete(w, g, n, r, p, Target(i, y / TensorPage(g)));
    }
  }

  lemma PageBelow(w: World, g: Geometry, n: Cluster, p: PageId)
    requires w.z.Valid() && g.Valid() && Fits(g) && Linked(w, g, n) && p in n.x.s.inUse
    ensures p < Region(g)
  {
    hide Region, Fits;
    assert At(n.x.s, InUse, p) && Somewhere(n.x.s, p);
  }

  lemma MappedComplete(w: World, g: Geometry, n: Cluster, r: nat, p: PageId, t: Target)
    requires w.z.Valid() && g.Valid() && Fits(g) && Linked(w, g, n) && r < |n.tables|
    requires p in n.x.s.mapped[r] && For(g, t, p)
    ensures t in n.tables[r]
  {
    hide SP.SysInv, Region, Fits, For;
    assert p in Whole(g, n.tables[r]);
  }

  lemma OutstandingApart(w: World, g: Geometry, n: Cluster)
    requires w.z.Valid() && g.Valid() && Fits(g) && g.page == w.z.page && Linked(w, g, n)
    ensures NoByteShared(w, g, n)
  {
    hide Linked, SP.Outstanding, Resident, PageOf, Owns, Fits, Region, BB.ByteOf;
    forall a, b, y | a in SP.Outstanding(n.x) && b in SP.Outstanding(n.x) && a != b
      ensures !(BB.ByteOf(g, w.z, a, y) && BB.ByteOf(g, w.z, b, y))
    {
      LinkedInv(w, g, n);
      OutstandingResident(w, g, n, a);
      OutstandingResident(w, g, n, b);
      PlacedOwned(w, n.x, a);
      PlacedOwned(w, n.x, b);
      BB.BytesApart(g, w.z, a, b, y);
    }
  }

  lemma LinkedInv(w: World, g: Geometry, n: Cluster)
    requires w.z.Valid() && g.Valid() && Fits(g) && Linked(w, g, n)
    ensures SP.SysInv(w, n.x)
  {
  }

  lemma LinkedIsSafe(w: World, g: Geometry, n: Cluster)
    requires w.z.Valid() && g.Valid() && Fits(g) && g.page == w.z.page && Linked(w, g, n)
    ensures S.Safe(w, n.x) && NoByteShared(w, g, n)
    ensures forall b :: b in SP.Outstanding(n.x) ==> Resident(w, g, n, b)
  {
    hide Linked, SP.Outstanding, S.Safe, Resident, NoByteShared, Fits, Region, SP.SysInv;
    LinkedInv(w, g, n);
    S.InvIsSafe(w, n.x);
    OutstandingApart(w, g, n);
    forall b | b in SP.Outstanding(n.x) ensures Resident(w, g, n, b) {
      OutstandingResident(w, g, n, b);
    }
  }

  /** The top of the tower. From a fresh allocator with room in its tensors, whatever the calls, the worker,
      the ranks and the transport do, short of the hazards and of outgrowing the tensors: no byte of a tensor
      belongs to two outstanding blocks, and every byte of one, K and V, in every layer and on every rank, has
      private memory. */
  lemma EveryBlockResident(w: World, g: Geometry, numPages: nat, worldSize: nat, mvs: seq<Move>)
    requires w.z.Valid() && g.Valid() && Fits(g) && g.page == w.z.page && numPages <= Region(g)
    requires CanRun(w, g, StartCluster(w, numPages, worldSize), mvs)
    ensures var n := After(w, g, StartCluster(w, numPages, worldSize), mvs);
      && S.Safe(w, n.x) && |n.tables| == worldSize && NoByteShared(w, g, n)
      && forall b :: b in SP.Outstanding(n.x) ==> Resident(w, g, n, b)
  {
    hide Linked, SP.Outstanding, S.Safe, Resident, NoByteShared, CanRun, After, Fits, Region, StartCluster;
    StartLinked(w, g, numPages, worldSize);
    StartRanks(w, numPages, worldSize);
    RunKeepsLinked(w, g, StartCluster(w, numPages, worldSize), mvs);
    LinkedIsSafe(w, g, After(w, g, StartCluster(w, numPages, worldSize), mvs));
  }

  lemma StartRanks(w: World, numPages: nat, worldSize: nat)
    ensures |StartCluster(w, numPages, worldSize).tables| == worldSize
  {
  }

  /** Ranks never turn an unmap down: only the transport can make one fail, and so lose pages. */
  lemma OnlyTransportLoses(w: World, g: Geometry, n: Cluster, t: Thread, r: nat, d: Delivery)
    requires w.z.Valid() && g.Valid() && Fits(g) && Linked(w, g, n) && CanMove(w, g, n, RankActs(t, r, d))
    requires !n.x.s.flights[t].job.Maps()
    ensures Answering(g, n, t, r, d).1.e.ok <==> d.Delivered? && d.heard
  {
    FlightHasRoom(g, n.x.s, t);
    R.UnmapNeverRefused(n.x.s, t, r);
    hide SP.SysInv, Inv, Whole, RankUnmaps, Touches, HaveRoom;
    UnmapOnRank(g, n.tables[r], n.x.s.flights[t].pages, d);
  }
}
