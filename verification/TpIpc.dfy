/** The tensor-parallel broadcast: a listener on every rank carries out commands on its tensors, and the caller
    raises unless all of them report success. */
module TpIpc {
  import opened PageLists
  import opened Layouts
  import opened FTensorAllocators
  import R = Ranks

  datatype Message = MapToKvTensors(offsets: seq<int>) | UnmapFromKvTensors(offsets: seq<int>)
                   | KvTensorsCreated | Other

  /** What the caller gets back from a rank; NoReply stands for any exception on the way. */
  datatype Response = Success | Created(created: bool) | Error | NoReply

  /** The two kinds of reply with status "success". */
  predicate Fine(r: Response) {
    r.Success? || r.Created?
  }

  datatype Outcome = Raised(rank: nat) | Returned(allCreated: bool)

  /** A broadcast succeeds exactly when every rank does; otherwise the error names the first that did not. */
  ghost predicate Summarises(responses: seq<Response>, o: Outcome) {
    match o
    case Raised(rank) =>
      rank < |responses| && !Fine(responses[rank]) && forall k :: 0 <= k < rank ==> Fine(responses[k])
    case Returned(all) =>
      && (forall k :: 0 <= k < |responses| ==> Fine(responses[k]))
      && (all <==> forall k :: 0 <= k < |responses| ==> responses[k] == Created(true))
  }

  method CheckResponses(responses: seq<Response>) returns (o: Outcome)
    ensures Summarises(responses, o)
  {
    var allCreated := true;
    for rank := 0 to |responses|
      invariant forall k :: 0 <= k < rank ==> Fine(responses[k])
      invariant allCreated <==> forall k :: 0 <= k < rank ==> responses[k] == Created(true)
    {
      if !Fine(responses[rank]) {
        return Raised(rank);
      }
      if responses[rank] != Created(true) {
        allCreated := false;
      }
    }
    o := Returned(allCreated);
  }

  /** The listener of one rank. */
  class Worker {
    const allocator: FTensorAllocator

    constructor (allocator: FTensorAllocator)
      ensures this.allocator == allocator
    {
      this.allocator := allocator;
    }

    /** The message asks for tensor pages to be mapped or unmapped. */
    predicate ActsOn(msg: Message)
      reads allocator
    {
      allocator.numLayers > 0 && (msg.MapToKvTensors? || msg.UnmapFromKvTensors?)
    }

    /** The offsets to be mapped lie in the tensors; those to be unmapped need only be aligned. */
    ghost predicate InReach(msg: Message)
      reads allocator
      requires ActsOn(msg)
    {
      && allocator.g.Valid() && Fits(allocator.g)
      && if msg.MapToKvTensors? then AllInRange(allocator.g, Spots(allocator.g, msg.offsets))
         else AllOnPages(allocator.g, Spots(allocator.g, msg.offsets))
    }

    ghost function Reached(msg: Message): seq<Target>
      reads allocator
      requires ActsOn(msg) && InReach(msg)
    {
      TargetsAt(allocator.g, Spots(allocator.g, msg.offsets))
    }

    method Handle(msg: Message, failAt: nat) returns (r: Response)
      requires allocator.Valid() && (ActsOn(msg) ==> InReach(msg))
      modifies allocator.ftensors
      ensures allocator.Valid()
      ensures msg.KvTensorsCreated? ==> r == Created(allocator.numLayers > 0)
      ensures !msg.KvTensorsCreated? && !ActsOn(msg) ==> r == Error
      ensures !ActsOn(msg) ==> allocator.Mapped() == old(allocator.Mapped())
      ensures ActsOn(msg) ==> r == if r.Success? then Success else Error
      ensures ActsOn(msg) && msg.MapToKvTensors? ==>
                (allocator.Mapped(), r.Success?) == MapWhole(old(allocator.Mapped()), Reached(msg), failAt)
      ensures ActsOn(msg) && msg.UnmapFromKvTensors? ==>
                (allocator.Mapped(), r.Success?) == UnmapWhole(old(allocator.Mapped()), Reached(msg))
    {
      match msg {
        case MapToKvTensors(offsets) =>
          var ok := allocator.MapToKvTensors(offsets, failAt);
          r := if ok then Success else Error;
        case UnmapFromKvTensors(offsets) =>
          var ok := allocator.UnmapFromKvTensors(offsets);
          r := if ok then Success else Error;
        case KvTensorsCreated =>
          r := Created(allocator.numLayers > 0);
        case Other =>
          r := Error;
      }
    }
  }

  /** The offsets map_pages sends for pages that have room are ones a listener can act on. */
  lemma {:induction false} PagesInRange(g: Geometry, n: nat, ps: seq<PageId>)
    requires g.Valid() && Fits(g) && R.HaveRoom(g, ps) && n <= NumTensors(g)
    ensures AllInRange(g, SpotsBelow(g, n, Offsets(g, ps)))
  {
    if n > 0 {
      PagesInRange(g, n - 1, ps);
      LayerInRange(g, n - 1, ps);
      hide InRange, LayerSpots, Offsets;
    }
  }

  lemma {:induction false} LayerInRange(g: Geometry, i: nat, ps: seq<PageId>)
    requires g.Valid() && Fits(g) && R.HaveRoom(g, ps) && i < NumTensors(g)
    ensures AllInRange(g, LayerSpots(g, i, Offsets(g, ps)))
  {
    hide InRange, Region, OffsetOf, SpotsAt;
    if ps != [] {
      var front, p := ps[..|ps| - 1], ps[|ps| - 1];
      assert Offsets(g, ps)[..|ps| - 1] == Offsets(g, front);
      assert ps == front + [p] && p in ps;
      assert forall q :: q in front ==> q in ps;
      LayerInRange(g, i, front);
      OffsetInRange(g, i, p);
    }
  }

  lemma OffsetInRange(g: Geometry, i: nat, p: PageId)
    requires g.Valid() && Fits(g) && 0 <= p < Region(g) && i < NumTensors(g)
    ensures AllInRange(g, SpotsAt(g, i, OffsetOf(g, p)))
  {
    Injective(g, p, p);
    hide Region;
    OffsetIsMultiple(g, p);
    MultipleDiv(p, TensorPage(g));
    assert For(g, Target(i, p), p);
    var size := TensorPage(g);
    assert (p + 1) * size == p * size + size;
    if g.layout.Split? {
      VBaseIsHalf(g);
      var v := p + Half(g);
      assert For(g, Target(i, v), p);
      assert v * size == p * size + Half(g) * size;
      assert (v + 1) * size == v * size + size;
      MultipleDiv(v, size);
    }
  }

  /** What a listener does with map_pages' offsets is what the rank model does with the pages. */
  lemma ListenerIsRank(g: Geometry, table: set<Target>, ps: seq<PageId>, failAt: nat)
    requires g.Valid() && Fits(g)
    ensures MapWhole(table, TargetsAt(g, Spots(g, Offsets(g, ps))), failAt)
         == R.RankMaps(g, table, ps, R.Delivered(failAt, true))
    ensures UnmapWhole(table, TargetsAt(g, Spots(g, Offsets(g, ps))))
         == R.RankUnmaps(g, table, ps, R.Delivered(failAt, true))
  {
    OffsetsReachTargets(g, ps);
  }
}
