/** Mapping and unmapping whole requests in all KV tensors, with rollback. */
module FTensorAllocators {
  import opened Seqs
  import opened Layouts
  import opened FTensors

  // ---- what a request does to the set of tensor pages with private memory -----------------------------

  /** FTensor::map reports no failure; failAt is the position of the target at which it would. The rollback
      unmaps whatever the request had reached, whether or not it was mapped before. */
  function MapWhole(mapped: set<Target>, ts: seq<Target>, failAt: nat): (set<Target>, bool) {
    if failAt < |ts| then (mapped - Elems(ts[..failAt]), false) else (mapped + Elems(ts), true)
  }

  ghost predicate Unmappable(mapped: set<Target>, ts: seq<Target>) {
    NoDup(ts) && Elems(ts) <= mapped
  }

  /** All or nothing. */
  ghost function UnmapWhole(mapped: set<Target>, ts: seq<Target>): (set<Target>, bool) {
    if Unmappable(mapped, ts) then (mapped - Elems(ts), true) else (mapped, false)
  }

  /** A failed map leaves the tensors as they were exactly when what it had reached was not mapped before. */
  lemma MapRollbackIff(mapped: set<Target>, ts: seq<Target>, failAt: nat)
    requires failAt < |ts|
    ensures MapWhole(mapped, ts, failAt).0 == mapped <==> Elems(ts[..failAt]) !! mapped
  {
    var reached := Elems(ts[..failAt]);
    if mapped - reached == mapped {
      forall t | t in reached ensures t !in mapped {
        assert t in mapped ==> t in mapped - reached;
      }
    }
  }

  // ---- prefixes of the order of work ------------------------------------------------------------------

  lemma {:induction false} LayerPrefix(g: Geometry, i: nat, offsets: seq<int>, j: nat)
    requires g.Valid() && j <= |offsets|
    ensures LayerSpots(g, i, offsets[..j]) <= LayerSpots(g, i, offsets)
    decreases |offsets| - j
  {
    if j < |offsets| {
      LayerGrows(g, i, offsets, j);
      LayerPrefix(g, i, offsets, j + 1);
    } else {
      assert offsets[..j] == offsets;
    }
  }

  lemma LayerGrows(g: Geometry, i: nat, offsets: seq<int>, j: nat)
    requires g.Valid() && j < |offsets|
    ensures LayerSpots(g, i, offsets[..j + 1]) == LayerSpots(g, i, offsets[..j]) + SpotsAt(g, i, offsets[j])
  {
    assert offsets[..j + 1][..j] == offsets[..j];
  }

  lemma {:induction false} BelowPrefix(g: Geometry, i: nat, n: nat, offsets: seq<int>)
    requires g.Valid() && i <= n
    ensures SpotsBelow(g, i, offsets) <= SpotsBelow(g, n, offsets)
    decreases n - i
  {
    if i < n {
      BelowPrefix(g, i + 1, n, offsets);
    }
  }

  /** What has been reached when tensor i is done with the first j offsets. */
  function Reached(g: Geometry, i: nat, offsets: seq<int>, j: nat): seq<Spot>
    requires g.Valid() && j <= |offsets|
  {
    SpotsBelow(g, i, offsets) + LayerSpots(g, i, offsets[..j])
  }

  lemma ReachedIsPrefix(g: Geometry, i: nat, offsets: seq<int>, j: nat)
    requires g.Valid() && j < |offsets| && i < NumTensors(g)
    ensures Reached(g, i, offsets, j) + SpotsAt(g, i, offsets[j]) == Reached(g, i, offsets, j + 1)
    ensures Reached(g, i, offsets, j + 1) <= Spots(g, offsets)
  {
    hide SpotsAt, LayerSpots, NumTensors;
    LayerGrows(g, i, offsets, j);
    LayerPrefix(g, i, offsets, j + 1);
    BelowPrefix(g, i + 1, NumTensors(g), offsets);
  }

  lemma ReachedLayer(g: Geometry, i: nat, offsets: seq<int>)
    requires g.Valid()
    ensures Reached(g, i, offsets, 0) == SpotsBelow(g, i, offsets)
    ensures Reached(g, i, offsets, |offsets|) == SpotsBelow(g, i + 1, offsets)
  {
    assert offsets[..|offsets|] == offsets;
  }

  predicate InRange(g: Geometry, s: Spot)
    requires g.Valid() && Fits(g)
  {
    s.tensor < NumTensors(g) && s.offset % TensorPage(g) == 0 && 0 <= s.offset < TensorSize(g)
  }

  ghost predicate AllInRange(g: Geometry, spots: seq<Spot>)
    requires g.Valid() && Fits(g)
  {
    forall k :: 0 <= k < |spots| ==> InRange(g, spots[k])
  }

  /** What an unmap demands: only mapped pages can be unmapped, so an offset outside the tensor is refused. */
  predicate OnPage(g: Geometry, s: Spot)
    requires g.Valid() && Fits(g)
  {
    s.tensor < NumTensors(g) && s.offset % TensorPage(g) == 0
  }

  ghost predicate AllOnPages(g: Geometry, spots: seq<Spot>)
    requires g.Valid() && Fits(g)
  {
    forall k :: 0 <= k < |spots| ==> OnPage(g, spots[k])
  }

  ghost function Places(g: Geometry, spots: seq<Spot>): set<Target>
    requires g.Valid() && TensorPage(g) > 0
  {
    Elems(TargetsAt(g, spots))
  }

  lemma PlacesSnoc(g: Geometry, spots: seq<Spot>, s: Spot)
    requires g.Valid() && TensorPage(g) > 0
    ensures Places(g, spots + [s]) == Places(g, spots) + {TargetAt(g, s)}
    ensures TargetsAt(g, spots + [s]) == TargetsAt(g, spots) + [TargetAt(g, s)]
  {
    assert TargetsAt(g, spots + [s]) == TargetsAt(g, spots) + [TargetAt(g, s)];
  }

  lemma PlacesTail(g: Geometry, spots: seq<Spot>, i: nat)
    requires g.Valid() && TensorPage(g) > 0 && i < |spots|
    ensures Places(g, spots[i..]) == Places(g, spots[i + 1..]) + {TargetAt(g, spots[i])}
  {
    assert TargetsAt(g, spots[i..]) == [TargetAt(g, spots[i])] + TargetsAt(g, spots[i + 1..]);
  }

  lemma PlacesNone(g: Geometry)
    requires g.Valid() && TensorPage(g) > 0
    ensures Places(g, []) == {} && TargetsAt(g, []) == []
  {
  }

  /** How a map that fails after `done` fits the whole request. */
  lemma StoppedMap(g: Geometry, mapped: set<Target>, all: seq<Spot>, done: seq<Spot>)
    requires g.Valid() && TensorPage(g) > 0 && done <= all && |done| < |all|
    ensures MapWhole(mapped, TargetsAt(g, all), |done|) == ((mapped + Places(g, done)) - Places(g, done), false)
  {
    assert TargetsAt(g, all)[..|done|] == TargetsAt(g, done);
    assert (mapped + Places(g, done)) - Places(g, done) == mapped - Places(g, done);
  }

  /** An unmap that stops after `done` stops because the whole request cannot be unmapped. */
  lemma StoppedUnmap(g: Geometry, mapped: set<Target>, all: seq<Spot>, done: seq<Spot>, s: Spot)
    requires g.Valid() && TensorPage(g) > 0 && done + [s] <= all
    requires TargetAt(g, s) !in mapped - Places(g, done)
    ensures !Unmappable(mapped, TargetsAt(g, all))
  {
    var ts := TargetsAt(g, all);
    var k := |done|;
    assert ts[..k] == TargetsAt(g, done);
    assert ts[k] == TargetAt(g, s) by { assert (done + [s])[k] == all[k]; }
    if ts[k] in mapped {
      assert ts[k] in ts[..k];
      var i :| 0 <= i < k && ts[..k][i] == ts[k];
      assert ts[i] == ts[k];
    } else {
      assert ts[k] in Elems(ts);
    }
  }

  /** One more spot of the work order, which was in range as a whole. */
  lemma NextSpot(g: Geometry, all: seq<Spot>, done: seq<Spot>, s: Spot)
    requires g.Valid() && Fits(g) && AllInRange(g, all) && done + [s] <= all
    ensures InRange(g, s) && AllInRange(g, done) && |done| < |all| && done <= all
  {
    assert (done + [s])[|done|] == all[|done|];
    assert forall k :: 0 <= k < |done| ==> done[k] == (done + [s])[k] == all[k];
  }

  lemma RangeSnoc(g: Geometry, done: seq<Spot>, s: Spot)
    requires g.Valid() && Fits(g) && AllInRange(g, done) && InRange(g, s)
    ensures AllInRange(g, done + [s])
  {
  }

  lemma NextOnPage(g: Geometry, all: seq<Spot>, done: seq<Spot>, s: Spot)
    requires g.Valid() && Fits(g) && AllOnPages(g, all) && done + [s] <= all
    ensures OnPage(g, s)
  {
    assert (done + [s])[|done|] == all[|done|];
  }

  /** The work order of one offset: the K spot, and in a split tensor the V spot after it. */
  lemma KThenV(g: Geometry, i: nat, offsets: seq<int>, j: nat)
    requires g.Valid() && j < |offsets| && i < NumTensors(g)
    ensures var done := Reached(g, i, offsets, j); var k := Spot(i, offsets[j]);
      && done + [k] <= Spots(g, offsets)
      && (g.layout.Split? ==> (done + [k]) + [Spot(i, offsets[j] + VBase(g))] == Reached(g, i, offsets, j + 1))
      && (!g.layout.Split? ==> done + [k] == Reached(g, i, offsets, j + 1))
      && Reached(g, i, offsets, j + 1) <= Spots(g, offsets)
  {
    hide Reached, Spots, NumTensors, VBase;
    ReachedIsPrefix(g, i, offsets, j);
    var done := Reached(g, i, offsets, j);
    if g.layout.Split? {
      assert done + SpotsAt(g, i, offsets[j]) == (done + [Spot(i, offsets[j])]) + [Spot(i, offsets[j] + VBase(g))];
    }
  }

  /** What mapping one more spot, or stopping there, means for the whole request. */
  lemma MapNext(g: Geometry, mapped: set<Target>, all: seq<Spot>, done: seq<Spot>, s: Spot)
    requires g.Valid() && TensorPage(g) > 0 && done + [s] <= all
    ensures |done| < |all|
    ensures MapWhole(mapped, TargetsAt(g, all), |done|) == ((mapped + Places(g, done)) - Places(g, done), false)
    ensures (mapped + Places(g, done)) + {TargetAt(g, s)} == mapped + Places(g, done + [s])
  {
    StoppedMap(g, mapped, all, done);
    PlacesSnoc(g, done, s);
  }

  /** What unmapping one more spot means for the whole request. */
  lemma UnmapNext(g: Geometry, mapped: set<Target>, all: seq<Spot>, done: seq<Spot>, s: Spot)
    requires g.Valid() && TensorPage(g) > 0 && done + [s] <= all && Unmappable(mapped, TargetsAt(g, done))
    ensures var t := TargetAt(g, s); var rest := mapped - Places(g, done);
      && (t !in rest ==> !Unmappable(mapped, TargetsAt(g, all)) && rest + Places(g, done) == mapped)
      && (t in rest ==> Unmappable(mapped, TargetsAt(g, done + [s])) && rest - {t} == mapped - Places(g, done + [s]))
  {
    var t, ts := TargetAt(g, s), TargetsAt(g, done);
    if t !in mapped - Places(g, done) {
      StoppedUnmap(g, mapped, all, done, s);
    } else {
      PlacesSnoc(g, done, s);
      assert t !in ts by { assert t in ts ==> t in Elems(ts); }
      NoDupSnoc(ts, t);
    }
  }

  /** How a request that got through ends. */
  lemma FinishedMap(g: Geometry, mapped: set<Target>, all: seq<Spot>, failAt: nat)
    requires g.Valid() && TensorPage(g) > 0 && |all| <= failAt
    ensures MapWhole(mapped, TargetsAt(g, all), failAt) == (mapped + Places(g, all), true)
  {
  }

  lemma NothingToUnmap(mapped: set<Target>)
    ensures Unmappable(mapped, [])
  {
  }

  lemma StoppedWhole(mapped: set<Target>, ts: seq<Target>)
    ensures !Unmappable(mapped, ts) ==> UnmapWhole(mapped, ts) == (mapped, false)
  {
  }

  lemma FinishedUnmap(g: Geometry, mapped: set<Target>, all: seq<Spot>)
    requires g.Valid() && TensorPage(g) > 0 && Unmappable(mapped, TargetsAt(g, all))
    ensures UnmapWhole(mapped, TargetsAt(g, all)) == (mapped - Places(g, all), true)
  {
  }

  class FTensorAllocator {
    var g: Geometry
    var numLayers: nat
    var ftensors: seq<FTensor>

    ghost predicate Valid()
      reads this, ftensors
    {
      numLayers > 0 ==>
        && g.Valid() && Fits(g) && |ftensors| == NumTensors(g)
        && (forall i, j :: 0 <= i < j < |ftensors| ==> ftensors[i] != ftensors[j])
        && (forall i :: 0 <= i < |ftensors| ==>
          ftensors[i].Valid() && ftensors[i].pageSize == TensorPage(g) && ftensors[i].size == TensorSize(g))
    }

    /** The tensor pages with private memory. */
    ghost function Mapped(): set<Target>
      reads this, ftensors
    {
      set i: nat, p | 0 <= i < |ftensors| && p in ftensors[i].mapping :: Target(i, p)
    }

    constructor ()
      ensures Valid() && numLayers == 0 && Mapped() == {}
    {
      g, numLayers, ftensors := Geometry(Split, 1, 1, 1, 0), 0, [];
    }

    method CreateKvTensors(g: Geometry)
      requires numLayers == 0 && g.Valid() && Fits(g)
      modifies this
      ensures Valid() && this.g == g && numLayers == g.layers && Mapped() == {} && fresh(ftensors)
    {
      this.g, numLayers, ftensors := g, g.layers, [];
      var n := NumTensors(g);
      for i := 0 to n
        invariant |ftensors| == i && this.g == g && numLayers == g.layers && fresh(ftensors)
        invariant forall a, b :: 0 <= a < b < |ftensors| ==> ftensors[a] != ftensors[b]
        invariant forall a :: 0 <= a < |ftensors| ==> ftensors[a].Valid() && ftensors[a].mapping == {}
        invariant forall a :: 0 <= a < |ftensors| ==> ftensors[a].pageSize == TensorPage(g)
        invariant forall a :: 0 <= a < |ftensors| ==> ftensors[a].size == TensorSize(g)
      {
        var t := new FTensor(TensorSize(g), TensorPage(g));
        ftensors := ftensors + [t];
      }
    }

    method MapSpot(s: Spot)
      requires Valid() && numLayers > 0 && InRange(g, s)
      modifies ftensors
      ensures Valid() && Mapped() == old(Mapped()) + {TargetAt(g, s)}
    {
      ghost var before := Mapped();
      var ok := ftensors[s.tensor].Map(s.offset);
      assert forall i :: 0 <= i < |ftensors| && i != s.tensor ==> ftensors[i].mapping == old(ftensors[i].mapping);
      assert Mapped() == before + {TargetAt(g, s)};
    }

    method UnmapSpot(s: Spot) returns (ok: bool)
      requires Valid() && numLayers > 0 && OnPage(g, s)
      modifies ftensors
      ensures Valid() && Mapped() == old(Mapped()) - {TargetAt(g, s)} && ok == (TargetAt(g, s) in old(Mapped()))
      ensures ok ==> InRange(g, s)
    {
      ghost var before := Mapped();
      ok := ftensors[s.tensor].Unmap(s.offset);
      assert forall i :: 0 <= i < |ftensors| && i != s.tensor ==> ftensors[i].mapping == old(ftensors[i].mapping);
      assert Mapped() == before - {TargetAt(g, s)};
    }

    method RollbackMapped(done: seq<Spot>)
      requires Valid() && numLayers > 0 && AllInRange(g, done)
      modifies ftensors
      ensures Valid() && Mapped() == old(Mapped()) - Places(g, done)
    {
      var i := |done|;
      assert done[|done|..] == [];
      PlacesNone(g);
      while i > 0
        invariant 0 <= i <= |done|
        invariant Valid() && Mapped() == old(Mapped()) - Places(g, done[i..])
      {
        i := i - 1;
        PlacesTail(g, done, i);
        var _ := UnmapSpot(done[i]);
      }
      assert done[0..] == done;
    }

    method RollbackUnmapped(done: seq<Spot>)
      requires Valid() && numLayers > 0 && AllInRange(g, done)
      modifies ftensors
      ensures Valid() && Mapped() == old(Mapped()) + Places(g, done)
    {
      var i := |done|;
      assert done[|done|..] == [];
      PlacesNone(g);
      while i > 0
        invariant 0 <= i <= |done|
        invariant Valid() && Mapped() == old(Mapped()) + Places(g, done[i..])
      {
        i := i - 1;
        PlacesTail(g, done, i);
        MapSpot(done[i]);
      }
      assert done[0..] == done;
    }

    /** The next spot of a request `all` that has got as far as `done`, from the tensors `mapped`. */
    method MapOrRollback(s: Spot, done: seq<Spot>, failAt: nat, ghost all: seq<Spot>, ghost mapped: set<Target>)
      returns (ok: bool, done': seq<Spot>)
      requires Valid() && numLayers > 0 && AllInRange(g, all) && done + [s] <= all && |done| <= failAt
      requires Mapped() == mapped + Places(g, done)
      modifies ftensors
      ensures Valid()
      ensures ok ==> done' == done + [s] && |done'| <= failAt && Mapped() == mapped + Places(g, done')
      ensures !ok ==> failAt < |all| && (Mapped(), false) == MapWhole(mapped, TargetsAt(g, all), failAt)
    {
      hide MapWhole, InRange, AllInRange, Places, TargetsAt, TargetAt;
      NextSpot(g, all, done, s);
      MapNext(g, mapped, all, done, s);
      done' := done;
      if |done| == failAt {
        RollbackMapped(done);
        return false, done';
      }
      MapSpot(s);
      done' := done + [s];
      ok := true;
    }

    method UnmapOrRollback(s: Spot, done: seq<Spot>, ghost all: seq<Spot>, ghost mapped: set<Target>)
      returns (ok: bool, done': seq<Spot>)
      requires Valid() && numLayers > 0 && AllOnPages(g, all) && AllInRange(g, done) && done + [s] <= all
      requires Unmappable(mapped, TargetsAt(g, done)) && Mapped() == mapped - Places(g, done)
      modifies ftensors
      ensures Valid()
      ensures ok ==> done' == done + [s] && Unmappable(mapped, TargetsAt(g, done')) && AllInRange(g, done')
      ensures ok ==> Mapped() == mapped - Places(g, done')
      ensures !ok ==> !Unmappable(mapped, TargetsAt(g, all)) && Mapped() == mapped
    {
      hide InRange, AllInRange, AllOnPages, OnPage, Places, TargetsAt, TargetAt, Unmappable;
      NextOnPage(g, all, done, s);
      UnmapNext(g, mapped, all, done, s);
      done' := done;
      ok := UnmapSpot(s);
      if !ok {
        RollbackUnmapped(done);
        return false, done';
      }
      RangeSnoc(g, done, s);
      done' := done + [s];
    }

    /** The work of map_to_kv_tensors in one tensor. */
    method MapInTensor(i: nat, offsets: seq<int>, reached: seq<Spot>, failAt: nat, ghost mapped: set<Target>)
      returns (ok: bool, done: seq<Spot>)
      requires Valid() && numLayers > 0 && i < NumTensors(g) && AllInRange(g, Spots(g, offsets))
      requires reached == SpotsBelow(g, i, offsets) && |reached| <= failAt
      requires Mapped() == mapped + Places(g, reached)
      modifies ftensors
      ensures Valid()
      ensures ok ==> done == SpotsBelow(g, i + 1, offsets) && |done| <= failAt
      ensures ok ==> Mapped() == mapped + Places(g, done)
      ensures !ok ==> failAt < |Spots(g, offsets)|
      ensures !ok ==> (Mapped(), false) == MapWhole(mapped, TargetsAt(g, Spots(g, offsets)), failAt)
    {
      hide MapWhole, SpotsBelow, LayerSpots, Spots, Reached, InRange, AllInRange, Places, TargetsAt, TargetAt, VBase;
      ghost var all := Spots(g, offsets);
      done := reached;
      ReachedLayer(g, i, offsets);
      for j := 0 to |offsets|
        invariant Valid() && done == Reached(g, i, offsets, j) && |done| <= failAt
        invariant Mapped() == mapped + Places(g, done)
      {
        var offset := offsets[j];
        KThenV(g, i, offsets, j);
        var k := Spot(i, offset);
        ok, done := MapOrRollback(k, done, failAt, all, mapped);
        if !ok {
          return;
        }
        if g.layout.Split? {
          var v := Spot(i, offset + VBase(g));
          ok, done := MapOrRollback(v, done, failAt, all, mapped);
          if !ok {
            return;
          }
        }
      }
      ok := true;
    }

    method MapToKvTensors(offsets: seq<int>, failAt: nat) returns (ok: bool)
      requires Valid() && (numLayers > 0 ==> AllInRange(g, Spots(g, offsets)))
      modifies ftensors
      ensures Valid()
      ensures numLayers == 0 ==> !ok && Mapped() == old(Mapped())
      ensures numLayers > 0 ==> (Mapped(), ok) == MapWhole(old(Mapped()), TargetsAt(g, Spots(g, offsets)), failAt)
    {
      if numLayers == 0 {
        return false;
      }
      hide LayerSpots, InRange, AllInRange, TargetsAt, TargetAt, VBase, MapWhole, UnmapWhole, Unmappable, Places;
      ghost var mapped := Mapped();
      var done := [];
      PlacesNone(g);
      var n := NumTensors(g);
      for i := 0 to n
        invariant Valid() && done == SpotsBelow(g, i, offsets) && |done| <= failAt
        invariant Mapped() == mapped + Places(g, done)
      {
        ok, done := MapInTensor(i, offsets, done, failAt, mapped);
        if !ok {
          return;
        }
      }
      FinishedMap(g, mapped, done, failAt);
      ok := true;
    }

    /** The work of unmap_from_kv_tensors in one tensor. */
    method UnmapInTensor(i: nat, offsets: seq<int>, reached: seq<Spot>, ghost mapped: set<Target>)
      returns (ok: bool, done: seq<Spot>)
      requires Valid() && numLayers > 0 && i < NumTensors(g) && AllOnPages(g, Spots(g, offsets))
      requires reached == SpotsBelow(g, i, offsets) && Unmappable(mapped, TargetsAt(g, reached))
      requires Mapped() == mapped - Places(g, reached) && AllInRange(g, reached)
      modifies ftensors
      ensures Valid()
      ensures ok ==> done == SpotsBelow(g, i + 1, offsets) && Unmappable(mapped, TargetsAt(g, done))
      ensures ok ==> Mapped() == mapped - Places(g, done) && AllInRange(g, done)
      ensures !ok ==> !Unmappable(mapped, TargetsAt(g, Spots(g, offsets))) && Mapped() == mapped
    {
      hide SpotsBelow, LayerSpots, Spots, Reached, InRange, AllInRange, AllOnPages, OnPage, Places, TargetsAt,
        TargetAt, VBase, Unmappable;
      ghost var all := Spots(g, offsets);
      done := reached;
      ReachedLayer(g, i, offsets);
      for j := 0 to |offsets|
        invariant Valid() && done == Reached(g, i, offsets, j) && Unmappable(mapped, TargetsAt(g, done))
        invariant Mapped() == mapped - Places(g, done) && AllInRange(g, done)
      {
        var offset := offsets[j];
        KThenV(g, i, offsets, j);
        var k := Spot(i, offset);
        ok, done := UnmapOrRollback(k, done, all, mapped);
        if !ok {
          return;
        }
        if g.layout.Split? {
          var v := Spot(i, offset + VBase(g));
          ok, done := UnmapOrRollback(v, done, all, mapped);
          if !ok {
            return;
          }
        }
      }
      ok := true;
    }

    method UnmapFromKvTensors(offsets: seq<int>) returns (ok: bool)
      requires Valid() && (numLayers > 0 ==> AllOnPages(g, Spots(g, offsets)))
      modifies ftensors
      ensures Valid()
      ensures numLayers == 0 ==> !ok && Mapped() == old(Mapped())
      ensures numLayers > 0 ==> (Mapped(), ok) == UnmapWhole(old(Mapped()), TargetsAt(g, Spots(g, offsets)))
    {
      if numLayers == 0 {
        return false;
      }
      hide LayerSpots, InRange, TargetsAt, TargetAt, VBase, MapWhole, UnmapWhole, Unmappable, Places;
      ghost var mapped := Mapped();
      var done := [];
      PlacesNone(g);
      NothingToUnmap(mapped);
      assert AllInRange(g, done);
      hide AllInRange, AllOnPages, OnPage;
      var n := NumTensors(g);
      for i := 0 to n
        invariant Valid() && done == SpotsBelow(g, i, offsets) && Unmappable(mapped, TargetsAt(g, done))
        invariant Mapped() == mapped - Places(g, done) && AllInRange(g, done)
      {
        StoppedWhole(mapped, TargetsAt(g, Spots(g, offsets)));
        ok, done := UnmapInTensor(i, offsets, done, mapped);
        if !ok {
          return;
        }
      }
      FinishedUnmap(g, mapped, done);
      ok := true;
    }
  }
}
