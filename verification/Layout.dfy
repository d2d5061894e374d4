/** Where a page lands in the KV tensors, in each of the three layouts. */
module Layouts {
  import opened BlockMath
  import opened Seqs
  import opened PageLists

  datatype Layout = Contiguous | Unified | Split

  /** size is the number of bytes create_kv_tensors is asked for, per layer; buffers is 2 for K and V, 1 when
      they are combined. */
  datatype Geometry = Geometry(layout: Layout, page: nat, layers: nat, buffers: nat, size: nat) {
    predicate Valid() { page > 0 && layers > 0 && buffers > 0 }
  }

  function Aligned(g: Geometry): nat
    requires g.Valid()
  {
    Quotient(g.size + g.page - 1, g.page);
    if g.size % g.page != 0 then ((g.size + g.page - 1) / g.page) * g.page else g.size
  }

  function NumTensors(g: Geometry): nat {
    if g.layout.Contiguous? then 1 else g.layers
  }

  /** In the contiguous layout one compound page carries every layer's share of a page. */
  function TensorPage(g: Geometry): nat {
    if g.layout.Contiguous? then g.page * g.layers * g.buffers else g.page
  }

  function TensorSize(g: Geometry): nat
    requires g.Valid()
  {
    if g.layout.Contiguous? then Aligned(g) * g.layers else Aligned(g)
  }

  function VBase(g: Geometry): nat
    requires g.Valid()
  {
    TensorSize(g) / 2
  }

  /** What the source asserts of the sizes: the zero page tiles the tensor, and K and V halves are whole pages. */
  predicate Fits(g: Geometry)
    requires g.Valid()
  {
    && TensorPage(g) > 0 && TensorSize(g) % TensorPage(g) == 0
    && (g.layout.Split? ==> TensorSize(g) % (2 * g.page) == 0)
  }

  /** Pages between the K and the V part of a split tensor. */
  function Half(g: Geometry): nat
    requires g.Valid()
  {
    Quotient(VBase(g), g.page);
    VBase(g) / g.page
  }

  /** How many page ids have room: the K part only, in a split tensor. */
  function Region(g: Geometry): nat
    requires g.Valid() && Fits(g)
  {
    Quotient(TensorSize(g), TensorPage(g));
    if g.layout.Split? then Half(g) else TensorSize(g) / TensorPage(g)
  }

  // ---- sizes -----------------------------------------------------------------------------------------

  /** The size used is the least multiple of the page size that covers the request. */
  lemma AlignedIsLeast(g: Geometry)
    requires g.Valid()
    ensures Aligned(g) % g.page == 0 && g.size <= Aligned(g) < g.size + g.page
  {
    var q := (g.size + g.page - 1) / g.page;
    Quotient(g.size + g.page - 1, g.page);
    if g.size % g.page != 0 {
      MultipleQuotient(q, g.page, 1);
      MultipleMod(q, g.page);
      FloorAbove(g.size + g.page - 1, g.page, q);
    }
  }

  lemma MultipleMod(q: nat, d: nat)
    requires d > 0
    ensures (q * d) % d == 0 && (q * d) / d == q
  {
    QuotientIs(q * d, d, q);
    assert q * d == ((q * d) / d) * d + (q * d) % d;
  }

  /** Divisibility by a product, one factor at a time. */
  lemma DividesProduct(n: nat, d: nat, k: nat)
    requires d > 0 && k > 0
    ensures d * k > 0 && ((n * d) % (k * d) == 0 <==> n % k == 0)
  {
    var q, r := n / k, n % k;
    assert n == q * k + r;
    Distribute(q * k, r, d);
    Reassociate(q, k, d);
    assert n * d == q * (k * d) + r * d;
    if r == 0 {
      MultipleMod(q, k * d);
    } else {
      MulMonotone(1, r, d);
      MulMonotone(r + 1, k, d);
      Distribute(r, 1, d);
      assert 0 < r * d < k * d;
      RemainderIs(n * d, k * d, q, r * d);
    }
  }

  lemma RemainderIs(x: nat, d: nat, q: nat, r: nat)
    requires d > 0 && x == q * d + r && r < d
    ensures x % d == r && x / d == q
  {
    QuotientIs(x, d, q);
    assert x == (x / d) * d + x % d;
  }

  /** Rounding the size up to one page is enough for the unified layout only: the others need the number of
      pages to be a multiple of the number of buffers, or even. */
  lemma FitsIff(g: Geometry)
    requires g.Valid()
    ensures Fits(g) <==> match g.layout
      case Unified => true
      case Split => (Aligned(g) / g.page) % 2 == 0
      case Contiguous => (Aligned(g) / g.page) % g.buffers == 0
  {
    AlignedIsLeast(g);
    var n := Aligned(g) / g.page;
    assert Aligned(g) == n * g.page;
    Quotient(Aligned(g), g.page);
    match g.layout {
      case Unified =>
      case Split => DividesProduct(n, g.page, 2);
      case Contiguous =>
        MulMonotone(1, g.layers, g.page);
        var d := g.page * g.layers;
        assert d > 0;
        Reassociate(n, g.page, g.layers);
        assert TensorSize(g) == n * d;
        DividesProduct(n, d, g.buffers);
        assert g.buffers * d == d * g.buffers == TensorPage(g);
    }
  }

  // ---- offsets and targets ---------------------------------------------------------------------------

  /** map_pages: the byte offset a page id is sent as. */
  function OffsetOf(g: Geometry, p: PageId): int {
    if g.layout.Contiguous? then p * g.page * g.layers * g.buffers else p * g.page
  }

  function Offsets(g: Geometry, ps: seq<PageId>): (os: seq<int>)
    ensures |os| == |ps|
  {
    seq(|ps|, i requires 0 <= i < |ps| => OffsetOf(g, ps[i]))
  }

  lemma OffsetIsMultiple(g: Geometry, p: PageId)
    ensures OffsetOf(g, p) == p * TensorPage(g)
  {
    if g.layout.Contiguous? {
      Reassociate(p, g.page, g.layers);
      Reassociate(p, g.page * g.layers, g.buffers);
    }
  }

  /** A byte offset in one of the tensors, and a page of one of the tensors. */
  datatype Spot = Spot(tensor: nat, offset: int)
  datatype Target = Target(tensor: nat, page: int)

  function SpotsAt(g: Geometry, i: nat, offset: int): seq<Spot>
    requires g.Valid()
  {
    if g.layout.Split? then [Spot(i, offset), Spot(i, offset + VBase(g))] else [Spot(i, offset)]
  }

  function LayerSpots(g: Geometry, i: nat, offsets: seq<int>): seq<Spot>
    requires g.Valid()
  {
    if offsets == [] then []
    else LayerSpots(g, i, offsets[..|offsets| - 1]) + SpotsAt(g, i, offsets[|offsets| - 1])
  }

  function SpotsBelow(g: Geometry, n: nat, offsets: seq<int>): seq<Spot>
    requires g.Valid()
  {
    if n == 0 then [] else SpotsBelow(g, n - 1, offsets) + LayerSpots(g, n - 1, offsets)
  }

  /** The order in which map_to_kv_tensors and unmap_from_kv_tensors go through the tensors. */
  function Spots(g: Geometry, offsets: seq<int>): seq<Spot>
    requires g.Valid()
  {
    SpotsBelow(g, NumTensors(g), offsets)
  }

  function TargetAt(g: Geometry, s: Spot): Target
    requires g.Valid() && TensorPage(g) > 0
  {
    Target(s.tensor, s.offset / TensorPage(g))
  }

  function TargetsAt(g: Geometry, spots: seq<Spot>): (ts: seq<Target>)
    requires g.Valid() && TensorPage(g) > 0
    ensures |ts| == |spots|
  {
    seq(|spots|, i requires 0 <= i < |spots| => TargetAt(g, spots[i]))
  }

  // The same in pages.

  function PageTargets(g: Geometry, i: nat, p: PageId): seq<Target>
    requires g.Valid()
  {
    if g.layout.Split? then [Target(i, p), Target(i, p + Half(g))] else [Target(i, p)]
  }

  function LayerTargets(g: Geometry, i: nat, ps: seq<PageId>): seq<Target>
    requires g.Valid()
  {
    if ps == [] then [] else LayerTargets(g, i, ps[..|ps| - 1]) + PageTargets(g, i, ps[|ps| - 1])
  }

  function TargetsBelow(g: Geometry, n: nat, ps: seq<PageId>): seq<Target>
    requires g.Valid()
  {
    if n == 0 then [] else TargetsBelow(g, n - 1, ps) + LayerTargets(g, n - 1, ps)
  }

  function Targets(g: Geometry, ps: seq<PageId>): seq<Target>
    requires g.Valid()
  {
    TargetsBelow(g, NumTensors(g), ps)
  }

  lemma VBaseIsHalf(g: Geometry)
    requires g.Valid() && Fits(g) && g.layout.Split?
    ensures VBase(g) == Half(g) * g.page && TensorSize(g) == 2 * VBase(g)
  {
    var n := TensorSize(g) / (2 * g.page);
    assert TensorSize(g) == n * (2 * g.page);
    Reassociate(n, 2, g.page);
    Reassociate(2, n, g.page);
    assert TensorSize(g) == 2 * (n * g.page);
    MultipleMod(n, g.page);
  }

  lemma SpotTarget(g: Geometry, i: nat, p: PageId)
    requires g.Valid() && Fits(g)
    ensures TargetsAt(g, SpotsAt(g, i, OffsetOf(g, p))) == PageTargets(g, i, p)
  {
    OffsetIsMultiple(g, p);
    MultipleDiv(p, TensorPage(g));
    if g.layout.Split? {
      VBaseIsHalf(g);
      Distribute(p, Half(g), g.page);
      MultipleDiv(p + Half(g), g.page);
    }
  }

  lemma MultipleDiv(p: int, d: nat)
    requires d > 0
    ensures (p * d) / d == p && (p * d) % d == 0
  {
    FloorAbove(p * d, d, p);
    FloorAbove(p * d, d, p + 1);
    MulMonotone(p, p, d);
    Distribute(p, 1, d);
    assert p * d == ((p * d) / d) * d + (p * d) % d;
  }

  lemma TargetsAtConcat(g: Geometry, a: seq<Spot>, b: seq<Spot>)
    requires g.Valid() && TensorPage(g) > 0
    ensures TargetsAt(g, a + b) == TargetsAt(g, a) + TargetsAt(g, b)
  {
  }

  lemma {:induction false} LayerSpotTargets(g: Geometry, i: nat, ps: seq<PageId>)
    requires g.Valid() && Fits(g)
    ensures TargetsAt(g, LayerSpots(g, i, Offsets(g, ps))) == LayerTargets(g, i, ps)
  {
    hide TargetsAt, SpotsAt, PageTargets, OffsetOf, Fits;
    if ps != [] {
      var front := ps[..|ps| - 1];
      assert Offsets(g, ps)[..|ps| - 1] == Offsets(g, front);
      LayerSpotTargets(g, i, front);
      SpotTarget(g, i, ps[|ps| - 1]);
      TargetsAtConcat(g, LayerSpots(g, i, Offsets(g, front)), SpotsAt(g, i, OffsetOf(g, ps[|ps| - 1])));
    }
  }

  lemma {:induction false} BelowSpotTargets(g: Geometry, n: nat, ps: seq<PageId>)
    requires g.Valid() && Fits(g)
    ensures TargetsAt(g, SpotsBelow(g, n, Offsets(g, ps))) == TargetsBelow(g, n, ps)
  {
    hide TargetsAt, LayerSpots, LayerTargets, Offsets, TensorSize;
    if n > 0 {
      BelowSpotTargets(g, n - 1, ps);
      LayerSpotTargets(g, n - 1, ps);
      TargetsAtConcat(g, SpotsBelow(g, n - 1, Offsets(g, ps)), LayerSpots(g, n - 1, Offsets(g, ps)));
    }
  }

  /** The byte offsets map_pages computes reach exactly the tensor pages meant for those page ids. */
  lemma OffsetsReachTargets(g: Geometry, ps: seq<PageId>)
    requires g.Valid() && Fits(g)
    ensures TargetsAt(g, Spots(g, Offsets(g, ps))) == Targets(g, ps)
  {
    BelowSpotTargets(g, NumTensors(g), ps);
  }

  // ---- injectivity -----------------------------------------------------------------------------------

  /** Tensor page t belongs to page p: as its K part or, in a split tensor, as its V part. */
  predicate For(g: Geometry, t: Target, p: PageId)
    requires g.Valid()
  {
    t.tensor < NumTensors(g) && (t.page == p || (g.layout.Split? && t.page == p + Half(g)))
  }

  lemma {:induction false} LayerMembers(g: Geometry, i: nat, ps: seq<PageId>, t: Target)
    requires g.Valid()
    ensures t in LayerTargets(g, i, ps)
       <==> t.tensor == i && (t.page in ps || (g.layout.Split? && t.page - Half(g) in ps))
  {
    if ps != [] {
      var front := ps[..|ps| - 1];
      assert ps == front + [ps[|ps| - 1]];
      LayerMembers(g, i, front, t);
    }
  }

  lemma {:induction false} BelowMembers(g: Geometry, n: nat, ps: seq<PageId>, t: Target)
    requires g.Valid()
    ensures t in TargetsBelow(g, n, ps)
       <==> t.tensor < n && (t.page in ps || (g.layout.Split? && t.page - Half(g) in ps))
  {
    hide LayerTargets, Half;
    if n > 0 {
      BelowMembers(g, n - 1, ps, t);
      LayerMembers(g, n - 1, ps, t);
    }
  }

  /** The tensor pages reached are those of the page ids given. */
  lemma TargetsAreTheirs(g: Geometry, ps: seq<PageId>, t: Target)
    requires g.Valid()
    ensures t in Targets(g, ps) <==> exists p :: p in ps && For(g, t, p)
  {
    BelowMembers(g, NumTensors(g), ps, t);
    if t in Targets(g, ps) {
      assert t.page in ps ==> For(g, t, t.page);
      assert g.layout.Split? && t.page - Half(g) in ps ==> For(g, t, t.page - Half(g));
    }
  }

  /** Two pages share a tensor page exactly when they are one page or, in a split tensor, exactly half a
      tensor apart: then the V part of one is the K part of the other. */
  lemma ShareIff(g: Geometry, p: PageId, q: PageId)
    requires g.Valid()
    ensures (exists t :: For(g, t, p) && For(g, t, q))
       <==> p == q || (g.layout.Split? && (p == q + Half(g) || q == p + Half(g)))
  {
    assert NumTensors(g) > 0;
    if p == q || (g.layout.Split? && p == q + Half(g)) {
      assert For(g, Target(0, p), p) && For(g, Target(0, p), q);
    } else if g.layout.Split? && q == p + Half(g) {
      assert For(g, Target(0, q), p) && For(g, Target(0, q), q);
    }
  }

  /** Below the region's page count every tensor page reached is aligned and in range, and different page ids
      reach different ones. */
  lemma Injective(g: Geometry, p: PageId, q: PageId)
    requires g.Valid() && Fits(g) && 0 <= p < Region(g) && 0 <= q < Region(g)
    ensures forall t :: For(g, t, p) ==> 0 <= t.page * TensorPage(g) && (t.page + 1) * TensorPage(g) <= TensorSize(g)
    ensures p != q ==> forall t :: !(For(g, t, p) && For(g, t, q))
  {
    var last := TensorSize(g) / TensorPage(g);
    assert TensorSize(g) == last * TensorPage(g);
    if g.layout.Split? {
      VBaseIsHalf(g);
      Reassociate(2, Half(g), g.page);
      MultipleDiv(2 * Half(g), g.page);
      assert last == 2 * Half(g);
    }
    forall t | For(g, t, p)
      ensures 0 <= t.page * TensorPage(g) && (t.page + 1) * TensorPage(g) <= TensorSize(g)
    {
      assert 0 <= t.page < last;
      MulMonotone(0, t.page, TensorPage(g));
      MulMonotone(t.page + 1, last, TensorPage(g));
    }
  }

  /** The K part of p is the V part of q. */
  predicate Meet(g: Geometry, p: PageId, q: PageId)
    requires g.Valid()
  {
    g.layout.Split? && p == q + Half(g)
  }

  ghost predicate Apart(g: Geometry, ps: seq<PageId>)
    requires g.Valid()
  {
    NoDup(ps) && forall p, q :: p in ps && q in ps ==> !Meet(g, p, q)
  }

  lemma ApartGrows(g: Geometry, ps: seq<PageId>, p: PageId)
    requires g.Valid()
    ensures Apart(g, ps + [p]) <==> Apart(g, ps) && p !in ps && !Meet(g, p, p)
                                    && forall q :: q in ps ==> !Meet(g, p, q) && !Meet(g, q, p)
  {
    hide Meet;
    NoDupApart(ps, [p]);
    assert forall q :: q in ps + [p] <==> q in ps || q == p;
  }

  lemma PairNoDup(g: Geometry, i: nat, p: PageId)
    requires g.Valid()
    ensures NoDup(PageTargets(g, i, p)) <==> !Meet(g, p, p)
  {
    if g.layout.Split? && Half(g) == 0 {
      assert PageTargets(g, i, p)[0] == PageTargets(g, i, p)[1];
    }
  }

  lemma LastApart(g: Geometry, i: nat, ps: seq<PageId>, p: PageId)
    requires g.Valid()
    ensures (forall t :: t in LayerTargets(g, i, ps) ==> t !in PageTargets(g, i, p))
       <==> p !in ps && forall q :: q in ps ==> !Meet(g, p, q) && !Meet(g, q, p)
  {
    LayerMembers(g, i, ps, Target(i, p));
    LayerMembers(g, i, ps, Target(i, p + Half(g)));
    assert forall t :: t in PageTargets(g, i, p) <==>
      t == Target(i, p) || (g.layout.Split? && t == Target(i, p + Half(g)));
    hide Half, LayerTargets, PageTargets;
    if p !in ps && forall q :: q in ps ==> !Meet(g, p, q) && !Meet(g, q, p) {
      forall t | t in LayerTargets(g, i, ps) ensures t !in PageTargets(g, i, p) {
        LayerMembers(g, i, ps, t);
        if g.layout.Split? {
          assert p - Half(g) in ps ==> Meet(g, p, p - Half(g));
          assert p + Half(g) in ps ==> Meet(g, p + Half(g), p);
        }
      }
    }
  }

  lemma {:induction false} LayerNoDup(g: Geometry, i: nat, ps: seq<PageId>)
    requires g.Valid()
    ensures NoDup(LayerTargets(g, i, ps)) <==> Apart(g, ps)
  {
    hide Half, PageTargets, Apart, Meet;
    if ps != [] {
      var front, last := ps[..|ps| - 1], ps[|ps| - 1];
      assert ps == front + [last];
      LayerNoDup(g, i, front);
      NoDupApart(LayerTargets(g, i, front), PageTargets(g, i, last));
      PairNoDup(g, i, last);
      LastApart(g, i, front, last);
      ApartGrows(g, front, last);
    } else {
      NothingApart(g);
    }
  }

  lemma NothingApart(g: Geometry)
    requires g.Valid()
    ensures Apart(g, [])
  {
  }

  lemma {:induction false} BelowNoDup(g: Geometry, n: nat, ps: seq<PageId>)
    requires g.Valid()
    ensures NoDup(TargetsBelow(g, n, ps)) <==> n == 0 || Apart(g, ps)
  {
    hide Half, LayerTargets, Apart;
    if n > 0 {
      BelowNoDup(g, n - 1, ps);
      LayerNoDup(g, n - 1, ps);
      var below, layer := TargetsBelow(g, n - 1, ps), LayerTargets(g, n - 1, ps);
      NoDupApart(below, layer);
      forall t | t in below ensures t !in layer {
        BelowMembers(g, n - 1, ps, t);
        LayerMembers(g, n - 1, ps, t);
      }
    }
  }

  /** A request repeats a tensor page exactly when its page ids repeat or clash. */
  lemma TargetsDistinctIff(g: Geometry, ps: seq<PageId>)
    requires g.Valid()
    ensures NoDup(Targets(g, ps)) <==> Apart(g, ps)
  {
    BelowNoDup(g, NumTensors(g), ps);
  }
}
