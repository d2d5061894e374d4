/** Where the bytes of a block lie in the KV tensors. A tensor view puts the blocks one after the other; the
    contiguous layout gives every block the share of all layers and both buffers, the split one keeps V half a
    tensor above K. */
module BlockBytes {
  import opened BlockMath
  import opened Layouts
  import opened PageLists

  /** Copies of a block's size that one tensor holds. */
  function Shares(g: Geometry): nat {
    if g.layout.Contiguous? then g.layers * g.buffers else 1
  }

  predicate Within(g: Geometry, z: Sizes, b: int, y: int) {
    b * z.block * Shares(g) <= y < (b + 1) * z.block * Shares(g)
  }

  /** Byte y of a tensor belongs to block b. */
  predicate ByteOf(g: Geometry, z: Sizes, b: int, y: int)
    requires g.Valid()
  {
    Within(g, z, b, y) || (g.layout.Split? && Within(g, z, b, y - VBase(g)))
  }

  lemma TensorPageShares(g: Geometry)
    ensures TensorPage(g) == g.page * Shares(g)
  {
    if g.layout.Contiguous? { Reassociate(g.page, g.layers, g.buffers); }
  }

  lemma SharesPositive(g: Geometry)
    requires g.Valid()
    ensures Shares(g) > 0
  {
    if g.layout.Contiguous? { MulMonotone(1, g.layers, g.buffers); }
  }

  /** The bytes of a block lie within the tensor page of its page. */
  lemma WithinItsPage(g: Geometry, z: Sizes, b: int, y: int)
    requires g.Valid() && z.Valid() && g.page == z.page && TensorPage(g) > 0 && Within(g, z, b, y)
    requires PageOf(z, b) >= 0 && Owns(z, PageOf(z, b), b)
    ensures y / TensorPage(g) == PageOf(z, b)
  {
    var p, k := PageOf(z, b), Shares(g);
    OwnsIffInside(z, p, b);
    hide PageOf, Owns;
    SharesPositive(g);
    TensorPageShares(g);
    MulMonotone(p * z.page, b * z.block, k);
    MulMonotone((b + 1) * z.block, (p + 1) * z.page, k);
    Reassociate(p, z.page, k);
    Reassociate(p + 1, z.page, k);
    Reassociate(b, z.block, k);
    Distribute(p, 1, TensorPage(g));
    assert p * TensorPage(g) <= y < p * TensorPage(g) + TensorPage(g);
    QuotientIs(y, TensorPage(g), p);
  }

  lemma ShiftedByHalf(g: Geometry, y: int)
    requires g.Valid() && Fits(g) && g.layout.Split?
    ensures y / g.page == (y - VBase(g)) / g.page + Half(g)
  {
    VBaseIsHalf(g);
    ShiftedQuotient(y, g.page, Half(g));
    hide VBase, Half, Fits;
  }

  lemma ShiftedQuotient(y: int, d: nat, h: nat)
    requires d > 0
    ensures y / d == (y - h * d) / d + h
  {
    var q := (y - h * d) / d;
    Quotient(y - h * d, d);
    Distribute(q, h, d);
    Distribute(q + h, 1, d);
    QuotientIs(y, d, q + h);
  }

  /** Every byte of a block lies in a tensor page of the block's page. */
  lemma BytesInTargets(g: Geometry, z: Sizes, b: int, i: nat, y: int)
    requires g.Valid() && Fits(g) && z.Valid() && g.page == z.page && i < NumTensors(g) && ByteOf(g, z, b, y)
    requires PageOf(z, b) >= 0 && Owns(z, PageOf(z, b), b)
    ensures For(g, Target(i, y / TensorPage(g)), PageOf(z, b))
  {
    hide PageOf, Owns, Fits;
    if Within(g, z, b, y) {
      WithinItsPage(g, z, b, y);
    } else {
      WithinItsPage(g, z, b, y - VBase(g));
      ShiftedByHalf(g, y);
    }
  }

  lemma WithinOrdered(g: Geometry, z: Sizes, a: int, b: int, y: int)
    requires a < b && Within(g, z, a, y)
    ensures !Within(g, z, b, y)
  {
    MulMonotone(a + 1, b, z.block);
    MulMonotone((a + 1) * z.block, b * z.block, Shares(g));
  }

  /** Below the region's page count different blocks share no byte of any tensor, K or V. */
  lemma BytesApart(g: Geometry, z: Sizes, a: int, b: int, y: int)
    requires g.Valid() && Fits(g) && z.Valid() && g.page == z.page && a != b
    requires 0 <= PageOf(z, a) < Region(g) && Owns(z, PageOf(z, a), a)
    requires 0 <= PageOf(z, b) < Region(g) && Owns(z, PageOf(z, b), b)
    ensures !(ByteOf(g, z, a, y) && ByteOf(g, z, b, y))
  {
    if ByteOf(g, z, a, y) && ByteOf(g, z, b, y) {
      NotBothWithin(g, z, a, b, y);
      if g.layout.Split? {
        NotBothWithin(g, z, a, b, y - VBase(g));
        KNotV(g, z, a, b, y);
        KNotV(g, z, b, a, y);
      }
    }
  }

  lemma NotBothWithin(g: Geometry, z: Sizes, a: int, b: int, y: int)
    requires a != b
    ensures !(Within(g, z, a, y) && Within(g, z, b, y))
  {
    if Within(g, z, a, y) && Within(g, z, b, y) {
      if a < b { WithinOrdered(g, z, a, b, y); } else { WithinOrdered(g, z, b, a, y); }
    }
  }

  lemma KNotV(g: Geometry, z: Sizes, a: int, b: int, y: int)
    requires g.Valid() && Fits(g) && z.Valid() && g.page == z.page && g.layout.Split?
    requires 0 <= PageOf(z, a) < Region(g) && Owns(z, PageOf(z, a), a)
    requires 0 <= PageOf(z, b) < Region(g) && Owns(z, PageOf(z, b), b)
    ensures !(Within(g, z, a, y) && Within(g, z, b, y - VBase(g)))
  {
    if Within(g, z, a, y) && Within(g, z, b, y - VBase(g)) {
      hide PageOf, Owns, Fits;
      WithinItsPage(g, z, a, y);
      WithinItsPage(g, z, b, y - VBase(g));
      ShiftedByHalf(g, y);
    }
  }

  // ---- pages that have no room -----------------------------------------------------------------------

  predicate InTensor(g: Geometry, t: Target)
    requires g.Valid()
  {
    0 <= t.page * TensorPage(g) && (t.page + 1) * TensorPage(g) <= TensorSize(g)
  }

  lemma PagesOfTensor(g: Geometry)
    requires g.Valid() && Fits(g)
    ensures var last := if g.layout.Split? then 2 * Half(g) else Region(g);
      TensorSize(g) == last * TensorPage(g)
  {
    if g.layout.Split? {
      VBaseIsHalf(g);
      Reassociate(2, Half(g), g.page);
    } else {
      Quotient(TensorSize(g), TensorPage(g));
    }
  }

  lemma PastTheEnd(last: nat, q: nat, d: nat)
    requires q >= last && d > 0
    ensures (q + 1) * d > last * d
  {
    MulMonotone(last, q, d);
    Distribute(q, 1, d);
  }

  lemma BeyondRegion(g: Geometry, p: PageId) returns (t: Target)
    requires g.Valid() && Fits(g) && p >= Region(g) && p >= 0
    ensures For(g, t, p) && !InTensor(g, t)
  {
    PagesOfTensor(g);
    var q: nat := if g.layout.Split? then p + Half(g) else p;
    t := Target(0, q);
    PastTheEnd(if g.layout.Split? then 2 * Half(g) else Region(g), q, TensorPage(g));
    hide TensorSize, TensorPage, Half, Fits;
  }

  /** In every layout a page id has room in the tensors exactly when it is below the region's page count: beyond
      it some tensor page it asks for lies outside the tensor. */
  lemma RoomIff(g: Geometry, p: PageId)
    requires g.Valid() && Fits(g) && p >= 0
    ensures (forall t :: For(g, t, p) ==> InTensor(g, t)) <==> p < Region(g)
  {
    if p < Region(g) {
      Injective(g, p, p);
    } else {
      var t := BeyondRegion(g, p);
    }
  }
}
