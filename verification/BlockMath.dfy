/** Block and page arithmetic. A page of pageSize bytes owns the blocks of blockSize bytes that lie
    wholly inside it; ids count from the start of the tensor. */
module BlockMath {

  /** Block size and page size in bytes: the only facts the arithmetic needs is that they are positive. */
  datatype Sizes = Sizes(page: nat, block: nat) {
    predicate Valid() { page > 0 && block > 0 }
  }

  function StartBlock(z: Sizes, pid: nat): int
    requires z.Valid()
  {
    (pid * z.page + z.block - 1) / z.block
  }

  function EndBlock(z: Sizes, pid: nat): int
    requires z.Valid()
  {
    ((pid + 1) * z.page) / z.block
  }

  /** get_page_id: C++ division truncates toward zero. */
  function PageOf(z: Sizes, block: int): int
    requires z.Valid()
  {
    if block >= 0 then (block * z.block) / z.page else -((-block * z.block) / z.page)
  }

  function BlocksPerPage(z: Sizes): nat
    requires z.Valid()
  {
    Quotient(z.page, z.block);
    z.page / z.block
  }

  predicate Owns(z: Sizes, pid: nat, block: int)
    requires z.Valid()
  {
    StartBlock(z, pid) <= block < EndBlock(z, pid)
  }

  /** The indices that belong to page id, in order: one entry of group_indices_by_page. */
  function Group(z: Sizes, indices: seq<int>, id: int): seq<int>
    requires z.Valid()
  {
    if indices == [] then []
    else
      var rest := Group(z, indices[..|indices| - 1], id);
      if PageOf(z, indices[|indices| - 1]) == id then rest + [indices[|indices| - 1]] else rest
  }

  // Division facts: everything else is linear in the products they name.

  lemma Quotient(x: int, d: int)
    requires d > 0
    ensures d * (x / d) <= x < d * (x / d) + d
    ensures x >= 0 ==> x / d >= 0
  {
  }

  lemma MulMonotone(a: int, b: int, d: int)
    requires a <= b && d >= 0
    ensures a * d <= b * d
  {
  }

  lemma Distribute(a: int, b: int, d: int)
    ensures (a + b) * d == a * d + b * d
  {
  }

  lemma Reassociate(a: int, b: int, d: int)
    ensures a * (b * d) == (a * b) * d
  {
  }

  lemma FloorAbove(x: int, d: int, q: int)
    requires d > 0
    ensures q <= x / d <==> q * d <= x
  {
    Quotient(x, d);
    if q <= x / d {
      MulMonotone(q, x / d, d);
    } else {
      MulMonotone(x / d + 1, q, d);
    }
  }

  lemma QuotientIs(x: int, d: int, q: int)
    requires d > 0 && q * d <= x < (q + 1) * d
    ensures x / d == q
  {
    FloorAbove(x, d, q);
    FloorAbove(x, d, q + 1);
  }

  /** A page owns exactly the blocks whose bytes lie between the page's first and last byte. */
  lemma OwnsIffInside(z: Sizes, pid: nat, block: int)
    requires z.Valid()
    ensures Owns(z, pid, block) <==> pid * z.page <= block * z.block && (block + 1) * z.block <= (pid + 1) * z.page
    ensures Owns(z, pid, block) ==> block >= 0
  {
    FloorAbove(pid * z.page + z.block - 1, z.block, block + 1);
    FloorAbove((pid + 1) * z.page, z.block, block + 1);
    assert (block + 1) * z.block == block * z.block + z.block;
    if block < 0 {
      MulMonotone(block, -1, z.block);
      MulMonotone(0, pid, z.page);
    }
  }

  /** get_page_id sends every block of a page back to that page. */
  lemma PageOfOwned(z: Sizes, pid: nat, block: int)
    requires z.Valid() && Owns(z, pid, block)
    ensures block >= 0 && PageOf(z, block) == pid
  {
    OwnsIffInside(z, pid, block);
    assert (block + 1) * z.block == block * z.block + z.block;
    QuotientIs(block * z.block, z.page, pid);
  }

  /** No block belongs to two pages. */
  lemma OwnerUnique(z: Sizes, p: nat, q: nat, block: int)
    requires z.Valid() && Owns(z, p, block) && Owns(z, q, block)
    ensures p == q
  {
    PageOfOwned(z, p, block);
    PageOfOwned(z, q, block);
  }

  /** Ranges of later pages start no earlier than the ranges of earlier pages end, even where a range is empty. */
  lemma RangesOrdered(z: Sizes, p: nat, q: nat)
    requires z.Valid() && p < q
    ensures EndBlock(z, p) <= StartBlock(z, q)
  {
    MulMonotone(p + 1, q, z.page);
    Quotient((p + 1) * z.page, z.block);
    FloorAbove(q * z.page + z.block - 1, z.block, EndBlock(z, p));
    assert EndBlock(z, p) * z.block == z.block * EndBlock(z, p);
  }

  /** A block crosses no page boundary when its first and last byte fall in the same page. */
  predicate Straddles(z: Sizes, block: nat)
    requires z.Valid()
  {
    (block * z.block) / z.page != ((block + 1) * z.block - 1) / z.page
  }

  /** A block is owned by some page, namely PageOf(block), exactly when it does not straddle. */
  lemma OwnedIffNotStraddling(z: Sizes, block: nat)
    requires z.Valid()
    ensures PageOf(z, block) >= 0 && (Owns(z, PageOf(z, block), block) <==> !Straddles(z, block))
  {
    var first, last := block * z.block, (block + 1) * z.block - 1;
    MulMonotone(0, block, z.block);
    Quotient(first, z.page);
    var p := PageOf(z, block);
    OwnsIffInside(z, p, block);
    Distribute(block, 1, z.block);
    FloorAbove(first, z.page, p);
    FloorAbove(last, z.page, p);
    FloorAbove(last, z.page, p + 1);
  }

  /** The pages 0..n-1 own, together, exactly the non-straddling blocks below n * pageSize. */
  lemma OwnedBlocksExactly(z: Sizes, n: nat, block: nat)
    requires z.Valid()
    ensures (exists p: nat :: p < n && Owns(z, p, block))
            <==> (block + 1) * z.block <= n * z.page && !Straddles(z, block)
  {
    OwnedIffNotStraddling(z, block);
    var q := PageOf(z, block);
    OwnsIffInside(z, q, block);
    if p: nat :| p < n && Owns(z, p, block) {
      PageOfOwned(z, p, block);
      MulMonotone(q + 1, n, z.page);
    }
    if (block + 1) * z.block <= n * z.page && !Straddles(z, block) && n <= q {
      MulMonotone(n, q, z.page);
      Distribute(block, 1, z.block);
    }
  }

  /** A page's range holds floor(pageSize / blockSize) blocks or one fewer. */
  lemma RangeSize(z: Sizes, pid: nat)
    requires z.Valid()
    ensures BlocksPerPage(z) - 1 <= EndBlock(z, pid) - StartBlock(z, pid) <= BlocksPerPage(z)
  {
    var lo, hi := pid * z.page, (pid + 1) * z.page;
    var s, e, k := StartBlock(z, pid), EndBlock(z, pid), BlocksPerPage(z);
    assert hi == lo + z.page;
    FloorAbove(lo + z.block - 1, z.block, s);
    FloorAbove(lo + z.block - 1, z.block, s + 1);
    FloorAbove(hi, z.block, e);
    FloorAbove(z.page, z.block, k);
    Distribute(s, 1, z.block);
    Distribute(e - s, s, z.block);
    FloorAbove(z.page, z.block, e - s);
    Distribute(k - 1, 1, z.block);
    Distribute(k - 1, s, z.block);
    FloorAbove(hi, z.block, k - 1 + s);
  }

  lemma MultipleQuotient(n: int, k: int, d: int)
    requires d > 0
    ensures (n * (k * d)) / d == n * k && (n * (k * d) + d - 1) / d == n * k
  {
    Reassociate(n, k, d);
    Distribute(n * k, 1, d);
    QuotientIs(n * (k * d), d, n * k);
    QuotientIs(n * (k * d) + d - 1, d, n * k);
  }

  /** When the block size divides the page size every page holds exactly that many blocks. */
  lemma RangeSizeDivisible(z: Sizes, pid: nat)
    requires z.Valid() && z.page % z.block == 0
    ensures EndBlock(z, pid) - StartBlock(z, pid) == BlocksPerPage(z)
    ensures StartBlock(z, pid) == pid * BlocksPerPage(z)
  {
    var k := BlocksPerPage(z);
    MultipleQuotient(pid, k, z.block);
    MultipleQuotient(pid + 1, k, z.block);
    Distribute(pid, 1, k);
    assert z.page == k * z.block;
  }

  /** Distinct blocks occupy disjoint byte ranges. */
  lemma BlockBytesDisjoint(z: Sizes, a: int, b: int)
    requires z.Valid() && a < b
    ensures (a + 1) * z.block <= b * z.block
  {
    MulMonotone(a + 1, b, z.block);
  }
}
