/** One page cut into blocks: the free list the manager draws block ids from. */
module InternalPages {
  import opened BlockMath
  import opened Seqs

  /** The value of an InternalPage after init: its id, its block range and the ids still free. */
  datatype Page = Page(id: nat, start: int, end: int, free: seq<int>) {
    predicate Full() { free == [] }

    // The source compares sizes as unsigned, so a page whose range is negative is never empty.
    predicate Empty() { |free| == end - start }
  }

  function Opened(z: Sizes, id: nat): Page
    requires z.Valid()
  {
    Page(id, StartBlock(z, id), EndBlock(z, id), Interval(StartBlock(z, id), EndBlock(z, id)))
  }

  /** Take the first n free blocks. */
  function Take(p: Page, n: nat): (r: (Page, seq<int>))
    requires n <= |p.free|
    ensures r.1 + r.0.free == p.free
  {
    (p.(free := p.free[n..]), p.free[..n])
  }

  function PutBack(p: Page, blocks: seq<int>): Page {
    p.(free := p.free + blocks)
  }

  /** The free list names distinct blocks of the page's range. */
  ghost predicate Sound(p: Page) {
    NoDup(p.free) && forall b :: b in p.free ==> p.start <= b < p.end
  }

  /** The range is the one the page's id determines. */
  ghost predicate Placed(z: Sizes, p: Page)
    requires z.Valid()
  {
    p.start == StartBlock(z, p.id) && p.end == EndBlock(z, p.id)
  }

  /** Blocks of the page that are not free in it. */
  ghost function HandedOut(p: Page): set<int> {
    Elems(Interval(p.start, p.end)) - Elems(p.free)
  }

  lemma HandedOutMembers(p: Page)
    ensures forall b :: b in HandedOut(p) <==> p.start <= b < p.end && b !in p.free
  {
    IntervalMembers(p.start, p.end);
  }

  lemma OpenedSound(z: Sizes, id: nat)
    requires z.Valid()
    ensures Sound(Opened(z, id)) && Placed(z, Opened(z, id)) && HandedOut(Opened(z, id)) == {}
  {
    IntervalMembers(StartBlock(z, id), EndBlock(z, id));
  }

  /** Blocks taken leave the free list for good: they were free before and are handed out now. */
  lemma TakeSound(p: Page, n: nat)
    requires Sound(p) && n <= |p.free|
    ensures var (p', blocks) := Take(p, n);
      && Sound(p') && p' == p.(free := p'.free) && NoDup(blocks) && |blocks| == n
      && |p'.free| == |p.free| - n
      && HandedOut(p') == HandedOut(p) + Elems(blocks) && Elems(blocks) !! HandedOut(p)
      && forall b :: b in blocks ==> p.start <= b < p.end
  {
    NoDupSplit(p.free, n);
    var p', blocks := Take(p, n).0, Take(p, n).1;
    HandedOutMembers(p);
    HandedOutMembers(p');
    forall b ensures b in HandedOut(p') <==> b in HandedOut(p) + Elems(blocks) {
      assert b in p.free <==> b in p'.free || b in blocks;
      assert b in blocks ==> b !in p'.free;
    }
  }

  /** Blocks given back are free again and no longer handed out. */
  lemma PutBackSound(p: Page, blocks: seq<int>)
    requires Sound(p) && NoDup(blocks) && Elems(blocks) <= HandedOut(p)
    ensures Sound(PutBack(p, blocks)) && HandedOut(PutBack(p, blocks)) == HandedOut(p) - Elems(blocks)
  {
    HandedOutMembers(p);
    HandedOutMembers(PutBack(p, blocks));
    assert forall b :: b in blocks ==> b in Elems(blocks);
    NoDupConcat(p.free, blocks);
  }

  /** A page reports itself empty exactly when none of its blocks is handed out, except that a page whose range
      ends below its start, which init builds when blocks outsize pages, never does. */
  lemma EmptyMeansNoneHandedOut(p: Page)
    requires Sound(p)
    ensures p.Empty() <==> p.start <= p.end && HandedOut(p) == {}
  {
    if p.start <= p.end {
      EmptyInRange(p);
    }
  }

  lemma EmptyInRange(p: Page)
    requires Sound(p) && p.start <= p.end
    ensures p.Empty() <==> HandedOut(p) == {}
  {
    FillsInterval(p.free, p.start, p.end);
    HandedOutMembers(p);
    if HandedOut(p) == {} {
      var all := Interval(p.start, p.end);
      IntervalMembers(p.start, p.end);
      NoDupCard(all);
      NoDupCard(p.free);
      assert Elems(all) == Elems(p.free);
    }
    if p.Empty() {
      assert HandedOut(p) == {};
    }
  }

  /** The C++ class itself. */
  class InternalPage {
    const pageId: nat
    const pageSize: nat
    var startBlock: int
    var endBlock: int
    var numKvBlocks: int
    var freeList: seq<int>

    constructor (id: nat, size: nat)
      ensures pageId == id && pageSize == size
      ensures startBlock == 0 && endBlock == 0 && numKvBlocks == 0 && freeList == []
    {
      pageId, pageSize := id, size;
      startBlock, endBlock, numKvBlocks := 0, 0, 0;
      freeList := [];
    }

    function View(): Page
      reads this
    {
      Page(pageId, startBlock, endBlock, freeList)
    }

    method Init(blockMemSize: nat)
      requires pageSize > 0 && blockMemSize > 0
      modifies this
      ensures View() == Opened(Sizes(pageSize, blockMemSize), pageId)
      ensures numKvBlocks == endBlock - startBlock
    {
      var z := Sizes(pageSize, blockMemSize);
      startBlock, endBlock := StartBlock(z, pageId), EndBlock(z, pageId);
      numKvBlocks := endBlock - startBlock;
      freeList := [];
      var i := startBlock;
      while i < endBlock
        invariant View() == Page(pageId, StartBlock(z, pageId), EndBlock(z, pageId), Interval(startBlock, i))
        invariant numKvBlocks == endBlock - startBlock
        invariant startBlock <= endBlock ==> i <= endBlock
        invariant endBlock < startBlock ==> i == startBlock
      {
        freeList := freeList + [i];
        i := i + 1;
      }
      if endBlock < startBlock {
        assert Interval(startBlock, endBlock) == Interval(startBlock, i) == [];
      }
    }

    /** None stands for the exception thrown when the page has too few free blocks. */
    method Alloc(n: nat) returns (ok: bool, blocks: seq<int>)
      modifies this`freeList
      ensures ok == (n <= |old(freeList)|)
      ensures !ok ==> freeList == old(freeList) && blocks == []
      ensures ok ==> (View(), blocks) == Take(old(View()), n)
    {
      if |freeList| < n {
        return false, [];
      }
      blocks := [];
      for i := 0 to n
        invariant blocks == freeList[..i]
      {
        blocks := blocks + [freeList[i]];
      }
      freeList := freeList[n..];
      ok := true;
    }

    method FreeBatch(blocks: seq<int>)
      modifies this`freeList
      ensures View() == PutBack(old(View()), blocks)
    {
      freeList := freeList + blocks;
    }
  }
}
