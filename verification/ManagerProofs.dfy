/** The manager never hands out a block twice, and its counters mean what they should. */
module ManagerProofs {
  import opened BlockMath
  import opened InternalPages
  import opened PageDict
  import opened Manager
  import opened Seqs

  // ---- invariant -----------------------------------------------------------------------------

  /** Ids of the pages the manager has from the page allocator. */
  ghost function Owned(m: Mgr): set<int> {
    Ids(m.avail) + Ids(m.full)
  }

  /** The blocks that are not free in a page the manager owns. */
  ghost function Allocated(m: Mgr): set<int> {
    Handouts(m.avail) + Handouts(m.full)
  }

  ghost predicate DictsOk(m: Mgr) {
    DictOk(m.avail, false) && DictOk(m.full, true) && Ids(m.avail) !! Ids(m.full)
  }

  ghost predicate PagesPlaced(z: Sizes, m: Mgr)
    requires z.Valid()
  {
    AllPlaced(z, m.avail) && AllPlaced(z, m.full)
  }

  /** Pages are well kept: no page is in both dictionaries, an available page has a free block, a full page
      has none, and the counter is the number of free blocks over the available pages. */
  ghost predicate MgrOk(z: Sizes, m: Mgr)
    requires z.Valid()
  {
    DictsOk(m) && PagesPlaced(z, m) && m.numAvail == SumFree(m.avail)
  }

  ghost predicate SameRest(m: Mgr, m': Mgr) {
    m'.reserved == m.reserved && m'.inShrink == m.inShrink && m'.target == m.target
  }

  lemma AllocatedOwned(z: Sizes, m: Mgr, b: int)
    requires z.Valid() && PagesPlaced(z, m) && b in Allocated(m)
    ensures b >= 0 && PageOf(z, b) in Owned(m) && PageOf(z, b) >= 0 && Owns(z, PageOf(z, b), b)
  {
    if b in Handouts(m.avail) { HandoutsOwned(z, m.avail, b); } else { HandoutsOwned(z, m.full, b); }
  }

  lemma UnownedNotAllocated(z: Sizes, m: Mgr, p: Page, blocks: seq<int>)
    requires z.Valid() && PagesPlaced(z, m) && Placed(z, p) && p.id !in Owned(m)
    requires forall b :: b in blocks ==> p.start <= b < p.end
    ensures Elems(blocks) !! Allocated(m)
  {
    forall b | b in blocks ensures b !in Allocated(m) {
      PageOfOwned(z, p.id, b);
      if b in Allocated(m) { AllocatedOwned(z, m, b); }
    }
  }

  // ---- allocation ----------------------------------------------------------------------------

  /** One turn of the loop, which found the blocks first and left the state m1. */
  ghost predicate Turn(z: Sizes, m: Mgr, m1: Mgr, first: seq<int>)
    requires z.Valid()
  {
    && MgrOk(z, m1) && SameRest(m, m1) && NoDup(first) && Elems(first) !! Allocated(m)
    && Allocated(m1) == Allocated(m) + Elems(first)
  }

  /** Serving from a detached page p. */
  lemma ServeBooks(m: Mgr, p: Page, need: nat)
    requires DictsOk(m) && Sound(p) && p.free != [] && need > 0 && p.id !in Owned(m)
    requires m.numAvail == SumFree(m.avail) + |p.free|
    ensures var (m', blocks) := Serve(m, p, need);
      && DictsOk(m') && m'.numAvail == SumFree(m'.avail) == m.numAvail - |blocks|
      && Owned(m') == Owned(m) + {p.id} && SameRest(m, m')
      && 0 < |blocks| <= need && NoDup(blocks)
      && Elems(blocks) !! HandedOut(p) && (forall b :: b in blocks ==> p.start <= b < p.end)
      && Allocated(m') == Allocated(m) + HandedOut(p) + Elems(blocks)
  {
    hide HandedOut, Sound, DictOk, Handouts, Ids, SumFree, Take, Put;
    var n := if |p.free| < need then |p.free| else need;
    var p' := Take(p, n).0;
    TakeSound(p, n);
    if p'.Full() {
      AppendOk(m.full, true, p');
    } else {
      AppendOk(m.avail, false, p');
    }
  }

  lemma ServePlaced(z: Sizes, m: Mgr, p: Page, need: nat)
    requires z.Valid() && PagesPlaced(z, m) && Placed(z, p) && p.id !in Owned(m)
    ensures PagesPlaced(z, Serve(m, p, need).0)
  {
    var p' := Take(p, if |p.free| < need then |p.free| else need).0;
    AppendPlaced(z, m.full, p');
    AppendPlaced(z, m.avail, p');
  }

  /** popitem: the last available page is detached. */
  function Popped(m: Mgr): Mgr
    requires m.avail != []
  {
    m.(avail := m.avail[..|m.avail| - 1])
  }

  lemma PoppedBooks(z: Sizes, m: Mgr)
    requires z.Valid() && MgrOk(z, m) && m.avail != []
    ensures var m0 := Popped(m); var p := m.avail[|m.avail| - 1];
      && DictsOk(m0) && PagesPlaced(z, m0) && Sound(p) && Placed(z, p) && p.free != []
      && p.id !in Owned(m0) && Owned(m) == Owned(m0) + {p.id}
      && Allocated(m) == Allocated(m0) + HandedOut(p)
      && m.numAvail == SumFree(m0.avail) + |p.free|
  {
    hide HandedOut, Sound, Placed;
  }

  lemma HeldIsTurn(z: Sizes, m: Mgr, need: nat)
    requires z.Valid() && MgrOk(z, m) && m.avail != [] && need > 0
    ensures var (m1, first) := ServeHeld(m, need);
      Turn(z, m, m1, first) && 0 < |first| <= need && Owned(m1) == Owned(m) && m1.numAvail == m.numAvail - |first|
  {
    hide HandedOut, Sound, Placed, DictsOk, PagesPlaced, Owned, Allocated, Serve;
    var m0, p := Popped(m), m.avail[|m.avail| - 1];
    PoppedBooks(z, m);
    ServeBooks(m0, p, need);
    ServePlaced(z, m0, p, need);
    UnownedNotAllocated(z, m0, p, ServeHeld(m, need).1);
  }

  /** Parking a page without blocks among the full pages. */
  lemma ParkedBooks(z: Sizes, m: Mgr, p: Page)
    requires z.Valid() && MgrOk(z, m) && p.id !in Owned(m) && p.free == [] && HandedOut(p) == {}
    requires Sound(p) && Placed(z, p)
    ensures var m1 := m.(full := Put(m.full, p));
      MgrOk(z, m1) && Owned(m1) == Owned(m) + {p.id} && Allocated(m1) == Allocated(m)
  {
    hide HandedOut, Sound, Placed, DictOk, Handouts, Ids, SumFree, Put;
    AppendOk(m.full, true, p);
    AppendPlaced(z, m.full, p);
  }

  lemma NewIsTurn(z: Sizes, m: Mgr, id: nat, need: nat)
    requires z.Valid() && MgrOk(z, m) && id !in Owned(m) && need > 0
    ensures var (m1, first) := ServeNew(z, m, id, need);
      && Turn(z, m, m1, first) && |first| <= need && Owned(m1) == Owned(m) + {id}
      && m1.numAvail == m.numAvail + |Opened(z, id).free| - |first|
  {
    var p := Opened(z, id);
    OpenedSound(z, id);
    NewPageIsTurn(z, m, p, need);
  }

  lemma NewPageIsTurn(z: Sizes, m: Mgr, p: Page, need: nat)
    requires z.Valid() && MgrOk(z, m) && p.id !in Owned(m) && need > 0
    requires Sound(p) && Placed(z, p) && HandedOut(p) == {} && p == Opened(z, p.id)
    ensures var (m1, first) := ServeNew(z, m, p.id, need);
      && Turn(z, m, m1, first) && |first| <= need && Owned(m1) == Owned(m) + {p.id}
      && m1.numAvail == m.numAvail + |p.free| - |first|
  {
    hide HandedOut, Sound, Placed, DictOk, Handouts, Ids, SumFree, Serve, AllPlaced, Opened;
    if p.free == [] {
      ParkedBooks(z, m, p);
    } else {
      var m0 := m.(numAvail := m.numAvail + |p.free|);
      ServeBooks(m0, p, need);
      ServePlaced(z, m0, p, need);
      UnownedNotAllocated(z, m0, p, ServeNew(z, m, p.id, need).1);
    }
  }

  function Usable(z: Sizes, ids: seq<nat>): nat
    requires z.Valid()
  {
    if ids == [] then 0 else |Opened(z, ids[0]).free| + Usable(z, ids[1..])
  }

  ghost function IdSet(ids: seq<nat>): set<int> {
    if ids == [] then {} else {ids[0] as int} + IdSet(ids[1..])
  }

  ghost predicate NewPages(owned: set<int>, ids: seq<nat>)
    decreases |ids|
  {
    ids == [] || (ids[0] !in owned && NewPages(owned + {ids[0] as int}, ids[1..]))
  }

  lemma {:induction false} AllNew(owned: set<int>, ids: seq<nat>)
    requires NoDup(ids) && forall i :: 0 <= i < |ids| ==> ids[i] !in owned
    ensures NewPages(owned, ids)
    decreases |ids|
  {
    if ids != [] {
      AllNew(owned + {ids[0] as int}, ids[1..]);
    }
  }

  /** What the allocation loop promises about the state m it starts from. */
  ghost predicate LoopPromise(z: Sizes, m: Mgr, need: nat, supply: seq<nat>, o: Outcome)
    requires z.Valid() && o.used <= |supply|
  {
    && MgrOk(z, o.m) && Owned(o.m) == Owned(m) + IdSet(supply[..o.used]) && SameRest(m, o.m)
    && NoDup(o.blocks) && Elems(o.blocks) !! Allocated(m)
    && Allocated(o.m) == Allocated(m) + Elems(o.blocks)
    && (o.done <==> need <= m.numAvail + Usable(z, supply))
    && (o.done ==> |o.blocks| == need) && (!o.done ==> o.used == |supply|)
    && (need <= m.numAvail ==> o.used == 0)
  }

  lemma HeldTurn(z: Sizes, m: Mgr, m1: Mgr, first: seq<int>, need: nat, supply: seq<nat>, o: Outcome)
    requires z.Valid() && o.used <= |supply| && Turn(z, m, m1, first) && |first| <= need
    requires Owned(m1) == Owned(m) && m1.numAvail == m.numAvail - |first|
    requires LoopPromise(z, m1, need - |first|, supply, o)
    ensures LoopPromise(z, m, need, supply, o.(blocks := first + o.blocks))
  {
    Joined(first, o.blocks);
  }

  lemma NewTurn(z: Sizes, m: Mgr, m1: Mgr, first: seq<int>, need: nat, supply: seq<nat>, o: Outcome)
    requires z.Valid() && supply != [] && o.used < |supply| && Turn(z, m, m1, first) && |first| <= need
    requires Owned(m1) == Owned(m) + {supply[0] as int} && need > m.numAvail
    requires m1.numAvail == m.numAvail + |Opened(z, supply[0]).free| - |first|
    requires LoopPromise(z, m1, need - |first|, supply[1..], o)
    ensures LoopPromise(z, m, need, supply, o.(blocks := first + o.blocks, used := o.used + 1))
  {
    hide MgrOk, Allocated, Owned, Opened;
    Joined(first, o.blocks);
    assert supply[..o.used + 1][1..] == supply[1..][..o.used];
  }

  lemma NoneHeld(z: Sizes, m: Mgr)
    requires z.Valid() && MgrOk(z, m)
    ensures m.numAvail >= 0 && (m.avail == [] ==> m.numAvail == 0)
  {
  }

  lemma LoopEnds(z: Sizes, m: Mgr, need: nat, supply: seq<nat>)
    requires z.Valid() && MgrOk(z, m) && (need == 0 || (m.avail == [] && supply == []))
    ensures LoopPromise(z, m, need, supply, Outcome(m, [], 0, need == 0))
  {
    assert supply[..0] == [];
  }

  /** The allocation loop hands out distinct blocks that nobody held, from pages it held or was given. It
      succeeds exactly when the free blocks of the pages held and the blocks of the pages to come suffice,
      and asks for no page while the held ones do. */
  lemma {:induction false} AllocLoopOk(z: Sizes, m: Mgr, need: nat, supply: seq<nat>)
    requires z.Valid() && MgrOk(z, m) && NewPages(Owned(m), supply)
    ensures LoopPromise(z, m, need, supply, AllocLoop(z, m, need, supply))
    decreases need, |supply|, |m.avail|
  {
    hide MgrOk, Allocated, Owned, LoopPromise, ServeHeld, ServeNew, SameRest;
    NoneHeld(z, m);
    if need == 0 || (m.avail == [] && supply == []) {
      LoopEnds(z, m, need, supply);
    } else if m.avail != [] {
      var (m1, blocks) := ServeHeld(m, need);
      HeldIsTurn(z, m, need);
      AllocLoopOk(z, m1, need - |blocks|, supply);
      HeldTurn(z, m, m1, blocks, need, supply, AllocLoop(z, m1, need - |blocks|, supply));
    } else if supply != [] {
      var (m1, blocks) := ServeNew(z, m, supply[0], need);
      NewIsTurn(z, m, supply[0], need);
      AllocLoopOk(z, m1, need - |blocks|, supply[1..]);
      NewTurn(z, m, m1, blocks, need, supply, AllocLoop(z, m1, need - |blocks|, supply[1..]));
    }
  }

  lemma Joined(a: seq<int>, b: seq<int>)
    ensures Elems(a + b) == Elems(a) + Elems(b)
    ensures NoDup(a) && NoDup(b) && Elems(a) !! Elems(b) ==> NoDup(a + b)
  {
    if NoDup(a) && NoDup(b) && Elems(a) !! Elems(b) {
      assert forall x :: x in a ==> x in Elems(a);
      NoDupConcat(a, b);
    }
  }

  // ---- free ----------------------------------------------------------------------------------

  /** The manager without the page id, and that page. */
  function Detached(m: Mgr, id: int): Mgr {
    if id in Ids(m.full) then m.(full := Without(m.full, id)) else m.(avail := Without(m.avail, id))
  }

  function PageAt(m: Mgr, id: int): Page
    requires id in Ids(m.full) || id in Ids(m.avail)
  {
    if id in Ids(m.full) then Lookup(m.full, id) else Lookup(m.avail, id)
  }

  lemma DetachedBooks(z: Sizes, m: Mgr, id: int)
    requires z.Valid() && MgrOk(z, m) && id in Owned(m)
    ensures var m0 := Detached(m, id); var p := PageAt(m, id);
      && DictsOk(m0) && PagesPlaced(z, m0) && Sound(p) && Placed(z, p)
      && Owned(m0) == Owned(m) - {id}
      && Allocated(m) == Allocated(m0) + HandedOut(p)
      && m.numAvail == SumFree(m0.avail) + |p.free|
      && SameRest(m, m0)
  {
    hide HandedOut, Sound, Placed, DictOk, Handouts, Ids, SumFree, AllPlaced, Without, Lookup;
    if id in Ids(m.full) {
      WithoutOk(m.full, true, id);
      WithoutPlaced(z, m.full, id);
    } else {
      WithoutOk(m.avail, false, id);
      WithoutPlaced(z, m.avail, id);
    }
  }

  lemma HandedOutApart(z: Sizes, m: Mgr, p: Page)
    requires z.Valid() && PagesPlaced(z, m) && Placed(z, p) && p.id !in Owned(m)
    ensures HandedOut(p) !! Allocated(m)
  {
    forall b | b in HandedOut(p) ensures b !in Allocated(m) {
      HandedOutHere(z, p, b);
      if b in Allocated(m) { AllocatedOwned(z, m, b); }
    }
  }

  /** Blocks of page id that are allocated are handed out by that page. */
  lemma GroupHandedOut(z: Sizes, m: Mgr, id: int, blocks: seq<int>)
    requires z.Valid() && MgrOk(z, m) && id in Owned(m) && Elems(blocks) <= Allocated(m)
    requires forall b :: b in blocks ==> PageOf(z, b) == id
    ensures Elems(blocks) <= HandedOut(PageAt(m, id))
  {
    hide HandedOut;
    DetachedBooks(z, m, id);
    var m0 := Detached(m, id);
    forall b | b in Elems(blocks) ensures b in HandedOut(PageAt(m, id)) {
      assert b in Allocated(m);
      if b in Allocated(m0) { AllocatedOwned(z, m0, b); }
    }
  }

  lemma RangeNotEmpty(p: Page)
    requires HandedOut(p) != {}
    ensures p.start <= p.end
  {
    HandedOutMembers(p);
    var b :| b in HandedOut(p);
  }

  /** Freeing a group of allocated blocks of one page frees exactly those, and gives the page back exactly
      when none of its blocks stays allocated. */
  lemma FreeGroupOk(z: Sizes, m: Mgr, id: int, blocks: seq<int>)
    requires z.Valid() && MgrOk(z, m) && NoDup(blocks) && blocks != [] && Elems(blocks) <= Allocated(m)
    requires forall b :: b in blocks ==> PageOf(z, b) == id
    ensures var (m', gone) := FreeGroup(m, id, blocks);
      && MgrOk(z, m') && SameRest(m, m') && Allocated(m') == Allocated(m) - Elems(blocks)
      && id in Owned(m) && Owned(m') == Owned(m) - Elems(gone) && (gone == [] || gone == [id])
      && (gone == [] ==> exists b :: b in Allocated(m') && PageOf(z, b) == id)
      && (gone == [id] ==> forall b :: b in Allocated(m') ==> PageOf(z, b) != id)
  {
    assert blocks[0] in Elems(blocks);
    AllocatedOwned(z, m, blocks[0]);
    var m0, p := Detached(m, id), PageAt(m, id);
    DetachedBooks(z, m, id);
    GroupHandedOut(z, m, id, blocks);
    HandedOutApart(z, m0, p);
    RangeNotEmpty(p);
    PutBackSound(p, blocks);
    EmptyMeansNoneHandedOut(PutBack(p, blocks));
    FreeGroupEnds(z, m, m0, p, id, blocks);
  }

  lemma FreeGroupEnds(z: Sizes, m: Mgr, m0: Mgr, p: Page, id: int, blocks: seq<int>)
    requires z.Valid() && id in Owned(m) && m0 == Detached(m, id) && p == PageAt(m, id) && blocks != []
    requires DictsOk(m0) && PagesPlaced(z, m0) && Placed(z, p) && Owned(m0) == Owned(m) - {id}
    requires Allocated(m) == Allocated(m0) + HandedOut(p) && HandedOut(p) !! Allocated(m0)
    requires Elems(blocks) <= HandedOut(p) && m.numAvail == SumFree(m0.avail) + |p.free| && SameRest(m, m0)
    requires Sound(PutBack(p, blocks)) && HandedOut(PutBack(p, blocks)) == HandedOut(p) - Elems(blocks)
    requires PutBack(p, blocks).Empty() <==> HandedOut(PutBack(p, blocks)) == {}
    ensures var (m', gone) := FreeGroup(m, id, blocks);
      && MgrOk(z, m') && SameRest(m, m') && Allocated(m') == Allocated(m) - Elems(blocks)
      && Owned(m') == Owned(m) - Elems(gone) && (gone == [] || gone == [id])
      && (gone == [] ==> exists b :: b in Allocated(m') && PageOf(z, b) == id)
      && (gone == [id] ==> forall b :: b in Allocated(m') ==> PageOf(z, b) != id)
  {
    hide HandedOut, Sound, Placed, DictOk, Handouts, Ids, SumFree, AllPlaced, Without, Lookup, Put, Elems, PageOf;
    var p' := PutBack(p, blocks);
    var (m', gone) := FreeGroup(m, id, blocks);
    if p'.Empty() {
      assert Elems(gone) == {id} by { ElemsOne(id); }
      NothingLeft(HandedOut(p), Elems(blocks));
      forall b | b in Allocated(m') ensures PageOf(z, b) != id {
        AllocatedOwned(z, m', b);
      }
    } else {
      ElemsNone();
      AppendOk(m0.avail, false, p');
      AppendPlaced(z, m0.avail, p') by { PlacedSame(z, p, p'); }
      var b := Member(HandedOut(p'));
      HandedOutHere(z, p', b) by { PlacedSame(z, p, p'); }
      assert b in Allocated(m');
    }
  }

  lemma NothingLeft(a: set<int>, b: set<int>)
    requires a - b == {} && b <= a
    ensures a == b
  {
    forall x | x in a ensures x in b {
      assert x !in a - b;
    }
  }

  lemma Member(a: set<int>) returns (x: int)
    requires a != {}
    ensures x in a
  {
    assert exists y :: y in a by {
      if forall y :: y !in a { assert false; }
    }
    x :| x in a;
  }

  lemma ElemsOne(id: int)
    ensures Elems([id]) == {id}
  {
  }

  lemma ElemsNone()
    ensures Elems<int>([]) == {}
  {
  }

  lemma PlacedSame(z: Sizes, p: Page, p': Page)
    requires z.Valid() && Placed(z, p) && p' == p.(free := p'.free)
    ensures Placed(z, p')
  {
  }

  lemma {:induction false} GroupMembers(z: Sizes, indices: seq<int>, id: int)
    requires z.Valid() && NoDup(indices)
    ensures NoDup(Group(z, indices, id))
    ensures forall b :: b in Group(z, indices, id) <==> b in indices && PageOf(z, b) == id
  {
    if indices != [] {
      var front, last := indices[..|indices| - 1], indices[|indices| - 1];
      assert indices == front + [last];
      GroupMembers(z, front, id);
      NoDupSnoc(front, last);
      NoDupSnoc(Group(z, front, id), last);
    }
  }

  /** A caller that frees a block it has never makes group_indices_by_page divide by zero. */
  lemma ValidFreeGroups(z: Sizes, m: Mgr, b: int)
    requires z.Valid() && PagesPlaced(z, m) && b in Allocated(m)
    ensures z.block <= z.page
  {
    AllocatedOwned(z, m, b);
    OwnsIffInside(z, PageOf(z, b), b);
    Distribute(b, 1, z.block);
    Distribute(PageOf(z, b), 1, z.page);
  }

  /** The indices that lie in one of the pages listed. */
  ghost function InPages(z: Sizes, indices: seq<int>, order: seq<int>): set<int>
    requires z.Valid()
  {
    set b | b in indices && PageOf(z, b) in order
  }

  lemma InPagesGrows(z: Sizes, indices: seq<int>, order: seq<int>)
    requires z.Valid() && NoDup(indices) && NoDup(order) && order != []
    ensures var front := order[..|order| - 1]; var id := order[|order| - 1];
      && InPages(z, indices, order) == InPages(z, indices, front) + Elems(Group(z, indices, id))
      && InPages(z, indices, front) !! Elems(Group(z, indices, id))
      && Elems(Group(z, indices, id)) <= Elems(indices)
  {
    var front, id := order[..|order| - 1], order[|order| - 1];
    GroupMembers(z, indices, id);
    assert order == front + [id];
    assert id !in front;
  }

  /** free returns exactly the given blocks, and what it gives back is no longer the manager's. */
  lemma {:induction false} FreeGroupsOk(z: Sizes, m: Mgr, indices: seq<int>, order: seq<int>)
    requires z.Valid() && MgrOk(z, m) && NoDup(indices) && NoDup(order) && Elems(indices) <= Allocated(m)
    requires forall id :: id in order ==> Group(z, indices, id) != []
    ensures var (m', gone) := FreeGroups(z, m, indices, order);
      && MgrOk(z, m') && SameRest(m, m') && Allocated(m') == Allocated(m) - InPages(z, indices, order)
      && NoDup(gone) && Elems(gone) <= Elems(order) && Elems(gone) <= Owned(m) && Owned(m') == Owned(m) - Elems(gone)
  {
    hide MgrOk, Allocated, Owned, FreeGroup, Group;
    if order != [] {
      var front, id := order[..|order| - 1], order[|order| - 1];
      assert order == front + [id] && id in order;
      assert forall i :: i in front ==> i in order;
      FreeGroupsOk(z, m, indices, front);
      var (m1, e1) := FreeGroups(z, m, indices, front);
      var group := Group(z, indices, id);
      GroupMembers(z, indices, id);
      InPagesGrows(z, indices, order);
      hide InPages, PageOf;
      FreeGroupOk(z, m1, id, group);
      GoneGrows(m, front, id, e1, FreeGroup(m1, id, group).1);
    }
  }

  ghost predicate NoneIn(z: Sizes, m: Mgr, id: int)
    requires z.Valid()
  {
    forall b :: b in Allocated(m) ==> PageOf(z, b) != id
  }

  lemma OthersUntouched(z: Sizes, m: Mgr, m1: Mgr, blocks: seq<int>, id: int, other: int)
    requires z.Valid() && Allocated(m1) == Allocated(m) - Elems(blocks) && id != other
    requires forall b :: b in blocks ==> PageOf(z, b) == id
    ensures NoneIn(z, m1, other) <==> NoneIn(z, m, other)
  {
    hide Allocated, PageOf;
    if NoneIn(z, m1, other) {
      forall b | b in Allocated(m) ensures PageOf(z, b) != other {
        if b !in blocks { assert b in Allocated(m1); }
      }
    }
  }

  /** Of the pages touched, free gives back exactly those that have no allocated block left. */
  lemma {:induction false} GivesBackExactly(z: Sizes, m: Mgr, indices: seq<int>, order: seq<int>, id: int)
    requires z.Valid() && MgrOk(z, m) && NoDup(indices) && NoDup(order) && Elems(indices) <= Allocated(m)
    requires forall i :: i in order ==> Group(z, indices, i) != []
    requires id in order
    ensures var (m', gone) := FreeGroups(z, m, indices, order); id in gone <==> NoneIn(z, m', id)
  {
    hide MgrOk, Allocated, Owned, FreeGroup, Group, NoneIn, PageOf;
    var front, last := order[..|order| - 1], order[|order| - 1];
    assert order == front + [last] && last in order;
    assert forall i :: i in front ==> i in order;
    FreeGroupsOk(z, m, indices, front);
    var (m1, e1) := FreeGroups(z, m, indices, front);
    var group := Group(z, indices, last);
    GroupMembers(z, indices, last);
    InPagesGrows(z, indices, order);
    hide InPages;
    FreeGroupOk(z, m1, last, group);
    var (m2, e2) := FreeGroup(m1, last, group);
    if id == last {
      assert last !in e1 by { assert last in e1 ==> last in Elems(e1) && last in front; }
      LastGone(z, m2, id, e2);
    } else {
      GivesBackExactly(z, m, indices, front, id);
      OthersUntouched(z, m1, m2, group, last, id);
    }
  }

  lemma LastGone(z: Sizes, m: Mgr, id: int, gone: seq<int>)
    requires z.Valid() && (gone == [] || gone == [id])
    requires gone == [] ==> exists b :: b in Allocated(m) && PageOf(z, b) == id
    requires gone == [id] ==> forall b :: b in Allocated(m) ==> PageOf(z, b) != id
    ensures id in gone <==> NoneIn(z, m, id)
  {
  }

  lemma GoneGrows(m: Mgr, front: seq<int>, id: int, e1: seq<int>, e2: seq<int>)
    requires NoDup(e1) && Elems(e1) <= Elems(front) && id !in front && (e2 == [] || e2 == [id])
    ensures NoDup(e1 + e2) && Elems(e1 + e2) <= Elems(front + [id]) && Elems(e1 + e2) == Elems(e1) + Elems(e2)
  {
    assert id !in e1 by { assert id in e1 ==> id in Elems(e1); }
    NoDupSnoc(e1, id);
    assert e1 + [] == e1;
  }
}
