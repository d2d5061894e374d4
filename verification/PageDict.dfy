/** Python dictionaries from page id to page, in insertion order: popitem takes the last entry, assigning
    to a new key appends one. */
module PageDict {
  import opened BlockMath
  import opened InternalPages

  function Ids(d: seq<Page>): set<int> {
    if d == [] then {} else Ids(d[..|d| - 1]) + {d[|d| - 1].id}
  }

  function Lookup(d: seq<Page>, id: int): (p: Page)
    requires id in Ids(d)
    ensures p.id == id
  {
    if d[|d| - 1].id == id then d[|d| - 1] else Lookup(d[..|d| - 1], id)
  }

  /** del d[id] */
  function Without(d: seq<Page>, id: int): seq<Page> {
    if d == [] then []
    else if d[|d| - 1].id == id then d[..|d| - 1]
    else Without(d[..|d| - 1], id) + [d[|d| - 1]]
  }

  /** d[p.id] = p: replaced in place if present, else appended. */
  function Put(d: seq<Page>, p: Page): (r: seq<Page>)
    ensures p.id !in Ids(d) ==> r == d + [p]
  {
    if d == [] then [p]
    else if d[|d| - 1].id == p.id then d[..|d| - 1] + [p]
    else if p.id in Ids(d) then Put(d[..|d| - 1], p) + [d[|d| - 1]]
    else d + [p]
  }

  /** Free blocks over the whole dictionary. */
  function SumFree(d: seq<Page>): nat {
    if d == [] then 0 else SumFree(d[..|d| - 1]) + |d[|d| - 1].free|
  }

  ghost function Handouts(d: seq<Page>): set<int> {
    if d == [] then {} else Handouts(d[..|d| - 1]) + HandedOut(d[|d| - 1])
  }

  /** Keys are distinct and every page is sound; in the full dictionary no page has a free block, in the
      other one every page has one. */
  ghost predicate DictOk(d: seq<Page>, full: bool) {
    d == [] || (var p := d[|d| - 1];
      DictOk(d[..|d| - 1], full) && p.id !in Ids(d[..|d| - 1]) && Sound(p) && (p.free == [] <==> full))
  }

  ghost predicate AllPlaced(z: Sizes, d: seq<Page>)
    requires z.Valid()
  {
    d == [] || (AllPlaced(z, d[..|d| - 1]) && Placed(z, d[|d| - 1]))
  }

  lemma HandedOutHere(z: Sizes, p: Page, b: int)
    requires z.Valid() && Placed(z, p) && b in HandedOut(p)
    ensures Owns(z, p.id, b) && b >= 0 && PageOf(z, b) == p.id
  {
    HandedOutMembers(p);
    PageOfOwned(z, p.id, b);
  }

  /** A handed-out block lies in the page that get_page_id names. */
  lemma {:induction false} HandoutsOwned(z: Sizes, d: seq<Page>, b: int)
    requires z.Valid() && AllPlaced(z, d) && b in Handouts(d)
    ensures b >= 0 && PageOf(z, b) >= 0 && PageOf(z, b) in Ids(d) && Owns(z, PageOf(z, b), b)
  {
    if b in Handouts(d[..|d| - 1]) {
      HandoutsOwned(z, d[..|d| - 1], b);
    } else {
      HandedOutHere(z, d[|d| - 1], b);
    }
  }

  /** A handed-out block of page id is handed out by the page stored under that key. */
  lemma {:induction false} HandoutsAt(z: Sizes, d: seq<Page>, b: int)
    requires z.Valid() && AllPlaced(z, d) && b in Handouts(d) && PageOf(z, b) in Ids(d)
    requires DictOk(d, false) || DictOk(d, true)
    ensures b in HandedOut(Lookup(d, PageOf(z, b)))
  {
    var front, p := d[..|d| - 1], d[|d| - 1];
    if b in Handouts(front) {
      HandoutsOwned(z, front, b);
      HandoutsAt(z, front, b);
    } else {
      HandedOutHere(z, p, b);
    }
  }

  lemma AppendOk(d: seq<Page>, full: bool, p: Page)
    requires DictOk(d, full) && p.id !in Ids(d) && Sound(p) && (p.free == [] <==> full)
    ensures DictOk(d + [p], full) && Ids(d + [p]) == Ids(d) + {p.id}
    ensures SumFree(d + [p]) == SumFree(d) + |p.free|
    ensures Handouts(d + [p]) == Handouts(d) + HandedOut(p)
  {
    assert (d + [p])[..|d|] == d;
  }

  lemma AppendPlaced(z: Sizes, d: seq<Page>, p: Page)
    requires z.Valid() && AllPlaced(z, d) && Placed(z, p)
    ensures AllPlaced(z, d + [p])
  {
    assert (d + [p])[..|d|] == d;
  }

  lemma {:induction false} WithoutOk(d: seq<Page>, full: bool, id: int)
    requires DictOk(d, full) && id in Ids(d)
    ensures DictOk(Without(d, id), full) && Ids(Without(d, id)) == Ids(d) - {id}
    ensures SumFree(d) == SumFree(Without(d, id)) + |Lookup(d, id).free|
    ensures Handouts(d) == Handouts(Without(d, id)) + HandedOut(Lookup(d, id))
    ensures Sound(Lookup(d, id)) && (Lookup(d, id).free == [] <==> full)
    ensures |Without(d, id)| == |d| - 1
  {
    hide HandedOut, Sound;
    var front, p := d[..|d| - 1], d[|d| - 1];
    if p.id != id {
      WithoutOk(front, full, id);
      AppendOk(Without(front, id), full, p);
    }
  }

  lemma {:induction false} WithoutPlaced(z: Sizes, d: seq<Page>, id: int)
    requires z.Valid() && AllPlaced(z, d) && id in Ids(d)
    ensures AllPlaced(z, Without(d, id)) && Placed(z, Lookup(d, id))
  {
    var front, p := d[..|d| - 1], d[|d| - 1];
    if p.id != id {
      WithoutPlaced(z, front, id);
      AppendPlaced(z, Without(front, id), p);
    }
  }
}
