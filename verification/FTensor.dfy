/** Tensors over reserved virtual memory: every page of the range is backed by a private page or by the shared
    zero page, so that the whole tensor can always be read. */
module FTensors {
  import opened BlockMath

  datatype Backing = Unbacked | ZeroPage | Private(page: int)

  /** Virtual pages of one tensor, and the keys of its `mapping_`. */
  datatype Tensor = Tensor(table: seq<Backing>, mapping: set<int>)

  // ---- the driver: it faults when a backed page is mapped or an unbacked one is unmapped ---------------

  predicate CanMap(table: seq<Backing>, page: int, backing: Backing) {
    0 <= page < |table| && table[page] == Unbacked && backing != Unbacked
  }

  predicate CanUnmap(table: seq<Backing>, page: int) {
    0 <= page < |table| && table[page] != Unbacked
  }

  function MemMap(table: seq<Backing>, page: int, backing: Backing): seq<Backing>
    requires CanMap(table, page, backing)
  {
    table[page := backing]
  }

  function MemUnmap(table: seq<Backing>, page: int): seq<Backing>
    requires CanUnmap(table, page)
  {
    table[page := Unbacked]
  }

  datatype Driver = Fault | Ran(table: seq<Backing>)

  datatype Call = ToMap(page: int, backing: Backing) | ToUnmap(page: int)

  function Run(table: seq<Backing>, calls: seq<Call>): Driver
    decreases |calls|
  {
    if calls == [] then Ran(table)
    else
      match calls[0]
      case ToMap(page, backing) =>
        if CanMap(table, page, backing) then Run(MemMap(table, page, backing), calls[1..]) else Fault
      case ToUnmap(page) =>
        if CanUnmap(table, page) then Run(MemUnmap(table, page), calls[1..]) else Fault
  }

  // ---- what the tensor asks of it --------------------------------------------------------------------

  function MapCalls(t: Tensor, page: int): seq<Call> {
    if page in t.mapping then [] else [ToUnmap(page), ToMap(page, Private(page))]
  }

  function UnmapCalls(t: Tensor, page: int): seq<Call> {
    if page in t.mapping then [ToUnmap(page), ToMap(page, ZeroPage)] else []
  }

  datatype Command = Map(page: int) | Unmap(page: int)

  /** The tensor after one command and the command's result; None when the driver faults. */
  datatype Step = Faulted | Stepped(t: Tensor, ok: bool)

  function Do(t: Tensor, c: Command): Step {
    match c
    case Map(page) =>
      (match Run(t.table, MapCalls(t, page))
       case Fault => Faulted
       case Ran(table) => Stepped(Tensor(table, t.mapping + {page}), true))
    case Unmap(page) =>
      (match Run(t.table, UnmapCalls(t, page))
       case Fault => Faulted
       case Ran(table) => Stepped(Tensor(table, t.mapping - {page}), page in t.mapping))
  }

  /** Each virtual page is backed: privately, by its own page, if recorded in the mapping, else by zeros. */
  ghost predicate Backed(t: Tensor) {
    && (forall p :: p in t.mapping ==> 0 <= p < |t.table|)
    && (forall p :: 0 <= p < |t.table| ==> t.table[p] == if p in t.mapping then Private(p) else ZeroPage)
  }

  lemma TwoCalls(table: seq<Backing>, page: int, backing: Backing)
    requires 0 <= page < |table| && table[page] != Unbacked && backing != Unbacked
    ensures Run(table, [ToUnmap(page), ToMap(page, backing)]) == Ran(table[page := backing])
  {
    var calls := [ToUnmap(page), ToMap(page, backing)];
    var t1, rest := table[page := Unbacked], [ToMap(page, backing)];
    assert calls[1..] == rest && rest[1..] == [];
    assert Run(t1, rest) == Run(t1[page := backing], rest[1..]) == Ran(t1[page := backing]);
    assert t1[page := backing] == table[page := backing];
  }

  /** From a backed tensor no map within the range and no unmap at all makes the driver fault, and the tensor
      stays backed: map adds the page, unmap removes it and fails, changing nothing, if it was not mapped. */
  lemma DoKeepsBacked(t: Tensor, c: Command)
    requires Backed(t) && (c.Map? ==> 0 <= c.page < |t.table|)
    ensures var s := Do(t, c);
      && s.Stepped? && Backed(s.t) && |s.t.table| == |t.table|
      && s.t.mapping == (if c.Map? then t.mapping + {c.page} else t.mapping - {c.page})
      && s.ok == (c.Map? || c.page in t.mapping) && (!s.ok ==> s.t == t)
  {
    if c.Map? && c.page !in t.mapping {
      TwoCalls(t.table, c.page, Private(c.page));
    } else if c.Unmap? && c.page in t.mapping {
      TwoCalls(t.table, c.page, ZeroPage);
    }
  }

  ghost function DoAll(t: Tensor, cs: seq<Command>): Step
    decreases |cs|
  {
    if cs == [] then Stepped(t, true)
    else
      match Do(t, cs[0])
      case Faulted => Faulted
      case Stepped(t1, _) => DoAll(t1, cs[1..])
  }

  /** Whatever commands a tensor is given, the driver never faults and every page stays backed. */
  lemma {:induction false} EveryHistoryBacked(t: Tensor, cs: seq<Command>)
    requires Backed(t) && forall c :: c in cs && c.Map? ==> 0 <= c.page < |t.table|
    ensures DoAll(t, cs).Stepped? && Backed(DoAll(t, cs).t)
    decreases |cs|
  {
    hide Do, Backed;
    if cs != [] {
      assert cs[0] in cs;
      DoKeepsBacked(t, cs[0]);
      EveryHistoryBacked(Do(t, cs[0]).t, cs[1..]);
    }
  }

  /** The table of a backed tensor is a function of its mapping, so mapping a page and unmapping it again
      restores the table exactly. */
  lemma MapThenUnmap(t: Tensor, page: int)
    requires Backed(t) && 0 <= page < |t.table| && page !in t.mapping
    ensures DoAll(t, [Map(page), Unmap(page)]) == Stepped(t, true)
  {
    var cs, last := [Map(page), Unmap(page)], [Unmap(page)];
    assert cs[1..] == last && last[1..] == [];
    DoKeepsBacked(t, Map(page));
    var t1 := Do(t, Map(page)).t;
    DoKeepsBacked(t1, Unmap(page));
    var t2 := Do(t1, Unmap(page)).t;
    assert t2.mapping == t.mapping;
    assert t2.table == t.table;
    assert DoAll(t1, last) == DoAll(t2, last[1..]) == Stepped(t2, true);
  }

  // ---- the classes -----------------------------------------------------------------------------------

  lemma PageInRange(offset: int, pageSize: nat, size: nat)
    requires pageSize > 0 && offset % pageSize == 0 && 0 <= offset < size && size % pageSize == 0
    ensures 0 <= offset / pageSize < size / pageSize
  {
    Quotient(size, pageSize);
    FloorAbove(offset, pageSize, 0);
    FloorAbove(offset, pageSize, size / pageSize);
  }

  lemma PageReaches(offset: int, pageSize: nat, size: nat)
    requires pageSize > 0 && offset % pageSize == 0 && size % pageSize == 0
    requires 0 <= offset / pageSize < size / pageSize
    ensures 0 <= offset < size
  {
    MultipleBelow(offset / pageSize, pageSize, size);
    MulMonotone(0, offset / pageSize, pageSize);
    assert offset == (offset / pageSize) * pageSize;
  }

  class FTensor {
    const pageSize: nat
    const size: nat
    var table: seq<Backing>
    var mapping: set<int>

    function View(): Tensor
      reads this
    {
      Tensor(table, mapping)
    }

    ghost predicate Valid()
      reads this
    {
      && pageSize > 0 && size % pageSize == 0 && |table| == size / pageSize
      && Backed(View())
    }

    predicate Reaches(offset: int)
      requires pageSize > 0
    {
      offset % pageSize == 0 && 0 <= offset < size
    }

    /** The whole range starts out backed by the zero page. */
    constructor (size: nat, pageSize: nat)
      requires pageSize > 0 && size % pageSize == 0
      ensures Valid() && mapping == {} && this.size == size && this.pageSize == pageSize
    {
      Quotient(size, pageSize);
      this.size, this.pageSize, mapping := size, pageSize, {};
      table := seq(size / pageSize, _ => Unbacked);
      new;
      var offset, page := 0, 0;
      while offset < size
        invariant offset == page * pageSize && 0 <= page <= size / pageSize
        invariant mapping == {} && |table| == size / pageSize
        invariant forall p :: 0 <= p < |table| ==> table[p] == if p < page then ZeroPage else Unbacked
      {
        FloorAbove(size - 1, pageSize, page);
        Distribute(page, 1, pageSize);
        MultipleBelow(page, pageSize, size);
        table := MemMap(table, page, ZeroPage);
        offset, page := offset + pageSize, page + 1;
      }
      MultipleBelow(page, pageSize, size);
    }

    method Map(offset: int) returns (ok: bool)
      requires Valid() && Reaches(offset)
      modifies this
      ensures Valid() && Stepped(View(), ok) == Do(old(View()), Command.Map(offset / pageSize))
      ensures ok && mapping == old(mapping) + {offset / pageSize}
    {
      PageInRange(offset, pageSize, size);
      var page := offset / pageSize;
      DoKeepsBacked(View(), Command.Map(page));
      if page in mapping {
        return true;
      }
      TwoCalls(table, page, Private(page));
      table := MemUnmap(table, page);
      mapping := mapping + {page};
      table := MemMap(table, page, Private(page));
      ok := true;
    }

    /** An offset outside the range names no mapped page, so it is answered like any page that is not mapped. */
    method Unmap(offset: int) returns (ok: bool)
      requires Valid() && offset % pageSize == 0
      modifies this
      ensures Valid() && Stepped(View(), ok) == Do(old(View()), Command.Unmap(offset / pageSize))
      ensures ok == (offset / pageSize in old(mapping)) && mapping == old(mapping) - {offset / pageSize}
      ensures ok ==> Reaches(offset)
    {
      var page := offset / pageSize;
      DoKeepsBacked(View(), Command.Unmap(page));
      if page !in mapping {
        return false;
      }
      PageReaches(offset, pageSize, size);
      TwoCalls(table, page, ZeroPage);
      table := MemUnmap(table, page);
      table := MemMap(table, page, ZeroPage);
      mapping := mapping - {page};
      ok := true;
    }
  }

  lemma MultipleBelow(page: int, pageSize: nat, size: nat)
    requires pageSize > 0 && size % pageSize == 0
    ensures page * pageSize < size <==> page < size / pageSize
  {
    Quotient(size, pageSize);
    assert size == (size / pageSize) * pageSize;
    if page < size / pageSize {
      MulMonotone(page + 1, size / pageSize, pageSize);
      Distribute(page, 1, pageSize);
    } else {
      MulMonotone(size / pageSize, page, pageSize);
    }
  }

  /** Maps all of its range for a forward pass and unmaps all of it afterwards. */
  class ActivationFTensor {
    const numPages: nat
    var table: seq<Backing>
    var pages: seq<int>
    var mapped: bool

    /** All private while mapped, all zero otherwise. */
    ghost predicate Valid()
      reads this
    {
      && |table| == numPages
      && |pages| == (if mapped then numPages else 0) && (forall i :: 0 <= i < |pages| ==> pages[i] == i)
      && forall p :: 0 <= p < numPages ==> table[p] == if mapped then Private(p) else ZeroPage
    }

    constructor (numPages: nat)
      ensures Valid() && !mapped && this.numPages == numPages
    {
      this.numPages, pages, mapped := numPages, [], false;
      table := seq(numPages, _ => Unbacked);
      new;
      InitWithZero();
    }

    method InitWithZero()
      requires |table| == numPages && forall p :: 0 <= p < numPages ==> table[p] == Unbacked
      modifies `table
      ensures |table| == numPages && forall p :: 0 <= p < numPages ==> table[p] == ZeroPage
    {
      for i := 0 to numPages
        invariant |table| == numPages
        invariant forall p :: 0 <= p < numPages ==> table[p] == if p < i then ZeroPage else Unbacked
      {
        table := MemMap(table, i, ZeroPage);
      }
    }

    method MapAll() returns (ok: bool)
      requires Valid()
      modifies this
      ensures Valid() && ok && mapped
    {
      if mapped {
        return true;
      }
      pages := [];
      for i := 0 to numPages
        invariant |table| == numPages && !mapped && |pages| == i && forall j :: 0 <= j < i ==> pages[j] == j
        invariant forall p :: 0 <= p < numPages ==> table[p] == if p < i then Private(p) else ZeroPage
      {
        table := MemUnmap(table, i);
        pages := pages + [i];
        table := MemMap(table, i, Private(i));
      }
      mapped := true;
      ok := true;
    }

    method UnmapAll() returns (ok: bool)
      requires Valid()
      modifies this
      ensures Valid() && ok && !mapped
    {
      if !mapped {
        return true;
      }
      for i := 0 to |pages|
        invariant |table| == numPages && mapped && |pages| == numPages
        invariant forall p :: 0 <= p < numPages ==> table[p] == if p < i then Unbacked else Private(p)
      {
        table := MemUnmap(table, i);
      }
      pages := [];
      mapped := false;
      InitWithZero();
      ok := true;
    }
  }
}
