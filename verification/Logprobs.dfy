/** The flat log-probability container and the plain list of dictionaries it stands in for. */
module Logprobs {

  datatype Option<T> = None | Some(value: T)

  datatype Logprob = Logprob(logprob: real, rank: Option<int>, decodedToken: Option<string>)

  datatype Entry = Entry(token: int, info: Logprob)

  type OnePosition = map<int, Logprob>

  /** A dictionary filled entry by entry: the last one of a token wins. */
  function AsDict(es: seq<Entry>): OnePosition {
    if es == [] then map[] else AsDict(es[..|es| - 1])[es[|es| - 1].token := es[|es| - 1].info]
  }

  /** The lists of a FlatLogprobs, with the four parallel ones zipped. */
  datatype Flat = Flat(starts: seq<int>, ends: seq<int>, entries: seq<Entry>)

  const Empty: Flat := Flat([], [], [])

  // ---- reading ---------------------------------------------------------------------------------------

  /** A Python list index: negative ones count from the end, the rest raise. */
  function At(es: seq<Entry>, i: int): Option<Entry> {
    if 0 <= i < |es| then Some(es[i]) else if -|es| <= i < 0 then Some(es[|es| + i]) else None
  }

  function Between(es: seq<Entry>, lo: int, hi: int): Option<seq<Entry>>
    decreases hi - lo
  {
    if hi <= lo then Some([])
    else
      var front := Between(es, lo, hi - 1);
      var last := At(es, hi - 1);
      if front.Some? && last.Some? then Some(front.value + [last.value]) else None
  }

  /** Position i, or None when reading it raises. */
  function Position(f: Flat, i: int): Option<OnePosition>
    requires 0 <= i < |f.starts| == |f.ends|
  {
    var es := Between(f.entries, f.starts[i], f.ends[i]);
    if es.Some? then Some(AsDict(es.value)) else None
  }

  function GetItem(f: Flat, index: int): Option<OnePosition>
    requires |f.starts| == |f.ends|
  {
    var n := |f.starts|;
    if 0 <= index < n then Position(f, index) else if -n <= index < 0 then Position(f, n + index) else None
  }

  // ---- writing ---------------------------------------------------------------------------------------

  function Appended(f: Flat, es: seq<Entry>): Flat {
    Flat(f.starts + [|f.entries|], f.ends + [|f.entries| + |es|], f.entries + es)
  }

  /** None, which marks a position without log-probabilities, and the empty dictionary read alike. */
  function EntriesOf(p: Option<seq<Entry>>): seq<Entry> {
    match p
    case None => []
    case Some(es) => es
  }

  function Extended(f: Flat, ps: seq<Option<seq<Entry>>>): Flat {
    if ps == [] then f else Appended(Extended(f, ps[..|ps| - 1]), EntriesOf(ps[|ps| - 1]))
  }

  function Shortest(tokenIds: seq<int>, logprobs: seq<real>, ranks: seq<int>, tokens: seq<Option<string>>): (n: nat)
    ensures n <= |tokenIds| && n <= |logprobs| && n <= |ranks| && n <= |tokens|
    ensures n == |tokenIds| || n == |logprobs| || n == |ranks| || n == |tokens|
  {
    var a := if |tokenIds| < |logprobs| then |tokenIds| else |logprobs|;
    var b := if |ranks| < |tokens| then |ranks| else |tokens|;
    if a < b then a else b
  }

  function Zipped(tokenIds: seq<int>, logprobs: seq<real>, ranks: seq<int>, tokens: seq<Option<string>>): seq<Entry> {
    seq(Shortest(tokenIds, logprobs, ranks, tokens),
        i requires 0 <= i < Shortest(tokenIds, logprobs, ranks, tokens) =>
          Entry(tokenIds[i], Logprob(logprobs[i], Some(ranks[i]), tokens[i])))
  }

  /** The sampled token's rank and then 1, 2, ...; -1 asks for as many as there are log-probabilities. */
  function RanksFor(rank: int, numLogprobs: int, available: nat): seq<int> {
    var n := if numLogprobs == -1 then available else if numLogprobs < 0 then 0 else numLogprobs;
    [rank] + seq(n, i => i + 1)
  }

  function NextEntries(tokenIds: seq<int>, logprobs: seq<real>, tokens: seq<Option<string>>, rank: int,
                       numLogprobs: int): seq<Entry>
  {
    Zipped(tokenIds, logprobs, RanksFor(rank, numLogprobs, |logprobs|), tokens)
  }

  /** The dictionary has the tokens of the entries, each with what the last entry of the token says. */
  lemma {:induction false} LastEntryWins(es: seq<Entry>, token: int)
    ensures token in AsDict(es) <==> exists i :: 0 <= i < |es| && es[i].token == token
    ensures forall i :: 0 <= i < |es| && es[i].token == token && (forall j :: i < j < |es| ==> es[j].token != token)
              ==> token in AsDict(es) && AsDict(es)[token] == es[i].info
  {
    if es != [] {
      var front, last := es[..|es| - 1], es[|es| - 1];
      LastEntryWins(front, token);
      assert last == es[|es| - 1];
      forall i | 0 <= i < |front| ensures front[i] == es[i] {
      }
      if token in AsDict(front) {
        var i :| 0 <= i < |front| && front[i].token == token;
        assert es[i].token == token;
      }
      if i :| 0 <= i < |es| && es[i].token == token && i < |es| - 1 {
        assert front[i].token == token;
      }
    }
  }

  /** The entries of the next position: one for the sampled token, with its own rank, and behind it the top ones, of
      rank 1, 2 and so on; as many as were asked for, or for -1 as there are log-probabilities, while all of the
      lists last. */
  lemma NextEntriesAre(tokenIds: seq<int>, logprobs: seq<real>, tokens: seq<Option<string>>, rank: int, numLogprobs: int)
    ensures var es := NextEntries(tokenIds, logprobs, tokens, rank, numLogprobs);
      var asked := if numLogprobs == -1 then |logprobs| else if numLogprobs < 0 then 0 else numLogprobs;
      && |es| <= |tokenIds| && |es| <= |logprobs| && |es| <= |tokens| && |es| <= asked + 1
      && (|es| == |tokenIds| || |es| == |logprobs| || |es| == |tokens| || |es| == asked + 1)
      && forall i :: 0 <= i < |es| ==>
           es[i] == Entry(tokenIds[i], Logprob(logprobs[i], Some(if i == 0 then rank else i), tokens[i]))
  {
    var ranks := RanksFor(rank, numLogprobs, |logprobs|);
    forall i | 0 <= i < |ranks| ensures ranks[i] == if i == 0 then rank else i {
    }
  }

  // ---- slices ----------------------------------------------------------------------------------------

  function Clamp(x: int, n: nat, lower: int, upper: int): int {
    if x < 0 then (if x + n < lower then lower else x + n) else if x > upper then upper else x
  }

  function From(start: int, stop: int, step: int): seq<int>
    requires step != 0
    decreases if step > 0 then stop - start else start - stop
  {
    if (step > 0 && start < stop) || (step < 0 && start > stop) then [start] + From(start + step, stop, step) else []
  }

  /** The positions a Python slice of a list of n elements picks, in order; step is not zero. */
  function Picks(n: nat, start: Option<int>, stop: Option<int>, step: int): seq<int>
    requires step != 0
  {
    if step > 0 then
      From(if start.None? then 0 else Clamp(start.value, n, 0, n),
           if stop.None? then n else Clamp(stop.value, n, 0, n), step)
    else
      From(if start.None? then n - 1 else Clamp(start.value, n, -1, n - 1),
           if stop.None? then -1 else Clamp(stop.value, n, -1, n - 1), step)
  }

  function Selected<T>(s: seq<T>, picks: seq<int>): (r: seq<T>)
    requires forall k :: 0 <= k < |picks| ==> 0 <= picks[k] < |s|
    ensures |r| == |picks|
  {
    seq(|picks|, k requires 0 <= k < |picks| => s[picks[k]])
  }

  function Shifted(s: seq<int>, base: int): seq<int> {
    seq(|s|, k requires 0 <= k < |s| => s[k] - base)
  }

  /** s[lo:hi]: negative bounds count from the end, bounds beyond either end stop there. */
  function Range<T>(s: seq<T>, lo: int, hi: int): seq<T> {
    var a, b := Clamp(lo, |s|, 0, |s|), Clamp(hi, |s|, 0, |s|);
    if 0 <= a <= b <= |s| then s[a..b] else []
  }

  /** The elements from index lo up to hi that there are; a negative bound counts from the end, and one still
      negative after that is 0. */
  lemma RangeElements<T>(s: seq<T>, lo: int, hi: int, x: T)
    ensures 0 <= lo && 0 <= hi ==> (x in Range(s, lo, hi) <==> exists i :: lo <= i < hi && 0 <= i < |s| && s[i] == x)
    ensures lo < 0 ==> Range(s, lo, hi) == Range(s, if lo + |s| < 0 then 0 else lo + |s|, hi)
    ensures hi < 0 ==> Range(s, lo, hi) == Range(s, lo, if hi + |s| < 0 then 0 else hi + |s|)
  {
    if 0 <= lo && 0 <= hi && lo <= |s| && lo <= hi {
      var r := Range(s, lo, hi);
      assert forall j :: 0 <= j < |r| ==> r[j] == s[lo + j];
      forall i | lo <= i < hi && 0 <= i < |s| && s[i] == x ensures x in r {
        assert r[i - lo] == x;
      }
    }
  }

  ghost predicate InBounds(f: Flat, picks: seq<int>) {
    forall k :: 0 <= k < |picks| ==> 0 <= picks[k] < |f.starts|
  }

  /** The slice of a container at the positions picked, of which there is at least one. */
  function SliceOf(f: Flat, picks: seq<int>): Flat
    requires |f.starts| == |f.ends| && picks != [] && InBounds(f, picks)
  {
    var starts, ends := Selected(f.starts, picks), Selected(f.ends, picks);
    var lo, hi := starts[0], ends[|ends| - 1];
    Flat(Shifted(starts, lo), Shifted(ends, lo), Range(f.entries, lo, hi))
  }

  // ---- soundness -------------------------------------------------------------------------------------

  /** Positions follow one another and lie within the entries; slices leave gaps between them. */
  ghost predicate Sound(f: Flat) {
    && |f.starts| == |f.ends|
    && (forall i :: 0 <= i < |f.starts| ==> 0 <= f.starts[i] <= f.ends[i] <= |f.entries|)
    && (forall i, j :: 0 <= i < j < |f.starts| ==> f.ends[i] <= f.starts[j])
  }

  lemma {:induction false} BetweenInside(es: seq<Entry>, lo: int, hi: int)
    requires 0 <= lo <= hi <= |es|
    ensures Between(es, lo, hi) == Some(es[lo..hi])
    decreases hi - lo
  {
    if lo < hi {
      BetweenInside(es, lo, hi - 1);
      assert es[lo..hi] == es[lo..hi - 1] + [es[hi - 1]];
    } else {
      assert es[lo..hi] == [];
    }
  }

  /** In a sound container every position can be read: it is the dictionary of its own entries. */
  lemma ReadsItsEntries(f: Flat, i: nat)
    requires Sound(f) && i < |f.starts|
    ensures Position(f, i) == Some(AsDict(f.entries[f.starts[i]..f.ends[i]]))
  {
    BetweenInside(f.entries, f.starts[i], f.ends[i]);
  }

  /** The list of dictionaries a sound container stands for. */
  ghost function Contents(f: Flat): (r: seq<OnePosition>)
    requires Sound(f)
    ensures |r| == |f.starts|
  {
    seq(|f.starts|, i requires 0 <= i < |f.starts| => AsDict(f.entries[f.starts[i]..f.ends[i]]))
  }

  /** Reading by index, negative indices included, agrees with the list, and raises where the list does. */
  lemma GetItemAgrees(f: Flat, index: int)
    requires Sound(f)
    ensures var n := |Contents(f)|;
      GetItem(f, index) == if 0 <= index < n then Some(Contents(f)[index])
                           else if -n <= index < 0 then Some(Contents(f)[n + index]) else None
  {
    var n := |f.starts|;
    if 0 <= index < n {
      ReadsItsEntries(f, index);
    } else if -n <= index < 0 {
      ReadsItsEntries(f, n + index);
    }
  }

  lemma AppendGrows(f: Flat, es: seq<Entry>)
    requires Sound(f)
    ensures Sound(Appended(f, es)) && Contents(Appended(f, es)) == Contents(f) + [AsDict(es)]
  {
    var f' := Appended(f, es);
    var n := |f.starts|;
    assert f'.entries[f'.starts[n]..f'.ends[n]] == es;
    forall i | 0 <= i < |f.starts| ensures Contents(f')[i] == Contents(f)[i] {
      assert f'.entries[f.starts[i]..f.ends[i]] == f.entries[f.starts[i]..f.ends[i]];
    }
  }

  // ---- the list version, and histories ---------------------------------------------------------------

  /** The list version stores what it is given, None included. */
  type PlainList = seq<Option<OnePosition>>

  ghost function Read(p: Option<OnePosition>): OnePosition {
    match p
    case None => map[]
    case Some(d) => d
  }

  ghost function ReadAll(l: PlainList): (r: seq<OnePosition>)
    ensures |r| == |l|
  {
    seq(|l|, i requires 0 <= i < |l| => Read(l[i]))
  }

  function Dicts(ps: seq<Option<seq<Entry>>>): (r: PlainList)
    ensures |r| == |ps|
  {
    seq(|ps|, i requires 0 <= i < |ps| => if ps[i].None? then None else Some(AsDict(ps[i].value)))
  }

  datatype Op =
    | Append(p: Option<seq<Entry>>)
    | Extend(ps: seq<Option<seq<Entry>>>)
    | Next(tokenIds: seq<int>, logprobs: seq<real>, tokens: seq<Option<string>>, rank: int, numLogprobs: int)

  function FlatDoes(f: Flat, op: Op): Flat {
    match op
    case Append(p) => Appended(f, EntriesOf(p))
    case Extend(ps) => Extended(f, ps)
    case Next(ids, lps, tokens, rank, n) => Appended(f, NextEntries(ids, lps, tokens, rank, n))
  }

  function ListDoes(l: PlainList, op: Op): PlainList {
    match op
    case Append(p) => l + Dicts([p])
    case Extend(ps) => l + Dicts(ps)
    case Next(ids, lps, tokens, rank, n) => l + [Some(AsDict(NextEntries(ids, lps, tokens, rank, n)))]
  }

  function FlatAfter(f: Flat, ops: seq<Op>): Flat {
    if ops == [] then f else FlatDoes(FlatAfter(f, ops[..|ops| - 1]), ops[|ops| - 1])
  }

  function ListAfter(l: PlainList, ops: seq<Op>): PlainList {
    if ops == [] then l else ListDoes(ListAfter(l, ops[..|ops| - 1]), ops[|ops| - 1])
  }

  /** The container reads like the list. */
  ghost predicate Refines(f: Flat, l: PlainList) {
    Sound(f) && Contents(f) == ReadAll(l)
  }

  lemma AppendRefines(f: Flat, l: PlainList, p: Option<seq<Entry>>)
    requires Refines(f, l)
    ensures Refines(Appended(f, EntriesOf(p)), l + Dicts([p]))
  {
    AppendGrows(f, EntriesOf(p));
    assert ReadAll(l + Dicts([p])) == ReadAll(l) + [AsDict(EntriesOf(p))];
  }

  lemma {:induction false} ExtendRefines(f: Flat, l: PlainList, ps: seq<Option<seq<Entry>>>)
    requires Refines(f, l)
    ensures Refines(Extended(f, ps), l + Dicts(ps))
  {
    hide Refines;
    if ps == [] {
      assert l + Dicts(ps) == l;
    } else {
      var front, last := ps[..|ps| - 1], ps[|ps| - 1];
      ExtendRefines(f, l, front);
      AppendRefines(Extended(f, front), l + Dicts(front), last);
      assert l + Dicts(ps) == (l + Dicts(front)) + Dicts([last]);
    }
  }

  lemma StepRefines(f: Flat, l: PlainList, op: Op)
    requires Refines(f, l)
    ensures Refines(FlatDoes(f, op), ListDoes(l, op))
  {
    match op {
      case Append(p) => AppendRefines(f, l, p);
      case Extend(ps) => ExtendRefines(f, l, ps);
      case Next(ids, lps, tokens, rank, n) =>
        var es := NextEntries(ids, lps, tokens, rank, n);
        AppendRefines(f, l, Some(es));
        assert Dicts([Some(es)]) == [Some(AsDict(es))];
    }
  }

  /** After any sequence of appends and extensions, position by position, the flat container reads like the
      list: it also does so starting from a slice. */
  lemma {:induction false} HistoryRefines(f: Flat, l: PlainList, ops: seq<Op>)
    requires Refines(f, l)
    ensures Refines(FlatAfter(f, ops), ListAfter(l, ops))
  {
    hide Refines, FlatDoes, ListDoes;
    if ops != [] {
      var front := ops[..|ops| - 1];
      HistoryRefines(f, l, front);
      StepRefines(FlatAfter(f, front), ListAfter(l, front), ops[|ops| - 1]);
    }
  }

  /** From two empty containers, whatever is appended: both hold as many positions, and every one reads alike,
      from either end. */
  lemma EveryHistoryAgrees(ops: seq<Op>, index: int)
    ensures var f := FlatAfter(Empty, ops); var l := ListAfter([], ops);
      && |f.starts| == |f.ends| == |l|
      && GetItem(f, index) == if 0 <= index < |l| then Some(Read(l[index]))
                              else if -|l| <= index < 0 then Some(Read(l[|l| + index])) else None
  {
    assert Refines(Empty, []);
    HistoryRefines(Empty, [], ops);
    GetItemAgrees(FlatAfter(Empty, ops), index);
  }

  // ---- what a slice is worth -------------------------------------------------------------------------

  lemma {:induction false} FromSteps(start: int, stop: int, step: int)
    requires step != 0
    ensures forall k :: 0 <= k < |From(start, stop, step)| ==>
              From(start, stop, step)[k] == start + k * step
              && (if step > 0 then start <= start + k * step < stop else stop < start + k * step <= start)
    decreases if step > 0 then stop - start else start - stop
  {
    var s := From(start, stop, step);
    if s != [] {
      FromSteps(start + step, stop, step);
      forall k | 0 <= k < |s|
        ensures s[k] == start + k * step
        ensures if step > 0 then start <= start + k * step < stop else stop < start + k * step <= start
      {
        if k > 0 {
          assert s[k] == From(start + step, stop, step)[k - 1];
          assert (k - 1) * step + step == k * step;
        }
      }
    }
  }

  /** A slice picks positions of the list, in increasing or decreasing order. */
  lemma PicksAre(n: nat, start: Option<int>, stop: Option<int>, step: int)
    requires step != 0
    ensures forall k :: 0 <= k < |Picks(n, start, stop, step)| ==> 0 <= Picks(n, start, stop, step)[k] < n
    ensures forall j, k :: 0 <= j < k < |Picks(n, start, stop, step)| ==>
              if step > 0 then Picks(n, start, stop, step)[j] < Picks(n, start, stop, step)[k]
              else Picks(n, start, stop, step)[k] < Picks(n, start, stop, step)[j]
  {
    var a := if step > 0 then (if start.None? then 0 else Clamp(start.value, n, 0, n))
             else (if start.None? then n - 1 else Clamp(start.value, n, -1, n - 1));
    var b := if step > 0 then (if stop.None? then n else Clamp(stop.value, n, 0, n))
             else (if stop.None? then -1 else Clamp(stop.value, n, -1, n - 1));
    var s := Picks(n, start, stop, step);
    assert s == From(a, b, step);
    FromSteps(a, b, step);
    forall j, k | 0 <= j < k < |s| ensures if step > 0 then s[j] < s[k] else s[k] < s[j] {
      Ordered(j, k, step);
    }
  }

  function Term(start: int, step: int, k: int): int {
    start + k * step
  }

  lemma NextTerm(start: int, step: int, k: int)
    ensures Term(start + step, step, k) == Term(start, step, k + 1)
  {
    assert (k + 1) * step == k * step + step;
  }

  /** From lists just the terms short of stop. */
  lemma {:induction false} FromTerms(start: int, stop: int, step: int, k: nat)
    requires step != 0
    ensures (if step > 0 then Term(start, step, k) < stop else Term(start, step, k) > stop)
       ==> k < |From(start, stop, step)| && From(start, stop, step)[k] == Term(start, step, k)
    ensures k < |From(start, stop, step)| ==>
              From(start, stop, step)[k] == Term(start, step, k)
              && (if step > 0 then Term(start, step, k) < stop else Term(start, step, k) > stop)
    decreases k
  {
    if k > 0 {
      NextTerm(start, step, k - 1);
      FromTerms(start + step, stop, step, k - 1);
      Ordered(0, k, step);
    }
  }

  /** Which positions a slice with bounds inside the list picks: start, start + step and so on, short of stop. */
  lemma PicksAreTerms(n: nat, start: nat, stop: nat, step: int, k: nat)
    requires step != 0 && stop <= n && (if step > 0 then start <= n else start < n)
    ensures var s := Picks(n, Some(start), Some(stop), step); var p := Term(start, step, k);
      && ((if step > 0 then p < stop else p > stop) <==> k < |s|) && (k < |s| ==> s[k] == p)
  {
    if step < 0 && stop == n {
      FromTerms(start, n - 1, step, k);
      FromTerms(start, n, step, k);
      if k > 0 { Ordered(0, k, step); }
    } else {
      FromTerms(start, stop, step, k);
    }
  }

  /** Bounds outside the list: a negative one counts from the end, one beyond either end stops there, and a missing
      one is the end the slice comes from or goes to. */
  lemma BoundsWrap(n: nat, bound: int, other: Option<int>, step: int)
    requires step != 0
    ensures bound < 0 <= bound + n ==>
              && Picks(n, Some(bound), other, step) == Picks(n, Some(bound + n), other, step)
              && Picks(n, other, Some(bound), step) == Picks(n, other, Some(bound + n), step)
    ensures step > 0 && bound >= n ==> Picks(n, Some(bound), other, step) == []
    ensures step > 0 && bound >= n ==> Picks(n, other, Some(bound), step) == Picks(n, other, None, step)
    ensures step > 0 && bound + n < 0 ==> Picks(n, Some(bound), other, step) == Picks(n, None, other, step)
    ensures step > 0 && bound + n < 0 ==> Picks(n, other, Some(bound), step) == []
    ensures step < 0 && bound >= n ==> Picks(n, Some(bound), other, step) == Picks(n, None, other, step)
    ensures step < 0 && bound >= n ==> Picks(n, other, Some(bound), step) == []
    ensures step < 0 && bound + n < 0 ==> Picks(n, Some(bound), other, step) == []
    ensures step < 0 && bound + n < 0 ==> Picks(n, other, Some(bound), step) == Picks(n, other, None, step)
    ensures step > 0 ==> Picks(n, None, other, step) == Picks(n, Some(0), other, step)
    ensures step < 0 && n > 0 ==> Picks(n, None, other, step) == Picks(n, Some(-1), other, step)
  {
  }

  lemma Ordered(j: int, k: int, step: int)
    requires j < k && step != 0
    ensures if step > 0 then j * step < k * step else k * step < j * step
  {
    assert (k - j) * step == k * step - j * step;
  }

  ghost predicate Increasing(picks: seq<int>) {
    forall j, k :: 0 <= j < k < |picks| ==> picks[j] < picks[k]
  }

  ghost predicate Decreasing(picks: seq<int>) {
    forall j, k :: 0 <= j < k < |picks| ==> picks[k] < picks[j]
  }

  /** The slice reads as the same slice of the list does. */
  ghost predicate Faithful(f: Flat, picks: seq<int>)
    requires Sound(f) && picks != [] && InBounds(f, picks)
  {
    forall k :: 0 <= k < |picks| ==> Position(SliceOf(f, picks), k) == Some(Contents(f)[picks[k]])
  }

  lemma PickedBounds(f: Flat, picks: seq<int>, k: nat)
    requires Sound(f) && k < |picks| && InBounds(f, picks) && Increasing(picks)
    ensures f.starts[picks[0]] <= f.starts[picks[k]] <= f.ends[picks[k]] <= f.ends[picks[|picks| - 1]] <= |f.entries|
    ensures 0 <= f.starts[picks[0]]
  {
    var first, last := picks[0], picks[|picks| - 1];
    assert k > 0 ==> first < picks[k];
    assert k < |picks| - 1 ==> picks[k] < last;
  }

  lemma PickedEntries(f: Flat, picks: seq<int>, k: nat)
    requires Sound(f) && k < |picks| && InBounds(f, picks) && Increasing(picks)
    ensures var g := SliceOf(f, picks); var lo := f.starts[picks[0]];
      && |g.starts| == |g.ends| == |picks|
      && g.starts[k] == f.starts[picks[k]] - lo && g.ends[k] == f.ends[picks[k]] - lo
      && 0 <= g.starts[k] <= g.ends[k] <= |g.entries|
      && g.entries[g.starts[k]..g.ends[k]] == f.entries[f.starts[picks[k]]..f.ends[picks[k]]]
  {
    SliceFields(f, picks, k);
    PickedBounds(f, picks, k);
    hide Sound, SliceOf, Range;
    SubRange(f.entries, f.starts[picks[0]], f.ends[picks[|picks| - 1]], f.starts[picks[k]], f.ends[picks[k]]);
  }

  lemma SliceFields(f: Flat, picks: seq<int>, k: nat)
    requires |f.starts| == |f.ends| && k < |picks| && InBounds(f, picks)
    ensures var g := SliceOf(f, picks); var lo := f.starts[picks[0]];
      && |g.starts| == |g.ends| == |picks|
      && g.starts[k] == f.starts[picks[k]] - lo && g.ends[k] == f.ends[picks[k]] - lo
      && g.entries == Range(f.entries, lo, f.ends[picks[|picks| - 1]])
  {
    hide Range;
  }

  lemma SubRange(es: seq<Entry>, lo: int, hi: int, a: int, b: int)
    requires 0 <= lo <= a <= b <= hi <= |es|
    ensures Range(es, lo, hi) == es[lo..hi] && |es[lo..hi]| == hi - lo
    ensures es[lo..hi][a - lo..b - lo] == es[a..b]
  {
    var left, right := es[lo..hi][a - lo..b - lo], es[a..b];
    assert |left| == |right|;
    forall i | 0 <= i < |left| ensures left[i] == right[i] {
      assert left[i] == es[lo..hi][a - lo + i] == es[a + i];
    }
  }

  lemma PickedSound(f: Flat, picks: seq<int>)
    requires Sound(f) && picks != [] && InBounds(f, picks) && Increasing(picks)
    ensures Sound(SliceOf(f, picks))
  {
    hide SliceOf;
    var g := SliceOf(f, picks);
    PickedEntries(f, picks, 0);
    forall i | 0 <= i < |g.starts| ensures 0 <= g.starts[i] <= g.ends[i] <= |g.entries| {
      PickedEntries(f, picks, i);
    }
    forall i, j | 0 <= i < j < |g.starts| ensures g.ends[i] <= g.starts[j] {
      PickedEntries(f, picks, i);
      PickedEntries(f, picks, j);
    }
  }

  /** A slice with increasing positions is again a sound container, so it can be read and extended. */
  lemma ForwardSlice(f: Flat, picks: seq<int>)
    requires Sound(f) && picks != [] && InBounds(f, picks) && Increasing(picks)
    ensures Sound(SliceOf(f, picks)) && Contents(SliceOf(f, picks)) == Selected(Contents(f), picks)
    ensures Faithful(f, picks)
  {
    PickedSound(f, picks);
    PickedEntries(f, picks, 0);
    hide Sound, SliceOf, Position;
    var g := SliceOf(f, picks);
    forall k | 0 <= k < |picks|
      ensures Contents(g)[k] == Contents(f)[picks[k]] && Position(g, k) == Some(Contents(f)[picks[k]])
    {
      PickedEntries(f, picks, k);
      ReadsItsEntries(g, k);
    }
  }

  ghost predicate AllEmpty(f: Flat, picks: seq<int>)
    requires Sound(f) && InBounds(f, picks)
  {
    forall k :: 0 <= k < |picks| ==> f.starts[picks[k]] == f.ends[picks[k]]
  }

  /** A backward slice of two or more positions has no entries left, so only empty positions can be read. */
  lemma BackwardSlice(f: Flat, picks: seq<int>)
    requires Sound(f) && |picks| >= 2 && InBounds(f, picks) && Decreasing(picks)
    ensures Faithful(f, picks) <==> AllEmpty(f, picks)
  {
    var g := SliceOf(f, picks);
    assert g.entries == [] by {
      assert f.ends[picks[|picks| - 1]] <= f.starts[picks[0]];
    }
    forall k | 0 <= k < |picks|
      ensures Position(g, k) == Some(Contents(f)[picks[k]]) <==> f.starts[picks[k]] == f.ends[picks[k]]
    {
      var lo, hi := g.starts[k], g.ends[k];
      if lo < hi {
        assert At(g.entries, hi - 1) == None;
      }
    }
  }

  /** When a slice with any bounds and any step agrees with the list: if it goes forward, or picks a single
      position, or picks empty positions only. An empty slice raises. */
  lemma SliceFaithfulIff(f: Flat, start: Option<int>, stop: Option<int>, step: int)
    requires Sound(f) && step != 0 && Picks(|f.starts|, start, stop, step) != []
    ensures var picks := Picks(|f.starts|, start, stop, step);
      && InBounds(f, picks)
      && (Faithful(f, picks) <==> step > 0 || |picks| == 1 || AllEmpty(f, picks))
  {
    hide SliceOf, Sound, Picks, Position;
    PicksAre(|f.starts|, start, stop, step);
    var picks := Picks(|f.starts|, start, stop, step);
    if step > 0 || |picks| == 1 {
      ForwardSlice(f, picks);
    } else {
      BackwardSlice(f, picks);
    }
  }

  /** A forward slice that is then extended reads like the list that is sliced and then extended. */
  lemma SliceThenExtend(f: Flat, l: PlainList, start: Option<int>, stop: Option<int>, step: int, ops: seq<Op>)
    requires Refines(f, l) && step > 0 && Picks(|f.starts|, start, stop, step) != []
    ensures var picks := Picks(|f.starts|, start, stop, step);
      && InBounds(f, picks) && |f.starts| == |l|
      && Refines(FlatAfter(SliceOf(f, picks), ops), ListAfter(Selected(l, picks), ops))
  {
    assert |f.starts| == |f.ends|;
    hide SliceOf, Picks, Position, Sound;
    PicksAre(|f.starts|, start, stop, step);
    var picks := Picks(|f.starts|, start, stop, step);
    ForwardSlice(f, picks);
    assert ReadAll(Selected(l, picks)) == Selected(ReadAll(l), picks);
    HistoryRefines(SliceOf(f, picks), Selected(l, picks), ops);
  }

  // ---- the class -------------------------------------------------------------------------------------

  class FlatLogprobs {
    var startIndices: seq<int>
    var endIndices: seq<int>
    var tokenIds: seq<int>
    var logprobs: seq<real>
    var ranks: seq<Option<int>>
    var decodedTokens: seq<Option<string>>

    ghost predicate Parallel()
      reads this
    {
      |tokenIds| == |logprobs| == |ranks| == |decodedTokens|
    }

    ghost predicate Valid()
      reads this
    {
      |startIndices| == |endIndices| && Parallel()
    }

    function View(): Flat
      requires Parallel()
      reads this
    {
      Flat(startIndices, endIndices,
           seq(|tokenIds|, i requires 0 <= i < |tokenIds| reads this requires Parallel() =>
               Entry(tokenIds[i], Logprob(logprobs[i], ranks[i], decodedTokens[i]))))
    }

    constructor ()
      ensures Valid() && View() == Empty
    {
      startIndices, endIndices, tokenIds, logprobs, ranks, decodedTokens := [], [], [], [], [], [];
    }

    constructor Of(starts: seq<int>, ends: seq<int>, tokenIds: seq<int>, logprobs: seq<real>,
                   ranks: seq<Option<int>>, decodedTokens: seq<Option<string>>)
      ensures startIndices == starts && endIndices == ends && this.tokenIds == tokenIds
      ensures this.logprobs == logprobs && this.ranks == ranks && this.decodedTokens == decodedTokens
    {
      startIndices, endIndices := starts, ends;
      this.tokenIds, this.logprobs, this.ranks, this.decodedTokens := tokenIds, logprobs, ranks, decodedTokens;
    }

    method Push(token: int, info: Logprob)
      requires Parallel()
      modifies this
      ensures Parallel() && View() == old(View()).(entries := old(View()).entries + [Entry(token, info)])
    {
      tokenIds := tokenIds + [token];
      logprobs := logprobs + [info.logprob];
      ranks := ranks + [info.rank];
      decodedTokens := decodedTokens + [info.decodedToken];
    }

    method Append(onePosition: Option<seq<Entry>>)
      requires Valid()
      modifies this
      ensures Valid() && View() == Appended(old(View()), EntriesOf(onePosition))
    {
      ghost var f, es := View(), EntriesOf(onePosition);
      startIndices := startIndices + [|logprobs|];
      if onePosition.Some? {
        for i := 0 to |onePosition.value|
          invariant Parallel() && startIndices == f.starts + [|f.entries|] && endIndices == f.ends
          invariant View().entries == f.entries + es[..i]
        {
          Push(onePosition.value[i].token, onePosition.value[i].info);
        }
        assert es[..|es|] == es;
      }
      endIndices := endIndices + [|logprobs|];
      assert View().entries == f.entries + es;
    }

    method AppendFast(ids: seq<int>, lps: seq<real>, rankList: seq<int>, tokens: seq<Option<string>>)
      requires Valid()
      modifies this
      ensures Valid() && View() == Appended(old(View()), Zipped(ids, lps, rankList, tokens))
    {
      ghost var f, es := View(), Zipped(ids, lps, rankList, tokens);
      startIndices := startIndices + [|logprobs|];
      var n := Shortest(ids, lps, rankList, tokens);
      for i := 0 to n
        invariant Parallel() && startIndices == f.starts + [|f.entries|] && endIndices == f.ends
        invariant View().entries == f.entries + es[..i]
      {
        Push(ids[i], Logprob(lps[i], Some(rankList[i]), tokens[i]));
        assert es[..i + 1] == es[..i] + [es[i]];
      }
      assert es[..|es|] == es;
      endIndices := endIndices + [|logprobs|];
      assert View().entries == f.entries + es;
    }

    method Extend(positions: seq<Option<seq<Entry>>>)
      requires Valid()
      modifies this
      ensures Valid() && View() == Extended(old(View()), positions)
    {
      ghost var f := View();
      for i := 0 to |positions|
        invariant Valid() && View() == Extended(f, positions[..i])
      {
        assert positions[..i + 1][..i] == positions[..i];
        Append(positions[i]);
      }
      assert positions[..|positions|] == positions;
    }

    /** append_logprobs_for_next_position on a flat container. */
    method AppendNext(ids: seq<int>, lps: seq<real>, tokens: seq<Option<string>>, rank: int, numLogprobs: int)
      requires Valid()
      modifies this
      ensures Valid() && View() == Appended(old(View()), NextEntries(ids, lps, tokens, rank, numLogprobs))
    {
      AppendFast(ids, lps, RanksFor(rank, numLogprobs, |lps|), tokens);
    }

    /** None when the slice raises: its step is zero, or it picks nothing. */
    method Slice(start: Option<int>, stop: Option<int>, step: int) returns (r: FlatLogprobs?)
      requires Valid()
      ensures r == null <==> step == 0 || Picks(|startIndices|, start, stop, step) == []
      ensures r != null ==> fresh(r) && r.Valid()
      ensures r != null ==> var picks := Picks(|startIndices|, start, stop, step);
        InBounds(View(), picks) && r.View() == SliceOf(View(), picks)
    {
      if step == 0 {
        return null;
      }
      var picks := Picks(|startIndices|, start, stop, step);
      PicksAre(|startIndices|, start, stop, step);
      if picks == [] {
        return null;
      }
      var starts, ends := Selected(startIndices, picks), Selected(endIndices, picks);
      var minIndex, maxIndex := starts[0], ends[|ends| - 1];
      r := new FlatLogprobs.Of(Shifted(starts, minIndex), Shifted(ends, minIndex), Range(tokenIds, minIndex, maxIndex),
                               Range(logprobs, minIndex, maxIndex), Range(ranks, minIndex, maxIndex),
                               Range(decodedTokens, minIndex, maxIndex));
      assert r.View().entries == Range(View().entries, minIndex, maxIndex);
    }

    /** What iterating over the container yields. */
    method Iterate() returns (all: seq<OnePosition>)
      requires Valid() && Sound(View())
      ensures all == Contents(View())
    {
      all := [];
      for i := 0 to |startIndices|
        invariant all == Contents(View())[..i]
      {
        ReadsItsEntries(View(), i);
        all := all + [GetItem(View(), i).value];
      }
    }
  }
}
