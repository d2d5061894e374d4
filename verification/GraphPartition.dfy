/** Signatures of graph partitions: which buffers a partition takes, returns and frees. */
module GraphPartition {

  type Name = string

  /** lastUsage names the buffers for which nothing after this node has any use. */
  datatype Node = Node(outputs: set<Name>, readNames: set<Name>, writeNames: set<Name>, lastUsage: set<Name>)

  type Partition = seq<Node>

  /** known are the names with a graph node: the graph's inputs and its buffers. */
  datatype Graph = Graph(inputs: set<Name>, outputs: set<Name>, known: set<Name>, constants: set<Name>)

  /** freed are the inputs deallocated within the partition. */
  datatype Signature = Signature(inputs: set<Name>, freed: set<Name>, outputs: set<Name>, constants: set<Name>,
                                 skipCudagraph: bool)

  // ---- one partition ---------------------------------------------------------------------------------

  function OutputsOf(p: Partition): set<Name> {
    if p == [] then {} else OutputsOf(p[..|p| - 1]) + p[|p| - 1].outputs
  }

  function TouchedBy(p: Partition): set<Name> {
    if p == [] then {} else TouchedBy(p[..|p| - 1]) + p[|p| - 1].readNames + p[|p| - 1].writeNames
  }

  function LastUsedIn(p: Partition): set<Name> {
    if p == [] then {} else LastUsedIn(p[..|p| - 1]) + p[|p| - 1].lastUsage
  }

  /** Whatever the partition touches or frees without making it. */
  function InputsOf(g: Graph, p: Partition): set<Name> {
    (TouchedBy(p) - OutputsOf(p)) + (LastUsedIn(p) - OutputsOf(p)) * g.known
  }

  /** unmet are the names that later partitions and the graph's caller still want. */
  function ReturnedBy(g: Graph, p: Partition, unmet: set<Name>): set<Name> {
    OutputsOf(p) * unmet + (InputsOf(g, p) * g.known - LastUsedIn(p))
  }

  function SignatureOf(g: Graph, p: Partition, skip: bool, unmet: set<Name>): Signature {
    var ins := InputsOf(g, p);
    Signature(ins * g.known, ins * g.known * LastUsedIn(p), ReturnedBy(g, p, unmet), ins * g.constants, skip)
  }

  function UnmetBefore(g: Graph, p: Partition, unmet: set<Name>): set<Name> {
    InputsOf(g, p) + (unmet - ReturnedBy(g, p, unmet))
  }

  /** The names wanted by the partitions from i on. */
  function Unmet(g: Graph, ps: seq<Partition>, i: nat): set<Name>
    requires i <= |ps|
    decreases |ps| - i
  {
    if i == |ps| then g.outputs else UnmetBefore(g, ps[i], Unmet(g, ps, i + 1))
  }

  function SignatureAt(g: Graph, ps: seq<Partition>, skips: seq<bool>, i: nat): Signature
    requires i < |ps| == |skips|
  {
    SignatureOf(g, ps[i], skips[i], Unmet(g, ps, i + 1))
  }

  // ---- the loop --------------------------------------------------------------------------------------

  method MergeNodes(p: Partition) returns (outputs: set<Name>, touched: set<Name>, toFree: set<Name>)
    ensures outputs == OutputsOf(p) && touched == TouchedBy(p) && toFree == LastUsedIn(p)
  {
    outputs, touched, toFree := {}, {}, {};
    for i := 0 to |p|
      invariant outputs == OutputsOf(p[..i]) && touched == TouchedBy(p[..i]) && toFree == LastUsedIn(p[..i])
    {
      assert p[..i + 1][..i] == p[..i];
      outputs := outputs + p[i].outputs;
      touched := touched + p[i].readNames + p[i].writeNames;
      toFree := toFree + p[i].lastUsage;
    }
    assert p[..|p|] == p;
  }

  /** One round of the loop over the partitions. */
  method GetSignature(g: Graph, p: Partition, skip: bool, unmetOutputNames: set<Name>)
    returns (signature: Signature, unmetBefore: set<Name>)
    ensures signature == SignatureOf(g, p, skip, unmetOutputNames)
    ensures unmetBefore == UnmetBefore(g, p, unmetOutputNames)
  {
    var outputNames, touched, toFree := MergeNodes(p);
    var partitionInputNames := touched - outputNames;
    partitionInputNames := partitionInputNames + (toFree - outputNames) * g.known;
    var inputNodes := partitionInputNames * g.known;
    var inputDeallocation := inputNodes * toFree;
    var returnedOutputNames := outputNames * unmetOutputNames;
    returnedOutputNames := returnedOutputNames + (inputNodes - toFree);
    var constantNames := partitionInputNames * g.constants;
    signature := Signature(inputNodes, inputDeallocation, returnedOutputNames, constantNames, skip);
    unmetBefore := partitionInputNames + (unmetOutputNames - returnedOutputNames);
  }

  /** Partitions and skip flags are paired from the end; if one list is longer its front is ignored. */
  method GetGraphPartitionSignature(g: Graph, partitions: seq<Partition>, skipCudagraphs: seq<bool>)
    returns (signatures: seq<Signature>)
    ensures var m := if |partitions| < |skipCudagraphs| then |partitions| else |skipCudagraphs|;
      var ps := partitions[|partitions| - m..]; var skips := skipCudagraphs[|skipCudagraphs| - m..];
      |signatures| == m && forall i :: 0 <= i < m ==> signatures[i] == SignatureAt(g, ps, skips, i)
    ensures forall i :: 0 <= i < |signatures| ==>
              signatures[i].skipCudagraph == skipCudagraphs[|skipCudagraphs| - |signatures| + i]
  {
    var m := if |partitions| < |skipCudagraphs| then |partitions| else |skipCudagraphs|;
    var ps, skips := partitions[|partitions| - m..], skipCudagraphs[|skipCudagraphs| - m..];
    hide SignatureOf, UnmetBefore;
    signatures := [];
    var unmetOutputNames := g.outputs;
    var i := m;
    while i > 0
      invariant 0 <= i <= m && unmetOutputNames == Unmet(g, ps, i)
      invariant |signatures| == m - i
      invariant forall k :: 0 <= k < |signatures| ==> signatures[k] == SignatureAt(g, ps, skips, i + k)
    {
      i := i - 1;
      var signature;
      signature, unmetOutputNames := GetSignature(g, ps[i], skips[i], unmetOutputNames);
      signatures := [signature] + signatures;
    }
  }

  // ---- what a signature names ------------------------------------------------------------------------

  /** Made, touched or used for the last time by the partition is what one of its nodes makes, reads, writes or uses
      for the last time. */
  lemma {:induction false} ByItsNodes(p: Partition, x: Name)
    ensures x in OutputsOf(p) <==> exists n :: n in p && x in n.outputs
    ensures x in TouchedBy(p) <==> exists n :: n in p && (x in n.readNames || x in n.writeNames)
    ensures x in LastUsedIn(p) <==> exists n :: n in p && x in n.lastUsage
  {
    if p != [] {
      var front, last := p[..|p| - 1], p[|p| - 1];
      ByItsNodes(front, x);
      assert p == front + [last];
      assert last in p && forall n :: n in p <==> n in front || n == last;
    }
  }

  /** x comes from outside the partition: a node touches or frees it, no node makes it. */
  ghost predicate Takes(g: Graph, p: Partition, x: Name) {
    && (forall n :: n in p ==> x !in n.outputs)
    && ((exists n :: n in p && (x in n.readNames || x in n.writeNames))
        || (x in g.known && exists n :: n in p && x in n.lastUsage))
  }

  /** A signature takes as inputs the known names from outside, frees those of them it uses last, lists as constants
      the tensor constants among the names from outside, and keeps the partition's flag. */
  lemma SignatureNames(g: Graph, ps: seq<Partition>, skips: seq<bool>, i: nat, x: Name)
    requires i < |ps| == |skips|
    ensures var sig := SignatureAt(g, ps, skips, i);
      && (x in sig.inputs <==> x in g.known && Takes(g, ps[i], x))
      && (x in sig.freed <==> x in sig.inputs && exists n :: n in ps[i] && x in n.lastUsage)
      && (x in sig.constants <==> x in g.constants && Takes(g, ps[i], x))
      && sig.skipCudagraph == skips[i]
  {
    ByItsNodes(ps[i], x);
    hide OutputsOf, TouchedBy, LastUsedIn, Unmet;
  }

  // ---- running the partitions ------------------------------------------------------------------------

  ghost function MadeBefore(ps: seq<Partition>, i: nat): set<Name>
    requires i <= |ps|
  {
    if i == 0 then {} else MadeBefore(ps, i - 1) + OutputsOf(ps[i - 1])
  }

  /** Everything partitions from i on touch or free, and what the caller of the graph gets. */
  ghost function WantedFrom(g: Graph, ps: seq<Partition>, i: nat): set<Name>
    requires i <= |ps|
    decreases |ps| - i
  {
    if i == |ps| then g.outputs else WantedFrom(g, ps, i + 1) + TouchedBy(ps[i]) + LastUsedIn(ps[i])
  }

  /** A list of partitions that could be run as one graph: a name is touched, freed or returned by the graph
      only where it is a graph input or has been made, and last uses are what they say. */
  ghost predicate WellFormed(g: Graph, ps: seq<Partition>) {
    && (forall i, x :: 0 <= i < |ps| && x in g.known && (x in TouchedBy(ps[i]) || x in LastUsedIn(ps[i]))
          ==> x in g.inputs || x in MadeBefore(ps, i + 1))
    && (forall x :: x in g.outputs && x in g.known ==> x in g.inputs || x in MadeBefore(ps, |ps|))
    && (forall i, x :: 0 <= i < |ps| && x in LastUsedIn(ps[i]) ==> x !in WantedFrom(g, ps, i + 1))
  }

  /** The buffers alive when partition i starts, if every partition before it was called with the inputs of its
      signature: it has freed what the signature says and given back what it returns. */
  ghost function Live(g: Graph, ps: seq<Partition>, skips: seq<bool>, i: nat): set<Name>
    requires i <= |ps| == |skips|
  {
    if i == 0 then g.inputs
    else
      var sig := SignatureAt(g, ps, skips, i - 1);
      (Live(g, ps, skips, i - 1) - sig.freed) + sig.outputs
  }

  lemma {:induction false} UnmetIsWanted(g: Graph, ps: seq<Partition>, i: nat)
    requires i <= |ps|
    ensures Unmet(g, ps, i) <= WantedFrom(g, ps, i)
    decreases |ps| - i
  {
    if i < |ps| {
      UnmetIsWanted(g, ps, i + 1);
    }
  }

  /** Nothing is asked of the partitions before i that they could not have made. */
  lemma {:induction false} UnmetIsMade(g: Graph, ps: seq<Partition>, i: nat, x: Name)
    requires i <= |ps| && WellFormed(g, ps) && x in Unmet(g, ps, i) && x in g.known
    ensures x in g.inputs || x in MadeBefore(ps, i)
    decreases |ps| - i
  {
    if i < |ps| {
      if x !in InputsOf(g, ps[i]) {
        UnmetIsMade(g, ps, i + 1, x);
      }
    }
  }

  /** What partitions from i on want is alive when partition i starts. */
  lemma {:induction false} UnmetIsLive(g: Graph, ps: seq<Partition>, skips: seq<bool>, i: nat, x: Name)
    requires i <= |ps| == |skips| && WellFormed(g, ps) && x in Unmet(g, ps, i) && x in g.known
    ensures x in Live(g, ps, skips, i)
    decreases i
  {
    if i == 0 {
      UnmetIsMade(g, ps, 0, x);
    } else if x !in SignatureAt(g, ps, skips, i - 1).outputs {
      UnmetIsLive(g, ps, skips, i - 1, x);
      UnmetIsWanted(g, ps, i);
    }
  }

  /** Run in order with these signatures, every partition finds alive whatever it takes, and so whatever it
      reads, writes or frees without having made it. */
  lemma InputsAreLive(g: Graph, ps: seq<Partition>, skips: seq<bool>, i: nat)
    requires i < |ps| == |skips| && WellFormed(g, ps)
    ensures SignatureAt(g, ps, skips, i).inputs <= Live(g, ps, skips, i)
    ensures forall x :: x in g.known && (x in TouchedBy(ps[i]) || x in LastUsedIn(ps[i])) ==>
              x in OutputsOf(ps[i]) || x in Live(g, ps, skips, i)
  {
    forall x | x in SignatureAt(g, ps, skips, i).inputs ensures x in Live(g, ps, skips, i) {
      UnmetIsLive(g, ps, skips, i, x);
    }
  }

  /** At the end every graph output is alive: it was an input, or some partition returned it and none freed it. */
  lemma OutputsAreLive(g: Graph, ps: seq<Partition>, skips: seq<bool>, x: Name)
    requires |ps| == |skips| && WellFormed(g, ps) && x in g.outputs && x in g.known
    ensures x in Live(g, ps, skips, |ps|)
    ensures x !in g.inputs ==> exists i :: 0 <= i < |ps| && x in SignatureAt(g, ps, skips, i).outputs
  {
    UnmetIsLive(g, ps, skips, |ps|, x);
    if x !in g.inputs {
      var i := WhoReturned(g, ps, skips, |ps|, x);
    }
  }

  lemma {:induction false} WhoReturned(g: Graph, ps: seq<Partition>, skips: seq<bool>, n: nat, x: Name)
    returns (i: nat)
    requires n <= |ps| == |skips| && x in Live(g, ps, skips, n) && x !in g.inputs
    ensures i < n && x in SignatureAt(g, ps, skips, i).outputs
    decreases n
  {
    if x in SignatureAt(g, ps, skips, n - 1).outputs {
      i := n - 1;
    } else {
      i := WhoReturned(g, ps, skips, n - 1, x);
    }
  }

  /** What a partition frees is alive at the time and never taken, freed or returned again: no buffer is freed
      twice or used after being freed. */
  lemma FreedOnce(g: Graph, ps: seq<Partition>, skips: seq<bool>, i: nat, j: nat, x: Name)
    requires i < j < |ps| == |skips| && WellFormed(g, ps) && x in SignatureAt(g, ps, skips, i).freed
    ensures x in Live(g, ps, skips, i)
    ensures x !in SignatureAt(g, ps, skips, j).inputs && x !in SignatureAt(g, ps, skips, j).freed
    ensures x !in TouchedBy(ps[j]) && x !in g.outputs
  {
    hide SignatureAt, WantedFrom, InputsOf, Unmet, WellFormed, Live, TouchedBy, LastUsedIn;
    FreedIsLastUse(g, ps, skips, i, x);
    UnmetIsLive(g, ps, skips, i, x);
    LastUseUnwanted(g, ps, i, x);
    WantedLater(g, ps, i + 1, j, x);
    WantedLater(g, ps, i + 1, |ps|, x);
    TakenIsWanted(g, ps, skips, j, x);
    WantedAtEnd(g, ps);
  }

  lemma FreedIsLastUse(g: Graph, ps: seq<Partition>, skips: seq<bool>, i: nat, x: Name)
    requires i < |ps| == |skips| && x in SignatureAt(g, ps, skips, i).freed
    ensures x in LastUsedIn(ps[i]) && x in g.known && x in Unmet(g, ps, i)
  {
  }

  lemma LastUseUnwanted(g: Graph, ps: seq<Partition>, i: nat, x: Name)
    requires i < |ps| && WellFormed(g, ps) && x in LastUsedIn(ps[i])
    ensures x !in WantedFrom(g, ps, i + 1)
  {
  }

  lemma TakenIsWanted(g: Graph, ps: seq<Partition>, skips: seq<bool>, j: nat, x: Name)
    requires j < |ps| == |skips| && x !in WantedFrom(g, ps, j)
    ensures x !in TouchedBy(ps[j])
    ensures x !in SignatureAt(g, ps, skips, j).inputs && x !in SignatureAt(g, ps, skips, j).freed
  {
  }

  lemma WantedAtEnd(g: Graph, ps: seq<Partition>)
    ensures WantedFrom(g, ps, |ps|) == g.outputs
  {
  }

  lemma {:induction false} WantedLater(g: Graph, ps: seq<Partition>, i: nat, j: nat, x: Name)
    requires i <= j <= |ps| && x !in WantedFrom(g, ps, i)
    ensures x !in WantedFrom(g, ps, j)
    decreases j - i
  {
    if i < j {
      WantedLater(g, ps, i + 1, j, x);
    }
  }

  /** A buffer whose last use lies in partition i, made earlier or given, is freed by that partition. */
  lemma LastUseFrees(g: Graph, ps: seq<Partition>, skips: seq<bool>, i: nat, x: Name)
    requires i < |ps| == |skips| && x in g.known && x in LastUsedIn(ps[i]) && x !in OutputsOf(ps[i])
    ensures x in SignatureAt(g, ps, skips, i).inputs && x in SignatureAt(g, ps, skips, i).freed
    ensures x !in SignatureAt(g, ps, skips, i).outputs
  {
  }

  // ---- nothing is returned in vain -------------------------------------------------------------------

  ghost predicate TakenLater(g: Graph, ps: seq<Partition>, i: nat, x: Name)
    requires i <= |ps|
  {
    x in g.outputs || exists j :: i <= j < |ps| && x in InputsOf(g, ps[j])
  }

  lemma {:induction false} UnmetIffTaken(g: Graph, ps: seq<Partition>, i: nat, x: Name)
    requires i <= |ps| && forall j :: i <= j < |ps| ==> x !in OutputsOf(ps[j])
    ensures x in Unmet(g, ps, i) <==> TakenLater(g, ps, i, x)
    decreases |ps| - i
  {
    if i < |ps| {
      UnmetIffTaken(g, ps, i + 1, x);
      if TakenLater(g, ps, i, x) && x !in g.outputs {
        var j :| i <= j < |ps| && x in InputsOf(g, ps[j]);
        assert j > i ==> TakenLater(g, ps, i + 1, x);
      }
      if TakenLater(g, ps, i + 1, x) {
        assert TakenLater(g, ps, i, x);
      }
      if x in InputsOf(g, ps[i]) {
        assert TakenLater(g, ps, i, x);
      }
    }
  }

  /** With one maker per buffer, a partition returns a buffer it makes exactly when the graph returns it or a
      later partition takes it. */
  lemma ReturnedIffTaken(g: Graph, ps: seq<Partition>, skips: seq<bool>, i: nat, x: Name)
    requires i < |ps| == |skips| && x in OutputsOf(ps[i])
    requires forall j :: i < j < |ps| ==> x !in OutputsOf(ps[j])
    ensures x in SignatureAt(g, ps, skips, i).outputs <==> TakenLater(g, ps, i + 1, x)
  {
    UnmetIffTaken(g, ps, i + 1, x);
  }
}
