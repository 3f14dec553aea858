/**
 The graph as aig-manip holds it in memory, a list of nodes, and the check that it is
 topologically sorted.
 */
module AigGraph {
  import opened AigCore
  import opened Wrappers
  import opened BitVecs

  /** Node 0 is the constant false; inputs and latches are leaves too. */
  datatype Node = Leaf | And(f0: Lit, f1: Lit)

  datatype LatchNode = LatchNode(input: nat, next: Lit)

  datatype Graph = Graph(nodes: seq<Node>, inputs: seq<nat>, latches: seq<LatchNode>) {
    predicate IsAnd(x: nat) { 0 < x < |nodes| && nodes[x].And? }
  }

  predicate IsSource(g: Graph, x: nat) {
    x == 0 || x in g.inputs || exists i :: 0 <= i < |g.latches| && g.latches[i].input == x
  }

  /** Node `x` has a value before node `n` is computed. */
  predicate Available(g: Graph, x: nat, n: nat) {
    x < |g.nodes| && (IsSource(g, x) || (x < n && g.IsAnd(x)))
  }

  ghost predicate SourcesInRange(g: Graph) {
    && 0 < |g.nodes|
    && (forall i :: 0 <= i < |g.inputs| ==> g.inputs[i] < |g.nodes|)
    && (forall i :: 0 <= i < |g.latches| ==> g.latches[i].input < |g.nodes|)
  }

  ghost predicate GatesSorted(g: Graph, n: nat) {
    forall x :: 0 < x < n && g.IsAnd(x) ==> Available(g, g.nodes[x].f0.v, x) && Available(g, g.nodes[x].f1.v, x)
  }

  /** Every gate comes after its operands, and every latch input is defined. */
  ghost predicate TopoSorted(g: Graph) {
    && SourcesInRange(g)
    && GatesSorted(g, |g.nodes|)
    && forall i :: 0 <= i < |g.latches| ==> Available(g, g.latches[i].next.v, |g.nodes|)
  }

  /** The bits record which nodes below `n` are available. */
  ghost predicate Records(ok: seq<bool>, g: Graph, n: nat) {
    |ok| == |g.nodes| && forall x :: 0 <= x < |ok| ==> ok[x] == Available(g, x, n)
  }

  /** Whether the graph passes; the source stops at the first thing that does not. */
  method CheckAig(g: Graph) returns (ok: bool)
    ensures ok <==> TopoSorted(g)
  {
    hide Available, IsSource;
    if |g.nodes| == 0 {
      return false;
    }
    var bits := new BitVec.FillZero(|g.nodes|);
    var inRange := MarkSources(g, bits);
    if !inRange {
      return false;
    }
    var sorted := CheckGates(g, bits);
    if !sorted {
      return false;
    }
    for i := 0 to |g.latches|
      invariant bits.Valid() && Records(bits.Contents(), g, |g.nodes|)
      invariant forall j :: 0 <= j < i ==> Available(g, g.latches[j].next.v, |g.nodes|)
    {
      var v := bits.Get(g.latches[i].next.v);
      UnavailableOutside(g, g.latches[i].next.v, |g.nodes|);
      if v != Some(true) {
        return false;
      }
    }
    return true;
  }

  lemma UnavailableOutside(g: Graph, x: nat, n: nat)
    ensures |g.nodes| <= x ==> !Available(g, x, n)
  {
  }

  method MarkSources(g: Graph, bits: BitVec) returns (ok: bool)
    requires 0 < |g.nodes| && bits.Valid() && |bits.Contents()| == |g.nodes|
    requires forall x :: 0 <= x < |g.nodes| ==> !bits.Contents()[x]
    modifies bits
    ensures ok <==> SourcesInRange(g)
    ensures ok ==> bits.Valid() && Records(bits.Contents(), g, 1)
  {
    bits.Set(0, true);
    for i := 0 to |g.inputs|
      invariant bits.Valid() && |bits.Contents()| == |g.nodes|
      invariant forall j :: 0 <= j < i ==> g.inputs[j] < |g.nodes|
      invariant forall x :: 0 <= x < |g.nodes| ==> bits.Contents()[x] == (x == 0 || x in g.inputs[..i])
    {
      if g.inputs[i] >= |g.nodes| {
        return false;
      }
      bits.Set(g.inputs[i], true);
    }
    assert g.inputs[..|g.inputs|] == g.inputs;
    for i := 0 to |g.latches|
      invariant bits.Valid() && |bits.Contents()| == |g.nodes|
      invariant forall j :: 0 <= j < i ==> g.latches[j].input < |g.nodes|
      invariant forall x :: 0 <= x < |g.nodes| ==>
        bits.Contents()[x] == (x == 0 || x in g.inputs || exists j :: 0 <= j < i && g.latches[j].input == x)
    {
      if g.latches[i].input >= |g.nodes| {
        return false;
      }
      bits.Set(g.latches[i].input, true);
    }
    return true;
  }

  method CheckGates(g: Graph, bits: BitVec) returns (ok: bool)
    requires bits.Valid() && Records(bits.Contents(), g, 1)
    modifies bits
    ensures ok <==> GatesSorted(g, |g.nodes|)
    ensures ok ==> bits.Valid() && Records(bits.Contents(), g, |g.nodes|)
  {
    var n := 1;
    while n < |g.nodes|
      invariant 1 <= n && bits.Valid() && Records(bits.Contents(), g, n)
      invariant n <= |g.nodes| || |g.nodes| == 0
      invariant GatesSorted(g, n)
    {
      if g.nodes[n].And? {
        var v0 := bits.Get(g.nodes[n].f0.v);
        var v1 := bits.Get(g.nodes[n].f1.v);
        if v0 != Some(true) || v1 != Some(true) {
          assert !(Available(g, g.nodes[n].f0.v, n) && Available(g, g.nodes[n].f1.v, n));
          return false;
        }
        bits.Set(n, true);
      }
      n := n + 1;
    }
    return true;
  }

  // ----- what a sorted graph means -----

  ghost predicate GraphHolds(g: Graph, w: Frame) {
    && !w(0)
    && forall x :: 0 < x < |g.nodes| && g.IsAnd(x) ==> w(x) == (LitVal(w, g.nodes[x].f0) && LitVal(w, g.nodes[x].f1))
  }

  ghost predicate SourcesAreLeaves(g: Graph) {
    forall x: nat :: IsSource(g, x) ==> !g.IsAnd(x)
  }

  /** A gate's operand is a leaf, or a gate with a smaller number. */
  lemma OperandBelow(g: Graph, x: nat)
    requires TopoSorted(g) && SourcesAreLeaves(g) && g.IsAnd(x)
    ensures g.IsAnd(g.nodes[x].f0.v) ==> g.nodes[x].f0.v < x
    ensures g.IsAnd(g.nodes[x].f1.v) ==> g.nodes[x].f1.v < x
  {
    assert Available(g, g.nodes[x].f0.v, x) && Available(g, g.nodes[x].f1.v, x);
  }

  function NodeVal(g: Graph, leaf: Frame, x: nat): bool
    decreases x
  {
    if x == 0 then false
    else if !g.IsAnd(x) then leaf(x)
    else
      var l, r := g.nodes[x].f0, g.nodes[x].f1;
      // In a sorted graph the last resort is never needed.
      && (if l.v < x then NodeVal(g, leaf, l.v) else l.v != 0 && leaf(l.v)) != l.neg
      && (if r.v < x then NodeVal(g, leaf, r.v) else r.v != 0 && leaf(r.v)) != r.neg
  }

  function NodeFrame(g: Graph, leaf: Frame): Frame {
    (x: nat) => NodeVal(g, leaf, x)
  }

  /** Any values of the leaves extend to all nodes of a sorted graph... */
  lemma ValuesExist(g: Graph, leaf: Frame)
    requires TopoSorted(g) && SourcesAreLeaves(g)
    ensures GraphHolds(g, NodeFrame(g, leaf))
    ensures forall x :: 0 < x && !g.IsAnd(x) ==> NodeFrame(g, leaf)(x) == leaf(x)
  {
    var w := NodeFrame(g, leaf);
    forall x | 0 < x < |g.nodes| && g.IsAnd(x)
      ensures w(x) == (LitVal(w, g.nodes[x].f0) && LitVal(w, g.nodes[x].f1))
    {
      OperandBelow(g, x);
    }
  }

  /** ...in one way only. */
  lemma {:induction false} ValuesUnique(g: Graph, w: Frame, w': Frame, x: nat)
    requires TopoSorted(g) && SourcesAreLeaves(g) && GraphHolds(g, w) && GraphHolds(g, w')
    requires forall y: nat :: !g.IsAnd(y) ==> w(y) == w'(y)
    ensures w(x) == w'(x)
    decreases x
  {
    hide TopoSorted, SourcesAreLeaves;
    if g.IsAnd(x) {
      OperandBelow(g, x);
      var l, r := g.nodes[x].f0.v, g.nodes[x].f1.v;
      if g.IsAnd(l) {
        ValuesUnique(g, w, w', l);
      }
      if g.IsAnd(r) {
        ValuesUnique(g, w, w', r);
      }
    }
  }

  // ----- a graph read from a file -----

  function Ands(gates: seq<Gate>): seq<Node> {
    seq(|gates|, i requires 0 <= i < |gates| => And(gates[i].rhs0, gates[i].rhs1))
  }

  /** The node list of a graph in file order: node numbers are variable numbers. */
  function Load(a: Aig): Graph {
    Graph([Leaf] + seq(a.Base(), i => Leaf) + Ands(a.gates),
          seq(a.inputs, i => 1 + i),
          seq(|a.latches|, i requires 0 <= i < |a.latches| => LatchNode(a.inputs + 1 + i, a.latches[i].next)))
  }

  ghost predicate NextsBounded(a: Aig) {
    forall i :: 0 <= i < |a.latches| ==> a.latches[i].next.v <= a.Base() + |a.gates|
  }

  lemma LoadedAvailable(a: Aig, x: nat, n: nat)
    requires n <= a.Base() + 1 + |a.gates| && (x <= a.Base() || x < n)
    ensures Available(Load(a), x, n)
    ensures x <= a.Base() ==> !Load(a).IsAnd(x)
  {
    var g := Load(a);
    if 1 <= x <= a.inputs {
      assert g.inputs[x - 1] == x;
    } else if a.inputs < x <= a.Base() {
      assert g.latches[x - a.inputs - 1].input == x;
    } else if a.Base() < x {
      assert g.nodes[x] == And(a.gates[x - a.Base() - 1].rhs0, a.gates[x - a.Base() - 1].rhs1);
    }
  }

  /** Sorted gates and defined latch inputs are all that the check asks of a file. */
  lemma SortedFilePasses(a: Aig)
    requires Sorted(a.gates, a.Base()) && NextsBounded(a)
    ensures TopoSorted(Load(a)) && SourcesAreLeaves(Load(a))
  {
    hide Available;
    var g := Load(a);
    assert |g.nodes| == a.Base() + 1 + |a.gates|;
    forall x | 0 < x < |g.nodes| && g.IsAnd(x)
      ensures Available(g, g.nodes[x].f0.v, x) && Available(g, g.nodes[x].f1.v, x)
    {
      LoadedAvailable(a, x, |g.nodes|);
      var k := x - a.Base() - 1;
      assert g.nodes[x] == And(a.gates[k].rhs0, a.gates[k].rhs1);
      assert a.gates[k].rhs1.Code() <= a.gates[k].rhs0.Code() && a.gates[k].rhs0.v < a.Base() + 1 + k;
      LoadedAvailable(a, g.nodes[x].f0.v, x);
      LoadedAvailable(a, g.nodes[x].f1.v, x);
    }
    forall i | 0 <= i < |g.latches|
      ensures Available(g, g.latches[i].next.v, |g.nodes|)
    {
      LoadedAvailable(a, a.latches[i].next.v, |g.nodes|);
    }
    forall x: nat | IsSource(g, x)
      ensures !g.IsAnd(x)
    {
      LoadedAvailable(a, x, |g.nodes|);
    }
  }

  /** Loading a file keeps its meaning: the same frames satisfy its gates. */
  lemma LoadMeans(a: Aig, f: Frame)
    ensures GraphHolds(Load(a), f) <==> GatesHold(a.gates, a.Base(), f)
  {
    var g, base := Load(a), a.Base();
    assert |g.nodes| == 1 + base + |a.gates|;
    forall x | 0 <= x < |g.nodes|
      ensures g.IsAnd(x) <==> base < x
      ensures base < x ==> g.nodes[x] == And(a.gates[x - base - 1].rhs0, a.gates[x - base - 1].rhs1)
    {
    }
    if GraphHolds(g, f) {
      forall k | 0 <= k < |a.gates|
        ensures f(base + 1 + k) == GateVal(f, a.gates[k])
      {
        assert g.IsAnd(base + 1 + k);
      }
    }
  }

  /** Its inputs and latches are nodes of their own, with their next-state literals. */
  lemma LoadedLatches(a: Aig, i: nat)
    requires i < |a.latches|
    ensures |Load(a).latches| == |a.latches| && Load(a).latches[i] == LatchNode(a.inputs + 1 + i, a.latches[i].next)
    ensures |Load(a).inputs| == a.inputs && forall k :: 0 <= k < a.inputs ==> Load(a).inputs[k] == 1 + k
  {
  }
}
