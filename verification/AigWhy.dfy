/**
 The `why` command of aig-manip: which named signals gave a bit the value it has in a trace.
 */
module AigWhy {
  import opened AigCore
  import opened AigGraph

  /** Every operand refers to a node. */
  ghost predicate InRange(g: Graph) {
    0 < |g.nodes| && forall x :: 0 < x < |g.nodes| && g.IsAnd(x) ==>
      g.nodes[x].f0.v < |g.nodes| && g.nodes[x].f1.v < |g.nodes|
  }

  lemma SortedIsInRange(g: Graph)
    requires TopoSorted(g)
    ensures InRange(g)
  {
    forall x | 0 < x < |g.nodes| && g.IsAnd(x)
      ensures g.nodes[x].f0.v < |g.nodes| && g.nodes[x].f1.v < |g.nodes|
    {
      assert Available(g, g.nodes[x].f0.v, x) && Available(g, g.nodes[x].f1.v, x);
    }
  }

  /** The operands responsible for the value of gate `x`: a false one alone, otherwise both. */
  function Responsible(g: Graph, sim: Frame, x: nat): seq<nat>
    requires g.IsAnd(x)
  {
    var l, r := g.nodes[x].f0, g.nodes[x].f1;
    if LitVal(sim, l) == LitVal(sim, r) then [l.v, r.v]
    else if LitVal(sim, l) then [r.v]
    else [l.v]
  }

  /** Operand `c` of gate `x` is to blame: its literal has the value of the gate. */
  ghost predicate Blames(g: Graph, sim: Frame, x: nat, c: nat) {
    && g.IsAnd(x)
    && var l, r := g.nodes[x].f0, g.nodes[x].f1;
       (c == l.v && LitVal(sim, l) == sim(x)) || (c == r.v && LitVal(sim, r) == sim(x))
  }

  /** The search follows just those operands. */
  lemma ResponsibleIsBlamed(g: Graph, sim: Frame, x: nat, c: nat)
    requires GraphHolds(g, sim) && g.IsAnd(x)
    ensures c in Responsible(g, sim, x) <==> Blames(g, sim, x, c)
  {
  }

  /** A true gate blames both operands, a false one exactly those that are false. */
  lemma BlameMeans(g: Graph, sim: Frame, x: nat)
    requires GraphHolds(g, sim) && g.IsAnd(x)
    ensures var l, r := g.nodes[x].f0, g.nodes[x].f1;
            && (sim(x) ==> LitVal(sim, l) && LitVal(sim, r) && Blames(g, sim, x, l.v) && Blames(g, sim, x, r.v))
            && (!sim(x) && l.v != r.v ==> (Blames(g, sim, x, l.v) <==> !LitVal(sim, l)))
            && (!sim(x) && l.v != r.v ==> (Blames(g, sim, x, r.v) <==> !LitVal(sim, r)))
            && (forall c :: Blames(g, sim, x, c) ==> c == l.v || c == r.v)
  {
  }

  /** Node `x` is explained by what the search has looked at or still will. */
  ghost predicate Explained(g: Graph, named: set<nat>, sim: Frame, known: set<nat>, x: nat) {
    x in named || !g.IsAnd(x) || forall c :: c in Responsible(g, sim, x) ==> c in known
  }

  ghost predicate AllExplained(g: Graph, named: set<nat>, sim: Frame, seen: set<nat>, known: set<nat>) {
    forall x :: x in seen ==> Explained(g, named, sim, known, x)
  }

  ghost function Queue(s: seq<nat>): set<nat> {
    set x | x in s
  }

  /** Nodes seen that have a name, and unnamed leaves seen. */
  ghost function NamedIn(named: set<nat>, seen: set<nat>): set<nat> {
    set x | x in seen && x in named
  }

  ghost function LeavesIn(g: Graph, named: set<nat>, seen: set<nat>): set<nat> {
    set x | x in seen && x !in named && !g.IsAnd(x)
  }

  // ----- what the command should report -----

  /** An operand of a queried gate. */
  ghost predicate IsStart(g: Graph, bits: seq<nat>, x: nat) {
    exists i :: 0 <= i < |bits| && g.IsAnd(bits[i]) && (x == g.nodes[bits[i]].f0.v || x == g.nodes[bits[i]].f1.v)
  }

  /** From an operand of a queried gate through unnamed gates, always to an operand to blame. */
  ghost predicate IsRoute(g: Graph, named: set<nat>, sim: Frame, bits: seq<nat>, p: seq<nat>) {
    && |p| > 0 && IsStart(g, bits, p[0])
    && forall i :: 0 <= i < |p| - 1 ==> p[i] !in named && Blames(g, sim, p[i], p[i + 1])
  }

  ghost predicate Reached(g: Graph, named: set<nat>, sim: Frame, bits: seq<nat>, x: nat) {
    exists p :: IsRoute(g, named, sim, bits, p) && p[|p| - 1] == x
  }

  lemma StartIsReached(g: Graph, named: set<nat>, sim: Frame, bits: seq<nat>, x: nat)
    requires IsStart(g, bits, x)
    ensures Reached(g, named, sim, bits, x)
  {
    assert IsRoute(g, named, sim, bits, [x]) && [x][0] == x;
  }

  lemma ReachedNext(g: Graph, named: set<nat>, sim: Frame, bits: seq<nat>, x: nat, c: nat)
    requires Reached(g, named, sim, bits, x) && x !in named && Blames(g, sim, x, c)
    ensures Reached(g, named, sim, bits, c)
  {
    hide Blames, IsStart;
    var p :| IsRoute(g, named, sim, bits, p) && p[|p| - 1] == x;
    assert IsRoute(g, named, sim, bits, p + [c]);
  }

  /** A closed set with all the starts holds everything that can be reached. */
  lemma {:induction false} ReachedIsSeen(g: Graph, named: set<nat>, sim: Frame, bits: seq<nat>, seen: set<nat>,
                                         p: seq<nat>)
    requires AllExplained(g, named, sim, seen, seen) && forall x :: IsStart(g, bits, x) ==> x in seen
    requires IsRoute(g, named, sim, bits, p) && GraphHolds(g, sim)
    ensures p[|p| - 1] in seen
    decreases |p|
  {
    hide Responsible, IsStart, GraphHolds;
    if |p| > 1 {
      var last := |p| - 1;
      ReachedIsSeen(g, named, sim, bits, seen, p[..last]);
      assert Explained(g, named, sim, seen, p[last - 1]);
      assert Blames(g, sim, p[last - 1], p[last]);
      ResponsibleIsBlamed(g, sim, p[last - 1], p[last]);
    }
  }

  /** The nodes where the search stops: named ones, and unnamed leaves. */
  ghost predicate IsCause(g: Graph, named: set<nat>, sim: Frame, bits: seq<nat>, x: nat) {
    Reached(g, named, sim, bits, x) && (x in named || !g.IsAnd(x))
  }

  /** Every valuation that agrees with the trace on the causes agrees on `x`. */
  ghost predicate Explains(g: Graph, named: set<nat>, sim: Frame, bits: seq<nat>, x: nat) {
    forall w: Frame :: GraphHolds(g, w) && (forall c :: IsCause(g, named, sim, bits, c) ==> w(c) == sim(c)) ==>
      w(x) == sim(x)
  }

  // ----- why closed searches are sufficient -----

  ghost predicate AgreeOn(w: Frame, sim: Frame, s: set<nat>) {
    forall x :: x in s ==> w(x) == sim(x)
  }

  /** Values that agree on the named nodes and leaves seen agree on everything seen. */
  lemma {:induction false} SeenAgrees(g: Graph, named: set<nat>, sim: Frame, w: Frame, seen: set<nat>, x: nat)
    requires TopoSorted(g) && SourcesAreLeaves(g) && GraphHolds(g, sim) && GraphHolds(g, w)
    requires AllExplained(g, named, sim, seen, seen) && x in seen
    requires AgreeOn(w, sim, NamedIn(named, seen) + LeavesIn(g, named, seen))
    ensures w(x) == sim(x)
    decreases if g.IsAnd(x) then x else 0, if g.IsAnd(x) then 1 else 0
  {
    hide TopoSorted, SourcesAreLeaves;
    assert Explained(g, named, sim, seen, x);
    if x !in named && g.IsAnd(x) {
      OperandBelow(g, x);
      forall c | c in Responsible(g, sim, x)
        ensures w(c) == sim(c)
      {
        SeenAgrees(g, named, sim, w, seen, c);
      }
      ResponsibleDecides(g, sim, w, x);
    }
  }

  /** The responsible operands alone decide the gate. */
  lemma ResponsibleDecides(g: Graph, sim: Frame, w: Frame, x: nat)
    requires g.IsAnd(x) && GraphHolds(g, sim) && GraphHolds(g, w)
    requires forall c :: c in Responsible(g, sim, x) ==> w(c) == sim(c)
    ensures w(x) == sim(x)
  {
    var l, r := g.nodes[x].f0, g.nodes[x].f1;
    if LitVal(sim, l) == LitVal(sim, r) {
      assert l.v in Responsible(g, sim, x) && r.v in Responsible(g, sim, x);
    } else if LitVal(sim, l) {
      assert r.v in Responsible(g, sim, x);
    } else {
      assert l.v in Responsible(g, sim, x);
    }
  }

  // ----- the search -----

  ghost function Below(n: nat): (s: set<nat>)
    ensures forall x: nat :: x in s <==> x < n
  {
    if n == 0 then {} else Below(n - 1) + {n - 1}
  }

  ghost function AllNodes(g: Graph): set<nat> {
    Below(|g.nodes|)
  }

  /** What holds between two steps of the search, for everything looked at so far. */
  ghost predicate Searching(g: Graph, named: set<nat>, sim: Frame, bits: seq<nat>, seen: set<nat>, toVisit: seq<nat>,
                            visited: set<nat>, found: set<nat>) {
    && seen + Queue(toVisit) <= AllNodes(g) && visited <= seen + Queue(toVisit)
    && AllExplained(g, named, sim, seen, seen + Queue(toVisit))
    && found == NamedIn(named, seen)
    && AllReached(g, named, sim, bits, seen + Queue(toVisit))
  }

  ghost predicate AllReached(g: Graph, named: set<nat>, sim: Frame, bits: seq<nat>, s: set<nat>) {
    forall x :: x in s ==> Reached(g, named, sim, bits, x)
  }

  /** Adds the operands that have not been queued before. */
  method Enqueue(cs: seq<nat>, toVisit: seq<nat>, visited: set<nat>) returns (toVisit': seq<nat>, visited': set<nat>)
    ensures visited' == visited + Queue(cs)
    ensures Queue(toVisit') == Queue(toVisit) + (Queue(cs) - visited)
    ensures visited' == visited ==> toVisit' == toVisit
  {
    toVisit', visited' := toVisit, visited;
    for i := 0 to |cs|
      invariant visited' == visited + Queue(cs[..i])
      invariant Queue(toVisit') == Queue(toVisit) + (Queue(cs[..i]) - visited)
      invariant visited' == visited ==> toVisit' == toVisit
    {
      assert Queue(cs[..i + 1]) == Queue(cs[..i]) + {cs[i]} by { assert cs[..i + 1] == cs[..i] + [cs[i]]; }
      if cs[i] !in visited' {
        visited' := visited' + {cs[i]};
        assert Queue(toVisit' + [cs[i]]) == Queue(toVisit') + {cs[i]};
        toVisit' := toVisit' + [cs[i]];
      }
    }
    assert cs[..|cs|] == cs;
  }

  /** Looks at one node: a name ends the search there, a gate passes it to its responsible operands. */
  method Look(g: Graph, named: set<nat>, sim: Frame, ghost bits: seq<nat>, ghost seen: set<nat>, toVisit: seq<nat>,
              visited: set<nat>, found: set<nat>)
    returns (toVisit': seq<nat>, visited': set<nat>, found': set<nat>)
    requires InRange(g) && GraphHolds(g, sim) && toVisit != [] &&
             Searching(g, named, sim, bits, seen, toVisit, visited, found)
    ensures Searching(g, named, sim, bits, seen + {toVisit[|toVisit| - 1]}, toVisit', visited', found')
    ensures visited <= visited' && Queue(toVisit) <= Queue(toVisit') + {toVisit[|toVisit| - 1]}
    ensures visited' == visited ==> |toVisit'| < |toVisit|
  {
    hide Responsible, Reached, GraphHolds, Blames;
    var last := |toVisit| - 1;
    var x := toVisit[last];
    toVisit', visited', found' := toVisit[..last], visited, found;
    ghost var known := seen + Queue(toVisit);
    assert Queue(toVisit) == Queue(toVisit') + {x} by { assert toVisit == toVisit' + [x]; }
    if x in named {
      found' := found + {x};
    } else if g.IsAnd(x) {
      ResponsibleInRange(g, sim, x);
      forall c | c in Responsible(g, sim, x)
        ensures Reached(g, named, sim, bits, c)
      {
        ResponsibleIsBlamed(g, sim, x, c);
        ReachedNext(g, named, sim, bits, x, c);
      }
      toVisit', visited' := Enqueue(Responsible(g, sim, x), toVisit', visited);
    }
    forall y | y in seen + {x}
      ensures Explained(g, named, sim, seen + {x} + Queue(toVisit'), y)
    {
      if y in seen {
        assert Explained(g, named, sim, known, y);
      }
    }
  }

  lemma ResponsibleInRange(g: Graph, sim: Frame, x: nat)
    requires InRange(g) && g.IsAnd(x)
    ensures Queue(Responsible(g, sim, x)) <= AllNodes(g)
  {
  }

  /** Runs the search to the end from the given worklist. */
  method Drain(g: Graph, named: set<nat>, sim: Frame, ghost bits: seq<nat>, ghost seen: set<nat>, start: seq<nat>,
               visited0: set<nat>, found0: set<nat>)
    returns (visited: set<nat>, found: set<nat>, ghost seen': set<nat>)
    requires InRange(g) && GraphHolds(g, sim) && Searching(g, named, sim, bits, seen, start, visited0, found0)
    ensures Searching(g, named, sim, bits, seen', [], visited, found)
    ensures seen + Queue(start) <= seen'
  {
    hide InRange, AllNodes, GraphHolds;
    var toVisit := start;
    visited, found, seen' := visited0, found0, seen;
    while toVisit != []
      invariant Searching(g, named, sim, bits, seen', toVisit, visited, found)
      invariant seen + Queue(start) <= seen' + Queue(toVisit)
      decreases AllNodes(g) - visited, |toVisit|
    {
      ghost var x := toVisit[|toVisit| - 1];
      toVisit, visited, found := Look(g, named, sim, bits, seen', toVisit, visited, found);
      seen' := seen' + {x};
    }
  }

  /**
   Reports exactly the named nodes that can be reached, and with the unnamed leaves reached they
   explain every queried gate. The set of nodes already queued is shared between the bits.
   */
  method Why(g: Graph, named: set<nat>, sim: Frame, bits: seq<nat>) returns (found: set<nat>)
    requires TopoSorted(g) && SourcesAreLeaves(g) && GraphHolds(g, sim)
    requires forall i :: 0 <= i < |bits| ==> bits[i] < |g.nodes|
    ensures forall x :: x in found <==> x in named && Reached(g, named, sim, bits, x)
    ensures forall i :: 0 <= i < |bits| ==>
              (g.IsAnd(bits[i]) || bits[i] == 0 || Reached(g, named, sim, bits, bits[i]) ==>
                Explains(g, named, sim, bits, bits[i]))
    ensures (forall c :: IsCause(g, named, sim, bits, c) ==> !g.IsAnd(c)) ==>
              forall i :: 0 <= i < |bits| && !g.IsAnd(bits[i]) ==>
                (Explains(g, named, sim, bits, bits[i]) <==> bits[i] == 0 || Reached(g, named, sim, bits, bits[i]))
  {
    hide TopoSorted, SourcesAreLeaves, GraphHolds, Explains, Searching, Reached, IsStart;
    SortedIsInRange(g);
    var visited: set<nat> := {};
    found := {};
    ghost var seen: set<nat> := {};
    NothingSeen(g, named, sim, bits);
    for i := 0 to |bits|
      invariant Searching(g, named, sim, bits, seen, [], visited, found)
      invariant forall j :: 0 <= j < i && g.IsAnd(bits[j]) ==>
                  g.nodes[bits[j]].f0.v in seen && g.nodes[bits[j]].f1.v in seen
    {
      if g.IsAnd(bits[i]) {
        var start := [g.nodes[bits[i]].f0.v, g.nodes[bits[i]].f1.v];
        MoreToVisit(g, named, sim, bits, seen, i, visited, found);
        assert start[0] in Queue(start) && start[1] in Queue(start);
        visited, found, seen := Drain(g, named, sim, bits, seen, start, visited, found);
      }
    }
    SearchedIsReached(g, named, sim, bits, seen, visited, found);
    forall i | 0 <= i < |bits|
      ensures g.IsAnd(bits[i]) || bits[i] == 0 || Reached(g, named, sim, bits, bits[i]) ==>
                Explains(g, named, sim, bits, bits[i])
      ensures !g.IsAnd(bits[i]) && (forall c :: IsCause(g, named, sim, bits, c) ==> !g.IsAnd(c)) ==>
                (Explains(g, named, sim, bits, bits[i]) <==> bits[i] == 0 || Reached(g, named, sim, bits, bits[i]))
    {
      if g.IsAnd(bits[i]) {
        SearchedGateIsForced(g, named, sim, bits, seen, visited, found, bits[i]);
      } else {
        if bits[i] == 0 || IsCause(g, named, sim, bits, bits[i]) {
          CauseIsExplained(g, named, sim, bits, bits[i]);
        }
        if forall c :: IsCause(g, named, sim, bits, c) ==> !g.IsAnd(c) {
          LeafExplainedIff(g, named, sim, bits, bits[i]);
        }
      }
    }
  }

  lemma NothingSeen(g: Graph, named: set<nat>, sim: Frame, bits: seq<nat>)
    ensures Searching(g, named, sim, bits, {}, [], {}, {})
  {
  }

  lemma MoreToVisit(g: Graph, named: set<nat>, sim: Frame, bits: seq<nat>, seen: set<nat>, i: nat, visited: set<nat>,
                    found: set<nat>)
    requires InRange(g) && Searching(g, named, sim, bits, seen, [], visited, found)
    requires i < |bits| && g.IsAnd(bits[i])
    ensures Searching(g, named, sim, bits, seen, [g.nodes[bits[i]].f0.v, g.nodes[bits[i]].f1.v], visited, found)
  {
    hide Responsible, Reached;
    var l, r := g.nodes[bits[i]].f0.v, g.nodes[bits[i]].f1.v;
    var start := [l, r];
    assert Queue([]) == {} && Queue(start) == {l, r};
    StartIsReached(g, named, sim, bits, l);
    StartIsReached(g, named, sim, bits, r);
    forall x | x in seen
      ensures Explained(g, named, sim, seen + Queue(start), x)
    {
      assert Explained(g, named, sim, seen + Queue([]), x);
    }
  }

  /** When the search is over, what was seen is what can be reached. */
  lemma SearchedIsReached(g: Graph, named: set<nat>, sim: Frame, bits: seq<nat>, seen: set<nat>, visited: set<nat>,
                          found: set<nat>)
    requires GraphHolds(g, sim) && Searching(g, named, sim, bits, seen, [], visited, found)
    requires forall j :: 0 <= j < |bits| && g.IsAnd(bits[j]) ==>
               g.nodes[bits[j]].f0.v in seen && g.nodes[bits[j]].f1.v in seen
    ensures forall x :: x in seen <==> Reached(g, named, sim, bits, x)
    ensures found == NamedIn(named, seen)
  {
    hide Responsible, Blames, GraphHolds;
    assert seen + Queue([]) == seen;
    assert forall x :: IsStart(g, bits, x) ==> x in seen;
    forall x | Reached(g, named, sim, bits, x)
      ensures x in seen
    {
      var p :| IsRoute(g, named, sim, bits, p) && p[|p| - 1] == x;
      ReachedIsSeen(g, named, sim, bits, seen, p);
    }
  }

  /** A gate whose operands were both seen is forced by the causes. */
  lemma SearchedGateIsForced(g: Graph, named: set<nat>, sim: Frame, bits: seq<nat>, seen: set<nat>, visited: set<nat>,
                             found: set<nat>, x: nat)
    requires TopoSorted(g) && SourcesAreLeaves(g) && GraphHolds(g, sim) && g.IsAnd(x)
    requires Searching(g, named, sim, bits, seen, [], visited, found)
    requires forall y :: y in seen <==> Reached(g, named, sim, bits, y)
    requires g.nodes[x].f0.v in seen && g.nodes[x].f1.v in seen
    ensures Explains(g, named, sim, bits, x)
  {
    hide TopoSorted, SourcesAreLeaves, Responsible, Reached;
    assert seen + Queue([]) == seen;
    forall w: Frame | GraphHolds(g, w) && (forall c :: IsCause(g, named, sim, bits, c) ==> w(c) == sim(c))
      ensures w(x) == sim(x)
    {
      forall c | c in NamedIn(named, seen) + LeavesIn(g, named, seen)
        ensures w(c) == sim(c)
      {
        assert IsCause(g, named, sim, bits, c);
      }
      SeenAgrees(g, named, sim, w, seen, g.nodes[x].f0.v);
      SeenAgrees(g, named, sim, w, seen, g.nodes[x].f1.v);
    }
  }

  /** The constant node and the causes themselves need no further explanation. */
  lemma CauseIsExplained(g: Graph, named: set<nat>, sim: Frame, bits: seq<nat>, x: nat)
    requires GraphHolds(g, sim) && (x == 0 || IsCause(g, named, sim, bits, x))
    ensures Explains(g, named, sim, bits, x)
  {
    hide IsCause;
  }

  /**
   When the search stops only at leaves, a leaf is explained if and only if it is the constant or the
   search reached it. The command does not look at queried leaves, so others stay unexplained.
   */
  lemma LeafExplainedIff(g: Graph, named: set<nat>, sim: Frame, bits: seq<nat>, x: nat)
    requires TopoSorted(g) && SourcesAreLeaves(g) && GraphHolds(g, sim) && !g.IsAnd(x)
    requires forall c :: IsCause(g, named, sim, bits, c) ==> !g.IsAnd(c)
    ensures Explains(g, named, sim, bits, x) <==> x == 0 || Reached(g, named, sim, bits, x)
  {
    hide TopoSorted, SourcesAreLeaves, Reached;
    if x == 0 || Reached(g, named, sim, bits, x) {
      CauseIsExplained(g, named, sim, bits, x);
    } else {
      var flipped: Frame := (y: nat) => if y == x then !sim(y) else sim(y);
      ValuesExist(g, flipped);
      var w := NodeFrame(g, flipped);
      assert GraphHolds(g, w) && w(x) != sim(x);
      forall c | IsCause(g, named, sim, bits, c)
        ensures w(c) == sim(c)
      {
      }
    }
  }

  /** A query without gates reaches nothing, so it explains a queried leaf only if that is the constant. */
  lemma QueryOfLeaves(g: Graph, named: set<nat>, sim: Frame, bits: seq<nat>, x: nat)
    requires TopoSorted(g) && SourcesAreLeaves(g) && GraphHolds(g, sim)
    requires x in bits && forall i :: 0 <= i < |bits| ==> !g.IsAnd(bits[i])
    ensures forall c :: !Reached(g, named, sim, bits, c)
    ensures Explains(g, named, sim, bits, x) <==> x == 0
  {
    hide TopoSorted, SourcesAreLeaves, Explains;
    forall c
      ensures !Reached(g, named, sim, bits, c)
    {
      assert forall p :: IsRoute(g, named, sim, bits, p) ==> !IsStart(g, bits, p[0]);
    }
    LeafExplainedIff(g, named, sim, bits, x);
  }

  lemma RouteLeaves(g: Graph, named: set<nat>, sim: Frame, bits: seq<nat>, p: seq<nat>)
    requires IsRoute(g, named, sim, bits, p)
    ensures |p| > 1 ==> p[0] !in named && Blames(g, sim, p[0], p[1])
  {
  }

  // ----- small graphs -----

  const PAIR := Graph([Leaf, Leaf, Leaf, And(Pos(1), Pos(2))], [1, 2], [])
  const CHAIN := Graph([Leaf, Leaf, Leaf, And(Pos(1), Pos(2)), And(Pos(3), Pos(2))], [1, 2], [])

  /** Asking for a gate as well can explain a queried leaf: it is reached from the gate. */
  lemma LeafOfMixedQuery(sim: Frame)
    requires GraphHolds(PAIR, sim)
    ensures Explains(PAIR, {}, sim, [3, 1], 1) && !Explains(PAIR, {}, sim, [1], 1)
  {
    hide Explains;
    assert PAIR.IsAnd([3, 1][0]) && IsStart(PAIR, [3, 1], 1);
    StartIsReached(PAIR, {}, sim, [3, 1], 1);
    CauseIsExplained(PAIR, {}, sim, [3, 1], 1);
    PairIsSorted();
    assert [1][0] == 1;
    QueryOfLeaves(PAIR, {}, sim, [1], 1);
  }

  lemma PairIsSorted()
    ensures TopoSorted(PAIR) && SourcesAreLeaves(PAIR)
  {
    assert PAIR.inputs[0] == 1 && PAIR.inputs[1] == 2;
  }

  /** A named gate can force a leaf that the search does not reach, so stopping at leaves only matters. */
  lemma NamedGateForcesLeaf(sim: Frame)
    requires GraphHolds(CHAIN, sim) && sim(4)
    ensures !Reached(CHAIN, {3}, sim, [4, 1], 1) && Explains(CHAIN, {3}, sim, [4, 1], 1)
  {
    var bits := [4, 1];
    assert CHAIN.IsAnd(4) && CHAIN.IsAnd(3) && CHAIN.IsAnd(bits[0]) && sim(3);
    assert forall x :: IsStart(CHAIN, bits, x) ==> x == 3 || x == 2;
    forall p | IsRoute(CHAIN, {3}, sim, bits, p)
      ensures p[|p| - 1] != 1
    {
      assert p[0] == 3 || p[0] == 2;
      RouteLeaves(CHAIN, {3}, sim, bits, p);
      assert |p| == 1;
    }
    assert IsStart(CHAIN, bits, 3);
    StartIsReached(CHAIN, {3}, sim, bits, 3);
    assert IsCause(CHAIN, {3}, sim, bits, 3);
    forall w: Frame | GraphHolds(CHAIN, w) && (forall c :: IsCause(CHAIN, {3}, sim, bits, c) ==> w(c) == sim(c))
      ensures w(1) == sim(1)
    {
      assert w(3) == sim(3);
    }
  }

  const TREE := Graph([Leaf, Leaf, Leaf, Leaf, And(Pos(1), Pos(2)), And(Pos(4), Pos(3))], [1, 2, 3], [])

  /** Of a false gate with one false operand only that operand is reached. */
  lemma OnlyFalseOperand(sim: Frame)
    requires GraphHolds(TREE, sim) && sim(1) && !sim(2)
    ensures Reached(TREE, {1, 2}, sim, [5], 2) && !Reached(TREE, {1, 2}, sim, [5], 1)
  {
    var bits, named := [5], {1, 2};
    assert TREE.IsAnd(4) && TREE.IsAnd(5) && TREE.IsAnd(bits[0]) && !sim(4);
    assert IsStart(TREE, bits, 4);
    StartIsReached(TREE, named, sim, bits, 4);
    ReachedNext(TREE, named, sim, bits, 4, 2);
    forall p | IsRoute(TREE, named, sim, bits, p)
      ensures p[|p| - 1] in {4, 3, 2}
    {
      TreeRoutes(sim, p);
    }
  }

  lemma {:induction false} TreeRoutes(sim: Frame, p: seq<nat>)
    requires GraphHolds(TREE, sim) && sim(1) && !sim(2) && IsRoute(TREE, {1, 2}, sim, [5], p)
    ensures p[|p| - 1] in {4, 3, 2}
    decreases |p|
  {
    var last := |p| - 1;
    if last == 0 {
      assert forall x :: IsStart(TREE, [5], x) ==> x == 4 || x == 3;
    } else {
      TreeRoutes(sim, p[..last]);
      assert Blames(TREE, sim, p[last - 1], p[last]);
      assert !sim(4);
    }
  }
}
