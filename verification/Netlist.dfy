/**
 The gate-level netlist that the AIGER writer compiles, after signals have been
 canonicalised: which bit is driven by what, and what its runs are.
 */
module Netlists {
  import opened Wrappers

  datatype Bit = S0 | S1 | Sx | Sz | Wire(id: nat)

  /** A flip-flop: `q` takes the value `d` had one cycle earlier. */
  datatype Ff = Ff(q: Bit, d: Bit)

  /** The A and EN ports of an $assert, $assume, $live or $fair cell. */
  datatype Check = Check(a: Bit, en: Bit)

  datatype Netlist = Netlist(
    bits: set<Bit>,               // every bit that occurs anywhere below
    leaves: set<Bit>,             // the bits that are numbered before any logic is compiled
    inputs: seq<Bit>,
    fixed: map<Bit, bool>,        // output bits tied to a constant
    notMap: map<Bit, Bit>,
    andMap: map<Bit, (Bit, Bit)>,
    aliasMap: map<Bit, Bit>,
    initstate: set<Bit>,
    ffs: seq<Ff>,
    initMap: map<Bit, bool>,
    outputs: seq<Bit>,
    asserts: seq<Check>,
    assumes: seq<Check>,
    liveness: seq<Check>,
    fairness: seq<Check>
  )

  /** The bits that `b` is computed from in the same cycle, in the order they are visited. */
  function Deps(n: Netlist, b: Bit): (d: seq<Bit>)
    ensures |d| <= 2
  {
    if b in n.leaves then []
    else if b in n.notMap then [n.notMap[b]]
    else if b in n.andMap then [n.andMap[b].0, n.andMap[b].1]
    else if b in n.aliasMap then [n.aliasMap[b]]
    else []
  }

  predicate Driven(n: Netlist, b: Bit) {
    b in n.leaves || b in n.notMap || b in n.andMap || b in n.aliasMap || b in n.initstate
  }

  ghost predicate ChecksIn(cs: seq<Check>, bits: set<Bit>) {
    forall i :: 0 <= i < |cs| ==> cs[i].a in bits && cs[i].en in bits
  }

  /** `bits` is complete. */
  ghost predicate Contained(n: Netlist) {
    && n.leaves <= n.bits
    && (forall b :: b in n.notMap ==> b in n.bits && n.notMap[b] in n.bits)
    && (forall b :: b in n.andMap ==> b in n.bits && n.andMap[b].0 in n.bits && n.andMap[b].1 in n.bits)
    && (forall b :: b in n.aliasMap ==> b in n.bits && n.aliasMap[b] in n.bits)
    && n.initstate <= n.bits
    && (forall i :: 0 <= i < |n.ffs| ==> n.ffs[i].d in n.bits)
    && (forall i :: 0 <= i < |n.outputs| ==> n.outputs[i] in n.bits)
    && ChecksIn(n.asserts, n.bits) && ChecksIn(n.assumes, n.bits)
    && ChecksIn(n.liveness, n.bits) && ChecksIn(n.fairness, n.bits)
  }

  ghost predicate LeavesOk(n: Netlist) {
    forall b :: b in n.leaves <==>
      || b == S0 || b == S1 || b in n.fixed || b in n.inputs
      || exists i :: 0 <= i < |n.ffs| && n.ffs[i].q == b
  }

  /** No bit is numbered twice. */
  ghost predicate DistinctLeaves(n: Netlist) {
    && (forall i, j :: 0 <= i < j < |n.inputs| ==> n.inputs[i] != n.inputs[j])
    && (forall i, j :: 0 <= i < j < |n.ffs| ==> n.ffs[i].q != n.ffs[j].q)
    && (forall i :: 0 <= i < |n.inputs| ==> n.inputs[i].Wire? && n.inputs[i] !in n.fixed)
    && (forall i :: 0 <= i < |n.ffs| ==>
         n.ffs[i].q.Wire? && n.ffs[i].q !in n.fixed && n.ffs[i].q !in n.inputs)
    && (forall b :: b in n.fixed ==> b.Wire?)
  }

  ghost predicate WellFormed(n: Netlist) {
    LeavesOk(n) && DistinctLeaves(n) && Contained(n)
  }

  /** Every bit that is used has a driver. */
  ghost predicate Closed(n: Netlist) {
    forall b :: b in n.bits ==> Driven(n, b)
  }

  /** `rank` falls along every combinational dependency. */
  ghost predicate Acyclic(n: Netlist, rank: Bit -> nat) {
    forall b, d :: d in Deps(n, b) ==> rank(d) < rank(b)
  }

  // ----- combinational cycles -----

  ghost predicate IsPath(n: Netlist, p: seq<Bit>) {
    forall i :: 0 <= i < |p| - 1 ==> p[i + 1] in Deps(n, p[i])
  }

  ghost predicate IsCycle(n: Netlist, p: seq<Bit>) {
    |p| >= 2 && p[0] == p[|p| - 1] && IsPath(n, p)
  }

  ghost predicate OnCycle(n: Netlist, b: Bit) {
    exists p :: IsCycle(n, p) && p[0] == b
  }

  ghost predicate HasCycle(n: Netlist) {
    exists p :: IsCycle(n, p)
  }

  lemma {:induction false} RankFallsAlong(n: Netlist, rank: Bit -> nat, p: seq<Bit>)
    requires Acyclic(n, rank) && IsPath(n, p) && |p| >= 2
    ensures rank(p[|p| - 1]) < rank(p[0])
  {
    assert p[1] in Deps(n, p[0]);
    if |p| > 2 {
      RankFallsAlong(n, rank, p[1..]);
    }
  }

  lemma AcyclicHasNoCycle(n: Netlist, rank: Bit -> nat)
    requires Acyclic(n, rank)
    ensures !HasCycle(n)
  {
    if p :| IsCycle(n, p) {
      RankFallsAlong(n, rank, p);
    }
  }

  // ----- following the first dependency that has no literal yet -----

  function FirstUnmapped<L>(n: Netlist, m: map<Bit, L>, b: Bit): Option<Bit> {
    var d := Deps(n, b);
    if |d| > 0 && d[0] !in m then Some(d[0])
    else if |d| > 1 && d[1] !in m then Some(d[1])
    else None
  }

  /** Each element is the first unmapped dependency of the one before it. */
  ghost predicate Chain<L>(n: Netlist, m: map<Bit, L>, s: seq<Bit>) {
    forall i :: 0 <= i < |s| - 1 ==> FirstUnmapped(n, m, s[i]) == Some(s[i + 1])
  }

  lemma ChainIsPath<L>(n: Netlist, m: map<Bit, L>, s: seq<Bit>)
    requires Chain(n, m, s)
    ensures IsPath(n, s)
  {
    forall i | 0 <= i < |s| - 1
      ensures s[i + 1] in Deps(n, s[i])
    {
      assert FirstUnmapped(n, m, s[i]) == Some(s[i + 1]);
    }
  }

  /**
   A bit whose operands are all mapped is not waiting anywhere on the chain, so mapping
   it leaves the chain as it was.
   */
  lemma ChainAfterCell<L>(n: Netlist, m: map<Bit, L>, s: seq<Bit>, b: Bit, l: L)
    requires Chain(n, m, s) && FirstUnmapped(n, m, b) == None
    requires s == [] || b in Deps(n, s[|s| - 1])
    requires b !in m
    ensures Chain(n, m[b := l], s)
    ensures b !in s
  {
    forall i | 0 <= i < |s| - 1
      ensures s[i] != b && FirstUnmapped(n, m[b := l], s[i]) == Some(s[i + 1])
    {
      assert FirstUnmapped(n, m, s[i]) == Some(s[i + 1]);
      assert i + 1 == |s| - 1 || FirstUnmapped(n, m, s[i + 1]) == Some(s[i + 2]);
    }
  }

  lemma {:induction false} Pigeonhole(s: seq<Bit>, u: set<Bit>) returns (i: nat, j: nat)
    requires forall k :: 0 <= k < |s| ==> s[k] in u
    requires |s| > |u|
    ensures i < j < |s| && s[i] == s[j]
    decreases |s|
  {
    var last := |s| - 1;
    if k :| 0 <= k < last && s[k] == s[last] {
      i, j := k, last;
    } else {
      i, j := Pigeonhole(s[..last], u - {s[last]});
    }
  }

  /** A chain that repeats a bit goes on repeating it with the same period. */
  lemma {:induction false} ChainIsPeriodic<L>(n: Netlist, m: map<Bit, L>, s: seq<Bit>, i: nat, j: nat, k: nat)
    requires Chain(n, m, s) && i < j <= k < |s| && s[i] == s[j]
    ensures s[k] == s[k - (j - i)]
    decreases k
  {
    if k > j {
      ChainIsPeriodic(n, m, s, i, j, k - 1);
      assert FirstUnmapped(n, m, s[k - 1]) == Some(s[k]);
      assert FirstUnmapped(n, m, s[k - 1 - (j - i)]) == Some(s[k - 1 - (j - i) + 1]);
    }
  }

  /** A chain longer than its universe ends in a bit it has already been through. */
  lemma LongChainRepeats<L>(n: Netlist, m: map<Bit, L>, s: seq<Bit>, u: set<Bit>)
    requires Chain(n, m, s) && |s| > |u|
    requires forall k :: 0 <= k < |s| ==> s[k] in u
    ensures exists k :: 0 <= k < |s| - 1 && s[k] == s[|s| - 1]
  {
    var i, j := Pigeonhole(s, u);
    ChainIsPeriodic(n, m, s, i, j, |s| - 1);
  }

  // ----- runs -----

  type BitFrame = Bit -> bool
  type BitRun = nat -> BitFrame

  ghost predicate CellHolds(n: Netlist, u: BitFrame, first: bool, b: Bit) {
    if b == S0 then !u(b)
    else if b == S1 then u(b)
    else if b in n.fixed then u(b) == n.fixed[b]
    else if b in n.leaves then true
    else if b in n.notMap then u(b) == !u(n.notMap[b])
    else if b in n.andMap then u(b) == (u(n.andMap[b].0) && u(n.andMap[b].1))
    else if b in n.aliasMap then u(b) == u(n.aliasMap[b])
    else if b in n.initstate then u(b) == first
    else true
  }

  ghost predicate FrameHolds(n: Netlist, u: BitFrame, first: bool) {
    forall b :: CellHolds(n, u, first, b)
  }

  ghost predicate FfsStep(n: Netlist, now: BitFrame, next: BitFrame) {
    forall i :: 0 <= i < |n.ffs| ==> next(n.ffs[i].q) == now(n.ffs[i].d)
  }

  ghost predicate FfsStart(n: Netlist, u: BitFrame) {
    forall i :: 0 <= i < |n.ffs| && n.ffs[i].q in n.initMap ==>
      u(n.ffs[i].q) == n.initMap[n.ffs[i].q]
  }

  ghost predicate IsNetRun(n: Netlist, s: BitRun) {
    && FfsStart(n, s(0))
    && (forall t: nat :: FrameHolds(n, s(t), t == 0))
    && (forall t: nat :: FfsStep(n, s(t), s(t + 1)))
  }

  ghost predicate Fails(u: BitFrame, c: Check) {
    u(c.en) && !u(c.a)
  }

  ghost predicate NoneFails(cs: seq<Check>, u: BitFrame) {
    forall i :: 0 <= i < |cs| ==> !Fails(u, cs[i])
  }

  ghost predicate AssumedTo(n: Netlist, s: BitRun, t: nat) {
    forall v: nat :: v <= t ==> NoneFails(n.assumes, s(v))
  }

  /** Some run meets the assumptions so far and fails assertion `i`. */
  ghost predicate AssertCanFail(n: Netlist, i: nat)
    requires i < |n.asserts|
  {
    exists s: BitRun, t: nat :: IsNetRun(n, s) && AssumedTo(n, s, t) && Fails(s(t), n.asserts[i])
  }

  // ----- every choice of leaves extends to a frame -----

  function BitVal(n: Netlist, rank: Bit -> nat, leaf: BitFrame, first: bool, b: Bit): bool
    requires Acyclic(n, rank)
    decreases rank(b)
  {
    if b == S0 then false
    else if b == S1 then true
    else if b in n.fixed then n.fixed[b]
    else if b in n.leaves then leaf(b)
    else
      assert forall d :: d in Deps(n, b) ==> rank(d) < rank(b);
      if b in n.notMap then
        assert n.notMap[b] in Deps(n, b);
        !BitVal(n, rank, leaf, first, n.notMap[b])
      else if b in n.andMap then
        assert n.andMap[b].0 in Deps(n, b) && n.andMap[b].1 in Deps(n, b);
        BitVal(n, rank, leaf, first, n.andMap[b].0) && BitVal(n, rank, leaf, first, n.andMap[b].1)
      else if b in n.aliasMap then
        assert n.aliasMap[b] in Deps(n, b);
        BitVal(n, rank, leaf, first, n.aliasMap[b])
      else first
  }

  lemma BitValHolds(n: Netlist, rank: Bit -> nat, leaf: BitFrame, first: bool)
    requires Acyclic(n, rank)
    ensures FrameHolds(n, b => BitVal(n, rank, leaf, first, b), first)
  {
  }
}
