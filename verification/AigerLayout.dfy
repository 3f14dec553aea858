/**
 Where the AIGER writer puts each input, latch and literal, and what it means for a
 table of literals to be a correct compilation of part of a netlist.
 */
module AigerLayout {
  import opened AigCore
  import opened Netlists

  /** The command-line flags -zinit, -I, -O, -B and -L. */
  datatype Options = Options(zinit: bool, imode: bool, omode: bool, bmode: bool, lmode: bool)

  // ----- numbering -----

  /** How many of the first `k` flip-flops have no initial value. */
  function UninitBefore(n: Netlist, k: nat): (u: nat)
    requires k <= |n.ffs|
    ensures u <= k
  {
    if k == 0 then 0
    else UninitBefore(n, k - 1) + if n.ffs[k - 1].q in n.initMap then 0 else 1
  }

  lemma {:induction false} UninitMonotone(n: Netlist, i: nat, j: nat)
    requires i <= j <= |n.ffs|
    ensures UninitBefore(n, i) <= UninitBefore(n, j)
    decreases j - i
  {
    if i < j {
      UninitMonotone(n, i, j - 1);
    }
  }

  /** The flip-flop whose initial value is the `j`-th extra input. */
  function UninitAt(n: Netlist, j: nat, k: nat): (i: nat)
    requires k <= |n.ffs| && j < UninitBefore(n, k)
    ensures i < k && n.ffs[i].q !in n.initMap && UninitBefore(n, i) == j
  {
    if n.ffs[k - 1].q !in n.initMap && UninitBefore(n, k - 1) == j then k - 1 else UninitAt(n, j, k - 1)
  }

  lemma {:induction false} UninitAtIsInverse(n: Netlist, i: nat)
    requires i < |n.ffs| && n.ffs[i].q !in n.initMap
    ensures UninitBefore(n, i) < UninitBefore(n, |n.ffs|)
    ensures UninitAt(n, UninitBefore(n, i), |n.ffs|) == i
  {
    hide UninitAt;
    UninitMonotone(n, i + 1, |n.ffs|);
    var r := UninitAt(n, UninitBefore(n, i), |n.ffs|);
    if r < i {
      UninitMonotone(n, r + 1, i);
    } else if i < r {
      UninitMonotone(n, i + 1, r);
    }
  }

  function Uninit(n: Netlist): nat {
    UninitBefore(n, |n.ffs|)
  }

  function PortInputs(n: Netlist, o: Options): nat {
    if o.imode && n.inputs == [] then 1 else |n.inputs|
  }

  function InitInputs(n: Netlist, o: Options): nat {
    if o.zinit then Uninit(n) else 0
  }

  function Inputs(n: Netlist, o: Options): nat {
    PortInputs(n, o) + InitInputs(n, o) + |n.liveness|
  }

  predicate HasInitLatch(n: Netlist, o: Options) {
    n.initstate != {} || InitInputs(n, o) > 0
  }

  function CoreLatches(n: Netlist, o: Options): nat {
    |n.ffs| + if HasInitLatch(n, o) then 1 else 0
  }

  function RealLatches(n: Netlist, o: Options): nat {
    CoreLatches(n, o) + 2 * |n.liveness| + |n.fairness|
  }

  function Latches(n: Netlist, o: Options): nat {
    if o.lmode && RealLatches(n, o) == 0 then 1 else RealLatches(n, o)
  }

  function InputVar(i: nat): nat { 1 + i }

  function InitVar(n: Netlist, o: Options, i: nat): nat
    requires i < |n.ffs|
  {
    PortInputs(n, o) + 1 + UninitBefore(n, i)
  }

  function LiveVar(n: Netlist, o: Options, k: nat): nat {
    PortInputs(n, o) + InitInputs(n, o) + 1 + k
  }

  function FfVar(n: Netlist, o: Options, i: nat): nat {
    Inputs(n, o) + 1 + i
  }

  /** The latch that is false in the first cycle only. */
  function StartedVar(n: Netlist, o: Options): nat {
    Inputs(n, o) + |n.ffs| + 1
  }

  /** The literal that is true in the first cycle only. */
  function FirstLit(n: Netlist, o: Options): Lit {
    if HasInitLatch(n, o) then Lit(StartedVar(n, o), true) else FALSE
  }

  function LiveLatch(n: Netlist, o: Options, k: nat): nat {
    Inputs(n, o) + CoreLatches(n, o) + 1 + 2 * k
  }

  function FairLatch(n: Netlist, o: Options, k: nat): nat {
    Inputs(n, o) + CoreLatches(n, o) + 2 * |n.liveness| + 1 + k
  }

  // ----- the table before any logic is compiled -----

  ghost predicate FixedLits(n: Netlist, m: map<Bit, Lit>) {
    && S0 in m && m[S0] == FALSE && S1 in m && m[S1] == TRUE
    && forall b :: b in n.fixed ==> b in m && m[b] == if n.fixed[b] then TRUE else FALSE
  }

  ghost predicate InputLits(n: Netlist, m: map<Bit, Lit>, k: nat)
    requires k <= |n.inputs|
  {
    forall i :: 0 <= i < k ==> n.inputs[i] in m && m[n.inputs[i]] == Pos(InputVar(i))
  }

  ghost predicate InitLits(n: Netlist, o: Options, m: map<Bit, Lit>, k: nat)
    requires k <= |n.ffs|
  {
    forall i :: 0 <= i < k && n.ffs[i].q !in n.initMap ==>
      n.ffs[i].q in m && m[n.ffs[i].q] == Pos(InitVar(n, o, i))
  }

  /** Flip-flops `j` up to `k` have the literal of their latch. */
  ghost predicate LatchLits(n: Netlist, o: Options, m: map<Bit, Lit>, j: nat, k: nat)
    requires k <= |n.ffs|
  {
    forall i :: j <= i < k ==> n.ffs[i].q in m && m[n.ffs[i].q] == Pos(FfVar(n, o, i))
  }

  ghost predicate OnlyLeaves(n: Netlist, m: map<Bit, Lit>) {
    forall b :: b in m ==> b in n.leaves
  }

  /** The literals of constants, and of output bits tied to one. */
  function StartMap(n: Netlist): map<Bit, Lit> {
    (map b | b in n.fixed :: if n.fixed[b] then TRUE else FALSE)[S0 := FALSE][S1 := TRUE]
  }

  lemma StartLits(n: Netlist)
    requires LeavesOk(n) && DistinctLeaves(n)
    ensures FixedLits(n, StartMap(n)) && InputLits(n, StartMap(n), 0) && OnlyLeaves(n, StartMap(n))
    ensures Bounded(StartMap(n), 0)
  {
  }

  lemma NoLatchLits(n: Netlist, o: Options, m: map<Bit, Lit>)
    ensures LatchLits(n, o, m, 0, 0)
  {
  }

  lemma AddInputLit(n: Netlist, m: map<Bit, Lit>, i: nat)
    requires LeavesOk(n) && DistinctLeaves(n) && i < |n.inputs|
    requires FixedLits(n, m) && InputLits(n, m, i) && OnlyLeaves(n, m)
    ensures var m' := m[n.inputs[i] := Pos(InputVar(i))];
      FixedLits(n, m') && InputLits(n, m', i + 1) && OnlyLeaves(n, m')
  {
  }

  lemma NoInitLits(n: Netlist, o: Options, m: map<Bit, Lit>)
    ensures InitLits(n, o, m, 0)
  {
  }

  lemma AddInitLit(n: Netlist, o: Options, m: map<Bit, Lit>, i: nat)
    requires DistinctLeaves(n) && i < |n.ffs| && InitLits(n, o, m, i)
    ensures n.ffs[i].q in n.initMap ==> InitLits(n, o, m, i + 1)
    ensures n.ffs[i].q !in n.initMap ==> InitLits(n, o, m[n.ffs[i].q := Pos(InitVar(n, o, i))], i + 1)
  {
    hide InitVar;
  }

  lemma AddLatchLit(n: Netlist, o: Options, m: map<Bit, Lit>, i: nat)
    requires LeavesOk(n) && DistinctLeaves(n) && i < |n.ffs|
    requires FixedLits(n, m) && InputLits(n, m, |n.inputs|) && OnlyLeaves(n, m) && LatchLits(n, o, m, 0, i)
    ensures var m' := m[n.ffs[i].q := Pos(FfVar(n, o, i))];
      && FixedLits(n, m') && InputLits(n, m', |n.inputs|) && OnlyLeaves(n, m')
      && LatchLits(n, o, m', 0, i + 1)
  {
  }

  // ----- what the table of literals must satisfy -----

  ghost predicate MuxedInit(gates: seq<Gate>, base: nat, l: Lit, old_: Lit, init: Lit, first: Lit) {
    exists g0, g1 ::
      && IsAnd(gates, base, g0, old_, Neg(first))
      && IsAnd(gates, base, g1, init, first)
      && IsAnd(gates, base, Neg(l), Neg(g0), Neg(g1))
  }

  /** The literal of flip-flop `i`, which -zinit adjusts because its latch resets to zero. */
  ghost predicate FfLit(n: Netlist, o: Options, m: map<Bit, Lit>, gates: seq<Gate>, base: nat, i: nat)
    requires i < |n.ffs|
  {
    var q, x := n.ffs[i].q, Pos(FfVar(n, o, i));
    && q in m
    && if !o.zinit then m[q] == x
       else if q in n.initMap then m[q] == if n.initMap[q] then Neg(x) else x
       else MuxedInit(gates, base, m[q], x, Pos(InitVar(n, o, i)), FirstLit(n, o))
  }

  /** Flip-flops below `k` have their final literal. */
  ghost predicate FfLits(n: Netlist, o: Options, m: map<Bit, Lit>, gates: seq<Gate>, base: nat, k: nat)
    requires k <= |n.ffs|
  {
    forall i :: 0 <= i < k ==> FfLit(n, o, m, gates, base, i)
  }

  ghost predicate LeafLits(n: Netlist, o: Options, m: map<Bit, Lit>, gates: seq<Gate>, base: nat) {
    && FixedLits(n, m)
    && InputLits(n, m, |n.inputs|)
    && FfLits(n, o, m, gates, base, |n.ffs|)
  }

  /** The literal of a bit that is not a leaf computes the bit's cell from its operands' literals. */
  ghost predicate CellLit(n: Netlist, o: Options, m: map<Bit, Lit>, gates: seq<Gate>, base: nat, b: Bit)
    requires b in m
  {
    if b in n.notMap then n.notMap[b] in m && m[b] == Neg(m[n.notMap[b]])
    else if b in n.andMap then
      && n.andMap[b].0 in m && n.andMap[b].1 in m
      && IsAnd(gates, base, m[b], m[n.andMap[b].0], m[n.andMap[b].1])
    else if b in n.aliasMap then n.aliasMap[b] in m && m[b] == m[n.aliasMap[b]]
    else b in n.initstate && m[b] == FirstLit(n, o)
  }

  ghost predicate CellLits(n: Netlist, o: Options, m: map<Bit, Lit>, gates: seq<Gate>, base: nat) {
    forall b :: b in m && b !in n.leaves ==> CellLit(n, o, m, gates, base, b)
  }

  /** Every mapped bit was mapped after the bits it depends on. */
  ghost predicate Ranked(n: Netlist, m: map<Bit, Lit>, rank: map<Bit, nat>) {
    && rank.Keys == m.Keys
    && (forall b :: b in m ==> DepsBelow(Deps(n, b), m, rank, rank[b]))
  }

  ghost predicate DepsBelow(ds: seq<Bit>, m: map<Bit, Lit>, rank: map<Bit, nat>, r: nat)
    requires rank.Keys == m.Keys
  {
    forall i :: 0 <= i < |ds| ==> ds[i] in m && rank[ds[i]] < r
  }

  ghost function NextRank(ds: seq<Bit>, rank: map<Bit, nat>): nat
    requires |ds| <= 2 && forall i :: 0 <= i < |ds| ==> ds[i] in rank
  {
    if |ds| == 0 then 0
    else if |ds| == 1 then rank[ds[0]] + 1
    else rank[ds[0]] + rank[ds[1]] + 1
  }

  ghost predicate Bounded(m: map<Bit, Lit>, top: nat) {
    forall b :: b in m ==> m[b].v <= top
  }

  ghost predicate Structure(n: Netlist, o: Options, m: map<Bit, Lit>, gates: seq<Gate>, base: nat,
                            rank: map<Bit, nat>) {
    && LeafLits(n, o, m, gates, base)
    && CellLits(n, o, m, gates, base)
    && Ranked(n, m, rank)
    && Sorted(gates, base)
    && Bounded(m, base + |gates|)
  }

  ghost predicate Extends(m: map<Bit, Lit>, m': map<Bit, Lit>) {
    forall b :: b in m ==> b in m' && m'[b] == m[b]
  }

  lemma IsAndStable(gates: seq<Gate>, gates': seq<Gate>, base: nat, l: Lit, a: Lit, b: Lit)
    requires gates <= gates' && IsAnd(gates, base, l, a, b)
    ensures IsAnd(gates', base, l, a, b)
  {
  }

  lemma NoFfLits(n: Netlist, o: Options, m: map<Bit, Lit>, gates: seq<Gate>, base: nat)
    ensures FfLits(n, o, m, gates, base, 0)
  {
  }

  /** The next flip-flop gets its final literal. */
  lemma FfLitsAfter(n: Netlist, o: Options, m: map<Bit, Lit>, gates: seq<Gate>, gates': seq<Gate>, base: nat, i: nat,
                    a: Lit)
    requires DistinctLeaves(n) && i < |n.ffs|
    requires FfLits(n, o, m, gates, base, i) && gates <= gates'
    requires FfLit(n, o, m[n.ffs[i].q := a], gates', base, i)
    ensures FfLits(n, o, m[n.ffs[i].q := a], gates', base, i + 1)
  {
    var m' := m[n.ffs[i].q := a];
    forall j | 0 <= j < i
      ensures FfLit(n, o, m', gates', base, j)
    {
      assert FfLit(n, o, m, gates, base, j);
      FfLitStable(n, o, m, m', gates, gates', base, j);
    }
  }

  lemma LeafLitsStable(n: Netlist, o: Options, m: map<Bit, Lit>, m': map<Bit, Lit>, gates: seq<Gate>, gates': seq<Gate>,
                       base: nat)
    requires LeafLits(n, o, m, gates, base) && Extends(m, m') && gates <= gates'
    ensures LeafLits(n, o, m', gates', base)
  {
    forall i | 0 <= i < |n.ffs|
      ensures FfLit(n, o, m', gates', base, i)
    {
      assert FfLit(n, o, m, gates, base, i);
      FfLitStable(n, o, m, m', gates, gates', base, i);
    }
  }

  lemma FfLitStable(n: Netlist, o: Options, m: map<Bit, Lit>, m': map<Bit, Lit>, gates: seq<Gate>, gates': seq<Gate>,
                    base: nat, i: nat)
    requires i < |n.ffs| && FfLit(n, o, m, gates, base, i) && gates <= gates'
    requires n.ffs[i].q in m' && m'[n.ffs[i].q] == m[n.ffs[i].q]
    ensures FfLit(n, o, m', gates', base, i)
  {
    var q, x, first := n.ffs[i].q, Pos(FfVar(n, o, i)), FirstLit(n, o);
    if o.zinit && q !in n.initMap {
      var init := Pos(InitVar(n, o, i));
      var g0, g1 :|
        && IsAnd(gates, base, g0, x, Neg(first))
        && IsAnd(gates, base, g1, init, first)
        && IsAnd(gates, base, Neg(m[q]), Neg(g0), Neg(g1));
      IsAndStable(gates, gates', base, g0, x, Neg(first));
      IsAndStable(gates, gates', base, g1, init, first);
      IsAndStable(gates, gates', base, Neg(m[q]), Neg(g0), Neg(g1));
    }
  }

  /** With only leaves in it, the table is correct once the leaves are. */
  lemma StructureOfLeaves(n: Netlist, o: Options, m: map<Bit, Lit>, gates: seq<Gate>, base: nat, rank: map<Bit, nat>)
    requires LeafLits(n, o, m, gates, base) && OnlyLeaves(n, m)
    requires Sorted(gates, base) && Bounded(m, base + |gates|)
    requires rank.Keys == m.Keys
    ensures Structure(n, o, m, gates, base, rank)
  {
  }

  /** Without -zinit the latch literals are final. */
  lemma LatchLitsAreFinal(n: Netlist, o: Options, m: map<Bit, Lit>, gates: seq<Gate>, base: nat)
    requires !o.zinit && LatchLits(n, o, m, 0, |n.ffs|)
    ensures FfLits(n, o, m, gates, base, |n.ffs|)
  {
  }

  /** One more gate changes nothing that is already in the table. */
  lemma StructureAfterGate(n: Netlist, o: Options, m: map<Bit, Lit>, gates: seq<Gate>, base: nat, rank: map<Bit, nat>,
                           a0: Lit, a1: Lit)
    requires Structure(n, o, m, gates, base, rank)
    requires a0.v <= base + |gates| && a1.v <= base + |gates|
    ensures Structure(n, o, m, gates + [MkGate(a0, a1)], base, rank)
  {
    var gates' := gates + [MkGate(a0, a1)];
    LeafLitsStable(n, o, m, m, gates, gates', base);
    forall b | b in m && b !in n.leaves
      ensures CellLit(n, o, m, gates', base, b)
    {
      assert CellLit(n, o, m, gates, base, b);
    }
  }

  lemma CellLitsAfterCell(n: Netlist, o: Options, m: map<Bit, Lit>, gates: seq<Gate>, base: nat, b: Bit, l: Lit)
    requires CellLits(n, o, m, gates, base) && b !in m
    requires CellLit(n, o, m[b := l], gates, base, b)
    ensures CellLits(n, o, m[b := l], gates, base)
  {
    forall c | c in m[b := l] && c !in n.leaves
      ensures CellLit(n, o, m[b := l], gates, base, c)
    {
      if c != b {
        assert CellLit(n, o, m, gates, base, c);
      }
    }
  }

  lemma RankedAfterCell(n: Netlist, m: map<Bit, Lit>, rank: map<Bit, nat>, b: Bit, l: Lit)
    requires Ranked(n, m, rank) && b !in m
    requires forall i :: 0 <= i < |Deps(n, b)| ==> Deps(n, b)[i] in m
    ensures Ranked(n, m[b := l], rank[b := NextRank(Deps(n, b), rank)])
  {
    var m', rank' := m[b := l], rank[b := NextRank(Deps(n, b), rank)];
    forall c | c in m'
      ensures DepsBelow(Deps(n, c), m', rank', rank'[c])
    {
      if c != b {
        assert DepsBelow(Deps(n, c), m, rank, rank[c]);
      }
    }
  }

  /** Mapping a bit whose operands are mapped keeps the table correct. */
  lemma StructureAfterCell(n: Netlist, o: Options, m: map<Bit, Lit>, gates: seq<Gate>, base: nat, rank: map<Bit, nat>,
                           b: Bit, l: Lit)
    requires Structure(n, o, m, gates, base, rank) && b !in m
    requires forall i :: 0 <= i < |Deps(n, b)| ==> Deps(n, b)[i] in m
    requires l.v <= base + |gates|
    requires CellLit(n, o, m[b := l], gates, base, b)
    ensures Structure(n, o, m[b := l], gates, base, rank[b := NextRank(Deps(n, b), rank)])
  {
    LeafLitsStable(n, o, m, m[b := l], gates, gates, base);
    CellLitsAfterCell(n, o, m, gates, base, b, l);
    RankedAfterCell(n, m, rank, b, l);
  }

  /** A bit with a literal lies on no combinational cycle: a success of the compiler is never wrong. */
  lemma MappedBitIsOnNoCycle(n: Netlist, m: map<Bit, Lit>, rank: map<Bit, nat>, p: seq<Bit>)
    requires Ranked(n, m, rank) && |p| > 0 && p[0] in m
    ensures !IsCycle(n, p)
  {
    if |p| >= 2 && IsPath(n, p) {
      MappedPath(n, m, rank, p);
    }
  }

  lemma {:induction false} MappedPath(n: Netlist, m: map<Bit, Lit>, rank: map<Bit, nat>, p: seq<Bit>)
    requires Ranked(n, m, rank) && |p| >= 2 && IsPath(n, p) && p[0] in m
    ensures p[|p| - 1] in m && rank[p[|p| - 1]] < rank[p[0]]
  {
    assert p[1] in Deps(n, p[0]);
    assert DepsBelow(Deps(n, p[0]), m, rank, rank[p[0]]);
    if |p| > 2 {
      MappedPath(n, m, rank, p[1..]);
    }
  }

  // ----- the finished graph -----

  function OutputCount(n: Netlist, o: Options): nat {
    if o.omode && n.outputs == [] then 1 else |n.outputs|
  }

  function BadCount(n: Netlist, o: Options): nat {
    if o.bmode && n.asserts == [] then 1 else |n.asserts|
  }

  /** What -O and -B add to an empty list is the constant false. */
  ghost predicate Padded(lits: seq<Lit>, n: nat) {
    forall i :: n <= i < |lits| ==> lits[i] == FALSE
  }

  ghost predicate OutputLits(bits: seq<Bit>, m: map<Bit, Lit>, lits: seq<Lit>) {
    |lits| == |bits| && forall k :: 0 <= k < |lits| ==> bits[k] in m && lits[k] == m[bits[k]]
  }

  /** `l` is true when check `c` is enabled and its condition is not met. */
  ghost predicate FailLit(m: map<Bit, Lit>, gates: seq<Gate>, base: nat, c: Check, l: Lit) {
    c.a in m && c.en in m && IsAnd(gates, base, l, Neg(m[c.a]), m[c.en])
  }

  ghost predicate BadLits(cs: seq<Check>, m: map<Bit, Lit>, gates: seq<Gate>, base: nat, lits: seq<Lit>) {
    |lits| == |cs| && forall k :: 0 <= k < |lits| ==> FailLit(m, gates, base, cs[k], lits[k])
  }

  ghost predicate ConstraintLits(cs: seq<Check>, m: map<Bit, Lit>, gates: seq<Gate>, base: nat, lits: seq<Lit>) {
    |lits| == |cs| && forall k :: 0 <= k < |lits| ==> FailLit(m, gates, base, cs[k], Neg(lits[k]))
  }

  /** `l` computes `(x && y) || q`. */
  ghost predicate AndOr(gates: seq<Gate>, base: nat, l: Lit, x: Lit, y: Lit, q: Lit) {
    exists g :: IsAnd(gates, base, g, x, y) && IsAnd(gates, base, Neg(l), Neg(g), Neg(q))
  }

  /** `l` computes `(q || x) && !y`. */
  ghost predicate OrAndNot(gates: seq<Gate>, base: nat, l: Lit, q: Lit, x: Lit, y: Lit) {
    exists g :: IsAnd(gates, base, g, Neg(q), Neg(x)) && IsAnd(gates, base, l, Neg(g), Neg(y))
  }

  /** The two latch inputs and the justice literal of liveness cell `k`. */
  ghost predicate LiveLits(n: Netlist, o: Options, m: map<Bit, Lit>, gates: seq<Gate>, base: nat, k: nat, d1: Lit,
                           d2: Lit, j: Lit)
    requires k < |n.liveness|
  {
    var c := n.liveness[k];
    var q1, q2 := Pos(LiveLatch(n, o, k)), Pos(LiveLatch(n, o, k) + 1);
    && c.a in m && c.en in m
    && AndOr(gates, base, d1, Pos(LiveVar(n, o, k)), m[c.en], q1)
    && AndOr(gates, base, d2, d1, m[c.a], q2)
    && IsAnd(gates, base, j, q1, Neg(q2))
  }

  ghost predicate LiveSection(n: Netlist, o: Options, m: map<Bit, Lit>, gates: seq<Gate>, base: nat, ins: seq<Lit>,
                              js: seq<Lit>) {
    && |js| <= |n.liveness| && |ins| == 2 * |js|
    && forall k :: 0 <= k < |js| ==> LiveLits(n, o, m, gates, base, k, ins[2 * k], ins[2 * k + 1], js[k])
  }

  ghost predicate FairLits(n: Netlist, o: Options, m: map<Bit, Lit>, gates: seq<Gate>, base: nat, k: nat, d: Lit,
                           f: Lit)
    requires k < |n.fairness|
  {
    var c, q := n.fairness[k], Pos(FairLatch(n, o, k));
    && c.a in m && c.en in m
    && OrAndNot(gates, base, d, q, m[c.en], m[c.a])
    && f == Neg(q)
  }

  ghost predicate FairSection(n: Netlist, o: Options, m: map<Bit, Lit>, gates: seq<Gate>, base: nat, ins: seq<Lit>,
                              fs: seq<Lit>) {
    && |fs| <= |n.fairness| && |ins| == |fs|
    && forall k :: 0 <= k < |fs| ==> FairLits(n, o, m, gates, base, k, ins[k], fs[k])
  }

  function FfNext(n: Netlist, o: Options, ff: Ff, l: Lit): Lit {
    if o.zinit && ff.q in n.initMap && n.initMap[ff.q] then Neg(l) else l
  }

  ghost predicate FfSection(n: Netlist, o: Options, m: map<Bit, Lit>, ins: seq<Lit>) {
    && |ins| <= |n.ffs|
    && forall i :: 0 <= i < |ins| ==> n.ffs[i].d in m && ins[i] == FfNext(n, o, n.ffs[i], m[n.ffs[i].d])
  }

  /** 0 and 1 are reset values, 2 means that the initial value is free. */
  function InitCode(n: Netlist, q: Bit): nat {
    if q !in n.initMap then 2 else if n.initMap[q] then 1 else 0
  }

  /** What the reader of the file makes of a reset code; -zinit writes no codes at all. */
  function ResetOf(o: Options, code: nat): Reset {
    if o.zinit || code == 0 then Zero else if code == 1 then One else Free
  }

  function Nexts(latches: seq<Latch>): seq<Lit> {
    seq(|latches|, i requires 0 <= i < |latches| => latches[i].next)
  }

  ghost predicate LatchSection(n: Netlist, o: Options, m: map<Bit, Lit>, gates: seq<Gate>, base: nat, ins: seq<Lit>,
                               js: seq<Lit>, fs: seq<Lit>) {
    var core, live := CoreLatches(n, o), 2 * |n.liveness|;
    && |ins| == Latches(n, o)
    && FfSection(n, o, m, ins[..|n.ffs|])
    && (HasInitLatch(n, o) ==> ins[|n.ffs|] == TRUE)
    && (Latches(n, o) != RealLatches(n, o) ==> ins[0] == FALSE)
    && |js| == |n.liveness| && LiveSection(n, o, m, gates, base, ins[core..core + live], js)
    && |fs| == |n.fairness| && FairSection(n, o, m, gates, base, ins[core + live..RealLatches(n, o)], fs)
  }

  ghost predicate Resets(n: Netlist, o: Options, latches: seq<Latch>) {
    && |n.ffs| <= |latches|
    && (forall i :: 0 <= i < |n.ffs| ==> latches[i].reset == ResetOf(o, InitCode(n, n.ffs[i].q)))
    && (forall i :: |n.ffs| <= i < |latches| ==> latches[i].reset == Zero)
  }

  /** The latch inputs that do not belong to a monitor. */
  ghost predicate CoreSection(n: Netlist, o: Options, m: map<Bit, Lit>, ins: seq<Lit>) {
    && |ins| == CoreLatches(n, o) + Latches(n, o) - RealLatches(n, o)
    && |n.ffs| <= |ins| && FfSection(n, o, m, ins[..|n.ffs|])
    && (HasInitLatch(n, o) ==> ins[|n.ffs|] == TRUE)
    && (Latches(n, o) != RealLatches(n, o) ==> ins[0] == FALSE)
  }

  lemma AssembleLatches(n: Netlist, o: Options, m: map<Bit, Lit>, gates: seq<Gate>, base: nat,
                        core: seq<Lit>, live: seq<Lit>, fair: seq<Lit>, js: seq<Lit>, fs: seq<Lit>)
    requires CoreSection(n, o, m, core)
    requires |js| == |n.liveness| && LiveSection(n, o, m, gates, base, live, js)
    requires |fs| == |n.fairness| && FairSection(n, o, m, gates, base, fair, fs)
    ensures LatchSection(n, o, m, gates, base, core + live + fair, js, fs)
  {
    var ins, c, l := core + live + fair, CoreLatches(n, o), 2 * |n.liveness|;
    assert ins[..|n.ffs|] == core[..|n.ffs|];
    if Latches(n, o) != RealLatches(n, o) {
      assert live == [] && fair == [];
      assert ins[c..c + l] == live && ins[c + l..RealLatches(n, o)] == fair;
    } else {
      assert ins[c..c + l] == live && ins[c + l..RealLatches(n, o)] == fair;
    }
  }

  lemma CoreSectionStable(n: Netlist, o: Options, m: map<Bit, Lit>, m': map<Bit, Lit>, ins: seq<Lit>)
    requires CoreSection(n, o, m, ins) && Extends(m, m')
    ensures CoreSection(n, o, m', ins)
  {
    FfSectionStable(n, o, m, m', ins[..|n.ffs|]);
  }

  /** Graph `a` is what the writer must produce for netlist `n`. */
  ghost predicate Compiled(n: Netlist, o: Options, m: map<Bit, Lit>, rank: map<Bit, nat>, a: Aig) {
    && a.inputs == Inputs(n, o) && |a.latches| == Latches(n, o)
    && Structure(n, o, m, a.gates, a.Base(), rank)
    && Resets(n, o, a.latches)
    && LatchSection(n, o, m, a.gates, a.Base(), Nexts(a.latches), a.justice, a.fairness)
    && |a.outputs| == OutputCount(n, o) && OutputLits(n.outputs, m, a.outputs[..|n.outputs|])
    && |a.bads| == BadCount(n, o) && BadLits(n.asserts, m, a.gates, a.Base(), a.bads[..|n.asserts|])
    && ConstraintLits(n.assumes, m, a.gates, a.Base(), a.constraints)
    && Padded(a.outputs, |n.outputs|) && Padded(a.bads, |n.asserts|)
  }

  // ----- earlier sections survive later gates and literals -----

  lemma OutputLitsStable(bits: seq<Bit>, m: map<Bit, Lit>, m': map<Bit, Lit>, lits: seq<Lit>)
    requires OutputLits(bits, m, lits) && Extends(m, m')
    ensures OutputLits(bits, m', lits)
  {
  }

  lemma BadLitsStable(cs: seq<Check>, m: map<Bit, Lit>, m': map<Bit, Lit>, gates: seq<Gate>, gates': seq<Gate>,
                      base: nat, lits: seq<Lit>)
    requires BadLits(cs, m, gates, base, lits) && Extends(m, m') && gates <= gates'
    ensures BadLits(cs, m', gates', base, lits)
  {
  }

  lemma ConstraintLitsStable(cs: seq<Check>, m: map<Bit, Lit>, m': map<Bit, Lit>, gates: seq<Gate>, gates': seq<Gate>,
                             base: nat, lits: seq<Lit>)
    requires ConstraintLits(cs, m, gates, base, lits) && Extends(m, m') && gates <= gates'
    ensures ConstraintLits(cs, m', gates', base, lits)
  {
  }

  lemma FfSectionStable(n: Netlist, o: Options, m: map<Bit, Lit>, m': map<Bit, Lit>, ins: seq<Lit>)
    requires Extends(m, m') && FfSection(n, o, m, ins)
    ensures FfSection(n, o, m', ins)
  {
  }

  lemma AndOrStable(gates: seq<Gate>, gates': seq<Gate>, base: nat, l: Lit, x: Lit, y: Lit, q: Lit)
    requires gates <= gates' && AndOr(gates, base, l, x, y, q)
    ensures AndOr(gates', base, l, x, y, q)
  {
    var g :| IsAnd(gates, base, g, x, y) && IsAnd(gates, base, Neg(l), Neg(g), Neg(q));
    IsAndStable(gates, gates', base, g, x, y);
    IsAndStable(gates, gates', base, Neg(l), Neg(g), Neg(q));
  }

  lemma OrAndNotStable(gates: seq<Gate>, gates': seq<Gate>, base: nat, l: Lit, q: Lit, x: Lit, y: Lit)
    requires gates <= gates' && OrAndNot(gates, base, l, q, x, y)
    ensures OrAndNot(gates', base, l, q, x, y)
  {
    var g :| IsAnd(gates, base, g, Neg(q), Neg(x)) && IsAnd(gates, base, l, Neg(g), Neg(y));
    IsAndStable(gates, gates', base, g, Neg(q), Neg(x));
    IsAndStable(gates, gates', base, l, Neg(g), Neg(y));
  }

  lemma LiveSectionStable(n: Netlist, o: Options, m: map<Bit, Lit>, m': map<Bit, Lit>, gates: seq<Gate>,
                          gates': seq<Gate>, base: nat, ins: seq<Lit>, js: seq<Lit>)
    requires LiveSection(n, o, m, gates, base, ins, js) && Extends(m, m') && gates <= gates'
    ensures LiveSection(n, o, m', gates', base, ins, js)
  {
    forall k | 0 <= k < |js|
      ensures LiveLits(n, o, m', gates', base, k, ins[2 * k], ins[2 * k + 1], js[k])
    {
      assert LiveLits(n, o, m, gates, base, k, ins[2 * k], ins[2 * k + 1], js[k]);
      var c := n.liveness[k];
      var q1, q2 := Pos(LiveLatch(n, o, k)), Pos(LiveLatch(n, o, k) + 1);
      AndOrStable(gates, gates', base, ins[2 * k], Pos(LiveVar(n, o, k)), m[c.en], q1);
      AndOrStable(gates, gates', base, ins[2 * k + 1], ins[2 * k], m[c.a], q2);
    }
  }

  lemma LiveSectionAfter(n: Netlist, o: Options, m: map<Bit, Lit>, m': map<Bit, Lit>, gates: seq<Gate>,
                         gates': seq<Gate>, base: nat,
                         ins: seq<Lit>, js: seq<Lit>, d1: Lit, d2: Lit, j: Lit)
    requires LiveSection(n, o, m, gates, base, ins, js) && Extends(m, m') && gates <= gates'
    requires |js| < |n.liveness| && LiveLits(n, o, m', gates', base, |js|, d1, d2, j)
    ensures LiveSection(n, o, m', gates', base, ins + [d1, d2], js + [j])
  {
    hide LiveLits;
    LiveSectionStable(n, o, m, m', gates, gates', base, ins, js);
  }

  lemma FairSectionStable(n: Netlist, o: Options, m: map<Bit, Lit>, m': map<Bit, Lit>, gates: seq<Gate>,
                          gates': seq<Gate>, base: nat, ins: seq<Lit>, fs: seq<Lit>)
    requires FairSection(n, o, m, gates, base, ins, fs) && Extends(m, m') && gates <= gates'
    ensures FairSection(n, o, m', gates', base, ins, fs)
  {
    forall k | 0 <= k < |fs|
      ensures FairLits(n, o, m', gates', base, k, ins[k], fs[k])
    {
      assert FairLits(n, o, m, gates, base, k, ins[k], fs[k]);
      var c, q := n.fairness[k], Pos(FairLatch(n, o, k));
      OrAndNotStable(gates, gates', base, ins[k], q, m[c.en], m[c.a]);
    }
  }
}
