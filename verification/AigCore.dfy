/**
 The and-inverter graph of the AIGER format, with the 1.9 sections for bad states,
 invariant constraints, justice and fairness.

 Variable 0 is the constant false, variables 1..inputs are inputs, the next |latches|
 variables are latches, and the k-th gate drives variable inputs + |latches| + 1 + k.
 The format writes a literal as twice its variable, plus one when it is negated.
 */
module AigCore {

  datatype Lit = Lit(v: nat, neg: bool) {
    /** The number that stands for the literal in a file. */
    function Code(): nat { 2 * v + if neg then 1 else 0 }
  }

  const FALSE := Lit(0, false)
  const TRUE := Lit(0, true)

  function Pos(v: nat): Lit { Lit(v, false) }

  /** The operands of an AND gate, larger literal first, as the binary format wants them. */
  datatype Gate = Gate(rhs0: Lit, rhs1: Lit)

  datatype Reset = Zero | One | Free

  datatype Latch = Latch(next: Lit, reset: Reset)

  datatype Aig = Aig(
    inputs: nat,
    latches: seq<Latch>,
    gates: seq<Gate>,
    outputs: seq<Lit>,
    bads: seq<Lit>,
    constraints: seq<Lit>,
    justice: seq<Lit>,
    fairness: seq<Lit>
  ) {
    function Base(): nat { inputs + |latches| }
  }

  /** The value of every variable in one cycle. */
  type Frame = nat -> bool

  /** The value of every variable in every cycle. */
  type Run = nat -> Frame

  function Neg(l: Lit): Lit { Lit(l.v, !l.neg) }

  predicate LitVal(f: Frame, l: Lit) {
    f(l.v) != l.neg
  }

  function MkGate(a0: Lit, a1: Lit): Gate {
    if a0.Code() > a1.Code() then Gate(a0, a1) else Gate(a1, a0)
  }

  predicate GateVal(f: Frame, g: Gate) {
    LitVal(f, g.rhs0) && LitVal(f, g.rhs1)
  }

  /** Literal `l` is the output of a gate over `a` and `b`. */
  predicate IsAnd(gates: seq<Gate>, base: nat, l: Lit, a: Lit, b: Lit) {
    && !l.neg
    && base < l.v <= base + |gates|
    && gates[l.v - base - 1] == MkGate(a, b)
  }

  ghost predicate GatesHold(gates: seq<Gate>, base: nat, f: Frame) {
    && !f(0)
    && forall k :: 0 <= k < |gates| ==> f(base + 1 + k) == GateVal(f, gates[k])
  }

  lemma AndVal(gates: seq<Gate>, base: nat, f: Frame, l: Lit, a: Lit, b: Lit)
    requires GatesHold(gates, base, f) && IsAnd(gates, base, l, a, b)
    ensures LitVal(f, l) == (LitVal(f, a) && LitVal(f, b))
  {
    var k := l.v - base - 1;
    assert f(base + 1 + k) == GateVal(f, gates[k]);
  }

  /** Operands are ordered, and come before the gate they feed. */
  ghost predicate Sorted(gates: seq<Gate>, base: nat) {
    forall k :: 0 <= k < |gates| ==>
      gates[k].rhs1.Code() <= gates[k].rhs0.Code() && gates[k].rhs0.v < base + 1 + k
  }

  // ----- runs -----

  ghost predicate ResetHolds(latch: Latch, v: bool) {
    match latch.reset
    case Zero => !v
    case One => v
    case Free => true
  }

  ghost predicate StepHolds(a: Aig, now: Frame, next: Frame) {
    forall i :: 0 <= i < |a.latches| ==> next(a.inputs + 1 + i) == LitVal(now, a.latches[i].next)
  }

  ghost predicate Starts(a: Aig, f: Frame) {
    forall i :: 0 <= i < |a.latches| ==> ResetHolds(a.latches[i], f(a.inputs + 1 + i))
  }

  ghost predicate IsRun(a: Aig, r: Run) {
    && Starts(a, r(0))
    && (forall t: nat :: GatesHold(a.gates, a.Base(), r(t)))
    && (forall t: nat :: StepHolds(a, r(t), r(t + 1)))
  }

  ghost predicate AllTrue(lits: seq<Lit>, f: Frame) {
    forall i :: 0 <= i < |lits| ==> LitVal(f, lits[i])
  }

  /** The constraints hold in every cycle up to and including `t`. */
  ghost predicate ConstrainedTo(a: Aig, r: Run, t: nat) {
    forall u: nat :: u <= t ==> AllTrue(a.constraints, r(u))
  }

  /** Some run that meets the constraints so far shows bad state `i`. */
  ghost predicate BadReachable(a: Aig, i: nat)
    requires i < |a.bads|
  {
    exists r: Run, t: nat :: IsRun(a, r) && ConstrainedTo(a, r, t) && LitVal(r(t), a.bads[i])
  }

  ghost predicate TrueAfter(r: Run, l: Lit, t: nat) {
    exists u: nat :: t <= u && LitVal(r(u), l)
  }

  ghost predicate InfinitelyOften(r: Run, l: Lit) {
    forall t: nat :: TrueAfter(r, l, t)
  }

  // ----- every choice of leaves extends to exactly one frame -----

  /** Variable `x` of the frame that `leaf` determines. */
  function Extend(gates: seq<Gate>, base: nat, leaf: Frame, x: nat): bool
    decreases x
  {
    if x == 0 then false
    else if x <= base || |gates| < x - base then leaf(x)
    else
      var g := gates[x - base - 1];
      // In a sorted graph both tests succeed.
      && g.rhs0.v < x && g.rhs1.v < x
      && Extend(gates, base, leaf, g.rhs0.v) != g.rhs0.neg
      && Extend(gates, base, leaf, g.rhs1.v) != g.rhs1.neg
  }

  function Extended(gates: seq<Gate>, base: nat, leaf: Frame): Frame {
    (x: nat) => Extend(gates, base, leaf, x)
  }

  lemma ExtendedHolds(gates: seq<Gate>, base: nat, leaf: Frame)
    requires Sorted(gates, base)
    ensures GatesHold(gates, base, Extended(gates, base, leaf))
    ensures forall x :: 1 <= x <= base ==> Extended(gates, base, leaf)(x) == leaf(x)
  {
    var f := Extended(gates, base, leaf);
    forall k | 0 <= k < |gates|
      ensures f(base + 1 + k) == GateVal(f, gates[k])
    {
      assert gates[(base + 1 + k) - base - 1] == gates[k];
      assert gates[k].rhs1.Code() <= gates[k].rhs0.Code() && gates[k].rhs0.v < base + 1 + k;
    }
  }

  // ----- every input stream, with a start for the free latches, has a run -----

  function Leaf(a: Aig, ins: Run, start: Frame, t: nat, x: nat): bool
    decreases t, 1
  {
    if x <= a.inputs || a.Base() < x then ins(t)(x)
    else
      var latch := a.latches[x - a.inputs - 1];
      if t > 0 then LitVal(FrameAt(a, ins, start, t - 1), latch.next)
      else match latch.reset
        case Zero => false
        case One => true
        case Free => start(x)
  }

  function FrameAt(a: Aig, ins: Run, start: Frame, t: nat): Frame
    decreases t, 2
  {
    Extended(a.gates, a.Base(), (x: nat) => Leaf(a, ins, start, t, x))
  }

  ghost predicate FreeStarts(a: Aig, f: Frame, start: Frame) {
    forall i :: 0 <= i < |a.latches| && a.latches[i].reset == Free ==>
      f(a.inputs + 1 + i) == start(a.inputs + 1 + i)
  }

  ghost predicate ReadsInputs(a: Aig, r: Run, ins: Run) {
    forall t: nat, x :: 1 <= x <= a.inputs ==> r(t)(x) == ins(t)(x)
  }

  lemma RunExists(a: Aig, ins: Run, start: Frame) returns (r: Run)
    requires Sorted(a.gates, a.Base())
    ensures IsRun(a, r) && ReadsInputs(a, r, ins) && FreeStarts(a, r(0), start)
  {
    r := (t: nat) => FrameAt(a, ins, start, t);
    forall t: nat
      ensures GatesHold(a.gates, a.Base(), r(t))
      ensures forall x :: 1 <= x <= a.Base() ==> r(t)(x) == Leaf(a, ins, start, t, x)
    {
      ExtendedHolds(a.gates, a.Base(), (x: nat) => Leaf(a, ins, start, t, x));
    }
    forall t: nat
      ensures StepHolds(a, r(t), r(t + 1))
    {
      forall i | 0 <= i < |a.latches|
        ensures r(t + 1)(a.inputs + 1 + i) == LitVal(r(t), a.latches[i].next)
      {
        assert a.latches[(a.inputs + 1 + i) - a.inputs - 1] == a.latches[i];
        assert r(t + 1)(a.inputs + 1 + i) == Leaf(a, ins, start, t + 1, a.inputs + 1 + i);
      }
    }
    forall i | 0 <= i < |a.latches|
      ensures ResetHolds(a.latches[i], r(0)(a.inputs + 1 + i))
      ensures a.latches[i].reset == Free ==> r(0)(a.inputs + 1 + i) == start(a.inputs + 1 + i)
    {
      assert a.latches[(a.inputs + 1 + i) - a.inputs - 1] == a.latches[i];
      assert r(0)(a.inputs + 1 + i) == Leaf(a, ins, start, 0, a.inputs + 1 + i);
    }
  }
}
