/**
 The graph the AIGER writer produces has the netlist's behaviour: in corresponding runs
 every literal has its bit's value in every cycle, each side's runs have a counterpart
 on the other, and so an assertion can fail exactly when its bad state is reachable.
 */
module AigerCorrect {
  import opened AigCore
  import opened Netlists
  import opened AigerLayout

  // ----- one cycle -----

  ghost predicate LeavesAgree(n: Netlist, m: map<Bit, Lit>, u: BitFrame, f: Frame) {
    forall b :: b in n.leaves ==> b in m && LitVal(f, m[b]) == u(b)
  }

  /** A cell's literal has the cell's value if its operands' literals do. */
  lemma CellAgrees(n: Netlist, o: Options, m: map<Bit, Lit>, gates: seq<Gate>, base: nat,
                   u: BitFrame, f: Frame, first: bool, b: Bit)
    requires LeavesOk(n) && b in m && b !in n.leaves
    requires CellLit(n, o, m, gates, base, b) && CellHolds(n, u, first, b)
    requires GatesHold(gates, base, f)
    requires n.initstate != {} ==> LitVal(f, FirstLit(n, o)) == first
    requires forall i :: 0 <= i < |Deps(n, b)| ==> Deps(n, b)[i] in m && LitVal(f, m[Deps(n, b)[i]]) == u(Deps(n, b)[i])
    ensures LitVal(f, m[b]) == u(b)
  {
    hide FirstLit, GatesHold;
    assert b != S0 && b != S1 && b !in n.fixed;
    var ds := Deps(n, b);
    if b in n.notMap {
      assert ds[0] == n.notMap[b];
    } else if b in n.andMap {
      assert ds[0] == n.andMap[b].0 && ds[1] == n.andMap[b].1;
      AndVal(gates, base, f, m[b], m[ds[0]], m[ds[1]]);
    } else if b in n.aliasMap {
      assert ds[0] == n.aliasMap[b];
    }
  }

  /** If leaves agree in a cycle then every compiled bit does. */
  lemma {:induction false} CellsAgree(n: Netlist, o: Options, m: map<Bit, Lit>, rank: map<Bit, nat>, gates: seq<Gate>,
                                      base: nat,
                                      u: BitFrame, f: Frame, first: bool, b: Bit)
    requires LeavesOk(n) && CellLits(n, o, m, gates, base) && Ranked(n, m, rank)
    requires GatesHold(gates, base, f) && FrameHolds(n, u, first) && LeavesAgree(n, m, u, f)
    requires n.initstate != {} ==> LitVal(f, FirstLit(n, o)) == first
    requires b in m
    ensures LitVal(f, m[b]) == u(b)
    decreases rank[b]
  {
    hide LeavesOk, CellLit, CellHolds, GatesHold, LitVal, Deps, FirstLit;
    if b !in n.leaves {
      assert CellLit(n, o, m, gates, base, b);
      assert CellHolds(n, u, first, b);
      assert DepsBelow(Deps(n, b), m, rank, rank[b]);
      forall i | 0 <= i < |Deps(n, b)|
        ensures LitVal(f, m[Deps(n, b)[i]]) == u(Deps(n, b)[i])
      {
        CellsAgree(n, o, m, rank, gates, base, u, f, first, Deps(n, b)[i]);
      }
      CellAgrees(n, o, m, gates, base, u, f, first, b);
    }
  }

  // ----- flip-flops across cycles -----

  lemma FfLatchOf(n: Netlist, o: Options, m: map<Bit, Lit>, rank: map<Bit, nat>, a: Aig, i: nat)
    requires Compiled(n, o, m, rank, a) && i < |n.ffs|
    ensures a.inputs == Inputs(n, o)
    ensures i < |a.latches| && n.ffs[i].d in m && FfLit(n, o, m, a.gates, a.Base(), i)
    ensures a.latches[i].next == FfNext(n, o, n.ffs[i], m[n.ffs[i].d])
    ensures a.latches[i].reset == ResetOf(o, InitCode(n, n.ffs[i].q))
  {
    hide CellLits, Ranked, Sorted, Bounded, OutputLits, BadLits, ConstraintLits, LiveSection, FairSection, FfLit;
    var ins := Nexts(a.latches);
    assert FfSection(n, o, m, ins[..|n.ffs|]);
    assert ins[..|n.ffs|][i] == a.latches[i].next;
    assert FfLits(n, o, m, a.gates, a.Base(), |n.ffs|);
  }

  /** The first-cycle literal is true in the first cycle only. */
  lemma FirstValue(n: Netlist, o: Options, m: map<Bit, Lit>, rank: map<Bit, nat>, a: Aig, r: Run, t: nat)
    requires Compiled(n, o, m, rank, a) && IsRun(a, r) && HasInitLatch(n, o)
    ensures LitVal(r(t), FirstLit(n, o)) == (t == 0)
  {
    hide Structure, OutputLits, BadLits, ConstraintLits, LiveSection, FairSection, FfSection;
    var k := |n.ffs|;
    assert Nexts(a.latches)[k] == a.latches[k].next == TRUE && a.latches[k].reset == Zero;
    assert StartedVar(n, o) == a.inputs + 1 + k;
    if t == 0 {
      assert ResetHolds(a.latches[k], r(0)(a.inputs + 1 + k));
    } else {
      assert StepHolds(a, r(t - 1), r(t - 1 + 1));
      assert GatesHold(a.gates, a.Base(), r(t - 1));
      assert r(t)(a.inputs + 1 + k) == LitVal(r(t - 1), a.latches[k].next);
    }
  }

  /** The gates that choose between the initial value and the latch do so. */
  lemma MuxedInitValue(gates: seq<Gate>, base: nat, f: Frame, l: Lit, old_: Lit, init: Lit, first: Lit)
    requires MuxedInit(gates, base, l, old_, init, first) && GatesHold(gates, base, f)
    ensures LitVal(f, l) == if LitVal(f, first) then LitVal(f, init) else LitVal(f, old_)
  {
    var g0, g1 :|
      && IsAnd(gates, base, g0, old_, Neg(first))
      && IsAnd(gates, base, g1, init, first)
      && IsAnd(gates, base, Neg(l), Neg(g0), Neg(g1));
    AndVal(gates, base, f, g0, old_, Neg(first));
    AndVal(gates, base, f, g1, init, first);
    AndVal(gates, base, f, Neg(l), Neg(g0), Neg(g1));
  }

  lemma HasInitWhenUninit(n: Netlist, o: Options, i: nat)
    requires i < |n.ffs| && o.zinit && n.ffs[i].q !in n.initMap
    ensures HasInitLatch(n, o)
  {
    UninitMonotone(n, i + 1, |n.ffs|);
  }

  /** The literal of flip-flop `i` after a step is the value its data literal had before. */
  lemma FfMoves(n: Netlist, o: Options, m: map<Bit, Lit>, rank: map<Bit, nat>, a: Aig, r: Run, t: nat, i: nat)
    requires Compiled(n, o, m, rank, a) && IsRun(a, r) && i < |n.ffs|
    ensures n.ffs[i].q in m && n.ffs[i].d in m
    ensures LitVal(r(t + 1), m[n.ffs[i].q]) == LitVal(r(t), m[n.ffs[i].d])
  {
    hide Compiled, FirstLit, GatesHold, HasInitLatch;
    var q, x := n.ffs[i].q, FfVar(n, o, i);
    FfLatchOf(n, o, m, rank, a, i);
    if o.zinit && q !in n.initMap {
      HasInitWhenUninit(n, o, i);
      FirstValue(n, o, m, rank, a, r, t + 1);
    }
    assert GatesHold(a.gates, a.Base(), r(t + 1));
    assert StepHolds(a, r(t), r(t + 1));
    assert r(t + 1)(a.inputs + 1 + i) == LitVal(r(t), a.latches[i].next);
    if o.zinit && q !in n.initMap {
      MuxedInitValue(a.gates, a.Base(), r(t + 1), m[q], Pos(x), Pos(InitVar(n, o, i)), FirstLit(n, o));
    }
  }

  /** Where the literal of flip-flop `i` starts. */
  lemma FfStarts(n: Netlist, o: Options, m: map<Bit, Lit>, rank: map<Bit, nat>, a: Aig, r: Run, i: nat)
    requires Compiled(n, o, m, rank, a) && IsRun(a, r) && i < |n.ffs|
    ensures n.ffs[i].q in m
    ensures LitVal(r(0), m[n.ffs[i].q]) ==
      if n.ffs[i].q in n.initMap then n.initMap[n.ffs[i].q]
      else if o.zinit then r(0)(InitVar(n, o, i))
      else r(0)(FfVar(n, o, i))
  {
    hide Compiled, FirstLit, GatesHold, HasInitLatch;
    var q, x := n.ffs[i].q, FfVar(n, o, i);
    FfLatchOf(n, o, m, rank, a, i);
    if o.zinit && q !in n.initMap {
      HasInitWhenUninit(n, o, i);
      FirstValue(n, o, m, rank, a, r, 0);
    }
    assert GatesHold(a.gates, a.Base(), r(0));
    assert ResetHolds(a.latches[i], r(0)(a.inputs + 1 + i));
    if o.zinit && q !in n.initMap {
      MuxedInitValue(a.gates, a.Base(), r(0), m[q], Pos(x), Pos(InitVar(n, o, i)), FirstLit(n, o));
    }
  }

  // ----- corresponding runs -----

  ghost predicate InputsAgree(n: Netlist, u: BitFrame, f: Frame) {
    forall i :: 0 <= i < |n.inputs| ==> f(InputVar(i)) == u(n.inputs[i])
  }

  ghost predicate FfsAgree(n: Netlist, m: map<Bit, Lit>, u: BitFrame, f: Frame) {
    forall i :: 0 <= i < |n.ffs| ==> n.ffs[i].q in m && LitVal(f, m[n.ffs[i].q]) == u(n.ffs[i].q)
  }

  /** Where a flip-flop without initial value starts: an extra input under -zinit, else its own latch. */
  function StartVar(n: Netlist, o: Options, i: nat): nat
    requires i < |n.ffs|
  {
    if o.zinit then InitVar(n, o, i) else FfVar(n, o, i)
  }

  ghost predicate StartsAgree(n: Netlist, o: Options, u: BitFrame, f: Frame) {
    forall i :: 0 <= i < |n.ffs| && n.ffs[i].q !in n.initMap ==> f(StartVar(n, o, i)) == u(n.ffs[i].q)
  }

  /**
   The runs read the same inputs in every cycle, and the free initial values agree in the
   first. Nothing is said of the initial-value inputs in later cycles, nor of the inputs
   of the liveness monitors.
   */
  ghost predicate Corresponds(n: Netlist, o: Options, s: BitRun, r: Run) {
    && (forall t: nat :: InputsAgree(n, s(t), r(t)))
    && StartsAgree(n, o, s(0), r(0))
  }

  lemma LeavesFollow(n: Netlist, o: Options, m: map<Bit, Lit>, gates: seq<Gate>, base: nat, u: BitFrame, f: Frame,
                     first: bool)
    requires LeavesOk(n) && LeafLits(n, o, m, gates, base)
    requires !f(0) && FrameHolds(n, u, first) && InputsAgree(n, u, f) && FfsAgree(n, m, u, f)
    ensures LeavesAgree(n, m, u, f)
  {
    hide FfLits;
    forall b | b in n.leaves
      ensures b in m && LitVal(f, m[b]) == u(b)
    {
      assert CellHolds(n, u, first, b);
      if i :| 0 <= i < |n.ffs| && n.ffs[i].q == b {
      } else if b != S0 && b != S1 && b !in n.fixed {
        var i :| 0 <= i < |n.inputs| && n.inputs[i] == b;
      }
    }
  }

  /** Every compiled bit has its literal's value in a cycle where inputs and flip-flops agree. */
  lemma FrameAgrees(n: Netlist, o: Options, m: map<Bit, Lit>, rank: map<Bit, nat>, a: Aig, u: BitFrame, r: Run, t: nat)
    requires LeavesOk(n) && Compiled(n, o, m, rank, a) && IsRun(a, r) && FrameHolds(n, u, t == 0)
    requires InputsAgree(n, u, r(t)) && FfsAgree(n, m, u, r(t))
    ensures forall b :: b in m ==> LitVal(r(t), m[b]) == u(b)
  {
    assert Structure(n, o, m, a.gates, a.Base(), rank);
    assert GatesHold(a.gates, a.Base(), r(t));
    if n.initstate != {} {
      FirstValue(n, o, m, rank, a, r, t);
    }
    hide Compiled, CellLits, Ranked, Sorted, Bounded, FrameHolds, LeafLits, FirstLit, LeavesOk;
    LeavesFollow(n, o, m, a.gates, a.Base(), u, r(t), t == 0);
    forall b | b in m
      ensures LitVal(r(t), m[b]) == u(b)
    {
      CellsAgree(n, o, m, rank, a.gates, a.Base(), u, r(t), t == 0, b);
    }
  }

  /** Flip-flops agree in every cycle of corresponding runs. */
  lemma {:induction false} FfsAgreeAlways(n: Netlist, o: Options, m: map<Bit, Lit>, rank: map<Bit, nat>, a: Aig,
                                          s: BitRun, r: Run, t: nat)
    requires LeavesOk(n) && Compiled(n, o, m, rank, a)
    requires IsNetRun(n, s) && IsRun(a, r) && Corresponds(n, o, s, r)
    ensures FfsAgree(n, m, s(t), r(t))
  {
    hide Compiled, LeavesOk, IsRun, FrameHolds, LitVal, FfVar, InitVar;
    if t == 0 {
      forall i | 0 <= i < |n.ffs|
        ensures n.ffs[i].q in m && LitVal(r(0), m[n.ffs[i].q]) == s(0)(n.ffs[i].q)
      {
        FfStarts(n, o, m, rank, a, r, i);
      }
    } else {
      FfsAgreeAlways(n, o, m, rank, a, s, r, t - 1);
      FrameAgrees(n, o, m, rank, a, s(t - 1), r, t - 1);
      assert FfsStep(n, s(t - 1), s(t - 1 + 1));
      forall i | 0 <= i < |n.ffs|
        ensures n.ffs[i].q in m && LitVal(r(t), m[n.ffs[i].q]) == s(t)(n.ffs[i].q)
      {
        FfMoves(n, o, m, rank, a, r, t - 1, i);
      }
    }
  }

  /** In corresponding runs every literal has its bit's value in every cycle. */
  lemma LiteralsFollowBits(n: Netlist, o: Options, m: map<Bit, Lit>, rank: map<Bit, nat>, a: Aig, s: BitRun, r: Run,
                           t: nat)
    requires LeavesOk(n) && Compiled(n, o, m, rank, a)
    requires IsNetRun(n, s) && IsRun(a, r) && Corresponds(n, o, s, r)
    ensures forall b :: b in m ==> LitVal(r(t), m[b]) == s(t)(b)
  {
    hide Compiled, LeavesOk, IsRun, FrameHolds, LitVal;
    FfsAgreeAlways(n, o, m, rank, a, s, r, t);
    FrameAgrees(n, o, m, rank, a, s(t), r, t);
  }

  // ----- a graph run for every netlist run -----

  /** What the graph's input `x` reads in cycle `t` of netlist run `s`. */
  function InputFrom(n: Netlist, o: Options, s: BitRun, live: Run, t: nat, x: nat): bool {
    if 1 <= x <= |n.inputs| then s(t)(n.inputs[x - 1])
    else if o.zinit && PortInputs(n, o) < x <= PortInputs(n, o) + Uninit(n) then
      s(0)(n.ffs[UninitAt(n, x - PortInputs(n, o) - 1, |n.ffs|)].q)
    else live(t)(x)
  }

  function StartFrom(n: Netlist, o: Options, s: BitRun, x: nat): bool {
    Inputs(n, o) < x <= Inputs(n, o) + |n.ffs| && s(0)(n.ffs[x - Inputs(n, o) - 1].q)
  }

  ghost predicate ReadsLive(n: Netlist, o: Options, r: Run, live: Run) {
    forall t: nat, k :: 0 <= k < |n.liveness| ==> r(t)(LiveVar(n, o, k)) == live(t)(LiveVar(n, o, k))
  }

  function InputsFrom(n: Netlist, o: Options, s: BitRun, live: Run): Run {
    (t: nat) => (x: nat) => InputFrom(n, o, s, live, t, x)
  }

  lemma InputsFollow(n: Netlist, o: Options, s: BitRun, live: Run, a: Aig, r: Run, t: nat)
    requires a.inputs == Inputs(n, o) && ReadsInputs(a, r, InputsFrom(n, o, s, live))
    ensures InputsAgree(n, s(t), r(t))
    ensures forall k :: 0 <= k < |n.liveness| ==> r(t)(LiveVar(n, o, k)) == live(t)(LiveVar(n, o, k))
  {
    forall i | 0 <= i < |n.inputs|
      ensures r(t)(InputVar(i)) == s(t)(n.inputs[i])
    {
      assert r(t)(InputVar(i)) == InputsFrom(n, o, s, live)(t)(InputVar(i));
    }
    forall k | 0 <= k < |n.liveness|
      ensures r(t)(LiveVar(n, o, k)) == live(t)(LiveVar(n, o, k))
    {
      assert r(t)(LiveVar(n, o, k)) == InputsFrom(n, o, s, live)(t)(LiveVar(n, o, k));
    }
  }

  lemma InitInputFollows(n: Netlist, o: Options, s: BitRun, live: Run, a: Aig, r: Run, i: nat)
    requires a.inputs == Inputs(n, o) && ReadsInputs(a, r, InputsFrom(n, o, s, live))
    requires o.zinit && i < |n.ffs| && n.ffs[i].q !in n.initMap
    ensures r(0)(InitVar(n, o, i)) == s(0)(n.ffs[i].q)
  {
    hide UninitAt, UninitBefore;
    UninitAtIsInverse(n, i);
    assert r(0)(InitVar(n, o, i)) == InputsFrom(n, o, s, live)(0)(InitVar(n, o, i));
  }

  function StartFrameFrom(n: Netlist, o: Options, s: BitRun): Frame {
    (x: nat) => StartFrom(n, o, s, x)
  }

  lemma LatchStartFollows(n: Netlist, o: Options, m: map<Bit, Lit>, rank: map<Bit, nat>, a: Aig, s: BitRun, f: Frame,
                          i: nat)
    requires Compiled(n, o, m, rank, a) && FreeStarts(a, f, StartFrameFrom(n, o, s))
    requires !o.zinit && i < |n.ffs| && n.ffs[i].q !in n.initMap
    ensures f(FfVar(n, o, i)) == s(0)(n.ffs[i].q)
  {
    hide Compiled, FfLit, FfNext;
    FfLatchOf(n, o, m, rank, a, i);
    assert f(a.inputs + 1 + i) == StartFrameFrom(n, o, s)(a.inputs + 1 + i);
  }

  /** Every netlist run has a corresponding graph run, with any choice of the monitors' inputs. */
  lemma NetRunHasAigRun(n: Netlist, o: Options, m: map<Bit, Lit>, rank: map<Bit, nat>, a: Aig, s: BitRun, live: Run)
    returns (r: Run)
    requires Compiled(n, o, m, rank, a)
    ensures IsRun(a, r) && Corresponds(n, o, s, r) && ReadsLive(n, o, r, live)
  {
    assert Sorted(a.gates, a.Base()) && a.inputs == Inputs(n, o);
    hide Compiled, Sorted, IsRun, Inputs, PortInputs, InitVar, FfVar, LiveVar, InputsAgree, ReadsInputs, FreeStarts,
         InputsFrom, StartFrameFrom;
    r := RunExists(a, InputsFrom(n, o, s, live), StartFrameFrom(n, o, s));
    forall t: nat
      ensures InputsAgree(n, s(t), r(t))
      ensures forall k :: 0 <= k < |n.liveness| ==> r(t)(LiveVar(n, o, k)) == live(t)(LiveVar(n, o, k))
    {
      InputsFollow(n, o, s, live, a, r, t);
    }
    forall i | 0 <= i < |n.ffs| && n.ffs[i].q !in n.initMap
      ensures r(0)(StartVar(n, o, i)) == s(0)(n.ffs[i].q)
    {
      if o.zinit {
        InitInputFollows(n, o, s, live, a, r, i);
      } else {
        LatchStartFollows(n, o, m, rank, a, s, r(0), i);
      }
    }
  }

  // ----- a netlist run for every graph run -----

  function LeafFrom(m: map<Bit, Lit>, f: Frame): BitFrame {
    b => b in m && LitVal(f, m[b])
  }

  function NetFrame(n: Netlist, rk: Bit -> nat, m: map<Bit, Lit>, r: Run, t: nat): BitFrame
    requires Acyclic(n, rk)
  {
    b => BitVal(n, rk, LeafFrom(m, r(t)), t == 0, b)
  }

  lemma NetFrameLeaves(n: Netlist, o: Options, m: map<Bit, Lit>, rank: map<Bit, nat>, a: Aig, rk: Bit -> nat, r: Run,
                       t: nat)
    requires LeavesOk(n) && DistinctLeaves(n) && Acyclic(n, rk) && Compiled(n, o, m, rank, a) && IsRun(a, r)
    ensures FrameHolds(n, NetFrame(n, rk, m, r, t), t == 0)
    ensures InputsAgree(n, NetFrame(n, rk, m, r, t), r(t)) && FfsAgree(n, m, NetFrame(n, rk, m, r, t), r(t))
  {
    assert LeafLits(n, o, m, a.gates, a.Base());
    hide Compiled, Acyclic, IsRun;
    var u, first := NetFrame(n, rk, m, r, t), t == 0;
    BitValHolds(n, rk, LeafFrom(m, r(t)), first);
    forall b
      ensures CellHolds(n, u, first, b)
    {
      assert CellHolds(n, c => BitVal(n, rk, LeafFrom(m, r(t)), first, c), first, b);
    }
    forall i | 0 <= i < |n.ffs|
      ensures n.ffs[i].q in m && LitVal(r(t), m[n.ffs[i].q]) == u(n.ffs[i].q)
    {
      assert FfLit(n, o, m, a.gates, a.Base(), i);
      assert n.ffs[i].q in n.leaves;
    }
    forall i | 0 <= i < |n.inputs|
      ensures r(t)(InputVar(i)) == u(n.inputs[i])
    {
      assert n.inputs[i] in n.leaves;
    }
  }

  /** Every run of the graph of an acyclic netlist has a corresponding netlist run. */
  lemma AigRunHasNetRun(n: Netlist, o: Options, m: map<Bit, Lit>, rank: map<Bit, nat>, a: Aig, rk: Bit -> nat, r: Run)
    returns (s: BitRun)
    requires LeavesOk(n) && DistinctLeaves(n) && Acyclic(n, rk) && Compiled(n, o, m, rank, a) && IsRun(a, r)
    ensures IsNetRun(n, s) && Corresponds(n, o, s, r)
  {
    hide Compiled, LeavesOk, DistinctLeaves, FrameHolds, Acyclic, BitVal, IsRun, InitVar, FfVar, LitVal;
    s := (t: nat) => NetFrame(n, rk, m, r, t);
    forall t: nat
      ensures FrameHolds(n, s(t), t == 0) && InputsAgree(n, s(t), r(t)) && FfsAgree(n, m, s(t), r(t))
    {
      NetFrameLeaves(n, o, m, rank, a, rk, r, t);
    }
    forall t: nat
      ensures FfsStep(n, s(t), s(t + 1))
    {
      FrameAgrees(n, o, m, rank, a, s(t), r, t);
      forall i | 0 <= i < |n.ffs|
        ensures s(t + 1)(n.ffs[i].q) == s(t)(n.ffs[i].d)
      {
        FfMoves(n, o, m, rank, a, r, t, i);
      }
    }
    forall i | 0 <= i < |n.ffs|
      ensures n.ffs[i].q in n.initMap ==> s(0)(n.ffs[i].q) == n.initMap[n.ffs[i].q]
      ensures n.ffs[i].q !in n.initMap ==> r(0)(StartVar(n, o, i)) == s(0)(n.ffs[i].q)
    {
      FfStarts(n, o, m, rank, a, r, i);
    }
  }

  // ----- assertions and bad states -----

  lemma ChecksFollow(n: Netlist, o: Options, m: map<Bit, Lit>, rank: map<Bit, nat>, a: Aig, s: BitRun, r: Run, t: nat)
    requires LeavesOk(n) && Compiled(n, o, m, rank, a)
    requires IsNetRun(n, s) && IsRun(a, r) && Corresponds(n, o, s, r)
    ensures forall i :: 0 <= i < |n.asserts| ==> LitVal(r(t), a.bads[i]) == Fails(s(t), n.asserts[i])
    ensures AllTrue(a.constraints, r(t)) == NoneFails(n.assumes, s(t))
  {
    LiteralsFollowBits(n, o, m, rank, a, s, r, t);
    var gates, base := a.gates, a.Base();
    assert GatesHold(gates, base, r(t));
    assert BadLits(n.asserts, m, gates, base, a.bads[..|n.asserts|]) &&
           ConstraintLits(n.assumes, m, gates, base, a.constraints);
    assert |n.asserts| <= |a.bads|;
    hide Compiled, LeavesOk, IsNetRun, IsRun, GatesHold, IsAnd;
    forall i | 0 <= i < |n.asserts|
      ensures LitVal(r(t), a.bads[i]) == Fails(s(t), n.asserts[i])
    {
      var c := n.asserts[i];
      assert a.bads[..|n.asserts|][i] == a.bads[i];
      AndVal(gates, base, r(t), a.bads[i], Neg(m[c.a]), m[c.en]);
    }
    forall i | 0 <= i < |n.assumes|
      ensures LitVal(r(t), a.constraints[i]) == !Fails(s(t), n.assumes[i])
    {
      var c := n.assumes[i];
      AndVal(gates, base, r(t), Neg(a.constraints[i]), Neg(m[c.a]), m[c.en]);
    }
    assert AllTrue(a.constraints, r(t)) ==> forall i :: 0 <= i < |n.assumes| ==> LitVal(r(t), a.constraints[i]);
    assert NoneFails(n.assumes, s(t)) ==> forall i :: 0 <= i < |n.assumes| ==> !Fails(s(t), n.assumes[i]);
  }

  /** An assertion can fail under the assumptions exactly when its bad state is reachable under the constraints. */
  lemma AssertFailsIffBadReachable(n: Netlist, o: Options, m: map<Bit, Lit>, rank: map<Bit, nat>, a: Aig,
                                   rk: Bit -> nat, i: nat)
    requires WellFormed(n) && Acyclic(n, rk) && Compiled(n, o, m, rank, a) && i < |n.asserts|
    ensures |n.asserts| <= |a.bads|
    ensures AssertCanFail(n, i) <==> BadReachable(a, i)
  {
    assert LeavesOk(n) && DistinctLeaves(n) && |n.asserts| <= |a.bads|;
    hide Compiled, LeavesOk, IsNetRun, IsRun, Acyclic, Corresponds, LitVal, AllTrue, NoneFails, Contained,
         DistinctLeaves;
    if AssertCanFail(n, i) {
      var s: BitRun, t: nat :| IsNetRun(n, s) && AssumedTo(n, s, t) && Fails(s(t), n.asserts[i]);
      var r := NetRunHasAigRun(n, o, m, rank, a, s, (v: nat) => (x: nat) => false);
      forall v: nat
        ensures LitVal(r(v), a.bads[i]) == Fails(s(v), n.asserts[i])
        ensures AllTrue(a.constraints, r(v)) == NoneFails(n.assumes, s(v))
      {
        ChecksFollow(n, o, m, rank, a, s, r, v);
      }
      assert IsRun(a, r) && ConstrainedTo(a, r, t) && LitVal(r(t), a.bads[i]);
    }
    if BadReachable(a, i) {
      var r: Run, t: nat :| IsRun(a, r) && ConstrainedTo(a, r, t) && LitVal(r(t), a.bads[i]);
      var s := AigRunHasNetRun(n, o, m, rank, a, rk, r);
      forall v: nat
        ensures LitVal(r(v), a.bads[i]) == Fails(s(v), n.asserts[i])
        ensures AllTrue(a.constraints, r(v)) == NoneFails(n.assumes, s(v))
      {
        ChecksFollow(n, o, m, rank, a, s, r, v);
      }
      assert IsNetRun(n, s) && AssumedTo(n, s, t) && Fails(s(t), n.asserts[i]);
    }
  }
}
