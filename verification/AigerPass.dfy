/**
 The AIGER pass as a whole: a well-formed netlist in, a graph with the same failures out.
 */
module AigerPass {
  import opened AigCore
  import opened Wrappers
  import opened Netlists
  import opened AigerLayout
  import opened AigerWriters
  import AigerCorrect
  import AigerLiveness
  import AigSelect
  import AigGraph

  ghost predicate SameFailures(n: Netlist, a: Aig) {
    && |n.asserts| <= |a.bads|
    && (forall i :: 0 <= i < |n.asserts| ==> (AssertCanFail(n, i) <==> BadReachable(a, i)))
    && (forall i :: |n.asserts| <= i < |a.bads| ==> !BadReachable(a, i))
    && |n.liveness| == |a.justice|
    && (forall k :: 0 <= k < |n.liveness| ==>
         (AigerLiveness.LivenessCanFail(n, k) <==> AigerLiveness.JusticeReachable(a, k)))
  }

  lemma CompiledHasSameFailures(n: Netlist, o: Options, m: map<Bit, Lit>, rank: map<Bit, nat>, a: Aig, rk: Bit -> nat)
    requires WellFormed(n) && Acyclic(n, rk) && Compiled(n, o, m, rank, a)
    ensures SameFailures(n, a) && Sorted(a.gates, a.Base())
  {
    assert |n.asserts| <= |a.bads| && |n.liveness| == |a.justice| && Sorted(a.gates, a.Base());
    hide WellFormed, Acyclic, Compiled;
    forall i | 0 <= i < |n.asserts|
      ensures AssertCanFail(n, i) <==> BadReachable(a, i)
    {
      AigerCorrect.AssertFailsIffBadReachable(n, o, m, rank, a, rk, i);
    }
    forall k | 0 <= k < |n.liveness|
      ensures AigerLiveness.LivenessCanFail(n, k) <==> AigerLiveness.JusticeReachable(a, k)
    {
      AigerLiveness.LivenessFailsIffJusticeReachable(n, o, m, rank, a, rk, k);
    }
  }

  // ----- what the options change -----

  /** A section of the file: what the netlist has, or one entry if the option asks for it and there is none. */
  ghost predicate Sized(count: nat, own: nat, option: bool) {
    if option && own == 0 then count == 1 else count == own
  }

  /** The options -I, -O, -B and -L fill empty sections, and -zinit starts every latch at zero. */
  lemma OptionsMean(n: Netlist, o: Options, m: map<Bit, Lit>, rank: map<Bit, nat>, a: Aig)
    requires Compiled(n, o, m, rank, a)
    ensures Sized(|a.outputs|, |n.outputs|, o.omode) && Sized(|a.bads|, |n.asserts|, o.bmode)
    ensures |a.constraints| == |n.assumes| && |a.justice| == |n.liveness| && |a.fairness| == |n.fairness|
    ensures !o.zinit ==>
              Sized(a.inputs - |n.liveness|, |n.inputs|, o.imode)
    ensures o.imode ==> a.inputs > 0
    ensures o.lmode ==> |a.latches| > 0
    ensures !o.lmode && n.ffs == [] && n.initstate == {} && n.liveness == [] && n.fairness == [] ==> |a.latches| == 0
    ensures o.zinit ==> forall i :: 0 <= i < |a.latches| ==> a.latches[i].reset == Zero
    ensures !o.zinit ==> forall i :: 0 <= i < |n.ffs| ==>
              a.latches[i].reset == if n.ffs[i].q !in n.initMap then Free else if n.initMap[n.ffs[i].q] then One else
                Zero
  {
    hide Structure, OutputLits, BadLits, FfSection, LiveSection, FairSection;
    NoUninit(n, |n.ffs|);
  }

  lemma NoUninit(n: Netlist, k: nat)
    requires k <= |n.ffs|
    ensures n.ffs == [] ==> UninitBefore(n, k) == 0
  {
  }

  // ----- the written graph passes the check -----

  lemma FfNextBounded(n: Netlist, o: Options, m: map<Bit, Lit>, rank: map<Bit, nat>, a: Aig, i: nat)
    requires Compiled(n, o, m, rank, a) && i < |n.ffs|
    ensures i < |a.latches| && a.latches[i].next.v <= a.Base() + |a.gates|
  {
    assert Bounded(m, a.Base() + |a.gates|);
    AigerCorrect.FfLatchOf(n, o, m, rank, a, i);
  }

  lemma OwnNextBounded(n: Netlist, o: Options, m: map<Bit, Lit>, rank: map<Bit, nat>, a: Aig, i: nat)
    requires Compiled(n, o, m, rank, a) && |n.ffs| <= i < |a.latches|
    requires i < CoreLatches(n, o) || RealLatches(n, o) <= i
    ensures a.latches[i].next.v == 0
  {
    hide Structure, OutputLits, BadLits, ConstraintLits, FfSection, LiveSection, FairSection;
    assert Nexts(a.latches)[i] == a.latches[i].next;
  }

  lemma LiveNextBounded(n: Netlist, o: Options, m: map<Bit, Lit>, rank: map<Bit, nat>, a: Aig, k: nat)
    requires Compiled(n, o, m, rank, a) && k < |n.liveness|
    ensures CoreLatches(n, o) + 2 * k + 1 < |a.latches|
    ensures a.latches[CoreLatches(n, o) + 2 * k].next.v <= a.Base() + |a.gates|
    ensures a.latches[CoreLatches(n, o) + 2 * k + 1].next.v <= a.Base() + |a.gates|
  {
    hide Compiled, CoreLatches, LiveVar, LiveLatch;
    AigerLiveness.LiveLatches(n, o, m, rank, a, k);
  }

  lemma FairNextBounded(n: Netlist, o: Options, m: map<Bit, Lit>, rank: map<Bit, nat>, a: Aig, k: nat)
    requires Compiled(n, o, m, rank, a) && k < |n.fairness|
    ensures CoreLatches(n, o) + 2 * |n.liveness| + k < |a.latches|
    ensures a.latches[CoreLatches(n, o) + 2 * |n.liveness| + k].next.v <= a.Base() + |a.gates|
  {
    hide Compiled, CoreLatches, FairLatch;
    AigerLiveness.FairLatches(n, o, m, rank, a, k);
  }

  /** The graph the writer makes is numbered inputs, latches, gates, and passes the topological check. */
  lemma CompiledPassesCheck(n: Netlist, o: Options, m: map<Bit, Lit>, rank: map<Bit, nat>, a: Aig)
    requires Compiled(n, o, m, rank, a)
    ensures a.inputs == Inputs(n, o) && |a.latches| == Latches(n, o)
    ensures AigGraph.TopoSorted(AigGraph.Load(a)) && AigGraph.SourcesAreLeaves(AigGraph.Load(a))
  {
    assert Sorted(a.gates, a.Base()) && a.inputs == Inputs(n, o) && |a.latches| == Latches(n, o);
    hide Compiled, Sorted;
    forall i | 0 <= i < |a.latches|
      ensures a.latches[i].next.v <= a.Base() + |a.gates|
    {
      var core := CoreLatches(n, o);
      if i < |n.ffs| {
        FfNextBounded(n, o, m, rank, a, i);
      } else if i < core || RealLatches(n, o) <= i {
        OwnNextBounded(n, o, m, rank, a, i);
      } else if i < core + 2 * |n.liveness| {
        LiveNextBounded(n, o, m, rank, a, (i - core) / 2);
      } else {
        FairNextBounded(n, o, m, rank, a, i - core - 2 * |n.liveness|);
      }
    }
    AigGraph.SortedFilePasses(a);
  }

  /** Never fails on an acyclic netlist whose bits are all driven, and preserves every failure. */
  method Translate(n: Netlist, o: Options, ghost rk: Bit -> nat) returns (a: Aig)
    requires WellFormed(n) && Acyclic(n, rk) && Closed(n) && Sx !in n.bits && Sz !in n.bits
    ensures SameFailures(n, a)
    ensures a.inputs == Inputs(n, o) && |a.latches| == Latches(n, o) && Sorted(a.gates, a.Base())
    ensures AigGraph.TopoSorted(AigGraph.Load(a))
  {
    hide SameFailures, Compiled, AigGraph.TopoSorted, Sorted, Acyclic;
    var w := new AigerWriter(n, o);
    var e := w.Build();
    if e.Some? {
      SoundNetlistHasNoError(n, rk, e.value);
      assert false;
    }
    a := w.Result();
    CompiledHasSameFailures(n, o, w.aigMap, w.rank, a, rk);
    CompiledPassesCheck(n, o, w.aigMap, w.rank, a);
  }

  /**
   The whole chain: when the graph of a netlist is specialised per proof step and every
   specialised graph passes, no run of the netlist under its assumptions fails an assertion.
   */
  lemma ProvenStepsHoldInNetlist(n: Netlist, a: Aig, names: seq<AigSelect.Prop>, jobs: set<AigSelect.Job>, i: nat)
    requires SameFailures(n, a) && |a.bads| == |names| && i < |n.asserts| && !AigSelect.IsCover(names[i])
    requires AigSelect.JobsCover(names, jobs) && forall job :: job in jobs ==> AigSelect.JobPasses(a, names, job)
    ensures !AssertCanFail(n, i)
  {
    AigSelect.StepwiseProofIsSound(a, names, jobs, i);
  }
}
