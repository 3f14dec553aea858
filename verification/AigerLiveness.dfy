/**
 The latches that the AIGER writer adds for $live and $fair cells: what they mean over
 infinite runs, and that together they turn a liveness violation into a justice trace.
 */
module AigerLiveness {
  import opened AigCore
  import opened Netlists
  import opened AigerLayout
  import opened AigerCorrect

  type Stream = nat -> bool

  ghost predicate NeverFrom(a: Stream, t: nat) {
    forall u: nat :: t <= u ==> !a(u)
  }

  /** Some cycle raises an obligation that is never met from then on. */
  ghost predicate NeverMet(en: Stream, a: Stream) {
    exists t: nat :: en(t) && NeverFrom(a, t)
  }

  ghost predicate SomeFrom(p: Stream, t: nat) {
    exists u: nat :: t <= u && p(u)
  }

  ghost predicate Often(p: Stream) {
    forall t: nat :: SomeFrom(p, t)
  }

  // ----- the liveness monitor -----

  ghost predicate LiveStep(s: Stream, en: Stream, a: Stream, q1: Stream, q2: Stream, t: nat) {
    && q1(t + 1) == ((s(t) && en(t)) || q1(t))
    && q2(t + 1) == ((q1(t + 1) && a(t)) || q2(t))
  }

  ghost predicate LiveMonitor(s: Stream, en: Stream, a: Stream, q1: Stream, q2: Stream) {
    && !q1(0) && !q2(0)
    && forall t: nat :: LiveStep(s, en, a, q1, q2, t)
  }

  function Pending(q1: Stream, q2: Stream): Stream {
    (t: nat) => q1(t) && !q2(t)
  }

  lemma {:induction false} LiveMonotone(s: Stream, en: Stream, a: Stream, q1: Stream, q2: Stream, t: nat, u: nat)
    requires LiveMonitor(s, en, a, q1, q2) && t <= u
    ensures q1(t) ==> q1(u)
    ensures q2(t) ==> q2(u)
    decreases u
  {
    if t < u {
      LiveMonotone(s, en, a, q1, q2, t, u - 1);
      assert LiveStep(s, en, a, q1, q2, u - 1);
    }
  }

  /** The cycle in which the monitor started to watch. */
  lemma {:induction false} LiveTriggered(s: Stream, en: Stream, a: Stream, q1: Stream, q2: Stream, t: nat)
    returns (u: nat)
    requires LiveMonitor(s, en, a, q1, q2) && q1(t)
    ensures u < t && s(u) && en(u)
    decreases t
  {
    assert LiveStep(s, en, a, q1, q2, t - 1);
    if q1(t - 1) {
      u := LiveTriggered(s, en, a, q1, q2, t - 1);
    } else {
      u := t - 1;
    }
  }

  /** A monitor that stays pending has watched an obligation that is never met. */
  lemma PendingMeansUnmet(s: Stream, en: Stream, a: Stream, q1: Stream, q2: Stream)
    requires LiveMonitor(s, en, a, q1, q2) && Often(Pending(q1, q2))
    ensures NeverMet(en, a)
  {
    assert SomeFrom(Pending(q1, q2), 0);
    var t: nat :| Pending(q1, q2)(t);
    var u := LiveTriggered(s, en, a, q1, q2, t);
    forall v: nat | u <= v
      ensures !a(v)
    {
      assert SomeFrom(Pending(q1, q2), v + 1);
      var w: nat :| v + 1 <= w && Pending(q1, q2)(w);
      LiveMonotone(s, en, a, q1, q2, v + 1, w);
      assert LiveStep(s, en, a, q1, q2, u);
      LiveMonotone(s, en, a, q1, q2, u + 1, v + 1);
      assert LiveStep(s, en, a, q1, q2, v);
    }
    assert en(u) && NeverFrom(a, u);
  }

  /** Watching exactly the unmet obligation keeps the monitor pending for ever after. */
  lemma {:induction false} UnmetKeepsPending(s: Stream, en: Stream, a: Stream, q1: Stream, q2: Stream, t0: nat, t: nat)
    requires LiveMonitor(s, en, a, q1, q2) && en(t0) && NeverFrom(a, t0)
    requires forall u: nat :: s(u) == (u == t0)
    ensures q1(t) == (t > t0) && !q2(t)
    decreases t
  {
    if t > 0 {
      UnmetKeepsPending(s, en, a, q1, q2, t0, t - 1);
      assert LiveStep(s, en, a, q1, q2, t - 1);
    }
  }

  lemma UnmetMeansPending(s: Stream, en: Stream, a: Stream, q1: Stream, q2: Stream, t0: nat)
    requires LiveMonitor(s, en, a, q1, q2) && en(t0) && NeverFrom(a, t0)
    requires forall u: nat :: s(u) == (u == t0)
    ensures Often(Pending(q1, q2))
  {
    forall t: nat
      ensures SomeFrom(Pending(q1, q2), t)
    {
      UnmetKeepsPending(s, en, a, q1, q2, t0, t + t0 + 1);
      assert Pending(q1, q2)(t + t0 + 1);
    }
  }

  // ----- the fairness monitor -----

  ghost predicate FairStep(en: Stream, a: Stream, q: Stream, t: nat) {
    q(t + 1) == ((q(t) || en(t)) && !a(t))
  }

  ghost predicate FairMonitor(en: Stream, a: Stream, q: Stream) {
    !q(0) && forall t: nat :: FairStep(en, a, q, t)
  }

  function Idle(q: Stream): Stream {
    (t: nat) => !q(t)
  }

  lemma {:induction false} FairOwes(en: Stream, a: Stream, q: Stream, t: nat, u: nat)
    requires FairMonitor(en, a, q) && en(t) && NeverFrom(a, t) && t < u
    ensures q(u)
    decreases u
  {
    assert FairStep(en, a, q, u - 1);
    if t < u - 1 {
      FairOwes(en, a, q, t, u - 1);
    }
  }

  /** The cycle that raised the obligation the monitor still holds. */
  lemma {:induction false} FairRaised(en: Stream, a: Stream, q: Stream, t: nat) returns (u: nat)
    requires FairMonitor(en, a, q) && q(t)
    ensures u < t && en(u) && forall v: nat :: u <= v < t ==> !a(v)
    decreases t
  {
    assert FairStep(en, a, q, t - 1);
    if en(t - 1) {
      u := t - 1;
    } else {
      u := FairRaised(en, a, q, t - 1);
    }
  }

  lemma BusyMeansUnmet(en: Stream, a: Stream, q: Stream)
    requires FairMonitor(en, a, q) && !Often(Idle(q))
    ensures NeverMet(en, a)
  {
    var t: nat :| !SomeFrom(Idle(q), t);
    assert forall v: nat :: t <= v ==> !Idle(q)(v);
    assert !Idle(q)(t);
    var u := FairRaised(en, a, q, t);
    forall v: nat | u <= v
      ensures !a(v)
    {
      if t <= v {
        assert FairStep(en, a, q, v) && !Idle(q)(v + 1);
      }
    }
    assert en(u) && NeverFrom(a, u);
  }

  /** The monitor is idle again and again exactly when no obligation stays unmet. */
  lemma FairMeaning(en: Stream, a: Stream, q: Stream)
    requires FairMonitor(en, a, q)
    ensures Often(Idle(q)) <==> !NeverMet(en, a)
  {
    if NeverMet(en, a) {
      var t: nat :| en(t) && NeverFrom(a, t);
      if SomeFrom(Idle(q), t + 1) {
        var u: nat :| t + 1 <= u && Idle(q)(u);
        FairOwes(en, a, q, t, u);
      }
    }
    if !Often(Idle(q)) {
      BusyMeansUnmet(en, a, q);
    }
  }

  // ----- in the compiled graph -----

  function BitStream(s: BitRun, b: Bit): Stream {
    (t: nat) => s(t)(b)
  }

  function VarStream(r: Run, x: nat): Stream {
    (t: nat) => r(t)(x)
  }

  ghost predicate Violated(s: BitRun, c: Check) {
    NeverMet(BitStream(s, c.en), BitStream(s, c.a))
  }

  lemma AndOrValue(gates: seq<Gate>, base: nat, f: Frame, l: Lit, x: Lit, y: Lit, q: Lit)
    requires AndOr(gates, base, l, x, y, q) && GatesHold(gates, base, f)
    ensures LitVal(f, l) == ((LitVal(f, x) && LitVal(f, y)) || LitVal(f, q))
  {
    var g :| IsAnd(gates, base, g, x, y) && IsAnd(gates, base, Neg(l), Neg(g), Neg(q));
    AndVal(gates, base, f, g, x, y);
    AndVal(gates, base, f, Neg(l), Neg(g), Neg(q));
  }

  lemma OrAndNotValue(gates: seq<Gate>, base: nat, f: Frame, l: Lit, q: Lit, x: Lit, y: Lit)
    requires OrAndNot(gates, base, l, q, x, y) && GatesHold(gates, base, f)
    ensures LitVal(f, l) == ((LitVal(f, q) || LitVal(f, x)) && !LitVal(f, y))
  {
    var g :| IsAnd(gates, base, g, Neg(q), Neg(x)) && IsAnd(gates, base, l, Neg(g), Neg(y));
    AndVal(gates, base, f, g, Neg(q), Neg(x));
    AndVal(gates, base, f, l, Neg(g), Neg(y));
  }

  lemma SliceOfNexts(latches: seq<Latch>, lo: nat, hi: nat, k: nat)
    requires lo + k < hi <= |latches|
    ensures Nexts(latches)[lo..hi][k] == latches[lo + k].next
  {
  }

  /** The latches of liveness cell `k`. */
  lemma LiveLatches(n: Netlist, o: Options, m: map<Bit, Lit>, rank: map<Bit, nat>, a: Aig, k: nat)
    requires Compiled(n, o, m, rank, a) && k < |n.liveness|
    ensures var i := CoreLatches(n, o) + 2 * k;
      && i + 1 < |a.latches| && |a.justice| == |n.liveness| && a.inputs == Inputs(n, o)
      && a.latches[i].reset == Zero && a.latches[i + 1].reset == Zero
      && LiveLits(n, o, m, a.gates, a.Base(), k, a.latches[i].next, a.latches[i + 1].next, a.justice[k])
  {
    hide Structure, OutputLits, BadLits, ConstraintLits, FfSection, FairSection, LiveLits;
    var c, ins := CoreLatches(n, o), Nexts(a.latches);
    var live := ins[c..c + 2 * |n.liveness|];
    SliceOfNexts(a.latches, c, c + 2 * |n.liveness|, 2 * k);
    SliceOfNexts(a.latches, c, c + 2 * |n.liveness|, 2 * k + 1);
    assert LiveLits(n, o, m, a.gates, a.Base(), k, live[2 * k], live[2 * k + 1], a.justice[k]);
  }

  /** The latch of fairness cell `k`. */
  lemma FairLatches(n: Netlist, o: Options, m: map<Bit, Lit>, rank: map<Bit, nat>, a: Aig, k: nat)
    requires Compiled(n, o, m, rank, a) && k < |n.fairness|
    ensures var i := CoreLatches(n, o) + 2 * |n.liveness| + k;
      && i < |a.latches| && |a.fairness| == |n.fairness| && a.inputs == Inputs(n, o)
      && a.latches[i].reset == Zero
      && FairLits(n, o, m, a.gates, a.Base(), k, a.latches[i].next, a.fairness[k])
  {
    hide Structure, OutputLits, BadLits, ConstraintLits, FfSection, LiveSection, FairLits;
    var c, ins := CoreLatches(n, o) + 2 * |n.liveness|, Nexts(a.latches);
    var fair := ins[c..RealLatches(n, o)];
    SliceOfNexts(a.latches, c, RealLatches(n, o), k);
    assert FairLits(n, o, m, a.gates, a.Base(), k, fair[k], a.fairness[k]);
  }

  lemma LatchSteps(a: Aig, r: Run, t: nat, i: nat)
    requires IsRun(a, r) && i < |a.latches|
    ensures r(t + 1)(a.inputs + 1 + i) == LitVal(r(t), a.latches[i].next)
    ensures ResetHolds(a.latches[i], r(0)(a.inputs + 1 + i))
    ensures GatesHold(a.gates, a.Base(), r(t))
  {
    assert StepHolds(a, r(t), r(t + 1));
  }

  lemma LiveCellSteps(n: Netlist, o: Options, m: map<Bit, Lit>, rank: map<Bit, nat>, a: Aig, r: Run, t: nat, k: nat)
    requires Compiled(n, o, m, rank, a) && k < |n.liveness| && IsRun(a, r)
    ensures n.liveness[k].a in m && n.liveness[k].en in m && k < |a.justice|
    ensures var x := LiveLatch(n, o, k);
      && !r(0)(x) && !r(0)(x + 1)
      && r(t + 1)(x) == ((r(t)(LiveVar(n, o, k)) && LitVal(r(t), m[n.liveness[k].en])) || r(t)(x))
      && r(t + 1)(x + 1) == ((r(t + 1)(x) && LitVal(r(t), m[n.liveness[k].a])) || r(t)(x + 1))
      && LitVal(r(t), a.justice[k]) == (r(t)(x) && !r(t)(x + 1))
  {
    hide Compiled, IsRun, GatesHold, AndOr, IsAnd, LiveVar, CoreLatches, Inputs;
    LiveLatches(n, o, m, rank, a, k);
    var c, i, x := n.liveness[k], CoreLatches(n, o) + 2 * k, LiveLatch(n, o, k);
    LatchSteps(a, r, t, i);
    LatchSteps(a, r, t, i + 1);
    AndOrValue(a.gates, a.Base(), r(t), a.latches[i].next, Pos(LiveVar(n, o, k)), m[c.en], Pos(x));
    AndOrValue(a.gates, a.Base(), r(t), a.latches[i + 1].next, a.latches[i].next, m[c.a], Pos(x + 1));
    AndVal(a.gates, a.Base(), r(t), a.justice[k], Pos(x), Neg(Pos(x + 1)));
  }

  /** In corresponding runs the two latches of a liveness cell are its monitor. */
  lemma LiveLatchesMonitor(n: Netlist, o: Options, m: map<Bit, Lit>, rank: map<Bit, nat>, a: Aig, s: BitRun, r: Run,
                           k: nat)
    requires LeavesOk(n) && Compiled(n, o, m, rank, a) && k < |n.liveness|
    requires IsNetRun(n, s) && IsRun(a, r) && Corresponds(n, o, s, r)
    ensures LiveMonitor(VarStream(r, LiveVar(n, o, k)), BitStream(s, n.liveness[k].en), BitStream(s, n.liveness[k].a),
                        VarStream(r, LiveLatch(n, o, k)), VarStream(r, LiveLatch(n, o, k) + 1))
    ensures k < |a.justice|
    ensures forall t: nat :: LitVal(r(t), a.justice[k]) ==
              Pending(VarStream(r, LiveLatch(n, o, k)), VarStream(r, LiveLatch(n, o, k) + 1))(t)
  {
    hide Compiled, LeavesOk, IsNetRun, IsRun, Corresponds, LiveVar, LiveLatch, LitVal;
    var c, x := n.liveness[k], LiveLatch(n, o, k);
    LiveCellSteps(n, o, m, rank, a, r, 0, k);
    forall t: nat
      ensures LiveStep(VarStream(r, LiveVar(n, o, k)), BitStream(s, c.en), BitStream(s, c.a), VarStream(r, x),
                       VarStream(r, x + 1), t)
      ensures LitVal(r(t), a.justice[k]) == Pending(VarStream(r, x), VarStream(r, x + 1))(t)
    {
      LiveCellSteps(n, o, m, rank, a, r, t, k);
      LiteralsFollowBits(n, o, m, rank, a, s, r, t);
    }
  }

  lemma FairCellSteps(n: Netlist, o: Options, m: map<Bit, Lit>, rank: map<Bit, nat>, a: Aig, r: Run, t: nat, k: nat)
    requires Compiled(n, o, m, rank, a) && k < |n.fairness| && IsRun(a, r)
    ensures n.fairness[k].a in m && n.fairness[k].en in m
    ensures k < |a.fairness| && a.fairness[k] == Neg(Pos(FairLatch(n, o, k)))
    ensures var x := FairLatch(n, o, k);
      && !r(0)(x)
      && r(t + 1)(x) == ((r(t)(x) || LitVal(r(t), m[n.fairness[k].en])) && !LitVal(r(t), m[n.fairness[k].a]))
  {
    hide Compiled, IsRun, GatesHold, OrAndNot, CoreLatches, Inputs;
    FairLatches(n, o, m, rank, a, k);
    var c, i, x := n.fairness[k], CoreLatches(n, o) + 2 * |n.liveness| + k, FairLatch(n, o, k);
    LatchSteps(a, r, t, i);
    OrAndNotValue(a.gates, a.Base(), r(t), a.latches[i].next, Pos(x), m[c.en], m[c.a]);
  }

  /** In corresponding runs the latch of a fairness cell is its monitor. */
  lemma FairLatchMonitors(n: Netlist, o: Options, m: map<Bit, Lit>, rank: map<Bit, nat>, a: Aig, s: BitRun, r: Run,
                          k: nat)
    requires LeavesOk(n) && Compiled(n, o, m, rank, a) && k < |n.fairness|
    requires IsNetRun(n, s) && IsRun(a, r) && Corresponds(n, o, s, r)
    ensures FairMonitor(BitStream(s, n.fairness[k].en), BitStream(s, n.fairness[k].a), VarStream(r, FairLatch(n, o, k)))
    ensures k < |a.fairness| && a.fairness[k] == Neg(Pos(FairLatch(n, o, k)))
  {
    hide Compiled, LeavesOk, IsNetRun, IsRun, Corresponds, FairLatch, LitVal;
    var c, x := n.fairness[k], FairLatch(n, o, k);
    FairCellSteps(n, o, m, rank, a, r, 0, k);
    forall t: nat
      ensures FairStep(BitStream(s, c.en), BitStream(s, c.a), VarStream(r, x), t)
    {
      FairCellSteps(n, o, m, rank, a, r, t, k);
      LiteralsFollowBits(n, o, m, rank, a, s, r, t);
    }
  }

  lemma OftenIsInfinitelyOften(r: Run, l: Lit, p: Stream)
    requires forall t: nat :: LitVal(r(t), l) == p(t)
    ensures InfinitelyOften(r, l) <==> Often(p)
  {
    forall t: nat
      ensures TrueAfter(r, l, t) == SomeFrom(p, t)
    {
      if TrueAfter(r, l, t) {
        var u: nat :| t <= u && LitVal(r(u), l);
        assert p(u);
      }
      if SomeFrom(p, t) {
        var u: nat :| t <= u && p(u);
        assert LitVal(r(u), l);
      }
    }
    assert InfinitelyOften(r, l) ==> forall t: nat :: TrueAfter(r, l, t);
    assert Often(p) ==> forall t: nat :: SomeFrom(p, t);
  }

  /** A fairness output is true infinitely often exactly when no enabled obligation stays unmet. */
  lemma FairnessMeaning(n: Netlist, o: Options, m: map<Bit, Lit>, rank: map<Bit, nat>, a: Aig, s: BitRun, r: Run,
                        k: nat)
    requires LeavesOk(n) && Compiled(n, o, m, rank, a) && k < |n.fairness|
    requires IsNetRun(n, s) && IsRun(a, r) && Corresponds(n, o, s, r)
    ensures k < |a.fairness|
    ensures InfinitelyOften(r, a.fairness[k]) <==> !Violated(s, n.fairness[k])
  {
    hide Compiled, LeavesOk, IsNetRun, IsRun, Corresponds, FairMonitor, InfinitelyOften, Often, NeverMet, FairLatch;
    FairLatchMonitors(n, o, m, rank, a, s, r, k);
    var q := VarStream(r, FairLatch(n, o, k));
    FairMeaning(BitStream(s, n.fairness[k].en), BitStream(s, n.fairness[k].a), q);
    OftenIsInfinitelyOften(r, a.fairness[k], Idle(q));
  }

  /** A justice output that is true infinitely often shows an obligation that is never met. */
  lemma JusticeIsViolation(n: Netlist, o: Options, m: map<Bit, Lit>, rank: map<Bit, nat>, a: Aig, s: BitRun, r: Run,
                           k: nat)
    requires LeavesOk(n) && Compiled(n, o, m, rank, a) && k < |n.liveness|
    requires IsNetRun(n, s) && IsRun(a, r) && Corresponds(n, o, s, r)
    ensures k < |a.justice|
    ensures InfinitelyOften(r, a.justice[k]) ==> Violated(s, n.liveness[k])
  {
    hide Compiled, LeavesOk, IsNetRun, IsRun, Corresponds, LiveMonitor, InfinitelyOften, Often, NeverMet, LiveLatch,
         LiveVar, LitVal;
    LiveLatchesMonitor(n, o, m, rank, a, s, r, k);
    var q1, q2 := VarStream(r, LiveLatch(n, o, k)), VarStream(r, LiveLatch(n, o, k) + 1);
    OftenIsInfinitelyOften(r, a.justice[k], Pending(q1, q2));
    if InfinitelyOften(r, a.justice[k]) {
      PendingMeansUnmet(VarStream(r, LiveVar(n, o, k)), BitStream(s, n.liveness[k].en), BitStream(s, n.liveness[k].a),
                        q1, q2);
    }
  }

  /** For a violated liveness cell some choice of the monitor's input makes its justice output true infinitely often. */
  lemma ViolationHasJustice(n: Netlist, o: Options, m: map<Bit, Lit>, rank: map<Bit, nat>, a: Aig, s: BitRun, k: nat)
    returns (r: Run)
    requires LeavesOk(n) && Compiled(n, o, m, rank, a) && k < |n.liveness|
    requires IsNetRun(n, s) && Violated(s, n.liveness[k])
    ensures IsRun(a, r) && Corresponds(n, o, s, r)
    ensures k < |a.justice| && InfinitelyOften(r, a.justice[k])
  {
    hide Compiled, LeavesOk, IsNetRun, IsRun, Corresponds, LiveMonitor, InfinitelyOften, Often, LiveLatch, LiveVar,
         LitVal;
    var en, met := BitStream(s, n.liveness[k].en), BitStream(s, n.liveness[k].a);
    var t0: nat :| en(t0) && NeverFrom(met, t0);
    var live: Run := (t: nat) => (x: nat) => t == t0;
    r := NetRunHasAigRun(n, o, m, rank, a, s, live);
    LiveLatchesMonitor(n, o, m, rank, a, s, r, k);
    var choice := VarStream(r, LiveVar(n, o, k));
    forall u: nat
      ensures choice(u) == (u == t0)
    {
      assert r(u)(LiveVar(n, o, k)) == live(u)(LiveVar(n, o, k));
    }
    var q1, q2 := VarStream(r, LiveLatch(n, o, k)), VarStream(r, LiveLatch(n, o, k) + 1);
    UnmetMeansPending(choice, en, met, q1, q2, t0);
    OftenIsInfinitelyOften(r, a.justice[k], Pending(q1, q2));
  }

  // ----- the whole property -----

  /** A run under the assumptions violates liveness cell `k` and no fairness cell. */
  ghost predicate LivenessCanFail(n: Netlist, k: nat)
    requires k < |n.liveness|
  {
    exists s: BitRun ::
      && IsNetRun(n, s) && (forall t: nat :: AssumedTo(n, s, t))
      && Violated(s, n.liveness[k])
      && forall j :: 0 <= j < |n.fairness| ==> !Violated(s, n.fairness[j])
  }

  /** A run under the constraints sees justice `k` and every fairness output infinitely often. */
  ghost predicate JusticeReachable(a: Aig, k: nat)
    requires k < |a.justice|
  {
    exists r: Run ::
      && IsRun(a, r) && (forall t: nat :: ConstrainedTo(a, r, t))
      && InfinitelyOften(r, a.justice[k])
      && forall j :: 0 <= j < |a.fairness| ==> InfinitelyOften(r, a.fairness[j])
  }

  /** Constraints and fairness outputs hold in a graph run as assumptions and fairness cells do in the netlist's. */
  lemma EnvironmentFollows(n: Netlist, o: Options, m: map<Bit, Lit>, rank: map<Bit, nat>, a: Aig, s: BitRun, r: Run)
    requires LeavesOk(n) && Compiled(n, o, m, rank, a)
    requires IsNetRun(n, s) && IsRun(a, r) && Corresponds(n, o, s, r)
    ensures |a.fairness| == |n.fairness|
    ensures forall t: nat :: AssumedTo(n, s, t) == ConstrainedTo(a, r, t)
    ensures forall j :: 0 <= j < |n.fairness| ==> InfinitelyOften(r, a.fairness[j]) == !Violated(s, n.fairness[j])
  {
    assert |a.fairness| == |n.fairness|;
    hide Compiled, LeavesOk, IsNetRun, IsRun, Corresponds, Violated, InfinitelyOften, AllTrue, NoneFails;
    forall j | 0 <= j < |n.fairness|
      ensures InfinitelyOften(r, a.fairness[j]) == !Violated(s, n.fairness[j])
    {
      FairnessMeaning(n, o, m, rank, a, s, r, j);
    }
    forall v: nat
      ensures AllTrue(a.constraints, r(v)) == NoneFails(n.assumes, s(v))
    {
      ChecksFollow(n, o, m, rank, a, s, r, v);
    }
    forall t: nat
      ensures AssumedTo(n, s, t) == ConstrainedTo(a, r, t)
    {
      assert AssumedTo(n, s, t) ==> forall v: nat :: v <= t ==> AllTrue(a.constraints, r(v));
      assert ConstrainedTo(a, r, t) ==> forall v: nat :: v <= t ==> NoneFails(n.assumes, s(v));
    }
  }

  /** A liveness cell can be violated exactly when its justice property is reachable. */
  lemma LivenessFailsIffJusticeReachable(n: Netlist, o: Options, m: map<Bit, Lit>, rank: map<Bit, nat>, a: Aig,
                                         rk: Bit -> nat, k: nat)
    requires WellFormed(n) && Acyclic(n, rk) && Compiled(n, o, m, rank, a) && k < |n.liveness|
    ensures k < |a.justice|
    ensures LivenessCanFail(n, k) <==> JusticeReachable(a, k)
  {
    hide Compiled, LeavesOk, DistinctLeaves, Contained, IsNetRun, IsRun, Corresponds, Acyclic, LiveLits, Violated,
         InfinitelyOften, AssumedTo, ConstrainedTo, CoreLatches;
    LiveLatches(n, o, m, rank, a, k);
    if LivenessCanFail(n, k) {
      var s: BitRun :|
        && IsNetRun(n, s) && (forall t: nat :: AssumedTo(n, s, t))
        && Violated(s, n.liveness[k])
        && forall j :: 0 <= j < |n.fairness| ==> !Violated(s, n.fairness[j]);
      var r := ViolationHasJustice(n, o, m, rank, a, s, k);
      EnvironmentFollows(n, o, m, rank, a, s, r);
      assert InfinitelyOften(r, a.justice[k]);
    }
    if JusticeReachable(a, k) {
      var r: Run :|
        && IsRun(a, r) && (forall t: nat :: ConstrainedTo(a, r, t))
        && InfinitelyOften(r, a.justice[k])
        && forall j :: 0 <= j < |a.fairness| ==> InfinitelyOften(r, a.fairness[j]);
      var s := AigRunHasNetRun(n, o, m, rank, a, rk, r);
      EnvironmentFollows(n, o, m, rank, a, s, r);
      JusticeIsViolation(n, o, m, rank, a, s, r, k);
      assert Violated(s, n.liveness[k]);
    }
  }
}
