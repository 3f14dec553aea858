/**
 The dead-port analysis of the multiplexer tree optimiser: starting from each root it walks
 towards the inputs with a context of selects known to be active or inactive, and enables
 the ports it meets.
 */
module OptMuxtree {
  import opened Muxtree

  // ----- reference-counted knowledge -----

  ghost function Positive(s: seq<nat>): set<nat> {
    set b | 0 <= b < |s| && s[b] > 0
  }

  ghost predicate Bumped(s: seq<nat>, s': seq<nat>, extra: multiset<nat>) {
    |s'| == |s| && forall b :: 0 <= b < |s| ==> s'[b] == s[b] + extra[b]
  }

  /** The select wires of the cases from `i` on, except case `p`. */
  ghost function OtherCtrls(x: Mux, p: nat, i: nat): multiset<nat>
    requires i <= |x.cases|
    decreases |x.cases| - i
  {
    if i == |x.cases| then multiset{}
    else
      var rest, c := OtherCtrls(x, p, i + 1), x.cases[i].ctrl;
      if i != p && c.Wire? then rest[c.bit := rest[c.bit] + 1] else rest
  }

  lemma {:induction false} OtherCtrlsIn(x: Mux, p: nat, i: nat, b: nat)
    requires i <= |x.cases|
    ensures b in OtherCtrls(x, p, i) <==> exists j :: i <= j < |x.cases| && j != p && x.cases[j].ctrl == Wire(b)
    decreases |x.cases| - i
  {
    if i < |x.cases| {
      OtherCtrlsIn(x, p, i + 1, b);
    }
  }

  lemma PositiveAfterBump(s: seq<nat>, s': seq<nat>, x: Mux, p: nat)
    requires Bumped(s, s', OtherCtrls(x, p, 0))
    requires forall i :: 0 <= i < |x.cases| ==> InRange(x.cases[i].ctrl, |s|)
    ensures Positive(s') == Positive(s) + InactOf(x, p)
  {
    forall b: nat
      ensures b in Positive(s') <==> b in Positive(s) + InactOf(x, p)
    {
      OtherCtrlsIn(x, p, 0, b);
      if j :| 0 <= j < |x.cases| && j != p && x.cases[j].ctrl == Wire(b) {
        assert InRange(x.cases[j].ctrl, |s|);
      }
    }
  }

  /** How many multiplexers are not on the current path or queued beside it. */
  ghost function Unvisited(visited: seq<bool>): nat {
    if visited == [] then 0 else Unvisited(visited[1..]) + if visited[0] then 0 else 1
  }

  lemma {:induction false} VisitOne(visited: seq<bool>, m: nat)
    requires m < |visited| && !visited[m]
    ensures Unvisited(visited[m := true]) == Unvisited(visited) - 1
  {
    if m == 0 {
      assert visited[0 := true][1..] == visited[1..];
    } else {
      VisitOne(visited[1..], m - 1);
      assert visited[m := true][1..] == visited[1..][m - 1 := true];
    }
  }

  lemma {:induction false} UnvisitedBound(visited: seq<bool>)
    ensures Unvisited(visited) <= |visited|
  {
    if visited != [] {
      UnvisitedBound(visited[1..]);
    }
  }

  class Knowledge {
    var inactive: seq<nat>
    var active: seq<nat>
    var visited: seq<bool>

    constructor (bits: nat, muxes: nat)
      ensures |inactive| == |active| == bits && |visited| == muxes
      ensures Positive(inactive) == {} && Positive(active) == {}
      ensures forall m :: 0 <= m < muxes ==> !visited[m]
    {
      inactive, active, visited := seq(bits, i => 0), seq(bits, i => 0), seq(muxes, i => false);
    }

    /** Takes port `p` to be selected. */
    method Assume(x: Mux, p: nat)
      requires p <= |x.cases| && |active| == |inactive|
      requires forall i :: 0 <= i < |x.cases| ==> InRange(x.cases[i].ctrl, |inactive|)
      requires p < |x.cases| ==> x.cases[p].ctrl != Const(false)
      modifies this`inactive, this`active
      ensures Assumed(x, p, old(inactive), old(active))
      ensures Positive(inactive) == Positive(old(inactive)) + InactOf(x, p)
      ensures Positive(active) == Positive(old(active)) + ActOf(x, p)
    {
      AssumeOthers(x, p);
      PositiveAfterBump(old(inactive), inactive, x, p);
      if p < |x.cases| && x.cases[p].ctrl != Const(true) {
        var b := x.cases[p].ctrl.bit;
        assert InRange(x.cases[p].ctrl, |inactive|);
        active := active[b := active[b] + 1];
      }
    }

    ghost predicate Assumed(x: Mux, p: nat, inactive0: seq<nat>, active0: seq<nat>)
      requires p <= |x.cases|
      reads this`inactive, this`active
    {
      && Bumped(inactive0, inactive, OtherCtrls(x, p, 0))
      && |active| == |active0|
      && if p < |x.cases| && x.cases[p].ctrl.Wire? then
           x.cases[p].ctrl.bit < |active0| && active == active0[x.cases[p].ctrl.bit := active0[x.cases[p].ctrl.bit] + 1]
         else active == active0
    }

    method Forget(x: Mux, p: nat, ghost inactive0: seq<nat>, ghost active0: seq<nat>)
      requires p <= |x.cases| && |active| == |inactive|
      requires forall i :: 0 <= i < |x.cases| ==> InRange(x.cases[i].ctrl, |inactive|)
      requires p < |x.cases| ==> x.cases[p].ctrl != Const(false)
      requires Assumed(x, p, inactive0, active0)
      modifies this`inactive, this`active
      ensures inactive == inactive0 && active == active0
    {
      if p < |x.cases| && x.cases[p].ctrl != Const(true) {
        var b := x.cases[p].ctrl.bit;
        active := active[b := active[b] - 1];
      }
      ForgetOthers(x, p, inactive0);
    }

    /** Selecting port `p` makes every other select of the cell inactive. */
    method AssumeOthers(x: Mux, p: nat)
      requires forall i :: 0 <= i < |x.cases| ==> InRange(x.cases[i].ctrl, |inactive|)
      modifies this`inactive
      ensures Bumped(old(inactive), inactive, OtherCtrls(x, p, 0))
    {
      for i := 0 to |x.cases|
        invariant |inactive| == |old(inactive)|
        invariant forall b :: 0 <= b < |inactive| ==>
                    inactive[b] + OtherCtrls(x, p, i)[b] == old(inactive)[b] + OtherCtrls(x, p, 0)[b]
      {
        if i != p && x.cases[i].ctrl.Wire? {
          var b := x.cases[i].ctrl.bit;
          assert InRange(x.cases[i].ctrl, |inactive|);
          inactive := inactive[b := inactive[b] + 1];
        }
      }
    }

    /** Takes back what `AssumeOthers` added to `before`. */
    method ForgetOthers(x: Mux, p: nat, ghost before: seq<nat>)
      requires Bumped(before, inactive, OtherCtrls(x, p, 0))
      requires forall i :: 0 <= i < |x.cases| ==> InRange(x.cases[i].ctrl, |inactive|)
      modifies this`inactive
      ensures inactive == before
    {
      for i := 0 to |x.cases|
        invariant Bumped(before, inactive, OtherCtrls(x, p, i))
      {
        if i != p && x.cases[i].ctrl.Wire? {
          var b := x.cases[i].ctrl.bit;
          assert InRange(x.cases[i].ctrl, |inactive|);
          inactive := inactive[b := inactive[b] - 1];
        }
      }
    }
  }


  // ----- the evaluation -----

  /** What an evaluation may change, and how. */
  datatype Marks = Marks(enabled: seq<seq<bool>>, root: seq<bool>, rerun: set<nat>, log: set<Entry>, begun: seq<Entry>)

  /** Marks are only added, and a multiplexer that becomes a root of its own is queued. */
  ghost predicate Progress(roots: seq<bool>, s: Marks, s': Marks) {
    && EnabledGrows(s.enabled, s'.enabled)
    && RootGrows(s.root, s'.root)
    && s.rerun <= s'.rerun && s.log <= s'.log && s.begun <= s'.begun
    && (forall m :: 0 <= m < |s'.root| && s'.root[m] ==> s.root[m] || (m in s'.rerun && m < |roots| && roots[m]))
    && (forall m :: m in s'.rerun ==> m in s.rerun || (m < |s.root| && !s.root[m] && m < |s'.root| && s'.root[m]))
  }

  lemma ProgressTrans(roots: seq<bool>, s: Marks, s': Marks, s'': Marks)
    requires Progress(roots, s, s') && Progress(roots, s', s'')
    ensures Progress(roots, s, s'')
  {
  }

  /** Every evaluation that began meanwhile has ended. */
  ghost predicate Settled(s: Marks, s': Marks) {
    forall e :: e in s'.begun ==> e in s'.log || e in s.begun
  }

  lemma SettledRefl(s: Marks)
    ensures Settled(s, s)
  {
  }

  lemma SettledTrans(s: Marks, s': Marks, s'': Marks)
    requires Settled(s, s') && Settled(s', s'') && s'.log <= s''.log
    ensures Settled(s, s'')
  {
  }

  /** Nothing begins when nothing is enabled. */
  lemma SettledStill(s: Marks, s': Marks)
    requires s'.begun == s.begun
    ensures Settled(s, s')
  {
  }

  lemma SettledEntry(s: Marks, middle: Marks, s': Marks, e: Entry)
    requires middle.begun == s.begun + [e] && Settled(middle, s') && e in s'.log
    ensures Settled(s, s')
  {
  }

  // ----- how many evaluations there can be -----

  /** The most evaluations that evaluating one multiplexer takes, with `u` others not yet visited. */
  function Cost(ports: nat, u: nat): (c: nat)
    ensures c >= 1
  {
    if u == 0 then 1 else MulPositive(ports, u * Cost(ports, u - 1)); 1 + ports * (u * Cost(ports, u - 1))
  }

  /** The same for one port of it. */
  function WalkCost(ports: nat, u: nat): nat {
    if u == 0 then 0 else u * Cost(ports, u - 1)
  }

  lemma MulPositive(a: nat, b: nat)
    ensures a * b >= 0
  {
  }

  lemma MulMonotone(a: nat, a': nat, b: nat, b': nat)
    requires a <= a' && b <= b'
    ensures a * b <= a' * b'
  {
    assert a * b <= a' * b;
    assert a' * b <= a' * b';
  }

  lemma {:induction false} CostMonotone(ports: nat, u: nat, u': nat)
    requires u <= u'
    ensures Cost(ports, u) <= Cost(ports, u')
    decreases u'
  {
    if u > 0 {
      CostMonotone(ports, u - 1, u' - 1);
      MulMonotone(u, u', Cost(ports, u - 1), Cost(ports, u' - 1));
      MulMonotone(ports, ports, u * Cost(ports, u - 1), u' * Cost(ports, u' - 1));
    }
  }

  lemma CostOfPorts(n: nat, ports: nat, u: nat)
    requires n <= ports
    ensures 1 + n * WalkCost(ports, u) <= Cost(ports, u)
  {
    MulMonotone(n, ports, WalkCost(ports, u), WalkCost(ports, u));
  }

  lemma CostOfParents(n: nat, ports: nat, u: nat, u': nat)
    requires n > 0 && n + u' == u
    ensures n * Cost(ports, u') <= WalkCost(ports, u)
  {
    CostMonotone(ports, u', u - 1);
    MulMonotone(n, u, Cost(ports, u'), Cost(ports, u - 1));
  }

  lemma MulStep(i: nat, c: nat)
    ensures (i + 1) * c == i * c + c
  {
  }

  function MaxPorts(muxes: seq<Mux>): (n: nat)
    ensures forall m :: 0 <= m < |muxes| ==> muxes[m].Ports() <= n
  {
    if muxes == [] then 0
    else
      var n, last := MaxPorts(muxes[..|muxes| - 1]), muxes[|muxes| - 1].Ports();
      assert forall m :: 0 <= m < |muxes| - 1 ==> muxes[m] == muxes[..|muxes| - 1][m];
      if n < last then last else n
  }

  /** A budget that no analysis of the module exceeds. */
  function EvalBound(mod: Module): nat {
    var n := |mod.muxes|;
    MulPositive(2 * n, Cost(MaxPorts(mod.muxes), n));
    2 * n * Cost(MaxPorts(mod.muxes), n)
  }

  /** The roots that may still have to be evaluated again. */
  ghost function Todo(rerun: set<nat>, root: seq<bool>): set<nat> {
    set m: nat | m < |root| && (m in rerun || !root[m])
  }

  ghost function Indices(n: nat): (r: set<nat>)
    ensures |r| == n && forall m: nat :: m in r <==> m < n
  {
    if n == 0 then {} else Indices(n - 1) + {n - 1}
  }

  lemma TodoBound(rerun: set<nat>, root: seq<bool>)
    ensures |Todo(rerun, root)| <= |root|
  {
    SubsetSize(Todo(rerun, root), Indices(|root|));
  }

  lemma {:induction false} SubsetSize(a: set<nat>, b: set<nat>)
    requires a <= b
    ensures |a| <= |b|
  {
    if x :| x in a {
      SubsetSize(a - {x}, b - {x});
    } else {
      assert a == {};
    }
  }

  lemma Nonempty(s: set<nat>)
    ensures s == {} || exists x :: x in s
  {
    if forall x :: x !in s {
      assert s == {};
    }
  }

  /** Evaluating one of them leaves fewer. */
  lemma TodoShrinks(roots: seq<bool>, m: nat, rerun: set<nat>, s: Marks, s': Marks)
    requires m in rerun && m < |s.root| && s.root[m] && s.rerun == rerun - {m} && Progress(roots, s, s')
    ensures |Todo(s'.rerun, s'.root)| < |Todo(rerun, s.root)|
  {
    hide EnabledGrows;
    var a, b := Todo(s'.rerun, s'.root), Todo(rerun, s.root);
    assert m in b;
    SubsetSize(a, b - {m});
  }

  // ----- covered contexts -----

  /** Every multiplexer that a walk would skip as visited is taken care of elsewhere. */
  ghost predicate Covered(visited: seq<bool>, promised: set<Entry>, root: seq<bool>, act: set<nat>, inact: set<nat>) {
    forall m :: 0 <= m < |visited| && visited[m] ==> Served(promised, root, m, act, inact)
  }

  lemma CoveredGrows(visited: seq<bool>, promised: set<Entry>, promised': set<Entry>, root: seq<bool>, root': seq<bool>,
                     act: set<nat>, act': set<nat>, inact: set<nat>, inact': set<nat>)
    requires Covered(visited, promised, root, act, inact)
    requires promised <= promised' && RootGrows(root, root') && act <= act' && inact <= inact'
    ensures Covered(visited, promised', root', act', inact')
  {
    hide Served, RootGrows;
    forall m | 0 <= m < |visited| && visited[m]
      ensures Served(promised', root', m, act', inact')
    {
      ServedGrows(promised, promised', root, root', m, act, act', inact, inact');
    }
  }

  ghost function Promises(ms: seq<nat>, act: set<nat>, inact: set<nat>): set<Entry> {
    set m | m in ms :: Entry(m, act, inact)
  }

  /** Multiplexers marked together are promised together. */
  lemma CoveredAfterMarking(visited: seq<bool>, visited': seq<bool>, parents: seq<nat>, promised: set<Entry>,
                            root: seq<bool>, act: set<nat>, inact: set<nat>)
    requires Covered(visited, promised, root, act, inact) && |visited'| == |visited|
    requires forall m :: 0 <= m < |visited| && visited'[m] ==> visited[m] || m in parents
    ensures Covered(visited', promised + Promises(parents, act, inact), root, act, inact)
  {
    forall m | 0 <= m < |visited'| && visited'[m]
      ensures Served(promised + Promises(parents, act, inact), root, m, act, inact)
    {
      if visited[m] {
        ServedGrows(promised, promised + Promises(parents, act, inact), root, root, m, act, act, inact, inact);
      } else {
        assert Covers(Entry(m, act, inact), m, act, inact);
      }
    }
  }

  /** Multiplexers that are observed or that feed several others. */
  predicate IsRoot(mod: Module, m: nat) {
    m < |mod.muxes| && (Observed(mod, m) || |Users(mod, m)| > 1)
  }

  class Worker {
    const mod: Module
    var rootMuxes: seq<bool>
    var rootEnable: seq<bool>
    var rerun: set<nat>
    var enabled: seq<seq<bool>>
    var globAbort: nat

    // The contexts in which a multiplexer was evaluated with its ports being enabled.
    ghost var log: set<Entry>

    // The same contexts in the order in which the evaluations began.
    ghost var begun: seq<Entry>

    ghost predicate Valid()
      reads this`rootMuxes, this`rootEnable, this`rerun, this`enabled, this`log, this`begun
    {
      && Shaped(mod, enabled, rootEnable)
      && |rootMuxes| == |mod.muxes|
      && (forall m :: m in rerun ==> m < |mod.muxes| && rootEnable[m])
      && (forall e :: e in log ==> e.mux < |mod.muxes| && e in begun)
      && AllGrounded(mod, begun, rootEnable) && Precise(mod, begun, enabled)
    }

    ghost function Snap(): Marks
      reads this`rootEnable, this`rerun, this`enabled, this`log, this`begun
    {
      Marks(enabled, rootEnable, rerun, log, begun)
    }

    ghost function PortLimit(): nat {
      MaxPorts(mod.muxes)
    }

    ghost predicate Sized(k: Knowledge)
      reads k
    {
      |k.inactive| == |k.active| == mod.bits && |k.visited| == |mod.muxes|
    }

    // ----- the parents of a port -----

    method MarkParents(k: Knowledge, m: nat, p: nat) returns (parents: seq<nat>)
      requires Sized(k) && m < |mod.muxes| && p < mod.muxes[m].Ports()
      modifies k`visited
      ensures |k.visited| == |old(k.visited)|
      ensures forall i :: 0 <= i < |k.visited| ==> (k.visited[i] <==> old(k.visited)[i] || i in parents)
      ensures forall i :: i in parents ==> i < |k.visited| && !old(k.visited)[i]
      ensures forall i :: i in InputMuxes(mod, m, p) ==> i < |k.visited| && k.visited[i]
      ensures forall i :: i in parents ==> i in InputMuxes(mod, m, p)
      ensures Unvisited(k.visited) + |parents| == Unvisited(old(k.visited))
    {
      parents := [];
      var ms := InputMuxes(mod, m, p);
      for i := 0 to |ms|
        invariant |k.visited| == |old(k.visited)|
        invariant forall j :: 0 <= j < |k.visited| ==> (k.visited[j] <==> old(k.visited)[j] || j in parents)
        invariant forall j :: j in parents ==> j < |k.visited| && !old(k.visited)[j]
        invariant forall j :: 0 <= j < i ==> ms[j] < |k.visited| && k.visited[ms[j]]
        invariant forall j :: j in parents ==> j in ms
        invariant Unvisited(k.visited) + |parents| == Unvisited(old(k.visited))
      {
        var q := ms[i];
        assert q in ms;
        if !k.visited[q] {
          VisitOne(k.visited, q);
          k.visited := k.visited[q := true];
          parents := parents + [q];
        }
      }
    }

    method UnmarkParents(k: Knowledge, parents: seq<nat>, ghost before: seq<bool>)
      requires |k.visited| == |before|
      requires forall i :: 0 <= i < |before| ==> (k.visited[i] <==> before[i] || i in parents)
      requires forall i :: i in parents ==> i < |before| && !before[i]
      modifies k`visited
      ensures k.visited == before
    {
      for i := 0 to |parents|
        invariant |k.visited| == |before|
        invariant forall j :: 0 <= j < |before| ==>
                    (before[j] ==> k.visited[j]) && (k.visited[j] ==> before[j] || j in parents[i..])
      {
        assert parents[i] in parents;
        k.visited := k.visited[parents[i] := false];
      }
    }

    // ----- evaluating ports and multiplexers -----

    /** Evaluates each parent that is neither a root of its own nor to be made one. */
    method VisitParents(k: Knowledge, parents: seq<nat>, doEnable: bool, abort: nat, ghost promised: set<Entry>,
                        ghost depth: nat)
      requires WellFormed(mod) && Valid() && Sized(k)
      requires forall i :: 0 <= i < |parents| ==> parents[i] < |mod.muxes| && k.visited[parents[i]]
      requires doEnable ==> Covered(k.visited, promised, rootEnable, Positive(k.active), Positive(k.inactive))
      requires doEnable ==> Promises(parents, Positive(k.active), Positive(k.inactive)) <= promised
      requires doEnable ==> GroundedAt(parents, Positive(k.active), Positive(k.inactive))
      requires depth + Unvisited(k.visited) < |mod.muxes|
      modifies this`rootEnable, this`rerun, this`enabled, this`globAbort, this`log, this`begun, k
      ensures Valid() && Sized(k) && Progress(rootMuxes, old(Snap()), Snap()) && globAbort <= old(globAbort)
      ensures !doEnable ==> enabled == old(enabled) && log == old(log)
      ensures globAbort > 0 ==>
                k.inactive == old(k.inactive) && k.active == old(k.active) && k.visited == old(k.visited)
      ensures globAbort > 0 && doEnable ==>
                forall e :: e in Promises(parents, Positive(k.active), Positive(k.inactive)) ==>
                  e in log || rootEnable[e.mux]
      ensures globAbort > 0 && doEnable ==> AllClosed(mod, log - old(log), log + promised, enabled, rootEnable)
      ensures globAbort > 0 ==> Settled(old(Snap()), Snap())
      ensures old(globAbort) <= globAbort + |parents| * Cost(PortLimit(), old(Unvisited(k.visited)))
      decreases Unvisited(k.visited), 4
    {
      hide MaxPorts, Cost, WalkCost, Settled, Covered, AllGrounded, Precise, Grounded, Evaluates, AllClosed, Progress,
           WellFormed, EnabledGrows;
      assert Progress(rootMuxes, Snap(), Snap()) by { ProgressRefl(rootMuxes, Snap()); }
      NothingClosed(log + promised);
      SettledRefl(Snap());
      ghost var cost := Cost(PortLimit(), Unvisited(k.visited));
      ghost var act, inact := Positive(k.active), Positive(k.inactive);
      for i := 0 to |parents|
        invariant Valid() && Sized(k) && Progress(rootMuxes, old(Snap()), Snap()) && globAbort <= old(globAbort)
        invariant !doEnable ==> enabled == old(enabled) && log == old(log)
        invariant k.inactive == old(k.inactive) && k.active == old(k.active) && k.visited == old(k.visited)
        invariant doEnable ==> forall j :: 0 <= j < i ==> Entry(parents[j], act, inact) in log || rootEnable[parents[j]]
        invariant doEnable ==> AllClosed(mod, log - old(log), log + promised, enabled, rootEnable)
        invariant doEnable ==> Covered(k.visited, promised, rootEnable, act, inact)
        invariant doEnable ==> GroundedAt(parents, act, inact)
        invariant Settled(old(Snap()), Snap()) && old(globAbort) <= globAbort + i * cost
      {
        ghost var before := Snap();
        MulStep(i, cost);
        MulMonotone(i + 1, |parents|, cost, cost);
        VisitParent(k, parents[i], doEnable, abort, promised, depth, old(Snap()));
        if globAbort == 0 {
          return;
        }
        if doEnable {
          StillGrounded(before, parents, act, inact);
        }
      }
    }

    /** In this context the multiplexers `ms` may be evaluated. */
    ghost predicate GroundedAt(ms: seq<nat>, act: set<nat>, inact: set<nat>)
      reads this`rootEnable, this`begun
    {
      forall i :: 0 <= i < |ms| ==> Grounded(mod, begun, rootEnable, Entry(ms[i], act, inact))
    }

    lemma StillGrounded(s: Marks, ms: seq<nat>, act: set<nat>, inact: set<nat>)
      requires s.begun <= begun && RootGrows(s.root, rootEnable)
      requires forall i :: 0 <= i < |ms| ==> Grounded(mod, s.begun, s.root, Entry(ms[i], act, inact))
      ensures GroundedAt(ms, act, inact)
    {
      hide Grounded, RootGrows;
      forall i | 0 <= i < |ms|
        ensures Grounded(mod, begun, rootEnable, Entry(ms[i], act, inact))
      {
        GroundedGrows(mod, s.begun, begun, s.root, rootEnable, Entry(ms[i], act, inact));
      }
    }

    lemma SomeGrounded(all: seq<nat>, ms: seq<nat>, act: set<nat>, inact: set<nat>)
      requires GroundedAt(all, act, inact) && forall i :: i in ms ==> i in all
      ensures GroundedAt(ms, act, inact)
    {
      hide Grounded;
      forall i | 0 <= i < |ms|
        ensures Grounded(mod, begun, rootEnable, Entry(ms[i], act, inact))
      {
        assert ms[i] in all;
      }
    }

    method VisitParent(k: Knowledge, m: nat, doEnable: bool, abort: nat, ghost promised: set<Entry>, ghost depth: nat,
                       ghost start: Marks)
      requires WellFormed(mod) && Valid() && Sized(k) && m < |mod.muxes| && k.visited[m]
      requires doEnable ==> Covered(k.visited, promised, rootEnable, Positive(k.active), Positive(k.inactive))
      requires doEnable ==> Entry(m, Positive(k.active), Positive(k.inactive)) in promised
      requires doEnable ==> Grounded(mod, begun, rootEnable, Entry(m, Positive(k.active), Positive(k.inactive)))
      requires depth + Unvisited(k.visited) < |mod.muxes|
      requires Progress(rootMuxes, start, Snap())
      requires doEnable ==> AllClosed(mod, log - start.log, log + promised, enabled, rootEnable)
      requires Settled(start, Snap())
      modifies this`rootEnable, this`rerun, this`enabled, this`globAbort, this`log, this`begun, k
      ensures Valid() && Sized(k) && Progress(rootMuxes, start, Snap()) && globAbort <= old(globAbort)
      ensures RootGrows(old(rootEnable), rootEnable) && old(log) <= log && old(begun) <= begun
      ensures !doEnable ==> enabled == old(enabled) && log == old(log)
      ensures globAbort > 0 ==>
                k.inactive == old(k.inactive) && k.active == old(k.active) && k.visited == old(k.visited)
      ensures globAbort > 0 && doEnable ==> Entry(m, Positive(k.active), Positive(k.inactive)) in log || rootEnable[m]
      ensures globAbort > 0 && doEnable ==> AllClosed(mod, log - start.log, log + promised, enabled, rootEnable)
      ensures globAbort > 0 && doEnable ==>
                Covered(k.visited, promised, rootEnable, Positive(k.active), Positive(k.inactive))
      ensures globAbort > 0 ==> Settled(start, Snap())
      ensures old(globAbort) <= globAbort + Cost(PortLimit(), old(Unvisited(k.visited)))
      decreases Unvisited(k.visited), 4, 0
    {
      hide MaxPorts, Cost, WalkCost, Settled, Covered, AllGrounded, Precise, Grounded, Evaluates, AllClosed,
           WellFormed, EnabledGrows, Progress;
      ghost var before := Snap();
      if rootEnable[m] {
        ProgressRefl(rootMuxes, Snap());
        ProgressRoots(rootMuxes, before, Snap());
        return;
      }
      if rootMuxes[m] && abort == 0 {
        rerun := rerun + {m};
        rootEnable := rootEnable[m := true];
        RootAdded(rootMuxes, before, Snap(), m);
        ProgressRoots(rootMuxes, before, Snap());
        AllGroundedGrows(mod, begun, before.root, rootEnable);
        SettledStill(before, Snap());
        NothingClosed(log + promised);
      } else {
        EvalMux(k, m, doEnable, if rootMuxes[m] then abort - 1 else abort, promised, depth + 1);
      }
      ProgressTrans(rootMuxes, start, before, Snap());
      ProgressRoots(rootMuxes, before, Snap());
      if globAbort > 0 {
        SettledTrans(start, before, Snap());
      }
      if globAbort > 0 && doEnable {
        JoinClosed(mod, promised, start.log, before, Snap());
        CoveredGrows(k.visited, promised, promised, before.root, rootEnable,
                     Positive(k.active), Positive(k.active), Positive(k.inactive), Positive(k.inactive));
      }
    }

    /** Evaluates the multiplexers that feed port `p`, in the current context. */
    method Walk(k: Knowledge, m: nat, p: nat, doEnable: bool, abort: nat, ghost promised: set<Entry>, ghost depth: nat)
      requires WellFormed(mod) && Valid() && Sized(k) && m < |mod.muxes| && p < mod.muxes[m].Ports()
      requires doEnable ==> Covered(k.visited, promised, rootEnable, Positive(k.active), Positive(k.inactive))
      requires doEnable ==> GroundedAt(InputMuxes(mod, m, p), Positive(k.active), Positive(k.inactive))
      requires depth + Unvisited(k.visited) <= |mod.muxes|
      modifies this`rootEnable, this`rerun, this`enabled, this`globAbort, this`log, this`begun, k
      ensures Valid() && Sized(k) && Progress(rootMuxes, old(Snap()), Snap()) && globAbort <= old(globAbort)
      ensures !doEnable ==> enabled == old(enabled) && log == old(log)
      ensures globAbort > 0 ==>
                k.inactive == old(k.inactive) && k.active == old(k.active) && k.visited == old(k.visited)
      ensures globAbort > 0 && doEnable ==> forall q :: q in InputMuxes(mod, m, p) ==>
                Served(log + promised, rootEnable, q, Positive(k.active), Positive(k.inactive))
      ensures globAbort > 0 && doEnable ==> AllClosed(mod, log - old(log), log + promised, enabled, rootEnable)
      ensures globAbort > 0 ==> Settled(old(Snap()), Snap())
      ensures old(globAbort) <= globAbort + WalkCost(PortLimit(), old(Unvisited(k.visited)))
      decreases Unvisited(k.visited), 0
    {
      hide MaxPorts, Cost, WalkCost, Settled, Covered, AllGrounded, Precise, Grounded, Evaluates, AllClosed,
           EnabledGrows, Positive, InputMuxes, Feeders, Progress, Served, WellFormed;
      ghost var act, inact := Positive(k.active), Positive(k.inactive);
      var parents := MarkParents(k, m, p);
      ghost var kept := Promises(parents, act, inact);
      if doEnable {
        CoveredAfterMarking(old(k.visited), k.visited, parents, promised, rootEnable, act, inact);
      }
      ghost var marked := k.visited;
      if parents == [] {
        ProgressRefl(rootMuxes, Snap());
        SettledRefl(Snap());
        NothingClosed(log + (promised + kept));
      } else {
        assert forall i :: 0 <= i < |parents| ==> parents[i] in parents;
        if doEnable {
          SomeGrounded(InputMuxes(mod, m, p), parents, act, inact);
        }
        CostOfParents(|parents|, PortLimit(), old(Unvisited(k.visited)), Unvisited(k.visited));
        VisitParents(k, parents, doEnable, abort, promised + kept, depth);
      }
      if globAbort == 0 {
        return;
      }
      UnmarkParents(k, parents, old(k.visited));
      if doEnable {
        assert log + (promised + kept) == log + promised + kept;
        Discharge(mod, log - old(log), log, promised, kept, enabled, rootEnable);
        ProgressRoots(rootMuxes, old(Snap()), Snap());
        CoveredGrows(marked, promised + kept, log + promised + kept, old(rootEnable), rootEnable, act, act, inact,
                     inact);
        ServedWithoutKept(marked, promised, kept, act, inact);
      }
    }

    lemma FeedersGrounded(d: Entry, p: nat)
      requires d in begun && d.mux < |mod.muxes| && p < mod.muxes[d.mux].Ports()
      requires Evaluates(mod.muxes[d.mux], d.act, d.inact, p)
      ensures GroundedAt(InputMuxes(mod, d.mux, p), d.act + ActOf(mod.muxes[d.mux], p),
                         d.inact + InactOf(mod.muxes[d.mux], p))
    {
      hide Grounded, Evaluates, InputMuxes, ActOf, InactOf;
      var ms := InputMuxes(mod, d.mux, p);
      forall i | 0 <= i < |ms|
        ensures Grounded(mod, begun, rootEnable,
                         Entry(ms[i], d.act + ActOf(mod.muxes[d.mux], p), d.inact + InactOf(mod.muxes[d.mux], p)))
      {
        InputsGrounded(mod, begun, rootEnable, d, p, ms[i]);
      }
    }

    /** Enables port `p` and evaluates what feeds it, knowing that it is selected. */
    method EvalMuxPort(k: Knowledge, m: nat, p: nat, doEnable: bool, abort: nat, ghost promised: set<Entry>,
                       ghost depth: nat)
      requires WellFormed(mod) && Valid() && Sized(k) && m < |mod.muxes| && p < mod.muxes[m].Ports()
      requires p < |mod.muxes[m].cases| ==> mod.muxes[m].cases[p].ctrl != Const(false)
      requires doEnable ==> Entry(m, Positive(k.active), Positive(k.inactive)) in begun
      requires doEnable ==> Evaluates(mod.muxes[m], Positive(k.active), Positive(k.inactive), p)
      requires doEnable ==> Covered(k.visited, promised, rootEnable, Positive(k.active), Positive(k.inactive))
      requires depth + Unvisited(k.visited) <= |mod.muxes|
      modifies this`rootEnable, this`rerun, this`enabled, this`globAbort, this`log, this`begun, k
      ensures Valid() && Sized(k) && Progress(rootMuxes, old(Snap()), Snap()) && globAbort <= old(globAbort)
      ensures !doEnable ==> enabled == old(enabled) && log == old(log)
      ensures globAbort > 0 ==>
                k.inactive == old(k.inactive) && k.active == old(k.active) && k.visited == old(k.visited)
      ensures globAbort > 0 && doEnable ==>
                enabled[m][p] && InputsServed(mod, log + promised, rootEnable, m, p, Positive(k.active),
                                              Positive(k.inactive))
      ensures globAbort > 0 && doEnable ==> AllClosed(mod, log - old(log), log + promised, enabled, rootEnable)
      ensures globAbort > 0 ==> Settled(old(Snap()), Snap())
      ensures old(globAbort) <= globAbort + WalkCost(PortLimit(), old(Unvisited(k.visited)))
      decreases Unvisited(k.visited), 1
    {
      hide MaxPorts, Cost, WalkCost, Settled, Covered, AllGrounded, Precise, Grounded, Evaluates, AllClosed,
           EnabledGrows, Positive, InactOf, ActOf, OtherCtrls, InputMuxes, Feeders, Progress, Served, RootGrows,
           WellFormed;
      if globAbort == 0 {
        ProgressRefl(rootMuxes, Snap());
        return;
      }
      var x := mod.muxes[m];
      MuxIsOk(mod, m);
      ghost var start, act, inact := Snap(), Positive(k.active), Positive(k.inactive);
      if doEnable {
        EnableOne(mod, begun, enabled, Entry(m, act, inact), p);
        enabled := enabled[m := enabled[m][p := true]];
        PortEnabled(rootMuxes, start, Snap(), m, p);
      } else {
        ProgressRefl(rootMuxes, Snap());
      }
      ghost var middle := Snap();
      SettledStill(start, middle);
      k.Assume(x, p);
      if doEnable {
        RootGrowsRefl(rootEnable);
        CoveredGrows(k.visited, promised, promised, rootEnable, rootEnable, act, Positive(k.active), inact,
                     Positive(k.inactive));
        FeedersGrounded(Entry(m, act, inact), p);
      }
      Walk(k, m, p, doEnable, abort, promised, depth);
      ProgressRoots(rootMuxes, middle, Snap());
      StillEnabled(middle.enabled, enabled, m, p);
      ProgressTrans(rootMuxes, start, middle, Snap());
      if globAbort == 0 {
        return;
      }
      SettledTrans(start, middle, Snap());
      k.Forget(x, p, old(k.inactive), old(k.active));
    }

    /** Evaluates multiplexer `m` in the current context. */
    method EvalMux(k: Knowledge, m: nat, doEnable: bool, abort: nat, ghost promised: set<Entry>, ghost depth: nat)
      requires WellFormed(mod) && Valid() && Sized(k) && m < |mod.muxes| && k.visited[m]
      requires doEnable ==> Entry(m, Positive(k.active), Positive(k.inactive)) in promised
      requires doEnable ==> Grounded(mod, begun, rootEnable, Entry(m, Positive(k.active), Positive(k.inactive)))
      requires doEnable ==> Covered(k.visited, promised, rootEnable, Positive(k.active), Positive(k.inactive))
      requires depth + Unvisited(k.visited) <= |mod.muxes|
      modifies this`rootEnable, this`rerun, this`enabled, this`globAbort, this`log, this`begun, k
      ensures Valid() && Sized(k) && Progress(rootMuxes, old(Snap()), Snap()) && globAbort <= old(globAbort)
      ensures old(globAbort) > 0 ==> globAbort < old(globAbort)
      ensures !doEnable ==> enabled == old(enabled) && log == old(log)
      ensures globAbort > 0 ==>
                k.inactive == old(k.inactive) && k.active == old(k.active) && k.visited == old(k.visited)
      ensures globAbort > 0 && doEnable ==> Entry(m, Positive(k.active), Positive(k.inactive)) in log
      ensures globAbort > 0 && doEnable ==> AllClosed(mod, log - old(log), log + promised, enabled, rootEnable)
      ensures globAbort > 0 ==> Settled(old(Snap()), Snap())
      ensures old(globAbort) <= globAbort + Cost(PortLimit(), old(Unvisited(k.visited)))
      decreases Unvisited(k.visited), 3
    {
      hide MaxPorts, Cost, WalkCost, Settled, Covered, AllGrounded, Precise, Grounded, Evaluates, AllClosed,
           EnabledGrows, Progress, Served, RootGrows, WellFormed, EntryClosed, Unvisited;
      if globAbort == 0 {
        ProgressRefl(rootMuxes, Snap());
        return;
      }
      globAbort := globAbort - 1;
      var x := mod.muxes[m];
      ghost var act, inact := Positive(k.active), Positive(k.inactive);
      MuxIsOk(mod, m);
      Begin(doEnable, Entry(m, act, inact));
      ghost var middle := Snap();
      CostOfPorts(1, PortLimit(), Unvisited(k.visited));
      CostOfPorts(x.Ports(), PortLimit(), Unvisited(k.visited));
      var p := FindConst(x);
      if p == |x.cases| {
        p := FindKnown(k, x);
      }
      if p < |x.cases| {
        SolePort(x, act, inact, p);
        EvalMuxPort(k, m, p, doEnable, abort, promised, depth);
      } else {
        EvalPorts(k, m, doEnable, abort, promised, depth);
      }
      ProgressTrans(rootMuxes, old(Snap()), middle, Snap());
      ProgressRoots(rootMuxes, middle, Snap());
      if globAbort > 0 && doEnable {
        RecordEntry(m, act, inact, promised, old(log), old(Snap()), middle);
        SettledEntry(old(Snap()), middle, Snap(), Entry(m, act, inact));
      } else if globAbort > 0 {
        SettledStill(old(Snap()), middle);
        SettledTrans(old(Snap()), middle, Snap());
      }
    }

    ghost method Begin(doEnable: bool, e: Entry)
      requires Valid() && (doEnable ==> Grounded(mod, begun, rootEnable, e))
      modifies this`begun
      ensures Valid() && Progress(rootMuxes, old(Snap()), Snap())
      ensures begun == if doEnable then old(begun) + [e] else old(begun)
    {
      hide AllGrounded, Precise, Grounded;
      if doEnable {
        BeginOne(mod, begun, enabled, rootEnable, e);
        begun := begun + [e];
      }
    }

    /** Every port that the context lets through has been evaluated. */
    ghost predicate PortsDone(m: nat, act: set<nat>, inact: set<nat>, promised: set<Entry>)
      requires Valid() && m < |mod.muxes|
      reads this`rootMuxes, this`rootEnable, this`rerun, this`enabled, this`log, this`begun
    {
      forall p :: 0 <= p < mod.muxes[m].Ports() && Evaluates(mod.muxes[m], act, inact, p) ==>
        enabled[m][p] && InputsServed(mod, log + promised, rootEnable, m, p, act, inact)
    }

    ghost method RecordEntry(m: nat, act: set<nat>, inact: set<nat>, promised: set<Entry>, before: set<Entry>,
                             start: Marks, middle: Marks)
      requires Valid() && m < |mod.muxes| && PortsDone(m, act, inact, promised)
      requires AllClosed(mod, log - before, log + promised, enabled, rootEnable)
      requires Progress(rootMuxes, start, Snap()) && Settled(middle, Snap()) && Entry(m, act, inact) in begun
      modifies this`log
      ensures Valid() && log == old(log) + {Entry(m, act, inact)}
      ensures AllClosed(mod, log - before, log + promised, enabled, rootEnable)
      ensures Progress(rootMuxes, start, Snap()) && Settled(middle, Snap())
    {
      hide EnabledGrows, RootGrows, InputsServed, Evaluates;
      var e := Entry(m, act, inact);
      EnabledGrowsRefl(enabled);
      RootGrowsRefl(rootEnable);
      assert EntryClosed(mod, log + promised, enabled, rootEnable, e);
      assert AllClosed(mod, (log - before) + {e}, log + promised, enabled, rootEnable);
      AllClosedGrows(mod, (log - before) + {e}, log + promised, log + {e} + promised, enabled, enabled, rootEnable,
                     rootEnable);
      log := log + {e};
      assert log - before <= (old(log) - before) + {e};
    }

    /** The first case whose select is the constant one. */
    method FindConst(x: Mux) returns (p: nat)
      ensures p <= |x.cases| && (p < |x.cases| ==> FirstConst(x, p)) && (p == |x.cases| ==> NoConst(x))
    {
      p := 0;
      while p < |x.cases| && x.cases[p].ctrl != Const(true)
        invariant p <= |x.cases| && forall i :: 0 <= i < p ==> !ConstActive(x, i)
      {
        p := p + 1;
      }
    }

    /** The first case whose select is known to be active. */
    method FindKnown(k: Knowledge, x: Mux) returns (p: nat)
      requires MuxOk(x, |k.active|) && NoConst(x)
      ensures p <= |x.cases|
      ensures p < |x.cases| ==> FirstKnown(x, Positive(k.active), p)
      ensures p == |x.cases| ==> NoKnown(x, Positive(k.active))
    {
      p := 0;
      while p < |x.cases|
        invariant p <= |x.cases| && forall i :: 0 <= i < p ==> !KnownActive(x, Positive(k.active), i)
      {
        assert InRange(x.cases[p].ctrl, |k.active|);
        if x.cases[p].ctrl.Wire? && k.active[x.cases[p].ctrl.bit] > 0 {
          return;
        }
        p := p + 1;
      }
    }

    /** Evaluates every port whose select is not known to be inactive. */
    method EvalPorts(k: Knowledge, m: nat, doEnable: bool, abort: nat, ghost promised: set<Entry>, ghost depth: nat)
      requires WellFormed(mod) && Valid() && Sized(k) && m < |mod.muxes|
      requires NoConst(mod.muxes[m]) && NoKnown(mod.muxes[m], Positive(k.active))
      requires doEnable ==> Entry(m, Positive(k.active), Positive(k.inactive)) in begun
      requires doEnable ==> Covered(k.visited, promised, rootEnable, Positive(k.active), Positive(k.inactive))
      requires depth + Unvisited(k.visited) <= |mod.muxes|
      modifies this`rootEnable, this`rerun, this`enabled, this`globAbort, this`log, this`begun, k
      ensures Valid() && Sized(k) && Progress(rootMuxes, old(Snap()), Snap()) && globAbort <= old(globAbort)
      ensures !doEnable ==> enabled == old(enabled) && log == old(log)
      ensures globAbort > 0 ==>
                k.inactive == old(k.inactive) && k.active == old(k.active) && k.visited == old(k.visited)
      ensures globAbort > 0 && doEnable ==>
                PortsDone(m, Positive(k.active), Positive(k.inactive), promised)
      ensures globAbort > 0 && doEnable ==> AllClosed(mod, log - old(log), log + promised, enabled, rootEnable)
      ensures globAbort > 0 ==> Settled(old(Snap()), Snap())
      ensures old(globAbort) <= globAbort + mod.muxes[m].Ports() * WalkCost(PortLimit(), old(Unvisited(k.visited)))
      decreases Unvisited(k.visited), 2
    {
      hide MaxPorts, Cost, WalkCost, Settled, Covered, AllGrounded, Precise, Grounded, Evaluates, AllClosed,
           EnabledGrows, Progress, Served, RootGrows, EntryClosed, Unvisited, InputsServed, WellFormed;
      var x := mod.muxes[m];
      MuxIsOk(mod, m);
      ghost var act, inact := Positive(k.active), Positive(k.inactive);
      ProgressRefl(rootMuxes, Snap());
      SettledRefl(Snap());
      ghost var cost := WalkCost(PortLimit(), Unvisited(k.visited));
      NothingClosed(log + promised);
      PossiblePorts(x, act, inact);
      for p := 0 to x.Ports()
        invariant Valid() && Sized(k) && Progress(rootMuxes, old(Snap()), Snap()) && globAbort <= old(globAbort)
        invariant !doEnable ==> enabled == old(enabled) && log == old(log)
        invariant k.inactive == old(k.inactive) && k.active == old(k.active) && k.visited == old(k.visited)
        invariant doEnable ==> Covered(k.visited, promised, rootEnable, act, inact)
        invariant doEnable ==> AllClosed(mod, log - old(log), log + promised, enabled, rootEnable)
        invariant doEnable ==> PossibleDone(m, p, act, inact, promised)
        invariant doEnable ==> Entry(m, act, inact) in begun
        invariant Settled(old(Snap()), Snap()) && old(globAbort) <= globAbort + p * cost
      {
        MulStep(p, cost);
        MulMonotone(p + 1, x.Ports(), cost, cost);
        if p < |x.cases| {
          assert InRange(x.cases[p].ctrl, mod.bits);
        }
        if p == |x.cases| || (x.cases[p].ctrl.Wire? && k.inactive[x.cases[p].ctrl.bit] == 0) {
          EvalNextPort(k, m, p, doEnable, abort, promised, depth, old(Snap()));
          if globAbort == 0 {
            return;
          }
        }
      }
    }

    /** Possible ports below `n` have been evaluated. */
    ghost predicate PossibleDone(m: nat, n: nat, act: set<nat>, inact: set<nat>, promised: set<Entry>)
      requires Valid() && m < |mod.muxes| && n <= mod.muxes[m].Ports()
      reads this`rootMuxes, this`rootEnable, this`rerun, this`enabled, this`log, this`begun
    {
      forall p :: 0 <= p < n && Possible(mod.muxes[m], inact, p) ==>
        enabled[m][p] && InputsServed(mod, log + promised, rootEnable, m, p, act, inact)
    }

    method EvalNextPort(k: Knowledge, m: nat, p: nat, doEnable: bool, abort: nat, ghost promised: set<Entry>,
                        ghost depth: nat, ghost start: Marks)
      requires WellFormed(mod) && Valid() && Sized(k) && m < |mod.muxes| && p < mod.muxes[m].Ports()
      requires p < |mod.muxes[m].cases| ==> mod.muxes[m].cases[p].ctrl.Wire?
      requires doEnable ==> Covered(k.visited, promised, rootEnable, Positive(k.active), Positive(k.inactive))
      requires depth + Unvisited(k.visited) <= |mod.muxes|
      requires Progress(rootMuxes, start, Snap())
      requires doEnable ==> AllClosed(mod, log - start.log, log + promised, enabled, rootEnable)
      requires doEnable ==> PossibleDone(m, p, Positive(k.active), Positive(k.inactive), promised)
      requires doEnable ==> Entry(m, Positive(k.active), Positive(k.inactive)) in begun
      requires doEnable ==> Evaluates(mod.muxes[m], Positive(k.active), Positive(k.inactive), p)
      requires Settled(start, Snap())
      modifies this`rootEnable, this`rerun, this`enabled, this`globAbort, this`log, this`begun, k
      ensures Valid() && Sized(k) && Progress(rootMuxes, start, Snap()) && globAbort <= old(globAbort)
      ensures old(begun) <= begun
      ensures !doEnable ==> enabled == old(enabled) && log == old(log)
      ensures globAbort > 0 ==>
                k.inactive == old(k.inactive) && k.active == old(k.active) && k.visited == old(k.visited)
      ensures globAbort > 0 && doEnable ==>
                Covered(k.visited, promised, rootEnable, Positive(k.active), Positive(k.inactive))
      ensures globAbort > 0 && doEnable ==> AllClosed(mod, log - start.log, log + promised, enabled, rootEnable)
      ensures globAbort > 0 && doEnable ==> PossibleDone(m, p + 1, Positive(k.active), Positive(k.inactive), promised)
      ensures globAbort > 0 ==> Settled(start, Snap())
      ensures old(globAbort) <= globAbort + WalkCost(PortLimit(), old(Unvisited(k.visited)))
      decreases Unvisited(k.visited), 2, 0
    {
      hide MaxPorts, Cost, WalkCost, Settled, Covered, AllGrounded, Precise, Grounded, Evaluates, AllClosed,
           EnabledGrows, Progress, Served, RootGrows, EntryClosed, Unvisited, InputsServed, WellFormed, Positive;
      ghost var before, act, inact := Snap(), Positive(k.active), Positive(k.inactive);
      EvalMuxPort(k, m, p, doEnable, abort, promised, depth);
      ProgressTrans(rootMuxes, start, before, Snap());
      ProgressRoots(rootMuxes, before, Snap());
      if globAbort > 0 {
        SettledTrans(start, before, Snap());
      }
      if globAbort > 0 && doEnable {
        JoinClosed(mod, promised, start.log, before, Snap());
        CoveredGrows(k.visited, promised, promised, before.root, rootEnable, act, act, inact, inact);
        forall q | 0 <= q < p && Possible(mod.muxes[m], inact, q)
          ensures enabled[m][q] && InputsServed(mod, log + promised, rootEnable, m, q, act, inact)
        {
          StillEnabled(before.enabled, enabled, m, q);
          InputsServedGrows(mod, before.log + promised, log + promised, before.root, rootEnable, m, q, act, inact);
        }
      }
    }

    // ----- roots -----

    constructor (mod: Module, budget: nat)
      requires WellFormed(mod)
      ensures this.mod == mod && globAbort == budget && Fresh()
    {
      this.mod := mod;
      rootMuxes := seq(|mod.muxes|, i => false);
      rootEnable := seq(|mod.muxes|, i => false);
      enabled := seq(|mod.muxes|, i requires 0 <= i < |mod.muxes| => seq(mod.muxes[i].Ports(), j => false));
      rerun, globAbort, log, begun := {}, budget, {}, [];
    }

    ghost predicate Fresh()
      reads this
    {
      && Valid() && log == {} && begun == [] && rerun == {}
      && (forall m :: 0 <= m < |rootEnable| ==> !rootEnable[m])
    }

    /** Roots are multiplexers that are observed, which are evaluated for their own sake, or shared. */
    ghost predicate RootsSelected(n: nat)
      requires Valid() && n <= |mod.muxes|
      reads this`rootMuxes, this`rootEnable, this`rerun, this`enabled, this`log, this`begun
    {
      forall m :: 0 <= m < n ==>
        && rootEnable[m] == Observed(mod, m)
        && rootMuxes[m] == IsRoot(mod, m)
    }

    method SelectRoots()
      requires Fresh()
      modifies this`rootMuxes, this`rootEnable
      ensures Valid() && RootsSelected(|mod.muxes|)
    {
      for m := 0 to |mod.muxes|
        invariant Valid() && RootsSelected(m)
      {
        if Observed(mod, m) {
          rootMuxes := rootMuxes[m := true];
          rootEnable := rootEnable[m := true];
        } else {
          rootMuxes := rootMuxes[m := |Users(mod, m)| > 1];
          rootEnable := rootEnable[m := false];
        }
      }
    }

    method EvalRootMux(m: nat)
      requires WellFormed(mod) && Valid() && m < |mod.muxes| && globAbort > 0
      requires AllClosed(mod, log, log, enabled, rootEnable)
      modifies this`rootEnable, this`rerun, this`enabled, this`globAbort, this`log, this`begun
      ensures Valid() && Progress(rootMuxes, old(Snap()), Snap()) && globAbort < old(globAbort)
      ensures globAbort > 0 ==> Settled(old(Snap()), Snap())
      ensures old(globAbort) <= globAbort + Cost(PortLimit(), |mod.muxes|)
      ensures globAbort > 0 ==> AllClosed(mod, log, log, enabled, rootEnable)
      ensures globAbort > 0 && old(rootEnable)[m] ==> Entry(m, {}, {}) in log
    {
      hide MaxPorts, Cost, WalkCost, Settled, AllGrounded, Precise, LeadsTo, AllClosed, EnabledGrows, Progress,
           RootGrows, WellFormed, Unvisited, Positive;
      var k := new Knowledge(mod.bits, |mod.muxes|);
      UnvisitedBound(k.visited);
      VisitOne(k.visited, m);
      CostMonotone(PortLimit(), Unvisited(k.visited) - 1, |mod.muxes|);
      k.visited := k.visited[m := true];
      ghost var promised, before := {Entry(m, {}, {})}, Snap();
      if rootEnable[m] {
        assert Covers(Entry(m, {}, {}), m, {}, {}) && IsRootEntry(rootEnable, Entry(m, {}, {}));
      }
      EvalMux(k, m, rootEnable[m], 3, promised, 1);
      ProgressRoots(rootMuxes, before, Snap());
      if globAbort > 0 {
        AllClosedGrows(mod, before.log, before.log, log, before.enabled, enabled, before.root, rootEnable);
        if before.root[m] {
          assert log + promised == log;
          JoinAll(mod, before.log, log, enabled, rootEnable);
        }
      }
    }

    /** Every root that is evaluated for its own sake has been, or will be. */
    ghost predicate Rooted(n: nat)
      reads this`rootMuxes, this`rootEnable, this`rerun, this`log
    {
      forall m :: 0 <= m < |rootEnable| && rootEnable[m] ==>
        Entry(m, {}, {}) in log || m in rerun || (n <= m < |rootMuxes| && rootMuxes[m])
    }

    /** The same for every multiplexer but `m`. */
    ghost predicate RootedExcept(m: nat, n: nat)
      reads this`rootMuxes, this`rootEnable, this`rerun, this`log
    {
      forall q :: 0 <= q < |rootEnable| && q != m && rootEnable[q] ==>
        Entry(q, {}, {}) in log || q in rerun || (n <= q < |rootMuxes| && rootMuxes[q])
    }

    ghost predicate AllEnded()
      reads this`begun, this`log
    {
      forall e :: e in begun ==> e in log
    }

    /** Evaluates one root and keeps the account of the others. */
    method EvalNextRoot(m: nat, ghost n: nat)
      requires WellFormed(mod) && Valid() && m < |mod.muxes| && globAbort > 0
      requires AllClosed(mod, log, log, enabled, rootEnable) && AllEnded()
      requires RootedExcept(m, n) && ObservedRoots() && RootsJustified()
      modifies this`rootEnable, this`rerun, this`enabled, this`globAbort, this`log, this`begun
      ensures Valid() && Progress(rootMuxes, old(Snap()), Snap()) && globAbort < old(globAbort)
      ensures RootsJustified() && old(globAbort) <= globAbort + Cost(PortLimit(), |mod.muxes|)
      ensures globAbort > 0 ==> AllClosed(mod, log, log, enabled, rootEnable) && AllEnded()
      ensures globAbort > 0 ==> Rooted(n) && ObservedRoots()
    {
      hide AllGrounded, Precise, AllClosed, EnabledGrows, WellFormed, MaxPorts, Cost, Observed, IsRoot;
      EvalRootMux(m);
    }

    lemma BoundReached(k: nat, budget: nat)
      requires k <= 2 * |mod.muxes| && budget <= k * Cost(PortLimit(), |mod.muxes|)
      ensures budget <= EvalBound(mod)
    {
      hide Cost, MaxPorts;
      MulMonotone(k, 2 * |mod.muxes|, Cost(PortLimit(), |mod.muxes|), Cost(PortLimit(), |mod.muxes|));
    }

    /** What a finished analysis has established. */
    ghost predicate Complete()
      requires Valid()
      reads this`rootMuxes, this`rootEnable, this`rerun, this`enabled, this`log, this`begun
    {
      && AllClosed(mod, log, log, enabled, rootEnable)
      && AllEnded() && ObservedRoots()
      && (forall m :: 0 <= m < |mod.muxes| && (rootEnable[m] || Observed(mod, m)) ==> Entry(m, {}, {}) in log)
    }

    /** Only observed and shared multiplexers are roots. */
    ghost predicate RootsJustified()
      requires |rootEnable| == |mod.muxes|
      reads this`rootEnable, this`rootMuxes
    {
      && (forall m :: 0 <= m < |mod.muxes| && rootEnable[m] ==> m < |rootMuxes| && rootMuxes[m])
      && (forall m :: 0 <= m < |mod.muxes| && m < |rootMuxes| && rootMuxes[m] ==> IsRoot(mod, m))
    }

    /**
     Evaluates all roots, and those that an evaluation gave up on. It fails only when the budget is
     spent, which a large enough budget rules out.
     */
    method Analyze() returns (done: bool)
      requires WellFormed(mod) && Fresh() && globAbort > 0
      modifies this
      ensures Valid() && RootsJustified()
      ensures done <==> globAbort > 0
      ensures old(globAbort) > EvalBound(mod) ==> done
      ensures done ==> Complete()
    {
      hide AllGrounded, Precise, AllClosed, WellFormed, IsRoot, MaxPorts, Cost, EvalBound, Rooted, RootedExcept,
           ObservedRoots, RootsJustified, AllEnded;
      Prepare();
      ghost var cost := Cost(PortLimit(), |mod.muxes|);
      for m := 0 to |mod.muxes|
        invariant Valid() && globAbort > 0 && AllClosed(mod, log, log, enabled, rootEnable) && AllEnded()
        invariant Rooted(m) && ObservedRoots() && RootsJustified()
        invariant old(globAbort) <= globAbort + m * cost
      {
        MulStep(m, cost);
        NextRoot(m, m);
        if rootMuxes[m] {
          TakeRoot(m, m + 1);
          if globAbort == 0 {
            BoundReached(m + 1, old(globAbort));
            return false;
          }
        }
      }
      done := RerunRoots(old(globAbort));
    }

    /** Selects the roots; nothing has been evaluated yet. */
    method Prepare()
      requires WellFormed(mod) && Fresh()
      modifies this`rootMuxes, this`rootEnable
      ensures Valid() && AllClosed(mod, log, log, enabled, rootEnable) && AllEnded()
      ensures Rooted(0) && ObservedRoots() && RootsJustified()
    {
      hide AllGrounded, Precise, AllClosed, WellFormed, Observed, Users;
      SelectRoots();
      NoneClosed(mod, enabled, rootEnable);
    }

    lemma NextRoot(m: nat, n: nat)
      requires Valid() && Rooted(n) && m < |mod.muxes|
      ensures m < |rootMuxes| && (!rootMuxes[m] && n == m ==> Rooted(m + 1))
    {
      hide AllGrounded, Precise;
    }

    /** Takes a root off the list, if it is on it, and evaluates it. */
    method TakeRoot(m: nat, ghost n: nat)
      requires WellFormed(mod) && Valid() && m < |mod.muxes| && globAbort > 0
      requires AllClosed(mod, log, log, enabled, rootEnable) && AllEnded()
      requires ObservedRoots() && RootsJustified() && (Rooted(n) || (n == m + 1 && Rooted(m)))
      modifies this`rootEnable, this`rerun, this`enabled, this`globAbort, this`log, this`begun
      ensures Valid() && globAbort < old(globAbort)
      ensures RootsJustified() && old(globAbort) <= globAbort + Cost(PortLimit(), |mod.muxes|)
      ensures globAbort > 0 ==> AllClosed(mod, log, log, enabled, rootEnable) && AllEnded()
      ensures globAbort > 0 ==> Rooted(n) && ObservedRoots()
      ensures m in old(rerun) ==> |Todo(rerun, rootEnable)| < |Todo(old(rerun), old(rootEnable))|
    {
      hide AllGrounded, Precise, AllClosed, WellFormed, MaxPorts, Cost, Observed, IsRoot, Progress, Todo;
      rerun := rerun - {m};
      ghost var s := Snap();
      EvalNextRoot(m, n);
      if m in old(rerun) {
        TodoShrinks(rootMuxes, m, old(rerun), s, Snap());
      }
    }

    /** Evaluates the roots that earlier evaluations gave up on. */
    method RerunRoots(ghost budget: nat) returns (done: bool)
      requires WellFormed(mod) && Valid() && globAbort > 0
      requires AllClosed(mod, log, log, enabled, rootEnable) && AllEnded()
      requires Rooted(|mod.muxes|) && ObservedRoots() && RootsJustified()
      requires budget <= globAbort + |mod.muxes| * Cost(PortLimit(), |mod.muxes|)
      modifies this`rootEnable, this`rerun, this`enabled, this`globAbort, this`log, this`begun
      ensures Valid() && RootsJustified()
      ensures done <==> globAbort > 0
      ensures budget > EvalBound(mod) ==> done
      ensures done ==> Complete()
    {
      hide AllGrounded, Precise, AllClosed, WellFormed, IsRoot, MaxPorts, Cost, EvalBound, Rooted, ObservedRoots,
           RootsJustified, AllEnded, Todo, Complete;
      ghost var n, j, cost := |mod.muxes|, 0, Cost(PortLimit(), |mod.muxes|);
      AllTodo();
      while rerun != {}
        invariant Valid() && globAbort > 0 && AllClosed(mod, log, log, enabled, rootEnable) && AllEnded()
        invariant Rooted(n) && ObservedRoots() && RootsJustified()
        invariant j + |Todo(rerun, rootEnable)| <= n && budget <= globAbort + (n + j) * cost
        decreases globAbort
      {
        Nonempty(rerun);
        var m :| m in rerun;
        RerunIsMux(m);
        MulStep(n + j, cost);
        TakeRoot(m, n);
        j := j + 1;
        if globAbort == 0 {
          BoundReached(n + j, budget);
          return false;
        }
      }
      AllRootsDone();
      return true;
    }

    lemma AllTodo()
      requires Valid()
      ensures |Todo(rerun, rootEnable)| <= |mod.muxes|
    {
      hide AllGrounded, Precise, Todo;
      TodoBound(rerun, rootEnable);
    }

    lemma RerunIsMux(m: nat)
      requires Valid() && m in rerun
      ensures m < |mod.muxes|
    {
      hide AllGrounded, Precise;
    }

    lemma AllRootsDone()
      requires Valid() && rerun == {} && Rooted(|mod.muxes|) && ObservedRoots() && AllEnded()
      requires AllClosed(mod, log, log, enabled, rootEnable)
      ensures Complete()
    {
      hide AllGrounded, Precise, AllClosed, Observed, AllEnded;
    }

    lemma RootsObserved()
      requires Valid() && RootsJustified() && Complete()
      ensures forall e :: e in begun <==> e in log
      ensures forall m :: 0 <= m < |mod.muxes| && rootEnable[m] ==> IsRoot(mod, m)
      ensures forall m :: 0 <= m < |mod.muxes| && Observed(mod, m) ==> rootEnable[m]
    {
      hide AllGrounded, Precise, AllClosed, Observed, IsRoot;
    }

    ghost predicate ObservedRoots()
      requires |rootEnable| == |mod.muxes|
      reads this`rootEnable
    {
      forall m :: 0 <= m < |mod.muxes| && Observed(mod, m) ==> rootEnable[m]
    }

    lemma ServedWithoutKept(visited: seq<bool>, promised: set<Entry>, kept: set<Entry>, act: set<nat>, inact: set<nat>)
      requires Covered(visited, log + promised + kept, rootEnable, act, inact)
      requires forall e :: e in kept ==> e in log || (e.mux < |rootEnable| && rootEnable[e.mux])
      ensures Covered(visited, log + promised, rootEnable, act, inact)
    {
      forall m | 0 <= m < |visited| && visited[m]
        ensures Served(log + promised, rootEnable, m, act, inact)
      {
        assert Served(log + promised + kept, rootEnable, m, act, inact);
        if !(m < |rootEnable| && rootEnable[m]) {
          var e :| e in log + promised + kept && Covers(e, m, act, inact);
          assert e in log + promised;
        }
      }
    }

    lemma NothingClosed(log': set<Entry>)
      requires Shaped(mod, enabled, rootEnable)
      ensures AllClosed(mod, log - log, log', enabled, rootEnable)
    {
    }
  }

  lemma RootGrowsRefl(root: seq<bool>)
    ensures RootGrows(root, root)
  {
  }

  lemma StillEnabled(enabled: seq<seq<bool>>, enabled': seq<seq<bool>>, m: nat, p: nat)
    requires EnabledGrows(enabled, enabled') && m < |enabled| && p < |enabled[m]|
    ensures m < |enabled'| && p < |enabled'[m]| && (enabled[m][p] ==> enabled'[m][p])
  {
  }

  lemma PortEnabled(roots: seq<bool>, s: Marks, s': Marks, m: nat, p: nat)
    requires m < |s.enabled| && p < |s.enabled[m]|
    requires s' == s.(enabled := s.enabled[m := s.enabled[m][p := true]])
    ensures Progress(roots, s, s')
  {
  }

  lemma EnabledGrowsRefl(enabled: seq<seq<bool>>)
    ensures EnabledGrows(enabled, enabled)
  {
  }

  /** A constant or known active select leaves one port to evaluate. */
  lemma SolePort(x: Mux, act: set<nat>, inact: set<nat>, p: nat)
    requires FirstConst(x, p) || (NoConst(x) && FirstKnown(x, act, p))
    ensures forall q :: Evaluates(x, act, inact, q) <==> q == p
  {
  }

  lemma PossiblePorts(x: Mux, act: set<nat>, inact: set<nat>)
    requires NoConst(x) && NoKnown(x, act)
    ensures forall q :: Evaluates(x, act, inact, q) <==> Possible(x, inact, q)
  {
  }

  lemma MuxIsOk(mod: Module, m: nat)
    requires WellFormed(mod) && m < |mod.muxes|
    ensures MuxOk(mod.muxes[m], mod.bits)
  {
  }

  lemma NoneClosed(mod: Module, enabled: seq<seq<bool>>, root: seq<bool>)
    requires Shaped(mod, enabled, root)
    ensures AllClosed(mod, {}, {}, enabled, root)
  {
  }

  lemma JoinAll(mod: Module, before: set<Entry>, log: set<Entry>, enabled: seq<seq<bool>>, root: seq<bool>)
    requires Shaped(mod, enabled, root)
    requires AllClosed(mod, before, log, enabled, root) && AllClosed(mod, log - before, log, enabled, root)
    ensures AllClosed(mod, log, log, enabled, root)
  {
  }

  lemma ProgressRefl(roots: seq<bool>, s: Marks)
    ensures Progress(roots, s, s)
  {
  }

  lemma RootAdded(roots: seq<bool>, s: Marks, s': Marks, m: nat)
    requires m < |s.root| && !s.root[m] && m < |roots| && roots[m]
    requires s' == s.(root := s.root[m := true], rerun := s.rerun + {m})
    ensures Progress(roots, s, s')
  {
  }

  lemma ProgressRoots(roots: seq<bool>, s: Marks, s': Marks)
    requires Progress(roots, s, s')
    ensures RootGrows(s.root, s'.root) && EnabledGrows(s.enabled, s'.enabled) && s.log <= s'.log && s.begun <= s'.begun
  {
  }

  /** Two stretches of closed entries join into one. */
  lemma JoinClosed(mod: Module, promised: set<Entry>, start: set<Entry>, s: Marks, s': Marks)
    requires Shaped(mod, s.enabled, s.root) && Shaped(mod, s'.enabled, s'.root)
    requires EnabledGrows(s.enabled, s'.enabled) && RootGrows(s.root, s'.root) && s.log <= s'.log
    requires AllClosed(mod, s.log - start, s.log + promised, s.enabled, s.root)
    requires AllClosed(mod, s'.log - s.log, s'.log + promised, s'.enabled, s'.root)
    ensures AllClosed(mod, s'.log - start, s'.log + promised, s'.enabled, s'.root)
  {
    hide EnabledGrows, RootGrows, EntryClosed;
    AllClosedGrows(mod, s.log - start, s.log + promised, s'.log + promised, s.enabled, s'.enabled, s.root, s'.root);
  }
}
