/**
 Removing the ports that no evaluation enabled, and why nobody can tell: every port that a
 valuation selects on the way from an observed multiplexer is enabled, a rebuilt cell
 selects the same input, and so every bit that is looked at keeps its value.
 */
module MuxtreePass {
  import opened Muxtree
  import opened OptMuxtree

  // ----- selected ports are evaluated -----

  ghost predicate ContextHolds(v: Valuation, act: set<nat>, inact: set<nat>) {
    (forall b :: b in act ==> v(b)) && (forall b :: b in inact ==> !v(b))
  }

  lemma SelectedIsEvaluated(v: Valuation, x: Mux, act: set<nat>, inact: set<nat>)
    requires AtMostOne(v, x) && ContextHolds(v, act, inact)
    ensures Evaluates(x, act, inact, Selected(v, x))
    ensures ContextHolds(v, act + ActOf(x, Selected(v, x)), inact + InactOf(x, Selected(v, x)))
  {
    var s := Selected(v, x);
    if s < |x.cases| {
      assert SigVal(v, x.cases[s].ctrl);
      assert x.cases[s].ctrl.Const? ==> ConstActive(x, s);
    }
    forall i | 0 <= i < |x.cases|
      ensures SigVal(v, x.cases[i].ctrl) ==> i == s
    {
      ActiveIsSelected(v, x, i);
    }
  }

  /** No two selects of the cell are the same wire. */
  ghost predicate DistinctSelects(x: Mux) {
    forall i, j :: 0 <= i < j < |x.cases| && x.cases[i].ctrl.Wire? ==> x.cases[i].ctrl != x.cases[j].ctrl
  }

  ghost predicate Fits(v: Valuation, x: Mux, act: set<nat>, inact: set<nat>) {
    ContextHolds(v, act, inact) && AtMostOne(v, x)
  }

  /** The context alone, with the select of port `p` made active. */
  ghost function Minimal(x: Mux, act: set<nat>, p: nat): Valuation {
    (b: nat) => b in act || (p < |x.cases| && x.cases[p].ctrl == Wire(b))
  }

  lemma MinimalSelects(x: Mux, act: set<nat>, inact: set<nat>, p: nat, v0: Valuation)
    requires DistinctSelects(x) && Fits(v0, x, act, inact) && Evaluates(x, act, inact, p)
    ensures ContextHolds(Minimal(x, act, p), act, inact)
    ensures p <= |x.cases| && forall i :: 0 <= i < |x.cases| ==>
              (SigVal(Minimal(x, act, p), x.cases[i].ctrl) <==> i == p)
  {
    var v := Minimal(x, act, p);
    forall b | b in inact
      ensures !v(b)
    {
      assert b !in act;
    }
    forall i | 0 <= i < |x.cases| && i != p
      ensures !SigVal(v, x.cases[i].ctrl)
    {
      if SigVal(v, x.cases[i].ctrl) {
        OthersInactive(x, act, inact, p, v0, i);
      }
    }
  }

  lemma OthersInactive(x: Mux, act: set<nat>, inact: set<nat>, p: nat, v0: Valuation, i: nat)
    requires DistinctSelects(x) && Fits(v0, x, act, inact) && Evaluates(x, act, inact, p)
    requires i < |x.cases| && i != p
    ensures x.cases[i].ctrl != Const(true)
    ensures x.cases[i].ctrl.Wire? ==> x.cases[i].ctrl.bit !in act
    ensures x.cases[i].ctrl.Wire? && p < |x.cases| ==> x.cases[i].ctrl != x.cases[p].ctrl
  {
    assert ConstActive(x, i) ==> SigVal(v0, x.cases[i].ctrl);
    assert KnownActive(x, act, i) ==> SigVal(v0, x.cases[i].ctrl);
    if p < |x.cases| {
      assert ConstActive(x, p) ==> SigVal(v0, x.cases[p].ctrl);
      assert KnownActive(x, act, p) ==> SigVal(v0, x.cases[p].ctrl);
    }
  }

  /** In a context that can occur, the ports looked at are exactly those that some valuation selects. */
  lemma EvaluatesIsSelectable(x: Mux, act: set<nat>, inact: set<nat>, p: nat, v0: Valuation)
    requires DistinctSelects(x) && Fits(v0, x, act, inact)
    ensures Evaluates(x, act, inact, p) <==> exists v :: Fits(v, x, act, inact) && Selected(v, x) == p
  {
    if Evaluates(x, act, inact, p) {
      var v := Minimal(x, act, p);
      MinimalSelects(x, act, inact, p, v0);
      SelectedUnique(v, x, p);
      assert AtMostOne(v, x);
      assert Fits(v, x, act, inact) && Selected(v, x) == p;
    }
    if v :| Fits(v, x, act, inact) && Selected(v, x) == p {
      SelectedIsEvaluated(v, x, act, inact);
    }
  }

  /** What is assumed behind a port is just that the port is selected. */
  lemma ContextMeansSelected(v: Valuation, x: Mux, act: set<nat>, inact: set<nat>, p: nat)
    requires Fits(v, x, act, inact) && Evaluates(x, act, inact, p)
    ensures ContextHolds(v, act + ActOf(x, p), inact + InactOf(x, p)) <==> Selected(v, x) == p
  {
    if Selected(v, x) == p {
      SelectedIsEvaluated(v, x, act, inact);
    } else if ContextHolds(v, act + ActOf(x, p), inact + InactOf(x, p)) {
      OthersSelected(v, x, act, inact, p);
    }
  }

  lemma OthersSelected(v: Valuation, x: Mux, act: set<nat>, inact: set<nat>, p: nat)
    requires Fits(v, x, act, inact) && Evaluates(x, act, inact, p)
    requires ContextHolds(v, act + ActOf(x, p), inact + InactOf(x, p))
    ensures Selected(v, x) == p
  {
    if p < |x.cases| {
      assert x.cases[p].ctrl.Wire? ==> x.cases[p].ctrl.bit in ActOf(x, p);
      assert SigVal(v, x.cases[p].ctrl);
      ActiveIsSelected(v, x, p);
    } else {
      forall i | 0 <= i < |x.cases|
        ensures !SigVal(v, x.cases[i].ctrl)
      {
        assert !ConstActive(x, i);
        if x.cases[i].ctrl.Wire? {
          assert x.cases[i].ctrl.bit in InactOf(x, p);
          assert x.cases[i].ctrl.bit in inact + InactOf(x, p);
        }
      }
    }
  }

  /** A valuation selects its way from an observed multiplexer to the last one of the path. */
  ghost predicate SelectsAlong(mod: Module, v: Valuation, path: seq<nat>) {
    && |path| > 0
    && (forall i :: 0 <= i < |path| ==> path[i] < |mod.muxes|)
    && Observed(mod, path[0])
    && forall i :: 0 <= i < |path| - 1 ==>
         path[i + 1] in InputMuxes(mod, path[i], Selected(v, mod.muxes[path[i]]))
  }

  ghost predicate Needed(mod: Module, v: Valuation, m: nat) {
    exists path :: SelectsAlong(mod, v, path) && path[|path| - 1] == m
  }

  lemma NeededNext(mod: Module, v: Valuation, m: nat, k: nat)
    requires Needed(mod, v, m) && m < |mod.muxes|
    requires k in InputMuxes(mod, m, Selected(v, mod.muxes[m]))
    ensures Needed(mod, v, k)
  {
    var path :| SelectsAlong(mod, v, path) && path[|path| - 1] == m;
    assert SelectsAlong(mod, v, path + [k]);
  }

  lemma ObservedIsNeeded(mod: Module, v: Valuation, m: nat)
    requires m < |mod.muxes| && Observed(mod, m)
    ensures Needed(mod, v, m)
  {
    assert SelectsAlong(mod, v, [m]);
  }

  ghost predicate Convention(mod: Module, v: Valuation) {
    forall m :: 0 <= m < |mod.muxes| ==> AtMostOne(v, mod.muxes[m])
  }

  /** What a finished analysis has recorded. */
  ghost predicate Analyzed(mod: Module, log: set<Entry>, enabled: seq<seq<bool>>, root: seq<bool>) {
    && Shaped(mod, enabled, root)
    && AllClosed(mod, log, log, enabled, root)
    && forall m :: 0 <= m < |mod.muxes| && (root[m] || Observed(mod, m)) ==> Entry(m, {}, {}) in log
  }

  /** Each multiplexer on such a path was evaluated in a context that the valuation meets. */
  lemma {:induction false} PathIsEvaluated(mod: Module, log: set<Entry>, enabled: seq<seq<bool>>, root: seq<bool>,
                                           v: Valuation, path: seq<nat>)
    returns (e: Entry)
    requires Analyzed(mod, log, enabled, root) && Convention(mod, v) && SelectsAlong(mod, v, path)
    ensures e in log && e.mux == path[|path| - 1] && ContextHolds(v, e.act, e.inact)
    decreases |path|
  {
    var last := |path| - 1;
    if last == 0 {
      e := Entry(path[0], {}, {});
    } else {
      assert SelectsAlong(mod, v, path[..last]);
      var d := PathIsEvaluated(mod, log, enabled, root, v, path[..last]);
      e := InputIsEvaluated(mod, log, enabled, root, v, d, path[last]);
    }
  }

  lemma InputIsEvaluated(mod: Module, log: set<Entry>, enabled: seq<seq<bool>>, root: seq<bool>, v: Valuation, d: Entry,
                         k: nat)
    returns (e: Entry)
    requires Analyzed(mod, log, enabled, root) && Convention(mod, v)
    requires d in log && d.mux < |mod.muxes| && ContextHolds(v, d.act, d.inact)
    requires k in InputMuxes(mod, d.mux, Selected(v, mod.muxes[d.mux]))
    ensures e in log && e.mux == k && ContextHolds(v, e.act, e.inact)
  {
    hide Evaluates, InactOf, ActOf, InputMuxes, Feeders, AtMostOne;
    var x := mod.muxes[d.mux];
    var s := Selected(v, x);
    assert AtMostOne(v, x);
    SelectedIsEvaluated(v, x, d.act, d.inact);
    assert EntryClosed(mod, log, enabled, root, d);
    var act, inact := d.act + ActOf(x, s), d.inact + InactOf(x, s);
    assert InputsServed(mod, log, root, d.mux, s, d.act, d.inact);
    assert Served(log, root, k, act, inact);
    if k < |root| && root[k] {
      e := Entry(k, {}, {});
    } else {
      e :| e in log && Covers(e, k, act, inact);
    }
  }

  /** Every port that is selected on a path from an observed multiplexer is enabled. */
  lemma SelectedIsEnabled(mod: Module, log: set<Entry>, enabled: seq<seq<bool>>, root: seq<bool>, v: Valuation, m: nat)
    requires Analyzed(mod, log, enabled, root) && Convention(mod, v) && Needed(mod, v, m)
    ensures m < |mod.muxes| && enabled[m][Selected(v, mod.muxes[m])]
  {
    var path :| SelectsAlong(mod, v, path) && path[|path| - 1] == m;
    var e := PathIsEvaluated(mod, log, enabled, root, v, path);
    hide Evaluates, InputsServed, Observed;
    assert AtMostOne(v, mod.muxes[m]);
    SelectedIsEvaluated(v, mod.muxes[m], e.act, e.inact);
    assert EntryClosed(mod, log, enabled, root, e);
  }

  // ----- rebuilding a cell -----

  datatype Cell =
    | Kept(mux: Mux)                          // all ports live, or some of them
    | Connected(y: seq<nat>, data: seq<Sig>)  // one port live: a plain connection
    | Removed

  /** The enabled ports below `n`, in order. */
  function LivePorts(enabled: seq<bool>, n: nat): (live: seq<nat>)
    requires n <= |enabled|
    ensures forall p: nat :: p in live <==> p < n && enabled[p]
    ensures forall i, j :: 0 <= i < j < |live| ==> live[i] < live[j]
    ensures forall i :: 0 <= i < |live| ==> live[i] < n
    ensures |live| <= n
  {
    if n == 0 then []
    else if enabled[n - 1] then LivePorts(enabled, n - 1) + [n - 1]
    else LivePorts(enabled, n - 1)
  }

  /** The cell left when only `live` ports stay: the last of them becomes the default. */
  function Shrink(x: Mux, live: seq<nat>): Mux
    requires |live| > 0
    requires forall i :: 0 <= i < |live| ==> live[i] < x.Ports() && (i < |live| - 1 ==> live[i] < |x.cases|)
  {
    Mux(seq(|live| - 1, i requires 0 <= i < |live| - 1 => x.cases[live[i]]), x.Data(live[|live| - 1]), x.y)
  }

  function Rebuild(x: Mux, enabled: seq<bool>): Cell
    requires |enabled| == x.Ports()
  {
    var live := LivePorts(enabled, |enabled|);
    if |live| == x.Ports() then Kept(x)
    else if live == [] then Removed
    else if |live| == 1 then Connected(x.y, x.Data(live[0]))
    else
      Kept(Shrink(x, live))
  }

  /** The input that the cell passes on. */
  ghost function Passed(v: Valuation, c: Cell): seq<Sig>
    requires !c.Removed?
  {
    match c
    case Kept(x) => x.Data(Selected(v, x))
    case Connected(_, data) => data
  }

  ghost function Output(c: Cell): seq<nat>
    requires !c.Removed?
  {
    match c case Kept(x) => x.y case Connected(y, _) => y
  }

  /** The cell is still there, obeys the select convention and passes on what `x` does. */
  ghost predicate SamePort(v: Valuation, x: Mux, c: Cell) {
    && !c.Removed?
    && (c.Kept? ==> AtMostOne(v, c.mux))
    && Output(c) == x.y
    && Passed(v, c) == x.Data(Selected(v, x))
  }

  lemma SelectedUnique(v: Valuation, x: Mux, p: nat)
    requires p <= |x.cases|
    requires forall i :: 0 <= i < |x.cases| ==> (SigVal(v, x.cases[i].ctrl) <==> i == p)
    ensures Selected(v, x) == p
  {
    var q := Selected(v, x);
    assert q < |x.cases| ==> SigVal(v, x.cases[q].ctrl);
    assert p < |x.cases| ==> SigVal(v, x.cases[p].ctrl);
  }

  lemma ShrinkKeepsPort(v: Valuation, x: Mux, live: seq<nat>, i: nat)
    requires AtMostOne(v, x) && |live| > 0 && i < |live| && live[i] == Selected(v, x)
    requires forall j :: 0 <= j < |live| ==> live[j] < x.Ports()
    requires forall j, l :: 0 <= j < l < |live| ==> live[j] < live[l]
    ensures forall j :: 0 <= j < |live| - 1 ==> live[j] < |x.cases|
    ensures SamePort(v, x, Kept(Shrink(x, live)))
  {
    var last := |live| - 1;
    forall j | 0 <= j < last
      ensures live[j] < |x.cases|
    {
      assert live[j] < live[last];
    }
    var x' := Shrink(x, live);
    forall j | 0 <= j < |x'.cases|
      ensures SigVal(v, x'.cases[j].ctrl) <==> j == i
    {
      assert j < i ==> live[j] < live[i];
      assert i < j ==> live[i] < live[j];
      ActiveIsSelected(v, x, live[j]);
    }
    SelectedUnique(v, x', i);
  }

  lemma ActiveIsSelected(v: Valuation, x: Mux, p: nat)
    requires AtMostOne(v, x) && p < |x.cases|
    ensures SigVal(v, x.cases[p].ctrl) <==> Selected(v, x) == p
  {
  }

  /** A rebuilt cell passes on the same input whenever the selected port was enabled. */
  lemma RebuildKeepsPort(v: Valuation, x: Mux, enabled: seq<bool>)
    requires AtMostOne(v, x) && |enabled| == x.Ports() && enabled[Selected(v, x)]
    ensures SamePort(v, x, Rebuild(x, enabled))
  {
    hide AtMostOne;
    var live := LivePorts(enabled, |enabled|);
    assert Selected(v, x) in live;
    var i :| 0 <= i < |live| && live[i] == Selected(v, x);
    ShrinkKeepsPort(v, x, live, i);
  }

  /** The ports of `x'` are those of `x` numbered `at`, in order. */
  ghost predicate PortsFrom(x: Mux, x': Mux, at: seq<nat>) {
    && |at| == x'.Ports() && x'.y == x.y
    && (forall i :: 0 <= i < |at| ==> at[i] < x.Ports() && x'.Data(i) == x.Data(at[i]))
    && (forall i, j :: 0 <= i < j < |at| ==> at[i] < at[j])
    && (forall i :: 0 <= i < |x'.cases| ==> at[i] < |x.cases| && x'.cases[i] == x.cases[at[i]])
  }

  lemma AllPorts(x: Mux)
    ensures PortsFrom(x, x, seq(x.Ports(), i requires 0 <= i => i))
  {
  }

  lemma ShrunkPorts(x: Mux, at: seq<nat>)
    requires |at| > 0 && forall i :: 0 <= i < |at| ==> at[i] < x.Ports()
    requires forall i, j :: 0 <= i < j < |at| ==> at[i] < at[j]
    ensures forall i :: 0 <= i < |at| - 1 ==> at[i] < |x.cases|
    ensures PortsFrom(x, Shrink(x, at), at)
  {
    forall i | 0 <= i < |at| - 1
      ensures at[i] < |x.cases|
    {
      assert at[i] < at[|at| - 1];
    }
  }

  function PortsOf(c: Cell): nat {
    if c.Kept? then c.mux.Ports() else 0
  }

  function Disabled(enabled: seq<bool>, n: nat): nat
    requires n <= |enabled|
  {
    if n == 0 then 0 else Disabled(enabled, n - 1) + if enabled[n - 1] then 0 else 1
  }

  /** Rebuilding one multiplexer, as the source does it: collect live ports, then copy them. */
  method RebuildMux(x: Mux, enabled: seq<bool>) returns (c: Cell, removed: nat)
    requires |enabled| == x.Ports()
    ensures c == Rebuild(x, enabled) && removed == Disabled(enabled, x.Ports())
    ensures PortsOf(c) + removed <= x.Ports()
    ensures removed == 0 ==> c == Kept(x)
  {
    var live := [];
    removed := 0;
    for p := 0 to x.Ports()
      invariant live == LivePorts(enabled, p) && |live| + removed == p && removed == Disabled(enabled, p)
    {
      if enabled[p] {
        live := live + [p];
      } else {
        removed := removed + 1;
      }
    }
    if |live| == x.Ports() {
      return Kept(x), removed;
    }
    if live == [] {
      return Removed, removed;
    }
    if |live| == 1 {
      return Connected(x.y, x.Data(live[0])), removed;
    }
    c := CopyPorts(x, live);
  }

  /** Copies the chosen ports in order; the last of them becomes the default. */
  method CopyPorts(x: Mux, live: seq<nat>) returns (c: Cell)
    requires |live| > 1
    requires forall i, j :: 0 <= i < j < |live| ==> live[i] < live[j]
    requires forall i :: 0 <= i < |live| ==> live[i] < x.Ports()
    ensures forall i :: 0 <= i < |live| - 1 ==> live[i] < |x.cases|
    ensures c == Kept(Shrink(x, live))
  {
    var cases := [];
    for i := 0 to |live| - 1
      invariant |cases| == i && forall j :: 0 <= j < i ==> live[j] < |x.cases| && cases[j] == x.cases[live[j]]
    {
      assert live[i] < live[|live| - 1];
      cases := cases + [x.cases[live[i]]];
    }
    c := Kept(Mux(cases, x.Data(live[|live| - 1]), x.y));
    assert c.mux.cases == Shrink(x, live).cases;
  }

  // ----- the whole module -----

  /** A cell does its job; more than one active select leaves its output open. */
  ghost predicate CellHolds(v: Valuation, c: Cell) {
    match c
    case Kept(x) => AtMostOne(v, x) ==> MuxHolds(v, x)
    case Connected(y, data) => |y| == |data| && forall j :: 0 <= j < |y| ==> v(y[j]) == SigVal(v, data[j])
    case Removed => true
  }

  ghost predicate CellsHold(v: Valuation, cells: seq<Cell>) {
    forall m :: 0 <= m < |cells| ==> CellHolds(v, cells[m])
  }

  ghost predicate MuxesHold(mod: Module, v: Valuation) {
    forall m :: 0 <= m < |mod.muxes| ==> MuxHolds(v, mod.muxes[m])
  }

  ghost predicate CtrlsAgree(v: Valuation, w: Valuation, x: Mux) {
    forall i :: 0 <= i < |x.cases| ==> SigVal(v, x.cases[i].ctrl) == SigVal(w, x.cases[i].ctrl)
  }

  lemma SameCtrlsSamePort(v: Valuation, w: Valuation, x: Mux)
    requires CtrlsAgree(v, w, x)
    ensures AtMostOne(v, x) <==> AtMostOne(w, x)
    ensures Selected(v, x) == Selected(w, x)
  {
    SameCtrlsSamePortFrom(v, w, x, 0);
  }

  lemma {:induction false} SameCtrlsSamePortFrom(v: Valuation, w: Valuation, x: Mux, k: nat)
    requires CtrlsAgree(v, w, x) && k <= |x.cases|
    ensures SelectedFrom(v, x, k) == SelectedFrom(w, x, k)
    decreases |x.cases| - k
  {
    if k < |x.cases| {
      SameCtrlsSamePortFrom(v, w, x, k + 1);
    }
  }

  /** Cells that pass on what the multiplexers they replace do, whenever their selects have values that matter. */
  ghost predicate Faithful(mod: Module, cells: seq<Cell>) {
    && |cells| == |mod.muxes|
    && forall v: Valuation, m: nat :: Convention(mod, v) && Needed(mod, v, m) ==>
         m < |mod.muxes| && FaithfulAt(v, mod.muxes[m], cells[m])
  }

  ghost predicate FaithfulAt(v: Valuation, x: Mux, c: Cell) {
    forall w: Valuation :: CtrlsAgree(v, w, x) ==> SamePort(w, x, c)
  }

  ghost predicate RebuiltFrom(mod: Module, enabled: seq<seq<bool>>, cells: seq<Cell>) {
    && |cells| == |mod.muxes| == |enabled|
    && forall m :: 0 <= m < |cells| ==>
         |enabled[m]| == mod.muxes[m].Ports() && cells[m] == Rebuild(mod.muxes[m], enabled[m])
  }

  /** Rebuilding with the ports that a finished analysis enabled is faithful. */
  lemma AnalysisIsFaithful(mod: Module, log: set<Entry>, enabled: seq<seq<bool>>, root: seq<bool>, cells: seq<Cell>)
    requires Analyzed(mod, log, enabled, root) && RebuiltFrom(mod, enabled, cells)
    ensures Faithful(mod, cells)
  {
    hide Analyzed, Needed, SamePort, Rebuild, AtMostOne, Selected;
    forall v: Valuation, m: nat | Convention(mod, v) && Needed(mod, v, m)
      ensures m < |mod.muxes| && FaithfulAt(v, mod.muxes[m], cells[m])
    {
      SelectedIsEnabled(mod, log, enabled, root, v, m);
      var x := mod.muxes[m];
      forall w: Valuation | CtrlsAgree(v, w, x)
        ensures SamePort(w, x, cells[m])
      {
        SameCtrlsSamePort(v, w, x);
        RebuildKeepsPort(w, x, enabled[m]);
      }
    }
  }

  predicate Driven(mod: Module, b: nat) {
    exists m :: 0 <= m < |mod.muxes| && b in mod.muxes[m].y
  }

  /** `rank` falls from the output of each multiplexer to its selects and data. */
  ghost predicate Acyclic(mod: Module, rank: nat -> nat) {
    forall m, y :: 0 <= m < |mod.muxes| && y in mod.muxes[m].y ==> InputsBelow(mod.muxes[m], rank, y)
  }

  ghost predicate InputsBelow(x: Mux, rank: nat -> nat, y: nat) {
    && (forall i :: 0 <= i < |x.cases| && x.cases[i].ctrl.Wire? ==> rank(x.cases[i].ctrl.bit) < rank(y))
    && forall p, j :: 0 <= p < x.Ports() && 0 <= j < |x.Data(p)| && x.Data(p)[j].Wire? ==>
         rank(x.Data(p)[j].bit) < rank(y)
  }

  /** The multiplexer has the bit on one of its inputs. */
  ghost predicate Reads(x: Mux, b: nat) {
    IsSelect(x, b) || exists p: nat :: p < x.Ports() && Wire(b) in x.Data(p)
  }

  ghost predicate Mentioned(mod: Module, b: nat) {
    b in mod.seen || exists m :: 0 <= m < |mod.muxes| && Reads(mod.muxes[m], b)
  }

  ghost predicate AgreeBelow(mod: Module, rank: nat -> nat, v: Valuation, w: Valuation, r: nat) {
    forall c :: c in mod.seen && rank(c) < r ==> v(c) == w(c)
  }

  /** A bit that comes from the rest of the circuit. */
  ghost predicate Outside(mod: Module, b: nat) {
    Mentioned(mod, b) && !Driven(mod, b)
  }

  /** The rest of the circuit computes its bits from bits it sees. */
  ghost predicate SameSurroundings(mod: Module, rank: nat -> nat, v: Valuation, w: Valuation) {
    forall b :: Outside(mod, b) && AgreeBelow(mod, rank, v, w, rank(b)) ==> v(b) == w(b)
  }

  /** What must agree at a bit for its value to be the same after the rebuild. */
  ghost predicate Matters(mod: Module, v: Valuation, b: nat) {
    Outside(mod, b) || exists m :: 0 <= m < |mod.muxes| && b in mod.muxes[m].y && Needed(mod, v, m)
  }

  lemma SeenMatters(mod: Module, v: Valuation, c: nat)
    requires Seen(mod, c)
    ensures Matters(mod, v, c)
  {
    if Driven(mod, c) {
      var m :| 0 <= m < |mod.muxes| && c in mod.muxes[m].y;
      ObservedIsNeeded(mod, v, m);
    } else if c !in mod.seen {
      var m :| 0 <= m < |mod.muxes| && IsSelect(mod.muxes[m], c);
      assert Reads(mod.muxes[m], c);
    }
  }

  /** A rebuilt cell gives its output bits the values of the port that `x` selects. */
  lemma CellGivesPort(w: Valuation, x: Mux, c: Cell, j: nat)
    requires SamePort(w, x, c) && CellHolds(w, c) && j < |x.y|
    ensures j < |x.Data(Selected(w, x))| && w(x.y[j]) == SigVal(w, x.Data(Selected(w, x))[j])
  {
  }

  ghost predicate KeptBelow(mod: Module, rank: nat -> nat, v: Valuation, w: Valuation, r: nat) {
    forall c: nat :: Matters(mod, v, c) && rank(c) < r ==> v(c) == w(c)
  }

  lemma UndrivenKept(mod: Module, rank: nat -> nat, v: Valuation, w: Valuation, b: nat)
    requires SameSurroundings(mod, rank, v, w) && KeptBelow(mod, rank, v, w, rank(b)) && Outside(mod, b)
    ensures v(b) == w(b)
  {
    hide Matters, Outside;
    forall c | c in mod.seen && rank(c) < rank(b)
      ensures v(c) == w(c)
    {
      SeenMatters(mod, v, c);
    }
    assert AgreeBelow(mod, rank, v, w, rank(b));
  }

  lemma CtrlsKept(mod: Module, rank: nat -> nat, v: Valuation, w: Valuation, m: nat, b: nat)
    requires m < |mod.muxes| && InputsBelow(mod.muxes[m], rank, b) && KeptBelow(mod, rank, v, w, rank(b))
    ensures CtrlsAgree(v, w, mod.muxes[m])
  {
    hide Matters;
    var x := mod.muxes[m];
    forall i | 0 <= i < |x.cases|
      ensures SigVal(v, x.cases[i].ctrl) == SigVal(w, x.cases[i].ctrl)
    {
      if x.cases[i].ctrl.Wire? {
        SelectMatters(mod, v, m, i);
      }
    }
  }

  lemma DrivenKept(mod: Module, c: Cell, rank: nat -> nat, v: Valuation, w: Valuation, m: nat, j: nat)
    requires m < |mod.muxes| && j < |mod.muxes[m].y| && Needed(mod, v, m)
    requires FaithfulAt(v, mod.muxes[m], c) && CellHolds(w, c) && MuxHolds(v, mod.muxes[m])
    requires InputsBelow(mod.muxes[m], rank, mod.muxes[m].y[j]) && KeptBelow(mod, rank, v, w, rank(mod.muxes[m].y[j]))
    ensures v(mod.muxes[m].y[j]) == w(mod.muxes[m].y[j])
  {
    hide Matters, SamePort, CellHolds, Selected, Needed, AtMostOne;
    var x := mod.muxes[m];
    CtrlsKept(mod, rank, v, w, m, x.y[j]);
    SameCtrlsSamePort(v, w, x);
    assert SamePort(w, x, c);
    CellGivesPort(w, x, c, j);
    PortBitMatters(mod, v, m, j);
    var d := x.Data(Selected(v, x))[j];
    assert v(x.y[j]) == SigVal(v, d);
    assert d.Wire? ==> rank(d.bit) < rank(x.y[j]) && Matters(mod, v, d.bit);
  }

  /** A bit that matters has the same value before and after. */
  lemma {:induction false} BitKept(mod: Module, cells: seq<Cell>, rank: nat -> nat, v: Valuation, w: Valuation, b: nat)
    requires Faithful(mod, cells) && Acyclic(mod, rank)
    requires Convention(mod, v) && MuxesHold(mod, v) && CellsHold(w, cells) && SameSurroundings(mod, rank, v, w)
    requires Matters(mod, v, b)
    ensures v(b) == w(b)
    decreases rank(b)
  {
    hide FaithfulAt, CellHolds, MuxHolds, Needed, Convention, SameSurroundings, InputsBelow, Outside;
    forall c: nat | Matters(mod, v, c) && rank(c) < rank(b)
      ensures v(c) == w(c)
    {
      BitKept(mod, cells, rank, v, w, c);
    }
    if Outside(mod, b) {
      UndrivenKept(mod, rank, v, w, b);
    } else {
      var m: nat :| m < |mod.muxes| && b in mod.muxes[m].y && Needed(mod, v, m);
      var j: nat :| j < |mod.muxes[m].y| && mod.muxes[m].y[j] == b;
      DrivenKept(mod, cells[m], rank, v, w, m, j);
    }
  }

  lemma SelectMatters(mod: Module, v: Valuation, m: nat, i: nat)
    requires m < |mod.muxes| && i < |mod.muxes[m].cases| && mod.muxes[m].cases[i].ctrl.Wire?
    ensures Matters(mod, v, mod.muxes[m].cases[i].ctrl.bit)
  {
    assert IsSelect(mod.muxes[m], mod.muxes[m].cases[i].ctrl.bit);
    SeenMatters(mod, v, mod.muxes[m].cases[i].ctrl.bit);
  }

  lemma PortBitMatters(mod: Module, v: Valuation, m: nat, j: nat)
    requires m < |mod.muxes| && Needed(mod, v, m)
    requires j < |mod.muxes[m].Data(Selected(v, mod.muxes[m]))|
    ensures var d := mod.muxes[m].Data(Selected(v, mod.muxes[m]))[j]; d.Wire? ==> Matters(mod, v, d.bit)
  {
    var s := Selected(v, mod.muxes[m]);
    var d := mod.muxes[m].Data(s)[j];
    if d.Wire? && Driven(mod, d.bit) {
      var k: nat :| k < |mod.muxes| && d.bit in mod.muxes[k].y;
      assert Feeds(mod, k, m, s);
      NeededNext(mod, v, m, k);
    } else if d.Wire? {
      assert Reads(mod.muxes[m], d.bit);
    }
  }

  /** Every bit that something looks at keeps its value, in every valuation of an acyclic design. */
  lemma SeenBitsKept(mod: Module, cells: seq<Cell>, rank: nat -> nat, v: Valuation, w: Valuation)
    requires Faithful(mod, cells) && Acyclic(mod, rank)
    requires Convention(mod, v) && MuxesHold(mod, v) && CellsHold(w, cells) && SameSurroundings(mod, rank, v, w)
    ensures forall b: nat :: Seen(mod, b) || Outside(mod, b) ==> v(b) == w(b)
  {
    hide Faithful, Acyclic, Convention, MuxesHold, CellsHold, SameSurroundings, Outside;
    forall b: nat | Seen(mod, b) || Outside(mod, b)
      ensures v(b) == w(b)
    {
      if Seen(mod, b) {
        SeenMatters(mod, v, b);
      }
      BitKept(mod, cells, rank, v, w, b);
    }
  }

  // ----- the pass -----

  function TotalPorts(muxes: seq<Mux>): nat {
    if muxes == [] then 0 else TotalPorts(muxes[..|muxes| - 1]) + muxes[|muxes| - 1].Ports()
  }

  function TotalKept(cells: seq<Cell>): nat {
    if cells == [] then 0 else TotalKept(cells[..|cells| - 1]) + PortsOf(cells[|cells| - 1])
  }

  ghost predicate Untouched(mod: Module, cells: seq<Cell>) {
    |cells| == |mod.muxes| && forall m :: 0 <= m < |cells| ==> cells[m] == Kept(mod.muxes[m])
  }

  lemma UntouchedIsFaithful(mod: Module, cells: seq<Cell>)
    requires Untouched(mod, cells)
    ensures Faithful(mod, cells)
  {
    forall v: Valuation, m: nat | Convention(mod, v) && Needed(mod, v, m)
      ensures m < |mod.muxes| && FaithfulAt(v, mod.muxes[m], cells[m])
    {
      var path :| SelectsAlong(mod, v, path) && path[|path| - 1] == m;
      var x := mod.muxes[m];
      assert AtMostOne(v, x);
      forall w: Valuation | CtrlsAgree(v, w, x)
        ensures SamePort(w, x, cells[m])
      {
        SameCtrlsSamePort(v, w, x);
      }
    }
  }

  lemma TotalsPush(cells: seq<Cell>, c: Cell, muxes: seq<Mux>, m: nat)
    requires m < |muxes|
    ensures TotalKept(cells + [c]) == TotalKept(cells) + PortsOf(c)
    ensures TotalPorts(muxes[..m + 1]) == TotalPorts(muxes[..m]) + muxes[m].Ports()
  {
    assert (cells + [c])[..|cells|] == cells && muxes[..m + 1][..m] == muxes[..m];
  }

  function AllDisabled(enabled: seq<seq<bool>>, n: nat): nat
    requires n <= |enabled|
  {
    if n == 0 then 0 else AllDisabled(enabled, n - 1) + Disabled(enabled[n - 1], |enabled[n - 1]|)
  }

  /** Rebuilds every multiplexer. */
  method RebuildAll(mod: Module, enabled: seq<seq<bool>>) returns (cells: seq<Cell>, removed: nat)
    requires |enabled| == |mod.muxes|
    requires forall m :: 0 <= m < |enabled| ==> |enabled[m]| == mod.muxes[m].Ports()
    ensures RebuiltFrom(mod, enabled, cells) && removed == AllDisabled(enabled, |enabled|)
    ensures TotalKept(cells) + removed <= TotalPorts(mod.muxes)
    ensures removed == 0 ==> Untouched(mod, cells)
  {
    hide Rebuild, TotalKept, TotalPorts, PortsOf, Disabled;
    cells, removed := [], 0;
    assert TotalKept([]) == 0 && TotalPorts(mod.muxes[..0]) == 0 by { EmptyTotals(mod.muxes); }
    for m := 0 to |mod.muxes|
      invariant |cells| == m && forall i :: 0 <= i < m ==> cells[i] == Rebuild(mod.muxes[i], enabled[i])
      invariant removed == 0 ==> forall i :: 0 <= i < m ==> cells[i] == Kept(mod.muxes[i])
      invariant TotalKept(cells) + removed <= TotalPorts(mod.muxes[..m]) && removed == AllDisabled(enabled, m)
    {
      var c, dead := RebuildMux(mod.muxes[m], enabled[m]);
      TotalsPush(cells, c, mod.muxes, m);
      cells, removed := cells + [c], removed + dead;
    }
    assert mod.muxes[..|mod.muxes|] == mod.muxes;
  }

  lemma EmptyTotals(muxes: seq<Mux>)
    ensures TotalKept([]) == 0 && TotalPorts(muxes[..0]) == 0
  {
  }

  function AllKept(muxes: seq<Mux>): seq<Cell> {
    seq(|muxes|, i requires 0 <= i < |muxes| => Kept(muxes[i]))
  }

  lemma {:induction false} AllKeptPorts(muxes: seq<Mux>)
    ensures TotalKept(AllKept(muxes)) == TotalPorts(muxes)
  {
    if muxes != [] {
      var last := |muxes| - 1;
      AllKeptPorts(muxes[..last]);
      assert AllKept(muxes)[..last] == AllKept(muxes[..last]);
    }
  }

  /** Every cell is the original or what is left of it. */
  ghost predicate Trimmed(mod: Module, cells: seq<Cell>) {
    && |cells| == |mod.muxes|
    && forall m :: 0 <= m < |cells| ==> TrimmedCell(mod.muxes[m], cells[m])
  }

  ghost predicate TrimmedCell(x: Mux, c: Cell) {
    c == Kept(x) || exists enabled: seq<bool> :: |enabled| == x.Ports() && c == Rebuild(x, enabled)
  }

  lemma RebuiltIsTrimmed(mod: Module, enabled: seq<seq<bool>>, cells: seq<Cell>)
    requires RebuiltFrom(mod, enabled, cells)
    ensures Trimmed(mod, cells)
  {
    hide Rebuild;
    forall m | 0 <= m < |cells|
      ensures TrimmedCell(mod.muxes[m], cells[m])
    {
      assert |enabled[m]| == mod.muxes[m].Ports() && cells[m] == Rebuild(mod.muxes[m], enabled[m]);
    }
  }

  // ----- which ports are left -----

  /** The cell consists of the ports numbered `at`, and of no others. */
  ghost predicate ExactlyPorts(x: Mux, c: Cell, at: seq<nat>) {
    match c
    case Removed => at == []
    case Connected(y, data) => |at| == 1 < x.Ports() && at[0] < x.Ports() && y == x.y && data == x.Data(at[0])
    case Kept(x') => PortsFrom(x, x', at) && (|at| > 1 || |at| == x.Ports())
  }

  lemma RebuiltPorts(x: Mux, enabled: seq<bool>)
    requires |enabled| == x.Ports()
    ensures ExactlyPorts(x, Rebuild(x, enabled), LivePorts(enabled, |enabled|))
  {
    hide PortsFrom;
    var live := LivePorts(enabled, |enabled|);
    if |live| == x.Ports() {
      AllLive(enabled, |enabled|);
      AllPorts(x);
      assert live == seq(x.Ports(), i requires 0 <= i => i);
    } else if |live| > 1 {
      ShrunkPorts(x, live);
    }
  }

  lemma {:induction false} AllLive(enabled: seq<bool>, n: nat)
    requires n <= |enabled| && |LivePorts(enabled, n)| == n
    ensures forall i :: 0 <= i < n ==> LivePorts(enabled, n)[i] == i
  {
    if n > 0 {
      AllLive(enabled, n - 1);
    }
  }

  /**
   A record of evaluations that starts from the roots, among them every observed multiplexer, follows
   only what the contexts let through, and leaves out nothing that they do.
   */
  ghost predicate Examined(mod: Module, begun: seq<Entry>, root: seq<bool>) {
    && |root| == |mod.muxes|
    && AllGrounded(mod, begun, root)
    && (forall m :: 0 <= m < |root| && Observed(mod, m) ==> root[m])
    && (forall m :: 0 <= m < |root| && root[m] ==> IsRoot(mod, m) && Entry(m, {}, {}) in begun)
    && (forall e :: e in begun ==> InputsExamined(mod, begun, root, e))
  }

  ghost function EntrySet(begun: seq<Entry>): set<Entry> {
    set e | e in begun
  }

  ghost predicate InputsExamined(mod: Module, begun: seq<Entry>, root: seq<bool>, e: Entry) {
    && e.mux < |mod.muxes|
    && forall p :: 0 <= p < mod.muxes[e.mux].Ports() && Evaluates(mod.muxes[e.mux], e.act, e.inact, p) ==>
         InputsServed(mod, EntrySet(begun), root, e.mux, p, e.act, e.inact)
  }

  /** Exactly the ports that some evaluation looked at are left. */
  ghost predicate LeavesWarranted(mod: Module, begun: seq<Entry>, cells: seq<Cell>) {
    |cells| == |mod.muxes| && forall m :: 0 <= m < |cells| ==> PortsWarranted(mod, begun, m, cells[m])
  }

  ghost predicate PortsWarranted(mod: Module, begun: seq<Entry>, m: nat, c: Cell)
    requires m < |mod.muxes|
  {
    exists at :: ExactlyPorts(mod.muxes[m], c, at) && AreWarranted(mod, begun, m, at)
  }

  ghost predicate AreWarranted(mod: Module, begun: seq<Entry>, m: nat, at: seq<nat>)
    requires m < |mod.muxes|
  {
    forall p: nat :: p in at <==> p < mod.muxes[m].Ports() && Warranted(mod, begun, m, p)
  }

  ghost function DeadPorts(mod: Module, begun: seq<Entry>, m: nat): set<nat>
    requires m < |mod.muxes|
  {
    set p: nat | p < mod.muxes[m].Ports() && !Warranted(mod, begun, m, p)
  }

  /** How many ports of the first `n` multiplexers no evaluation looked at. */
  ghost function DeadCount(mod: Module, begun: seq<Entry>, n: nat): nat
    requires n <= |mod.muxes|
  {
    if n == 0 then 0 else DeadCount(mod, begun, n - 1) + |DeadPorts(mod, begun, n - 1)|
  }

  /** An enabled port is one that some evaluation looked at. */
  ghost predicate EnabledIsWarranted(mod: Module, begun: seq<Entry>, enabled: seq<seq<bool>>) {
    && |enabled| == |mod.muxes|
    && forall m :: 0 <= m < |enabled| ==>
         |enabled[m]| == mod.muxes[m].Ports() && EnabledWarranted(mod, begun, m, enabled[m])
  }

  ghost predicate EnabledWarranted(mod: Module, begun: seq<Entry>, m: nat, enabled: seq<bool>) {
    forall p :: 0 <= p < |enabled| ==> (enabled[p] <==> Warranted(mod, begun, m, p))
  }

  lemma {:induction false} DisabledAreDead(mod: Module, begun: seq<Entry>, m: nat, enabled: seq<bool>, n: nat)
    requires m < |mod.muxes| && EnabledWarranted(mod, begun, m, enabled) && n <= |enabled|
    ensures Disabled(enabled, n) == |set p: nat | p < n && !Warranted(mod, begun, m, p)|
  {
    hide Warranted;
    var dead := set p: nat | p < n && !Warranted(mod, begun, m, p);
    if n == 0 {
      assert dead == {};
    } else {
      DisabledAreDead(mod, begun, m, enabled, n - 1);
      var before := set p: nat | p < n - 1 && !Warranted(mod, begun, m, p);
      assert dead == if enabled[n - 1] then before else before + {n - 1};
    }
  }

  lemma {:induction false} CountsDead(mod: Module, begun: seq<Entry>, enabled: seq<seq<bool>>, n: nat)
    requires EnabledIsWarranted(mod, begun, enabled) && n <= |enabled|
    ensures AllDisabled(enabled, n) == DeadCount(mod, begun, n)
  {
    hide Warranted, EnabledWarranted, Disabled;
    if n > 0 {
      CountsDead(mod, begun, enabled, n - 1);
      DisabledAreDead(mod, begun, n - 1, enabled[n - 1], |enabled[n - 1]|);
    }
  }

  lemma RebuiltIsTight(mod: Module, begun: seq<Entry>, enabled: seq<seq<bool>>, cells: seq<Cell>)
    requires EnabledIsWarranted(mod, begun, enabled) && RebuiltFrom(mod, enabled, cells)
    ensures LeavesWarranted(mod, begun, cells)
  {
    hide Warranted, Rebuild, ExactlyPorts;
    forall m | 0 <= m < |cells|
      ensures PortsWarranted(mod, begun, m, cells[m])
    {
      RebuiltPorts(mod.muxes[m], enabled[m]);
      assert EnabledWarranted(mod, begun, m, enabled[m]);
      assert AreWarranted(mod, begun, m, LivePorts(enabled[m], |enabled[m]|));
    }
  }

  /** What a finished analysis says about its evaluations and about the ports it enabled. */
  lemma CompleteIsExamined(mod: Module, log: set<Entry>, begun: seq<Entry>, enabled: seq<seq<bool>>, root: seq<bool>)
    requires Shaped(mod, enabled, root) && AllGrounded(mod, begun, root) && Precise(mod, begun, enabled)
    requires AllClosed(mod, log, log, enabled, root) && forall e :: e in begun <==> e in log
    requires forall m :: 0 <= m < |mod.muxes| && (root[m] || Observed(mod, m)) ==> Entry(m, {}, {}) in log
    requires forall m :: 0 <= m < |mod.muxes| && Observed(mod, m) ==> root[m]
    requires forall m :: 0 <= m < |mod.muxes| && root[m] ==> IsRoot(mod, m)
    ensures Examined(mod, begun, root) && EnabledIsWarranted(mod, begun, enabled)
  {
    hide AllGrounded, Observed, IsRoot, Evaluates, InputsServed;
    assert log == EntrySet(begun);
    forall e | e in begun
      ensures InputsExamined(mod, begun, root, e)
    {
      assert EntryClosed(mod, log, enabled, root, e);
    }
    forall m | 0 <= m < |enabled|
      ensures EnabledWarranted(mod, begun, m, enabled[m])
    {
      forall p | 0 <= p < |enabled[m]|
        ensures enabled[m][p] <==> Warranted(mod, begun, m, p)
      {
        if Warranted(mod, begun, m, p) {
          var e :| e in begun && e.mux == m && Evaluates(mod.muxes[m], e.act, e.inact, p);
          assert EntryClosed(mod, log, enabled, root, e);
        }
      }
    }
  }

  /** Every port that is left is let through by a path from a root. */
  lemma SurvivorsAreLetThrough(mod: Module, begun: seq<Entry>, root: seq<bool>, cells: seq<Cell>, m: nat)
    returns (at: seq<nat>)
    requires Examined(mod, begun, root) && LeavesWarranted(mod, begun, cells) && m < |cells|
    ensures ExactlyPorts(mod.muxes[m], cells[m], at) && forall p :: p in at ==> LetThrough(mod, root, m, p)
  {
    hide AllGrounded, Warranted, LetThrough, ExactlyPorts, InputsExamined, Observed, IsRoot;
    assert PortsWarranted(mod, begun, m, cells[m]);
    at :| ExactlyPorts(mod.muxes[m], cells[m], at) && AreWarranted(mod, begun, m, at);
    forall p | p in at
      ensures LetThrough(mod, root, m, p)
    {
      WarrantedHasPath(mod, begun, root, m, p);
    }
  }

  // ----- one run -----

  /**
   One run of the optimiser over a module, with `budget` evaluations before it gives up. A run that is
   done removes exactly the ports that no evaluation looked at.
   */
  method RunPass(mod: Module, budget: nat)
    returns (cells: seq<Cell>, removed: nat, done: bool, ghost begun: seq<Entry>, ghost root: seq<bool>)
    requires WellFormed(mod) && budget > 0
    ensures Faithful(mod, cells) && Trimmed(mod, cells)
    ensures TotalKept(cells) + removed <= TotalPorts(mod.muxes)
    ensures removed == 0 ==> Untouched(mod, cells)
    ensures budget > EvalBound(mod) ==> done
    ensures !done ==> Untouched(mod, cells) && removed == 0
    ensures done ==> Examined(mod, begun, root) && LeavesWarranted(mod, begun, cells)
    ensures done ==> removed == DeadCount(mod, begun, |mod.muxes|)
  {
    hide Faithful, TotalKept, TotalPorts, AllClosed, Observed, IsRoot, AllGrounded, Precise, EvalBound, Examined,
         LeavesWarranted, DeadCount, AllDisabled;
    var worker := new Worker(mod, budget);
    done := worker.Analyze();
    begun, root := worker.begun, worker.rootEnable;
    if done {
      cells, removed := RebuildAll(mod, worker.enabled);
      RebuiltIsTrimmed(mod, worker.enabled, cells);
      AnalysisIsFaithful(mod, worker.log, worker.enabled, worker.rootEnable, cells);
      worker.RootsObserved();
      CompleteIsExamined(mod, worker.log, begun, worker.enabled, root);
      RebuiltIsTight(mod, begun, worker.enabled, cells);
      CountsDead(mod, begun, worker.enabled, |worker.enabled|);
    } else {
      cells, removed := AllKept(mod.muxes), 0;
      AllKeptPorts(mod.muxes);
      UntouchedIsFaithful(mod, cells);
    }
  }

  // ----- an example -----

  /** One multiplexer whose first select is the constant one, with its output observed. */
  const CONSTANT_SELECT := Module([Mux([Case(Const(true), [Wire(0)])], [Wire(1)], [2])], 3, {2})

  /** The port behind the constant is left as a connection, and the default is dead. */
  lemma ConstantSelect(begun: seq<Entry>, root: seq<bool>, cells: seq<Cell>)
    requires Examined(CONSTANT_SELECT, begun, root) && LeavesWarranted(CONSTANT_SELECT, begun, cells)
    ensures cells == [Connected([2], [Wire(0)])] && DeadCount(CONSTANT_SELECT, begun, 1) == 1
  {
    hide Examined, Warranted, ExactlyPorts;
    forall p: nat
      ensures Warranted(CONSTANT_SELECT, begun, 0, p) <==> p == 0
    {
      ConstantWarranted(begun, root, p);
    }
    assert DeadCount(CONSTANT_SELECT, begun, 0) == 0;
    assert CONSTANT_SELECT.muxes[0].Ports() == 2;
    var dead := DeadPorts(CONSTANT_SELECT, begun, 0);
    assert forall p: nat :: p in dead <==> p == 1;
    assert dead == {1};
    assert PortsWarranted(CONSTANT_SELECT, begun, 0, cells[0]);
    OnlyWarranted(CONSTANT_SELECT, begun, 0, cells[0], 0);
  }

  lemma ConstantWarranted(begun: seq<Entry>, root: seq<bool>, p: nat)
    requires Examined(CONSTANT_SELECT, begun, root)
    ensures Warranted(CONSTANT_SELECT, begun, 0, p) <==> p == 0
  {
    var x := CONSTANT_SELECT.muxes[0];
    assert x.y[0] == 2 && Seen(CONSTANT_SELECT, 2);
    assert Observed(CONSTANT_SELECT, 0);
    assert ConstActive(x, 0);
    assert FirstConst(x, 0) && !NoConst(x);
    assert Entry(0, {}, {}) in begun;
  }

  lemma AllSame(at: seq<nat>, q: nat)
    requires forall p: nat :: p in at <==> p == q
    ensures |at| > 0 && at[0] == q && (|at| <= 1 || !(at[0] < at[1]))
  {
    assert q in at;
    assert forall i :: 0 <= i < |at| ==> at[i] in at;
  }

  /** A cell of which one port is left is a connection. */
  lemma OnlyPort(x: Mux, c: Cell, at: seq<nat>, q: nat)
    requires ExactlyPorts(x, c, at) && x.Ports() > 1 && q < x.Ports() && forall p: nat :: p in at <==> p == q
    ensures c == Connected(x.y, x.Data(q))
  {
    AllSame(at, q);
  }

  lemma OnlyWarranted(mod: Module, begun: seq<Entry>, m: nat, c: Cell, q: nat)
    requires m < |mod.muxes| && PortsWarranted(mod, begun, m, c) && 1 < mod.muxes[m].Ports() && q < mod.muxes[m].Ports()
    requires forall p: nat :: p < mod.muxes[m].Ports() ==> (Warranted(mod, begun, m, p) <==> p == q)
    ensures c == Connected(mod.muxes[m].y, mod.muxes[m].Data(q))
  {
    hide Warranted, ExactlyPorts;
    var at :| ExactlyPorts(mod.muxes[m], c, at) && AreWarranted(mod, begun, m, at);
    OnlyPort(mod.muxes[m], c, at, q);
  }

  /** Three multiplexers behind the ports of a fourth, with the same two selects. */
  const SHARED_SELECTS := Module(
    [ Mux([Case(Wire(0), [Wire(10)]), Case(Wire(1), [Wire(11)])], [Wire(12)], [20]),
      Mux([Case(Wire(0), [Wire(2)])], [Wire(3)], [10]),
      Mux([Case(Wire(0), [Wire(4)])], [Wire(5)], [11]),
      Mux([Case(Wire(1), [Wire(6)])], [Wire(7)], [12]) ],
    21, {20})

  ghost predicate SharedContext(e: Entry) {
    || e == Entry(0, {}, {})
    || e == Entry(1, {0}, {1})
    || e == Entry(2, {1}, {0})
    || e == Entry(3, {}, {0, 1})
  }

  lemma SharedInputs()
    ensures forall p: nat :: p < 3 ==> forall k :: k in InputMuxes(SHARED_SELECTS, 0, p) <==> k == p + 1
    ensures forall m: nat, p: nat :: 0 < m < 4 && p < 2 ==> forall k :: k !in InputMuxes(SHARED_SELECTS, m, p)
  {
    forall p: nat, k: nat | p < 3 && k < 4
      ensures Feeds(SHARED_SELECTS, k, 0, p) <==> k == p + 1
    {
      var data := SHARED_SELECTS.muxes[0].Data(p);
      assert |data| == 1 && data[0] == Wire(10 + p);
      assert k == p + 1 ==> data[0].Wire? && data[0].bit in SHARED_SELECTS.muxes[k].y;
    }
    forall m: nat, p: nat, k: nat | 0 < m < 4 && p < 2 && k < 4
      ensures !Feeds(SHARED_SELECTS, k, m, p)
    {
      var data := SHARED_SELECTS.muxes[m].Data(p);
      assert |data| == 1 && data[0].Wire? && data[0].bit < 10;
    }
  }

  lemma SharedRoots(m: nat)
    requires IsRoot(SHARED_SELECTS, m)
    ensures m == 0
  {
    SharedInputs();
    if m > 0 {
      assert |SHARED_SELECTS.muxes[m].y| == 1 && 10 <= SHARED_SELECTS.muxes[m].y[0] <= 12;
      assert forall k :: 0 <= k < 4 ==> !IsSelect(SHARED_SELECTS.muxes[k], SHARED_SELECTS.muxes[m].y[0]);
      assert !Observed(SHARED_SELECTS, m);
      var users := Users(SHARED_SELECTS, m);
      forall k | k in users
        ensures k == 0
      {
        var p :| 0 <= p < SHARED_SELECTS.muxes[k].Ports() && Feeds(SHARED_SELECTS, m, k, p);
        assert m in InputMuxes(SHARED_SELECTS, k, p);
      }
      assert users <= {0};
      SubsetSize(users, {0});
    }
  }

  /** Behind each port the selects of the others are known. */
  lemma {:induction false} SharedContexts(begun: seq<Entry>, root: seq<bool>, i: nat)
    requires Examined(SHARED_SELECTS, begun, root) && i < |begun|
    ensures SharedContext(begun[i])
    decreases i
  {
    hide Evaluates, InputsExamined, Observed, IsRoot, InputMuxes, LeadsTo, ActOf, InactOf;
    assert Grounded(SHARED_SELECTS, begun[..i], root, begun[i]);
    if IsRootEntry(root, begun[i]) {
      SharedRoots(begun[i].mux);
    } else {
      var d, p :| d in begun[..i] && LeadsTo(SHARED_SELECTS, d, p, begun[i]);
      var j :| 0 <= j < i && begun[j] == d;
      SharedContexts(begun, root, j);
      SharedStep(d, p, begun[i]);
    }
  }

  lemma SharedStep(d: Entry, p: nat, e: Entry)
    requires SharedContext(d) && LeadsTo(SHARED_SELECTS, d, p, e)
    ensures SharedContext(e)
  {
    hide Evaluates, InputMuxes;
    SharedInputs();
    assert SHARED_SELECTS.muxes[0].Ports() == 3 && forall m :: 0 < m < 4 ==> SHARED_SELECTS.muxes[m].Ports() == 2;
    assert d.mux == 0 && e.mux == p + 1;
    var x := SHARED_SELECTS.muxes[0];
    assert ActOf(x, 0) == {0} && ActOf(x, 1) == {1} && ActOf(x, 2) == {};
    SharedInact();
  }

  lemma SharedInact()
    ensures var x := SHARED_SELECTS.muxes[0]; InactOf(x, 0) == {1} && InactOf(x, 1) == {0} && InactOf(x, 2) == {0, 1}
  {
    var x := SHARED_SELECTS.muxes[0];
    assert x.cases[0].ctrl == Wire(0) && x.cases[1].ctrl == Wire(1);
  }

  lemma SharedBegun(begun: seq<Entry>, root: seq<bool>)
    requires Examined(SHARED_SELECTS, begun, root)
    ensures Entry(0, {}, {}) in begun && Entry(1, {0}, {1}) in begun
    ensures Entry(2, {1}, {0}) in begun && Entry(3, {}, {0, 1}) in begun
    ensures forall e :: e in begun ==> SharedContext(e)
  {
    hide InputMuxes, AllGrounded, IsRoot;
    forall e | e in begun
      ensures SharedContext(e)
    {
      var i :| 0 <= i < |begun| && begun[i] == e;
      SharedContexts(begun, root, i);
    }
    assert SHARED_SELECTS.muxes[0].y[0] == 20 && Seen(SHARED_SELECTS, 20);
    assert Observed(SHARED_SELECTS, 0);
    SharedInputs();
    SharedInact();
    var e1 := SharedServed(begun, root, 0);
    var e2 := SharedServed(begun, root, 1);
    var e3 := SharedServed(begun, root, 2);
    assert SharedContext(e1) && SharedContext(e2) && SharedContext(e3);
  }

  lemma SharedServed(begun: seq<Entry>, root: seq<bool>, p: nat) returns (e: Entry)
    requires Examined(SHARED_SELECTS, begun, root) && p < 3 && Entry(0, {}, {}) in begun
    requires forall k :: k in InputMuxes(SHARED_SELECTS, 0, p) <==> k == p + 1
    ensures e in begun && e.mux == p + 1
  {
    hide InputMuxes, AllGrounded, IsRoot, Observed, ActOf, InactOf;
    var x := SHARED_SELECTS.muxes[0];
    assert x.Ports() == 3 && NoConst(x) && NoKnown(x, {});
    assert Possible(x, {}, p);
    assert Evaluates(x, {}, {}, p);
    assert InputsExamined(SHARED_SELECTS, begun, root, Entry(0, {}, {}));
    assert InputsServed(SHARED_SELECTS, EntrySet(begun), root, 0, p, {}, {});
    assert p + 1 in InputMuxes(SHARED_SELECTS, 0, p);
    assert Served(EntrySet(begun), root, p + 1, {} + ActOf(x, p), {} + InactOf(x, p));
    assert !root[p + 1] by {
      if root[p + 1] {
        SharedRoots(p + 1);
      }
    }
    e :| e in EntrySet(begun) && Covers(e, p + 1, {} + ActOf(x, p), {} + InactOf(x, p));
  }

  lemma SharedWarranted(begun: seq<Entry>, root: seq<bool>, m: nat, p: nat)
    requires Examined(SHARED_SELECTS, begun, root) && 0 < m < 4 && p < 2
    ensures Warranted(SHARED_SELECTS, begun, m, p) <==> p == if m == 1 then 0 else 1
  {
    hide Examined;
    SharedBegun(begun, root);
    var x := SHARED_SELECTS.muxes[m];
    assert NoConst(x);
    assert KnownActive(SHARED_SELECTS.muxes[1], {0}, 0) && !KnownActive(SHARED_SELECTS.muxes[2], {1}, 0);
    assert NoKnown(SHARED_SELECTS.muxes[3], {}) && NoKnown(SHARED_SELECTS.muxes[2], {1});
  }

  /** With shared selects, each inner multiplexer is left as the connection that its surroundings allow. */
  lemma SharedSelects(begun: seq<Entry>, root: seq<bool>, cells: seq<Cell>)
    requires Examined(SHARED_SELECTS, begun, root) && LeavesWarranted(SHARED_SELECTS, begun, cells)
    ensures |cells| == 4 && cells[1] == Connected([10], [Wire(2)])
    ensures cells[2] == Connected([11], [Wire(5)]) && cells[3] == Connected([12], [Wire(7)])
  {
    hide Examined, Warranted, PortsWarranted;
    forall m: nat, p: nat | 0 < m < 4 && p < 2
      ensures Warranted(SHARED_SELECTS, begun, m, p) <==> p == if m == 1 then 0 else 1
    {
      SharedWarranted(begun, root, m, p);
    }
    assert PortsWarranted(SHARED_SELECTS, begun, 1, cells[1]) && PortsWarranted(SHARED_SELECTS, begun, 2, cells[2]);
    assert PortsWarranted(SHARED_SELECTS, begun, 3, cells[3]);
    OnlyWarranted(SHARED_SELECTS, begun, 1, cells[1], 0);
    OnlyWarranted(SHARED_SELECTS, begun, 2, cells[2], 1);
    OnlyWarranted(SHARED_SELECTS, begun, 3, cells[3], 1);
  }
}
