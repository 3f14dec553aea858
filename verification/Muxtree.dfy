/**
 Multiplexer trees, and what it means for a record of evaluated contexts to account for
 every port that can be selected.
 */
module Muxtree {

  /** One bit of a signal: a constant, or a numbered wire bit. */
  datatype Sig = Const(value: bool) | Wire(bit: nat)

  datatype Case = Case(ctrl: Sig, data: seq<Sig>)

  /** A $mux or $pmux cell: the cases in port order, the default input, and the output. */
  datatype Mux = Mux(cases: seq<Case>, dflt: seq<Sig>, y: seq<nat>) {
    /** The default is the last port. */
    function Ports(): nat { |cases| + 1 }

    function Data(p: nat): seq<Sig>
      requires p < Ports()
    {
      if p < |cases| then cases[p].data else dflt
    }
  }

  /** `seen` holds the bits that something other than a multiplexer looks at. */
  datatype Module = Module(muxes: seq<Mux>, bits: nat, seen: set<nat>)

  ghost predicate InRange(s: Sig, bits: nat) {
    s.Wire? ==> s.bit < bits
  }

  ghost predicate MuxOk(x: Mux, bits: nat) {
    && |x.dflt| == |x.y|
    && (forall i :: 0 <= i < |x.cases| ==> |x.cases[i].data| == |x.y| && InRange(x.cases[i].ctrl, bits))
    && (forall p, j :: 0 <= p < x.Ports() && 0 <= j < |x.Data(p)| ==> InRange(x.Data(p)[j], bits))
    && (forall j :: 0 <= j < |x.y| ==> x.y[j] < bits)
  }

  ghost predicate WellFormed(mod: Module) {
    forall m :: 0 <= m < |mod.muxes| ==> MuxOk(mod.muxes[m], mod.bits)
  }

  // ----- which multiplexer feeds which port -----

  predicate Feeds(mod: Module, k: nat, m: nat, p: nat)
    requires k < |mod.muxes| && m < |mod.muxes| && p < mod.muxes[m].Ports()
  {
    var data := mod.muxes[m].Data(p);
    exists j :: 0 <= j < |data| && data[j].Wire? && data[j].bit in mod.muxes[k].y
  }

  /** The multiplexers below `n` that drive a bit of port `p` of multiplexer `m`. */
  function Feeders(mod: Module, m: nat, p: nat, n: nat): (ks: seq<nat>)
    requires n <= |mod.muxes| && m < |mod.muxes| && p < mod.muxes[m].Ports()
    ensures forall k: nat :: k in ks <==> k < n && Feeds(mod, k, m, p)
  {
    if n == 0 then [] else
      var ks := Feeders(mod, m, p, n - 1);
      if Feeds(mod, n - 1, m, p) then ks + [n - 1] else ks
  }

  function InputMuxes(mod: Module, m: nat, p: nat): seq<nat>
    requires m < |mod.muxes| && p < mod.muxes[m].Ports()
  {
    Feeders(mod, m, p, |mod.muxes|)
  }

  predicate IsSelect(x: Mux, b: nat) {
    exists i :: 0 <= i < |x.cases| && x.cases[i].ctrl == Wire(b)
  }

  /** Something other than the data input of a multiplexer looks at the bit. */
  predicate Seen(mod: Module, b: nat) {
    b in mod.seen || exists m :: 0 <= m < |mod.muxes| && IsSelect(mod.muxes[m], b)
  }

  predicate Observed(mod: Module, m: nat)
    requires m < |mod.muxes|
  {
    exists j :: 0 <= j < |mod.muxes[m].y| && Seen(mod, mod.muxes[m].y[j])
  }

  predicate Uses(mod: Module, k: nat, m: nat)
    requires k < |mod.muxes| && m < |mod.muxes|
  {
    exists p :: 0 <= p < mod.muxes[m].Ports() && Feeds(mod, k, m, p)
  }

  function Users(mod: Module, k: nat): set<nat>
    requires k < |mod.muxes|
  {
    set m: nat | m < |mod.muxes| && Uses(mod, k, m)
  }

  // ----- values -----

  type Valuation = nat -> bool

  predicate SigVal(v: Valuation, s: Sig) {
    match s
    case Const(b) => b
    case Wire(b) => v(b)
  }

  /** At most one select of the cell is active, as the $pmux convention demands. */
  ghost predicate AtMostOne(v: Valuation, x: Mux) {
    forall i, j :: 0 <= i < j < |x.cases| ==> !(SigVal(v, x.cases[i].ctrl) && SigVal(v, x.cases[j].ctrl))
  }

  /** The first active case from `k` on, or the default. */
  function SelectedFrom(v: Valuation, x: Mux, k: nat): (p: nat)
    requires k <= |x.cases|
    ensures k <= p <= |x.cases|
    ensures p < |x.cases| ==> SigVal(v, x.cases[p].ctrl)
    ensures forall i :: k <= i < p ==> !SigVal(v, x.cases[i].ctrl)
    decreases |x.cases| - k
  {
    if k == |x.cases| || SigVal(v, x.cases[k].ctrl) then k else SelectedFrom(v, x, k + 1)
  }

  function Selected(v: Valuation, x: Mux): (p: nat)
    ensures p < x.Ports()
  {
    SelectedFrom(v, x, 0)
  }

  /** Each output bit has the value of the selected port's bit. */
  ghost predicate MuxHolds(v: Valuation, x: Mux) {
    && |x.Data(Selected(v, x))| == |x.y|
    && forall j :: 0 <= j < |x.y| ==> v(x.y[j]) == SigVal(v, x.Data(Selected(v, x))[j])
  }

  // ----- what an evaluation in a context looks at -----

  predicate ConstActive(x: Mux, p: nat)
    requires p < |x.cases|
  {
    x.cases[p].ctrl == Const(true)
  }

  predicate KnownActive(x: Mux, act: set<nat>, p: nat)
    requires p < |x.cases|
  {
    x.cases[p].ctrl.Wire? && x.cases[p].ctrl.bit in act
  }

  ghost predicate FirstConst(x: Mux, p: nat) {
    && p < |x.cases| && ConstActive(x, p)
    && forall i :: 0 <= i < p ==> !ConstActive(x, i)
  }

  ghost predicate NoConst(x: Mux) {
    forall i :: 0 <= i < |x.cases| ==> !ConstActive(x, i)
  }

  ghost predicate FirstKnown(x: Mux, act: set<nat>, p: nat) {
    && p < |x.cases| && KnownActive(x, act, p)
    && forall i :: 0 <= i < p ==> !KnownActive(x, act, i)
  }

  ghost predicate NoKnown(x: Mux, act: set<nat>) {
    forall i :: 0 <= i < |x.cases| ==> !KnownActive(x, act, i)
  }

  ghost predicate Possible(x: Mux, inact: set<nat>, p: nat) {
    p == |x.cases| || (p < |x.cases| && x.cases[p].ctrl.Wire? && x.cases[p].ctrl.bit !in inact)
  }

  /** Port `p` is evaluated when these selects are known to be active and inactive. */
  ghost predicate Evaluates(x: Mux, act: set<nat>, inact: set<nat>, p: nat) {
    if !NoConst(x) then FirstConst(x, p)
    else if !NoKnown(x, act) then FirstKnown(x, act, p)
    else Possible(x, inact, p)
  }

  /** What selecting port `p` says about the cell's own selects. */
  ghost function ActOf(x: Mux, p: nat): set<nat> {
    if p < |x.cases| && x.cases[p].ctrl.Wire? then {x.cases[p].ctrl.bit} else {}
  }

  ghost function InactOf(x: Mux, p: nat): set<nat> {
    set i | 0 <= i < |x.cases| && i != p && x.cases[i].ctrl.Wire? :: x.cases[i].ctrl.bit
  }

  // ----- a record of evaluated contexts -----

  /** Multiplexer `mux` was evaluated with these selects known. */
  datatype Entry = Entry(mux: nat, act: set<nat>, inact: set<nat>)

  ghost predicate Covers(e: Entry, m: nat, act: set<nat>, inact: set<nat>) {
    e.mux == m && e.act <= act && e.inact <= inact
  }

  /** `m` is evaluated on its own, or in a context that assumes no more than this one. */
  ghost predicate Served(log: set<Entry>, root: seq<bool>, m: nat, act: set<nat>, inact: set<nat>) {
    (m < |root| && root[m]) || exists e :: e in log && Covers(e, m, act, inact)
  }

  ghost predicate Shaped(mod: Module, enabled: seq<seq<bool>>, root: seq<bool>) {
    && |root| == |mod.muxes| == |enabled|
    && forall m :: 0 <= m < |enabled| ==> |enabled[m]| == mod.muxes[m].Ports()
  }

  ghost predicate InputsServed(mod: Module, log: set<Entry>, root: seq<bool>, m: nat, p: nat, act: set<nat>,
                               inact: set<nat>)
    requires m < |mod.muxes| && p < mod.muxes[m].Ports()
  {
    forall k :: k in InputMuxes(mod, m, p) ==>
      Served(log, root, k, act + ActOf(mod.muxes[m], p), inact + InactOf(mod.muxes[m], p))
  }

  /** The evaluation that `e` records has enabled its ports and gone on to their inputs. */
  ghost predicate EntryClosed(mod: Module, log: set<Entry>, enabled: seq<seq<bool>>, root: seq<bool>, e: Entry)
    requires Shaped(mod, enabled, root)
  {
    && e.mux < |mod.muxes|
    && forall p :: 0 <= p < mod.muxes[e.mux].Ports() && Evaluates(mod.muxes[e.mux], e.act, e.inact, p) ==>
         enabled[e.mux][p] && InputsServed(mod, log, root, e.mux, p, e.act, e.inact)
  }

  ghost predicate AllClosed(mod: Module, es: set<Entry>, log: set<Entry>, enabled: seq<seq<bool>>, root: seq<bool>)
    requires Shaped(mod, enabled, root)
  {
    forall e :: e in es ==> EntryClosed(mod, log, enabled, root, e)
  }

  ghost predicate RootGrows(root: seq<bool>, root': seq<bool>) {
    |root| == |root'| && forall m :: 0 <= m < |root| && root[m] ==> root'[m]
  }

  ghost predicate EnabledGrows(enabled: seq<seq<bool>>, enabled': seq<seq<bool>>) {
    && |enabled| == |enabled'|
    && forall m :: 0 <= m < |enabled| ==>
         |enabled[m]| == |enabled'[m]| && forall p :: 0 <= p < |enabled[m]| && enabled[m][p] ==> enabled'[m][p]
  }

  lemma ServedGrows(log: set<Entry>, log': set<Entry>, root: seq<bool>, root': seq<bool>, m: nat,
                    act: set<nat>, act': set<nat>, inact: set<nat>, inact': set<nat>)
    requires Served(log, root, m, act, inact) && log <= log' && RootGrows(root, root')
    requires act <= act' && inact <= inact'
    ensures Served(log', root', m, act', inact')
  {
    if !(m < |root| && root[m]) {
      var e :| e in log && Covers(e, m, act, inact);
      assert e in log' && Covers(e, m, act', inact');
    }
  }

  lemma InputsServedGrows(mod: Module, log: set<Entry>, log': set<Entry>, root: seq<bool>, root': seq<bool>, m: nat,
                          p: nat, act: set<nat>, inact: set<nat>)
    requires m < |mod.muxes| && p < mod.muxes[m].Ports()
    requires InputsServed(mod, log, root, m, p, act, inact) && log <= log' && RootGrows(root, root')
    ensures InputsServed(mod, log', root', m, p, act, inact)
  {
    hide RootGrows, Served;
    var a, i := act + ActOf(mod.muxes[m], p), inact + InactOf(mod.muxes[m], p);
    forall k | k in InputMuxes(mod, m, p)
      ensures Served(log', root', k, a, i)
    {
      ServedGrows(log, log', root, root', k, a, a, i, i);
    }
  }

  /** Closure survives more entries, more enabled ports and more roots. */
  lemma AllClosedGrows(mod: Module, es: set<Entry>, log: set<Entry>, log': set<Entry>,
                       enabled: seq<seq<bool>>, enabled': seq<seq<bool>>, root: seq<bool>, root': seq<bool>)
    requires Shaped(mod, enabled, root) && Shaped(mod, enabled', root')
    requires AllClosed(mod, es, log, enabled, root)
    requires log <= log' && EnabledGrows(enabled, enabled') && RootGrows(root, root')
    ensures AllClosed(mod, es, log', enabled', root')
  {
    hide RootGrows, InputsServed, Evaluates;
    forall e | e in es
      ensures EntryClosed(mod, log', enabled', root', e)
    {
      assert EntryClosed(mod, log, enabled, root, e);
      forall p | 0 <= p < mod.muxes[e.mux].Ports() && Evaluates(mod.muxes[e.mux], e.act, e.inact, p)
        ensures enabled'[e.mux][p] && InputsServed(mod, log', root', e.mux, p, e.act, e.inact)
      {
        InputsServedGrows(mod, log, log', root, root', e.mux, p, e.act, e.inact);
      }
    }
  }

  /** Promises that were kept, or that a root took over, can be forgotten. */
  lemma Discharge(mod: Module, es: set<Entry>, log: set<Entry>, promised: set<Entry>, kept: set<Entry>,
                  enabled: seq<seq<bool>>, root: seq<bool>)
    requires Shaped(mod, enabled, root)
    requires AllClosed(mod, es, log + promised + kept, enabled, root)
    requires forall e :: e in kept ==> e in log || (e.mux < |root| && root[e.mux])
    ensures AllClosed(mod, es, log + promised, enabled, root)
  {
    hide Evaluates;
    forall e | e in es
      ensures EntryClosed(mod, log + promised, enabled, root, e)
    {
      assert EntryClosed(mod, log + promised + kept, enabled, root, e);
      forall p | 0 <= p < mod.muxes[e.mux].Ports() && Evaluates(mod.muxes[e.mux], e.act, e.inact, p)
        ensures enabled[e.mux][p] && InputsServed(mod, log + promised, root, e.mux, p, e.act, e.inact)
      {
        DischargeInputs(mod, log, promised, kept, root, e.mux, p, e.act, e.inact);
      }
    }
  }

  lemma DischargeInputs(mod: Module, log: set<Entry>, promised: set<Entry>, kept: set<Entry>, root: seq<bool>, m: nat,
                        p: nat, act: set<nat>, inact: set<nat>)
    requires m < |mod.muxes| && p < mod.muxes[m].Ports()
    requires InputsServed(mod, log + promised + kept, root, m, p, act, inact)
    requires forall e :: e in kept ==> e in log || (e.mux < |root| && root[e.mux])
    ensures InputsServed(mod, log + promised, root, m, p, act, inact)
  {
    var a, i := act + ActOf(mod.muxes[m], p), inact + InactOf(mod.muxes[m], p);
    forall k | k in InputMuxes(mod, m, p)
      ensures Served(log + promised, root, k, a, i)
    {
      assert Served(log + promised + kept, root, k, a, i);
      if !(k < |root| && root[k]) {
        var e :| e in log + promised + kept && Covers(e, k, a, i);
        assert e in log + promised;
      }
    }
  }

  // ----- where evaluations come from -----

  /** Evaluating port `p` in context `d` evaluates one of its inputs in context `e`. */
  ghost predicate LeadsTo(mod: Module, d: Entry, p: nat, e: Entry) {
    && d.mux < |mod.muxes| && p < mod.muxes[d.mux].Ports()
    && Evaluates(mod.muxes[d.mux], d.act, d.inact, p)
    && e.mux in InputMuxes(mod, d.mux, p)
    && e.act == d.act + ActOf(mod.muxes[d.mux], p) && e.inact == d.inact + InactOf(mod.muxes[d.mux], p)
  }

  ghost predicate Follows(mod: Module, d: Entry, e: Entry) {
    exists p :: LeadsTo(mod, d, p, e)
  }

  ghost predicate IsRootEntry(root: seq<bool>, e: Entry) {
    e.mux < |root| && root[e.mux] && e.act == {} && e.inact == {}
  }

  /** A context is that of a root, or follows from an evaluation that began earlier. */
  ghost predicate Grounded(mod: Module, begun: seq<Entry>, root: seq<bool>, e: Entry) {
    IsRootEntry(root, e) || exists d, p :: d in begun && LeadsTo(mod, d, p, e)
  }

  ghost predicate AllGrounded(mod: Module, begun: seq<Entry>, root: seq<bool>) {
    forall i :: 0 <= i < |begun| ==> Grounded(mod, begun[..i], root, begun[i])
  }

  /** Only ports that some evaluation had to look at are enabled. */
  ghost predicate Precise(mod: Module, begun: seq<Entry>, enabled: seq<seq<bool>>) {
    forall m, p :: 0 <= m < |enabled| && 0 <= p < |enabled[m]| && enabled[m][p] ==> Warranted(mod, begun, m, p)
  }

  ghost predicate Warranted(mod: Module, begun: seq<Entry>, m: nat, p: nat) {
    m < |mod.muxes| && exists e :: e in begun && e.mux == m && Evaluates(mod.muxes[m], e.act, e.inact, p)
  }

  lemma GroundedGrows(mod: Module, begun: seq<Entry>, begun': seq<Entry>, root: seq<bool>, root': seq<bool>, e: Entry)
    requires Grounded(mod, begun, root, e) && begun <= begun' && RootGrows(root, root')
    ensures Grounded(mod, begun', root', e)
  {
    hide LeadsTo;
    if !IsRootEntry(root, e) {
      var d, p :| d in begun && LeadsTo(mod, d, p, e);
      assert d in begun';
    }
  }

  lemma AllGroundedGrows(mod: Module, begun: seq<Entry>, root: seq<bool>, root': seq<bool>)
    requires AllGrounded(mod, begun, root) && RootGrows(root, root')
    ensures AllGrounded(mod, begun, root')
  {
    hide Grounded, RootGrows;
    forall i | 0 <= i < |begun|
      ensures Grounded(mod, begun[..i], root', begun[i])
    {
      GroundedGrows(mod, begun[..i], begun[..i], root, root', begun[i]);
    }
  }

  /** Starting one more grounded evaluation. */
  lemma BeginOne(mod: Module, begun: seq<Entry>, enabled: seq<seq<bool>>, root: seq<bool>, e: Entry)
    requires AllGrounded(mod, begun, root) && Precise(mod, begun, enabled) && Grounded(mod, begun, root, e)
    ensures AllGrounded(mod, begun + [e], root) && Precise(mod, begun + [e], enabled)
  {
    hide Grounded, Evaluates;
    var begun' := begun + [e];
    forall i | 0 <= i < |begun'|
      ensures Grounded(mod, begun'[..i], root, begun'[i])
    {
      assert begun'[..i] == begun[..i];
      assert begun[..|begun|] == begun;
    }
    forall m, p | 0 <= m < |enabled| && 0 <= p < |enabled[m]| && enabled[m][p]
      ensures Warranted(mod, begun', m, p)
    {
      assert Warranted(mod, begun, m, p);
      var d :| d in begun && d.mux == m && Evaluates(mod.muxes[m], d.act, d.inact, p);
      assert d in begun';
    }
  }

  /** Enabling one more port that a begun evaluation looks at. */
  lemma EnableOne(mod: Module, begun: seq<Entry>, enabled: seq<seq<bool>>, e: Entry, p: nat)
    requires Precise(mod, begun, enabled) && e in begun && e.mux < |mod.muxes| &&
             Evaluates(mod.muxes[e.mux], e.act, e.inact, p)
    requires e.mux < |enabled| && p < |enabled[e.mux]|
    ensures Precise(mod, begun, enabled[e.mux := enabled[e.mux][p := true]])
  {
    hide Evaluates;
    assert Warranted(mod, begun, e.mux, p);
    hide Warranted;
  }

  lemma InputsGrounded(mod: Module, begun: seq<Entry>, root: seq<bool>, d: Entry, p: nat, q: nat)
    requires d in begun && d.mux < |mod.muxes| && p < mod.muxes[d.mux].Ports()
    requires Evaluates(mod.muxes[d.mux], d.act, d.inact, p) && q in InputMuxes(mod, d.mux, p)
    ensures Grounded(mod, begun, root,
                     Entry(q, d.act + ActOf(mod.muxes[d.mux], p), d.inact + InactOf(mod.muxes[d.mux], p)))
  {
    assert LeadsTo(mod, d, p, Entry(q, d.act + ActOf(mod.muxes[d.mux], p), d.inact + InactOf(mod.muxes[d.mux], p)));
  }

  /** Contexts accumulated step by step, starting from a root without assumptions. */
  ghost predicate IsContextPath(mod: Module, root: seq<bool>, es: seq<Entry>) {
    && |es| > 0 && IsRootEntry(root, es[0])
    && forall i :: 0 <= i < |es| - 1 ==> Follows(mod, es[i], es[i + 1])
  }

  /** Every evaluation that began lies on such a path. */
  lemma {:induction false} BegunHasPath(mod: Module, begun: seq<Entry>, root: seq<bool>, i: nat)
    returns (es: seq<Entry>)
    requires AllGrounded(mod, begun, root) && i < |begun|
    ensures IsContextPath(mod, root, es) && es[|es| - 1] == begun[i]
    decreases i
  {
    hide LeadsTo;
    var e := begun[i];
    assert Grounded(mod, begun[..i], root, e);
    if IsRootEntry(root, e) {
      es := [e];
    } else {
      var d, p :| d in begun[..i] && LeadsTo(mod, d, p, e);
      var j :| 0 <= j < i && begun[j] == d;
      var prefix := BegunHasPath(mod, begun, root, j);
      es := prefix + [e];
      forall k | 0 <= k < |es| - 1
        ensures Follows(mod, es[k], es[k + 1])
      {
        if k < |prefix| - 1 {
          assert es[k] == prefix[k] && es[k + 1] == prefix[k + 1];
        } else {
          assert LeadsTo(mod, es[k], p, es[k + 1]);
        }
      }
    }
  }

  /** Some path from a root accumulates a context that lets the port through. */
  ghost predicate LetThrough(mod: Module, root: seq<bool>, m: nat, p: nat) {
    exists es: seq<Entry> ::
      && IsContextPath(mod, root, es)
      && es[|es| - 1].mux == m < |mod.muxes|
      && Evaluates(mod.muxes[m], es[|es| - 1].act, es[|es| - 1].inact, p)
  }

  /** Every port that an evaluation looked at is let through by a path from a root. */
  lemma WarrantedHasPath(mod: Module, begun: seq<Entry>, root: seq<bool>, m: nat, p: nat)
    requires AllGrounded(mod, begun, root) && Warranted(mod, begun, m, p)
    ensures LetThrough(mod, root, m, p)
  {
    hide Evaluates, Grounded, IsContextPath;
    var e :| e in begun && e.mux == m && Evaluates(mod.muxes[m], e.act, e.inact, p);
    var i :| 0 <= i < |begun| && begun[i] == e;
    var es := BegunHasPath(mod, begun, root, i);
    PathNotEmpty(mod, root, es);
  }

  lemma PathNotEmpty(mod: Module, root: seq<bool>, es: seq<Entry>)
    requires IsContextPath(mod, root, es)
    ensures es != []
  {
  }
}
