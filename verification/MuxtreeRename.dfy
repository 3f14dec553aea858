/**
 What the next pass sees: every connection merges two signals, kept cells are read through the
 resulting map of canonical signals, and so are the bits that the rest of the circuit looks at.
 */
module MuxtreeRename {
  import opened Muxtree
  import opened MuxtreePass

  // ----- merging signals -----

  type Pair = (nat, Sig)

  /** The canonical signal of each bit. */
  type SigMap = seq<Sig>

  function Identity(bits: nat): SigMap {
    seq(bits, i requires 0 <= i < bits => Wire(i))
  }

  function Canon(map_: SigMap, s: Sig): Sig {
    if s.Wire? && s.bit < |map_| then map_[s.bit] else s
  }

  function Replace(map_: SigMap, r: Sig, s: Sig): SigMap {
    seq(|map_|, i requires 0 <= i < |map_| => if map_[i] == r then s else map_[i])
  }

  /** Connects a bit to a signal; of two wires, the connected one takes the other's name. */
  function Merge(map_: SigMap, pair: Pair): SigMap {
    var r, s := Canon(map_, Wire(pair.0)), Canon(map_, pair.1);
    if r.Wire? then Replace(map_, r, s)
    else if s.Wire? then Replace(map_, s, r)
    else map_
  }

  function MergeAll(pairs: seq<Pair>, bits: nat): SigMap {
    if pairs == [] then Identity(bits) else Merge(MergeAll(pairs[..|pairs| - 1], bits), pairs[|pairs| - 1])
  }

  // ----- the connections of a rebuilt module -----

  function PairsOf(c: Cell): seq<Pair> {
    if c.Connected? && |c.y| == |c.data| then seq(|c.y|, j requires 0 <= j < |c.y| => (c.y[j], c.data[j])) else []
  }

  function Pairs(cells: seq<Cell>): seq<Pair> {
    if cells == [] then [] else Pairs(cells[..|cells| - 1]) + PairsOf(cells[|cells| - 1])
  }

  // ----- the module that the next pass reads -----

  function CanonSigs(map_: SigMap, ss: seq<Sig>): (r: seq<Sig>)
    ensures |r| == |ss| && forall j :: 0 <= j < |ss| ==> r[j] == Canon(map_, ss[j])
  {
    seq(|ss|, j requires 0 <= j < |ss| => Canon(map_, ss[j]))
  }

  function CanonCase(map_: SigMap, c: Case): Case {
    Case(Canon(map_, c.ctrl), CanonSigs(map_, c.data))
  }

  /** An output bit is driven, so its canonical signal is a wire. */
  function CanonBit(map_: SigMap, b: nat): nat {
    var s := Canon(map_, Wire(b));
    if s.Wire? then s.bit else b
  }

  function CanonMux(map_: SigMap, x: Mux): (r: Mux)
    ensures |r.cases| == |x.cases| && |r.y| == |x.y|
    ensures forall i :: 0 <= i < |x.cases| ==> r.cases[i] == CanonCase(map_, x.cases[i])
    ensures forall j :: 0 <= j < |x.y| ==> r.y[j] == CanonBit(map_, x.y[j])
  {
    Mux(seq(|x.cases|, i requires 0 <= i < |x.cases| => CanonCase(map_, x.cases[i])),
        CanonSigs(map_, x.dflt),
        seq(|x.y|, j requires 0 <= j < |x.y| => CanonBit(map_, x.y[j])))
  }

  function KeptMuxes(cells: seq<Cell>, map_: SigMap): seq<Mux> {
    if cells == [] then []
    else
      var c := cells[|cells| - 1];
      KeptMuxes(cells[..|cells| - 1], map_) + if c.Kept? then [CanonMux(map_, c.mux)] else []
  }

  function CanonBits(map_: SigMap, bits: set<nat>): set<nat> {
    set b | b in bits && Canon(map_, Wire(b)).Wire? :: Canon(map_, Wire(b)).bit
  }

  function MapOf(mod: Module, cells: seq<Cell>): SigMap {
    MergeAll(Pairs(cells), mod.bits)
  }

  function Renamed(mod: Module, cells: seq<Cell>): Module {
    var map_ := MapOf(mod, cells);
    Module(KeptMuxes(cells, map_), mod.bits, CanonBits(map_, mod.seen))
  }

  // ----- merging is sound -----

  ghost predicate PairsHold(w: Valuation, pairs: seq<Pair>) {
    forall k :: 0 <= k < |pairs| ==> w(pairs[k].0) == SigVal(w, pairs[k].1)
  }

  ghost predicate MapHolds(w: Valuation, map_: SigMap) {
    forall i :: 0 <= i < |map_| ==> SigVal(w, map_[i]) == w(i)
  }

  /** Where the connections hold, a bit has the value of its canonical signal. */
  lemma {:induction false} MergeIsSound(w: Valuation, pairs: seq<Pair>, bits: nat)
    requires PairsHold(w, pairs)
    ensures MapHolds(w, MergeAll(pairs, bits))
  {
    if pairs != [] {
      MergeIsSound(w, pairs[..|pairs| - 1], bits);
    }
  }

  lemma CanonValue(w: Valuation, map_: SigMap, s: Sig)
    requires MapHolds(w, map_)
    ensures SigVal(w, Canon(map_, s)) == SigVal(w, s)
  {
  }

  ghost predicate MapInRange(map_: SigMap, bits: nat) {
    forall i :: 0 <= i < |map_| ==> InRange(map_[i], bits)
  }

  ghost predicate PairsInRange(pairs: seq<Pair>, bits: nat) {
    forall k :: 0 <= k < |pairs| ==> pairs[k].0 < bits && InRange(pairs[k].1, bits)
  }

  lemma {:induction false} MergeInRange(pairs: seq<Pair>, bits: nat)
    requires PairsInRange(pairs, bits)
    ensures |MergeAll(pairs, bits)| == bits && MapInRange(MergeAll(pairs, bits), bits)
  {
    if pairs != [] {
      MergeInRange(pairs[..|pairs| - 1], bits);
    }
  }

  // ----- merging along an acyclic circuit with one driver per bit -----

  ghost predicate Orderly(pairs: seq<Pair>, rank: nat -> nat) {
    && (forall i, k :: 0 <= i < k < |pairs| ==> pairs[i].0 != pairs[k].0)
    && (forall k :: 0 <= k < |pairs| && pairs[k].1.Wire? ==> rank(pairs[k].1.bit) < rank(pairs[k].0))
  }

  ghost predicate IsLeft(pairs: seq<Pair>, b: nat) {
    exists k :: 0 <= k < |pairs| && pairs[k].0 == b
  }

  ghost predicate IsRight(pairs: seq<Pair>, b: nat) {
    exists k :: 0 <= k < |pairs| && pairs[k].1 == Wire(b)
  }

  /** Bits that are not connected stand for themselves, and connected bits stand for nothing. */
  ghost predicate Resolved(map_: SigMap, pairs: seq<Pair>, rank: nat -> nat) {
    forall i :: 0 <= i < |map_| ==>
      && (!IsLeft(pairs, i) ==> map_[i] == Wire(i))
      && (map_[i].Wire? ==> ResolvedTo(pairs, rank, i, map_[i].bit))
  }

  ghost predicate ResolvedTo(pairs: seq<Pair>, rank: nat -> nat, i: nat, b: nat) {
    rank(b) <= rank(i) && !IsLeft(pairs, b) && (b == i || IsRight(pairs, b))
  }

  lemma {:induction false} MergeResolves(pairs: seq<Pair>, bits: nat, rank: nat -> nat)
    requires PairsInRange(pairs, bits) && Orderly(pairs, rank)
    ensures |MergeAll(pairs, bits)| == bits && Resolved(MergeAll(pairs, bits), pairs, rank)
  {
    if pairs != [] {
      var last := |pairs| - 1;
      var prefix := pairs[..last];
      MergeResolves(prefix, bits, rank);
      MergeStep(MergeAll(prefix, bits), prefix, pairs[last], rank);
      assert pairs == prefix + [pairs[last]];
    }
  }

  lemma IsLeftAppend(pairs: seq<Pair>, pair: Pair, b: nat)
    ensures IsLeft(pairs + [pair], b) <==> IsLeft(pairs, b) || pair.0 == b
    ensures IsRight(pairs + [pair], b) <==> IsRight(pairs, b) || pair.1 == Wire(b)
  {
    var all := pairs + [pair];
    assert all[|pairs|] == pair;
    if i :| 0 <= i < |pairs| && pairs[i].0 == b {
      assert all[i] == pairs[i];
    }
    if i :| 0 <= i < |pairs| && pairs[i].1 == Wire(b) {
      assert all[i] == pairs[i];
    }
  }

  lemma MergeStep(map_: SigMap, pairs: seq<Pair>, pair: Pair, rank: nat -> nat)
    requires Resolved(map_, pairs, rank) && !IsLeft(pairs, pair.0) && pair.0 < |map_| && InRange(pair.1, |map_|)
    requires pair.1.Wire? ==> rank(pair.1.bit) < rank(pair.0)
    ensures Resolved(Merge(map_, pair), pairs + [pair], rank)
  {
    hide IsLeft, IsRight;
    var s := Canon(map_, pair.1);
    assert map_[pair.0] == Wire(pair.0);
    var map' := Merge(map_, pair);
    forall i | 0 <= i < |map'|
      ensures !IsLeft(pairs + [pair], i) ==> map'[i] == Wire(i)
      ensures map'[i].Wire? ==> ResolvedTo(pairs + [pair], rank, i, map'[i].bit)
    {
      IsLeftAppend(pairs, pair, i);
      if map'[i].Wire? {
        IsLeftAppend(pairs, pair, map'[i].bit);
      }
    }
  }

  // ----- what is left of a multiplexer -----

  lemma TrimmedKept(x: Mux, x': Mux) returns (at: seq<nat>)
    requires TrimmedCell(x, Kept(x'))
    ensures PortsFrom(x, x', at)
  {
    hide PortsFrom;
    if x' == x {
      AllPorts(x);
      at := seq(x.Ports(), i requires 0 <= i => i);
    } else {
      var enabled: seq<bool> :| |enabled| == x.Ports() && Kept(x') == Rebuild(x, enabled);
      at := LivePorts(enabled, |enabled|);
      ShrunkPorts(x, at);
    }
  }

  lemma TrimmedConnected(x: Mux, y: seq<nat>, data: seq<Sig>) returns (p: nat)
    requires TrimmedCell(x, Connected(y, data))
    ensures y == x.y && p < x.Ports() && data == x.Data(p)
  {
    var enabled: seq<bool> :| |enabled| == x.Ports() && Connected(y, data) == Rebuild(x, enabled);
    p := LivePorts(enabled, |enabled|)[0];
  }

  lemma PortsFromOk(x: Mux, x': Mux, at: seq<nat>, bits: nat)
    requires PortsFrom(x, x', at) && MuxOk(x, bits)
    ensures MuxOk(x', bits)
  {
    forall p, j | 0 <= p < x'.Ports() && 0 <= j < |x'.Data(p)|
      ensures InRange(x'.Data(p)[j], bits)
    {
      assert x'.Data(p) == x.Data(at[p]);
    }
    assert x'.Data(|x'.cases|) == x.Data(at[|x'.cases|]);
  }

  lemma PortsFromBelow(x: Mux, x': Mux, at: seq<nat>, rank: nat -> nat, y: nat)
    requires PortsFrom(x, x', at) && InputsBelow(x, rank, y)
    ensures InputsBelow(x', rank, y)
  {
    forall p, j | 0 <= p < x'.Ports() && 0 <= j < |x'.Data(p)| && x'.Data(p)[j].Wire?
      ensures rank(x'.Data(p)[j].bit) < rank(y)
    {
      assert x'.Data(p) == x.Data(at[p]);
    }
  }

  lemma PortsFromConvention(x: Mux, x': Mux, at: seq<nat>, v: Valuation)
    requires PortsFrom(x, x', at) && AtMostOne(v, x)
    ensures AtMostOne(v, x')
  {
    forall i, j | 0 <= i < j < |x'.cases|
      ensures !(SigVal(v, x'.cases[i].ctrl) && SigVal(v, x'.cases[j].ctrl))
    {
      assert at[i] < at[j];
    }
  }

  lemma PortsFromReads(x: Mux, x': Mux, at: seq<nat>, b: nat)
    requires PortsFrom(x, x', at) && Reads(x', b)
    ensures Reads(x, b)
  {
    if IsSelect(x', b) {
      var i :| 0 <= i < |x'.cases| && x'.cases[i].ctrl == Wire(b);
      assert x.cases[at[i]].ctrl == Wire(b);
    } else {
      var p: nat :| p < x'.Ports() && Wire(b) in x'.Data(p);
      assert Wire(b) in x.Data(at[p]);
    }
  }

  // ----- reading a multiplexer through the map -----

  lemma CanonData(map_: SigMap, x: Mux, p: nat)
    requires p < x.Ports()
    ensures CanonMux(map_, x).Ports() == x.Ports() && CanonMux(map_, x).Data(p) == CanonSigs(map_, x.Data(p))
  {
  }

  lemma CanonMuxOk(map_: SigMap, x: Mux, bits: nat)
    requires MapInRange(map_, bits) && MuxOk(x, bits)
    ensures MuxOk(CanonMux(map_, x), bits)
  {
    var x' := CanonMux(map_, x);
    forall p, j | 0 <= p < x'.Ports() && 0 <= j < |x'.Data(p)|
      ensures InRange(x'.Data(p)[j], bits)
    {
      CanonData(map_, x, p);
    }
    CanonData(map_, x, |x.cases|);
  }

  /** Where the connections hold, the multiplexer read through the map does the same. */
  lemma CanonMuxValue(w: Valuation, map_: SigMap, x: Mux)
    requires MapHolds(w, map_)
    ensures Selected(w, CanonMux(map_, x)) == Selected(w, x)
    ensures AtMostOne(w, CanonMux(map_, x)) <==> AtMostOne(w, x)
    ensures MuxHolds(w, CanonMux(map_, x)) <==> MuxHolds(w, x)
  {
    var x' := CanonMux(map_, x);
    forall i | 0 <= i < |x.cases|
      ensures SigVal(w, x'.cases[i].ctrl) == SigVal(w, x.cases[i].ctrl)
    {
      CanonValue(w, map_, x.cases[i].ctrl);
    }
    SameSelected(w, x, x', 0);
    var p := Selected(w, x);
    CanonData(map_, x, p);
    forall j | 0 <= j < |x.Data(p)|
      ensures SigVal(w, x'.Data(p)[j]) == SigVal(w, x.Data(p)[j])
    {
      CanonValue(w, map_, x.Data(p)[j]);
    }
    forall j | 0 <= j < |x.y|
      ensures w(x'.y[j]) == w(x.y[j])
    {
      CanonValue(w, map_, Wire(x.y[j]));
    }
  }

  lemma {:induction false} SameSelected(w: Valuation, x: Mux, x': Mux, k: nat)
    requires |x'.cases| == |x.cases| && k <= |x.cases|
    requires forall i :: 0 <= i < |x.cases| ==> SigVal(w, x'.cases[i].ctrl) == SigVal(w, x.cases[i].ctrl)
    ensures SelectedFrom(w, x', k) == SelectedFrom(w, x, k)
    decreases |x.cases| - k
  {
    if k < |x.cases| {
      SameSelected(w, x, x', k + 1);
    }
  }

  /** A bit on an input of the renamed multiplexer is the canonical signal of a bit on the original. */
  lemma CanonReads(map_: SigMap, x: Mux, b: nat) returns (c: nat)
    requires Reads(CanonMux(map_, x), b)
    ensures Reads(x, c) && Canon(map_, Wire(c)) == Wire(b)
  {
    var x' := CanonMux(map_, x);
    if IsSelect(x', b) {
      var i :| 0 <= i < |x'.cases| && x'.cases[i].ctrl == Wire(b);
      c := x.cases[i].ctrl.bit;
      assert IsSelect(x, c);
    } else {
      var p: nat :| p < x'.Ports() && Wire(b) in x'.Data(p);
      CanonData(map_, x, p);
      var j :| 0 <= j < |x'.Data(p)| && x'.Data(p)[j] == Wire(b);
      c := x.Data(p)[j].bit;
      assert Wire(c) in x.Data(p);
    }
  }

  // ----- which cells are kept -----

  function KeptAt(cells: seq<Cell>): (at: seq<nat>)
    ensures forall i, j :: 0 <= i < j < |at| ==> at[i] < at[j]
    ensures forall i :: 0 <= i < |at| ==> at[i] < |cells|
    ensures forall m: nat :: m in at <==> m < |cells| && cells[m].Kept?
  {
    if cells == [] then []
    else
      var last := |cells| - 1;
      KeptAt(cells[..last]) + if cells[last].Kept? then [last] else []
  }

  lemma {:induction false} KeptMuxAt(cells: seq<Cell>, map_: SigMap)
    ensures |KeptMuxes(cells, map_)| == |KeptAt(cells)|
    ensures forall q :: 0 <= q < |KeptAt(cells)| ==>
              KeptAt(cells)[q] in KeptAt(cells) &&
              KeptMuxes(cells, map_)[q] == CanonMux(map_, cells[KeptAt(cells)[q]].mux)
  {
    hide CanonMux;
    if cells != [] {
      var last := |cells| - 1;
      KeptMuxAt(cells[..last], map_);
      forall q | 0 <= q < |KeptAt(cells)|
        ensures KeptAt(cells)[q] in KeptAt(cells) &&
                KeptMuxes(cells, map_)[q] == CanonMux(map_, cells[KeptAt(cells)[q]].mux)
      {
        var prefix := KeptAt(cells[..last]);
        if q < |prefix| {
          assert KeptAt(cells)[q] == prefix[q] && prefix[q] in prefix;
          assert cells[..last][prefix[q]] == cells[prefix[q]];
        }
      }
    }
  }

  lemma {:induction false} KeptPorts(cells: seq<Cell>, map_: SigMap)
    ensures TotalPorts(KeptMuxes(cells, map_)) == TotalKept(cells)
  {
    if cells != [] {
      var last := |cells| - 1;
      KeptPorts(cells[..last], map_);
      var ms := KeptMuxes(cells[..last], map_);
      if cells[last].Kept? {
        assert KeptMuxes(cells, map_)[..|ms|] == ms;
      } else {
        assert KeptMuxes(cells, map_) == ms;
      }
    }
  }

  // ----- the renamed module is well-formed -----

  lemma {:induction false} PairsFromCells(cells: seq<Cell>, k: nat) returns (m: nat, j: nat)
    requires k < |Pairs(cells)|
    ensures m < |cells| && cells[m].Connected? && j < |cells[m].y| == |cells[m].data|
    ensures Pairs(cells)[k] == (cells[m].y[j], cells[m].data[j])
  {
    var last := |cells| - 1;
    var prefix := Pairs(cells[..last]);
    if k < |prefix| {
      m, j := PairsFromCells(cells[..last], k);
    } else {
      m, j := last, k - |prefix|;
    }
  }

  lemma PairsAreInRange(mod: Module, cells: seq<Cell>)
    requires WellFormed(mod) && Trimmed(mod, cells)
    ensures PairsInRange(Pairs(cells), mod.bits)
  {
    hide Pairs, TrimmedCell;
    var pairs := Pairs(cells);
    forall k | 0 <= k < |pairs|
      ensures pairs[k].0 < mod.bits && InRange(pairs[k].1, mod.bits)
    {
      var m, j := PairsFromCells(cells, k);
      var x := mod.muxes[m];
      assert TrimmedCell(x, cells[m]) && MuxOk(x, mod.bits);
      var p := TrimmedConnected(x, cells[m].y, cells[m].data);
      assert InRange(x.Data(p)[j], mod.bits);
    }
  }

  lemma RenamedIsWellFormed(mod: Module, cells: seq<Cell>)
    requires WellFormed(mod) && Trimmed(mod, cells)
    ensures WellFormed(Renamed(mod, cells)) && TotalPorts(Renamed(mod, cells).muxes) == TotalKept(cells)
  {
    hide MuxOk, TrimmedCell, KeptMuxes, CanonMux, CanonBits;
    var map_ := MapOf(mod, cells);
    PairsAreInRange(mod, cells);
    MergeInRange(Pairs(cells), mod.bits);
    KeptPorts(cells, map_);
    KeptMuxAt(cells, map_);
    var ms, at := KeptMuxes(cells, map_), KeptAt(cells);
    forall q | 0 <= q < |ms|
      ensures MuxOk(ms[q], mod.bits)
    {
      var m := at[q];
      assert m in at && TrimmedCell(mod.muxes[m], cells[m]);
      var ports := TrimmedKept(mod.muxes[m], cells[m].mux);
      PortsFromOk(mod.muxes[m], cells[m].mux, ports, mod.bits);
      CanonMuxOk(map_, cells[m].mux, mod.bits);
    }
  }

  // ----- nothing changes when nothing was removed -----

  lemma {:induction false} NoPairs(cells: seq<Cell>)
    requires forall m :: 0 <= m < |cells| ==> cells[m].Kept?
    ensures Pairs(cells) == []
  {
    if cells != [] {
      NoPairs(cells[..|cells| - 1]);
    }
  }

  lemma CanonIdentity(bits: nat, s: Sig)
    ensures Canon(Identity(bits), s) == s
  {
  }

  lemma CanonMuxIdentity(bits: nat, x: Mux)
    ensures CanonMux(Identity(bits), x) == x
  {
    var x' := CanonMux(Identity(bits), x);
    forall ss: seq<Sig>
      ensures CanonSigs(Identity(bits), ss) == ss
    {
    }
    assert x'.cases == x.cases && x'.y == x.y;
  }

  lemma {:induction false} KeptAll(muxes: seq<Mux>, cells: seq<Cell>, bits: nat)
    requires |cells| == |muxes| && forall m :: 0 <= m < |cells| ==> cells[m] == Kept(muxes[m])
    ensures KeptMuxes(cells, Identity(bits)) == muxes
  {
    if cells != [] {
      var last := |cells| - 1;
      KeptAll(muxes[..last], cells[..last], bits);
      CanonMuxIdentity(bits, muxes[last]);
      assert muxes == muxes[..last] + [muxes[last]];
    }
  }

  lemma UntouchedStays(mod: Module, cells: seq<Cell>)
    requires Untouched(mod, cells)
    ensures Renamed(mod, cells) == mod
  {
    NoPairs(cells);
    KeptAll(mod.muxes, cells, mod.bits);
    var seen' := CanonBits(Identity(mod.bits), mod.seen);
    forall b
      ensures b in seen' <==> b in mod.seen
    {
      CanonIdentity(mod.bits, Wire(b));
    }
    assert seen' == mod.seen;
  }

  // ----- one driver per bit -----

  ghost predicate Drives(mod: Module, m: nat, j: nat, b: nat) {
    m < |mod.muxes| && j < |mod.muxes[m].y| && mod.muxes[m].y[j] == b
  }

  ghost predicate SingleDriver(mod: Module) {
    forall m, j, m', j', b :: Drives(mod, m, j, b) && Drives(mod, m', j', b) ==> m == m' && j == j'
  }

  /** A connection comes from the cell that drove the bit. */
  lemma PairDrives(mod: Module, cells: seq<Cell>, k: nat) returns (m: nat, j: nat)
    requires |cells| <= |mod.muxes| && forall i :: 0 <= i < |cells| ==> TrimmedCell(mod.muxes[i], cells[i])
    requires k < |Pairs(cells)|
    ensures m < |cells| && cells[m].Connected? && Drives(mod, m, j, Pairs(cells)[k].0)
  {
    hide TrimmedCell, Pairs;
    m, j := PairsFromCells(cells, k);
    assert TrimmedCell(mod.muxes[m], cells[m]);
    var p := TrimmedConnected(mod.muxes[m], cells[m].y, cells[m].data);
  }

  lemma {:induction false} PairsDistinct(mod: Module, cells: seq<Cell>)
    requires |cells| <= |mod.muxes| && forall i :: 0 <= i < |cells| ==> TrimmedCell(mod.muxes[i], cells[i])
    requires SingleDriver(mod)
    ensures forall i, k :: 0 <= i < k < |Pairs(cells)| ==> Pairs(cells)[i].0 != Pairs(cells)[k].0
  {
    hide TrimmedCell;
    if cells != [] {
      var last := |cells| - 1;
      var c, before, all := cells[last], Pairs(cells[..last]), Pairs(cells);
      PairsDistinct(mod, cells[..last]);
      assert all == before + PairsOf(c);
      forall i, k | 0 <= i < k < |all|
        ensures all[i].0 != all[k].0
      {
        if k < |before| {
          assert all[i] == before[i] && all[k] == before[k];
        } else {
          assert TrimmedCell(mod.muxes[last], c);
          var p := TrimmedConnected(mod.muxes[last], c.y, c.data);
          assert Drives(mod, last, k - |before|, all[k].0);
          if i < |before| {
            var m, j := PairDrives(mod, cells[..last], i);
            assert Drives(mod, m, j, all[i].0) && m != last;
          } else {
            assert Drives(mod, last, i - |before|, all[i].0);
          }
        }
      }
    }
  }

  lemma PairsAreOrderly(mod: Module, cells: seq<Cell>, rank: nat -> nat)
    requires Trimmed(mod, cells) && SingleDriver(mod) && Acyclic(mod, rank)
    ensures Orderly(Pairs(cells), rank)
  {
    hide TrimmedCell, Pairs, SingleDriver, InputsBelow;
    PairsDistinct(mod, cells);
    var pairs := Pairs(cells);
    forall k | 0 <= k < |pairs| && pairs[k].1.Wire?
      ensures rank(pairs[k].1.bit) < rank(pairs[k].0)
    {
      var m, j := PairsFromCells(cells, k);
      var x := mod.muxes[m];
      assert TrimmedCell(x, cells[m]);
      var p := TrimmedConnected(x, cells[m].y, cells[m].data);
      assert x.y[j] in x.y && InputsBelow(x, rank, x.y[j]);
      DataBelow(x, rank, x.y[j], p, j);
    }
  }

  lemma DataBelow(x: Mux, rank: nat -> nat, y: nat, p: nat, j: nat)
    requires InputsBelow(x, rank, y) && p < x.Ports() && j < |x.Data(p)|
    ensures x.Data(p)[j].Wire? ==> rank(x.Data(p)[j].bit) < rank(y)
  {
  }

  /** Connected bits are outputs of connected cells, and what they are connected to was read by those. */
  lemma LeftIsOutput(mod: Module, cells: seq<Cell>, b: nat) returns (m: nat, j: nat)
    requires Trimmed(mod, cells) && IsLeft(Pairs(cells), b)
    ensures m < |cells| && cells[m].Connected? && Drives(mod, m, j, b)
  {
    var k :| 0 <= k < |Pairs(cells)| && Pairs(cells)[k].0 == b;
    m, j := PairDrives(mod, cells, k);
  }

  lemma RightIsRead(mod: Module, cells: seq<Cell>, b: nat)
    requires Trimmed(mod, cells) && IsRight(Pairs(cells), b)
    ensures Mentioned(mod, b)
  {
    hide TrimmedCell, Pairs;
    var k :| 0 <= k < |Pairs(cells)| && Pairs(cells)[k].1 == Wire(b);
    var m, j := PairsFromCells(cells, k);
    var x := mod.muxes[m];
    assert TrimmedCell(x, cells[m]);
    var p := TrimmedConnected(x, cells[m].y, cells[m].data);
    assert Wire(b) in x.Data(p);
    assert Reads(x, b);
  }

  lemma {:induction false} ConnectedIsLeft(cells: seq<Cell>, m: nat, j: nat)
    requires m < |cells| && cells[m].Connected? && j < |cells[m].y| == |cells[m].data|
    ensures (cells[m].y[j], cells[m].data[j]) in Pairs(cells)
  {
    var last := |cells| - 1;
    if m < last {
      ConnectedIsLeft(cells[..last], m, j);
    } else {
      assert PairsOf(cells[m])[j] == (cells[m].y[j], cells[m].data[j]);
      assert PairsOf(cells[m])[j] in PairsOf(cells[m]);
    }
  }

  // ----- merging is complete -----

  /** Both ends of a connection have the same canonical signal. */
  lemma {:induction false} MergeIsComplete(pairs: seq<Pair>, bits: nat, rank: nat -> nat, k: nat)
    requires PairsInRange(pairs, bits) && Orderly(pairs, rank) && k < |pairs|
    ensures Canon(MergeAll(pairs, bits), Wire(pairs[k].0)) == Canon(MergeAll(pairs, bits), pairs[k].1)
  {
    hide IsLeft, IsRight;
    var last := |pairs| - 1;
    var prefix := pairs[..last];
    MergeResolves(prefix, bits, rank);
    var map_ := MergeAll(prefix, bits);
    if k < last {
      MergeIsComplete(prefix, bits, rank, k);
      assert prefix[k] == pairs[k];
    } else {
      assert !IsLeft(prefix, pairs[last].0) by { NotLeftBefore(pairs); }
      assert map_[pairs[last].0] == Wire(pairs[last].0);
    }
  }

  lemma NotLeftBefore(pairs: seq<Pair>)
    requires pairs != [] && forall i, k :: 0 <= i < k < |pairs| ==> pairs[i].0 != pairs[k].0
    ensures !IsLeft(pairs[..|pairs| - 1], pairs[|pairs| - 1].0)
  {
  }
}
