/**
 The pass repeated until it removes nothing, and what that means for the values of the bits that
 the rest of the circuit looks at.
 */
module MuxtreeRepeat {
  import opened Muxtree
  import opened MuxtreePass
  import opened MuxtreeRename
  import opened OptMuxtree

  // ----- a valuation of the rebuilt cells -----

  ghost function DriverOf(mod: Module, b: nat): (d: (nat, nat))
    requires Driven(mod, b)
    ensures Drives(mod, d.0, d.1, b)
  {
    var m: nat :| m < |mod.muxes| && b in mod.muxes[m].y;
    var j: nat :| j < |mod.muxes[m].y| && mod.muxes[m].y[j] == b;
    (m, j)
  }

  /** Values below `b` as the rebuilt cells give them; outputs of removed cells are taken from `w`. */
  ghost function Solve(mod: Module, cells: seq<Cell>, rank: nat -> nat, v: Valuation, w: Valuation, b: nat): bool
    decreases rank(b)
  {
    if !Driven(mod, b) then v(b)
    else
      var (m, j) := DriverOf(mod, b);
      var below := (c: nat) => rank(c) < rank(b) && Solve(mod, cells, rank, v, w, c);
      m < |cells| && CellValue(cells[m], below, w, b, j)
  }

  ghost predicate CellValue(c: Cell, below: Valuation, w: Valuation, b: nat, j: nat) {
    match c
    case Removed => w(b)
    case Connected(_, data) => j < |data| && SigVal(below, data[j])
    case Kept(x) => j < |x.Data(Selected(below, x))| && SigVal(below, x.Data(Selected(below, x))[j])
  }

  ghost function Solution(mod: Module, cells: seq<Cell>, rank: nat -> nat, v: Valuation, w: Valuation): Valuation {
    (b: nat) => Solve(mod, cells, rank, v, w, b)
  }

  ghost function Below(rank: nat -> nat, u: Valuation, b: nat): Valuation {
    (c: nat) => rank(c) < rank(b) && u(c)
  }

  lemma SolveUndriven(mod: Module, cells: seq<Cell>, rank: nat -> nat, v: Valuation, w: Valuation, b: nat)
    requires !Driven(mod, b)
    ensures Solution(mod, cells, rank, v, w)(b) == v(b)
  {
  }

  lemma SolveDriven(mod: Module, cells: seq<Cell>, rank: nat -> nat, v: Valuation, w: Valuation, m: nat, j: nat, b: nat)
    requires SingleDriver(mod) && Drives(mod, m, j, b) && m < |cells|
    ensures var u := Solution(mod, cells, rank, v, w); u(b) == CellValue(cells[m], Below(rank, u, b), w, b, j)
  {
    hide CellValue;
    var u := Solution(mod, cells, rank, v, w);
    assert Driven(mod, b) && DriverOf(mod, b) == (m, j);
    var below := (c: nat) => rank(c) < rank(b) && Solve(mod, cells, rank, v, w, c);
    assert forall c :: below(c) == Below(rank, u, b)(c);
    SameBelow(cells[m], below, Below(rank, u, b), w, b, j);
  }

  lemma SameBelow(c: Cell, p: Valuation, q: Valuation, w: Valuation, b: nat, j: nat)
    requires forall x :: p(x) == q(x)
    ensures CellValue(c, p, w, b, j) == CellValue(c, q, w, b, j)
  {
    if c.Kept? {
      SameCtrlsSamePort(p, q, c.mux);
    }
  }

  /** No combinational loop through multiplexers, and one driver per bit. */
  ghost predicate Sound(mod: Module, rank: nat -> nat) {
    Acyclic(mod, rank) && SingleDriver(mod)
  }

  /** The multiplexers that were kept hold without exception. */
  ghost predicate KeptHold(u: Valuation, cells: seq<Cell>) {
    forall m :: 0 <= m < |cells| && cells[m].Kept? ==> MuxHolds(u, cells[m].mux)
  }

  lemma SolvedKept(mod: Module, cells: seq<Cell>, rank: nat -> nat, v: Valuation, w: Valuation, m: nat)
    requires WellFormed(mod) && Trimmed(mod, cells) && Sound(mod, rank) && m < |cells| && cells[m].Kept?
    ensures MuxHolds(Solution(mod, cells, rank, v, w), cells[m].mux)
  {
    hide Solution, TrimmedCell, MuxOk, PortsFrom, Selected, SingleDriver, InputsBelow;
    var u := Solution(mod, cells, rank, v, w);
    var x, x' := mod.muxes[m], cells[m].mux;
    assert TrimmedCell(x, cells[m]) && MuxOk(x, mod.bits);
    var at := TrimmedKept(x, x');
    PortsFromOk(x, x', at, mod.bits);
    SameOutput(x, x', at);
    var p := Selected(u, x');
    PortWidth(x', mod.bits, p);
    forall j | 0 <= j < |x'.y|
      ensures u(x'.y[j]) == SigVal(u, x'.Data(p)[j])
    {
      var b := x'.y[j];
      assert Drives(mod, m, j, b) && b in x.y && InputsBelow(x, rank, b);
      SolveDriven(mod, cells, rank, v, w, m, j, b);
      PortsFromBelow(x, x', at, rank, b);
      BelowAgrees(x', rank, u, b);
      DataBelow(x', rank, b, p, j);
    }
  }

  lemma SameOutput(x: Mux, x': Mux, at: seq<nat>)
    requires PortsFrom(x, x', at)
    ensures x'.y == x.y
  {
  }

  lemma PortWidth(x: Mux, bits: nat, p: nat)
    requires MuxOk(x, bits) && p < x.Ports()
    ensures |x.Data(p)| == |x.y|
  {
  }

  /** The selects of a multiplexer lie below its output. */
  lemma BelowAgrees(x: Mux, rank: nat -> nat, u: Valuation, b: nat)
    requires InputsBelow(x, rank, b)
    ensures Selected(Below(rank, u, b), x) == Selected(u, x)
  {
    hide Selected;
    SameCtrlsSamePort(Below(rank, u, b), u, x);
  }

  lemma SolvedConnected(mod: Module, cells: seq<Cell>, rank: nat -> nat, v: Valuation, w: Valuation, m: nat)
    requires WellFormed(mod) && Trimmed(mod, cells) && Sound(mod, rank) && m < |cells| && cells[m].Connected?
    ensures CellHolds(Solution(mod, cells, rank, v, w), cells[m])
  {
    hide Solution, TrimmedCell, MuxOk, SingleDriver, InputsBelow;
    var u := Solution(mod, cells, rank, v, w);
    var x, c := mod.muxes[m], cells[m];
    assert TrimmedCell(x, c) && MuxOk(x, mod.bits);
    var p := TrimmedConnected(x, c.y, c.data);
    PortWidth(x, mod.bits, p);
    forall j | 0 <= j < |c.y|
      ensures u(c.y[j]) == SigVal(u, c.data[j])
    {
      var b := c.y[j];
      assert Drives(mod, m, j, b) && b in x.y && InputsBelow(x, rank, b);
      SolveDriven(mod, cells, rank, v, w, m, j, b);
      DataBelow(x, rank, b, p, j);
    }
  }

  /** The solution meets every cell and leaves the bits from outside alone. */
  lemma SolutionHolds(mod: Module, cells: seq<Cell>, rank: nat -> nat, v: Valuation, w: Valuation)
    requires WellFormed(mod) && Trimmed(mod, cells) && Sound(mod, rank)
    ensures var u := Solution(mod, cells, rank, v, w);
            CellsHold(u, cells) && KeptHold(u, cells) && SameSurroundings(mod, rank, v, u)
  {
    hide Solution, WellFormed, Trimmed, Sound, CellHolds, MuxHolds, AgreeBelow;
    var u := Solution(mod, cells, rank, v, w);
    forall m | 0 <= m < |cells|
      ensures CellHolds(u, cells[m]) && (cells[m].Kept? ==> MuxHolds(u, cells[m].mux))
    {
      match cells[m]
      case Kept(x) => SolvedKept(mod, cells, rank, v, w, m); HeldCell(u, cells[m]);
      case Connected(_, _) => SolvedConnected(mod, cells, rank, v, w, m);
      case Removed => HeldCell(u, cells[m]);
    }
    forall b | Outside(mod, b)
      ensures u(b) == v(b)
    {
      SolveUndriven(mod, cells, rank, v, w, b);
    }
  }

  lemma HeldCell(u: Valuation, c: Cell)
    requires c.Removed? || (c.Kept? && MuxHolds(u, c.mux))
    ensures CellHolds(u, c)
  {
  }

  // ----- the renamed module -----

  lemma {:induction false} CellsHoldPairs(w: Valuation, cells: seq<Cell>)
    requires CellsHold(w, cells)
    ensures PairsHold(w, Pairs(cells))
  {
    if cells != [] {
      var last := |cells| - 1;
      CellsHoldPairs(w, cells[..last]);
      assert CellHolds(w, cells[last]);
    }
  }

  /** A renamed multiplexer is a kept one read through the map. */
  lemma RenamedMux(mod: Module, cells: seq<Cell>, q: nat) returns (m: nat)
    requires q < |Renamed(mod, cells).muxes|
    ensures q < |KeptAt(cells)| && m == KeptAt(cells)[q] && m < |cells| && cells[m].Kept?
    ensures Renamed(mod, cells).muxes[q] == CanonMux(MapOf(mod, cells), cells[m].mux)
  {
    KeptMuxAt(cells, MapOf(mod, cells));
    m := KeptAt(cells)[q];
    assert m in KeptAt(cells);
  }

  lemma RenamedHolds(mod: Module, cells: seq<Cell>, u: Valuation)
    requires CellsHold(u, cells) && KeptHold(u, cells)
    ensures MuxesHold(Renamed(mod, cells), u)
  {
    hide MuxHolds, Renamed, CanonMux, CellsHold;
    CellsHoldPairs(u, cells);
    MergeIsSound(u, Pairs(cells), mod.bits);
    forall q | 0 <= q < |Renamed(mod, cells).muxes|
      ensures MuxHolds(u, Renamed(mod, cells).muxes[q])
    {
      var m := RenamedMux(mod, cells, q);
      CanonMuxValue(u, MapOf(mod, cells), cells[m].mux);
    }
  }

  lemma RenamedConvention(mod: Module, cells: seq<Cell>, v: Valuation, u: Valuation)
    requires Trimmed(mod, cells) && CellsHold(u, cells) && Convention(mod, v)
    requires forall b: nat :: Seen(mod, b) ==> v(b) == u(b)
    ensures Convention(Renamed(mod, cells), u)
  {
    hide AtMostOne, Renamed, CanonMux, CellsHold, TrimmedCell, PortsFrom, Seen;
    CellsHoldPairs(u, cells);
    MergeIsSound(u, Pairs(cells), mod.bits);
    forall q | 0 <= q < |Renamed(mod, cells).muxes|
      ensures AtMostOne(u, Renamed(mod, cells).muxes[q])
    {
      var m := RenamedMux(mod, cells, q);
      var x, x' := mod.muxes[m], cells[m].mux;
      assert TrimmedCell(x, cells[m]);
      SelectsSeen(mod, v, u, m);
      SameCtrlsSamePort(v, u, x);
      var at := TrimmedKept(x, x');
      PortsFromConvention(x, x', at, u);
      CanonMuxValue(u, MapOf(mod, cells), x');
    }
  }

  lemma SelectsSeen(mod: Module, v: Valuation, u: Valuation, m: nat)
    requires m < |mod.muxes| && forall b: nat :: Seen(mod, b) ==> v(b) == u(b)
    ensures CtrlsAgree(v, u, mod.muxes[m])
  {
    hide Seen;
    var x := mod.muxes[m];
    forall i | 0 <= i < |x.cases|
      ensures SigVal(v, x.cases[i].ctrl) == SigVal(u, x.cases[i].ctrl)
    {
      if x.cases[i].ctrl.Wire? {
        SelectIsSeen(mod, m, i);
      }
    }
  }

  lemma SelectIsSeen(mod: Module, m: nat, i: nat)
    requires m < |mod.muxes| && i < |mod.muxes[m].cases| && mod.muxes[m].cases[i].ctrl.Wire?
    ensures Seen(mod, mod.muxes[m].cases[i].ctrl.bit)
  {
    assert IsSelect(mod.muxes[m], mod.muxes[m].cases[i].ctrl.bit);
  }

  /** A canonical wire is not connected away, and lies no higher than the bits it stands for. */
  lemma CanonTarget(mod: Module, cells: seq<Cell>, rank: nat -> nat, c: nat, b: nat)
    requires WellFormed(mod) && Trimmed(mod, cells) && Sound(mod, rank)
    requires Canon(MapOf(mod, cells), Wire(c)) == Wire(b)
    ensures rank(b) <= rank(c) && !IsLeft(Pairs(cells), b)
    ensures Mentioned(mod, c) ==> Mentioned(mod, b)
  {
    hide WellFormed, Trimmed, Pairs, Acyclic, SingleDriver, Mentioned, MergeAll;
    var pairs := Pairs(cells);
    PairsAreInRange(mod, cells);
    PairsAreOrderly(mod, cells, rank);
    MergeResolves(pairs, mod.bits, rank);
    if c < mod.bits {
      assert ResolvedTo(pairs, rank, c, b);
      if b != c {
        RightIsRead(mod, cells, b);
      }
    }
  }

  lemma CanonUnconnected(mod: Module, cells: seq<Cell>, rank: nat -> nat, b: nat)
    requires WellFormed(mod) && Trimmed(mod, cells) && Sound(mod, rank) && !IsLeft(Pairs(cells), b)
    ensures Canon(MapOf(mod, cells), Wire(b)) == Wire(b)
  {
    hide WellFormed, Trimmed, Pairs, Acyclic, SingleDriver, MergeAll;
    PairsAreInRange(mod, cells);
    PairsAreOrderly(mod, cells, rank);
    MergeResolves(Pairs(cells), mod.bits, rank);
  }

  /** Outputs of kept cells keep their names. */
  lemma KeptOutput(mod: Module, cells: seq<Cell>, rank: nat -> nat, m: nat, j: nat, b: nat)
    requires WellFormed(mod) && Trimmed(mod, cells) && Sound(mod, rank)
    requires Drives(mod, m, j, b) && !cells[m].Connected?
    ensures !IsLeft(Pairs(cells), b) && CanonBit(MapOf(mod, cells), b) == b
  {
    hide WellFormed, Trimmed, Pairs, Acyclic, MergeAll, IsLeft;
    if IsLeft(Pairs(cells), b) {
      var m', j' := LeftIsOutput(mod, cells, b);
    }
    CanonUnconnected(mod, cells, rank, b);
  }

  /** Which cell drives a bit of the renamed module. */
  lemma RenamedDriver(mod: Module, cells: seq<Cell>, rank: nat -> nat, q: nat, j: nat, b: nat) returns (m: nat)
    requires WellFormed(mod) && Trimmed(mod, cells) && Sound(mod, rank) && Drives(Renamed(mod, cells), q, j, b)
    ensures q < |KeptAt(cells)| && m == KeptAt(cells)[q] && m < |cells| && cells[m].Kept? && Drives(mod, m, j, b)
    ensures !IsLeft(Pairs(cells), b)
  {
    hide WellFormed, Acyclic, SingleDriver, TrimmedCell, PortsFrom, IsLeft, Pairs, MapOf, KeptAt;
    m := RenamedMux(mod, cells, q);
    assert TrimmedCell(mod.muxes[m], cells[m]);
    var at := TrimmedKept(mod.muxes[m], cells[m].mux);
    SameOutput(mod.muxes[m], cells[m].mux, at);
    var b' := mod.muxes[m].y[j];
    assert Drives(mod, m, j, b');
    KeptOutput(mod, cells, rank, m, j, b');
  }

  lemma RenamedSingleDriver(mod: Module, cells: seq<Cell>, rank: nat -> nat)
    requires WellFormed(mod) && Trimmed(mod, cells) && Sound(mod, rank)
    ensures SingleDriver(Renamed(mod, cells))
  {
    hide WellFormed, Trimmed, Acyclic, Renamed, IsLeft, Pairs;
    var mod' := Renamed(mod, cells);
    forall q, j, q', j', b | Drives(mod', q, j, b) && Drives(mod', q', j', b)
      ensures q == q' && j == j'
    {
      var m := RenamedDriver(mod, cells, rank, q, j, b);
      var m' := RenamedDriver(mod, cells, rank, q', j', b);
      assert m == m' && j == j';
    }
  }

  lemma RenamedAcyclic(mod: Module, cells: seq<Cell>, rank: nat -> nat)
    requires WellFormed(mod) && Trimmed(mod, cells) && Sound(mod, rank)
    ensures Acyclic(Renamed(mod, cells), rank)
  {
    hide WellFormed, SingleDriver, Renamed, IsLeft, Pairs, TrimmedCell, InputsBelow, PortsFrom, CanonMux, MapOf;
    var mod' := Renamed(mod, cells);
    forall q, y | 0 <= q < |mod'.muxes| && y in mod'.muxes[q].y
      ensures InputsBelow(mod'.muxes[q], rank, y)
    {
      var j :| 0 <= j < |mod'.muxes[q].y| && mod'.muxes[q].y[j] == y;
      var m := RenamedDriver(mod, cells, rank, q, j, y);
      var m' := RenamedMux(mod, cells, q);
      var x, x' := mod.muxes[m], cells[m].mux;
      assert TrimmedCell(x, cells[m]) && y in x.y && InputsBelow(x, rank, y);
      var at := TrimmedKept(x, x');
      PortsFromBelow(x, x', at, rank, y);
      forall c: nat, b: nat | Canon(MapOf(mod, cells), Wire(c)) == Wire(b)
        ensures rank(b) <= rank(c)
      {
        CanonTarget(mod, cells, rank, c, b);
      }
      CanonBelow(MapOf(mod, cells), x', rank, y);
    }
  }

  lemma CanonBelow(map_: SigMap, x: Mux, rank: nat -> nat, y: nat)
    requires InputsBelow(x, rank, y)
    requires forall c: nat, b: nat :: Canon(map_, Wire(c)) == Wire(b) ==> rank(b) <= rank(c)
    ensures InputsBelow(CanonMux(map_, x), rank, y)
  {
    var x' := CanonMux(map_, x);
    forall i | 0 <= i < |x'.cases| && x'.cases[i].ctrl.Wire?
      ensures rank(x'.cases[i].ctrl.bit) < rank(y)
    {
      assert Canon(map_, Wire(x.cases[i].ctrl.bit)) == Wire(x'.cases[i].ctrl.bit);
    }
    forall p, j | 0 <= p < x'.Ports() && 0 <= j < |x'.Data(p)| && x'.Data(p)[j].Wire?
      ensures rank(x'.Data(p)[j].bit) < rank(y)
    {
      CanonData(map_, x, p);
      assert Canon(map_, Wire(x.Data(p)[j].bit)) == Wire(x'.Data(p)[j].bit);
    }
  }

  /** What the renamed module mentions, the module mentioned, and it is not connected away. */
  lemma RenamedMentions(mod: Module, cells: seq<Cell>, rank: nat -> nat, b: nat)
    requires WellFormed(mod) && Trimmed(mod, cells) && Sound(mod, rank) && Mentioned(Renamed(mod, cells), b)
    ensures Mentioned(mod, b) && !IsLeft(Pairs(cells), b)
  {
    hide WellFormed, Sound, IsLeft, Pairs, TrimmedCell, PortsFrom, CanonMux, MapOf, Reads, KeptMuxes;
    var mod' := Renamed(mod, cells);
    var c: nat;
    if b in mod'.seen {
      c :| c in mod.seen && Canon(MapOf(mod, cells), Wire(c)) == Wire(b);
    } else {
      var q :| 0 <= q < |mod'.muxes| && Reads(mod'.muxes[q], b);
      var m := RenamedMux(mod, cells, q);
      var x, x' := mod.muxes[m], cells[m].mux;
      assert TrimmedCell(x, cells[m]);
      var at := TrimmedKept(x, x');
      c := CanonReads(MapOf(mod, cells), x', b);
      PortsFromReads(x, x', at, c);
    }
    CanonTarget(mod, cells, rank, c, b);
  }

  /** A bit from outside the renamed module came from outside before, or from a removed cell. */
  lemma RenamedOutside(mod: Module, cells: seq<Cell>, rank: nat -> nat, b: nat) returns (m: nat, j: nat)
    requires WellFormed(mod) && Trimmed(mod, cells) && Sound(mod, rank) && Outside(Renamed(mod, cells), b)
    ensures Mentioned(mod, b)
    ensures Driven(mod, b) ==> Drives(mod, m, j, b) && m < |cells| && cells[m].Removed?
  {
    hide Acyclic, SingleDriver, IsLeft, Pairs, TrimmedCell, Mentioned, Renamed, PortsFrom, MuxOk;
    RenamedMentions(mod, cells, rank, b);
    m, j := 0, 0;
    if Driven(mod, b) {
      var d := DriverOf(mod, b);
      m, j := d.0, d.1;
      var x := mod.muxes[m];
      assert TrimmedCell(x, cells[m]) && MuxOk(x, mod.bits);
      if cells[m].Connected? {
        var p := TrimmedConnected(x, cells[m].y, cells[m].data);
        PortWidth(x, mod.bits, p);
        ConnectedIsLeft(cells, m, j);
        InLeft(Pairs(cells), (cells[m].y[j], cells[m].data[j]));
      } else if cells[m].Kept? {
        KeptOutput(mod, cells, rank, m, j, b);
        var at := TrimmedKept(x, cells[m].mux);
        SameOutput(x, cells[m].mux, at);
        KeptIsDriven(mod, cells, m, j, b);
      }
    }
  }

  lemma InLeft(pairs: seq<Pair>, pair: Pair)
    requires pair in pairs
    ensures IsLeft(pairs, pair.0)
  {
  }

  lemma KeptIsDriven(mod: Module, cells: seq<Cell>, m: nat, j: nat, b: nat)
    requires m < |cells| && cells[m].Kept? && j < |cells[m].mux.y| &&
             CanonBit(MapOf(mod, cells), cells[m].mux.y[j]) == b
    ensures Driven(Renamed(mod, cells), b)
  {
    var map_ := MapOf(mod, cells);
    KeptMuxAt(cells, map_);
    assert m in KeptAt(cells);
    var q :| 0 <= q < |KeptAt(cells)| && KeptAt(cells)[q] == m;
    assert Renamed(mod, cells).muxes[q].y[j] == b;
  }

  // ----- one pass, in values -----

  /** Values below some rank that agree on what the renamed module looks at agree on what the module did. */
  lemma SeenAgrees(mod: Module, cells: seq<Cell>, rank: nat -> nat, u: Valuation, w: Valuation, r: nat, c: nat)
    requires WellFormed(mod) && Trimmed(mod, cells) && Sound(mod, rank)
    requires PairsHold(u, Pairs(cells)) && PairsHold(w, Pairs(cells))
    requires AgreeBelow(Renamed(mod, cells), rank, u, w, r) && c in mod.seen && rank(c) < r
    ensures u(c) == w(c)
  {
    hide WellFormed, Trimmed, Sound, Pairs, KeptMuxes, IsLeft, Mentioned, MergeAll, PairsHold;
    var map_ := MapOf(mod, cells);
    MergeIsSound(u, Pairs(cells), mod.bits);
    MergeIsSound(w, Pairs(cells), mod.bits);
    CanonValue(u, map_, Wire(c));
    CanonValue(w, map_, Wire(c));
    var s := Canon(map_, Wire(c));
    if s.Wire? {
      CanonTarget(mod, cells, rank, c, s.bit);
      assert s.bit in Renamed(mod, cells).seen;
    }
  }

  /** A valuation of the module has a counterpart of the renamed one in the same surroundings as `w`. */
  lemma PassKeepsValues(mod: Module, cells: seq<Cell>, rank: nat -> nat, v: Valuation, w: Valuation)
    returns (u: Valuation)
    requires WellFormed(mod) && Faithful(mod, cells) && Trimmed(mod, cells) && Sound(mod, rank)
    requires Convention(mod, v) && MuxesHold(mod, v) && SameSurroundings(mod, rank, v, w) && PairsHold(w, Pairs(cells))
    ensures Convention(Renamed(mod, cells), u) && MuxesHold(Renamed(mod, cells), u)
    ensures SameSurroundings(Renamed(mod, cells), rank, u, w) && PairsHold(u, Pairs(cells))
    ensures forall b :: b in mod.seen ==> v(b) == u(b)
  {
    hide WellFormed, Trimmed, Faithful, Convention, MuxesHold, Pairs, CellsHold, KeptHold, Renamed, PairsHold, Seen,
         Mentioned, Solution, MapOf;
    u := Solution(mod, cells, rank, v, w);
    SolutionHolds(mod, cells, rank, v, w);
    SeenBitsKept(mod, cells, rank, v, u);
    CellsHoldPairs(u, cells);
    RenamedHolds(mod, cells, u);
    RenamedConvention(mod, cells, v, u);
    forall b | b in mod.seen
      ensures v(b) == u(b)
    {
      InSeen(mod, b);
    }
    var mod' := Renamed(mod, cells);
    forall b | Outside(mod', b) && AgreeBelow(mod', rank, u, w, rank(b))
      ensures u(b) == w(b)
    {
      OutsideAgrees(mod, cells, rank, v, w, b);
    }
  }

  lemma InSeen(mod: Module, b: nat)
    requires b in mod.seen
    ensures Seen(mod, b)
  {
  }

  lemma OutsideAgrees(mod: Module, cells: seq<Cell>, rank: nat -> nat, v: Valuation, w: Valuation, b: nat)
    requires WellFormed(mod) && Trimmed(mod, cells) && Sound(mod, rank)
    requires SameSurroundings(mod, rank, v, w) && PairsHold(w, Pairs(cells))
    requires var u := Solution(mod, cells, rank, v, w);
             && PairsHold(u, Pairs(cells)) && (forall c :: c in mod.seen ==> v(c) == u(c))
             && Outside(Renamed(mod, cells), b) && AgreeBelow(Renamed(mod, cells), rank, u, w, rank(b))
    ensures Solution(mod, cells, rank, v, w)(b) == w(b)
  {
    hide WellFormed, Trimmed, Pairs, Renamed, PairsHold, Mentioned, Solution;
    var u := Solution(mod, cells, rank, v, w);
    var m, j := RenamedOutside(mod, cells, rank, b);
    if Driven(mod, b) {
      SolveDriven(mod, cells, rank, v, w, m, j, b);
    } else {
      SolveUndriven(mod, cells, rank, v, w, b);
      forall c | c in mod.seen && rank(c) < rank(b)
        ensures v(c) == w(c)
      {
        SeenAgrees(mod, cells, rank, u, w, rank(b), c);
      }
      assert AgreeBelow(mod, rank, v, w, rank(b));
    }
  }

  // ----- all passes, in values -----

  ghost predicate FaithfulStep(mod: Module, cells: seq<Cell>, after: Module) {
    Faithful(mod, cells) && Trimmed(mod, cells) && after == Renamed(mod, cells)
  }

  /** The versions of a module, and the cells that each pass made of it. */
  ghost predicate IsHistory(versions: seq<Module>, passes: seq<seq<Cell>>) {
    |versions| == |passes| + 1 && forall k :: 0 <= k < |passes| ==>
      FaithfulStep(versions[k], passes[k], versions[k + 1])
  }

  /** `w` is a valuation of the design at the end: all connections ever made, and the last multiplexers. */
  ghost predicate EndsIn(w: Valuation, versions: seq<Module>, passes: seq<seq<Cell>>) {
    && (forall k :: 0 <= k < |passes| ==> PairsHold(w, Pairs(passes[k])))
    && |versions| > 0 && CellsHold(w, AllKept(versions[|versions| - 1].muxes))
  }

  lemma HistoryTail(versions: seq<Module>, passes: seq<seq<Cell>>, w: Valuation)
    requires IsHistory(versions, passes) && EndsIn(w, versions, passes) && passes != []
    ensures IsHistory(versions[1..], passes[1..]) && EndsIn(w, versions[1..], passes[1..])
  {
    hide FaithfulStep, PairsHold, CellsHold, AllKept;
  }

  /**
   Every bit that the rest of the circuit looks at has the same value before the first pass and after
   the last, in the same surroundings.
   */
  lemma {:induction false} SeenBitsSurvive(versions: seq<Module>, passes: seq<seq<Cell>>, rank: nat -> nat,
                                           v: Valuation, w: Valuation)
    requires IsHistory(versions, passes) && WellFormed(versions[0]) && Sound(versions[0], rank)
    requires Convention(versions[0], v) && MuxesHold(versions[0], v)
    requires EndsIn(w, versions, passes) && SameSurroundings(versions[0], rank, v, w)
    ensures forall b :: b in versions[0].seen ==> v(b) == w(b)
    decreases |passes|
  {
    hide WellFormed, Sound, Convention, MuxesHold, SameSurroundings, CellsHold, PairsHold, Faithful, Trimmed, Renamed;
    var mod := versions[0];
    if passes == [] {
      LastVersion(mod, rank, v, w);
    } else {
      var cells := passes[0];
      assert FaithfulStep(mod, cells, versions[1]);
      var u := PassKeepsValues(mod, cells, rank, v, w);
      RenamedStaysSound(mod, cells, rank);
      HistoryTail(versions, passes, w);
      SeenBitsSurvive(versions[1..], passes[1..], rank, u, w);
      forall b | b in mod.seen
        ensures v(b) == w(b)
      {
        ThroughRename(mod, cells, u, w, b);
      }
    }
  }

  lemma LastVersion(mod: Module, rank: nat -> nat, v: Valuation, w: Valuation)
    requires Sound(mod, rank) && Convention(mod, v) && MuxesHold(mod, v)
    requires CellsHold(w, AllKept(mod.muxes)) && SameSurroundings(mod, rank, v, w)
    ensures forall b :: b in mod.seen ==> v(b) == w(b)
  {
    hide SingleDriver, Acyclic, Convention, MuxesHold, SameSurroundings, CellsHold, Faithful, Outside;
    UntouchedIsFaithful(mod, AllKept(mod.muxes));
    SeenBitsKept(mod, AllKept(mod.muxes), rank, v, w);
  }

  lemma RenamedStaysSound(mod: Module, cells: seq<Cell>, rank: nat -> nat)
    requires WellFormed(mod) && Trimmed(mod, cells) && Sound(mod, rank)
    ensures WellFormed(Renamed(mod, cells)) && Sound(Renamed(mod, cells), rank)
  {
    hide WellFormed, Trimmed, Renamed, TotalKept, TotalPorts;
    RenamedIsWellFormed(mod, cells);
    RenamedSingleDriver(mod, cells, rank);
    RenamedAcyclic(mod, cells, rank);
  }

  lemma ThroughRename(mod: Module, cells: seq<Cell>, u: Valuation, w: Valuation, b: nat)
    requires PairsHold(u, Pairs(cells)) && PairsHold(w, Pairs(cells)) && b in mod.seen
    requires forall c :: c in Renamed(mod, cells).seen ==> u(c) == w(c)
    ensures u(b) == w(b)
  {
    hide Pairs, PairsHold, MergeAll;
    var map_ := MapOf(mod, cells);
    MergeIsSound(u, Pairs(cells), mod.bits);
    MergeIsSound(w, Pairs(cells), mod.bits);
    CanonValue(u, map_, Wire(b));
    CanonValue(w, map_, Wire(b));
    var s := Canon(map_, Wire(b));
    assert s.Wire? ==> s.bit in Renamed(mod, cells).seen;
  }

  // ----- the design at the end has such valuations -----

  ghost predicate Known(mod: Module, b: nat) {
    Mentioned(mod, b) || Driven(mod, b)
  }

  ghost predicate SameOn(mod: Module, w: Valuation, w': Valuation) {
    forall b :: Known(mod, b) ==> w(b) == w'(b)
  }

  lemma SigKnown(mod: Module, m: nat, p: nat, j: nat)
    requires m < |mod.muxes| && p < mod.muxes[m].Ports() && j < |mod.muxes[m].Data(p)|
    ensures var d := mod.muxes[m].Data(p)[j]; d.Wire? ==> Known(mod, d.bit)
  {
    var d := mod.muxes[m].Data(p)[j];
    if d.Wire? {
      assert Wire(d.bit) in mod.muxes[m].Data(p);
      assert Reads(mod.muxes[m], d.bit);
    }
  }

  lemma SelectKnown(mod: Module, m: nat, i: nat)
    requires m < |mod.muxes| && i < |mod.muxes[m].cases|
    ensures var d := mod.muxes[m].cases[i].ctrl; d.Wire? ==> Known(mod, d.bit)
  {
    var d := mod.muxes[m].cases[i].ctrl;
    if d.Wire? {
      assert IsSelect(mod.muxes[m], d.bit);
      assert Reads(mod.muxes[m], d.bit);
    }
  }

  lemma SameMux(mod: Module, w: Valuation, w': Valuation, m: nat)
    requires SameOn(mod, w, w') && m < |mod.muxes|
    ensures AtMostOne(w, mod.muxes[m]) <==> AtMostOne(w', mod.muxes[m])
    ensures MuxHolds(w, mod.muxes[m]) <==> MuxHolds(w', mod.muxes[m])
  {
    hide Known;
    var x := mod.muxes[m];
    forall i | 0 <= i < |x.cases|
      ensures SigVal(w, x.cases[i].ctrl) == SigVal(w', x.cases[i].ctrl)
    {
      SelectKnown(mod, m, i);
    }
    SameCtrlsSamePort(w, w', x);
    var p := Selected(w, x);
    forall j | 0 <= j < |x.Data(p)|
      ensures SigVal(w, x.Data(p)[j]) == SigVal(w', x.Data(p)[j])
    {
      SigKnown(mod, m, p, j);
    }
    forall j | 0 <= j < |x.y|
      ensures w(x.y[j]) == w'(x.y[j])
    {
      OutputKnown(mod, m, j);
    }
  }

  lemma OutputKnown(mod: Module, m: nat, j: nat)
    requires m < |mod.muxes| && j < |mod.muxes[m].y|
    ensures Known(mod, mod.muxes[m].y[j])
  {
    assert mod.muxes[m].y[j] in mod.muxes[m].y;
  }

  lemma SamePairs(mod: Module, cells: seq<Cell>, w: Valuation, w': Valuation)
    requires SameOn(mod, w, w') && Trimmed(mod, cells) && PairsHold(w, Pairs(cells))
    ensures PairsHold(w', Pairs(cells))
  {
    hide Known, TrimmedCell, Pairs;
    var pairs := Pairs(cells);
    forall k | 0 <= k < |pairs|
      ensures w'(pairs[k].0) == SigVal(w', pairs[k].1)
    {
      var m, j := PairsFromCells(cells, k);
      assert TrimmedCell(mod.muxes[m], cells[m]);
      var p := TrimmedConnected(mod.muxes[m], cells[m].y, cells[m].data);
      OutputKnown(mod, m, j);
      SigKnown(mod, m, p, j);
    }
  }

  lemma RenamedKnown(mod: Module, cells: seq<Cell>, rank: nat -> nat, b: nat)
    requires WellFormed(mod) && Trimmed(mod, cells) && Sound(mod, rank) && Known(Renamed(mod, cells), b)
    ensures Known(mod, b) && !IsLeft(Pairs(cells), b)
    ensures Driven(Renamed(mod, cells), b) ==> Driven(mod, b)
  {
    hide WellFormed, Trimmed, Sound, Renamed, Mentioned, IsLeft, Pairs;
    if Mentioned(Renamed(mod, cells), b) {
      RenamedMentions(mod, cells, rank, b);
    }
    if Driven(Renamed(mod, cells), b) {
      var d := DriverOf(Renamed(mod, cells), b);
      var m := RenamedDriver(mod, cells, rank, d.0, d.1, b);
    }
  }

  /** Only bits that the first version knows count for what comes later. */
  lemma {:induction false} SameEnd(versions: seq<Module>, passes: seq<seq<Cell>>, rank: nat -> nat, w: Valuation,
                                   w': Valuation)
    requires IsHistory(versions, passes) && WellFormed(versions[0]) && Sound(versions[0], rank)
    requires EndsIn(w, versions, passes) && SameOn(versions[0], w, w')
    ensures EndsIn(w', versions, passes)
    decreases |passes|
  {
    hide WellFormed, Sound, Known, PairsHold, Pairs, Faithful, Trimmed, Renamed, CellsHold, IsLeft;
    var mod := versions[0];
    if passes == [] {
      SameLast(mod, w, w');
    } else {
      var cells := passes[0];
      assert FaithfulStep(mod, cells, versions[1]);
      RenamedStaysSound(mod, cells, rank);
      forall b | Known(versions[1], b)
        ensures w(b) == w'(b)
      {
        RenamedKnown(mod, cells, rank, b);
      }
      HistoryTail(versions, passes, w);
      SameEnd(versions[1..], passes[1..], rank, w, w');
      SamePairs(mod, cells, w, w');
      EndsEarlier(versions, passes, w');
    }
  }

  lemma SameLast(mod: Module, w: Valuation, w': Valuation)
    requires SameOn(mod, w, w') && CellsHold(w, AllKept(mod.muxes))
    ensures CellsHold(w', AllKept(mod.muxes))
  {
    hide SameOn, AtMostOne, MuxHolds;
    forall m | 0 <= m < |mod.muxes|
      ensures CellHolds(w', AllKept(mod.muxes)[m])
    {
      assert CellHolds(w, AllKept(mod.muxes)[m]);
      SameMux(mod, w, w', m);
    }
  }

  lemma EndsEarlier(versions: seq<Module>, passes: seq<seq<Cell>>, w: Valuation)
    requires |versions| == |passes| + 1 && passes != []
    requires PairsHold(w, Pairs(passes[0])) && EndsIn(w, versions[1..], passes[1..])
    ensures EndsIn(w, versions, passes)
  {
    hide PairsHold, CellsHold, AllKept, Pairs;
    forall k | 0 <= k < |passes|
      ensures PairsHold(w, Pairs(passes[k]))
    {
      if k > 0 {
        assert passes[1..][k - 1] == passes[k];
      }
    }
  }

  ghost function Lifted(map_: SigMap, w: Valuation): Valuation {
    (b: nat) => SigVal(w, Canon(map_, Wire(b)))
  }

  /** Reading a valuation of the renamed module through the map satisfies the connections. */
  lemma LiftedHolds(mod: Module, cells: seq<Cell>, rank: nat -> nat, w: Valuation)
    requires WellFormed(mod) && Trimmed(mod, cells) && Sound(mod, rank)
    ensures PairsHold(Lifted(MapOf(mod, cells), w), Pairs(cells))
  {
    hide WellFormed, Trimmed, Acyclic, SingleDriver, Pairs, MergeAll, PairsInRange;
    var pairs := Pairs(cells);
    PairsAreInRange(mod, cells);
    PairsAreOrderly(mod, cells, rank);
    forall k | 0 <= k < |pairs|
      ensures Lifted(MapOf(mod, cells), w)(pairs[k].0) == SigVal(Lifted(MapOf(mod, cells), w), pairs[k].1)
    {
      MergeIsComplete(pairs, mod.bits, rank, k);
    }
  }

  /** Every valuation of the first version has a counterpart at the end, with the same bits from outside. */
  lemma {:induction false} EndExists(versions: seq<Module>, passes: seq<seq<Cell>>, rank: nat -> nat, v: Valuation)
    returns (w: Valuation)
    requires IsHistory(versions, passes) && WellFormed(versions[0]) && Sound(versions[0], rank)
    requires Convention(versions[0], v) && MuxesHold(versions[0], v)
    ensures EndsIn(w, versions, passes) && forall b :: !Driven(versions[0], b) ==> w(b) == v(b)
    decreases |passes|
  {
    hide WellFormed, Acyclic, SingleDriver, Convention, MuxesHold, PairsHold, Pairs, Faithful, Trimmed, Renamed,
         CellsHold, KeptHold, IsLeft, Outside, SameSurroundings, Seen, Known, MapOf, Solution, Driven;
    var mod := versions[0];
    if passes == [] {
      w := v;
      HeldAll(mod, v);
    } else {
      var cells := passes[0];
      assert FaithfulStep(mod, cells, versions[1]);
      var u := Solution(mod, cells, rank, v, v);
      SolutionHolds(mod, cells, rank, v, v);
      SeenBitsKept(mod, cells, rank, v, u);
      RenamedHolds(mod, cells, u);
      RenamedConvention(mod, cells, v, u);
      RenamedStaysSound(mod, cells, rank);
      TailIsHistory(versions, passes);
      var w' := EndExists(versions[1..], passes[1..], rank, u);
      w := Lifted(MapOf(mod, cells), w');
      LiftedHolds(mod, cells, rank, w');
      LiftedKnown(mod, cells, rank, w');
      SameEnd(versions[1..], passes[1..], rank, w', w);
      EndsEarlier(versions, passes, w);
      forall b | !Driven(mod, b)
        ensures w(b) == v(b)
      {
        LiftedUndriven(mod, cells, rank, w', b);
        SolveUndriven(mod, cells, rank, v, v, b);
      }
    }
  }

  lemma TailIsHistory(versions: seq<Module>, passes: seq<seq<Cell>>)
    requires IsHistory(versions, passes) && passes != []
    ensures IsHistory(versions[1..], passes[1..])
  {
    hide FaithfulStep;
  }

  lemma HeldAll(mod: Module, v: Valuation)
    requires MuxesHold(mod, v)
    ensures CellsHold(v, AllKept(mod.muxes))
  {
  }

  lemma LiftedKnown(mod: Module, cells: seq<Cell>, rank: nat -> nat, w: Valuation)
    requires WellFormed(mod) && Trimmed(mod, cells) && Sound(mod, rank)
    ensures SameOn(Renamed(mod, cells), w, Lifted(MapOf(mod, cells), w))
  {
    hide WellFormed, Trimmed, Sound, Renamed, Known, IsLeft, Pairs, MapOf;
    forall b | Known(Renamed(mod, cells), b)
      ensures w(b) == Lifted(MapOf(mod, cells), w)(b)
    {
      RenamedKnown(mod, cells, rank, b);
      CanonUnconnected(mod, cells, rank, b);
    }
  }

  lemma LiftedUndriven(mod: Module, cells: seq<Cell>, rank: nat -> nat, w: Valuation, b: nat)
    requires WellFormed(mod) && Trimmed(mod, cells) && Sound(mod, rank) && !Driven(mod, b)
    ensures Lifted(MapOf(mod, cells), w)(b) == w(b) && !Driven(Renamed(mod, cells), b)
  {
    hide WellFormed, Trimmed, Sound, Renamed, IsLeft, Pairs, MapOf;
    if IsLeft(Pairs(cells), b) {
      var m, j := LeftIsOutput(mod, cells, b);
    }
    CanonUnconnected(mod, cells, rank, b);
    if Driven(Renamed(mod, cells), b) {
      RenamedKnown(mod, cells, rank, b);
    }
  }

  // ----- the methods -----

  function DesignPorts(mods: seq<Module>): nat {
    if mods == [] then 0 else TotalPorts(mods[0].muxes) + DesignPorts(mods[1..])
  }

  lemma {:induction false} DesignPortsAfter(mods: seq<Module>, i: nat, mod: Module)
    requires i < |mods|
    ensures DesignPorts(mods[i := mod]) == DesignPorts(mods) - TotalPorts(mods[i].muxes) + TotalPorts(mod.muxes)
  {
    if i == 0 {
      assert mods[0 := mod][1..] == mods[1..];
    } else {
      DesignPortsAfter(mods[1..], i - 1, mod);
      assert mods[i := mod][1..] == mods[1..][i - 1 := mod];
    }
  }

  ghost predicate FaithfulPass(before: seq<Module>, cells: seq<seq<Cell>>, after: seq<Module>) {
    && |before| == |cells| == |after|
    && forall i :: 0 <= i < |before| ==> FaithfulStep(before[i], cells[i], after[i])
  }

  /** With enough budget, exactly the ports that some evaluation looked at are left. */
  ghost predicate TightStep(mod: Module, cells: seq<Cell>, budget: nat) {
    budget > EvalBound(mod) ==> exists begun, root :: Examined(mod, begun, root) && LeavesWarranted(mod, begun, cells)
  }

  /** Every port is one that some evaluation looks at. */
  ghost predicate NothingDead(mod: Module) {
    exists begun, root :: Examined(mod, begun, root) && DeadCount(mod, begun, |mod.muxes|) == 0
  }

  lemma {:induction false} NoneDead(mod: Module, begun: seq<Entry>, n: nat, m: nat, p: nat)
    requires m < n <= |mod.muxes| && DeadCount(mod, begun, n) == 0 && p < mod.muxes[m].Ports()
    ensures Warranted(mod, begun, m, p)
  {
    hide Warranted;
    if m < n - 1 {
      NoneDead(mod, begun, n - 1, m, p);
    } else {
      assert DeadPorts(mod, begun, m) == {};
      assert p !in DeadPorts(mod, begun, m);
    }
  }

  /** So every port of every multiplexer is let through by a path from a root. */
  lemma NothingDeadMeans(mod: Module, m: nat, p: nat) returns (root: seq<bool>)
    requires NothingDead(mod) && m < |mod.muxes| && p < mod.muxes[m].Ports()
    ensures LetThrough(mod, root, m, p) && |root| == |mod.muxes|
    ensures forall q :: 0 <= q < |root| && root[q] ==> IsRoot(mod, q)
  {
    hide Warranted, LetThrough, DeadCount, AllGrounded, InputsExamined, Observed, IsRoot;
    var begun;
    begun, root :| Examined(mod, begun, root) && DeadCount(mod, begun, |mod.muxes|) == 0;
    NoneDead(mod, begun, |mod.muxes|, m, p);
    WarrantedHasPath(mod, begun, root, m, p);
  }

  /** One pass over one module, as the next pass will see it. */
  method PassOnce(mod: Module, budget: nat) returns (after: Module, removed: nat, ghost cells: seq<Cell>)
    requires WellFormed(mod) && budget > 0
    ensures WellFormed(after) && FaithfulStep(mod, cells, after) && TightStep(mod, cells, budget)
    ensures TotalPorts(after.muxes) + removed <= TotalPorts(mod.muxes)
    ensures removed == 0 ==> after == mod
    ensures removed == 0 && budget > EvalBound(mod) ==> NothingDead(mod)
  {
    hide WellFormed, Faithful, TotalPorts, TotalKept, Untouched, Trimmed, Renamed, Examined, LeavesWarranted,
         DeadCount, EvalBound;
    var made, dead, done;
    ghost var begun, root;
    made, dead, done, begun, root := RunPass(mod, budget);
    RenamedIsWellFormed(mod, made);
    if dead == 0 {
      UntouchedStays(mod, made);
    }
    after, removed, cells := Renamed(mod, made), dead, made;
  }

  /** One pass over all modules. */
  method PassOver(design: seq<Module>, budget: nat)
    returns (mods: seq<Module>, total: nat, ghost cells: seq<seq<Cell>>)
    requires (forall i :: 0 <= i < |design| ==> WellFormed(design[i])) && budget > 0
    ensures |mods| == |design| && forall i :: 0 <= i < |mods| ==> WellFormed(mods[i])
    ensures FaithfulPass(design, cells, mods)
    ensures forall i :: 0 <= i < |design| ==> TightStep(design[i], cells[i], budget)
    ensures DesignPorts(mods) + total <= DesignPorts(design)
    ensures total == 0 ==> mods == design
    ensures total == 0 ==> forall i :: 0 <= i < |design| && budget > EvalBound(design[i]) ==> NothingDead(design[i])
  {
    hide WellFormed, TotalPorts, FaithfulStep, TightStep, NothingDead, EvalBound;
    mods, total, cells := design, 0, [];
    for i := 0 to |design|
      invariant |mods| == |design| && forall j :: 0 <= j < |mods| ==> WellFormed(mods[j])
      invariant |cells| == i && forall j :: 0 <= j < i ==> FaithfulStep(design[j], cells[j], mods[j])
      invariant forall j :: 0 <= j < i ==> TightStep(design[j], cells[j], budget)
      invariant mods[i..] == design[i..]
      invariant DesignPorts(mods) + total <= DesignPorts(design)
      invariant total == 0 ==> mods == design
      invariant total == 0 ==> forall j :: 0 <= j < i && budget > EvalBound(design[j]) ==> NothingDead(design[j])
    {
      assert mods[i] == mods[i..][0] == design[i];
      var mod, removed;
      ghost var made;
      mod, removed, made := PassOnce(mods[i], budget);
      DesignPortsAfter(mods, i, mod);
      mods, total, cells := mods[i := mod], total + removed, cells + [made];
    }
  }

  ghost predicate IsDesignHistory(history: seq<seq<Module>>, log: seq<seq<seq<Cell>>>) {
    |history| == |log| + 1 && forall k :: 0 <= k < |log| ==> FaithfulPass(history[k], log[k], history[k + 1])
  }

  ghost predicate TightPass(before: seq<Module>, cells: seq<seq<Cell>>, budget: nat) {
    |before| == |cells| && forall i :: 0 <= i < |before| ==> TightStep(before[i], cells[i], budget)
  }

  /**
   Repeats the pass until it removes nothing; each repetition costs at least one port. At the end no
   module that the budget suffices for has a dead port.
   */
  method Execute(design: seq<Module>, budget: nat)
    returns (mods: seq<Module>, passes: nat, ghost history: seq<seq<Module>>, ghost log: seq<seq<seq<Cell>>>)
    requires (forall i :: 0 <= i < |design| ==> WellFormed(design[i])) && budget > 0
    ensures |mods| == |design| && forall i :: 0 <= i < |mods| ==> WellFormed(mods[i])
    ensures 1 <= passes && DesignPorts(mods) + passes <= DesignPorts(design) + 1
    ensures IsDesignHistory(history, log) && |log| == passes
    ensures forall k :: 0 <= k < passes ==> TightPass(history[k], log[k], budget)
    ensures history[0] == design && history[passes] == mods == history[passes - 1]
    ensures forall i :: 0 <= i < |mods| && budget > EvalBound(mods[i]) ==> NothingDead(mods[i])
  {
    hide WellFormed, DesignPorts, FaithfulPass, TightStep, NothingDead, EvalBound;
    mods, passes, history, log := design, 0, [design], [];
    var total := 1;
    while total != 0
      invariant |mods| == |design| && forall i :: 0 <= i < |mods| ==> WellFormed(mods[i])
      invariant total != 0 ==> DesignPorts(mods) + passes <= DesignPorts(design)
      invariant total == 0 ==> 1 <= passes && DesignPorts(mods) + passes <= DesignPorts(design) + 1
      invariant IsDesignHistory(history, log) && |log| == passes
      invariant forall k :: 0 <= k < passes ==> TightPass(history[k], log[k], budget)
      invariant history[0] == design && history[passes] == mods
      invariant total == 0 ==> passes > 0 && history[passes - 1] == mods
      invariant total == 0 ==> forall i :: 0 <= i < |mods| && budget > EvalBound(mods[i]) ==> NothingDead(mods[i])
      decreases total != 0, DesignPorts(mods), if passes == 0 then 1 else 0
    {
      ghost var before, cells := mods, [];
      mods, total, cells := PassOver(mods, budget);
      SameLength(before, cells, mods);
      passes, history, log := passes + 1, history + [mods], log + [cells];
    }
  }

  lemma SameLength(before: seq<Module>, cells: seq<seq<Cell>>, after: seq<Module>)
    requires FaithfulPass(before, cells, after)
    ensures |before| == |cells| == |after|
  {
  }

  ghost function Versions(history: seq<seq<Module>>, i: nat): seq<Module>
    requires forall k :: 0 <= k < |history| ==> i < |history[k]|
  {
    seq(|history|, k requires 0 <= k < |history| => history[k][i])
  }

  ghost function PassesOf(log: seq<seq<seq<Cell>>>, i: nat): seq<seq<Cell>>
    requires forall k :: 0 <= k < |log| ==> i < |log[k]|
  {
    seq(|log|, k requires 0 <= k < |log| => log[k][i])
  }

  lemma {:induction false} HistoryWidths(history: seq<seq<Module>>, log: seq<seq<seq<Cell>>>, k: nat)
    requires IsDesignHistory(history, log) && k < |history|
    ensures |history[k]| == |history[0]| && (k < |log| ==> |log[k]| == |history[0]|)
  {
    hide FaithfulStep;
    if k > 0 {
      HistoryWidths(history, log, k - 1);
      assert FaithfulPass(history[k - 1], log[k - 1], history[k]);
    }
    assert k < |log| ==> FaithfulPass(history[k], log[k], history[k + 1]);
  }

  /** What a whole run does to one module: its history keeps every bit that is looked at. */
  lemma RunKeepsSeenBits(history: seq<seq<Module>>, log: seq<seq<seq<Cell>>>, i: nat, rank: nat -> nat, v: Valuation,
                         w: Valuation)
    requires IsDesignHistory(history, log) && i < |history[0]|
    requires WellFormed(history[0][i]) && Sound(history[0][i], rank)
    requires Convention(history[0][i], v) && MuxesHold(history[0][i], v)
    ensures (forall k :: 0 <= k < |history| ==> i < |history[k]|) && forall k :: 0 <= k < |log| ==> i < |log[k]|
    ensures EndsIn(w, Versions(history, i), PassesOf(log, i)) && SameSurroundings(history[0][i], rank, v, w) ==>
              forall b :: b in history[0][i].seen ==> v(b) == w(b)
  {
    hide WellFormed, Sound, Convention, MuxesHold, EndsIn, SameSurroundings, FaithfulStep;
    forall k | 0 <= k < |history|
      ensures |history[k]| == |history[0]| && (k < |log| ==> |log[k]| == |history[0]|)
    {
      HistoryWidths(history, log, k);
    }
    var versions, passes := Versions(history, i), PassesOf(log, i);
    forall k | 0 <= k < |passes|
      ensures FaithfulStep(versions[k], passes[k], versions[k + 1])
    {
      assert FaithfulPass(history[k], log[k], history[k + 1]);
    }
    if EndsIn(w, versions, passes) && SameSurroundings(history[0][i], rank, v, w) {
      SeenBitsSurvive(versions, passes, rank, v, w);
    }
  }
}
