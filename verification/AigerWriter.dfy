/**
 The AIGER writer: a memoised compiler from netlist bits to literals, run once over
 flip-flops, outputs and property cells.
 */
module AigerWriters {
  import opened AigCore
  import opened Wrappers
  import opened Netlists
  import opened AigerLayout

  /** Why the writer gives up: it stops the whole program in each case. */
  datatype Error =
    | CombinationalLoop
    | UndefinedConstant   // an 'x' or 'z' bit
    | Undriven            // no cell drives the bit

  datatype LitResult = Ok(lit: Lit) | Err(error: Error)

  /** No recursion of `Bit2Aig` goes deeper than this. */
  function DepthBound(n: Netlist): nat {
    if 2 * |n.bits| > 1024 then 2 * |n.bits| else 1024
  }

  /** Latch inputs with their reset codes. */
  function Pair(o: Options, ins: seq<Lit>, codes: seq<nat>): seq<Latch>
    requires |ins| == |codes|
  {
    seq(|ins|, i requires 0 <= i < |ins| => Latch(ins[i], ResetOf(o, codes[i])))
  }

  /** What an error says about the netlist. */
  ghost predicate Justified(n: Netlist, e: Error) {
    match e
    case CombinationalLoop => HasCycle(n)
    case UndefinedConstant => Sx in n.bits || Sz in n.bits
    case Undriven => !Closed(n)
  }

  /** A closed acyclic netlist without undefined constants gives no cause for an error. */
  lemma SoundNetlistHasNoError(n: Netlist, rk: Bit -> nat, e: Error)
    requires Acyclic(n, rk) && Closed(n) && Sx !in n.bits && Sz !in n.bits
    ensures !Justified(n, e)
  {
    hide Acyclic;
    AcyclicHasNoCycle(n, rk);
  }

  /** Cutting the concatenated output list by the section sizes gives each section back. */
  lemma Sections(outs: seq<Lit>, bads: seq<Lit>, cons: seq<Lit>, js: seq<Lit>, fs: seq<Lit>)
    ensures var all, o, b, c, j := outs + bads + cons + (js + fs), |outs|, |bads|, |cons|, |js|;
            && all[..o] == outs && all[o..o + b] == bads && all[o + b..o + b + c] == cons
            && all[o + b + c..o + b + c + j] == js && all[o + b + c + j..] == fs
  {
  }

  class AigerWriter {
    const n: Netlist
    const o: Options

    var aigMap: map<Bit, Lit>
    var gates: seq<Gate>
    var latchIn: seq<Lit>
    var latchInit: seq<nat>
    var outputs: seq<Lit>

    var stack: seq<Bit>
    var nextLoopCheck: nat

    var aigM: nat
    var aigI: nat
    var aigL: nat
    var aigO: nat
    var aigA: nat
    var aigB: nat
    var aigC: nat
    var aigJ: nat
    var aigF: nat

    var orderedLatches: map<Bit, nat>
    var initInputs: map<Bit, Lit>
    var initstateFf: Lit

    // The order in which bits got their literals.
    ghost var rank: map<Bit, nat>

    constructor (n: Netlist, o: Options)
      ensures this.n == n && this.o == o
      ensures aigMap == map[] && gates == [] && latchIn == [] && latchInit == [] && outputs == []
      ensures stack == [] && nextLoopCheck == 1024
      ensures aigM == aigI == aigL == aigO == aigA == aigB == aigC == aigJ == aigF == 0
      ensures orderedLatches == map[] && initInputs == map[] && initstateFf == FALSE && rank == map[]
    {
      this.n, this.o := n, o;
      aigMap, gates, latchIn, latchInit, outputs := map[], [], [], [], [];
      stack, nextLoopCheck := [], 1024;
      aigM, aigI, aigL, aigO, aigA, aigB, aigC, aigJ, aigF := 0, 0, 0, 0, 0, 0, 0, 0, 0;
      orderedLatches, initInputs, initstateFf, rank := map[], map[], FALSE, map[];
    }

    ghost predicate Counted()
      reads this`aigM, this`aigI, this`aigL, this`aigA, this`gates
    {
      && aigM == aigI + aigL + |gates|
      && aigA == |gates|
      && Sorted(gates, aigI + aigL)
    }

    /** The counters agree, and every literal so far is the right one. */
    ghost predicate Valid()
      reads this`aigM, this`aigI, this`aigL, this`aigA, this`gates, this`initstateFf, this`aigMap, this`rank,
            this`stack, this`nextLoopCheck
    {
      && Counted()
      && initstateFf == FirstLit(n, o)
      && initstateFf.v <= aigI + aigL
      && rank.Keys == aigMap.Keys
      && Structure(n, o, aigMap, gates, aigI + aigL, rank)
      && StackOk()
    }

    /** The bits being compiled have no literal yet, and each waits for the one above it. */
    ghost predicate StackOk()
      reads this`stack, this`nextLoopCheck, this`aigMap
    {
      && |stack| <= nextLoopCheck <= DepthBound(n)
      && 0 < nextLoopCheck
      && (forall i :: 0 <= i < |stack| ==> stack[i] in n.bits && stack[i] !in aigMap)
      && Chain(n, aigMap, stack)
    }

    ghost predicate Ready(bit: Bit)
      reads this
    {
      && bit in n.bits
      && (stack == [] || bit in aigMap || FirstUnmapped(n, aigMap, stack[|stack| - 1]) == Some(bit))
    }

    method MkGate(a0: Lit, a1: Lit) returns (l: Lit)
      requires Counted()
      requires a0.v <= aigM && a1.v <= aigM
      modifies this`gates, this`aigM, this`aigA
      ensures Counted()
      ensures old(Valid()) ==> Valid()
      ensures gates == old(gates) + [AigCore.MkGate(a0, a1)]
      ensures l == Pos(aigM) && IsAnd(gates, aigI + aigL, l, a0, a1)
    {
      hide Structure;
      if Valid() {
        StructureAfterGate(n, o, aigMap, gates, aigI + aigL, rank, a0, a1);
      }
      aigM, aigA := aigM + 1, aigA + 1;
      gates := gates + [if a0.Code() > a1.Code() then Gate(a0, a1) else Gate(a1, a0)];
      return Pos(aigM);
    }

    /**
     The literal of `bit`, compiling whatever it depends on. A loop error is only ever
     reported for a real combinational cycle, a bit on a cycle never gets a literal, and
     the recursion is bounded on cyclic netlists too.
     */
    method Bit2Aig(bit: Bit) returns (r: LitResult)
      requires Contained(n) && LeavesOk(n)
      requires Valid() && Ready(bit)
      modifies this`aigMap, this`gates, this`aigM, this`aigA, this`stack, this`nextLoopCheck, this`rank
      ensures r.Ok? ==> Valid() && stack == old(stack)
      ensures r.Ok? ==> Extends(old(aigMap), aigMap) && old(gates) <= gates
      ensures r.Ok? ==> bit in aigMap && r.lit == aigMap[bit] && r.lit.v <= aigM
      ensures r.Ok? ==> !OnCycle(n, bit)
      ensures r.Err? ==> Justified(n, r.error)
      decreases DepthBound(n) - |stack|, 1
    {
      hide Structure, Chain, HasCycle, Contained, LeavesOk, FirstUnmapped, Justified, OnCycle;
      MappedBits();
      if bit in aigMap {
        NotOnCycle(bit);
        return Ok(aigMap[bit]);
      }
      r := CompileBit(bit);
      if r.Ok? {
        NotOnCycle(bit);
      }
    }

    /** A bit that has a literal lies on no combinational cycle. */
    lemma NotOnCycle(bit: Bit)
      requires Valid() && bit in aigMap
      ensures !OnCycle(n, bit)
    {
      hide LeafLits, CellLits, Ranked, Bounded, StackOk, Counted, IsPath;
      if OnCycle(n, bit) {
        var p :| IsCycle(n, p) && p[0] == bit;
        MappedBitIsOnNoCycle(n, aigMap, rank, p);
      }
    }

    /** Compiles a bit that has no literal yet, keeping it on the stack meanwhile. */
    method CompileBit(bit: Bit) returns (r: LitResult)
      requires Contained(n) && LeavesOk(n)
      requires Valid() && Ready(bit) && bit !in aigMap && bit !in n.leaves
      modifies this`aigMap, this`gates, this`aigM, this`aigA, this`stack, this`nextLoopCheck, this`rank
      ensures r.Ok? ==> Valid() && stack == old(stack)
      ensures r.Ok? ==> Extends(old(aigMap), aigMap) && old(gates) <= gates
      ensures r.Ok? ==> bit in aigMap && r.lit == aigMap[bit] && r.lit.v <= aigM
      ensures r.Err? ==> Justified(n, r.error)
      decreases DepthBound(n) - |stack|, 0
    {
      hide Valid, CellLit, HasCycle, Contained, LeavesOk, FirstUnmapped, Deps, Ready;
      var loop := Enter(bit);
      if loop {
        return Err(CombinationalLoop);
      }
      r := CompileCell(bit);
      if r.Ok? {
        r := Close(bit, r.lit, old(stack));
      }
    }

    /** Puts a bit on the stack, unless it is found there already. */
    method Enter(bit: Bit) returns (loop: bool)
      requires Valid() && Ready(bit) && bit !in aigMap
      modifies this`stack, this`nextLoopCheck
      ensures stack == old(stack) || (stack == old(stack) + [bit] && |stack| <= DepthBound(n))
      ensures loop ==> HasCycle(n)
      ensures !loop ==> Valid() && stack == old(stack) + [bit]
      ensures old(stack) == [] || bit in Deps(n, old(stack)[|old(stack)| - 1])
    {
      assert Waiting(bit);
      hide Structure, Chain, HasCycle, FirstUnmapped, Deps, Waiting;
      loop := CheckLoop(bit);
      if !loop {
        Push(bit);
      }
    }

    /** Takes a compiled bit off the stack and records its literal. */
    method Close(bit: Bit, a: Lit, ghost below: seq<Bit>) returns (r: LitResult)
      requires Valid() && stack == below + [bit] && a.v <= aigM
      requires below == [] || bit in Deps(n, below[|below| - 1])
      requires bit !in aigMap && FirstUnmapped(n, aigMap, bit) == None
      requires CellLit(n, o, aigMap[bit := a], gates, aigI + aigL, bit)
      modifies this`aigMap, this`stack, this`rank
      ensures r.Ok? ==> Valid() && stack == below && r == Ok(a) && aigMap == old(aigMap)[bit := a]
      ensures r.Err? ==> Justified(n, r.error)
    {
      hide Structure, Chain, CellLit, FirstUnmapped, Deps;
      assert stack[|stack| - 1] == bit && stack[..|stack| - 1] == below;
      Pop();
      if bit == Sx || bit == Sz {
        return Err(UndefinedConstant);
      }
      Finish(bit, a);
      r := Ok(a);
    }

    ghost predicate Waiting(bit: Bit)
      reads this
    {
      stack == [] || bit in Deps(n, stack[|stack| - 1])
    }

    /** Whether the bit about to be pushed is already being compiled, tested at doubling depths. */
    method CheckLoop(bit: Bit) returns (loop: bool)
      requires StackOk() && Ready(bit) && bit !in aigMap
      modifies this`nextLoopCheck
      ensures loop ==> HasCycle(n)
      ensures !loop ==> StackOk() && |stack| < nextLoopCheck
    {
      assert Chain(n, aigMap, stack + [bit]);
      if |stack| == nextLoopCheck {
        var i := 0;
        while i < nextLoopCheck
          invariant i <= nextLoopCheck
          invariant forall j :: 0 <= j < i ==> stack[j] != bit
        {
          if stack[i] == bit {
            LoopIsCycle(i, bit);
            return true;
          }
          i := i + 1;
        }
        assert |stack| < |n.bits| by { ShortStack(bit); }
        nextLoopCheck := 2 * nextLoopCheck;
      }
      return false;
    }

    method Push(bit: Bit)
      requires Valid() && Ready(bit) && bit !in aigMap && |stack| < nextLoopCheck
      modifies this`stack
      ensures Valid() && stack == old(stack) + [bit]
    {
      hide Structure;
      stack := stack + [bit];
    }

    method Pop()
      requires Valid() && stack != []
      modifies this`stack
      ensures Valid() && stack == old(stack)[..|old(stack)| - 1]
    {
      hide Structure;
      stack := stack[..|stack| - 1];
    }

    /** The literal of the bit on top of the stack, from its operands' literals. */
    method CompileCell(bit: Bit) returns (r: LitResult)
      requires Contained(n) && LeavesOk(n)
      requires Valid() && stack != [] && bit == stack[|stack| - 1] && bit !in n.leaves
      modifies this`aigMap, this`gates, this`aigM, this`aigA, this`stack, this`nextLoopCheck, this`rank
      ensures r.Ok? ==> Valid() && stack == old(stack)
      ensures r.Ok? ==> Extends(old(aigMap), aigMap) && old(gates) <= gates
      ensures r.Ok? ==> bit !in aigMap && FirstUnmapped(n, aigMap, bit) == None
      ensures r.Ok? ==> r.lit.v <= aigM && CellLit(n, o, aigMap[bit := r.lit], gates, aigI + aigL, bit)
      ensures r.Err? ==> Justified(n, r.error)
      decreases DepthBound(n) - |stack|, 3
    {
      hide Structure;
      if bit in n.notMap {
        var arg := n.notMap[bit];
        assert Deps(n, bit) == [arg];
        r := Bit2Aig(arg);
        if r.Ok? {
          r := Ok(Neg(r.lit));
        }
      } else if bit in n.andMap {
        r := CompileAnd(bit);
      } else if bit in n.aliasMap {
        var arg := n.aliasMap[bit];
        assert Deps(n, bit) == [arg];
        r := Bit2Aig(arg);
      } else if bit in n.initstate {
        r := Ok(initstateFf);
      } else if bit == Sx || bit == Sz {
        r := Err(UndefinedConstant);
      } else {
        r := Err(Undriven);
      }
    }

    method CompileAnd(bit: Bit) returns (r: LitResult)
      requires Contained(n) && LeavesOk(n)
      requires Valid() && stack != [] && bit == stack[|stack| - 1] && bit !in n.leaves
      requires bit !in n.notMap && bit in n.andMap
      modifies this`aigMap, this`gates, this`aigM, this`aigA, this`stack, this`nextLoopCheck, this`rank
      ensures r.Ok? ==> Valid() && stack == old(stack)
      ensures r.Ok? ==> Extends(old(aigMap), aigMap) && old(gates) <= gates
      ensures r.Ok? ==> bit !in aigMap && FirstUnmapped(n, aigMap, bit) == None
      ensures r.Ok? ==> r.lit.v <= aigM && CellLit(n, o, aigMap[bit := r.lit], gates, aigI + aigL, bit)
      ensures r.Err? ==> Justified(n, r.error)
      decreases DepthBound(n) - |stack|, 2
    {
      hide Valid, Contained, LeavesOk, Ready, Justified, FirstUnmapped, CellLit, DepthBound;
      var args := n.andMap[bit];
      OperandsReady(bit);
      r := Bit2Aig(args.0);
      if r.Err? {
        return;
      }
      var a0 := r.lit;
      OperandsReady(bit);
      r := Bit2Aig(args.1);
      if r.Err? {
        return;
      }
      OperandsReady(bit);
      var g := MkGate(a0, r.lit);
      AndCompiled(bit, g);
      r := Ok(g);
    }

    /** While an and gate is on top of the stack, its operands may be compiled in order. */
    lemma OperandsReady(bit: Bit)
      requires Contained(n) && Valid() && stack != [] && bit == stack[|stack| - 1] && bit !in n.leaves
      requires bit !in n.notMap && bit in n.andMap
      ensures bit !in aigMap && Counted() && |stack| <= DepthBound(n)
      ensures Ready(n.andMap[bit].0) && (n.andMap[bit].0 in aigMap ==> Ready(n.andMap[bit].1))
      ensures n.andMap[bit].0 in aigMap && n.andMap[bit].1 in aigMap ==> FirstUnmapped(n, aigMap, bit) == None
    {
      hide Structure, Chain;
      assert Deps(n, bit) == [n.andMap[bit].0, n.andMap[bit].1];
    }

    lemma AndCompiled(bit: Bit, g: Lit)
      requires bit !in aigMap && bit !in n.leaves && bit !in n.notMap && bit in n.andMap
      requires n.andMap[bit].0 in aigMap && n.andMap[bit].1 in aigMap
      requires IsAnd(gates, aigI + aigL, g, aigMap[n.andMap[bit].0], aigMap[n.andMap[bit].1])
      ensures CellLit(n, o, aigMap[bit := g], gates, aigI + aigL, bit)
    {
    }

    /** Records the literal of the bit whose operands have just been compiled. */
    method Finish(bit: Bit, a: Lit)
      requires Valid()
      requires bit in n.bits && bit !in aigMap && FirstUnmapped(n, aigMap, bit) == None
      requires Waiting(bit) && a.v <= aigM
      requires CellLit(n, o, aigMap[bit := a], gates, aigI + aigL, bit)
      modifies this`aigMap, this`rank
      ensures Valid() && aigMap == old(aigMap)[bit := a]
    {
      hide Structure, Chain, FirstUnmapped, CellLit;
      FinishStructure(bit, a);
      ChainAfterCell(n, aigMap, stack, bit, a);
      aigMap, rank := aigMap[bit := a], rank[bit := NextRank(Deps(n, bit), rank)];
    }

    // ----- numbering -----

    method NumberInputs()
      requires LeavesOk(n) && DistinctLeaves(n)
      requires aigM == 0 && aigI == 0 && initInputs == map[]
      modifies this`aigMap, this`aigM, this`aigI, this`initInputs
      ensures aigM == aigI == Inputs(n, o)
      ensures FixedLits(n, aigMap) && InputLits(n, aigMap, |n.inputs|) && OnlyLeaves(n, aigMap)
      ensures Bounded(aigMap, aigM)
      ensures o.zinit ==> InitLits(n, o, initInputs, |n.ffs|)
      ensures initInputs == map[] <==> InitInputs(n, o) == 0
    {
      hide DistinctLeaves, LeavesOk, FixedLits, InputLits, OnlyLeaves, InitLits;
      NumberPorts();
      if o.imode && n.inputs == [] {
        aigM, aigI := aigM + 1, aigI + 1;
      }
      if o.zinit {
        NumberInitInputs();
      }
      aigM := aigM + |n.liveness|;
      aigI := aigI + |n.liveness|;
    }

    method NumberPorts()
      requires LeavesOk(n) && DistinctLeaves(n)
      requires aigM == 0 && aigI == 0
      modifies this`aigMap, this`aigM, this`aigI
      ensures aigM == aigI == |n.inputs|
      ensures FixedLits(n, aigMap) && InputLits(n, aigMap, |n.inputs|) && OnlyLeaves(n, aigMap)
      ensures Bounded(aigMap, aigM)
    {
      hide LeavesOk, DistinctLeaves, FixedLits, InputLits, OnlyLeaves, StartMap;
      StartLits(n);
      aigMap := StartMap(n);
      for i := 0 to |n.inputs|
        invariant aigM == aigI == i
        invariant FixedLits(n, aigMap) && InputLits(n, aigMap, i) && OnlyLeaves(n, aigMap)
        invariant Bounded(aigMap, aigM)
      {
        AddInputLit(n, aigMap, i);
        aigM, aigI := aigM + 1, aigI + 1;
        aigMap := aigMap[n.inputs[i] := Pos(aigM)];
      }
    }

    method NumberInitInputs()
      requires DistinctLeaves(n)
      requires aigM == aigI == PortInputs(n, o) && initInputs == map[]
      modifies this`aigM, this`aigI, this`initInputs
      ensures aigM == aigI == PortInputs(n, o) + Uninit(n)
      ensures InitLits(n, o, initInputs, |n.ffs|)
      ensures initInputs == map[] <==> Uninit(n) == 0
    {
      hide DistinctLeaves, InitLits;
      NoInitLits(n, o, initInputs);
      for i := 0 to |n.ffs|
        invariant aigM == aigI == PortInputs(n, o) + UninitBefore(n, i)
        invariant InitLits(n, o, initInputs, i)
        invariant initInputs == map[] <==> UninitBefore(n, i) == 0
      {
        var q := n.ffs[i].q;
        AddInitLit(n, o, initInputs, i);
        if q !in n.initMap {
          aigM, aigI := aigM + 1, aigI + 1;
          initInputs := initInputs[q := Pos(aigM)];
          assert q in initInputs;
        }
      }
    }

    /** The reset codes of the latches: one per flip-flop, then zero for the writer's own. */
    ghost predicate InitCodes()
      reads this`latchInit, this`aigL
    {
      && |latchInit| == aigL && |n.ffs| <= aigL
      && (forall i :: 0 <= i < |n.ffs| ==> latchInit[i] == InitCode(n, n.ffs[i].q))
      && (forall i :: |n.ffs| <= i < |latchInit| ==> latchInit[i] == 0)
    }

    ghost predicate LatchOrder()
      reads this`orderedLatches
    {
      forall i :: 0 <= i < |n.ffs| ==> n.ffs[i].q in orderedLatches && orderedLatches[n.ffs[i].q] == i
    }

    method NumberLatches()
      requires LeavesOk(n) && DistinctLeaves(n)
      requires aigM == aigI == Inputs(n, o) && aigL == 0 && latchInit == [] && orderedLatches == map[]
      requires FixedLits(n, aigMap) && InputLits(n, aigMap, |n.inputs|) && OnlyLeaves(n, aigMap)
      requires Bounded(aigMap, aigM) && initstateFf == FALSE
      requires initInputs == map[] <==> InitInputs(n, o) == 0
      modifies this`aigMap, this`aigM, this`aigL, this`latchInit, this`orderedLatches, this`initstateFf
      ensures aigL == RealLatches(n, o) && aigM == aigI + aigL
      ensures FixedLits(n, aigMap) && InputLits(n, aigMap, |n.inputs|) && OnlyLeaves(n, aigMap)
      ensures LatchLits(n, o, aigMap, 0, |n.ffs|) && Bounded(aigMap, aigM)
      ensures InitCodes() && LatchOrder() && initstateFf == FirstLit(n, o) && initstateFf.v <= aigM
    {
      hide DistinctLeaves, LeavesOk, FixedLits, InputLits, OnlyLeaves, LatchLits, LatchOrder, Inputs, InitInputs,
           InitCode;
      NumberFfs();
      if n.initstate != {} || initInputs != map[] {
        aigM, aigL := aigM + 1, aigL + 1;
        initstateFf := Lit(aigM, true);
        latchInit := latchInit + [0];
      }
      var monitors := |n.fairness| + 2 * |n.liveness|;
      aigM := aigM + monitors;
      aigL := aigL + monitors;
      latchInit := latchInit + seq(monitors, i => 0);
    }

    method NumberFfs()
      requires LeavesOk(n) && DistinctLeaves(n)
      requires aigM == aigI == Inputs(n, o) && aigL == 0 && latchInit == [] && orderedLatches == map[]
      requires FixedLits(n, aigMap) && InputLits(n, aigMap, |n.inputs|) && OnlyLeaves(n, aigMap)
      requires Bounded(aigMap, aigM)
      modifies this`aigMap, this`aigM, this`aigL, this`latchInit, this`orderedLatches
      ensures aigL == |n.ffs| && aigM == aigI + aigL
      ensures FixedLits(n, aigMap) && InputLits(n, aigMap, |n.inputs|) && OnlyLeaves(n, aigMap)
      ensures LatchLits(n, o, aigMap, 0, |n.ffs|) && Bounded(aigMap, aigM)
      ensures InitCodes() && LatchOrder()
    {
      hide LeavesOk, FixedLits, InputLits, OnlyLeaves, LatchLits;
      NoLatchLits(n, o, aigMap);
      for i := 0 to |n.ffs|
        invariant aigL == i && aigM == aigI + aigL
        invariant FixedLits(n, aigMap) && InputLits(n, aigMap, |n.inputs|) && OnlyLeaves(n, aigMap)
        invariant LatchLits(n, o, aigMap, 0, i) && Bounded(aigMap, aigM)
        invariant |latchInit| == i && forall j :: 0 <= j < i ==> latchInit[j] == InitCode(n, n.ffs[j].q)
        invariant forall j :: 0 <= j < i ==> n.ffs[j].q in orderedLatches && orderedLatches[n.ffs[j].q] == j
      {
        var q := n.ffs[i].q;
        AddLatchLit(n, o, aigMap, i);
        aigM, aigL := aigM + 1, aigL + 1;
        aigMap := aigMap[q := Pos(aigM)];
        orderedLatches := orderedLatches[q := aigL - 1];
        latchInit := latchInit + [if q !in n.initMap then 2 else if n.initMap[q] then 1 else 0];
      }
    }

    // ----- initial values under -zinit -----

    /** Flip-flops below `k` have their final literal, the rest that of their latch. */
    ghost predicate Rewritten(k: nat)
      requires k <= |n.ffs|
      reads this
    {
      && Counted() && aigI == Inputs(n, o) && aigL == RealLatches(n, o)
      && initstateFf == FirstLit(n, o) && initstateFf.v <= aigI + aigL
      && FixedLits(n, aigMap) && InputLits(n, aigMap, |n.inputs|) && OnlyLeaves(n, aigMap)
      && Bounded(aigMap, aigM)
      && FfLits(n, o, aigMap, gates, aigI + aigL, k)
      && LatchLits(n, o, aigMap, k, |n.ffs|)
    }

    method RewriteInits()
      requires LeavesOk(n) && DistinctLeaves(n) && o.zinit
      requires Rewritten(0) && InitCodes() && LatchOrder() && InitLits(n, o, initInputs, |n.ffs|)
      modifies this`aigMap, this`gates, this`aigM, this`aigA
      ensures Rewritten(|n.ffs|)
      ensures n.ffs == [] ==> gates == old(gates)
    {
      for i := 0 to |n.ffs|
        invariant Rewritten(i)
        invariant i == 0 ==> gates == old(gates)
      {
        RewriteInit(i);
      }
    }

    method RewriteInit(i: nat)
      requires LeavesOk(n) && DistinctLeaves(n) && o.zinit && i < |n.ffs|
      requires Rewritten(i) && InitCodes() && LatchOrder() && InitLits(n, o, initInputs, |n.ffs|)
      modifies this`aigMap, this`gates, this`aigM, this`aigA
      ensures Rewritten(i + 1)
    {
      hide FfLits, FixedLits, InputLits, OnlyLeaves, Sorted, MuxedInit, DistinctLeaves, LeavesOk;
      var q := n.ffs[i].q;
      var l := orderedLatches[q];
      var x := aigMap[q];
      var a := x;
      if latchInit[l] == 1 {
        a := Neg(x);
      }
      if latchInit[l] == 2 {
        a := MuxInit(i);
      }
      Rewrite(i, a, old(gates));
    }

    method MuxInit(i: nat) returns (a: Lit)
      requires o.zinit && i < |n.ffs| && n.ffs[i].q !in n.initMap
      requires Rewritten(i) && InitLits(n, o, initInputs, |n.ffs|)
      modifies this`gates, this`aigM, this`aigA
      ensures Counted() && old(gates) <= gates && a.v <= aigM
      ensures MuxedInit(gates, aigI + aigL, a, Pos(FfVar(n, o, i)), Pos(InitVar(n, o, i)), initstateFf)
    {
      RewrittenLits(i);
      hide Rewritten, InitLits, Counted, FfVar, InitVar, MuxedInit;
      var q := n.ffs[i].q;
      a := GateMux(aigMap[q], initInputs[q], initstateFf);
    }

    /** The literal of `if first then init else x`. */
    method GateMux(x: Lit, init: Lit, first: Lit) returns (a: Lit)
      requires Counted() && x.v <= aigM && init.v <= aigM && first.v <= aigM
      modifies this`gates, this`aigM, this`aigA
      ensures Counted() && old(gates) <= gates && a.v <= aigM
      ensures MuxedInit(gates, aigI + aigL, a, x, init, first)
    {
      hide Valid, Sorted;
      var gatedFfOut := MkGate(x, Neg(first));
      var gatedInitIn := MkGate(init, first);
      var l := MkGate(Neg(gatedFfOut), Neg(gatedInitIn));
      assert IsAnd(gates, aigI + aigL, gatedFfOut, x, Neg(first));
      assert IsAnd(gates, aigI + aigL, gatedInitIn, init, first);
      return Neg(l);
    }

    /** The literals that the multiplexer of flip-flop `i` is made from. */
    lemma RewrittenLits(i: nat)
      requires o.zinit && i < |n.ffs| && n.ffs[i].q !in n.initMap
      requires Rewritten(i) && InitLits(n, o, initInputs, |n.ffs|)
      ensures Counted() && initstateFf.v <= aigM
      ensures n.ffs[i].q in aigMap && aigMap[n.ffs[i].q] == Pos(FfVar(n, o, i)) && FfVar(n, o, i) <= aigM
      ensures n.ffs[i].q in initInputs && initInputs[n.ffs[i].q] == Pos(InitVar(n, o, i)) && InitVar(n, o, i) <= aigM
    {
      hide FfLits, FixedLits, InputLits, OnlyLeaves, Sorted;
      UninitMonotone(n, i + 1, |n.ffs|);
    }

    /** Stores the final literal of flip-flop `i`. */
    method Rewrite(i: nat, a: Lit, ghost before: seq<Gate>)
      requires LeavesOk(n) && DistinctLeaves(n) && o.zinit && i < |n.ffs|
      requires Counted() && aigI == Inputs(n, o) && aigL == RealLatches(n, o)
      requires initstateFf == FirstLit(n, o) && initstateFf.v <= aigI + aigL
      requires FixedLits(n, aigMap) && InputLits(n, aigMap, |n.inputs|) && OnlyLeaves(n, aigMap)
      requires Bounded(aigMap, aigM) && LatchLits(n, o, aigMap, i, |n.ffs|)
      requires FfLits(n, o, aigMap, before, aigI + aigL, i)
      requires before <= gates && a.v <= aigM
      requires FfLit(n, o, aigMap[n.ffs[i].q := a], gates, aigI + aigL, i)
      modifies this`aigMap
      ensures Rewritten(i + 1)
    {
      hide FfLit, FfLits, Sorted;
      FfLitsAfter(n, o, aigMap, before, gates, aigI + aigL, i, a);
      aigMap := aigMap[n.ffs[i].q := a];
      assert FixedLits(n, aigMap) && OnlyLeaves(n, aigMap);
      assert InputLits(n, aigMap, |n.inputs|);
    }

    // ----- compiling -----

    /** All literals of inputs and flip-flops are final, and nothing else is compiled yet. */
    ghost method Begin()
      requires Rewritten(|n.ffs|) && stack == [] && nextLoopCheck == 1024
      modifies this`rank
      ensures Valid()
    {
      rank := map b | b in aigMap :: 0;
      StructureOfLeaves(n, o, aigMap, gates, aigI + aigL, rank);
    }

    method CompileFfs() returns (e: Option<Error>)
      requires Compiling() && latchIn == [] && InitCodes() && LatchOrder()
      modifies this`aigMap, this`gates, this`aigM, this`aigA, this`stack, this`nextLoopCheck, this`rank, this`latchIn
      ensures e.None? ==> Compiling() && FfSection(n, o, aigMap, latchIn) && |latchIn| == |n.ffs|
      ensures n.ffs == [] ==> aigMap == old(aigMap) && gates == old(gates)
      ensures e.Some? ==> Justified(n, e.value)
    {
      hide Compiling, Justified;
      for i := 0 to |n.ffs|
        invariant Compiling()
        invariant |latchIn| == i && FfSection(n, o, aigMap, latchIn)
        invariant i == 0 ==> aigMap == old(aigMap) && gates == old(gates)
      {
        FfBits(i);
        ghost var m := aigMap;
        var a := CompileTop(n.ffs[i].d);
        if a.Err? {
          return Some(a.error);
        }
        FfSectionStable(n, o, m, aigMap, latchIn);
        var l := orderedLatches[n.ffs[i].q];
        latchIn := latchIn + [if o.zinit && latchInit[l] == 1 then Neg(a.lit) else a.lit];
      }
      return None;
    }

    /** The -L dummy: without latches there was no flip-flop to compile, so no gate precedes it. */
    method AddDummyLatch()
      requires Valid() && stack == [] && aigL == 0 && gates == [] && OnlyLeaves(n, aigMap)
      requires latchIn == [] && latchInit == [] && n.ffs == []
      modifies this`aigM, this`aigL, this`latchInit, this`latchIn
      ensures Valid() && aigL == 1 && latchIn == [FALSE] && latchInit == [0]
    {
      aigM, aigL := aigM + 1, aigL + 1;
      latchInit := latchInit + [0];
      latchIn := latchIn + [FALSE];
      StructureOfLeaves(n, o, aigMap, gates, aigI + aigL, rank);
    }

    ghost predicate Compiling()
      reads this`aigM, this`aigI, this`aigL, this`aigA, this`gates, this`initstateFf, this`aigMap, this`rank,
            this`stack, this`nextLoopCheck
    {
      Contained(n) && LeavesOk(n) && Valid() && stack == []
    }

    /** Compiles a bit that nothing is waiting for. */
    method CompileTop(bit: Bit) returns (r: LitResult)
      requires Compiling() && bit in n.bits
      modifies this`aigMap, this`gates, this`aigM, this`aigA, this`stack, this`nextLoopCheck, this`rank
      ensures r.Ok? ==> Compiling() && Extends(old(aigMap), aigMap) && old(gates) <= gates
      ensures r.Ok? ==> bit in aigMap && r.lit == aigMap[bit] && r.lit.v <= aigM
      ensures r.Err? ==> Justified(n, r.error)
    {
      hide Valid, Contained, LeavesOk, Justified, Extends;
      r := Bit2Aig(bit);
    }

    method CompileOutputs() returns (e: Option<Error>, ghost lits: seq<Lit>)
      requires Compiling() && aigO == 0
      modifies this`aigMap, this`gates, this`aigM, this`aigA, this`stack, this`nextLoopCheck, this`rank, this`outputs,
               this`aigO
      ensures e.None? ==> Compiling() && Extends(old(aigMap), aigMap) && old(gates) <= gates
      ensures e.None? ==> outputs == old(outputs) + lits && aigO == |lits| == OutputCount(n, o)
      ensures e.None? ==> OutputLits(n.outputs, aigMap, lits[..|n.outputs|]) && Padded(lits, |n.outputs|)
      ensures e.Some? ==> Justified(n, e.value)
    {
      hide Compiling, Justified;
      lits := [];
      for i := 0 to |n.outputs|
        invariant Compiling() && Extends(old(aigMap), aigMap) && old(gates) <= gates
        invariant outputs == old(outputs) + lits && aigO == |lits| == i
        invariant OutputLits(n.outputs[..i], aigMap, lits)
      {
        OutputBits(i);
        ghost var m := aigMap;
        var a := CompileTop(n.outputs[i]);
        if a.Err? {
          return Some(a.error), lits;
        }
        OutputLitsStable(n.outputs[..i], m, aigMap, lits);
        aigO := aigO + 1;
        outputs, lits := outputs + [a.lit], lits + [a.lit];
      }
      assert n.outputs[..|n.outputs|] == n.outputs && lits[..|n.outputs|] == lits;
      if o.omode && n.outputs == [] {
        aigO := aigO + 1;
        outputs, lits := outputs + [FALSE], lits + [FALSE];
      }
      return None, lits;
    }

    /** The literal of `en && !a`. */
    method CompileFail(c: Check) returns (r: LitResult)
      requires Compiling() && c.a in n.bits && c.en in n.bits
      modifies this`aigMap, this`gates, this`aigM, this`aigA, this`stack, this`nextLoopCheck, this`rank
      ensures r.Ok? ==> Compiling() && Extends(old(aigMap), aigMap) && old(gates) <= gates
      ensures r.Ok? ==> FailLit(aigMap, gates, aigI + aigL, c, r.lit)
      ensures r.Err? ==> Justified(n, r.error)
    {
      hide Structure, Contained, LeavesOk, Chain;
      r := CompileTop(c.a);
      if r.Err? {
        return;
      }
      var a := r.lit;
      r := CompileTop(c.en);
      if r.Err? {
        return;
      }
      var g := MkGate(Neg(a), r.lit);
      r := Ok(g);
    }

    method CompileAsserts() returns (e: Option<Error>, ghost lits: seq<Lit>)
      requires Compiling() && aigB == 0
      modifies this`aigMap, this`gates, this`aigM, this`aigA, this`stack, this`nextLoopCheck, this`rank, this`outputs,
               this`aigB
      ensures e.None? ==> Compiling() && Extends(old(aigMap), aigMap) && old(gates) <= gates
      ensures e.None? ==> outputs == old(outputs) + lits && aigB == |lits| == BadCount(n, o)
      ensures e.None? ==> BadLits(n.asserts, aigMap, gates, aigI + aigL, lits[..|n.asserts|])
      ensures e.None? ==> Padded(lits, |n.asserts|)
      ensures e.Some? ==> Justified(n, e.value)
    {
      hide Valid, FailLit, Contained, LeavesOk;
      lits := [];
      for i := 0 to |n.asserts|
        invariant Compiling() && Extends(old(aigMap), aigMap) && old(gates) <= gates
        invariant outputs == old(outputs) + lits && aigB == |lits| == i
        invariant BadLits(n.asserts[..i], aigMap, gates, aigI + aigL, lits)
      {
        CheckBits();
        ghost var m, gs := aigMap, gates;
        aigB := aigB + 1;
        var l := CompileFail(n.asserts[i]);
        if l.Err? {
          return Some(l.error), lits;
        }
        BadLitsStable(n.asserts[..i], m, aigMap, gs, gates, aigI + aigL, lits);
        outputs, lits := outputs + [l.lit], lits + [l.lit];
      }
      assert n.asserts[..|n.asserts|] == n.asserts && lits[..|n.asserts|] == lits;
      if o.bmode && n.asserts == [] {
        aigB := aigB + 1;
        outputs, lits := outputs + [FALSE], lits + [FALSE];
      }
      return None, lits;
    }

    method CompileAssumes() returns (e: Option<Error>, ghost lits: seq<Lit>)
      requires Compiling() && aigC == 0
      modifies this`aigMap, this`gates, this`aigM, this`aigA, this`stack, this`nextLoopCheck, this`rank, this`outputs,
               this`aigC
      ensures e.None? ==> Compiling() && Extends(old(aigMap), aigMap) && old(gates) <= gates
      ensures e.None? ==> outputs == old(outputs) + lits && aigC == |lits|
      ensures e.None? ==> ConstraintLits(n.assumes, aigMap, gates, aigI + aigL, lits)
      ensures e.Some? ==> Justified(n, e.value)
    {
      hide Valid, FailLit, Contained, LeavesOk;
      lits := [];
      for i := 0 to |n.assumes|
        invariant Compiling() && Extends(old(aigMap), aigMap) && old(gates) <= gates
        invariant outputs == old(outputs) + lits && aigC == |lits| == i
        invariant ConstraintLits(n.assumes[..i], aigMap, gates, aigI + aigL, lits)
      {
        CheckBits();
        ghost var m, gs := aigMap, gates;
        aigC := aigC + 1;
        var l := CompileFail(n.assumes[i]);
        if l.Err? {
          return Some(l.error), lits;
        }
        ConstraintLitsStable(n.assumes[..i], m, aigMap, gs, gates, aigI + aigL, lits);
        outputs, lits := outputs + [Neg(l.lit)], lits + [Neg(l.lit)];
      }
      assert n.assumes[..|n.assumes|] == n.assumes;
      return None, lits;
    }

    ghost predicate Numbered()
      reads this`aigI, this`aigL
    {
      aigI == Inputs(n, o) && aigL == Latches(n, o)
    }

    /** The latch inputs and the justice literal of one $live cell. */
    method CompileLive(k: nat, s: Lit, q1: Lit, q2: Lit) returns (r: LitResult, d1: Lit, d2: Lit)
      requires Compiling() && Numbered() && k < |n.liveness|
      requires s == Pos(LiveVar(n, o, k)) && q1 == Pos(LiveLatch(n, o, k)) && q2 == Pos(LiveLatch(n, o, k) + 1)
      modifies this`aigMap, this`gates, this`aigM, this`aigA, this`stack, this`nextLoopCheck, this`rank
      ensures r.Ok? ==> Compiling() && Extends(old(aigMap), aigMap) && old(gates) <= gates
      ensures r.Ok? ==> LiveLits(n, o, aigMap, gates, aigI + aigL, k, d1, d2, r.lit)
      ensures r.Err? ==> Justified(n, r.error)
    {
      hide Structure, Contained, LeavesOk, Chain, Sorted, AndOr, IsAnd;
      CheckBits();
      d1, d2 := FALSE, FALSE;
      r := CompileTop(n.liveness[k].a);
      if r.Err? {
        return;
      }
      var a := r.lit;
      r := CompileTop(n.liveness[k].en);
      if r.Err? {
        return;
      }
      var j;
      d1, d2, j := MkLive(a, r.lit, s, q1, q2);
      r := Ok(j);
    }

    method MkLive(a: Lit, en: Lit, s: Lit, q1: Lit, q2: Lit) returns (d1: Lit, d2: Lit, j: Lit)
      requires Valid() && a.v <= aigM && en.v <= aigM && s.v <= aigM && q1.v <= aigM && q2.v <= aigM
      modifies this`gates, this`aigM, this`aigA
      ensures Valid() && old(gates) <= gates
      ensures AndOr(gates, aigI + aigL, d1, s, en, q1)
      ensures AndOr(gates, aigI + aigL, d2, d1, a, q2)
      ensures IsAnd(gates, aigI + aigL, j, q1, Neg(q2))
    {
      hide Structure, Chain, Sorted, AndOr, IsAnd;
      d1 := MkAndOr(s, en, q1);
      ghost var gs := gates;
      d2 := MkAndOr(d1, a, q2);
      AndOrStable(gs, gates, aigI + aigL, d1, s, en, q1);
      gs := gates;
      j := MkGate(q1, Neg(q2));
      AndOrStable(gs, gates, aigI + aigL, d1, s, en, q1);
      AndOrStable(gs, gates, aigI + aigL, d2, d1, a, q2);
    }

    /** The literal of `(x && y) || q`. */
    method MkAndOr(x: Lit, y: Lit, q: Lit) returns (l: Lit)
      requires Valid() && x.v <= aigM && y.v <= aigM && q.v <= aigM
      modifies this`gates, this`aigM, this`aigA
      ensures Valid() && old(gates) <= gates && l.v <= aigM && aigM >= old(aigM)
      ensures AndOr(gates, aigI + aigL, l, x, y, q)
    {
      hide Structure, Chain, Sorted;
      var g := MkGate(x, y);
      var h := MkGate(Neg(g), Neg(q));
      assert IsAnd(gates, aigI + aigL, g, x, y);
      l := Neg(h);
    }

    method CompileLiveness(inputsM: nat, latchesM: nat, latchesL: nat)
      returns (e: Option<Error>, ghost ins: seq<Lit>, ghost js: seq<Lit>)
      requires Compiling() && Numbered() && aigJ == 0
      requires inputsM + 1 == LiveVar(n, o, 0) && latchesM + 1 == LiveLatch(n, o, 0)
      requires n.liveness != [] ==> |latchIn| == latchesL
      modifies this`aigMap, this`gates, this`aigM, this`aigA, this`stack, this`nextLoopCheck, this`rank, this`outputs,
               this`latchIn, this`aigJ
      ensures e.None? ==> Compiling() && Extends(old(aigMap), aigMap) && old(gates) <= gates
      ensures e.None? ==> outputs == old(outputs) + js && latchIn == old(latchIn) + ins && aigJ == |js| == |n.liveness|
      ensures e.None? ==> LiveSection(n, o, aigMap, gates, aigI + aigL, ins, js)
      ensures e.Some? ==> Justified(n, e.value)
    {
      hide Compiling, Justified, LiveLits, LiveSection, Numbered, Inputs, CoreLatches, InitInputs, PortInputs;
      NoLive();
      ins, js := [], [];
      var liveInputsM, liveLatchesM, liveLatchesL := inputsM, latchesM, latchesL;
      for k := 0 to |n.liveness|
        invariant Compiling() && Extends(old(aigMap), aigMap) && old(gates) <= gates
        invariant outputs == old(outputs) + js && latchIn == old(latchIn) + ins && aigJ == |js| == k && |ins| == 2 * k
        invariant LiveSection(n, o, aigMap, gates, aigI + aigL, ins, js)
        invariant liveInputsM + 1 == LiveVar(n, o, k) && liveLatchesM + 1 == LiveLatch(n, o, k)
        invariant liveLatchesL == latchesL + 2 * k
      {
        liveInputsM := liveInputsM + 1;
        liveLatchesM := liveLatchesM + 2;
        assert |latchIn| == liveLatchesL;
        liveLatchesL := liveLatchesL + 2;
        ghost var m, gs := aigMap, gates;
        var j, d1, d2 := CompileLive(k, Pos(liveInputsM), Pos(liveLatchesM - 1), Pos(liveLatchesM));
        if j.Err? {
          return Some(j.error), ins, js;
        }
        LiveSectionAfter(n, o, m, aigMap, gs, gates, aigI + aigL, ins, js, d1, d2, j.lit);
        aigJ := aigJ + 1;
        latchIn, ins := latchIn + [d1, d2], ins + [d1, d2];
        outputs, js := outputs + [j.lit], js + [j.lit];
      }
      return None, ins, js;
    }

    /** The latch input of one $fair cell. */
    method CompileFair(k: nat, q: Lit) returns (r: LitResult)
      requires Compiling() && Numbered() && k < |n.fairness| && q == Pos(FairLatch(n, o, k))
      modifies this`aigMap, this`gates, this`aigM, this`aigA, this`stack, this`nextLoopCheck, this`rank
      ensures r.Ok? ==> Compiling() && Extends(old(aigMap), aigMap) && old(gates) <= gates
      ensures r.Ok? ==> FairLits(n, o, aigMap, gates, aigI + aigL, k, r.lit, Neg(q))
      ensures r.Err? ==> Justified(n, r.error)
    {
      hide Structure, Contained, LeavesOk, Chain, Sorted;
      CheckBits();
      r := CompileTop(n.fairness[k].a);
      if r.Err? {
        return;
      }
      var a := r.lit;
      r := CompileTop(n.fairness[k].en);
      if r.Err? {
        return;
      }
      var g := MkGate(Neg(q), Neg(r.lit));
      var h := MkGate(Neg(g), Neg(a));
      assert IsAnd(gates, aigI + aigL, g, Neg(q), Neg(r.lit));
      r := Ok(h);
    }

    method CompileFairness(latchesM: nat, latchesL: nat)
      returns (e: Option<Error>, ghost ins: seq<Lit>, ghost fs: seq<Lit>)
      requires Compiling() && Numbered() && aigF == 0
      requires latchesM + 1 == FairLatch(n, o, 0)
      requires n.fairness != [] ==> |latchIn| == latchesL
      modifies this`aigMap, this`gates, this`aigM, this`aigA, this`stack, this`nextLoopCheck, this`rank, this`outputs,
               this`latchIn, this`aigF
      ensures e.None? ==> Compiling() && Extends(old(aigMap), aigMap) && old(gates) <= gates
      ensures e.None? ==> outputs == old(outputs) + fs && latchIn == old(latchIn) + ins && aigF == |fs| == |n.fairness|
      ensures e.None? ==> FairSection(n, o, aigMap, gates, aigI + aigL, ins, fs)
      ensures e.Some? ==> Justified(n, e.value)
    {
      hide Compiling, Justified, FairLits, Numbered, Inputs, CoreLatches;
      ins, fs := [], [];
      var fairLatchesM, fairLatchesL := latchesM, latchesL;
      for k := 0 to |n.fairness|
        invariant Compiling() && Extends(old(aigMap), aigMap) && old(gates) <= gates
        invariant outputs == old(outputs) + fs && latchIn == old(latchIn) + ins && aigF == |fs| == k
        invariant FairSection(n, o, aigMap, gates, aigI + aigL, ins, fs)
        invariant fairLatchesM + 1 == FairLatch(n, o, k) && fairLatchesL == latchesL + k
      {
        fairLatchesM := fairLatchesM + 1;
        assert |latchIn| == fairLatchesL;
        fairLatchesL := fairLatchesL + 1;
        ghost var m, gs := aigMap, gates;
        var d := CompileFair(k, Pos(fairLatchesM));
        if d.Err? {
          return Some(d.error), ins, fs;
        }
        FairSectionStable(n, o, m, aigMap, gs, gates, aigI + aigL, ins, fs);
        aigF := aigF + 1;
        latchIn, ins := latchIn + [d.lit], ins + [d.lit];
        outputs, fs := outputs + [Neg(Pos(fairLatchesM))], fs + [Neg(Pos(fairLatchesM))];
      }
      return None, ins, fs;
    }

    // ----- the whole constructor -----

    ghost predicate Initial()
      reads this
    {
      && aigMap == map[] && gates == [] && latchIn == [] && latchInit == [] && outputs == []
      && stack == [] && nextLoopCheck == 1024
      && aigM == aigI == aigL == aigO == aigA == aigB == aigC == aigJ == aigF == 0
      && orderedLatches == map[] && initInputs == map[] && initstateFf == FALSE && rank == map[]
    }

    /** What `write_aiger` asserts before it writes anything. */
    ghost predicate Consistent()
      reads this
    {
      && aigM == aigI + aigL + aigA
      && aigL == |latchIn| && aigL == |latchInit|
      && aigO + aigB + aigC + aigJ + aigF == |outputs|
    }

    /** The graph that `write_aiger` writes. */
    function Result(): Aig
      requires Consistent()
      reads this
    {
      var obc := aigO + aigB + aigC;
      Aig(aigI,
          Pair(o, latchIn, latchInit),
          gates,
          outputs[..aigO], outputs[aigO..aigO + aigB], outputs[aigO + aigB..obc],
          outputs[obc..obc + aigJ], outputs[obc + aigJ..])
    }

    method Number()
      requires LeavesOk(n) && DistinctLeaves(n) && Initial()
      modifies this`aigMap, this`gates, this`aigM, this`aigA, this`aigI, this`aigL, this`rank,
               this`initInputs, this`latchInit, this`orderedLatches, this`initstateFf
      ensures Valid() && InitCodes() && LatchOrder() && OnlyLeaves(n, aigMap)
      ensures aigI == Inputs(n, o) && aigL == RealLatches(n, o)
      ensures n.ffs == [] ==> gates == []
      ensures initInputs == map[] <==> InitInputs(n, o) == 0
    {
      hide DistinctLeaves, LeavesOk, FixedLits, InputLits, OnlyLeaves, InitLits, LatchLits, Bounded, Inputs,
           RealLatches, InitCodes, LatchOrder, Rewritten, Valid, FirstLit, InitInputs;
      NumberInputs();
      NumberLatches();
      StartRewriting();
      if o.zinit {
        RewriteInits();
      }
      RewrittenLeaves();
      Begin();
    }

    /** After the numbering every flip-flop has the literal of its latch; without -zinit that is final. */
    lemma StartRewriting()
      requires gates == [] && aigA == 0 && aigI == Inputs(n, o) && aigL == RealLatches(n, o) && aigM == aigI + aigL
      requires FixedLits(n, aigMap) && InputLits(n, aigMap, |n.inputs|) && OnlyLeaves(n, aigMap)
      requires LatchLits(n, o, aigMap, 0, |n.ffs|) && Bounded(aigMap, aigM)
      requires initstateFf == FirstLit(n, o) && initstateFf.v <= aigM
      ensures Rewritten(0) && (!o.zinit ==> Rewritten(|n.ffs|))
    {
      hide FixedLits, InputLits, OnlyLeaves, FfLits, Inputs, RealLatches, FirstLit;
      NoFfLits(n, o, aigMap, gates, aigI + aigL);
      if !o.zinit {
        LatchLitsAreFinal(n, o, aigMap, gates, aigI + aigL);
      }
    }

    lemma RewrittenLeaves()
      requires Rewritten(|n.ffs|)
      ensures OnlyLeaves(n, aigMap) && aigI == Inputs(n, o) && aigL == RealLatches(n, o)
    {
    }

    method BuildLatches() returns (e: Option<Error>)
      requires LeavesOk(n) && DistinctLeaves(n) && Contained(n) && Initial()
      modifies this`aigMap, this`gates, this`aigM, this`aigA, this`aigI, this`aigL, this`rank, this`stack,
               this`nextLoopCheck, this`initInputs, this`latchInit, this`orderedLatches, this`initstateFf, this`latchIn
      ensures e.None? ==> Compiling() && Numbered() && InitCodes() && CoreSection(n, o, aigMap, latchIn)
      ensures e.Some? ==> Justified(n, e.value)
    {
      hide DistinctLeaves, LeavesOk, Contained, Structure, Chain, Sorted, OnlyLeaves, FfSection, InitCode, FirstLit,
           Valid, Justified, CoreSection, Inputs, RealLatches, InitInputs;
      Number();
      e := CompileFfs();
      if e.Some? {
        return;
      }
      FinishLatches();
    }

    /** The latches that are not flip-flops: the -L dummy and the first-cycle latch. */
    method FinishLatches()
      requires Compiling() && |latchIn| == |n.ffs| && FfSection(n, o, aigMap, latchIn) && InitCodes()
      requires aigI == Inputs(n, o) && aigL == RealLatches(n, o)
      requires initInputs == map[] <==> InitInputs(n, o) == 0
      requires n.ffs == [] ==> gates == [] && OnlyLeaves(n, aigMap)
      modifies this`aigM, this`aigL, this`latchInit, this`latchIn
      ensures Compiling() && Numbered() && InitCodes() && CoreSection(n, o, aigMap, latchIn)
    {
      hide Contained, LeavesOk, Structure, Chain, Sorted, OnlyLeaves, InitCode, FirstLit;
      if o.lmode && aigL == 0 {
        AddDummyLatch();
      }
      if n.initstate != {} || initInputs != map[] {
        latchIn := latchIn + [TRUE];
      }
    }

    /** Outputs, bad states and constraints. */
    method BuildSafety() returns (e: Option<Error>, ghost outs: seq<Lit>, ghost bads: seq<Lit>, ghost cons: seq<Lit>)
      requires Compiling() && aigO == aigB == aigC == 0
      modifies this`aigMap, this`gates, this`aigM, this`aigA, this`stack, this`nextLoopCheck, this`rank, this`outputs,
               this`aigO, this`aigB, this`aigC
      ensures e.None? ==> Compiling() && Extends(old(aigMap), aigMap) && old(gates) <= gates
      ensures e.None? ==> outputs == old(outputs) + outs + bads + cons
      ensures e.None? ==> aigO == |outs| == OutputCount(n, o) && aigB == |bads| == BadCount(n, o) && aigC == |cons|
      ensures e.None? ==> OutputLits(n.outputs, aigMap, outs[..|n.outputs|]) && Padded(outs, |n.outputs|)
      ensures e.None? ==> BadLits(n.asserts, aigMap, gates, aigI + aigL, bads[..|n.asserts|])
      ensures e.None? ==> Padded(bads, |n.asserts|)
      ensures e.None? ==> ConstraintLits(n.assumes, aigMap, gates, aigI + aigL, cons)
      ensures e.Some? ==> Justified(n, e.value)
    {
      hide Contained, LeavesOk, Structure, Chain, Sorted, OutputLits, BadLits, ConstraintLits;
      outs, bads, cons := [], [], [];
      e, outs := CompileOutputs();
      if e.Some? {
        return;
      }
      ghost var m, gs := aigMap, gates;
      e, bads := CompileAsserts();
      if e.Some? {
        return;
      }
      OutputLitsStable(n.outputs, m, aigMap, outs[..|n.outputs|]);
      m, gs := aigMap, gates;
      e, cons := CompileAssumes();
      if e.Some? {
        return;
      }
      OutputLitsStable(n.outputs, m, aigMap, outs[..|n.outputs|]);
      BadLitsStable(n.asserts, m, aigMap, gs, gates, aigI + aigL, bads[..|n.asserts|]);
    }

    /** The monitors of liveness and fairness cells. */
    method BuildMonitors(inputsM: nat, latchesM: nat, latchesL: nat)
      returns (e: Option<Error>, ghost js: seq<Lit>, ghost fs: seq<Lit>)
      requires Compiling() && Numbered() && aigJ == aigF == 0
      requires CoreSection(n, o, aigMap, latchIn)
      requires inputsM + 1 == LiveVar(n, o, 0) && latchesM + 1 == LiveLatch(n, o, 0) && latchesL == CoreLatches(n, o)
      modifies this`aigMap, this`gates, this`aigM, this`aigA, this`stack, this`nextLoopCheck, this`rank, this`outputs,
               this`latchIn, this`aigJ, this`aigF
      ensures e.None? ==> Compiling() && Extends(old(aigMap), aigMap) && old(gates) <= gates
      ensures e.None? ==> outputs == old(outputs) + js + fs && aigJ == |js| && aigF == |fs|
      ensures e.None? ==> LatchSection(n, o, aigMap, gates, aigI + aigL, latchIn, js, fs)
      ensures e.Some? ==> Justified(n, e.value)
    {
      hide Contained, LeavesOk, Structure, Chain, Sorted, LiveSection, FairSection, LatchSection, FfSection;
      js, fs := [], [];
      ghost var m, gs, core := aigMap, gates, latchIn;
      ghost var live, fair;
      e, live, js := CompileLiveness(inputsM, latchesM, latchesL);
      if e.Some? {
        return;
      }
      LiveSize(live, js);
      CoreSectionStable(n, o, m, aigMap, core);
      m, gs := aigMap, gates;
      e, fair, fs := CompileFairness(latchesM + 2 * |n.liveness|, latchesL + 2 * |n.liveness|);
      if e.Some? {
        return;
      }
      CoreSectionStable(n, o, m, aigMap, core);
      LiveSectionStable(n, o, m, aigMap, gs, gates, aigI + aigL, live, js);
      AssembleLatches(n, o, aigMap, gates, aigI + aigL, core, live, fair, js, fs);
    }

    lemma NoLive()
      ensures LiveSection(n, o, aigMap, gates, aigI + aigL, [], [])
    {
    }

    lemma LiveSize(ins: seq<Lit>, js: seq<Lit>)
      requires LiveSection(n, o, aigMap, gates, aigI + aigL, ins, js)
      ensures |ins| == 2 * |js|
    {
    }

    /** Compiles the whole netlist, or says why it cannot. */
    method Build() returns (e: Option<Error>)
      requires LeavesOk(n) && DistinctLeaves(n) && Contained(n) && Initial()
      modifies this
      ensures e.None? ==> Consistent() && Compiled(n, o, aigMap, rank, Result())
      ensures e.Some? ==> Justified(n, e.value)
    {
      hide DistinctLeaves, LeavesOk, Contained, CoreSection, Compiled, InitCodes, Compiling, Justified, Numbered;
      assert aigO == aigB == aigC == aigJ == aigF == 0 && outputs == [];
      hide Initial, Consistent;
      e := BuildLatches();
      if e.Some? {
        return;
      }
      e := BuildOutputs();
    }

    /** Everything after the latches of the netlist itself. */
    method BuildOutputs() returns (e: Option<Error>)
      requires Compiling() && Numbered() && InitCodes() && CoreSection(n, o, aigMap, latchIn)
      requires aigO == aigB == aigC == aigJ == aigF == 0 && outputs == []
      modifies this`aigMap, this`gates, this`aigM, this`aigA, this`stack, this`nextLoopCheck, this`rank, this`outputs,
               this`latchIn, this`aigO, this`aigB, this`aigC, this`aigJ, this`aigF
      ensures e.None? ==> Consistent() && Compiled(n, o, aigMap, rank, Result())
      ensures e.Some? ==> Justified(n, e.value)
    {
      hide OutputLits, BadLits, ConstraintLits, CoreSection, LatchSection, Compiled, InitCodes, Compiling, Justified,
           Extends, OutputCount, BadCount, Numbered, Consistent, Inputs, RealLatches, LiveVar, LiveLatch, CoreLatches;
      ghost var m, gs, core := aigMap, gates, latchIn;
      ghost var outs, bads, cons, js, fs;
      e, outs, bads, cons := BuildSafety();
      if e.Some? {
        return;
      }
      CoreSectionStable(n, o, m, aigMap, core);
      m, gs := aigMap, gates;
      MonitorNumbers();
      var inputsM := Inputs(n, o) - |n.liveness|;
      var latchesL := RealLatches(n, o) - (|n.fairness| + 2 * |n.liveness|);
      e, js, fs := BuildMonitors(inputsM, aigI + latchesL, latchesL);
      if e.Some? {
        return;
      }
      Regrouped(outs + bads + cons, js, fs);
      Assembled(m, gs, outs, bads, cons, js, fs);
    }

    /** Where the inputs and latches of the monitors begin. */
    lemma MonitorNumbers()
      requires Numbered()
      ensures Inputs(n, o) >= |n.liveness| && RealLatches(n, o) >= |n.fairness| + 2 * |n.liveness|
      ensures Inputs(n, o) - |n.liveness| + 1 == LiveVar(n, o, 0)
      ensures var latchesL := RealLatches(n, o) - (|n.fairness| + 2 * |n.liveness|);
              latchesL == CoreLatches(n, o) && aigI + latchesL + 1 == LiveLatch(n, o, 0)
    {
    }

    lemma Regrouped(front: seq<Lit>, js: seq<Lit>, fs: seq<Lit>)
      ensures front + js + fs == front + (js + fs)
    {
    }

    lemma Assembled(m: map<Bit, Lit>, gs: seq<Gate>, outs: seq<Lit>, bads: seq<Lit>, cons: seq<Lit>, js: seq<Lit>,
                    fs: seq<Lit>)
      requires Compiling() && Numbered() && InitCodes()
      requires outputs == outs + bads + cons + (js + fs)
      requires aigO == |outs| == OutputCount(n, o) && aigB == |bads| == BadCount(n, o)
      requires aigC == |cons| && aigJ == |js| && aigF == |fs|
      requires Extends(m, aigMap) && gs <= gates
      requires OutputLits(n.outputs, m, outs[..|n.outputs|])
      requires BadLits(n.asserts, m, gs, aigI + aigL, bads[..|n.asserts|])
      requires ConstraintLits(n.assumes, m, gs, aigI + aigL, cons)
      requires Padded(outs, |n.outputs|) && Padded(bads, |n.asserts|)
      requires LatchSection(n, o, aigMap, gates, aigI + aigL, latchIn, js, fs)
      ensures Consistent() && Compiled(n, o, aigMap, rank, Result())
    {
      hide Structure, Chain, Sorted, OutputLits, BadLits, ConstraintLits, FfSection, LiveSection, FairSection;
      OutputLitsStable(n.outputs, m, aigMap, outs[..|n.outputs|]);
      BadLitsStable(n.asserts, m, aigMap, gs, gates, aigI + aigL, bads[..|n.asserts|]);
      ConstraintLitsStable(n.assumes, m, aigMap, gs, gates, aigI + aigL, cons);
      var a := Result();
      assert Nexts(a.latches) == latchIn;
      Sections(outs, bads, cons, js, fs);
    }

    lemma OutputBits(i: nat)
      requires Compiling() && i < |n.outputs|
      ensures n.outputs[i] in n.bits
    {
    }

    lemma CheckBits()
      requires Compiling()
      ensures ChecksIn(n.asserts, n.bits) && ChecksIn(n.assumes, n.bits)
      ensures ChecksIn(n.liveness, n.bits) && ChecksIn(n.fairness, n.bits)
    {
    }

    lemma FfBits(i: nat)
      requires Compiling() && i < |n.ffs|
      ensures n.ffs[i].d in n.bits
    {
    }

    lemma FinishStructure(bit: Bit, a: Lit)
      requires Structure(n, o, aigMap, gates, aigI + aigL, rank)
      requires rank.Keys == aigMap.Keys
      requires bit !in aigMap && FirstUnmapped(n, aigMap, bit) == None
      requires a.v <= aigI + aigL + |gates|
      requires CellLit(n, o, aigMap[bit := a], gates, aigI + aigL, bit)
      ensures forall i :: 0 <= i < |Deps(n, bit)| ==> Deps(n, bit)[i] in rank
      ensures Structure(n, o, aigMap[bit := a], gates, aigI + aigL, rank[bit := NextRank(Deps(n, bit), rank)])
    {
      hide Structure, CellLit;
      StructureAfterCell(n, o, aigMap, gates, aigI + aigL, rank, bit, a);
    }

    lemma MappedBits()
      requires LeavesOk(n) && Structure(n, o, aigMap, gates, aigI + aigL, rank)
      ensures n.leaves <= aigMap.Keys
      ensures Bounded(aigMap, aigI + aigL + |gates|)
    {
      forall b | b in n.leaves
        ensures b in aigMap
      {
        if i :| 0 <= i < |n.ffs| && n.ffs[i].q == b {
          assert FfLit(n, o, aigMap, gates, aigI + aigL, i);
        }
      }
    }

    lemma LoopIsCycle(i: nat, bit: Bit)
      requires i < |stack| && stack[i] == bit && Chain(n, aigMap, stack + [bit])
      ensures HasCycle(n)
    {
      var s := stack + [bit];
      ChainIsPath(n, aigMap, s);
      assert IsCycle(n, s[i..]);
    }

    lemma ShortStack(bit: Bit)
      requires StackOk() && bit in n.bits
      requires forall j :: 0 <= j < |stack| ==> stack[j] != bit
      requires Chain(n, aigMap, stack + [bit])
      ensures |stack| < |n.bits|
    {
      if |stack| >= |n.bits| {
        LongChainRepeats(n, aigMap, stack + [bit], n.bits);
      }
    }
  }
}
