/**
 The reference model of the PMP registers: mseccfg, pmpcfg0-3 and pmpaddr0-15, which lock
 one another, driven by read, write, set and clear transactions.
 */
module CsrModel {
  import opened CsrWords
  import opened Wrappers

  datatype Kind = MSeccfg | PmpCfg | PmpAddr | NonImp

  datatype Reg = Reg(kind: Kind, addr: nat, value: Word)

  datatype Params = Params(pmpEnable: bool, pmpNumRegions: nat)

  datatype Transaction = Transaction(op: Op, addr: nat, wdata: Word, rdata: Word, illegal: bool)

  // ----- the register map -----

  function KindAt(p: Params, k: nat): Kind {
    if k == 0 then MSeccfg
    else if k == 1 then NonImp
    else if k < 6 then (if p.pmpEnable && k - 2 < p.pmpNumRegions / 4 then PmpCfg else NonImp)
    else if p.pmpEnable && k - 6 < p.pmpNumRegions then PmpAddr else NonImp
  }

  function AddrAt(k: nat): nat {
    if k == 0 then 0x747
    else if k == 1 then 0x757
    else if k < 6 then 0x3A0 + (k - 2)
    else 0x3B0 + (k - 6)
  }

  ghost predicate Layout(p: Params, s: seq<Reg>) {
    |s| == 22 && forall k :: 0 <= k < 22 ==> s[k].kind == KindAt(p, k) && s[k].addr == AddrAt(k)
  }

  /** All registers as a reset leaves them. */
  function ResetState(p: Params): (s: seq<Reg>)
    ensures Layout(p, s)
  {
    seq(22, k requires 0 <= k < 22 => Reg(KindAt(p, k), AddrAt(k), ZERO))
  }

  function IndexOf(addr: nat): Option<nat> {
    if addr == 0x747 then Some(0)
    else if addr == 0x757 then Some(1)
    else if 0x3A0 <= addr < 0x3A4 then Some(2 + (addr - 0x3A0))
    else if 0x3B0 <= addr < 0x3C0 then Some(6 + (addr - 0x3B0))
    else None
  }

  lemma IndexOfIsInverse(k: nat, addr: nat)
    requires k < 22
    ensures AddrAt(k) == addr <==> IndexOf(addr) == Some(k)
    ensures IndexOf(addr).Some? ==> IndexOf(addr).value < 22
  {
  }

  function ReadOf(r: Reg): Word {
    if r.kind == NonImp then ZERO else r.value
  }

  // ----- what the registers say -----

  function Cfg(s: seq<Reg>, i: nat): Word
    requires |s| == 22 && i < 4
  {
    ReadOf(s[2 + i])
  }

  function CfgByte(s: seq<Reg>, region: nat): Byte
    requires |s| == 22 && region < 16
  {
    Cfg(s, region / 4)[region % 4]
  }

  function AddrOf(s: seq<Reg>, region: nat): Word
    requires |s| == 22 && region < 16
  {
    ReadOf(s[6 + region])
  }

  predicate SecBit(s: seq<Reg>, bit: Byte)
    requires |s| == 22
  {
    s[0].value[0] & bit != 0
  }

  predicate AnyLocked(s: seq<Reg>)
    requires |s| == 22
  {
    AnyLock(Cfg(s, 0)) || AnyLock(Cfg(s, 1)) || AnyLock(Cfg(s, 2)) || AnyLock(Cfg(s, 3))
  }

  /** A region's address is locked by its own lock bit, or when the next region is in TOR mode. */
  predicate AddrLocked(s: seq<Reg>, region: nat)
    requires |s| == 22 && region < 16
  {
    LockBit(CfgByte(s, region)) || (region < 15 && TorMode(CfgByte(s, region + 1)))
  }

  function LockMaskOf(s: seq<Reg>, k: nat): Word
    requires |s| == 22 && k < 22
  {
    match s[k].kind
    case MSeccfg => SecLockMask(s[k].value, AnyLocked(s))
    case PmpCfg => CfgLockMask(s[k].value, SecBit(s, RLB))
    case PmpAddr => if AddrLocked(s, s[k].addr % 16) then ONES else ZERO
    case NonImp => ZERO
  }

  /** The value register `k` holds after an operation on it. */
  function ValueAfter(s: seq<Reg>, k: nat, op: Op, wdata: Word): Word
    requires |s| == 22 && k < 22
  {
    match s[k].kind
    case NonImp => s[k].value
    case PmpCfg => CfgStep(op, s[k].value, wdata, SecBit(s, RLB), SecBit(s, MML))
    case _ => Masked(op, s[k].value, wdata, LockMaskOf(s, k))
  }

  function Step(s: seq<Reg>, t: Transaction): seq<Reg>
    requires |s| == 22
  {
    match IndexOf(t.addr)
    case None => s
    case Some(k) => if k < 22 then s[k := s[k].(value := ValueAfter(s, k, t.op, t.wdata))] else s
  }

  /** The state after a sequence of transactions without a reset. */
  function Run(s: seq<Reg>, ts: seq<Transaction>): (s': seq<Reg>)
    requires |s| == 22
    ensures |s'| == 22
    decreases |ts|
  {
    if ts == [] then s else Run(Step(s, ts[0]), ts[1..])
  }

  // ----- the model object -----

  class RegisterModel {
    const params: Params
    var map_: seq<Reg>
    var stopped: bool

    /** The registers are where they belong, and hold only legal values. */
    ghost predicate Valid()
      reads this`map_
    {
      Inv(params, map_)
    }

    ghost predicate Laid()
      reads this`map_
    {
      Layout(params, map_)
    }

    constructor (params: Params)
      ensures Valid() && this.params == params && !stopped && map_ == ResetState(params)
    {
      this.params := params;
      stopped := false;
      var regs := [Reg(MSeccfg, 0x747, ZERO), Reg(NonImp, 0x757, ZERO)];
      for i := 0 to 4
        invariant |regs| == 2 + i
        invariant forall k :: 0 <= k < |regs| ==> regs[k] == Reg(KindAt(params, k), AddrAt(k), ZERO)
      {
        var implemented := params.pmpEnable && i < params.pmpNumRegions / 4;
        regs := regs + [Reg(if implemented then PmpCfg else NonImp, 0x3A0 + i, ZERO)];
      }
      for i := 0 to 16
        invariant |regs| == 6 + i
        invariant forall k :: 0 <= k < |regs| ==> regs[k] == Reg(KindAt(params, k), AddrAt(k), ZERO)
      {
        var implemented := params.pmpEnable && i < params.pmpNumRegions;
        regs := regs + [Reg(if implemented then PmpAddr else NonImp, 0x3B0 + i, ZERO)];
      }
      map_ := regs;
      ResetInv(params);
    }

    method RegisterReset()
      requires Valid()
      modifies this`map_
      ensures Valid() && map_ == ResetState(params)
    {
      for k := 0 to |map_|
        invariant Laid() && forall j :: 0 <= j < k ==> map_[j].value == ZERO
      {
        map_ := map_[k := map_[k].(value := ZERO)];
      }
      ResetInv(params);
    }

    /** Whether a pmpcfg register, found by the upper bits of its address, has a lock bit set. */
    method AnyPmpCfgsLocked() returns (any: bool)
      requires Laid()
      ensures any == AnyLocked(map_)
    {
      any := false;
      for k := 0 to |map_|
        invariant any == ((2 < k && AnyLock(Cfg(map_, 0))) || (3 < k && AnyLock(Cfg(map_, 1)))
                          || (4 < k && AnyLock(Cfg(map_, 2))) || (5 < k && AnyLock(Cfg(map_, 3))))
      {
        if map_[k].addr / 4 == 0x3A0 / 4 {
          if AnyLock(ReadOf(map_[k])) {
            any := true;
          }
        }
      }
    }

    method GetRegisterFromMap(addr: nat) returns (k: Option<nat>)
      requires Laid()
      ensures k == IndexOf(addr)
    {
      for i := 0 to |map_|
        invariant IndexOf(addr).Some? ==> i <= IndexOf(addr).value
      {
        IndexOfIsInverse(i, addr);
        if map_[i].addr == addr {
          return Some(i);
        }
      }
      IndexOfIsInverse(0, addr);
      return None;
    }

    /** Scans the map for the configuration of a region and of the next one. */
    method PmpAddrLocked(region: nat) returns (locked: bool)
      requires Laid() && region < 16
      ensures locked == AddrLocked(map_, region)
    {
      var cfg, next := ZERO, ZERO;
      var cfgAddr, nextAddr := 0x3A0 + region / 4, 0x3A0 + (region + 1) / 4;
      for k := 0 to |map_|
        invariant cfg == if 2 + region / 4 < k then Cfg(map_, region / 4) else ZERO
        invariant next == if region < 15 && 2 + (region + 1) / 4 < k then Cfg(map_, (region + 1) / 4) else ZERO
      {
        if map_[k].addr == cfgAddr {
          cfg := ReadOf(map_[k]);
        }
        if map_[k].addr == nextAddr {
          next := ReadOf(map_[k]);
        }
      }
      return LockBit(cfg[region % 4]) || TorMode(next[(region + 1) % 4]);
    }

    method GetLockMask(k: nat) returns (mask: Word)
      requires Laid() && k < 22
      ensures mask == LockMaskOf(map_, k)
    {
      match map_[k].kind
      case MSeccfg =>
        var any := AnyPmpCfgsLocked();
        mask := SecLockMask(map_[k].value, any);
      case PmpCfg =>
        var sec := GetRegisterFromMap(0x747);
        mask := CfgLockMask(map_[k].value, map_[sec.value].value[0] & RLB != 0);
      case PmpAddr =>
        var locked := PmpAddrLocked(map_[k].addr % 16);
        mask := if locked then ONES else ZERO;
      case NonImp =>
        mask := ZERO;
    }

    /** Carries out the operation on register `k` and returns the value read. */
    method Operate(k: nat, op: Op, wdata: Word) returns (read: Word)
      requires Laid() && k < 22
      modifies this`map_
      ensures Laid() && read == ReadOf(old(map_)[k])
      ensures map_ == old(map_)[k := old(map_)[k].(value := ValueAfter(old(map_), k, op, wdata))]
    {
      hide Masked, HandleReserved, AnyLocked, AddrLocked, SecLockMask, CfgLockMask;
      read := ReadOf(map_[k]);
      var value := map_[k].value;
      if op != Read && map_[k].kind != NonImp {
        var mask := GetLockMask(k);
        value := Masked(op, value, wdata, mask);
        if map_[k].kind == PmpCfg {
          var sec := GetRegisterFromMap(0x747);
          value := HandleReserved(value, map_[sec.value].value[0] & MML != 0);
        }
      } else {
        ReadKeeps(map_, k, op, wdata);
      }
      map_ := map_[k := map_[k].(value := value)];
    }

    lemma ReadKeeps(s: seq<Reg>, k: nat, op: Op, wdata: Word)
      requires |s| == 22 && k < 22 && (op == Read || s[k].kind == NonImp)
      ensures ValueAfter(s, k, op, wdata) == s[k].value
    {
    }

    /** Every register sees the transaction; at most one of them has its address. */
    method NewTransaction(t: Transaction)
      requires Valid()
      modifies this
      ensures Valid() && map_ == Step(old(map_), t)
      ensures stopped == (old(stopped) ||
                match IndexOf(t.addr)
                case None => !t.illegal
                case Some(k) => k < 22 && ReadOf(old(map_)[k]) != t.rdata)
    {
      hide ValueAfter;
      StepInv(params, map_, t);
      var matched := false;
      for k := 0 to 22
        invariant Laid()
        invariant matched == (IndexOf(t.addr).Some? && IndexOf(t.addr).value < k)
        invariant map_ == if matched then Step(old(map_), t) else old(map_)
        invariant stopped == (old(stopped) || (matched && ReadOf(old(map_)[IndexOf(t.addr).value]) != t.rdata))
      {
        IndexOfIsInverse(k, t.addr);
        if map_[k].addr == t.addr {
          matched := true;
          var read := Operate(k, t.op, t.wdata);
          if read != t.rdata {
            stopped := true;
          }
        }
      }
      IndexOfIsInverse(0, t.addr);
      if !matched && !t.illegal {
        stopped := true;
      }
    }
  }

  // ----- what every transaction keeps -----

  /** Stored pmpcfg values are legal, and unimplemented registers hold nothing. */
  ghost predicate Inv(p: Params, s: seq<Reg>) {
    && Layout(p, s)
    && (forall i :: 0 <= i < 4 ==> CfgOk(Cfg(s, i), SecBit(s, MML)))
  }

  lemma ResetInv(p: Params)
    ensures Inv(p, ResetState(p))
  {
  }

  /** What mseccfg keeps: its sticky bits, and a clear RLB while any lock is held. */
  lemma StepSec(p: Params, s: seq<Reg>, t: Transaction)
    requires Layout(p, s)
    ensures SecBit(s, MML) ==> SecBit(Step(s, t), MML)
    ensures SecBit(s, MMWP) ==> SecBit(Step(s, t), MMWP)
    ensures AnyLocked(s) && !SecBit(s, RLB) ==> !SecBit(Step(s, t), RLB)
  {
    hide AnyLocked, MaskedByte, SecLockByte, AddrLocked, CfgLockMask, HandleReserved;
    IndexOfIsInverse(0, t.addr);
    if IndexOf(t.addr) == Some(0) {
      SecByteKeeps(t.op, s[0].value[0], t.wdata[0], AnyLocked(s));
    }
  }

  lemma CfgOkWithMml(v: Word, mml: bool, mml': bool)
    requires CfgOk(v, mml) && (mml ==> mml')
    ensures CfgOk(v, mml')
  {
  }

  /** How a transaction changes a pmpcfg register: as `CfgStep` says, or not at all. */
  lemma StepCfg(p: Params, s: seq<Reg>, t: Transaction, i: nat)
    requires Layout(p, s) && i < 4
    ensures Cfg(Step(s, t), i) == Cfg(s, i) ||
            (Cfg(Step(s, t), i) == CfgStep(t.op, Cfg(s, i), t.wdata, SecBit(s, RLB), SecBit(s, MML)) &&
             Step(s, t)[0] == s[0])
  {
    hide Masked, AnyLocked, SecLockMask, AddrLocked, CfgLockMask, HandleReserved, SecBit;
    IndexOfIsInverse(2 + i, t.addr);
  }

  /** Every reachable state is legal. */
  lemma StepInv(p: Params, s: seq<Reg>, t: Transaction)
    requires Inv(p, s)
    ensures Inv(p, Step(s, t))
  {
    hide CfgOk, CfgStep, SecBit, AnyLocked, ValueAfter;
    StepSec(p, s, t);
    var s' := Step(s, t);
    forall i | 0 <= i < 4
      ensures CfgOk(Cfg(s', i), SecBit(s', MML))
    {
      StepCfg(p, s, t, i);
      CfgStepOk(t.op, Cfg(s, i), t.wdata, SecBit(s, RLB), SecBit(s, MML));
      CfgOkWithMml(Cfg(s, i), SecBit(s, MML), SecBit(s', MML));
      SameSecBit(s, s');
    }
  }

  lemma SameSecBit(s: seq<Reg>, s': seq<Reg>)
    requires |s| == |s'| == 22
    ensures s[0] == s'[0] ==> SecBit(s, MML) == SecBit(s', MML)
  {
  }

  // ----- locked regions -----

  /** The region is locked, and rule locking bypass is off. */
  ghost predicate Frozen(s: seq<Reg>, region: nat)
    requires |s| == 22 && region < 16
  {
    LockBit(CfgByte(s, region)) && !SecBit(s, RLB)
  }

  lemma FrozenIsLocked(s: seq<Reg>, region: nat)
    requires |s| == 22 && region < 16 && LockBit(CfgByte(s, region))
    ensures AnyLocked(s)
  {
    hide LockBit;
  }

  lemma StepKeepsByte(p: Params, s: seq<Reg>, t: Transaction, region: nat)
    requires Inv(p, s) && region < 16 && Frozen(s, region)
    ensures CfgByte(Step(s, t), region) == CfgByte(s, region)
  {
    hide CfgOk, CfgStep, LockBit, ValueAfter, IndexOf;
    StepCfg(p, s, t, region / 4);
    CfgStepKeepsLockedByte(t.op, Cfg(s, region / 4), t.wdata, SecBit(s, MML), region % 4);
  }

  lemma MaskedByOnes(op: Op, v: Word, wdata: Word)
    ensures Masked(op, v, wdata, ONES) == v
  {
    hide MaskedByte;
    forall j | 0 <= j < 4
      ensures MaskedByte(op, v[j], wdata[j], 0xFF) == v[j]
    {
      LockedByteStays(op, v[j], wdata[j]);
    }
  }

  lemma StepKeepsAddr(p: Params, s: seq<Reg>, t: Transaction, region: nat)
    requires Layout(p, s) && region < 16 && AddrLocked(s, region)
    ensures AddrOf(Step(s, t), region) == AddrOf(s, region)
  {
    hide Masked, AnyLocked, SecLockMask, AddrLocked, CfgLockMask, HandleReserved;
    IndexOfIsInverse(6 + region, t.addr);
    if IndexOf(t.addr) == Some(6 + region) {
      assert s[6 + region].addr % 16 == region;
      MaskedByOnes(t.op, s[6 + region].value, t.wdata);
    }
  }

  /** What stays fixed while a region is locked. */
  ghost predicate SameRegion(s: seq<Reg>, s': seq<Reg>, region: nat)
    requires |s| == |s'| == 22 && region < 16
  {
    && CfgByte(s', region) == CfgByte(s, region)
    && AddrOf(s', region) == AddrOf(s, region)
    && (region > 0 && TorMode(CfgByte(s, region)) ==> AddrOf(s', region - 1) == AddrOf(s, region - 1))
    && !SecBit(s', RLB)
  }

  lemma StepKeepsRegion(p: Params, s: seq<Reg>, t: Transaction, region: nat)
    requires Inv(p, s) && region < 16 && Frozen(s, region)
    ensures Inv(p, Step(s, t)) && Frozen(Step(s, t), region) && SameRegion(s, Step(s, t), region)
  {
    assert AddrLocked(s, region);
    assert region > 0 && TorMode(CfgByte(s, region)) ==> AddrLocked(s, region - 1);
    hide Inv, Step, CfgByte, AddrOf, LockBit, TorMode, AnyLocked, SecBit, AddrLocked;
    InvHasLayout(p, s);
    StepInv(p, s, t);
    StepSec(p, s, t);
    FrozenIsLocked(s, region);
    StepKeepsByte(p, s, t, region);
    StepKeepsAddr(p, s, t, region);
    if region > 0 && TorMode(CfgByte(s, region)) {
      StepKeepsAddr(p, s, t, region - 1);
    }
  }

  lemma InvHasLayout(p: Params, s: seq<Reg>)
    requires Inv(p, s)
    ensures Layout(p, s)
  {
  }

  /** A locked region, its addresses and RLB outlast every sequence of transactions before a reset. */
  lemma {:induction false} LockedRegionIsFixed(p: Params, s: seq<Reg>, ts: seq<Transaction>, region: nat)
    requires Inv(p, s) && region < 16 && Frozen(s, region)
    ensures SameRegion(s, Run(s, ts), region)
    decreases |ts|
  {
    if ts != [] {
      StepKeepsRegion(p, s, ts[0], region);
      LockedRegionIsFixed(p, Step(s, ts[0]), ts[1..], region);
    }
  }

  /** Legality and the sticky bits outlast every sequence of transactions too. */
  lemma {:induction false} RunInv(p: Params, s: seq<Reg>, ts: seq<Transaction>)
    requires Inv(p, s)
    ensures Inv(p, Run(s, ts))
    ensures SecBit(s, MML) ==> SecBit(Run(s, ts), MML)
    ensures SecBit(s, MMWP) ==> SecBit(Run(s, ts), MMWP)
    decreases |ts|
  {
    hide Inv, Step, SecBit, Layout;
    if ts != [] {
      InvHasLayout(p, s);
      StepInv(p, s, ts[0]);
      StepSec(p, s, ts[0]);
      RunInv(p, Step(s, ts[0]), ts[1..]);
    }
  }

  /** In every state reached from a reset the treatment of reserved values leaves stored values alone. */
  lemma StoredValuesAreLegal(p: Params, ts: seq<Transaction>, i: nat)
    requires i < 4
    ensures var s := Run(ResetState(p), ts); Inv(p, s) && HandleReserved(Cfg(s, i), SecBit(s, MML)) == Cfg(s, i)
  {
    hide HandleReserved, CfgOk, Step;
    ResetInv(p);
    RunInv(p, ResetState(p), ts);
    var s := Run(ResetState(p), ts);
    HandleReservedKeeps(Cfg(s, i), SecBit(s, MML));
  }

  /** A region that was locked at some point after a reset stays as it was then, until the next reset. */
  lemma LockedSinceReset(p: Params, before: seq<Transaction>, after: seq<Transaction>, region: nat)
    requires region < 16 && Frozen(Run(ResetState(p), before), region)
    ensures SameRegion(Run(ResetState(p), before), Run(ResetState(p), before + after), region)
  {
    hide Inv, Step, SameRegion, Frozen;
    ResetInv(p);
    RunInv(p, ResetState(p), before);
    RunConcat(ResetState(p), before, after);
    LockedRegionIsFixed(p, Run(ResetState(p), before), after, region);
  }

  lemma {:induction false} RunConcat(s: seq<Reg>, a: seq<Transaction>, b: seq<Transaction>)
    requires |s| == 22
    ensures Run(s, a + b) == Run(Run(s, a), b)
    decreases |a|
  {
    hide Step;
    if a == [] {
      assert a + b == b;
    } else {
      assert (a + b)[1..] == a[1..] + b;
      StepLength(s, a[0]);
      RunConcat(Step(s, a[0]), a[1..], b);
    }
  }

  lemma StepLength(s: seq<Reg>, t: Transaction)
    requires |s| == 22
    ensures |Step(s, t)| == 22
  {
  }

  // ----- what a transaction stores, bit by bit -----

  /** Only the register with the address changes, and only in its value. */
  lemma StepElsewhere(p: Params, s: seq<Reg>, t: Transaction, k: nat)
    requires Layout(p, s) && k < 22
    ensures s[k].addr != t.addr ==> Step(s, t)[k] == s[k]
    ensures t.op == Read ==> Step(s, t)[k].value == s[k].value
  {
    hide AnyLocked, AddrLocked, SecLockMask, CfgLockMask, HandleReserved, MaskedByte;
    IndexOfIsInverse(k, t.addr);
    if t.op == Read {
      ReadStores(s[k].value, t.wdata, LockMaskOf(s, k));
    }
  }

  lemma ReadStores(v: Word, wdata: Word, mask: Word)
    ensures Masked(Read, v, wdata, mask) == v
  {
  }

  /** An address register: every bit is written, set or cleared unless the register is locked. */
  lemma AddrBits(p: Params, s: seq<Reg>, t: Transaction, region: nat, j: nat, m: Byte)
    requires Layout(p, s) && region < 16 && s[6 + region].kind == PmpAddr && t.addr == 0x3B0 + region
    requires j < 4 && IsBit(m)
    ensures On(AddrOf(Step(s, t), region)[j], m) ==
            BitAfter(t.op, On(AddrOf(s, region)[j], m), On(t.wdata[j], m), AddrLocked(s, region))
  {
    hide AddrLocked, SecLockMask, CfgLockMask, HandleReserved, MaskedByte, BitAfter, On, IsBit;
    assert s[6 + region].addr % 16 == region;
    var mask := LockMaskOf(s, 6 + region);
    MaskedBit(t.op, s[6 + region].value[j], t.wdata[j], mask[j], m);
    FullMask(m);
  }

  lemma FullMask(m: Byte)
    requires IsBit(m)
    ensures On(0xFF, m) && !On(0, m)
  {
  }

  /** Some region is locked. */
  lemma AnyLockedMeans(s: seq<Reg>)
    requires |s| == 22
    ensures AnyLocked(s) <==> exists region: nat :: region < 16 && On(CfgByte(s, region), 0x80)
  {
    hide AnyLock, On, LockBit, ReadOf;
    if AnyLocked(s) {
      var i: nat :| i < 4 && AnyLock(Cfg(s, i));
      var j := LockedByte(Cfg(s, i));
      assert (4 * i + j) / 4 == i && (4 * i + j) % 4 == j;
      assert On(CfgByte(s, 4 * i + j), 0x80);
    }
    if region: nat :| region < 16 && On(CfgByte(s, region), 0x80) {
      LockIsTop(CfgByte(s, region));
      FrozenIsLocked(s, region);
    }
  }

  lemma LockedByte(v: Word) returns (j: nat)
    requires AnyLock(v)
    ensures j < 4 && On(v[j], 0x80)
  {
    j := if LockBit(v[0]) then 0 else if LockBit(v[1]) then 1 else if LockBit(v[2]) then 2 else 3;
  }

  /** Which bits of mseccfg cannot change: all but the lowest three, and those by their own rules. */
  ghost predicate SecLocked(s: seq<Reg>, j: nat, m: Byte)
    requires |s| == 22 && j < 4
  {
    if j > 0 then true
    else if m == 0x1 || m == 0x2 then On(s[0].value[0], m)
    else if m == 0x4 then AnyLocked(s) && !On(s[0].value[0], 0x4)
    else true
  }

  lemma SecBits(p: Params, s: seq<Reg>, t: Transaction, j: nat, m: Byte)
    requires Layout(p, s) && t.addr == 0x747 && j < 4 && IsBit(m)
    ensures On(Step(s, t)[0].value[j], m) ==
            BitAfter(t.op, On(s[0].value[j], m), On(t.wdata[j], m), SecLocked(s, j, m))
  {
    hide AnyLocked, SecLockByte, MaskedByte, BitAfter, On, IsBit;
    var mask := SecLockMask(s[0].value, AnyLocked(s));
    MaskedBit(t.op, s[0].value[j], t.wdata[j], mask[j], m);
    SecLockBit(s[0].value[0], AnyLocked(s), m);
    FullMask(m);
  }

  /** What an operation makes of one bit of a region's configuration, before illegal values are fixed. */
  ghost predicate RawCfgBit(s: seq<Reg>, t: Transaction, region: nat, m: Byte)
    requires |s| == 22 && region < 16
  {
    var old_ := CfgByte(s, region);
    BitAfter(t.op, On(old_, m), On(t.wdata[region % 4], m), !On(s[0].value[0], 0x4) && On(old_, 0x80))
  }

  /** A configuration register: locked bytes stay, and other bits are stored as far as they are legal. */
  lemma CfgBits(p: Params, s: seq<Reg>, t: Transaction, region: nat, m: Byte)
    requires Layout(p, s) && region < 16 && s[2 + region / 4].kind == PmpCfg && t.addr == 0x3A0 + region / 4
    requires IsBit(m) && t.op != Read
    ensures On(CfgByte(Step(s, t), region), m) ==
            if m == 0x20 || m == 0x40 then false
            else if m == 0x2 then
              RawCfgBit(s, t, region, 0x2) && (On(s[0].value[0], 0x1) || RawCfgBit(s, t, region, 0x1))
            else RawCfgBit(s, t, region, m)
  {
    hide AddrLocked, SecLockMask, LegalByte, MaskedByte, BitAfter, On, IsBit, LockBit, AnyLocked;
    var i, j := region / 4, region % 4;
    var v, rlb, mml := s[2 + i].value, SecBit(s, RLB), SecBit(s, MML);
    var mask := CfgLockMask(v, rlb);
    var raw := MaskedByte(t.op, v[j], t.wdata[j], mask[j]);
    assert CfgByte(Step(s, t), region) == LegalByte(raw, mml);
    LegalBit(raw, mml, m);
    MaskedBit(t.op, v[j], t.wdata[j], mask[j], m);
    LowBits();
    MaskedBit(t.op, v[j], t.wdata[j], mask[j], 0x1);
    MaskedBit(t.op, v[j], t.wdata[j], mask[j], 0x2);
    FullMask(m);
    FullMask(0x1);
    FullMask(0x2);
    LockIsTop(v[j]);
    SecBitsAre(s);
  }

  lemma LowBits()
    ensures IsBit(0x1) && IsBit(0x2)
  {
  }

  lemma LockIsTop(b: Byte)
    ensures LockBit(b) == On(b, 0x80)
  {
  }

  lemma SecBitsAre(s: seq<Reg>)
    requires |s| == 22
    ensures SecBit(s, RLB) == On(s[0].value[0], 0x4) && SecBit(s, MML) == On(s[0].value[0], 0x1)
  {
  }

  /** Setting a free bit stores it, and clearing it again removes it. */
  lemma SetThenClear()
    ensures var s := Step(ResetState(FULL), Transaction(Set, 0x3B0, [1, 0, 0, 0], ZERO, false));
            && AddrOf(s, 0) == [1, 0, 0, 0]
            && AddrOf(Step(s, Transaction(Clear, 0x3B0, [1, 0, 0, 0], [1, 0, 0, 0], false)), 0) == ZERO
  {
    var s0 := ResetState(FULL);
    assert !AddrLocked(s0, 0);
    var s1 := Step(s0, Transaction(Set, 0x3B0, [1, 0, 0, 0], ZERO, false));
    assert s1 == s0[6 := s0[6].(value := s1[6].value)] && !AddrLocked(s1, 0);
  }

  // ----- the address lock and its specification -----

  /**
   A write to an implemented address register takes effect exactly when the region is unlocked and
   the next one is not in TOR mode.
   */
  lemma AddrWriteTakesEffectIff(p: Params, s: seq<Reg>, region: nat, wdata: Word)
    requires Layout(p, s) && region < 16 && s[6 + region].kind == PmpAddr && wdata != AddrOf(s, region)
    ensures AddrOf(Step(s, AddrWrite(region, wdata)), region) == wdata <==> !AddrLocked(s, region)
  {
    hide AddrLocked, SecLockMask, CfgLockMask, HandleReserved;
    assert s[6 + region].addr % 16 == region;
    MaskedByOnes(Write, s[6 + region].value, wdata);
    MaskedByZero(s[6 + region].value, wdata);
  }

  function AddrWrite(region: nat, wdata: Word): Transaction {
    Transaction(Write, 0x3B0 + region, wdata, ZERO, false)
  }

  function NextIsTor(s: seq<Reg>, region: nat): bool
    requires |s| == 22 && region < 16
  {
    region < 15 && TorMode(CfgByte(s, region + 1))
  }

  /**
   Section 3.7.1 of the RISC-V Privileged Architecture locks the address below a TOR region only if
   that region is locked, and Smepmp lifts all of these locks while RLB is set.
   */
  predicate SpecAddrLocked(s: seq<Reg>, region: nat)
    requires |s| == 22 && region < 16
  {
    && !SecBit(s, RLB)
    && (LockBit(CfgByte(s, region)) || (NextIsTor(s, region) && LockBit(CfgByte(s, region + 1))))
  }

  /** The specification never locks more than the code does. */
  lemma SpecLocksLess(s: seq<Reg>, region: nat)
    requires |s| == 22 && region < 16 && SpecAddrLocked(s, region)
    ensures AddrLocked(s, region)
  {
  }

  /** Where the two differ: under RLB on every lock of the code, otherwise below an unlocked TOR region. */
  lemma AddrLockAgreesIff(s: seq<Reg>, region: nat)
    requires |s| == 22 && region < 16
    ensures (AddrLocked(s, region) <==> SpecAddrLocked(s, region)) <==>
            if SecBit(s, RLB) then !AddrLocked(s, region)
            else !(!LockBit(CfgByte(s, region)) && NextIsTor(s, region) && !LockBit(CfgByte(s, region + 1)))
  {
    hide LockBit, TorMode, SecBit, CfgByte;
  }

  /** So a write that the specification lets through is dropped in exactly those cases. */
  lemma WriteDroppedAgainstSpecIff(p: Params, s: seq<Reg>, region: nat, wdata: Word)
    requires Layout(p, s) && region < 16 && s[6 + region].kind == PmpAddr && wdata != AddrOf(s, region)
    ensures !SpecAddrLocked(s, region) && AddrOf(Step(s, AddrWrite(region, wdata)), region) != wdata <==>
            if SecBit(s, RLB) then AddrLocked(s, region)
            else !LockBit(CfgByte(s, region)) && NextIsTor(s, region) && !LockBit(CfgByte(s, region + 1))
  {
    hide LockBit, TorMode, SecBit, CfgByte, Step;
    AddrWriteTakesEffectIff(p, s, region, wdata);
    AddrLockAgreesIff(s, region);
    if SpecAddrLocked(s, region) {
      SpecLocksLess(s, region);
    }
  }

  const FULL := Params(true, 16)

  /** After a reset, making region 1 TOR without locking it locks the address of region 0. */
  lemma UnlockedTorLocksBelow()
    ensures var s := Run(ResetState(FULL), [Transaction(Write, 0x3A0, [0, 0x8, 0, 0], ZERO, false)]);
            AddrLocked(s, 0) && !SpecAddrLocked(s, 0)
  {
    var s0 := ResetState(FULL);
    var t := Transaction(Write, 0x3A0, [0, 0x8, 0, 0], ZERO, false);
    assert [t][1..] == [];
    var s := Run(s0, [t]);
    assert s == Step(s0, t) && s[0] == s0[0] && s[2].value == [0, 0x8, 0, 0];
  }

  /** After a reset, setting RLB and then locking region 0 locks its address although RLB is set. */
  lemma BypassDoesNotUnlock()
    ensures var s := Run(ResetState(FULL), [Transaction(Write, 0x747, [RLB, 0, 0, 0], ZERO, false),
                                            Transaction(Write, 0x3A0, [0x80, 0, 0, 0], ZERO, false)]);
            AddrLocked(s, 0) && !SpecAddrLocked(s, 0)
  {
    var s0 := ResetState(FULL);
    var t0 := Transaction(Write, 0x747, [RLB, 0, 0, 0], ZERO, false);
    var t1 := Transaction(Write, 0x3A0, [0x80, 0, 0, 0], ZERO, false);
    BypassSet(s0, t0);
    RunOfTwo(s0, t0, t1);
    LockUnderBypass(Step(s0, t0), t1);
  }

  lemma RunOfTwo(s: seq<Reg>, t0: Transaction, t1: Transaction)
    requires |s| == 22
    ensures Run(s, [t0, t1]) == Step(Step(s, t0), t1)
  {
    hide Step;
    StepLength(s, t0);
    StepLength(Step(s, t0), t1);
    assert [t0, t1][1..] == [t1] && [t1][1..] == [];
    assert Run(Step(s, t0), [t1]) == Run(Step(Step(s, t0), t1), []);
  }

  lemma BypassSet(s: seq<Reg>, t: Transaction)
    requires s == ResetState(FULL) && t == Transaction(Write, 0x747, [RLB, 0, 0, 0], ZERO, false)
    ensures Step(s, t) == s[0 := s[0].(value := [RLB, 0, 0, 0])]
  {
    assert Step(s, t)[0].value == [RLB, 0, 0, 0];
  }

  lemma LockUnderBypass(s: seq<Reg>, t: Transaction)
    requires s == ResetState(FULL)[0 := Reg(MSeccfg, 0x747, [RLB, 0, 0, 0])]
    requires t == Transaction(Write, 0x3A0, [0x80, 0, 0, 0], ZERO, false)
    ensures AddrLocked(Step(s, t), 0) && !SpecAddrLocked(Step(s, t), 0)
  {
    var s' := Step(s, t);
    assert s'[0] == s[0] && s'[2].value == [0x80, 0, 0, 0];
  }

  lemma MaskedByZero(v: Word, wdata: Word)
    ensures Masked(Write, v, wdata, ZERO) == wdata
  {
    forall j | 0 <= j < 4
      ensures MaskedByte(Write, v[j], wdata[j], 0) == wdata[j]
    {
      UnlockedByteWrites(v[j], wdata[j]);
    }
  }

  lemma UnlockedByteWrites(v: Byte, wdata: Byte)
    ensures MaskedByte(Write, v, wdata, 0) == wdata
  {
  }
}
