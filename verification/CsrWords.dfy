/**
 Arithmetic on the words of the PMP registers: masked writes, lock masks and the treatment
 of reserved field values. Every operation works on each byte by itself.
 */
module CsrWords {

  type Byte = bv8

  /** A 32-bit register value, lowest byte first. */
  type Word = w: seq<Byte> | |w| == 4 witness [0, 0, 0, 0]

  const ZERO: Word := [0, 0, 0, 0]
  const ONES: Word := [0xFF, 0xFF, 0xFF, 0xFF]

  // The fields of mseccfg, all in its lowest byte.
  const MML: Byte := 0x1
  const MMWP: Byte := 0x2
  const RLB: Byte := 0x4

  datatype Op = Read | Write | Set | Clear

  /** What an operation stores in a byte whose `mask` bits are locked. */
  function MaskedByte(op: Op, v: Byte, wdata: Byte, mask: Byte): Byte {
    match op
    case Read => v
    case Write => (v & mask) | (wdata & !mask)
    case Set => v | (wdata & !mask)
    case Clear => v & (!wdata | mask)
  }

  function Masked(op: Op, v: Word, wdata: Word, mask: Word): Word {
    seq(4, j requires 0 <= j < 4 => MaskedByte(op, v[j], wdata[j], mask[j]))
  }

  lemma LockedByteStays(op: Op, v: Byte, wdata: Byte)
    ensures MaskedByte(op, v, wdata, 0xFF) == v
  {
  }

  // ----- mseccfg -----

  function SecLockByte(v: Byte, anyLocked: bool): Byte {
    0xF8
    | (if anyLocked && v & RLB == 0 then RLB else 0)
    | (if v & MMWP != 0 then MMWP else 0)
    | (if v & MML != 0 then MML else 0)
  }

  function SecLockMask(v: Word, anyLocked: bool): Word {
    [SecLockByte(v[0], anyLocked), 0xFF, 0xFF, 0xFF]
  }

  /** MML and MMWP are sticky, RLB cannot come back while a lock is held, other bits stay zero. */
  lemma SecByteKeeps(op: Op, v: Byte, wdata: Byte, anyLocked: bool)
    ensures var v' := MaskedByte(op, v, wdata, SecLockByte(v, anyLocked));
      && (v & MML != 0 ==> v' & MML != 0)
      && (v & MMWP != 0 ==> v' & MMWP != 0)
      && (anyLocked && v & RLB == 0 ==> v' & RLB == 0)
      && v' & 0xF8 == v & 0xF8
  {
  }

  // ----- pmpcfg -----

  predicate LockBit(b: Byte) { b & 0x80 != 0 }

  predicate TorMode(b: Byte) { b & 0x18 == 0x8 }

  predicate AnyLock(v: Word) {
    LockBit(v[0]) || LockBit(v[1]) || LockBit(v[2]) || LockBit(v[3])
  }

  function CfgLockMask(v: Word, rlb: bool): Word {
    seq(4, j requires 0 <= j < 4 => if !rlb && LockBit(v[j]) then 0xFF else 0)
  }

  /** Write without read permission, which only MML gives a meaning. */
  predicate Reserved(b: Byte) { b & 0x3 == 0x2 }

  function LegalByte(b: Byte, mml: bool): Byte {
    var cfg := b & 0x9F;
    if !mml && Reserved(cfg) then cfg & 0xFC else cfg
  }

  function HandleReserved(v: Word, mml: bool): Word {
    seq(4, j requires 0 <= j < 4 => LegalByte(v[j], mml))
  }

  function CfgStep(op: Op, v: Word, wdata: Word, rlb: bool, mml: bool): Word {
    if op == Read then v else HandleReserved(Masked(op, v, wdata, CfgLockMask(v, rlb)), mml)
  }

  /** What every stored pmpcfg byte satisfies. */
  predicate ByteOk(b: Byte, mml: bool) {
    b & 0x9F == b && (mml || !Reserved(b))
  }

  predicate CfgOk(v: Word, mml: bool) {
    ByteOk(v[0], mml) && ByteOk(v[1], mml) && ByteOk(v[2], mml) && ByteOk(v[3], mml)
  }

  /** A stored byte is already legal. */
  lemma LegalByteKeeps(b: Byte, mml: bool)
    requires ByteOk(b, mml)
    ensures LegalByte(b, mml) == b
  {
  }

  lemma LegalByteOk(b: Byte, mml: bool)
    ensures ByteOk(LegalByte(b, mml), mml)
  {
  }

  lemma CfgStepOk(op: Op, v: Word, wdata: Word, rlb: bool, mml: bool)
    requires CfgOk(v, mml)
    ensures CfgOk(CfgStep(op, v, wdata, rlb, mml), mml)
  {
    hide LegalByte, ByteOk, MaskedByte;
    if op != Read {
      forall j | 0 <= j < 4
        ensures ByteOk(CfgStep(op, v, wdata, rlb, mml)[j], mml)
      {
        LegalByteOk(Masked(op, v, wdata, CfgLockMask(v, rlb))[j], mml);
      }
    }
  }

  /** A stored value is left alone as a whole. */
  lemma HandleReservedKeeps(v: Word, mml: bool)
    requires CfgOk(v, mml)
    ensures HandleReserved(v, mml) == v
  {
    hide LegalByte, ByteOk;
    forall j | 0 <= j < 4
      ensures LegalByte(v[j], mml) == v[j]
    {
      LegalByteKeeps(v[j], mml);
    }
  }

  /** No operation changes a locked byte when RLB is clear. */
  lemma CfgStepKeepsLockedByte(op: Op, v: Word, wdata: Word, mml: bool, j: nat)
    requires CfgOk(v, mml) && j < 4 && LockBit(v[j])
    ensures CfgStep(op, v, wdata, false, mml)[j] == v[j]
  {
    hide LegalByte, ByteOk, MaskedByte, LockBit;
    LockedByteStays(op, v[j], wdata[j]);
    assert ByteOk(v[j], mml);
    LegalByteKeeps(v[j], mml);
  }

  // ----- bit by bit -----

  /** A byte with just one bit set, to select that bit with. */
  predicate IsBit(m: Byte) {
    m == 0x1 || m == 0x2 || m == 0x4 || m == 0x8 || m == 0x10 || m == 0x20 || m == 0x40 || m == 0x80
  }

  predicate On(b: Byte, m: Byte) { b & m != 0 }

  /** What an operation makes of one bit: a locked bit stays, another one is written, set or cleared. */
  function BitAfter(op: Op, old_: bool, written: bool, locked: bool): bool {
    if locked then old_
    else match op
      case Read => old_
      case Write => written
      case Set => old_ || written
      case Clear => old_ && !written
  }

  lemma MaskedBit(op: Op, v: Byte, wdata: Byte, mask: Byte, m: Byte)
    requires IsBit(m)
    ensures On(MaskedByte(op, v, wdata, mask), m) == BitAfter(op, On(v, m), On(wdata, m), On(mask, m))
  {
    hide On, IsBit, MaskedByte, BitAfter;
    match op
    case Read => ReadBit(v, wdata, mask, m);
    case Write => WrittenBit(v, wdata, mask, m);
    case Set => SetBit(v, wdata, mask, m);
    case Clear => ClearedBit(v, wdata, mask, m);
  }

  lemma ReadBit(v: Byte, wdata: Byte, mask: Byte, m: Byte)
    ensures On(MaskedByte(Read, v, wdata, mask), m) == BitAfter(Read, On(v, m), On(wdata, m), On(mask, m))
  {
  }

  lemma WrittenBit(v: Byte, wdata: Byte, mask: Byte, m: Byte)
    requires IsBit(m)
    ensures On(MaskedByte(Write, v, wdata, mask), m) == BitAfter(Write, On(v, m), On(wdata, m), On(mask, m))
  {
  }

  lemma SetBit(v: Byte, wdata: Byte, mask: Byte, m: Byte)
    requires IsBit(m)
    ensures On(MaskedByte(Set, v, wdata, mask), m) == BitAfter(Set, On(v, m), On(wdata, m), On(mask, m))
  {
  }

  lemma ClearedBit(v: Byte, wdata: Byte, mask: Byte, m: Byte)
    requires IsBit(m)
    ensures On(MaskedByte(Clear, v, wdata, mask), m) == BitAfter(Clear, On(v, m), On(wdata, m), On(mask, m))
  {
  }

  /** The reserved bits read as zero, and writing without reading is only allowed under MML. */
  lemma LegalBit(b: Byte, mml: bool, m: Byte)
    requires IsBit(m)
    ensures On(LegalByte(b, mml), m) ==
            if m == 0x20 || m == 0x40 then false
            else if m == 0x2 then On(b, 0x2) && (mml || On(b, 0x1))
            else On(b, m)
  {
  }

  /** Which bits of the lowest mseccfg byte an operation cannot change. */
  lemma SecLockBit(v: Byte, anyLocked: bool, m: Byte)
    requires IsBit(m)
    ensures On(SecLockByte(v, anyLocked), m) ==
            if m == 0x1 || m == 0x2 then On(v, m)
            else if m == 0x4 then anyLocked && !On(v, 0x4)
            else true
  {
  }
}
