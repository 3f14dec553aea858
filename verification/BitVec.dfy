/**
 A packed bit vector: 64 bits to a word, with the bits past the length kept at zero.
 */
module BitVecs {
  import opened Wrappers

  /** A 64-bit word, lowest bit first. */
  type Word = w: seq<bool> | |w| == 64 witness seq(64, i => false)

  function ZeroWord(): Word {
    seq(64, i => false)
  }

  /** `value << k` for a single bit. */
  function Shifted(value: bool, k: nat): Word
    requires k < 64
  {
    seq(64, i => value && i == k)
  }

  function Or(a: Word, b: Word): Word {
    seq(64, i requires 0 <= i < 64 => a[i] || b[i])
  }

  function AndNot(a: Word, b: Word): Word {
    seq(64, i requires 0 <= i < 64 => a[i] && !b[i])
  }

  ghost function BitAt(inner: seq<Word>, i: nat): bool
    requires i < 64 * |inner|
  {
    inner[i / 64][i % 64]
  }

  class BitVec {
    var len: nat
    var inner: seq<Word>

    ghost predicate Valid()
      reads this
    {
      && |inner| == (len + 63) / 64
      && forall i :: len <= i < 64 * |inner| ==> !BitAt(inner, i)
    }

    /** The plain sequence that the words stand for. */
    ghost function Contents(): seq<bool>
      requires Valid()
      reads this
    {
      Unpacked(inner, len)
    }

    constructor ()
      ensures Valid() && Contents() == []
    {
      len, inner := 0, [];
    }

    constructor FillZero(len: nat)
      ensures Valid() && |Contents()| == len && forall i :: 0 <= i < len ==> !Contents()[i]
    {
      this.len := len;
      inner := seq((len + 63) / 64, i => ZeroWord());
    }

    method Set(idx: nat, value: bool)
      requires Valid() && idx < |Contents()|
      modifies this
      ensures Valid() && Contents() == old(Contents())[idx := value]
    {
      var w, k := idx / 64, idx % 64;
      if value {
        inner := inner[w := Or(inner[w], Shifted(true, k))];
      } else {
        inner := inner[w := AndNot(inner[w], Shifted(true, k))];
      }
      SetWord(old(inner), inner, idx, value);
    }

    /** Appends a bit; on a partly filled word this only works because the padding is zero. */
    method Push(value: bool)
      requires Valid()
      modifies this
      ensures Valid() && Contents() == old(Contents()) + [value]
    {
      if len % 64 == 0 {
        inner := inner + [Shifted(value, 0)];
      } else {
        var last := |inner| - 1;
        inner := inner[last := Or(inner[last], Shifted(value, len % 64))];
      }
      len := len + 1;
      PushWord(old(inner), inner, old(len), value);
    }

    method Get(index: nat) returns (r: Option<bool>)
      requires Valid()
      ensures r == if index < |Contents()| then Some(Contents()[index]) else None
    {
      if index >= len {
        return None;
      }
      return Some(inner[index / 64][index % 64]);
    }
  }

  ghost function Unpacked(inner: seq<Word>, len: nat): seq<bool>
    requires len <= 64 * |inner|
  {
    seq(len, i requires 0 <= i < len => BitAt(inner, i))
  }

  lemma IndexUnique(i: nat, j: nat)
    ensures i / 64 == j / 64 && i % 64 == j % 64 ==> i == j
  {
  }

  /** Changing one bit of one word changes that bit alone. */
  lemma SetWord(inner: seq<Word>, inner': seq<Word>, idx: nat, value: bool)
    requires idx < 64 * |inner|
    requires inner' == inner[idx / 64 := if value then Or(inner[idx / 64], Shifted(true, idx % 64))
                                         else AndNot(inner[idx / 64], Shifted(true, idx % 64))]
    ensures forall i :: 0 <= i < 64 * |inner| ==> BitAt(inner', i) == if i == idx then value else BitAt(inner, i)
  {
    forall i | 0 <= i < 64 * |inner|
      ensures BitAt(inner', i) == if i == idx then value else BitAt(inner, i)
    {
      IndexUnique(i, idx);
    }
  }

  lemma PushWord(inner: seq<Word>, inner': seq<Word>, len: nat, value: bool)
    requires |inner| == (len + 63) / 64
    requires forall i :: len <= i < 64 * |inner| ==> !BitAt(inner, i)
    requires len % 64 == 0 ==> inner' == inner + [Shifted(value, 0)]
    requires len % 64 != 0 ==> inner' == inner[|inner| - 1 := Or(inner[|inner| - 1], Shifted(value, len % 64))]
    ensures |inner'| == (len + 1 + 63) / 64
    ensures BitAt(inner', len) == value
    ensures forall i :: 0 <= i < len ==> BitAt(inner', i) == BitAt(inner, i)
    ensures forall i :: len < i < 64 * |inner'| ==> !BitAt(inner', i)
  {
    if len % 64 == 0 {
      assert |inner| == len / 64;
    } else {
      assert |inner| - 1 == len / 64 && !BitAt(inner, len);
    }
    forall i | 0 <= i < 64 * |inner'|
      ensures i < len ==> BitAt(inner', i) == BitAt(inner, i)
      ensures i > len ==> !BitAt(inner', i)
    {
      IndexUnique(i, len);
      if len < i {
        if len % 64 == 0 {
          assert i / 64 == |inner|;
        } else {
          assert !BitAt(inner, i);
        }
      }
    }
  }

  method FromIter(items: seq<bool>) returns (v: BitVec)
    ensures fresh(v) && v.Valid() && v.Contents() == items
  {
    v := new BitVec();
    for i := 0 to |items|
      invariant fresh(v) && v.Valid() && v.Contents() == items[..i]
    {
      v.Push(items[i]);
      assert items[..i] + [items[i]] == items[..i + 1];
    }
    assert items[..|items|] == items;
  }
}
