/**
 The binary gate section of an AIGER file: each gate as two differences, each difference
 in base 128 with the low digits first and the top bit set on all bytes but the last.
 */
module AigerBinary {
  import opened AigCore
  import opened Wrappers

  type Byte = x: int | 0 <= x < 256

  /** The bytes of `x`. */
  function Digits(x: nat): seq<Byte> {
    if x < 128 then [x] else [x % 128 + 128] + Digits(x / 128)
  }

  /** Reads one number from the front of `s`, as a reader of the format does. */
  function ReadNumber(s: seq<Byte>): Option<(nat, seq<Byte>)> {
    if s == [] then None
    else if s[0] < 128 then Some((s[0], s[1..]))
    else match ReadNumber(s[1..])
      case None => None
      case Some((high, rest)) => Some((s[0] - 128 + 128 * high, rest))
  }

  lemma {:induction false} NumberRoundTrip(x: nat, rest: seq<Byte>)
    ensures ReadNumber(Digits(x) + rest) == Some((x, rest))
  {
    var s := Digits(x) + rest;
    if x < 128 {
      assert s[1..] == rest;
    } else {
      NumberRoundTrip(x / 128, rest);
      assert s[1..] == Digits(x / 128) + rest;
    }
  }

  method Encode(number: nat) returns (bytes: seq<Byte>)
    ensures bytes == Digits(number)
  {
    var x := number;
    bytes := [];
    while x >= 128
      invariant bytes + Digits(x) == Digits(number)
    {
      assert Digits(x) == [x % 128 + 128] + Digits(x / 128);
      bytes := bytes + [x % 128 + 128];
      x := x / 128;
    }
    bytes := bytes + [x];
  }

  // ----- gates -----

  function LitOf(code: nat): Lit {
    Lit(code / 2, code % 2 == 1)
  }

  lemma LitRoundTrip(l: Lit)
    ensures LitOf(l.Code()) == l
  {
  }

  /** The number that the writer starts the differences of the `k`-th gate from. */
  function Lhs(base: nat, k: nat): nat {
    2 * (base + k) + 2
  }

  /** It is the literal of the variable that the gate drives. */
  lemma LhsIsGateLiteral(base: nat, k: nat)
    ensures Lhs(base, k) == Pos(base + 1 + k).Code()
  {
  }

  function GateBytes(g: Gate, lhs: nat): seq<Byte>
    requires g.rhs1.Code() <= g.rhs0.Code() <= lhs
  {
    Digits(lhs - g.rhs0.Code()) + Digits(g.rhs0.Code() - g.rhs1.Code())
  }

  /** The bytes of the gates from the `k`-th on. */
  function SectionFrom(gates: seq<Gate>, base: nat, k: nat): seq<Byte>
    requires Sorted(gates, base) && k <= |gates|
    decreases |gates| - k
  {
    if k == |gates| then []
    else
      assert gates[k].rhs1.Code() <= gates[k].rhs0.Code() && gates[k].rhs0.v < base + 1 + k;
      GateBytes(gates[k], Lhs(base, k)) + SectionFrom(gates, base, k + 1)
  }

  /** Writes the gate section; sorted operands are what makes both differences non-negative. */
  method WriteGates(gates: seq<Gate>, base: nat) returns (bytes: seq<Byte>)
    requires Sorted(gates, base)
    ensures bytes == SectionFrom(gates, base, 0)
    ensures ReadGates(bytes, base + 1, |gates|) == Some((gates, []))
  {
    hide Digits, ReadNumber, ReadGates, Sorted;
    bytes := [];
    for i := 0 to |gates|
      invariant bytes + SectionFrom(gates, base, i) == SectionFrom(gates, base, 0)
    {
      var lhs := 2 * (base + i) + 2;
      var rhs0, rhs1 := gates[i].rhs0.Code(), gates[i].rhs1.Code();
      SortedAt(gates, base, i);
      var first := Encode(lhs - rhs0);
      var second := Encode(rhs0 - rhs1);
      assert SectionFrom(gates, base, i) == first + second + SectionFrom(gates, base, i + 1);
      ghost var before := bytes;
      bytes := bytes + first + second;
      assert bytes + SectionFrom(gates, base, i + 1) == before + (first + second + SectionFrom(gates, base, i + 1));
    }
    GatesRoundTrip(gates, base, 0, []);
    assert SectionFrom(gates, base, 0) + [] == SectionFrom(gates, base, 0) && gates[0..] == gates;
  }

  /** Reads `count` gates, the first of which drives variable `v`, as a reader of the format does. */
  function ReadGates(s: seq<Byte>, v: nat, count: nat): Option<(seq<Gate>, seq<Byte>)>
    decreases count
  {
    if count == 0 then Some(([], s))
    else match ReadNumber(s)
      case None => None
      case Some((delta0, s0)) =>
        match ReadNumber(s0)
        case None => None
        case Some((delta1, s1)) =>
          if Pos(v).Code() < delta0 + delta1 then None
          else
            var rhs0 := Pos(v).Code() - delta0;
            match ReadGates(s1, v + 1, count - 1)
            case None => None
            case Some((gates, rest)) => Some(([Gate(LitOf(rhs0), LitOf(rhs0 - delta1))] + gates, rest))
  }

  lemma SortedAt(gates: seq<Gate>, base: nat, k: nat)
    requires Sorted(gates, base) && k < |gates|
    ensures gates[k].rhs1.Code() <= gates[k].rhs0.Code() < Lhs(base, k)
  {
  }

  /** Reading back any number of gates gives exactly those gates, and leaves the rest of the file. */
  lemma {:induction false} GatesRoundTrip(gates: seq<Gate>, base: nat, k: nat, rest: seq<Byte>)
    requires Sorted(gates, base) && k <= |gates|
    ensures ReadGates(SectionFrom(gates, base, k) + rest, base + 1 + k, |gates| - k) == Some((gates[k..], rest))
    decreases |gates| - k
  {
    hide Digits, ReadNumber, LitOf, Sorted;
    if k < |gates| {
      var g, lhs := gates[k], Lhs(base, k);
      SortedAt(gates, base, k);
      LhsIsGateLiteral(base, k);
      var d0, d1 := lhs - g.rhs0.Code(), g.rhs0.Code() - g.rhs1.Code();
      var tail := SectionFrom(gates, base, k + 1) + rest;
      assert SectionFrom(gates, base, k) + rest == Digits(d0) + (Digits(d1) + tail);
      NumberRoundTrip(d0, Digits(d1) + tail);
      NumberRoundTrip(d1, tail);
      GatesRoundTrip(gates, base, k + 1, rest);
      LitRoundTrip(g.rhs0);
      LitRoundTrip(g.rhs1);
      assert [g] + gates[k + 1..] == gates[k..];
    } else {
      assert SectionFrom(gates, base, k) + rest == rest && gates[k..] == [];
    }
  }

  /** What a frame must satisfy when the gates that were read drive the variables from `v` on. */
  ghost predicate ReadGatesHold(gates: seq<Gate>, v: nat, f: Frame) {
    !f(0) && forall k :: 0 <= k < |gates| ==> f(v + k) == GateVal(f, gates[k])
  }

  /** The section means the gates: whoever reads it back constrains the same frames. */
  lemma SectionMeansGates(gates: seq<Gate>, base: nat, f: Frame)
    requires Sorted(gates, base)
    ensures var r := ReadGates(SectionFrom(gates, base, 0), base + 1, |gates|);
            r.Some? && (ReadGatesHold(r.value.0, base + 1, f) <==> GatesHold(gates, base, f))
  {
    hide Sorted, ReadGates, SectionFrom, GateVal;
    GatesRoundTrip(gates, base, 0, []);
    assert SectionFrom(gates, base, 0) + [] == SectionFrom(gates, base, 0) && gates[0..] == gates;
  }

  // ----- examples of the format -----

  /** Numbers as the AIGER format description writes them. */
  lemma NumberExamples()
    ensures Digits(0) == [0] && Digits(127) == [127] && Digits(128) == [128, 1]
    ensures Digits(16383) == [255, 127] && Digits(16387) == [131, 128, 1]
  {
    assert Digits(1) == [1] && Digits(127) == [127];
    assert Digits(16387 / 128) == [128, 1];
  }

  /** With two variables before it, the gate `6 = 4 & 2` is written as two differences of 2. */
  lemma GateExample()
    ensures Sorted([Gate(Pos(2), Pos(1))], 2) && SectionFrom([Gate(Pos(2), Pos(1))], 2, 0) == [2, 2]
  {
    var gates := [Gate(Pos(2), Pos(1))];
    assert SectionFrom(gates, 2, 1) == [];
    assert Digits(2) == [2];
  }
}
