/**
 Matching the data accesses seen on the bus of the design under test against the accesses of
 the instruction set simulator, which come one aligned piece at a time.
 */
module Cosim {

  type Byte = bv8

  /** A 32-bit data word, lowest byte first. */
  type Data = d: seq<Byte> | |d| == 4 witness [0, 0, 0, 0]

  /** An access of the design; `be` holds the numbers of the enabled byte lanes. */
  datatype Access = Access(
    store: bool, data: Data, addr: nat, be: set<nat>, error: bool,
    misalignedFirst: bool, misalignedSecond: bool, firstSawError: bool, mMode: bool
  ) {
    predicate Misaligned() { misalignedFirst || misalignedSecond }
  }

  /** An access waiting to be matched; `seen` holds the lanes the simulator has accessed. */
  datatype Pending = Pending(info: Access, seen: set<nat>)

  /** An access of the simulator, within one aligned word. */
  datatype Iss = Iss(store: bool, addr: nat, bytes: seq<Byte>) {
    function Offset(): nat { addr % 4 }

    function Lanes(): set<nat> {
      Range(Offset(), |bytes|)
    }
  }

  /** `n` lanes from `lo` on. */
  function Range(lo: nat, n: nat): (r: set<nat>)
    ensures forall i: nat :: i in r <==> lo <= i < lo + n
  {
    if n == 0 then {} else Range(lo, n - 1) + {lo + n - 1}
  }

  predicate IssOk(x: Iss) {
    1 <= |x.bytes| <= 4 && x.addr % 4 + |x.bytes| <= 4
  }

  datatype Result = Ok | CheckFailed | BusError

  // ----- what it means to match -----

  /** The byte the simulator has in lane `i`. */
  ghost function LaneByte(x: Iss, i: nat): Byte
    requires x.Offset() <= i < x.Offset() + |x.bytes|
  {
    x.bytes[i - x.Offset()]
  }

  predicate DataChecked(info: Access) {
    info.store || !info.error
  }

  /** Same word, same direction, and the same data in every lane the simulator accesses. */
  ghost predicate Agrees(info: Access, x: Iss) {
    && info.addr == x.addr - x.addr % 4
    && info.store == x.store
    && (DataChecked(info) ==>
         forall i :: x.Offset() <= i < x.Offset() + |x.bytes| && i < 4 ==> info.data[i] == LaneByte(x, i))
  }

  /** The accesses agree with `info`, and their lanes are disjoint and make up `lanes`. */
  ghost predicate CoverOnce(info: Access, xs: seq<Iss>, lanes: set<nat>) {
    if xs == [] then lanes == {}
    else
      var x := xs[|xs| - 1];
      IssOk(x) && Agrees(info, x) && x.Lanes() <= lanes && CoverOnce(info, xs[..|xs| - 1], lanes - x.Lanes())
  }

  /** Each covered lane belongs to one of the accesses and no other. */
  lemma {:induction false} LaneCoveredOnce(info: Access, xs: seq<Iss>, lanes: set<nat>, i: nat) returns (k: nat)
    requires CoverOnce(info, xs, lanes) && i in lanes
    ensures k < |xs| && i in xs[k].Lanes() && Agrees(info, xs[k])
    ensures forall j :: 0 <= j < |xs| && i in xs[j].Lanes() ==> j == k
    decreases |xs|
  {
    var last := |xs| - 1;
    if i in xs[last].Lanes() {
      k := last;
      forall j | 0 <= j < last
        ensures i !in xs[j].Lanes()
      {
        LaneOutside(info, xs[..last], lanes - xs[last].Lanes(), i, j);
      }
    } else {
      k := LaneCoveredOnce(info, xs[..last], lanes - xs[last].Lanes(), i);
    }
  }

  lemma {:induction false} LaneOutside(info: Access, xs: seq<Iss>, lanes: set<nat>, i: nat, j: nat)
    requires CoverOnce(info, xs, lanes) && i !in lanes && j < |xs|
    ensures i !in xs[j].Lanes()
    decreases |xs|
  {
    var last := |xs| - 1;
    if j < last {
      LaneOutside(info, xs[..last], lanes - xs[last].Lanes(), i, j);
    }
  }

  /** How an access left the queue, with the simulator accesses that were matched against it. */
  datatype Retired =
    | Matched(info: Access, by_: seq<Iss>)      // no error: fully covered
    | Errored(info: Access, by_: seq<Iss>)      // error response passed on to the simulator
    | SecondHalf(info: Access)                  // taken along with an erroring first half
    | Dropped(info: Access)                     // the simulator made no access for it

  ghost predicate RetiredOk(r: Retired) {
    match r
    case Matched(info, xs) => !info.error && CoverOnce(info, xs, info.be)
    case Errored(info, xs) => info.error && xs != [] && exists lanes :: CoverOnce(info, xs, lanes) && lanes <= info.be
    case SecondHalf(info) => info.misalignedSecond
    case Dropped(info) => info.misalignedSecond && info.firstSawError
  }

  /** What directly follows an erroring first half that crosses a word. */
  ghost predicate IsSecondHalfOf(first: Retired, second: Retired) {
    && first.Errored? && first.info.error && first.info.misalignedFirst && 3 in first.info.be
    && second.SecondHalf? && second.info.misalignedSecond
    && second.info.addr == (first.info.addr + 4) % 0x1_0000_0000
  }

  /** Such first halves and second halves retire in pairs, and only so. */
  ghost predicate HalvesPaired(rs: seq<Retired>) {
    && (forall i :: 0 <= i < |rs| && rs[i].SecondHalf? ==> i > 0 && IsSecondHalfOf(rs[i - 1], rs[i]))
    && (forall i :: 0 <= i < |rs| && rs[i].Errored? && rs[i].info.misalignedFirst && 3 in rs[i].info.be ==>
         i + 1 < |rs| && IsSecondHalfOf(rs[i], rs[i + 1]))
  }

  lemma PairedAppend(rs: seq<Retired>, r: Retired)
    requires HalvesPaired(rs) && !r.SecondHalf? && (r.Errored? ==> r.info.error && !NeedsSecondHalf(r.info))
    ensures HalvesPaired(rs + [r])
  {
    hide IsSecondHalfOf;
    var all := rs + [r];
    assert forall i :: 0 <= i < |rs| ==> all[i] == rs[i];
  }

  lemma PairedAppendBoth(rs: seq<Retired>, first: Retired, second: Retired)
    requires HalvesPaired(rs) && IsSecondHalfOf(first, second)
    ensures HalvesPaired(rs + [first, second])
  {
    var all := rs + [first, second];
    assert forall i :: 0 <= i < |rs| ==> all[i] == rs[i];
    assert all[|rs|] == first && all[|rs| + 1] == second;
  }

  ghost function Infos(ps: seq<Pending>): seq<Access> {
    seq(|ps|, i requires 0 <= i < |ps| => ps[i].info)
  }

  ghost function RetiredInfos(rs: seq<Retired>): seq<Access> {
    seq(|rs|, i requires 0 <= i < |rs| => rs[i].info)
  }

  // ----- when a check passes -----

  ghost predicate LanesAccepted(p: Pending, x: Iss) {
    if p.info.Misaligned() then x.Lanes() * p.seen == {} && x.Lanes() <= p.info.be
    else x.Lanes() == p.info.be
  }

  /** An error on a first half that reaches the top byte must be followed by its second half. */
  predicate NeedsSecondHalf(info: Access) {
    info.error && info.misalignedFirst && 3 in info.be
  }

  ghost predicate SecondHalfFollows(ps: seq<Pending>)
    requires ps != []
  {
    |ps| >= 2 && ps[1].info.misalignedSecond && ps[1].info.addr == (ps[0].info.addr + 4) % 0x1_0000_0000
  }

  ghost predicate Accepted(ps: seq<Pending>, x: Iss) {
    && ps != []
    && Agrees(ps[0].info, x)
    && LanesAccepted(ps[0], x)
    && (NeedsSecondHalf(ps[0].info) ==> SecondHalfFollows(ps))
  }

  /** Aligned accesses are matched in one go, misaligned ones lane by lane, and an error ends either. */
  ghost predicate Finished(p: Pending, x: Iss) {
    p.info.error || !p.info.Misaligned() || p.seen + x.Lanes() == p.info.be
  }

  /** The queue after an accepted access. */
  ghost function After(ps: seq<Pending>, x: Iss): seq<Pending>
    requires Accepted(ps, x)
  {
    var p := ps[0];
    if NeedsSecondHalf(p.info) then ps[2..]
    else if Finished(p, x) then ps[1..]
    else [p.(seen := p.seen + x.Lanes())] + ps[1..]
  }

  class SpikeCosim {
    var pending: seq<Pending>
    var errors: nat

    // Everything ever notified, what became of it, and what the front has been matched with.
    ghost var notified: seq<Access>
    ghost var retired: seq<Retired>
    ghost var matched: seq<Iss>
    ghost var failed: bool

    ghost predicate Valid()
      reads this
    {
      !failed ==>
        && notified == RetiredInfos(retired) + Infos(pending)
        && (forall i :: 0 <= i < |retired| ==> RetiredOk(retired[i]))
        && HalvesPaired(retired)
        && FrontOnly(pending, matched)
    }

    constructor ()
      ensures Valid() && !failed && pending == [] && notified == [] && retired == [] && errors == 0
    {
      pending, errors := [], 0;
      notified, retired, matched, failed := [], [], [], false;
    }

    method NotifyDsideAccess(info: Access)
      requires Valid() && info.addr % 4 == 0
      modifies this
      ensures Valid() && pending == old(pending) + [Pending(info, {})]
      ensures notified == old(notified) + [info] && retired == old(retired) && failed == old(failed) &&
              errors == old(errors)
    {
      pending := pending + [Pending(info, {})];
      notified := notified + [info];
      assert Infos(pending) == Infos(old(pending)) + [info];
    }

    /** Checks one access of the simulator against the front of the queue. */
    method CheckMemAccess(x: Iss) returns (r: Result)
      requires Valid() && IssOk(x)
      modifies this
      ensures Valid() && notified == old(notified)
      ensures (r == CheckFailed) <==> !Accepted(old(pending), x)
      ensures r == CheckFailed ==> failed && errors == old(errors) + 1
      ensures r == CheckFailed ==> retired == old(retired) && Infos(pending) == Infos(old(pending))
      ensures r != CheckFailed ==> failed == old(failed) && errors == old(errors)
      ensures r != CheckFailed ==> pending == After(old(pending), x) && (r == BusError <==> old(pending)[0].info.error)
      ensures r != CheckFailed && !failed ==> old(retired) <= retired
    {
      hide CoverOnce, RetiredOk, FrontOnly, RetiredInfos, Range, Agrees, LanesAccepted, HalvesPaired;
      var ok, done := MatchFront(x);
      if !ok {
        return CheckFailed;
      }
      var info := pending[0].info;
      if info.error && info.Misaligned() {
        if info.misalignedFirst && 3 in info.be {
          if |pending| < 2 || !pending[1].info.misalignedSecond {
            Fail();
            return CheckFailed;
          }
          if pending[1].info.addr != (info.addr + 4) % 0x1_0000_0000 {
            Fail();
            return CheckFailed;
          }
          pending := pending[1..];
        }
        done := true;
      }
      if done {
        pending := pending[1..];
      }
      Record(old(pending), x);
      r := if info.error then BusError else Ok;
    }

    /** The checks of the front by itself; they end by noting which lanes have been seen. */
    method MatchFront(x: Iss) returns (ok: bool, done: bool)
      requires IssOk(x)
      modifies this`pending, this`errors, this`failed
      ensures ok <==> old(pending) != [] && Agrees(old(pending)[0].info, x) && LanesAccepted(old(pending)[0], x)
      ensures ok ==> failed == old(failed) && errors == old(errors)
      ensures ok && !old(pending)[0].info.Misaligned() ==> pending == old(pending) && done
      ensures ok && old(pending)[0].info.Misaligned() ==>
                var p := old(pending)[0];
                && pending == old(pending)[0 := p.(seen := p.seen + x.Lanes())]
                && done == (p.seen + x.Lanes() == p.info.be)
      ensures !ok ==> failed && errors == old(errors) + 1
      ensures Infos(pending) == Infos(old(pending))
    {
      hide Range;
      ok, done := false, false;
      if |pending| == 0 {
        Fail();
        return;
      }
      var info := pending[0].info;
      if x.addr - x.addr % 4 != info.addr {
        Fail();
        return;
      }
      if x.store != info.store {
        Fail();
        return;
      }
      var expected := x.Lanes();
      if info.Misaligned() {
        if expected * pending[0].seen != {} {
          Fail();
          return;
        }
        if !(expected <= info.be) {
          Fail();
          return;
        }
        pending := pending[0 := pending[0].(seen := pending[0].seen + expected)];
        if pending[0].seen == info.be {
          done := true;
        }
      } else {
        if expected != info.be {
          Fail();
          return;
        }
        done := true;
      }
      assert Infos(pending) == Infos(old(pending));
      if x.store || !info.error {
        var same := SameData(info, x);
        if !same {
          Fail();
          return;
        }
      }
      ok := true;
    }

    method Fail()
      modifies this`errors, this`failed
      ensures errors == old(errors) + 1 && failed
    {
      errors := errors + 1;
      failed := true;
    }

    /** Compares the simulator's bytes, moved into their lanes, with the same lanes of the design's data. */
    method SameData(info: Access, x: Iss) returns (same: bool)
      requires IssOk(x)
      ensures same <==> forall i :: x.Offset() <= i < x.Offset() + |x.bytes| && i < 4 ==> info.data[i] == LaneByte(x, i)
    {
      var expected: seq<Byte> := [0, 0, 0, 0];
      var mask: seq<Byte> := [0, 0, 0, 0];
      for i := 0 to |x.bytes|
        invariant |expected| == 4 && |mask| == 4
        invariant forall j :: 0 <= j < 4 ==> mask[j] == if x.Offset() <= j < x.Offset() + i then info.data[j] else 0
        invariant forall j :: 0 <= j < 4 ==>
                    expected[j] == if x.Offset() <= j < x.Offset() + i then x.bytes[j - x.Offset()] else 0
      {
        expected := expected[x.Offset() + i := x.bytes[i]];
        mask := mask[x.Offset() + i := info.data[x.Offset() + i]];
      }
      same := expected == mask;
      if same {
        forall i | x.Offset() <= i < x.Offset() + |x.bytes| && i < 4
          ensures info.data[i] == LaneByte(x, i)
        {
          assert mask[i] == expected[i];
        }
      } else {
        assert exists i :: 0 <= i < 4 && expected[i] != mask[i];
      }
    }

    /** So while no check has failed, every access that left without error agreed with the simulator. */
    lemma RetiredAgree(r: nat, i: nat) returns (k: nat)
      requires Valid() && !failed && r < |retired| && retired[r].Matched? && i in retired[r].info.be
      ensures k < |retired[r].by_| && SameLane(retired[r].info, retired[r].by_[k], i)
      ensures forall j :: 0 <= j < |retired[r].by_| && InLane(retired[r].by_[j], i) ==> j == k
    {
      hide RetiredOk, FrontOnly, HalvesPaired;
      k := MatchedData(retired[r].info, retired[r].by_, i);
    }

    /** Books what an accepted access did to the front of `before`. */
    ghost method Record(before: seq<Pending>, x: Iss)
      requires IssOk(x) && Accepted(before, x) && pending == After(before, x)
      requires !failed ==>
        && notified == RetiredInfos(retired) + Infos(before)
        && (forall i :: 0 <= i < |retired| ==> RetiredOk(retired[i]))
        && HalvesPaired(retired)
        && FrontOnly(before, matched)
      modifies this`retired, this`matched
      ensures Valid() && (!failed ==> old(retired) <= retired)
    {
      hide CoverOnce, Agrees, RetiredOk, FrontOnly, LanesAccepted, Range, HalvesPaired;
      if failed {
        return;
      }
      var p, xs := before[0], matched + [x];
      FrontCovered(before, matched, x);
      if NeedsSecondHalf(p.info) {
        ErrorRetires(p.info, xs, p.seen + x.Lanes());
        HalfRetires(before[1].info);
        NextFront(before, matched, 2);
        PairedAppendBoth(retired, Errored(p.info, xs), SecondHalf(before[1].info));
        retired := retired + [Errored(p.info, xs), SecondHalf(before[1].info)];
        assert Infos(before) == [p.info, before[1].info] + Infos(before[2..]);
        assert RetiredInfos(retired) == RetiredInfos(old(retired)) + [p.info, before[1].info];
        matched := [];
      } else if Finished(p, x) {
        NextFront(before, matched, 1);
        if p.info.error {
          ErrorRetires(p.info, xs, p.seen + x.Lanes());
          PairedAppend(retired, Errored(p.info, xs));
          retired := retired + [Errored(p.info, xs)];
        } else {
          MatchRetires(p.info, xs);
          PairedAppend(retired, Matched(p.info, xs));
          retired := retired + [Matched(p.info, xs)];
        }
        assert Infos(before) == [p.info] + Infos(before[1..]);
        assert RetiredInfos(retired) == RetiredInfos(old(retired)) + [p.info];
        matched := [];
      } else {
        SameFront(before, matched, x);
        matched := xs;
        assert Infos(pending) == Infos(before);
      }
    }

    /** After a trap: the second half of an access whose first half failed may have no counterpart. */
    method MisalignedPmpFixup(pmpOk: bool)
      requires Valid()
      modifies this
      ensures Valid() && notified == old(notified)
      ensures var applies :=
                old(pending) != [] && old(pending)[0].info.misalignedSecond && old(pending)[0].info.firstSawError;
        && (applies && pmpOk ==> pending == old(pending)[1..] && errors == old(errors) && failed == old(failed))
        && (applies && !pmpOk ==> pending == old(pending) && errors == old(errors) + 1 && failed)
        && (!applies ==> pending == old(pending) && retired == old(retired))
        && (!applies ==> errors == old(errors) && failed == old(failed))
    {
      if |pending| != 0 {
        var info := pending[0].info;
        if info.misalignedSecond && info.firstSawError {
          if !pmpOk {
            Fail();
          } else {
            pending := pending[1..];
            if !failed {
              PairedAppend(retired, Dropped(info));
              retired := retired + [Dropped(info)];
              matched := [];
              assert Infos(old(pending)) == [info] + Infos(pending);
              assert RetiredInfos(retired) == RetiredInfos(old(retired)) + [info];
            }
          }
        }
      }
    }
  }

  // ----- what retirement means for the data -----

  /** The simulator's access has the same byte in lane `i` of the same word, in the same direction. */
  ghost predicate SameLane(info: Access, x: Iss, i: nat) {
    && x.addr % 4 <= i < x.addr % 4 + |x.bytes| && i < 4
    && info.addr == x.addr - x.addr % 4 && info.store == x.store
    && info.data[i] == x.bytes[i - x.addr % 4]
  }

  ghost predicate InLane(x: Iss, i: nat) {
    x.addr % 4 <= i < x.addr % 4 + |x.bytes|
  }

  /** A load or store that matched has, in every enabled lane, the byte of exactly one simulator access. */
  lemma MatchedData(info: Access, xs: seq<Iss>, i: nat) returns (k: nat)
    requires RetiredOk(Matched(info, xs)) && i in info.be
    ensures k < |xs| && SameLane(info, xs[k], i)
    ensures forall j :: 0 <= j < |xs| && InLane(xs[j], i) ==> j == k
  {
    hide CoverOnce;
    k := LaneCoveredOnce(info, xs, info.be, i);
    CoverMember(info, xs, info.be, k);
    forall j | 0 <= j < |xs| && InLane(xs[j], i)
      ensures j == k
    {
      assert i in xs[j].Lanes();
    }
  }

  lemma {:induction false} CoverMember(info: Access, xs: seq<Iss>, lanes: set<nat>, k: nat)
    requires CoverOnce(info, xs, lanes) && k < |xs|
    ensures IssOk(xs[k]) && Agrees(info, xs[k]) && xs[k].Lanes() <= lanes
    decreases |xs|
  {
    hide Agrees;
    var last := |xs| - 1;
    if k < last {
      CoverMember(info, xs[..last], lanes - xs[last].Lanes(), k);
    }
  }

  /** A store that ended in an error had the right bytes in every lane that was seen. */
  lemma ErroredStoreData(info: Access, xs: seq<Iss>, k: nat, i: nat)
    requires RetiredOk(Errored(info, xs)) && info.store && k < |xs| && InLane(xs[k], i)
    ensures i in info.be && SameLane(info, xs[k], i)
  {
    hide CoverOnce;
    var lanes :| CoverOnce(info, xs, lanes) && lanes <= info.be;
    CoverMember(info, xs, lanes, k);
    assert i in xs[k].Lanes();
  }

  /** With a wrong byte, neither a store nor a load without error is accepted. */
  lemma WrongDataFails(ps: seq<Pending>, x: Iss, i: nat)
    requires ps != [] && (ps[0].info.store || !ps[0].info.error) && InLane(x, i) && i < 4
    requires ps[0].info.data[i] != x.bytes[i - x.addr % 4]
    ensures !Accepted(ps, x)
  {
    assert LaneByte(x, i) == x.bytes[i - x.addr % 4];
  }

  /** The data of a load that ended in an error plays no part. */
  lemma ErroringLoadData(ps: seq<Pending>, x: Iss, data: Data)
    requires ps != [] && ps[0].info.error && !ps[0].info.store
    ensures Accepted(ps, x) <==> Accepted(ps[0 := ps[0].(info := ps[0].info.(data := data))], x)
  {
  }

  /** When a check passes, said of the lanes and bytes themselves. */
  lemma AcceptedMeans(ps: seq<Pending>, x: Iss)
    requires IssOk(x)
    ensures Accepted(ps, x) <==>
            && ps != []
            && var info, seen := ps[0].info, ps[0].seen;
            && info.addr == x.addr - x.addr % 4 && info.store == x.store
            && (forall i: nat :: InLane(x, i) ==> i in info.be)
            && (if info.misalignedFirst || info.misalignedSecond then forall i: nat :: InLane(x, i) ==> i !in seen
                else forall i: nat :: i in info.be ==> InLane(x, i))
            && (info.store || !info.error ==> forall i: nat :: InLane(x, i) ==> info.data[i] == x.bytes[i - x.addr % 4])
            && (info.error && info.misalignedFirst && 3 in info.be ==>
                  |ps| > 1 && ps[1].info.misalignedSecond && ps[1].info.addr == (info.addr + 4) % 0x1_0000_0000)
  {
    if ps != [] {
      assert forall i: nat :: InLane(x, i) <==> i in x.Lanes();
      assert forall i: nat :: InLane(x, i) ==> LaneByte(x, i) == x.bytes[i - x.addr % 4];
      LanesMean(ps[0], x);
    }
  }

  lemma LanesMean(p: Pending, x: Iss)
    ensures LanesAccepted(p, x) <==>
            && (forall i: nat :: InLane(x, i) ==> i in p.info.be)
            && (if p.info.misalignedFirst || p.info.misalignedSecond then forall i: nat :: InLane(x, i) ==> i !in p.seen
                else forall i: nat :: i in p.info.be ==> InLane(x, i))
  {
    assert forall i: nat :: InLane(x, i) <==> i in x.Lanes();
    assert x.Lanes() * p.seen == {} <==> forall i: nat :: i in x.Lanes() ==> i !in p.seen;
    assert x.Lanes() == p.info.be <==> x.Lanes() <= p.info.be && p.info.be <= x.Lanes();
  }

  /** What an accepted access leaves in the queue, said the same way. */
  lemma AfterMeans(ps: seq<Pending>, x: Iss)
    requires IssOk(x) && Accepted(ps, x)
    ensures var info, seen, qs := ps[0].info, ps[0].seen, After(ps, x);
            if info.error && info.misalignedFirst && 3 in info.be then qs == ps[2..]
            else if || info.error || (!info.misalignedFirst && !info.misalignedSecond)
                    || forall i: nat :: i in info.be <==> i in seen || InLane(x, i) then qs == ps[1..]
            else && |qs| == |ps| && qs[1..] == ps[1..] && qs[0].info == info
                 && forall i: nat :: i in qs[0].seen <==> i in seen || InLane(x, i)
  {
    assert forall i: nat :: InLane(x, i) <==> i in x.Lanes();
    var all := ps[0].seen + x.Lanes();
    assert forall i: nat :: i in all <==> i in ps[0].seen || InLane(x, i);
    assert all == ps[0].info.be <==> forall i: nat :: i in ps[0].info.be <==> i in all;
  }

  // ----- how the front moves on -----

  /** What has been matched with the front, with the new access, covers what has now been seen. */
  lemma FrontCovered(before: seq<Pending>, matched: seq<Iss>, x: Iss)
    requires FrontOnly(before, matched) && Accepted(before, x) && IssOk(x)
    ensures CoverOnce(before[0].info, matched + [x], before[0].seen + x.Lanes())
    ensures before[0].seen + x.Lanes() <= before[0].info.be
    ensures !before[0].info.Misaligned() ==> before[0].seen + x.Lanes() == before[0].info.be
  {
    hide CoverOnce;
    CoverExtends(before[0].info, matched, x, before[0].seen);
  }

  lemma ErrorRetires(info: Access, xs: seq<Iss>, lanes: set<nat>)
    requires info.error && xs != [] && CoverOnce(info, xs, lanes) && lanes <= info.be
    ensures RetiredOk(Errored(info, xs))
  {
  }

  lemma MatchRetires(info: Access, xs: seq<Iss>)
    requires !info.error && CoverOnce(info, xs, info.be)
    ensures RetiredOk(Matched(info, xs))
  {
  }

  lemma HalfRetires(info: Access)
    requires info.misalignedSecond
    ensures RetiredOk(SecondHalf(info))
  {
  }

  lemma NextFront(before: seq<Pending>, matched: seq<Iss>, k: nat)
    requires FrontOnly(before, matched) && 0 < k <= |before|
    ensures FrontOnly(before[k..], [])
  {
  }

  lemma SameFront(before: seq<Pending>, matched: seq<Iss>, x: Iss)
    requires FrontOnly(before, matched) && Accepted(before, x) && IssOk(x) && before[0].info.Misaligned()
    ensures FrontOnly([before[0].(seen := before[0].seen + x.Lanes())] + before[1..], matched + [x])
  {
    hide CoverOnce;
    FrontCovered(before, matched, x);
  }

  /** A disjoint piece extends a cover. */
  lemma CoverExtends(info: Access, xs: seq<Iss>, x: Iss, lanes: set<nat>)
    requires CoverOnce(info, xs, lanes) && IssOk(x) && Agrees(info, x) && x.Lanes() * lanes == {}
    ensures CoverOnce(info, xs + [x], lanes + x.Lanes())
  {
    assert (xs + [x])[..|xs|] == xs;
    assert lanes + x.Lanes() - x.Lanes() == lanes;
  }

  /** Only the front of the queue can be partly covered, and `matched` is what covers it. */
  ghost predicate FrontOnly(ps: seq<Pending>, matched: seq<Iss>) {
    && (forall i :: 1 <= i < |ps| ==> ps[i].seen == {})
    && (if ps == [] then matched == [] else CoverOnce(ps[0].info, matched, ps[0].seen) && ps[0].seen <= ps[0].info.be)
    && (ps != [] && !ps[0].info.Misaligned() ==> ps[0].seen == {})
  }
}
