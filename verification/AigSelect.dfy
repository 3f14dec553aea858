/**
 The `select` command of aig-manip: specialising a graph to one proof step, and why proving
 the specialised graphs proves the original.
 */
module AigSelect {
  import opened AigCore
  import opened Wrappers

  /** An assertion's name, split into its proof step and the rest. */
  datatype Prop = Prop(step: nat, name: string)

  const COVER := "_Cover"

  predicate IsCover(p: Prop) {
    |p.name| >= |COVER| && p.name[|p.name| - |COVER|..] == COVER
  }

  /** One invocation: the step, the properties to keep (all when empty), and --no-assumes. */
  datatype Job = Job(step: nat, props: seq<string>, noAssumes: bool)

  datatype Fate = Keep | KeepNegated | Assume | Delete

  function FateOf(p: Prop, job: Job): Fate {
    if p.step == job.step && (job.props == [] || p.name in job.props) then
      if IsCover(p) then KeepNegated else Keep
    else if job.noAssumes || IsCover(p) || p.step >= job.step then Delete
    else Assume
  }

  /** The bads that stay among the first `k`, in order. */
  function Kept(names: seq<Prop>, bads: seq<Lit>, job: Job, k: nat): seq<Lit>
    requires k <= |names| == |bads|
  {
    if k == 0 then []
    else match FateOf(names[k - 1], job)
      case Keep => Kept(names, bads, job, k - 1) + [bads[k - 1]]
      case KeepNegated => Kept(names, bads, job, k - 1) + [Neg(bads[k - 1])]
      case _ => Kept(names, bads, job, k - 1)
  }

  /** The names of the bads that stay, in the same order. */
  function KeptNames(names: seq<Prop>, job: Job, k: nat): seq<Prop>
    requires k <= |names|
  {
    if k == 0 then []
    else if FateOf(names[k - 1], job) in {Keep, KeepNegated} then KeptNames(names, job, k - 1) + [names[k - 1]]
    else KeptNames(names, job, k - 1)
  }

  /** The constraints that assertions of earlier steps turn into. */
  function Assumed(names: seq<Prop>, bads: seq<Lit>, job: Job, k: nat): seq<Lit>
    requires k <= |names| == |bads|
  {
    if k == 0 then []
    else if FateOf(names[k - 1], job) == Assume then Assumed(names, bads, job, k - 1) + [Neg(bads[k - 1])]
    else Assumed(names, bads, job, k - 1)
  }

  predicate Selectable(a: Aig, names: seq<Prop>) {
    a.justice == [] && a.fairness == [] && |a.bads| == |names|
  }

  function Selected(a: Aig, names: seq<Prop>, job: Job): Aig
    requires |a.bads| == |names|
  {
    a.(bads := Kept(names, a.bads, job, |names|), constraints := a.constraints + Assumed(names, a.bads, job, |names|))
  }

  /** What one turn of the loop does to a bad `x`: what is left in its place, and the new constraints. */
  function Remains(f: Fate, x: Lit): seq<Lit> {
    match f
    case Keep => [x]
    case KeepNegated => [Neg(x)]
    case _ => []
  }

  function NewConstraints(f: Fate, x: Lit): seq<Lit> {
    if f == Assume then [Neg(x)] else []
  }

  /** One turn of the loop, at index `b` of what remains of the bads. */
  method Turn(p: Prop, job: Job, bads: seq<Lit>, constraints: seq<Lit>, b: nat)
    returns (bads': seq<Lit>, constraints': seq<Lit>, b': nat)
    requires b < |bads|
    ensures bads' == bads[..b] + Remains(FateOf(p, job), bads[b]) + bads[b + 1..]
    ensures constraints' == constraints + NewConstraints(FateOf(p, job), bads[b])
    ensures b' == b + |Remains(FateOf(p, job), bads[b])|
  {
    bads', constraints', b' := bads, constraints, b;
    if p.step == job.step && (job.props == [] || p.name in job.props) {
      if IsCover(p) {
        bads' := bads[b := Neg(bads[b])];
      }
      b' := b + 1;
    } else if job.noAssumes || IsCover(p) || p.step >= job.step {
      bads' := bads[..b] + bads[b + 1..];
    } else {
      constraints' := constraints + [Neg(bads[b])];
      bads' := bads[..b] + bads[b + 1..];
    }
  }

  lemma KeptNext(names: seq<Prop>, bads: seq<Lit>, job: Job, k: nat)
    requires k < |names| == |bads|
    ensures Kept(names, bads, job, k + 1) == Kept(names, bads, job, k) + Remains(FateOf(names[k], job), bads[k])
    ensures Assumed(names, bads, job, k + 1) ==
            Assumed(names, bads, job, k) + NewConstraints(FateOf(names[k], job), bads[k])
  {
  }

  /** The removal loop: one index into the names, one into what remains of the bads. */
  method Select(a: Aig, names: seq<Prop>, job: Job) returns (r: Option<Aig>)
    ensures r == if Selectable(a, names) then Some(Selected(a, names, job)) else None
  {
    hide FateOf, Remains, NewConstraints, Kept, Assumed;
    if a.justice != [] || a.fairness != [] || |a.bads| != |names| {
      return None;
    }
    var bads, constraints := a.bads, a.constraints;
    var bn, b := 0, 0;
    NothingKept(names, a.bads, job);
    while b < |bads|
      invariant 0 <= bn <= |names| && b == |Kept(names, a.bads, job, bn)|
      invariant bads == Kept(names, a.bads, job, bn) + a.bads[bn..]
      invariant constraints == a.constraints + Assumed(names, a.bads, job, bn)
      decreases |names| - bn
    {
      ghost var kept, rest := Kept(names, a.bads, job, bn), a.bads[bn + 1..];
      assert bads[..b] == kept && bads[b] == a.bads[bn] && bads[b + 1..] == rest;
      bads, constraints, b := Turn(names[bn], job, bads, constraints, b);
      KeptNext(names, a.bads, job, bn);
      bn := bn + 1;
    }
    assert a.bads[bn..] == [] && bads == Kept(names, a.bads, job, bn);
    return Some(a.(bads := bads, constraints := constraints));
  }

  lemma NothingKept(names: seq<Prop>, bads: seq<Lit>, job: Job)
    requires |names| == |bads|
    ensures Kept(names, bads, job, 0) == [] && Assumed(names, bads, job, 0) == []
  {
  }

  // ----- the loop keeps names and bads together -----

  /** A kept bad stands beside its own name. */
  lemma {:induction false} KeptAligned(names: seq<Prop>, bads: seq<Lit>, job: Job, k: nat, i: nat) returns (j: nat)
    requires i < k <= |names| == |bads| && FateOf(names[i], job) in {Keep, KeepNegated}
    ensures |KeptNames(names, job, k)| == |Kept(names, bads, job, k)| && j < |Kept(names, bads, job, k)|
    ensures KeptNames(names, job, k)[j] == names[i]
    ensures Kept(names, bads, job, k)[j] == if FateOf(names[i], job) == Keep then bads[i] else Neg(bads[i])
    decreases k
  {
    KeptSameLength(names, bads, job, k - 1);
    if i == k - 1 {
      j := |Kept(names, bads, job, k - 1)|;
    } else {
      j := KeptAligned(names, bads, job, k - 1, i);
    }
  }

  lemma {:induction false} KeptSameLength(names: seq<Prop>, bads: seq<Lit>, job: Job, k: nat)
    requires k <= |names| == |bads|
    ensures |KeptNames(names, job, k)| == |Kept(names, bads, job, k)|
  {
    if k > 0 {
      KeptSameLength(names, bads, job, k - 1);
    }
  }

  function Deleted(names: seq<Prop>, job: Job, k: nat): seq<Prop>
    requires k <= |names|
  {
    if k == 0 then []
    else if FateOf(names[k - 1], job) == Delete then Deleted(names, job, k - 1) + [names[k - 1]]
    else Deleted(names, job, k - 1)
  }

  /** Together the three lists are as long as the list of assertions. */
  lemma {:induction false} FatesAddUp(names: seq<Prop>, bads: seq<Lit>, job: Job, k: nat)
    requires k <= |names| == |bads|
    ensures |Kept(names, bads, job, k)| + |Assumed(names, bads, job, k)| + |Deleted(names, job, k)| == k
  {
    if k > 0 {
      FatesAddUp(names, bads, job, k - 1);
    }
  }

  /**
   Assertion `i` has a place of its own in the list of its fate: the number of earlier assertions with
   that fate, so later ones come after it. With the lists adding up, every assertion is classified
   exactly once.
   */
  lemma {:induction false} FatesPartition(names: seq<Prop>, bads: seq<Lit>, job: Job, k: nat, i: nat)
    requires i < k <= |names| == |bads|
    ensures match FateOf(names[i], job)
            case Assume =>
              var place := |Assumed(names, bads, job, i)|;
              place < |Assumed(names, bads, job, k)| && Assumed(names, bads, job, k)[place] == Neg(bads[i])
            case Delete =>
              var place := |Deleted(names, job, i)|;
              place < |Deleted(names, job, k)| && Deleted(names, job, k)[place] == names[i]
            case fate =>
              var place := |Kept(names, bads, job, i)|;
              && place < |Kept(names, bads, job, k)| == |KeptNames(names, job, k)| &&
                 KeptNames(names, job, k)[place] == names[i]
              && Kept(names, bads, job, k)[place] == if fate == Keep then bads[i] else Neg(bads[i])
    ensures |Kept(names, bads, job, k)| + |Assumed(names, bads, job, k)| + |Deleted(names, job, k)| == k
    decreases k
  {
    FatesAddUp(names, bads, job, k);
    KeptSameLength(names, bads, job, k);
    KeptSameLength(names, bads, job, k - 1);
    if i < k - 1 {
      FatesPartition(names, bads, job, k - 1, i);
    }
  }

  /** The job asks for this property: its step matches, and the list is empty or names it. */
  ghost predicate Asked(p: Prop, job: Job) {
    p.step == job.step && (|job.props| == 0 || exists i :: 0 <= i < |job.props| && job.props[i] == p.name)
  }

  ghost predicate NamedCover(p: Prop) {
    exists prefix :: p.name == prefix + "_Cover"
  }

  lemma CoverNames(p: Prop)
    ensures IsCover(p) <==> NamedCover(p)
  {
    if IsCover(p) {
      assert p.name == p.name[..|p.name| - |COVER|] + "_Cover";
    }
    if prefix :| p.name == prefix + "_Cover" {
      assert p.name[|p.name| - |COVER|..] == "_Cover";
    }
  }

  /**
   What becomes of each assertion, from its name, its step and the job: what the job asks for stays a
   bad, negated for a cover; other non-covers of earlier steps become constraints, unless the job
   makes no assumptions; all others are dropped.
   */
  lemma SelectedMeans(a: Aig, names: seq<Prop>, job: Job, i: nat)
    requires |a.bads| == |names| && i < |names|
    ensures var p, s := names[i], Selected(a, names, job);
            && (Asked(p, job) ==> (if NamedCover(p) then Neg(a.bads[i]) else a.bads[i]) in s.bads)
            && (!Asked(p, job) && !NamedCover(p) && p.step < job.step && !job.noAssumes ==>
                Neg(a.bads[i]) in s.constraints)
            && s.constraints[..|a.constraints|] == a.constraints
  {
    FatesPartition(names, a.bads, job, |names|, i);
    CoverNames(names[i]);
  }

  /** And nothing else is among the bads or the new constraints. */
  lemma SelectedFrom(a: Aig, names: seq<Prop>, job: Job, j: nat) returns (i: nat)
    requires |a.bads| == |names|
    requires j < |Selected(a, names, job).bads|
    ensures i < |names| && Asked(names[i], job)
    ensures Selected(a, names, job).bads[j] == if NamedCover(names[i]) then Neg(a.bads[i]) else a.bads[i]
  {
    i := KeptFrom(names, a.bads, job, |names|, j);
    CoverNames(names[i]);
  }

  lemma {:induction false} KeptFrom(names: seq<Prop>, bads: seq<Lit>, job: Job, k: nat, j: nat) returns (i: nat)
    requires k <= |names| == |bads| && j < |Kept(names, bads, job, k)|
    ensures i < k && FateOf(names[i], job) in {Keep, KeepNegated}
    ensures Kept(names, bads, job, k)[j] == if FateOf(names[i], job) == Keep then bads[i] else Neg(bads[i])
    decreases k
  {
    if FateOf(names[k - 1], job) in {Keep, KeepNegated} && j == |Kept(names, bads, job, k)| - 1 {
      i := k - 1;
    } else {
      i := KeptFrom(names, bads, job, k - 1, j);
    }
  }

  /** A new constraint says that a non-cover assertion of an earlier step holds. */
  lemma {:induction false} AssumedFrom(names: seq<Prop>, bads: seq<Lit>, job: Job, k: nat, j: nat) returns (i: nat)
    requires k <= |names| == |bads| && j < |Assumed(names, bads, job, k)|
    ensures i < k && Assumed(names, bads, job, k)[j] == Neg(bads[i])
    ensures !IsCover(names[i]) && names[i].step < job.step && !job.noAssumes && !Asked(names[i], job)
    decreases k
  {
    if FateOf(names[k - 1], job) == Assume && j == |Assumed(names, bads, job, k)| - 1 {
      i := k - 1;
    } else {
      i := AssumedFrom(names, bads, job, k - 1, j);
    }
  }

  // ----- proving step by step -----

  /** No assertion that the job keeps can be violated in the specialised graph. */
  ghost predicate JobPasses(a: Aig, names: seq<Prop>, job: Job)
    requires |a.bads| == |names|
  {
    var s, kept := Selected(a, names, job), KeptNames(names, job, |names|);
    forall j :: 0 <= j < |s.bads| && j < |kept| && !IsCover(kept[j]) ==> !BadReachable(s, j)
  }

  /** Between them the jobs keep every assertion that is not a cover. */
  ghost predicate JobsCover(names: seq<Prop>, jobs: set<Job>) {
    forall i :: 0 <= i < |names| && !IsCover(names[i]) ==> exists job :: job in jobs && FateOf(names[i], job) == Keep
  }

  /** A run that meets the constraints and the assertions of earlier steps is a run of the specialised graph. */
  lemma SameRunUnderJob(a: Aig, names: seq<Prop>, job: Job, r: Run, t: nat)
    requires |a.bads| == |names| && IsRun(a, r) && ConstrainedTo(a, r, t)
    requires forall u: nat, i :: u <= t && 0 <= i < |names| && !IsCover(names[i]) && names[i].step < job.step ==>
               !LitVal(r(u), a.bads[i])
    ensures IsRun(Selected(a, names, job), r) && ConstrainedTo(Selected(a, names, job), r, t)
  {
    var s := Selected(a, names, job);
    forall u: nat
      ensures StepHolds(s, r(u), r(u + 1)) && GatesHold(s.gates, s.Base(), r(u))
    {
      assert StepHolds(a, r(u), r(u + 1)) && GatesHold(a.gates, a.Base(), r(u));
    }
    forall u: nat | u <= t
      ensures AllTrue(s.constraints, r(u))
    {
      assert AllTrue(a.constraints, r(u));
      forall i | 0 <= i < |s.constraints|
        ensures LitVal(r(u), s.constraints[i])
      {
        if i >= |a.constraints| {
          var j := AssumedFrom(names, a.bads, job, |names|, i - |a.constraints|);
        }
      }
    }
  }

  /** In a run that meets the constraints so far, no non-cover assertion is violated, by induction on time and step. */
  lemma {:induction false} NeverViolated(a: Aig, names: seq<Prop>, jobs: set<Job>, r: Run, t: nat, i: nat)
    requires |a.bads| == |names| && i < |names| && !IsCover(names[i])
    requires JobsCover(names, jobs) && forall job :: job in jobs ==> JobPasses(a, names, job)
    requires IsRun(a, r) && ConstrainedTo(a, r, t)
    ensures !LitVal(r(t), a.bads[i])
    decreases t, names[i].step
  {
    hide IsRun, IsCover;
    var job :| job in jobs && FateOf(names[i], job) == Keep;
    forall u: nat, k | u <= t && 0 <= k < |names| && !IsCover(names[k]) && names[k].step < job.step
      ensures !LitVal(r(u), a.bads[k])
    {
      NeverViolated(a, names, jobs, r, u, k);
    }
    SameRunUnderJob(a, names, job, r, t);
    var j := KeptAligned(names, a.bads, job, |names|, i);
    var s := Selected(a, names, job);
    assert JobPasses(a, names, job);
    Unreached(s, j, r, t);
  }

  lemma Unreached(s: Aig, j: nat, r: Run, t: nat)
    requires j < |s.bads| && !BadReachable(s, j) && IsRun(s, r) && ConstrainedTo(s, r, t)
    ensures !LitVal(r(t), s.bads[j])
  {
  }

  /** If all jobs pass and together keep every assertion, the original satisfies every assertion. */
  lemma StepwiseProofIsSound(a: Aig, names: seq<Prop>, jobs: set<Job>, i: nat)
    requires |a.bads| == |names| && i < |names| && !IsCover(names[i])
    requires JobsCover(names, jobs) && forall job :: job in jobs ==> JobPasses(a, names, job)
    ensures !BadReachable(a, i)
  {
    hide IsRun, JobsCover, JobPasses, IsCover;
    forall r: Run, t: nat | IsRun(a, r) && ConstrainedTo(a, r, t)
      ensures !LitVal(r(t), a.bads[i])
    {
      NeverViolated(a, names, jobs, r, t, i);
    }
  }
}
