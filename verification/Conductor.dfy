/**
 The scheduler of the proof jobs: a list of running processes, a list of pending ones, and a
 periodic poll that kills, admits and collects. Clock, memory and exit codes are observations.
 */
module Conductor {
  import opened Wrappers
  import opened Scheduling

  class Process {
    var kill: Kill
    var expectedMemory: real
    var expectedTime: real
    const timeout: Option<real>
    var started: bool
    var maxMemory: real
    var startTime: real
    var future: Future

    /** All that is known of the process. */
    function Now(): Status
      reads this
    {
      Status(kill, expectedMemory, expectedTime, timeout, started, maxMemory, startTime, future)
    }

    constructor (expectedMemory: real, timeout: Option<real>)
      ensures Now() == Status(NoKill, expectedMemory, 0.0, timeout, false, 0.0, 0.0, Waiting)
    {
      this.expectedMemory, expectedTime, this.timeout := expectedMemory, 0.0, timeout;
      kill, started, maxMemory, startTime, future := NoKill, false, 0.0, 0.0, Waiting;
    }

    method Start(now: real)
      modifies this
      ensures Now() == AfterStart(old(Now()), now)
    {
      started, startTime, maxMemory := true, now, 0.0;
    }

    /** True when the runner is done with this start of the process. */
    method Poll(o: Observation) returns (ended: bool)
      requires started && !future.Result?
      modifies this
      ensures ended == Ends(old(Now()), o) && Now() == AfterPoll(old(Now()), o)
      // A restart changes no future, whatever else is the case.
      ensures old(kill) == Restart ==> future == old(future) && kill == NoKill
      ensures ended && old(kill) != Restart && old(future) == Waiting ==>
                future == if o.code.Some? && old(kill) == NoKill then Result(o.code, Finished)
                          else if TimedOut(old(Now()), o) then Result(None, Timeout)
                          else Result(None, Uninterested)
      ensures !ended || old(future) == Cancelled ==> future == old(future)
    {
      maxMemory := Max(o.memory, maxMemory);
      var dt := o.now - startTime;
      if o.code.Some? && kill == NoKill {
        if future != Cancelled {
          future := Result(o.code, Finished);
        }
        return true;
      } else if kill == Restart {
        kill := NoKill;
        expectedMemory := Max(expectedMemory, maxMemory);
        expectedTime := Max(expectedTime, dt);
        return true;
      } else if timeout.Some? && dt > timeout.value {
        if future != Cancelled {
          future := Result(None, Timeout);
        }
        return true;
      } else if kill == GivenUp {
        if future != Cancelled {
          future := Result(None, Uninterested);
        }
        return true;
      }
      return false;
    }
  }

  // ----- sequences of processes -----

  ghost function Reverse<T>(s: seq<T>): seq<T> {
    if s == [] then [] else [s[|s| - 1]] + Reverse(s[..|s| - 1])
  }

  lemma {:induction false} ReverseInsert<T>(s: seq<T>, x: T)
    ensures Reverse([x] + s) == Reverse(s) + [x]
  {
    if s != [] {
      var last := |s| - 1;
      ReverseInsert(s[..last], x);
      assert ([x] + s)[..last + 1] == [x] + s[..last];
    }
  }

  /** What is left of `s` without the members of `gone`, in order. */
  ghost function Rest(s: seq<Process>, gone: set<Process>): seq<Process> {
    if s == [] then []
    else Rest(s[..|s| - 1], gone) + if s[|s| - 1] in gone then [] else [s[|s| - 1]]
  }

  ghost predicate Distinct(s: seq<Process>) {
    forall i, j :: 0 <= i < j < |s| ==> s[i] != s[j]
  }

  lemma {:induction false} RestElements(s: seq<Process>, gone: set<Process>)
    ensures forall p :: p in Rest(s, gone) <==> p in s && p !in gone
    ensures forall i :: 0 <= i < |Rest(s, gone)| ==> Rest(s, gone)[i] in s && Rest(s, gone)[i] !in gone
    ensures Distinct(s) ==> Distinct(Rest(s, gone))
  {
    if s != [] {
      var last := |s| - 1;
      RestElements(s[..last], gone);
      assert s == s[..last] + [s[last]];
    }
  }

  lemma {:induction false} RestConcat(a: seq<Process>, b: seq<Process>, gone: set<Process>)
    ensures Rest(a + b, gone) == Rest(a, gone) + Rest(b, gone)
  {
    if b == [] {
      assert a + b == a;
    } else {
      var last := |b| - 1;
      RestConcat(a, b[..last], gone);
      assert (a + b)[..|a| + last] == a + b[..last];
    }
  }

  lemma {:induction false} RestOfRest(s: seq<Process>, gone: set<Process>, p: Process)
    ensures Rest(s, gone + {p}) == Rest(Rest(s, gone), {p})
  {
    if s != [] {
      var last := |s| - 1;
      var prefix, x := s[..last], s[last];
      RestOfRest(prefix, gone, p);
      if x in gone {
        assert Rest(s, gone) == Rest(prefix, gone) && Rest(s, gone + {p}) == Rest(prefix, gone + {p});
      } else {
        RestConcat(Rest(prefix, gone), [x], {p});
        assert [x][..0] == [] && Rest([x], {p}) == if x == p then [] else [x];
      }
    }
  }

  lemma {:induction false} RestUnaffected(s: seq<Process>, p: Process)
    requires p !in s
    ensures Rest(s, {p}) == s
  {
    if s != [] {
      var last := |s| - 1;
      RestUnaffected(s[..last], p);
      assert s == s[..last] + [s[last]];
    }
  }

  /** Taking one more process away removes just that one. */
  lemma RestWithout(s: seq<Process>, gone: set<Process>, left: seq<Process>, p: Process, right: seq<Process>)
    requires Distinct(s) && Rest(s, gone) == left + [p] + right
    ensures Rest(s, gone + {p}) == left + right
  {
    hide Rest;
    var all := left + [p] + right;
    RestElements(s, gone);
    forall i | 0 <= i < |left|
      ensures left[i] != p
    {
      assert all[i] == left[i] && all[|left|] == p;
    }
    forall i | 0 <= i < |right|
      ensures right[i] != p
    {
      assert all[|left| + 1 + i] == right[i] && all[|left|] == p;
    }
    RestOfRest(s, gone, p);
    RestConcat(left + [p], right, {p});
    RestConcat(left, [p], {p});
    RestUnaffected(left, p);
    RestUnaffected(right, p);
    RestOfOne(p, {p});
  }

  lemma RestOfOne(p: Process, gone: set<Process>)
    ensures Rest([p], gone) == if p in gone then [] else [p]
  {
    assert [p][..0] == [];
  }

  /** Of the polled processes, the ones that have ended were collected, and no others. */
  ghost predicate Polled(procs: seq<Process>, ended: seq<bool>, before: set<Process>, after: set<Process>) {
    && |ended| <= |procs|
    && (forall k :: 0 <= k < |ended| ==> (procs[k] in after <==> ended[k]))
    && (forall p :: p in after ==> p in before || p in procs[..|ended|])
  }

  lemma PolledNext(procs: seq<Process>, ended: seq<bool>, before: set<Process>, after: set<Process>, done: bool)
    requires Polled(procs, ended, before, after) && Distinct(procs) && |ended| < |procs|
    requires procs[|ended|] !in before
    ensures Polled(procs, ended + [done], before, if done then after + {procs[|ended|]} else after)
  {
    var k := |ended|;
    assert procs[..k + 1] == procs[..k] + [procs[k]];
    forall i | 0 <= i < k
      ensures procs[i] != procs[k]
    {
    }
  }

  lemma CollectedAll(procs: seq<Process>, ended: seq<bool>, before: set<Process>, after: set<Process>)
    requires Polled(procs, ended, before, after) && Distinct(procs)
    requires forall k :: 0 <= k < |procs| ==> procs[k] !in before
    ensures forall k :: 0 <= k < |procs| ==> (procs[k] in after <==> k < |ended| && ended[k])
  {
  }

  lemma NonePolled(procs: seq<Process>, before: set<Process>)
    ensures Polled(procs, [], before, before)
  {
  }

  ghost function Snap(procs: seq<Process>): (ss: seq<Status>)
    reads procs
    ensures |ss| == |procs|
  {
    seq(|procs|, i requires 0 <= i < |procs| reads procs => procs[i].Now())
  }

  lemma SnapAt(procs: seq<Process>, k: nat)
    requires k < |procs|
    ensures Snap(procs)[k] == procs[k].Now()
  {
  }

  lemma OnlyOne(procs: seq<Process>, k: nat)
    requires Distinct(procs) && k < |procs|
    ensures forall i :: 0 <= i < |procs| && i != k ==> procs[i] != procs[k]
  {
  }

  // ----- the runner -----

  class ProcessRunner {
    const maxRunning: int
    const noKill: bool
    var pending: seq<Process>
    var running: seq<Process>

    // Everything ever submitted, and what has been collected.
    ghost var submitted: seq<Process>
    ghost var collected: set<Process>

    /** Running processes, then pending ones from the back. */
    ghost function Order(): seq<Process>
      reads this`pending, this`running
    {
      running + Reverse(pending)
    }

    /** They are exactly the uncollected ones in order of submission. */
    ghost predicate InOrder()
      reads this`pending, this`running, this`submitted, this`collected
    {
      Order() == Rest(submitted, collected)
    }

    ghost predicate Valid()
      reads this`pending, this`running, this`submitted, this`collected, submitted, running
    {
      && Distinct(submitted) && collected <= (set p | p in submitted)
      && InOrder()
      && (|running| <= maxRunning || running == [])
      && (forall i :: 0 <= i < |running| ==> running[i].started)
      && (forall i :: 0 <= i < |submitted| ==> submitted[i].kill != Restart)
      && (forall i :: 0 <= i < |submitted| && submitted[i] !in collected ==> !submitted[i].future.Result?)
      && (forall i :: 0 <= i < |submitted| && submitted[i] in collected ==> submitted[i].future != Waiting)
    }

    constructor (maxRunning: int, noKill: bool)
      ensures Valid() && pending == running == submitted == [] && collected == {}
      ensures this.maxRunning == maxRunning && this.noKill == noKill
    {
      this.maxRunning, this.noKill := maxRunning, noKill;
      pending, running, submitted, collected := [], [], [], {};
    }

    method Append(proc: Process)
      requires Valid() && proc !in submitted && !proc.future.Result? && proc.kill != Restart
      modifies this
      ensures Valid() && submitted == old(submitted) + [proc]
      ensures pending == [proc] + old(pending) && running == old(running) && collected == old(collected)
    {
      hide Rest, Reverse;
      AppendOrder(running, pending, submitted, collected, proc);
      pending := [proc] + pending;
      submitted := submitted + [proc];
    }

    /** Anyone may give up on a process, or cancel its future, at any time between polls. */
    method GiveUp(proc: Process, cancel: bool)
      requires Valid() && proc in submitted
      modifies proc`kill, proc`future
      ensures Valid() && proc.kill == GivenUp
      ensures proc.future == if cancel && old(proc.future) == Waiting then Cancelled else old(proc.future)
    {
      proc.kill := GivenUp;
      if cancel && proc.future == Waiting {
        proc.future := Cancelled;
      }
    }

    /** Stops the process that was started last and puts it back in front of the queue. */
    method KillLast(o: Observation) returns (freed: real)
      requires Valid() && |running| > 1
      modifies this`running, this`pending, submitted
      ensures Valid() && collected == old(collected) && submitted == old(submitted) && Order() == old(Order())
      ensures running == old(running)[..|old(running)| - 1]
      ensures freed == Max(old(running[|running| - 1].maxMemory), 3.0)
      ensures var k := |running|; Snap(Order()) == old(Snap(Order()))[k := AfterKill(old(Snap(Order()))[k], o)]
      ensures forall p :: p in collected ==> p.Now() == old(p.Now())
    {
      hide Rest, Distinct, Reverse;
      ghost var order, ss := Order(), Snap(Order());
      var k := |running| - 1;
      OrderDistinct();
      var last := running[k];
      assert last == order[k];
      running := running[..k];
      last.kill := Restart;
      freed := Max(last.maxMemory, 3.0);
      var ended := last.Poll(o);
      pending := pending + [last];
      MoveAcross(running, pending);
      assert old(running) == running + [last];
      assert pending[..|pending| - 1] == old(pending);
      assert Snap(order) == ss[k := AfterKill(ss[k], o)] by {
        OnlyOne(order, k);
      }
    }

    lemma OrderDistinct()
      requires Valid()
      ensures Distinct(Order()) && forall i :: 0 <= i < |Order()| ==>
                Order()[i] in submitted && Order()[i] !in collected
    {
      hide Rest, Reverse;
      RestElements(submitted, collected);
    }

    /** Starts the process at the back of the queue. */
    method StartNext(now: real) returns (used: real)
      requires Valid() && |running| < maxRunning && pending != []
      modifies this`running, this`pending, submitted
      ensures Valid() && collected == old(collected) && submitted == old(submitted) && Order() == old(Order())
      ensures pending == old(pending)[..|old(pending)| - 1] &&
              running == old(running) + [old(pending)[|old(pending)| - 1]]
      ensures used == Max(old(pending[|pending| - 1].expectedMemory), 3.0)
      ensures var k := |old(running)|;
              k < |Order()| && Snap(Order()) == old(Snap(Order()))[k := AfterStart(old(Snap(Order()))[k], now)]
      ensures forall p :: p in collected ==> p.Now() == old(p.Now())
    {
      hide Rest, Distinct, Reverse;
      ghost var order, ss, k := Order(), Snap(Order()), |running|;
      OrderDistinct();
      var last := pending[|pending| - 1];
      MoveAcross(running, pending);
      assert order[k] == last;
      pending := pending[..|pending| - 1];
      last.Start(now);
      used := Max(last.expectedMemory, 3.0);
      running := running + [last];
      assert Snap(order) == ss[k := AfterStart(ss[k], now)] by {
        OnlyOne(order, k);
      }
    }

    /** Polls the process at position `i` and collects it if it has ended. */
    method CollectAt(i: nat, o: Observation) returns (ended: bool)
      requires Valid() && i < |running|
      modifies this`running, this`collected, submitted
      ensures Valid() && submitted == old(submitted) && pending == old(pending)
      ensures running == if ended then old(running)[..i] + old(running)[i + 1..] else old(running)
      ensures collected == if ended then old(collected) + {old(running)[i]} else old(collected)
      ensures ended == Ends(old(running[i].Now()), o) && old(running)[i] !in old(collected)
      ensures old(running)[i].Now() == AfterPoll(old(running[i].Now()), o)
      ensures forall p :: p in submitted && p != old(running)[i] ==> p.Now() == old(p.Now())
    {
      hide Rest;
      var proc := running[i];
      OrderDistinct();
      assert proc == Order()[i];
      ended := proc.Poll(o);
      if ended {
        running := running[..i] + running[i + 1..];
        assert old(running) + Reverse(pending) ==
               old(running)[..i] + [proc] + (old(running)[i + 1..] + Reverse(pending));
        RestWithout(submitted, collected, old(running)[..i], proc, old(running)[i + 1..] + Reverse(pending));
        collected := collected + {proc};
        assert running + Reverse(pending) == old(running)[..i] + (old(running)[i + 1..] + Reverse(pending));
      }
    }

    /** Kills the most recent processes while memory is short, but never the last one running. */
    method RelieveMemory(free0: real, env: Environment) returns (free: real, clock: nat)
      requires Valid()
      modifies this`running, this`pending, submitted
      ensures Valid() && collected == old(collected) && submitted == old(submitted) && Order() == old(Order())
      ensures running <= old(running) && (old(running) != [] ==> running != [])
      // Exactly those are killed that must be.
      ensures forall i :: 0 <= i < |old(running)| ==>
                (i >= |running| <==> MustKill(noKill, free0, old(Snap(Order()))[..|old(running)|], i))
      ensures free == free0 + Freed(old(Snap(Order()))[..|old(running)|][|running|..]) &&
              clock == |old(running)| - |running|
      ensures Snap(Order()) == KillFrom(old(Snap(Order())), |old(running)|, |running|, env, 0)
      ensures forall p :: p in collected ==> p.Now() == old(p.Now())
    {
      hide Valid, KillFrom, AfterKill, Reverse, Snap, MustKill, Freed;
      free, clock := free0, 0;
      ghost var n, order, ss, rs := |running|, Order(), Snap(Order()), Snap(Order())[..|running|];
      KillNone(ss, n, env);
      NothingFreed(rs);
      while !noKill && free < MEMORY_BUFFER && |running| > 1
        invariant Valid() && collected == old(collected) && submitted == old(submitted) && Order() == order
        invariant running <= old(running) && (old(running) != [] ==> running != [])
        invariant clock == n - |running|
        invariant free == free0 + Freed(rs[|running|..])
        invariant forall i :: |running| <= i < n ==> MustKill(noKill, free0, rs, i)
        invariant Snap(order) == KillFrom(ss, n, |running|, env, 0)
        invariant forall p :: p in collected ==> p.Now() == old(p.Now())
        decreases |running|
      {
        ghost var k := |running| - 1;
        FreedStep(rs, k);
        KillOne(ss, n, k, env);
        SnapAt(order, k);
        MustKillHere(noKill, free0, free, rs, k);
        var freed := KillLast(env(clock));
        free, clock := free + freed, clock + 1;
      }
      KilledExactly(noKill, free0, rs, |running|);
    }

    /** Starts pending processes while there are slots and memory for the next one. */
    method Admit(free0: real, env: Environment, clock0: nat) returns (clock: nat)
      requires Valid()
      modifies this`running, this`pending, submitted
      ensures Valid() && collected == old(collected) && submitted == old(submitted) && Order() == old(Order())
      ensures old(running) <= running && clock == clock0 + (|running| - |old(running)|)
      // Each of them had a slot and memory, and the next one has not.
      ensures var ss, n := old(Snap(Order())), |old(running)|;
              && (forall c :: n <= c < |running| ==> CanStart(maxRunning, free0, ss, n, c))
              && (|running| < |Order()| ==> !CanStart(maxRunning, free0, ss, n, |running|))
              && Snap(Order()) == StartFrom(ss, n, |running|, env, clock0)
      ensures forall p :: p in collected ==> p.Now() == old(p.Now())
    {
      hide Valid, StartFrom, AfterStart, CanStart, Claimed, Snap, Reverse;
      var free := free0;
      clock := clock0;
      ghost var n, order, ss := |running|, Order(), Snap(Order());
      StartNone(ss, n, env, clock0);
      NothingClaimed(ss, n);
      NextPending(ss);
      while |running| < maxRunning && |pending| > 0 && free > pending[|pending| - 1].expectedMemory + MEMORY_BUFFER
        invariant Valid() && collected == old(collected) && submitted == old(submitted) && Order() == order
        invariant old(running) <= running && clock == clock0 + (|running| - n)
        invariant free == free0 - Claimed(ss[n..|running|])
        invariant forall c :: n <= c < |running| ==> CanStart(maxRunning, free0, ss, n, c)
        invariant Snap(order) == StartFrom(ss, n, |running|, env, clock0)
        invariant pending != [] <==> |running| < |order|
        invariant pending != [] ==> pending[|pending| - 1].Now() == ss[|running|]
        invariant forall p :: p in collected ==> p.Now() == old(p.Now())
        decreases |pending|
      {
        ghost var k := |running|;
        ClaimedStep(ss, n, k);
        NextStarts(maxRunning, free0, free, ss, n, k);
        StartOne(ss, n, k, env, clock0);
        var used := StartNext(env(clock).now);
        free, clock := free - used, clock + 1;
        NextPending(Snap(order));
      }
      if |running| < |order| {
        NextStarts(maxRunning, free0, free, ss, n, |running|);
      }
    }

    /** The process that would be started next is the first one in order that is not running. */
    lemma NextPending(ss: seq<Status>)
      requires ss == Snap(Order())
      ensures pending != [] <==> |running| < |Order()|
      ensures pending != [] ==>
                pending[|pending| - 1] == Order()[|running|] && pending[|pending| - 1].Now() == ss[|running|]
    {
      if pending != [] {
        MoveAcross(running, pending);
      }
    }

    /** Polls every running process once, in order, and drops exactly those that have ended. */
    method Collect(env: Environment, clock0: nat)
      requires Valid()
      modifies this`running, this`collected, submitted
      ensures Valid() && submitted == old(submitted) && pending == old(pending) && old(collected) <= collected
      ensures forall k :: 0 <= k < |old(Order())| ==>
                (old(Order())[k] in collected <==>
                 k < |old(running)| && Ends(old(Snap(Order()))[k], env(clock0 + k)))
      ensures Snap(old(Order())) == PollFirst(old(Snap(Order())), |old(running)|, env, clock0)
      ensures forall p :: p in old(collected) ==> p.Now() == old(p.Now())
    {
      hide Valid, Polled, AfterPoll, PollFirst, Ends, Snap, Distinct, Reverse;
      ghost var order, n, gone, ss := Order(), |running|, collected, Snap(Order());
      ghost var ended: seq<bool> := [];
      var p, clock := 0, clock0;
      OrderDistinct();
      NonePolled(order, gone);
      PollNone(ss, env, clock0);
      assert running == order[..n];
      while p < |running|
        invariant 0 <= p <= |running| && |ended| == clock - clock0 <= n
        invariant Valid() && submitted == old(submitted) && pending == old(pending) && gone <= collected
        invariant running[p..] == order[..n][|ended|..]
        invariant Polled(order, ended, gone, collected)
        invariant forall k :: 0 <= k < |ended| ==> ended[k] == Ends(ss[k], env(clock0 + k))
        invariant Snap(order) == PollFirst(ss, |ended|, env, clock0)
        invariant forall q :: q in gone ==> q.Now() == old(q.Now())
        decreases |running| - p
      {
        ghost var k, so := |ended|, collected;
        assert running[p] == running[p..][0] == order[k] && running[p..][1..] == order[..n][k..][1..];
        PollOne(ss, k, env, clock0);
        SnapAt(order, k);
        var done := PollNext(p, env(clock), order, k);
        PolledNext(order, ended, gone, so, done);
        ended := ended + [done];
        clock := clock + 1;
        if !done {
          p := p + 1;
        }
      }
      CollectedAll(order, ended, gone, collected);
    }

    /** The same, seen from a fixed list of processes. */
    method PollNext(i: nat, o: Observation, ghost procs: seq<Process>, ghost k: nat) returns (ended: bool)
      requires Valid() && i < |running| && k < |procs| && procs[k] == running[i] && Distinct(procs)
      requires forall j :: 0 <= j < |procs| ==> procs[j] in submitted
      modifies this`running, this`collected, submitted
      ensures Valid() && submitted == old(submitted) && pending == old(pending)
      ensures running == if ended then old(running)[..i] + old(running)[i + 1..] else old(running)
      ensures collected == if ended then old(collected) + {procs[k]} else old(collected)
      ensures ended == Ends(old(Snap(procs))[k], o) && procs[k] !in old(collected)
      ensures Snap(procs) == old(Snap(procs))[k := AfterPoll(old(Snap(procs))[k], o)]
      ensures forall p :: p in old(collected) ==> p.Now() == old(p.Now())
    {
      hide Valid, Ends, AfterPoll;
      CollectedWereSubmitted();
      OnlyOne(procs, k);
      ended := CollectAt(i, o);
    }

    lemma CollectedWereSubmitted()
      requires Valid()
      ensures forall p :: p in collected ==> p in submitted
    {
    }

    /**
     One turn of the scheduler: which processes are killed, which are started, what each poll makes of
     its process and which ones are collected. The order of unfinished processes survives all of it.
     */
    method TakeTurn(free0: real, env: Environment) returns (ghost t: Turn)
      requires Valid()
      modifies this`running, this`pending, this`collected, submitted
      ensures Valid() && submitted == old(submitted) && old(collected) <= collected
      ensures IsTurn(noKill, maxRunning, free0, old(Snap(Order())), |old(running)|, env, t)
      ensures Snap(old(Order())) == AfterTurn(old(Snap(Order())), |old(running)|, env, t)
      ensures forall k :: 0 <= k < |old(Order())| ==>
                (old(Order())[k] in collected <==> IsCollected(old(Snap(Order())), |old(running)|, env, t, k))
      ensures Reverse(pending) == old(Order())[t.started..]
      ensures forall p :: p in old(collected) ==> p.Now() == old(p.Now())
    {
      hide Valid, Reverse, Order, KillFrom, StartFrom, PollFirst, MustKill, CanStart, Ends, Freed, Snap, IsTurn,
           AfterTurn, IsCollected;
      ghost var order, ss, n := Order(), Snap(Order()), |running|;
      OrderEnds();
      var free, clock := RelieveMemory(free0, env);
      ghost var kept, ss1 := |running|, Snap(order);
      OrderEnds();
      clock := Admit(free, env, clock);
      ghost var ss2 := Snap(order);
      OrderEnds();
      t := Turn(kept, |running|);
      TurnMade(noKill, maxRunning, free0, free, ss, ss1, n, env, t);
      TurnPolled(ss, ss1, ss2, n, env, t);
      Collect(env, clock);
    }

    lemma OrderEnds()
      ensures |running| <= |Order()| && Reverse(pending) == Order()[|running|..]
    {
    }

    /** The periodic poll, and what it means for requests and futures. */
    method Poll(free0: real, env: Environment) returns (ghost t: Turn)
      requires Valid()
      modifies this`running, this`pending, this`collected, submitted
      ensures Valid() && submitted == old(submitted) && old(collected) <= collected
      ensures IsTurn(noKill, maxRunning, free0, old(Snap(Order())), |old(running)|, env, t)
      ensures Snap(old(Order())) == AfterTurn(old(Snap(Order())), |old(running)|, env, t)
      ensures forall k :: 0 <= k < |old(Order())| ==>
                (old(Order())[k] in collected <==> IsCollected(old(Snap(Order())), |old(running)|, env, t, k))
      ensures Reverse(pending) == old(Order())[t.started..]
      // A request to give up on a running process is honoured if and only if memory does not get it killed.
      ensures forall k :: 0 <= k < |old(running)| && old(Snap(Order()))[k].kill == GivenUp ==>
                (old(Order())[k] in collected && Snap(old(Order()))[k].kill == GivenUp <==>
                 !MustKill(noKill, free0, old(Snap(Order()))[..|old(running)|], k))
      // A future is only ever resolved from waiting, by the turn that collects its process.
      ensures forall k :: 0 <= k < |old(Order())| && Snap(old(Order()))[k].future != old(Snap(Order()))[k].future ==>
                old(Snap(Order()))[k].future == Waiting && old(Order())[k] in collected
      ensures forall p :: p in old(collected) ==> p.Now() == old(p.Now())
    {
      hide Valid, Reverse, MustKill, Snap, KillFrom, CanStart, Freed, AfterTurn, IsCollected;
      ghost var ss, n := Snap(Order()), |running|;
      OrderWaits();
      t := TakeTurn(free0, env);
      forall k | 0 <= k < |ss|
        ensures AfterTurn(ss, n, env, t)[k].future != ss[k].future ==>
                  ss[k].future == Waiting && IsCollected(ss, n, env, t, k)
        ensures k < n && ss[k].kill == GivenUp ==>
                  (IsCollected(ss, n, env, t, k) && AfterTurn(ss, n, env, t)[k].kill == GivenUp <==>
                   !MustKill(noKill, free0, ss[..n], k))
      {
        if ss[k].kill == GivenUp && k < n {
          GiveUpHonouredIff(noKill, maxRunning, free0, ss, n, env, t, k);
        }
        if AfterTurn(ss, n, env, t)[k].future != ss[k].future {
          FutureChanges(ss, n, env, t, k);
        }
      }
    }

    lemma OrderWaits()
      requires Valid()
      ensures forall k :: 0 <= k < |Order()| ==> !Snap(Order())[k].future.Result? && Snap(Order())[k].kill != Restart
    {
      hide Rest, Reverse;
      OrderDistinct();
      assert forall k :: 0 <= k < |Order()| ==> Order()[k] in submitted;
    }
  }

  /** Moving a process across the boundary leaves the combined order alone. */
  lemma MoveAcross<T>(running: seq<T>, pending: seq<T>)
    requires pending != []
    ensures running + Reverse(pending) == (running + [pending[|pending| - 1]]) + Reverse(pending[..|pending| - 1])
  {
    var last, rest := pending[|pending| - 1], Reverse(pending[..|pending| - 1]);
    assert Reverse(pending) == [last] + rest;
    Regroup(running, [last], rest);
  }

  lemma Regroup<T>(a: seq<T>, b: seq<T>, c: seq<T>)
    ensures a + (b + c) == (a + b) + c
  {
  }

  lemma AppendOrder(running: seq<Process>, pending: seq<Process>, submitted: seq<Process>, collected: set<Process>,
                    proc: Process)
    requires running + Reverse(pending) == Rest(submitted, collected) && proc !in collected
    ensures running + Reverse([proc] + pending) == Rest(submitted + [proc], collected)
  {
    hide Rest, Reverse;
    ReverseInsert(pending, proc);
    RestConcat(submitted, [proc], collected);
    RestOfOne(proc, collected);
    assert running + (Reverse(pending) + [proc]) == running + Reverse(pending) + [proc];
  }

  lemma {:induction false} ReverseElements<T>(s: seq<T>)
    ensures forall x :: x in Reverse(s) <==> x in s
  {
    if s != [] {
      var last := |s| - 1;
      ReverseElements(s[..last]);
      assert s == s[..last] + [s[last]];
    }
  }
}
