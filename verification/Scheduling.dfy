/**
 What happens to the processes of the proof runner in one turn, as functions of what is known about
 each of them. Clock, memory and exit codes are observations.
 */
module Scheduling {
  import opened Wrappers

  datatype Kill = NoKill | GivenUp | Restart

  datatype Reason = Finished | Timeout | Uninterested

  /** The state of the future that a caller awaits. */
  datatype Future = Waiting | Cancelled | Result(code: Option<int>, reason: Reason)

  /** What a poll sees of a process: resident memory in GB, the time, and the exit code if it ended. */
  datatype Observation = Observation(memory: real, now: real, code: Option<int>)

  /** The observations of a turn, in the order in which they are made. */
  type Environment = nat -> Observation

  datatype Status = Status(
    kill: Kill,
    expectedMemory: real,
    expectedTime: real,
    timeout: Option<real>,
    started: bool,
    maxMemory: real,
    startTime: real,
    future: Future
  )

  const MEMORY_BUFFER := 5.0

  function Max(a: real, b: real): real {
    if a < b then b else a
  }

  // ----- one process -----

  predicate TimedOut(s: Status, o: Observation) {
    s.timeout.Some? && o.now - s.startTime > s.timeout.value
  }

  /** Whether a poll that sees `o` ends this start of the process. */
  predicate Ends(s: Status, o: Observation) {
    s.kill != NoKill || o.code.Some? || TimedOut(s, o)
  }

  /** A cancelled future stays cancelled. */
  function Resolve(f: Future, result: Future): Future {
    if f == Cancelled then f else result
  }

  function Outcome(s: Status, o: Observation): Future {
    if o.code.Some? && s.kill == NoKill then Result(o.code, Finished)
    else if TimedOut(s, o) then Result(None, Timeout)
    else Result(None, Uninterested)
  }

  function AfterPoll(s: Status, o: Observation): Status {
    var m := Max(o.memory, s.maxMemory);
    if s.kill == Restart then
      s.(maxMemory := m, kill := NoKill, expectedMemory := Max(s.expectedMemory, m),
         expectedTime := Max(s.expectedTime, o.now - s.startTime))
    else if Ends(s, o) then s.(maxMemory := m, future := Resolve(s.future, Outcome(s, o)))
    else s.(maxMemory := m)
  }

  function AfterStart(s: Status, now: real): Status {
    s.(started := true, startTime := now, maxMemory := 0.0)
  }

  function AfterKill(s: Status, o: Observation): Status {
    AfterPoll(s.(kill := Restart), o)
  }

  /** A timeout runs from the latest start, whatever came before it. */
  lemma TimeoutFromStart(s: Status, now: real, o: Observation)
    requires s.kill == NoKill && o.code == None
    ensures Ends(AfterStart(s, now), o) <==> s.timeout.Some? && o.now - now > s.timeout.value
    ensures Ends(AfterStart(s, now), o) && s.future == Waiting ==>
              AfterPoll(AfterStart(s, now), o).future == Result(None, Timeout)
  {
  }

  /** A kill for memory raises the expectations to what was seen, and forgets nothing that was expected. */
  lemma KillRaisesExpectations(s: Status, o: Observation)
    ensures var k := AfterKill(s, o);
            && k.expectedMemory >= o.memory && k.expectedMemory >= s.maxMemory && k.expectedMemory >= s.expectedMemory
            && k.expectedMemory in {o.memory, s.maxMemory, s.expectedMemory}
            && k.expectedTime >= o.now - s.startTime && k.expectedTime >= s.expectedTime
            && k.future == s.future && k.kill == NoKill
  {
  }

  /** A poll remembers the peak of what it has seen since the start. */
  lemma PeakMemory(s: Status, o: Observation)
    ensures AfterPoll(s, o).maxMemory >= o.memory && AfterPoll(s, o).maxMemory >= s.maxMemory
    ensures AfterPoll(s, o).maxMemory in {o.memory, s.maxMemory} && forall now :: AfterStart(s, now).maxMemory == 0.0
  {
  }

  // ----- killing for memory -----

  function Freed(ss: seq<Status>): real {
    if ss == [] then 0.0 else Max(ss[0].maxMemory, 3.0) + Freed(ss[1..])
  }

  /** Memory is short even after killing everything started later, and the process is not the oldest. */
  predicate MustKill(noKill: bool, free: real, running: seq<Status>, i: nat)
    requires i < |running|
  {
    !noKill && i > 0 && free + Freed(running[i + 1..]) < MEMORY_BUFFER
  }

  /** Processes `kept` up to `n` were killed, the last one first. */
  function KillFrom(ss: seq<Status>, n: nat, kept: nat, env: Environment, clock: nat): (r: seq<Status>)
    requires kept <= n <= |ss|
    ensures |r| == |ss| && forall i :: 0 <= i < |ss| ==>
              r[i] == if kept <= i < n then AfterKill(ss[i], env(clock + (n - 1 - i))) else ss[i]
  {
    seq(|ss|, i requires 0 <= i < |ss| => if kept <= i < n then AfterKill(ss[i], env(clock + (n - 1 - i))) else ss[i])
  }

  lemma KillNone(ss: seq<Status>, n: nat, env: Environment)
    requires n <= |ss|
    ensures KillFrom(ss, n, n, env, 0) == ss
  {
  }

  lemma KillOne(ss: seq<Status>, n: nat, k: nat, env: Environment)
    requires k < n <= |ss|
    ensures KillFrom(ss, n, k + 1, env, 0)[k] == ss[k]
    ensures KillFrom(ss, n, k, env, 0) == KillFrom(ss, n, k + 1, env, 0)[k := AfterKill(ss[k], env(n - 1 - k))]
  {
    hide AfterKill;
  }

  /** A longer tail frees more. */
  lemma {:induction false} FreedMonotone(ss: seq<Status>, i: nat, j: nat)
    requires i <= j <= |ss|
    ensures Freed(ss[j..]) <= Freed(ss[i..])
    decreases j - i
  {
    if i < j {
      FreedMonotone(ss, i + 1, j);
      assert ss[i..][1..] == ss[i + 1..];
    }
  }

  lemma NothingFreed(ss: seq<Status>)
    ensures Freed(ss[|ss|..]) == 0.0
  {
  }

  lemma MustKillHere(noKill: bool, free0: real, free: real, running: seq<Status>, k: nat)
    requires k < |running| && free == free0 + Freed(running[k + 1..])
    ensures MustKill(noKill, free0, running, k) <==> !noKill && k > 0 && free < MEMORY_BUFFER
  {
  }

  lemma FreedStep(ss: seq<Status>, i: nat)
    requires i < |ss|
    ensures Freed(ss[i..]) == Max(ss[i].maxMemory, 3.0) + Freed(ss[i + 1..])
  {
    assert ss[i..][1..] == ss[i + 1..];
  }

  /** Killing stops at the first process that need not be killed. */
  lemma KilledExactly(noKill: bool, free: real, running: seq<Status>, kept: nat)
    requires kept <= |running| && (running != [] ==> kept > 0)
    requires forall i :: kept <= i < |running| ==> MustKill(noKill, free, running, i)
    requires noKill || free + Freed(running[kept..]) >= MEMORY_BUFFER || kept <= 1
    ensures forall i :: 0 <= i < |running| ==> (i >= kept <==> MustKill(noKill, free, running, i))
  {
    forall i | 0 <= i < kept
      ensures !MustKill(noKill, free, running, i)
    {
      FreedMonotone(running, i + 1, kept);
    }
  }

  // ----- starting -----

  function Claimed(ss: seq<Status>): real {
    if ss == [] then 0.0 else Claimed(ss[..|ss| - 1]) + Max(ss[|ss| - 1].expectedMemory, 3.0)
  }

  /** With everything from `first` on started, there is a slot and memory for process `c` as well. */
  predicate CanStart(maxRunning: int, free: real, ss: seq<Status>, first: nat, c: nat)
    requires first <= c < |ss|
  {
    c < maxRunning && free - Claimed(ss[first..c]) > ss[c].expectedMemory + MEMORY_BUFFER
  }

  function StartFrom(ss: seq<Status>, first: nat, last: nat, env: Environment, clock: nat): (r: seq<Status>)
    requires first <= last <= |ss|
    ensures |r| == |ss| && forall i :: 0 <= i < |ss| ==>
              r[i] == if first <= i < last then AfterStart(ss[i], env(clock + (i - first)).now) else ss[i]
  {
    seq(|ss|, i requires 0 <= i < |ss| =>
          if first <= i < last then AfterStart(ss[i], env(clock + (i - first)).now) else ss[i])
  }

  lemma StartNone(ss: seq<Status>, n: nat, env: Environment, clock: nat)
    requires n <= |ss|
    ensures StartFrom(ss, n, n, env, clock) == ss
  {
  }

  lemma StartOne(ss: seq<Status>, n: nat, k: nat, env: Environment, clock: nat)
    requires n <= k < |ss|
    ensures StartFrom(ss, n, k, env, clock)[k] == ss[k]
    ensures StartFrom(ss, n, k + 1, env, clock) == StartFrom(ss, n, k, env,
                                                             clock)[k := AfterStart(ss[k], env(clock + (k - n)).now)]
    ensures k + 1 < |ss| ==> StartFrom(ss, n, k + 1, env, clock)[k + 1] == ss[k + 1]
  {
    hide AfterStart;
  }

  lemma NothingClaimed(ss: seq<Status>, n: nat)
    requires n <= |ss|
    ensures Claimed(ss[n..n]) == 0.0
  {
  }

  lemma NextStarts(maxRunning: int, free0: real, free: real, ss: seq<Status>, n: nat, k: nat)
    requires n <= k < |ss| && free == free0 - Claimed(ss[n..k])
    ensures CanStart(maxRunning, free0, ss, n, k) <==> k < maxRunning && free > ss[k].expectedMemory + MEMORY_BUFFER
  {
  }

  lemma ClaimedStep(ss: seq<Status>, first: nat, c: nat)
    requires first <= c < |ss|
    ensures Claimed(ss[first..c + 1]) == Claimed(ss[first..c]) + Max(ss[c].expectedMemory, 3.0)
  {
    assert ss[first..c + 1][..c - first] == ss[first..c];
  }

  /** Each process counts for what it used or is expected to use, but for no less than 3 GB; 5 GB stay free. */
  lemma MemoryFloors(s: Status)
    ensures Freed([s]) >= 3.0 && Freed([s]) >= s.maxMemory && Freed([s]) in {3.0, s.maxMemory}
    ensures Claimed([s]) >= 3.0 && Claimed([s]) >= s.expectedMemory && Claimed([s]) in {3.0, s.expectedMemory}
    ensures forall free :: CanStart(1, free, [s], 0, 0) <==> free > s.expectedMemory + 5.0
    ensures forall free :: MustKill(false, free, [s, s], 1) <==> free < 5.0
  {
    assert [s][1..] == [] && [s][..0] == [] && [s, s][2..] == [] && [s][0..0] == [];
  }

  // ----- polling -----

  function PollFirst(ss: seq<Status>, n: nat, env: Environment, clock: nat): (r: seq<Status>)
    requires n <= |ss|
    ensures |r| == |ss| && forall i :: 0 <= i < |ss| ==>
              r[i] == if i < n then AfterPoll(ss[i], env(clock + i)) else ss[i]
  {
    seq(|ss|, i requires 0 <= i < |ss| => if i < n then AfterPoll(ss[i], env(clock + i)) else ss[i])
  }

  lemma PollNone(ss: seq<Status>, env: Environment, clock: nat)
    ensures PollFirst(ss, 0, env, clock) == ss
  {
  }

  lemma PollOne(ss: seq<Status>, k: nat, env: Environment, clock: nat)
    requires k < |ss|
    ensures PollFirst(ss, k, env, clock)[k] == ss[k]
    ensures PollFirst(ss, k + 1, env, clock) == PollFirst(ss, k, env, clock)[k := AfterPoll(ss[k], env(clock + k))]
  {
    hide AfterPoll;
  }

  // ----- a whole turn -----

  /** How many running processes are left alone, and up to which one processes are then running. */
  datatype Turn = Turn(kept: nat, started: nat)

  ghost predicate IsTurn(noKill: bool, maxRunning: int, free: real, ss: seq<Status>, n: nat, env: Environment,
                         t: Turn) {
    && n <= |ss| && t.kept <= n && t.kept <= t.started <= |ss|
    && (forall i :: 0 <= i < n ==> (i >= t.kept <==> MustKill(noKill, free, ss[..n], i)))
    && var ss1, free1 := KillFrom(ss, n, t.kept, env, 0), free + Freed(ss[..n][t.kept..]);
       && (forall c :: t.kept <= c < t.started ==> CanStart(maxRunning, free1, ss1, t.kept, c))
       && (t.started < |ss| ==> !CanStart(maxRunning, free1, ss1, t.kept, t.started))
  }

  /** What is known of the processes when the collecting poll begins. */
  ghost function BeforePolls(ss: seq<Status>, n: nat, env: Environment, t: Turn): (r: seq<Status>)
    requires t.kept <= n <= |ss| && t.kept <= t.started <= |ss|
    ensures |r| == |ss|
  {
    StartFrom(KillFrom(ss, n, t.kept, env, 0), t.kept, t.started, env, n - t.kept)
  }

  function PollClock(n: nat, t: Turn): nat
    requires t.kept <= n && t.kept <= t.started
  {
    (n - t.kept) + (t.started - t.kept)
  }

  /** What is known of the processes after the turn. */
  ghost function AfterTurn(ss: seq<Status>, n: nat, env: Environment, t: Turn): (r: seq<Status>)
    requires t.kept <= n <= |ss| && t.kept <= t.started <= |ss|
    ensures |r| == |ss|
  {
    PollFirst(BeforePolls(ss, n, env, t), t.started, env, PollClock(n, t))
  }

  /** The turn collects process `k`. */
  ghost predicate IsCollected(ss: seq<Status>, n: nat, env: Environment, t: Turn, k: nat)
    requires t.kept <= n <= |ss| && t.kept <= t.started <= |ss| && k < |ss|
  {
    k < t.started && Ends(BeforePolls(ss, n, env, t)[k], env(PollClock(n, t) + k))
  }

  /** Killing and starting, put together. */
  lemma TurnMade(noKill: bool, maxRunning: int, free: real, free1: real, ss: seq<Status>, ss1: seq<Status>, n: nat,
                 env: Environment, t: Turn)
    requires n <= |ss| && t.kept <= n && t.kept <= t.started <= |ss|
    requires forall i :: 0 <= i < n ==> (i >= t.kept <==> MustKill(noKill, free, ss[..n], i))
    requires ss1 == KillFrom(ss, n, t.kept, env, 0) && free1 == free + Freed(ss[..n][t.kept..])
    requires forall c :: t.kept <= c < t.started ==> CanStart(maxRunning, free1, ss1, t.kept, c)
    requires t.started < |ss| ==> !CanStart(maxRunning, free1, ss1, t.kept, t.started)
    ensures IsTurn(noKill, maxRunning, free, ss, n, env, t)
  {
    hide MustKill, CanStart, KillFrom, Freed;
  }

  /** The polls of a turn, put together. */
  lemma TurnPolled(ss: seq<Status>, ss1: seq<Status>, ss2: seq<Status>, n: nat, env: Environment, t: Turn)
    requires n <= |ss| && t.kept <= n && t.kept <= t.started <= |ss|
    requires ss1 == KillFrom(ss, n, t.kept, env, 0) && ss2 == StartFrom(ss1, t.kept, t.started, env, n - t.kept)
    ensures PollFirst(ss2, t.started, env, PollClock(n, t)) == AfterTurn(ss, n, env, t)
    ensures forall k :: 0 <= k < |ss| ==>
              (IsCollected(ss, n, env, t, k) <==> k < t.started && Ends(ss2[k], env(PollClock(n, t) + k)))
  {
    hide KillFrom, StartFrom, PollFirst, Ends;
  }

  /** A turn is determined by what is known of the processes and of the machine. */
  lemma TurnUnique(noKill: bool, maxRunning: int, free: real, ss: seq<Status>, n: nat, env: Environment, t: Turn,
                   t': Turn)
    requires IsTurn(noKill, maxRunning, free, ss, n, env, t) && IsTurn(noKill, maxRunning, free, ss, n, env, t')
    ensures t == t'
  {
    hide IsTurn;
    KeepsMore(noKill, maxRunning, free, ss, n, env, t, t');
    KeepsMore(noKill, maxRunning, free, ss, n, env, t', t);
    StartsMore(noKill, maxRunning, free, ss, n, env, t, t');
    StartsMore(noKill, maxRunning, free, ss, n, env, t', t);
  }

  lemma KeepsMore(noKill: bool, maxRunning: int, free: real, ss: seq<Status>, n: nat, env: Environment, t: Turn,
                  t': Turn)
    requires IsTurn(noKill, maxRunning, free, ss, n, env, t) && IsTurn(noKill, maxRunning, free, ss, n, env, t')
    ensures t.kept <= t'.kept
  {
    hide CanStart, KillFrom, Freed;
    assert t'.kept < n ==> MustKill(noKill, free, ss[..n], t'.kept);
  }

  lemma StartsMore(noKill: bool, maxRunning: int, free: real, ss: seq<Status>, n: nat, env: Environment, t: Turn,
                   t': Turn)
    requires IsTurn(noKill, maxRunning, free, ss, n, env, t) && IsTurn(noKill, maxRunning, free, ss, n, env, t')
    requires t.kept == t'.kept
    ensures t.started <= t'.started
  {
    hide MustKill, CanStart, KillFrom, Freed;
  }

  /**
   A request to give up on a running process is honoured by the next turn if and only if the process
   is not killed for memory in that turn; otherwise the request is forgotten.
   */
  lemma GiveUpHonouredIff(noKill: bool, maxRunning: int, free: real, ss: seq<Status>, n: nat, env: Environment, t: Turn,
                          k: nat)
    requires IsTurn(noKill, maxRunning, free, ss, n, env, t) && k < n && ss[k].kill == GivenUp
    ensures !MustKill(noKill, free, ss[..n], k) <==>
              IsCollected(ss, n, env, t, k) && AfterTurn(ss, n, env, t)[k].kill == GivenUp
    ensures !MustKill(noKill, free, ss[..n], k) && ss[k].future == Waiting ==>
              AfterTurn(ss, n, env, t)[k].future.Result? && AfterTurn(ss, n, env, t)[k].future.code == None
    ensures MustKill(noKill, free, ss[..n], k) ==> AfterTurn(ss, n, env, t)[k].kill == NoKill
  {
    hide MustKill, CanStart, Freed;
  }

  /** A turn changes a future only by collecting its process, and never one that was cancelled. */
  lemma FutureChanges(ss: seq<Status>, n: nat, env: Environment, t: Turn, k: nat)
    requires t.kept <= n <= |ss| && t.kept <= t.started <= |ss| && k < |ss|
    requires ss[k].kill != Restart && AfterTurn(ss, n, env, t)[k].future != ss[k].future
    ensures IsCollected(ss, n, env, t, k) && ss[k].future != Cancelled
  {
  }

  /** Two processes run, the second one is given up on, and memory is short: its request is lost. */
  lemma LostRequest(env: Environment)
    ensures var s := Status(NoKill, 0.0, 0.0, None, true, 1.0, 0.0, Waiting);
            var ss := [s, s.(kill := GivenUp)];
            && IsTurn(false, 2, 1.0, ss, 2, env, Turn(1, 1))
            && !IsCollected(ss, 2, env, Turn(1, 1), 1)
            && AfterTurn(ss, 2, env, Turn(1, 1))[1].kill == NoKill
            && AfterTurn(ss, 2, env, Turn(1, 1))[1].future == Waiting
  {
    var s := Status(NoKill, 0.0, 0.0, None, true, 1.0, 0.0, Waiting);
    var ss := [s, s.(kill := GivenUp)];
    assert ss[..2] == ss && ss[2..] == [] && ss[1..] == [ss[1]] && [ss[1]][1..] == [];
    assert Freed(ss[2..]) == 0.0 && Freed(ss[1..]) == 3.0;
    assert MustKill(false, 1.0, ss, 1);
    var ss1 := KillFrom(ss, 2, 1, env, 0);
    assert ss1[1..1] == [] && ss1[1].expectedMemory >= 1.0;
    assert !CanStart(2, 4.0, ss1, 1, 1);
  }
}
