/**
 Whole runs of the day runner: what every step keeps.

 Each step reads and writes the queue file as a whole: no two processes save it at the same time.
 Within the runner a lock sees to that; against an add or a reclaim from outside nothing does.
 */
module DayRuns {
  import opened Collections
  import opened DayRunner
  import opened WorkerReports

  /** Where a worker thread stands with its job: it was handed the claimed job, it has marked it
      running, or it has applied a report and goes on to log it and to cut down its result for the
      caller -- on which it trips if the result is null. */
  datatype Phase = Handed | Working | Logging(noResult: bool)

  /** What the runner cannot rule out.  `stdout` says that standard output takes every line; otherwise
      any line may fail.  `overdue` says that a reclaim may come, from outside, while a job in the
      hands of a thread is past its lease. */
  datatype World = World(stdout: bool, overdue: bool)

  /** `stops[i]` counts how often a user's stop put job `i` back. */
  datatype State = State(queue: seq<Job>, stops: seq<nat>, alive: bool, inflight: map<nat, Phase>, world: World)

  datatype Step =
    | Start
    | Crash
    | Stop
    | Add(id: string, maxAttempts: nat, priority: int, ts: int)
    | Reclaim(now: nat, pidAlive: nat -> bool)
    | Claim(n: nat, chosen: set<nat>, until: nat, pid: nat)
    | Mark(i: nat, until: nat, pid: nat)
    | Renew(i: nat, until: nat)
    | Abandon(i: nat)
    | Report(i: nat, outcome: Outcome)
    | Raise(i: nat)
    | Return(i: nat)
    | TripOnNull(i: nat)
    | PrintFails(i: nat)

  function Init(world: World): State { State([], [], false, map[], world) }

  predicate In(s: State, i: nat, p: Phase) { i in s.inflight && s.inflight[i] == p && i < |s.queue| }

  predicate Logs(s: State, i: nat) { i in s.inflight && s.inflight[i].Logging? && i < |s.queue| }

  /** No job in the hands of a thread is stale. */
  predicate NoneOverdue(s: State, now: nat, pidAlive: nat -> bool) {
    forall i :: i in s.inflight && i < |s.queue| ==> !Stale(s.queue[i], now, pidAlive)
  }

  predicate Enabled(s: State, step: Step) {
    match step
    case Start => !s.alive
    case Crash => s.alive
    case Stop => s.alive && |s.stops| == |s.queue|
    case Add(id, _, _, _) => id !in Ids(s.queue)
    case Reclaim(now, pidAlive) => s.world.overdue || NoneOverdue(s, now, pidAlive)
    case Claim(n, chosen, _, _) => s.alive && s.inflight == map[] && IsTop(s.queue, n, chosen)
    case Mark(i, _, _) => In(s, i, Handed)
    case Renew(i, _) => In(s, i, Working)
    case Abandon(i) => i in s.inflight
    case Report(i, outcome) => In(s, i, Working) && Lawful(outcome)
    case Raise(i) => In(s, i, Working)
    case Return(i) => In(s, i, Logging(false))
    case TripOnNull(i) => In(s, i, Logging(true))
    case PrintFails(i) => Logs(s, i) && !s.world.stdout
  }

  function Apply(s: State, step: Step): State
    requires Enabled(s, step)
  {
    match step
    case Start => s.(alive := true)
    case Crash => s.(alive := false, inflight := map[])
    case Stop =>
      s.(queue := MapAll(s.queue, StopOne), alive := false, inflight := map[],
         stops := seq(|s.stops|, i requires 0 <= i < |s.stops| && |s.stops| == |s.queue| =>
                        s.stops[i] + if Leased(s.queue[i]) then 1 else 0))
    case Add(id, m, priority, ts) =>
      s.(queue := s.queue + [Job(id, Pending, 0, m, 0, 0, priority, ts)], stops := s.stops + [0])
    case Reclaim(now, pidAlive) => s.(queue := MapAll(s.queue, j => ReclaimOne(j, now, pidAlive)))
    case Claim(_, chosen, until, pid) =>
      s.(queue := ClaimAll(s.queue, chosen, until, pid), inflight := map i | i in chosen :: Handed)
    case Mark(i, until, pid) =>
      s.(queue := s.queue[i := MarkRunning(s.queue[i], until, pid)], inflight := s.inflight[i := Working])
    case Renew(i, until) => s.(queue := s.queue[i := s.queue[i].(lease := until)])
    case Abandon(i) => s.(inflight := s.inflight - {i})
    case Report(i, outcome) =>
      s.(queue := s.queue[i := Finish(s.queue[i], outcome.ok)],
         inflight := s.inflight[i := Logging(outcome.result.None?)])
    case Return(i) => s.(inflight := s.inflight - {i})
    case _ => s.(queue := s.queue[step.i := Retry(s.queue[step.i])], inflight := s.inflight - {step.i})
  }

  /** The attempts a job may use: its limit, and one more for every stop that put it back. */
  predicate WithinLimit(j: Job, stops: nat) {
    && j.attempts <= Limit(j) + stops && (j.status.Pending? ==> j.attempts < Limit(j) + stops)
    && (j.status.Failed? ==> j.attempts >= Limit(j))
  }

  predicate PhaseFits(j: Job, p: Phase) {
    match p
    case Logging(noResult) =>
      && !Leased(j) && (noResult ==> !j.status.Done?)
      && (j.status.Failed? <==> !j.status.Done? && j.attempts >= Limit(j))
      && (j.status.Pending? ==> j == Unleased(j))
    case _ => !j.status.Done? && (j.status.Failed? ==> j.attempts >= Limit(j))
  }

  /** The job is as its thread left it: no reclaim has taken it away. */
  predicate InHand(j: Job, p: Phase) {
    match p
    case Handed => j.status.Claimed?
    case Working => j.status.Running?
    case Logging(_) => true
  }

  ghost predicate Inv(s: State) {
    && |s.stops| == |s.queue| && UniqueIds(s.queue)
    && (forall i :: 0 <= i < |s.queue| ==> WithinLimit(s.queue[i], s.stops[i]))
    && (forall i :: i in s.inflight ==> i < |s.queue| && PhaseFits(s.queue[i], s.inflight[i]))
    && (!s.alive ==> s.inflight == map[])
    && (!s.world.overdue ==> AllInHand(s))
  }

  ghost predicate AllInHand(s: State) {
    forall i :: i in s.inflight && i < |s.queue| ==> InHand(s.queue[i], s.inflight[i])
  }

  // ---------- what every step keeps ----------

  lemma ChosenArePending(q: seq<Job>, n: nat, chosen: set<nat>)
    requires IsTop(q, n, chosen)
    ensures forall i :: i in chosen ==> i < |q| && q[i].status.Pending?
  {
    forall i | i in chosen ensures i < |q| && q[i].status.Pending? {
      assert i in PendingIn(q);
    }
  }

  lemma LimitStep(s: State, step: Step, i: nat)
    requires Inv(s) && Enabled(s, step) && i < |s.queue|
    ensures var t := Apply(s, step);
            i < |t.queue| == |t.stops| && WithinLimit(t.queue[i], t.stops[i]) && t.queue[i].id == s.queue[i].id
  {
    assert WithinLimit(s.queue[i], s.stops[i]);
    if step.Claim? {
      ChosenArePending(s.queue, step.n, step.chosen);
    }
  }

  lemma PhaseStep(s: State, step: Step, i: nat)
    requires Inv(s) && Enabled(s, step) && i in Apply(s, step).inflight
    ensures var t := Apply(s, step);
            i < |t.queue| && PhaseFits(t.queue[i], t.inflight[i])
  {
    if step.Claim? {
      ChosenArePending(s.queue, step.n, step.chosen);
    } else {
      assert i in s.inflight && PhaseFits(s.queue[i], s.inflight[i]);
    }
  }

  lemma NewJobStep(s: State, step: Step)
    requires Inv(s) && Enabled(s, step)
    ensures var t := Apply(s, step);
            && |t.queue| == |t.stops| == |s.queue| + (if step.Add? then 1 else 0)
            && (step.Add? ==>
                  t.queue[|s.queue|].id !in Ids(s.queue) && WithinLimit(t.queue[|s.queue|], t.stops[|s.queue|]))
  {
  }

  lemma InvStep(s: State, step: Step)
    requires Inv(s) && Enabled(s, step)
    ensures Inv(Apply(s, step))
  {
    var t := Apply(s, step);
    NewJobStep(s, step);
    forall i | 0 <= i < |s.queue|
      ensures WithinLimit(t.queue[i], t.stops[i]) && t.queue[i].id == s.queue[i].id && t.queue[i].id == Ids(s.queue)[i]
    {
      LimitStep(s, step, i);
    }
    forall i | i in t.inflight ensures i < |t.queue| && PhaseFits(t.queue[i], t.inflight[i]) {
      PhaseStep(s, step, i);
    }
    if !s.world.overdue {
      InHandStep(s, step);
    }
  }

  lemma InHandStep(s: State, step: Step)
    requires Inv(s) && Enabled(s, step) && !s.world.overdue
    ensures AllInHand(Apply(s, step))
  {
    var t := Apply(s, step);
    forall i | i in t.inflight && i < |t.queue| ensures InHand(t.queue[i], t.inflight[i]) {
      if !step.Claim? {
        assert i in s.inflight && InHand(s.queue[i], s.inflight[i]);
      }
    }
  }

  /** No step drops, duplicates, renames or reorders a job; only an add brings one more.  (An add from
      outside that overlaps an update loses one of the two; here no two steps overlap.) */
  lemma StepKeepsJobs(s: State, step: Step)
    requires Inv(s) && Enabled(s, step)
    ensures
      var ids := Ids(Apply(s, step).queue);
      ids == if step.Add? then Ids(s.queue) + [step.id] else Ids(s.queue)
  {
  }

  /** Job `i` alone is touched. */
  predicate OnlyAt(q: seq<Job>, q': seq<Job>, i: nat) {
    |q'| == |q| && forall k :: 0 <= k < |q| && k != i ==> q'[k] == q[k]
  }

  /** What each step of a thread does to its job. */
  lemma ThreadStepEffect(s: State, step: Step, i: nat)
    requires Enabled(s, step) && i < |s.queue|
    requires step.Mark? || step.Renew? || step.Report? || step.Raise? || step.Return? || step.PrintFails?
    requires step.i == i
    ensures
      var j, t := s.queue[i], Apply(s, step);
      && OnlyAt(s.queue, t.queue, i) && t.stops == s.stops
      && match step
         case Mark(_, until, pid) => Becomes(j, t.queue[i], Running, until, pid)
         case Renew(_, until) => Becomes(j, t.queue[i], j.status, until, j.owner)
         case Report(_, outcome) =>
           if outcome.ok then Becomes(j, t.queue[i], Done, j.lease, j.owner) else Retried(j, t.queue[i])
         case Return(_) => t.queue[i] == j
         case _ => Retried(j, t.queue[i])
  {
  }

  /** After a stop no job is in progress; exactly those that were are newly pending, and each of them
      is counted as put back. */
  lemma StopPutsBack(s: State)
    requires Enabled(s, Stop)
    ensures
      var t := Apply(s, Stop);
      && |t.queue| == |s.queue| == |t.stops| && !t.alive && t.inflight == map[]
      && forall i :: 0 <= i < |s.queue| ==>
           && PutBack(s.queue[i], t.queue[i]) && !InProgress(t.queue[i])
           && (t.queue[i].status == Pending && s.queue[i].status != Pending <==> InProgress(s.queue[i]))
           && t.stops[i] == s.stops[i] + if InProgress(s.queue[i]) then 1 else 0
  {
  }

  /** What the steps on the whole queue do. */
  lemma QueueStepEffect(s: State, step: Step)
    requires Enabled(s, step) && (step.Reclaim? || step.Claim? || step.Add? || step.Start? || step.Crash?)
    ensures
      var q, q' := s.queue, Apply(s, step).queue;
      match step
      case Reclaim(now, pidAlive) =>
        |q'| == |q| && forall i :: 0 <= i < |q| ==> ReclaimedFrom(q[i], q'[i], now, pidAlive)
      case Claim(_, chosen, until, pid) =>
        |q'| == |q| && forall i: nat :: i < |q| ==>
                         if i in chosen then ClaimedFrom(q[i], q'[i], until, pid) else q'[i] == q[i]
      case Add(id, limit, priority, ts) => q' == q + [Job(id, Pending, 0, limit, 0, 0, priority, ts)]
      case _ => q' == q
  {
  }

  /** A null result comes with a failed report only, and what the exception handler does then has
      been done already. */
  lemma TrippingChangesNothing(s: State, i: nat)
    requires Inv(s) && Enabled(s, TripOnNull(i))
    ensures Apply(s, TripOnNull(i)).queue == s.queue
  {
    assert PhaseFits(s.queue[i], s.inflight[i]);
  }

  /** What takes job `i` out of done or failed: a line that cannot be printed after its successful
      report; or, once a reclaim has failed the job under its thread's hands, the thread marking it
      running or reporting success. */
  predicate Leaves(j: Job, step: Step, i: nat) {
    || (j.status.Done? && step == PrintFails(i))
    || (j.status.Failed? && step.Mark? && step.i == i)
    || (j.status.Failed? && step.Report? && step.i == i && step.outcome.ok)
  }

  /** The status of a done or failed job is changed by exactly those steps. */
  lemma TerminalIsLeftIff(s: State, step: Step, i: nat)
    requires Inv(s) && Enabled(s, step) && i < |s.queue| && Terminal(s.queue[i])
    ensures i < |Apply(s, step).queue|
    ensures Apply(s, step).queue[i].status != s.queue[i].status <==> Leaves(s.queue[i], step, i)
  {
    if step.Claim? {
      ChosenArePending(s.queue, step.n, step.chosen);
    }
    if i in s.inflight {
      assert PhaseFits(s.queue[i], s.inflight[i]);
    }
  }

  /** A done or failed job that no thread has in hand, or whose thread has only logging left and,
      if it is done, can print every line. */
  predicate Settled(s: State, i: nat) {
    && i < |s.queue| && Terminal(s.queue[i])
    && (i in s.inflight ==> s.inflight[i].Logging? && (s.queue[i].status.Done? ==> s.world.stdout))
  }

  lemma SettledStep(s: State, step: Step, i: nat)
    requires Inv(s) && Enabled(s, step) && Settled(s, i)
    ensures Settled(Apply(s, step), i) && Apply(s, step).queue[i].status == s.queue[i].status
  {
    TerminalIsLeftIff(s, step, i);
    if step.Claim? {
      ChosenArePending(s.queue, step.n, step.chosen);
    }
  }

  ghost predicate CanRun(s: State, steps: seq<Step>)
    decreases |steps|
  {
    steps == [] || (Enabled(s, steps[0]) && CanRun(Apply(s, steps[0]), steps[1..]))
  }

  ghost function Exec(s: State, steps: seq<Step>): State
    requires CanRun(s, steps)
    decreases |steps|
  {
    if steps == [] then s else Exec(Apply(s, steps[0]), steps[1..])
  }

  function CountStops(steps: seq<Step>): nat {
    if steps == [] then 0 else (if steps[0].Stop? then 1 else 0) + CountStops(steps[1..])
  }

  lemma {:induction false} InvRun(s: State, steps: seq<Step>)
    requires Inv(s) && CanRun(s, steps)
    ensures Inv(Exec(s, steps)) && |Exec(s, steps).queue| >= |s.queue|
    decreases |steps|
  {
    if steps != [] {
      InvStep(s, steps[0]);
      InvRun(Apply(s, steps[0]), steps[1..]);
    }
  }

  lemma StopsGrow(s: State, step: Step)
    requires |s.stops| == |s.queue| && Enabled(s, step)
    ensures
      var t, more := Apply(s, step), if step.Stop? then 1 else 0;
      && |t.stops| >= |s.stops|
      && (forall i :: 0 <= i < |s.stops| ==> t.stops[i] <= s.stops[i] + more)
      && (forall i :: |s.stops| <= i < |t.stops| ==> t.stops[i] == 0)
  {
  }

  lemma {:induction false} StopsCounted(s: State, steps: seq<Step>, bound: nat)
    requires Inv(s) && CanRun(s, steps) && forall i :: 0 <= i < |s.stops| ==> s.stops[i] <= bound
    ensures
      var t := Exec(s, steps);
      forall i :: 0 <= i < |t.stops| ==> t.stops[i] <= bound + CountStops(steps)
    decreases |steps|
  {
    if steps != [] {
      InvStep(s, steps[0]);
      var more := if steps[0].Stop? then 1 else 0;
      StopsGrow(s, steps[0]);
      StopsCounted(Apply(s, steps[0]), steps[1..], bound + more);
      assert CountStops(steps) == more + CountStops(steps[1..]);
      assert Exec(s, steps) == Exec(Apply(s, steps[0]), steps[1..]);
      assert bound + more + CountStops(steps[1..]) == bound + CountStops(steps);
    }
  }

  /** Over every run -- with crashes, restarts, stops and reclaims at any time -- no job is attempted
      more often than its limit plus the number of stops that put it back, and so at most limit plus
      stops in all; and none fails before its limit is used up. */
  lemma AttemptsAreBounded(world: World, steps: seq<Step>)
    requires CanRun(Init(world), steps)
    ensures
      var t := Exec(Init(world), steps);
      && |t.stops| == |t.queue|
      && forall i :: 0 <= i < |t.queue| ==>
           && t.queue[i].attempts <= Limit(t.queue[i]) + t.stops[i]
           && t.stops[i] <= CountStops(steps)
           && (t.queue[i].status.Failed? ==> t.queue[i].attempts >= Limit(t.queue[i]))
  {
    InvRun(Init(world), steps);
    StopsCounted(Init(world), steps, 0);
    var t := Exec(Init(world), steps);
    forall i | 0 <= i < |t.queue|
      ensures t.queue[i].attempts <= Limit(t.queue[i]) + t.stops[i]
      ensures t.queue[i].status.Failed? ==> t.queue[i].attempts >= Limit(t.queue[i])
    {
      assert WithinLimit(t.queue[i], t.stops[i]);
    }
  }

  /** A settled job never leaves done or failed, whatever happens: crashes, stops, exceptions, null
      results, reclaims. */
  lemma {:induction false} TerminalStays(s: State, steps: seq<Step>, i: nat)
    requires Inv(s) && CanRun(s, steps) && Settled(s, i)
    ensures i < |Exec(s, steps).queue| && Exec(s, steps).queue[i].status == s.queue[i].status
    decreases |steps|
  {
    if steps != [] {
      InvStep(s, steps[0]);
      SettledStep(s, steps[0], i);
      TerminalStays(Apply(s, steps[0]), steps[1..], i);
    }
  }

  lemma DoneStep(s: State, step: Step, i: nat)
    requires Enabled(s, step) && i < |Apply(s, step).queue| && Apply(s, step).queue[i].status.Done?
    ensures (i < |s.queue| && s.queue[i].status.Done?) || (step.Report? && step.i == i && step.outcome.ok)
  {
  }

  /** A successful report of job `i` is among the steps. */
  predicate SucceedsIn(steps: seq<Step>, i: nat) {
    exists k :: 0 <= k < |steps| && steps[k].Report? && steps[k].i == i && steps[k].outcome.ok
  }

  /** Over every run a job is done only if its thread reported success. */
  lemma {:induction false} DoneMeansSuccess(s: State, steps: seq<Step>, i: nat)
    requires CanRun(s, steps) && i < |Exec(s, steps).queue| && Exec(s, steps).queue[i].status.Done?
    ensures (i < |s.queue| && s.queue[i].status.Done?) || SucceedsIn(steps, i)
    decreases |steps|
  {
    if steps != [] {
      DoneMeansSuccess(Apply(s, steps[0]), steps[1..], i);
      if SucceedsIn(steps[1..], i) {
        var k :| 0 <= k < |steps[1..]| && steps[1..][k].Report? && steps[1..][k].i == i && steps[1..][k].outcome.ok;
        assert steps[k + 1] == steps[1..][k];
      } else {
        DoneStep(s, steps[0], i);
      }
    }
  }

  ghost predicate Reachable(world: World, s: State) {
    exists steps: seq<Step> :: CanRun(Init(world), steps) && Exec(Init(world), steps) == s
  }

  ghost predicate KeepsStatus(s: State, steps: seq<Step>, i: nat)
    requires CanRun(s, steps) && i < |s.queue|
  {
    i < |Exec(s, steps).queue| && Exec(s, steps).queue[i].status == s.queue[i].status
  }

  /** Whatever a runner does, from an empty queue on: no status done or failed ever changes. */
  ghost predicate TerminalIsNeverLeft(world: World) {
    forall s: State, steps: seq<Step>, i: nat ::
      Reachable(world, s) && CanRun(s, steps) && i < |s.queue| && Terminal(s.queue[i]) ==> KeepsStatus(s, steps, i)
  }

  lemma ReachableIsValid(world: World, s: State)
    requires Reachable(world, s)
    ensures Inv(s) && s.world == world
  {
    var steps: seq<Step> :| CanRun(Init(world), steps) && Exec(Init(world), steps) == s;
    InvRun(Init(world), steps);
    WorldStays(Init(world), steps);
  }

  lemma TerminalIsSettled(s: State, i: nat)
    requires Inv(s) && s.world.stdout && !s.world.overdue && i < |s.queue| && Terminal(s.queue[i])
    ensures Settled(s, i)
  {
    if i in s.inflight {
      assert InHand(s.queue[i], s.inflight[i]);
    }
  }

  /** That is so exactly if the runner can print every line and no reclaim finds a job past its lease
      in the hands of a thread -- given that no two processes save the queue at the same time. */
  lemma TerminalIsNeverLeftIff(world: World)
    ensures TerminalIsNeverLeft(world) <==> world.stdout && !world.overdue
  {
    if world.stdout && !world.overdue {
      forall s: State, steps: seq<Step>, i: nat
        | Reachable(world, s) && CanRun(s, steps) && i < |s.queue| && Terminal(s.queue[i])
        ensures KeepsStatus(s, steps, i)
      {
        ReachableIsValid(world, s);
        TerminalIsSettled(s, i);
        TerminalStays(s, steps, i);
      }
    } else if !world.stdout {
      DoneCanBeLeft(world);
      assert Reachable(world, Reported(world)) && !KeepsStatus(Reported(world), [PrintFails(0)], 0);
    } else {
      FailedCanBeLeft(world);
      assert Reachable(world, TakenAway(world)) && !KeepsStatus(TakenAway(world), [Report(0, FOUND)], 0);
    }
  }

  lemma {:induction false} WorldStays(s: State, steps: seq<Step>)
    requires CanRun(s, steps)
    ensures Exec(s, steps).world == s.world
    decreases |steps|
  {
    if steps != [] {
      WorldStays(Apply(s, steps[0]), steps[1..]);
    }
  }

  // Two runs: a job is added, claimed and marked running.  In the first it is reported done and the line
  // about it cannot be printed; in the second its lease ends, a reclaim fails it, and it is reported done.

  function FirstJob(limit: nat, status: Status, attempts: nat, lease: nat, owner: nat): Job {
    Job("job", status, attempts, limit, lease, owner, 50, 0)
  }

  function WithJob(w: World, j: Job, inflight: map<nat, Phase>): State { State([j], [0], true, inflight, w) }

  function AddedJob(w: World, limit: nat): State { WithJob(w, FirstJob(limit, Pending, 0, 0, 0), map[]) }

  function ClaimedJob(w: World, limit: nat): State { WithJob(w, FirstJob(limit, Claimed, 1, 9, 1), map[0 := Handed]) }

  function MarkedJob(w: World, limit: nat): State { WithJob(w, FirstJob(limit, Running, 1, 9, 1), map[0 := Working]) }

  function Reported(w: World): State { WithJob(w, FirstJob(3, Done, 1, 9, 1), map[0 := Logging(false)]) }

  function TakenAway(w: World): State { WithJob(w, FirstJob(1, Failed, 1, 9, 1), map[0 := Working]) }

  predicate Lives(pid: nat) { true }

  const FOUND := Outcome(true, Some("found it"))

  function StepsTo(limit: nat, last: Step): seq<Step> {
    [Start, Add("job", limit, 50, 0), Claim(1, {0}, 9, 1), Mark(0, 9, 1), last]
  }

  lemma StepBack(s: State, t: State, steps: seq<Step>, k: nat, end: State)
    requires k < |steps| && Enabled(s, steps[k]) && Apply(s, steps[k]) == t
    requires CanRun(t, steps[k + 1..]) && Exec(t, steps[k + 1..]) == end
    ensures CanRun(s, steps[k..]) && Exec(s, steps[k..]) == end
  {
    assert steps[k..][1..] == steps[k + 1..];
  }

  lemma AddedStep(w: World, limit: nat)
    ensures
      var started := Init(w).(alive := true);
      Enabled(started, Add("job", limit, 50, 0)) && Apply(started, Add("job", limit, 50, 0)) == AddedJob(w, limit)
  {
  }

  lemma ClaimedStep(w: World, limit: nat)
    ensures Enabled(AddedJob(w, limit), Claim(1, {0}, 9, 1))
    ensures Apply(AddedJob(w, limit), Claim(1, {0}, 9, 1)) == ClaimedJob(w, limit)
  {
    assert PendingIn(AddedJob(w, limit).queue) == {0};
    assert ClaimAll(AddedJob(w, limit).queue, {0}, 9, 1) == ClaimedJob(w, limit).queue;
  }

  lemma MarkedStep(w: World, limit: nat)
    ensures Enabled(ClaimedJob(w, limit), Mark(0, 9, 1))
    ensures Apply(ClaimedJob(w, limit), Mark(0, 9, 1)) == MarkedJob(w, limit)
  {
    assert ClaimedJob(w, limit).queue[0 := FirstJob(limit, Running, 1, 9, 1)] == MarkedJob(w, limit).queue;
  }

  lemma RunTo(w: World, limit: nat, last: Step, end: State)
    requires Enabled(MarkedJob(w, limit), last) && Apply(MarkedJob(w, limit), last) == end
    ensures CanRun(Init(w), StepsTo(limit, last)) && Exec(Init(w), StepsTo(limit, last)) == end
  {
    var steps, started := StepsTo(limit, last), Init(w).(alive := true);
    AddedStep(w, limit);
    ClaimedStep(w, limit);
    MarkedStep(w, limit);
    StepBack(MarkedJob(w, limit), end, steps, 4, end);
    StepBack(ClaimedJob(w, limit), MarkedJob(w, limit), steps, 3, end);
    StepBack(AddedJob(w, limit), ClaimedJob(w, limit), steps, 2, end);
    StepBack(started, AddedJob(w, limit), steps, 1, end);
    StepBack(Init(w), started, steps, 0, end);
    assert steps[0..] == steps;
  }

  lemma OneStep(s: State, step: Step)
    requires Enabled(s, step)
    ensures CanRun(s, [step]) && Exec(s, [step]) == Apply(s, step)
  {
    assert [step][1..] == [];
    assert CanRun(Apply(s, step), []);
  }

  /** A run with a line that cannot be printed, in which a job that is done goes back to the queue. */
  lemma DoneCanBeLeft(w: World)
    requires !w.stdout
    ensures Reachable(w, Reported(w)) && CanRun(Reported(w), [PrintFails(0)])
    ensures
      var before, after := Reported(w), Exec(Reported(w), [PrintFails(0)]);
      |after.queue| == |before.queue| == 1 && before.queue[0].status == Done && after.queue[0].status == Pending
  {
    assert MarkedJob(w, 3).queue[0 := FirstJob(3, Done, 1, 9, 1)] == Reported(w).queue;
    RunTo(w, 3, Report(0, FOUND), Reported(w));
    OneStep(Reported(w), PrintFails(0));
  }

  /** A run with a reclaim from outside, in which a job that has failed is done after all. */
  lemma FailedCanBeLeft(w: World)
    requires w.overdue
    ensures Reachable(w, TakenAway(w)) && CanRun(TakenAway(w), [Report(0, FOUND)])
    ensures
      var before, after := TakenAway(w), Exec(TakenAway(w), [Report(0, FOUND)]);
      |after.queue| == |before.queue| == 1 && before.queue[0].status == Failed && after.queue[0].status == Done
  {
    var reclaim := Reclaim(10, Lives);
    assert Apply(MarkedJob(w, 1), reclaim).queue == TakenAway(w).queue;
    RunTo(w, 1, reclaim, TakenAway(w));
    OneStep(TakenAway(w), Report(0, FOUND));
  }
}
