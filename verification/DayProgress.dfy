/** Cycle after cycle the day runner gets through the whole queue. */
module DayProgress {
  import opened Collections
  import opened DayRunner
  import opened DayRuns
  import opened WorkerReports

  /** Attempts that the jobs may still use. */
  function Left(q: seq<Job>, stops: seq<nat>): int
    requires |q| == |stops|
  {
    if q == [] then 0
    else
      var n := |q| - 1;
      Left(q[..n], stops[..n]) + (Limit(q[n]) + stops[n] - q[n].attempts)
  }

  lemma {:induction false} LeftNonNegative(q: seq<Job>, stops: seq<nat>)
    requires |q| == |stops| && forall i :: 0 <= i < |q| ==> WithinLimit(q[i], stops[i])
    ensures Left(q, stops) >= 0
  {
    if q != [] {
      LeftNonNegative(q[..|q| - 1], stops[..|q| - 1]);
      assert WithinLimit(q[|q| - 1], stops[|q| - 1]);
    }
  }

  /** More attempts used, fewer left. */
  lemma {:induction false} LeftDrops(q: seq<Job>, q': seq<Job>, stops: seq<nat>)
    requires |q| == |q'| == |stops|
    requires forall i :: 0 <= i < |q| ==> Limit(q'[i]) == Limit(q[i]) && q[i].attempts <= q'[i].attempts
    ensures Left(q', stops) <= Left(q, stops)
    ensures (exists i :: 0 <= i < |q| && q[i].attempts < q'[i].attempts) ==> Left(q', stops) < Left(q, stops)
  {
    if q != [] {
      var n := |q| - 1;
      LeftDrops(q[..n], q'[..n], stops[..n]);
      if i :| 0 <= i < |q| && q[i].attempts < q'[i].attempts && i < n {
        assert q[..n][i].attempts < q'[..n][i].attempts;
      }
    }
  }

  predicate NoneLeased(q: seq<Job>) { forall i :: 0 <= i < |q| ==> !Leased(q[i]) }

  predicate AllTerminal(q: seq<Job>) { forall i :: 0 <= i < |q| ==> Terminal(q[i]) }

  /** No worker thread is at work: what the runner looks like between two cycles. */
  predicate BetweenCycles(s: State) { s.alive && s.inflight == map[] }

  /** The queues agree but for statuses, leases and owners. */
  predicate SameAttempts(q: seq<Job>, q': seq<Job>) {
    |q| == |q'| && forall i :: 0 <= i < |q| ==> q'[i].attempts == q[i].attempts && SameJob(q[i], q'[i])
  }

  predicate SameJob(j: Job, j': Job) { Limit(j') == Limit(j) && j'.id == j.id }

  // ---------- the worker threads of one cycle ----------

  /** The steps of the thread of job `i`. */
  predicate IsThreadStep(step: Step, i: nat) {
    && (step.Mark? || step.Report? || step.Raise? || step.Return? || step.TripOnNull? || step.PrintFails?
        || step.Abandon?)
    && step.i == i
  }

  /** A thread's next step.  Whether the thread dies outside the code that catches its exceptions
      (before or after it has marked its job) is up to `dies`, the outcome of its job to nobody. */
  method NextStep(s: State, i: nat, dies: nat -> bool, until: nat, pid: nat) returns (step: Step)
    requires Inv(s) && i in s.inflight && (s.inflight[i].Logging? ==> !dies(i))
    ensures Enabled(s, step) && IsThreadStep(step, i)
    ensures step.Abandon? ==> dies(i)
    ensures s.inflight[i].Handed? ==> step.Abandon? || step == Mark(i, until, pid)
    ensures s.inflight[i].Working? ==> (step.Abandon? <==> dies(i))
  {
    var chance: bool, text: string, ok: bool := *, *, *;
    match s.inflight[i] {
      case Handed => step := if dies(i) && chance then Abandon(i) else Mark(i, until, pid);
      case Working =>
        if dies(i) {
          step := Abandon(i);
        } else if chance {
          step := Raise(i);
        } else if ok && text != "" {
          step := Report(i, Outcome(true, Some(text)));
        } else {
          step := Report(i, Outcome(false, if ok then None else Some(text)));
        }
      case Logging(noResult) =>
        step := if chance && !s.world.stdout then PrintFails(i) else if noResult then TripOnNull(i) else Return(i);
    }
  }

  /** A thread touches its own job and nothing else, and uses no attempt. */
  lemma ThreadStepIsLocal(s: State, step: Step, i: nat)
    requires Inv(s) && Enabled(s, step) && IsThreadStep(step, i) && i < |s.queue|
    ensures
      var t := Apply(s, step);
      && |t.queue| == |s.queue| && t.stops == s.stops && t.alive == s.alive && t.world == s.world
      && t.queue[i].attempts == s.queue[i].attempts && SameJob(s.queue[i], t.queue[i])
      && (forall k :: 0 <= k < |s.queue| && k != i ==> t.queue[k] == s.queue[k])
  {
  }

  predicate MovedOn(before: map<nat, Phase>, after: map<nat, Phase>, i: nat) {
    && i in before
    && (after == before - {i}
        || (before[i].Handed? && after == before[i := Working])
        || (before[i].Working? && exists l :: after == before[i := Logging(l)]))
  }

  lemma ThreadMovesOn(s: State, step: Step, i: nat)
    requires Inv(s) && i in s.inflight && Enabled(s, step) && IsThreadStep(step, i)
    ensures MovedOn(s.inflight, Apply(s, step).inflight, i)
  {
    if step.Report? {
      assert Apply(s, step).inflight == s.inflight[i := Logging(step.outcome.result.None?)];
    }
  }

  function PhaseOf(m: map<nat, Phase>, p: Phase): set<nat> { set i | i in m && m[i] == p }

  lemma PhaseOfMoved(before: map<nat, Phase>, after: map<nat, Phase>, i: nat)
    requires MovedOn(before, after, i)
    ensures PhaseOf(after, Handed) == PhaseOf(before, Handed) - {i}
    ensures !before[i].Handed? ==> PhaseOf(after, Working) == PhaseOf(before, Working) - {i}
    ensures before[i].Logging? ==> after.Keys == before.Keys - {i}
  {
  }

  /** Threads only move on, from handed to working to logging, and out. */
  lemma PhasesAdvance(before: map<nat, Phase>, after: map<nat, Phase>, i: nat)
    requires MovedOn(before, after, i)
    ensures
      || |PhaseOf(after, Handed)| < |PhaseOf(before, Handed)|
      || (|PhaseOf(after, Handed)| == |PhaseOf(before, Handed)|
          && (|PhaseOf(after, Working)| < |PhaseOf(before, Working)|
              || (|PhaseOf(after, Working)| == |PhaseOf(before, Working)| && |after.Keys| < |before.Keys|)))
  {
    PhaseOfMoved(before, after, i);
    match before[i]
    case Handed => assert i in PhaseOf(before, Handed);
    case Working =>
      assert i in PhaseOf(before, Working) && PhaseOf(after, Handed) == PhaseOf(before, Handed);
    case Logging(_) =>
      assert i in before.Keys && PhaseOf(after, Handed) == PhaseOf(before, Handed);
      assert PhaseOf(after, Working) == PhaseOf(before, Working);
  }

  /** How far the thread of job `i` has come: once it is gone, the job is leased just if it died. */
  predicate ThreadOk(j: Job, inflight: map<nat, Phase>, i: nat, dies: nat -> bool, until: nat) {
    && (Leased(j) ==> j.lease == until)
    && (i !in inflight ==> (Leased(j) <==> dies(i)))
    && (i in inflight && inflight[i].Logging? ==> !dies(i))
    && (i in inflight && !inflight[i].Logging? ==> Leased(j))
  }

  /** Since `s` only the threads of `s` have done anything. */
  ghost predicate Since(s: State, t: State, dies: nat -> bool, until: nat) {
    && Inv(t) && t.stops == s.stops && t.alive == s.alive && t.world == s.world
    && SameAttempts(s.queue, t.queue) && t.inflight.Keys <= s.inflight.Keys
    && forall i :: 0 <= i < |t.queue| ==>
         if i in s.inflight then ThreadOk(t.queue[i], t.inflight, i, dies, until) else t.queue[i] == s.queue[i]
  }

  lemma ThreadStaysOk(s: State, step: Step, i: nat, dies: nat -> bool, until: nat)
    requires Inv(s) && i in s.inflight && Enabled(s, step) && IsThreadStep(step, i) && i < |s.queue|
    requires ThreadOk(s.queue[i], s.inflight, i, dies, until)
    requires step.Abandon? ==> dies(i)
    requires s.inflight[i].Handed? ==> step.Abandon? || (step.Mark? && step.until == until)
    requires s.inflight[i].Working? ==> (step.Abandon? <==> dies(i))
    ensures ThreadOk(Apply(s, step).queue[i], Apply(s, step).inflight, i, dies, until)
  {
    assert PhaseFits(s.queue[i], s.inflight[i]);
  }

  lemma SinceStep(s: State, t: State, u: State, i: nat, dies: nat -> bool, until: nat)
    requires Since(s, t, dies, until) && i in t.inflight && i < |t.queue|
    requires Inv(u) && |u.queue| == |t.queue| && u.stops == t.stops && u.alive == t.alive && u.world == t.world
    requires u.queue[i].attempts == t.queue[i].attempts && SameJob(t.queue[i], u.queue[i])
    requires forall k :: 0 <= k < |t.queue| && k != i ==> u.queue[k] == t.queue[k]
    requires MovedOn(t.inflight, u.inflight, i) && ThreadOk(u.queue[i], u.inflight, i, dies, until)
    ensures Since(s, u, dies, until)
  {
    forall k: nat | k < |u.queue| && k != i
      ensures if k in s.inflight then ThreadOk(u.queue[k], u.inflight, k, dies, until) else u.queue[k] == s.queue[k]
    {
      assert k in u.inflight <==> k in t.inflight;
      assert k in u.inflight ==> u.inflight[k] == t.inflight[k];
    }
  }

  method ThreadTurn(ghost s: State, t: State, i: nat, dies: nat -> bool, until: nat, pid: nat) returns (u: State)
    requires Since(s, t, dies, until) && i in t.inflight
    ensures Since(s, u, dies, until) && MovedOn(t.inflight, u.inflight, i)
  {
    assert i < |t.queue| && ThreadOk(t.queue[i], t.inflight, i, dies, until);
    var step := NextStep(t, i, dies, until, pid);
    InvStep(t, step);
    ThreadStepIsLocal(t, step, i);
    ThreadMovesOn(t, step, i);
    ThreadStaysOk(t, step, i, dies, until);
    u := Apply(t, step);
    SinceStep(s, t, u, i, dies, until);
  }

  /** The threads take their steps in any order until all of them are through.  Then the jobs that
      were handed out and are still leased are exactly those whose threads died. */
  method WorkToTheEnd(s: State, dies: nat -> bool, until: nat, pid: nat) returns (t: State)
    requires Since(s, s, dies, until)
    ensures Since(s, t, dies, until) && t.inflight == map[]
    ensures forall i :: i in s.inflight && i < |t.queue| ==> (Leased(t.queue[i]) <==> dies(i))
  {
    t := s;
    while t.inflight != map[]
      invariant Since(s, t, dies, until)
      decreases |PhaseOf(t.inflight, Handed)|, |PhaseOf(t.inflight, Working)|, |t.inflight.Keys|
    {
      assert t.inflight.Keys != {};
      var i :| i in t.inflight.Keys;
      ghost var before := t.inflight;
      t := ThreadTurn(s, t, i, dies, until, pid);
      PhasesAdvance(before, t.inflight, i);
    }
  }

  // ---------- one cycle ----------

  /** Every job still leased when a cycle starts was left behind: its lease is over or its owner is gone. */
  predicate LeftBehind(q: seq<Job>, now: nat, pidAlive: nat -> bool) {
    forall i :: 0 <= i < |q| && Leased(q[i]) ==> Stale(q[i], now, pidAlive)
  }

  function Reclaimed(q: seq<Job>, now: nat, pidAlive: nat -> bool): seq<Job> {
    MapAll(q, j => ReclaimOne(j, now, pidAlive))
  }

  /** One cycle without crash, stop or add, from any queue.  It is idle exactly if nothing is pending
      once stale jobs are reclaimed.  Otherwise it claims the first jobs in claim order and uses up
      an attempt.  Of the claimed jobs exactly those whose threads died are leased afterwards; the
      others in the queue are as the reclaim left them. */
  method RunCycle(s: State, parallel: int, now: nat, pidAlive: nat -> bool, dies: nat -> bool, until: nat, pid: nat)
    returns (t: State, claimed: set<nat>)
    requires Inv(s) && BetweenCycles(s)
    ensures Inv(t) && BetweenCycles(t) && Ids(t.queue) == Ids(s.queue) && t.stops == s.stops && t.world == s.world
    ensures IsTop(Reclaimed(s.queue, now, pidAlive), if parallel > 0 then parallel else 0, claimed)
    ensures claimed == {} <==> parallel <= 0 || PendingIn(Reclaimed(s.queue, now, pidAlive)) == {}
    ensures claimed == {} ==> t.queue == Reclaimed(s.queue, now, pidAlive)
    ensures if claimed == {} then Left(t.queue, t.stops) == Left(s.queue, s.stops)
            else Left(t.queue, t.stops) < Left(s.queue, s.stops)
    ensures LeasedJust(Reclaimed(s.queue, now, pidAlive), t.queue, claimed, dies, until)
  {
    var reclaimed, _ := ReclaimStale(s.queue, now, pidAlive);
    var r := Apply(s, Reclaim(now, pidAlive));
    InvStep(s, Reclaim(now, pidAlive));
    SameLeft(s.queue, r.queue, s.stops);
    assert r.queue == reclaimed;
    t, claimed := ClaimAndWork(r, parallel, dies, until, pid);
  }

  /** The cycle after the reclaim. */
  method ClaimAndWork(r: State, parallel: int, dies: nat -> bool, until: nat, pid: nat)
    returns (t: State, claimed: set<nat>)
    requires Inv(r) && BetweenCycles(r)
    ensures Inv(t) && BetweenCycles(t) && Ids(t.queue) == Ids(r.queue) && t.stops == r.stops && t.world == r.world
    ensures IsTop(r.queue, if parallel > 0 then parallel else 0, claimed)
    ensures claimed == {} <==> parallel <= 0 || PendingIn(r.queue) == {}
    ensures claimed == {} ==> t == r
    ensures claimed != {} ==> Left(t.queue, t.stops) < Left(r.queue, r.stops)
    ensures LeasedJust(r.queue, t.queue, claimed, dies, until)
  {
    var items;
    items, claimed := ClaimJobs(r.queue, parallel, until, pid);
    if claimed == {} {
      return r, claimed;
    }
    t := WorkClaimed(r, parallel, claimed, dies, until, pid);
  }

  method WorkClaimed(r: State, n: nat, claimed: set<nat>, dies: nat -> bool, until: nat, pid: nat) returns (t: State)
    requires Inv(r) && BetweenCycles(r) && IsTop(r.queue, n, claimed) && claimed != {}
    ensures Inv(t) && BetweenCycles(t) && Ids(t.queue) == Ids(r.queue) && t.stops == r.stops && t.world == r.world
    ensures Left(t.queue, t.stops) < Left(r.queue, r.stops)
    ensures LeasedJust(r.queue, t.queue, claimed, dies, until)
  {
    ClaimStarts(r, n, claimed, dies, until, pid);
    var mid := Apply(r, Claim(n, claimed, until, pid));
    t := WorkToTheEnd(mid, dies, until, pid);
    LeasedAfterwards(r, mid, t, claimed, dies, until, pid);
    AttemptsDrop(r.queue, mid.queue, t.queue, r.stops, claimed, until, pid);
  }

  lemma AttemptsDrop(q: seq<Job>, mid: seq<Job>, q': seq<Job>, stops: seq<nat>, chosen: set<nat>, until: nat, pid: nat)
    requires mid == ClaimAll(q, chosen, until, pid) && SameAttempts(mid, q') && |stops| == |q|
    requires chosen != {} && forall i :: i in chosen ==> i < |q|
    ensures |q'| == |q| && Ids(q') == Ids(q) && Left(q', stops) < Left(q, stops)
  {
    ClaimUsesAttempts(q, mid, q', chosen, until, pid);
    LeftDrops(q, q', stops);
  }

  lemma LeasedAfterwards(r: State, mid: State, t: State, claimed: set<nat>, dies: nat -> bool, until: nat, pid: nat)
    requires mid.queue == ClaimAll(r.queue, claimed, until, pid) && mid.inflight.Keys == claimed
    requires Since(mid, t, dies, until) && t.inflight == map[]
    ensures LeasedJust(r.queue, t.queue, claimed, dies, until)
  {
    forall i: nat | i < |t.queue|
      ensures LeasedIff(r.queue[i], t.queue[i], i in claimed, dies(i), until)
    {
      assert i in claimed <==> i in mid.inflight;
    }
  }

  /** A claimed job is leased afterwards if its thread died, and then until `until`; any other job is as it was. */
  predicate LeasedIff(before: Job, after: Job, claimed: bool, died: bool, until: nat) {
    if claimed then (Leased(after) <==> died) && (died ==> after.lease == until) else after == before
  }

  predicate LeasedJust(q: seq<Job>, q': seq<Job>, claimed: set<nat>, dies: nat -> bool, until: nat) {
    |q| == |q'| && forall i: nat :: i < |q| ==> LeasedIff(q[i], q'[i], i in claimed, dies(i), until)
  }

  lemma ClaimStarts(s: State, n: nat, chosen: set<nat>, dies: nat -> bool, until: nat, pid: nat)
    requires Inv(s) && BetweenCycles(s) && IsTop(s.queue, n, chosen)
    ensures forall i :: i in chosen ==> i < |s.queue|
    ensures
      var t := Apply(s, Claim(n, chosen, until, pid));
      && Since(t, t, dies, until) && t.inflight.Keys == chosen
      && t.stops == s.stops && t.alive && t.world == s.world
      && t.queue == ClaimAll(s.queue, chosen, until, pid)
  {
    InvStep(s, Claim(n, chosen, until, pid));
    ChosenArePending(s.queue, n, chosen);
  }

  lemma SameLeft(q: seq<Job>, q': seq<Job>, stops: seq<nat>)
    requires SameAttempts(q, q') && |stops| == |q|
    ensures Left(q', stops) == Left(q, stops) && Ids(q') == Ids(q)
  {
    LeftDrops(q, q', stops);
    LeftDrops(q', q, stops);
  }

  lemma ClaimUsesAttempts(q: seq<Job>, mid: seq<Job>, q': seq<Job>, chosen: set<nat>, until: nat, pid: nat)
    requires mid == ClaimAll(q, chosen, until, pid) && SameAttempts(mid, q')
    requires chosen != {} && forall i :: i in chosen ==> i < |q|
    ensures |q| == |q'| && Ids(q') == Ids(q)
    ensures forall i :: 0 <= i < |q| ==> Limit(q'[i]) == Limit(q[i]) && q[i].attempts <= q'[i].attempts
    ensures exists i :: 0 <= i < |q| && q[i].attempts < q'[i].attempts
  {
    var i :| i in chosen;
    assert q[i].attempts < q'[i].attempts;
  }

  // ---------- the whole queue ----------

  /** A pending job has an attempt left. */
  lemma {:induction false} PendingHasAttemptsLeft(q: seq<Job>, stops: seq<nat>, i: nat)
    requires |q| == |stops| && (forall k :: 0 <= k < |q| ==> WithinLimit(q[k], stops[k]))
    requires i < |q| && q[i].status.Pending?
    ensures Left(q, stops) > 0
  {
    var n := |q| - 1;
    LeftNonNegative(q[..n], stops[..n]);
    assert WithinLimit(q[n], stops[n]);
    if i < n {
      PendingHasAttemptsLeft(q[..n], stops[..n], i);
    }
  }

  lemma NonePending(s: State)
    requires Inv(s) && Left(s.queue, s.stops) <= 0
    ensures PendingIn(s.queue) == {}
  {
    if i :| i in PendingIn(s.queue) {
      PendingHasAttemptsLeft(s.queue, s.stops, i);
    }
  }

  lemma ThroughIff(q: seq<Job>)
    ensures AllTerminal(q) <==> NoneLeased(q) && PendingIn(q) == {}
  {
    if NoneLeased(q) && PendingIn(q) == {} {
      forall i: nat | i < |q| ensures Terminal(q[i]) {
        assert i !in PendingIn(q);
      }
    }
  }

  /** An idle cycle that finds only left-behind jobs leased leaves every job done or failed. */
  lemma IdleIsThrough(q: seq<Job>, now: nat, pidAlive: nat -> bool)
    requires LeftBehind(q, now, pidAlive) && PendingIn(Reclaimed(q, now, pidAlive)) == {}
    ensures AllTerminal(Reclaimed(q, now, pidAlive))
  {
    ThroughIff(Reclaimed(q, now, pidAlive));
  }

  lemma ThroughStaysThrough(q: seq<Job>, now: nat, pidAlive: nat -> bool)
    requires AllTerminal(q)
    ensures Reclaimed(q, now, pidAlive) == q && PendingIn(q) == {} && LeftBehind(q, now, pidAlive)
  {
    ThroughIff(q);
  }

  /** What the clock, the other processes and the threads do in each cycle, and until when the cycle
      leases its jobs. */
  datatype Course = Course(now: nat -> nat, pidAlive: nat -> nat -> bool, dies: nat -> nat -> bool, until: nat -> nat)

  predicate StaleIn(j: Job, c: nat, w: Course) { Stale(j, w.now(c), w.pidAlive(c)) }

  ghost predicate SomeDies(w: Course, c: nat) { exists i: nat :: w.dies(c)(i) }

  ghost predicate NoneDies(w: Course) { forall c: nat :: !SomeDies(w, c) }

  /** A job that was leased at the start has been found stale, in cycle `c` or before. */
  ghost predicate StaleBy(j: Job, c: nat, w: Course) { exists b: nat :: b <= c && StaleIn(j, b, w) }

  /** The leases of cycle `d` were over in a later cycle, `c` or before. */
  ghost predicate OverBy(d: nat, c: nat, w: Course) { exists b: nat :: d < b <= c && 0 < w.until(d) < w.now(b) }

  /** By cycle `c`, what was leased at the start was stale once, and the leases of the cycles in which
      a thread died were over once: nothing is leased any more but what is stale now. */
  ghost predicate Clear(start: seq<Job>, c: nat, w: Course) {
    && (forall i: nat :: i < |start| && Leased(start[i]) ==> StaleBy(start[i], c, w))
    && (forall d: nat :: d < c && SomeDies(w, d) ==> OverBy(d, c, w))
  }

  ghost function CountClear(start: seq<Job>, cycles: nat, w: Course): nat {
    if cycles == 0 then 0 else CountClear(start, cycles - 1, w) + if Clear(start, cycles - 1, w) then 1 else 0
  }

  /** Leased since the start, and never stale. */
  ghost predicate FromStart(before: Job, j: Job, c: nat, w: Course) {
    j == before && forall b: nat :: b < c ==> !StaleIn(j, b, w)
  }

  /** Leased in cycle `d`, in which its thread died, and never stale since. */
  ghost predicate FromDead(j: Job, i: nat, d: nat, c: nat, w: Course) {
    d < c && w.dies(d)(i) && j.lease == w.until(d) && forall b: nat :: d < b < c ==> !StaleIn(j, b, w)
  }

  /** Where the leases come from that are there when cycle `c` starts. */
  ghost predicate Explained(start: seq<Job>, q: seq<Job>, c: nat, w: Course) {
    && |q| == |start|
    && forall i: nat :: i < |q| && Leased(q[i]) ==>
         FromStart(start[i], q[i], c, w) || DiedEarlier(q[i], i, c, w)
  }

  ghost predicate DiedEarlier(j: Job, i: nat, c: nat, w: Course) { exists d: nat :: FromDead(j, i, d, c, w) }

  lemma ClearMeansLeftBehind(start: seq<Job>, q: seq<Job>, c: nat, w: Course)
    requires Explained(start, q, c, w) && Clear(start, c, w)
    ensures LeftBehind(q, w.now(c), w.pidAlive(c))
  {
    forall i: nat | i < |q| && Leased(q[i]) ensures StaleIn(q[i], c, w) {
      if FromStart(start[i], q[i], c, w) {
        var b: nat :| b <= c && StaleIn(start[i], b, w);
      } else {
        var d: nat :| FromDead(q[i], i, d, c, w);
        assert SomeDies(w, d);
        var b: nat :| d < b <= c && 0 < w.until(d) < w.now(b);
        assert StaleIn(q[i], b, w);
      }
    }
  }

  /** What a cycle did to the queue, as `RunCycle` states it. */
  ghost predicate Cycled(q: seq<Job>, q': seq<Job>, c: nat, w: Course, claimed: set<nat>) {
    LeasedJust(Reclaimed(q, w.now(c), w.pidAlive(c)), q', claimed, w.dies(c), w.until(c))
  }

  lemma LeasedAfterCycle(q: seq<Job>, q': seq<Job>, c: nat, w: Course, claimed: set<nat>, i: nat)
    requires Cycled(q, q', c, w, claimed) && i < |q'| && Leased(q'[i])
    ensures |q'| == |q|
    ensures if i in claimed then w.dies(c)(i) && q'[i].lease == w.until(c)
            else q'[i] == q[i] && !StaleIn(q[i], c, w)
  {
    assert LeasedIff(Reclaimed(q, w.now(c), w.pidAlive(c))[i], q'[i], i in claimed, w.dies(c)(i), w.until(c));
  }

  lemma ExplainedStep(start: seq<Job>, q: seq<Job>, q': seq<Job>, c: nat, w: Course, claimed: set<nat>)
    requires Explained(start, q, c, w) && Cycled(q, q', c, w, claimed)
    ensures Explained(start, q', c + 1, w)
  {
    forall i: nat | i < |q'| && Leased(q'[i])
      ensures FromStart(start[i], q'[i], c + 1, w) || DiedEarlier(q'[i], i, c + 1, w)
    {
      LeasedAfterCycle(q, q', c, w, claimed, i);
      if i in claimed {
        assert FromDead(q'[i], i, c, c + 1, w);
      } else if d: nat :| FromDead(q[i], i, d, c, w) {
        assert FromDead(q'[i], i, d, c + 1, w);
      }
    }
  }

  /** Every job is through, or `n` attempts have been used up. */
  predicate Advances(s: State, t: State, n: nat)
    requires |s.queue| == |s.stops| && |t.queue| == |t.stops|
  {
    AllTerminal(t.queue) || Left(t.queue, t.stops) <= Left(s.queue, s.stops) - n
  }

  lemma CycleAdvances(s: State, t: State, u: State, n: nat, c: nat, w: Course, claimed: set<nat>)
    requires Inv(s) && Inv(t) && Inv(u) && Advances(s, t, n)
    requires claimed <= PendingIn(Reclaimed(t.queue, w.now(c), w.pidAlive(c)))
    requires claimed == {} ==> PendingIn(Reclaimed(t.queue, w.now(c), w.pidAlive(c))) == {}
    requires claimed == {} ==> u.queue == Reclaimed(t.queue, w.now(c), w.pidAlive(c))
    requires Left(u.queue, u.stops) <= Left(t.queue, t.stops) - if claimed == {} then 0 else 1
    ensures Advances(s, u, n)
    ensures LeftBehind(t.queue, w.now(c), w.pidAlive(c)) ==> Advances(s, u, n + 1)
  {
    if AllTerminal(t.queue) {
      ThroughStaysThrough(t.queue, w.now(c), w.pidAlive(c));
    } else if claimed == {} && LeftBehind(t.queue, w.now(c), w.pidAlive(c)) {
      IdleIsThrough(t.queue, w.now(c), w.pidAlive(c));
    }
  }

  lemma NoneLeasedAfter(q: seq<Job>, q': seq<Job>, c: nat, w: Course, claimed: set<nat>)
    requires Cycled(q, q', c, w, claimed) && !SomeDies(w, c)
    requires NoneLeased(q) || LeftBehind(q, w.now(c), w.pidAlive(c))
    ensures NoneLeased(q')
  {
    forall i: nat | i < |q'| ensures !Leased(q'[i]) {
      if Leased(q'[i]) {
        LeasedAfterCycle(q, q', c, w, claimed, i);
      }
    }
  }

  /** Nothing is to do for now: every job is done, failed, or leased by a lease that is not over. */
  predicate NothingToDo(q: seq<Job>, now: nat, pidAlive: nat -> bool) {
    forall i :: 0 <= i < |q| ==> Terminal(q[i]) || (Leased(q[i]) && !Stale(q[i], now, pidAlive))
  }

  lemma IdleMeansNothingToDo(q: seq<Job>, now: nat, pidAlive: nat -> bool)
    requires PendingIn(Reclaimed(q, now, pidAlive)) == {}
    ensures NothingToDo(Reclaimed(q, now, pidAlive), now, pidAlive)
  {
    var r := Reclaimed(q, now, pidAlive);
    forall i: nat | i < |r| ensures Terminal(r[i]) || (Leased(r[i]) && !Stale(r[i], now, pidAlive)) {
      assert i !in PendingIn(r);
    }
  }

  /** After `c` cycles: the leases are accounted for, and every clear cycle has used up an attempt or
      found every job through. */
  ghost predicate OnTrack(s: State, t: State, c: nat, w: Course)
    requires |s.queue| == |s.stops| && |t.queue| == |t.stops|
  {
    && Explained(s.queue, t.queue, c, w) && Advances(s, t, CountClear(s.queue, c, w))
    && (NoneDies(w) && CountClear(s.queue, c, w) > 0 ==> NoneLeased(t.queue))
  }

  lemma OnTrackStep(s: State, t: State, u: State, c: nat, w: Course, claimed: set<nat>)
    requires Inv(s) && Inv(t) && Inv(u) && OnTrack(s, t, c, w) && Cycled(t.queue, u.queue, c, w, claimed)
    requires claimed <= PendingIn(Reclaimed(t.queue, w.now(c), w.pidAlive(c)))
    requires claimed == {} ==> PendingIn(Reclaimed(t.queue, w.now(c), w.pidAlive(c))) == {}
    requires claimed == {} ==> u.queue == Reclaimed(t.queue, w.now(c), w.pidAlive(c))
    requires Left(u.queue, u.stops) <= Left(t.queue, t.stops) - if claimed == {} then 0 else 1
    ensures OnTrack(s, u, c + 1, w)
  {
    ExplainedStep(s.queue, t.queue, u.queue, c, w, claimed);
    if Clear(s.queue, c, w) {
      ClearMeansLeftBehind(s.queue, t.queue, c, w);
    }
    CycleAdvances(s, t, u, CountClear(s.queue, c, w), c, w, claimed);
    if NoneDies(w) && CountClear(s.queue, c + 1, w) > 0 {
      NoneLeasedAfter(t.queue, u.queue, c, w, claimed);
    }
  }

  lemma OnTrackAtTheEnd(s: State, t: State, cycles: nat, w: Course)
    requires Inv(s) && Inv(t) && OnTrack(s, t, cycles, w)
    ensures Left(s.queue, s.stops) < CountClear(s.queue, cycles, w) ==> AllTerminal(t.queue)
    ensures (NoneDies(w) && CountClear(s.queue, cycles, w) > 0
             && Left(s.queue, s.stops) <= CountClear(s.queue, cycles, w)) ==> AllTerminal(t.queue)
  {
    LeftNonNegative(t.queue, t.stops);
    if Left(t.queue, t.stops) <= 0 {
      NonePending(t);
    }
    ThroughIff(t.queue);
  }

  /** What was leased at the start is stale in the first cycle, and leases of a cycle in which a thread
      dies are over in the next. */
  ghost predicate LeasesEnd(start: seq<Job>, w: Course) {
    && LeftBehind(start, w.now(0), w.pidAlive(0))
    && forall c: nat :: SomeDies(w, c) ==> 0 < w.until(c) < w.now(c + 1)
  }

  /** Then, and so with nothing leased at the start and no dying thread, every cycle is clear. */
  lemma {:induction false} AlwaysClear(start: seq<Job>, cycles: nat, w: Course)
    requires LeasesEnd(start, w)
    ensures CountClear(start, cycles, w) == cycles
  {
    if cycles > 0 {
      var c := cycles - 1;
      AlwaysClear(start, c, w);
      forall i: nat | i < |start| && Leased(start[i]) ensures StaleBy(start[i], c, w) {
        assert StaleIn(start[i], 0, w);
      }
      forall d: nat | d < c && SomeDies(w, d) ensures OverBy(d, c, w) {
        assert 0 < w.until(d) < w.now(d + 1);
      }
    }
  }

  /** A runner that is left alone gets through the whole queue, threads that die and a queue that a
      dead runner left behind included: at most as many cycles are not idle as the jobs have
      attempts left, and an idle one leaves nothing to do.  One clear cycle more than there are
      attempts left is enough for every job to be done or failed; without dying threads it need not
      even be one more, and if nothing is leased at the start every cycle is clear then. */
  method DayLoop(s: State, cycles: nat, parallel: int, w: Course, pid: nat)
    returns (t: State, busy: nat, idle: bool)
    requires Inv(s) && BetweenCycles(s)
    ensures Inv(t) && Ids(t.queue) == Ids(s.queue) && t.stops == s.stops
    ensures busy <= Left(s.queue, s.stops) - Left(t.queue, t.stops) && (cycles > 0 && busy == 0 ==> idle)
    ensures idle && parallel > 0 ==> cycles > 0 && NothingToDo(t.queue, w.now(cycles - 1), w.pidAlive(cycles - 1))
    ensures parallel > 0 && Left(s.queue, s.stops) < CountClear(s.queue, cycles, w) ==> AllTerminal(t.queue)
    ensures (parallel > 0 && NoneDies(w) && CountClear(s.queue, cycles, w) > 0
             && Left(s.queue, s.stops) <= CountClear(s.queue, cycles, w)) ==> AllTerminal(t.queue)
    ensures LeasesEnd(s.queue, w) ==> CountClear(s.queue, cycles, w) == cycles
  {
    t, busy, idle := s, 0, false;
    for c := 0 to cycles
      invariant Inv(t) && BetweenCycles(t) && Ids(t.queue) == Ids(s.queue) && t.stops == s.stops
      invariant busy <= Left(s.queue, s.stops) - Left(t.queue, t.stops) && (c > 0 && busy == 0 ==> idle)
      invariant idle && parallel > 0 ==> c > 0 && NothingToDo(t.queue, w.now(c - 1), w.pidAlive(c - 1))
      invariant parallel > 0 ==> OnTrack(s, t, c, w)
    {
      t, idle := CycleOn(s, t, c, parallel, w, pid);
      busy := if idle then busy else busy + 1;
    }
    if parallel > 0 {
      OnTrackAtTheEnd(s, t, cycles, w);
    }
    if LeasesEnd(s.queue, w) {
      AlwaysClear(s.queue, cycles, w);
    }
  }

  method CycleOn(ghost s: State, t: State, c: nat, parallel: int, w: Course, pid: nat) returns (u: State, idle: bool)
    requires Inv(s) && Inv(t) && BetweenCycles(t)
    requires parallel > 0 ==> OnTrack(s, t, c, w)
    ensures Inv(u) && BetweenCycles(u) && Ids(u.queue) == Ids(t.queue) && u.stops == t.stops
    ensures if idle then Left(u.queue, u.stops) == Left(t.queue, t.stops)
            else Left(u.queue, u.stops) < Left(t.queue, t.stops)
    ensures idle && parallel > 0 ==> NothingToDo(u.queue, w.now(c), w.pidAlive(c))
    ensures parallel > 0 ==> OnTrack(s, u, c + 1, w)
  {
    var claimed;
    u, claimed := RunCycle(t, parallel, w.now(c), w.pidAlive(c), w.dies(c), w.until(c), pid);
    idle := claimed == {};
    if parallel > 0 {
      if idle {
        IdleMeansNothingToDo(t.queue, w.now(c), w.pidAlive(c));
      }
      OnTrackStep(s, t, u, c, w, claimed);
    }
  }
}
