/**
 The lease-based day runner: a job queue from which one runner process claims, runs, retries and
 reclaims jobs, and which survives the runner's death and a user's stop.

 The queue operations are functions on the list of jobs; a run is any interleaving of their steps
 by the runner's worker threads, with process death possible between any two steps.  Job ids are
 unique, so a job is named by its position in the list.
 */
module DayRunner {
  import opened Collections

  datatype Status = Pending | Claimed | Running | Done | Failed

  datatype Job = Job(
    id: string,
    status: Status,
    attempts: nat,
    maxAttempts: nat,
    lease: nat,
    owner: nat,
    priority: int,
    ts: int)

  const DEFAULT_MAX_ATTEMPTS: nat := 3
  const DEFAULT_PRIORITY := 50

  /** The limit in force: zero stands for "not set". */
  function Limit(j: Job): (r: nat)
    ensures r > 0
  {
    if j.maxAttempts == 0 then DEFAULT_MAX_ATTEMPTS else j.maxAttempts
  }

  predicate Leased(j: Job) { j.status.Claimed? || j.status.Running? }

  predicate Terminal(j: Job) { j.status.Done? || j.status.Failed? }

  // ---------- what happens to one job ----------

  predicate Stale(j: Job, now: nat, alive: nat -> bool) {
    Leased(j) && ((j.lease != 0 && j.lease < now) || (j.owner != 0 && !alive(j.owner)))
  }

  function Unleased(j: Job): Job { j.(status := Pending, lease := 0, owner := 0) }

  /** Back to the queue, or failed when the attempts are used up: reclaim, a failed report, an exception. */
  function Retry(j: Job): Job { if j.attempts >= Limit(j) then j.(status := Failed) else Unleased(j) }

  function ReclaimOne(j: Job, now: nat, alive: nat -> bool): Job { if Stale(j, now, alive) then Retry(j) else j }

  function ClaimOne(j: Job, until: nat, pid: nat): Job {
    j.(status := Claimed, owner := pid, lease := until, attempts := j.attempts + 1)
  }

  function MarkRunning(j: Job, until: nat, pid: nat): Job { j.(status := Running, owner := pid, lease := until) }

  function Finish(j: Job, ok: bool): Job { if ok then j.(status := Done) else Retry(j) }

  function StopOne(j: Job): Job { if Leased(j) then Unleased(j) else j }

  /** The priority in force: zero stands for "not set". */
  function Rank(j: Job): int { if j.priority == 0 then DEFAULT_PRIORITY else j.priority }

  /** Claim order: higher priority, then earlier, then nearer the front. */
  predicate Before(q: seq<Job>, i: nat, k: nat)
    requires i < |q| && k < |q|
  {
    || Rank(q[i]) > Rank(q[k])
    || (Rank(q[i]) == Rank(q[k]) && (q[i].ts < q[k].ts || (q[i].ts == q[k].ts && i < k)))
  }

  function PendingIn(q: seq<Job>): set<nat> { set i: nat | i < |q| && q[i].status.Pending? }

  /** `chosen` are the first `n` pending jobs in claim order. */
  predicate IsTop(q: seq<Job>, n: nat, chosen: set<nat>) {
    && chosen <= PendingIn(q)
    && |chosen| == (if |PendingIn(q)| < n then |PendingIn(q)| else n)
    && forall i, k :: i in chosen && k in PendingIn(q) - chosen ==> Before(q, i, k)
  }

  function MapAll(q: seq<Job>, f: Job -> Job): (r: seq<Job>)
    ensures |r| == |q| && forall i :: 0 <= i < |q| ==> r[i] == f(q[i])
  {
    seq(|q|, i requires 0 <= i < |q| => f(q[i]))
  }

  function ClaimAll(q: seq<Job>, chosen: set<nat>, until: nat, pid: nat): (r: seq<Job>)
    ensures |r| == |q|
    ensures forall i :: 0 <= i < |q| ==> r[i] == if i in chosen then ClaimOne(q[i], until, pid) else q[i]
  {
    seq(|q|, i requires 0 <= i < |q| => if i in chosen then ClaimOne(q[i], until, pid) else q[i])
  }

  function Ids(q: seq<Job>): seq<string> { seq(|q|, i requires 0 <= i < |q| => q[i].id) }

  predicate UniqueIds(q: seq<Job>) { forall i, k :: 0 <= i < k < |q| ==> q[i].id != q[k].id }

  // ---------- what the operations do to each job ----------

  predicate InProgress(j: Job) { j.status == Claimed || j.status == Running }

  /** `j'` is `j` with another status, lease and owner, and everything else kept. */
  predicate Becomes(j: Job, j': Job, status: Status, lease: nat, owner: nat) {
    j' == Job(j.id, status, j.attempts, j.maxAttempts, lease, owner, j.priority, j.ts)
  }

  /** Three attempts, where the job does not say how many. */
  predicate HasAttemptsLeft(j: Job) { j.attempts < if j.maxAttempts > 0 then j.maxAttempts else 3 }

  /** A retried job is pending and nobody's while it has attempts left, and failed after. */
  predicate Retried(j: Job, j': Job) {
    if HasAttemptsLeft(j) then Becomes(j, j', Pending, 0, 0) else Becomes(j, j', Failed, j.lease, j.owner)
  }

  /** A job in progress is retried when its lease is over or its owner is dead; others stay. */
  predicate ReclaimedFrom(j: Job, j': Job, now: nat, alive: nat -> bool) {
    if InProgress(j) && (0 < j.lease < now || (j.owner > 0 && !alive(j.owner))) then Retried(j, j') else j' == j
  }

  /** A job in progress is put back; others stay. */
  predicate PutBack(j: Job, j': Job) { if InProgress(j) then Becomes(j, j', Pending, 0, 0) else j' == j }

  /** A claimed job is leased to the runner and uses an attempt. */
  predicate ClaimedFrom(j: Job, j': Job, until: nat, pid: nat) {
    j' == Job(j.id, Claimed, j.attempts + 1, j.maxAttempts, until, pid, j.priority, j.ts)
  }

  /** Higher priority first, where 0 means 50; then the earlier; then the one nearer the front. */
  predicate GoesFirst(a: Job, i: nat, b: Job, k: nat) {
    var p, r := if a.priority == 0 then 50 else a.priority, if b.priority == 0 then 50 else b.priority;
    p > r || (p == r && (a.ts < b.ts || (a.ts == b.ts && i < k)))
  }

  // ---------- the operations on the queue, as loops over its jobs ----------

  method ReclaimStale(q: seq<Job>, now: nat, alive: nat -> bool) returns (items: seq<Job>, reclaimed: seq<string>)
    ensures items == MapAll(q, j => ReclaimOne(j, now, alive))
    ensures |items| == |q| && forall i :: 0 <= i < |q| ==> ReclaimedFrom(q[i], items[i], now, alive)
    ensures forall id :: id in reclaimed <==> exists i :: 0 <= i < |q| && q[i].id == id && Stale(q[i], now, alive)
  {
    items, reclaimed := q, [];
    for i := 0 to |q|
      invariant |items| == |q|
      invariant forall k :: 0 <= k < |q| ==> items[k] == if k < i then ReclaimOne(q[k], now, alive) else q[k]
      invariant forall id :: id in reclaimed <==> exists k :: 0 <= k < i && q[k].id == id && Stale(q[k], now, alive)
    {
      var j := items[i];
      if Stale(j, now, alive) {
        items := items[i := Retry(j)];
        reclaimed := reclaimed + [j.id];
      }
    }
  }

  method DayStopRequeue(q: seq<Job>) returns (items: seq<Job>, reclaimed: seq<string>)
    ensures items == MapAll(q, StopOne)
    ensures |items| == |q| && forall i :: 0 <= i < |q| ==> PutBack(q[i], items[i])
    ensures forall id :: id in reclaimed <==> exists i :: 0 <= i < |q| && q[i].id == id && Leased(q[i])
  {
    items, reclaimed := q, [];
    for i := 0 to |q|
      invariant |items| == |q|
      invariant forall k :: 0 <= k < |q| ==> items[k] == if k < i then StopOne(q[k]) else q[k]
      invariant forall id :: id in reclaimed <==> exists k :: 0 <= k < i && q[k].id == id && Leased(q[k])
    {
      if Leased(items[i]) {
        reclaimed := reclaimed + [items[i].id];
        items := items[i := Unleased(items[i])];
      }
    }
  }

  /** The first pending job in claim order among those not yet chosen. */
  method NextToClaim(q: seq<Job>, chosen: set<nat>) returns (best: nat)
    requires PendingIn(q) - chosen != {}
    ensures best in PendingIn(q) - chosen
    ensures forall k :: k in PendingIn(q) - chosen && k != best ==> Before(q, best, k)
  {
    var i := 0;
    ghost var some :| some in PendingIn(q) - chosen;
    while q[i].status != Pending || i in chosen
      invariant 0 <= i <= some && forall k :: k in PendingIn(q) - chosen ==> i <= k
      decreases some - i
    {
      i := i + 1;
    }
    best := i;
    for k := i + 1 to |q|
      invariant best in PendingIn(q) - chosen
      invariant forall m :: m in PendingIn(q) - chosen && m < k && m != best ==> Before(q, best, m)
      invariant best < k
    {
      if q[k].status.Pending? && k !in chosen && Before(q, k, best) {
        best := k;
      }
    }
  }

  /** No job left over comes before a chosen one. */
  predicate TopSoFar(q: seq<Job>, chosen: set<nat>) {
    && chosen <= PendingIn(q)
    && forall i, k :: i in chosen && k in PendingIn(q) - chosen ==> Before(q, i, k)
  }

  lemma ChooseOneMore(q: seq<Job>, chosen: set<nat>, best: nat)
    requires TopSoFar(q, chosen) && best in PendingIn(q) - chosen
    requires forall k :: k in PendingIn(q) - chosen && k != best ==> Before(q, best, k)
    ensures TopSoFar(q, chosen + {best})
  {
  }

  lemma ClaimOneMore(q: seq<Job>, chosen: set<nat>, i: nat, until: nat, pid: nat)
    requires i < |q| && i !in chosen
    ensures ClaimAll(q, chosen, until, pid)[i := ClaimOne(ClaimAll(q, chosen, until, pid)[i], until, pid)]
         == ClaimAll(q, chosen + {i}, until, pid)
  {
  }

  /** Pending jobs are claimed, those that go first, and nothing else is touched. */
  predicate FirstAreClaimed(q: seq<Job>, items: seq<Job>, chosen: set<nat>, until: nat, pid: nat) {
    && |items| == |q|
    && (forall i: nat :: i < |q| ==>
          if i in chosen then q[i].status == Pending && ClaimedFrom(q[i], items[i], until, pid) else items[i] == q[i])
    && (forall i, k :: 0 <= i < |q| && 0 <= k < |q| && i in chosen && k !in chosen && q[k].status == Pending ==>
          GoesFirst(q[i], i, q[k], k))
  }

  lemma TopIsFirst(q: seq<Job>, n: nat, chosen: set<nat>, until: nat, pid: nat)
    requires IsTop(q, n, chosen)
    ensures FirstAreClaimed(q, ClaimAll(q, chosen, until, pid), chosen, until, pid)
  {
    assert forall i :: i in chosen ==> i in PendingIn(q);
    forall i, k | 0 <= i < |q| && 0 <= k < |q| && i in chosen && k !in chosen && q[k].status == Pending
      ensures GoesFirst(q[i], i, q[k], k)
    {
      assert k in PendingIn(q) - chosen;
      assert Before(q, i, k);
    }
  }

  method ClaimJobs(q: seq<Job>, n: int, until: nat, pid: nat) returns (items: seq<Job>, chosen: set<nat>)
    ensures IsTop(q, if n > 0 then n else 0, chosen) && items == ClaimAll(q, chosen, until, pid)
    ensures FirstAreClaimed(q, items, chosen, until, pid)
  {
    items, chosen := q, {};
    var want := if n > 0 then n else 0;
    while |chosen| < want && PendingIn(q) - chosen != {}
      invariant TopSoFar(q, chosen) && |chosen| <= want
      invariant items == ClaimAll(q, chosen, until, pid)
      decreases want - |chosen|
    {
      var i := NextToClaim(q, chosen);
      ChooseOneMore(q, chosen, i);
      ClaimOneMore(q, chosen, i, until, pid);
      items := items[i := ClaimOne(items[i], until, pid)];
      chosen := chosen + {i};
    }
    SubsetSize(chosen, PendingIn(q));
    assert |chosen| < want ==> chosen == PendingIn(q);
    TopIsFirst(q, want, chosen, until, pid);
  }

  /** `_update_job`: the first job with this id is rewritten. */
  method UpdateJob(q: seq<Job>, id: string, f: Job -> Job) returns (items: seq<Job>, found: bool)
    ensures found <==> id in Ids(q)
    ensures UniqueIds(q) ==> forall i :: 0 <= i < |q| && q[i].id == id ==> items == q[i := f(q[i])]
    ensures !found ==> items == q
  {
    for i := 0 to |q|
      invariant forall k :: 0 <= k < i ==> q[k].id != id
    {
      if q[i].id == id {
        assert Ids(q)[i] == id;
        return q[i := f(q[i])], true;
      }
    }
    return q, false;
  }
}
