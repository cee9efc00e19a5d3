/**
 What a worker brings back: the reports of single runs and of a chain of workers tried in order.

 A run that brings nothing back has no result; that a successful report has a non-empty one is a
 law of every producer.
 */
module WorkerReports {
  import opened Collections
  import opened Text

  datatype Outcome = Outcome(ok: bool, result: Option<string>)

  /** Success comes with a non-empty result. */
  predicate Lawful(o: Outcome) { o.ok ==> o.result.Some? && o.result.value != "" }

  /** What a finished worker process left behind. */
  datatype Finished = Finished(exitedCleanly: bool, marker: bool, verify: bool, result: string, rateLimited: bool)

  /** The text has the markers of a result and of its verification. */
  predicate Delivers(f: Finished) { f.marker && f.verify && f.result != "" }

  /** One run of a worker: it timed out without a result, or what it printed decides. */
  function OneshotReport(run: Option<Finished>): (o: Outcome)
    ensures Lawful(o)
    ensures o.result == if run.Some? then Some(run.value.result) else None
    ensures o.ok <==> run.Some? && Delivers(run.value) && run.value.exitedCleanly && Trim(run.value.result) != ""
                      && !run.value.rateLimited
  {
    match run
    case None => Outcome(false, None)
    case Some(f) =>
      Outcome(f.exitedCleanly && f.marker && f.verify && Trim(f.result) != "" && !f.rateLimited, Some(f.result))
  }

  /** A run of a worker in an interactive pane: what is on the screen counts if the worker has
      settled; if not, it is interrupted and the screen is read `again`. */
  function InteractiveReport(first: Finished, working: bool, again: Option<Finished>): (o: Outcome)
    ensures Lawful(o)
    ensures o.ok <==> !first.rateLimited && if working then again.Some? && Delivers(again.value) else Delivers(first)
    ensures o.result == Some(if o.ok && working then again.value.result else first.result)
  {
    if first.rateLimited || !working || again.None? then
      Outcome(first.marker && first.verify && first.result != "" && !first.rateLimited && !working, Some(first.result))
    else
      var a := again.value;
      if a.marker && a.verify && a.result != "" then Outcome(true, Some(a.result))
      else Outcome(false, Some(first.result))
  }

  // ---------- a chain of workers ----------

  /** A run and how good it is; a thin success is one that another worker may improve on. */
  datatype Run = Run(outcome: Outcome, score: int, thin: bool)

  /** Run `k` ends the search: a success that is not thin, or any success by the last worker. */
  predicate Settles(runs: seq<Run>, k: nat)
    requires k < |runs|
  {
    runs[k].outcome.ok && (!runs[k].thin || k == |runs| - 1)
  }

  /** Run `k` is the first of the best successes. */
  predicate FirstBest(runs: seq<Run>, k: nat) {
    && k < |runs| && runs[k].outcome.ok
    && (forall j :: 0 <= j < |runs| && runs[j].outcome.ok ==> runs[j].score <= runs[k].score)
    && (forall j :: 0 <= j < k && runs[j].outcome.ok ==> runs[j].score < runs[k].score)
  }

  predicate BestSoFar(runs: seq<Run>, n: nat, best: Option<nat>)
    requires n <= |runs|
  {
    match best
    case None => forall j :: 0 <= j < n ==> !runs[j].outcome.ok
    case Some(k) => k < n && FirstBest(runs[..n], k)
  }

  lemma BestNext(runs: seq<Run>, n: nat, best: Option<nat>)
    requires n < |runs| && BestSoFar(runs, n, best)
    ensures
      var better := runs[n].outcome.ok && (best.None? || runs[n].score > runs[best.value].score);
      BestSoFar(runs, n + 1, if better then Some(n) else best)
  {
    assert forall j :: 0 <= j < n ==> runs[..n + 1][j] == runs[..n][j] == runs[j];
    assert runs[..n + 1][n] == runs[n];
  }

  function TextOf(o: Outcome): string { if o.result.Some? then o.result.value else "" }

  /** Sequential failover: the first success that settles the search wins; else the best of the thin
      ones; else the failure is reported with what the last worker had to say.  The `runs` are what
      each worker of the chain would bring back; `used` is how many were asked. */
  method RunWithFailover(runs: seq<Run>) returns (o: Outcome, winner: Option<nat>, used: nat)
    ensures used <= |runs| && (winner.Some? <==> o.ok) && (o.ok <==> exists k :: 0 <= k < |runs| && runs[k].outcome.ok)
    ensures winner.Some? ==> winner.value < |runs| && o == runs[winner.value].outcome
    ensures winner.Some? && Settles(runs, winner.value) ==> forall j :: 0 <= j < winner.value ==> !Settles(runs, j)
    ensures winner.Some? && !Settles(runs, winner.value) ==>
              FirstBest(runs, winner.value) && forall j :: 0 <= j < |runs| ==> !Settles(runs, j)
    ensures used == if winner.Some? && Settles(runs, winner.value) then winner.value + 1 else |runs|
    ensures winner.None? && runs != [] ==> o.result == Some(TextOf(runs[|runs| - 1].outcome))
    ensures (forall k :: 0 <= k < |runs| ==> Lawful(runs[k].outcome)) ==> Lawful(o)
  {
    var best: Option<nat> := None;
    for i := 0 to |runs|
      invariant BestSoFar(runs, i, best) && forall j :: 0 <= j < i ==> !Settles(runs, j)
    {
      BestNext(runs, i, best);
      if runs[i].outcome.ok {
        if best.None? || runs[i].score > runs[best.value].score {
          best := Some(i);
        }
        if !runs[i].thin || i == |runs| - 1 {
          return runs[i].outcome, Some(i), i + 1;
        }
      }
    }
    assert runs[..|runs|] == runs;
    used := |runs|;
    winner := best;
    o := match best
         case Some(k) => runs[k].outcome
         case None => Outcome(false, Some(if runs == [] then "" else TextOf(runs[|runs| - 1].outcome)));
  }
}
