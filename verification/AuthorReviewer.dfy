/**
 The author/reviewer pass with retries: one worker writes, another reviews, and on FAIL the author
 revises -- or the two swap roles when the author cannot deliver.

 Worker runs are an oracle: the n-th run answers `runs(n)`, whatever that is.
 */
module AuthorReviewer {
  import opened Collections
  import opened WorkerReports

  /** What a worker run brings back; `verdict` is how its text parses as a review. */
  datatype RunResult = RunResult(ok: bool, text: Option<string>, verdict: bool)

  datatype Output = Output(key: string, ok: bool, text: Option<string>)

  /** A review by worker `key` of exactly the output `of`. */
  datatype Review = Review(key: string, ok: bool, passed: bool, of: Output)

  datatype Call = Authored(output: Output) | Reviewed(review: Review)

  datatype Report =
    | NoWorkers
    | AuthorFailed(author: Output)
    | Done(ok: bool, author: Output, reviewerKey: string, review: Review, retriesUsed: nat)

  /** What the caller of the pass reads off the report; a report without a result field reads as "". */
  function OutcomeOf(report: Report): Outcome {
    match report
    case Done(ok, author, _, _, _) => Outcome(ok, author.text)
    case _ => Outcome(false, Some(""))
  }

  /** Every worker run obeys the law that success comes with a result. */
  ghost predicate LawfulRuns(runs: nat -> RunResult) { forall n: nat :: Lawful(Outcome(runs(n).ok, runs(n).text)) }

  // ---------- the failover chain ----------

  predicate NoRepeats(keys: seq<string>) { forall i, j :: 0 <= i < j < |keys| ==> keys[i] != keys[j] }

  function Without(keys: seq<string>, k: string): (r: seq<string>)
    ensures forall x :: x in r <==> x in keys && x != k
    ensures NoRepeats(keys) ==> NoRepeats(r)
  {
    if keys == [] then []
    else
      var rest := Without(keys[1..], k);
      assert NoRepeats(keys) ==> keys[0] !in keys[1..];
      if keys[0] == k then rest else [keys[0]] + rest
  }

  /** What is left out is `k`, and nothing changes its place. */
  lemma {:induction false} WithoutIsCut(keys: seq<string>, i: nat)
    requires NoRepeats(keys) && i < |keys|
    ensures Without(keys, keys[i]) == keys[..i] + keys[i + 1..]
  {
    if i == 0 {
      WithoutNothing(keys[1..], keys[0]);
    } else {
      WithoutIsCut(keys[1..], i - 1);
      assert keys[..i] == [keys[0]] + keys[1..][..i - 1] && keys[1..][i - 1 + 1..] == keys[i + 1..];
    }
  }

  lemma {:induction false} WithoutNothing(keys: seq<string>, k: string)
    requires k !in keys
    ensures Without(keys, k) == keys
  {
    if keys != [] {
      WithoutNothing(keys[1..], k);
    }
  }

  /** The primary first, then the others by health; `workers` are the known keys and `ranked` their
      health order. */
  function FailoverChain(primary: string, workers: seq<string>, ranked: seq<string>): seq<string> {
    var keys := if ranked == [] then workers else ranked;
    if primary !in workers then keys else [primary] + Without(keys, primary)
  }

  /** The chain names two different workers to begin with. */
  predicate TwoWorkers(chain: seq<string>) { |chain| > 1 && chain[0] != chain[1] }

  /** The chain repeats no key, so two known workers are enough for two different roles. */
  lemma ChainHasTwoWorkers(primary: string, workers: seq<string>, ranked: seq<string>)
    requires NoRepeats(workers) && NoRepeats(ranked)
    requires ranked == [] || forall k :: k in ranked <==> k in workers
    ensures NoRepeats(FailoverChain(primary, workers, ranked))
    ensures |workers| > 1 ==> TwoWorkers(FailoverChain(primary, workers, ranked))
    ensures primary in workers ==> FailoverChain(primary, workers, ranked)[0] == primary
  {
    var chain := FailoverChain(primary, workers, ranked);
    if |workers| > 1 {
      assert workers[0] in workers && workers[1] in workers && workers[0] != workers[1];
      var keys := if ranked == [] then workers else ranked;
      assert workers[0] in keys && workers[1] in keys;
      assert workers[0] in chain && workers[1] in chain;
      var i :| 0 <= i < |chain| && chain[i] == workers[0];
      var j :| 0 <= j < |chain| && chain[j] == workers[1];
      assert i != j;
    }
  }

  /** The chain is the health order with the primary moved to the front. */
  lemma ChainIsRanked(primary: string, workers: seq<string>, ranked: seq<string>, i: nat)
    requires NoRepeats(ranked) && i < |ranked| && ranked[i] == primary && primary in workers
    ensures FailoverChain(primary, workers, ranked) == [ranked[i]] + ranked[..i] + ranked[i + 1..]
  {
    WithoutIsCut(ranked, i);
  }

  // ---------- the pass ----------

  function CountReviews(log: seq<Call>): nat {
    if log == [] then 0 else CountReviews(log[..|log| - 1]) + (if log[|log| - 1].Reviewed? then 1 else 0)
  }

  lemma CountSnoc(log: seq<Call>, c: Call)
    ensures CountReviews(log + [c]) == CountReviews(log) + if c.Reviewed? then 1 else 0
  {
    assert (log + [c])[..|log|] == log;
  }

  /** The roles are the first two keys of the chain, in either order. */
  predicate Roles(chain: seq<string>, author: string, reviewer: string)
    requires chain != []
  {
    var second := if |chain| > 1 then chain[1] else chain[0];
    (author == chain[0] && reviewer == second) || (author == second && reviewer == chain[0])
  }

  /** Every review in the log was made by the other worker -- if the chain has another. */
  predicate ReviewsAreIndependent(chain: seq<string>, log: seq<Call>)
    requires chain != []
  {
    forall i :: 0 <= i < |log| && log[i].Reviewed? ==>
      && Roles(chain, log[i].review.of.key, log[i].review.key)
      && (log[i].review.key != log[i].review.of.key <==> TwoWorkers(chain))
  }

  /** The n-th call in the log brought back what the n-th run did. */
  predicate Recorded(log: seq<Call>, runs: nat -> RunResult) {
    forall n :: 0 <= n < |log| ==>
      match log[n]
      case Authored(o) => o.ok == runs(n).ok && o.text == runs(n).text
      case Reviewed(r) => r.ok == runs(n).ok && r.passed == runs(n).verdict
  }

  /** Only the last thing in the log can be a review that passed. */
  predicate PassEndsIt(log: seq<Call>) {
    forall n :: 0 <= n < |log| - 1 && log[n].Reviewed? ==> !log[n].review.passed
  }

  /** A review is of the output just written; after one that did not pass the same author revises; and
      a second author run in a row is the other worker's, after a failed one. */
  predicate InTurn(log: seq<Call>) {
    forall n :: 0 < n < |log| ==>
      && (log[n].Reviewed? ==> log[n - 1] == Authored(log[n].review.of))
      && (log[n].Authored? && log[n - 1].Reviewed? ==> log[n].output.key == log[n - 1].review.of.key)
      && (log[n].Authored? && log[n - 1].Authored? ==>
            !log[n - 1].output.ok && log[n].output.key != log[n - 1].output.key)
  }

  /** What holds of the log of a pass all along: it starts with the head of the chain, it says what
      the runs brought back, reviews are independent, and nothing follows one that passed. */
  predicate LogOk(chain: seq<string>, runs: nat -> RunResult, log: seq<Call>)
    requires chain != []
  {
    && (log != [] ==> log[0].Authored? && log[0].output.key == chain[0])
    && Recorded(log, runs) && ReviewsAreIndependent(chain, log) && PassEndsIt(log) && InTurn(log)
  }

  predicate EndsPassed(log: seq<Call>) { log != [] && log[|log| - 1].Reviewed? && log[|log| - 1].review.passed }

  lemma AuthoredAdded(chain: seq<string>, runs: nat -> RunResult, log: seq<Call>, log': seq<Call>, authorKey: string)
    requires chain != [] && LogOk(chain, runs, log) && WritesNext(chain, log, authorKey) && Recorded(log', runs)
    requires log <= log' && |log| < |log'| <= |log| + 2 && forall i :: |log| <= i < |log'| ==> log'[i].Authored?
    requires log'[|log|].output.key == authorKey
    requires |log'| == |log| + 2 ==> !log'[|log|].output.ok && log'[|log| + 1].output.key != authorKey
    ensures LogOk(chain, runs, log') && !EndsPassed(log')
  {
    InTurnAdded(log, log');
  }

  lemma InTurnAdded(log: seq<Call>, log': seq<Call>)
    requires InTurn(log) && log <= log' && |log'| <= |log| + 2
    requires forall n :: |log| <= n < |log'| ==> log'[n].Authored?
    requires log != [] ==> log[|log| - 1].Reviewed?
    requires log != [] && |log'| > |log| ==> log'[|log|].output.key == log[|log| - 1].review.of.key
    requires |log'| == |log| + 2 ==> !log'[|log|].output.ok && log'[|log| + 1].output.key != log'[|log|].output.key
    ensures InTurn(log')
  {
    assert forall n :: 0 <= n < |log| ==> log'[n] == log[n];
  }

  lemma ReviewAdded(chain: seq<string>, runs: nat -> RunResult, log: seq<Call>, review: Review)
    requires chain != [] && log != [] && LogOk(chain, runs, log) && !EndsPassed(log)
    requires Roles(chain, review.of.key, review.key) && log[|log| - 1] == Authored(review.of)
    requires review.ok == runs(|log|).ok && review.passed == runs(|log|).verdict
    ensures LogOk(chain, runs, log + [Reviewed(review)])
    ensures EndsPassed(log + [Reviewed(review)]) <==> review.passed
  {
  }

  method RunAuthor(key: string, runs: nat -> RunResult, log: seq<Call>) returns (out: Output, log': seq<Call>)
    ensures out == Output(key, runs(|log|).ok, runs(|log|).text) && log' == log + [Authored(out)]
    ensures CountReviews(log') == CountReviews(log)
  {
    out := Output(key, runs(|log|).ok, runs(|log|).text);
    log' := log + [Authored(out)];
    CountSnoc(log, Authored(out));
  }

  method RunReviewer(key: string, author: Output, runs: nat -> RunResult, log: seq<Call>)
    returns (review: Review, log': seq<Call>)
    ensures review == Review(key, runs(|log|).ok, runs(|log|).verdict, author) && log' == log + [Reviewed(review)]
    ensures CountReviews(log') == CountReviews(log) + 1
  {
    review := Review(key, runs(|log|).ok, runs(|log|).verdict, author);
    log' := log + [Reviewed(review)];
    CountSnoc(log, Reviewed(review));
  }

  /** What one attempt does: the author writes; if it does not deliver and there is another worker,
      that worker writes, and the roles swap if it delivers or scores higher. */
  predicate Attempted(authorKey: string, reviewerKey: string, score: Output -> int, log: seq<Call>, log': seq<Call>,
                      author: Output, newReviewer: string)
  {
    if |log'| == |log| + 1 then
      && log' == log + [Authored(author)] && author.key == authorKey && newReviewer == reviewerKey
      && (author.ok || reviewerKey == authorKey)
    else
      && |log'| == |log| + 2 && log'[|log|].Authored? && log'[|log| + 1].Authored?
      && var first, second := log'[|log|].output, log'[|log| + 1].output;
      && log' == log + [Authored(first), Authored(second)]
      && first.key == authorKey && second.key == reviewerKey && !first.ok && reviewerKey != authorKey
      && if second.ok || score(second) > score(first) then author == second && newReviewer == authorKey
         else author == first && newReviewer == reviewerKey
  }

  /** One attempt at an author output. */
  method Attempt(authorKey: string, reviewerKey: string, runs: nat -> RunResult, score: Output -> int, log: seq<Call>)
    returns (author: Output, newReviewer: string, log': seq<Call>)
    ensures Attempted(authorKey, reviewerKey, score, log, log', author, newReviewer)
    ensures Recorded(log, runs) ==> Recorded(log', runs)
    ensures CountReviews(log') == CountReviews(log)
    ensures LawfulRuns(runs) ==> Lawful(Outcome(author.ok, author.text))
  {
    author, log' := RunAuthor(authorKey, runs, log);
    newReviewer := reviewerKey;
    if !author.ok && reviewerKey != authorKey {
      var alt;
      alt, log' := RunAuthor(reviewerKey, runs, log');
      assert log' == log + [Authored(author), Authored(alt)];
      if alt.ok || score(alt) > score(author) {
        newReviewer := authorKey;
        author := alt;
      }
    }
  }

  /** So roles stay or swap, there are one or two author runs and no review, and the attempt delivers
      exactly if one of the runs did. */
  lemma AttemptDelivers(authorKey: string, reviewerKey: string, score: Output -> int, log: seq<Call>, log': seq<Call>,
                        author: Output, newReviewer: string)
    requires Attempted(authorKey, reviewerKey, score, log, log', author, newReviewer)
    ensures || (author.key == authorKey && newReviewer == reviewerKey)
            || (author.key == reviewerKey && newReviewer == authorKey)
    ensures log <= log' && |log| < |log'| <= |log| + 2 && forall i :: |log| <= i < |log'| ==> log'[i].Authored?
    ensures Authored(author) in log'[|log|..]
    ensures author.ok <==> exists i :: |log| <= i < |log'| && log'[i].output.ok
    ensures author.ok ==> log'[|log'| - 1] == Authored(author)
  {
    var at := if log'[|log|] == Authored(author) then |log| else |log| + 1;
    assert log'[at] == Authored(author) && log'[|log|..][at - |log|] == Authored(author);
  }

  /** The whole pass, for arbitrary worker outcomes.  A review never has the author as reviewer, if
      the chain has two workers; there are at most `1 + maxRetries` reviews; an ok report means that
      the last thing done was the other worker passing exactly the output that is returned, which
      then is not empty; and it is not given up before a worker fails to deliver or the retries are
      used up. */
  method AuthorReviewerPass(chain: seq<string>, runs: nat -> RunResult, score: Output -> int, maxRetries: int)
    returns (report: Report, log: seq<Call>)
    ensures chain == [] <==> report.NoWorkers?
    ensures LawfulRuns(runs) ==> Lawful(OutcomeOf(report))
    ensures chain != [] ==> log != [] && LogOk(chain, runs, log)
    ensures report.AuthorFailed? || report.Done? ==> Authored(report.author) in log
    ensures CountReviews(log) <= 1 + (if maxRetries > 0 then maxRetries else 0)
    ensures report.AuthorFailed? ==> !report.author.ok && CountReviews(log) == 0
    ensures report.Done? ==> Roles(chain, report.author.key, report.reviewerKey)
    ensures report.Done? ==> CountReviews(log) == report.retriesUsed + (if report.author.ok then 1 else 0)
    ensures report.Done? && report.ok ==>
              && report.author.ok && report.review.ok && report.review.passed
              && report.review.of == report.author && report.review.key == report.reviewerKey
              && log != [] && log[|log| - 1] == Reviewed(report.review)
    ensures report.Done? && !report.ok ==>
              || !report.author.ok
              || (log != [] && log[|log| - 1] == Reviewed(report.review) && report.review.of == report.author
                  && !(report.review.ok && report.review.passed))
    ensures report.Done? && !report.ok ==>
              || !report.author.ok || report.review.passed
              || report.retriesUsed == (if maxRetries > 0 then maxRetries else 0)
  {
    log := [];
    if chain == [] {
      return NoWorkers, log;
    }
    var retries := if maxRetries > 0 then maxRetries else 0;
    var author, reviewerKey, first;
    author, reviewerKey, first, log :=
      Round(chain, chain[0], if |chain| > 1 then chain[1] else chain[0], runs, score, log);
    if first.None? {
      return AuthorFailed(author), log;
    }
    var review, retriesUsed := first.value, 0;
    while !review.passed && retriesUsed < retries
      invariant Reviewable(chain, runs, log, author, reviewerKey, review)
      invariant 0 <= retriesUsed <= retries && CountReviews(log) == 1 + retriesUsed
      invariant LawfulRuns(runs) ==> Lawful(Outcome(author.ok, author.text))
    {
      retriesUsed := retriesUsed + 1;
      var again;
      author, reviewerKey, again, log := Round(chain, author.key, reviewerKey, runs, score, log);
      if again.None? {
        return Done(false, author, reviewerKey, review, retriesUsed), log;
      }
      review := again.value;
    }
    report := Done(author.ok && review.ok && review.passed, author, reviewerKey, review, retriesUsed);
  }

  /** After a review: it is of the author's last output, by the other worker, and the last thing done. */
  predicate Reviewable(chain: seq<string>, runs: nat -> RunResult, log: seq<Call>, author: Output, reviewerKey: string,
                       review: Review)
    requires chain != []
  {
    && LogOk(chain, runs, log) && Roles(chain, author.key, reviewerKey) && Authored(author) in log
    && author.ok && review.of == author && review.key == reviewerKey
    && log != [] && log[|log| - 1] == Reviewed(review)
  }

  /** `authorKey` is to write next: at the start the head of the chain, else the author of what did not pass. */
  predicate WritesNext(chain: seq<string>, log: seq<Call>, authorKey: string)
    requires chain != []
  {
    if log == [] then authorKey == chain[0]
    else
      && log[|log| - 1].Reviewed? && !log[|log| - 1].review.passed
      && log[|log| - 1].review.of.key == authorKey
  }

  /** An attempt, and if it delivers a review. */
  method Round(chain: seq<string>, authorKey: string, reviewerKey: string, runs: nat -> RunResult, score: Output -> int,
               log: seq<Call>)
    returns (author: Output, newReviewer: string, review: Option<Review>, log': seq<Call>)
    requires chain != [] && LogOk(chain, runs, log) && Roles(chain, authorKey, reviewerKey)
    requires WritesNext(chain, log, authorKey)
    ensures LogOk(chain, runs, log') && log' != [] && Authored(author) in log' && Roles(chain, author.key, newReviewer)
    ensures author.ok <==> review.Some?
    ensures review.Some? ==> Reviewable(chain, runs, log', author, newReviewer, review.value)
    ensures CountReviews(log') == CountReviews(log) + if review.Some? then 1 else 0
    ensures LawfulRuns(runs) ==> Lawful(Outcome(author.ok, author.text))
  {
    var written;
    author, newReviewer, written := TryAgain(chain, authorKey, reviewerKey, runs, score, log);
    if !author.ok {
      return author, newReviewer, None, written;
    }
    var r;
    r, log' := RunReviewer(newReviewer, author, runs, written);
    ReviewAdded(chain, runs, written, r);
    assert written[|written| - 1] == Authored(author) && log'[|written| - 1] == written[|written| - 1];
    review := Some(r);
  }

  method TryAgain(ghost chain: seq<string>, authorKey: string, reviewerKey: string, runs: nat -> RunResult,
                  score: Output -> int, log: seq<Call>)
    returns (author: Output, newReviewer: string, log': seq<Call>)
    requires chain != [] && LogOk(chain, runs, log) && Roles(chain, authorKey, reviewerKey)
    requires WritesNext(chain, log, authorKey)
    ensures LogOk(chain, runs, log') && !EndsPassed(log') && log' != [] && Roles(chain, author.key, newReviewer)
    ensures Authored(author) in log' && CountReviews(log') == CountReviews(log)
    ensures author.ok ==> log'[|log'| - 1] == Authored(author)
    ensures LawfulRuns(runs) ==> Lawful(Outcome(author.ok, author.text))
  {
    author, newReviewer, log' := Attempt(authorKey, reviewerKey, runs, score, log);
    AttemptDelivers(authorKey, reviewerKey, score, log, log', author, newReviewer);
    AuthoredAdded(chain, runs, log, log', authorKey);
    assert forall c :: c in log'[|log|..] ==> c in log';
  }
}
