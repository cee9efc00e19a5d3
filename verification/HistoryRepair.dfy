/**
 Repairing tool pairing: `repair_history` and its three passes.

 Each pass is a method with the loops of the source, proved equal to a function on the runs of
 tool results; the theorems are about those functions.
 */
module HistoryRepair {
  import opened Collections
  import opened Conversation

  // ---------- the passes, run by run ----------

  predicate LaterSame(run: seq<Item>, k: nat)
    requires k < |run| && AllResults(run)
  {
    exists j :: k < j < |run| && run[j].id == run[k].id
  }

  /** Keep the last result of every id. */
  function KeepLast(run: seq<Item>): (r: seq<Item>)
    requires AllResults(run)
    ensures AllResults(r) && |r| <= |run|
    ensures forall x :: x in r ==> x in run
  {
    if run == [] then []
    else if LaterSame(run, 0) then KeepLast(run[1..])
    else [run[0]] + KeepLast(run[1..])
  }

  function KeepDeclared(run: seq<Item>, ids: set<string>): (r: seq<Item>)
    requires AllResults(run)
    ensures AllResults(r) && |r| <= |run|
    ensures forall x :: x in r ==> x.id in ids && x in run
  {
    if run == [] then []
    else (if run[0].id in ids then [run[0]] else []) + KeepDeclared(run[1..], ids)
  }

  function SyntheticText(name: string): string {
    "Tool execution was halted by the harness (history_repair); the tool `" + name + "` was not executed."
  }

  /** Results made up for the calls that `run` leaves unanswered, in call order. */
  function Synthetic(calls: seq<Call>, run: seq<Item>): (r: seq<Item>)
    ensures AllResults(r) && |r| <= |calls|
  {
    if calls == [] then []
    else
      (if Answers(run, calls[0].id) then [] else [ToolResult(calls[0].id, SyntheticText(calls[0].name), [])])
      + Synthetic(calls[1..], run)
  }

  function Dedup(items: seq<Item>): (r: seq<Item>)
    ensures |r| <= |items|
    ensures StartsTurn(items) ==> StartsTurn(r)
    decreases |items|
  {
    if items == [] then []
    else if items[0].Assistant? && items[0].calls != [] then
      var n := RunLen(items[1..]);
      [items[0]] + KeepLast(items[1..][..n]) + Dedup(items[1..][n..])
    else [items[0]] + Dedup(items[1..])
  }

  /** Left-to-right filter; `ids` are the calls whose results may come next. */
  function Strip(items: seq<Item>, ids: set<string>): (r: seq<Item>)
    ensures |r| <= |items|
    ensures StartsTurn(items) ==> StartsTurn(r)
  {
    if items == [] then []
    else match items[0]
      case Assistant(_, calls) => [items[0]] + Strip(items[1..], CallIds(calls))
      case ToolResult(id, _, _) => (if id in ids then [items[0]] else []) + Strip(items[1..], ids)
      case _ => [items[0]] + Strip(items[1..], {})
  }

  function StrippedIds(items: seq<Item>, ids: set<string>): seq<string> {
    if items == [] then []
    else match items[0]
      case Assistant(_, calls) => StrippedIds(items[1..], CallIds(calls))
      case ToolResult(id, _, _) => (if id in ids then [] else [id]) + StrippedIds(items[1..], ids)
      case _ => StrippedIds(items[1..], {})
  }

  function Backfill(items: seq<Item>): (r: seq<Item>)
    ensures |r| >= |items|
    ensures StartsTurn(items) ==> StartsTurn(r)
    decreases |items|
  {
    if items == [] then []
    else if items[0].Assistant? && items[0].calls != [] then
      var n := RunLen(items[1..]);
      var run := items[1..][..n];
      [items[0]] + run + Synthetic(items[0].calls, run) + Backfill(items[1..][n..])
    else [items[0]] + Backfill(items[1..])
  }

  function Repair(items: seq<Item>): seq<Item> { Backfill(Strip(Dedup(items), {})) }

  datatype Report = Report(duplicatesRemoved: nat, strippedIds: seq<string>, syntheticInserted: nat) {
    predicate Changed() { duplicatesRemoved > 0 || strippedIds != [] || syntheticInserted > 0 }
  }

  function RepairReport(items: seq<Item>): Report {
    var d := Dedup(items);
    var s := Strip(d, {});
    Report(|items| - |d|, StrippedIds(d, {}), |Backfill(s)| - |s|)
  }

  // ---------- the three passes fuse into one rewriting of each run ----------

  function Kept(calls: seq<Call>, run: seq<Item>): (r: seq<Item>)
    requires AllResults(run)
    ensures AllResults(r)
  {
    KeepDeclared(KeepLast(run), CallIds(calls))
  }

  /** What a repair leaves after an assistant with these calls and this run. */
  function RepairRun(calls: seq<Call>, run: seq<Item>): (r: seq<Item>)
    requires AllResults(run)
    ensures AllResults(r)
  {
    Kept(calls, run) + Synthetic(calls, Kept(calls, run))
  }

  function RepairTurns(items: seq<Item>): (r: seq<Item>)
    ensures StartsTurn(r)
    decreases |items|
  {
    if items == [] then []
    else match items[0]
      case Assistant(_, calls) =>
        var n := RunLen(items[1..]);
        [items[0]] + RepairRun(calls, items[1..][..n]) + RepairTurns(items[1..][n..])
      case ToolResult(_, _, _) => RepairTurns(items[1..])
      case _ => [items[0]] + RepairTurns(items[1..])
  }

  lemma {:induction false} StripRun(run: seq<Item>, rest: seq<Item>, ids: set<string>)
    requires AllResults(run) && StartsTurn(rest)
    ensures Strip(run + rest, ids) == KeepDeclared(run, ids) + Strip(rest, {})
    decreases |run|
  {
    if run == [] {
      assert run + rest == rest;
      StripAtTurn(rest, ids);
    } else {
      assert (run + rest)[1..] == run[1..] + rest;
      StripRun(run[1..], rest, ids);
      var first := if run[0].id in ids then [run[0]] else [];
      Assoc(first, KeepDeclared(run[1..], ids), Strip(rest, {}));
    }
  }

  lemma StripAtTurn(rest: seq<Item>, ids: set<string>)
    requires StartsTurn(rest)
    ensures Strip(rest, ids) == Strip(rest, {})
  {
  }

  lemma {:induction false} DedupRun(run: seq<Item>, rest: seq<Item>)
    requires AllResults(run)
    ensures Dedup(run + rest) == run + Dedup(rest)
    decreases |run|
  {
    if run == [] {
      assert run + rest == rest;
    } else {
      assert (run + rest)[1..] == run[1..] + rest;
      DedupRun(run[1..], rest);
    }
  }

  lemma {:induction false} RepairTurnsSkipsRun(run: seq<Item>, rest: seq<Item>)
    requires AllResults(run)
    ensures RepairTurns(run + rest) == RepairTurns(rest)
    decreases |run|
  {
    if run == [] {
      assert run + rest == rest;
    } else {
      assert (run + rest)[1..] == run[1..] + rest;
      RepairTurnsSkipsRun(run[1..], rest);
    }
  }

  lemma KeepNoneDeclared(run: seq<Item>)
    requires AllResults(run)
    ensures KeepDeclared(run, {}) == []
  {
  }

  lemma BackfillTurn(a: Item, run: seq<Item>, rest: seq<Item>)
    requires a.Assistant? && AllResults(run) && StartsTurn(rest)
    requires a.calls == [] ==> run == []
    ensures Backfill([a] + run + rest) == [a] + run + Synthetic(a.calls, run) + Backfill(rest)
  {
    var all := [a] + run + rest;
    assert all[1..] == run + rest;
    RunLenAppend(run, rest);
  }

  lemma DedupTurn(a: Item, run: seq<Item>, rest: seq<Item>)
    requires a.Assistant? && AllResults(run) && StartsTurn(rest)
    ensures Dedup([a] + run + rest) == [a] + (if a.calls == [] then run else KeepLast(run)) + Dedup(rest)
  {
    var all := [a] + run + rest;
    assert all[0] == a && all[1..] == run + rest;
    if a.calls == [] {
      DedupRun(run, rest);
      assert Dedup(all) == [a] + Dedup(run + rest);
    } else {
      RunLenAppend(run, rest);
      assert Dedup(all) == [a] + KeepLast(run) + Dedup(rest);
    }
  }

  lemma StripTurn(a: Item, run: seq<Item>, rest: seq<Item>)
    requires a.Assistant? && AllResults(run) && StartsTurn(rest)
    ensures Strip([a] + run + rest, {}) == [a] + KeepDeclared(run, CallIds(a.calls)) + Strip(rest, {})
  {
    var all := [a] + run + rest;
    assert all[1..] == run + rest;
    StripRun(run, rest, CallIds(a.calls));
  }

  /** Dedup skips an assistant without calls, but then nothing of its run is kept anyway. */
  lemma KeptEitherWay(calls: seq<Call>, run: seq<Item>)
    requires AllResults(run)
    ensures KeepDeclared(if calls == [] then run else KeepLast(run), CallIds(calls)) == Kept(calls, run)
    ensures calls == [] ==> Kept(calls, run) == []
  {
    if calls == [] {
      assert CallIds(calls) == {};
      KeepNoneDeclared(run);
      KeepNoneDeclared(KeepLast(run));
    }
  }

  lemma StripDedupTurn(a: Item, run: seq<Item>, rest: seq<Item>)
    requires a.Assistant? && AllResults(run) && StartsTurn(rest)
    ensures Strip(Dedup([a] + run + rest), {}) == [a] + Kept(a.calls, run) + Strip(Dedup(rest), {})
  {
    DedupTurn(a, run, rest);
    StripTurn(a, if a.calls == [] then run else KeepLast(run), Dedup(rest));
    KeptEitherWay(a.calls, run);
  }

  lemma Regroup(a: Item, b: seq<Item>, c: seq<Item>, d: seq<Item>)
    ensures [a] + b + c + d == [a] + (b + c) + d
  {
  }

  lemma RepairTurn(a: Item, run: seq<Item>, rest: seq<Item>)
    requires a.Assistant? && AllResults(run) && StartsTurn(rest)
    ensures Repair([a] + run + rest) == [a] + RepairRun(a.calls, run) + Repair(rest)
  {
    var kept, t := Kept(a.calls, run), Strip(Dedup(rest), {});
    calc {
      Repair([a] + run + rest);
      Backfill(Strip(Dedup([a] + run + rest), {}));
      { StripDedupTurn(a, run, rest); }
      Backfill([a] + kept + t);
      { KeptEitherWay(a.calls, run); BackfillTurn(a, kept, t); }
      [a] + kept + Synthetic(a.calls, kept) + Backfill(t);
      { Regroup(a, kept, Synthetic(a.calls, kept), Backfill(t)); }
      [a] + (kept + Synthetic(a.calls, kept)) + Backfill(t);
    }
  }

  lemma RepairOther(x: Item, rest: seq<Item>)
    requires !x.Assistant?
    ensures Repair([x] + rest) == (if x.ToolResult? then [] else [x]) + Repair(rest)
  {
    assert ([x] + rest)[1..] == rest;
    assert Dedup([x] + rest) == [x] + Dedup(rest);
    assert ([x] + Dedup(rest))[1..] == Dedup(rest);
    var s := Strip(Dedup(rest), {});
    assert Strip([x] + Dedup(rest), {}) == if x.ToolResult? then s else [x] + s;
    assert ([x] + s)[1..] == s;
  }

  /** The composed passes are one rewriting of each assistant's run. */
  lemma {:induction false} RepairIsRunwise(items: seq<Item>)
    ensures Repair(items) == RepairTurns(items)
    decreases |items|
  {
    if items == [] {
    } else if items[0].Assistant? {
      var n := RunLen(items[1..]);
      var run, rest := items[1..][..n], items[1..][n..];
      assert items == [items[0]] + run + rest;
      RepairTurn(items[0], run, rest);
      RepairIsRunwise(rest);
    } else {
      assert items == [items[0]] + items[1..];
      RepairOther(items[0], items[1..]);
      RepairIsRunwise(items[1..]);
    }
  }

  // ---------- how often each call is answered ----------

  /** How many of `calls` carry `id`. */
  function Mult(calls: seq<Call>, id: string): nat {
    if calls == [] then 0 else (if calls[0].id == id then 1 else 0) + Mult(calls[1..], id)
  }

  lemma {:induction false} KeepLastCount(run: seq<Item>, id: string)
    requires AllResults(run)
    ensures CountId(KeepLast(run), id) == if Answers(run, id) then 1 else 0
  {
    if run != [] {
      KeepLastCount(run[1..], id);
      AnswersCons(run, id);
      AnswersCons(run, run[0].id);
      LaterSameHead(run);
      if !LaterSame(run, 0) {
        assert ([run[0]] + KeepLast(run[1..]))[1..] == KeepLast(run[1..]);
      }
    }
  }

  lemma AnswersCons(run: seq<Item>, id: string)
    requires run != [] && AllResults(run)
    ensures Answers(run, id) <==> run[0].id == id || Answers(run[1..], id)
  {
    if i :| 0 <= i < |run[1..]| && run[1..][i].ToolResult? && run[1..][i].id == id {
      assert run[i + 1].id == id;
    }
    if i :| 0 < i < |run| && run[i].ToolResult? && run[i].id == id {
      assert run[1..][i - 1].id == id;
    }
  }

  lemma LaterSameHead(run: seq<Item>)
    requires run != [] && AllResults(run)
    ensures LaterSame(run, 0) <==> Answers(run[1..], run[0].id)
  {
    if j :| 0 < j < |run| && run[j].id == run[0].id {
      assert run[1..][j - 1].id == run[0].id;
    }
  }

  lemma {:induction false} KeepDeclaredCount(run: seq<Item>, ids: set<string>, id: string)
    requires AllResults(run)
    ensures CountId(KeepDeclared(run, ids), id) == if id in ids then CountId(run, id) else 0
  {
    if run != [] {
      KeepDeclaredCount(run[1..], ids, id);
      CountAppend(if run[0].id in ids then [run[0]] else [], KeepDeclared(run[1..], ids), id);
    }
  }

  lemma {:induction false} SyntheticCount(calls: seq<Call>, run: seq<Item>, id: string)
    ensures CountId(Synthetic(calls, run), id) == if Answers(run, id) then 0 else Mult(calls, id)
  {
    if calls != [] {
      SyntheticCount(calls[1..], run, id);
      var head := if Answers(run, calls[0].id) then []
                  else [ToolResult(calls[0].id, SyntheticText(calls[0].name), [])];
      CountAppend(head, Synthetic(calls[1..], run), id);
    }
  }

  lemma {:induction false} MultDeclared(calls: seq<Call>, id: string)
    ensures Mult(calls, id) > 0 <==> id in CallIds(calls)
  {
    if calls != [] {
      MultDeclared(calls[1..], id);
      assert calls == [calls[0]] + calls[1..];
    }
  }

  predicate Twice(calls: seq<Call>, id: string) {
    exists i, j :: 0 <= i < j < |calls| && calls[i].id == id && calls[j].id == id
  }

  lemma {:induction false} MultTwice(calls: seq<Call>, id: string)
    ensures Mult(calls, id) > 1 <==> Twice(calls, id)
  {
    if calls != [] {
      MultTwice(calls[1..], id);
      MultDeclared(calls[1..], id);
      if Mult(calls[1..], id) > 1 {
        var i, j :| 0 <= i < j < |calls[1..]| && calls[1..][i].id == id && calls[1..][j].id == id;
        assert calls[i + 1].id == id && calls[j + 1].id == id;
      } else if calls[0].id == id && Mult(calls[1..], id) > 0 {
        var c :| c in calls[1..] && c.id == id;
        var j :| 0 <= j < |calls[1..]| && calls[1..][j] == c;
        assert calls[0].id == id && calls[j + 1].id == id;
      }
      if i, j :| 0 <= i < j < |calls| && calls[i].id == id && calls[j].id == id {
        assert calls[1..][j - 1].id == id;
        if i > 0 {
          assert calls[1..][i - 1].id == id;
        }
      }
    }
  }

  /** After a repair the run holds no foreign result; a declared call that had a result in its run
      has exactly one; one that had none has as many synthetic results as declarations. */
  lemma RepairRunCount(calls: seq<Call>, run: seq<Item>, id: string)
    requires AllResults(run)
    ensures CountId(RepairRun(calls, run), id)
         == if id !in CallIds(calls) then 0 else if Answers(run, id) then 1 else Mult(calls, id)
  {
    var kept := Kept(calls, run);
    KeepLastCount(run, id);
    KeepDeclaredCount(KeepLast(run), CallIds(calls), id);
    CountAnswers(kept, id);
    SyntheticCount(calls, kept, id);
    CountAppend(kept, Synthetic(calls, kept), id);
    MultDeclared(calls, id);
  }

  // ---------- a repaired history is paired and fully answered ----------

  /** Every declared call is answered in its run, and exactly once if the ids are distinct. */
  ghost predicate Answered(items: seq<Item>) {
    forall o, id :: 0 <= o < |items| && Declares(items[o], id) ==>
      && CountId(RunAfter(items, o), id) >= 1
      && (DistinctCalls(items[o].calls) ==> CountId(RunAfter(items, o), id) == 1)
  }

  lemma OwnedShift(pre: seq<Item>, rest: seq<Item>, o: nat, k: nat)
    requires OwnedBy(rest, o, k)
    ensures OwnedBy(pre + rest, o + |pre|, k + |pre|)
  {
    assert (pre + rest)[o + |pre| + 1..k + |pre|] == rest[o + 1..k];
  }

  lemma RunAfterShift(pre: seq<Item>, rest: seq<Item>, o: nat)
    requires o < |rest|
    ensures RunAfter(pre + rest, |pre| + o) == RunAfter(rest, o)
  {
    assert (pre + rest)[|pre| + o + 1..] == rest[o + 1..];
  }

  lemma RunAfterHead(a: Item, run: seq<Item>, rest: seq<Item>)
    requires AllResults(run) && StartsTurn(rest)
    ensures RunAfter([a] + run + rest, 0) == run
  {
    assert ([a] + run + rest)[1..] == run + rest;
    RunLenAppend(run, rest);
  }

  lemma PairedTurn(a: Item, run: seq<Item>, rest: seq<Item>)
    requires a.Assistant? && AllResults(run) && WellPaired(rest)
    requires forall i :: 0 <= i < |run| ==> Declares(a, run[i].id)
    ensures WellPaired([a] + run + rest)
  {
    var pre := [a] + run;
    var all := pre + rest;
    forall k | 0 <= k < |all| && all[k].ToolResult? ensures InRun(all, k) {
      if k < |pre| {
        assert all[1..k] == run[..k - 1];
        assert OwnedBy(all, 0, k);
      } else {
        assert InRun(rest, k - |pre|);
        var o :| OwnedBy(rest, o, k - |pre|);
        OwnedShift(pre, rest, o, k - |pre|);
      }
    }
  }

  lemma PairedOther(x: Item, rest: seq<Item>)
    requires !x.ToolResult? && WellPaired(rest)
    ensures WellPaired([x] + rest)
  {
    var all := [x] + rest;
    forall k | 0 <= k < |all| && all[k].ToolResult? ensures InRun(all, k) {
      assert InRun(rest, k - 1);
      var o :| OwnedBy(rest, o, k - 1);
      OwnedShift([x], rest, o, k - 1);
    }
  }

  lemma AnsweredTurn(a: Item, run: seq<Item>, rest: seq<Item>)
    requires a.Assistant? && AllResults(run) && StartsTurn(rest) && Answered(rest)
    requires forall id :: Declares(a, id) ==>
               CountId(run, id) >= 1 && (DistinctCalls(a.calls) ==> CountId(run, id) == 1)
    ensures Answered([a] + run + rest)
  {
    var pre := [a] + run;
    var all := pre + rest;
    assert forall k :: 1 <= k < |pre| ==> all[k].ToolResult?;
    forall o, id | 0 <= o < |all| && Declares(all[o], id)
      ensures CountId(RunAfter(all, o), id) >= 1
      ensures DistinctCalls(all[o].calls) ==> CountId(RunAfter(all, o), id) == 1
    {
      if o == 0 {
        RunAfterHead(a, run, rest);
      } else {
        RunAfterShift(pre, rest, o - |pre|);
        assert Declares(rest[o - |pre|], id);
      }
    }
  }

  lemma AnsweredOther(x: Item, rest: seq<Item>)
    requires !x.Assistant? && Answered(rest)
    ensures Answered([x] + rest)
  {
    var all := [x] + rest;
    forall o, id | 0 <= o < |all| && Declares(all[o], id)
      ensures CountId(RunAfter(all, o), id) >= 1
      ensures DistinctCalls(all[o].calls) ==> CountId(RunAfter(all, o), id) == 1
    {
      RunAfterShift([x], rest, o - 1);
    }
  }

  lemma RepairRunDeclared(calls: seq<Call>, run: seq<Item>)
    requires AllResults(run)
    ensures forall i :: 0 <= i < |RepairRun(calls, run)| ==> RepairRun(calls, run)[i].id in CallIds(calls)
  {
    var r := RepairRun(calls, run);
    forall i | 0 <= i < |r| ensures r[i].id in CallIds(calls) {
      assert Answers(r, r[i].id);
      CountAnswers(r, r[i].id);
      RepairRunCount(calls, run, r[i].id);
    }
  }

  lemma RepairRunAnswers(a: Item, run: seq<Item>)
    requires a.Assistant? && AllResults(run)
    ensures forall id :: Declares(a, id) ==>
              && CountId(RepairRun(a.calls, run), id) >= 1
              && (DistinctCalls(a.calls) ==> CountId(RepairRun(a.calls, run), id) == 1)
  {
    forall id | Declares(a, id)
      ensures CountId(RepairRun(a.calls, run), id) >= 1
      ensures DistinctCalls(a.calls) ==> CountId(RepairRun(a.calls, run), id) == 1
    {
      RepairRunCount(a.calls, run, id);
      MultDeclared(a.calls, id);
      MultTwice(a.calls, id);
    }
  }

  lemma {:induction false} RepairTurnsPaired(items: seq<Item>)
    ensures WellPaired(RepairTurns(items)) && Answered(RepairTurns(items))
    decreases |items|
  {
    if items == [] {
    } else if items[0].Assistant? {
      var a, n := items[0], RunLen(items[1..]);
      var run, rest := items[1..][..n], items[1..][n..];
      RepairTurnsPaired(rest);
      RepairRunDeclared(a.calls, run);
      RepairRunAnswers(a, run);
      PairedTurn(a, RepairRun(a.calls, run), RepairTurns(rest));
      AnsweredTurn(a, RepairRun(a.calls, run), RepairTurns(rest));
    } else {
      RepairTurnsPaired(items[1..]);
      if !items[0].ToolResult? {
        PairedOther(items[0], RepairTurns(items[1..]));
        AnsweredOther(items[0], RepairTurns(items[1..]));
      }
    }
  }

  /** For every history: after a repair each tool result is in the run of the assistant declaring
      its id, and every declared call has a result there -- exactly one when the ids are distinct. */
  lemma RepairEstablishesPairing(items: seq<Item>)
    ensures WellPaired(Repair(items)) && Answered(Repair(items))
  {
    RepairIsRunwise(items);
    RepairTurnsPaired(items);
  }

  function NonResults(items: seq<Item>): seq<Item> {
    if items == [] then []
    else (if items[0].ToolResult? then [] else [items[0]]) + NonResults(items[1..])
  }

  lemma {:induction false} NonResultsAppend(a: seq<Item>, b: seq<Item>)
    ensures NonResults(a + b) == NonResults(a) + NonResults(b)
  {
    if a == [] {
      assert a + b == b;
    } else {
      assert (a + b)[1..] == a[1..] + b;
      NonResultsAppend(a[1..], b);
    }
  }

  lemma {:induction false} NonResultsOfRun(run: seq<Item>)
    requires AllResults(run)
    ensures NonResults(run) == []
  {
    if run != [] {
      NonResultsOfRun(run[1..]);
    }
  }

  lemma NonResultsOfTurn(a: Item, run: seq<Item>, rest: seq<Item>)
    requires AllResults(run)
    ensures NonResults([a] + run + rest) == NonResults([a]) + NonResults(rest)
  {
    NonResultsOfRun(run);
    NonResultsAppend([a] + run, rest);
    NonResultsAppend([a], run);
  }

  lemma {:induction false} RepairTurnsKeepsOthers(items: seq<Item>)
    ensures NonResults(RepairTurns(items)) == NonResults(items)
    decreases |items|
  {
    if items == [] {
    } else if items[0].Assistant? {
      var a, n := items[0], RunLen(items[1..]);
      var run, rest := items[1..][..n], items[1..][n..];
      RepairTurnsKeepsOthers(rest);
      SplitTurn(items, n);
      NonResultsOfTurn(a, run, rest);
      NonResultsOfTurn(a, RepairRun(a.calls, run), RepairTurns(rest));
    } else {
      RepairTurnsKeepsOthers(items[1..]);
      NonResultsAppend([items[0]], RepairTurns(items[1..]));
    }
  }

  /** A repair touches tool results only. */
  lemma RepairKeepsOtherItems(items: seq<Item>)
    ensures NonResults(Repair(items)) == NonResults(items)
  {
    RepairIsRunwise(items);
    RepairTurnsKeepsOthers(items);
  }

  // ---------- repairing twice ----------

  predicate AmbiguousRun(calls: seq<Call>, run: seq<Item>) {
    exists i, j :: 0 <= i < j < |calls| && calls[i].id == calls[j].id && !Answers(run, calls[i].id)
  }

  predicate AmbiguousAt(items: seq<Item>, o: nat) {
    o < |items| && items[o].Assistant? && AmbiguousRun(items[o].calls, RunAfter(items, o))
  }

  /** Some assistant declares an id twice that no result in its run answers. */
  ghost predicate Ambiguous(items: seq<Item>) { exists o: nat :: AmbiguousAt(items, o) }

  lemma AmbiguousShift(pre: seq<Item>, rest: seq<Item>)
    requires Ambiguous(rest)
    ensures Ambiguous(pre + rest)
  {
    var o: nat :| AmbiguousAt(rest, o);
    RunAfterShift(pre, rest, o);
    assert (pre + rest)[|pre| + o] == rest[o];
    assert AmbiguousAt(pre + rest, |pre| + o);
  }

  lemma AmbiguousUnshift(pre: seq<Item>, rest: seq<Item>, o: nat)
    requires AmbiguousAt(pre + rest, |pre| + o)
    ensures AmbiguousAt(rest, o)
  {
    RunAfterShift(pre, rest, o);
  }

  lemma AmbiguousTurn(a: Item, run: seq<Item>, rest: seq<Item>)
    requires a.Assistant? && AllResults(run) && StartsTurn(rest)
    ensures Ambiguous([a] + run + rest) <==> AmbiguousRun(a.calls, run) || Ambiguous(rest)
  {
    var pre := [a] + run;
    var all := pre + rest;
    AmbiguousHead(a, run, rest);
    assert forall k :: 1 <= k < |pre| ==> all[k].ToolResult?;
    if o: nat :| AmbiguousAt(all, o) && o != 0 {
      AmbiguousUnshift(pre, rest, o - |pre|);
    }
    if Ambiguous(rest) {
      AmbiguousShift(pre, rest);
    }
  }

  lemma AmbiguousHead(a: Item, run: seq<Item>, rest: seq<Item>)
    requires a.Assistant? && AllResults(run) && StartsTurn(rest)
    ensures AmbiguousAt([a] + run + rest, 0) <==> AmbiguousRun(a.calls, run)
  {
    RunAfterHead(a, run, rest);
  }

  lemma AmbiguousOther(x: Item, rest: seq<Item>)
    requires !x.Assistant?
    ensures Ambiguous([x] + rest) <==> Ambiguous(rest)
  {
    if o: nat :| AmbiguousAt([x] + rest, o) {
      AmbiguousUnshift([x], rest, o - 1);
    }
    if Ambiguous(rest) {
      AmbiguousShift([x], rest);
    }
  }

  ghost predicate AtMostOnce(run: seq<Item>) { forall id :: CountId(run, id) <= 1 }

  lemma AtMostOnceCons(run: seq<Item>)
    requires run != [] && AllResults(run)
    ensures AtMostOnce(run) <==> !LaterSame(run, 0) && AtMostOnce(run[1..])
  {
    var tail := run[1..];
    LaterSameHead(run);
    CountAnswers(tail, run[0].id);
    assert CountId(run, run[0].id) == 1 + CountId(tail, run[0].id);
    if !LaterSame(run, 0) && AtMostOnce(tail) {
      forall id ensures CountId(run, id) <= 1 {
        assert CountId(tail, id) <= 1;
      }
    }
    if AtMostOnce(run) {
      forall id ensures CountId(tail, id) <= 1 {
        assert CountId(run, id) <= 1;
      }
    }
  }

  lemma {:induction false} KeepLastFull(run: seq<Item>)
    requires AllResults(run)
    ensures |KeepLast(run)| == |run| <==> AtMostOnce(run)
    ensures |KeepLast(run)| == |run| ==> KeepLast(run) == run
  {
    if run != [] {
      KeepLastFull(run[1..]);
      AtMostOnceCons(run);
      assert run == [run[0]] + run[1..];
    }
  }

  lemma RepairRunRepeats(calls: seq<Call>, run: seq<Item>)
    requires AllResults(run)
    ensures AtMostOnce(RepairRun(calls, run)) <==> !AmbiguousRun(calls, run)
  {
    var r := RepairRun(calls, run);
    if AmbiguousRun(calls, run) {
      var i, j :| 0 <= i < j < |calls| && calls[i].id == calls[j].id && !Answers(run, calls[i].id);
      RepairRunCount(calls, run, calls[i].id);
      assert Twice(calls, calls[i].id);
      MultTwice(calls, calls[i].id);
      assert CountId(r, calls[i].id) > 1;
    } else {
      forall id ensures CountId(r, id) <= 1 {
        RepairRunCount(calls, run, id);
        MultTwice(calls, id);
      }
    }
  }

  lemma {:induction false} KeepDeclaredAll(run: seq<Item>, ids: set<string>)
    requires AllResults(run) && forall i :: 0 <= i < |run| ==> run[i].id in ids
    ensures KeepDeclared(run, ids) == run
  {
    if run != [] {
      KeepDeclaredAll(run[1..], ids);
    }
  }

  lemma {:induction false} SyntheticNone(calls: seq<Call>, run: seq<Item>)
    requires forall i :: 0 <= i < |calls| ==> Answers(run, calls[i].id)
    ensures Synthetic(calls, run) == []
  {
    if calls != [] {
      SyntheticNone(calls[1..], run);
    }
  }

  /** Deduplicating a repaired run leaves something the other two passes accept. */
  lemma RepairedRunStable(calls: seq<Call>, run: seq<Item>)
    requires AllResults(run)
    ensures
      var k := KeepLast(RepairRun(calls, run));
      KeepDeclared(k, CallIds(calls)) == k && Synthetic(calls, k) == []
  {
    var r := RepairRun(calls, run);
    var k := KeepLast(r);
    RepairRunDeclared(calls, run);
    forall i | 0 <= i < |k| ensures k[i].id in CallIds(calls) {
      assert k[i] in k;
      var j :| 0 <= j < |r| && r[j] == k[i];
    }
    KeepDeclaredAll(k, CallIds(calls));
    forall i | 0 <= i < |calls| ensures Answers(k, calls[i].id) {
      var id := calls[i].id;
      assert calls[i] in calls;
      RepairRunCount(calls, run, id);
      MultDeclared(calls, id);
      CountAnswers(r, id);
      KeepLastCount(r, id);
      CountAnswers(k, id);
    }
    SyntheticNone(calls, k);
  }

  lemma {:induction false} StrippedNone(run: seq<Item>, rest: seq<Item>, ids: set<string>)
    requires AllResults(run) && StartsTurn(rest)
    requires forall i :: 0 <= i < |run| ==> run[i].id in ids
    ensures StrippedIds(run + rest, ids) == StrippedIds(rest, {})
  {
    if run == [] {
      assert run + rest == rest;
    } else {
      assert (run + rest)[1..] == run[1..] + rest;
      StrippedNone(run[1..], rest, ids);
    }
  }

  /** Nothing but the first pass has anything to do on a repaired history. */
  ghost predicate OnlyDuplicates(items: seq<Item>) {
    var d := Dedup(items);
    Strip(d, {}) == d && StrippedIds(d, {}) == [] && Backfill(d) == d
  }

  lemma StrippedTurn(a: Item, k: seq<Item>, d: seq<Item>)
    requires a.Assistant? && AllResults(k) && StartsTurn(d)
    requires forall i :: 0 <= i < |k| ==> k[i].id in CallIds(a.calls)
    ensures StrippedIds([a] + k + d, {}) == StrippedIds(d, {})
  {
    var all := [a] + k + d;
    assert all[0] == a && all[1..] == k + d;
    StrippedNone(k, d, CallIds(a.calls));
  }

  lemma StableTurn(a: Item, k: seq<Item>, d: seq<Item>)
    requires a.Assistant? && AllResults(k) && StartsTurn(d)
    requires KeepDeclared(k, CallIds(a.calls)) == k && Synthetic(a.calls, k) == []
    requires Strip(d, {}) == d && StrippedIds(d, {}) == [] && Backfill(d) == d
    requires a.calls == [] ==> k == []
    ensures Strip([a] + k + d, {}) == [a] + k + d
    ensures StrippedIds([a] + k + d, {}) == []
    ensures Backfill([a] + k + d) == [a] + k + d
  {
    StripTurn(a, k, d);
    assert forall i :: 0 <= i < |k| ==> k[i] in k;
    StrippedTurn(a, k, d);
    BackfillTurn(a, k, d);
    Regroup(a, k, [], d);
    assert k + [] == k;
  }

  lemma DedupRepairedTurn(a: Item, run: seq<Item>, rest: seq<Item>)
    requires a.Assistant? && AllResults(run) && StartsTurn(rest)
    ensures
      var r := RepairRun(a.calls, run);
      && (a.calls == [] ==> r == [])
      && Dedup([a] + r + rest) == [a] + KeepLast(r) + Dedup(rest)
  {
    var r := RepairRun(a.calls, run);
    KeptEitherWay(a.calls, run);
    DedupTurn(a, r, rest);
  }

  lemma SecondRepairTurn(a: Item, run: seq<Item>, rest: seq<Item>)
    requires a.Assistant? && AllResults(run) && StartsTurn(rest) && OnlyDuplicates(rest)
    ensures
      var all := [a] + RepairRun(a.calls, run) + rest;
      && OnlyDuplicates(all)
      && (|Dedup(all)| == |all| <==> !AmbiguousRun(a.calls, run) && |Dedup(rest)| == |rest|)
  {
    var r := RepairRun(a.calls, run);
    DedupRepairedTurn(a, run, rest);
    RepairedRunStable(a.calls, run);
    StableTurn(a, KeepLast(r), Dedup(rest));
    KeepLastFull(r);
    RepairRunRepeats(a.calls, run);
  }

  lemma {:induction false} SecondRepair(items: seq<Item>)
    ensures OnlyDuplicates(RepairTurns(items))
    ensures |Dedup(RepairTurns(items))| == |RepairTurns(items)| <==> !Ambiguous(items)
    decreases |items|
  {
    if items == [] {
    } else if items[0].Assistant? {
      var n := RunLen(items[1..]);
      SecondRepair(items[1..][n..]);
      SecondRepairAssistant(items, n);
    } else {
      SecondRepair(items[1..]);
      assert items == [items[0]] + items[1..];
      AmbiguousOther(items[0], items[1..]);
      if !items[0].ToolResult? {
        assert RepairTurns(items) == [items[0]] + RepairTurns(items[1..]);
        SecondRepairOther(items[0], RepairTurns(items[1..]));
      }
    }
  }

  lemma SecondRepairAssistant(items: seq<Item>, n: nat)
    requires items != [] && items[0].Assistant? && n == RunLen(items[1..])
    requires
      var rest := items[1..][n..];
      OnlyDuplicates(RepairTurns(rest)) && (|Dedup(RepairTurns(rest))| == |RepairTurns(rest)| <==> !Ambiguous(rest))
    ensures OnlyDuplicates(RepairTurns(items))
    ensures |Dedup(RepairTurns(items))| == |RepairTurns(items)| <==> !Ambiguous(items)
  {
    var a, run, rest := items[0], items[1..][..n], items[1..][n..];
    SplitTurn(items, n);
    AmbiguousTurn(a, run, rest);
    SecondRepairTurn(a, run, RepairTurns(rest));
  }

  lemma SplitTurn(items: seq<Item>, n: nat)
    requires items != [] && items[0].Assistant? && n == RunLen(items[1..])
    ensures
      var a, run, rest := items[0], items[1..][..n], items[1..][n..];
      && AllResults(run) && StartsTurn(rest)
      && items == [a] + run + rest
      && RepairTurns(items) == [a] + RepairRun(a.calls, run) + RepairTurns(rest)
  {
  }

  lemma SecondRepairOther(x: Item, rest: seq<Item>)
    requires !x.Assistant? && !x.ToolResult? && OnlyDuplicates(rest)
    ensures OnlyDuplicates([x] + rest) && |Dedup([x] + rest)| == 1 + |Dedup(rest)|
  {
    var d := Dedup(rest);
    assert ([x] + rest)[1..] == rest;
    assert Dedup([x] + rest) == [x] + d;
    assert ([x] + d)[1..] == d;
  }

  /** A second repair reports no change exactly when no assistant of the original history declares
      an id twice without a result for it in its run. */
  lemma SecondRepairIsNoopIff(items: seq<Item>)
    ensures !RepairReport(Repair(items)).Changed() <==> !Ambiguous(items)
  {
    RepairIsRunwise(items);
    SecondRepair(items);
  }

  /** Whatever the history, the third repair never finds anything. */
  lemma ThirdRepairIsNoop(items: seq<Item>)
    ensures !RepairReport(Repair(Repair(items))).Changed()
  {
    var r := Repair(items);
    RepairEstablishesPairing(items);
    forall o | 0 <= o < |r| && r[o].Assistant?
      ensures !AmbiguousRun(r[o].calls, RunAfter(r, o))
    {
      forall i | 0 <= i < |r[o].calls| ensures Answers(RunAfter(r, o), r[o].calls[i].id) {
        assert r[o].calls[i] in r[o].calls;
        assert Declares(r[o], r[o].calls[i].id);
        CountAnswers(RunAfter(r, o), r[o].calls[i].id);
      }
    }
    SecondRepairIsNoopIff(r);
  }

  // ---------- histories that a repair leaves alone ----------

  /** The calls of the item at `o`, if it has any, are answered exactly once in the run after it. */
  ghost predicate OnceAt(items: seq<Item>, o: nat)
    requires o < |items|
  {
    forall id :: Declares(items[o], id) ==> CountId(RunAfter(items, o), id) == 1
  }

  /** Every declared call is answered exactly once in its run. */
  ghost predicate AnsweredOnce(items: seq<Item>) { forall o: nat :: o < |items| ==> OnceAt(items, o) }

  lemma OnceAtShift(pre: seq<Item>, rest: seq<Item>, o: nat)
    requires o < |rest|
    ensures OnceAt(pre + rest, |pre| + o) <==> OnceAt(rest, o)
  {
    RunAfterShift(pre, rest, o);
  }

  lemma OnceAtHead(a: Item, run: seq<Item>, rest: seq<Item>)
    requires AllResults(run) && StartsTurn(rest)
    ensures OnceAt([a] + run + rest, 0) <==> forall id :: Declares(a, id) ==> CountId(run, id) == 1
  {
    RunAfterHead(a, run, rest);
  }

  lemma AnsweredOnceAppend(pre: seq<Item>, rest: seq<Item>)
    ensures AnsweredOnce(pre + rest)
       <==> AnsweredOnce(rest) && forall o: nat :: o < |pre| ==> OnceAt(pre + rest, o)
  {
    forall o: nat | o < |rest| ensures OnceAt(pre + rest, |pre| + o) <==> OnceAt(rest, o) {
      OnceAtShift(pre, rest, o);
    }
    if AnsweredOnce(rest) && forall o: nat :: o < |pre| ==> OnceAt(pre + rest, o) {
      forall o: nat | o < |pre + rest| ensures OnceAt(pre + rest, o) {
        if o >= |pre| {
          OnceAtShift(pre, rest, o - |pre|);
        }
      }
    }
  }

  lemma AnsweredOnceTurn(a: Item, run: seq<Item>, rest: seq<Item>)
    requires a.Assistant? && AllResults(run) && StartsTurn(rest)
    ensures AnsweredOnce([a] + run + rest)
       <==> AnsweredOnce(rest) && forall id :: Declares(a, id) ==> CountId(run, id) == 1
  {
    var pre := [a] + run;
    AnsweredOnceAppend(pre, rest);
    OnceAtHead(a, run, rest);
    forall o: nat | 0 < o < |pre| ensures OnceAt(pre + rest, o) {
      assert (pre + rest)[o] == run[o - 1];
    }
  }

  lemma AnsweredOnceOther(x: Item, rest: seq<Item>)
    requires !x.Assistant?
    ensures AnsweredOnce([x] + rest) <==> AnsweredOnce(rest)
  {
    AnsweredOnceAppend([x], rest);
  }

  /** Two splittings of one sequence into a run and what follows it are the same. */
  lemma SameSplit(run: seq<Item>, rest: seq<Item>, run': seq<Item>, rest': seq<Item>)
    requires AllResults(run) && StartsTurn(rest) && AllResults(run') && StartsTurn(rest')
    requires run + rest == run' + rest'
    ensures run == run' && rest == rest'
  {
    RunLenAppend(run, rest);
    RunLenAppend(run', rest');
  }

  lemma {:induction false} FixedIsAnsweredOnce(items: seq<Item>)
    requires RepairTurns(items) == items
    ensures AnsweredOnce(items)
    decreases |items|
  {
    if items == [] {
    } else if items[0].Assistant? {
      var n := RunLen(items[1..]);
      SplitTurn(items, n);
      var a, run, rest := items[0], items[1..][..n], items[1..][n..];
      FixedTurn(a, run, rest);
      FixedIsAnsweredOnce(rest);
      forall id | Declares(a, id) ensures CountId(run, id) == 1 {
        RepairRunAnswers(a, run);
        CountAnswers(run, id);
        RepairRunCount(a.calls, run, id);
      }
      AnsweredOnceTurn(a, run, rest);
    } else {
      assert RepairTurns(items)[0] == items[0];
      assert items == [items[0]] + items[1..];
      assert RepairTurns(items) == [items[0]] + RepairTurns(items[1..]);
      assert RepairTurns(items)[1..] == items[1..];
      FixedIsAnsweredOnce(items[1..]);
      AnsweredOnceOther(items[0], items[1..]);
    }
  }

  lemma FixedTurn(a: Item, run: seq<Item>, rest: seq<Item>)
    requires a.Assistant? && AllResults(run) && StartsTurn(rest)
    requires [a] + RepairRun(a.calls, run) + RepairTurns(rest) == [a] + run + rest
    ensures RepairRun(a.calls, run) == run && RepairTurns(rest) == rest
  {
    SameTurn(a, RepairRun(a.calls, run), RepairTurns(rest), run, rest);
  }

  lemma SameTurn(a: Item, run: seq<Item>, rest: seq<Item>, run': seq<Item>, rest': seq<Item>)
    requires AllResults(run) && StartsTurn(rest) && AllResults(run') && StartsTurn(rest')
    requires [a] + run + rest == [a] + run' + rest'
    ensures run == run' && rest == rest'
  {
    assert ([a] + run + rest)[1..] == run + rest && ([a] + run' + rest')[1..] == run' + rest';
    SameSplit(run, rest, run', rest');
  }

  lemma {:induction false} DedupFull(items: seq<Item>)
    ensures |Dedup(items)| == |items| ==> Dedup(items) == items
    decreases |items|
  {
    if items == [] {
    } else if items[0].Assistant? && items[0].calls != [] {
      var n := RunLen(items[1..]);
      SplitTurn(items, n);
      DedupFull(items[1..][n..]);
      DedupTurn(items[0], items[1..][..n], items[1..][n..]);
      KeepLastFull(items[1..][..n]);
    } else {
      DedupFull(items[1..]);
    }
  }

  lemma {:induction false} StripFull(items: seq<Item>, ids: set<string>)
    ensures StrippedIds(items, ids) == [] ==> Strip(items, ids) == items
    decreases |items|
  {
    if items != [] {
      var next := match items[0]
                  case Assistant(_, calls) => CallIds(calls)
                  case ToolResult(_, _, _) => ids
                  case _ => {};
      StripFull(items[1..], next);
      assert items == [items[0]] + items[1..];
    }
  }

  lemma {:induction false} BackfillFull(items: seq<Item>)
    ensures |Backfill(items)| == |items| ==> Backfill(items) == items
    decreases |items|
  {
    if items == [] {
    } else if items[0].Assistant? && items[0].calls != [] {
      var n := RunLen(items[1..]);
      var run, rest := items[1..][..n], items[1..][n..];
      SplitTurn(items, n);
      BackfillFull(rest);
      BackfillTurn(items[0], run, rest);
      Regroup(items[0], run, Synthetic(items[0].calls, run), Backfill(rest));
      assert run + [] == run;
    } else {
      BackfillFull(items[1..]);
    }
  }

  ghost predicate Untouched(items: seq<Item>) {
    Dedup(items) == items && Strip(items, {}) == items && StrippedIds(items, {}) == [] && Backfill(items) == items
  }

  lemma UntouchedTurn(a: Item, run: seq<Item>, rest: seq<Item>)
    requires a.Assistant? && AllResults(run) && StartsTurn(rest) && Untouched(rest)
    requires forall i :: 0 <= i < |run| ==> Declares(a, run[i].id)
    requires forall id :: Declares(a, id) ==> CountId(run, id) == 1
    ensures Untouched([a] + run + rest)
  {
    forall id ensures CountId(run, id) <= 1 {
      CountAnswers(run, id);
    }
    KeepLastFull(run);
    KeepDeclaredAll(run, CallIds(a.calls));
    forall i | 0 <= i < |a.calls| ensures Answers(run, a.calls[i].id) {
      assert a.calls[i] in a.calls;
      assert Declares(a, a.calls[i].id);
      CountAnswers(run, a.calls[i].id);
    }
    SyntheticNone(a.calls, run);
    DedupTurn(a, run, rest);
    assert run != [] ==> Declares(a, run[0].id);
    StableTurn(a, run, rest);
  }

  lemma UntouchedOther(x: Item, rest: seq<Item>)
    requires !x.Assistant? && !x.ToolResult? && Untouched(rest)
    ensures Untouched([x] + rest)
  {
    assert ([x] + rest)[1..] == rest;
  }

  /** The owner of a result at the front of a turn's run is the assistant of that turn. */
  lemma RunIsDeclared(a: Item, run: seq<Item>, rest: seq<Item>, i: nat)
    requires a.Assistant? && AllResults(run) && WellPaired([a] + run + rest) && i < |run|
    ensures Declares(a, run[i].id)
  {
    var all := [a] + run + rest;
    assert all[i + 1] == run[i] && all[0] == a && forall k :: 0 < k <= i ==> all[k] == run[k - 1];
    assert forall k, id :: 0 < k <= i ==> !Declares(all[k], id);
    assert InRun(all, i + 1);
    var o: nat :| OwnedBy(all, o, i + 1);
    assert o == 0;
  }

  lemma {:induction false} PairedIsUntouched(items: seq<Item>)
    requires WellPaired(items) && AnsweredOnce(items)
    ensures Untouched(items)
    decreases |items|
  {
    if items == [] {
    } else if items[0].Assistant? {
      var n := RunLen(items[1..]);
      SplitTurn(items, n);
      var a, run, rest := items[0], items[1..][..n], items[1..][n..];
      assert items[n + 1..] == rest;
      PairedSuffix(items, n + 1);
      AnsweredOnceTurn(a, run, rest);
      PairedIsUntouched(rest);
      forall i | 0 <= i < |run| ensures Declares(a, run[i].id) {
        RunIsDeclared(a, run, rest, i);
      }
      UntouchedTurn(a, run, rest);
    } else {
      assert !InRun(items, 0);
      assert items == [items[0]] + items[1..];
      PairedSuffixOfOther(items);
      AnsweredOnceOther(items[0], items[1..]);
      PairedIsUntouched(items[1..]);
      UntouchedOther(items[0], items[1..]);
    }
  }

  lemma PairedSuffixOfOther(items: seq<Item>)
    requires items != [] && WellPaired(items) && !items[0].Assistant?
    ensures WellPaired(items[1..])
  {
    if |items| > 1 && items[1].ToolResult? {
      assert InRun(items, 1);
    }
    PairedSuffix(items, 1);
  }

  /** A repair reports no change exactly when every result is in the run of its owner and every
      declared call is answered once there. */
  lemma RepairIsNoopIff(items: seq<Item>)
    ensures !RepairReport(items).Changed() <==> WellPaired(items) && AnsweredOnce(items)
  {
    if WellPaired(items) && AnsweredOnce(items) {
      PairedIsUntouched(items);
    }
    if !RepairReport(items).Changed() {
      DedupFull(items);
      StripFull(items, {});
      BackfillFull(items);
      RepairIsRunwise(items);
      RepairTurnsPaired(items);
      FixedIsAnsweredOnce(items);
    }
  }

  /** The documented idempotence fails for a call id declared twice and never answered. */
  lemma RepairTwiceCanChange(name: string)
    ensures RepairReport(Repair([Assistant("", [Call("a", name, ""), Call("a", name, "")])])).Changed()
  {
    var a := Assistant("", [Call("a", name, ""), Call("a", name, "")]);
    var items := [a];
    assert items[1..] == [];
    assert RunAfter(items, 0) == [];
    assert a.calls[0].id == a.calls[1].id && !Answers([], "a");
    assert AmbiguousAt(items, 0);
    SecondRepairIsNoopIff(items);
  }
}
