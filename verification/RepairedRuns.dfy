/** Which results a repaired history holds, told from the original history alone. */
module RepairedRuns {
  import opened Collections
  import opened Conversation
  import opened HistoryRepair

  /** Positions in increasing order. */
  predicate Increasing(pos: seq<nat>) { forall i, j :: 0 <= i < j < |pos| ==> pos[i] < pos[j] }

  /** The last result of its id in the run, and an answer to one of the calls. */
  predicate IsLastAnswer(calls: seq<Call>, run: seq<Item>, k: nat) {
    && k < |run| && run[k].ToolResult? && run[k].id in CallIds(calls)
    && forall j :: k < j < |run| && run[j].ToolResult? ==> run[j].id != run[k].id
  }

  /** `kept` are the items of `run` at the positions `pos`: the last answers. */
  ghost predicate AreLastAnswers(calls: seq<Call>, run: seq<Item>, pos: seq<nat>, kept: seq<Item>) {
    && Increasing(pos) && |pos| == |kept|
    && (forall k: nat :: k in pos <==> IsLastAnswer(calls, run, k))
    && forall i :: 0 <= i < |pos| ==> pos[i] < |run| && kept[i] == run[pos[i]]
  }

  function MadeUp(call: Call): Item { ToolResult(call.id, SyntheticText(call.name), []) }

  /** `made` are results that say of each call without an answer in `run` that it was not executed. */
  ghost predicate AreMadeUp(calls: seq<Call>, run: seq<Item>, pos: seq<nat>, made: seq<Item>) {
    && Increasing(pos) && |pos| == |made|
    && (forall k: nat :: k in pos <==> k < |calls| && !Answers(run, calls[k].id))
    && forall i :: 0 <= i < |pos| ==>
         pos[i] < |calls| && made[i] == MadeUp(calls[pos[i]])
  }

  /** The last answer to each call, in their order in the run; then a made-up result for each call
      without an answer, in the order of the calls. */
  ghost predicate IsRepairedRun(calls: seq<Call>, run: seq<Item>, out: seq<Item>) {
    exists answers: seq<nat>, open: seq<nat> ::
      && |answers| <= |out|
      && AreLastAnswers(calls, run, answers, out[..|answers|])
      && AreMadeUp(calls, run, open, out[|answers|..])
  }

  /** Turn by turn: other items are kept, the run after each assistant is repaired, and results
      outside such a run are gone. */
  ghost predicate IsRepairedHistory(items: seq<Item>, out: seq<Item>)
    decreases |items|
  {
    if items == [] then out == []
    else if items[0].Assistant? then
      var n := RunLen(items[1..]);
      && out != [] && out[0] == items[0]
      && var m := RunLen(out[1..]);
         && IsRepairedRun(items[0].calls, items[1..][..n], out[1..][..m])
         && IsRepairedHistory(items[1..][n..], out[1..][m..])
    else if items[0].ToolResult? then IsRepairedHistory(items[1..], out)
    else out != [] && out[0] == items[0] && IsRepairedHistory(items[1..], out[1..])
  }

  // ---------- positions one further on ----------

  function Next(pos: seq<nat>): (r: seq<nat>)
    ensures |r| == |pos| && forall i :: 0 <= i < |pos| ==> r[i] == pos[i] + 1
  {
    seq(|pos|, i requires 0 <= i < |pos| => pos[i] + 1)
  }

  lemma NextMember(pos: seq<nat>, k: nat)
    ensures k in Next(pos) <==> k > 0 && k - 1 in pos
  {
    if k > 0 && k - 1 in pos {
      var i :| 0 <= i < |pos| && pos[i] == k - 1;
      assert Next(pos)[i] == k;
    }
  }

  /** Positions in a sequence from those in its rest; `first` says that the head is among them. */
  function Positions(first: bool, pos: seq<nat>): seq<nat> { (if first then [0] else []) + Next(pos) }

  lemma PositionsMember(first: bool, pos: seq<nat>, k: nat)
    ensures k in Positions(first, pos) <==> (k == 0 && first) || (k > 0 && k - 1 in pos)
  {
    NextMember(pos, k);
  }

  lemma PositionsIncrease(first: bool, pos: seq<nat>)
    requires Increasing(pos)
    ensures Increasing(Positions(first, pos))
  {
  }

  // ---------- the kept results ----------

  lemma LastAnswerCons(calls: seq<Call>, run: seq<Item>, k: nat)
    requires run != [] && AllResults(run)
    ensures k > 0 ==> (IsLastAnswer(calls, run, k) <==> IsLastAnswer(calls, run[1..], k - 1))
    ensures IsLastAnswer(calls, run, 0) <==> run[0].id in CallIds(calls) && !LaterSame(run, 0)
  {
    if k > 0 {
      assert forall j :: 1 <= j < |run| ==> run[1..][j - 1] == run[j];
    }
  }

  lemma KeptCons(calls: seq<Call>, run: seq<Item>)
    requires run != [] && AllResults(run)
    ensures Kept(calls, run)
         == (if run[0].id in CallIds(calls) && !LaterSame(run, 0) then [run[0]] else []) + Kept(calls, run[1..])
  {
    if !LaterSame(run, 0) {
      assert ([run[0]] + KeepLast(run[1..]))[1..] == KeepLast(run[1..]);
    }
  }

  lemma PickedCons(run: seq<Item>, first: bool, pos: seq<nat>, kept: seq<Item>)
    requires run != [] && |pos| == |kept|
    requires forall i :: 0 <= i < |pos| ==> pos[i] < |run[1..]| && kept[i] == run[1..][pos[i]]
    ensures
      var all, out := Positions(first, pos), (if first then [run[0]] else []) + kept;
      |all| == |out| && forall i :: 0 <= i < |all| ==> all[i] < |run| && out[i] == run[all[i]]
  {
  }

  /** The results kept are the last answers. */
  lemma {:induction false} KeptAreLastAnswers(calls: seq<Call>, run: seq<Item>) returns (pos: seq<nat>)
    requires AllResults(run)
    ensures AreLastAnswers(calls, run, pos, Kept(calls, run))
    decreases |run|
  {
    pos := [];
    if run != [] {
      var rest := KeptAreLastAnswers(calls, run[1..]);
      var first := run[0].id in CallIds(calls) && !LaterSame(run, 0);
      pos := Positions(first, rest);
      PositionsIncrease(first, rest);
      KeptCons(calls, run);
      PickedCons(run, first, rest, Kept(calls, run[1..]));
      forall k: nat ensures k in pos <==> IsLastAnswer(calls, run, k) {
        PositionsMember(first, rest, k);
        LastAnswerCons(calls, run, k);
      }
    }
  }

  // ---------- the made-up results ----------

  lemma SyntheticCons(calls: seq<Call>, run: seq<Item>)
    requires calls != []
    ensures Synthetic(calls, run)
         == (if !Answers(run, calls[0].id) then [MadeUp(calls[0])] else []) + Synthetic(calls[1..], run)
  {
  }

  lemma MadeUpCons(calls: seq<Call>, first: bool, pos: seq<nat>, made: seq<Item>)
    requires calls != [] && |pos| == |made|
    requires forall i :: 0 <= i < |pos| ==> pos[i] < |calls[1..]| && made[i] == MadeUp(calls[1..][pos[i]])
    ensures
      var all, out := Positions(first, pos), (if first then [MadeUp(calls[0])] else []) + made;
      |all| == |out| && forall i :: 0 <= i < |all| ==> all[i] < |calls| && out[i] == MadeUp(calls[all[i]])
  {
  }

  lemma {:induction false} SyntheticAreMadeUp(calls: seq<Call>, run: seq<Item>) returns (pos: seq<nat>)
    ensures AreMadeUp(calls, run, pos, Synthetic(calls, run))
    decreases |calls|
  {
    pos := [];
    if calls != [] {
      var rest := SyntheticAreMadeUp(calls[1..], run);
      var first := !Answers(run, calls[0].id);
      pos := Positions(first, rest);
      PositionsIncrease(first, rest);
      SyntheticCons(calls, run);
      MadeUpCons(calls, first, rest, Synthetic(calls[1..], run));
      forall k: nat ensures k in pos <==> k < |calls| && !Answers(run, calls[k].id) {
        PositionsMember(first, rest, k);
      }
    }
  }

  /** A declared call is answered by what is kept exactly when the run answered it. */
  lemma KeptAnswers(calls: seq<Call>, run: seq<Item>, id: string)
    requires AllResults(run) && id in CallIds(calls)
    ensures Answers(Kept(calls, run), id) <==> Answers(run, id)
  {
    KeepLastCount(run, id);
    KeepDeclaredCount(KeepLast(run), CallIds(calls), id);
    CountAnswers(Kept(calls, run), id);
  }

  lemma RepairRunIsRepaired(calls: seq<Call>, run: seq<Item>)
    requires AllResults(run)
    ensures IsRepairedRun(calls, run, RepairRun(calls, run))
  {
    var kept := Kept(calls, run);
    var made := Synthetic(calls, kept);
    var answers := KeptAreLastAnswers(calls, run);
    var open := SyntheticAreMadeUp(calls, kept);
    forall k: nat | k < |calls| ensures Answers(kept, calls[k].id) <==> Answers(run, calls[k].id) {
      KeptAnswers(calls, run, calls[k].id);
    }
    assert AreMadeUp(calls, run, open, made);
    assert (kept + made)[..|answers|] == kept && (kept + made)[|answers|..] == made;
  }

  // ---------- whole histories ----------

  lemma RepairedTurn(items: seq<Item>, run: seq<Item>, rest: seq<Item>)
    requires items != [] && items[0].Assistant? && AllResults(run) && StartsTurn(rest)
    requires IsRepairedRun(items[0].calls, items[1..][..RunLen(items[1..])], run)
    requires IsRepairedHistory(items[1..][RunLen(items[1..])..], rest)
    ensures IsRepairedHistory(items, [items[0]] + run + rest)
  {
    SplitOff(items[0], run, rest);
    assert IsRepairedHistory(items, [items[0]] + run + rest);
  }

  /** The first turn of a history taken apart again. */
  lemma SplitOff(a: Item, run: seq<Item>, rest: seq<Item>)
    requires AllResults(run) && StartsTurn(rest)
    ensures
      var out := [a] + run + rest;
      && out != [] && out[0] == a && RunLen(out[1..]) == |run|
      && out[1..][..|run|] == run && out[1..][|run|..] == rest
  {
    assert ([a] + run + rest)[1..] == run + rest;
    RunLenAppend(run, rest);
  }

  lemma {:induction false} TurnsAreRepaired(items: seq<Item>)
    ensures IsRepairedHistory(items, RepairTurns(items))
    decreases |items|
  {
    if items == [] {
    } else if items[0].Assistant? {
      var n := RunLen(items[1..]);
      RepairRunIsRepaired(items[0].calls, items[1..][..n]);
      TurnsAreRepaired(items[1..][n..]);
      RepairedTurn(items, RepairRun(items[0].calls, items[1..][..n]), RepairTurns(items[1..][n..]));
    } else {
      TurnsAreRepaired(items[1..]);
      assert ([items[0]] + RepairTurns(items[1..]))[1..] == RepairTurns(items[1..]);
    }
  }

  /** For every history, a repair leaves in each run the last answer to each call and a made-up
      result for each call without one, and nothing else. */
  lemma RepairedIsRepaired(items: seq<Item>)
    ensures IsRepairedHistory(items, Repair(items))
  {
    RepairIsRunwise(items);
    TurnsAreRepaired(items);
  }

  // ---------- the report ----------

  function Times(ids: seq<string>, id: string): nat {
    if ids == [] then 0 else (if ids[0] == id then 1 else 0) + Times(ids[1..], id)
  }

  function IdsAfter(ids: set<string>, item: Item): set<string> {
    match item
    case Assistant(_, calls) => CallIds(calls)
    case ToolResult(_, _, _) => ids
    case _ => {}
  }

  lemma StripCons(items: seq<Item>, ids: set<string>)
    requires items != []
    ensures
      var next := IdsAfter(ids, items[0]);
      var rest, stripped := Strip(items[1..], next), StrippedIds(items[1..], next);
      if items[0].ToolResult? && items[0].id !in ids
      then Strip(items, ids) == rest && StrippedIds(items, ids) == [items[0].id] + stripped
      else Strip(items, ids) == [items[0]] + rest && StrippedIds(items, ids) == stripped
  {
  }

  lemma CountCons(x: Item, rest: seq<Item>, id: string)
    ensures CountId([x] + rest, id) == (if x.ToolResult? && x.id == id then 1 else 0) + CountId(rest, id)
  {
    assert ([x] + rest)[1..] == rest;
  }

  lemma TimesCons(first: string, rest: seq<string>, id: string)
    ensures Times([first] + rest, id) == (if first == id then 1 else 0) + Times(rest, id)
  {
    assert ([first] + rest)[1..] == rest;
  }

  /** The ids reported as stripped are those of the results stripped, each as often as it was. */
  lemma {:induction false} StrippedIdsCount(items: seq<Item>, ids: set<string>, id: string)
    ensures CountId(items, id) == CountId(Strip(items, ids), id) + Times(StrippedIds(items, ids), id)
    ensures |items| == |Strip(items, ids)| + |StrippedIds(items, ids)|
    decreases |items|
  {
    if items != [] {
      var next := IdsAfter(ids, items[0]);
      StrippedIdsCount(items[1..], next, id);
      StripCons(items, ids);
      CountCons(items[0], Strip(items[1..], next), id);
      if items[0].ToolResult? {
        TimesCons(items[0].id, StrippedIds(items[1..], next), id);
      }
    }
  }

  /** The report accounts for every result: what was there, less duplicates and displaced ones, and
      the made-up ones on top. */
  lemma ReportAddsUp(items: seq<Item>)
    ensures
      var r := RepairReport(items);
      |Repair(items)| + r.duplicatesRemoved + |r.strippedIds| == |items| + r.syntheticInserted
  {
    StrippedIdsCount(Dedup(items), {}, "");
  }
}
