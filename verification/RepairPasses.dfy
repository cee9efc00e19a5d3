/** The three passes of `repair_history` as the source runs them, proved against HistoryRepair. */
module RepairPasses {
  import opened Collections
  import opened Conversation
  import opened HistoryRepair
  import RepairedRuns

  /** End of the run of tool results that begins at `start`. */
  method RunEnd(conv: seq<Item>, start: nat) returns (end: nat)
    requires start <= |conv|
    ensures start <= end <= |conv| && AllResults(conv[start..end]) && StartsTurn(conv[end..])
  {
    end := start;
    while end < |conv| && conv[end].ToolResult?
      invariant start <= end <= |conv|
      invariant forall k :: start <= k < end ==> conv[k].ToolResult?
    {
      end := end + 1;
    }
  }

  // ---------- duplicates within one run ----------

  predicate RepeatedBefore(run: seq<Item>, k: nat, n: nat)
    requires k < n <= |run| && AllResults(run)
  {
    exists j :: k < j < n && run[j].id == run[k].id
  }

  /** The last occurrence of every id among the first `n` results. */
  ghost predicate LastSeen(run: seq<Item>, seen: map<string, nat>, n: nat)
    requires n <= |run| && AllResults(run)
  {
    && (forall x :: x in seen ==> seen[x] < n && run[seen[x]].id == x && !RepeatedBefore(run, seen[x], n))
    && (forall k :: 0 <= k < n ==> run[k].id in seen)
  }

  lemma RepeatedGrows(run: seq<Item>, k: nat, n: nat)
    requires k < n < |run| && AllResults(run)
    ensures RepeatedBefore(run, k, n + 1) <==> RepeatedBefore(run, k, n) || run[n].id == run[k].id
  {
  }

  lemma NextSeen(run: seq<Item>, seen: map<string, nat>, n: nat)
    requires n < |run| && AllResults(run) && LastSeen(run, seen, n)
    ensures LastSeen(run, seen[run[n].id := n], n + 1)
  {
    var id := run[n].id;
    forall x | x in seen && x != id ensures !RepeatedBefore(run, seen[x], n + 1) {
      RepeatedGrows(run, seen[x], n);
    }
  }

  lemma FreshlyRepeated(run: seq<Item>, seen: map<string, nat>, n: nat, k: nat)
    requires k < n < |run| && AllResults(run) && LastSeen(run, seen, n)
    requires run[n].id == run[k].id && !RepeatedBefore(run, k, n)
    ensures run[n].id in seen && seen[run[n].id] == k
  {
    var j := seen[run[k].id];
    assert run[j].id == run[k].id && !RepeatedBefore(run, j, n);
    assert !(k < j) && !(j < k);
  }

  /** The indices of `run` whose id comes again later. */
  method FindDuplicates(run: seq<Item>) returns (toRemove: set<nat>)
    requires AllResults(run)
    ensures forall k: nat :: k in toRemove <==> k < |run| && LaterSame(run, k)
  {
    var seen: map<string, nat> := map[];
    toRemove := {};
    for n := 0 to |run|
      invariant LastSeen(run, seen, n)
      invariant forall k: nat :: k in toRemove <==> k < n && RepeatedBefore(run, k, n)
    {
      var id := run[n].id;
      ghost var was := toRemove;
      if id in seen {
        toRemove := toRemove + {seen[id]};
      }
      forall k: nat | k <= n ensures k in toRemove <==> RepeatedBefore(run, k, n + 1) {
        if k < n {
          RepeatedGrows(run, k, n);
          if run[n].id == run[k].id && !RepeatedBefore(run, k, n) {
            FreshlyRepeated(run, seen, n, k);
          }
        }
      }
      NextSeen(run, seen, n);
      seen := seen[id := n];
    }
  }

  lemma KeepLastFrom(run: seq<Item>, k: nat)
    requires k < |run| && AllResults(run)
    ensures KeepLast(run[k..]) == (if LaterSame(run, k) then [] else [run[k]]) + KeepLast(run[k + 1..])
  {
    var here := run[k..];
    assert here[1..] == run[k + 1..];
    if j :| k < j < |run| && run[j].id == run[k].id {
      assert here[j - k].id == here[0].id;
    }
    if j :| 0 < j < |here| && here[j].id == here[0].id {
      assert run[j + k].id == run[k].id;
    }
  }

  lemma RemoveAt(a: seq<Item>, x: Item, b: seq<Item>)
    ensures var all := a + [x] + b; all[..|a|] + all[|a| + 1..] == a + b
  {
  }

  /** The repeated results from `k` on are out. */
  predicate Removed(run: seq<Item>, k: nat, out: seq<Item>)
    requires AllResults(run) && k <= |run|
  {
    k <= |out| && out == run[..k] + KeepLast(run[k..])
  }

  lemma RemoveNext(run: seq<Item>, k: nat, out: seq<Item>)
    requires AllResults(run) && k < |run| && Removed(run, k + 1, out)
    ensures Removed(run, k, if LaterSame(run, k) then out[..k] + out[k + 1..] else out)
  {
    KeepLastFrom(run, k);
    var tail := KeepLast(run[k + 1..]);
    assert run[..k + 1] == run[..k] + [run[k]];
    RemoveAt(run[..k], run[k], tail);
    Assoc(run[..k], [run[k]], tail);
  }

  /** Removal of the repeated results, from the highest index down. */
  method RemoveDuplicates(run: seq<Item>, toRemove: set<nat>) returns (out: seq<Item>)
    requires AllResults(run)
    requires forall k: nat :: k in toRemove <==> k < |run| && LaterSame(run, k)
    ensures out == KeepLast(run) && |out| + |toRemove| == |run|
  {
    out := run;
    assert run[|run|..] == [] && run[..|run|] == run;
    for k := |run| downto 0
      invariant Removed(run, k, out)
    {
      RemoveNext(run, k, out);
      if k in toRemove {
        out := out[..k] + out[k + 1..];
      }
    }
    assert run[0..] == run;
    RemovedCount(run, toRemove, 0);
    assert From(toRemove, 0) == toRemove;
  }

  function From(indices: set<nat>, k: nat): set<nat> { set i | i in indices && k <= i }

  lemma {:induction false} RemovedCount(run: seq<Item>, toRemove: set<nat>, k: nat)
    requires AllResults(run) && k <= |run|
    requires forall i: nat :: i in toRemove <==> i < |run| && LaterSame(run, i)
    ensures |KeepLast(run[k..])| + |From(toRemove, k)| == |run| - k
    decreases |run| - k
  {
    if k == |run| {
      assert From(toRemove, k) == {} && run[k..] == [];
    } else {
      RemovedCount(run, toRemove, k + 1);
      KeepLastFrom(run, k);
      var later := From(toRemove, k + 1);
      assert From(toRemove, k) == if k in toRemove then later + {k} else later;
    }
  }

  lemma KeepLastTwice(run: seq<Item>)
    requires AllResults(run)
    ensures KeepLast(KeepLast(run)) == KeepLast(run)
  {
    forall id ensures CountId(KeepLast(run), id) <= 1 {
      KeepLastCount(run, id);
    }
    KeepLastFull(KeepLast(run));
  }

  lemma {:induction false} NothingRepeated(run: seq<Item>)
    requires AllResults(run) && forall k :: 0 <= k < |run| ==> !LaterSame(run, k)
    ensures KeepLast(run) == run
  {
    var k := |run|;
    assert run[k..] == [];
    while k > 0
      invariant 0 <= k <= |run| && KeepLast(run[k..]) == run[k..]
    {
      k := k - 1;
      KeepLastFrom(run, k);
      assert run[k..] == [run[k]] + run[k + 1..];
    }
    assert run[0..] == run;
  }

  // ---------- dedup_duplicate_tool_results ----------

  lemma DedupAt(conv: seq<Item>, i: nat, end: nat)
    requires i < end <= |conv| && conv[i].Assistant? && conv[i].calls != []
    requires AllResults(conv[i + 1..end]) && StartsTurn(conv[end..])
    ensures Dedup(conv[i..]) == [conv[i]] + KeepLast(conv[i + 1..end]) + Dedup(conv[end..])
  {
    assert conv[i..] == [conv[i]] + conv[i + 1..end] + conv[end..];
    DedupTurn(conv[i], conv[i + 1..end], conv[end..]);
  }

  ghost predicate DedupSoFar(items: seq<Item>, conv: seq<Item>, i: nat) {
    i <= |conv| && conv[..i] + Dedup(conv[i..]) == Dedup(items)
  }

  lemma DedupSkips(items: seq<Item>, conv: seq<Item>, i: nat)
    requires DedupSoFar(items, conv, i) && i < |conv| && !(conv[i].Assistant? && conv[i].calls != [])
    ensures DedupSoFar(items, conv, i + 1)
  {
    DedupOne(conv[i..]);
    assert conv[i..][1..] == conv[i + 1..];
    assert conv[..i + 1] == conv[..i] + [conv[i]];
    Assoc(conv[..i], [conv[i]], Dedup(conv[i + 1..]));
  }

  lemma DedupOne(items: seq<Item>)
    requires items != [] && !(items[0].Assistant? && items[0].calls != [])
    ensures Dedup(items) == [items[0]] + Dedup(items[1..])
  {
  }

  lemma DedupAdvances(items: seq<Item>, conv: seq<Item>, i: nat, end: nat)
    requires DedupSoFar(items, conv, i) && i < end <= |conv|
    requires Dedup(conv[i..]) == conv[i..end] + Dedup(conv[end..])
    ensures DedupSoFar(items, conv, end)
  {
    assert conv[..end] == conv[..i] + conv[i..end];
    Assoc(conv[..i], conv[i..end], Dedup(conv[end..]));
  }

  lemma DedupClean(conv: seq<Item>, i: nat, end: nat)
    requires i < end <= |conv| && conv[i].Assistant? && conv[i].calls != []
    requires AllResults(conv[i + 1..end]) && StartsTurn(conv[end..])
    requires KeepLast(conv[i + 1..end]) == conv[i + 1..end]
    ensures Dedup(conv[i..]) == conv[i..end] + Dedup(conv[end..])
  {
    var run := conv[i + 1..end];
    DedupAt(conv, i, end);
    assert Dedup(conv[i..]) == [conv[i]] + run + Dedup(conv[end..]);
    assert conv[i..end] == [conv[i]] + run;
  }

  lemma DedupShrinks(items: seq<Item>, conv: seq<Item>, i: nat, end: nat, out: seq<Item>)
    requires DedupSoFar(items, conv, i)
    requires i < end <= |conv| && conv[i].Assistant? && conv[i].calls != []
    requires AllResults(conv[i + 1..end]) && StartsTurn(conv[end..])
    requires out == conv[..i + 1] + KeepLast(conv[i + 1..end]) + conv[end..]
    ensures DedupSoFar(items, out, i)
  {
    var k := KeepLast(conv[i + 1..end]);
    var e := i + 1 + |k|;
    assert out[i] == conv[i] && out[i + 1..e] == k && out[e..] == conv[end..] && out[..i] == conv[..i];
    DedupAt(conv, i, end);
    DedupAt(out, i, e);
    KeepLastTwice(conv[i + 1..end]);
  }

  lemma DedupPasses(items: seq<Item>, conv: seq<Item>, i: nat, end: nat, run: seq<Item>)
    requires DedupSoFar(items, conv, i) && i < end <= |conv| && conv[i].Assistant? && conv[i].calls != []
    requires run == conv[i + 1..end] && AllResults(run) && StartsTurn(conv[end..])
    requires forall k :: 0 <= k < |run| ==> !LaterSame(run, k)
    ensures DedupSoFar(items, conv, end)
  {
    NothingRepeated(run);
    DedupClean(conv, i, end);
    DedupAdvances(items, conv, i, end);
  }

  method DedupDuplicateToolResults(items: seq<Item>) returns (conv: seq<Item>, removed: nat)
    ensures conv == Dedup(items) && removed == |items| - |conv|
  {
    conv, removed := items, 0;
    var i := 0;
    assert conv[0..] == conv && conv[..0] == [];
    while i < |conv|
      invariant DedupSoFar(items, conv, i)
      invariant removed + |conv| == |items|
      decreases |conv| - i
    {
      if conv[i].Assistant? && conv[i].calls != [] {
        var end := RunEnd(conv, i + 1);
        var toRemove := FindDuplicates(conv[i + 1..end]);
        if toRemove != {} {
          var run := RemoveDuplicates(conv[i + 1..end], toRemove);
          ghost var before := conv;
          conv := conv[..i + 1] + run + conv[end..];
          removed := removed + |toRemove|;
          // The window shifted: scan again from the same item.
          DedupShrinks(items, before, i, end, conv);
        } else {
          DedupPasses(items, conv, i, end, conv[i + 1..end]);
          i := end;
        }
      } else {
        DedupSkips(items, conv, i);
        i := i + 1;
      }
    }
    assert conv[i..] == [] && conv[..i] == conv;
  }

  // ---------- strip_displaced_tool_results ----------

  ghost predicate StripSoFar(items: seq<Item>, i: nat, ids: set<string>, kept: seq<Item>, stripped: seq<string>) {
    && i <= |items|
    && kept + Strip(items[i..], ids) == Strip(items, {})
    && stripped + StrippedIds(items[i..], ids) == StrippedIds(items, {})
  }

  lemma StripNext(items: seq<Item>, i: nat, ids: set<string>, kept: seq<Item>, stripped: seq<string>)
    requires i < |items| && StripSoFar(items, i, ids, kept, stripped)
    ensures
      match items[i]
      case Assistant(_, calls) => StripSoFar(items, i + 1, CallIds(calls), kept + [items[i]], stripped)
      case ToolResult(id, _, _) =>
        if id in ids then StripSoFar(items, i + 1, ids, kept + [items[i]], stripped)
        else StripSoFar(items, i + 1, ids, kept, stripped + [id])
      case _ => StripSoFar(items, i + 1, {}, kept + [items[i]], stripped)
  {
    var here := items[i..];
    assert here[0] == items[i] && here[1..] == items[i + 1..];
    var rest := items[i + 1..];
    match items[i] {
      case Assistant(_, calls) =>
        assert kept + ([items[i]] + Strip(rest, CallIds(calls))) == kept + [items[i]] + Strip(rest, CallIds(calls));
      case ToolResult(id, _, _) =>
        assert kept + ([items[i]] + Strip(rest, ids)) == kept + [items[i]] + Strip(rest, ids);
        assert stripped + ([id] + StrippedIds(rest, ids)) == stripped + [id] + StrippedIds(rest, ids);
      case _ =>
        assert kept + ([items[i]] + Strip(rest, {})) == kept + [items[i]] + Strip(rest, {});
    }
  }

  method StripDisplacedToolResults(items: seq<Item>) returns (kept: seq<Item>, stripped: seq<string>)
    ensures kept == Strip(items, {}) && stripped == StrippedIds(items, {})
  {
    var runIds: set<string> := {};
    kept, stripped := [], [];
    assert items[0..] == items;
    for i := 0 to |items|
      invariant StripSoFar(items, i, runIds, kept, stripped)
    {
      StripNext(items, i, runIds, kept, stripped);
      match items[i] {
        case Assistant(_, calls) =>
          runIds := CallIds(calls);
          kept := kept + [items[i]];
        case ToolResult(id, _, _) =>
          if id in runIds {
            kept := kept + [items[i]];
          } else {
            stripped := stripped + [id];
          }
        case _ =>
          runIds := {};
          kept := kept + [items[i]];
      }
    }
    assert items[|items|..] == [];
  }

  // ---------- repair_dangling_tool_calls: collect insertions, then splice them in from the back ----------

  datatype Insertion = Insertion(at: nat, results: seq<Item>)

  predicate WithinOrder(ins: seq<Insertion>, limit: nat) {
    && (forall i :: 0 <= i < |ins| ==> ins[i].at <= limit)
    && (forall i, j :: 0 <= i < j < |ins| ==> ins[i].at <= ins[j].at)
  }

  function Spliced(conv: seq<Item>, ins: seq<Insertion>): seq<Item>
    requires WithinOrder(ins, |conv|)
    decreases |ins|
  {
    if ins == [] then conv
    else
      var last := ins[|ins| - 1];
      Spliced(conv[..last.at], ins[..|ins| - 1]) + last.results + conv[last.at..]
  }

  lemma SplicedTail(a: seq<Item>, b: seq<Item>, ins: seq<Insertion>)
    requires WithinOrder(ins, |a|)
    ensures Spliced(a + b, ins) == Spliced(a, ins) + b
  {
    if ins != [] {
      var last := ins[|ins| - 1];
      assert (a + b)[..last.at] == a[..last.at];
      assert (a + b)[last.at..] == a[last.at..] + b;
    }
  }

  lemma SplicedLast(a: seq<Item>, ins: seq<Insertion>, results: seq<Item>)
    requires WithinOrder(ins, |a|)
    ensures WithinOrder(ins + [Insertion(|a|, results)], |a|)
    ensures Spliced(a, ins + [Insertion(|a|, results)]) == Spliced(a, ins) + results
  {
    var more := ins + [Insertion(|a|, results)];
    assert more[..|more| - 1] == ins && a[..|a|] == a && a[|a|..] == [];
  }

  function Inserted(ins: seq<Insertion>): nat {
    if ins == [] then 0 else Inserted(ins[..|ins| - 1]) + |ins[|ins| - 1].results|
  }

  lemma {:induction false} SplicedLength(conv: seq<Item>, ins: seq<Insertion>)
    requires WithinOrder(ins, |conv|)
    ensures |Spliced(conv, ins)| == |conv| + Inserted(ins)
    decreases |ins|
  {
    if ins != [] {
      SplicedLength(conv[..ins[|ins| - 1].at], ins[..|ins| - 1]);
    }
  }

  ghost predicate CollectedSoFar(conv: seq<Item>, i: nat, ins: seq<Insertion>) {
    && i <= |conv| && WithinOrder(ins, i)
    && Spliced(conv[..i], ins) + Backfill(conv[i..]) == Backfill(conv)
  }

  lemma CollectSkips(conv: seq<Item>, i: nat, ins: seq<Insertion>)
    requires CollectedSoFar(conv, i, ins) && i < |conv| && !(conv[i].Assistant? && conv[i].calls != [])
    ensures CollectedSoFar(conv, i + 1, ins)
  {
    BackfillOne(conv[i..]);
    assert conv[i..][1..] == conv[i + 1..];
    SplicedTail(conv[..i], [conv[i]], ins);
    assert conv[..i + 1] == conv[..i] + [conv[i]];
    Assoc(Spliced(conv[..i], ins), [conv[i]], Backfill(conv[i + 1..]));
  }

  lemma BackfillOne(items: seq<Item>)
    requires items != [] && !(items[0].Assistant? && items[0].calls != [])
    ensures Backfill(items) == [items[0]] + Backfill(items[1..])
  {
  }

  lemma BackfillAt(conv: seq<Item>, i: nat, j: nat)
    requires i < j <= |conv| && conv[i].Assistant? && conv[i].calls != []
    requires AllResults(conv[i + 1..j]) && StartsTurn(conv[j..])
    ensures Backfill(conv[i..])
         == conv[i..j] + Synthetic(conv[i].calls, conv[i + 1..j]) + Backfill(conv[j..])
  {
    assert conv[i..] == [conv[i]] + conv[i + 1..j] + conv[j..];
    assert conv[i..j] == [conv[i]] + conv[i + 1..j];
    BackfillTurn(conv[i], conv[i + 1..j], conv[j..]);
  }

  lemma SplicedTurn(conv: seq<Item>, i: nat, j: nat, ins: seq<Insertion>, results: seq<Item>)
    requires i < j <= |conv| && WithinOrder(ins, i)
    ensures WithinOrder(ins, j) && Spliced(conv[..j], ins) == Spliced(conv[..i], ins) + conv[i..j]
    ensures WithinOrder(ins + [Insertion(j, results)], j)
    ensures Spliced(conv[..j], ins + [Insertion(j, results)]) == Spliced(conv[..i], ins) + conv[i..j] + results
  {
    assert conv[..j] == conv[..i] + conv[i..j];
    SplicedTail(conv[..i], conv[i..j], ins);
    SplicedLast(conv[..j], ins, results);
  }

  lemma Assoc4<T>(a: seq<T>, b: seq<T>, c: seq<T>, d: seq<T>)
    ensures a + (b + c + d) == a + b + c + d
    ensures c == [] ==> a + (b + c + d) == a + b + d
  {
    if c == [] {
      assert b + c == b;
    }
  }

  lemma CollectTurn(conv: seq<Item>, i: nat, j: nat, ins: seq<Insertion>, results: seq<Item>)
    requires CollectedSoFar(conv, i, ins) && i < j <= |conv|
    requires Backfill(conv[i..]) == conv[i..j] + results + Backfill(conv[j..])
    ensures results == [] ==> CollectedSoFar(conv, j, ins)
    ensures CollectedSoFar(conv, j, ins + [Insertion(j, results)])
  {
    SplicedTurn(conv, i, j, ins, results);
    Assoc4(Spliced(conv[..i], ins), conv[i..j], results, Backfill(conv[j..]));
  }

  /** First phase: one insertion after the run of every assistant with unanswered calls. */
  method CollectInsertions(conv: seq<Item>) returns (ins: seq<Insertion>)
    ensures WithinOrder(ins, |conv|) && Spliced(conv, ins) == Backfill(conv)
  {
    ins := [];
    var i := 0;
    assert conv[..0] == [] && conv[0..] == conv;
    while i < |conv|
      invariant CollectedSoFar(conv, i, ins)
    {
      if conv[i].Assistant? && conv[i].calls != [] {
        var j := RunEnd(conv, i + 1);
        var synthetic := MissingResults(conv[i].calls, conv[i + 1..j]);
        BackfillAt(conv, i, j);
        CollectTurn(conv, i, j, ins, synthetic);
        if synthetic != [] {
          ins := ins + [Insertion(j, synthetic)];
        }
        i := j;
      } else {
        CollectSkips(conv, i, ins);
        i := i + 1;
      }
    }
    assert conv[..i] == conv && conv[i..] == [];
  }

  method AnsweredIds(run: seq<Item>) returns (answered: set<string>)
    requires AllResults(run)
    ensures forall x :: x in answered <==> Answers(run, x)
  {
    answered := {};
    for j := 0 to |run|
      invariant forall x :: x in answered <==> exists k :: 0 <= k < j && run[k].id == x
    {
      answered := answered + {run[j].id};
    }
  }

  ghost predicate MissingSoFar(calls: seq<Call>, run: seq<Item>, k: nat, made: seq<Item>) {
    k <= |calls| && made + Synthetic(calls[k..], run) == Synthetic(calls, run)
  }

  lemma MissingNext(calls: seq<Call>, run: seq<Item>, k: nat, made: seq<Item>)
    requires k < |calls| && MissingSoFar(calls, run, k, made)
    ensures Answers(run, calls[k].id) ==> MissingSoFar(calls, run, k + 1, made)
    ensures !Answers(run, calls[k].id) ==>
              MissingSoFar(calls, run, k + 1, made + [ToolResult(calls[k].id, SyntheticText(calls[k].name), [])])
  {
    assert calls[k..][1..] == calls[k + 1..];
    Assoc(made, [ToolResult(calls[k].id, SyntheticText(calls[k].name), [])], Synthetic(calls[k + 1..], run));
  }

  method MissingResults(calls: seq<Call>, run: seq<Item>) returns (synthetic: seq<Item>)
    requires AllResults(run)
    ensures synthetic == Synthetic(calls, run)
  {
    var answered := AnsweredIds(run);
    synthetic := [];
    assert calls[0..] == calls;
    for k := 0 to |calls|
      invariant MissingSoFar(calls, run, k, synthetic)
    {
      MissingNext(calls, run, k, synthetic);
      if calls[k].id !in answered {
        synthetic := synthetic + [ToolResult(calls[k].id, SyntheticText(calls[k].name), [])];
      }
    }
    assert calls[|calls|..] == [];
  }

  /** The insertions `ins[..n]` are still to be spliced in, all at or before position `cut`. */
  ghost predicate ToSplice(conv: seq<Item>, cut: nat, ins: seq<Insertion>, goal: seq<Item>) {
    && cut <= |conv| && WithinOrder(ins, cut)
    && Spliced(conv[..cut], ins) + conv[cut..] == goal
  }

  lemma SpliceNext(conv: seq<Item>, cut: nat, ins: seq<Insertion>, goal: seq<Item>)
    requires ins != [] && ToSplice(conv, cut, ins, goal)
    ensures
      var r := ins[|ins| - 1];
      ToSplice(conv[..r.at] + r.results + conv[r.at..], r.at, ins[..|ins| - 1], goal)
  {
    var r := ins[|ins| - 1];
    var out := conv[..r.at] + r.results + conv[r.at..];
    assert out[..r.at] == conv[..r.at] == conv[..cut][..r.at];
    assert out[r.at..] == r.results + (conv[r.at..cut] + conv[cut..]);
    assert conv[..cut][r.at..] == conv[r.at..cut];
  }

  /** Second phase: splice from the back so that earlier positions stay valid. */
  method RepairDanglingToolCalls(items: seq<Item>) returns (conv: seq<Item>, inserted: nat)
    ensures conv == Backfill(items) && inserted == |conv| - |items|
  {
    var ins := CollectInsertions(items);
    SplicedLength(items, ins);
    inserted := Inserted(ins);
    conv := SpliceFromTheBack(items, ins);
  }

  method SpliceFromTheBack(items: seq<Item>, ins: seq<Insertion>) returns (conv: seq<Item>)
    requires WithinOrder(ins, |items|)
    ensures conv == Spliced(items, ins)
  {
    conv := items;
    ghost var goal, cut: nat := Spliced(items, ins), |items|;
    assert conv[..cut] == conv && conv[cut..] == [];
    var n := |ins|;
    assert ins[..n] == ins;
    while n > 0
      invariant 0 <= n <= |ins|
      invariant ToSplice(conv, cut, ins[..n], goal)
    {
      SpliceNext(conv, cut, ins[..n], goal);
      n := n - 1;
      var r := ins[n];
      assert ins[..n + 1][..n] == ins[..n];
      conv := conv[..r.at] + r.results + conv[r.at..];
      cut := r.at;
    }
    assert conv == conv[..cut] + conv[cut..];
  }

  /** The whole repair: the new history and what was changed. */
  method RepairHistory(items: seq<Item>) returns (conv: seq<Item>, report: Report)
    ensures conv == Repair(items) && report == RepairReport(items)
    ensures WellPaired(conv) && Answered(conv) && NonResults(conv) == NonResults(items)
    ensures RepairedRuns.IsRepairedHistory(items, conv)
  {
    var deduped, duplicates := DedupDuplicateToolResults(items);
    var stripped, ids := StripDisplacedToolResults(deduped);
    var inserted;
    conv, inserted := RepairDanglingToolCalls(stripped);
    report := Report(duplicates, ids, inserted);
    RepairEstablishesPairing(items);
    RepairKeepsOtherItems(items);
    RepairedRuns.RepairedIsRepaired(items);
  }
}
