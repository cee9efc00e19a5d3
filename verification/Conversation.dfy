/** Conversation items, and what it means for tool results to be paired with their calls. */
module Conversation {

  datatype Part = Text(text: string) | Image(url: string)

  datatype Call = Call(id: string, name: string, arguments: string)

  /** `User.synthetic` says that the runtime, not a person, wrote the message. */
  datatype Item =
    | System(text: string)
    | User(parts: seq<Part>, synthetic: bool)
    | Assistant(text: string, calls: seq<Call>)
    | ToolResult(id: string, text: string, images: seq<Part>)
    | Reasoning(text: string)
    | BackendToolCall(text: string)

  function CallIds(calls: seq<Call>): set<string> { set c | c in calls :: c.id }

  predicate Declares(item: Item, id: string) { item.Assistant? && id in CallIds(item.calls) }

  predicate AllResults(items: seq<Item>) { forall i :: 0 <= i < |items| ==> items[i].ToolResult? }

  predicate DistinctCalls(calls: seq<Call>) {
    forall i, j :: 0 <= i < j < |calls| ==> calls[i].id != calls[j].id
  }

  /** Item `k` is a result in the contiguous run after the assistant `o` that declared its id. */
  predicate OwnedBy(items: seq<Item>, o: nat, k: nat) {
    && o < k < |items|
    && items[k].ToolResult?
    && Declares(items[o], items[k].id)
    && AllResults(items[o + 1..k])
  }

  ghost predicate InRun(items: seq<Item>, k: nat) { exists o :: OwnedBy(items, o, k) }

  /** The provider's adjacency rule: every tool result is in the run of its owner. */
  ghost predicate WellPaired(items: seq<Item>) {
    forall k :: 0 <= k < |items| && items[k].ToolResult? ==> InRun(items, k)
  }

  /** Length of the run of tool results at the front. */
  function RunLen(items: seq<Item>): (n: nat)
    ensures n <= |items| && AllResults(items[..n]) && (n < |items| ==> !items[n].ToolResult?)
  {
    if items != [] && items[0].ToolResult? then
      var n := RunLen(items[1..]);
      assert items[..n + 1] == [items[0]] + items[1..][..n];
      n + 1
    else 0
  }

  /** The run of tool results right after item `o`. */
  function RunAfter(items: seq<Item>, o: nat): seq<Item>
    requires o < |items|
  {
    items[o + 1..][..RunLen(items[o + 1..])]
  }

  /** How many results of `run` answer `id`. */
  function CountId(run: seq<Item>, id: string): nat {
    if run == [] then 0
    else (if run[0].ToolResult? && run[0].id == id then 1 else 0) + CountId(run[1..], id)
  }

  predicate Answers(run: seq<Item>, id: string) {
    exists i :: 0 <= i < |run| && run[i].ToolResult? && run[i].id == id
  }

  predicate StartsTurn(items: seq<Item>) { items == [] || !items[0].ToolResult? }

  lemma {:induction false} RunLenAppend(run: seq<Item>, rest: seq<Item>)
    requires AllResults(run) && StartsTurn(rest)
    ensures RunLen(run + rest) == |run|
    ensures (run + rest)[..|run|] == run && (run + rest)[|run|..] == rest
  {
    if run == [] {
      assert run + rest == rest;
    } else {
      assert (run + rest)[1..] == run[1..] + rest;
      RunLenAppend(run[1..], rest);
    }
  }

  lemma {:induction false} CountAppend(a: seq<Item>, b: seq<Item>, id: string)
    ensures CountId(a + b, id) == CountId(a, id) + CountId(b, id)
  {
    if a == [] {
      assert a + b == b;
    } else {
      assert (a + b)[1..] == a[1..] + b;
      CountAppend(a[1..], b, id);
    }
  }

  lemma {:induction false} CountAnswers(run: seq<Item>, id: string)
    ensures CountId(run, id) > 0 <==> Answers(run, id)
  {
    if run != [] {
      CountAnswers(run[1..], id);
      if Answers(run[1..], id) {
        var i :| 0 <= i < |run[1..]| && run[1..][i].ToolResult? && run[1..][i].id == id;
        assert run[i + 1].id == id;
      }
      if i :| 0 <= i < |run| && run[i].ToolResult? && run[i].id == id && i > 0 {
        assert run[1..][i - 1].id == id;
      }
    }
  }

  lemma InsideRun(items: seq<Item>, o: nat, k: nat, m: nat)
    requires OwnedBy(items, o, k) && o < m <= k
    ensures items[m].ToolResult?
  {
    if m < k {
      assert items[o + 1..k][m - o - 1] == items[m];
    }
  }

  lemma WithinRun(items: seq<Item>, o: nat, k: nat)
    requires OwnedBy(items, o, k)
    ensures forall m :: o < m <= k ==> items[m].ToolResult?
  {
    forall m | o < m <= k ensures items[m].ToolResult? {
      InsideRun(items, o, k, m);
    }
  }

  lemma OwnedInSuffix(items: seq<Item>, k: nat, o: nat, j: nat)
    requires k <= o && OwnedBy(items, o, k + j)
    ensures OwnedBy(items[k..], o - k, j)
  {
    assert items[k..][o - k + 1..j] == items[o + 1..k + j];
  }

  /** A suffix that starts a turn keeps every owner of the results in it. */
  lemma PairedSuffix(items: seq<Item>, k: nat)
    requires WellPaired(items) && k <= |items| && StartsTurn(items[k..])
    ensures WellPaired(items[k..])
  {
    forall j: nat | j < |items[k..]| && items[k..][j].ToolResult? ensures InRun(items[k..], j) {
      assert InRun(items, k + j);
      var o: nat :| OwnedBy(items, o, k + j);
      WithinRun(items, o, k + j);
      assert items[k..][0] == items[k];
      OwnedInSuffix(items, k, o, j);
    }
  }
}
