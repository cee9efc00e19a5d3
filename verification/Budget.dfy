/**
 Shrinking a conversation to a token budget: `fit_conversation_to_budget`, for an arbitrary
 cost function.
 */
module Budget {
  import opened Collections
  import opened Conversation
  import HistoryRepair

  function Cost(items: seq<Item>, cost: Item -> nat): nat {
    if items == [] then 0 else cost(items[0]) + Cost(items[1..], cost)
  }

  function SatSub(a: nat, b: nat): nat { if a >= b then a - b else 0 }

  // ---------- truncating one item ----------

  function CharLen(c: char): nat {
    if c as int < 0x80 then 1 else if c as int < 0x800 then 2 else if c as int < 0x10000 then 3 else 4
  }

  /** Length of the UTF-8 encoding. */
  function ByteLen(s: string): nat { if s == "" then 0 else CharLen(s[0]) + ByteLen(s[1..]) }

  /** How many characters of `s` fit into `limit` bytes without splitting one. */
  function Fitting(s: string, limit: nat): (n: nat)
    ensures n <= |s| && ByteLen(s[..n]) <= limit
    ensures n < |s| ==> ByteLen(s[..n]) + CharLen(s[n]) > limit
  {
    if s == "" || CharLen(s[0]) > limit then 0
    else
      var n := Fitting(s[1..], limit - CharLen(s[0]));
      assert s[..n + 1][1..] == s[1..][..n];
      n + 1
  }

  function Digits(n: nat): string {
    if n < 10 then [('0' as int + n) as char] else Digits(n / 10) + [('0' as int + n % 10) as char]
  }

  const MARKER_RESERVE: nat := 64

  function Marker(dropped: nat): string {
    "\n[... truncated " + Digits(dropped) + " bytes to fit the compaction window ...]"
  }

  /** The text unchanged if it fits into `maxBytes`, else a prefix and the truncation marker. */
  function TruncateText(s: string, maxBytes: nat): string {
    if ByteLen(s) <= maxBytes then s
    else
      var end := Fitting(s, SatSub(maxBytes, MARKER_RESERVE));
      PrefixLen(s, end);
      s[..end] + Marker(ByteLen(s) - ByteLen(s[..end]))
  }

  lemma {:induction false} ByteLenAppend(a: string, b: string)
    ensures ByteLen(a + b) == ByteLen(a) + ByteLen(b)
  {
    if a == "" {
      assert a + b == b;
    } else {
      assert (a + b)[1..] == a[1..] + b;
      ByteLenAppend(a[1..], b);
    }
  }

  lemma PrefixLen(s: string, n: nat)
    requires n <= |s|
    ensures ByteLen(s[..n]) <= ByteLen(s)
  {
    assert s == s[..n] + s[n..];
    ByteLenAppend(s[..n], s[n..]);
  }

  function TruncatePart(p: Part, maxBytes: nat): Part {
    match p
    case Text(t) => Text(TruncateText(t, maxBytes))
    case Image(_) => p
  }

  function TruncateItem(item: Item, maxTokens: nat): (r: Item)
    ensures SameShape(item, r)
  {
    match item
    case ToolResult(id, t, images) => ToolResult(id, TruncateText(t, 4 * maxTokens), images)
    case Assistant(t, calls) => Assistant(TruncateText(t, 4 * maxTokens), calls)
    case User(parts, synthetic) =>
      User(seq(|parts|, i requires 0 <= i < |parts| => TruncatePart(parts[i], 4 * maxTokens)), synthetic)
    case _ => item
  }

  /** Two items that differ at most in their text. */
  predicate SameShape(a: Item, b: Item) {
    match a
    case ToolResult(id, _, images) => b.ToolResult? && b.id == id && b.images == images
    case Assistant(_, calls) => b.Assistant? && b.calls == calls
    case User(parts, synthetic) =>
      && b.User? && b.synthetic == synthetic && |b.parts| == |parts|
      && forall i :: 0 <= i < |parts| ==>
           (parts[i].Image? ==> b.parts[i] == parts[i]) && (parts[i].Text? ==> b.parts[i].Text?)
    case _ => b == a
  }

  // ---------- the specification ----------

  /** Number of tool results at the end. */
  function TailLen(items: seq<Item>): (n: nat)
    ensures n <= |items| && forall j :: |items| - n <= j < |items| ==> items[j].ToolResult?
    ensures n < |items| ==> !items[|items| - n - 1].ToolResult?
  {
    if items != [] && items[|items| - 1].ToolResult? then TailLen(items[..|items| - 1]) + 1 else 0
  }

  function TruncateAll(items: seq<Item>, maxTokens: nat): (r: seq<Item>)
    ensures |r| == |items|
    ensures forall i :: 0 <= i < |items| ==> r[i] == TruncateItem(items[i], maxTokens)
  {
    seq(|items|, i requires 0 <= i < |items| => TruncateItem(items[i], maxTokens))
  }

  /** The assistant whose calls a following run of results may answer, if there is one. */
  function OwnerOf(rest: seq<Item>): seq<Item> {
    if rest != [] && rest[|rest| - 1].Assistant? && rest[|rest| - 1].calls != []
    then [rest[|rest| - 1]] else []
  }

  /** The budget of each of `n` results. */
  function Share(owner: seq<Item>, n: nat, budget: nat, cost: Item -> nat): nat
    requires n > 0
  {
    var left := SatSub(budget, Cost(owner, cost));
    if left / n < 1 then 1 else left / n
  }

  /** The last turn with its content cut down: a trailing run of results keeps its owner. */
  function Recovered(body: seq<Item>, budget: nat, cost: Item -> nat): seq<Item> {
    if TailLen(body) > 0 then RecoveredRun(body, TailLen(body), budget, cost)
    else if body == [] then []
    else [TruncateItem(body[|body| - 1], budget)]
  }

  function RecoveredRun(body: seq<Item>, n: nat, budget: nat, cost: Item -> nat): seq<Item>
    requires 0 < n <= |body|
  {
    var rest, results := body[..|body| - n], body[|body| - n..];
    OwnerOf(rest) + TruncateAll(results, Share(OwnerOf(rest), n, budget, cost))
  }

  /** A cut at `k` keeps a whole number of turns within the budget. */
  predicate GoodCut(body: seq<Item>, budget: nat, cost: Item -> nat, k: nat) {
    k < |body| && !body[k].ToolResult? && Cost(body[k..], cost) <= budget
  }

  function HeadOf(conv: seq<Item>): seq<Item> { if conv != [] && conv[0].System? then [conv[0]] else [] }

  function BodyOf(conv: seq<Item>): seq<Item> { conv[|HeadOf(conv)|..] }

  function BodyBudget(conv: seq<Item>, maxTokens: nat, cost: Item -> nat): nat {
    SatSub(maxTokens, Cost(HeadOf(conv), cost))
  }

  /** `out` is what a caller may expect from fitting `conv`: everything if it fits, else System and
      the longest suffix of whole turns that fits, else System and the truncated last turn. */
  ghost predicate FitSpec(conv: seq<Item>, maxTokens: nat, cost: Item -> nat, out: seq<Item>) {
    var body, budget := BodyOf(conv), BodyBudget(conv, maxTokens, cost);
    if Cost(conv, cost) <= maxTokens then out == conv
    else if exists k: nat :: GoodCut(body, budget, cost, k) then
      exists k: nat :: GoodCut(body, budget, cost, k) && out == HeadOf(conv) + body[k..] &&
                  forall j: nat :: j < k ==> !GoodCut(body, budget, cost, j)
    else out == HeadOf(conv) + Recovered(body, budget, cost)
  }

  // ---------- the implementation ----------

  predicate PoppedSoFar(body: seq<Item>, rest: seq<Item>, results: seq<Item>) {
    rest + results == body && TailLen(rest) + |results| == TailLen(body)
  }

  lemma PopOne(body: seq<Item>, rest: seq<Item>, last: Item, results: seq<Item>)
    requires PoppedSoFar(body, rest + [last], results) && last.ToolResult?
    ensures PoppedSoFar(body, rest, [last] + results)
  {
    assert (rest + [last])[..|rest|] == rest;
    Assoc(rest, [last], results);
  }

  method PopTailRun(body: seq<Item>) returns (rest: seq<Item>, results: seq<Item>)
    ensures rest + results == body && |results| == TailLen(body)
  {
    rest, results := body, [];
    while rest != [] && rest[|rest| - 1].ToolResult?
      invariant PoppedSoFar(body, rest, results)
    {
      var last := rest[|rest| - 1];
      assert rest == rest[..|rest| - 1] + [last];
      PopOne(body, rest[..|rest| - 1], last, results);
      results := [last] + results;
      rest := rest[..|rest| - 1];
    }
  }

  method RecoverTruncatedTailUnit(body: seq<Item>, budget: nat, cost: Item -> nat) returns (unit: seq<Item>)
    ensures unit == Recovered(body, budget, cost)
    ensures IsCutTurn(body, budget, cost, unit)
  {
    RecoveredIsCutTurn(body, budget, cost);
    var rest, results := PopTailRun(body);
    assert rest == body[..|rest|] && results == body[|rest|..];
    if results == [] {
      return if rest == [] then [] else [TruncateItem(rest[|rest| - 1], budget)];
    }
    var owner := OwnerOf(rest);
    var cut := TruncateEach(results, Share(owner, |results|, budget, cost));
    unit := owner + cut;
  }

  method TruncateEach(results: seq<Item>, per: nat) returns (cut: seq<Item>)
    ensures cut == TruncateAll(results, per)
  {
    cut := [];
    for i := 0 to |results|
      invariant |cut| == i && forall k :: 0 <= k < i ==> cut[k] == TruncateItem(results[k], per)
    {
      cut := cut + [TruncateItem(results[i], per)];
    }
  }

  lemma CostFrom(items: seq<Item>, i: nat, cost: Item -> nat)
    requires i < |items|
    ensures Cost(items[i..], cost) == cost(items[i]) + Cost(items[i + 1..], cost)
  {
    assert items[i..][1..] == items[i + 1..];
  }

  lemma {:induction false} CostShrinks(items: seq<Item>, i: nat, j: nat, cost: Item -> nat)
    requires i <= j <= |items|
    ensures Cost(items[j..], cost) <= Cost(items[i..], cost)
    decreases j - i
  {
    if i < j {
      CostFrom(items, i, cost);
      CostShrinks(items, i + 1, j, cost);
    }
  }

  /** Where the longest suffix within the budget starts. */
  method SuffixStart(body: seq<Item>, budget: nat, cost: Item -> nat) returns (start: nat)
    ensures start <= |body| && Cost(body[start..], cost) <= budget
    ensures forall j: nat :: j < start ==> Cost(body[j..], cost) > budget
  {
    var remaining := budget;
    start := |body|;
    assert body[start..] == [];
    var i := |body|;
    while i > 0
      invariant i == start <= |body|
      invariant Cost(body[start..], cost) + remaining == budget
    {
      i := i - 1;
      CostFrom(body, i, cost);
      var c := cost(body[i]);
      if c > remaining {
        forall j: nat | j <= i ensures Cost(body[j..], cost) > budget {
          CostShrinks(body, j, i, cost);
        }
        break;
      }
      remaining := remaining - c;
      start := i;
    }
  }

  method FitConversationToBudget(conversation: seq<Item>, maxTokens: nat, cost: Item -> nat)
    returns (out: seq<Item>)
    ensures FitSpec(conversation, maxTokens, cost, out)
  {
    if Cost(conversation, cost) <= maxTokens {
      return conversation;
    }
    var head, body := HeadOf(conversation), BodyOf(conversation);
    var budget := SatSub(maxTokens, Cost(head, cost));
    var start := SuffixStart(body, budget, cost);
    ghost var first := start;
    while start < |body| && body[start].ToolResult?
      invariant first <= start <= |body|
      invariant forall j: nat :: j < start ==> !GoodCut(body, budget, cost, j)
    {
      start := start + 1;
    }
    if start < |body| {
      CostShrinks(body, first, start, cost);
      assert GoodCut(body, budget, cost, start);
      out := head + body[start..];
    } else {
      var unit := RecoverTruncatedTailUnit(body, budget, cost);
      out := head + unit;
    }
  }

  // ---------- what fitting preserves ----------

  /** In a paired history the item before a run of results owns all of them. */
  lemma RunIsOwned(body: seq<Item>, start: nat, i: nat)
    requires WellPaired(body) && start <= i < |body|
    requires forall j :: start <= j < |body| ==> body[j].ToolResult?
    requires start > 0 ==> !body[start - 1].ToolResult?
    ensures start > 0 && Declares(body[start - 1], body[i].id)
  {
    assert InRun(body, i);
    var o: nat :| OwnedBy(body, o, i);
    WithinRun(body, o, i);
  }

  lemma TruncatedRunPaired(owner: Item, results: seq<Item>, per: nat)
    requires forall i :: 0 <= i < |results| ==> results[i].ToolResult? && Declares(owner, results[i].id)
    ensures owner.Assistant? ==> WellPaired([owner] + TruncateAll(results, per))
  {
    if owner.Assistant? {
      var cut := TruncateAll(results, per);
      forall i | 0 <= i < |cut| ensures cut[i].ToolResult? && cut[i].id == results[i].id {
        assert SameShape(results[i], cut[i]);
      }
      HistoryRepair.PairedTurn(owner, cut, []);
      assert [owner] + cut + [] == [owner] + cut;
    }
  }

  lemma RecoveredPaired(body: seq<Item>, budget: nat, cost: Item -> nat)
    requires WellPaired(body)
    ensures WellPaired(Recovered(body, budget, cost))
  {
    var n := TailLen(body);
    if n > 0 {
      var start := |body| - n;
      forall i | start <= i < |body| ensures start > 0 && Declares(body[start - 1], body[i].id) {
        RunIsOwned(body, start, i);
      }
      var rest, results := body[..start], body[start..];
      assert body[start] == results[0] && rest[|rest| - 1] == body[start - 1];
      assert OwnerOf(rest) == [body[start - 1]];
      TruncatedRunPaired(body[start - 1], results, Share(OwnerOf(rest), n, budget, cost));
    }
  }

  lemma BodyPaired(conv: seq<Item>)
    requires WellPaired(conv)
    ensures WellPaired(BodyOf(conv))
  {
    if conv != [] && conv[0].System? {
      assert forall o: nat :: !OwnedBy(conv, o, 1);
      PairedSuffix(conv, 1);
    } else {
      assert BodyOf(conv) == conv;
    }
  }

  lemma WithHeadPaired(conv: seq<Item>, rest: seq<Item>)
    requires WellPaired(rest)
    ensures WellPaired(HeadOf(conv) + rest)
  {
    if conv != [] && conv[0].System? {
      HistoryRepair.PairedOther(conv[0], rest);
    } else {
      assert HeadOf(conv) + rest == rest;
    }
  }

  /** Fitting never splits a call from its results. */
  lemma FitKeepsPairing(conv: seq<Item>, maxTokens: nat, cost: Item -> nat, out: seq<Item>)
    requires FitSpec(conv, maxTokens, cost, out) && WellPaired(conv)
    ensures WellPaired(out)
  {
    if Cost(conv, cost) > maxTokens {
      var body, budget := BodyOf(conv), BodyBudget(conv, maxTokens, cost);
      BodyPaired(conv);
      if exists k: nat :: GoodCut(body, budget, cost, k) {
        var k: nat :| GoodCut(body, budget, cost, k) && out == HeadOf(conv) + body[k..];
        PairedSuffix(body, k);
        WithHeadPaired(conv, body[k..]);
      } else {
        RecoveredPaired(body, budget, cost);
        WithHeadPaired(conv, Recovered(body, budget, cost));
      }
    }
  }

  lemma {:induction false} CostAppend(a: seq<Item>, b: seq<Item>, cost: Item -> nat)
    ensures Cost(a + b, cost) == Cost(a, cost) + Cost(b, cost)
  {
    if a == [] {
      assert a + b == b;
    } else {
      assert (a + b)[1..] == a[1..] + b;
      CostAppend(a[1..], b, cost);
    }
  }

  lemma ShapeReflexive(a: Item)
    ensures SameShape(a, a)
  {
  }

  /** Both end in items that differ at most in their text. */
  predicate SameEnd(a: seq<Item>, b: seq<Item>) {
    a != [] && b != [] && SameShape(a[|a| - 1], b[|b| - 1])
  }

  lemma TruncatedKeepsLast(rest: seq<Item>, results: seq<Item>, owner: seq<Item>, per: nat)
    requires results != []
    ensures SameEnd(rest + results, owner + TruncateAll(results, per))
  {
    var cut := TruncateAll(results, per);
    assert (owner + cut)[|owner + cut| - 1] == cut[|cut| - 1];
    assert (rest + results)[|rest + results| - 1] == results[|results| - 1];
  }

  lemma RecoveredKeepsLast(body: seq<Item>, budget: nat, cost: Item -> nat)
    requires body != []
    ensures SameEnd(body, Recovered(body, budget, cost))
  {
    var n := TailLen(body);
    if n > 0 {
      var rest, results := body[..|body| - n], body[|body| - n..];
      TruncatedKeepsLast(rest, results, OwnerOf(rest), Share(OwnerOf(rest), n, budget, cost));
      assert rest + results == body;
    } else {
      RecoveredItem(body, budget, cost);
    }
  }

  lemma RecoveredItem(body: seq<Item>, budget: nat, cost: Item -> nat)
    requires body != [] && TailLen(body) == 0
    ensures Recovered(body, budget, cost) == [TruncateItem(body[|body| - 1], budget)]
    ensures SameEnd(body, Recovered(body, budget, cost))
  {
  }

  lemma SuffixKeepsLast(head: seq<Item>, body: seq<Item>, k: nat)
    requires k < |body|
    ensures SameEnd(head + body, head + body[k..])
  {
    ShapeReflexive(body[|body| - 1]);
  }

  lemma PrependKeepsLast(head: seq<Item>, a: seq<Item>, b: seq<Item>)
    requires SameEnd(a, b)
    ensures SameEnd(head + a, head + b)
  {
  }

  lemma SplitHead(conv: seq<Item>)
    requires conv != []
    ensures conv == HeadOf(conv) + BodyOf(conv)
    ensures conv[0].System? ==> HeadOf(conv) == [conv[0]]
    ensures BodyOf(conv) == [] ==> conv[0].System?
  {
  }

  lemma FitKeepsLast(conv: seq<Item>, maxTokens: nat, cost: Item -> nat, out: seq<Item>)
    requires FitSpec(conv, maxTokens, cost, out) && BodyOf(conv) != []
    ensures SameEnd(HeadOf(conv) + BodyOf(conv), out)
  {
    var head, body, budget := HeadOf(conv), BodyOf(conv), BodyBudget(conv, maxTokens, cost);
    if Cost(conv, cost) <= maxTokens {
      SuffixKeepsLast(head, body, 0);
      assert body[0..] == body;
    } else if exists k: nat :: GoodCut(body, budget, cost, k) {
      var k: nat :| GoodCut(body, budget, cost, k) && out == head + body[k..];
      SuffixKeepsLast(head, body, k);
    } else {
      RecoveredKeepsLast(body, budget, cost);
      PrependKeepsLast(head, body, Recovered(body, budget, cost));
    }
  }

  lemma FitKeepsHead(conv: seq<Item>, maxTokens: nat, cost: Item -> nat, out: seq<Item>)
    requires FitSpec(conv, maxTokens, cost, out) && conv != [] && conv[0].System?
    ensures out != [] && out[0] == conv[0]
  {
    SplitHead(conv);
  }

  lemma FitOfSystemAlone(conv: seq<Item>, maxTokens: nat, cost: Item -> nat, out: seq<Item>)
    requires FitSpec(conv, maxTokens, cost, out) && conv != [] && BodyOf(conv) == []
    ensures out == conv
  {
    SplitHead(conv);
    assert TailLen([]) == 0;
  }

  /** The System message stays in front and the last item stays last, at most truncated. */
  lemma FitKeepsEnds(conv: seq<Item>, maxTokens: nat, cost: Item -> nat, out: seq<Item>)
    requires FitSpec(conv, maxTokens, cost, out) && conv != []
    ensures out != [] && (conv[0].System? ==> out[0] == conv[0])
    ensures SameShape(conv[|conv| - 1], out[|out| - 1])
  {
    FitKeepsEnd(conv, maxTokens, cost, out);
    if conv[0].System? {
      FitKeepsHead(conv, maxTokens, cost, out);
    }
  }

  lemma FitKeepsEnd(conv: seq<Item>, maxTokens: nat, cost: Item -> nat, out: seq<Item>)
    requires FitSpec(conv, maxTokens, cost, out) && conv != []
    ensures SameEnd(conv, out)
  {
    SplitHead(conv);
    if BodyOf(conv) == [] {
      FitOfSystemAlone(conv, maxTokens, cost, out);
      ShapeReflexive(conv[|conv| - 1]);
    } else {
      FitKeepsLast(conv, maxTokens, cost, out);
    }
  }

  /** Unless the last turn alone is over the budget, no item is rewritten: the result is the
      conversation, or System and a suffix; and it costs at most the budget -- or the System message
      alone, if that exceeds the budget. */
  lemma FitStaysWithinBudget(conv: seq<Item>, maxTokens: nat, cost: Item -> nat, out: seq<Item>)
    requires FitSpec(conv, maxTokens, cost, out)
    requires
      || Cost(conv, cost) <= maxTokens
      || exists k: nat :: GoodCut(BodyOf(conv), BodyBudget(conv, maxTokens, cost), cost, k)
    ensures exists k: nat :: k <= |BodyOf(conv)| && out == HeadOf(conv) + BodyOf(conv)[k..]
    ensures Cost(out, cost) <= maxTokens || Cost(out, cost) <= Cost(HeadOf(conv), cost)
  {
    var body, budget := BodyOf(conv), BodyBudget(conv, maxTokens, cost);
    if Cost(conv, cost) <= maxTokens {
      assert out == HeadOf(conv) + body[0..];
    } else {
      var k: nat :| GoodCut(body, budget, cost, k) && out == HeadOf(conv) + body[k..];
      CostAppend(HeadOf(conv), body[k..], cost);
    }
  }

  // ---------- what the truncated last turn holds ----------

  /** `cut` is the text itself if it is within the limit.  Otherwise it is the longest prefix that
      leaves the marker's reserve free, and the marker with the number of bytes that are gone. */
  ghost predicate CutText(text: string, limit: nat, cut: string) {
    if ByteLen(text) <= limit then cut == text
    else exists n: nat :: n < |text| && KeepsPrefix(text, limit, n) && cut == text[..n] + Marker(ByteLen(text[n..]))
  }

  predicate KeepsPrefix(text: string, limit: nat, n: nat)
    requires n < |text|
  {
    && (n > 0 ==> ByteLen(text[..n]) + MARKER_RESERVE <= limit)
    && ByteLen(text[..n + 1]) + MARKER_RESERVE > limit
  }

  lemma PrefixAndRest(s: string, n: nat)
    requires n <= |s|
    ensures ByteLen(s) == ByteLen(s[..n]) + ByteLen(s[n..])
    ensures n < |s| ==> ByteLen(s[..n + 1]) == ByteLen(s[..n]) + CharLen(s[n])
  {
    assert s == s[..n] + s[n..];
    ByteLenAppend(s[..n], s[n..]);
    if n < |s| {
      assert s[..n + 1] == s[..n] + [s[n]];
      ByteLenAppend(s[..n], [s[n]]);
      assert ByteLen([s[n]][1..]) == 0;
    }
  }

  lemma {:induction false} NonEmptyHasBytes(s: string)
    requires s != ""
    ensures ByteLen(s) > 0
  {
  }

  lemma TruncationKeepsPrefix(s: string, limit: nat)
    ensures CutText(s, limit, TruncateText(s, limit))
  {
    if ByteLen(s) > limit {
      var n := Fitting(s, SatSub(limit, MARKER_RESERVE));
      PrefixAndRest(s, n);
      assert s[..|s|] == s;
      if n > 0 {
        NonEmptyHasBytes(s[..n]);
      }
      assert KeepsPrefix(s, limit, n);
    }
  }

  /** Two items that differ only in texts cut to `limit` bytes. */
  ghost predicate CutItem(item: Item, limit: nat, cut: Item) {
    && SameShape(item, cut)
    && (item.ToolResult? || item.Assistant? ==> CutText(item.text, limit, cut.text))
    && (item.User? ==> forall i :: 0 <= i < |item.parts| && item.parts[i].Text? ==>
                         CutText(item.parts[i].text, limit, cut.parts[i].text))
  }

  lemma TruncatedItemIsCut(item: Item, maxTokens: nat)
    ensures CutItem(item, 4 * maxTokens, TruncateItem(item, maxTokens))
  {
    match item
    case ToolResult(_, text, _) => TruncationKeepsPrefix(text, 4 * maxTokens);
    case Assistant(text, _) => TruncationKeepsPrefix(text, 4 * maxTokens);
    case User(parts, _) =>
      forall i | 0 <= i < |parts| && parts[i].Text?
        ensures CutText(parts[i].text, 4 * maxTokens, TruncatePart(parts[i], 4 * maxTokens).text)
      {
        TruncationKeepsPrefix(parts[i].text, 4 * maxTokens);
      }
    case _ =>
  }

  /** An equal share for each of `n`: no more would be affordable, and more than one unit is. */
  predicate IsShare(per: nat, n: nat, left: nat) {
    per >= 1 && (per > 1 ==> per * n <= left) && (per + 1) * n > left
  }

  lemma ShareIsFair(owner: seq<Item>, n: nat, budget: nat, cost: Item -> nat)
    requires n > 0
    ensures IsShare(Share(owner, n, budget, cost), n, SatSub(budget, Cost(owner, cost)))
  {
    DivideFairly(SatSub(budget, Cost(owner, cost)), n);
  }

  lemma DivideFairly(left: nat, n: nat)
    requires n > 0
    ensures left / n * n <= left < (left / n + 1) * n
  {
  }

  /** `unit` is the run of results from `start` on, each cut to its share of what the calls before
      the run leave of the budget, behind those calls. */
  ghost predicate IsCutRun(body: seq<Item>, start: nat, budget: nat, cost: Item -> nat, per: nat, unit: seq<Item>) {
    && start < |body| && AllResults(body[start..]) && (start > 0 ==> !body[start - 1].ToolResult?)
    && if start > 0 && body[start - 1].Assistant? && body[start - 1].calls != []
       then |unit| > 0 && unit[0] == body[start - 1] && IsShare(per, |body| - start, SatSub(budget, cost(unit[0]))) &&
            AllCut(body[start..], 4 * per, unit[1..])
       else IsShare(per, |body| - start, budget) && AllCut(body[start..], 4 * per, unit)
  }

  ghost predicate AllCut(items: seq<Item>, limit: nat, cut: seq<Item>) {
    |cut| == |items| && forall i :: 0 <= i < |items| ==> CutItem(items[i], limit, cut[i])
  }

  /** `unit` is the last turn of `body`, its texts cut to the budget. */
  ghost predicate IsCutTurn(body: seq<Item>, budget: nat, cost: Item -> nat, unit: seq<Item>) {
    if body == [] then unit == []
    else if body[|body| - 1].ToolResult? then exists start, per :: IsCutRun(body, start, budget, cost, per, unit)
    else |unit| == 1 && CutItem(body[|body| - 1], 4 * budget, unit[0])
  }

  lemma TruncatedAllCut(items: seq<Item>, per: nat)
    ensures AllCut(items, 4 * per, TruncateAll(items, per))
  {
    forall i | 0 <= i < |items| ensures CutItem(items[i], 4 * per, TruncateAll(items, per)[i]) {
      TruncatedItemIsCut(items[i], per);
    }
  }

  lemma RecoveredIsCutRun(body: seq<Item>, budget: nat, cost: Item -> nat)
    requires body != [] && body[|body| - 1].ToolResult?
    ensures exists start, per :: IsCutRun(body, start, budget, cost, per, Recovered(body, budget, cost))
  {
    var n := TailLen(body);
    assert n > 0;
    var start := |body| - n;
    var results, owner := body[start..], OwnerOf(body[..start]);
    var per := Share(owner, n, budget, cost);
    ShareIsFair(owner, n, budget, cost);
    TruncatedAllCut(results, per);
    CutRunIs(body, start, owner, budget, cost, per, TruncateAll(results, per));
    assert Recovered(body, budget, cost) == owner + TruncateAll(results, per);
  }

  lemma CutRunIs(body: seq<Item>, start: nat, owner: seq<Item>, budget: nat, cost: Item -> nat, per: nat,
                 cut: seq<Item>)
    requires start < |body| && AllResults(body[start..]) && (start > 0 ==> !body[start - 1].ToolResult?)
    requires owner == OwnerOf(body[..start]) && AllCut(body[start..], 4 * per, cut)
    requires IsShare(per, |body| - start, SatSub(budget, Cost(owner, cost)))
    ensures IsCutRun(body, start, budget, cost, per, owner + cut)
  {
    if owner == [] {
      assert owner + cut == cut;
    } else {
      assert (owner + cut)[1..] == cut && owner == [body[start - 1]] && owner[1..] == [];
      assert Cost(owner, cost) == cost(body[start - 1]);
    }
  }

  lemma RecoveredIsCutTurn(body: seq<Item>, budget: nat, cost: Item -> nat)
    ensures IsCutTurn(body, budget, cost, Recovered(body, budget, cost))
  {
    if body != [] {
      if body[|body| - 1].ToolResult? {
        RecoveredIsCutRun(body, budget, cost);
      } else {
        RecoveredItem(body, budget, cost);
        TruncatedItemIsCut(body[|body| - 1], budget);
      }
    }
  }

  /** Where no whole turn fits, System and the cut last turn are what is left. */
  lemma FitCutsLastTurn(conv: seq<Item>, maxTokens: nat, cost: Item -> nat, out: seq<Item>)
    requires FitSpec(conv, maxTokens, cost, out) && Cost(conv, cost) > maxTokens
    requires forall k: nat :: !GoodCut(BodyOf(conv), BodyBudget(conv, maxTokens, cost), cost, k)
    ensures HeadOf(conv) <= out
    ensures IsCutTurn(BodyOf(conv), BodyBudget(conv, maxTokens, cost), cost, out[|HeadOf(conv)|..])
  {
    RecoveredIsCutTurn(BodyOf(conv), BodyBudget(conv, maxTokens, cost), cost);
  }

  /** The number that a decimal numeral stands for. */
  function NumberOf(digits: string): int {
    if digits == "" then 0
    else 10 * NumberOf(digits[..|digits| - 1]) + (digits[|digits| - 1] as int - '0' as int)
  }

  /** The marker names the number of bytes dropped. */
  lemma {:induction false} DigitsStandFor(n: nat)
    ensures NumberOf(Digits(n)) == n
  {
    var last := [('0' as int + n % 10) as char];
    if n >= 10 {
      DigitsStandFor(n / 10);
      assert Digits(n)[..|Digits(n)| - 1] == Digits(n / 10);
    } else {
      assert Digits(n)[..0] == "";
    }
  }

  // ---------- does a truncated text fit? ----------

  function Pow10(k: nat): nat { if k == 0 then 1 else 10 * Pow10(k - 1) }

  lemma {:induction false} AsciiLength(s: string)
    requires forall i :: 0 <= i < |s| ==> s[i] as int < 0x80
    ensures ByteLen(s) == |s|
  {
    if s != "" {
      AsciiLength(s[1..]);
    }
  }

  lemma {:induction false} DigitsLengthIff(n: nat, k: nat)
    requires 1 <= k
    ensures |Digits(n)| <= k <==> n < Pow10(k)
  {
    if k == 1 {
      assert Pow10(1) == 10;
      DigitsAscii(n / 10);
    } else if n >= 10 {
      DigitsLengthIff(n / 10, k - 1);
    } else {
      PowAtLeastTen(k);
    }
  }

  lemma {:induction false} PowAtLeastTen(k: nat)
    requires 1 <= k
    ensures Pow10(k) >= 10
  {
    if k > 1 {
      PowAtLeastTen(k - 1);
    }
  }

  lemma {:induction false} DigitsAscii(n: nat)
    ensures 1 <= |Digits(n)| && forall i :: 0 <= i < |Digits(n)| ==> Digits(n)[i] as int < 0x80
  {
    if n >= 10 {
      DigitsAscii(n / 10);
    }
  }

  lemma MarkerLength(dropped: nat)
    ensures ByteLen(Marker(dropped)) == 56 + |Digits(dropped)|
  {
    DigitsAscii(dropped);
    AsciiLength(Marker(dropped));
  }

  /** How many bytes of an over-long text are kept. */
  function Kept(s: string, maxBytes: nat): (kept: nat)
    ensures kept <= ByteLen(s) && kept <= SatSub(maxBytes, MARKER_RESERVE)
  {
    var end := Fitting(s, SatSub(maxBytes, MARKER_RESERVE));
    PrefixLen(s, end);
    ByteLen(s[..end])
  }

  lemma TruncatedLength(s: string, maxBytes: nat)
    requires ByteLen(s) > maxBytes
    ensures ByteLen(TruncateText(s, maxBytes))
         == Kept(s, maxBytes) + 56 + |Digits(ByteLen(s) - Kept(s, maxBytes))|
  {
    var end := Fitting(s, SatSub(maxBytes, MARKER_RESERVE));
    PrefixLen(s, end);
    var dropped := ByteLen(s) - ByteLen(s[..end]);
    MarkerLength(dropped);
    ByteLenAppend(s[..end], Marker(dropped));
  }

  /** The truncated text is within the limit exactly when nothing had to be cut, or the limit leaves
      room for what is kept and a marker that counts what is dropped. */
  lemma TruncationFitsIff(s: string, maxBytes: nat)
    ensures
      var kept := Kept(s, maxBytes);
      ByteLen(TruncateText(s, maxBytes)) <= maxBytes
      <==> || ByteLen(s) <= maxBytes
           || (kept + 57 <= maxBytes && ByteLen(s) - kept < Pow10(maxBytes - kept - 56))
  {
    if ByteLen(s) > maxBytes {
      var kept := Kept(s, maxBytes);
      TruncatedLength(s, maxBytes);
      DigitsAscii(ByteLen(s) - kept);
      if kept + 57 <= maxBytes {
        DigitsLengthIff(ByteLen(s) - kept, maxBytes - kept - 56);
      }
    }
  }

  /** Up to the reserve nothing is kept, so it only matters how many digits the length has. */
  lemma SmallLimitFitsIff(s: string, maxBytes: nat)
    requires maxBytes <= MARKER_RESERVE
    ensures ByteLen(TruncateText(s, maxBytes)) <= maxBytes
       <==> ByteLen(s) <= maxBytes || (57 <= maxBytes && ByteLen(s) < Pow10(maxBytes - 56))
  {
    TruncationFitsIff(s, maxBytes);
  }

  /** With room for the marker and fewer than 10^8 bytes, the truncated text is within the limit. */
  lemma TruncationFits(s: string, maxBytes: nat)
    requires MARKER_RESERVE <= maxBytes && ByteLen(s) < 100_000_000
    ensures ByteLen(TruncateText(s, maxBytes)) <= maxBytes
  {
    var kept := Kept(s, maxBytes);
    assert Pow10(8) == 100_000_000;
    PowGrows(8, maxBytes - kept - 56);
    TruncationFitsIff(s, maxBytes);
  }

  lemma {:induction false} PowGrows(j: nat, k: nat)
    requires j <= k
    ensures Pow10(j) <= Pow10(k)
  {
    if j < k {
      PowGrows(j, k - 1);
    }
  }

  /** Below the length of the marker itself, every truncated text is over the limit. */
  lemma TruncationOverflows(s: string, maxBytes: nat)
    requires maxBytes < 57 && ByteLen(s) > maxBytes
    ensures ByteLen(TruncateText(s, maxBytes)) > maxBytes
  {
    SmallLimitFitsIff(s, maxBytes);
  }
}
