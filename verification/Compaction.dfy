/**
 Rebuilding a history after compaction, and checking and sanitizing it: what is kept of the
 old conversation, when the result is valid, and when the user's query survives.
 */
module Compaction {
  import opened Text
  import opened Collections
  import opened Conversation
  import opened UserQuery
  import HistoryRepair
  import SummaryCleaner

  // ---------- validate and sanitize ----------

  function SeenAfter(seen: set<string>, item: Item): set<string> {
    if item.Assistant? then seen + CallIds(item.calls) else seen
  }

  predicate Keeps(seen: set<string>, item: Item) { item.ToolResult? ==> item.id in seen }

  /** The results without a matching call before them; `seen` are the ids declared so far. */
  function OrphanIds(items: seq<Item>, seen: set<string>): seq<string> {
    if items == [] then []
    else (if Keeps(seen, items[0]) then [] else [items[0].id]) + OrphanIds(items[1..], SeenAfter(seen, items[0]))
  }

  function Sanitized(items: seq<Item>, seen: set<string>): seq<Item> {
    if items == [] then []
    else (if Keeps(seen, items[0]) then [items[0]] else []) + Sanitized(items[1..], SeenAfter(seen, items[0]))
  }

  ghost predicate ScannedSoFar(items: seq<Item>, i: nat, seen: set<string>, kept: seq<Item>, orphans: seq<string>) {
    && i <= |items|
    && kept + Sanitized(items[i..], seen) == Sanitized(items, {})
    && orphans + OrphanIds(items[i..], seen) == OrphanIds(items, {})
  }

  lemma ScanNext(items: seq<Item>, i: nat, seen: set<string>, kept: seq<Item>, orphans: seq<string>)
    requires i < |items| && ScannedSoFar(items, i, seen, kept, orphans)
    ensures
      if Keeps(seen, items[i])
      then ScannedSoFar(items, i + 1, SeenAfter(seen, items[i]), kept + [items[i]], orphans)
      else ScannedSoFar(items, i + 1, SeenAfter(seen, items[i]), kept, orphans + [items[i].id])
  {
    var rest, then_ := items[i + 1..], SeenAfter(seen, items[i]);
    assert items[i..][1..] == rest;
    if Keeps(seen, items[i]) {
      assert kept + ([items[i]] + Sanitized(rest, then_)) == kept + [items[i]] + Sanitized(rest, then_);
    } else {
      assert orphans + ([items[i].id] + OrphanIds(rest, then_)) == orphans + [items[i].id] + OrphanIds(rest, then_);
    }
  }

  method ValidateCompactedHistory(items: seq<Item>) returns (invalidIds: seq<string>)
    ensures invalidIds == OrphanIds(items, {})
  {
    var seen: set<string> := {};
    invalidIds := [];
    ghost var kept := [];
    assert items[0..] == items;
    for i := 0 to |items|
      invariant ScannedSoFar(items, i, seen, kept, invalidIds)
    {
      ScanNext(items, i, seen, kept, invalidIds);
      match items[i] {
        case Assistant(_, calls) =>
          seen := seen + CallIds(calls);
          kept := kept + [items[i]];
        case ToolResult(id, _, _) =>
          if id !in seen {
            invalidIds := invalidIds + [id];
          } else {
            kept := kept + [items[i]];
          }
        case _ =>
          kept := kept + [items[i]];
      }
    }
    assert items[|items|..] == [];
  }

  method SanitizeCompactedHistory(items: seq<Item>) returns (kept: seq<Item>, strippedIds: seq<string>)
    ensures kept == Sanitized(items, {}) && strippedIds == OrphanIds(items, {})
  {
    var seen: set<string> := {};
    kept, strippedIds := [], [];
    assert items[0..] == items;
    for i := 0 to |items|
      invariant ScannedSoFar(items, i, seen, kept, strippedIds)
    {
      ScanNext(items, i, seen, kept, strippedIds);
      match items[i] {
        case Assistant(_, calls) =>
          seen := seen + CallIds(calls);
          kept := kept + [items[i]];
        case ToolResult(id, _, _) =>
          if id in seen {
            kept := kept + [items[i]];
          } else {
            strippedIds := strippedIds + [id];
          }
        case _ =>
          kept := kept + [items[i]];
      }
    }
    assert items[|items|..] == [];
  }

  /** The provider invariant that validation is about. */
  ghost predicate CalledBefore(items: seq<Item>, k: nat) {
    k < |items| && items[k].ToolResult? && exists o :: 0 <= o < k && Declares(items[o], items[k].id)
  }

  ghost predicate ValidFrom(items: seq<Item>, seen: set<string>) {
    forall k :: 0 <= k < |items| && items[k].ToolResult? ==> items[k].id in seen || CalledBefore(items, k)
  }

  lemma CalledBeforeTail(items: seq<Item>, seen: set<string>, k: nat)
    requires 0 < k < |items| && items[k].ToolResult?
    ensures items[k].id in seen || CalledBefore(items, k) <==>
            items[k].id in SeenAfter(seen, items[0]) || CalledBefore(items[1..], k - 1)
  {
    var tail := items[1..];
    assert tail[k - 1] == items[k];
    if o :| 0 < o < k && Declares(items[o], items[k].id) {
      assert Declares(tail[o - 1], tail[k - 1].id);
    }
    if o :| 0 <= o < k - 1 && Declares(tail[o], tail[k - 1].id) {
      assert Declares(items[o + 1], items[k].id);
    }
    if Declares(items[0], items[k].id) {
      assert CalledBefore(items, k);
    }
  }

  /** Validation finds nothing exactly when every result has a matching call before it. */
  lemma {:induction false} OrphansNoneIff(items: seq<Item>, seen: set<string>)
    ensures OrphanIds(items, seen) == [] <==> ValidFrom(items, seen)
  {
    if items != [] {
      var tail, seen' := items[1..], SeenAfter(seen, items[0]);
      OrphansNoneIff(tail, seen');
      forall k | 0 < k < |items| && items[k].ToolResult?
        ensures items[k].id in seen || CalledBefore(items, k) <==> tail[k - 1].id in seen' || CalledBefore(tail, k - 1)
      {
        CalledBeforeTail(items, seen, k);
      }
      if ValidFrom(items, seen) {
        forall k | 0 <= k < |tail| && tail[k].ToolResult? ensures tail[k].id in seen' || CalledBefore(tail, k) {
          assert items[k + 1] == tail[k];
        }
      }
      if Keeps(seen, items[0]) && ValidFrom(tail, seen') {
        forall k | 0 < k < |items| && items[k].ToolResult? ensures items[k].id in seen || CalledBefore(items, k) {
          assert tail[k - 1] == items[k];
        }
      }
    }
  }

  lemma {:induction false} SanitizedHasNoOrphans(items: seq<Item>, seen: set<string>)
    ensures OrphanIds(Sanitized(items, seen), seen) == []
    ensures Sanitized(Sanitized(items, seen), seen) == Sanitized(items, seen)
  {
    if items != [] {
      var seen' := SeenAfter(seen, items[0]);
      var rest := Sanitized(items[1..], seen');
      SanitizedHasNoOrphans(items[1..], seen');
      if Keeps(seen, items[0]) {
        assert ([items[0]] + rest)[1..] == rest;
      } else {
        assert seen' == seen && Sanitized(items, seen) == rest;
      }
    }
  }

  /** Sanitizing validates clean, changes nothing the second time, and is needed exactly when
      validation finds something. */
  lemma SanitizeAgreesWithValidate(items: seq<Item>)
    ensures OrphanIds(Sanitized(items, {}), {}) == []
    ensures Sanitized(Sanitized(items, {}), {}) == Sanitized(items, {})
    ensures |Sanitized(items, {})| + |OrphanIds(items, {})| == |items|
  {
    SanitizedHasNoOrphans(items, {});
    SanitizedCounts(items, {});
  }

  lemma {:induction false} SanitizedCounts(items: seq<Item>, seen: set<string>)
    ensures |Sanitized(items, seen)| + |OrphanIds(items, seen)| == |items|
  {
    if items != [] {
      SanitizedCounts(items[1..], SeenAfter(seen, items[0]));
    }
  }

  // ---------- sanitize is laxer than the repair pass ----------

  /** Which positions a filter keeps. */
  function Pick(items: seq<Item>, keep: seq<bool>): seq<Item>
    requires |items| == |keep|
  {
    if items == [] then [] else (if keep[0] then [items[0]] else []) + Pick(items[1..], keep[1..])
  }

  function SanitizeKeeps(items: seq<Item>, seen: set<string>): (r: seq<bool>)
    ensures |r| == |items|
  {
    if items == [] then [] else [Keeps(seen, items[0])] + SanitizeKeeps(items[1..], SeenAfter(seen, items[0]))
  }

  function RunIdsAfter(ids: set<string>, item: Item): set<string> {
    match item
    case Assistant(_, calls) => CallIds(calls)
    case ToolResult(_, _, _) => ids
    case _ => {}
  }

  function StripKeeps(items: seq<Item>, ids: set<string>): (r: seq<bool>)
    ensures |r| == |items|
  {
    if items == [] then [] else [Keeps(ids, items[0])] + StripKeeps(items[1..], RunIdsAfter(ids, items[0]))
  }

  lemma {:induction false} StripIsPick(items: seq<Item>, ids: set<string>)
    ensures HistoryRepair.Strip(items, ids) == Pick(items, StripKeeps(items, ids))
  {
    if items != [] {
      StripIsPick(items[1..], RunIdsAfter(ids, items[0]));
      assert StripKeeps(items, ids)[1..] == StripKeeps(items[1..], RunIdsAfter(ids, items[0]));
    }
  }

  lemma {:induction false} SanitizeIsPick(items: seq<Item>, seen: set<string>)
    ensures Sanitized(items, seen) == Pick(items, SanitizeKeeps(items, seen))
  {
    if items != [] {
      SanitizeIsPick(items[1..], SeenAfter(seen, items[0]));
      assert SanitizeKeeps(items, seen)[1..] == SanitizeKeeps(items[1..], SeenAfter(seen, items[0]));
    }
  }

  lemma {:induction false} StricterKeepsFewer(items: seq<Item>, ids: set<string>, seen: set<string>, k: nat)
    requires ids <= seen && k < |items| && StripKeeps(items, ids)[k]
    ensures SanitizeKeeps(items, seen)[k]
  {
    if k > 0 {
      StricterKeepsFewer(items[1..], RunIdsAfter(ids, items[0]), SeenAfter(seen, items[0]), k - 1);
    }
  }

  /** Whatever the adjacency rule keeps, the "call anywhere before" rule keeps too. */
  lemma StripKeptIsSanitizeKept(items: seq<Item>)
    ensures HistoryRepair.Strip(items, {}) == Pick(items, StripKeeps(items, {}))
    ensures Sanitized(items, {}) == Pick(items, SanitizeKeeps(items, {}))
    ensures forall k :: 0 <= k < |items| && StripKeeps(items, {})[k] ==> SanitizeKeeps(items, {})[k]
  {
    StripIsPick(items, {});
    SanitizeIsPick(items, {});
    forall k | 0 <= k < |items| && StripKeeps(items, {})[k] ensures SanitizeKeeps(items, {})[k] {
      StricterKeepsFewer(items, {}, {}, k);
    }
  }

  /** Sanitizing drops a result exactly when no call before it declared its id. */
  lemma {:induction false} SanitizeKeepsIff(items: seq<Item>, seen: set<string>, k: nat)
    requires k < |items|
    ensures SanitizeKeeps(items, seen)[k]
       <==> !items[k].ToolResult? || items[k].id in seen || CalledBefore(items, k)
  {
    if k > 0 {
      SanitizeKeepsIff(items[1..], SeenAfter(seen, items[0]), k - 1);
      if items[k].ToolResult? {
        CalledBeforeTail(items, seen, k);
      }
    }
  }

  /** The orphans reported are the ids of what sanitizing drops, in order. */
  lemma {:induction false} OrphansAreDropped(items: seq<Item>, seen: set<string>)
    ensures OrphanIds(items, seen) == DroppedIds(items, SanitizeKeeps(items, seen))
  {
    if items != [] {
      OrphansAreDropped(items[1..], SeenAfter(seen, items[0]));
      assert SanitizeKeeps(items, seen)[1..] == SanitizeKeeps(items[1..], SeenAfter(seen, items[0]));
    }
  }

  function DroppedIds(items: seq<Item>, keep: seq<bool>): seq<string>
    requires |items| == |keep|
  {
    if items == [] then []
    else (if !keep[0] && items[0].ToolResult? then [items[0].id] else []) + DroppedIds(items[1..], keep[1..])
  }

  // ---------- extract and rebuild ----------

  /** Assistant turns, and tool results with their content omitted. */
  function Omitted(items: seq<Item>): seq<Item> {
    if items == [] then []
    else
      (match items[0]
       case Assistant(_, _) => [items[0]]
       case ToolResult(id, _, _) => [ToolResult(id, "Tool call omitted...", [])]
       case _ => [])
      + Omitted(items[1..])
  }

  /** What comes after the last real user turn. */
  function TailStart(conv: seq<Item>): (n: nat)
    ensures n <= |conv| && (n > 0 ==> IsRealUserTurn(conv[n - 1]))
    ensures forall j :: n <= j < |conv| ==> !IsRealUserTurn(conv[j])
  {
    match LastReal(conv)
    case None => 0
    case Some(i) => i + 1
  }

  function MessagesSinceLastRealUser(conv: seq<Item>): seq<Item> { Omitted(conv[TailStart(conv)..]) }

  function MetaUser(text: string): Item { User([Part.Text(text)], true) }

  /** What a compaction takes from outside the conversation. */
  datatype Context = Context(
    system: string,
    prefix: string,
    agentsReminder: Option<string>,
    cwdGeneration: nat,
    destinationInstructions: Option<string>,
    summary: string,
    transcriptHint: Option<string>,
    reminder: Option<string>)

  function OptionalMeta(text: Option<string>): seq<Item> {
    match text
    case None => []
    case Some(t) => [MetaUser(t)]
  }

  const SUMMARY_INTRO :=
    "This session is being continued from a previous conversation that ran out of context. "
    + "The summary below covers the earlier portion of the conversation.\n\n"

  function SummaryContent(ctx: Context): string {
    SUMMARY_INTRO
    + SummaryCleaner.Cleaned(ctx.summary)
    + (match ctx.transcriptHint case Some(h) => h case None => "")
  }

  function LeadItems(system: string, prefix: string, instructions: Option<string>): seq<Item> {
    [System(system), MetaUser(prefix)] + OptionalMeta(instructions)
  }

  function Instructions(ctx: Context): Option<string> {
    if ctx.cwdGeneration == 0 then ctx.agentsReminder else ctx.destinationInstructions
  }

  function Lead(ctx: Context): seq<Item> {
    LeadItems(ctx.system, ctx.prefix, Instructions(ctx))
  }

  function QueryItems(query: Option<string>): seq<Item> {
    match query
    case None => []
    case Some(q) => [User([Part.Text(WrapUserQuery(q))], false)]
  }

  function TrailItems(summary: string, reminder: Option<string>): seq<Item> {
    [MetaUser(summary)] + OptionalMeta(reminder)
  }

  function Trail(ctx: Context): seq<Item> { TrailItems(SummaryContent(ctx), ctx.reminder) }

  /** `build_compacted_history`. */
  function Built(ctx: Context, query: Option<string>, recent: seq<Item>): seq<Item> {
    Lead(ctx) + QueryItems(query) + recent + Trail(ctx)
  }

  /** One compaction of a conversation. */
  function Compact(conv: seq<Item>, ctx: Context): seq<Item> {
    Built(ctx, LastRealUserQuery(conv), MessagesSinceLastRealUser(conv))
  }

  // ---------- what a compacted history consists of ----------

  predicate HasCalls(item: Item) { item.Assistant? || item.ToolResult? }

  /** The items with calls or results, in order. */
  function CallsAndResults(items: seq<Item>): seq<Item> {
    if items == [] then []
    else CallsAndResults(items[..|items| - 1]) + if HasCalls(items[|items| - 1]) then [items[|items| - 1]] else []
  }

  /** The same items, assistants whole and results with their ids only. */
  predicate SameButContents(items: seq<Item>, recent: seq<Item>) {
    && |recent| == |items|
    && forall i :: 0 <= i < |items| ==>
         if items[i].ToolResult? then recent[i] == ToolResult(items[i].id, "Tool call omitted...", [])
         else recent[i] == items[i]
  }

  lemma {:induction false} OmittedAppend(a: seq<Item>, b: seq<Item>)
    ensures Omitted(a + b) == Omitted(a) + Omitted(b)
  {
    if a == [] {
      assert a + b == b;
    } else {
      assert (a + b)[1..] == a[1..] + b;
      OmittedAppend(a[1..], b);
    }
  }

  lemma {:induction false} RecentItems(tail: seq<Item>)
    ensures SameButContents(CallsAndResults(tail), Omitted(tail))
    decreases |tail|
  {
    if tail != [] {
      var front, last := tail[..|tail| - 1], tail[|tail| - 1];
      RecentItems(front);
      assert tail == front + [last] && [last][1..] == [];
      OmittedAppend(front, [last]);
    }
  }

  function Present(text: Option<string>): nat { if text.Some? then 1 else 0 }

  /** The text ends in the summary and then the hint. */
  predicate EndsIn(text: string, summary: string, hint: string) {
    var n := |summary| + |hint|;
    n <= |text| && text[|text| - n..] == summary + hint
  }

  /** A history laid out for the model: the system message, the prefix, the instructions, the query in
      the user's name, the recent items, the summary, the reminder; what is not there takes no place. */
  predicate LaidOut(c: seq<Item>, system: string, prefix: string, instructions: Option<string>, query: Option<string>,
                    recent: seq<Item>, summary: string, reminder: Option<string>)
  {
    var q := 2 + Present(instructions);
    var r := q + Present(query);
    var s := r + |recent|;
    && |c| == s + 1 + Present(reminder)
    && c[0] == System(system) && c[1] == User([Part.Text(prefix)], true)
    && (instructions.Some? ==> c[2] == User([Part.Text(instructions.value)], true))
    && (query.Some? ==> c[q] == User([Part.Text(query.value)], false))
    && c[r..s] == recent
    && c[s] == User([Part.Text(summary)], true)
    && (reminder.Some? ==> c[s + 1] == User([Part.Text(reminder.value)], true))
  }

  lemma ItemsLaidOut(system: string, prefix: string, instructions: Option<string>, query: Option<string>,
                     recent: seq<Item>, summary: string, reminder: Option<string>)
    ensures
      var q := match query case None => [] case Some(w) => [User([Part.Text(w)], false)];
      LaidOut(LeadItems(system, prefix, instructions) + q + recent + TrailItems(summary, reminder),
              system, prefix, instructions, query, recent, summary, reminder)
  {
  }

  lemma SummaryIsCarried(ctx: Context)
    ensures EndsIn(SummaryContent(ctx), SummaryCleaner.Cleaned(ctx.summary),
                   if ctx.transcriptHint.Some? then ctx.transcriptHint.value else "")
  {
    EndsInAppended(SUMMARY_INTRO, SummaryCleaner.Cleaned(ctx.summary),
                   if ctx.transcriptHint.Some? then ctx.transcriptHint.value else "");
  }

  lemma EndsInAppended(intro: string, summary: string, hint: string)
    ensures EndsIn(intro + summary + hint, summary, hint)
  {
  }

  /** Compaction keeps everything it should, each in its place: the context's messages, the last real
      query in the user's name, the calls and results after it without the results' contents, and one
      message that ends in the cleaned summary and the hint. */
  lemma CompactedLayout(conv: seq<Item>, ctx: Context) returns (recent: seq<Item>, summary: string)
    ensures SameButContents(CallsAndResults(conv[TailStart(conv)..]), recent)
    ensures EndsIn(summary, SummaryCleaner.Cleaned(ctx.summary),
                   if ctx.transcriptHint.Some? then ctx.transcriptHint.value else "")
    ensures
      var query := match LastRealUserQuery(conv) case None => None case Some(q) => Some(WrapUserQuery(q));
      LaidOut(Compact(conv, ctx), ctx.system, ctx.prefix,
              if ctx.cwdGeneration == 0 then ctx.agentsReminder else ctx.destinationInstructions,
              query, recent, summary, ctx.reminder)
  {
    recent, summary := MessagesSinceLastRealUser(conv), SummaryContent(ctx);
    RecentItems(conv[TailStart(conv)..]);
    SummaryIsCarried(ctx);
    var query := match LastRealUserQuery(conv) case None => None case Some(q) => Some(WrapUserQuery(q));
    ItemsLaidOut(ctx.system, ctx.prefix, Instructions(ctx), query, recent, summary, ctx.reminder);
  }

  // ---------- a compacted history is valid ----------

  predicate Plain(items: seq<Item>) {
    forall i :: 0 <= i < |items| ==> !items[i].Assistant? && !items[i].ToolResult?
  }

  lemma {:induction false} OrphansSkipPlain(plain: seq<Item>, rest: seq<Item>, seen: set<string>)
    requires Plain(plain)
    ensures OrphanIds(plain + rest, seen) == OrphanIds(rest, seen)
  {
    if plain == [] {
      assert plain + rest == rest;
    } else {
      assert (plain + rest)[1..] == plain[1..] + rest;
      OrphansSkipPlain(plain[1..], rest, seen);
    }
  }

  lemma {:induction false} OrphansBeforePlain(items: seq<Item>, plain: seq<Item>, seen: set<string>)
    requires Plain(plain)
    ensures OrphanIds(items + plain, seen) == OrphanIds(items, seen)
  {
    if items == [] {
      assert items + plain == plain + [];
      OrphansSkipPlain(plain, [], seen);
    } else {
      assert (items + plain)[1..] == items[1..] + plain;
      OrphansBeforePlain(items[1..], plain, SeenAfter(seen, items[0]));
    }
  }

  lemma {:induction false} OrphansOfOmitted(items: seq<Item>, seen: set<string>)
    ensures OrphanIds(Omitted(items), seen) == OrphanIds(items, seen)
  {
    if items != [] {
      OrphansOfOmitted(items[1..], SeenAfter(seen, items[0]));
      var o := Omitted(items[1..]);
      if items[0].Assistant? {
        assert ([items[0]] + o)[1..] == o;
      } else if items[0].ToolResult? {
        var r := ToolResult(items[0].id, "Tool call omitted...", []);
        assert ([r] + o)[1..] == o;
      } else {
        assert Omitted(items) == o;
      }
    }
  }

  lemma LeadItemsArePlain(system: string, prefix: string, instructions: Option<string>, query: Option<string>)
    ensures Plain(LeadItems(system, prefix, instructions) + QueryItems(query))
  {
  }

  lemma TrailItemsArePlain(summary: string, reminder: Option<string>)
    ensures Plain(TrailItems(summary, reminder))
  {
  }

  lemma BuiltOrphans(front: seq<Item>, recent: seq<Item>, trail: seq<Item>)
    requires Plain(front) && Plain(trail)
    ensures OrphanIds(front + recent + trail, {}) == OrphanIds(recent, {})
  {
    assert front + recent + trail == front + (recent + trail);
    OrphansSkipPlain(front, recent + trail, {});
    OrphansBeforePlain(recent, trail, {});
  }

  /** What validation reports on a compacted history are exactly the results after the last real
      user turn whose calls are not after it. */
  lemma CompactedOrphans(conv: seq<Item>, ctx: Context)
    ensures OrphanIds(Compact(conv, ctx), {}) == OrphanIds(conv[TailStart(conv)..], {})
  {
    LeadItemsArePlain(ctx.system, ctx.prefix, Instructions(ctx), LastRealUserQuery(conv));
    TrailItemsArePlain(SummaryContent(ctx), ctx.reminder);
    BuiltOrphans(Lead(ctx) + QueryItems(LastRealUserQuery(conv)), MessagesSinceLastRealUser(conv), Trail(ctx));
    OrphansOfOmitted(conv[TailStart(conv)..], {});
  }

  /** Compaction yields a valid history exactly when no call/result pair straddles the last real
      user turn: every later result has its call after that turn. */
  lemma CompactedIsValidIff(conv: seq<Item>, ctx: Context)
    ensures OrphanIds(Compact(conv, ctx), {}) == [] <==> ValidFrom(conv[TailStart(conv)..], {})
  {
    CompactedOrphans(conv, ctx);
    OrphansNoneIff(conv[TailStart(conv)..], {});
  }

  /** A result after item `n - 1` of a paired history, which is no assistant or result, is called after it. */
  lemma {:induction false} PairedTailIsValid(conv: seq<Item>, n: nat)
    requires WellPaired(conv) && n <= |conv| && (n > 0 ==> !conv[n - 1].ToolResult? && !conv[n - 1].Assistant?)
    ensures ValidFrom(conv[n..], {})
  {
    var tail := conv[n..];
    forall k: nat | k < |tail| && tail[k].ToolResult? ensures CalledBefore(tail, k) {
      assert conv[n + k] == tail[k];
      assert InRun(conv, n + k);
      var o: nat :| OwnedBy(conv, o, n + k);
      WithinRun(conv, o, n + k);
      assert Declares(tail[o - n], tail[k].id);
    }
  }

  /** In particular after compacting any history with properly paired tool results. */
  lemma CompactingPairedIsValid(conv: seq<Item>, ctx: Context)
    requires WellPaired(conv)
    ensures OrphanIds(Compact(conv, ctx), {}) == []
  {
    PairedTailIsValid(conv, TailStart(conv));
    CompactedIsValidIff(conv, ctx);
  }

  // ---------- the user's query survives compaction ----------

  predicate NoneReal(items: seq<Item>) {
    forall i :: 0 <= i < |items| ==> !items[i].User? || items[i].synthetic
  }

  lemma {:induction false} OmittedHasNoUser(items: seq<Item>)
    ensures NoneReal(Omitted(items))
  {
    if items != [] {
      OmittedHasNoUser(items[1..]);
    }
  }

  lemma LeadItemsNotReal(system: string, prefix: string, instructions: Option<string>)
    ensures NoneReal(LeadItems(system, prefix, instructions))
  {
  }

  lemma TrailItemsNotReal(summary: string, reminder: Option<string>)
    ensures NoneReal(TrailItems(summary, reminder))
  {
  }

  lemma OnePart(w: string)
    ensures JoinTexts([Part.Text(w)], true) == w && !HasImage([Part.Text(w)])
  {
    assert [Part.Text(w)][1..] == [];
    assert w + "" == w;
  }

  lemma QueryItem(w: string)
    ensures
      var item := User([Part.Text(w)], false);
      && QueryOf(item) == ExtractUserQuery(w)
      && (IsRealUserTurn(item) <==> !IsSyntheticQuery(ExtractUserQuery(w)))
  {
    OnePart(w);
  }

  /** Around one candidate that is real or not, nothing else can be the last real user turn. */
  lemma LastRealAround(front: seq<Item>, item: Item, back: seq<Item>)
    requires NoneReal(front) && NoneReal(back)
    ensures LastReal(front + [item] + back) == if IsRealUserTurn(item) then Some(|front|) else None
    ensures LastReal(front + back) == None
  {
    var all := front + [item] + back;
    assert all[|front|] == item;
    assert forall i :: 0 <= i < |front| ==> all[i] == front[i];
    assert forall i :: |front| < i < |all| ==> all[i] == back[i - |front| - 1];
    var rest := front + back;
    assert forall i :: 0 <= i < |rest| ==> rest[i] == if i < |front| then front[i] else back[i - |front|];
  }

  /** The query found in front + query + back, when nothing else there is a real user turn. */
  lemma QueryAround(front: seq<Item>, query: Option<string>, back: seq<Item>)
    requires NoneReal(front) && NoneReal(back)
    ensures LastRealUserQuery(front + QueryItems(query) + back) == Rewrapped(query)
  {
    match query {
      case None =>
        assert front + QueryItems(query) == front;
        LastRealAround(front, MetaUser(""), back);
      case Some(q) =>
        var w := WrapUserQuery(q);
        QueryItem(w);
        LastRealAround(front, User([Part.Text(w)], false), back);
    }
  }

  /** A query that has been wrapped and extracted again. */
  function Rewrapped(query: Option<string>): Option<string> {
    match query
    case None => None
    case Some(q) =>
      var again := ExtractUserQuery(WrapUserQuery(q));
      if IsSyntheticQuery(again) then None else Some(again)
  }

  lemma NotRealAppend(a: seq<Item>, b: seq<Item>)
    requires NoneReal(a) && NoneReal(b)
    ensures NoneReal(a + b)
  {
  }

  /** The query found in a compacted history. */
  lemma QueryAfterCompaction(conv: seq<Item>, ctx: Context)
    ensures LastRealUserQuery(Compact(conv, ctx)) == Rewrapped(LastRealUserQuery(conv))
  {
    var front, recent, trail := Lead(ctx), MessagesSinceLastRealUser(conv), Trail(ctx);
    LeadItemsNotReal(ctx.system, ctx.prefix, Instructions(ctx));
    TrailItemsNotReal(SummaryContent(ctx), ctx.reminder);
    OmittedHasNoUser(conv[TailStart(conv)..]);
    NotRealAppend(recent, trail);
    QueryAround(front, LastRealUserQuery(conv), recent + trail);
    Assoc(front + QueryItems(LastRealUserQuery(conv)), recent, trail);
  }

  /** The last real query of a conversation is still its last real query after one compaction
      exactly when it holds no closing tag and no complete system block, and is not synthetic. */
  lemma QuerySurvivesIff(conv: seq<Item>, ctx: Context, q: string)
    requires LastRealUserQuery(conv) == Some(q)
    ensures LastRealUserQuery(Compact(conv, ctx)) == Some(q) <==> Durable(q) && !IsSyntheticQuery(q)
  {
    QueryAfterCompaction(conv, ctx);
    ExtractOfWrapped(q);
  }

  function CompactAll(conv: seq<Item>, ctxs: seq<Context>): seq<Item>
    decreases |ctxs|
  {
    if ctxs == [] then conv else CompactAll(Compact(conv, ctxs[0]), ctxs[1..])
  }

  /** And then it survives any number of compactions. */
  lemma {:induction false} QuerySurvivesAll(conv: seq<Item>, ctxs: seq<Context>, q: string)
    requires LastRealUserQuery(conv) == Some(q) && Durable(q) && !IsSyntheticQuery(q)
    ensures LastRealUserQuery(CompactAll(conv, ctxs)) == Some(q)
    decreases |ctxs|
  {
    if ctxs != [] {
      QuerySurvivesIff(conv, ctxs[0], q);
      QuerySurvivesAll(Compact(conv, ctxs[0]), ctxs[1..], q);
    }
  }

  /** A query can also be lost: one that quotes the closing tag is cut short by compaction. */
  lemma QuotedClosingTagIsLost(conv: seq<Item>, ctx: Context, a: string, b: string)
    requires LastRealUserQuery(conv) == Some(a + CLOSE_QUERY + b)
    ensures LastRealUserQuery(Compact(conv, ctx)) != Some(a + CLOSE_QUERY + b)
  {
    var q := a + CLOSE_QUERY + b;
    assert MatchAt(q, CLOSE_QUERY, |a|);
    QuerySurvivesIff(conv, ctx, q);
  }
}
