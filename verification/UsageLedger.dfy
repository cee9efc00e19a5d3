/** The usage ledger: saturating sums of token usage, in total and by model. */
module UsageLedger {
  import opened Collections

  const U64_MAX: nat := 0xFFFF_FFFF_FFFF_FFFF
  const I64_MAX: nat := 0x7FFF_FFFF_FFFF_FFFF
  const I64_MIN: int := -0x8000_0000_0000_0000

  datatype Totals = Totals(
    inputTokens: nat,
    outputTokens: nat,
    cachedReadTokens: nat,
    reasoningTokens: nat,
    modelCalls: nat,
    apiDurationMs: nat,
    costUsdTicks: Option<int>,
    costMissingCalls: nat)

  const NO_USAGE := Totals(0, 0, 0, 0, 0, 0, None, 0)

  function Sat(n: nat): nat { if n > U64_MAX then U64_MAX else n }

  function SatI64(n: int): int { if n > I64_MAX then I64_MAX else if n < I64_MIN then I64_MIN else n }

  // ---------- the true sums ----------

  function PlusCost(a: Option<int>, b: Option<int>): Option<int> {
    match (a, b)
    case (None, None) => None
    case _ => Some((if a.Some? then a.value else 0) + (if b.Some? then b.value else 0))
  }

  /** Addition without any limit. */
  function Plus(a: Totals, b: Totals): Totals {
    Totals(a.inputTokens + b.inputTokens, a.outputTokens + b.outputTokens,
           a.cachedReadTokens + b.cachedReadTokens, a.reasoningTokens + b.reasoningTokens,
           a.modelCalls + b.modelCalls, a.apiDurationMs + b.apiDurationMs,
           PlusCost(a.costUsdTicks, b.costUsdTicks), a.costMissingCalls + b.costMissingCalls)
  }

  function ClipCost(c: Option<int>): Option<int> { match c case None => None case Some(t) => Some(SatI64(t)) }

  /** A true sum as the machine integers can show it. */
  function Clip(t: Totals): Totals {
    Totals(Sat(t.inputTokens), Sat(t.outputTokens), Sat(t.cachedReadTokens), Sat(t.reasoningTokens),
           Sat(t.modelCalls), Sat(t.apiDurationMs), ClipCost(t.costUsdTicks), Sat(t.costMissingCalls))
  }

  datatype Entry = Entry(model: string, usage: Totals)

  function Sum(es: seq<Entry>): Totals {
    if es == [] then NO_USAGE else Plus(Sum(es[..|es| - 1]), es[|es| - 1].usage)
  }

  function SumOf(es: seq<Entry>, model: string): Totals {
    if es == [] then NO_USAGE
    else
      var front := SumOf(es[..|es| - 1], model);
      if es[|es| - 1].model == model then Plus(front, es[|es| - 1].usage) else front
  }

  predicate NonNegative(t: Totals) { t.costUsdTicks.Some? ==> t.costUsdTicks.value >= 0 }

  predicate AllNonNegative(es: seq<Entry>) { forall i :: 0 <= i < |es| ==> NonNegative(es[i].usage) }

  // ---------- the operations ----------

  function MergeCostTicks(a: Option<int>, b: Option<int>): Option<int> {
    match (a, b)
    case (None, None) => None
    case _ => Some(SatI64((if a.Some? then a.value else 0) + (if b.Some? then b.value else 0)))
  }

  function FoldTotals(a: Totals, b: Totals): Totals {
    Totals(Sat(a.inputTokens + b.inputTokens), Sat(a.outputTokens + b.outputTokens),
           Sat(a.cachedReadTokens + b.cachedReadTokens), Sat(a.reasoningTokens + b.reasoningTokens),
           Sat(a.modelCalls + b.modelCalls), Sat(a.apiDurationMs + b.apiDurationMs),
           MergeCostTicks(a.costUsdTicks, b.costUsdTicks), Sat(a.costMissingCalls + b.costMissingCalls))
  }

  datatype TokenUsage = TokenUsage(prompt: nat, completion: nat, cachedPrompt: nat, reasoning: nat)

  /** One model call; a cost that is not positive counts as not reported. */
  function FromCall(u: TokenUsage, durationMs: Option<nat>, cost: Option<int>): (r: Totals)
    ensures NonNegative(r) && r.modelCalls == 1
  {
    var reported := if cost.Some? && cost.value > 0 then cost else None;
    Totals(u.prompt, u.completion, u.cachedPrompt, u.reasoning, 1,
           if durationMs.Some? then durationMs.value else 0,
           reported, if reported.None? then 1 else 0)
  }

  /** What one call adds: prompt tokens to the input, completion tokens to the output, one to the
      calls, and its cost if that is positive, else one to the calls without a cost. */
  predicate CallAdded(was: Totals, now: Totals, u: TokenUsage, durationMs: Option<nat>, cost: Option<int>) {
    && now.inputTokens == Sat(was.inputTokens + u.prompt)
    && now.outputTokens == Sat(was.outputTokens + u.completion)
    && now.cachedReadTokens == Sat(was.cachedReadTokens + u.cachedPrompt)
    && now.reasoningTokens == Sat(was.reasoningTokens + u.reasoning)
    && now.modelCalls == Sat(was.modelCalls + 1)
    && now.apiDurationMs == Sat(was.apiDurationMs + match durationMs case None => 0 case Some(ms) => ms)
    && if cost.Some? && cost.value > 0
       then now.costUsdTicks == Some(SatI64(Ticks(was.costUsdTicks) + cost.value)) &&
            now.costMissingCalls == Sat(was.costMissingCalls)
       else Ticks(now.costUsdTicks) == SatI64(Ticks(was.costUsdTicks)) &&
            now.costUsdTicks.Some? == was.costUsdTicks.Some? &&
            now.costMissingCalls == Sat(was.costMissingCalls + 1)
  }

  lemma CallIsAdded(was: Totals, u: TokenUsage, durationMs: Option<nat>, cost: Option<int>)
    ensures CallAdded(was, FoldTotals(was, FromCall(u, durationMs, cost)), u, durationMs, cost)
  {
  }

  /** Folding into a clipped sum loses nothing but what is beyond the limit. */
  lemma FoldIsClippedPlus(a: Totals, b: Totals)
    requires NonNegative(a) && NonNegative(b)
    ensures FoldTotals(Clip(a), b) == Clip(Plus(a, b)) && NonNegative(Plus(a, b))
    ensures Clip(Plus(a, Clip(b))) == Clip(Plus(a, b))
  {
  }

  predicate InI64(c: Option<int>) { c.Some? ==> I64_MIN <= c.value <= I64_MAX }

  function Ticks(c: Option<int>): int { if c.Some? then c.value else 0 }

  /** A cost of the other sign after the true sum has left the range: saturation has forgotten how
      far out the sum was. */
  predicate ComesBack(sum: Option<int>, c: Option<int>) {
    (Ticks(sum) > I64_MAX && Ticks(c) < 0) || (Ticks(sum) < I64_MIN && Ticks(c) > 0)
  }

  /** Merging one more cost into a saturated sum gives the saturated true sum, except when the sum
      comes back from beyond the limit. */
  lemma MergeIsClippedPlusIff(sum: Option<int>, c: Option<int>)
    requires InI64(c)
    ensures MergeCostTicks(ClipCost(sum), c) == ClipCost(PlusCost(sum, c)) <==> !ComesBack(sum, c)
  {
  }

  /** The smallest case in which saturation forgets. */
  lemma NegativeCostBreaksConservation()
    ensures MergeCostTicks(MergeCostTicks(Some(I64_MAX), Some(I64_MAX)), Some(-1))
         != ClipCost(PlusCost(PlusCost(Some(I64_MAX), Some(I64_MAX)), Some(-1)))
  {
    MergeIsClippedPlusIff(Some(I64_MAX), Some(I64_MAX));
    MergeIsClippedPlusIff(PlusCost(Some(I64_MAX), Some(I64_MAX)), Some(-1));
  }

  /** The running totals of a ledger with these entries. */
  function Booked(es: seq<Entry>): Totals {
    if es == [] then NO_USAGE else FoldTotals(Booked(es[..|es| - 1]), es[|es| - 1].usage)
  }

  /** What the totals show but for the cost. */
  function WithoutCost(t: Totals): Totals { t.(costUsdTicks := None) }

  /** Tokens, calls and durations are conserved whatever the costs are. */
  lemma {:induction false} CountsAreConserved(es: seq<Entry>)
    ensures WithoutCost(Booked(es)) == WithoutCost(Clip(Sum(es)))
  {
    if es != [] {
      CountsAreConserved(es[..|es| - 1]);
    }
  }

  /** Nowhere in the sequence does the true cost come back from beyond the limits. */
  predicate NeverComesBack(es: seq<Entry>) {
    es == []
    || (NeverComesBack(es[..|es| - 1])
        && !ComesBack(Sum(es[..|es| - 1]).costUsdTicks, es[|es| - 1].usage.costUsdTicks))
  }

  /** Now and after every earlier entry the totals are the saturated true sums. */
  predicate ConservedThroughout(es: seq<Entry>) {
    Booked(es) == Clip(Sum(es)) && (es != [] ==> ConservedThroughout(es[..|es| - 1]))
  }

  predicate AllInI64(es: seq<Entry>) { forall i :: 0 <= i < |es| ==> InI64(es[i].usage.costUsdTicks) }

  lemma FoldIsClippedIff(t: Totals, u: Totals)
    requires InI64(u.costUsdTicks)
    ensures FoldTotals(Clip(t), u) == Clip(Plus(t, u)) <==> !ComesBack(t.costUsdTicks, u.costUsdTicks)
  {
    MergeIsClippedPlusIff(t.costUsdTicks, u.costUsdTicks);
  }

  /** For any costs: the totals are the saturated true sums throughout exactly when the true cost
      never comes back from beyond the limits. */
  lemma {:induction false} ConservedThroughoutIff(es: seq<Entry>)
    requires AllInI64(es)
    ensures ConservedThroughout(es) <==> NeverComesBack(es)
    decreases |es|
  {
    if es != [] {
      ConservedThroughoutIff(es[..|es| - 1]);
      FoldIsClippedIff(Sum(es[..|es| - 1]), es[|es| - 1].usage);
    }
  }

  // ---------- field by field ----------

  function SumOn(es: seq<Entry>, field: Totals -> nat): nat {
    if es == [] then 0 else SumOn(es[..|es| - 1], field) + field(es[|es| - 1].usage)
  }

  function SumOfCosts(es: seq<Entry>): int {
    if es == [] then 0 else SumOfCosts(es[..|es| - 1]) + Ticks(es[|es| - 1].usage.costUsdTicks)
  }

  /** Each count of the ledger is the saturated sum of that count over the entries. */
  lemma {:induction false} CountsAreFieldSums(es: seq<Entry>)
    ensures
      var t := Booked(es);
      && t.inputTokens == Sat(SumOn(es, (u: Totals) => u.inputTokens))
      && t.outputTokens == Sat(SumOn(es, (u: Totals) => u.outputTokens))
      && t.cachedReadTokens == Sat(SumOn(es, (u: Totals) => u.cachedReadTokens))
      && t.reasoningTokens == Sat(SumOn(es, (u: Totals) => u.reasoningTokens))
      && t.modelCalls == Sat(SumOn(es, (u: Totals) => u.modelCalls))
      && t.apiDurationMs == Sat(SumOn(es, (u: Totals) => u.apiDurationMs))
      && t.costMissingCalls == Sat(SumOn(es, (u: Totals) => u.costMissingCalls))
  {
    if es != [] {
      CountsAreFieldSums(es[..|es| - 1]);
    }
  }

  /** The true cost is the sum of the costs reported, or absent if none was. */
  lemma {:induction false} CostIsSumOfReported(es: seq<Entry>)
    ensures Ticks(Sum(es).costUsdTicks) == SumOfCosts(es)
    ensures Sum(es).costUsdTicks.Some? <==> exists i :: 0 <= i < |es| && es[i].usage.costUsdTicks.Some?
  {
    if es != [] {
      CostIsSumOfReported(es[..|es| - 1]);
    }
  }

  /** The entries of one model, in order. */
  function EntriesOf(es: seq<Entry>, model: string): seq<Entry> {
    if es == [] then []
    else EntriesOf(es[..|es| - 1], model) + (if es[|es| - 1].model == model then [es[|es| - 1]] else [])
  }

  lemma {:induction false} SumOfIsSum(es: seq<Entry>, model: string)
    ensures SumOf(es, model) == Sum(EntriesOf(es, model))
  {
    if es != [] {
      var front := es[..|es| - 1];
      SumOfIsSum(front, model);
      var of := EntriesOf(front, model);
      assert (of + [es[|es| - 1]])[..|of|] == of && of + [] == of;
    }
  }

  // ---------- by model ----------

  /** A model's entry in insertion order, the index of an `IndexMap` slot. */
  function Slot(byModel: seq<Entry>, model: string): (r: Option<nat>)
    ensures r.Some? ==> r.value < |byModel| && byModel[r.value].model == model
    ensures r.None? ==> forall i :: 0 <= i < |byModel| ==> byModel[i].model != model
  {
    if byModel == [] then None
    else if byModel[|byModel| - 1].model == model then Some(|byModel| - 1)
    else Slot(byModel[..|byModel| - 1], model)
  }

  predicate DistinctModels(byModel: seq<Entry>) {
    forall i, j :: 0 <= i < j < |byModel| ==> byModel[i].model != byModel[j].model
  }

  /** Every model that was ever billed has one slot, with the clipped sum of its entries. */
  ghost predicate SplitsByModel(byModel: seq<Entry>, es: seq<Entry>) {
    && DistinctModels(byModel)
    && (forall i :: 0 <= i < |byModel| ==> byModel[i].usage == Clip(SumOf(es, byModel[i].model)))
    && (forall i :: 0 <= i < |es| ==> Slot(byModel, es[i].model).Some?)
  }

  function FoldEntry(byModel: seq<Entry>, e: Entry): seq<Entry> {
    match Slot(byModel, e.model)
    case Some(i) => byModel[i := Entry(e.model, FoldTotals(byModel[i].usage, e.usage))]
    case None => byModel + [Entry(e.model, FoldTotals(NO_USAGE, e.usage))]
  }

  lemma PlusSwap(a: Totals, u: Totals, b: Totals)
    ensures Plus(Plus(a, u), b) == Plus(Plus(a, b), u)
  {
  }

  lemma PlusNone(a: Totals)
    ensures Plus(a, NO_USAGE) == a && Plus(NO_USAGE, a) == a
  {
  }

  /** The true sums of the models in `slots`, added up. */
  function SumOverModels(slots: seq<Entry>, es: seq<Entry>): Totals {
    if slots == [] then NO_USAGE
    else Plus(SumOverModels(slots[..|slots| - 1], es), SumOf(es, slots[|slots| - 1].model))
  }

  lemma {:induction false} OneMoreEntry(slots: seq<Entry>, es: seq<Entry>, e: Entry)
    requires DistinctModels(slots)
    ensures SumOverModels(slots, es + [e])
         == if Slot(slots, e.model).Some? then Plus(SumOverModels(slots, es), e.usage) else SumOverModels(slots, es)
    decreases |slots|
  {
    assert (es + [e])[..|es|] == es;
    if slots != [] {
      var n := |slots| - 1;
      OneMoreEntry(slots[..n], es, e);
      var here := SumOf(es, slots[n].model);
      if slots[n].model == e.model {
        assert Slot(slots[..n], e.model).None?;
        assert SumOf(es + [e], e.model) == Plus(here, e.usage);
        PlusAssoc(SumOverModels(slots[..n], es), here, e.usage);
      } else {
        PlusSwap(SumOverModels(slots[..n], es), e.usage, here);
      }
    }
  }

  lemma PlusAssoc(a: Totals, b: Totals, c: Totals)
    ensures Plus(a, Plus(b, c)) == Plus(Plus(a, b), c)
  {
  }

  lemma {:induction false} NothingBilled(slots: seq<Entry>)
    ensures SumOverModels(slots, []) == NO_USAGE
  {
    if slots != [] {
      NothingBilled(slots[..|slots| - 1]);
      assert SumOf([], slots[|slots| - 1].model) == NO_USAGE;
      PlusNone(NO_USAGE);
    }
  }

  /** Splitting by model loses nothing. */
  lemma {:induction false} ModelsPartitionTheEntries(slots: seq<Entry>, es: seq<Entry>)
    requires DistinctModels(slots) && forall i :: 0 <= i < |es| ==> Slot(slots, es[i].model).Some?
    ensures SumOverModels(slots, es) == Sum(es)
    decreases |es|
  {
    if es == [] {
      NothingBilled(slots);
    } else {
      var n := |es| - 1;
      ModelsPartitionTheEntries(slots, es[..n]);
      assert es == es[..n] + [es[n]];
      OneMoreEntry(slots, es[..n], es[n]);
    }
  }

  lemma {:induction false} SumsNonNegative(es: seq<Entry>, model: string)
    requires AllNonNegative(es)
    ensures NonNegative(Sum(es)) && NonNegative(SumOf(es, model))
    decreases |es|
  {
    if es != [] {
      SumsNonNegative(es[..|es| - 1], model);
    }
  }

  lemma {:induction false} ClippedSlots(slots: seq<Entry>, es: seq<Entry>)
    requires AllNonNegative(es)
    requires forall i :: 0 <= i < |slots| ==> slots[i].usage == Clip(SumOf(es, slots[i].model))
    ensures Clip(Sum(slots)) == Clip(SumOverModels(slots, es)) && NonNegative(SumOverModels(slots, es))
    ensures NonNegative(Sum(slots))
    decreases |slots|
  {
    if slots != [] {
      var n := |slots| - 1;
      ClippedSlots(slots[..n], es);
      SumsNonNegative(es, slots[n].model);
      ClipOfSums(Sum(slots[..n]), SumOverModels(slots[..n], es), SumOf(es, slots[n].model));
    }
  }

  lemma ClipOfSums(a: Totals, b: Totals, c: Totals)
    requires Clip(a) == Clip(b) && NonNegative(a) && NonNegative(b) && NonNegative(c)
    ensures Clip(Plus(a, Clip(c))) == Clip(Plus(b, c)) && NonNegative(Plus(a, Clip(c))) && NonNegative(Plus(b, c))
  {
    FoldIsClippedPlus(a, c);
    FoldIsClippedPlus(b, c);
  }

  /** The two granularities agree: the clipped sum over the models is the clipped true total. */
  lemma ModelTotalsAddUp(byModel: seq<Entry>, es: seq<Entry>)
    requires AllNonNegative(es) && SplitsByModel(byModel, es)
    ensures Clip(Sum(byModel)) == Clip(Sum(es))
  {
    ClippedSlots(byModel, es);
    ModelsPartitionTheEntries(byModel, es);
  }

  lemma {:induction false} CostAbsentIffUnreported(es: seq<Entry>)
    ensures Clip(Sum(es)).costUsdTicks.None? <==> forall i :: 0 <= i < |es| ==> es[i].usage.costUsdTicks.None?
    decreases |es|
  {
    if es != [] {
      CostAbsentIffUnreported(es[..|es| - 1]);
    }
  }

  lemma SumOfSnoc(es: seq<Entry>, e: Entry, model: string)
    ensures SumOf(es + [e], model) == if model == e.model then Plus(SumOf(es, model), e.usage) else SumOf(es, model)
    ensures Sum(es + [e]) == Plus(Sum(es), e.usage)
  {
    assert (es + [e])[..|es|] == es;
  }

  lemma NonNegativeSnoc(es: seq<Entry>, e: Entry)
    requires AllNonNegative(es) && NonNegative(e.usage)
    ensures AllNonNegative(es + [e])
  {
  }

  lemma FoldEntryShape(byModel: seq<Entry>, e: Entry)
    requires DistinctModels(byModel)
    ensures DistinctModels(FoldEntry(byModel, e)) && Slot(FoldEntry(byModel, e), e.model).Some?
    ensures forall m :: Slot(byModel, m).Some? ==> Slot(FoldEntry(byModel, e), m).Some?
  {
    var after := FoldEntry(byModel, e);
    match Slot(byModel, e.model) {
      case Some(i) => assert after[i].model == e.model;
      case None => assert after[|byModel|].model == e.model;
    }
    forall m | Slot(byModel, m).Some? ensures Slot(after, m).Some? {
      assert after[Slot(byModel, m).value].model == m;
    }
  }

  lemma FoldEntryUsage(byModel: seq<Entry>, es: seq<Entry>, e: Entry, i: nat)
    requires AllNonNegative(es) && NonNegative(e.usage) && SplitsByModel(byModel, es)
    requires i < |FoldEntry(byModel, e)|
    ensures FoldEntry(byModel, e)[i].usage == Clip(SumOf(es + [e], FoldEntry(byModel, e)[i].model))
  {
    var after := FoldEntry(byModel, e);
    SumOfSnoc(es, e, after[i].model);
    if after[i].model == e.model {
      SumsNonNegative(es, e.model);
      FoldIsClippedPlus(SumOf(es, e.model), e.usage);
      if Slot(byModel, e.model).None? {
        UnknownModel(byModel, es, e.model);
        assert Clip(NO_USAGE) == NO_USAGE;
        assert i == |byModel|;
      } else {
        assert byModel[i].model == e.model;
      }
    }
  }

  lemma FoldEntrySplits(byModel: seq<Entry>, es: seq<Entry>, e: Entry)
    requires AllNonNegative(es) && NonNegative(e.usage) && SplitsByModel(byModel, es)
    ensures SplitsByModel(FoldEntry(byModel, e), es + [e])
  {
    var more, after := es + [e], FoldEntry(byModel, e);
    FoldEntryShape(byModel, e);
    forall i | 0 <= i < |after| ensures after[i].usage == Clip(SumOf(more, after[i].model)) {
      FoldEntryUsage(byModel, es, e, i);
    }
    forall i | 0 <= i < |more| ensures Slot(after, more[i].model).Some? {
      assert i < |es| ==> Slot(byModel, es[i].model).Some?;
    }
  }

  /** The books balance: the total and the split by model both are the clipped true sums of the
      entries, and they add up. */
  ghost predicate Balanced(totals: Totals, byModel: seq<Entry>, es: seq<Entry>) {
    && AllNonNegative(es)
    && totals == Clip(Sum(es))
    && SplitsByModel(byModel, es)
    && totals == Clip(Sum(byModel))
  }

  lemma FoldingKeepsBalance(totals: Totals, byModel: seq<Entry>, es: seq<Entry>, e: Entry)
    requires Balanced(totals, byModel, es) && NonNegative(e.usage)
    ensures Balanced(FoldTotals(totals, e.usage), FoldEntry(byModel, e), es + [e])
  {
    SumOfSnoc(es, e, e.model);
    SumsNonNegative(es, e.model);
    FoldIsClippedPlus(Sum(es), e.usage);
    NonNegativeSnoc(es, e);
    FoldEntrySplits(byModel, es, e);
    ModelTotalsAddUp(FoldEntry(byModel, e), es + [e]);
  }

  lemma {:induction false} UnknownModel(byModel: seq<Entry>, es: seq<Entry>, model: string)
    requires Slot(byModel, model).None? && forall i :: 0 <= i < |es| ==> Slot(byModel, es[i].model).Some?
    ensures SumOf(es, model) == NO_USAGE
    decreases |es|
  {
    if es != [] {
      UnknownModel(byModel, es[..|es| - 1], model);
    }
  }

  /** The split by model of a ledger with these entries. */
  function BookedByModel(es: seq<Entry>): seq<Entry> {
    if es == [] then [] else FoldEntry(BookedByModel(es[..|es| - 1]), es[|es| - 1])
  }

  /** Conservation at both granularities, after any entries with non-negative costs. */
  lemma {:induction false} BooksBalance(es: seq<Entry>)
    requires AllNonNegative(es)
    ensures Balanced(Booked(es), BookedByModel(es), es)
    decreases |es|
  {
    if es == [] {
      assert Clip(NO_USAGE) == NO_USAGE;
    } else {
      var front, e := es[..|es| - 1], es[|es| - 1];
      BooksBalance(front);
      FoldingKeepsBalance(Booked(front), BookedByModel(front), front, e);
      assert es == front + [e];
    }
  }

  // ---------- the counts, whatever the costs ----------

  /** The entries with their costs left out. */
  function Costless(es: seq<Entry>): (r: seq<Entry>)
    ensures |r| == |es| && forall i :: 0 <= i < |es| ==> r[i] == Entry(es[i].model, WithoutCost(es[i].usage))
  {
    seq(|es|, i requires 0 <= i < |es| => Entry(es[i].model, WithoutCost(es[i].usage)))
  }

  lemma CostlessSnoc(es: seq<Entry>, e: Entry)
    ensures Costless(es + [e]) == Costless(es) + [Entry(e.model, WithoutCost(e.usage))]
  {
  }

  lemma {:induction false} SumsOfCostless(es: seq<Entry>, model: string)
    ensures Sum(Costless(es)) == WithoutCost(Sum(es)) && SumOf(Costless(es), model) == WithoutCost(SumOf(es, model))
    decreases |es|
  {
    if es != [] {
      var front, e := es[..|es| - 1], es[|es| - 1];
      assert es == front + [e];
      SumsOfCostless(front, model);
      CostlessSnoc(front, e);
      SumOfSnoc(front, e, model);
      SumOfSnoc(Costless(front), Entry(e.model, WithoutCost(e.usage)), model);
      PlusWithoutCost(Sum(front), e.usage);
      PlusWithoutCost(SumOf(front, model), e.usage);
    }
  }

  lemma PlusWithoutCost(a: Totals, b: Totals)
    ensures Plus(WithoutCost(a), WithoutCost(b)) == WithoutCost(Plus(a, b))
  {
  }

  lemma {:induction false} SlotOfCostless(byModel: seq<Entry>, model: string)
    ensures Slot(Costless(byModel), model) == Slot(byModel, model)
    decreases |byModel|
  {
    if byModel != [] {
      SlotOfCostless(byModel[..|byModel| - 1], model);
      assert Costless(byModel)[..|byModel| - 1] == Costless(byModel[..|byModel| - 1]);
    }
  }

  lemma FoldCostless(byModel: seq<Entry>, e: Entry)
    ensures FoldEntry(Costless(byModel), Entry(e.model, WithoutCost(e.usage))) == Costless(FoldEntry(byModel, e))
  {
    SlotOfCostless(byModel, e.model);
    match Slot(byModel, e.model)
    case Some(_) =>
    case None => CostlessSnoc(byModel, Entry(e.model, FoldTotals(NO_USAGE, e.usage)));
  }

  lemma {:induction false} BookedCostless(es: seq<Entry>)
    ensures BookedByModel(Costless(es)) == Costless(BookedByModel(es))
    decreases |es|
  {
    if es != [] {
      var front, e := es[..|es| - 1], es[|es| - 1];
      BookedCostless(front);
      assert Costless(es)[..|es| - 1] == Costless(front);
      FoldCostless(BookedByModel(front), e);
    }
  }

  /** Both granularities agree on everything but costs: every model billed has one slot with the
      saturated counts of its entries, and the slots add up to the saturated counts of all. */
  ghost predicate CountsSplit(byModel: seq<Entry>, es: seq<Entry>) {
    && DistinctModels(byModel)
    && (forall i :: 0 <= i < |byModel| ==>
          WithoutCost(byModel[i].usage) == WithoutCost(Clip(SumOf(es, byModel[i].model))))
    && (forall i :: 0 <= i < |es| ==> Slot(byModel, es[i].model).Some?)
    && WithoutCost(Clip(Sum(byModel))) == WithoutCost(Clip(Sum(es)))
  }

  lemma SlotCounts(b: seq<Entry>, es: seq<Entry>, i: nat)
    requires i < |b| && Costless(b)[i].usage == Clip(SumOf(Costless(es), Costless(b)[i].model))
    ensures WithoutCost(b[i].usage) == WithoutCost(Clip(SumOf(es, b[i].model)))
  {
    SumsOfCostless(es, b[i].model);
  }

  lemma SlotsOfCostless(b: seq<Entry>, es: seq<Entry>)
    requires SplitsByModel(Costless(b), Costless(es))
    ensures DistinctModels(b) && forall i :: 0 <= i < |es| ==> Slot(b, es[i].model).Some?
  {
    forall i, j | 0 <= i < j < |b| ensures b[i].model != b[j].model {
      assert Costless(b)[i].model != Costless(b)[j].model;
    }
    forall i | 0 <= i < |es| ensures Slot(b, es[i].model).Some? {
      SlotOfCostless(b, es[i].model);
      assert Slot(Costless(b), Costless(es)[i].model).Some?;
    }
  }

  lemma TotalsOfCostless(b: seq<Entry>, es: seq<Entry>)
    requires Clip(Sum(Costless(b))) == Clip(Sum(Costless(es)))
    ensures WithoutCost(Clip(Sum(b))) == WithoutCost(Clip(Sum(es)))
  {
    SumsOfCostless(es, "");
    SumsOfCostless(b, "");
  }

  /** By model, too, counts are conserved whatever the costs are. */
  lemma CountsByModelAreConserved(es: seq<Entry>)
    ensures CountsSplit(BookedByModel(es), es)
  {
    var b := BookedByModel(es);
    BooksBalance(Costless(es));
    BookedCostless(es);
    forall i | 0 <= i < |b| ensures WithoutCost(b[i].usage) == WithoutCost(Clip(SumOf(es, b[i].model))) {
      SlotCounts(b, es, i);
    }
    SlotsOfCostless(b, es);
    TotalsOfCostless(b, es);
  }

  /** The state of a ledger is that of its entries. */
  ghost predicate Books(totals: Totals, byModel: seq<Entry>, es: seq<Entry>) {
    totals == Booked(es) && byModel == BookedByModel(es)
  }

  lemma BookOneMore(totals: Totals, byModel: seq<Entry>, es: seq<Entry>, e: Entry)
    requires Books(totals, byModel, es)
    ensures Books(FoldTotals(totals, e.usage), FoldEntry(byModel, e), es + [e])
  {
    assert (es + [e])[..|es|] == es;
  }

  // ---------- the ledger ----------

  class Ledger {
    var totals: Totals
    var byModel: seq<Entry>
    var mainLoopModelCalls: nat
    var incomplete: bool
    /** Everything that was ever folded in. */
    ghost var entries: seq<Entry>

    ghost predicate Valid()
      reads this`totals, this`byModel, this`mainLoopModelCalls, this`entries
    {
      Books(totals, byModel, entries) && mainLoopModelCalls <= totals.modelCalls
    }

    constructor ()
      ensures Valid() && entries == [] && !incomplete && totals == NO_USAGE
    {
      totals, byModel, mainLoopModelCalls, incomplete, entries := NO_USAGE, [], 0, false, [];
    }

    method Fold(e: Entry)
      requires Valid()
      modifies this`totals, this`byModel, this`entries
      ensures Valid() && entries == old(entries) + [e]
      ensures totals == FoldTotals(old(totals), e.usage)
      ensures totals.modelCalls == Sat(old(totals.modelCalls) + e.usage.modelCalls)
    {
      BookOneMore(totals, byModel, entries, e);
      totals := FoldTotals(totals, e.usage);
      byModel := FoldEntry(byModel, e);
      entries := entries + [e];
    }

    method RecordMainLoopCall(model: string, usage: TokenUsage, durationMs: Option<nat>, cost: Option<int>)
      requires Valid()
      modifies this
      ensures Valid() && entries == old(entries) + [Entry(model, FromCall(usage, durationMs, cost))]
      ensures mainLoopModelCalls == Sat(old(mainLoopModelCalls) + 1) && incomplete == old(incomplete)
      ensures CallAdded(old(totals), totals, usage, durationMs, cost)
      ensures AllNonNegative(entries) ==> Balanced(totals, byModel, entries)
    {
      CallIsAdded(totals, usage, durationMs, cost);
      Fold(Entry(model, FromCall(usage, durationMs, cost)));
      mainLoopModelCalls := Sat(mainLoopModelCalls + 1);
      Balance();
    }

    /** With non-negative costs the books balance, and in any case all counts are conserved. */
    lemma Balance()
      requires Valid()
      ensures AllNonNegative(entries) ==> Balanced(totals, byModel, entries)
      ensures WithoutCost(totals) == WithoutCost(Clip(Sum(entries))) && CountsSplit(byModel, entries)
    {
      CountsAreConserved(entries);
      CountsByModelAreConserved(entries);
      if AllNonNegative(entries) {
        BooksBalance(entries);
      }
    }

    /** Entries of any cost; `incomplete` is never reset. */
    method RecordSubagent(usages: seq<Entry>, partial: bool)
      requires Valid()
      modifies this
      ensures Valid() && entries == old(entries) + usages
      ensures mainLoopModelCalls == old(mainLoopModelCalls) && incomplete == (old(incomplete) || partial)
      ensures AllNonNegative(entries) ==> Balanced(totals, byModel, entries)
      ensures WithoutCost(totals) == WithoutCost(Clip(Sum(entries))) && CountsSplit(byModel, entries)
    {
      incomplete := incomplete || partial;
      FoldAll(usages);
      Balance();
    }

    method FoldAll(usages: seq<Entry>)
      requires Valid()
      modifies this`totals, this`byModel, this`entries
      ensures Valid() && entries == old(entries) + usages
    {
      for i := 0 to |usages|
        invariant Valid() && entries == old(entries) + usages[..i]
      {
        Fold(usages[i]);
      }
    }

    method MarkIncomplete()
      requires Valid()
      modifies this`incomplete
      ensures Valid() && incomplete
    {
      incomplete := true;
    }
  }
}
