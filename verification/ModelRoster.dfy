/**
 The health-ranked model roster: every slot gets the best-ranked model of its provider that no
 sibling slot has taken.

 Scores and statuses are arbitrary functions, and so is case folding, except that folding twice is
 the same as folding once.
 */
module ModelRoster {
  import opened Collections

  datatype Slot = Slot(key: string, provider: string, model: string)

  datatype Status = Active | Untested | Degraded | Poor | Cooldown | Banned

  /** What the health file, the blacklist and the settings say. */
  datatype Health = Health(
    fold: string -> string,
    bannedProviders: set<string>,
    bannedModels: set<string>,
    score: (string, string) -> real,
    status: (string, string) -> Status,
    preferredBonus: real,
    switchMargin: real)

  /** What lower-casing does: doing it twice changes nothing more, and no name vanishes. */
  ghost predicate FoldsCase(h: Health) {
    forall s: string :: h.fold(h.fold(s)) == h.fold(s) && (s != "" ==> h.fold(s) != "")
  }

  /** The names to exclude, folded. */
  function Folded(h: Health, names: set<string>): set<string> { set x | x in names && x != "" :: h.fold(x) }

  /** The candidates of a slot, its seed included. */
  function Pool(candidates: seq<string>, preferred: string): seq<string> {
    if preferred != "" && preferred !in candidates then [preferred] + candidates else candidates
  }

  /** The candidates keep their order, and a seed that is not among them comes first. */
  lemma PoolOrder(candidates: seq<string>, preferred: string)
    ensures
      var r := Pool(candidates, preferred);
      && |candidates| <= |r| <= |candidates| + 1 && r[|r| - |candidates|..] == candidates
      && (preferred != "" ==> preferred in r)
  {
  }

  predicate Usable(h: Health, exclude: set<string>, m: string) {
    m != "" && h.fold(m) !in h.bannedModels && h.fold(m) !in exclude
  }

  function RankScore(h: Health, provider: string, preferred: string, m: string, idx: nat): real {
    var seeded := h.score(provider, m) + (if preferred != "" && m == preferred then h.preferredBonus else 0.0);
    var sc := seeded - (idx as real) * 0.05;
    match h.status(provider, m)
    case Banned => -1000.0
    case Cooldown => if sc < -100.0 then sc else -100.0
    case Poor => sc - 25.0
    case _ => sc
  }

  datatype Ranked = Ranked(score: real, model: string)

  predicate LexLess(a: string, b: string) {
    b != "" && (a == "" || a[0] < b[0] || (a[0] == b[0] && LexLess(a[1..], b[1..])))
  }

  /** Earlier in the ranking: a higher score, or the same score and the smaller name. */
  predicate Better(a: Ranked, b: Ranked) { a.score > b.score || (a.score == b.score && LexLess(a.model, b.model)) }

  lemma {:induction false} LexTransitive(a: string, b: string, c: string)
    requires LexLess(a, b) && LexLess(b, c)
    ensures LexLess(a, c)
    decreases |a|
  {
    if a != "" && a[0] == b[0] && b[0] == c[0] {
      LexTransitive(a[1..], b[1..], c[1..]);
    }
  }

  lemma BetterTransitive(a: Ranked, b: Ranked, c: Ranked)
    requires Better(a, b) && Better(b, c)
    ensures Better(a, c)
  {
    if a.score == b.score == c.score {
      LexTransitive(a.model, b.model, c.model);
    }
  }

  function FirstIndex(pool: seq<string>, m: string): (r: nat)
    requires m in pool
    ensures r < |pool| && pool[r] == m && forall k :: 0 <= k < r ==> pool[k] != m
  {
    if pool[0] == m then 0 else 1 + FirstIndex(pool[1..], m)
  }

  /** The rank of a candidate, at its first position in the pool. */
  function RankOf(h: Health, provider: string, preferred: string, pool: seq<string>, m: string): Ranked
    requires m in pool
  {
    Ranked(RankScore(h, provider, preferred, m, FirstIndex(pool, m)), m)
  }

  /** The ranking holds the usable candidates among the first `n`. */
  ghost predicate Ranks(h: Health, provider: string, preferred: string, pool: seq<string>, exclude: set<string>,
                        n: nat, ranked: seq<Ranked>)
  {
    && n <= |pool|
    && (forall r :: r in ranked ==> r.model in pool && Usable(h, exclude, r.model)
                                    && r == RankOf(h, provider, preferred, pool, r.model))
    && (forall i :: 0 <= i < n && Usable(h, exclude, pool[i]) ==>
          RankOf(h, provider, preferred, pool, pool[i]) in ranked)
  }

  method RankCandidates(h: Health, provider: string, preferred: string, pool: seq<string>, exclude: set<string>)
    returns (ranked: seq<Ranked>)
    ensures Ranks(h, provider, preferred, pool, exclude, |pool|, ranked)
  {
    ranked := [];
    var seen: set<string> := {};
    for idx := 0 to |pool|
      invariant Ranks(h, provider, preferred, pool, exclude, idx, ranked)
      invariant forall m :: m in seen <==> m != "" && m in pool[..idx]
    {
      var m := pool[idx];
      assert pool[..idx + 1] == pool[..idx] + [m];
      if m != "" && m !in seen {
        seen := seen + {m};
        if Usable(h, exclude, m) {
          assert FirstIndex(pool, m) == idx by {
            assert forall k :: 0 <= k < idx ==> pool[k] == pool[..idx][k];
          }
          ranked := ranked + [Ranked(RankScore(h, provider, preferred, m, idx), m)];
        }
      }
    }
  }

  lemma {:induction false} LexIrreflexive(a: string)
    ensures !LexLess(a, a)
  {
    if a != "" {
      LexIrreflexive(a[1..]);
    }
  }

  method BestOf(ranked: seq<Ranked>) returns (best: Ranked)
    requires ranked != []
    ensures best in ranked && forall r :: r in ranked ==> !Better(r, best)
  {
    best := ranked[0];
    for i := 0 to |ranked|
      invariant best in ranked && forall k :: 0 <= k < i ==> !Better(ranked[k], best)
    {
      if Better(ranked[i], best) {
        forall k | 0 <= k < i ensures !Better(ranked[k], ranked[i]) {
          if Better(ranked[k], ranked[i]) {
            BetterTransitive(ranked[k], ranked[i], best);
          }
        }
        best := ranked[i];
        LexIrreflexive(best.model);
      }
    }
  }

  /** The sticky mode's reason to stay with the seed: it is usable and not beaten by the margin. */
  predicate StaysHome(h: Health, provider: string, preferred: string, exclude: set<string>, best: Ranked) {
    && h.switchMargin > 0.0 && Usable(h, exclude, preferred)
    && !h.status(provider, preferred).Banned? && !h.status(provider, preferred).Cooldown?
    && !h.status(provider, preferred).Poor?
    && h.score(provider, preferred) + h.preferredBonus >= 0.0
    && (best.model == preferred || best.score < h.score(provider, preferred) + h.preferredBonus + h.switchMargin)
  }

  ghost predicate SomeUsable(h: Health, exclude: set<string>, pool: seq<string>) {
    exists i :: 0 <= i < |pool| && Usable(h, exclude, pool[i])
  }

  /** `m` is a usable candidate that no usable candidate outranks. */
  ghost predicate IsBest(h: Health, provider: string, preferred: string, pool: seq<string>, exclude: set<string>,
                         m: string)
  {
    && m in pool && Usable(h, exclude, m)
    && forall i :: 0 <= i < |pool| && Usable(h, exclude, pool[i]) ==>
         !Better(RankOf(h, provider, preferred, pool, pool[i]), RankOf(h, provider, preferred, pool, m))
  }

  lemma BestIsBest(h: Health, provider: string, preferred: string, pool: seq<string>, exclude: set<string>,
                   ranked: seq<Ranked>, best: Ranked)
    requires Ranks(h, provider, preferred, pool, exclude, |pool|, ranked)
    requires best in ranked && forall r :: r in ranked ==> !Better(r, best)
    ensures IsBest(h, provider, preferred, pool, exclude, best.model)
  {
  }

  /** No usable candidate ranks at `bound` or above. */
  ghost predicate AllBelow(h: Health, provider: string, preferred: string, pool: seq<string>, exclude: set<string>,
                           bound: real)
  {
    forall i :: 0 <= i < |pool| && Usable(h, exclude, pool[i]) ==>
      RankOf(h, provider, preferred, pool, pool[i]).score < bound
  }

  /** The sticky mode applies and the seed is fit to stay. */
  predicate SeedIsFit(h: Health, provider: string, preferred: string, exclude: set<string>) {
    && h.switchMargin > 0.0 && Usable(h, exclude, preferred)
    && h.status(provider, preferred) in {Active, Untested, Degraded}
    && h.score(provider, preferred) + h.preferredBonus >= 0.0
  }

  /** When the seed is kept: in sticky mode it is fit and either the best or not beaten by the switch
      margin; or everything ranks below -50 and the seed is not excluded. */
  ghost predicate KeepsSeed(h: Health, provider: string, preferred: string, pool: seq<string>, exclude: set<string>) {
    || (SeedIsFit(h, provider, preferred, exclude)
        && (IsBest(h, provider, preferred, pool, exclude, preferred)
            || AllBelow(h, provider, preferred, pool, exclude,
                        h.score(provider, preferred) + h.preferredBonus + h.switchMargin)))
    || (preferred != "" && h.fold(preferred) !in exclude && AllBelow(h, provider, preferred, pool, exclude, -50.0))
  }

  /** The pick is the seed exactly in those cases, and otherwise the candidate that none outranks. */
  ghost predicate GoodPick(h: Health, provider: string, preferred: string, pool: seq<string>, exclude: set<string>,
                           model: string)
  {
    && model != "" && model in pool && h.fold(model) !in exclude
    && if KeepsSeed(h, provider, preferred, pool, exclude) then model == preferred
       else IsBest(h, provider, preferred, pool, exclude, model)
  }

  lemma {:induction false} LexTotal(a: string, b: string)
    ensures a == b || LexLess(a, b) || LexLess(b, a)
  {
    if a != "" && b != "" && a[0] == b[0] {
      LexTotal(a[1..], b[1..]);
      assert a == [a[0]] + a[1..] && b == [b[0]] + b[1..];
    }
  }

  /** There is only one best candidate. */
  lemma BestIsUnique(h: Health, provider: string, preferred: string, pool: seq<string>, exclude: set<string>,
                     a: string, b: string)
    requires IsBest(h, provider, preferred, pool, exclude, a) && IsBest(h, provider, preferred, pool, exclude, b)
    ensures a == b
  {
    LexTotal(a, b);
    var i, j := FirstIndex(pool, a), FirstIndex(pool, b);
    assert !Better(RankOf(h, provider, preferred, pool, pool[i]), RankOf(h, provider, preferred, pool, b));
    assert !Better(RankOf(h, provider, preferred, pool, pool[j]), RankOf(h, provider, preferred, pool, a));
  }

  /** What `StaysHome` asks of the best candidate, said of all. */
  lemma StaysHomeIff(h: Health, provider: string, preferred: string, pool: seq<string>, exclude: set<string>,
                     best: Ranked)
    requires best.model in pool && best == RankOf(h, provider, preferred, pool, best.model)
    requires IsBest(h, provider, preferred, pool, exclude, best.model)
    ensures StaysHome(h, provider, preferred, exclude, best)
       <==> SeedIsFit(h, provider, preferred, exclude)
            && (IsBest(h, provider, preferred, pool, exclude, preferred)
                || AllBelow(h, provider, preferred, pool, exclude,
                            h.score(provider, preferred) + h.preferredBonus + h.switchMargin))
  {
    BestIsBelowIff(h, provider, preferred, pool, exclude, best,
                   h.score(provider, preferred) + h.preferredBonus + h.switchMargin);
    if IsBest(h, provider, preferred, pool, exclude, preferred) {
      BestIsUnique(h, provider, preferred, pool, exclude, best.model, preferred);
    }
  }

  lemma BestIsBelowIff(h: Health, provider: string, preferred: string, pool: seq<string>, exclude: set<string>,
                       best: Ranked, bound: real)
    requires best.model in pool && best == RankOf(h, provider, preferred, pool, best.model)
    requires IsBest(h, provider, preferred, pool, exclude, best.model)
    ensures best.score < bound <==> AllBelow(h, provider, preferred, pool, exclude, bound)
  {
    var i := FirstIndex(pool, best.model);
    assert Usable(h, exclude, pool[i]);
    assert RankOf(h, provider, preferred, pool, pool[i]) == best;
  }

  // ---------- what the ranking prefers ----------

  /** A model in cooldown or banned is never picked while a healthy candidate ranks above -100. */
  lemma RestedNeverWins(h: Health, provider: string, preferred: string, pool: seq<string>, exclude: set<string>,
                        m: string, i: nat)
    requires IsBest(h, provider, preferred, pool, exclude, m) && i < |pool| && Usable(h, exclude, pool[i])
    requires RankOf(h, provider, preferred, pool, pool[i]).score > -100.0
    ensures h.status(provider, m) != Cooldown && h.status(provider, m) != Banned
  {
    assert !Better(RankOf(h, provider, preferred, pool, pool[i]), RankOf(h, provider, preferred, pool, m));
  }

  /** Among healthy candidates that are not the seed, the best has the highest score but for the small
      price of its position; a poor one pays 25 more. */
  lemma BestScoresHighest(h: Health, provider: string, preferred: string, pool: seq<string>, exclude: set<string>,
                          m: string, i: nat)
    requires IsBest(h, provider, preferred, pool, exclude, m) && m != preferred
    requires i < |pool| && Usable(h, exclude, pool[i]) && pool[i] != preferred
    requires h.status(provider, pool[i]) in {Active, Untested, Degraded}
    requires h.status(provider, m) in {Active, Untested, Degraded, Poor}
    ensures
      var price := if h.status(provider, m) == Poor then 25.0 else 0.0;
      h.score(provider, m) - FirstIndex(pool, m) as real * 0.05 - price
      >= h.score(provider, pool[i]) - FirstIndex(pool, pool[i]) as real * 0.05
  {
    assert !Better(RankOf(h, provider, preferred, pool, pool[i]), RankOf(h, provider, preferred, pool, m));
  }

  /** The model for a slot: a good pick among the models that are not excluded, or else, when all
      are, among all of them. */
  method PickBestModel(h: Health, provider: string, candidates: seq<string>, preferred: string, exclude: set<string>)
    returns (model: string)
    ensures h.fold(provider) in h.bannedProviders ==>
              model == if preferred != "" then preferred else if candidates != [] then candidates[0] else ""
    ensures h.fold(provider) !in h.bannedProviders ==>
              var pool := Pool(candidates, preferred);
              if SomeUsable(h, exclude, pool) then GoodPick(h, provider, preferred, pool, exclude, model)
              else if SomeUsable(h, {}, pool) then GoodPick(h, provider, preferred, pool, {}, model)
              else model == preferred
    decreases if exclude == {} then 0 else 1
  {
    if h.fold(provider) in h.bannedProviders {
      return if preferred != "" then preferred else if candidates != [] then candidates[0] else "";
    }
    var pool := Pool(candidates, preferred);
    var ranked := RankCandidates(h, provider, preferred, pool, exclude);
    if ranked == [] {
      if exclude != {} {
        model := PickBestModel(h, provider, candidates, preferred, {});
        return;
      }
      return preferred;
    }
    var best := BestOf(ranked);
    BestIsBest(h, provider, preferred, pool, exclude, ranked, best);
    StaysHomeIff(h, provider, preferred, pool, exclude, best);
    BestIsBelowIff(h, provider, preferred, pool, exclude, best, -50.0);
    if StaysHome(h, provider, preferred, exclude, best) {
      return preferred;
    }
    if best.score < -50.0 && preferred != "" && h.fold(preferred) !in exclude {
      return preferred;
    }
    return best.model;
  }

  // ---------- the roster ----------

  predicate SameProvider(h: Health, a: Slot, b: Slot) { h.fold(a.provider) == h.fold(b.provider) }

  /** How many of the slots share a provider with `s`. */
  function Siblings(h: Health, slots: seq<Slot>, s: Slot): nat {
    if slots == [] then 0
    else Siblings(h, slots[..|slots| - 1], s) + (if SameProvider(h, slots[|slots| - 1], s) then 1 else 0)
  }

  /** The case-fold-distinct models that a slot could get. */
  function Choices(h: Health, pool: seq<string>): set<string> {
    set i | 0 <= i < |pool| && Usable(h, {}, pool[i]) :: h.fold(pool[i])
  }

  /** More choices than models taken: one choice is left. */
  lemma ChoiceLeft(h: Health, pool: seq<string>, taken: set<string>)
    requires |taken| < |Choices(h, pool)|
    ensures SomeUsable(h, taken, pool)
  {
    if Choices(h, pool) <= taken {
      SubsetSize(Choices(h, pool), taken);
    } else {
      var f :| f in Choices(h, pool) && f !in taken;
      var i :| 0 <= i < |pool| && Usable(h, {}, pool[i]) && h.fold(pool[i]) == f;
      assert Usable(h, taken, pool[i]);
    }
  }

  lemma {:induction false} SiblingsGrow(h: Health, slots: seq<Slot>, n: nat, s: Slot)
    requires n <= |slots|
    ensures Siblings(h, slots[..n], s) <= Siblings(h, slots, s)
    ensures n < |slots| && SameProvider(h, slots[n], s) ==> Siblings(h, slots[..n], s) < Siblings(h, slots, s)
    decreases |slots|
  {
    if n < |slots| {
      var front := slots[..|slots| - 1];
      assert front[..n] == slots[..n];
      SiblingsGrow(h, front, n, s);
    } else {
      assert slots[..n] == slots;
    }
  }

  /** A slot has as many choices as it has siblings, itself included. */
  predicate EnoughChoices(h: Health, slots: seq<Slot>, candidates: map<string, seq<string>>, s: Slot) {
    && h.fold(s.provider) !in h.bannedProviders
    && Siblings(h, slots, s) <= |Choices(h, PoolOf(candidates, s))|
  }

  function PoolOf(candidates: map<string, seq<string>>, s: Slot): seq<string> {
    Pool(if s.provider in candidates then candidates[s.provider] else [], s.model)
  }

  /** Loading the candidates skips entries without a name. */
  predicate Named(candidates: map<string, seq<string>>) {
    forall p :: p in candidates ==> "" !in candidates[p]
  }

  /** All slots of this provider have enough choices. */
  ghost predicate ProviderHasEnough(h: Health, slots: seq<Slot>, candidates: map<string, seq<string>>, s: Slot) {
    forall i :: 0 <= i < |slots| && SameProvider(h, slots[i], s) ==> EnoughChoices(h, slots, candidates, slots[i])
  }

  predicate AllFolded(h: Health, names: set<string>) { forall f :: f in names ==> f != "" && h.fold(f) == f }

  /** What `used_by_provider` holds after the first `n` slots: the folded models they got. */
  ghost predicate Tracks(h: Health, slots: seq<Slot>, models: seq<string>, used: map<string, set<string>>) {
    && |models| <= |slots|
    && (forall p :: p in used ==> AllFolded(h, used[p]))
    && (forall i :: 0 <= i < |models| ==>
          h.fold(slots[i].provider) in used && h.fold(models[i]) in used[h.fold(slots[i].provider)])
    && (forall s: Slot :: h.fold(s.provider) in used ==>
          |used[h.fold(s.provider)]| <= Siblings(h, slots[..|models|], s))
  }

  /** It holds nothing else. */
  ghost predicate UsedIsTaken(h: Health, slots: seq<Slot>, models: seq<string>, used: map<string, set<string>>)
    requires |models| <= |slots|
  {
    forall s: Slot :: UsedBy(used, h.fold(s.provider)) == Taken(h, slots, models, s)
  }

  /** The models that went to siblings of `s` so far, case folded. */
  function Taken(h: Health, slots: seq<Slot>, models: seq<string>, s: Slot): set<string>
    requires |models| <= |slots|
  {
    set i | 0 <= i < |models| && SameProvider(h, slots[i], s) :: h.fold(models[i])
  }

  lemma TakenNext(h: Health, slots: seq<Slot>, models: seq<string>, model: string, s: Slot)
    requires |models| < |slots|
    ensures Taken(h, slots, models + [model], s)
         == Taken(h, slots, models, s) + if SameProvider(h, slots[|models|], s) then {h.fold(model)} else {}
  {
    var more, n := models + [model], |models|;
    forall x | x in Taken(h, slots, models, s) ensures x in Taken(h, slots, more, s) {
      var i :| 0 <= i < n && SameProvider(h, slots[i], s) && h.fold(models[i]) == x;
      assert more[i] == models[i];
    }
    assert more[n] == model;
  }

  function UsedBy(used: map<string, set<string>>, p: string): set<string> { if p in used then used[p] else {} }

  lemma FoldedIsSame(h: Health, names: set<string>)
    requires AllFolded(h, names)
    ensures Folded(h, names) == names
  {
  }

  lemma SiblingsNext(h: Health, slots: seq<Slot>, n: nat, s: Slot)
    requires n < |slots|
    ensures Siblings(h, slots[..n + 1], s) == Siblings(h, slots[..n], s) + if SameProvider(h, slots[n], s) then 1 else 0
  {
    assert slots[..n + 1][..n] == slots[..n] && slots[..n + 1][n] == slots[n];
  }

  lemma TrackNext(h: Health, slots: seq<Slot>, models: seq<string>, used: map<string, set<string>>, model: string)
    requires FoldsCase(h) && Tracks(h, slots, models, used) && |models| < |slots| && model != ""
    ensures
      var p := h.fold(slots[|models|].provider);
      Tracks(h, slots, models + [model], used[p := UsedBy(used, p) + {h.fold(model)}])
  {
    var n := |models|;
    var p := h.fold(slots[n].provider);
    var used' := used[p := UsedBy(used, p) + {h.fold(model)}];
    forall s: Slot | h.fold(s.provider) in used'
      ensures |used'[h.fold(s.provider)]| <= Siblings(h, slots[..n + 1], s)
    {
      SiblingsNext(h, slots, n, s);
    }
  }

  lemma UsedNext(h: Health, slots: seq<Slot>, models: seq<string>, used: map<string, set<string>>, model: string)
    requires |models| < |slots| && UsedIsTaken(h, slots, models, used)
    ensures
      var p := h.fold(slots[|models|].provider);
      UsedIsTaken(h, slots, models + [model], used[p := UsedBy(used, p) + {h.fold(model)}])
  {
    var p := h.fold(slots[|models|].provider);
    var used' := used[p := UsedBy(used, p) + {h.fold(model)}];
    forall s: Slot ensures UsedBy(used', h.fold(s.provider)) == Taken(h, slots, models + [model], s) {
      assert UsedBy(used, h.fold(s.provider)) == Taken(h, slots, models, s);
      TakenNext(h, slots, models, model, s);
    }
  }

  /** A slot's model: a good pick among what its siblings have left, else among all its candidates,
      else whatever is named first. */
  ghost predicate SlotChoice(h: Health, candidates: map<string, seq<string>>, s: Slot, taken: set<string>,
                             model: string)
  {
    var pool := PoolOf(candidates, s);
    if h.fold(s.provider) in h.bannedProviders || !SomeUsable(h, {}, pool) then model == FirstNamed(candidates, s)
    else if SomeUsable(h, taken, pool) then GoodPick(h, s.provider, s.model, pool, taken, model)
    else GoodPick(h, s.provider, s.model, pool, {}, model)
  }

  function FirstNamed(candidates: map<string, seq<string>>, s: Slot): string {
    if s.model != "" then s.model
    else if s.provider in candidates && candidates[s.provider] != [] then candidates[s.provider][0]
    else "unknown"
  }

  ghost predicate AllChosen(h: Health, slots: seq<Slot>, candidates: map<string, seq<string>>, models: seq<string>)
    requires |models| <= |slots|
  {
    forall n :: 0 <= n < |models| ==>
      SlotChoice(h, candidates, slots[n], Taken(h, slots, models[..n], slots[n]), models[n])
  }

  lemma ChosenNext(h: Health, slots: seq<Slot>, candidates: map<string, seq<string>>, models: seq<string>,
                   model: string)
    requires |models| < |slots| && AllChosen(h, slots, candidates, models)
    requires SlotChoice(h, candidates, slots[|models|], Taken(h, slots, models, slots[|models|]), model)
    ensures AllChosen(h, slots, candidates, models + [model])
  {
    var more := models + [model];
    forall n | 0 <= n < |more|
      ensures SlotChoice(h, candidates, slots[n], Taken(h, slots, more[..n], slots[n]), more[n])
    {
      assert more[..n] == models[..n];
      assert n == |models| ==> models[..n] == models;
    }
  }

  lemma UsableWithout(h: Health, taken: set<string>, pool: seq<string>)
    requires SomeUsable(h, taken, pool)
    ensures SomeUsable(h, {}, pool)
  {
    var i :| 0 <= i < |pool| && Usable(h, taken, pool[i]);
    assert Usable(h, {}, pool[i]);
  }

  datatype Worker = Worker(provider: string, model: string)

  /** The last slot with a given key is where that worker's model comes from. */
  predicate LastWithKey(slots: seq<Slot>, n: nat, i: nat, k: string)
    requires n <= |slots|
  {
    i < n && slots[i].key == k && forall j :: i < j < n ==> slots[j].key != k
  }

  ghost predicate Assigned(slots: seq<Slot>, models: seq<string>, workers: map<string, Worker>) {
    && |models| <= |slots|
    && (forall i: nat :: i < |models| ==> slots[i].key in workers)
    && (forall k :: k in workers ==> exists i: nat :: LastWithKey(slots, |models|, i, k))
    && (forall i: nat, k :: LastWithKey(slots, |models|, i, k) ==>
          k in workers && workers[k] == Worker(slots[i].provider, models[i]))
  }

  lemma AssignNext(slots: seq<Slot>, models: seq<string>, workers: map<string, Worker>, model: string)
    requires Assigned(slots, models, workers) && |models| < |slots|
    ensures
      var s := slots[|models|];
      Assigned(slots, models + [model], workers[s.key := Worker(s.provider, model)])
  {
    var n, next := |models|, |models| + 1;
    var workers' := workers[slots[n].key := Worker(slots[n].provider, model)];
    assert LastWithKey(slots, next, n, slots[n].key);
    forall k | k in workers' && k != slots[n].key ensures exists i: nat :: LastWithKey(slots, next, i, k) {
      var i: nat :| LastWithKey(slots, n, i, k);
      assert LastWithKey(slots, next, i, k);
    }
    forall i: nat, k | LastWithKey(slots, next, i, k)
      ensures k in workers' && workers'[k] == Worker(slots[i].provider, (models + [model])[i])
    {
      if i < n {
        assert LastWithKey(slots, n, i, k) && k != slots[n].key;
      }
    }
  }

  /** Two siblings, one provider: their models differ even when case is ignored. */
  ghost predicate Apart(h: Health, slots: seq<Slot>, candidates: map<string, seq<string>>, models: seq<string>)
    requires |models| <= |slots|
  {
    forall i, j ::
      (0 <= i < j < |models| && SameProvider(h, slots[i], slots[j])
       && ProviderHasEnough(h, slots, candidates, slots[j]))
      ==> h.fold(models[i]) != h.fold(models[j])
  }

  /** The choice for the next slot, and the guarantee it comes with. */
  method ChooseNext(h: Health, slots: seq<Slot>, candidates: map<string, seq<string>>, ghost models: seq<string>,
                    used: map<string, set<string>>, s: Slot) returns (model: string)
    requires FoldsCase(h) && Named(candidates) && |models| < |slots| && s == slots[|models|]
    requires Tracks(h, slots, models, used) && UsedIsTaken(h, slots, models, used)
    ensures model != "" && SlotChoice(h, candidates, s, Taken(h, slots, models, s), model)
    ensures ProviderHasEnough(h, slots, candidates, s) ==> h.fold(model) !in UsedBy(used, h.fold(s.provider))
  {
    var pool := if s.provider in candidates then candidates[s.provider] else [];
    var taken := UsedBy(used, h.fold(s.provider));
    FoldedIsSame(h, taken);
    if ProviderHasEnough(h, slots, candidates, s) {
      SiblingsGrow(h, slots, |models|, s);
      assert EnoughChoices(h, slots, candidates, s);
      ChoiceLeft(h, PoolOf(candidates, s), taken);
    }
    if SomeUsable(h, taken, PoolOf(candidates, s)) {
      UsableWithout(h, taken, PoolOf(candidates, s));
    }
    model := PickBestModel(h, s.provider, pool, s.model, Folded(h, taken));
    if model == "" {
      model := if s.model != "" then s.model else if pool != [] then pool[0] else "unknown";
    }
  }

  /** Assign a model to every slot, in the order given.  Anti-collapse: the slots of a provider that
      is not banned and has at least as many case-fold-distinct usable models as slots get pairwise
      distinct models, whatever the scores, the statuses and the order. */
  method RebuildRoster(h: Health, slots: seq<Slot>, candidates: map<string, seq<string>>)
    returns (models: seq<string>, workers: map<string, Worker>)
    requires FoldsCase(h) && Named(candidates)
    ensures |models| == |slots| && Apart(h, slots, candidates, models)
    ensures AllChosen(h, slots, candidates, models)
    ensures Assigned(slots, models, workers)
  {
    models, workers := [], map[];
    var used: map<string, set<string>> := map[];
    for n := 0 to |slots|
      invariant |models| == n && RosterSoFar(h, slots, candidates, models, used, workers)
    {
      var s := slots[n];
      var model := ChooseNext(h, slots, candidates, models, used, s);
      RosterNext(h, slots, candidates, models, used, workers, model);
      var p := h.fold(s.provider);
      used := used[p := UsedBy(used, p) + {h.fold(model)}];
      models := models + [model];
      workers := workers[s.key := Worker(s.provider, model)];
    }
  }

  /** What holds after the first slots have their models. */
  ghost predicate RosterSoFar(h: Health, slots: seq<Slot>, candidates: map<string, seq<string>>, models: seq<string>,
                              used: map<string, set<string>>, workers: map<string, Worker>)
  {
    && Tracks(h, slots, models, used) && UsedIsTaken(h, slots, models, used)
    && Apart(h, slots, candidates, models) && AllChosen(h, slots, candidates, models)
    && Assigned(slots, models, workers)
  }

  lemma RosterNext(h: Health, slots: seq<Slot>, candidates: map<string, seq<string>>, models: seq<string>,
                   used: map<string, set<string>>, workers: map<string, Worker>, model: string)
    requires FoldsCase(h) && |models| < |slots| && model != ""
    requires RosterSoFar(h, slots, candidates, models, used, workers)
    requires SlotChoice(h, candidates, slots[|models|], Taken(h, slots, models, slots[|models|]), model)
    requires ProviderHasEnough(h, slots, candidates, slots[|models|]) ==>
               h.fold(model) !in UsedBy(used, h.fold(slots[|models|].provider))
    ensures
      var s, p := slots[|models|], h.fold(slots[|models|].provider);
      RosterSoFar(h, slots, candidates, models + [model], used[p := UsedBy(used, p) + {h.fold(model)}],
                  workers[s.key := Worker(s.provider, model)])
  {
    TrackNext(h, slots, models, used, model);
    UsedNext(h, slots, models, used, model);
    ChosenNext(h, slots, candidates, models, model);
    ApartNext(h, slots, candidates, models, used, model);
    AssignNext(slots, models, workers, model);
  }

  lemma ApartNext(h: Health, slots: seq<Slot>, candidates: map<string, seq<string>>, models: seq<string>,
                  used: map<string, set<string>>, model: string)
    requires Tracks(h, slots, models, used) && |models| < |slots| && Apart(h, slots, candidates, models)
    requires ProviderHasEnough(h, slots, candidates, slots[|models|]) ==>
               h.fold(model) !in UsedBy(used, h.fold(slots[|models|].provider))
    ensures Apart(h, slots, candidates, models + [model])
  {
    var n, more := |models|, models + [model];
    forall i, j | 0 <= i < j < |more| && SameProvider(h, slots[i], slots[j])
                  && ProviderHasEnough(h, slots, candidates, slots[j])
      ensures h.fold(more[i]) != h.fold(more[j])
    {
      if j < n {
        assert more[i] == models[i] && more[j] == models[j];
      } else {
        assert more[i] == models[i];
        assert h.fold(models[i]) in used[h.fold(slots[i].provider)];
      }
    }
  }
}
