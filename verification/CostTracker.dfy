/** Sums over finite maps. */
module Sums {

  ghost function SumOver<K(!new)>(keys: set<K>, f: K -> real): real {
    if keys == {} then 0.0 else var k :| k in keys; f(k) + SumOver(keys - {k}, f)
  }

  /** Any key can be taken out first. */
  lemma {:induction false} SumWithout<K(!new)>(keys: set<K>, f: K -> real, k: K)
    requires k in keys
    ensures SumOver(keys, f) == f(k) + SumOver(keys - {k}, f)
    decreases keys
  {
    var j :| j in keys && SumOver(keys, f) == f(j) + SumOver(keys - {j}, f);
    if j != k {
      SumWithout(keys - {j}, f, k);
      SumWithout(keys - {k}, f, j);
      assert keys - {j} - {k} == keys - {k} - {j};
    }
  }

  lemma {:induction false} SumSame<K(!new)>(keys: set<K>, f: K -> real, g: K -> real)
    requires forall k | k in keys :: f(k) == g(k)
    ensures SumOver(keys, f) == SumOver(keys, g)
    decreases keys
  {
    if keys != {} {
      var k :| k in keys;
      SumWithout(keys, f, k);
      SumWithout(keys, g, k);
      SumSame(keys - {k}, f, g);
    }
  }

  /** Raising one key's value raises the sum by as much. */
  lemma SumChanged<K(!new)>(keys: set<K>, f: K -> real, g: K -> real, k: K)
    requires k in keys && forall j | j in keys && j != k :: f(j) == g(j)
    ensures SumOver(keys, g) == SumOver(keys, f) - f(k) + g(k)
  {
    SumWithout(keys, f, k);
    SumWithout(keys, g, k);
    SumSame(keys - {k}, f, g);
  }

  /** A key that was not there before adds its value. */
  lemma SumInserted<K(!new)>(keys: set<K>, f: K -> real, g: K -> real, k: K)
    requires k !in keys && forall j | j in keys :: f(j) == g(j)
    ensures SumOver(keys + {k}, g) == SumOver(keys, f) + g(k)
  {
    SumWithout(keys + {k}, g, k);
    assert keys + {k} - {k} == keys;
    SumSame(keys, f, g);
  }

  lemma {:induction false} SumZero<K(!new)>(keys: set<K>, f: K -> real)
    requires forall k | k in keys :: f(k) == 0.0
    ensures SumOver(keys, f) == 0.0
    decreases keys
  {
    if keys != {} {
      var k :| k in keys;
      SumWithout(keys, f, k);
      SumZero(keys - {k}, f);
    }
  }
}

/** The cost tracker (cost.go): what it has counted is exactly what it was told since the last reset. */
module CostTracking {
  import opened Options
  import opened Pricing
  import opened Sums

  const MODE_STANDARD := ""
  const MODE_BATCH := "batch"
  const ANTHROPIC := "anthropic"
  const MAX_SAFE := 0x4000_0000_0000_0000 - 1

  function ModelKey(provider: string, model: string): string {
    provider + ":" + model
  }

  function ModeKey(provider: string, model: string, mode: string): string {
    provider + ":" + model + ":" + mode
  }

  function MediaKey(model: string, unit: string): string {
    model + ":" + unit
  }

  predicate EndsIn(s: string, suffix: string) {
    |suffix| <= |s| && s[|s| - |suffix|..] == suffix
  }

  /** Some models share a key under two different units exactly if one unit ends in a colon and the other unit. */
  lemma {:induction false} UnitsMixExactly(unit: string, other: string)
    ensures (exists p, m, q, n :: MediaKey(ModelKey(p, m), unit) == MediaKey(ModelKey(q, n), other))
      <==> unit == other || EndsIn(other, ":" + unit) || EndsIn(unit, ":" + other)
  {
    if p, m, q, n :| MediaKey(ModelKey(p, m), unit) == MediaKey(ModelKey(q, n), other) {
      EndOfKey(ModelKey(p, m), unit, ModelKey(q, n), other);
      EndOfKey(ModelKey(q, n), other, ModelKey(p, m), unit);
    }
    if unit == other { assert MediaKey(ModelKey("", ""), unit) == MediaKey(ModelKey("", ""), other); }
    if EndsIn(other, ":" + unit) { MixedUnit(unit, other); }
    if EndsIn(unit, ":" + other) { MixedUnit(other, unit); }
  }

  lemma {:induction false} EndOfKey(model: string, unit: string, longer: string, other: string)
    requires MediaKey(model, unit) == MediaKey(longer, other)
    ensures |unit| == |other| ==> unit == other
    ensures |unit| < |other| ==> EndsIn(other, ":" + unit)
  {
    var key := MediaKey(model, unit);
    assert key[|longer| + 1..] == other && key[|model|..] == ":" + unit;
    assert |unit| == |other| ==> key[|model| + 1..] == unit;
    assert |unit| < |other| ==> other[|other| - |unit| - 1..] == key[|model|..];
  }

  /** Units without a colon, as all units of the source are, never mix, whatever the models are called. */
  lemma {:induction false} UnitsApart(model: string, unit: string, other: string, otherUnit: string)
    requires ':' !in unit && ':' !in otherUnit
    ensures MediaKey(model, unit) == MediaKey(other, otherUnit) <==> model == other && unit == otherUnit
  {
    if MediaKey(model, unit) == MediaKey(other, otherUnit) {
      EndOfKey(model, unit, other, otherUnit);
      EndOfKey(other, otherUnit, model, unit);
      ColonEnd(unit, otherUnit);
      ColonEnd(otherUnit, unit);
      assert MediaKey(model, unit)[..|model|] == model && MediaKey(other, otherUnit)[..|other|] == other;
    }
  }

  lemma {:induction false} ColonEnd(s: string, suffix: string)
    ensures EndsIn(s, ":" + suffix) ==> ':' in s
  {
    if EndsIn(s, ":" + suffix) {
      assert s[|s| - |suffix| - 1..][0] == ':';
    }
  }

  lemma {:induction false} MixedUnit(unit: string, other: string)
    requires EndsIn(other, ":" + unit)
    ensures MediaKey(ModelKey("", ":" + other[..|other| - |unit| - 1]), unit) == MediaKey(ModelKey("", ""), other)
  {
    assert other == other[..|other| - |unit| - 1] + (":" + unit);
  }

  /** A request that was counted, with the standard card of its model at the time. */
  datatype Entry = Entry(key: string, mode: string, usage: Usage, cost: real, known: bool, standard: Option<Card>)

  datatype ModelUsage = ModelUsage(prompt: int, completion: int, cacheRead: int, cacheCreation: int, requests: int,
                                   unpriced: int, estimatedCost: real, firstUsed: int, lastUsed: int)

  // ---- Which card applies ----

  function Standard(provider: string, model: string, pricing: map<string, Card>): Option<Card> {
    if ModelKey(provider, model) in pricing then Some(pricing[ModelKey(provider, model)]) else None
  }

  /** A batch card can be derived from the standard card. */
  predicate Derives(provider: string, mode: string, standard: Option<Card>) {
    provider == ANTHROPIC && mode == MODE_BATCH && standard.Some? && standard.value.rates.input != 0.0
  }

  /** resolveModePricing. `published` is the table of built-in mode cards. A card is known exactly if one is
      published, or the mode is the standard one and its card is known, or a batch card can be derived; the derived
      one costs half, for every usage, when the standard card has explicit cache rates. */
  method ResolveModePricing(provider: string, model: string, mode: string, published: map<string, Card>,
                            standard: Option<Card>)
    returns (card: Option<Card>)
    ensures card == ModeCard(provider, model, mode, published, standard)
    ensures card.Some? <==>
      if mode == MODE_STANDARD then standard.Some?
      else ModeKey(provider, model, mode) in published || Derives(provider, mode, standard)
    ensures var derived := card.Some? && mode != MODE_STANDARD && ModeKey(provider, model, mode) !in published;
      derived && ExplicitCacheRates(standard.value) ==>
      forall u :: 2.0 * Cost(card.value, u) == Cost(standard.value, u)
  {
    if mode == MODE_STANDARD { return standard; }
    if ModeKey(provider, model, mode) in published { return Some(published[ModeKey(provider, model, mode)]); }
    if provider == ANTHROPIC && mode == MODE_BATCH {
      var base := if standard.Some? then standard.value else Card(Rates(0.0, 0.0, 0.0, 0.0), []);
      card := DeriveAnthropicBatchPricing(base, standard.Some?);
      if card.Some? && ExplicitCacheRates(standard.value) {
        forall u ensures 2.0 * Cost(card.value, u) == Cost(standard.value, u) { HalfPrice(standard.value, u); }
      }
      return;
    }
    return None;
  }

  function ModeCard(provider: string, model: string, mode: string, published: map<string, Card>,
                    standard: Option<Card>): Option<Card> {
    if mode == MODE_STANDARD then standard
    else if ModeKey(provider, model, mode) in published then Some(published[ModeKey(provider, model, mode)])
    else if Derives(provider, mode, standard) then Some(BatchCard(standard.value))
    else None
  }

  /** The price of a clamped request, and whether it is known. */
  function Priced(provider: string, model: string, mode: string, u: Usage, pricing: map<string, Card>,
                  overrides: map<string, Card>, published: map<string, Card>): (real, bool)
    requires NonNegative(u)
  {
    var standard := Standard(provider, model, pricing);
    var key := ModeKey(provider, model, mode);
    var card := if mode != MODE_STANDARD && key in overrides then Some(overrides[key])
                else ModeCard(provider, model, mode, published, standard);
    if u.charge.Some? then (u.charge.value.usd, true)
    else if card.Some? then (Cost(card.value, u), true)
    else (if standard.Some? then Cost(standard.value, u) else 0.0, false)
  }

  // ---- What the price means ----

  /** A price is known exactly if a charge was reported or some card applies. */
  predicate Known(provider: string, model: string, mode: string, u: Usage, pricing: map<string, Card>,
                  overrides: map<string, Card>, published: map<string, Card>) {
    || u.charge.Some?
    || (mode == MODE_STANDARD && ModelKey(provider, model) in pricing)
    || (mode != MODE_STANDARD
        && (ModeKey(provider, model, mode) in overrides || ModeKey(provider, model, mode) in published
            || Derives(provider, mode, Standard(provider, model, pricing))))
  }

  /** An unpriced request carries a cost exactly if its model has a standard card and that card makes it cost something:
      a mode without a card is billed at the standard rates. */
  lemma UnpricedCostsExactly(provider: string, model: string, mode: string, u: Usage, pricing: map<string, Card>,
                             overrides: map<string, Card>, published: map<string, Card>)
    requires NonNegative(u)
    ensures var key, price := ModelKey(provider, model),
      Priced(provider, model, mode, u, pricing, overrides, published);
      && (price.1 <==> Known(provider, model, mode, u, pricing, overrides, published))
      && (!price.1 ==> (price.0 != 0.0 <==> key in pricing && Cost(pricing[key], u) != 0.0))
      && (!price.1 && key in pricing ==> mode != MODE_STANDARD && price.0 == Cost(pricing[key], u))
  {
  }

  /** Such a request: a million tokens of an unknown mode, at the standard rate of two dollars. */
  lemma UnpricedMayCost()
    ensures var card, u := Card(Rates(2.0, 0.0, 0.0, 0.0), []), Usage(1000000, 0, 0, 0, None);
      Priced("openai", "m", "flex", u, map[ModelKey("openai", "m") := card], map[], map[]) == (2.0, false)
  {
    OneApplies([], 1000000, None);
  }

  /** A reported charge is the price, whatever the tables hold. */
  lemma ChargeWins(provider: string, model: string, mode: string, u: Usage, pricing: map<string, Card>,
                   overrides: map<string, Card>, published: map<string, Card>)
    requires NonNegative(u) && u.charge.Some?
    ensures Priced(provider, model, mode, u, pricing, overrides, published) == (u.charge.value.usd, true)
  {
  }

  /** A card set for a model and mode is what a request without a charge is billed by; one set for the standard mode is
      too, and also for modes that no card covers. */
  lemma CardSetApplies(provider: string, model: string, mode: string, u: Usage, card: Card, pricing: map<string, Card>,
                       overrides: map<string, Card>, published: map<string, Card>)
    requires NonNegative(u) && u.charge.None?
    ensures mode != MODE_STANDARD ==>
      Priced(provider, model, mode, u, pricing, overrides[ModeKey(provider, model, mode) := card], published)
        == (Cost(card, u), true)
    ensures var changed := pricing[ModelKey(provider, model) := card];
      && Priced(provider, model, MODE_STANDARD, u, changed, overrides, published) == (Cost(card, u), true)
      && (!Known(provider, model, mode, u, changed, overrides, published) ==>
            Priced(provider, model, mode, u, changed, overrides, published) == (Cost(card, u), false))
  {
  }

  /** Without a card set for its mode a request is billed by the published one, before any derived one. */
  lemma PublishedCardApplies(provider: string, model: string, mode: string, u: Usage, card: Card,
                             pricing: map<string, Card>, overrides: map<string, Card>, published: map<string, Card>)
    requires NonNegative(u) && u.charge.None? && mode != MODE_STANDARD && ModeKey(provider, model, mode) !in overrides
    ensures var changed := published[ModeKey(provider, model, mode) := card];
      Priced(provider, model, mode, u, pricing, overrides, changed) == (Cost(card, u), true)
  {
  }

  /** No card is derived for another provider or another mode, nor from a standard card without an input rate: without a
      card of its own such a request is unpriced, and billed at the standard rates if there are any. */
  lemma OnlyAnthropicBatchDerives(provider: string, model: string, mode: string, u: Usage, pricing: map<string, Card>,
                                  overrides: map<string, Card>, published: map<string, Card>)
    requires NonNegative(u) && u.charge.None? && mode != MODE_STANDARD
    requires ModeKey(provider, model, mode) !in overrides && ModeKey(provider, model, mode) !in published
    requires provider != "anthropic" || mode != "batch"
      || (ModelKey(provider, model) in pricing ==> pricing[ModelKey(provider, model)].rates.input == 0.0)
    ensures var standard := if ModelKey(provider, model) in pricing then Cost(pricing[ModelKey(provider, model)], u)
      else 0.0;
      Priced(provider, model, mode, u, pricing, overrides, published) == (standard, false)
  {
  }

  /** Only the entries under the request's own keys matter. */
  lemma OtherCardsDoNot(provider: string, model: string, mode: string, u: Usage, pricing: map<string, Card>,
                        overrides: map<string, Card>, published: map<string, Card>, key: string, card: Card)
    requires NonNegative(u)
    ensures key != ModelKey(provider, model) ==>
      Priced(provider, model, mode, u, pricing[key := card], overrides, published)
        == Priced(provider, model, mode, u, pricing, overrides, published)
    ensures key != ModeKey(provider, model, mode) ==>
      && Priced(provider, model, mode, u, pricing, overrides[key := card], published)
        == Priced(provider, model, mode, u, pricing, overrides, published)
      && Priced(provider, model, mode, u, pricing, overrides, published[key := card])
        == Priced(provider, model, mode, u, pricing, overrides, published)
  {
  }

  /** An Anthropic batch request that no card is set or published for costs half the standard price, for every usage,
      when the standard card has explicit cache rates. */
  lemma BatchHalvesPrice(model: string, u: Usage, pricing: map<string, Card>, overrides: map<string, Card>,
                         published: map<string, Card>)
    requires NonNegative(u) && u.charge.None?
    requires ModelKey(ANTHROPIC, model) in pricing && ExplicitCacheRates(pricing[ModelKey(ANTHROPIC, model)])
    requires pricing[ModelKey(ANTHROPIC, model)].rates.input != 0.0
    requires ModeKey(ANTHROPIC, model, MODE_BATCH) !in overrides && ModeKey(ANTHROPIC, model, MODE_BATCH) !in published
    ensures var batch, standard := Priced(ANTHROPIC, model, MODE_BATCH, u, pricing, overrides, published),
                                   Priced(ANTHROPIC, model, MODE_STANDARD, u, pricing, overrides, published);
      batch.1 && standard.1 && 2.0 * batch.0 == standard.0
  {
    hide Cost, BatchCard;
    HalfPrice(pricing[ModelKey(ANTHROPIC, model)], u);
  }

  // ---- What the log adds up to ----

  function Tally(log: seq<Entry>, key: string): ModelUsage {
    if log == [] then ModelUsage(0, 0, 0, 0, 0, 0, 0.0, 0, 0)
    else
      var t, e := Tally(log[..|log| - 1], key), log[|log| - 1];
      if e.key != key then t
      else t.(prompt := t.prompt + e.usage.prompt, completion := t.completion + e.usage.completion,
              cacheRead := t.cacheRead + e.usage.cacheRead, cacheCreation := t.cacheCreation + e.usage.cacheCreation,
              requests := t.requests + 1, unpriced := t.unpriced + (if e.known then 0 else 1),
              estimatedCost := t.estimatedCost + e.cost)
  }

  /** One count of the usage of all of a model's requests. */
  function SumOf(log: seq<Entry>, key: string, count: Entry -> int): int {
    if log == [] then 0
    else
      var e := log[|log| - 1];
      SumOf(log[..|log| - 1], key, count) + if e.key == key then count(e) else 0
  }

  /** Each counter of `t` is the sum of that count over a model's requests. */
  ghost predicate CountsAre(t: ModelUsage, log: seq<Entry>, key: string) {
    && t.prompt == SumOf(log, key, (e: Entry) => e.usage.prompt)
    && t.completion == SumOf(log, key, (e: Entry) => e.usage.completion)
    && t.cacheRead == SumOf(log, key, (e: Entry) => e.usage.cacheRead)
    && t.cacheCreation == SumOf(log, key, (e: Entry) => e.usage.cacheCreation)
    && t.requests == SumOf(log, key, (e: Entry) => 1)
    && t.unpriced == SumOf(log, key, (e: Entry) => if e.known then 0 else 1)
  }

  lemma {:induction false} TallyByCount(log: seq<Entry>, key: string)
    ensures CountsAre(Tally(log, key), log, key)
  {
    if log != [] { TallyByCount(log[..|log| - 1], key); }
  }

  function ModeTotal(log: seq<Entry>, mode: string): real {
    if log == [] then 0.0
    else ModeTotal(log[..|log| - 1], mode) + if log[|log| - 1].mode == mode then log[|log| - 1].cost else 0.0
  }

  function Total(log: seq<Entry>): real {
    if log == [] then 0.0 else Total(log[..|log| - 1]) + log[|log| - 1].cost
  }

  /** What the priced requests of a model cost. */
  function KnownCost(log: seq<Entry>, key: string): real {
    if log == [] then 0.0
    else
      var e := log[|log| - 1];
      KnownCost(log[..|log| - 1], key) + if e.key == key && e.known then e.cost else 0.0
  }

  /** What its unpriced requests would have cost at the standard rates of the time. */
  function StandardCharges(log: seq<Entry>, key: string): real {
    if log == [] then 0.0
    else
      var e := log[|log| - 1];
      var more := if e.key == key && !e.known && e.standard.Some? then Cost(e.standard.value, e.usage) else 0.0;
      StandardCharges(log[..|log| - 1], key) + more
  }

  /** An unpriced entry was billed at the standard rates, if there were any. */
  predicate Honest(e: Entry) {
    !e.known ==> e.cost == if e.standard.Some? then Cost(e.standard.value, e.usage) else 0.0
  }

  /** A model's estimated cost is that of its priced requests and, for the unpriced ones, exactly the standard
      charges. */
  lemma {:induction false} EstimateSplits(log: seq<Entry>, key: string)
    requires forall e | e in log :: Honest(e)
    ensures Tally(log, key).estimatedCost == KnownCost(log, key) + StandardCharges(log, key)
  {
    hide Cost;
    if log != [] {
      var front, e := log[..|log| - 1], log[|log| - 1];
      assert e in log && Honest(e) && forall x | x in front :: x in log;
      EstimateSplits(front, key);
    }
  }

  function SameCounts(a: ModelUsage, b: ModelUsage): bool {
    a.(firstUsed := 0, lastUsed := 0) == b.(firstUsed := 0, lastUsed := 0)
  }

  lemma TallyOneMore(log: seq<Entry>, e: Entry)
    ensures forall key :: key != e.key ==> Tally(log + [e], key) == Tally(log, key)
    ensures forall mode :: mode != e.mode ==> ModeTotal(log + [e], mode) == ModeTotal(log, mode)
    ensures ModeTotal(log + [e], e.mode) == ModeTotal(log, e.mode) + e.cost
  {
    assert (log + [e])[..|log|] == log;
  }

  /** Grouped by model or by mode, the costs of the log add up to the same. */
  lemma {:induction false} ByModelIsByMode(log: seq<Entry>, keys: set<string>, modes: set<string>)
    requires forall e | e in log :: e.key in keys && e.mode in modes
    ensures SumOver(keys, k => Tally(log, k).estimatedCost) == Total(log)
    ensures SumOver(modes, m => ModeTotal(log, m)) == Total(log)
  {
    if log == [] {
      SumZero(keys, k => Tally(log, k).estimatedCost);
      SumZero(modes, m => ModeTotal(log, m));
    } else {
      var before, e := log[..|log| - 1], log[|log| - 1];
      assert e in log && forall x | x in before :: x in log;
      ByModelIsByMode(before, keys, modes);
      SumChanged(keys, k => Tally(before, k).estimatedCost, k => Tally(log, k).estimatedCost, e.key);
      SumChanged(modes, m => ModeTotal(before, m), m => ModeTotal(log, m), e.mode);
    }
  }

  lemma {:induction false} UnpricedAmongRequests(log: seq<Entry>, key: string)
    ensures 0 <= Tally(log, key).unpriced <= Tally(log, key).requests
  {
    if log != [] { UnpricedAmongRequests(log[..|log| - 1], key); }
  }

  /** wouldOverflow. */
  function WouldOverflow(total: int, add: int): (r: bool)
    ensures 0 <= total <= MAX_SAFE && 0 <= add ==> (r <==> total + add > MAX_SAFE)
  {
    add < 0 || total > MAX_SAFE || add > MAX_SAFE - total
  }

  predicate Fits(t: ModelUsage) {
    && 0 <= t.prompt <= MAX_SAFE && 0 <= t.completion <= MAX_SAFE && 0 <= t.cacheRead <= MAX_SAFE
    && 0 <= t.cacheCreation <= MAX_SAFE
  }

  predicate Overflows(t: ModelUsage, u: Usage) {
    || WouldOverflow(t.prompt, u.prompt) || WouldOverflow(t.completion, u.completion)
    || WouldOverflow(t.cacheRead, u.cacheRead) || WouldOverflow(t.cacheCreation, u.cacheCreation)
  }

  /** A request is refused exactly if one of the sums would not fit. */
  lemma OverflowsExactly(t: ModelUsage, u: Usage)
    requires Fits(t) && NonNegative(u)
    ensures forall n: ModelUsage | n.prompt == t.prompt + u.prompt && n.completion == t.completion + u.completion
      && n.cacheRead == t.cacheRead + u.cacheRead && n.cacheCreation == t.cacheCreation + u.cacheCreation ::
        Overflows(t, u) <==> !Fits(n)
  {
  }

  ghost predicate Balanced(usage: map<string, ModelUsage>, modeCost: map<string, real>, log: seq<Entry>) {
    && (forall e | e in log :: e.key in usage && e.mode in modeCost)
    && (forall key | key in usage :: SameCounts(usage[key], Tally(log, key)) && Fits(usage[key]))
    && (forall mode | mode in modeCost :: modeCost[mode] == ModeTotal(log, mode))
    && (forall e | e in log :: Honest(e))
  }

  /** The counters of a model that was never counted are zero. */
  lemma CountsOf(usage: map<string, ModelUsage>, modeCost: map<string, real>, log: seq<Entry>, key: string)
    requires Balanced(usage, modeCost, log)
    ensures SameCounts(if key in usage then usage[key] else ModelUsage(0, 0, 0, 0, 0, 0, 0.0, 0, 0), Tally(log, key))
    ensures Fits(Tally(log, key))
  {
    if key !in usage { NotCounted(log, key); }
  }

  lemma ModeCostOf(usage: map<string, ModelUsage>, modeCost: map<string, real>, log: seq<Entry>, mode: string)
    requires Balanced(usage, modeCost, log)
    ensures (if mode in modeCost then modeCost[mode] else 0.0) == ModeTotal(log, mode)
  {
    if mode !in modeCost { NoModeCost(log, mode); }
  }

  lemma UnpricedHonest(e: Entry, provider: string, model: string, mode: string, u: Usage, pricing: map<string, Card>,
                       overrides: map<string, Card>, published: map<string, Card>)
    requires NonNegative(u) && (e.cost, e.known) == Priced(provider, model, mode, u, pricing, overrides, published)
    requires e.usage == u && e.standard == Standard(provider, model, pricing)
    ensures Honest(e)
  {
    hide Cost;
  }

  /** A counted request keeps the balance. */
  lemma CountedBalances(usage: map<string, ModelUsage>, modeCost: map<string, real>, log: seq<Entry>, e: Entry,
                        n: ModelUsage)
    requires Balanced(usage, modeCost, log)
    requires SameCounts(n, Tally(log + [e], e.key)) && Fits(n) && Honest(e)
    ensures Balanced(usage[e.key := n], modeCost[e.mode := ModeTotal(log, e.mode) + e.cost], log + [e])
  {
    hide Tally, ModeTotal, Honest;
    TallyOneMore(log, e);
  }

  lemma RejectedBalances(usage: map<string, ModelUsage>, modeCost: map<string, real>, log: seq<Entry>, key: string,
                         n: ModelUsage)
    requires Balanced(usage, modeCost, log) && SameCounts(n, Tally(log, key)) && Fits(n)
    ensures Balanced(usage[key := n], modeCost, log)
  {
  }

  lemma TallyNext(log: seq<Entry>, e: Entry)
    ensures var t := Tally(log, e.key);
      Tally(log + [e], e.key)
        == t.(prompt := t.prompt + e.usage.prompt, completion := t.completion + e.usage.completion,
              cacheRead := t.cacheRead + e.usage.cacheRead, cacheCreation := t.cacheCreation + e.usage.cacheCreation,
              requests := t.requests + 1, unpriced := t.unpriced + (if e.known then 0 else 1),
              estimatedCost := t.estimatedCost + e.cost)
  {
    assert (log + [e])[..|log|] == log;
  }

  // ---- Media ----

  datatype MediaUsage = MediaUsage(unit: string, quantity: real, charge: Option<real>)

  datatype MediaRate = MediaRate(unit: string, usd: real)

  datatype MediaTotal = MediaTotal(unit: string, quantity: real, cost: real, requests: nat, unpriced: nat)

  const NO_MEDIA := MediaTotal("", 0.0, 0.0, 0, 0)

  datatype MediaEntry = MediaEntry(key: string, usage: MediaUsage, cost: real, priced: bool)

  /** MediaCost: the reported charge, else the rate if it is for the unit used; a rate without a unit is flat. */
  function MediaCost(provider: string, model: string, u: MediaUsage, rates: map<string, MediaRate>): (r: (real, bool))
    ensures r.1 <==>
      u.charge.Some? || (ModelKey(provider, model) in rates && rates[ModelKey(provider, model)].unit == u.unit)
    ensures !r.1 ==> r.0 == 0.0
    ensures u.charge.Some? ==> r.0 == u.charge.value
    ensures r.1 && u.charge.None? ==> var usd := rates[ModelKey(provider, model)].usd;
      if u.unit == "" then r.0 == usd else r.0 == u.quantity * usd
  {
    if u.charge.Some? then (u.charge.value, true)
    else if ModelKey(provider, model) !in rates || rates[ModelKey(provider, model)].unit != u.unit then (0.0, false)
    else
      var usd := rates[ModelKey(provider, model)].usd;
      (if u.unit == "" then usd else u.quantity * usd, true)
  }

  function MediaTally(log: seq<MediaEntry>, key: string): MediaTotal {
    if log == [] then NO_MEDIA
    else
      var t, e := MediaTally(log[..|log| - 1], key), log[|log| - 1];
      if e.key != key then t
      else MediaTotal(e.usage.unit, t.quantity + e.usage.quantity, t.cost + e.cost, t.requests + 1,
                      t.unpriced + if e.priced then 0 else 1)
  }

  /** One count of all of a key's requests. */
  function MediaSumOf(log: seq<MediaEntry>, key: string, count: MediaEntry -> real): real {
    if log == [] then 0.0
    else
      var e := log[|log| - 1];
      MediaSumOf(log[..|log| - 1], key, count) + if e.key == key then count(e) else 0.0
  }

  ghost predicate MediaCountsAre(t: MediaTotal, log: seq<MediaEntry>, key: string) {
    && t.quantity == MediaSumOf(log, key, (e: MediaEntry) => e.usage.quantity)
    && t.cost == MediaSumOf(log, key, (e: MediaEntry) => e.cost)
    && t.requests as real == MediaSumOf(log, key, (e: MediaEntry) => 1.0)
    && t.unpriced as real == MediaSumOf(log, key, (e: MediaEntry) => if e.priced then 0.0 else 1.0)
  }

  lemma {:induction false} MediaByCount(log: seq<MediaEntry>, key: string)
    ensures MediaCountsAre(MediaTally(log, key), log, key)
  {
    if log != [] { MediaByCount(log[..|log| - 1], key); }
  }

  function MediaSpend(log: seq<MediaEntry>): real {
    if log == [] then 0.0 else MediaSpend(log[..|log| - 1]) + log[|log| - 1].cost
  }

  ghost predicate MediaBalanced(media: map<string, MediaTotal>, log: seq<MediaEntry>) {
    && (forall key | key in media :: media[key] == MediaTally(log, key))
    && (forall key | key !in media :: MediaTally(log, key) == NO_MEDIA)
    && SumOver(media.Keys, MediaSpent(media)) == MediaSpend(log)
  }

  function MediaSpent(m: map<string, MediaTotal>): string -> real {
    k => if k in m then m[k].cost else 0.0
  }

  /** The total of a key, read with a default for a new one, and with one more entry. */
  lemma MediaNext(media: map<string, MediaTotal>, log: seq<MediaEntry>, e: MediaEntry)
    requires MediaBalanced(media, log)
    ensures var t := if e.key in media then media[e.key] else NO_MEDIA;
      MediaTally(log + [e], e.key)
        == MediaTotal(e.usage.unit, t.quantity + e.usage.quantity, t.cost + e.cost, t.requests + 1,
                      t.unpriced + if e.priced then 0 else 1)
  {
    assert (log + [e])[..|log|] == log;
  }

  lemma MediaOneMore(media: map<string, MediaTotal>, log: seq<MediaEntry>, e: MediaEntry)
    requires MediaBalanced(media, log)
    ensures MediaBalanced(media[e.key := MediaTally(log + [e], e.key)], log + [e])
  {
    var next := media[e.key := MediaTally(log + [e], e.key)];
    assert (log + [e])[..|log|] == log;
    if e.key in media {
      assert next.Keys == media.Keys;
      SumChanged(media.Keys, MediaSpent(media), MediaSpent(next), e.key);
    } else {
      assert next.Keys == media.Keys + {e.key};
      SumInserted(media.Keys, MediaSpent(media), MediaSpent(next), e.key);
    }
  }

  class CostTracker {
    var usage: map<string, ModelUsage>
    var pricing: map<string, Card>
    var overrides: map<string, Card>
    var modeCost: map<string, real>
    const published: map<string, Card>
    var media: map<string, MediaTotal>
    const mediaRates: map<string, MediaRate>
    ghost var log: seq<Entry>    // what was counted since the last reset
    ghost var mediaLog: seq<MediaEntry>

    /** Every number the tracker holds is the one the log gives. */
    ghost predicate Valid()
      reads this
    {
      Balanced(usage, modeCost, log) && MediaBalanced(media, mediaLog)
    }

    constructor (pricing: map<string, Card>, published: map<string, Card>, mediaRates: map<string, MediaRate>)
      ensures Valid() && log == [] && usage == map[] && modeCost == map[] && overrides == map[] && media == map[]
      ensures mediaLog == []
      ensures this.pricing == pricing && this.published == published && this.mediaRates == mediaRates
    {
      usage, modeCost, overrides, log, media, mediaLog := map[], map[], map[], [], map[], [];
      this.pricing, this.published, this.mediaRates := pricing, published, mediaRates;
    }

    /** costFor, with costForMode. */
    method CostFor(provider: string, model: string, u: Usage, mode: string) returns (cost: real, known: bool)
      requires NonNegative(u) && InRange(u)
      ensures (cost, known) == Priced(provider, model, mode, u, pricing, overrides, published)
      ensures known <==> Known(provider, model, mode, u, pricing, overrides, published)
      ensures u.charge.Some? ==> cost == u.charge.value.usd
      ensures !known ==> cost == var s := Standard(provider, model, pricing); if s.Some? then Cost(s.value, u) else 0.0
    {
      hide Cost, BatchCard, ExplicitCacheRates;
      if u.charge.Some? { return u.charge.value.usd, true; }
      var key := ModelKey(provider, model);
      var standard := if key in pricing then Some(pricing[key]) else None;
      if standard.None? && mode == MODE_STANDARD { return 0.0, false; }
      if mode != MODE_STANDARD && ModeKey(provider, model, mode) in overrides {
        cost := ComputeCost(overrides[ModeKey(provider, model, mode)], u);
        return cost, true;
      }
      var card := ResolveModePricing(provider, model, mode, published, standard);
      if card.Some? {
        cost := ComputeCost(card.value, u);
        return cost, true;
      }
      if standard.None? { return 0.0, false; }
      cost := ComputeCost(standard.value, u);
      return cost, false;
    }

    /** RecordMode: the request is counted unless one of its model's counters would go past the limit. */
    method RecordMode(provider: string, model: string, reported: Usage, mode: string, now: int)
      returns (cost: real, known: bool)
      requires Valid() && InRange(reported)
      modifies this`usage, this`modeCost, this`log
      ensures Valid() && pricing == old(pricing) && overrides == old(overrides)
      ensures (cost, known) == Priced(provider, model, mode, Clamp(reported), pricing, overrides, published)
      ensures var key, u := ModelKey(provider, model), Clamp(reported);
        var e := Entry(key, mode, u, cost, known, Standard(provider, model, pricing));
        log == if Fits(old(Tally(log + [e], key))) then old(log) + [e] else old(log)
      ensures usage.Keys == old(usage.Keys) + {ModelKey(provider, model)}
      ensures var key := ModelKey(provider, model);
        && usage[key].lastUsed == now
        && usage[key].firstUsed == if key in old(usage) then old(usage)[key].firstUsed else now
      ensures forall key | key in old(usage) && key != ModelKey(provider, model) :: usage[key] == old(usage[key])
    {
      hide Balanced, Tally, ModeTotal, Priced, Honest, Cost, Known, MediaBalanced, ModelKey, Overflows, Fits, Standard;
      var key := ModelKey(provider, model);
      var u := Clamp(reported);
      cost, known := CostFor(provider, model, u, mode);
      ghost var e := Entry(key, mode, u, cost, known, Standard(provider, model, pricing));
      UnpricedHonest(e, provider, model, mode, u, pricing, overrides, published);
      TallyNext(log, e);
      CountsOf(usage, modeCost, log, key);
      ModeCostOf(usage, modeCost, log, mode);
      var t := if key in usage then usage[key] else ModelUsage(0, 0, 0, 0, 0, 0, 0.0, now, 0);
      OverflowsExactly(t, u);
      if Overflows(t, u) {
        RejectedBalances(usage, modeCost, log, key, t.(lastUsed := now));
        usage := usage[key := t.(lastUsed := now)];
        return;
      }
      var n := ModelUsage(t.prompt + u.prompt, t.completion + u.completion, t.cacheRead + u.cacheRead,
        t.cacheCreation + u.cacheCreation, t.requests + 1, t.unpriced + (if known then 0 else 1),
        t.estimatedCost + cost, t.firstUsed, now);
      CountedBalances(usage, modeCost, log, e, n);
      usage := usage[key := n];
      modeCost := modeCost[mode := (if mode in modeCost then modeCost[mode] else 0.0) + cost];
      log := log + [e];
    }

    /** RecordMedia: counted under the model's key and the unit (UnitsApart says when these are told apart). */
    method RecordMedia(provider: string, model: string, u: MediaUsage)
      requires Valid()
      modifies this`media, this`mediaLog
      ensures Valid()
      ensures var key, price := MediaKey(ModelKey(provider, model), u.unit), MediaCost(provider, model, u, mediaRates);
        && mediaLog == old(mediaLog) + [MediaEntry(key, u, price.0, price.1)]
        && media.Keys == old(media).Keys + {key}
        && forall k | k in old(media) && k != key :: media[k] == old(media)[k]
    {
      hide MediaCost, MediaBalanced, MediaTally, Balanced;
      var (cost, priced) := MediaCost(provider, model, u, mediaRates);
      var key := MediaKey(ModelKey(provider, model), u.unit);
      var total := if key in media then media[key] else NO_MEDIA;
      ghost var e := MediaEntry(key, u, cost, priced);
      MediaOneMore(media, mediaLog, e);
      MediaNext(media, mediaLog, e);
      total := MediaTotal(u.unit, total.quantity + u.quantity, total.cost + cost, total.requests + 1,
                          total.unpriced + if priced then 0 else 1);
      media := media[key := total];
      mediaLog := mediaLog + [e];
    }

    method Reset()
      modifies this
      ensures Valid() && log == [] && usage == map[] && modeCost == map[] && mediaLog == [] && media == map[]
      ensures pricing == old(pricing) && overrides == old(overrides)
    {
      usage, modeCost, log, media, mediaLog := map[], map[], [], map[], [];
    }

    method SetPricing(provider: string, model: string, card: Card)
      requires Valid()
      modifies this`pricing
      ensures Valid() && pricing == old(pricing)[ModelKey(provider, model) := card]
    {
      pricing := pricing[ModelKey(provider, model) := card];
    }

    method SetModePricing(provider: string, model: string, mode: string, card: Card)
      requires Valid()
      modifies this`pricing, this`overrides
      ensures Valid()
      ensures mode == MODE_STANDARD ==>
        pricing == old(pricing)[ModelKey(provider, model) := card] && overrides == old(overrides)
      ensures mode != MODE_STANDARD ==>
        pricing == old(pricing) && overrides == old(overrides)[ModeKey(provider, model, mode) := card]
    {
      if mode == MODE_STANDARD {
        SetPricing(provider, model, card);
        return;
      }
      overrides := overrides[ModeKey(provider, model, mode) := card];
    }

    /** GetTotalCost, in whatever order the maps are visited: what was counted since the last reset, which for tokens is
        also the costs by mode, and what media cost. */
    method GetTotalCost() returns (total: real)
      requires Valid()
      ensures total == Total(log) + MediaSpend(mediaLog)
        == SumOver(modeCost.Keys, InMap(modeCost)) + MediaSpend(mediaLog)
    {
      total := 0.0;
      var todo := usage.Keys;
      while todo != {}
        invariant todo <= usage.Keys && total + SumOver(todo, Estimated(usage)) == SumOver(usage.Keys, Estimated(usage))
        decreases |todo|
      {
        var key :| key in todo;
        SumWithout(todo, Estimated(usage), key);
        total := total + usage[key].estimatedCost;
        todo := todo - {key};
      }
      Accounts();
      ghost var tokens := total;
      todo := media.Keys;
      while todo != {}
        invariant todo <= media.Keys
        invariant total + SumOver(todo, MediaSpent(media)) == tokens + SumOver(media.Keys, MediaSpent(media))
        decreases |todo|
      {
        var key :| key in todo;
        SumWithout(todo, MediaSpent(media), key);
        total := total + media[key].cost;
        todo := todo - {key};
      }
    }

    /** What every reachable state keeps: the estimated costs of the models add up to the costs of the modes; a
        model's is the cost of its priced requests and the standard charges of the others; and no model has more
        unpriced requests than requests or a counter past the limit. */
    lemma Accounts()
      requires Valid()
      ensures SumOver(usage.Keys, Estimated(usage)) == SumOver(modeCost.Keys, InMap(modeCost)) == Total(log)
      ensures forall key | key in usage ::
        0 <= usage[key].unpriced <= usage[key].requests && Fits(usage[key]) && CountsAre(usage[key], log, key)
      ensures forall key | key in media :: MediaCountsAre(media[key], mediaLog, key)
      ensures forall key | key in usage :: usage[key].estimatedCost == KnownCost(log, key) + StandardCharges(log, key)
    {
      ghost var counted := log;
      ByModelIsByMode(log, usage.Keys, modeCost.Keys);
      SumSame(usage.Keys, Estimated(usage), k => Tally(counted, k).estimatedCost);
      SumSame(modeCost.Keys, InMap(modeCost), m => ModeTotal(counted, m));
      forall key | key in usage
        ensures 0 <= usage[key].unpriced <= usage[key].requests
        ensures usage[key].estimatedCost == KnownCost(log, key) + StandardCharges(log, key)
      {
        UnpricedAmongRequests(log, key);
        EstimateSplits(log, key);
      }
      forall key | key in usage ensures CountsAre(usage[key], log, key) { TallyByCount(log, key); }
      forall key | key in media ensures MediaCountsAre(media[key], mediaLog, key) { MediaByCount(mediaLog, key); }
    }
  }

  function Estimated(m: map<string, ModelUsage>): string -> real {
    k => if k in m then m[k].estimatedCost else 0.0
  }

  function InMap(m: map<string, real>): string -> real {
    k => if k in m then m[k] else 0.0
  }

  lemma {:induction false} NotCounted(log: seq<Entry>, key: string)
    requires forall e | e in log :: e.key != key
    ensures Tally(log, key) == ModelUsage(0, 0, 0, 0, 0, 0, 0.0, 0, 0)
  {
    if log != [] { NotCounted(log[..|log| - 1], key); }
  }

  lemma {:induction false} NoModeCost(log: seq<Entry>, mode: string)
    requires forall e | e in log :: e.mode != mode
    ensures ModeTotal(log, mode) == 0.0
  {
    if log != [] { NoModeCost(log[..|log| - 1], mode); }
  }
}
