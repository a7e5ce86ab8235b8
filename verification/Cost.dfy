/** Token pricing: rate cards with long-context tiers and the derived batch card (cost.go, modes.go). Rates and costs
    are real numbers; token counts are 64-bit. */
module Pricing {
  import opened Options

  const MAX_INT := 0x7fff_ffff_ffff_ffff
  const MIN_INT := -0x8000_0000_0000_0000
  const PER_MILLION := 1000000.0

  /** The four rates of a card or of a tier, in USD for a million tokens. */
  datatype Rates = Rates(input: real, output: real, cacheRead: real, cacheWrite: real) {
    /** cacheReadRate. */
    function CacheReadRate(): real {
      if cacheRead > 0.0 then cacheRead else input
    }

    /** cacheWriteRate. */
    function CacheWriteRate(): real {
      if cacheWrite > 0.0 then cacheWrite else input
    }
  }

  datatype Tier = Tier(minInputTokens: int, rates: Rates)

  datatype Card = Card(rates: Rates, tiers: seq<Tier>)

  /** A reported charge; a float may also hold NaN or an infinity. */
  datatype Charge = Amount(usd: real) | NotFinite

  datatype Usage = Usage(prompt: int, completion: int, cacheRead: int, cacheCreation: int, charge: Option<Charge>)

  predicate InRange(u: Usage) {
    && u.prompt <= MAX_INT && u.completion <= MAX_INT && u.cacheRead <= MAX_INT && u.cacheCreation <= MAX_INT
  }

  predicate NonNegative(u: Usage) {
    && u.prompt >= 0 && u.completion >= 0 && u.cacheRead >= 0 && u.cacheCreation >= 0
    && (u.charge.Some? ==> u.charge.value.Amount? && u.charge.value.usd >= 0.0)
  }

  function AtLeastZero(n: int): int {
    if n < 0 then 0 else n
  }

  /** Usage.nonNegative. */
  function Clamp(u: Usage): (r: Usage)
    ensures NonNegative(r) && (NonNegative(u) ==> r == u)
  {
    var unusable := u.charge.Some? && (u.charge.value.NotFinite? || u.charge.value.usd < 0.0);
    Usage(AtLeastZero(u.prompt), AtLeastZero(u.completion), AtLeastZero(u.cacheRead), AtLeastZero(u.cacheCreation),
          if unusable then Some(Amount(0.0)) else u.charge)
  }

  predicate Kept(n: int, k: int) {
    k == if n < 0 then 0 else n
  }

  /** Each count that is not negative is kept, whatever the others are. */
  lemma ClampKeeps(u: Usage)
    ensures var r := Clamp(u);
      && Kept(u.prompt, r.prompt) && Kept(u.completion, r.completion) && Kept(u.cacheRead, r.cacheRead)
      && Kept(u.cacheCreation, r.cacheCreation)
      && (u.charge.Some? && u.charge.value.Amount? && u.charge.value.usd >= 0.0 ==> r.charge == u.charge)
      && (u.charge.Some? <==> r.charge.Some?)
  {
  }

  // ---- The size of a request ----

  function Min(a: int, b: int): int {
    if a < b then a else b
  }

  /** The tokens a tier's threshold is compared with: all input tokens, as far as an int can hold them. */
  function InputTokens(u: Usage): int {
    Min(u.prompt + u.cacheRead + u.cacheCreation, MAX_INT)
  }

  predicate Int64(n: int) {
    MIN_INT <= n <= MAX_INT
  }

  /** The value an int has after a sum that may have wrapped around. */
  function Wrapped(n: int): int {
    if n > MAX_INT then n - 0x1_0000_0000_0000_0000 else if n < MIN_INT then n + 0x1_0000_0000_0000_0000 else n
  }

  /** totalInputTokens. A sum above the range of an int is capped; `cost` clamps negative counts beforehand, and without
      that a sum below the range wraps around. */
  method TotalInputTokens(u: Usage) returns (total: int)
    requires Int64(u.prompt) && Int64(u.cacheRead) && Int64(u.cacheCreation)
    ensures NonNegative(u) ==> total == InputTokens(u)
    ensures Int64(u.prompt + u.cacheRead) && Int64(u.prompt + u.cacheRead + u.cacheCreation) ==>
      total == u.prompt + u.cacheRead + u.cacheCreation
    ensures u.prompt + u.cacheRead > MAX_INT ==> total == MAX_INT
    ensures u.prompt + u.cacheRead <= MAX_INT ==>
      total == var n := Wrapped(u.prompt + u.cacheRead) + u.cacheCreation; if n > MAX_INT then MAX_INT else Wrapped(n)
  {
    total := u.prompt;
    var counts := [u.cacheRead, u.cacheCreation];
    for i := 0 to 2
      invariant Int64(total)
      invariant i == 0 ==> total == u.prompt
      invariant i == 1 ==> u.prompt + u.cacheRead <= MAX_INT && total == Wrapped(u.prompt + u.cacheRead)
      invariant i == 2 ==> u.prompt + u.cacheRead <= MAX_INT
      invariant i == 2 ==> Wrapped(u.prompt + u.cacheRead) + u.cacheCreation <= MAX_INT
      invariant i == 2 ==> total == Wrapped(Wrapped(u.prompt + u.cacheRead) + u.cacheCreation)
    {
      var n := counts[i];
      if n > 0 && total > MAX_INT - n { return MAX_INT; }
      total := Wrapped(total + n);
    }
  }

  // ---- Tiers ----

  /** Tier `best` applies to a request of `total` input tokens: its threshold is the highest one reached, and it is the
      first with that threshold. No tier applies when none is reached. */
  predicate Applies(tiers: seq<Tier>, total: int, best: Option<nat>) {
    match best
    case None => forall i | 0 <= i < |tiers| :: total < tiers[i].minInputTokens
    case Some(b) =>
      && b < |tiers| && tiers[b].minInputTokens <= total
      && (forall i | 0 <= i < |tiers| && tiers[i].minInputTokens <= total ::
        tiers[i].minInputTokens <= tiers[b].minInputTokens)
      && (forall i | 0 <= i < b :: tiers[i].minInputTokens <= total ==>
        tiers[i].minInputTokens < tiers[b].minInputTokens)
  }

  function Best(tiers: seq<Tier>, total: int): (best: Option<nat>)
    ensures Applies(tiers, total, best)
  {
    if tiers == [] then None
    else
      var before, t := Best(tiers[..|tiers| - 1], total), tiers[|tiers| - 1];
      if total < t.minInputTokens then before
      else if before.None? || t.minInputTokens > tiers[before.value].minInputTokens then Some(|tiers| - 1)
      else before
  }

  /** Only one tier can apply. */
  lemma OneApplies(tiers: seq<Tier>, total: int, best: Option<nat>)
    requires Applies(tiers, total, best)
    ensures best == Best(tiers, total)
  {
    var other := Best(tiers, total);
    assert best.Some? && other.Some? ==> tiers[best.value].minInputTokens == tiers[other.value].minInputTokens;
  }

  /** The rates for a request of `total` input tokens. */
  function RatesFor(p: Card, total: int): Rates {
    var best := Best(p.tiers, total);
    if best.None? then p.rates else p.tiers[best.value].rates
  }

  /** effective. */
  method Effective(p: Card, u: Usage) returns (e: Card)
    requires InRange(u) && NonNegative(u)
    ensures e.rates == RatesFor(p, InputTokens(u))
    ensures e.tiers == if Best(p.tiers, InputTokens(u)).None? then p.tiers else []
  {
    if |p.tiers| == 0 { return p; }
    var total := TotalInputTokens(u);
    var best := -1;
    for i := 0 to |p.tiers|
      invariant -1 <= best < i
      invariant Applies(p.tiers[..i], total, if best == -1 then None else Some(best))
    {
      var t := p.tiers[i];
      if total < t.minInputTokens { continue; }
      if best == -1 || t.minInputTokens > p.tiers[best].minInputTokens {
        best := i;
      }
    }
    assert p.tiers[..|p.tiers|] == p.tiers;
    OneApplies(p.tiers, total, if best == -1 then None else Some(best));
    if best == -1 { return p; }
    return Card(p.tiers[best].rates, []);
  }

  /** What `n` tokens cost. */
  function Part(n: int, rate: real): real {
    n as real / PER_MILLION * rate
  }

  /** What a clamped request costs at fixed rates. */
  function Charged(e: Rates, u: Usage): real {
    Part(u.prompt, e.input) + Part(u.completion, e.output) + Part(u.cacheRead, e.CacheReadRate())
    + Part(u.cacheCreation, e.CacheWriteRate())
  }

  function Cost(p: Card, u: Usage): real {
    Charged(RatesFor(p, InputTokens(Clamp(u))), Clamp(u))
  }

  /** cost. */
  method ComputeCost(p: Card, usage: Usage) returns (usd: real)
    requires InRange(usage)
    ensures usd == Cost(p, usage)
  {
    hide Part, RatesFor, Best, InputTokens;
    var u := Clamp(usage);
    var e := Effective(p, u);
    usd := Part(u.prompt, e.rates.input) + Part(u.completion, e.rates.output)
      + Part(u.cacheRead, e.rates.CacheReadRate())
      + Part(u.cacheCreation, e.rates.CacheWriteRate());
  }

  /** A million times what a request costs: each count times its rate, at the base rates or those of the tier with the
      highest threshold that all its input tokens together reach; tokens of a kind without a positive rate of its own
      are input tokens. */
  lemma CostIs(p: Card, u: Usage, best: Option<nat>)
    requires NonNegative(u) && Applies(p.tiers, Min(u.prompt + u.cacheRead + u.cacheCreation, MAX_INT), best)
    ensures var e := if best.None? then p.rates else p.tiers[best.value].rates;
      var read := if e.cacheRead > 0.0 then e.cacheRead else e.input;
      var write := if e.cacheWrite > 0.0 then e.cacheWrite else e.input;
      Cost(p, u) * PER_MILLION == u.prompt as real * e.input + u.completion as real * e.output
        + u.cacheRead as real * read + u.cacheCreation as real * write
  {
    hide Part, Best;
    OneApplies(p.tiers, InputTokens(u), best);
    var e := if best.None? then p.rates else p.tiers[best.value].rates;
    PartIs(u.prompt, e.input);
    PartIs(u.completion, e.output);
    PartIs(u.cacheRead, e.CacheReadRate());
    PartIs(u.cacheCreation, e.CacheWriteRate());
  }

  // ---- More tokens never cost less ----

  /** Rates that are at least zero and, after the fallback to Input, nowhere below those of `a`. */
  predicate NotBelow(a: Rates, b: Rates) {
    && 0.0 <= a.input <= b.input && 0.0 <= a.output <= b.output
    && a.CacheReadRate() <= b.CacheReadRate() && a.CacheWriteRate() <= b.CacheWriteRate()
  }

  /** Rates do not fall as thresholds rise; the base rates count as a threshold below all others. */
  predicate Rising(p: Card) {
    && NotBelow(p.rates, p.rates)
    && (forall i | 0 <= i < |p.tiers| :: NotBelow(p.rates, p.tiers[i].rates))
    && (forall i, j | 0 <= i < |p.tiers| && 0 <= j < |p.tiers|
      && p.tiers[i].minInputTokens < p.tiers[j].minInputTokens ::
          NotBelow(p.tiers[i].rates, p.tiers[j].rates))
  }

  predicate NoFewer(u: Usage, v: Usage) {
    u.prompt <= v.prompt && u.completion <= v.completion && u.cacheRead <= v.cacheRead
      && u.cacheCreation <= v.cacheCreation
  }

  lemma RatesRise(p: Card, s: int, t: int)
    requires Rising(p) && s <= t
    ensures NotBelow(RatesFor(p, s), RatesFor(p, t))
  {
    var a, b := Best(p.tiers, s), Best(p.tiers, t);
    if a.Some? {
      assert p.tiers[a.value].minInputTokens <= t;
      if p.tiers[a.value].minInputTokens == p.tiers[b.value].minInputTokens {
        OneApplies(p.tiers, s, b);
        assert NotBelow(p.rates, p.tiers[a.value].rates);
      }
    }
  }

  lemma ProductRises(m: int, n: int, r: real, s: real)
    requires 0 <= m <= n && 0.0 <= r <= s
    ensures Part(m, r) <= Part(n, s)
  {
    var x, y := m as real / PER_MILLION, n as real / PER_MILLION;
    assert 0.0 <= x <= y;
    assert x * r <= x * s <= y * s;
  }

  /** On a rising card the cost does not fall when any token count grows, across tier boundaries included. */
  lemma CostMonotone(p: Card, u: Usage, v: Usage)
    requires Rising(p) && NoFewer(u, v)
    ensures 0.0 <= Cost(p, u) <= Cost(p, v)
  {
    hide Part, RatesFor, Rising;
    var cu, cv := Clamp(u), Clamp(v);
    RatesRise(p, InputTokens(cu), InputTokens(cv));
    var a, b := RatesFor(p, InputTokens(cu)), RatesFor(p, InputTokens(cv));
    ProductRises(cu.prompt, cv.prompt, a.input, b.input);
    ProductRises(cu.completion, cv.completion, a.output, b.output);
    ProductRises(cu.cacheRead, cv.cacheRead, a.CacheReadRate(), b.CacheReadRate());
    ProductRises(cu.cacheCreation, cv.cacheCreation, a.CacheWriteRate(), b.CacheWriteRate());
    ChargedNonNegative(a, cu);
  }

  lemma Free()
    ensures Part(0, 0.0) == 0.0
  {
  }

  lemma ChargedNonNegative(e: Rates, u: Usage)
    requires NotBelow(e, e) && NonNegative(u)
    ensures 0.0 <= Charged(e, u)
  {
    hide Part;
    Free();
    ProductRises(0, u.prompt, 0.0, e.input);
    ProductRises(0, u.completion, 0.0, e.output);
    ProductRises(0, u.cacheRead, 0.0, e.CacheReadRate());
    ProductRises(0, u.cacheCreation, 0.0, e.CacheWriteRate());
  }

  /** Without that condition one more token can cost less: a cheaper long-context tier. */
  lemma FallingTierCostsLess()
    ensures var p := Card(Rates(4.0, 0.0, 0.0, 0.0), [Tier(1000, Rates(1.0, 0.0, 0.0, 0.0))]);
      var u := Usage(999, 0, 0, 0, None);
      Cost(p, u.(prompt := 1000)) < Cost(p, u)
  {
    var tiers := [Tier(1000, Rates(1.0, 0.0, 0.0, 0.0))];
    OneApplies(tiers, 999, None);
    OneApplies(tiers, 1000, Some(0));
  }

  // ---- When exactly more tokens never cost less ----

  /** The kinds of token that count towards a threshold. */
  datatype Kind = PromptKind | CacheReadKind | CacheWriteKind

  function Rate(e: Rates, k: Kind): real {
    match k
    case PromptKind => e.input
    case CacheReadKind => e.CacheReadRate()
    case CacheWriteKind => e.CacheWriteRate()
  }

  function Tokens(u: Usage, k: Kind): int {
    match k
    case PromptKind => u.prompt
    case CacheReadKind => u.cacheRead
    case CacheWriteKind => u.cacheCreation
  }

  function Input(u: Usage): int {
    u.prompt + u.cacheRead + u.cacheCreation
  }

  /** `n` input tokens of one kind and `c` output tokens. */
  function AllOf(k: Kind, n: int, c: int): Usage {
    OneKind(Usage(0, c, 0, 0, None), k, n)
  }

  function OneKind(u: Usage, k: Kind, n: int): Usage {
    match k
    case PromptKind => u.(prompt := u.prompt + n)
    case CacheReadKind => u.(cacheRead := u.cacheRead + n)
    case CacheWriteKind => u.(cacheCreation := u.cacheCreation + n)
  }

  predicate AtLeastFree(e: Rates) {
    e.output >= 0.0 && forall k: Kind :: Rate(e, k) >= 0.0
  }

  /** After `n` input tokens of kind `k` and `c` output tokens at rates `a`, one more input token of kind `i`, which
      takes all of them to rates `b`, does not cost less. */
  predicate StepUp(a: Rates, b: Rates, n: int, c: int, k: Kind, i: Kind) {
    n as real * (Rate(b, k) - Rate(a, k)) + c as real * (b.output - a.output) + Rate(b, i) >= 0.0
  }

  predicate StepsUp(a: Rates, b: Rates, n: int) {
    forall k, i :: StepUp(a, b, n, 0, k, i) && StepUp(a, b, n, MAX_INT, k, i)
  }

  /** What can be read off the tiers: no rate that applies to some request is negative, and no threshold makes requests
      that consist of one kind of input token, with no or with all possible output tokens, cheaper. */
  predicate NeverFalls(p: Card) {
    && RatesFor(p, 0).output >= 0.0 && AtLeastFree(RatesFor(p, 1))
    && forall j | 0 <= j < |p.tiers| :: 1 <= p.tiers[j].minInputTokens <= MAX_INT ==>
      var m := p.tiers[j].minInputTokens;
      AtLeastFree(RatesFor(p, m)) && StepsUp(RatesFor(p, m - 1), RatesFor(p, m), m - 1)
  }

  predicate Countable(u: Usage) {
    NonNegative(u) && InRange(u)
  }

  ghost predicate Monotone(p: Card) {
    forall u, v | Countable(u) && Countable(v) && NoFewer(u, v) :: Cost(p, u) <= Cost(p, v)
  }

  /** The rates of any request with input tokens are those at 1 or at some threshold. */
  lemma {:induction false} RatesAtThreshold(p: Card, n: int)
    requires 1 <= n <= MAX_INT && NeverFalls(p)
    ensures AtLeastFree(RatesFor(p, n))
  {
    hide AtLeastFree, StepsUp;
    var best := Best(p.tiers, n);
    if best.Some? && p.tiers[best.value].minInputTokens >= 1 {
      OneApplies(p.tiers, p.tiers[best.value].minInputTokens, best);
    } else {
      OneApplies(p.tiers, 1, best);
    }
  }

  lemma {:induction false} RatesStep(p: Card, n: int)
    requires 0 <= n < MAX_INT && NeverFalls(p)
    ensures StepsUp(RatesFor(p, n), RatesFor(p, n + 1), n)
  {
    hide AtLeastFree, StepsUp, Best;
    if j :| 0 <= j < |p.tiers| && p.tiers[j].minInputTokens == n + 1 {
    } else {
      OneApplies(p.tiers, n + 1, Best(p.tiers, n));
      RatesAtThreshold(p, n + 1);
      SameRatesStepUp(RatesFor(p, n), n);
    }
  }

  lemma SameRatesStepUp(e: Rates, n: int)
    requires AtLeastFree(e)
    ensures StepsUp(e, e, n)
  {
    forall k, i, c: int ensures StepUp(e, e, n, c, k, i) {
      assert n as real * 0.0 == 0.0 && c as real * 0.0 == 0.0;
      assert Rate(e, i) >= 0.0;
    }
  }

  /** A charge in millionths. */
  function Weight(e: Rates, u: Usage): real {
    u.prompt as real * e.input + u.completion as real * e.output + u.cacheRead as real * e.CacheReadRate()
    + u.cacheCreation as real * e.CacheWriteRate()
  }

  lemma PartIs(n: int, rate: real)
    ensures Part(n, rate) * PER_MILLION == n as real * rate
  {
  }

  lemma WeightIs(e: Rates, u: Usage)
    ensures Charged(e, u) * PER_MILLION == Weight(e, u)
  {
    hide Part;
    PartIs(u.prompt, e.input);
    PartIs(u.completion, e.output);
    PartIs(u.cacheRead, e.CacheReadRate());
    PartIs(u.cacheCreation, e.CacheWriteRate());
  }

  /** How much one more input token of kind `i` adds. */
  lemma WeightStep(a: Rates, b: Rates, u: Usage, i: Kind)
    ensures Weight(b, OneKind(u, i, 1)) - Weight(a, u) ==
      u.prompt as real * (Rate(b, PromptKind) - Rate(a, PromptKind))
      + u.cacheRead as real * (Rate(b, CacheReadKind) - Rate(a, CacheReadKind))
      + u.cacheCreation as real * (Rate(b, CacheWriteKind) - Rate(a, CacheWriteKind))
      + u.completion as real * (b.output - a.output) + Rate(b, i)
  {
    OneMore(u.prompt, b.input);
    OneMore(u.cacheRead, b.CacheReadRate());
    OneMore(u.cacheCreation, b.CacheWriteRate());
    Difference(u.prompt as real, b.input, a.input);
    Difference(u.cacheRead as real, b.CacheReadRate(), a.CacheReadRate());
    Difference(u.cacheCreation as real, b.CacheWriteRate(), a.CacheWriteRate());
    Difference(u.completion as real, b.output, a.output);
  }

  lemma OneMore(n: int, rate: real)
    ensures (n + 1) as real * rate == n as real * rate + rate
  {
  }

  lemma Difference(x: real, b: real, a: real)
    ensures x * (b - a) == x * b - x * a
  {
  }

  lemma ProductSign(x: real, y: real)
    ensures x >= 0.0 && y >= 0.0 ==> x * y >= 0.0
    ensures x > 0.0 && x * y >= 0.0 ==> y >= 0.0
  {
  }

  /** A linear function of the output tokens that is not negative at both ends is not negative between them. */
  lemma Between(base: real, slope: real, c: int)
    requires 0 <= c <= MAX_INT && base >= 0.0 && base + MAX_INT as real * slope >= 0.0
    ensures base + c as real * slope >= 0.0
  {
    var x, y := c as real, MAX_INT as real;
    ProductSign(y - x, base);
    ProductSign(x, base + y * slope);
    Difference(base, y, x);
    assert y * (base + x * slope) == (y - x) * base + x * (base + y * slope);
    ProductSign(y, base + x * slope);
  }

  /** Nor is a mix of the kinds, of which each alone is not negative. */
  lemma Mixed(n: real, x: real, y: real, z: real, dx: real, dy: real, dz: real, rest: real)
    requires x >= 0.0 && y >= 0.0 && z >= 0.0 && n == x + y + z
    requires n * dx + rest >= 0.0 && n * dy + rest >= 0.0 && n * dz + rest >= 0.0
    ensures x * dx + y * dy + z * dz + rest >= 0.0
  {
    var sum := x * dx + y * dy + z * dz + rest;
    if n > 0.0 {
      ProductSign(x, n * dx + rest);
      ProductSign(y, n * dy + rest);
      ProductSign(z, n * dz + rest);
      assert n * sum == x * (n * dx + rest) + y * (n * dy + rest) + z * (n * dz + rest);
      ProductSign(n, sum);
    } else {
      assert x == 0.0 && y == 0.0 && z == 0.0 && n == 0.0;
      assert 0.0 * dx == 0.0 && 0.0 * dy == 0.0 && 0.0 * dz == 0.0;
    }
  }

  lemma KindStep(a: Rates, b: Rates, n: int, c: int, k: Kind, i: Kind)
    requires 0 <= c <= MAX_INT && StepsUp(a, b, n)
    ensures StepUp(a, b, n, c, k, i)
  {
    assert StepUp(a, b, n, 0, k, i) && StepUp(a, b, n, MAX_INT, k, i);
    assert 0 as real * (b.output - a.output) == 0.0;
    Between(n as real * (Rate(b, k) - Rate(a, k)) + Rate(b, i), b.output - a.output, c);
  }

  lemma StepCosts(a: Rates, b: Rates, u: Usage, i: Kind)
    requires Countable(u) && StepsUp(a, b, Input(u))
    ensures Charged(a, u) <= Charged(b, OneKind(u, i, 1))
  {
    hide StepsUp, Charged, Weight, Rate;
    var n, c := Input(u), u.completion;
    KindStep(a, b, n, c, PromptKind, i);
    KindStep(a, b, n, c, CacheReadKind, i);
    KindStep(a, b, n, c, CacheWriteKind, i);
    WeightIs(a, u);
    WeightIs(b, OneKind(u, i, 1));
    WeightStep(a, b, u, i);
    Mixed(n as real, u.prompt as real, u.cacheRead as real, u.cacheCreation as real,
          Rate(b, PromptKind) - Rate(a, PromptKind), Rate(b, CacheReadKind) - Rate(a, CacheReadKind),
          Rate(b, CacheWriteKind) - Rate(a, CacheWriteKind), c as real * (b.output - a.output) + Rate(b, i));
  }

  lemma OneInputMore(p: Card, u: Usage, i: Kind)
    requires NeverFalls(p) && Countable(u)
    ensures Cost(p, u) <= Cost(p, OneKind(u, i, 1))
  {
    hide NeverFalls, RatesFor, StepsUp, Charged, AtLeastFree;
    var n := InputTokens(u);
    if Input(u) < MAX_INT {
      RatesStep(p, n);
      StepCosts(RatesFor(p, n), RatesFor(p, n + 1), u, i);
    } else {
      RatesAtThreshold(p, MAX_INT);
      SameRatesStepUp(RatesFor(p, MAX_INT), Input(u));
      StepCosts(RatesFor(p, MAX_INT), RatesFor(p, MAX_INT), u, i);
    }
  }

  lemma OneOutputMore(p: Card, u: Usage)
    requires NeverFalls(p) && Countable(u)
    ensures Cost(p, u) <= Cost(p, u.(completion := u.completion + 1))
  {
    hide RatesFor, StepsUp, Part;
    var n := InputTokens(u);
    if n > 0 { RatesAtThreshold(p, n); }
    var rate := RatesFor(p, n).output;
    var v := u.(completion := u.completion + 1);
    assert rate >= 0.0 && NonNegative(v) && InputTokens(v) == n;
    PartIs(u.completion, rate);
    PartIs(u.completion + 1, rate);
    OneMore(u.completion, rate);
  }

  /** From one request to a larger one, token by token. */
  lemma {:induction false} TokenByToken(p: Card, u: Usage, v: Usage)
    requires NeverFalls(p) && Countable(u) && Countable(v) && NoFewer(u, v)
    ensures Cost(p, u) <= Cost(p, v)
    decreases Input(v) - Input(u) + v.completion - u.completion
  {
    hide NeverFalls, Cost;
    if u.completion < v.completion {
      OneOutputMore(p, u);
      TokenByToken(p, u.(completion := u.completion + 1), v);
    } else if k :| Tokens(u, k) < Tokens(v, k) {
      OneInputMore(p, u, k);
      TokenByToken(p, OneKind(u, k, 1), v);
    } else {
      assert Tokens(u, PromptKind) >= Tokens(v, PromptKind) && Tokens(u, CacheReadKind) >= Tokens(v, CacheReadKind);
      assert Tokens(u, CacheWriteKind) >= Tokens(v, CacheWriteKind);
      CountsDecide(p, u, v);
    }
  }

  lemma CountsDecide(p: Card, u: Usage, v: Usage)
    requires Countable(u) && Countable(v) && u.(charge := None) == v.(charge := None)
    ensures Cost(p, u) == Cost(p, v)
  {
  }

  lemma AllOfWeight(e: Rates, k: Kind, n: int, c: int)
    ensures Weight(e, AllOf(k, n, c)) == n as real * Rate(e, k) + c as real * e.output
  {
    assert 0 as real * e.input == 0.0 && 0 as real * e.CacheReadRate() == 0.0 && 0 as real * e.CacheWriteRate() == 0.0;
  }

  lemma AllOfCost(p: Card, k: Kind, n: int, c: int)
    requires 0 <= n <= MAX_INT && 0 <= c <= MAX_INT
    ensures Cost(p, AllOf(k, n, c)) * PER_MILLION
      == n as real * Rate(RatesFor(p, n), k) + c as real * RatesFor(p, n).output
  {
    hide RatesFor, Charged, Weight, Rate;
    AllOfWeight(RatesFor(p, n), k, n, c);
    WeightIs(RatesFor(p, n), AllOf(k, n, c));
    assert InputTokens(Clamp(AllOf(k, n, c))) == n;
  }

  lemma StepNeeded(p: Card, n: int, c: int, k: Kind, i: Kind)
    requires Monotone(p) && 0 <= n < MAX_INT && 0 <= c <= MAX_INT
    ensures StepUp(RatesFor(p, n), RatesFor(p, n + 1), n, c, k, i)
  {
    hide RatesFor, Charged, Weight, Rate;
    var u := AllOf(k, n, c);
    var v := OneKind(u, i, 1);
    var a, b := RatesFor(p, n), RatesFor(p, n + 1);
    assert Cost(p, u) <= Cost(p, v);
    WeightIs(a, u);
    WeightIs(b, v);
    WeightStep(a, b, u, i);
    assert InputTokens(u) == n && InputTokens(v) == n + 1;
    assert Weight(b, v) - Weight(a, u) >= 0.0;
    assert 0 as real * (Rate(b, PromptKind) - Rate(a, PromptKind)) == 0.0;
    assert 0 as real * (Rate(b, CacheReadKind) - Rate(a, CacheReadKind)) == 0.0;
    assert 0 as real * (Rate(b, CacheWriteKind) - Rate(a, CacheWriteKind)) == 0.0;
  }

  lemma FreeNeeded(p: Card, n: int)
    requires Monotone(p) && 0 <= n <= MAX_INT
    ensures RatesFor(p, n).output >= 0.0 && (n > 0 ==> AtLeastFree(RatesFor(p, n)))
  {
    hide RatesFor, Cost, Rate;
    forall k: Kind ensures RatesFor(p, n).output >= 0.0 && (n > 0 ==> Rate(RatesFor(p, n), k) >= 0.0) {
      AllOfCost(p, k, 0, 0);
      AllOfCost(p, k, n, 0);
      AllOfCost(p, k, n, 1);
      assert Cost(p, AllOf(k, 0, 0)) <= Cost(p, AllOf(k, n, 0)) <= Cost(p, AllOf(k, n, 1));
      assert n > 0 ==> (n as real * Rate(RatesFor(p, n), k) >= 0.0 ==> Rate(RatesFor(p, n), k) >= 0.0);
    }
    var any := PromptKind;
    assert RatesFor(p, n).output >= 0.0 && (n > 0 ==> Rate(RatesFor(p, n), any) >= 0.0);
  }

  /** For any card, negative rates and unsorted tiers included: the cost never falls as token counts grow if and only if
      that can be read off its tiers. */
  lemma {:induction false} MonotoneExactly(p: Card)
    ensures Monotone(p) <==> NeverFalls(p)
  {
    hide Cost, RatesFor, AtLeastFree, StepUp;
    if NeverFalls(p) {
      forall u, v | Countable(u) && Countable(v) && NoFewer(u, v) ensures Cost(p, u) <= Cost(p, v) {
        TokenByToken(p, u, v);
      }
    }
    if Monotone(p) {
      FreeNeeded(p, 0);
      FreeNeeded(p, 1);
      forall j | 0 <= j < |p.tiers| && 1 <= p.tiers[j].minInputTokens <= MAX_INT
        ensures var m := p.tiers[j].minInputTokens;
          AtLeastFree(RatesFor(p, m)) && StepsUp(RatesFor(p, m - 1), RatesFor(p, m), m - 1)
      {
        var m := p.tiers[j].minInputTokens;
        FreeNeeded(p, m);
        var a, b := RatesFor(p, m - 1), RatesFor(p, m);
        var n := m - 1;
        forall k, i ensures StepUp(a, b, n, 0, k, i) && StepUp(a, b, n, MAX_INT, k, i) {
          StepNeeded(p, n, 0, k, i);
          StepNeeded(p, n, MAX_INT, k, i);
        }
      }
    }
  }

  // ---- The derived batch card ----

  /** The batch rates for a set of standard rates. */
  function BatchRates(r: Rates): Rates {
    var input := r.input * 0.5;
    Rates(input, r.output * 0.5,
          if r.cacheRead == 0.0 then input * 0.1 else r.cacheRead * 0.5,
          if r.cacheWrite == 0.0 then input * 1.25 else r.cacheWrite * 0.5)
  }

  function BatchCard(base: Card): Card {
    Card(BatchRates(base.rates),
      seq(|base.tiers|, i requires 0 <= i < |base.tiers| =>
        Tier(base.tiers[i].minInputTokens, BatchRates(base.tiers[i].rates))))
  }

  /** deriveAnthropicBatchPricing. */
  method DeriveAnthropicBatchPricing(base: Card, known: bool) returns (derived: Option<Card>)
    ensures derived.Some? <==> known && base.rates.input != 0.0
    ensures derived.Some? ==> derived.value == BatchCard(base)
  {
    if !known || base.rates.input == 0.0 { return None; }
    var input := base.rates.input * 0.5;
    var cacheRead := base.rates.cacheRead * 0.5;
    var cacheWrite := base.rates.cacheWrite * 0.5;
    if base.rates.cacheRead == 0.0 { cacheRead := input * 0.1; }
    if base.rates.cacheWrite == 0.0 { cacheWrite := input * 1.25; }
    var tiers: seq<Tier> := [];
    for i := 0 to |base.tiers|
      invariant |tiers| == i
      invariant forall j | 0 <= j < i :: tiers[j] == BatchCard(base).tiers[j]
    {
      var t := base.tiers[i].rates;
      var discounted := Rates(t.input * 0.5, t.output * 0.5, t.cacheRead * 0.5, t.cacheWrite * 0.5);
      if t.cacheRead == 0.0 { discounted := discounted.(cacheRead := discounted.input * 0.1); }
      if t.cacheWrite == 0.0 { discounted := discounted.(cacheWrite := discounted.input * 1.25); }
      tiers := tiers + [Tier(base.tiers[i].minInputTokens, discounted)];
    }
    return Some(Card(Rates(input, base.rates.output * 0.5, cacheRead, cacheWrite), tiers));
  }

  /** The batch card switches tiers where the standard card does. */
  lemma BatchTiers(base: Card, total: int)
    ensures RatesFor(BatchCard(base), total) == BatchRates(RatesFor(base, total))
  {
    var best := Best(base.tiers, total);
    OneApplies(BatchCard(base).tiers, total, best);
  }

  /** The cache tokens billed at a rate the card leaves unset. */
  function UnsetRead(e: Rates, u: Usage): int {
    if e.cacheRead == 0.0 then u.cacheRead else 0
  }

  function UnsetWrite(e: Rates, u: Usage): int {
    if e.cacheWrite == 0.0 then u.cacheCreation else 0
  }

  /** Twice the batch charge less the standard one. */
  function Gap(e: Rates, u: Usage): real {
    if e.input > 0.0 then Part(UnsetWrite(e, u), e.input) * 0.25 - Part(UnsetRead(e, u), e.input) * 0.9 else 0.0
  }

  lemma BatchCharge(e: Rates, u: Usage)
    ensures 2.0 * Charged(BatchRates(e), u) - Charged(e, u) == Gap(e, u)
  {
    hide Part;
    var b := BatchRates(e);
    NoTokens(e.input);
    HalfOf(u.prompt, b.input, e.input);
    HalfOf(u.completion, b.output, e.output);
    BatchRead(e, u.cacheRead);
    BatchWrite(e, u.cacheCreation);
  }

  lemma NoTokens(rate: real)
    ensures Part(0, rate) == 0.0
  {
  }

  lemma BatchRead(e: Rates, n: int)
    ensures 2.0 * Part(n, BatchRates(e).CacheReadRate()) - Part(n, e.CacheReadRate())
      == if e.cacheRead == 0.0 && e.input > 0.0 then -(Part(n, e.input) * 0.9) else 0.0
  {
    hide Part;
    var b := BatchRates(e).CacheReadRate();
    if e.cacheRead == 0.0 && e.input > 0.0 { OfInput(n, b, e.input, 0.1); } else { HalfOf(n, b, e.CacheReadRate()); }
  }

  lemma BatchWrite(e: Rates, n: int)
    ensures 2.0 * Part(n, BatchRates(e).CacheWriteRate()) - Part(n, e.CacheWriteRate())
      == if e.cacheWrite == 0.0 && e.input > 0.0 then Part(n, e.input) * 0.25 else 0.0
  {
    hide Part;
    var b := BatchRates(e).CacheWriteRate();
    if e.cacheWrite == 0.0 && e.input > 0.0 { OfInput(n, b, e.input, 1.25); } else { HalfOf(n, b, e.CacheWriteRate()); }
  }

  lemma HalfOf(n: int, b: real, e: real)
    requires 2.0 * b == e
    ensures 2.0 * Part(n, b) == Part(n, e)
  {
  }

  lemma OfInput(n: int, b: real, input: real, ratio: real)
    requires 2.0 * b == input * ratio
    ensures 2.0 * Part(n, b) - Part(n, input) == Part(n, input) * (ratio - 1.0)
  {
  }

  /** How far the batch cost is from half the standard cost, for every usage and tier. A cache rate the card leaves
      unset is billed at the input rate on the standard card, but at 0.1 (reads) or 1.25 (writes) of it on the batch
      card. */
  lemma BatchCost(base: Card, usage: Usage)
    ensures var u := Clamp(usage); var e := RatesFor(base, InputTokens(u));
      2.0 * Cost(BatchCard(base), usage) - Cost(base, usage) == Gap(e, u)
  {
    hide Charged, BatchRates, Part, RatesFor, BatchCard, InputTokens, Gap;
    var u := Clamp(usage);
    BatchTiers(base, InputTokens(u));
    BatchCharge(RatesFor(base, InputTokens(u)), u);
  }

  /** It is exactly half if and only if the input rate is not positive or the unset cache tokens are in the ratio of 18
      writes to 5 reads. */
  lemma HalfExactlyWhen(base: Card, usage: Usage)
    ensures var u := Clamp(usage); var e := RatesFor(base, InputTokens(u));
      2.0 * Cost(BatchCard(base), usage) == Cost(base, usage)
      <==> e.input <= 0.0 || 5 * UnsetWrite(e, u) == 18 * UnsetRead(e, u)
  {
    hide Part, RatesFor, BatchCard, Cost, InputTokens;
    BatchCost(base, usage);
    var u := Clamp(usage);
    var e := RatesFor(base, InputTokens(u));
    PartsCancel(e.input, UnsetWrite(e, u), UnsetRead(e, u));
  }

  /** A million cache-read tokens at an unset rate: a tenth of half the price for input is not half of it. */
  lemma NotHalf()
    ensures var p, u := Card(Rates(4.0, 0.0, 0.0, 0.0), []), Usage(0, 0, 1000000, 0, None);
      Cost(p, u) == 4.0 && Cost(BatchCard(p), u) == 0.2
  {
    hide Part, RatesFor, BatchCard;
    var p, u := Card(Rates(4.0, 0.0, 0.0, 0.0), []), Usage(0, 0, 1000000, 0, None);
    NoTiers(p, 1000000);
    MillionTokens(4.0);
    NoTokens(4.0);
    NoTokens(0.0);
    BatchCost(p, u);
  }

  lemma NoTiers(p: Card, total: int)
    requires p.tiers == []
    ensures RatesFor(p, total) == p.rates
  {
  }

  lemma MillionTokens(rate: real)
    ensures Part(1000000, rate) == rate
  {
  }

  lemma PartsCancel(rate: real, w: int, r: int)
    ensures Part(w, rate) * 0.25 - Part(r, rate) * 0.9 == 0.0 <==> rate == 0.0 || 5 * w == 18 * r
  {
    var gap := (5 * w - 18 * r) as real;
    assert Part(w, rate) * 0.25 - Part(r, rate) * 0.9 == gap * rate / 20000000.0;
    ZeroProduct(gap, rate);
  }

  lemma ZeroProduct(x: real, y: real)
    ensures x * y / 20000000.0 == 0.0 <==> x == 0.0 || y == 0.0
  {
  }

  predicate ExplicitCacheRates(p: Card) {
    && p.rates.cacheRead != 0.0 && p.rates.cacheWrite != 0.0
    && forall i | 0 <= i < |p.tiers| :: p.tiers[i].rates.cacheRead != 0.0 && p.tiers[i].rates.cacheWrite != 0.0
  }

  /** With explicit cache rates a batch costs half, for every usage and tier, whatever the signs of the rates. */
  lemma HalfPrice(base: Card, usage: Usage)
    requires ExplicitCacheRates(base)
    ensures 2.0 * Cost(BatchCard(base), usage) == Cost(base, usage)
  {
    hide Part, Best, InputTokens, BatchCard;
    var u := Clamp(usage);
    BatchTiers(base, InputTokens(u));
    var e := RatesFor(base, InputTokens(u));
    var b := BatchRates(e);
    HalfOf(u.prompt, b.input, e.input);
    HalfOf(u.completion, b.output, e.output);
    HalfOf(u.cacheRead, b.CacheReadRate(), e.CacheReadRate());
    HalfOf(u.cacheCreation, b.CacheWriteRate(), e.CacheWriteRate());
  }
}
