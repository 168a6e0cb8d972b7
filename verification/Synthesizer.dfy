// The recommendation made from whatever engines have a signal, with or without
// a bounded share for the AI score.
module Synthesizer {
  import opened Wrappers
  import opened Grouping

  datatype Engine = Technical | Fundamental | Sentiment | Risk

  const MAX_AI_WEIGHT: real := 0.30

  function BaseWeight(e: Engine): real {
    match e
    case Technical => 0.40
    case Fundamental => 0.25
    case Sentiment => 0.20
    case Risk => 0.15
  }

  function Clamp(x: real, lo: real, hi: real): real {
    var capped := if x > hi then hi else x;
    if capped < lo then lo else capped
  }

  // The engines' own outputs; None where an engine has no signal.
  datatype Inputs = Inputs(technical: Option<real>, fundamental: Option<real>,
                           sentiment: Option<real>, risk: Option<real>)

  // Signals in [-1, 1]; a high risk is bearish.
  function Normalize(inputs: Inputs): map<Engine, real> {
    (if inputs.technical.Some? then map[Technical := Clamp(inputs.technical.value, -1.0, 1.0)] else map[])
    + (if inputs.fundamental.Some?
       then map[Fundamental := Clamp((inputs.fundamental.value - 50.0) / 50.0, -1.0, 1.0)] else map[])
    + (if inputs.sentiment.Some? then map[Sentiment := Clamp(inputs.sentiment.value, -1.0, 1.0)] else map[])
    + (if inputs.risk.Some? then map[Risk := Clamp(-(inputs.risk.value - 50.0) / 50.0, -1.0, 1.0)] else map[])
  }

  ghost predicate Signals(normalized: map<Engine, real>) {
    forall e :: e in normalized ==> -1.0 <= normalized[e] <= 1.0
  }

  lemma NormalizeSignals(inputs: Inputs)
    ensures Signals(Normalize(inputs))
    ensures Normalize(inputs) == map[] <==>
            inputs.technical.None? && inputs.fundamental.None? && inputs.sentiment.None? && inputs.risk.None?
  {
    var n := Normalize(inputs);
    assert inputs.technical.Some? ==> Technical in n;
    assert inputs.fundamental.Some? ==> Fundamental in n;
    assert inputs.sentiment.Some? ==> Sentiment in n;
    assert inputs.risk.Some? ==> Risk in n;
  }

  // Each engine's signal: fundamentals and risk are scores around 50, and a high
  // risk counts against.
  lemma SignalOf(inputs: Inputs)
    ensures var n := Normalize(inputs);
            && (Technical in n <==> inputs.technical.Some?) && (Fundamental in n <==> inputs.fundamental.Some?)
            && (Sentiment in n <==> inputs.sentiment.Some?) && (Risk in n <==> inputs.risk.Some?)
            && (Technical in n ==> n[Technical] == Within(inputs.technical.value))
            && (Fundamental in n ==> n[Fundamental] == Within((inputs.fundamental.value - 50.0) / 50.0))
            && (Sentiment in n ==> n[Sentiment] == Within(inputs.sentiment.value))
            && (Risk in n ==> n[Risk] == Within((50.0 - inputs.risk.value) / 50.0))
  {
  }

  // The nearest value in [-1, 1].
  ghost function Within(x: real): real {
    if x < -1.0 then -1.0 else if 1.0 < x then 1.0 else x
  }

  function BaseWeights(normalized: map<Engine, real>): map<Engine, real> {
    map e | e in normalized :: BaseWeight(e)
  }

  // The base weights of the engines present, scaled to sum to 1.
  function Renormalized(normalized: map<Engine, real>, total: real): map<Engine, real>
    requires total != 0.0
  {
    map e | e in normalized :: BaseWeight(e) / total
  }

  // The share the AI score gets; zero in shadow mode or without a score.
  function AiWeight(configured: real, shadow: bool, ai: Option<real>): real {
    if shadow || ai.None? then 0.0 else Clamp(configured, 0.0, MAX_AI_WEIGHT)
  }

  lemma AiWeightMeans(configured: real, shadow: bool, ai: Option<real>)
    ensures var w := AiWeight(configured, shadow, ai);
            && (shadow || ai == None || configured <= 0.0 ==> w == 0.0)
            && (!shadow && ai.Some? && 0.0 <= configured <= 0.30 ==> w == configured)
            && (!shadow && ai.Some? && 0.30 <= configured ==> w == 0.30)
  {
  }

  function Scaled(weights: map<Engine, real>, k: real): map<Engine, real> {
    map e | e in weights :: Times(weights[e], k)
  }

  function Terms(weights: map<Engine, real>, normalized: map<Engine, real>): map<Engine, real>
    requires normalized.Keys <= weights.Keys
  {
    map e | e in normalized :: Times(normalized[e], weights[e])
  }

  ghost function TotalBase(normalized: map<Engine, real>): real {
    SumOver(normalized.Keys, BaseWeights(normalized))
  }

  // The deterministic composite.
  ghost function Deterministic(normalized: map<Engine, real>): real
    requires TotalBase(normalized) != 0.0
  {
    SumOver(normalized.Keys, Terms(Renormalized(normalized, TotalBase(normalized)), normalized))
  }

  // What the AI score makes of it.
  function Blended(deterministic: real, w: real, ai: real): real {
    Times(1.0 - w, deterministic) + Times(w, ai)
  }

  ghost function Composite(normalized: map<Engine, real>, w: real, ai: Option<real>): real
    requires TotalBase(normalized) != 0.0
  {
    Blended(Deterministic(normalized), w, Clamp(ai.GetOr(0.0), -1.0, 1.0))
  }

  // ---------------------------------------------------------------- weights

  lemma {:induction false} PositiveSum(s: set<Engine>, f: map<Engine, real>)
    requires s <= f.Keys && forall e :: e in s ==> f[e] > 0.0
    ensures SumOver(s, f) >= 0.0 && (s != {} ==> SumOver(s, f) > 0.0)
    decreases |s|
  {
    if e :| e in s {
      SumTakeOut(s, f, e);
      PositiveSum(s - {e}, f);
    }
  }

  lemma TotalBasePositive(normalized: map<Engine, real>)
    requires normalized != map[]
    ensures TotalBase(normalized) > 0.0
  {
    assert normalized.Keys != {};
    PositiveSum(normalized.Keys, BaseWeights(normalized));
  }

  lemma OneOver(x: real, d: real)
    requires d > 0.0
    ensures x / d == Times(x, 1.0 / d)
    ensures Times(d, 1.0 / d) == 1.0
  {
  }

  lemma RenormalizedSum(normalized: map<Engine, real>)
    requires normalized != map[]
    ensures TotalBase(normalized) > 0.0
    ensures SumOver(normalized.Keys, Renormalized(normalized, TotalBase(normalized))) == 1.0
  {
    TotalBasePositive(normalized);
    var d := TotalBase(normalized);
    var weights := Renormalized(normalized, d);
    forall e | e in normalized.Keys ensures weights[e] == Times(BaseWeights(normalized)[e], 1.0 / d) {
      OneOver(BaseWeight(e), d);
    }
    SumTimes(normalized.Keys, BaseWeights(normalized), weights, 1.0 / d);
    OneOver(d, d);
  }

  // With or without the AI share, the weights used sum to 1.
  lemma WeightsSumToOne(normalized: map<Engine, real>, w: real)
    requires normalized != map[]
    ensures TotalBase(normalized) > 0.0
    ensures SumOver(normalized.Keys, Scaled(Renormalized(normalized, TotalBase(normalized)), 1.0 - w)) + w == 1.0
  {
    RenormalizedSum(normalized);
    var weights := Renormalized(normalized, TotalBase(normalized));
    SumTimes(normalized.Keys, weights, Scaled(weights, 1.0 - w), 1.0 - w);
    OneTimes(1.0 - w);
  }

  lemma OneTimes(x: real)
    ensures Times(1.0, x) == x && Times(x, 1.0) == x && Times(0.0, x) == 0.0 && Times(x, 0.0) == 0.0
  {
  }

  // ---------------------------------------------------------------- the composite

  lemma {:induction false} AverageBounds(s: set<Engine>, weights: map<Engine, real>, normalized: map<Engine, real>,
                                         lo: real, hi: real)
    requires s <= normalized.Keys <= weights.Keys
    requires forall e :: e in s ==> weights[e] >= 0.0 && lo <= normalized[e] <= hi
    ensures Times(lo, SumOver(s, weights)) <= SumOver(s, Terms(weights, normalized)) <= Times(hi, SumOver(s, weights))
    decreases |s|
  {
    if s == {} {
      SumEmpty(weights);
      SumEmpty(Terms(weights, normalized));
      OneTimes(lo);
      OneTimes(hi);
    } else {
      hide Times;
      var e :| e in s;
      SumTakeOut(s, weights, e);
      SumTakeOut(s, Terms(weights, normalized), e);
      AverageBounds(s - {e}, weights, normalized, lo, hi);
      TimesMonotone(lo, normalized[e], weights[e]);
      TimesMonotone(normalized[e], hi, weights[e]);
      TimesAdd(lo, weights[e], SumOver(s - {e}, weights));
      TimesAdd(hi, weights[e], SumOver(s - {e}, weights));
    }
  }

  lemma TimesMonotone(a: real, b: real, k: real)
    requires a <= b && k >= 0.0
    ensures Times(a, k) <= Times(b, k)
  {
  }

  lemma TimesAdd(k: real, a: real, b: real)
    ensures Times(k, a + b) == Times(k, a) + Times(k, b)
  {
  }

  lemma QuotientNonnegative(a: real, d: real)
    requires a >= 0.0 && d > 0.0
    ensures a / d >= 0.0
  {
  }

  lemma DeterministicBetween(normalized: map<Engine, real>, lo: real, hi: real)
    requires normalized != map[] && forall e :: e in normalized ==> lo <= normalized[e] <= hi
    ensures TotalBase(normalized) > 0.0 && lo <= Deterministic(normalized) <= hi
  {
    RenormalizedSum(normalized);
    var weights := Renormalized(normalized, TotalBase(normalized));
    forall e | e in normalized ensures weights[e] >= 0.0 {
      QuotientNonnegative(BaseWeight(e), TotalBase(normalized));
    }
    AverageBounds(normalized.Keys, weights, normalized, lo, hi);
    OneTimes(lo);
    OneTimes(hi);
  }

  lemma SumOfFour(f: map<Engine, real>)
    requires {Technical, Fundamental, Sentiment, Risk} <= f.Keys
    ensures SumOver({Technical, Fundamental, Sentiment, Risk}, f)
         == f[Technical] + f[Fundamental] + f[Sentiment] + f[Risk]
  {
    var all := {Technical, Fundamental, Sentiment, Risk};
    SumTakeOut(all, f, Technical);
    SumTakeOut(all - {Technical}, f, Fundamental);
    SumTakeOut(all - {Technical} - {Fundamental}, f, Sentiment);
    SumTakeOut(all - {Technical} - {Fundamental} - {Sentiment}, f, Risk);
    assert all - {Technical} - {Fundamental} - {Sentiment} - {Risk} == {};
  }

  // With all four engines present the base weights are used as they are.
  lemma FullDeterministic(normalized: map<Engine, real>)
    requires normalized.Keys == {Technical, Fundamental, Sentiment, Risk}
    ensures TotalBase(normalized) == 1.0
    ensures Deterministic(normalized) == 0.40 * normalized[Technical] + 0.25 * normalized[Fundamental]
                                         + 0.20 * normalized[Sentiment] + 0.15 * normalized[Risk]
  {
    SumOfFour(BaseWeights(normalized));
    var terms := Terms(Renormalized(normalized, 1.0), normalized);
    SumOfFour(terms);
    assert Deterministic(normalized) == SumOver(normalized.Keys, terms);
  }

  lemma BlendedBetween(deterministic: real, w: real, ai: real, lo: real, hi: real)
    requires 0.0 <= w <= 1.0 && lo <= deterministic <= hi && lo <= ai <= hi
    ensures lo <= Blended(deterministic, w, ai) <= hi
  {
    TimesMonotone(lo, deterministic, 1.0 - w);
    TimesMonotone(deterministic, hi, 1.0 - w);
    TimesMonotone(lo, ai, w);
    TimesMonotone(ai, hi, w);
    assert Times(lo, 1.0 - w) + Times(lo, w) == lo;
    assert Times(hi, 1.0 - w) + Times(hi, w) == hi;
    assert Times(deterministic, 1.0 - w) == Times(1.0 - w, deterministic) && Times(ai, w) == Times(w, ai);
  }

  // The composite lies between the least and the greatest input used: the
  // signals, and the AI score where it has a share.
  lemma CompositeBetween(normalized: map<Engine, real>, w: real, ai: Option<real>, lo: real, hi: real)
    requires normalized != map[] && 0.0 <= w <= 1.0
    requires forall e :: e in normalized ==> lo <= normalized[e] <= hi
    requires w > 0.0 ==> lo <= Clamp(ai.GetOr(0.0), -1.0, 1.0) <= hi
    ensures TotalBase(normalized) > 0.0 && lo <= Composite(normalized, w, ai) <= hi
  {
    DeterministicBetween(normalized, lo, hi);
    if w > 0.0 {
      BlendedBetween(Deterministic(normalized), w, Clamp(ai.GetOr(0.0), -1.0, 1.0), lo, hi);
    } else {
      OneTimes(Deterministic(normalized));
      OneTimes(Clamp(ai.GetOr(0.0), -1.0, 1.0));
    }
  }

  // ---------------------------------------------------------------- the action

  datatype Advice = StrongSell | Sell | Hold | Buy | StrongBuy

  function ActionFor(composite: real): Advice {
    if composite > 0.6 then StrongBuy
    else if composite > 0.3 then Buy
    else if composite >= -0.3 then Hold
    else if composite >= -0.6 then Sell
    else StrongSell
  }

  lemma ActionBands(composite: real)
    ensures ActionFor(composite) == StrongBuy <==> 0.6 < composite
    ensures ActionFor(composite) == Buy <==> 0.3 < composite <= 0.6
    ensures ActionFor(composite) == Hold <==> -0.3 <= composite <= 0.3
    ensures ActionFor(composite) == Sell <==> -0.6 <= composite < -0.3
    ensures ActionFor(composite) == StrongSell <==> composite < -0.6
  {
  }

  predicate BuySide(a: Advice) {
    a.Buy? || a.StrongBuy?
  }

  predicate SellSide(a: Advice) {
    a.Sell? || a.StrongSell?
  }

  // The score of an AI share w that pulls a deterministic buy to a sell.
  ghost predicate Flips(w: real, deterministic: real, ai: real) {
    && -1.0 <= deterministic <= 1.0 && -1.0 <= ai <= 1.0
    && (|| (BuySide(ActionFor(deterministic)) && SellSide(ActionFor(Blended(deterministic, w, ai))))
        || (SellSide(ActionFor(deterministic)) && BuySide(ActionFor(Blended(deterministic, w, ai)))))
  }

  lemma BlendBuyFloor(deterministic: real, w: real, ai: real)
    requires 0.0 <= w <= 1.0 && deterministic > 0.3 && ai >= -1.0
    ensures Blended(deterministic, w, ai) >= 0.3 - 1.3 * w
  {
    TimesMonotone(0.3, deterministic, 1.0 - w);
    TimesMonotone(-1.0, ai, w);
    assert Times(deterministic, 1.0 - w) == Times(1.0 - w, deterministic) && Times(ai, w) == Times(w, ai);
  }

  lemma BlendSellCeiling(deterministic: real, w: real, ai: real)
    requires 0.0 <= w <= 1.0 && deterministic < -0.3 && ai <= 1.0
    ensures Blended(deterministic, w, ai) <= 1.3 * w - 0.3
  {
    TimesMonotone(deterministic, -0.3, 1.0 - w);
    TimesMonotone(ai, 1.0, w);
    assert Times(deterministic, 1.0 - w) == Times(1.0 - w, deterministic) && Times(ai, w) == Times(w, ai);
  }

  // A share w can turn some buy into a sell, or the reverse, exactly when it
  // exceeds 6/13; the cap of 0.30 is well below.
  lemma FlipPossibleIff(w: real)
    requires 0.0 <= w <= 1.0
    ensures (exists deterministic: real, ai: real :: Flips(w, deterministic, ai)) <==> 13.0 * w > 6.0
  {
    if 13.0 * w > 6.0 {
      FlipWitness(w);
    } else {
      forall deterministic: real, ai: real ensures !Flips(w, deterministic, ai) {
        if -1.0 <= ai <= 1.0 {
          if deterministic > 0.3 {
            BlendBuyFloor(deterministic, w, ai);
          }
          if deterministic < -0.3 {
            BlendSellCeiling(deterministic, w, ai);
          }
        }
      }
    }
  }

  lemma FlipWitness(w: real)
    requires 13.0 * w > 6.0 && w <= 1.0
    ensures Flips(w, 0.3 + (13.0 * w - 6.0) / 20.0, -1.0)
  {
    var above := (13.0 * w - 6.0) / 20.0;
    var d := 0.3 + above;
    assert 0.0 < above <= 0.35;
    BlendedWitness(w, above);
    assert SellSide(ActionFor(Blended(d, w, -1.0))) && BuySide(ActionFor(d));
  }

  lemma BlendedWitness(w: real, above: real)
    requires 13.0 * w > 6.0 && w <= 1.0 && above == (13.0 * w - 6.0) / 20.0
    ensures Blended(0.3 + above, w, -1.0) < -0.3
  {
    assert Blended(0.3 + above, w, -1.0) == 0.3 - 1.3 * w + Times(1.0 - w, above);
    TimesMonotone(1.0 - w, 7.0 / 13.0, above);
    assert Times(7.0 / 13.0, above) == (7.0 / 13.0) * above;
  }

  // At the configured cap the AI score never turns a buy-side action into a
  // sell-side one or the reverse.
  lemma AiNeverFlips(normalized: map<Engine, real>, configured: real, shadow: bool, ai: Option<real>)
    requires normalized != map[] && Signals(normalized)
    ensures TotalBase(normalized) > 0.0
    ensures var w := AiWeight(configured, shadow, ai);
            var alone, blended := ActionFor(Deterministic(normalized)), ActionFor(Composite(normalized, w, ai));
            !(BuySide(alone) && SellSide(blended)) && !(SellSide(alone) && BuySide(blended))
  {
    DeterministicBetween(normalized, -1.0, 1.0);
    var w := AiWeight(configured, shadow, ai);
    var score := Clamp(ai.GetOr(0.0), -1.0, 1.0);
    FlipPossibleIff(w);
    assert !Flips(w, Deterministic(normalized), score);
  }

  // ---------------------------------------------------------------- confidence

  datatype Staleness = Fresh | Aging | Stale | Suppressed

  datatype Bands = Bands(freshHours: real, agingHours: real, staleHours: real)

  // Ages in seconds; a timestamp in the future is fresh.
  function ClassifyAge(bands: Bands, age: int): Staleness {
    var hours := age as real / 3600.0;
    if hours < 0.0 || hours < bands.freshHours then Fresh
    else if hours < bands.agingHours then Aging
    else if hours < bands.staleHours then Stale
    else Suppressed
  }

  function Reduced(confidence: real, level: Staleness): real {
    if level == Suppressed then 0.0
    else Clamp(confidence - (match level case Aging => 5.0 case Stale => 15.0 case _ => 0.0), 0.0, 100.0)
  }

  // The bands of age, and what each costs in confidence.
  lemma StalenessMeans(bands: Bands, age: int, confidence: real)
    requires 0.0 <= bands.freshHours <= bands.agingHours <= bands.staleHours && 0.0 <= confidence <= 100.0
    ensures var hours := age as real / 3600.0;
            && (ClassifyAge(bands, age) == Fresh <==> hours < bands.freshHours || age < 0)
            && (ClassifyAge(bands, age) == Aging <==> age >= 0 && bands.freshHours <= hours < bands.agingHours)
            && (ClassifyAge(bands, age) == Stale <==> age >= 0 && bands.agingHours <= hours < bands.staleHours)
            && (ClassifyAge(bands, age) == Suppressed <==> age >= 0 && bands.staleHours <= hours)
    ensures Reduced(confidence, Fresh) == confidence && Reduced(confidence, Suppressed) == 0.0
    ensures Reduced(confidence, Aging) == if confidence < 5.0 then 0.0 else confidence - 5.0
    ensures Reduced(confidence, Stale) == if confidence < 15.0 then 0.0 else confidence - 15.0
  {
  }

  function Distance(x: real, y: real): (d: real)
    ensures d >= x - y && d >= y - x && (d == x - y || d == y - x)
  {
    if x < y then y - x else x - y
  }

  function Deviations(normalized: map<Engine, real>, composite: real): map<Engine, real> {
    map e | e in normalized :: Distance(normalized[e], composite)
  }

  ghost function Confidence(normalized: map<Engine, real>, composite: real, level: Staleness): real
    requires normalized != map[]
  {
    var deviation := SumOver(normalized.Keys, Deviations(normalized, composite)) / |normalized| as real;
    Reduced(100.0 * (1.0 - if deviation > 1.0 then 1.0 else deviation), level)
  }

  // Confidence is a percentage; it is full exactly when fresh engines all agree
  // with the composite.
  lemma ConfidenceMeaning(normalized: map<Engine, real>, composite: real, level: Staleness)
    requires normalized != map[]
    ensures 0.0 <= Confidence(normalized, composite, level) <= 100.0
    ensures Confidence(normalized, composite, level) == 100.0 <==>
            level == Fresh && forall e :: e in normalized ==> normalized[e] == composite
  {
    var f := Deviations(normalized, composite);
    SumSubset({}, normalized.Keys, f);
    SumEmpty(f);
    if forall e :: e in normalized ==> normalized[e] == composite {
      SumTimes(normalized.Keys, f, f, 0.0);
      OneTimes(SumOver(normalized.Keys, f));
    } else {
      var e :| e in normalized && normalized[e] != composite;
      SumTakeOut(normalized.Keys, f, e);
      SumSubset({}, normalized.Keys - {e}, f);
    }
    QuotientSign(SumOver(normalized.Keys, f), |normalized| as real);
  }

  // Engines that all lie d from the composite cost d of the full confidence,
  // however many they are.
  lemma EvenDeviation(normalized: map<Engine, real>, composite: real, level: Staleness, d: real)
    requires normalized != map[] && 0.0 <= d <= 1.0
    requires forall e :: e in normalized ==> normalized[e] == composite + d || normalized[e] == composite - d
    ensures Confidence(normalized, composite, level) == Reduced(100.0 * (1.0 - d), level)
  {
    hide SumOver, Reduced, Times;
    SumOfSame(normalized.Keys, Deviations(normalized, composite), d);
    assert |normalized.Keys| == |normalized|;
    MeanOfSame(|normalized| as real, d);
  }

  lemma MeanOfSame(n: real, d: real)
    requires n > 0.0
    ensures Times(n, d) / n == d
  {
  }

  lemma {:induction false} SumOfSame(s: set<Engine>, f: map<Engine, real>, d: real)
    requires s <= f.Keys && forall e :: e in s ==> f[e] == d
    ensures SumOver(s, f) == Times(|s| as real, d)
    decreases |s|
  {
    if s == {} {
      SumEmpty(f);
    } else {
      var e :| e in s;
      SumTakeOut(s, f, e);
      SumOfSame(s - {e}, f, d);
    }
  }

  lemma QuotientSign(a: real, d: real)
    requires a >= 0.0 && d > 0.0
    ensures a / d >= 0.0 && (a / d == 0.0 <==> a == 0.0)
  {
  }

  // ---------------------------------------------------------------- the code

  datatype Response =
    | NoEngineData
    | TooStale
    | Recommendation(action: Advice, confidence: real, composite: real, aiBlended: bool)

  // The oldest timestamp among the engines with a signal.
  ghost predicate IsOldest(normalized: map<Engine, real>, computedAt: map<Engine, int>, now: int, oldest: int) {
    if normalized.Keys * computedAt.Keys == {} then oldest == now
    else
      && (exists e :: e in normalized && e in computedAt && computedAt[e] == oldest)
      && (forall e :: e in normalized && e in computedAt ==> oldest <= computedAt[e])
  }

  method Oldest(normalized: map<Engine, real>, computedAt: map<Engine, int>, now: int) returns (oldest: int)
    ensures IsOldest(normalized, computedAt, now, oldest)
  {
    var todo := normalized.Keys * computedAt.Keys;
    if todo == {} {
      return now;
    }
    var first :| first in todo;
    oldest := computedAt[first];
    while todo != {}
      invariant todo <= normalized.Keys * computedAt.Keys
      invariant exists e :: e in normalized && e in computedAt && computedAt[e] == oldest
      invariant forall e :: e in normalized && e in computedAt && e !in todo ==> oldest <= computedAt[e]
      decreases |todo|
    {
      var e :| e in todo;
      todo := todo - {e};
      if computedAt[e] < oldest {
        oldest := computedAt[e];
      }
    }
  }

  // The staleness of the oldest engine used.
  ghost predicate HasLevel(normalized: map<Engine, real>, computedAt: map<Engine, int>, now: int, bands: Bands,
                           level: Staleness) {
    exists oldest :: IsOldest(normalized, computedAt, now, oldest) && ClassifyAge(bands, now - oldest) == level
  }

  lemma OneLevel(normalized: map<Engine, real>, computedAt: map<Engine, int>, now: int, bands: Bands, oldest: int)
    requires IsOldest(normalized, computedAt, now, oldest)
    ensures forall level ::
              HasLevel(normalized, computedAt, now, bands, level) <==> level == ClassifyAge(bands, now - oldest)
  {
    hide ClassifyAge;
  }

  method Synthesize(inputs: Inputs, computedAt: map<Engine, int>, now: int, bands: Bands, ai: Option<real>,
                    configured: real, shadow: bool) returns (r: Response)
    ensures var n := Normalize(inputs);
            && (r.NoEngineData? <==> n == map[])
            && (r.TooStale? <==> n != map[] && HasLevel(n, computedAt, now, bands, Suppressed))
            && (r.Recommendation? ==>
                  var w := AiWeight(configured, shadow, ai);
                  && TotalBase(n) > 0.0
                  && r.composite == Composite(n, w, ai) && -1.0 <= r.composite <= 1.0
                  && r.action == ActionFor(r.composite) && r.aiBlended == (w > 0.0)
                  && forall level :: HasLevel(n, computedAt, now, bands, level) ==>
                       r.confidence == Confidence(n, r.composite, level))
  {
    hide *;
    var normalized := Normalize(inputs);
    NormalizeSignals(inputs);
    if normalized == map[] {
      return NoEngineData;
    }
    var oldest := Oldest(normalized, computedAt, now);
    var level := ClassifyAge(bands, now - oldest);
    OneLevel(normalized, computedAt, now, bands, oldest);
    if level == Suppressed {
      return TooStale;
    }
    var w := AiWeight(configured, shadow, ai);
    var composite := WeightedComposite(normalized, w, ai);
    CompositeWithin(normalized, configured, shadow, ai);
    composite := Clamp(composite, -1.0, 1.0);
    var confidence := ComputeConfidence(normalized, composite, level);
    return Recommendation(ActionFor(composite), confidence, composite, w > 0.0);
  }

  lemma CompositeWithin(normalized: map<Engine, real>, configured: real, shadow: bool, ai: Option<real>)
    requires normalized != map[] && Signals(normalized)
    ensures var w := AiWeight(configured, shadow, ai);
            && TotalBase(normalized) > 0.0 && -1.0 <= Composite(normalized, w, ai) <= 1.0
            && Clamp(Composite(normalized, w, ai), -1.0, 1.0) == Composite(normalized, w, ai)
  {
    CompositeBetween(normalized, AiWeight(configured, shadow, ai), ai, -1.0, 1.0);
  }

  method ComputeConfidence(normalized: map<Engine, real>, composite: real, level: Staleness) returns (confidence: real)
    requires normalized != map[]
    ensures confidence == Confidence(normalized, composite, level)
  {
    var sum := SumValues(Deviations(normalized, composite));
    assert Deviations(normalized, composite).Keys == normalized.Keys;
    var deviation := sum / |normalized| as real;
    SumSubset({}, normalized.Keys, Deviations(normalized, composite));
    SumEmpty(Deviations(normalized, composite));
    QuotientSign(sum, |normalized| as real);
    confidence := Reduced(Clamp(100.0 * (1.0 - if deviation > 1.0 then 1.0 else deviation), 0.0, 100.0), level);
  }

  // The renormalised, scaled and blended sum.
  method WeightedComposite(normalized: map<Engine, real>, w: real, ai: Option<real>) returns (composite: real)
    requires normalized != map[]
    ensures TotalBase(normalized) > 0.0 && composite == Composite(normalized, w, ai)
  {
    TotalBasePositive(normalized);
    assert BaseWeights(normalized).Keys == normalized.Keys;
    var total := SumValues(BaseWeights(normalized));
    var weights := Renormalized(normalized, total);
    var scaled := Scaled(weights, 1.0 - w);
    assert Terms(scaled, normalized).Keys == normalized.Keys;
    composite := SumValues(Terms(scaled, normalized));
    ScaledComposite(normalized, w);
    composite := composite + Times(w, Clamp(ai.GetOr(0.0), -1.0, 1.0));
  }

  lemma ScaledComposite(normalized: map<Engine, real>, w: real)
    requires TotalBase(normalized) != 0.0
    ensures SumOver(normalized.Keys,
                    Terms(Scaled(Renormalized(normalized, TotalBase(normalized)), 1.0 - w), normalized))
         == Times(1.0 - w, Deterministic(normalized))
  {
    var weights := Renormalized(normalized, TotalBase(normalized));
    var plain, scaled := Terms(weights, normalized), Terms(Scaled(weights, 1.0 - w), normalized);
    forall e | e in normalized.Keys ensures scaled[e] == Times(plain[e], 1.0 - w) {
      TimesAssoc(normalized[e], weights[e], 1.0 - w);
    }
    hide Times, SumOver;
    SumTimes(normalized.Keys, plain, scaled, 1.0 - w);
    TimesCommutes(Deterministic(normalized), 1.0 - w);
  }

  lemma TimesAssoc(a: real, b: real, c: real)
    ensures Times(a, Times(b, c)) == Times(Times(a, b), c)
  {
  }

  lemma TimesCommutes(a: real, b: real)
    ensures Times(a, b) == Times(b, a)
  {
  }
}
