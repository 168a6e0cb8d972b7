// Benchmark returns in the user's currency, by two independent formulas.
module Benchmarks {
  import opened Wrappers
  import opened Grouping

  datatype Market = IN | US | OTHER

  function UpperChar(c: char): char {
    if 'a' <= c <= 'z' then (c as int - 32) as char else c
  }

  function Upper(s: string): string {
    seq(|s|, i requires 0 <= i < |s| => UpperChar(s[i]))
  }

  function MarketForExchange(exchange: Option<string>): Market {
    if exchange.None? || exchange.value == "" then OTHER
    else
      var code := Upper(exchange.value);
      if code in {"NSE", "BSE"} then IN
      else if code in {"NASDAQ", "NYSE", "AMEX", "ARCA", "BATS"} then US
      else OTHER
  }

  // benchmark_for_venue: the market whose index stands for the venue.
  function VenueMarket(venue: string): (m: Option<Market>)
    ensures m != Some(OTHER)
  {
    var code := Upper(venue);
    if code == "XNSE" || code == "XBOM" then Some(IN)
    else if code == "XNAS" || code == "XNYS" then Some(US)
    else None
  }

  // Letters of either case name the same venue.
  lemma UpperIs(s: string, i: nat)
    requires i < |s|
    ensures |Upper(s)| == |s|
    ensures 'a' <= s[i] <= 'z' ==>
              'A' <= Upper(s)[i] <= 'Z'
              && Upper(s)[i] as int - 'A' as int == s[i] as int - 'a' as int
    ensures !('a' <= s[i] <= 'z') ==> Upper(s)[i] == s[i]
  {
  }

  // The tables of exchanges and venues.
  lemma MarketTables(code: string)
    ensures MarketForExchange(None) == OTHER
    ensures MarketForExchange(Some(code)) == IN <==> Upper(code) in {"NSE", "BSE"}
    ensures MarketForExchange(Some(code)) == US <==> Upper(code) in {"NASDAQ", "NYSE", "AMEX", "ARCA", "BATS"}
    ensures VenueMarket(code) == Some(IN) <==> Upper(code) in {"XNSE", "XBOM"}
    ensures VenueMarket(code) == Some(US) <==> Upper(code) in {"XNAS", "XNYS"}
  {
  }

  // A stored daily rate: one unit of the first currency in the second.
  type Rates = (string, string, int) -> Option<real>

  // The direct pair, or the inverse of the inverse pair.
  function GetRate(rates: Rates, base: string, quote: string, at: int): Option<real> {
    if base == quote then Some(1.0)
    else if rates(base, quote, at).Some? then rates(base, quote, at)
    else
      var inverse := rates(quote, base, at);
      if inverse.Some? && inverse.value != 0.0 then Some(1.0 / inverse.value) else None
  }

  // A currency has rate 1 to itself. Otherwise the stored pair counts, and without
  // it the one number that the stored inverse times gives 1.
  lemma RateMeans(rates: Rates, base: string, quote: string, at: int)
    ensures base == quote ==> GetRate(rates, base, quote, at) == Some(1.0)
    ensures base != quote && rates(base, quote, at).Some? ==> GetRate(rates, base, quote, at) == rates(base, quote, at)
    ensures base != quote && rates(base, quote, at).None? ==>
              var r, inverse := GetRate(rates, base, quote, at), rates(quote, base, at);
              && (r.Some? <==> inverse.Some? && inverse.value != 0.0)
              && (r.Some? ==> r.value * inverse.value == 1.0)
  {
  }

  datatype Observation = Observation(currency: string, periodStart: int, periodEnd: int, closeStart: Option<real>,
                                     closeEnd: Option<real>, totalReturn: real, stale: bool)

  // get_return: from the closes fetched, or a zero placeholder.
  function Observe(currency: string, periodStart: int, periodEnd: int, closes: Option<(real, real)>): Observation {
    if closes.None? then Observation(currency, periodStart, periodEnd, None, None, 0.0, true)
    else
      var (first, last) := closes.value;
      Observation(currency, periodStart, periodEnd, Some(first), Some(last),
                  if first > 0.0 then last / first - 1.0 else 0.0, false)
  }

  // The observation is what get_return produces.
  ghost predicate Observed(obs: Observation) {
    obs == Observe(obs.currency, obs.periodStart, obs.periodEnd,
                   if obs.closeStart.Some? && obs.closeEnd.Some?
                   then Some((obs.closeStart.value, obs.closeEnd.value)) else None)
  }

  // ---------------------------------------------------------------- one index

  // The intelligence engine: no change when a rate is missing.
  function FxChange(rates: Rates, base: string, obs: Observation): real {
    if obs.currency == base then 0.0
    else
      var start := GetRate(rates, obs.currency, base, obs.periodStart);
      var end := GetRate(rates, obs.currency, base, obs.periodEnd);
      if start.None? || end.None? || start.value <= 0.0 then 0.0 else end.value / start.value - 1.0
  }

  // The return of an index and of its currency, one after the other.
  function Compounded(index: real, currency: real): real {
    (1.0 + index) * (1.0 + currency) - 1.0
  }

  function EngineReturn(rates: Rates, base: string, obs: Observation): real {
    Compounded(obs.totalReturn, FxChange(rates, base, obs))
  }

  datatype FxError = RateNotFound

  // The return of the two closes, each converted at its own rate.
  function ConvertedReturn(first: real, last: real, start: real, end: real): real {
    var startBase, endBase := first * start, last * end;
    if startBase <= 0.0 then 0.0 else endBase / startBase - 1.0
  }

  // The benchmark service: an error when a rate is missing.
  function ServiceReturn(rates: Rates, base: string, obs: Observation): Result<real, FxError> {
    if obs.stale || obs.closeStart.None? || obs.closeEnd.None? || obs.currency == base then Ok(obs.totalReturn)
    else
      var end := GetRate(rates, obs.currency, base, obs.periodEnd);
      var start := GetRate(rates, obs.currency, base, obs.periodStart);
      if end.None? || start.None? then Err(RateNotFound)
      else Ok(ConvertedReturn(obs.closeStart.value, obs.closeEnd.value, start.value, end.value))
  }

  // What one unit of the base currency, put into the index and back, has gained.
  lemma ServiceMeans(rates: Rates, base: string, obs: Observation)
    ensures obs.stale || obs.currency == base ==> ServiceReturn(rates, base, obs) == Ok(obs.totalReturn)
    ensures !obs.stale && obs.currency != base && obs.closeStart.Some? && obs.closeEnd.Some? ==>
              var start := GetRate(rates, obs.currency, base, obs.periodStart);
              var end := GetRate(rates, obs.currency, base, obs.periodEnd);
              && (ServiceReturn(rates, base, obs).Err? <==> start.None? || end.None?)
              && (start.Some? && end.Some? && obs.closeStart.value * start.value > 0.0 ==>
                    ServiceReturn(rates, base, obs)
                    == Ok((obs.closeEnd.value * end.value) / (obs.closeStart.value * start.value) - 1.0))
  {
  }

  // The engine's: the index's return, compounded with its currency's.
  lemma EngineMeans(rates: Rates, base: string, obs: Observation)
    ensures var start := GetRate(rates, obs.currency, base, obs.periodStart);
            var end := GetRate(rates, obs.currency, base, obs.periodEnd);
            EngineReturn(rates, base, obs)
            == if obs.currency != base && start.Some? && end.Some? && start.value > 0.0
               then (1.0 + obs.totalReturn) * (end.value / start.value) - 1.0
               else obs.totalReturn
  {
  }

  // The return of the closes fetched, or a stale zero.
  lemma ObserveMeans(currency: string, periodStart: int, periodEnd: int, first: real, last: real)
    ensures Observe(currency, periodStart, periodEnd, None)
         == Observation(currency, periodStart, periodEnd, None, None, 0.0, true)
    ensures var obs := Observe(currency, periodStart, periodEnd, Some((first, last)));
            obs == Observation(currency, periodStart, periodEnd, Some(first), Some(last), obs.totalReturn, false)
            && obs.totalReturn == if first > 0.0 then last / first - 1.0 else 0.0
  {
  }

  // Both ends of the period have a rate, and the first is positive.
  ghost predicate Convertible(rates: Rates, base: string, obs: Observation) {
    obs.currency == base
    || (&& GetRate(rates, obs.currency, base, obs.periodStart).Some?
        && GetRate(rates, obs.currency, base, obs.periodEnd).Some?
        && GetRate(rates, obs.currency, base, obs.periodStart).value > 0.0)
  }

  lemma CompoundedIs(first: real, last: real, start: real, end: real, index: real, currency: real)
    requires first > 0.0 && start > 0.0 && index == last / first - 1.0 && currency == end / start - 1.0
    ensures Compounded(index, currency) == ConvertedReturn(first, last, start, end)
  {
  }

  lemma HomeReturn(rates: Rates, base: string, obs: Observation)
    requires obs.currency == base
    ensures ServiceReturn(rates, base, obs) == Ok(EngineReturn(rates, base, obs)) && FxChange(rates, base, obs) == 0.0
  {
  }

  lemma FreshReturn(rates: Rates, base: string, obs: Observation)
    requires Observed(obs) && Convertible(rates, base, obs) && obs.currency != base
    requires !obs.stale && obs.closeStart.value > 0.0
    ensures ServiceReturn(rates, base, obs) == Ok(EngineReturn(rates, base, obs))
  {
    hide GetRate, Compounded, ConvertedReturn;
    CompoundedIs(obs.closeStart.value, obs.closeEnd.value, GetRate(rates, obs.currency, base, obs.periodStart).value,
                 GetRate(rates, obs.currency, base, obs.periodEnd).value, obs.totalReturn, FxChange(rates, base, obs));
  }

  lemma ZeroReturn(rates: Rates, base: string, obs: Observation)
    requires Observed(obs) && Convertible(rates, base, obs) && obs.currency != base
    requires obs.stale || obs.closeStart.value <= 0.0
    ensures ServiceReturn(rates, base, obs) == Ok(0.0) && EngineReturn(rates, base, obs) == FxChange(rates, base, obs)
  {
  }

  // Where rates exist, the two formulas agree on an index exactly when it has
  // fresh closes with a positive first one, or its currency did not move. (A
  // stale index is still moved by the currency in the one and not in the other.)
  lemma ConvertibleAgreeIff(rates: Rates, base: string, obs: Observation)
    requires Observed(obs) && Convertible(rates, base, obs)
    ensures ServiceReturn(rates, base, obs) == Ok(EngineReturn(rates, base, obs)) <==>
            (!obs.stale && obs.closeStart.value > 0.0) || FxChange(rates, base, obs) == 0.0
  {
    hide ServiceReturn, EngineReturn, FxChange;
    if obs.currency == base {
      HomeReturn(rates, base, obs);
    } else if !obs.stale && obs.closeStart.value > 0.0 {
      FreshReturn(rates, base, obs);
    } else {
      ZeroReturn(rates, base, obs);
    }
  }

  // A first rate that is not positive: the engine leaves the currency out.
  predicate AgreeAtBadRate(first: real, last: real, start: real, end: real) {
    if first > 0.0 then last == first else first * start == 0.0 || last * end == first * start
  }

  ghost predicate RatesExist(rates: Rates, base: string, obs: Observation) {
    && GetRate(rates, obs.currency, base, obs.periodStart).Some?
    && GetRate(rates, obs.currency, base, obs.periodEnd).Some?
  }

  // When the two formulas give one number, for any rates at all.
  ghost predicate FormulasAgree(rates: Rates, base: string, obs: Observation)
    requires Observed(obs)
  {
    if obs.currency == base then true
    else if obs.stale then FxChange(rates, base, obs) == 0.0
    else
      && RatesExist(rates, base, obs)
      && var start := GetRate(rates, obs.currency, base, obs.periodStart).value;
         if start > 0.0 then obs.closeStart.value > 0.0 || FxChange(rates, base, obs) == 0.0
         else AgreeAtBadRate(obs.closeStart.value, obs.closeEnd.value, start,
                             GetRate(rates, obs.currency, base, obs.periodEnd).value)
  }

  lemma BadRate(first: real, last: real, start: real, end: real, index: real)
    requires start <= 0.0 && index == if first > 0.0 then last / first - 1.0 else 0.0
    ensures ConvertedReturn(first, last, start, end) == index <==> AgreeAtBadRate(first, last, start, end)
  {
    Signs(first, start);
    if first > 0.0 {
      assert last / first == 1.0 <==> last == first;
    } else if first * start > 0.0 {
      assert (last * end) / (first * start) == 1.0 <==> last * end == first * start;
    }
  }

  lemma Signs(a: real, b: real)
    requires b <= 0.0
    ensures if a > 0.0 then a * b <= 0.0 else a * b >= 0.0
  {
  }

  lemma BadRateAgrees(rates: Rates, base: string, obs: Observation)
    requires Observed(obs) && obs.currency != base && !obs.stale && RatesExist(rates, base, obs)
    requires GetRate(rates, obs.currency, base, obs.periodStart).value <= 0.0
    ensures ServiceReturn(rates, base, obs) == Ok(EngineReturn(rates, base, obs)) <==> FormulasAgree(rates, base, obs)
  {
    assert EngineReturn(rates, base, obs) == obs.totalReturn;
    hide GetRate, EngineReturn, ConvertedReturn, AgreeAtBadRate, Compounded;
    BadRate(obs.closeStart.value, obs.closeEnd.value, GetRate(rates, obs.currency, base, obs.periodStart).value,
            GetRate(rates, obs.currency, base, obs.periodEnd).value, obs.totalReturn);
  }

  lemma StaleAgrees(rates: Rates, base: string, obs: Observation)
    requires Observed(obs) && obs.stale
    ensures ServiceReturn(rates, base, obs) == Ok(0.0) && EngineReturn(rates, base, obs) == FxChange(rates, base, obs)
  {
  }

  // For every observation and any rates, missing and nonpositive ones included.
  lemma FormulasAgreeIff(rates: Rates, base: string, obs: Observation)
    requires Observed(obs)
    ensures ServiceReturn(rates, base, obs) == Ok(EngineReturn(rates, base, obs)) <==> FormulasAgree(rates, base, obs)
  {
    if obs.currency == base {
      HomeReturn(rates, base, obs);
    } else if obs.stale {
      StaleAgrees(rates, base, obs);
      hide GetRate, EngineReturn, ServiceReturn, FxChange;
    } else if !RatesExist(rates, base, obs) {
      MissingRate(rates, base, obs);
    } else if GetRate(rates, obs.currency, base, obs.periodStart).value <= 0.0 {
      BadRateAgrees(rates, base, obs);
    } else {
      ConvertibleAgreeIff(rates, base, obs);
    }
  }

  // Without a rate the one formula goes on in the index's own currency and the
  // other fails.
  lemma MissingRate(rates: Rates, base: string, obs: Observation)
    requires Observed(obs) && !obs.stale && obs.currency != base
    requires || GetRate(rates, obs.currency, base, obs.periodStart).None?
             || GetRate(rates, obs.currency, base, obs.periodEnd).None?
    ensures EngineReturn(rates, base, obs) == obs.totalReturn && ServiceReturn(rates, base, obs) == Err(RateNotFound)
  {
  }

  // ---------------------------------------------------------------- the blends

  function BenchmarkOf(nifty: Observation, sp500: Observation, m: Market): Observation
    requires m != OTHER
  {
    if m == IN then nifty else sp500
  }

  // blended_portfolio_return over venue weights.
  ghost predicate AllConvert(weights: map<string, real>, rates: Rates, base: string, nifty: Observation,
                             sp500: Observation) {
    forall v :: v in weights && VenueMarket(v).Some? ==>
      ServiceReturn(rates, base, BenchmarkOf(nifty, sp500, VenueMarket(v).value)).Ok?
  }

  function VenueTerm(v: string, weight: real, rates: Rates, base: string, nifty: Observation,
                     sp500: Observation): real {
    if VenueMarket(v).None? then 0.0
    else
      var r := ServiceReturn(rates, base, BenchmarkOf(nifty, sp500, VenueMarket(v).value));
      if r.Ok? then Times(weight, r.value) else 0.0
  }

  function VenueTerms(weights: map<string, real>, rates: Rates, base: string, nifty: Observation, sp500: Observation)
    : map<string, real>
  {
    map v | v in weights :: VenueTerm(v, weights[v], rates, base, nifty, sp500)
  }

  method BlendedPortfolioReturn(weights: map<string, real>, rates: Rates, base: string,
                                nifty: Observation, sp500: Observation) returns (r: Result<real, FxError>)
    ensures r.Ok? <==> AllConvert(weights, rates, base, nifty, sp500)
    ensures r.Ok? ==> r.value == SumOver(weights.Keys, VenueTerms(weights, rates, base, nifty, sp500))
  {
    hide VenueMarket, ServiceReturn, SumOver;
    ghost var terms := VenueTerms(weights, rates, base, nifty, sp500);
    var todo, total := weights.Keys, 0.0;
    while todo != {}
      invariant todo <= weights.Keys
      invariant total + SumOver(todo, terms) == SumOver(weights.Keys, terms)
      invariant forall v :: v in weights && v !in todo && VenueMarket(v).Some? ==>
                  ServiceReturn(rates, base, BenchmarkOf(nifty, sp500, VenueMarket(v).value)).Ok?
      decreases |todo|
    {
      var venue :| venue in todo;
      SumTakeOut(todo, terms, venue);
      todo := todo - {venue};
      var mapping := VenueMarket(venue);
      if mapping.Some? {
        var baseReturn := ServiceReturn(rates, base, BenchmarkOf(nifty, sp500, mapping.value));
        if baseReturn.Err? {
          return Err(RateNotFound);
        }
        total := total + weights[venue] * baseReturn.value;
      }
    }
    SumEmpty(terms);
    return Ok(total);
  }

  function VenuesOf(weights: map<string, real>, m: Market): set<string> {
    set v | v in weights && VenueMarket(v) == Some(m)
  }

  ghost function MarketWeight(weights: map<string, real>, m: Market): real {
    SumOver(VenuesOf(weights, m), weights)
  }

  // The part of the total that a market's holdings make up, if positive.
  function Allocation(geo: map<Market, real>, total: real, m: Market): real
    requires total > 0.0
  {
    if m in geo && geo[m] > 0.0 then geo[m] / total else 0.0
  }

  function MarketTerm(geo: map<Market, real>, total: real, rates: Rates, base: string, m: Market,
                      obs: Observation): real
    requires total > 0.0
  {
    Times(Allocation(geo, total, m), EngineReturn(rates, base, obs))
  }

  // _blended_benchmark_return over geography weights.
  function EngineBlend(geo: map<Market, real>, total: real, rates: Rates, base: string, nifty: Observation,
                       sp500: Observation)
    : real
  {
    if total <= 0.0 then 0.0
    else MarketTerm(geo, total, rates, base, IN, nifty) + MarketTerm(geo, total, rates, base, US, sp500)
  }

  // Each benchmarked market's share of the total times its index's return; shares
  // that are not positive count as none.
  lemma EngineBlendMeans(geo: map<Market, real>, total: real, rates: Rates, base: string, nifty: Observation,
                         sp500: Observation)
    ensures total <= 0.0 ==> EngineBlend(geo, total, rates, base, nifty, sp500) == 0.0
    ensures total > 0.0 ==>
              EngineBlend(geo, total, rates, base, nifty, sp500)
              == (if IN in geo && geo[IN] > 0.0 then (geo[IN] / total) * EngineReturn(rates, base, nifty) else 0.0)
               + (if US in geo && geo[US] > 0.0 then (geo[US] / total) * EngineReturn(rates, base, sp500) else 0.0)
  {
    hide EngineReturn;
  }

  lemma MarketTermIs(geo: map<Market, real>, total: real, rates: Rates, base: string, m: Market, obs: Observation)
    requires total > 0.0
    ensures MarketTerm(geo, total, rates, base, m, obs)
         == if m in geo && geo[m] > 0.0 then Times(geo[m] / total, EngineReturn(rates, base, obs)) else 0.0
  {
  }

  method BlendedBenchmarkReturn(geo: map<Market, real>, total: real, rates: Rates, base: string,
                                nifty: Observation, sp500: Observation) returns (blended: real)
    ensures blended == EngineBlend(geo, total, rates, base, nifty, sp500)
  {
    if total <= 0.0 {
      return 0.0;
    }
    hide EngineReturn, MarketTerm, Times;
    var todo := geo.Keys;
    blended := 0.0;
    while todo != {}
      invariant todo <= geo.Keys
      invariant blended == (if IN in geo && IN !in todo then MarketTerm(geo, total, rates, base, IN, nifty) else 0.0)
                         + (if US in geo && US !in todo then MarketTerm(geo, total, rates, base, US, sp500) else 0.0)
      decreases |todo|
    {
      var market :| market in todo;
      todo := todo - {market};
      if market != OTHER {
        MarketTermIs(geo, total, rates, base, market, BenchmarkOf(nifty, sp500, market));
        if geo[market] > 0.0 {
          var alloc := geo[market] / total;
          var benchInBase := EngineReturn(rates, base, BenchmarkOf(nifty, sp500, market));
          blended := blended + Times(alloc, benchInBase);
        }
      }
    }
    MarketTermIs(geo, total, rates, base, IN, nifty);
    MarketTermIs(geo, total, rates, base, US, sp500);
  }

  // What makes one market's two returns the same number.
  ghost predicate Fresh(rates: Rates, base: string, obs: Observation) {
    Observed(obs) && !obs.stale && obs.closeStart.value > 0.0 && Convertible(rates, base, obs)
  }

  lemma MarketSum(weights: map<string, real>, rates: Rates, base: string, nifty: Observation, sp500: Observation,
                  m: Market)
    requires m != OTHER
    requires VenuesOf(weights, m) != {} ==> Fresh(rates, base, BenchmarkOf(nifty, sp500, m))
    ensures SumOver(VenuesOf(weights, m), VenueTerms(weights, rates, base, nifty, sp500))
         == Times(MarketWeight(weights, m), EngineReturn(rates, base, BenchmarkOf(nifty, sp500, m)))
  {
    var obs := BenchmarkOf(nifty, sp500, m);
    var terms, r := VenueTerms(weights, rates, base, nifty, sp500), EngineReturn(rates, base, obs);
    TimesZero(r);
    hide SumOver, EngineReturn, ServiceReturn, VenueMarket, Times;
    if VenuesOf(weights, m) == {} {
      SumEmpty(terms);
      SumEmpty(weights);
    } else {
      ConvertibleAgreeIff(rates, base, obs);
      forall v | v in VenuesOf(weights, m) ensures terms[v] == Times(weights[v], r) {
      }
      SumTimes(VenuesOf(weights, m), weights, terms, r);
    }
  }

  lemma TimesZero(r: real)
    ensures Times(0.0, r) == 0.0 && Times(r, 0.0) == 0.0
  {
  }

  lemma VenuesSplit(weights: map<string, real>, rates: Rates, base: string, nifty: Observation, sp500: Observation)
    ensures var terms := VenueTerms(weights, rates, base, nifty, sp500);
            SumOver(weights.Keys, terms)
            == SumOver(VenuesOf(weights, IN), terms) + SumOver(VenuesOf(weights, US), terms)
  {
    var terms := VenueTerms(weights, rates, base, nifty, sp500);
    var ins, uss := VenuesOf(weights, IN), VenuesOf(weights, US);
    var rest := weights.Keys - ins - uss;
    assert forall v :: v in rest ==> VenueMarket(v).None?;
    assert weights.Keys == ins + uss + rest && ins * uss == {} && (ins + uss) * rest == {};
    SumDisjoint(ins + uss, rest, terms);
    SumDisjoint(ins, uss, terms);
    forall v | v in rest ensures terms[v] == Times(terms[v], 0.0) {
      TimesZero(terms[v]);
    }
    SumTimes(rest, terms, terms, 0.0);
    TimesZero(SumOver(rest, terms));
  }

  // The two blends are one number when the venue weights of each market add up
  // to its share, and the benchmarks involved are fresh and convertible.
  lemma BlendsAgree(geo: map<Market, real>, total: real, weights: map<string, real>, rates: Rates, base: string,
                    nifty: Observation, sp500: Observation)
    requires total > 0.0
    requires MarketWeight(weights, IN) == Allocation(geo, total, IN)
    requires MarketWeight(weights, US) == Allocation(geo, total, US)
    requires VenuesOf(weights, IN) != {} ==> Fresh(rates, base, nifty)
    requires VenuesOf(weights, US) != {} ==> Fresh(rates, base, sp500)
    ensures AllConvert(weights, rates, base, nifty, sp500)
    ensures SumOver(weights.Keys, VenueTerms(weights, rates, base, nifty, sp500))
         == EngineBlend(geo, total, rates, base, nifty, sp500)
  {
    hide VenueMarket, ServiceReturn, EngineReturn, SumOver, Allocation, VenueTerms, GetRate, Times;
    forall v | v in weights && VenueMarket(v).Some?
      ensures ServiceReturn(rates, base, BenchmarkOf(nifty, sp500, VenueMarket(v).value)).Ok?
    {
      assert v in VenuesOf(weights, VenueMarket(v).value);
      ConvertibleAgreeIff(rates, base, BenchmarkOf(nifty, sp500, VenueMarket(v).value));
    }
    VenuesSplit(weights, rates, base, nifty, sp500);
    MarketSum(weights, rates, base, nifty, sp500, IN);
    MarketSum(weights, rates, base, nifty, sp500, US);
  }
}
