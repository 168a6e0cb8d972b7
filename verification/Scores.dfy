// Blending component scores: the risk meter and the health score.
module Scores {
  import opened Wrappers
  import opened Concentration

  datatype Component = Component(score: Option<real>, weight: real)

  datatype Color = Green | Yellow | Red

  function ScoreSum(cs: seq<Component>): real {
    if cs == [] then 0.0
    else ScoreSum(cs[..|cs| - 1]) + Contribution(cs[|cs| - 1])
  }

  function Contribution(c: Component): real {
    if c.score.Some? then c.score.value * c.weight else 0.0
  }

  function Counted(c: Component): real {
    if c.score.Some? then c.weight else 0.0
  }

  function WeightSum(cs: seq<Component>): real {
    if cs == [] then 0.0 else WeightSum(cs[..|cs| - 1]) + Counted(cs[|cs| - 1])
  }

  function ClampPercent(x: real): real {
    if x < 0.0 then 0.0 else if x > 100.0 then 100.0 else x
  }

  // The average of the present scores, with their weights scaled to sum to 1.
  function Overall(cs: seq<Component>): real {
    ClampPercent(if WeightSum(cs) == 0.0 then 0.0 else ScoreSum(cs) / WeightSum(cs))
  }

  ghost predicate PositiveWeights(cs: seq<Component>) {
    forall k :: 0 <= k < |cs| ==> cs[k].weight > 0.0
  }

  ghost predicate ScoresWithin(cs: seq<Component>, lo: real, hi: real) {
    forall k :: 0 <= k < |cs| && cs[k].score.Some? ==> lo <= cs[k].score.value <= hi
  }

  lemma {:induction false} WeightSumZero(cs: seq<Component>)
    requires PositiveWeights(cs)
    ensures WeightSum(cs) >= 0.0
    ensures WeightSum(cs) == 0.0 <==> forall k :: 0 <= k < |cs| ==> cs[k].score.None?
  {
    if cs != [] {
      var rest := cs[..|cs| - 1];
      assert forall k :: 0 <= k < |rest| ==> rest[k] == cs[k];
      WeightSumZero(rest);
    }
  }

  // A sum of weight w whose average lies in [lo, hi].
  predicate Averages(w: real, sum: real, lo: real, hi: real) {
    w * lo <= sum <= w * hi
  }

  lemma {:induction false} SumBounds(cs: seq<Component>, lo: real, hi: real)
    requires PositiveWeights(cs) && ScoresWithin(cs, lo, hi)
    ensures Averages(WeightSum(cs), ScoreSum(cs), lo, hi)
  {
    if cs != [] {
      hide Averages, Counted, Contribution;
      var rest, c := cs[..|cs| - 1], cs[|cs| - 1];
      SumBounds(rest, lo, hi);
      TermBounds(c, lo, hi);
      AddBounds(WeightSum(rest), Counted(c), ScoreSum(rest), Contribution(c), lo, hi);
    }
  }

  lemma AddBounds(w: real, w': real, s: real, s': real, lo: real, hi: real)
    requires Averages(w, s, lo, hi) && Averages(w', s', lo, hi)
    ensures Averages(w + w', s + s', lo, hi)
  {
  }

  lemma TermBounds(c: Component, lo: real, hi: real)
    requires c.weight > 0.0 && (c.score.Some? ==> lo <= c.score.value <= hi)
    ensures Averages(Counted(c), Contribution(c), lo, hi)
  {
  }

  lemma Scale(a: real, b: real, k: real)
    requires a <= b && k >= 0.0
    ensures a * k <= b * k
  {
  }

  lemma MeanBounds(sum: real, w: real, lo: real, hi: real)
    requires w > 0.0 && Averages(w, sum, lo, hi)
    ensures lo <= sum / w <= hi
  {
  }

  // The overall score is a true average: it lies between the least and greatest
  // present component, and is 0 when no component is present.
  lemma OverallBetween(cs: seq<Component>, lo: real, hi: real)
    requires PositiveWeights(cs) && ScoresWithin(cs, lo, hi) && 0.0 <= lo <= hi <= 100.0
    ensures if forall k :: 0 <= k < |cs| ==> cs[k].score.None? then Overall(cs) == 0.0 else lo <= Overall(cs) <= hi
  {
    SumBounds(cs, lo, hi);
    WeightSumZero(cs);
    hide WeightSum, ScoreSum, Averages;
    if WeightSum(cs) != 0.0 {
      MeanBounds(ScoreSum(cs), WeightSum(cs), lo, hi);
    }
  }

  // Missing components change nothing: the average is over those present.
  lemma {:induction false} SumsWithout(cs: seq<Component>, k: nat)
    requires k < |cs| && cs[k].score.None?
    ensures ScoreSum(cs[..k] + cs[k + 1..]) == ScoreSum(cs) && WeightSum(cs[..k] + cs[k + 1..]) == WeightSum(cs)
    decreases |cs|
  {
    var n := |cs| - 1;
    if k == n {
      assert cs[..k] + cs[k + 1..] == cs[..n];
    } else {
      var rest := cs[..n];
      SumsWithout(rest, k);
      assert (cs[..k] + cs[k + 1..])[..n - 1] == rest[..k] + rest[k + 1..];
    }
  }

  lemma MissingIsIgnored(cs: seq<Component>, k: nat)
    requires k < |cs| && cs[k].score.None?
    ensures Overall(cs[..k] + cs[k + 1..]) == Overall(cs)
  {
    SumsWithout(cs, k);
  }

  // b presents the same components as a, each scored at least as high.
  ghost predicate Dominates(b: seq<Component>, a: seq<Component>) {
    |a| == |b| && forall k :: 0 <= k < |a| ==>
      a[k].weight == b[k].weight && (a[k].score.Some? <==> b[k].score.Some?)
      && (a[k].score.Some? ==> a[k].score.value <= b[k].score.value)
  }

  lemma {:induction false} SumsMonotone(a: seq<Component>, b: seq<Component>)
    requires PositiveWeights(a) && Dominates(b, a)
    ensures WeightSum(a) == WeightSum(b) && ScoreSum(a) <= ScoreSum(b)
  {
    if a != [] {
      var n := |a| - 1;
      SumsMonotone(a[..n], b[..n]);
      if a[n].score.Some? {
        Scale(a[n].score.value, b[n].score.value, a[n].weight);
        assert Contribution(a[n]) <= Contribution(b[n]);
      }
      assert Contribution(a[n]) <= Contribution(b[n]) && Counted(a[n]) == Counted(b[n]);
      hide Contribution, Counted;
    }
  }

  lemma DivideMonotone(x: real, y: real, w: real)
    requires x <= y && w > 0.0
    ensures x / w <= y / w
  {
  }

  lemma OverallMonotone(a: seq<Component>, b: seq<Component>)
    requires PositiveWeights(a) && Dominates(b, a)
    ensures Overall(a) <= Overall(b)
  {
    SumsMonotone(a, b);
    WeightSumZero(a);
    if WeightSum(a) != 0.0 {
      DivideMonotone(ScoreSum(a), ScoreSum(b), WeightSum(a));
    }
  }

  // Rounding to one decimal: any function to a nearest tenth. Which way exact
  // halves go is left open.
  type Rounding = real -> real

  predicate IsTenth(x: real) {
    x * 10.0 == (x * 10.0).Floor as real
  }

  ghost predicate NearestTenth(round: Rounding) {
    forall x :: IsTenth(round(x)) && x - 0.05 <= round(x) <= x + 0.05
  }

  // Rounding halves up is one such function.
  lemma HalfUpIsNearest(halfUp: Rounding)
    requires forall x :: halfUp(x) == (x * 10.0 + 0.5).Floor as real / 10.0
    ensures NearestTenth(halfUp)
  {
    forall x ensures IsTenth(halfUp(x)) && x - 0.05 <= halfUp(x) <= x + 0.05 {
      assert halfUp(x) * 10.0 == (x * 10.0 + 0.5).Floor as real;
    }
  }

  lemma TenthsApart(a: real, b: real)
    requires IsTenth(a) && IsTenth(b) && a < b
    ensures a + 0.1 <= b
  {
    WholesApart((a * 10.0).Floor, (b * 10.0).Floor, a * 10.0, b * 10.0);
  }

  lemma WholesApart(m: int, n: int, a: real, b: real)
    requires m as real == a && n as real == b && a < b
    ensures a + 1.0 <= b
  {
    assert m < n;
    assert (m + 1) as real <= n as real;
  }

  lemma RoundMonotone(round: Rounding, x: real, y: real)
    requires NearestTenth(round) && x <= y
    ensures round(x) <= round(y)
  {
    if round(y) < round(x) {
      TenthsApart(round(y), round(x));
    }
  }

  lemma RoundFixes(round: Rounding, x: real)
    requires NearestTenth(round) && IsTenth(x)
    ensures round(x) == x
  {
    if round(x) < x {
      TenthsApart(round(x), x);
    } else if x < round(x) {
      TenthsApart(x, round(x));
    }
  }

  lemma RoundPercent(round: Rounding, x: real)
    requires NearestTenth(round) && 0.0 <= x <= 100.0
    ensures 0.0 <= round(x) <= 100.0
  {
    RoundFixes(round, 0.0);
    RoundFixes(round, 100.0);
    RoundMonotone(round, 0.0, x);
    RoundMonotone(round, x, 100.0);
  }

  function Rounded(round: Rounding, score: Option<real>): (r: Option<real>)
    ensures score == None <==> r == None
    ensures forall x :: score == Some(x) ==> r == Some(round(x))
  {
    if score.Some? then Some(round(score.value)) else None
  }

  // ---------------------------------------------------------------- the meters

  function RiskComponents(round: Rounding, holdings: seq<real>, volVar: Option<real>, drawdown: Option<real>,
                          events: real): seq<Component> {
    [Component(Rounded(round, ConcentrationScore(holdings)), 0.30), Component(volVar, 0.30), Component(drawdown, 0.20),
     Component(Some(events), 0.20)]
  }

  function HealthComponents(round: Rounding, holdings: seq<real>, fundamental: Option<real>, technical: Option<real>,
                            riskAdjusted: Option<real>)
    : seq<Component>
  {
    [Component(Rounded(round, DiversificationScore(holdings)), 0.25),
     Component(fundamental, 0.25),
     Component(technical, 0.25),
     Component(riskAdjusted, 0.25)]
  }

  // The displayed scores: of rounded components, rounded again.
  function RiskMeter(round: Rounding, holdings: seq<real>, volVar: Option<real>, drawdown: Option<real>,
                     events: real): real {
    round(Overall(RiskComponents(round, holdings, volVar, drawdown, events)))
  }

  function HealthScore(round: Rounding, holdings: seq<real>, fundamental: Option<real>, technical: Option<real>,
                       riskAdjusted: Option<real>): real {
    round(Overall(HealthComponents(round, holdings, fundamental, technical, riskAdjusted)))
  }

  function Classify(score: real): Color {
    if score <= 30.0 then Green else if score <= 60.0 then Yellow else Red
  }

  function Rank(c: Color): nat {
    match c case Green => 0 case Yellow => 1 case Red => 2
  }

  // Putting two same-signed holdings into one never makes the portfolio look
  // less risky or more healthy, whatever the other components say.
  lemma MergeNeverImproves(round: Rounding, w: seq<real>, i: nat, j: nat, volVar: Option<real>,
                           drawdown: Option<real>, events: real,
                           fundamental: Option<real>, technical: Option<real>, riskAdjusted: Option<real>)
    requires NearestTenth(round) && i < j < |w| && SameSigned(w[i], w[j])
    ensures var risk := RiskMeter(round, w, volVar, drawdown, events);
            var riskMerged := RiskMeter(round, Merge(w, i, j), volVar, drawdown, events);
            risk <= riskMerged && Rank(Classify(risk)) <= Rank(Classify(riskMerged))
    ensures HealthScore(round, Merge(w, i, j), fundamental, technical, riskAdjusted)
         <= HealthScore(round, w, fundamental, technical, riskAdjusted)
  {
    hide ConcentrationScore, DiversificationScore, Merge, Overall;
    MergeMovesScores(w, i, j);
    var merged := Merge(w, i, j);
    if ConcentrationScore(w).Some? {
      RoundMonotone(round, ConcentrationScore(w).value, ConcentrationScore(merged).value);
      RoundMonotone(round, DiversificationScore(merged).value, DiversificationScore(w).value);
    }
    var risky := RiskComponents(round, w, volVar, drawdown, events);
    var riskier := RiskComponents(round, merged, volVar, drawdown, events);
    OverallMonotone(risky, riskier);
    RoundMonotone(round, Overall(risky), Overall(riskier));
    var lower, higher := HealthComponents(round, merged, fundamental, technical, riskAdjusted),
                         HealthComponents(round, w, fundamental, technical, riskAdjusted);
    OverallMonotone(lower, higher);
    RoundMonotone(round, Overall(lower), Overall(higher));
  }

  function OrZero(x: Option<real>): real {
    x.GetOr(0.0)
  }

  ghost predicate Percent(x: Option<real>) {
    x.Some? ==> 0.0 <= x.value <= 100.0
  }

  // The documented weights: 30, 30, 20 and 20 per cent of those present.
  lemma RiskWeights(round: Rounding, holdings: seq<real>, volVar: Option<real>, drawdown: Option<real>, events: real)
    requires var c := Rounded(round, ConcentrationScore(holdings));
             Percent(c) && Percent(volVar) && Percent(drawdown) && 0.0 <= events <= 100.0
    ensures var c := Rounded(round, ConcentrationScore(holdings));
            var weight := (if c.Some? then 0.30 else 0.0) + (if volVar.Some? then 0.30 else 0.0)
                        + (if drawdown.Some? then 0.20 else 0.0) + 0.20;
            Overall(RiskComponents(round, holdings, volVar, drawdown, events)) * weight
            == 0.30 * OrZero(c) + 0.30 * OrZero(volVar) + 0.20 * OrZero(drawdown) + 0.20 * events
  {
    hide ConcentrationScore, ScoreSum, WeightSum;
    var cs := RiskComponents(round, holdings, volVar, drawdown, events);
    SumsOfFour(cs);
    OverallIs(cs);
  }

  // A quarter each of those present.
  lemma HealthWeights(round: Rounding, holdings: seq<real>, fundamental: Option<real>, technical: Option<real>,
                      riskAdjusted: Option<real>)
    requires var d := Rounded(round, DiversificationScore(holdings));
             Percent(d) && Percent(fundamental) && Percent(technical) && Percent(riskAdjusted)
    ensures var d := Rounded(round, DiversificationScore(holdings));
            var present := (if d.Some? then 1 else 0) + (if fundamental.Some? then 1 else 0)
                         + (if technical.Some? then 1 else 0) + (if riskAdjusted.Some? then 1 else 0);
            Overall(HealthComponents(round, holdings, fundamental, technical, riskAdjusted)) * present as real
            == OrZero(d) + OrZero(fundamental) + OrZero(technical) + OrZero(riskAdjusted)
  {
    hide DiversificationScore, ScoreSum, WeightSum;
    var cs := HealthComponents(round, holdings, fundamental, technical, riskAdjusted);
    SumsOfFour(cs);
    OverallIs(cs);
  }

  // In range, the clamp does nothing.
  lemma OverallIs(cs: seq<Component>)
    requires PositiveWeights(cs) && ScoresWithin(cs, 0.0, 100.0)
    ensures Overall(cs) * WeightSum(cs) == if WeightSum(cs) == 0.0 then 0.0 else ScoreSum(cs)
  {
    SumBounds(cs, 0.0, 100.0);
    WeightSumZero(cs);
    hide ScoreSum, WeightSum, Averages;
    var sum, weight := ScoreSum(cs), WeightSum(cs);
    if weight != 0.0 {
      MeanBounds(sum, weight, 0.0, 100.0);
      assert sum / weight * weight == sum;
    }
  }

  lemma SumsOfFour(cs: seq<Component>)
    requires |cs| == 4
    ensures ScoreSum(cs) == Contribution(cs[0]) + Contribution(cs[1]) + Contribution(cs[2]) + Contribution(cs[3])
    ensures WeightSum(cs) == Counted(cs[0]) + Counted(cs[1]) + Counted(cs[2]) + Counted(cs[3])
  {
    assert cs[..3][..2] == cs[..2] && cs[..2][..1] == cs[..1] && cs[..1][..0] == [];
    assert ScoreSum(cs[..1]) == Contribution(cs[0]) && WeightSum(cs[..1]) == Counted(cs[0]);
    assert ScoreSum(cs[..2]) == ScoreSum(cs[..1]) + Contribution(cs[1]);
    assert WeightSum(cs[..2]) == WeightSum(cs[..1]) + Counted(cs[1]);
    assert ScoreSum(cs[..3]) == ScoreSum(cs[..2]) + Contribution(cs[2]);
    assert WeightSum(cs[..3]) == WeightSum(cs[..2]) + Counted(cs[2]);
  }

  // ---------------------------------------------------------------- upcoming events

  const EVENTS_WINDOW_DAYS: int := 5

  predicate InWindow(today: int, event: int) {
    0 <= event - today <= EVENTS_WINDOW_DAYS
  }

  function Proximity(today: int, events: seq<int>): real {
    if events == [] then 0.0
    else
      var ev := events[|events| - 1];
      Proximity(today, events[..|events| - 1])
      + if InWindow(today, ev) then (EVENTS_WINDOW_DAYS - (ev - today)) as real / 5.0 else 0.0
  }

  // Zero exactly when no event lies within the next four days; one today or two
  // that add up to a full window saturate the score.
  lemma {:induction false} ProximityMeaning(today: int, events: seq<int>)
    ensures Proximity(today, events) >= 0.0
    ensures Proximity(today, events) == 0.0
            <==> forall k :: 0 <= k < |events| ==> !(0 <= events[k] - today < EVENTS_WINDOW_DAYS)
    ensures today in events ==> Proximity(today, events) >= 1.0
  {
    if events != [] {
      var rest := events[..|events| - 1];
      ProximityMeaning(today, rest);
      assert forall k :: 0 <= k < |rest| ==> rest[k] == events[k];
    }
  }

  // An event so many days ahead adds as many fifths as it is short of five days.
  lemma ProximityAdds(today: int, events: seq<int>, days: int)
    ensures Proximity(today, []) == 0.0
    ensures Proximity(today, events + [today + days])
         == Proximity(today, events) + if 0 <= days <= 5 then 1.0 - days as real / 5.0 else 0.0
  {
    assert (events + [today + days])[..|events|] == events;
  }

  // A full window or more counts as 100.
  lemma EventsMeans(round: Rounding, events: seq<int>, today: int)
    ensures EventsScore(round, None, today) == 0.0
    ensures Proximity(today, events) >= 1.0 ==> EventsScore(round, Some(events), today) == round(100.0)
    ensures Proximity(today, events) <= 1.0 ==>
              EventsScore(round, Some(events), today) == round(100.0 * Proximity(today, events))
  {
  }

  // The events of the window among the first n.
  function Nearby(today: int, events: seq<int>, n: nat): set<nat> {
    set k: nat | k < |events| && k < n && InWindow(today, events[k])
  }

  lemma NearbyStep(today: int, events: seq<int>, n: nat)
    requires n < |events|
    ensures |Nearby(today, events, n + 1)| == |Nearby(today, events, n)| + if InWindow(today, events[n]) then 1 else 0
  {
    var before := Nearby(today, events, n);
    assert Nearby(today, events, n + 1) == if InWindow(today, events[n]) then before + {n} else before;
  }

  // No calendar counts as no events.
  function EventsScore(round: Rounding, upcoming: Option<seq<int>>, today: int): real {
    if upcoming.None? then 0.0
    else
      var raw := Proximity(today, upcoming.value);
      round((if raw > 1.0 then 1.0 else raw) * 100.0)
  }

  method ComputeEvents(round: Rounding, upcoming: Option<seq<int>>, today: int) returns (score: real, counted: nat)
    requires NearestTenth(round)
    ensures score == EventsScore(round, upcoming, today) && 0.0 <= score <= 100.0
    ensures counted == if upcoming.None? then 0
                       else |set k: nat | k < |upcoming.value| && 0 <= upcoming.value[k] - today <= 5|
  {
    if upcoming.None? {
      return 0.0, 0;
    }
    var events := upcoming.value;
    var raw := 0.0;
    counted := 0;
    assert events[..0] == [];
    for n := 0 to |events|
      invariant raw == Proximity(today, events[..n])
      invariant counted == |Nearby(today, events, n)|
    {
      assert events[..n + 1][..n] == events[..n];
      NearbyStep(today, events, n);
      var delta := events[n] - today;
      if 0 <= delta <= EVENTS_WINDOW_DAYS {
        raw := raw + (EVENTS_WINDOW_DAYS - delta) as real / 5.0;
        counted := counted + 1;
      }
    }
    assert events[..|events|] == events;
    assert Nearby(today, events, |events|) == set k: nat | k < |events| && 0 <= events[k] - today <= 5;
    ProximityMeaning(today, events);
    RoundPercent(round, (if raw > 1.0 then 1.0 else raw) * 100.0);
    score := round((if raw > 1.0 then 1.0 else raw) * 100.0);
  }

  // ---------------------------------------------------------------- the blend

  method Blend(cs: seq<Component>) returns (overall: real)
    ensures overall == Overall(cs)
  {
    var weighted, weightSum := 0.0, 0.0;
    assert cs[..0] == [];
    for n := 0 to |cs|
      invariant weighted == ScoreSum(cs[..n]) && weightSum == WeightSum(cs[..n])
    {
      assert cs[..n + 1][..n] == cs[..n];
      var c := cs[n];
      if c.score.Some? {
        weighted := weighted + c.score.value * c.weight;
        weightSum := weightSum + c.weight;
      }
    }
    assert cs[..|cs|] == cs;
    overall := ClampPercent(if weightSum == 0.0 then 0.0 else weighted / weightSum);
  }

  method ComputeRiskMeter(round: Rounding, holdings: seq<real>, volVar: Option<real>, drawdown: Option<real>,
                          upcoming: Option<seq<int>>, today: int) returns (overall: real, color: Color)
    requires NearestTenth(round)
    ensures overall == RiskMeter(round, holdings, volVar, drawdown, EventsScore(round, upcoming, today))
    ensures 0.0 <= overall <= 100.0
    ensures color.Green? <==> overall <= 30.0
    ensures color.Red? <==> overall > 60.0
  {
    var events, _ := ComputeEvents(round, upcoming, today);
    var blended := Blend(RiskComponents(round, holdings, volVar, drawdown, events));
    RoundPercent(round, blended);
    overall := round(blended);
    color := Classify(overall);
  }

  method ComputeHealthScore(round: Rounding, holdings: seq<real>, fundamental: Option<real>, technical: Option<real>,
                            riskAdjusted: Option<real>) returns (overall: real)
    requires NearestTenth(round)
    ensures overall == HealthScore(round, holdings, fundamental, technical, riskAdjusted)
    ensures 0.0 <= overall <= 100.0
  {
    var blended := Blend(HealthComponents(round, holdings, fundamental, technical, riskAdjusted));
    RoundPercent(round, blended);
    overall := round(blended);
  }
}
