// The technical analysis of one instrument and its six cache keys. Here a call of
// analyze_with_cache is one step: it loads, and on a miss computes and writes.
module IndicatorCache {
  import opened Wrappers
  import opened Redis

  datatype Indicator = Rsi | Macd | MaAlignment | Bollinger | Volume | Atr

  const ORDER: seq<Indicator> := [Rsi, Macd, MaAlignment, Bollinger, Volume, Atr]

  const MIN_BARS_FOR_ANY_ANALYSIS: nat := 30

  function Weight(i: Indicator): real {
    match i
    case Rsi => 0.20
    case Macd => 0.20
    case MaAlignment => 0.25
    case Bollinger => 0.15
    case Volume => 0.10
    case Atr => 0.10
  }

  function MinBars(i: Indicator): nat {
    match i
    case Rsi => 14
    case Macd => 35
    case MaAlignment => 200
    case Bollinger => 20
    case Volume => 20
    case Atr => 14
  }

  datatype IndicatorResult = Insufficient | Sufficient(value: real, raw: real)

  datatype Advice = StrongSell | Sell | Hold | Buy | StrongBuy

  // The price frame: how many bars it has, and the signals they give.
  datatype Frame = Frame(bars: nat, signals: map<Indicator, (real, real)>)
  {
    ghost predicate Valid() {
      forall i: Indicator :: i in signals && -1.0 <= signals[i].0 <= 1.0
    }
  }

  type Results = map<Indicator, IndicatorResult>

  datatype Analysis = Analysis(results: Results, composite: Option<real>, action: Option<Advice>, bars: nat)

  function Clamp(x: real): real {
    if x < -1.0 then -1.0 else if x > 1.0 then 1.0 else x
  }

  function ActionFor(score: real): Advice {
    if score < -0.6 then StrongSell
    else if score < -0.2 then Sell
    else if score < 0.2 then Hold
    else if score < 0.6 then Buy
    else StrongBuy
  }

  function Scored(results: Results, i: Indicator): bool {
    i in results && results[i].Sufficient?
  }

  function ScoredWeight(results: Results, i: Indicator): real {
    if Scored(results, i) then Weight(i) else 0.0
  }

  function ScoredTerm(results: Results, i: Indicator): real {
    if Scored(results, i) then results[i].value * Weight(i) else 0.0
  }

  function TotalWeight(results: Results): real {
    ScoredWeight(results, Rsi) + ScoredWeight(results, Macd) + ScoredWeight(results, MaAlignment)
    + ScoredWeight(results, Bollinger) + ScoredWeight(results, Volume) + ScoredWeight(results, Atr)
  }

  function WeightedSum(results: Results): real {
    ScoredTerm(results, Rsi) + ScoredTerm(results, Macd) + ScoredTerm(results, MaAlignment)
    + ScoredTerm(results, Bollinger) + ScoredTerm(results, Volume) + ScoredTerm(results, Atr)
  }

  // The composite over whatever is scored, with renormalised weights.
  function Composite(results: Results): Option<real> {
    if TotalWeight(results) > 0.0
    then Some(Clamp(WeightedSum(results) / TotalWeight(results)))
    else None
  }

  function Assemble(results: Results, bars: nat): Analysis {
    var composite := Composite(results);
    Analysis(results, composite, if composite.Some? then Some(ActionFor(composite.value)) else None, bars)
  }

  predicate IsSufficient(bars: nat, i: Indicator) {
    MIN_BARS_FOR_ANY_ANALYSIS <= bars && MinBars(i) <= bars
  }

  function Compute(f: Frame): Results {
    map i: Indicator | i in f.signals ::
      if IsSufficient(f.bars, i) then Sufficient(f.signals[i].0, f.signals[i].1) else Insufficient
  }

  function AnalyzeTechnical(f: Frame): Analysis {
    Assemble(Compute(f), f.bars)
  }

  // The documented thresholds.
  lemma ActionBands(score: real)
    ensures ActionFor(score) == StrongSell <==> score < -0.6
    ensures ActionFor(score) == Sell <==> -0.6 <= score < -0.2
    ensures ActionFor(score) == Hold <==> -0.2 <= score < 0.2
    ensures ActionFor(score) == Buy <==> 0.2 <= score < 0.6
    ensures ActionFor(score) == StrongBuy <==> 0.6 <= score
  {
  }

  // What an indicator needs, and what it passes on.
  lemma EnoughBars(f: Frame, i: Indicator)
    requires f.Valid()
    ensures i in Compute(f)
    ensures Compute(f)[i].Sufficient? <==>
            f.bars >= 30 && (i == Macd ==> f.bars >= 35) && (i == MaAlignment ==> f.bars >= 200)
    ensures Compute(f)[i].Sufficient? ==> Compute(f)[i] == Sufficient(f.signals[i].0, f.signals[i].1)
  {
  }

  // The scores that count from 30 bars on, and those that join them at 35 and 200.
  ghost function ShortSum(f: Frame): real
    requires f.Valid()
  {
    0.20 * f.signals[Rsi].0 + 0.15 * f.signals[Bollinger].0 + 0.10 * f.signals[Volume].0 + 0.10 * f.signals[Atr].0
  }

  lemma SumsOfBars(f: Frame)
    requires f.Valid()
    ensures var results := Compute(f);
            && TotalWeight(results)
               == (if f.bars < 30 then 0.0 else if f.bars < 35 then 0.55 else if f.bars < 200 then 0.75 else 1.0)
            && WeightedSum(results)
               == (if f.bars < 30 then 0.0 else ShortSum(f))
                + (if f.bars < 35 then 0.0 else 0.20 * f.signals[Macd].0)
                + (if f.bars < 200 then 0.0 else 0.25 * f.signals[MaAlignment].0)
  {
    var results := Compute(f);
    EnoughBars(f, Rsi);
    EnoughBars(f, Macd);
    EnoughBars(f, MaAlignment);
    EnoughBars(f, Bollinger);
    EnoughBars(f, Volume);
    EnoughBars(f, Atr);
    hide Compute, Frame.Valid;
  }

  // The composite of a frame, by its number of bars, and the action it stands for.
  lemma CompositeOfBars(f: Frame)
    requires f.Valid()
    ensures var a := AnalyzeTechnical(f);
            && a.bars == f.bars && a.results == Compute(f)
            && (f.bars < 30 ==> a.composite == None && a.action == None)
            && (30 <= f.bars < 35 ==> a.composite == Some(ShortSum(f) / 0.55))
            && (35 <= f.bars < 200 ==> a.composite == Some((ShortSum(f) + 0.20 * f.signals[Macd].0) / 0.75))
            && (200 <= f.bars ==>
                  a.composite == Some(ShortSum(f) + 0.20 * f.signals[Macd].0 + 0.25 * f.signals[MaAlignment].0))
            && (30 <= f.bars ==> a.action == Some(ActionFor(a.composite.value)))
  {
    hide Compute, TotalWeight, WeightedSum, ShortSum, ActionFor, Composite, Frame.Valid;
    var results, sum := Compute(f), WeightedSum(Compute(f));
    SumsOfBars(f);
    if f.bars < 30 {
      NothingScored(results);
    } else {
      SignalsInRange(f);
      CompositeIs(results, if f.bars < 35 then 0.55 else if f.bars < 200 then 0.75 else 1.0, sum);
    }
  }

  lemma SignalsInRange(f: Frame)
    requires f.Valid()
    ensures forall i :: Scored(Compute(f), i) ==> -1.0 <= Compute(f)[i].value <= 1.0
  {
  }

  lemma NothingScored(results: Results)
    requires TotalWeight(results) == 0.0
    ensures Composite(results) == None
  {
  }

  // In range, the quotient is the composite.
  lemma CompositeIs(results: Results, weight: real, sum: real)
    requires weight == TotalWeight(results) && weight > 0.0 && sum == WeightedSum(results)
    requires forall i :: Scored(results, i) ==> -1.0 <= results[i].value <= 1.0
    ensures Composite(results) == Some(sum / weight)
  {
    hide TotalWeight, WeightedSum, Scored;
    WeightedSumBounds(results, -1.0, 1.0);
    DivBounds(-1.0, sum, 1.0, weight);
  }

  lemma TermBounds(results: Results, i: Indicator, lo: real, hi: real)
    requires Scored(results, i) ==> lo <= results[i].value <= hi
    ensures lo * ScoredWeight(results, i) <= ScoredTerm(results, i) <= hi * ScoredWeight(results, i)
  {
  }

  lemma Distribute(k: real, a: real, b: real, c: real, d: real, e: real, f: real)
    ensures k * (a + b + c + d + e + f) == k * a + k * b + k * c + k * d + k * e + k * f
  {
  }

  // The weighted sum lies between the scored extremes, so the clamp never acts.
  lemma WeightedSumBounds(results: Results, lo: real, hi: real)
    requires forall i :: Scored(results, i) ==> lo <= results[i].value <= hi
    ensures lo * TotalWeight(results) <= WeightedSum(results) <= hi * TotalWeight(results)
  {
    hide ScoredWeight, ScoredTerm;
    forall i: Indicator
      ensures lo * ScoredWeight(results, i) <= ScoredTerm(results, i) <= hi * ScoredWeight(results, i)
    {
      TermBounds(results, i, lo, hi);
    }
    Distribute(lo, ScoredWeight(results, Rsi), ScoredWeight(results, Macd), ScoredWeight(results, MaAlignment),
               ScoredWeight(results, Bollinger), ScoredWeight(results, Volume), ScoredWeight(results, Atr));
    Distribute(hi, ScoredWeight(results, Rsi), ScoredWeight(results, Macd), ScoredWeight(results, MaAlignment),
               ScoredWeight(results, Bollinger), ScoredWeight(results, Volume), ScoredWeight(results, Atr));
  }

  lemma DivBounds(lo: real, sum: real, hi: real, w: real)
    requires lo * w <= sum <= hi * w && 0.0 < w
    ensures lo <= sum / w <= hi
  {
  }

  // A composite exists exactly when something is scored, and lies between the
  // least and the greatest scored signal.
  lemma CompositeBetween(results: Results, lo: real, hi: real)
    requires forall i :: Scored(results, i) ==> lo <= results[i].value <= hi
    requires -1.0 <= lo && hi <= 1.0
    ensures Composite(results).Some? <==> exists i :: Scored(results, i)
    ensures Composite(results).Some? ==> lo <= Composite(results).value <= hi
  {
    hide TotalWeight, WeightedSum;
    WeightedSumBounds(results, lo, hi);
    PositiveWeight(results);
    if TotalWeight(results) > 0.0 {
      DivBounds(lo, WeightedSum(results), hi, TotalWeight(results));
    }
  }

  // With all six scored the weights already sum to 1, and nothing is rescaled.
  lemma FullComposite(results: Results)
    requires forall i: Indicator :: i in results && results[i].Sufficient? && -1.0 <= results[i].value <= 1.0
    ensures Composite(results) == Some(0.20 * results[Rsi].value + 0.20 * results[Macd].value
                                       + 0.25 * results[MaAlignment].value + 0.15 * results[Bollinger].value
                                       + 0.10 * results[Volume].value + 0.10 * results[Atr].value)
  {
    assert TotalWeight(results) == 1.0;
    CompositeBetween(results, -1.0, 1.0);
    WeightedSumBounds(results, -1.0, 1.0);
  }

  lemma PositiveWeight(results: Results)
    ensures TotalWeight(results) > 0.0 <==> exists i :: Scored(results, i)
  {
    hide Scored;
    if i: Indicator :| Scored(results, i) {
      assert ScoredWeight(results, i) > 0.0;
    }
  }

  // ---------------------------------------------------------------- the cache

  // A cached reading with the number of the analysis it came from.
  datatype Entry = Entry(result: IndicatorResult, generation: nat)

  datatype Computed = Computed(at: int, ttl: int, analysis: Analysis)

  datatype State = State(now: int, cells: map<Indicator, Cell<Entry>>, history: seq<Computed>)

  datatype Action =
    | Advance(d: nat)
    | Call(frame: Frame, ttl: int)
    | Invalidate                      // a split was applied: every key is deleted

  predicate IsLive(s: State, i: Indicator) {
    Get(s.cells, i, s.now).Some?
  }

  predicate FullHit(s: State) {
    forall i: Indicator :: IsLive(s, i)
  }

  function Cached(s: State): Results {
    map i: Indicator | i in s.cells && IsLive(s, i) :: s.cells[i].value.result
  }

  // What caching an analysis sets: one key per sufficient indicator.
  function Writes(results: Results, generation: nat, deadline: int): map<Indicator, Cell<Entry>> {
    map i: Indicator | i in results && results[i].Sufficient? :: Cell(Entry(results[i], generation), Some(deadline))
  }

  function Recompute(s: State, f: Frame, ttl: int): State {
    State(s.now, s.cells + Writes(Compute(f), |s.history|, s.now + ttl),
          s.history + [Computed(s.now, ttl, AnalyzeTechnical(f))])
  }

  function Answer(s: State, f: Frame): Analysis {
    if FullHit(s) then Assemble(Cached(s), f.bars) else AnalyzeTechnical(f)
  }

  function Step(s: State, a: Action): State {
    match a
    case Advance(d) => s.(now := s.now + d)
    case Call(f, ttl) => if FullHit(s) then s else Recompute(s, f, ttl)
    case Invalidate => s.(cells := map[])
  }

  function Run(s: State, actions: seq<Action>): State
    decreases |actions|
  {
    if actions == [] then s else Run(Step(s, actions[0]), actions[1..])
  }

  ghost predicate FramesValid(actions: seq<Action>) {
    forall k :: 0 <= k < |actions| && actions[k].Call? ==> actions[k].frame.Valid()
  }

  ghost predicate FromHistory(s: State, i: Indicator, c: Cell<Entry>) {
    && c.value.generation < |s.history|
    && var computed := s.history[c.value.generation];
       && computed.at <= s.now && c.deadline == Some(computed.at + computed.ttl)
       && i in computed.analysis.results && c.value.result == computed.analysis.results[i]
       && computed.analysis == Assemble(computed.analysis.results, computed.analysis.bars)
  }

  // A live ma_alignment key comes with all six keys of its own analysis.
  ghost predicate OneGeneration(s: State) {
    IsLive(s, MaAlignment) ==>
      forall i: Indicator :: IsLive(s, i) && s.cells[i].value.generation == s.cells[MaAlignment].value.generation
  }

  ghost predicate Inv(s: State) {
    OneGeneration(s) && forall i :: i in s.cells ==> FromHistory(s, i, s.cells[i])
  }

  lemma StepKeepsInv(s: State, a: Action)
    requires Inv(s) && (a.Call? ==> a.frame.Valid())
    ensures Inv(Step(s, a))
  {
    hide Assemble;
    match a
    case Advance(d) =>
      forall i | i in s.cells ensures FromHistory(Step(s, a), i, s.cells[i]) {
        assert FromHistory(s, i, s.cells[i]);
      }
      if IsLive(Step(s, a), MaAlignment) {
        assert FromHistory(s, MaAlignment, s.cells[MaAlignment]);
        forall i: Indicator ensures IsLive(Step(s, a), i) {
          assert IsLive(s, i) && FromHistory(s, i, s.cells[i]);
        }
      }
    case Call(f, ttl) =>
      if !FullHit(s) {
        RecomputeKeepsInv(s, f, ttl);
      }
    case Invalidate =>
  }

  lemma AssembleKeeps(results: Results, bars: nat)
    ensures Assemble(results, bars).results == results && Assemble(results, bars).bars == bars
  {
  }

  lemma RecomputedFromHistory(s: State, f: Frame, ttl: int, i: Indicator)
    requires i in s.cells ==> FromHistory(s, i, s.cells[i])
    requires f.Valid() && i in Recompute(s, f, ttl).cells
    ensures FromHistory(Recompute(s, f, ttl), i, Recompute(s, f, ttl).cells[i])
  {
    hide Assemble, IsSufficient;
    AssembleKeeps(Compute(f), f.bars);
    if !Compute(f)[i].Sufficient? {
      assert Recompute(s, f, ttl).cells[i] == s.cells[i];
    }
  }

  // Enough bars for the moving averages are enough for every indicator.
  lemma RecomputedOneGeneration(s: State, f: Frame, ttl: int)
    requires f.Valid() && !IsLive(s, MaAlignment)
    ensures OneGeneration(Recompute(s, f, ttl))
  {
    hide AnalyzeTechnical;
    if IsSufficient(f.bars, MaAlignment) {
      forall i: Indicator ensures Compute(f)[i].Sufficient? {
        assert IsSufficient(f.bars, i);
      }
    } else {
      assert MaAlignment !in Writes(Compute(f), |s.history|, s.now + ttl);
    }
  }

  lemma RecomputeKeepsInv(s: State, f: Frame, ttl: int)
    requires Inv(s) && f.Valid() && !FullHit(s)
    ensures Inv(Recompute(s, f, ttl))
  {
    assert !IsLive(s, MaAlignment);
    RecomputedOneGeneration(s, f, ttl);
    hide Recompute, FromHistory, OneGeneration;
    forall i | i in Recompute(s, f, ttl).cells
      ensures FromHistory(Recompute(s, f, ttl), i, Recompute(s, f, ttl).cells[i])
    {
      RecomputedFromHistory(s, f, ttl, i);
    }
  }

  lemma {:induction false} RunKeepsInv(s: State, actions: seq<Action>)
    requires Inv(s) && FramesValid(actions)
    ensures Inv(Run(s, actions))
    decreases |actions|
  {
    hide Inv, Step;
    if actions != [] {
      StepKeepsInv(s, actions[0]);
      RunKeepsInv(Step(s, actions[0]), actions[1..]);
    }
  }

  function Init(now: int): State {
    State(now, map[], [])
  }

  // A full hit answers with the readings, composite and action of one analysis,
  // which was written less than one TTL ago.
  ghost predicate IsOneAnalysis(s: State, f: Frame)
    requires FullHit(s)
  {
    assert IsLive(s, MaAlignment);
    var g := s.cells[MaAlignment].value.generation;
    && g < |s.history| && s.history[g].at <= s.now < s.history[g].at + s.history[g].ttl
    && Answer(s, f) == s.history[g].analysis.(bars := f.bars)
  }

  lemma FullHitAnswer(s: State, f: Frame)
    requires Inv(s) && FullHit(s)
    ensures IsOneAnalysis(s, f)
  {
    assert IsLive(s, MaAlignment) && FromHistory(s, MaAlignment, s.cells[MaAlignment]);
    var past := s.history[s.cells[MaAlignment].value.generation].analysis;
    forall i: Indicator ensures i in Cached(s) && i in past.results && Cached(s)[i] == past.results[i] {
      assert IsLive(s, i) && FromHistory(s, i, s.cells[i]);
    }
    assert Cached(s) == past.results;
  }

  // Over every run of whole calls: a live ma_alignment key means all six are live
  // and of one analysis, and a full hit answers with that analysis.
  lemma FullHitIsOneAnalysis(start: int, actions: seq<Action>, f: Frame)
    requires FramesValid(actions)
    ensures var s := Run(Init(start), actions);
            OneGeneration(s) && (FullHit(s) ==> IsOneAnalysis(s, f))
  {
    RunKeepsInv(Init(start), actions);
    var s := Run(Init(start), actions);
    hide Run, Inv;
    if FullHit(s) {
      FullHitAnswer(s, f);
    }
    assert OneGeneration(s) by { InvOneGeneration(s); }
  }

  lemma InvOneGeneration(s: State)
    requires Inv(s)
    ensures OneGeneration(s)
  {
  }

  lemma EntryAfter(s: State, f: Frame, ttl: int, i: Indicator)
    requires f.Valid()
    ensures var s' := Recompute(s, f, ttl);
            && s'.now == s.now && |s'.history| == |s.history| + 1
            && (if IsSufficient(f.bars, i)
                then i in s'.cells && s'.cells[i].deadline == Some(s.now + ttl)
                     && s'.cells[i].value.generation == |s.history|
                else i in s.cells ==> i in s'.cells && s'.cells[i] == s.cells[i])
  {
    hide AnalyzeTechnical;
  }

  lemma AllComputed(f: Frame)
    requires f.Valid()
    ensures AnalyzeTechnical(f).results == Compute(f)
    ensures forall i: Indicator :: i in Compute(f)
  {
  }

  // A call with enough bars answers from its own frame, and for exactly its TTL all
  // later calls answer with its analysis, whatever their frames.
  lemma LongCallServes(start: int, f: Frame, ttl: nat, d: nat, other: Frame)
    requires f.Valid() && f.bars >= 200
    ensures Answer(Init(start), f) == AnalyzeTechnical(f)
    ensures var s := Run(Init(start), [Call(f, ttl), Advance(d)]);
            s.now == start + d
            && Answer(s, other) == if d < ttl then AnalyzeTechnical(f).(bars := other.bars) else AnalyzeTechnical(other)
  {
    hide Compute, Composite, Assemble;
    assert [Call(f, ttl), Advance(d)][1..] == [Advance(d)] && [Advance(d)][1..] == [];
    assert !IsLive(Init(start), Rsi);
    var s1 := Step(Init(start), Call(f, ttl));
    var s2 := Step(s1, Advance(d));
    assert Run(s1, [Advance(d)]) == Run(s2, []);
    assert Run(Init(start), [Call(f, ttl), Advance(d)]) == s2;
    LongCallCaches(start, f, ttl, d);
    hide Run, Step;
    assert d >= ttl ==> !IsLive(s2, Rsi);
    AssembleAgain(f, other);
  }

  lemma LongCallCaches(start: int, f: Frame, ttl: nat, d: nat)
    requires f.Valid() && f.bars >= 200
    ensures var s := Step(Step(Init(start), Call(f, ttl)), Advance(d));
            && (forall i: Indicator :: IsLive(s, i) <==> d < ttl) && (d < ttl ==> Cached(s) == Compute(f))
  {
    assert !IsLive(Init(start), Rsi);
    var s := Step(Step(Init(start), Call(f, ttl)), Advance(d));
    forall i: Indicator ensures i in Compute(f) && Compute(f)[i].Sufficient? {
      EnoughBars(f, i);
    }
    hide Compute, AnalyzeTechnical;
    assert s.cells == Writes(Compute(f), 0, start + ttl);
  }

  lemma AssembleAgain(f: Frame, other: Frame)
    ensures Assemble(Compute(f), other.bars) == AnalyzeTechnical(f).(bars := other.bars)
  {
    hide Compute, Composite;
  }
}
