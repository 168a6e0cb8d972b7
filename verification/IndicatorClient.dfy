// The cache functions as the code runs them: loops of single Redis commands, with
// time passing before each.
module IndicatorClient {
  import opened Wrappers
  import opened Redis
  import IndicatorCache
  import opened IndicatorCommands
  import opened Counting

  // The first n commands of call i, command m coming delay(m) after the one before.
  ghost function After(s: State, i: nat, n: nat, delay: nat -> nat): State {
    if n == 0 then s else Step(Step(After(s, i, n - 1, delay), Pass(delay(n - 1))), Command(i))
  }

  lemma AfterNothing(s: State, i: nat, delay: nat -> nat)
    ensures After(s, i, 0, delay) == s
  {
  }

  lemma AfterStep(s: State, i: nat, n: nat, delay: nat -> nat)
    ensures After(s, i, n + 1, delay) == Step(Step(After(s, i, n, delay), Pass(delay(n))), Command(i))
  {
  }

  lemma SetsIff(f: Frame, x: Indicator)
    ensures Sets(f, x) <==> x in IndicatorCache.Compute(f) && IndicatorCache.Compute(f)[x].Sufficient?
  {
  }

  // Counting the hits tells a full hit.
  lemma CountTells(found: map<Indicator, Entry>)
    ensures |found| == |ORDER| <==> Loaded(found).Hit?
  {
    var all := {IndicatorCache.Rsi, IndicatorCache.Macd, IndicatorCache.MaAlignment, IndicatorCache.Bollinger,
                IndicatorCache.Volume, IndicatorCache.Atr};
    forall x: Indicator ensures x in all {
      match x {
        case Rsi => case Macd => case MaAlignment => case Bollinger => case Volume => case Atr =>
      }
    }
    assert |found.Keys| == |found|;
    if Loaded(found).Hit? {
      forall x | x in all ensures x in found {
        AllFound(found, x);
      }
      assert found.Keys == all;
    } else {
      var k :| 0 <= k < |ORDER| && ORDER[k] !in found;
      SubsetCard(found.Keys, all - {ORDER[k]});
    }
  }

  function Results(found: map<Indicator, Entry>): IndicatorCache.Results {
    map x | x in found :: found[x].result
  }

  class Cache {
    const redis: Strings<Indicator, Entry>
    var begun: nat              // numbers the calls
    ghost var calls: seq<Caller>
    ghost var epoch: nat

    constructor (redis: Strings<Indicator, Entry>)
      requires redis.cells == map[]
      ensures this.redis == redis && Snapshot() == Init(redis.now) && begun == 0
    {
      this.redis := redis;
      begun, calls, epoch := 0, [], 0;
    }

    ghost function Snapshot(): State
      reads this, redis
    {
      State(redis.now, redis.cells, calls, epoch)
    }

    // The six GETs.
    method LoadCachedIndicators(i: nat, delay: nat -> nat) returns (out: map<Indicator, Entry>)
      requires i < |calls| && calls[i].stage == Loading(0, map[])
      modifies this`calls, redis`now
      ensures Snapshot() == After(old(Snapshot()), i, |ORDER|, delay) && |calls| == |old(calls)|
      ensures calls[i] == old(calls)[i].(stage := Loaded(out))
    {
      hide After;
      out := map[];
      AfterNothing(Snapshot(), i, delay);
      for k := 0 to |ORDER|
        invariant Snapshot() == After(old(Snapshot()), i, k, delay) && |calls| == |old(calls)|
        invariant calls[i] == old(calls)[i].(stage := if k == |ORDER| then Loaded(out) else Loading(k, out))
      {
        AfterStep(old(Snapshot()), i, k, delay);
        redis.Advance(delay(k));
        var payload := Get(redis.cells, ORDER[k], redis.now);
        if payload.Some? {
          out := out[ORDER[k] := payload.value];
        }
        calls := calls[i := calls[i].(stage := if k + 1 == |ORDER| then Loaded(out) else Loading(k + 1, out))];
      }
    }

    // The SETs of the sufficient indicators, the first coming delay(6) later.
    method CacheIndicators(results: IndicatorCache.Results, ttl: int, i: nat, delay: nat -> nat, ghost start: State)
      requires i < |calls| && calls[i].stage == Writing(0) && calls[i].ttl == ttl
      requires results == IndicatorCache.Compute(calls[i].frame)
      requires Snapshot() == After(start, i, |ORDER|, delay)
      modifies this`calls, redis`now, redis`cells
      ensures Snapshot() == After(start, i, 2 * |ORDER|, delay) && |calls| == |old(calls)|
      ensures calls[i] == old(calls)[i].(stage := Done)
    {
      hide After, IndicatorCache.Compute, IndicatorCache.IsSufficient, Sets;
      for k := 0 to |ORDER|
        invariant Snapshot() == After(start, i, |ORDER| + k, delay) && |calls| == |old(calls)|
        invariant calls[i] == old(calls)[i].(stage := if k == |ORDER| then Done else Writing(k))
      {
        AfterStep(start, i, |ORDER| + k, delay);
        SetsIff(calls[i].frame, ORDER[k]);
        redis.Advance(delay(|ORDER| + k));
        if ORDER[k] in results && results[ORDER[k]].Sufficient? {
          redis.SetEx(ORDER[k], IndicatorCache.Entry(results[ORDER[k]], i), ttl);
        }
        calls := calls[i := calls[i].(stage := if k + 1 == |ORDER| then Done else Writing(k + 1))];
      }
    }

    // A hit answers with what it found; a miss computes, writes and answers afresh.
    method AnalyzeWithCache(f: Frame, ttl: int, delay: nat -> nat) returns (analysis: IndicatorCache.Analysis)
      requires f.Valid() && begun == |calls|
      modifies this`calls, this`begun, redis`now, redis`cells
      ensures begun == |calls| == |old(calls)| + 1 && Closed(calls[|old(calls)|])
      ensures var i, stage := |old(calls)|, calls[|old(calls)|].stage;
              var start := Step(old(Snapshot()), Begin(f, ttl, epoch));
              && Snapshot() == After(start, i, if stage.Hit? then |ORDER| else 2 * |ORDER|, delay)
              && analysis == if stage.Hit? then IndicatorCache.Assemble(Results(stage.found), f.bars)
                             else IndicatorCache.AnalyzeTechnical(f)
    {
      hide IndicatorCache.Assemble, IndicatorCache.AnalyzeTechnical, After;
      ghost var start := Step(Snapshot(), Begin(f, ttl, epoch));
      var i := begun;
      begun := begun + 1;
      calls := calls + [Caller(f, ttl, epoch, Loading(0, map[]))];
      var cached := LoadCachedIndicators(i, delay);
      CountTells(cached);
      if |cached| == |ORDER| {
        return IndicatorCache.Assemble(Results(cached), f.bars);
      }
      analysis := IndicatorCache.AnalyzeTechnical(f);
      IndicatorCache.AllComputed(f);
      CacheIndicators(analysis.results, ttl, i, delay, start);
    }
  }

  // In every run of a safe discipline, a full hit answers with the readings,
  // composite and action of one earlier analysis.
  lemma SafeHitAnswers(d: Discipline, now: int, events: seq<Event>, j: nat)
    requires Safe(d) && ObeysAll(d, Init(now), events)
    requires j < |Run(Init(now), events).calls| && Run(Init(now), events).calls[j].stage.Hit?
    ensures var s := Run(Init(now), events);
            var c := s.calls[j];
            exists g :: && 0 <= g < |s.calls|
                        && IndicatorCache.Assemble(Results(c.stage.found), c.frame.bars)
                           == IndicatorCache.AnalyzeTechnical(s.calls[g].frame).(bars := c.frame.bars)
  {
    hide Run, ObeysAll, Safe, IndicatorCache.Composite, IndicatorCache.ActionFor;
    SafeHitIsOneCall(d, now, events, j);
    var s := Run(Init(now), events);
    var found := s.calls[j].stage.found;
    var g :| 0 <= g < |s.calls| && IsCall(s, found, g);
    assert Results(found) == IndicatorCache.Compute(s.calls[g].frame);
  }

  // ---------------------------------------------------------------- no delays

  // With no time in between, a call hits exactly if all six keys are live.
  lemma HitAtOnce(s: State, i: nat)
    requires i < |s.calls| && s.calls[i].stage == Loading(0, map[])
    ensures Loaded(Collect(s, 0, map[])).Hit? <==> forall x: Indicator :: Get(s.cells, x, s.now).Some?
  {
    forall x: Indicator ensures x in Collect(s, 0, map[]) <==> Get(s.cells, x, s.now).Some? {
      CollectAt(s, 0, map[], x);
      PositionIs(x);
    }
    if Loaded(Collect(s, 0, map[])).Hit? {
      forall x: Indicator ensures x in Collect(s, 0, map[]) {
        AllFound(Collect(s, 0, map[]), x);
      }
    }
  }

  // And its SETs together are the write-back of the model with whole calls.
  lemma WriteAtOnce(s: State, i: nat)
    requires i < |s.calls|
    ensures PutAll(s.cells, s.calls[i], i, 0, s.now)
         == s.cells + IndicatorCache.Writes(IndicatorCache.Compute(s.calls[i].frame), i, s.now + s.calls[i].ttl)
  {
    var writes := IndicatorCache.Writes(IndicatorCache.Compute(s.calls[i].frame), i, s.now + s.calls[i].ttl);
    var put := PutAll(s.cells, s.calls[i], i, 0, s.now);
    hide PutAll;
    forall x: Indicator
      ensures (x in put <==> x in s.cells + writes) && (x in put ==> put[x] == (s.cells + writes)[x])
    {
      PutAt(s.cells, s.calls[i], i, 0, s.now, x);
    }
  }
}
