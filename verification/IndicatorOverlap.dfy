// Overlapping calls of analyze_with_cache: a call loads, and if it missed writes
// back later, whatever other calls have done to the keys since.
module IndicatorOverlap {
  import opened Wrappers
  import opened Redis
  import opened IndicatorCache

  // A call that missed and has not written back yet.
  datatype Pending = Pending(frame: Frame, ttl: int)

  datatype Overlap = Overlap(cache: State, pending: seq<Pending>)

  datatype Event =
    | Pass(d: nat)
    | Load(call: Pending)   // a hit is answered at once
    | Write(k: nat)
    | Drop                  // a split was applied

  function Play(o: Overlap, e: Event): Overlap {
    match e
    case Pass(d) => o.(cache := Step(o.cache, Advance(d)))
    case Load(call) => if FullHit(o.cache) then o else o.(pending := o.pending + [call])
    case Write(k) =>
      if k < |o.pending| then
        Overlap(Recompute(o.cache, o.pending[k].frame, o.pending[k].ttl), o.pending[..k] + o.pending[k + 1..])
      else o
    case Drop => o.(cache := Step(o.cache, Invalidate))
  }

  function PlayAll(o: Overlap, events: seq<Event>): Overlap {
    if events == [] then o else Play(PlayAll(o, events[..|events| - 1]), events[|events| - 1])
  }

  // A call with nobody in between loads and, if it missed, writes at once.
  lemma CallIsLoadWrite(s: State, f: Frame, ttl: int)
    ensures Play(Play(Overlap(s, []), Load(Pending(f, ttl))), Write(0)) == Overlap(Step(s, Call(f, ttl)), [])
  {
  }

  ghost predicate CallValid(call: Pending) {
    call.frame.Valid() && 0 < call.ttl
  }

  ghost predicate EventValid(e: Event) {
    e.Load? ==> CallValid(e.call)
  }

  ghost predicate PendingValid(o: Overlap) {
    forall k :: 0 <= k < |o.pending| ==> CallValid(o.pending[k])
  }

  // A full hit has all its readings from one analysis.
  ghost predicate Unmixed(s: State) {
    FullHit(s) ==>
      IsLive(s, MaAlignment)
      && forall i: Indicator :: IsLive(s, i) && s.cells[i].value.generation == s.cells[MaAlignment].value.generation
  }

  // A write-back of enough bars for some indicators but not for the moving
  // averages, while the moving averages of another analysis are live.
  ghost predicate ShortOnLive(o: Overlap, e: Event) {
    && e.Write? && e.k < |o.pending| && IsLive(o.cache, MaAlignment)
    && MIN_BARS_FOR_ANY_ANALYSIS <= o.pending[e.k].frame.bars < MinBars(MaAlignment)
  }

  // ---------------------------------------------------------------- one write-back

  // Every entry stems from the analysis it names.
  ghost predicate AllFromHistory(s: State) {
    forall i :: i in s.cells ==> FromHistory(s, i, s.cells[i])
  }

  lemma WriteKeepsHistory(s: State, f: Frame, ttl: int)
    requires AllFromHistory(s) && f.Valid()
    ensures AllFromHistory(Recompute(s, f, ttl))
  {
    hide Recompute, FromHistory;
    forall i | i in Recompute(s, f, ttl).cells
      ensures FromHistory(Recompute(s, f, ttl), i, Recompute(s, f, ttl).cells[i])
    {
      RecomputedFromHistory(s, f, ttl, i);
    }
  }

  // 200 bars or more replace all six keys.
  lemma LongWrite(s: State, f: Frame, ttl: int)
    requires f.Valid() && MinBars(MaAlignment) <= f.bars
    ensures OneGeneration(Recompute(s, f, ttl))
  {
    forall i: Indicator ensures IsSufficient(f.bars, i) {
    }
    hide Recompute, IsSufficient;
    forall i: Indicator
      ensures i in Recompute(s, f, ttl).cells && Recompute(s, f, ttl).cells[i].deadline == Some(s.now + ttl)
      ensures i in Recompute(s, f, ttl).cells && Recompute(s, f, ttl).cells[i].value.generation == |s.history|
    {
      EntryAfter(s, f, ttl, i);
    }
    EntryAfter(s, f, ttl, MaAlignment);
  }

  // Fewer than 30 bars write nothing.
  lemma EmptyWrite(s: State, f: Frame, ttl: int)
    requires f.bars < MIN_BARS_FOR_ANY_ANALYSIS
    ensures OneGeneration(Recompute(s, f, ttl)) <==> OneGeneration(s)
  {
    assert Writes(Compute(f), |s.history|, s.now + ttl) == map[];
    var s' := Recompute(s, f, ttl);
    assert s'.cells == s.cells && s'.now == s.now;
    assert forall i: Indicator :: IsLive(s', i) <==> IsLive(s, i);
  }

  // Anything in between leaves the moving averages and replaces the RSI.
  lemma ShortWrite(s: State, f: Frame, ttl: int)
    requires Inv(s) && IsLive(s, MaAlignment) && f.Valid() && 0 < ttl
    requires MIN_BARS_FOR_ANY_ANALYSIS <= f.bars < MinBars(MaAlignment)
    ensures FullHit(Recompute(s, f, ttl)) && !Unmixed(Recompute(s, f, ttl))
  {
    assert IsSufficient(f.bars, Rsi) && !IsSufficient(f.bars, MaAlignment);
    assert FromHistory(s, MaAlignment, s.cells[MaAlignment]);
    hide Recompute, IsSufficient, FromHistory;
    EntryAfter(s, f, ttl, Rsi);
    EntryAfter(s, f, ttl, MaAlignment);
    var s' := Recompute(s, f, ttl);
    forall i: Indicator ensures IsLive(s', i) {
      EntryAfter(s, f, ttl, i);
      assert IsLive(s, i);
    }
    assert s'.cells[Rsi].value.generation != s'.cells[MaAlignment].value.generation;
  }

  lemma WriteKeepsInv(s: State, f: Frame, ttl: int)
    requires Inv(s) && f.Valid()
    requires !IsLive(s, MaAlignment) || f.bars < MIN_BARS_FOR_ANY_ANALYSIS || MinBars(MaAlignment) <= f.bars
    ensures Inv(Recompute(s, f, ttl))
  {
    hide Recompute, FromHistory, OneGeneration, IsLive, Frame.Valid;
    WriteKeepsHistory(s, f, ttl);
    if MinBars(MaAlignment) <= f.bars {
      LongWrite(s, f, ttl);
    } else if f.bars < MIN_BARS_FOR_ANY_ANALYSIS {
      EmptyWrite(s, f, ttl);
    } else {
      RecomputedOneGeneration(s, f, ttl);
    }
  }

  lemma SafeWrite(o: Overlap, k: nat)
    requires Inv(o.cache) && PendingValid(o) && k < |o.pending| && !ShortOnLive(o, Write(k))
    ensures Inv(Play(o, Write(k)).cache)
  {
    hide Inv, Recompute, Frame.Valid;
    assert CallValid(o.pending[k]);
    WriteKeepsInv(o.cache, o.pending[k].frame, o.pending[k].ttl);
  }

  lemma InvUnmixed(s: State)
    requires Inv(s)
    ensures Unmixed(s)
  {
    if FullHit(s) {
      assert IsLive(s, MaAlignment);
    }
  }

  // From a clean state an event mixes readings exactly if it is such a write.
  lemma EventMixesIff(o: Overlap, e: Event)
    requires Inv(o.cache) && PendingValid(o) && EventValid(e)
    ensures PendingValid(Play(o, e))
    ensures Unmixed(Play(o, e).cache) <==> !ShortOnLive(o, e)
    ensures !ShortOnLive(o, e) ==> Inv(Play(o, e).cache)
  {
    hide Inv, Recompute, Unmixed, OneGeneration, IsLive, FullHit, Frame.Valid;
    match e
    case Pass(d) => StepKeepsInv(o.cache, Advance(d)); InvUnmixed(Play(o, e).cache);
    case Load(_) => InvUnmixed(o.cache);
    case Drop => StepKeepsInv(o.cache, Invalidate); InvUnmixed(Play(o, e).cache);
    case Write(k) =>
      if ShortOnLive(o, e) {
        assert CallValid(o.pending[k]);
        ShortWrite(o.cache, o.pending[k].frame, o.pending[k].ttl);
      } else {
        if k < |o.pending| {
          SafeWrite(o, k);
        }
        InvUnmixed(Play(o, e).cache);
      }
  }

  // ---------------------------------------------------------------- whole runs

  ghost predicate EventsValid(events: seq<Event>) {
    forall k :: 0 <= k < |events| ==> EventValid(events[k])
  }

  // At no point of the run does a full hit mix two analyses.
  ghost predicate NeverMixed(o: Overlap, events: seq<Event>) {
    forall k :: 0 <= k <= |events| ==> Unmixed(PlayAll(o, events[..k]).cache)
  }

  // No short write-back of the run lands on live moving averages.
  ghost predicate NoShortOnLive(o: Overlap, events: seq<Event>) {
    forall k :: 0 <= k < |events| ==> !ShortOnLive(PlayAll(o, events[..k]), events[k])
  }

  lemma NeverMixedSnoc(o: Overlap, rest: seq<Event>, e: Event)
    ensures NeverMixed(o, rest + [e]) <==> NeverMixed(o, rest) && Unmixed(Play(PlayAll(o, rest), e).cache)
  {
    hide Play, Unmixed;
    var events := rest + [e];
    assert events[..|events|] == events && events[..|events| - 1] == rest;
    assert PlayAll(o, events) == Play(PlayAll(o, rest), e);
    assert forall k :: 0 <= k <= |rest| ==> events[..k] == rest[..k];
    assert rest[..|rest|] == rest;
    if NeverMixed(o, events) {
      forall k | 0 <= k <= |rest| ensures Unmixed(PlayAll(o, rest[..k]).cache) {
        assert Unmixed(PlayAll(o, events[..k]).cache);
      }
      assert Unmixed(PlayAll(o, events[..|events|]).cache);
    }
  }

  lemma NoShortOnLiveSnoc(o: Overlap, rest: seq<Event>, e: Event)
    ensures NoShortOnLive(o, rest + [e]) <==> NoShortOnLive(o, rest) && !ShortOnLive(PlayAll(o, rest), e)
  {
    hide PlayAll, ShortOnLive;
    var events := rest + [e];
    assert events[..|rest|] == rest && events[|rest|] == e;
    assert forall k :: 0 <= k < |rest| ==> events[..k] == rest[..k] && events[k] == rest[k];
    if NoShortOnLive(o, events) {
      forall k | 0 <= k < |rest| ensures !ShortOnLive(PlayAll(o, rest[..k]), rest[k]) {
        assert !ShortOnLive(PlayAll(o, events[..k]), events[k]);
      }
      assert !ShortOnLive(PlayAll(o, events[..|rest|]), events[|rest|]);
    }
  }

  lemma {:induction false} RunMixesIff(o: Overlap, events: seq<Event>)
    requires Inv(o.cache) && PendingValid(o) && EventsValid(events)
    ensures NeverMixed(o, events) <==> NoShortOnLive(o, events)
    ensures PendingValid(PlayAll(o, events))
    ensures NoShortOnLive(o, events) ==> Inv(PlayAll(o, events).cache)
    decreases |events|
  {
    hide Inv, Play, Unmixed, ShortOnLive, NeverMixed, NoShortOnLive, CallValid;
    if events == [] {
      NothingMixed(o);
    } else {
      var rest, e := events[..|events| - 1], events[|events| - 1];
      assert events == rest + [e];
      RunMixesIff(o, rest);
      NeverMixedSnoc(o, rest, e);
      NoShortOnLiveSnoc(o, rest, e);
      if NoShortOnLive(o, rest) {
        EventMixesIff(PlayAll(o, rest), e);
      } else {
        PendingStaysValid(PlayAll(o, rest), e);
      }
    }
  }

  lemma NothingMixed(o: Overlap)
    requires Inv(o.cache)
    ensures NeverMixed(o, []) && NoShortOnLive(o, [])
  {
    InvUnmixed(o.cache);
    var none: seq<Event> := [];
    assert none[..0] == none;
  }

  lemma PendingStaysValid(o: Overlap, e: Event)
    requires PendingValid(o) && EventValid(e)
    ensures PendingValid(Play(o, e))
  {
  }

  // Over every interleaving of loads and write-backs, time passing and splits: no
  // full hit ever mixes two analyses exactly when no write-back of 30 to 199 bars
  // lands while ma_alignment is live.
  lemma OverlapMixesIff(start: int, events: seq<Event>)
    requires EventsValid(events)
    ensures var o := Overlap(Init(start), []);
            NeverMixed(o, events) <==> NoShortOnLive(o, events)
  {
    RunMixesIff(Overlap(Init(start), []), events);
  }

  // And then every full hit answers with one analysis less than a TTL old.
  lemma CleanHitIsOneAnalysis(start: int, events: seq<Event>, f: Frame)
    requires EventsValid(events) && NoShortOnLive(Overlap(Init(start), []), events)
    ensures var s := PlayAll(Overlap(Init(start), []), events).cache;
            FullHit(s) ==> IsOneAnalysis(s, f)
  {
    RunMixesIff(Overlap(Init(start), []), events);
    var s := PlayAll(Overlap(Init(start), []), events).cache;
    hide PlayAll, Inv, Init;
    if FullHit(s) {
      FullHitAnswer(s, f);
    }
  }

  // Two calls that both miss, the shorter one writing last: in any clean state
  // without a full hit, the next full hit mixes them.
  lemma OverlapMixesGenerations(s: State, long: Frame, short: Frame, ttl: int)
    requires Inv(s) && !FullHit(s) && long.Valid() && short.Valid() && 0 < ttl
    requires 200 <= long.bars && 30 <= short.bars < 200
    ensures var events := [Load(Pending(long, ttl)), Load(Pending(short, ttl)), Write(0), Write(0)];
            !Unmixed(PlayAll(Overlap(s, []), events).cache) && FullHit(PlayAll(Overlap(s, []), events).cache)
  {
    var a, b := Pending(long, ttl), Pending(short, ttl);
    TwoLoads(s, a, b);
    PlayFour(Overlap(s, []), Load(a), Load(b), Write(0), Write(0));
    WriteBoth(s, a, b);
    hide *;
    LongThenShort(s, long, short, ttl);
  }

  lemma LongThenShort(s: State, long: Frame, short: Frame, ttl: int)
    requires Inv(s) && long.Valid() && short.Valid() && 0 < ttl && 200 <= long.bars && 30 <= short.bars < 200
    ensures FullHit(Recompute(Recompute(s, long, ttl), short, ttl))
    ensures !Unmixed(Recompute(Recompute(s, long, ttl), short, ttl))
  {
    hide Recompute, IsLive, FullHit, Unmixed, Frame.Valid;
    LiveAfterLong(s, long, ttl);
    WriteKeepsInv(s, long, ttl);
    ShortWrite(Recompute(s, long, ttl), short, ttl);
  }

  lemma WriteBoth(s: State, a: Pending, b: Pending)
    ensures Play(Play(Overlap(s, [a, b]), Write(0)), Write(0)).cache
         == Recompute(Recompute(s, a.frame, a.ttl), b.frame, b.ttl)
  {
    hide Recompute;
    assert [a, b][..0] + [a, b][1..] == [b];
  }

  lemma TwoLoads(s: State, a: Pending, b: Pending)
    requires !FullHit(s)
    ensures Play(Play(Overlap(s, []), Load(a)), Load(b)) == Overlap(s, [a, b])
  {
  }

  lemma LiveAfterLong(s: State, f: Frame, ttl: int)
    requires f.Valid() && 200 <= f.bars && 0 < ttl
    ensures IsLive(Recompute(s, f, ttl), MaAlignment)
  {
    hide Recompute;
    EntryAfter(s, f, ttl, MaAlignment);
  }

  lemma PlayFour(o: Overlap, a: Event, b: Event, c: Event, d: Event)
    ensures PlayAll(o, [a, b, c, d]) == Play(Play(Play(Play(o, a), b), c), d)
  {
    hide Play;
    assert [a, b, c, d][..3] == [a, b, c] && [a, b, c][..2] == [a, b] && [a, b][..1] == [a] && [a][..0] == [];
    assert PlayAll(o, [a]) == Play(PlayAll(o, []), a);
    assert PlayAll(o, [a, b]) == Play(PlayAll(o, [a]), b);
    assert PlayAll(o, [a, b, c]) == Play(PlayAll(o, [a, b]), c);
    assert PlayAll(o, [a, b, c, d]) == Play(PlayAll(o, [a, b, c]), d);
  }
}
