// When full hits of the indicator cache mix two analyses, command by command.
module IndicatorMixing {
  import opened Wrappers
  import opened Redis
  import IndicatorCache
  import opened IndicatorCommands

  const RSI: Indicator := IndicatorCache.Rsi
  const AVERAGES: Indicator := IndicatorCache.MaAlignment

  predicate Live(s: State, x: Indicator) {
    Get(s.cells, x, s.now).Some?
  }

  // A call that has begun and finds a key missing will write everything.
  lemma Misses(d: Discipline, s0: State, s: State, f: Frame, ttl: int, x: Indicator)
    requires Reaches(d, s0, s) && Obeys(d, s, Begin(f, ttl, s.epoch)) && !Live(s, x)
    ensures Reaches(d, s0, s.(calls := s.calls + [Caller(f, ttl, s.epoch, Writing(0))]))
  {
    hide Reaches;
    var i := |s.calls|;
    Extend(d, s0, s, Begin(f, ttl, s.epoch));
    var s1 := Step(s, Begin(f, ttl, s.epoch));
    LoadAll(d, s0, s1, i, 0, map[]);
    CollectAt(s1, 0, map[], x);
    PositionIs(x);
    hide Collect;
    assert Loaded(Collect(s1, 0, map[])) == Writing(0);
    assert SetStage(s1, i, Writing(0)) == s.(calls := s.calls + [Caller(f, ttl, s.epoch, Writing(0))]);
  }

  // A call that finds all six keys hits on exactly what they hold.
  lemma Hits(d: Discipline, s0: State, s: State, f: Frame, ttl: int) returns (found: map<Indicator, Entry>)
    requires Reaches(d, s0, s) && Obeys(d, s, Begin(f, ttl, s.epoch)) && forall x: Indicator :: Live(s, x)
    ensures Reaches(d, s0, s.(calls := s.calls + [Caller(f, ttl, s.epoch, Hit(found))]))
    ensures forall x: Indicator :: x in found && x in s.cells && found[x] == s.cells[x].value
  {
    hide Reaches;
    var i := |s.calls|;
    Extend(d, s0, s, Begin(f, ttl, s.epoch));
    var s1 := Step(s, Begin(f, ttl, s.epoch));
    LoadAll(d, s0, s1, i, 0, map[]);
    found := Collect(s1, 0, map[]);
    forall x: Indicator ensures x in found && x in s.cells && found[x] == s.cells[x].value {
      assert Live(s, x);
      CollectAt(s1, 0, map[], x);
    }
    hide Collect;
    assert Loaded(found) == Hit(found);
    assert SetStage(s1, i, Hit(found)) == s.(calls := s.calls + [Caller(f, ttl, s.epoch, Hit(found))]);
  }

  // Keys of two generations, all live: the next call's hit is mixed.
  lemma NextHitMixed(d: Discipline, s0: State, s: State, f: Frame, ttl: int) returns (s': State)
    requires Reaches(d, s0, s) && Obeys(d, s, Begin(f, ttl, s.epoch)) && forall x: Indicator :: Live(s, x)
    requires Live(s, RSI) && Live(s, AVERAGES)
    requires s.cells[RSI].value.generation != s.cells[AVERAGES].value.generation
    ensures Reaches(d, s0, s') && !NeverMixed(s')
  {
    var found := Hits(d, s0, s, f, ttl);
    s' := s.(calls := s.calls + [Caller(f, ttl, s.epoch, Hit(found))]);
    assert s'.calls[|s.calls|].stage.Hit? && !Unmixed(found);
  }

  // The call whose turn it is sets the RSI.
  function FirstSet(s: State, i: nat): State
    requires i < |s.calls| && Sets(s.calls[i].frame, RSI)
  {
    SetStage(s.(cells := s.cells[RSI := CellOf(s.calls[i], i, RSI, s.now)]), i, Writing(1))
  }

  lemma SetsFirst(d: Discipline, s0: State, s: State, i: nat)
    requires Reaches(d, s0, s) && i < |s.calls| && s.calls[i].stage == Writing(0) && Sets(s.calls[i].frame, RSI)
    ensures Reaches(d, s0, FirstSet(s, i))
  {
    PositionIs(RSI);
    Extend(d, s0, s, Command(i));
    hide Reaches;
    assert Step(s, Command(i)) == FirstSet(s, i);
  }

  lemma LongSetsAll(f: Frame)
    requires f.Valid() && IsLong(f.bars)
    ensures forall x: Indicator :: Sets(f, x)
  {
  }

  // ---------------------------------------------------------------- overlapping calls

  // Two callers that both missed: one sets a key, the other all six, and the
  // first goes on.
  lemma OverlapMixes(d: Discipline, s0: State, f0: Frame, f1: Frame, ttl: int) returns (s': State)
    requires s0.cells == map[] && s0.calls == [] && d.overlap
    requires 0 < ttl && d.ttls(ttl) && d.bars(f0.bars) && d.bars(f1.bars)
    requires f0.Valid() && f1.Valid() && IsLong(f0.bars) && IsLong(f1.bars)
    ensures Reaches(d, s0, s') && !NeverMixed(s')
  {
    hide Reaches, PutAll;
    LongSetsAll(f0);
    LongSetsAll(f1);
    ReachesItself(d, s0);
    Misses(d, s0, s0, f0, ttl, RSI);
    var s1 := s0.(calls := [Caller(f0, ttl, s0.epoch, Writing(0))]);
    assert s0.calls + [Caller(f0, ttl, s0.epoch, Writing(0))] == s1.calls;
    Misses(d, s0, s1, f1, ttl, RSI);
    var s2 := s1.(calls := s1.calls + [Caller(f1, ttl, s0.epoch, Writing(0))]);
    SetsFirst(d, s0, s2, 0);
    var s3 := FirstSet(s2, 0);
    WriteAll(d, s0, s3, 1, 0);
    var s4 := Written(s3, 1, 0);
    WriteAll(d, s0, s4, 0, 1);
    var s5 := Written(s4, 0, 1);
    forall x: Indicator
      ensures Live(s5, x) && s5.cells[x].value.generation == if x == RSI then 1 else 0
    {
      PositionIs(x);
      PutAt(s3.cells, s3.calls[1], 1, 0, s3.now, x);
      PutAt(s4.cells, s4.calls[0], 0, 1, s4.now, x);
    }
    assert Live(s5, AVERAGES) && Live(s5, RSI);
    s' := NextHitMixed(d, s0, s5, f0, ttl);
  }

  // ---------------------------------------------------------------- calls one by one

  // A long write-back that spreads its SETs by one, up to where the RSI has lapsed
  // and the rest has not.
  lemma LongSpread(d: Discipline, s0: State, long: Frame, ttl: int) returns (s: State)
    requires s0.cells == map[] && s0.calls == [] && 0 < ttl && d.ttls(ttl) && d.bars(long.bars)
    requires long.Valid() && IsLong(long.bars)
    ensures Reaches(d, s0, s) && s.epoch == s0.epoch && |s.calls| == 1 && Closed(s.calls[0])
    ensures forall x: Indicator :: x in s.cells && s.cells[x].value.generation == 0
                                   && s.cells[x].deadline == Some(if x == RSI then s.now else s.now + 1)
  {
    hide Reaches, PutAll;
    LongSetsAll(long);
    ReachesItself(d, s0);
    Misses(d, s0, s0, long, ttl, RSI);
    var s1 := s0.(calls := [Caller(long, ttl, s0.epoch, Writing(0))]);
    assert s0.calls + [Caller(long, ttl, s0.epoch, Writing(0))] == s1.calls;
    SetsFirst(d, s0, s1, 0);
    Extend(d, s0, FirstSet(s1, 0), Pass(1));
    var s2 := FirstSet(s1, 0).(now := s1.now + 1);
    assert Step(FirstSet(s1, 0), Pass(1)) == s2;
    WriteAll(d, s0, s2, 0, 1);
    Extend(d, s0, Written(s2, 0, 1), Pass(ttl - 1));
    s := Written(s2, 0, 1).(now := s2.now + ttl - 1);
    assert Step(Written(s2, 0, 1), Pass(ttl - 1)) == s;
    hide Step;
    SpreadCells(s2, s2.cells, long, ttl, s);
  }

  lemma SpreadCells(s: State, cells: map<Indicator, Cell<Entry>>, long: Frame, ttl: int, s': State)
    requires |s.calls| == 1 && s.calls[0].frame == long && s.calls[0].ttl == ttl && s.cells == cells
    requires (forall x: Indicator :: Sets(long, x))
    requires RSI in cells && cells[RSI].value.generation == 0 && cells[RSI].deadline == Some(s.now - 1 + ttl)
    requires s'.cells == PutAll(cells, s.calls[0], 0, 1, s.now) && s'.now == s.now + ttl - 1
    ensures forall x: Indicator :: x in s'.cells && s'.cells[x].value.generation == 0
                                   && s'.cells[x].deadline == Some(if x == RSI then s'.now else s'.now + 1)
  {
    hide PutAll;
    forall x: Indicator
      ensures x in s'.cells && s'.cells[x].value.generation == 0
      ensures x in s'.cells && s'.cells[x].deadline == Some(if x == RSI then s'.now else s'.now + 1)
    {
      PositionIs(x);
      PutAt(cells, s.calls[0], 0, 1, s.now, x);
    }
  }

  // Then a short call replaces all but the moving averages.
  lemma SpreadMixes(d: Discipline, s0: State, long: Frame, short: Frame, ttl: int) returns (s': State)
    requires s0.cells == map[] && s0.calls == []
    requires 0 < ttl && d.ttls(ttl) && d.bars(long.bars) && d.bars(short.bars)
    requires long.Valid() && short.Valid() && IsLong(long.bars) && IsShort(short.bars)
    ensures Reaches(d, s0, s') && !NeverMixed(s')
  {
    hide Reaches, PutAll;
    var s3 := LongSpread(d, s0, long, ttl);
    assert !Live(s3, RSI);
    Misses(d, s0, s3, short, ttl, RSI);
    var s4 := s3.(calls := s3.calls + [Caller(short, ttl, s3.epoch, Writing(0))]);
    WriteAll(d, s0, s4, 1, 0);
    var s5 := Written(s4, 1, 0);
    ShortOverOld(s4, short, ttl);
    assert Live(s5, AVERAGES) && Live(s5, RSI);
    s' := NextHitMixed(d, s0, s5, short, ttl);
  }

  lemma ShortOverOld(s: State, short: Frame, ttl: int)
    requires |s.calls| == 2 && s.calls[1].frame == short && s.calls[1].ttl == ttl && 0 < ttl
    requires short.Valid() && IsShort(short.bars)
    requires forall x: Indicator :: x in s.cells && s.cells[x].value.generation == 0
    requires forall x: Indicator :: x != RSI ==> x in s.cells && s.cells[x].deadline == Some(s.now + 1)
    ensures var s' := Written(s, 1, 0);
            && (forall x: Indicator :: Live(s', x))
            && s'.cells[RSI].value.generation == 1 && s'.cells[AVERAGES].value.generation == 0
            && forall j :: 0 <= j < 2 ==> Closed(s'.calls[j]) || s'.calls[j] == s.calls[j]
  {
    var s' := Written(s, 1, 0);
    hide PutAll;
    forall x: Indicator ensures Live(s', x) {
      PutAt(s.cells, s.calls[1], 1, 0, s.now, x);
    }
    PutAt(s.cells, s.calls[1], 1, 0, s.now, RSI);
    PutAt(s.cells, s.calls[1], 1, 0, s.now, AVERAGES);
  }

  // ---------------------------------------------------------------- the condition

  function FrameOf(bars: nat): Frame {
    IndicatorCache.Frame(bars, map x: Indicator | x in ORDER :: (0.0, 0.0))
  }

  lemma FrameOfValid(bars: nat)
    ensures FrameOf(bars).Valid() && FrameOf(bars).bars == bars
  {
    forall x: Indicator ensures x in FrameOf(bars).signals && FrameOf(bars).signals[x].0 == 0.0 {
      PositionIs(x);
    }
  }

  // Whatever the TTLs, over every run that a discipline allows: no full hit mixes two calls' readings
  // exactly when no frame has 200 bars, or calls do not overlap and no frame has
  // 30 to 199 bars.
  lemma NeverMixesIff(d: Discipline, now: int)
    requires exists ttl :: 0 < ttl && d.ttls(ttl)
    ensures (forall events: seq<Event> :: ObeysAll(d, Init(now), events) ==> NeverMixed(Run(Init(now), events)))
            <==> Safe(d)
  {
    if Safe(d) {
      forall events: seq<Event> | ObeysAll(d, Init(now), events) ensures NeverMixed(Run(Init(now), events)) {
        SafeNeverMixes(d, now, events);
      }
    } else {
      var s' := UnsafeMixes(d, now);
      var events :| ObeysAll(d, Init(now), events) && Run(Init(now), events) == s';
      assert !NeverMixed(Run(Init(now), events));
    }
  }

  lemma UnsafeMixes(d: Discipline, now: int) returns (s': State)
    requires !Safe(d) && exists ttl :: 0 < ttl && d.ttls(ttl)
    ensures Reaches(d, Init(now), s') && !NeverMixed(s')
  {
    var ttl :| 0 < ttl && d.ttls(ttl);
    var n: nat :| d.bars(n) && IsLong(n);
    FrameOfValid(n);
    if d.overlap {
      s' := OverlapMixes(d, Init(now), FrameOf(n), FrameOf(n), ttl);
    } else {
      var m: nat :| d.bars(m) && IsShort(m);
      FrameOfValid(m);
      s' := SpreadMixes(d, Init(now), FrameOf(n), FrameOf(m), ttl);
    }
  }
}
