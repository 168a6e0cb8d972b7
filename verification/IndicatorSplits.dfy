// Whether cached readings outlive a split: the keys are deleted one by one, then
// the new prices become visible. In between, and afterwards, calls that read the
// old ones may still cache what they computed.
module IndicatorSplits {
  import opened Wrappers
  import opened Redis
  import IndicatorCache
  import opened IndicatorCommands
  import opened IndicatorMixing

  // What may follow a split, until the next: any calls, all reading its prices,
  // with one TTL.
  function AfterSplit(ttl: int): Discipline {
    Discipline(true, (bars: nat) => true, (t: int) => t == ttl, false, true)
  }

  ghost predicate WellFormed(s: State) {
    && AllFromCalls(s) && AllLapse(s)
    && forall j :: 0 <= j < |s.calls| ==> CallerFits(s.calls[j], s.epoch)
  }

  ghost predicate AllLapse(s: State) {
    forall x :: x in s.cells ==> s.cells[x].deadline.Some?
  }

  ghost predicate CallerFits(c: Caller, epoch: nat) {
    && c.frame.Valid() && 0 < c.ttl && c.epoch <= epoch
    && match c.stage
       case Loading(k, found) => k < |ORDER| && forall x :: x in found ==> Position(x) < k
       case Writing(k) => k < |ORDER|
       case _ => true
  }

  lemma NextFits(s: State, i: nat)
    requires i < |s.calls| && CallerFits(s.calls[i], s.epoch)
    ensures CallerFits(Next(s, i).calls[i], s.epoch)
  {
    var c := s.calls[i];
    if c.stage.Loading? || c.stage.Writing? {
      OrderIs(c.stage.k);
    }
  }

  lemma StepKeepsLapse(s: State, e: Event)
    requires AllLapse(s)
    ensures AllLapse(Step(s, e))
  {
    forall x | x in Step(s, e).cells ensures Step(s, e).cells[x].deadline.Some? {
      CellStep(s, e, x);
      hide Step;
    }
  }

  lemma StepKeepsWellFormed(d: Discipline, s: State, e: Event)
    requires WellFormed(s) && Obeys(d, s, e)
    ensures WellFormed(Step(s, e))
  {
    assert [e][1..] == [] && Run(s, [e]) == Run(Step(s, e), []);
    RunKeepsFromCalls(s, [e]);
    StepKeepsLapse(s, e);
    hide AllFromCalls, AllLapse;
    if e.Command? && e.i < |s.calls| {
      NextFits(s, e.i);
      hide CallerFits;
      assert forall j :: 0 <= j < |s.calls| && j != e.i ==> Step(s, e).calls[j] == s.calls[j];
    }
  }

  lemma {:induction false} RunKeepsWellFormed(d: Discipline, s: State, events: seq<Event>)
    requires WellFormed(s) && ObeysAll(d, s, events)
    ensures WellFormed(Run(s, events))
    decreases |events|
  {
    hide WellFormed, Step, Obeys;
    if events != [] {
      StepKeepsWellFormed(d, s, events[0]);
      RunKeepsWellFormed(d, Step(s, events[0]), events[1..]);
    }
  }

  // ---------------------------------------------------------------- the condition

  // No GET would return a reading of earlier prices.
  ghost predicate LiveFresh(s: State) {
    forall x :: Live(s, x) ==> ReadAt(s, s.cells[x].value, s.epoch)
  }

  ghost predicate NoneLive(s: State) {
    forall x :: !Live(s, x)
  }

  // The call may still set a key.
  ghost predicate WillSet(c: Caller) {
    match c.stage
    case Loading(_, _) => IndicatorCache.MIN_BARS_FOR_ANY_ANALYSIS <= c.frame.bars
    case Writing(k) => exists m :: k <= m < |ORDER| && Sets(c.frame, ORDER[m])
    case _ => false
  }

  // A call that read earlier prices may still set a key.
  ghost predicate StaleWriter(s: State) {
    exists j :: 0 <= j < |s.calls| && s.calls[j].epoch < s.epoch && WillSet(s.calls[j])
  }

  // Every hit of a call from the n-th on has only readings of these prices.
  ghost predicate HitsFresh(s: State, n: nat, epoch: nat) {
    forall j, x :: n <= j < |s.calls| && s.calls[j].stage.Hit? && x in s.calls[j].stage.found ==>
      ReadAt(s, s.calls[j].stage.found[x], epoch)
  }

  ghost predicate ReadAt(s: State, r: Entry, epoch: nat) {
    r.generation < |s.calls| && s.calls[r.generation].epoch == epoch
  }

  // ---------------------------------------------------------------- without such a call

  ghost predicate StaysFresh(s: State, n: nat, epoch: nat) {
    && s.epoch == epoch && WellFormed(s) && LiveFresh(s)
    && (forall j :: 0 <= j < |s.calls| && s.calls[j].epoch < epoch ==> !WillSet(s.calls[j]))
    && (forall j, x :: n <= j < |s.calls| && x in FoundBy(s.calls[j]) ==> ReadAt(s, FoundBy(s.calls[j])[x], epoch))
  }

  // A call that will set nothing goes on that way, and sets nothing now.
  lemma IdleStaysIdle(s: State, i: nat)
    requires i < |s.calls| && CallerFits(s.calls[i], s.epoch) && !WillSet(s.calls[i])
    ensures !WillSet(Next(s, i).calls[i]) && Next(s, i).cells == s.cells
  {
    var c := s.calls[i];
    if c.stage.Loading? && Next(s, i).calls[i].stage.Writing? {
      forall m | 0 <= m < |ORDER| ensures !Sets(c.frame, ORDER[m]) {
      }
    }
  }

  lemma StepStaysFreshCells(ttl: int, s: State, e: Event, n: nat, epoch: nat)
    requires StaysFresh(s, n, epoch) && Obeys(AfterSplit(ttl), s, e)
    ensures LiveFresh(Step(s, e))
  {
    hide AllFromCalls, IndicatorCache.Compute, Loaded, AfterGet;
    FramesStay(s, e);
    assert e.Command? && e.i < |s.calls| ==> CallerFits(s.calls[e.i], s.epoch);
    if e.Command? && e.i < |s.calls| && !WillSet(s.calls[e.i]) {
      IdleStaysIdle(s, e.i);
      hide WillSet, Next;
      assert Step(s, e).cells == s.cells && Step(s, e).now == s.now;
    } else {
      forall x | Live(Step(s, e), x)
        ensures ReadAt(Step(s, e), Step(s, e).cells[x].value, epoch)
      {
        CellStep(s, e, x);
        hide Step, WillSet;
      }
    }
  }

  lemma StepStaysFreshCalls(ttl: int, s: State, e: Event, n: nat, epoch: nat, j: nat)
    requires StaysFresh(s, n, epoch) && Obeys(AfterSplit(ttl), s, e)
    requires j < |Step(s, e).calls| && Step(s, e).calls[j].epoch < epoch
    ensures !WillSet(Step(s, e).calls[j])
  {
    if e.Command? && e.i == j {
      IdleStaysIdle(s, j);
    }
  }

  lemma StepStaysFreshFound(ttl: int, s: State, e: Event, n: nat, epoch: nat, j: nat, x: Indicator)
    requires StaysFresh(s, n, epoch) && Obeys(AfterSplit(ttl), s, e)
    requires n <= j < |Step(s, e).calls| && x in FoundBy(Step(s, e).calls[j])
    ensures ReadAt(Step(s, e), FoundBy(Step(s, e).calls[j])[x], epoch)
  {
    FramesStay(s, e);
    FoundStep(s, e, j, x);
    hide Step, FoundBy, WellFormed, WillSet;
    assert Get(s.cells, x, s.now).Some? ==> Live(s, x);
  }

  lemma StepStaysFresh(ttl: int, s: State, e: Event, n: nat, epoch: nat)
    requires StaysFresh(s, n, epoch) && Obeys(AfterSplit(ttl), s, e)
    ensures StaysFresh(Step(s, e), n, epoch)
  {
    hide CallerFits, AllFromCalls, AllLapse, Live;
    StepKeepsWellFormed(AfterSplit(ttl), s, e);
    StepStaysFreshCells(ttl, s, e, n, epoch);
    assert Step(s, e).epoch == epoch;
    forall j | 0 <= j < |Step(s, e).calls| && Step(s, e).calls[j].epoch < epoch
      ensures !WillSet(Step(s, e).calls[j])
    {
      StepStaysFreshCalls(ttl, s, e, n, epoch, j);
    }
    hide WellFormed, WillSet, Step, FoundBy, ReadAt;
    forall j, x | n <= j < |Step(s, e).calls| && x in FoundBy(Step(s, e).calls[j])
      ensures ReadAt(Step(s, e), FoundBy(Step(s, e).calls[j])[x], epoch)
    {
      StepStaysFreshFound(ttl, s, e, n, epoch, j, x);
    }
  }

  lemma {:induction false} RunStaysFresh(ttl: int, s: State, events: seq<Event>, n: nat, epoch: nat)
    requires StaysFresh(s, n, epoch) && ObeysAll(AfterSplit(ttl), s, events)
    ensures StaysFresh(Run(s, events), n, epoch)
    decreases |events|
  {
    hide StaysFresh, Step, Obeys;
    if events != [] {
      StepStaysFresh(ttl, s, events[0], n, epoch);
      RunStaysFresh(ttl, Step(s, events[0]), events[1..], n, epoch);
    }
  }

  // ---------------------------------------------------------------- with such a call

  // From then on none of the first k keys is live.
  function LapsedBy(s: State, k: nat): int
    requires k <= |ORDER|
  {
    if k == 0 then s.now
    else
      var before := LapsedBy(s, k - 1);
      if ORDER[k - 1] in s.cells then
        var deadline := s.cells[ORDER[k - 1]].deadline.GetOr(before);
        if before < deadline then deadline else before
      else before
  }

  lemma {:induction false} LapsedByIs(s: State, k: nat, x: Indicator)
    requires k <= |ORDER| && (x in s.cells ==> s.cells[x].deadline.Some?)
    ensures s.now <= LapsedBy(s, k)
    ensures Position(x) < k ==> Get(s.cells, x, LapsedBy(s, k)).None?
  {
    PositionIs(x);
    if k > 0 {
      OrderIs(k - 1);
      LapsedByIs(s, k - 1, x);
    }
  }

  // Time can pass until no key is live.
  lemma LapseAll(d: Discipline, s0: State, s: State) returns (later: int)
    requires Reaches(d, s0, s) && AllLapse(s)
    ensures Reaches(d, s0, s.(now := later)) && NoneLive(s.(now := later))
  {
    hide Reaches;
    later := LapsedBy(s, |ORDER|);
    forall x: Indicator ensures s.now <= later && !Live(s.(now := later), x) {
      LapsedByIs(s, |ORDER|, x);
      PositionIs(x);
    }
    assert !Live(s.(now := later), RSI);
    Extend(d, s0, s, Pass(later - s.now));
    assert Step(s, Pass(later - s.now)) == s.(now := later);
  }

  // The stale call comes to a SET.
  lemma {:induction false} SkipToSet(ttl: int, s0: State, s: State, j: nat, k: nat) returns (m: nat)
    requires Reaches(AfterSplit(ttl), s0, s) && j < |s.calls| && s.calls[j].stage == Writing(k) && WillSet(s.calls[j])
    ensures k <= m < |ORDER| && Sets(s.calls[j].frame, ORDER[m])
    ensures Reaches(AfterSplit(ttl), s0, SetStage(s, j, Writing(m)))
    decreases |ORDER| - k
  {
    hide Reaches;
    var c := s.calls[j];
    if Sets(c.frame, ORDER[k]) {
      m := k;
      assert SetStage(s, j, Writing(m)) == s;
    } else {
      Extend(AfterSplit(ttl), s0, s, Command(j));
      var s1 := Step(s, Command(j));
      assert k + 1 < |ORDER| && s1 == SetStage(s, j, Writing(k + 1));
      m := SkipToSet(ttl, s0, s1, j, k + 1);
      assert SetStage(s1, j, Writing(m)) == SetStage(s, j, Writing(m));
    }
  }

  lemma ComesToSet(ttl: int, s0: State, s: State, j: nat) returns (m: nat)
    requires Reaches(AfterSplit(ttl), s0, s) && NoneLive(s) && j < |s.calls|
    requires CallerFits(s.calls[j], s.epoch) && WillSet(s.calls[j])
    ensures m < |ORDER| && Sets(s.calls[j].frame, ORDER[m])
    ensures Reaches(AfterSplit(ttl), s0, SetStage(s, j, Writing(m)))
  {
    hide Reaches;
    var c := s.calls[j];
    match c.stage
    case Loading(k, found) =>
      LoadAll(AfterSplit(ttl), s0, s, j, k, found);
      CollectAt(s, k, found, ORDER[k]);
      OrderIs(k);
      assert !Live(s, ORDER[k]);
      assert ORDER[k] !in Collect(s, k, found);
      hide Collect;
      var s1 := SetStage(s, j, Writing(0));
      assert Loaded(Collect(s, k, found)) == Writing(0);
      PositionIs(RSI);
      assert Sets(c.frame, ORDER[0]);
      m := SkipToSet(ttl, s0, s1, j, 0);
      assert SetStage(s1, j, Writing(m)) == SetStage(s, j, Writing(m));
    case Writing(k) =>
      m := SkipToSet(ttl, s0, s, j, k);
  }

  // A call with the new prices caches all six keys, the stale call replaces one of
  // them, and the next hit contains it.
  lemma StaleHit(ttl: int, s0: State, s: State, j: nat, m: nat) returns (s': State)
    requires Reaches(AfterSplit(ttl), s0, s) && NoneLive(s) && j < |s.calls| && |s0.calls| <= |s.calls|
    requires s.calls[j].stage == Writing(m) && m < |ORDER| && Sets(s.calls[j].frame, ORDER[m])
    requires s.calls[j].epoch < s.epoch && 0 < s.calls[j].ttl && 0 < ttl
    ensures Reaches(AfterSplit(ttl), s0, s') && !HitsFresh(s', |s0.calls|, s.epoch)
  {
    hide Reaches, PutAll;
    var f, i, x := FrameOf(200), |s.calls|, ORDER[m];
    FrameOfValid(200);
    LongSetsAll(f);
    assert !Live(s, RSI);
    Misses(AfterSplit(ttl), s0, s, f, ttl, RSI);
    var s1 := s.(calls := s.calls + [Caller(f, ttl, s.epoch, Writing(0))]);
    WriteAll(AfterSplit(ttl), s0, s1, i, 0);
    var s2 := Written(s1, i, 0);
    Extend(AfterSplit(ttl), s0, s2, Command(j));
    var s3 := Step(s2, Command(j));
    SetNow(s2, j, m);
    forall y: Indicator ensures Live(s3, y) {
      PutAt(s1.cells, s1.calls[i], i, 0, s1.now, y);
    }
    var found := Hits(AfterSplit(ttl), s0, s3, f, ttl);
    s' := s3.(calls := s3.calls + [Caller(f, ttl, s3.epoch, Hit(found))]);
    assert s'.calls[|s3.calls|].stage.found[x].generation == j && s'.calls[j].epoch == s.calls[j].epoch;
    assert !ReadAt(s', found[x], s.epoch);
  }

  lemma SetNow(s: State, j: nat, m: nat)
    requires j < |s.calls| && s.calls[j].stage == Writing(m) && m < |ORDER| && Sets(s.calls[j].frame, ORDER[m])
    ensures var s' := Step(s, Command(j));
            && s'.cells == s.cells[ORDER[m] := CellOf(s.calls[j], j, ORDER[m], s.now)]
            && s'.now == s.now && s'.epoch == s.epoch
            && |s'.calls| == |s.calls| && s'.calls[j].epoch == s.calls[j].epoch
  {
  }

  lemma StaleWriterShows(ttl: int, s: State) returns (s': State)
    requires 0 < ttl && WellFormed(s) && StaleWriter(s)
    ensures Reaches(AfterSplit(ttl), s, s') && !HitsFresh(s', |s.calls|, s.epoch)
  {
    var j :| 0 <= j < |s.calls| && s.calls[j].epoch < s.epoch && WillSet(s.calls[j]);
    assert CallerFits(s.calls[j], s.epoch);
    hide Reaches, WellFormed;
    ReachesItself(AfterSplit(ttl), s);
    var later := LapseAll(AfterSplit(ttl), s, s);
    var s1 := s.(now := later);
    var m := ComesToSet(ttl, s, s1, j);
    var s2 := SetStage(s1, j, Writing(m));
    forall x ensures !Live(s2, x) {
      assert !Live(s1, x);
    }
    s' := StaleHit(ttl, s, s2, j, m);
  }

  // ---------------------------------------------------------------- with such a key

  // One call writes, another loads right behind it: both come to key p.
  lemma {:induction false} Chase(d: Discipline, s0: State, s: State, a: nat, b: nat, k: nat, p: nat,
                                 found: map<Indicator, Entry>)
      returns (s': State, found': map<Indicator, Entry>)
    requires Reaches(d, s0, s) && a < b < |s.calls| && k <= p < |ORDER|
    requires s.calls[a].stage == Writing(k) && s.calls[b].stage == Loading(k, found)
    requires 0 < s.calls[a].ttl && forall y: Indicator :: Sets(s.calls[a].frame, y)
    requires forall y: Indicator :: y in found <==> Position(y) < k
    ensures Reaches(d, s0, s') && s'.now == s.now && s'.epoch == s.epoch
    ensures s'.calls == s.calls[a := s.calls[a].(stage := Writing(p))][b := s.calls[b].(stage := Loading(p, found'))]
    ensures forall y: Indicator :: y in found' <==> Position(y) < p
    ensures forall y: Indicator :: p <= Position(y) ==> Get(s'.cells, y, s.now) == Get(s.cells, y, s.now)
    decreases p - k
  {
    hide Reaches, IndicatorCache.Compute;
    if k == p {
      s', found' := s, found;
      assert s.calls == s.calls[a := s.calls[a].(stage := Writing(p))][b := s.calls[b].(stage := Loading(p, found))];
    } else {
      OrderIs(k);
      var y := ORDER[k];
      Extend(d, s0, s, Command(a));
      var s1 := Step(s, Command(a));
      assert s1 == SetStage(s.(cells := s.cells[y := CellOf(s.calls[a], a, y, s.now)]), a, Writing(k + 1));
      Extend(d, s0, s1, Command(b));
      var more := AfterGet(s1, k, found);
      var s2 := Step(s1, Command(b));
      assert s2 == SetStage(s1, b, Loading(k + 1, more));
      forall z: Indicator ensures z in more <==> Position(z) < k + 1 {
        PositionIs(z);
      }
      s', found' := Chase(d, s0, s2, a, b, k + 1, p, more);
    }
  }

  // Some call begun since s has hit on r under x.
  ghost predicate HasHit(s: State, s': State, x: Indicator, r: Entry) {
    && |s.calls| <= |s'.calls|
    && (forall j :: 0 <= j < |s.calls| ==> s'.calls[j].epoch == s.calls[j].epoch)
    && exists j :: |s.calls| <= j < |s'.calls| && HitOn(s'.calls[j], x, r)
  }

  predicate HitOn(c: Caller, x: Indicator, r: Entry) {
    c.stage.Hit? && x in c.stage.found && c.stage.found[x] == r
  }

  // The writer sets its other keys, and the load finds them all.
  lemma FinishesAsHit(d: Discipline, s0: State, s: State, a: nat, b: nat, k: nat, found: map<Indicator, Entry>)
      returns (s': State, all: map<Indicator, Entry>)
    requires Reaches(d, s0, s) && a < b < |s.calls| && 0 < k < |ORDER| && 0 < s.calls[a].ttl
    requires s.calls[a].stage == Writing(k - 1) && s.calls[b].stage == Loading(k, found)
    requires forall y: Indicator :: Sets(s.calls[a].frame, y)
    requires forall y: Indicator :: y in found <==> Position(y) < k
    ensures Reaches(d, s0, s') && forall y :: y in found ==> y in all && all[y] == found[y]
    ensures s'.calls == s.calls[a := s.calls[a].(stage := Done)][b := s.calls[b].(stage := Hit(all))]
  {
    hide Reaches, PutAll, IndicatorCache.Compute;
    WriteAll(d, s0, s, a, k - 1);
    var s1 := Written(s, a, k - 1);
    LoadAll(d, s0, s1, b, k, found);
    all := Collect(s1, k, found);
    forall y: Indicator ensures y in all && (y in found ==> all[y] == found[y]) {
      PutAt(s.cells, s.calls[a], a, k - 1, s.now, y);
      CollectAt(s1, k, found, y);
    }
    hide Collect;
    s' := SetStage(s1, b, Loaded(all));
  }

  // The load reads x, which comes next, before the writer sets it.
  lemma ReadsFirst(d: Discipline, s0: State, s: State, a: nat, b: nat, x: Indicator, found: map<Indicator, Entry>)
      returns (s': State)
    requires Reaches(d, s0, s) && a < b < |s.calls| && 0 < s.calls[a].ttl && Live(s, x)
    requires s.calls[a].stage == Writing(Position(x)) && s.calls[b].stage == Loading(Position(x), found)
    requires forall y: Indicator :: Sets(s.calls[a].frame, y)
    requires forall y: Indicator :: y in found <==> Position(y) < Position(x)
    ensures Reaches(d, s0, s') && |s'.calls| == |s.calls| && HitOn(s'.calls[b], x, s.cells[x].value)
    ensures forall j :: 0 <= j < |s.calls| ==> s'.calls[j].epoch == s.calls[j].epoch
  {
    hide Reaches, Sets;
    PositionIs(x);
    Extend(d, s0, s, Command(b));
    var p, s1, more := Position(x), Step(s, Command(b)), found[x := s.cells[x].value];
    forall y: Indicator ensures y in more <==> Position(y) < p + 1 {
      PositionIs(y);
    }
    assert AfterGet(s, p, found) == more;
    if p + 1 == |ORDER| {
      s' := s1;
      assert s1 == SetStage(s, b, Hit(more));
    } else {
      assert s1 == SetStage(s, b, Loading(p + 1, more));
      hide Step;
      var all;
      s', all := FinishesAsHit(d, s0, s1, a, b, p + 1, more);
    }
  }

  // If some key is missing, a new call rewrites the keys ahead of x and waits until
  // another has read x; that one then finds the rest as well.
  lemma ReadsBehind(ttl: int, s: State, x: Indicator, missing: Indicator) returns (s': State)
    requires 0 < ttl && Live(s, x) && !Live(s, missing)
    ensures Reaches(AfterSplit(ttl), s, s') && HasHit(s, s', x, s.cells[x].value)
  {
    hide Reaches;
    var d, f, a, b := AfterSplit(ttl), FrameOf(200), |s.calls|, |s.calls| + 1;
    FrameOfValid(200);
    LongSetsAll(f);
    PositionIs(x);
    ReachesItself(d, s);
    Misses(d, s, s, f, ttl, missing);
    var s1 := s.(calls := s.calls + [Caller(f, ttl, s.epoch, Writing(0))]);
    Extend(d, s, s1, Begin(f, ttl, s.epoch));
    var s2 := Step(s1, Begin(f, ttl, s.epoch));
    assert s2 == s.(calls := s1.calls + [Caller(f, ttl, s.epoch, Loading(0, map[]))]);
    hide AfterSplit, Sets, FrameOf, Step;
    var s3, found := Chase(d, s, s2, a, b, 0, Position(x), map[]);
    assert Get(s3.cells, x, s3.now) == Some(s.cells[x].value);
    s' := ReadsFirst(d, s, s3, a, b, x, found);
    assert HitOn(s'.calls[b], x, s.cells[x].value);
  }

  // Otherwise the next call hits.
  lemma ReadsAll(ttl: int, s: State, x: Indicator) returns (s': State)
    requires 0 < ttl && Live(s, x) && forall y: Indicator :: Live(s, y)
    ensures Reaches(AfterSplit(ttl), s, s') && HasHit(s, s', x, s.cells[x].value)
  {
    hide Reaches;
    FrameOfValid(200);
    ReachesItself(AfterSplit(ttl), s);
    var found := Hits(AfterSplit(ttl), s, s, FrameOf(200), ttl);
    s' := s.(calls := s.calls + [Caller(FrameOf(200), ttl, s.epoch, Hit(found))]);
    assert Live(s, x) && HitOn(s'.calls[|s.calls|], x, s.cells[x].value);
  }

  lemma StaleKeyShows(ttl: int, s: State) returns (s': State)
    requires 0 < ttl && WellFormed(s) && !LiveFresh(s)
    ensures Reaches(AfterSplit(ttl), s, s') && !HitsFresh(s', |s.calls|, s.epoch)
  {
    hide Reaches;
    var x :| Live(s, x) && !ReadAt(s, s.cells[x].value, s.epoch);
    var r := s.cells[x].value;
    assert FromItsCall(s, x, r);
    if missing: Indicator :| !Live(s, missing) {
      s' := ReadsBehind(ttl, s, x, missing);
    } else {
      s' := ReadsAll(ttl, s, x);
    }
    hide WellFormed;
    var j :| |s.calls| <= j < |s'.calls| && HitOn(s'.calls[j], x, r);
    assert !ReadAt(s', r, s.epoch);
  }

  // ---------------------------------------------------------------- the theorems

  // From any state, every hit of a later call is free of readings of earlier prices,
  // whatever happens, exactly when no live key holds one and no call that read
  // earlier prices may still set a key.
  lemma SplitEffectiveIff(d: Discipline, now: int, before: seq<Event>, ttl: int)
    requires 0 < ttl && ObeysAll(d, Init(now), before)
    ensures var s := Run(Init(now), before);
            (forall after: seq<Event> :: ObeysAll(AfterSplit(ttl), s, after) ==>
               HitsFresh(Run(s, after), |s.calls|, s.epoch))
            <==> LiveFresh(s) && !StaleWriter(s)
  {
    RunKeepsWellFormed(d, Init(now), before);
    EffectiveIff(Run(Init(now), before), ttl);
  }

  lemma EffectiveIff(s: State, ttl: int)
    requires 0 < ttl && WellFormed(s)
    ensures (forall after: seq<Event> :: ObeysAll(AfterSplit(ttl), s, after) ==>
               HitsFresh(Run(s, after), |s.calls|, s.epoch))
            <==> LiveFresh(s) && !StaleWriter(s)
  {
    hide AfterSplit;
    if LiveFresh(s) && !StaleWriter(s) {
      forall after: seq<Event> | ObeysAll(AfterSplit(ttl), s, after)
        ensures HitsFresh(Run(s, after), |s.calls|, s.epoch)
      {
        RunStaysFresh(ttl, s, after, |s.calls|, s.epoch);
        FoundFresh(Run(s, after), |s.calls|, s.epoch);
      }
    } else {
      var s';
      if StaleWriter(s) {
        s' := StaleWriterShows(ttl, s);
      } else {
        s' := StaleKeyShows(ttl, s);
      }
      var after :| ObeysAll(AfterSplit(ttl), s, after) && Run(s, after) == s';
      assert !HitsFresh(Run(s, after), |s.calls|, s.epoch);
    }
  }

  // So a commit takes effect at once exactly when it finds no key live and no call
  // that may still set one.
  lemma CommitEffectiveIff(d: Discipline, now: int, before: seq<Event>, ttl: int)
    requires 0 < ttl && ObeysAll(d, Init(now), before)
    ensures var s := Run(Init(now), before);
            var s' := Step(s, Commit);
            (forall after: seq<Event> :: ObeysAll(AfterSplit(ttl), s', after) ==>
               HitsFresh(Run(s', after), |s'.calls|, s'.epoch))
            <==> NoneLive(s) && forall j :: 0 <= j < |s.calls| ==> !WillSet(s.calls[j])
  {
    RunKeepsWellFormed(d, Init(now), before);
    var s := Run(Init(now), before);
    hide Run, ObeysAll;
    CommitKeepsWellFormed(s);
    EffectiveIff(Step(s, Commit), ttl);
    AllStaleAfterCommit(s);
  }

  lemma CommitKeepsWellFormed(s: State)
    requires WellFormed(s)
    ensures WellFormed(Step(s, Commit))
  {
  }

  lemma AllStaleAfterCommit(s: State)
    requires WellFormed(s)
    ensures LiveFresh(Step(s, Commit)) <==> NoneLive(s)
    ensures StaleWriter(Step(s, Commit)) <==> exists j :: 0 <= j < |s.calls| && WillSet(s.calls[j])
  {
    var s' := Step(s, Commit);
    hide WillSet;
    forall j | 0 <= j < |s.calls| ensures s'.calls[j].epoch < s'.epoch {
      assert CallerFits(s.calls[j], s.epoch);
    }
    forall x ensures Live(s', x) == Live(s, x) && !(Live(s, x) && ReadAt(s', s'.cells[x].value, s'.epoch)) {
      if Live(s, x) {
        assert FromItsCall(s, x, s.cells[x].value);
      }
    }
  }

  lemma FoundFresh(s: State, n: nat, epoch: nat)
    requires StaysFresh(s, n, epoch)
    ensures HitsFresh(s, n, epoch)
  {
    forall j, x | n <= j < |s.calls| && s.calls[j].stage.Hit? && x in s.calls[j].stage.found
      ensures ReadAt(s, s.calls[j].stage.found[x], epoch)
    {
      assert x in FoundBy(s.calls[j]);
    }
  }

  // The invalidation: one DEL for each key.
  function Deletions(): seq<Event> {
    seq(|ORDER|, k requires 0 <= k < |ORDER| => Delete(ORDER[k]))
  }

  lemma {:induction false} DeletedFirst(d: Discipline, s0: State, before: seq<Event>, n: nat)
    requires ObeysAll(d, s0, before) && n <= |ORDER|
    ensures ObeysAll(d, s0, before + Deletions()[..n])
    ensures var s, s' := Run(s0, before), Run(s0, before + Deletions()[..n]);
            s' == s.(cells := s'.cells) && forall x :: x in s'.cells <==> x in s.cells && Position(x) >= n
    decreases n
  {
    if n == 0 {
      assert before + Deletions()[..0] == before;
    } else {
      DeletedFirst(d, s0, before, n - 1);
      var sofar, x := before + Deletions()[..n - 1], ORDER[n - 1];
      assert before + Deletions()[..n] == sofar + [Delete(x)];
      RunSnoc(d, s0, sofar, Delete(x));
      OrderIs(n - 1);
      forall y: Indicator ensures ORDER[Position(y)] == y {
        PositionIs(y);
      }
      hide Run, ObeysAll;
    }
  }

  // While no call is open, a split's deletions and its commit take effect at once:
  // all later hits are free of earlier readings.
  lemma QuietSplitEffective(d: Discipline, now: int, before: seq<Event>, ttl: int, after: seq<Event>)
    requires 0 < ttl && ObeysAll(d, Init(now), before)
    requires forall j :: 0 <= j < |Run(Init(now), before).calls| ==> Closed(Run(Init(now), before).calls[j])
    requires ObeysAll(AfterSplit(ttl), Step(Run(Init(now), before + Deletions()), Commit), after)
    ensures var s := Step(Run(Init(now), before + Deletions()), Commit);
            s.cells == map[] && HitsFresh(Run(s, after), |s.calls|, s.epoch)
  {
    DeletedFirst(d, Init(now), before, |ORDER|);
    assert Deletions()[..|ORDER|] == Deletions();
    var s := Run(Init(now), before + Deletions());
    forall x: Indicator ensures Position(x) < |ORDER| {
      PositionIs(x);
    }
    assert s.cells == map[];
    CommitEffectiveIff(d, now, before + Deletions(), ttl);
  }
}
