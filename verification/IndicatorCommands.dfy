// analyze_with_cache command by command: six GETs, then after a miss six SETs,
// with time and other calls in between.
module IndicatorCommands {
  import opened Wrappers
  import opened Redis
  import IndicatorCache
  import opened Counting

  type Indicator = IndicatorCache.Indicator
  type Frame = IndicatorCache.Frame
  type Entry = IndicatorCache.Entry

  const ORDER: seq<Indicator> := IndicatorCache.ORDER

  // How far a call is, with the readings its GETs have found.
  datatype Stage =
    | Loading(k: nat, found: map<Indicator, Entry>)
    | Writing(k: nat)
    | Hit(found: map<Indicator, Entry>)
    | Done

  // `epoch` counts the splits committed when the call's prices were read.
  datatype Caller = Caller(frame: Frame, ttl: int, epoch: nat, stage: Stage)

  // A call's index is the generation of the readings it sets.
  datatype State = State(now: int, cells: map<Indicator, Cell<Entry>>, calls: seq<Caller>, epoch: nat)

  datatype Event =
    | Pass(d: nat)
    | Begin(frame: Frame, ttl: int, epoch: nat)
    | Command(i: nat)          // the next command of call i
    | Delete(x: Indicator)     // one key of a split's invalidation
    | Commit                   // a split's new prices become visible

  function Init(now: int): State {
    State(now, map[], [], 0)
  }

  // After the last GET: a hit if all six were found.
  function Loaded(found: map<Indicator, Entry>): Stage {
    if forall k :: 0 <= k < |ORDER| ==> ORDER[k] in found then Hit(found) else Writing(0)
  }

  function AfterGet(s: State, k: nat, found: map<Indicator, Entry>): map<Indicator, Entry>
    requires k < |ORDER|
  {
    var hit := Get(s.cells, ORDER[k], s.now);
    if hit.Some? then found[ORDER[k] := hit.value] else found
  }

  predicate Sets(f: Frame, x: Indicator) {
    x in f.signals && IndicatorCache.IsSufficient(f.bars, x)
  }

  // What call i sets under x.
  function CellOf(c: Caller, i: nat, x: Indicator, now: int): Cell<Entry>
    requires Sets(c.frame, x)
  {
    Cell(IndicatorCache.Entry(IndicatorCache.Compute(c.frame)[x], i), Some(now + c.ttl))
  }

  function AfterSet(cells: map<Indicator, Cell<Entry>>, c: Caller, i: nat, k: nat, now: int)
    : map<Indicator, Cell<Entry>>
    requires k < |ORDER|
  {
    if Sets(c.frame, ORDER[k]) then cells[ORDER[k] := CellOf(c, i, ORDER[k], now)] else cells
  }

  function SetStage(s: State, i: nat, stage: Stage): State
    requires i < |s.calls|
  {
    s.(calls := s.calls[i := s.calls[i].(stage := stage)])
  }

  function Next(s: State, i: nat): State
    requires i < |s.calls|
  {
    match s.calls[i].stage
    case Loading(k, found) =>
      if k < |ORDER| then
        var more := AfterGet(s, k, found);
        SetStage(s, i, if k + 1 == |ORDER| then Loaded(more) else Loading(k + 1, more))
      else s
    case Writing(k) =>
      if k < |ORDER| then
        SetStage(s.(cells := AfterSet(s.cells, s.calls[i], i, k, s.now)), i,
                 if k + 1 == |ORDER| then Done else Writing(k + 1))
      else s
    case _ => s
  }

  function Step(s: State, e: Event): State {
    match e
    case Pass(d) => s.(now := s.now + d)
    case Begin(frame, ttl, epoch) => s.(calls := s.calls + [Caller(frame, ttl, epoch, Loading(0, map[]))])
    case Command(i) => if i < |s.calls| then Next(s, i) else s
    case Delete(x) => s.(cells := s.cells - {x})
    case Commit => s.(epoch := s.epoch + 1)
  }

  function Run(s: State, events: seq<Event>): State
    decreases |events|
  {
    if events == [] then s else Run(Step(s, events[0]), events[1..])
  }

  // ---------------------------------------------------------------- disciplines

  // Which runs are allowed: whether calls may overlap, how many bars a frame may
  // have, which TTLs are used, whether splits may commit, and whether calls read
  // the latest prices.
  datatype Discipline =
    Discipline(overlap: bool, bars: nat -> bool, ttls: int -> bool, commits: bool, latest: bool)

  predicate Closed(c: Caller) {
    c.stage.Hit? || c.stage.Done?
  }

  ghost predicate Obeys(d: Discipline, s: State, e: Event) {
    match e
    case Begin(frame, ttl, epoch) =>
      && frame.Valid() && d.bars(frame.bars) && 0 < ttl && d.ttls(ttl)
      && epoch <= s.epoch && (d.latest ==> epoch == s.epoch)
      && (d.overlap || forall j :: 0 <= j < |s.calls| ==> Closed(s.calls[j]))
    case Commit => d.commits
    case _ => true
  }

  ghost predicate ObeysAll(d: Discipline, s: State, events: seq<Event>)
    decreases |events|
  {
    events == [] || (Obeys(d, s, events[0]) && ObeysAll(d, Step(s, events[0]), events[1..]))
  }

  // s can be reached from s0.
  ghost predicate Reaches(d: Discipline, s0: State, s: State) {
    exists events :: ObeysAll(d, s0, events) && Run(s0, events) == s
  }

  lemma ReachesItself(d: Discipline, s: State)
    ensures Reaches(d, s, s)
  {
    assert ObeysAll(d, s, []) && Run(s, []) == s;
  }

  lemma {:induction false} RunSnoc(d: Discipline, s: State, events: seq<Event>, e: Event)
    requires ObeysAll(d, s, events) && Obeys(d, Run(s, events), e)
    ensures ObeysAll(d, s, events + [e]) && Run(s, events + [e]) == Step(Run(s, events), e)
    decreases |events|
  {
    hide Step, Obeys;
    var more := events + [e];
    if events == [] {
      assert more == [e] && more[1..] == [];
      assert Run(Step(s, e), []) == Step(s, e) && ObeysAll(d, Step(s, e), []);
    } else {
      assert more[0] == events[0] && more[1..] == events[1..] + [e];
      RunSnoc(d, Step(s, events[0]), events[1..], e);
    }
  }

  lemma Extend(d: Discipline, s0: State, s: State, e: Event)
    requires Reaches(d, s0, s) && Obeys(d, s, e)
    ensures Reaches(d, s0, Step(s, e))
  {
    hide Step, Obeys, Run, ObeysAll;
    var events :| ObeysAll(d, s0, events) && Run(s0, events) == s;
    RunSnoc(d, s0, events, e);
  }

  // ---------------------------------------------------------------- mixing

  predicate Unmixed(found: map<Indicator, Entry>) {
    forall x, y :: x in found && y in found ==> found[x].generation == found[y].generation
  }

  // No call that hit on all six keys got them from different calls.
  ghost predicate NeverMixed(s: State) {
    forall j :: 0 <= j < |s.calls| && s.calls[j].stage.Hit? ==> Unmixed(s.calls[j].stage.found)
  }

  predicate IsShort(bars: nat) {
    IndicatorCache.MIN_BARS_FOR_ANY_ANALYSIS <= bars < IndicatorCache.MinBars(IndicatorCache.MaAlignment)
  }

  predicate IsLong(bars: nat) {
    IndicatorCache.MinBars(IndicatorCache.MaAlignment) <= bars
  }

  // No frame is long, or calls do not overlap and no frame is short.
  ghost predicate Safe(d: Discipline) {
    || (forall n: nat :: d.bars(n) ==> !IsLong(n))
    || (!d.overlap && forall n: nat :: d.bars(n) ==> !IsShort(n))
  }

  function Position(x: Indicator): nat {
    match x
    case Rsi => 0
    case Macd => 1
    case MaAlignment => 2
    case Bollinger => 3
    case Volume => 4
    case Atr => 5
  }

  lemma PositionIs(x: Indicator)
    ensures Position(x) < |ORDER| && ORDER[Position(x)] == x
  {
  }

  lemma OrderIs(k: nat)
    requires k < |ORDER|
    ensures Position(ORDER[k]) == k
  {
  }

  // ---- without long frames the moving averages are never set

  ghost predicate NoAverages(s: State) {
    && IndicatorCache.MaAlignment !in s.cells
    && forall j :: 0 <= j < |s.calls| ==>
         && !IsLong(s.calls[j].frame.bars) && !s.calls[j].stage.Hit?
         && (s.calls[j].stage.Loading? ==> IndicatorCache.MaAlignment !in s.calls[j].stage.found)
  }

  lemma StepKeepsNoAverages(d: Discipline, s: State, e: Event)
    requires NoAverages(s) && Obeys(d, s, e) && forall n: nat :: d.bars(n) ==> !IsLong(n)
    ensures NoAverages(Step(s, e))
  {
    PositionIs(IndicatorCache.MaAlignment);
  }

  lemma {:induction false} RunKeepsNoAverages(d: Discipline, s: State, events: seq<Event>)
    requires NoAverages(s) && ObeysAll(d, s, events) && forall n: nat :: d.bars(n) ==> !IsLong(n)
    ensures NoAverages(Run(s, events))
    decreases |events|
  {
    hide NoAverages, Step, Obeys;
    if events != [] {
      StepKeepsNoAverages(d, s, events[0]);
      RunKeepsNoAverages(d, Step(s, events[0]), events[1..]);
    }
  }

  // ---- one call at a time, without short frames

  predicate Alike(cells: map<Indicator, Cell<Entry>>, lo: nat) {
    forall x, y :: x in cells && y in cells && lo <= Position(x) && lo <= Position(y) ==>
      cells[x].value.generation == cells[y].value.generation
  }

  // The keys of a write-back so far, and the rest as one call left them.
  ghost predicate StageFits(s: State, i: nat)
    requires i < |s.calls|
  {
    match s.calls[i].stage
    case Loading(k, found) =>
      && k < |ORDER| && Alike(s.cells, 0) && Unmixed(found)
      && (forall x, y :: x in found && y in s.cells ==> found[x].generation == s.cells[y].value.generation)
    case Writing(k) =>
      && k < |ORDER|
      && (if IsLong(s.calls[i].frame.bars)
          then Alike(s.cells, k) && forall x :: x in s.cells && Position(x) < k ==> s.cells[x].value.generation == i
          else Alike(s.cells, 0))
    case _ => Alike(s.cells, 0)
  }

  ghost predicate OneAtATime(s: State) {
    && NeverMixed(s)
    && (forall j :: 0 <= j < |s.calls| ==> s.calls[j].frame.Valid() && !IsShort(s.calls[j].frame.bars))
    && (forall j :: 0 <= j < |s.calls| - 1 ==> Closed(s.calls[j]))
    && (if |s.calls| == 0 then s.cells == map[] else StageFits(s, |s.calls| - 1))
  }

  lemma GetKeepsOne(s: State, i: nat)
    requires OneAtATime(s) && i == |s.calls| - 1 && s.calls[i].stage.Loading?
    ensures OneAtATime(Next(s, i))
  {
  }

  lemma SetKeepsOne(s: State, i: nat)
    requires OneAtATime(s) && i == |s.calls| - 1 && s.calls[i].stage.Writing?
    ensures OneAtATime(Next(s, i))
  {
    OrderIs(s.calls[i].stage.k);
    var s' := Next(s, i);
    assert s'.calls[i].frame == s.calls[i].frame && forall j :: 0 <= j < i ==> s'.calls[j] == s.calls[j];
    SetFits(s, i);
    hide StageFits, AfterSet;
  }

  // A long frame's next SET.
  lemma LongSetFits(cells: map<Indicator, Cell<Entry>>, c: Caller, i: nat, k: nat, now: int)
    requires k < |ORDER| && c.frame.Valid() && IsLong(c.frame.bars) && Alike(cells, k)
    requires forall x :: x in cells && Position(x) < k ==> cells[x].value.generation == i
    ensures Alike(AfterSet(cells, c, i, k, now), k + 1)
    ensures forall x :: x in AfterSet(cells, c, i, k, now) && Position(x) < k + 1 ==>
              AfterSet(cells, c, i, k, now)[x].value.generation == i
  {
    hide IndicatorCache.Compute;
    OrderIs(k);
    forall x: Indicator ensures ORDER[Position(x)] == x {
      PositionIs(x);
    }
  }

  // A frame of fewer than 30 bars sets nothing.
  lemma TinySetsNothing(f: Frame, x: Indicator)
    requires !IsShort(f.bars) && !IsLong(f.bars)
    ensures !Sets(f, x)
  {
  }

  lemma SetFits(s: State, i: nat)
    requires i < |s.calls| && s.calls[i].stage.Writing? && StageFits(s, i)
    requires s.calls[i].frame.Valid() && !IsShort(s.calls[i].frame.bars)
    ensures StageFits(Next(s, i), i)
  {
    var c, k := s.calls[i], s.calls[i].stage.k;
    if IsLong(c.frame.bars) {
      LongSetFits(s.cells, c, i, k, s.now);
    } else {
      TinySetsNothing(c.frame, ORDER[k]);
      assert AfterSet(s.cells, c, i, k, s.now) == s.cells;
    }
    hide AfterSet, IsLong, IsShort, Sets;
    forall x: Indicator ensures Position(x) < |ORDER| {
      PositionIs(x);
    }
  }

  lemma StepKeepsOne(d: Discipline, s: State, e: Event)
    requires OneAtATime(s) && Obeys(d, s, e) && !d.overlap && forall n: nat :: d.bars(n) ==> !IsShort(n)
    ensures OneAtATime(Step(s, e))
  {
    hide Next, AfterSet;
    match e
    case Command(i) =>
      if i == |s.calls| - 1 && s.calls[i].stage.Loading? {
        GetKeepsOne(s, i);
      } else if i == |s.calls| - 1 && s.calls[i].stage.Writing? {
        SetKeepsOne(s, i);
      } else if i < |s.calls| {
        ClosedStays(s, i);
      }
    case _ =>
  }

  lemma ClosedStays(s: State, i: nat)
    requires i < |s.calls| && Closed(s.calls[i])
    ensures Next(s, i) == s
  {
  }

  lemma {:induction false} RunKeepsOne(d: Discipline, s: State, events: seq<Event>)
    requires OneAtATime(s) && ObeysAll(d, s, events) && !d.overlap && forall n: nat :: d.bars(n) ==> !IsShort(n)
    ensures OneAtATime(Run(s, events))
    decreases |events|
  {
    hide OneAtATime, Step, Obeys;
    if events != [] {
      StepKeepsOne(d, s, events[0]);
      RunKeepsOne(d, Step(s, events[0]), events[1..]);
    }
  }

  // ---- every reading is the analysis of the call it names

  ghost predicate FromItsCall(s: State, x: Indicator, e: Entry) {
    && e.generation < |s.calls| && Sets(s.calls[e.generation].frame, x)
    && e.result == IndicatorCache.Compute(s.calls[e.generation].frame)[x]
  }

  function FoundBy(c: Caller): map<Indicator, Entry> {
    if c.stage.Loading? || c.stage.Hit? then c.stage.found else map[]
  }

  ghost predicate AllFromCalls(s: State) {
    && (forall x :: x in s.cells ==> FromItsCall(s, x, s.cells[x].value))
    && (forall j, x :: 0 <= j < |s.calls| && x in FoundBy(s.calls[j]) ==> FromItsCall(s, x, FoundBy(s.calls[j])[x]))
  }

  lemma FramesStay(s: State, e: Event)
    ensures |s.calls| <= |Step(s, e).calls|
    ensures forall j :: 0 <= j < |s.calls| ==>
              Step(s, e).calls[j].frame == s.calls[j].frame && Step(s, e).calls[j].epoch == s.calls[j].epoch
  {
  }

  lemma StillFromItsCall(s: State, e: Event, x: Indicator, r: Entry)
    requires FromItsCall(s, x, r)
    ensures FromItsCall(Step(s, e), x, r)
  {
    FramesStay(s, e);
    hide Step;
  }

  // A cell is an old one or set by some call; a reading found is an old one or a
  // live cell's.
  lemma CellStep(s: State, e: Event, x: Indicator)
    requires x in Step(s, e).cells
    ensures || (x in s.cells && Step(s, e).cells[x] == s.cells[x])
            || (e.Command? && e.i < |s.calls| && Sets(s.calls[e.i].frame, x)
                && Step(s, e).cells[x] == CellOf(s.calls[e.i], e.i, x, s.now))
  {
    hide Loaded, AfterGet, IndicatorCache.Compute;
  }

  lemma FoundStep(s: State, e: Event, j: nat, x: Indicator)
    requires j < |Step(s, e).calls| && x in FoundBy(Step(s, e).calls[j])
    ensures var r := FoundBy(Step(s, e).calls[j])[x];
            || (j < |s.calls| && x in FoundBy(s.calls[j]) && r == FoundBy(s.calls[j])[x])
            || Get(s.cells, x, s.now) == Some(r)
  {
  }

  lemma NewCellFromCall(s: State, e: Event, x: Indicator)
    requires AllFromCalls(s) && x in Step(s, e).cells
    ensures FromItsCall(Step(s, e), x, Step(s, e).cells[x].value)
  {
    CellStep(s, e, x);
    hide Step;
    if x in s.cells && Step(s, e).cells[x] == s.cells[x] {
      StillFromItsCall(s, e, x, s.cells[x].value);
    } else {
      StillFromItsCall(s, e, x, Step(s, e).cells[x].value);
    }
  }

  lemma NewFoundFromCall(s: State, e: Event, j: nat, x: Indicator)
    requires AllFromCalls(s) && j < |Step(s, e).calls| && x in FoundBy(Step(s, e).calls[j])
    ensures FromItsCall(Step(s, e), x, FoundBy(Step(s, e).calls[j])[x])
  {
    FoundStep(s, e, j, x);
    hide Step, FromItsCall, FoundBy;
    StillFromItsCall(s, e, x, FoundBy(Step(s, e).calls[j])[x]);
  }

  lemma {:induction false} RunKeepsFromCalls(s: State, events: seq<Event>)
    requires AllFromCalls(s)
    ensures AllFromCalls(Run(s, events))
    decreases |events|
  {
    if events != [] {
      var e := events[0];
      forall x | x in Step(s, e).cells ensures FromItsCall(Step(s, e), x, Step(s, e).cells[x].value) {
        NewCellFromCall(s, e, x);
      }
      forall j, x | 0 <= j < |Step(s, e).calls| && x in FoundBy(Step(s, e).calls[j])
        ensures FromItsCall(Step(s, e), x, FoundBy(Step(s, e).calls[j])[x])
      {
        NewFoundFromCall(s, e, j, x);
      }
      hide Step, FromItsCall;
      RunKeepsFromCalls(Step(s, e), events[1..]);
    }
  }

  // The hit holds exactly what one call computed.
  ghost predicate IsOneCall(s: State, found: map<Indicator, Entry>) {
    exists g :: 0 <= g < |s.calls| && IsCall(s, found, g)
  }

  ghost predicate IsCall(s: State, found: map<Indicator, Entry>, g: nat)
    requires g < |s.calls|
  {
    forall x: Indicator ::
      x in found && Sets(s.calls[g].frame, x)
      && found[x] == IndicatorCache.Entry(IndicatorCache.Compute(s.calls[g].frame)[x], g)
  }

  lemma AllFound(found: map<Indicator, Entry>, x: Indicator)
    requires Loaded(found).Hit?
    ensures x in found
  {
    PositionIs(x);
  }

  ghost predicate HitsComplete(s: State) {
    forall j :: 0 <= j < |s.calls| && s.calls[j].stage.Hit? ==> Loaded(s.calls[j].stage.found).Hit?
  }

  lemma {:induction false} RunKeepsComplete(s: State, events: seq<Event>)
    requires HitsComplete(s)
    ensures HitsComplete(Run(s, events))
    decreases |events|
  {
    if events != [] {
      StepKeepsComplete(s, events[0]);
      RunKeepsComplete(Step(s, events[0]), events[1..]);
    }
  }

  lemma StepKeepsComplete(s: State, e: Event)
    requires HitsComplete(s)
    ensures HitsComplete(Step(s, e))
  {
  }

  // In every run of a safe discipline each full hit is one earlier analysis.
  lemma SafeHitIsOneCall(d: Discipline, now: int, events: seq<Event>, j: nat)
    requires Safe(d) && ObeysAll(d, Init(now), events)
    requires j < |Run(Init(now), events).calls| && Run(Init(now), events).calls[j].stage.Hit?
    ensures IsOneCall(Run(Init(now), events), Run(Init(now), events).calls[j].stage.found)
  {
    SafeNeverMixes(d, now, events);
    RunKeepsFromCalls(Init(now), events);
    RunKeepsComplete(Init(now), events);
    var s := Run(Init(now), events);
    hide Run, ObeysAll, Safe;
    var found := s.calls[j].stage.found;
    AllFound(found, IndicatorCache.Rsi);
    var g := found[IndicatorCache.Rsi].generation;
    forall x: Indicator
      ensures x in found && FromItsCall(s, x, found[x]) && found[x].generation == g
    {
      AllFound(found, x);
      assert x in FoundBy(s.calls[j]);
    }
    assert FromItsCall(s, IndicatorCache.Rsi, found[IndicatorCache.Rsi]);
    assert IsCall(s, found, g);
  }

  lemma SafeNeverMixes(d: Discipline, now: int, events: seq<Event>)
    requires Safe(d) && ObeysAll(d, Init(now), events)
    ensures NeverMixed(Run(Init(now), events))
  {
    if forall n: nat :: d.bars(n) ==> !IsLong(n) {
      RunKeepsNoAverages(d, Init(now), events);
    } else {
      RunKeepsOne(d, Init(now), events);
    }
  }

  // ---------------------------------------------------------------- building runs

  // All remaining GETs of a load at one instant.
  function Collect(s: State, k: nat, found: map<Indicator, Entry>): map<Indicator, Entry>
    decreases |ORDER| - k
  {
    if k < |ORDER| then Collect(s, k + 1, AfterGet(s, k, found)) else found
  }

  lemma {:induction false} CollectAt(s: State, k: nat, found: map<Indicator, Entry>, x: Indicator)
    requires forall y :: y in found ==> Position(y) < k
    ensures var all := Collect(s, k, found);
            if Position(x) < k then (x in all <==> x in found) && (x in found ==> all[x] == found[x])
            else
              var hit := Get(s.cells, x, s.now);
              (x in all <==> hit.Some?) && (hit.Some? ==> all[x] == hit.value)
    decreases |ORDER| - k
  {
    PositionIs(x);
    if k < |ORDER| {
      OrderIs(k);
      CollectAt(s, k + 1, AfterGet(s, k, found), x);
    }
  }

  lemma {:induction false} LoadAll(d: Discipline, s0: State, s: State, i: nat, k: nat, found: map<Indicator, Entry>)
    requires Reaches(d, s0, s) && i < |s.calls| && s.calls[i].stage == Loading(k, found) && k < |ORDER|
    ensures Reaches(d, s0, SetStage(s, i, Loaded(Collect(s, k, found))))
    decreases |ORDER| - k
  {
    hide Reaches, Loaded, Collect;
    CollectStep(s, k, found);
    Extend(d, s0, s, Command(i));
    var s1, more := Step(s, Command(i)), AfterGet(s, k, found);
    if k + 1 < |ORDER| {
      assert s1 == SetStage(s, i, Loading(k + 1, more));
      LoadAll(d, s0, s1, i, k + 1, more);
      SameCollect(s, s1, k + 1, more);
      assert SetStage(s1, i, Loaded(Collect(s, k, found))) == SetStage(s, i, Loaded(Collect(s, k, found)));
    } else {
      assert s1 == SetStage(s, i, Loaded(more));
    }
  }

  lemma CollectStep(s: State, k: nat, found: map<Indicator, Entry>)
    requires k < |ORDER|
    ensures Collect(s, k, found) == Collect(s, k + 1, AfterGet(s, k, found))
    ensures k + 1 == |ORDER| ==> Collect(s, k, found) == AfterGet(s, k, found)
  {
  }

  lemma {:induction false} SameCollect(s: State, s': State, k: nat, found: map<Indicator, Entry>)
    requires s.cells == s'.cells && s.now == s'.now
    ensures Collect(s, k, found) == Collect(s', k, found)
    decreases |ORDER| - k
  {
    if k < |ORDER| {
      SameCollect(s, s', k + 1, AfterGet(s, k, found));
    }
  }

  // All remaining SETs of a write-back at one instant.
  function PutAll(cells: map<Indicator, Cell<Entry>>, c: Caller, i: nat, k: nat, now: int): map<Indicator, Cell<Entry>>
    decreases |ORDER| - k
  {
    if k < |ORDER| then PutAll(AfterSet(cells, c, i, k, now), c, i, k + 1, now) else cells
  }

  lemma {:induction false} PutAt(cells: map<Indicator, Cell<Entry>>, c: Caller, i: nat, k: nat, now: int, x: Indicator)
    ensures var all := PutAll(cells, c, i, k, now);
            if k <= Position(x) && Sets(c.frame, x) then x in all && all[x] == CellOf(c, i, x, now)
            else (x in all <==> x in cells) && (x in cells ==> all[x] == cells[x])
    decreases |ORDER| - k
  {
    PositionIs(x);
    if k < |ORDER| {
      OrderIs(k);
      PutAt(AfterSet(cells, c, i, k, now), c, i, k + 1, now, x);
    }
  }

  function Written(s: State, i: nat, k: nat): State
    requires i < |s.calls|
  {
    SetStage(s.(cells := PutAll(s.cells, s.calls[i], i, k, s.now)), i, Done)
  }

  lemma {:induction false} WriteAll(d: Discipline, s0: State, s: State, i: nat, k: nat)
    requires Reaches(d, s0, s) && i < |s.calls| && s.calls[i].stage == Writing(k) && k < |ORDER|
    ensures Reaches(d, s0, Written(s, i, k))
    decreases |ORDER| - k
  {
    hide Reaches, PutAll;
    Extend(d, s0, s, Command(i));
    var s1, cells := Step(s, Command(i)), AfterSet(s.cells, s.calls[i], i, k, s.now);
    PutStep(s.cells, s.calls[i], i, k, s.now);
    if k + 1 < |ORDER| {
      assert s1 == SetStage(s.(cells := cells), i, Writing(k + 1));
      WriteAll(d, s0, s1, i, k + 1);
      SamePut(cells, s.calls[i], s1.calls[i], i, k + 1, s.now);
      assert Written(s1, i, k + 1) == Written(s, i, k);
    } else {
      assert s1 == Written(s, i, k);
    }
  }

  lemma PutStep(cells: map<Indicator, Cell<Entry>>, c: Caller, i: nat, k: nat, now: int)
    requires k < |ORDER|
    ensures PutAll(cells, c, i, k, now) == PutAll(AfterSet(cells, c, i, k, now), c, i, k + 1, now)
    ensures k + 1 == |ORDER| ==> PutAll(cells, c, i, k, now) == AfterSet(cells, c, i, k, now)
  {
  }

  lemma {:induction false} SamePut(cells: map<Indicator, Cell<Entry>>, c: Caller, c': Caller, i: nat, k: nat, now: int)
    requires c.frame == c'.frame && c.ttl == c'.ttl
    ensures PutAll(cells, c, i, k, now) == PutAll(cells, c', i, k, now)
    decreases |ORDER| - k
  {
    if k < |ORDER| {
      SameAfterSet(cells, c, c', i, k, now);
      hide AfterSet;
      SamePut(AfterSet(cells, c, i, k, now), c, c', i, k + 1, now);
    }
  }

  lemma SameAfterSet(cells: map<Indicator, Cell<Entry>>, c: Caller, c': Caller, i: nat, k: nat, now: int)
    requires c.frame == c'.frame && c.ttl == c'.ttl && k < |ORDER|
    ensures AfterSet(cells, c, i, k, now) == AfterSet(cells, c', i, k, now)
  {
  }
}
