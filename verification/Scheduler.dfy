// The session-aware scheduler: what a tick plans, what its dedupe claims let
// through, and what whole runs of ticks by any number of workers dispatch.
module Scheduler {
  import opened Wrappers
  import opened Redis
  import opened Counting
  import opened Calendar

  datatype MarketState = Holiday | Closed | Open | JustClosed

  datatype Task = RecalcIndicators | SyncPortfolios | PostCloseBatch(date: int, isHalfDay: bool)

  datatype Key =
    | RecalcKey(mic: Mic, minute: int)
    | SyncKey(mic: Mic, minute: int)
    | PostCloseKey(mic: Mic, date: int)

  datatype DispatchPlan = DispatchPlan(mic: Mic, task: Task, key: Key, ttl: int)

  const DEDUPE_TTL := 7 * 24 * 60 * 60
  const POST_CLOSE_TTL := 48 * 60 * 60

  function MinuteFloor(ts: int): int {
    ts / 60 * 60
  }

  function MinuteOfHour(ts: int): int {
    ts / 60 % 60
  }

  function ComputeMarketState(lib: Library, overrides: Overrides, mic: Mic, now: int): MarketState {
    var hours := Hours(lib, overrides, mic, lib.localDate(now));
    if hours.session.None? then Holiday
    else if now < hours.session.value.open then Closed
    else if now < hours.session.value.close then Open
    else if now < hours.session.value.close + 60 then JustClosed
    else Closed
  }

  function PostClosePlan(mic: Mic, hours: SessionHours): DispatchPlan {
    DispatchPlan(mic, PostCloseBatch(hours.date, hours.isHalfDay), PostCloseKey(mic, hours.date), POST_CLOSE_TTL)
  }

  // What one exchange contributes to the plan of a minute.
  function PlanFor(lib: Library, overrides: Overrides, mic: Mic, now: int): seq<DispatchPlan> {
    match ComputeMarketState(lib, overrides, mic, now)
    case Open =>
      (if MinuteOfHour(now) % 5 == 0 then [DispatchPlan(mic, RecalcIndicators, RecalcKey(mic, now), DEDUPE_TTL)]
       else [])
      + (if MinuteOfHour(now) % 60 == 0 then [DispatchPlan(mic, SyncPortfolios, SyncKey(mic, now), DEDUPE_TTL)] else [])
    case JustClosed =>
      [PostClosePlan(mic, Hours(lib, overrides, mic, lib.localDate(now)))]
    case _ => []
  }

  // The plan of a tick over a list of exchanges.
  function PlanAll(libs: Mic -> Library, overrides: Overrides, mics: seq<Mic>, now: int): seq<DispatchPlan> {
    if mics == [] then []
    else PlanAll(libs, overrides, mics[..|mics| - 1], now)
         + PlanFor(libs(mics[|mics| - 1]), overrides, mics[|mics| - 1], MinuteFloor(now))
  }

  lemma {:induction false} PlanAllMembers(libs: Mic -> Library, overrides: Overrides, mics: seq<Mic>, now: int,
                                          p: DispatchPlan)
    ensures p in PlanAll(libs, overrides, mics, now)
            <==> exists m :: m in mics && p in PlanFor(libs(m), overrides, m, MinuteFloor(now))
    decreases |mics|
  {
    if mics != [] {
      var rest, last := mics[..|mics| - 1], mics[|mics| - 1];
      PlanAllMembers(libs, overrides, rest, now, p);
      assert mics == rest + [last];
      assert last in mics && forall m :: m in mics <==> m in rest || m == last;
    }
  }

  // What is due in a minute of an exchange, in terms of its session: every five
  // minutes of it the recalculation, every hour of it the sync, and in the minute
  // after it the post-close batch of its date, which is a half day if the session is
  // over an hour shorter than usual.
  ghost predicate Due(lib: Library, overrides: Overrides, mic: Mic, minute: int, p: DispatchPlan) {
    var d := lib.localDate(minute);
    && d in lib.sessions && ((mic, d) in overrides ==> overrides[(mic, d)].isOpen)
    && var Session(open, close) := lib.sessions[d];
       || (open <= minute < close && minute % 300 == 0
           && p == DispatchPlan(mic, RecalcIndicators, RecalcKey(mic, minute), 7 * 86400))
       || (open <= minute < close && minute % 3600 == 0
           && p == DispatchPlan(mic, SyncPortfolios, SyncKey(mic, minute), 7 * 86400))
       || (close <= minute < close + 60
           && p == DispatchPlan(mic, PostCloseBatch(d, IsHalfDay(mic, close - open)), PostCloseKey(mic, d), 2 * 86400))
  }

  ghost predicate IsHalfDay(mic: Mic, seconds: int) {
    match mic
    case XBOM => seconds + 3600 < 375 * 60
    case _ => seconds + 3600 < 390 * 60
  }

  lemma PlannedIffDue(lib: Library, overrides: Overrides, mic: Mic, tick: int, p: DispatchPlan)
    requires Regular(lib)
    ensures p in PlanFor(lib, overrides, mic, MinuteFloor(tick)) <==> Due(lib, overrides, mic, MinuteFloor(tick), p)
  {
    WholeMinutes(tick);
    hide MinuteOfHour, MinuteFloor;
  }

  // ---------------------------------------------------------------- runs of claims

  // A worker planned at `tick` with the overrides it then saw, and claims one of
  // its plans at `at`. Workers interleave freely, so a run is any sequence of
  // claims in the order of their SETs.
  datatype Claim = Claim(tick: int, at: int, overrides: Overrides, plan: DispatchPlan)

  datatype State = State(cells: map<Key, Cell<()>>, sent: seq<Claim>)

  function ClaimStep(s: State, c: Claim): State {
    if Get(s.cells, c.plan.key, c.at).None? then
      State(s.cells[c.plan.key := Cell((), Some(c.at + c.plan.ttl))], s.sent + [c])
    else s
  }

  function ClaimAll(s: State, claims: seq<Claim>): State {
    if claims == [] then s
    else ClaimStep(ClaimAll(s, claims[..|claims| - 1]), claims[|claims| - 1])
  }

  function RunClaims(claims: seq<Claim>): State {
    ClaimAll(State(map[], []), claims)
  }

  ghost predicate Legal(libs: Mic -> Library, lag: int, c: Claim) {
    && c.tick <= c.at <= c.tick + lag
    && c.plan in PlanFor(libs(c.plan.mic), c.overrides, c.plan.mic, MinuteFloor(c.tick))
  }

  // Regular markets, a clock that does not run back, and claims that come at most
  // `lag` after their tick.
  ghost predicate LaggedRun(libs: Mic -> Library, lag: int, claims: seq<Claim>) {
    && (forall m :: Regular(libs(m)))
    && (forall i :: 0 <= i < |claims| ==> Legal(libs, lag, claims[i]))
    && (forall i, j :: 0 <= i < j < |claims| ==> claims[i].at <= claims[j].at)
  }

  // The lag, and the 59 seconds between two ticks of a minute, are together less
  // than the shortest dedupe TTL.
  predicate Prompt(lag: int) {
    lag + 59 < POST_CLOSE_TTL
  }

  ghost predicate LegalRun(libs: Mic -> Library, lag: int, claims: seq<Claim>) {
    LaggedRun(libs, lag, claims) && Prompt(lag)
  }

  lemma PlanKeyFacts(lib: Library, overrides: Overrides, mic: Mic, now: int, p: DispatchPlan)
    requires p in PlanFor(lib, overrides, mic, now)
    ensures p.mic == mic && p.key.mic == mic
    ensures !p.key.PostCloseKey? ==> p.key.minute == now && p.ttl == DEDUPE_TTL
    ensures p.key.PostCloseKey? ==> p.key.date in lib.sessions && p.ttl == POST_CLOSE_TTL
                                    && lib.sessions[p.key.date].close <= now < lib.sessions[p.key.date].close + 60
  {
  }

  ghost predicate WasSent(s: State, k: Key) {
    exists i :: 0 <= i < |s.sent| && s.sent[i].plan.key == k
  }

  ghost predicate Holding(s: State, c: Claim) {
    c.plan.key in s.cells && s.cells[c.plan.key] == Cell((), Some(c.at + c.plan.ttl))
  }

  // Every dispatch still holds its key, for its whole TTL, and no key is sent
  // twice. Everything sent was claimed, and everything claimed was sent.
  ghost predicate Holds(s: State, claims: seq<Claim>) {
    && (forall i :: 0 <= i < |s.sent| ==> Holding(s, s.sent[i]) && s.sent[i] in claims)
    && (forall k :: k in s.cells ==> WasSent(s, k))
    && (forall i, j :: 0 <= i < j < |s.sent| ==> s.sent[i].plan.key != s.sent[j].plan.key)
    && (forall c :: c in claims ==> c.plan.key in s.cells)
  }

  lemma LegalPrefix(libs: Mic -> Library, lag: int, claims: seq<Claim>)
    requires LegalRun(libs, lag, claims) && claims != []
    ensures LegalRun(libs, lag, claims[..|claims| - 1])
  {
  }

  lemma NothingHolds()
    ensures Holds(State(map[], []), [])
  {
  }

  lemma {:induction false} RunHolds(libs: Mic -> Library, lag: int, claims: seq<Claim>)
    requires LegalRun(libs, lag, claims)
    ensures Holds(RunClaims(claims), claims)
    decreases |claims|
  {
    hide LegalRun, Holds, ClaimStep;
    if claims == [] {
      NothingHolds();
    } else {
      var rest, c := claims[..|claims| - 1], claims[|claims| - 1];
      LegalPrefix(libs, lag, claims);
      RunHolds(libs, lag, rest);
      assert claims == rest + [c];
      ClaimKeeps(libs, lag, RunClaims(rest), rest, c);
    }
  }

  // A second claim of a key finds it still held.
  lemma KeyStillHeld(libs: Mic -> Library, lag: int, s: State, claims: seq<Claim>, c: Claim)
    requires LegalRun(libs, lag, claims + [c]) && Holds(s, claims) && c.plan.key in s.cells
    ensures ClaimStep(s, c) == s
  {
    hide Legal, Regular;
    var run := claims + [c];
    assert WasSent(s, c.plan.key);
    var i :| 0 <= i < |s.sent| && s.sent[i].plan.key == c.plan.key;
    var j :| 0 <= j < |claims| && claims[j] == s.sent[i];
    assert run[j] == s.sent[i] && run[|claims|] == c;
    assert run[j].at <= run[|claims|].at;
    assert Legal(libs, lag, run[j]) && Legal(libs, lag, run[|claims|]);
    SameKeySoon(libs, lag, s.sent[i], c);
    assert Holding(s, s.sent[i]);
  }

  lemma SameKeySoon(libs: Mic -> Library, lag: int, a: Claim, b: Claim)
    requires Prompt(lag)
    requires Legal(libs, lag, a) && Legal(libs, lag, b) && a.plan.key == b.plan.key
    ensures b.at < a.at + a.plan.ttl
  {
  }

  lemma NewClaimKeeps(s: State, claims: seq<Claim>, c: Claim)
    requires Holds(s, claims) && c.plan.key !in s.cells
    ensures Holds(ClaimStep(s, c), claims + [c])
  {
    var s' := ClaimStep(s, c);
    assert s'.sent[|s.sent|] == c;
    forall k | k in s'.cells ensures WasSent(s', k) {
      if k != c.plan.key {
        assert WasSent(s, k);
        var i :| 0 <= i < |s.sent| && s.sent[i].plan.key == k;
        assert s'.sent[i].plan.key == k;
      }
    }
    forall i | 0 <= i < |s'.sent| ensures Holding(s', s'.sent[i]) && s'.sent[i] in claims + [c] {
      assert i < |s.sent| ==> Holding(s, s.sent[i]);
    }
    forall i, j | 0 <= i < j < |s'.sent| ensures s'.sent[i].plan.key != s'.sent[j].plan.key {
      assert Holding(s, s.sent[i]);
    }
  }

  lemma ClaimKeeps(libs: Mic -> Library, lag: int, s: State, claims: seq<Claim>, c: Claim)
    requires LegalRun(libs, lag, claims + [c]) && Holds(s, claims)
    ensures Holds(ClaimStep(s, c), claims + [c])
  {
    if c.plan.key in s.cells {
      KeyStillHeld(libs, lag, s, claims, c);
    } else {
      hide LegalRun, Holds;
      NewClaimKeeps(s, claims, c);
    }
  }

  // ---------------------------------------------------------------- runs of ticks

  // One tick of some worker: when it ran and the overrides it saw.
  datatype Beat = Beat(tick: int, overrides: Overrides)

  ghost predicate From(libs: Mic -> Library, mics: seq<Mic>, b: Beat, c: Claim) {
    c.tick == b.tick && c.overrides == b.overrides && c.plan in PlanAll(libs, b.overrides, mics, b.tick)
  }

  // The claims are those of the beats: each stems from one, and every plan of
  // every beat is claimed.
  ghost predicate Carries(libs: Mic -> Library, mics: seq<Mic>, beats: seq<Beat>, claims: seq<Claim>) {
    && (forall c :: c in claims ==> exists b :: b in beats && From(libs, mics, b, c))
    && (forall b, p :: b in beats && p in PlanAll(libs, b.overrides, mics, b.tick) ==>
          exists c :: c in claims && From(libs, mics, b, c) && c.plan == p)
  }

  ghost function SentAs(s: State, keys: set<Key>): set<nat> {
    set i: nat | i < |s.sent| && s.sent[i].plan.key in keys
  }

  lemma OneIndexPerKey(s: State, claims: seq<Claim>, k: Key)
    requires Holds(s, claims) && k in s.cells
    ensures exists i :: SentAs(s, {k}) == {i}
  {
    assert WasSent(s, k);
    var i :| 0 <= i < |s.sent| && s.sent[i].plan.key == k;
    assert SentAs(s, {k}) == {i};
  }

  // Each of a set of claimed keys was sent exactly once, and nothing else under them.
  lemma {:induction false} SentOnceEach(s: State, claims: seq<Claim>, keys: set<Key>)
    requires Holds(s, claims) && forall k :: k in keys ==> k in s.cells
    ensures |SentAs(s, keys)| == |keys|
    decreases keys
  {
    hide Holds;
    if keys == {} {
      assert SentAs(s, keys) == {};
    } else {
      var k :| k in keys;
      var rest := keys - {k};
      SentOnceEach(s, claims, rest);
      OneIndexPerKey(s, claims, k);
      var i :| SentAs(s, {k}) == {i};
      assert i in SentAs(s, {k});
      assert SentAs(s, keys) == SentAs(s, rest) + {i} && i !in SentAs(s, rest);
    }
  }

  // A key is sent once or never: exactly when some claim names it.
  lemma SentIffClaimed(libs: Mic -> Library, lag: int, claims: seq<Claim>, k: Key)
    requires LegalRun(libs, lag, claims)
    ensures |SentAs(RunClaims(claims), {k})| == if exists c :: c in claims && c.plan.key == k then 1 else 0
  {
    RunHolds(libs, lag, claims);
    SentIffInClaims(RunClaims(claims), claims, k);
  }

  lemma SentIffInClaims(s: State, claims: seq<Claim>, k: Key)
    requires Holds(s, claims)
    ensures |SentAs(s, {k})| == if exists c :: c in claims && c.plan.key == k then 1 else 0
  {
    if exists c :: c in claims && c.plan.key == k {
      SentOnceEach(s, claims, {k});
    } else {
      forall i | 0 <= i < |s.sent| ensures s.sent[i].plan.key != k {
        assert s.sent[i] in claims;
      }
      assert SentAs(s, {k}) == {};
    }
  }

  ghost predicate InCloseMinute(lib: Library, mic: Mic, d: int, b: Beat) {
    && d in lib.sessions && !Vetoed(b.overrides, mic, d)
    && lib.sessions[d].close <= MinuteFloor(b.tick) < lib.sessions[d].close + 60
  }

  lemma PostClosePlanned(lib: Library, mic: Mic, d: int, b: Beat)
    requires Regular(lib)
    ensures (exists p :: p in PlanFor(lib, b.overrides, mic, MinuteFloor(b.tick)) && p.key == PostCloseKey(mic, d))
            <==> InCloseMinute(lib, mic, d, b)
  {
  }

  // The window after a close holds exactly one whole minute.
  lemma CloseMinuteIsUnique(close: int, tick: int)
    ensures close <= MinuteFloor(tick) < close + 60 <==> MinuteFloor(tick) == CeilDiv(close, 60) * 60
  {
  }

  lemma ClaimedWasPlanned(libs: Mic -> Library, mics: seq<Mic>, beats: seq<Beat>, claims: seq<Claim>, c: Claim)
    requires Carries(libs, mics, beats, claims) && c in claims
    ensures var mic := KeyMic(c.plan.key);
            exists b :: b in beats && c.plan in PlanFor(libs(mic), b.overrides, mic, MinuteFloor(b.tick))
  {
    hide PlanFor, PlanAll;
    var b :| b in beats && From(libs, mics, b, c);
    PlanAllMembers(libs, b.overrides, mics, b.tick, c.plan);
    var m :| m in mics && c.plan in PlanFor(libs(m), b.overrides, m, MinuteFloor(b.tick));
    PlanKeyFacts(libs(m), b.overrides, m, MinuteFloor(b.tick), c.plan);
  }

  lemma PlannedIsClaimed(libs: Mic -> Library, mics: seq<Mic>, beats: seq<Beat>, claims: seq<Claim>, mic: Mic,
                         b: Beat, p: DispatchPlan)
    requires Carries(libs, mics, beats, claims) && mic in mics
    requires b in beats && p in PlanFor(libs(mic), b.overrides, mic, MinuteFloor(b.tick))
    ensures exists c :: c in claims && c.plan == p
  {
    hide PlanFor, PlanAll;
    PlanAllMembers(libs, b.overrides, mics, b.tick, p);
    assert p in PlanAll(libs, b.overrides, mics, b.tick);
    var c :| c in claims && From(libs, mics, b, c) && c.plan == p;
  }

  lemma ClaimedIffPlanned(libs: Mic -> Library, mics: seq<Mic>, beats: seq<Beat>, claims: seq<Claim>, mic: Mic, k: Key)
    requires Carries(libs, mics, beats, claims) && mic in mics && KeyMic(k) == mic
    ensures (exists c :: c in claims && c.plan.key == k)
            <==> exists b, p :: && b in beats && p in PlanFor(libs(mic), b.overrides, mic, MinuteFloor(b.tick))
                                && p.key == k
  {
    hide PlanFor, Carries;
    if c :| c in claims && c.plan.key == k {
      ClaimedWasPlanned(libs, mics, beats, claims, c);
    }
    if b, p :| b in beats && p in PlanFor(libs(mic), b.overrides, mic, MinuteFloor(b.tick)) && p.key == k {
      PlannedIsClaimed(libs, mics, beats, claims, mic, b, p);
    }
  }

  function KeyMic(k: Key): Mic {
    k.mic
  }

  lemma AllDue(libs: Mic -> Library, overrides: Overrides, mics: seq<Mic>, now: int)
    requires forall m :: Regular(libs(m))
    ensures forall p :: p in PlanAll(libs, overrides, mics, now) <==>
              exists mic :: mic in mics && Due(libs(mic), overrides, mic, MinuteFloor(now), p)
  {
    hide PlanFor, PlanAll, Due, MinuteFloor, Regular;
    forall p ensures p in PlanAll(libs, overrides, mics, now) <==>
                       exists mic :: mic in mics && Due(libs(mic), overrides, mic, MinuteFloor(now), p)
    {
      PlanAllMembers(libs, overrides, mics, now, p);
      forall mic ensures p in PlanFor(libs(mic), overrides, mic, MinuteFloor(now))
                         <==> Due(libs(mic), overrides, mic, MinuteFloor(now), p)
      {
        PlannedIffDue(libs(mic), overrides, mic, now, p);
      }
    }
  }

  // Everything sent was due when its tick ran.
  lemma SentWasDue(libs: Mic -> Library, lag: int, claims: seq<Claim>, i: nat)
    requires LegalRun(libs, lag, claims) && i < |RunClaims(claims).sent|
    ensures var c := RunClaims(claims).sent[i];
            Due(libs(c.plan.mic), c.overrides, c.plan.mic, MinuteFloor(c.tick), c.plan)
            && c.plan.key in RunClaims(claims).cells && c in claims
  {
    RunHolds(libs, lag, claims);
    var s := RunClaims(claims);
    hide RunClaims;
    assert s.sent[i] in claims;
    var c := s.sent[i];
    PlannedIffDue(libs(c.plan.mic), c.overrides, c.plan.mic, c.tick, c.plan);
    assert Holding(s, c);
  }

  // The dispatches of the post-close batch of a date.
  ghost function BatchesSent(s: State, mic: Mic, d: int): set<nat> {
    set i: nat | i < |s.sent| && s.sent[i].plan.mic == mic
                 && s.sent[i].plan.task.PostCloseBatch? && s.sent[i].plan.task.date == d
  }

  // Any number of beats and workers: the post-close batch of a session is sent
  // once if some beat that sees the session standing falls into its close minute,
  // and never otherwise.
  lemma PostCloseExactlyOnce(libs: Mic -> Library, lag: int, mics: seq<Mic>, beats: seq<Beat>, claims: seq<Claim>,
                             mic: Mic, d: int)
    requires LegalRun(libs, lag, claims) && Carries(libs, mics, beats, claims) && mic in mics
    ensures |BatchesSent(RunClaims(claims), mic, d)|
         == if exists b :: b in beats && InCloseMinute(libs(mic), mic, d, b) then 1 else 0
    ensures forall i :: i in BatchesSent(RunClaims(claims), mic, d) ==>
              && d in libs(mic).sessions
              && var Session(open, close) := libs(mic).sessions[d];
                 RunClaims(claims).sent[i].plan.task.isHalfDay == IsHalfDay(mic, close - open)
  {
    BatchKeySent(libs, lag, mics, beats, claims, mic, d);
    var s := RunClaims(claims);
    forall i: nat | i < |s.sent|
      ensures i in BatchesSent(s, mic, d) <==> s.sent[i].plan.key == PostCloseKey(mic, d)
      ensures i in BatchesSent(s, mic, d) ==>
                && d in libs(mic).sessions
                && var Session(open, close) := libs(mic).sessions[d];
                   s.sent[i].plan.task.isHalfDay == IsHalfDay(mic, close - open)
    {
      SentWasDue(libs, lag, claims, i);
      hide RunClaims, IsHalfDay;
    }
    hide RunClaims;
    assert BatchesSent(s, mic, d) == SentAs(s, {PostCloseKey(mic, d)});
  }

  lemma BatchKeySent(libs: Mic -> Library, lag: int, mics: seq<Mic>, beats: seq<Beat>, claims: seq<Claim>,
                     mic: Mic, d: int)
    requires LegalRun(libs, lag, claims) && Carries(libs, mics, beats, claims) && mic in mics
    ensures |SentAs(RunClaims(claims), {PostCloseKey(mic, d)})|
         == if exists b :: b in beats && InCloseMinute(libs(mic), mic, d, b) then 1 else 0
  {
    var k := PostCloseKey(mic, d);
    SentIffClaimed(libs, lag, claims, k);
    ClaimedIffPlanned(libs, mics, beats, claims, mic, k);
    assert Regular(libs(mic));
    hide LegalRun, Carries, PlanFor, RunClaims, InCloseMinute;
    forall b | b in beats
      ensures (exists p :: p in PlanFor(libs(mic), b.overrides, mic, MinuteFloor(b.tick)) && p.key == k)
              <==> InCloseMinute(libs(mic), mic, d, b)
    {
      PostClosePlanned(libs(mic), mic, d, b);
    }
  }

  // A claim made when the key of an earlier one has lapsed is sent too.
  lemma LateClaimSent(a: Claim, b: Claim)
    requires a.plan.key == b.plan.key && a.at + a.plan.ttl <= b.at
    ensures |SentAs(RunClaims([a, b]), {a.plan.key})| == 2
  {
    assert [a, b][..1] == [a] && [a][..0] == [];
    assert ClaimAll(State(map[], []), [a]) == ClaimStep(State(map[], []), a);
    assert RunClaims([a, b]).sent == [a, b];
    assert SentAs(RunClaims([a, b]), {a.plan.key}) == {0, 1};
  }

  lemma PlannedInCloseMinute(lib: Library, mic: Mic, d: int) returns (minute: int)
    requires Regular(lib) && d in lib.sessions
    ensures MinuteFloor(minute) == minute == MinuteFloor(minute + 59)
    ensures PostClosePlan(mic, Hours(lib, map[], mic, d)) in PlanFor(lib, map[], mic, minute)
  {
    minute := CeilDiv(lib.sessions[d].close, 60) * 60;
    CloseMinuteIsUnique(lib.sessions[d].close, minute);
    hide CeilDiv;
    assert lib.localDate(minute) == d;
  }

  // Two ticks of a close minute, the second claimed as soon as the first one's key
  // has lapsed.
  lemma LateClaims(libs: Mic -> Library, lag: int, mic: Mic, d: int) returns (claims: seq<Claim>)
    requires (forall m :: Regular(libs(m))) && d in libs(mic).sessions && !Prompt(lag)
    ensures LaggedRun(libs, lag, claims) && |SentAs(RunClaims(claims), {PostCloseKey(mic, d)})| == 2
  {
    var minute := PlannedInCloseMinute(libs(mic), mic, d);
    var plan := PostClosePlan(mic, Hours(libs(mic), map[], mic, d));
    hide PlanFor, Regular, MinuteFloor, RunClaims, SentAs;
    var a, b := Claim(minute, minute, map[], plan), Claim(minute + 59, minute + POST_CLOSE_TTL, map[], plan);
    claims := [a, b];
    LateClaimSent(a, b);
    assert Legal(libs, lag, a) && Legal(libs, lag, b);
  }

  // With a session on some exchange, no run sends a key twice exactly when the lag
  // stays below the TTL of the post-close key less the 59 seconds.
  lemma SentOnceIffPrompt(libs: Mic -> Library, lag: int, mic: Mic, d: int)
    requires (forall m :: Regular(libs(m))) && d in libs(mic).sessions
    ensures (forall claims: seq<Claim>, k: Key :: LaggedRun(libs, lag, claims) ==>
               |SentAs(RunClaims(claims), {k})| <= 1)
            <==> Prompt(lag)
  {
    if Prompt(lag) {
      forall claims: seq<Claim>, k: Key | LaggedRun(libs, lag, claims) ensures |SentAs(RunClaims(claims), {k})| <= 1 {
        SentIffClaimed(libs, lag, claims, k);
      }
    } else {
      var claims := LateClaims(libs, lag, mic, d);
    }
  }

  function PeriodicKey(sync: bool, mic: Mic, m: int): Key {
    if sync then SyncKey(mic, m) else RecalcKey(mic, m)
  }

  function Period(sync: bool): int {
    if sync then 3600 else 300
  }

  lemma WholeMinutes(t: int)
    ensures MinuteOfHour(MinuteFloor(t)) % 5 == 0 <==> MinuteFloor(t) % 300 == 0
    ensures MinuteOfHour(MinuteFloor(t)) % 60 == 0 <==> MinuteFloor(t) % 3600 == 0
  {
    var q := t / 60;
    var hour, minute, five, rest := q / 60, q % 60, q / 5, q % 5;
    assert MinuteFloor(t) == 3600 * hour + 60 * minute == 300 * five + 60 * rest;
    assert MinuteFloor(t) / 60 == q;
    RemainderIs(MinuteFloor(t), 3600, hour, 60 * minute);
    RemainderIs(MinuteFloor(t), 300, five, 60 * rest);
    RemainderIs(minute, 5, five - 12 * hour, rest);
  }

  lemma RemainderIs(a: int, b: int, q: int, r: int)
    requires a == b * q + r && 0 <= r < b
    ensures a % b == r
  {
    var d := a / b;
    assert (q - d) * b == a % b - r;
    FactorLess(q - d, 1, b);
    FactorLess(-1, q - d, b);
  }

  lemma PeriodicPlanned(lib: Library, mic: Mic, sync: bool, m: int, b: Beat)
    requires Regular(lib)
    ensures (exists p :: p in PlanFor(lib, b.overrides, mic, MinuteFloor(b.tick)) && p.key == PeriodicKey(sync, mic, m))
            <==> MinuteFloor(b.tick) == m && m % Period(sync) == 0
                 && var standing := Standing(lib, b.overrides, mic, lib.localDate(m));
                    standing.Some? && standing.value.open <= m < standing.value.close
  {
    WholeMinutes(b.tick);
    hide MinuteOfHour, MinuteFloor, Regular;
    var plan := PlanFor(lib, b.overrides, mic, MinuteFloor(b.tick));
    assert |plan| >= 1 ==> plan[0] in plan;
    assert |plan| >= 2 ==> plan[1] in plan;
  }

  // With a beat in every minute of a standing session, the five-minute recalc is
  // sent once for each multiple of five minutes in [open, close), the portfolio
  // sync once for each full hour, and nothing else of theirs in between.
  lemma PeriodicCount(libs: Mic -> Library, lag: int, mics: seq<Mic>, beats: seq<Beat>, claims: seq<Claim>,
                      mic: Mic, d: int, sync: bool)
    requires LegalRun(libs, lag, claims) && Carries(libs, mics, beats, claims) && mic in mics
    requires d in libs(mic).sessions && BeatEveryMinute(libs(mic), beats, mic, d)
    ensures var Session(open, close) := libs(mic).sessions[d];
            var task, period := if sync then SyncPortfolios else RecalcIndicators, if sync then 3600 else 300;
            |TasksSent(RunClaims(claims), mic, task, open, close)| == CeilDiv(close, period) - CeilDiv(open, period)
  {
    PeriodicKeysSent(libs, lag, mics, beats, claims, mic, d, sync);
    var s, session := RunClaims(claims), libs(mic).sessions[d];
    var task := if sync then SyncPortfolios else RecalcIndicators;
    forall i: nat | i < |s.sent|
      ensures i in TasksSent(s, mic, task, session.open, session.close)
              <==> s.sent[i].plan.key in SessionKeys(s, sync, mic, session)
    {
      SentWasDue(libs, lag, claims, i);
      hide RunClaims;
      TaskHasItsKey(libs(s.sent[i].plan.mic), s.sent[i], sync, mic, session);
      hide Due, InSession, MinuteFloor;
    }
    hide RunClaims, TasksSent, SessionKeys, SentAs, LegalRun;
    SameIndices(s, mic, task, session, sync);
  }

  lemma TaskHasItsKey(lib: Library, c: Claim, sync: bool, mic: Mic, session: Session)
    requires Due(lib, c.overrides, c.plan.mic, MinuteFloor(c.tick), c.plan)
    ensures var task := if sync then SyncPortfolios else RecalcIndicators;
            c.plan.mic == mic && c.plan.task == task && session.open <= MinuteFloor(c.tick) < session.close
            <==> InSession(c.plan.key, sync, mic, session)
  {
  }

  lemma SameIndices(s: State, mic: Mic, task: Task, session: Session, sync: bool)
    requires forall i: nat :: i < |s.sent| ==>
               (i in TasksSent(s, mic, task, session.open, session.close)
                <==> s.sent[i].plan.key in SessionKeys(s, sync, mic, session))
    ensures TasksSent(s, mic, task, session.open, session.close) == SentAs(s, SessionKeys(s, sync, mic, session))
  {
  }

  // The dispatches of a task by ticks in [lo, hi).
  ghost function TasksSent(s: State, mic: Mic, task: Task, lo: int, hi: int): set<nat> {
    set i: nat | i < |s.sent| && s.sent[i].plan.mic == mic && s.sent[i].plan.task == task
                 && lo <= MinuteFloor(s.sent[i].tick) < hi
  }

  lemma PeriodicKeysSent(libs: Mic -> Library, lag: int, mics: seq<Mic>, beats: seq<Beat>, claims: seq<Claim>,
                         mic: Mic, d: int, sync: bool)
    requires LegalRun(libs, lag, claims) && Carries(libs, mics, beats, claims) && mic in mics
    requires d in libs(mic).sessions && BeatEveryMinute(libs(mic), beats, mic, d)
    ensures |SentAs(RunClaims(claims), SessionKeys(RunClaims(claims), sync, mic, libs(mic).sessions[d]))|
         == CeilDiv(libs(mic).sessions[d].close, Period(sync)) - CeilDiv(libs(mic).sessions[d].open, Period(sync))
  {
    var session := libs(mic).sessions[d];
    var s := RunClaims(claims);
    RunHolds(libs, lag, claims);
    assert Regular(libs(mic));
    hide LegalRun, RunClaims;
    var keys := SessionKeys(s, sync, mic, session);
    SessionKeysCard(libs, mics, beats, claims, s, mic, d, sync);
    SentOnceEach(s, claims, keys);
    MultiplesCard(session.open, session.close, Period(sync));
  }

  // The dispatched keys of one task within one session.
  ghost function SessionKeys(s: State, sync: bool, mic: Mic, session: Session): set<Key> {
    set k | k in s.cells.Keys && InSession(k, sync, mic, session)
  }

  lemma HeldWasClaimed(s: State, claims: seq<Claim>, k: Key)
    requires Holds(s, claims) && k in s.cells
    ensures exists c :: c in claims && c.plan.key == k
  {
  }

  lemma ClaimedIsHeld(s: State, claims: seq<Claim>, k: Key)
    requires Holds(s, claims) && exists c :: c in claims && c.plan.key == k
    ensures k in s.cells
  {
  }

  lemma SessionMinuteHeld(libs: Mic -> Library, mics: seq<Mic>, beats: seq<Beat>, claims: seq<Claim>, s: State,
                          mic: Mic, d: int, sync: bool, m: int)
    requires Holds(s, claims) && Carries(libs, mics, beats, claims) && mic in mics
    requires Regular(libs(mic)) && d in libs(mic).sessions && BeatEveryMinute(libs(mic), beats, mic, d)
    requires m in Multiples(libs(mic).sessions[d].open, libs(mic).sessions[d].close, Period(sync))
    ensures PeriodicKey(sync, mic, m) in SessionKeys(s, sync, mic, libs(mic).sessions[d])
  {
    hide Regular, Holds, Carries;
    assert m % 60 == 0;
    MinuteIsClaimed(libs, mics, beats, claims, mic, d, sync, m);
    ClaimedIsHeld(s, claims, PeriodicKey(sync, mic, m));
  }

  lemma HeldMinuteInSession(libs: Mic -> Library, mics: seq<Mic>, beats: seq<Beat>, claims: seq<Claim>, s: State,
                            mic: Mic, session: Session, sync: bool, k: Key)
    requires Holds(s, claims) && Carries(libs, mics, beats, claims) && mic in mics && Regular(libs(mic))
    requires k in SessionKeys(s, sync, mic, session)
    ensures k.minute in Multiples(session.open, session.close, Period(sync))
  {
    hide Regular, Holds, Carries;
    HeldWasClaimed(s, claims, k);
    var c :| c in claims && c.plan.key == k;
    ClaimedMinute(libs, mics, beats, claims, c, sync, mic);
  }

  lemma SessionKeysCard(libs: Mic -> Library, mics: seq<Mic>, beats: seq<Beat>, claims: seq<Claim>, s: State,
                        mic: Mic, d: int, sync: bool)
    requires Holds(s, claims) && Carries(libs, mics, beats, claims) && mic in mics
    requires Regular(libs(mic)) && d in libs(mic).sessions && BeatEveryMinute(libs(mic), beats, mic, d)
    ensures var session := libs(mic).sessions[d];
            |SessionKeys(s, sync, mic, session)| == |Multiples(session.open, session.close, Period(sync))|
  {
    var session := libs(mic).sessions[d];
    var keys := SessionKeys(s, sync, mic, session);
    var minutes := Multiples(session.open, session.close, Period(sync));
    hide Regular, Holds, Carries, BeatEveryMinute, Multiples;
    forall m | m in minutes ensures PeriodicKey(sync, mic, m) in keys {
      SessionMinuteHeld(libs, mics, beats, claims, s, mic, d, sync, m);
    }
    forall k | k in keys
      ensures !k.PostCloseKey? && k == PeriodicKey(sync, mic, k.minute) && k.minute in minutes
    {
      HeldMinuteInSession(libs, mics, beats, claims, s, mic, session, sync, k);
    }
    hide SessionKeys;
    KeysCard(keys, minutes, sync, mic);
  }

  // Every whole minute of the session has a beat that sees it standing.
  ghost predicate BeatEveryMinute(lib: Library, beats: seq<Beat>, mic: Mic, d: int)
    requires d in lib.sessions
  {
    forall m :: lib.sessions[d].open <= m < lib.sessions[d].close && m % 60 == 0 ==>
      exists b :: b in beats && MinuteFloor(b.tick) == m && !Vetoed(b.overrides, mic, d)
  }

  predicate InSession(k: Key, sync: bool, mic: Mic, session: Session) {
    !k.PostCloseKey? && k == PeriodicKey(sync, mic, k.minute) && session.open <= k.minute < session.close
  }

  lemma MinuteIsClaimed(libs: Mic -> Library, mics: seq<Mic>, beats: seq<Beat>, claims: seq<Claim>,
                        mic: Mic, d: int, sync: bool, m: int)
    requires Carries(libs, mics, beats, claims) && mic in mics && Regular(libs(mic)) && d in libs(mic).sessions
    requires m in Multiples(libs(mic).sessions[d].open, libs(mic).sessions[d].close, Period(sync))
    requires exists b :: b in beats && MinuteFloor(b.tick) == m && !Vetoed(b.overrides, mic, d)
    ensures exists c :: c in claims && c.plan.key == PeriodicKey(sync, mic, m)
  {
    var k := PeriodicKey(sync, mic, m);
    ClaimedIffPlanned(libs, mics, beats, claims, mic, k);
    var b :| b in beats && MinuteFloor(b.tick) == m && !Vetoed(b.overrides, mic, d);
    assert libs(mic).localDate(m) == d;
    PeriodicPlanned(libs(mic), mic, sync, m, b);
  }

  lemma ClaimedMinute(libs: Mic -> Library, mics: seq<Mic>, beats: seq<Beat>, claims: seq<Claim>,
                      c: Claim, sync: bool, mic: Mic)
    requires Carries(libs, mics, beats, claims) && c in claims && Regular(libs(mic)) && mic in mics
    requires !c.plan.key.PostCloseKey? && c.plan.key == PeriodicKey(sync, mic, c.plan.key.minute)
    ensures c.plan.key.minute % Period(sync) == 0
  {
    hide PlanFor, Carries, Regular;
    ClaimedWasPlanned(libs, mics, beats, claims, c);
    var b :| b in beats && c.plan in PlanFor(libs(mic), b.overrides, mic, MinuteFloor(b.tick));
    PeriodicPlanned(libs(mic), mic, sync, c.plan.key.minute, b);
  }

  lemma {:induction false} KeysCard(keys: set<Key>, minutes: set<int>, sync: bool, mic: Mic)
    requires forall m :: m in minutes ==> PeriodicKey(sync, mic, m) in keys
    requires forall k :: k in keys ==> !k.PostCloseKey? && k == PeriodicKey(sync, mic, k.minute) && k.minute in minutes
    ensures |keys| == |minutes|
    decreases keys
  {
    if keys == {} {
      assert forall m: int :: m !in minutes;
      assert minutes == {};
    } else {
      var k :| k in keys;
      KeysCard(keys - {k}, minutes - {k.minute}, sync, mic);
    }
  }

  // ---------------------------------------------------------------- the scheduler's code

  class SessionAwareScheduler {
    const calendar: CalendarService
    const redis: Strings<Key, ()>

    constructor (calendar: CalendarService, redis: Strings<Key, ()>)
      ensures this.calendar == calendar && this.redis == redis
    {
      this.calendar, this.redis := calendar, redis;
    }

    method PlanMarket(mic: Mic, minute: int) returns (plans: seq<DispatchPlan>)
      ensures plans == PlanFor(calendar.libs(mic), calendar.overrides, mic, minute)
    {
      plans := [];
      var lib := calendar.libs(mic);
      var hours := calendar.GetSessionHours(mic, lib.localDate(minute));
      var state := ComputeMarketState(lib, calendar.overrides, mic, minute);
      if state.Open? {
        if MinuteOfHour(minute) % 5 == 0 {
          plans := plans + [DispatchPlan(mic, RecalcIndicators, RecalcKey(mic, minute), DEDUPE_TTL)];
        }
        if MinuteOfHour(minute) % 60 == 0 {
          plans := plans + [DispatchPlan(mic, SyncPortfolios, SyncKey(mic, minute), DEDUPE_TTL)];
        }
      } else if state.JustClosed? {
        plans := [DispatchPlan(mic, PostCloseBatch(hours.date, hours.isHalfDay), PostCloseKey(mic, hours.date),
                               POST_CLOSE_TTL)];
      }
    }

    method Plan(now: int, mics: seq<Mic>) returns (planned: seq<DispatchPlan>)
      ensures planned == PlanAll(calendar.libs, calendar.overrides, mics, now)
      ensures (forall m :: Regular(calendar.libs(m))) ==>
                forall p :: p in planned <==>
                  exists mic :: mic in mics && Due(calendar.libs(mic), calendar.overrides, mic, MinuteFloor(now), p)
    {
      hide PlanFor;
      planned := [];
      for k := 0 to |mics|
        invariant planned == PlanAll(calendar.libs, calendar.overrides, mics[..k], now)
      {
        assert mics[..k + 1][..k] == mics[..k];
        var plans := PlanMarket(mics[k], MinuteFloor(now));
        planned := planned + plans;
      }
      assert mics[..|mics|] == mics;
      if forall m :: Regular(calendar.libs(m)) {
        AllDue(calendar.libs, calendar.overrides, mics, now);
      }
    }

    // Dispatches what it can claim: a stretch of ClaimAll at one instant.
    method Apply(planned: seq<DispatchPlan>, ghost tick: int) returns (dispatched: seq<DispatchPlan>)
      modifies redis
      ensures redis.now == old(redis.now)
      ensures var after := ClaimAll(State(old(redis.cells), []),
                                    ClaimsAt(planned, tick, redis.now, calendar.overrides));
              redis.cells == after.cells && dispatched == PlansOf(after.sent)
    {
      dispatched := [];
      ghost var claims := ClaimsAt(planned, tick, redis.now, calendar.overrides);
      for k := 0 to |planned|
        invariant redis.now == old(redis.now)
        invariant var after := ClaimAll(State(old(redis.cells), []), claims[..k]);
                  redis.cells == after.cells && dispatched == PlansOf(after.sent)
      {
        assert claims[..k + 1][..k] == claims[..k];
        ghost var before := ClaimAll(State(old(redis.cells), []), claims[..k]);
        var ok := redis.SetNxEx(planned[k].key, (), planned[k].ttl);
        if ok {
          assert (before.sent + [claims[k]])[..|before.sent|] == before.sent;
          dispatched := dispatched + [planned[k]];
        }
      }
      assert claims[..|claims|] == claims;
    }
  }

  ghost function ClaimsAt(planned: seq<DispatchPlan>, tick: int, at: int, overrides: Overrides): seq<Claim> {
    seq(|planned|, i requires 0 <= i < |planned| => Claim(tick, at, overrides, planned[i]))
  }

  ghost function PlansOf(sent: seq<Claim>): seq<DispatchPlan> {
    seq(|sent|, i requires 0 <= i < |sent| => sent[i].plan)
  }
}
