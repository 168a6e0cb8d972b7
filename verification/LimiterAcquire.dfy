// Whole attempts as single steps, and the acquire() loop built from them.
module LimiterAcquire {
  import opened Wrappers
  import opened Redis
  import opened Counting
  import opened RateLimiter

  // One attempt with nobody in between: read the clock, trim, count, maybe add.
  function Attempt(c: Config, s: State): State {
    var trimmed := s.(bucket := TrimBucket(c, s, s.now));
    if |Members(trimmed.bucket, s.now)| < c.maxRequests then
      trimmed.(bucket := AddExpire(trimmed.bucket, s.now, |s.history|, s.now, c.expireMs),
               history := s.history + [s.now])
    else trimmed
  }

  // An attempt is four steps of the interleaved machine taken back to back.
  lemma AttemptIsRun(c: Config, s: State, i: nat)
    requires i < |s.phases| && s.phases[i].Idle?
    ensures Run(c, s, [Begin(i), Trim(i)] + [Count(i), Add(i)]) == Attempt(c, s)
  {
    RunConcat(c, s, [Begin(i), Trim(i)], [Count(i), Add(i)]);
    RunTwo(c, s, Begin(i), Trim(i));
    var s2 := Run(c, s, [Begin(i), Trim(i)]);
    assert s2.phases == s.phases[i := Trimmed(s.now)];
    RunTwo(c, s2, Count(i), Add(i));
    assert s.phases[i := Idle] == s.phases;
    assert s2.phases[i := Idle] == s.phases;
    assert s2.phases[i := Passed(s.now)][i := Idle] == s.phases;
  }

  datatype AtomicAction = Pass(d: nat) | Try

  function AtomicStep(c: Config, s: State, a: AtomicAction): State {
    match a
    case Pass(d) => s.(now := s.now + d)
    case Try => Attempt(c, s)
  }

  function AtomicRun(c: Config, s: State, actions: seq<AtomicAction>): State
    decreases |actions|
  {
    if actions == [] then s else AtomicRun(c, AtomicStep(c, s, actions[0]), actions[1..])
  }

  lemma {:induction false} AtomicRunConcat(c: Config, s: State, a: seq<AtomicAction>, b: seq<AtomicAction>)
    ensures AtomicRun(c, s, a + b) == AtomicRun(c, AtomicRun(c, s, a), b)
    decreases |a|
  {
    if a == [] {
      assert a + b == b;
    } else {
      assert (a + b)[0] == a[0] && (a + b)[1..] == a[1..] + b;
      AtomicRunConcat(c, AtomicStep(c, s, a[0]), a[1..], b);
    }
  }

  ghost predicate Faithful(c: Config, s: State) {
    StampsPast(s) && BucketFaithful(c, s)
  }

  ghost predicate WithinMax(c: Config, s: State) {
    |Members(s.bucket, s.now)| <= c.maxRequests
  }

  lemma AtomicStepKeeps(c: Config, s: State, a: AtomicAction)
    requires c.Valid() && Faithful(c, s)
    ensures Faithful(c, AtomicStep(c, s, a))
    ensures WithinMax(c, s) ==> WithinMax(c, AtomicStep(c, s, a))
    ensures AtomicStep(c, s, a).phases == s.phases
  {
    if a.Pass? {
      MapCard(Members(s.bucket, s.now + a.d), Members(s.bucket, s.now));
    } else {
      TrimKeepsWindow(c, s, s.now);
      AddKeepsWindow(c, s.(bucket := TrimBucket(c, s, s.now)), s.now);
    }
  }

  lemma {:induction false} AtomicRunKeeps(c: Config, s: State, actions: seq<AtomicAction>)
    requires c.Valid() && Faithful(c, s)
    ensures Faithful(c, AtomicRun(c, s, actions))
    ensures WithinMax(c, s) ==> WithinMax(c, AtomicRun(c, s, actions))
    ensures AtomicRun(c, s, actions).phases == s.phases && s.now <= AtomicRun(c, s, actions).now
    decreases |actions|
  {
    if actions != [] {
      AtomicStepKeeps(c, s, actions[0]);
      AtomicRunKeeps(c, AtomicStep(c, s, actions[0]), actions[1..]);
    }
  }

  lemma {:induction false} AtomicHindsight(c: Config, s: State, actions: seq<AtomicAction>, t: int)
    requires c.Valid() && Faithful(c, s) && WithinMax(c, s)
    requires t < s.now ==> |InWindow(c, s.history, t)| <= c.maxRequests
    ensures |InWindow(c, AtomicRun(c, s, actions).history, t)| <= c.maxRequests
    decreases |actions|
  {
    if actions == [] {
      if s.now <= t {
        WindowWithinBucket(c, s, t);
      }
    } else {
      var s' := AtomicStep(c, s, actions[0]);
      AtomicStepKeeps(c, s, actions[0]);
      if s.now <= t {
        WindowWithinBucket(c, s, t);
      } else {
        assert InWindow(c, s'.history, t) == InWindow(c, s.history, t);
      }
      AtomicHindsight(c, s', actions[1..], t);
    }
  }

  // When attempts are atomic, max admissions per window is exact: no window,
  // past or present, of any run exceeds it.
  lemma AtomicBound(c: Config, actions: seq<AtomicAction>, t: int)
    requires c.Valid()
    ensures |InWindow(c, AtomicRun(c, Init(0), actions).history, t)| <= c.maxRequests
  {
    assert Members(Init(0).bucket, 0) == map[];
    assert InWindow(c, Init(0).history, t) == {};
    AtomicHindsight(c, Init(0), actions, t);
  }

  // The admissions of the last `length` seconds at t, ends included.
  ghost function InSeconds(history: seq<int>, t: real, length: real): set<nat> {
    set k: nat | k < |history| && t - length <= history[k] as real / 1000.0 <= t
  }

  // In the units of the constructor: for a limiter of max requests in so many
  // seconds, no stretch of that length less a millisecond admits more than max.
  lemma AtomicBoundInSeconds(maxRequests: int, windowSeconds: real, maxWaitSeconds: real, actions: seq<AtomicAction>,
                             t: real)
    requires maxRequests >= 1 && windowSeconds > 0.0 && maxWaitSeconds >= 0.0
    ensures var c := Configure(maxRequests, windowSeconds, maxWaitSeconds).value;
            |InSeconds(AtomicRun(c, Init(0), actions).history, t, windowSeconds - 0.001)| <= maxRequests
  {
    var c := Configure(maxRequests, windowSeconds, maxWaitSeconds).value;
    var history := AtomicRun(c, Init(0), actions).history;
    var ms := (1000.0 * t).Floor;
    AtomicBound(c, actions, ms);
    hide AtomicRun, Configure;
    forall k | k in InSeconds(history, t, windowSeconds - 0.001) ensures k in InWindow(c, history, ms) {
      assert 1000.0 * t - 1000.0 * windowSeconds + 1.0 <= history[k] as real <= 1000.0 * t;
    }
    SubsetCard(InSeconds(history, t, windowSeconds - 0.001), InWindow(c, history, ms));
  }

  // ---------------------------------------------------------------- acquire()

  datatype Outcome = Admitted | RateLimited

  // The sorted set as one caller sees it. Between two of its attempts other
  // callers run whole attempts and time passes.
  class SharedBucket {
    var now: int
    var bucket: ZSet<nat>
    var history: seq<int>

    constructor ()
      ensures Snapshot() == Init(0)
    {
      now, bucket, history := 0, ZSet(map[], 0), [];
    }

    function Snapshot(): State
      reads this
    {
      State(now, bucket, [], history)
    }

    method TrimUpTo(cutoff: int)
      modifies this`bucket
      ensures bucket == RemoveByScore(old(bucket), now, Some(0), cutoff)
    {
      bucket := RemoveByScore(bucket, now, Some(0), cutoff);
    }

    method AddSelf(stamp: int, expireMs: int)
      modifies this`bucket, this`history
      ensures bucket == AddExpire(old(bucket), now, |old(history)|, stamp, expireMs)
      ensures history == old(history) + [stamp]
    {
      bucket := AddExpire(bucket, now, |history|, stamp, expireMs);
      history := history + [stamp];
    }

    // asyncio.sleep(ms): at least ms pass, and meanwhile the rivals act.
    method Sleep(ms: nat, c: Config, rivals: seq<AtomicAction>) returns (ghost rest: nat)
      modifies this
      ensures Snapshot() == AtomicRun(c, old(Snapshot()), rivals + [Pass(rest)])
      ensures old(now) + ms <= now
      ensures now == AtomicRun(c, old(Snapshot()), rivals).now || now == old(now) + ms
    {
      var after := AtomicRun(c, Snapshot(), rivals);
      var d := if after.now < now + ms then now + ms - after.now else 0;
      rest := d;
      AtomicRunPhases(c, Snapshot(), rivals);
      AtomicRunConcat(c, Snapshot(), rivals, [Pass(d)]);
      assert AtomicRun(c, after, [Pass(d)]) == AtomicRun(c, after.(now := after.now + d), []);
      bucket, history, now := after.bucket, after.history, after.now + d;
    }
  }

  lemma {:induction false} AtomicRunPhases(c: Config, s: State, actions: seq<AtomicAction>)
    ensures AtomicRun(c, s, actions).phases == s.phases
    decreases |actions|
  {
    if actions != [] {
      AtomicRunPhases(c, AtomicStep(c, s, actions[0]), actions[1..]);
    }
  }

  ghost predicate Quiet(actions: seq<AtomicAction>) {
    forall k :: 0 <= k < |actions| ==> actions[k].Pass?
  }

  lemma {:induction false} QuietRun(c: Config, s: State, actions: seq<AtomicAction>)
    requires Quiet(actions)
    ensures AtomicRun(c, s, actions) == s.(now := AtomicRun(c, s, actions).now)
    decreases |actions|
  {
    if actions != [] {
      QuietRun(c, AtomicStep(c, s, actions[0]), actions[1..]);
    }
  }

  // The bucket is within its maximum and its oldest member has left the window.
  ghost predicate HasStaleMember(c: Config, s: State) {
    && |s.bucket.scores| <= c.maxRequests
    && exists m :: m in s.bucket.scores && s.bucket.scores[m] <= s.now - c.windowMs
  }

  lemma StaleMemberMakesRoom(c: Config, s: State)
    requires c.Valid() && Faithful(c, s) && HasStaleMember(c, s)
    ensures |Members(TrimBucket(c, s, s.now), s.now)| < c.maxRequests
  {
    var m :| m in s.bucket.scores && s.bucket.scores[m] <= s.now - c.windowMs;
    var left := Members(TrimBucket(c, s, s.now), s.now);
    MapCard(left, s.bucket.scores - {m});
    assert (s.bucket.scores - {m}).Keys == s.bucket.scores.Keys - {m};
  }

  // Sleeping undisturbed until the oldest member leaves the window.
  lemma QuietNap(c: Config, s: State, rivals: seq<AtomicAction>, rest: nat, oldest: int)
    requires Quiet(rivals) && WithinMax(c, s) && oldest in Members(s.bucket, s.now).Values
    requires oldest + c.windowMs <= AtomicRun(c, s, rivals + [Pass(rest)]).now
    ensures HasStaleMember(c, AtomicRun(c, s, rivals + [Pass(rest)]))
  {
    QuietRun(c, s, rivals + [Pass(rest)]);
    var m :| m in Members(s.bucket, s.now) && Members(s.bucket, s.now)[m] == oldest;
  }

  lemma TraceGrows(c: Config, s: State, trace: seq<AtomicAction>)
    ensures AtomicRun(c, s, trace + [Try]) == Attempt(c, AtomicRun(c, s, trace))
  {
    AtomicRunConcat(c, s, trace, [Try]);
    var t := AtomicRun(c, s, trace);
    assert AtomicRun(c, t, [Try]) == AtomicRun(c, AtomicStep(c, t, Try), []);
  }

  ghost predicate Admits(c: Config, s: State) {
    |Members(TrimBucket(c, s, s.now), s.now)| < c.maxRequests
  }

  lemma AttemptOutcome(c: Config, s: State)
    requires c.Valid() && Faithful(c, s)
    ensures var s' := Attempt(c, s);
            && Faithful(c, s') && (WithinMax(c, s) ==> WithinMax(c, s'))
            && (Admits(c, s) ==> s'.history == s.history + [s.now] && |s.history| in Members(s'.bucket, s'.now))
            && (!Admits(c, s) ==> s'.history == s.history && c.maxRequests <= |Members(s'.bucket, s'.now)|)
            && (HasStaleMember(c, s) ==> Admits(c, s))
            && s'.now == s.now && forall score :: IsOldest(s'.bucket, s'.now, score) ==> score <= s'.now
  {
    AtomicStepKeeps(c, s, Try);
    TrimKeepsWindow(c, s, s.now);
    if HasStaleMember(c, s) {
      StaleMemberMakesRoom(c, s);
    }
  }

  class GlobalRateLimiter {
    const c: Config
    const redis: SharedBucket

    constructor (c: Config, redis: SharedBucket)
      ensures this.c == c && this.redis == redis
    {
      this.c := c;
      this.redis := redis;
    }

    // The loop body up to the sleep: on refusal, the oldest score in the bucket.
    // With atomic attempts the retry of an empty ZRANGE cannot happen.
    method TryOnce() returns (admitted: bool, oldest: int)
      requires c.Valid() && Faithful(c, redis.Snapshot())
      modifies redis
      ensures redis.Snapshot() == Attempt(c, old(redis.Snapshot())) && Faithful(c, redis.Snapshot())
      ensures WithinMax(c, old(redis.Snapshot())) ==> WithinMax(c, redis.Snapshot())
      ensures HasStaleMember(c, old(redis.Snapshot())) ==> admitted
      ensures redis.now == old(redis.now)
      ensures redis.history == old(redis.history) + if admitted then [redis.now] else []
      ensures admitted ==> |old(redis.history)| in Members(redis.bucket, redis.now)
      ensures !admitted ==> c.maxRequests <= |Members(redis.bucket, redis.now)| && oldest <= redis.now
      ensures !admitted ==> IsOldest(redis.bucket, redis.now, oldest)
    {
      hide Members, RemoveByScore, AddExpire, IsOldest, Faithful, WithinMax, HasStaleMember;
      AttemptOutcome(c, redis.Snapshot());
      var nowMs := redis.now;
      redis.TrimUpTo(nowMs - c.windowMs);
      var count := |Members(redis.bucket, redis.now)|;
      if count < c.maxRequests {
        redis.AddSelf(nowMs, c.expireMs);
        return true, nowMs;
      }
      var first := OldestScore(redis.bucket, redis.now);
      if first.None? {
        assert false;
      }
      return false, first.value;
    }

    // Wait for `oldest` to leave the window while the rivals act.
    method SleepFor(napMs: nat, rivals: seq<AtomicAction>,
                    ghost oldest: int) returns (ghost meanwhile: seq<AtomicAction>)
      requires c.Valid() && Faithful(c, redis.Snapshot())
      requires oldest in Members(redis.bucket, redis.now).Values && oldest + c.windowMs <= redis.now + napMs
      modifies redis
      ensures redis.Snapshot() == AtomicRun(c, old(redis.Snapshot()), meanwhile) && Faithful(c, redis.Snapshot())
      ensures old(redis.now) + napMs <= redis.now
      ensures Quiet(rivals) && WithinMax(c, old(redis.Snapshot())) ==> HasStaleMember(c, redis.Snapshot())
    {
      ghost var full := redis.Snapshot();
      ghost var rest := redis.Sleep(napMs, c, rivals);
      meanwhile := rivals + [Pass(rest)];
      AtomicRunKeeps(c, full, meanwhile);
      if Quiet(rivals) && WithinMax(c, full) {
        QuietNap(c, full, rivals, rest, oldest);
      }
    }

    // rivals(k) is what the other callers do during this call's k-th sleep.
    // `trace` shows the whole call as a run of atomic attempts, so AtomicBound
    // covers it. A refusal means that the wait for the oldest member does not
    // fit the budget; with quiet rivals and a budget of one window there is
    // none, and one sleep is enough.
    method Acquire(rivals: nat -> seq<AtomicAction>)
      returns (outcome: Outcome, naps: nat, sleptMs: int, ghost trace: seq<AtomicAction>)
      requires c.Valid() && Faithful(c, redis.Snapshot())
      modifies redis
      ensures redis.Snapshot() == AtomicRun(c, old(redis.Snapshot()), trace) && Faithful(c, redis.Snapshot())
      ensures 5 * naps <= sleptMs <= c.maxWaitMs
      ensures outcome.Admitted? ==>
                |redis.history| > 0 && redis.history[|redis.history| - 1] == redis.now
                && (|redis.history| - 1) as nat in Members(redis.bucket, redis.now)
      ensures outcome.RateLimited? ==>
                |Members(redis.bucket, redis.now)| >= c.maxRequests
                && forall m :: m in Members(redis.bucket, redis.now) ==>
                     c.maxWaitMs < 5 + redis.now - old(redis.now)
                     || c.maxWaitMs < Members(redis.bucket, redis.now)[m] + c.windowMs - old(redis.now)
      ensures (forall k :: Quiet(rivals(k))) && WithinMax(c, old(redis.Snapshot())) && 5 <= c.maxWaitMs
              && c.windowMs <= c.maxWaitMs
              ==> outcome.Admitted? && naps <= 1
    {
      hide Attempt, Faithful;
      var start := redis.now;
      naps, sleptMs, trace := 0, 0, [];
      ghost var first := redis.Snapshot();
      ghost var quiet := (forall k :: Quiet(rivals(k))) && WithinMax(c, first) && 5 <= c.maxWaitMs
                         && c.windowMs <= c.maxWaitMs;
      while true
        invariant redis.Snapshot() == AtomicRun(c, first, trace) && Faithful(c, redis.Snapshot())
        invariant 5 * naps <= sleptMs <= c.maxWaitMs && sleptMs <= redis.now - start
        invariant quiet && naps == 0 ==> redis.now == start && WithinMax(c, redis.Snapshot())
        invariant quiet ==> naps == 0 || (naps == 1 && HasStaleMember(c, redis.Snapshot()))
        decreases c.maxWaitMs - (redis.now - start)
      {
        var admitted, oldest := TryOnce();
        TraceGrows(c, first, trace);
        trace := trace + [Try];
        if admitted {
          outcome := Admitted;
          return;
        }
        var nowMs := redis.now;
        var waitMs := oldest + c.windowMs - nowMs;
        var napMs := if waitMs < 5 then 5 else waitMs;
        if nowMs - start + napMs > c.maxWaitMs {
          outcome := RateLimited;
          return;
        }
        ghost var meanwhile := SleepFor(napMs, rivals(naps), oldest);
        AtomicRunConcat(c, first, trace, meanwhile);
        trace := trace + meanwhile;
        naps, sleptMs := naps + 1, sleptMs + napMs;
      }
    }
  }
}
