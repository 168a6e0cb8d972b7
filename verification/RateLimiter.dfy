// The sliding-window limiter that many processes share through one sorted set.
// A caller reads its clock, trims, counts and adds in separate steps, so other
// callers run in between. Times are whole milliseconds.
module RateLimiter {
  import opened Wrappers
  import opened Redis
  import opened Counting

  datatype Config = Config(maxRequests: int, windowMs: int, expireMs: int, maxWaitMs: int)
  {
    ghost predicate Valid() {
      1 <= maxRequests && 0 <= windowMs <= expireMs && 0 < expireMs && 0 <= maxWaitMs
    }
  }

  datatype ConfigError = MaxRequestsTooSmall | WindowNotPositive | MaxWaitNegative

  // The constructor's checks and derived fields. Seconds are reals; the bucket
  // expires after max(int(2 * window) + 1, 2) seconds.
  function Configure(maxRequests: int, windowSeconds: real, maxWaitSeconds: real): (r: Result<Config, ConfigError>)
    ensures r.Ok? <==> maxRequests >= 1 && windowSeconds > 0.0 && maxWaitSeconds >= 0.0
    ensures r.Err? ==> (r.error == MaxRequestsTooSmall <==> maxRequests < 1)
                       && (r.error == WindowNotPositive <==> maxRequests >= 1 && windowSeconds <= 0.0)
    ensures r.Ok? ==> r.value.Valid() && r.value.maxRequests == maxRequests
    // Whole milliseconds, rounded down.
    ensures r.Ok? ==> r.value.windowMs as real <= 1000.0 * windowSeconds < (r.value.windowMs + 1) as real
    ensures r.Ok? ==> r.value.maxWaitMs as real <= 1000.0 * maxWaitSeconds < (r.value.maxWaitMs + 1) as real
    // The least whole number of seconds above two windows, but at least two.
    ensures r.Ok? ==>
              var seconds := r.value.expireMs / 1000;
              && r.value.expireMs == 1000 * seconds && 2 <= seconds && 2.0 * windowSeconds < seconds as real
              && (2 < seconds ==> (seconds - 1) as real <= 2.0 * windowSeconds)
  {
    if maxRequests < 1 then Err(MaxRequestsTooSmall)
    else if windowSeconds <= 0.0 then Err(WindowNotPositive)
    else if maxWaitSeconds < 0.0 then Err(MaxWaitNegative)
    else
      var expireS := (windowSeconds * 2.0).Floor + 1;
      Ok(Config(maxRequests, (windowSeconds * 1000.0).Floor,
                1000 * (if expireS < 2 then 2 else expireS), (maxWaitSeconds * 1000.0).Floor))
  }

  // Where a caller stands in its attempt, with the clock reading it took.
  datatype Phase =
    | Idle
    | Read(stamp: int)     // clock read, about to trim
    | Trimmed(stamp: int)  // about to count
    | Passed(stamp: int)   // counted below the maximum, about to add

  // `history` lists the stamps of all admissions in the order of their ZADDs;
  // an admission's index stands for its unique member id.
  datatype State = State(now: int, bucket: ZSet<nat>, phases: seq<Phase>, history: seq<int>)

  datatype Action = Tick(d: nat) | Begin(i: nat) | Trim(i: nat) | Count(i: nat) | Add(i: nat)

  function Init(callers: nat): State {
    State(0, ZSet(map[], 0), seq(callers, _ => Idle), [])
  }

  function TrimBucket(c: Config, s: State, stamp: int): ZSet<nat> {
    RemoveByScore(s.bucket, s.now, Some(0), stamp - c.windowMs)
  }

  // An action that does not apply leaves the state as it is.
  function Step(c: Config, s: State, a: Action): State {
    match a
    case Tick(d) => s.(now := s.now + d)
    case Begin(i) =>
      if i < |s.phases| && s.phases[i].Idle? then s.(phases := s.phases[i := Read(s.now)]) else s
    case Trim(i) =>
      if i < |s.phases| && s.phases[i].Read? then
        s.(bucket := TrimBucket(c, s, s.phases[i].stamp), phases := s.phases[i := Trimmed(s.phases[i].stamp)])
      else s
    case Count(i) =>
      if i < |s.phases| && s.phases[i].Trimmed? then
        if |Members(s.bucket, s.now)| < c.maxRequests
        then s.(phases := s.phases[i := Passed(s.phases[i].stamp)])
        else s.(phases := s.phases[i := Idle])
      else s
    case Add(i) =>
      if i < |s.phases| && s.phases[i].Passed? then
        var stamp := s.phases[i].stamp;
        s.(bucket := AddExpire(s.bucket, s.now, |s.history|, stamp, c.expireMs),
           phases := s.phases[i := Idle], history := s.history + [stamp])
      else s
  }

  function Run(c: Config, s: State, actions: seq<Action>): State
    decreases |actions|
  {
    if actions == [] then s else Run(c, Step(c, s, actions[0]), actions[1..])
  }

  // The admissions stamped in (t - windowMs, t].
  ghost function InWindow(c: Config, history: seq<int>, t: int): set<nat> {
    set k: nat | k < |history| && t - c.windowMs < history[k] <= t
  }

  ghost function PassedCallers(phases: seq<Phase>): set<nat> {
    set i: nat | i < |phases| && phases[i].Passed?
  }

  // Callers in the middle of an attempt that began at or before t.
  ghost function Pending(phases: seq<Phase>, t: int): set<nat> {
    set i: nat | i < |phases| && !phases[i].Idle? && phases[i].stamp <= t
  }

  // ---------------------------------------------------------------- the invariant

  // The bucket holds true admissions, and holds every one still in the window.
  ghost predicate BucketFaithful(c: Config, s: State) {
    && (forall m :: m in s.bucket.scores ==>
          m < |s.history| && s.bucket.scores[m] == s.history[m] && s.history[m] + c.expireMs <= s.bucket.deadline)
    && (forall k :: 0 <= k < |s.history| && s.now - c.windowMs < s.history[k] ==> k in Members(s.bucket, s.now))
  }

  ghost predicate StampsPast(s: State) {
    && 0 <= s.now
    && (forall k :: 0 <= k < |s.history| ==> 0 <= s.history[k] <= s.now)
    && (forall i :: 0 <= i < |s.phases| && !s.phases[i].Idle? ==> 0 <= s.phases[i].stamp <= s.now)
  }

  ghost predicate Inv(c: Config, s: State) {
    && StampsPast(s)
    && BucketFaithful(c, s)
    && |Members(s.bucket, s.now)| + |PassedCallers(s.phases)| <= c.maxRequests + |s.phases| - 1
  }

  lemma TrimKeepsWindow(c: Config, s: State, stamp: int)
    requires c.Valid() && StampsPast(s) && BucketFaithful(c, s) && stamp <= s.now
    ensures BucketFaithful(c, s.(bucket := TrimBucket(c, s, stamp)))
    ensures |Members(TrimBucket(c, s, stamp), s.now)| <= |Members(s.bucket, s.now)|
  {
    MapCard(Members(TrimBucket(c, s, stamp), s.now), Members(s.bucket, s.now));
  }

  lemma AddKeepsWindow(c: Config, s: State, stamp: int)
    requires c.Valid() && StampsPast(s) && BucketFaithful(c, s) && 0 <= stamp <= s.now
    ensures var s' := s.(bucket := AddExpire(s.bucket, s.now, |s.history|, stamp, c.expireMs),
                         history := s.history + [stamp]);
            && StampsPast(s') && BucketFaithful(c, s')
            && |Members(s'.bucket, s.now)| == |Members(s.bucket, s.now)| + 1
  {
  }

  lemma PassedAfter(phases: seq<Phase>, i: nat, p: Phase)
    requires i < |phases|
    ensures PassedCallers(phases[i := p]) ==
            if p.Passed? then PassedCallers(phases) + {i} else PassedCallers(phases) - {i}
    ensures |PassedCallers(phases)| <= |phases|
    ensures !phases[i].Passed? ==> |PassedCallers(phases)| <= |phases| - 1
    ensures p.Passed? && !phases[i].Passed? ==> |PassedCallers(phases[i := p])| == |PassedCallers(phases)| + 1
    ensures !p.Passed? && phases[i].Passed? ==> |PassedCallers(phases[i := p])| == |PassedCallers(phases)| - 1
  {
    var before := PassedCallers(phases);
    assert PassedCallers(phases[i := p]) == if p.Passed? then before + {i} else before - {i};
    RangeCard(before, 0, |phases|);
    if !phases[i].Passed? {
      RangeCard(before + {i}, 0, |phases|);
      assert |before + {i}| == |before| + 1;
      if !p.Passed? {
        assert before - {i} == before;
      }
    }
  }

  lemma MoveKeepsInv(c: Config, s: State, i: nat, p: Phase)
    requires c.Valid() && Inv(c, s) && i < |s.phases|
    requires !p.Idle? ==> 0 <= p.stamp <= s.now
    requires p.Passed? && !s.phases[i].Passed? ==> |Members(s.bucket, s.now)| < c.maxRequests
    ensures Inv(c, s.(phases := s.phases[i := p]))
    ensures s.phases[i].Passed? && !p.Passed? ==>
              |Members(s.bucket, s.now)| + |PassedCallers(s.phases[i := p])| < c.maxRequests + |s.phases| - 1
  {
    PassedAfter(s.phases, i, p);
    if s.phases[i].Passed? == p.Passed? {
      assert PassedCallers(s.phases[i := p]) == PassedCallers(s.phases);
    }
  }

  // Every step keeps the invariant, whoever takes it.
  lemma StepKeepsInv(c: Config, s: State, a: Action)
    requires c.Valid() && Inv(c, s)
    ensures Inv(c, Step(c, s, a)) && |Step(c, s, a).phases| == |s.phases|
  {
    var s' := Step(c, s, a);
    if s' != s {
      if a.Tick? {
        MapCard(Members(s'.bucket, s'.now), Members(s.bucket, s.now));
      } else {
        MoveKeepsInv(c, s, a.i, s'.phases[a.i]);
        var moved := s.(phases := s'.phases);
        if a.Trim? {
          TrimKeepsWindow(c, moved, s.phases[a.i].stamp);
        } else if a.Add? {
          AddKeepsWindow(c, moved, s.phases[a.i].stamp);
        }
      }
    }
  }

  lemma {:induction false} RunKeepsInv(c: Config, s: State, actions: seq<Action>)
    requires c.Valid() && Inv(c, s)
    ensures Inv(c, Run(c, s, actions)) && |Run(c, s, actions).phases| == |s.phases|
    decreases |actions|
  {
    if actions != [] {
      StepKeepsInv(c, s, actions[0]);
      RunKeepsInv(c, Step(c, s, actions[0]), actions[1..]);
    }
  }

  lemma InitInv(c: Config, callers: nat)
    requires c.Valid()
    ensures Inv(c, Init(callers))
  {
  }

  // A faithful bucket is at least as large as the current window.
  lemma WindowWithinBucket(c: Config, s: State, t: int)
    requires c.Valid() && BucketFaithful(c, s) && s.now <= t
    ensures |InWindow(c, s.history, t)| <= |Members(s.bucket, s.now)|
  {
    SubsetCard(InWindow(c, s.history, t), Members(s.bucket, s.now).Keys);
    assert |Members(s.bucket, s.now).Keys| == |Members(s.bucket, s.now)|;
  }

  // However the callers' steps interleave: the bucket plus the callers past the
  // check never exceed max + N - 1, nor do the admissions stamped in the window
  // that ends now, and the bucket has lost no stamp of that window to a trim or
  // to the key's expiry.
  lemma InterleavedBound(c: Config, callers: nat, actions: seq<Action>)
    requires c.Valid()
    ensures var s := Run(c, Init(callers), actions);
            && |Members(s.bucket, s.now)| + |PassedCallers(s.phases)| <= c.maxRequests + callers - 1
            && |InWindow(c, s.history, s.now)| <= c.maxRequests + callers - 1
            && (forall k :: k in InWindow(c, s.history, s.now) ==>
                  k in Members(s.bucket, s.now) && Members(s.bucket, s.now)[k] == s.history[k])
  {
    InitInv(c, callers);
    RunKeepsInv(c, Init(callers), actions);
    var s := Run(c, Init(callers), actions);
    WindowWithinBucket(c, s, s.now);
  }

  // ---------------------------------------------------------------- hindsight

  // A caller may add its stamp long after reading it, into a window that looked
  // settled. For a fixed window end t this bound holds at all later times.
  ghost predicate HindsightInv(c: Config, s: State, t: int) {
    t < s.now ==> |InWindow(c, s.history, t)| + |Pending(s.phases, t)| <= c.maxRequests + 2 * |s.phases| - 1
  }

  lemma PendingAfter(phases: seq<Phase>, i: nat, p: Phase, t: int)
    requires i < |phases|
    requires !p.Idle? && p.stamp <= t ==> !phases[i].Idle? && phases[i].stamp <= t
    ensures |Pending(phases[i := p], t)| <= |Pending(phases, t)|
    ensures p.Idle? && i in Pending(phases, t) ==> |Pending(phases[i := p], t)| == |Pending(phases, t)| - 1
  {
    SubsetCard(Pending(phases[i := p], t), Pending(phases, t));
    if p.Idle? && i in Pending(phases, t) {
      assert Pending(phases[i := p], t) == Pending(phases, t) - {i};
    }
  }

  lemma StepKeepsHindsight(c: Config, s: State, a: Action, t: int)
    requires c.Valid() && Inv(c, s) && HindsightInv(c, s, t)
    ensures HindsightInv(c, Step(c, s, a), t)
  {
    var s' := Step(c, s, a);
    if s' != s && t < s'.now {
      match a
      case Tick(d) =>
        if s.now <= t {
          WindowWithinBucket(c, s, t);
          RangeCard(Pending(s.phases, t), 0, |s.phases|);
        }
      case Begin(i) => PendingAfter(s.phases, i, s'.phases[i], t);
      case Trim(i) => PendingAfter(s.phases, i, s'.phases[i], t);
      case Count(i) => PendingAfter(s.phases, i, s'.phases[i], t);
      case Add(i) =>
        PendingAfter(s.phases, i, Idle, t);
        var before, after := InWindow(c, s.history, t), InWindow(c, s'.history, t);
        if t - c.windowMs < s.phases[i].stamp <= t {
          assert after == before + {|s.history|};
        } else {
          assert after == before;
        }
    }
  }

  lemma {:induction false} RunKeepsHindsight(c: Config, s: State, actions: seq<Action>, t: int)
    requires c.Valid() && Inv(c, s) && HindsightInv(c, s, t)
    ensures HindsightInv(c, Run(c, s, actions), t)
    decreases |actions|
  {
    if actions != [] {
      StepKeepsInv(c, s, actions[0]);
      StepKeepsHindsight(c, s, actions[0], t);
      RunKeepsHindsight(c, Step(c, s, actions[0]), actions[1..], t);
    }
  }

  // Over the whole history of any run, no window of the clock, past or present,
  // holds more than max + 2N - 1 stamps.
  lemma HindsightBound(c: Config, callers: nat, actions: seq<Action>, t: int)
    requires c.Valid()
    ensures |InWindow(c, Run(c, Init(callers), actions).history, t)| <= c.maxRequests + 2 * callers - 1
  {
    InitInv(c, callers);
    var s := Run(c, Init(callers), actions);
    RunKeepsInv(c, Init(callers), actions);
    if t < 0 {
      assert InWindow(c, s.history, t) == {};
    } else {
      RunKeepsHindsight(c, Init(callers), actions, t);
      if s.now <= t {
        WindowWithinBucket(c, s, t);
      }
    }
  }

  lemma RunTwo(c: Config, s: State, a: Action, b: Action)
    ensures Run(c, s, [a, b]) == Step(c, Step(c, s, a), b)
  {
    assert [a, b][1..] == [b] && [b][1..] == [];
    var s' := Step(c, s, a);
    assert Run(c, s', [b]) == Run(c, Step(c, s', b), []);
    assert Run(c, s, [a, b]) == Run(c, s', [b]);
  }

  lemma {:induction false} RunConcat(c: Config, s: State, a: seq<Action>, b: seq<Action>)
    ensures Run(c, s, a + b) == Run(c, Run(c, s, a), b)
    decreases |a|
  {
    if a == [] {
      assert a + b == b;
    } else {
      assert (a + b)[0] == a[0] && (a + b)[1..] == a[1..] + b;
      RunConcat(c, Step(c, s, a[0]), a[1..], b);
    }
  }
}
