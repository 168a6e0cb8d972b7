// What the sliding window promises in hindsight, when a caller's check may lag
// its clock reading.
module LimiterLag {
  import opened Wrappers
  import opened Redis
  import opened Counting
  import opened RateLimiter

  // No check comes more than `lag` after the clock reading of its attempt.
  ghost predicate PromptStep(s: State, a: Action, lag: nat) {
    a.Count? && a.i < |s.phases| && s.phases[a.i].Trimmed? ==> s.now <= s.phases[a.i].stamp + lag
  }

  ghost predicate Prompt(c: Config, s: State, actions: seq<Action>, lag: nat)
    decreases |actions|
  {
    actions == [] || (PromptStep(s, actions[0], lag) && Prompt(c, Step(c, s, actions[0]), actions[1..], lag))
  }

  // ---------------------------------------------------------------- the bound

  // The admissions stamped in (lo, t].
  ghost function InSpan(history: seq<int>, lo: int, t: int): set<nat> {
    set k: nat | k < |history| && lo < history[k] <= t
  }

  // The admissions of a stretch of that length that ends at t.
  ghost function InStretch(stretch: nat, history: seq<int>, t: int): set<nat> {
    InSpan(history, t - stretch, t)
  }

  // The callers past the check that will add such a stamp.
  ghost function PassedIn(phases: seq<Phase>, lo: int, t: int): set<nat> {
    set i: nat | i < |phases| && phases[i].Passed? && lo < phases[i].stamp <= t
  }

  ghost predicate SpanBound(c: Config, s: State, lo: int, t: int) {
    |InSpan(s.history, lo, t)| + |PassedIn(s.phases, lo, t)| <= c.maxRequests + |s.phases| - 1
  }

  // A prompt check sees every admission of the span in the bucket.
  lemma PromptCheckSees(c: Config, s: State, i: nat, lag: nat, t: int)
    requires c.Valid() && Inv(c, s) && i < |s.phases| && s.phases[i].Trimmed? && PromptStep(s, Count(i), lag)
    requires t - (c.windowMs - lag) < s.phases[i].stamp <= t
    ensures |InSpan(s.history, t - (c.windowMs - lag), t)| <= |Members(s.bucket, s.now)|
  {
    SubsetCard(InSpan(s.history, t - (c.windowMs - lag), t), Members(s.bucket, s.now).Keys);
    assert |Members(s.bucket, s.now).Keys| == |Members(s.bucket, s.now)|;
  }

  lemma PassKeepsSpan(c: Config, s: State, i: nat, lag: nat, t: int)
    requires c.Valid() && Inv(c, s) && i < |s.phases| && s.phases[i].Trimmed? && PromptStep(s, Count(i), lag)
    requires |Members(s.bucket, s.now)| < c.maxRequests && SpanBound(c, s, t - (c.windowMs - lag), t)
    ensures SpanBound(c, Step(c, s, Count(i)), t - (c.windowMs - lag), t)
  {
    var lo := t - (c.windowMs - lag);
    var phases' := Step(c, s, Count(i)).phases;
    if lo < s.phases[i].stamp <= t {
      PromptCheckSees(c, s, i, lag, t);
      RangeCard(PassedIn(phases', lo, t), 0, |s.phases|);
    } else {
      assert PassedIn(phases', lo, t) == PassedIn(s.phases, lo, t);
    }
  }

  lemma AddKeepsSpan(c: Config, s: State, i: nat, lo: int, t: int)
    requires i < |s.phases| && s.phases[i].Passed? && SpanBound(c, s, lo, t)
    ensures SpanBound(c, Step(c, s, Add(i)), lo, t)
  {
    var s' := Step(c, s, Add(i));
    if lo < s.phases[i].stamp <= t {
      assert InSpan(s'.history, lo, t) == InSpan(s.history, lo, t) + {|s.history|};
      assert PassedIn(s'.phases, lo, t) == PassedIn(s.phases, lo, t) - {i};
    } else {
      assert InSpan(s'.history, lo, t) == InSpan(s.history, lo, t);
      assert PassedIn(s'.phases, lo, t) == PassedIn(s.phases, lo, t);
    }
  }

  lemma StepKeepsSpan(c: Config, s: State, a: Action, lag: nat, t: int)
    requires c.Valid() && Inv(c, s) && PromptStep(s, a, lag) && SpanBound(c, s, t - (c.windowMs - lag), t)
    ensures SpanBound(c, Step(c, s, a), t - (c.windowMs - lag), t)
  {
    var s' := Step(c, s, a);
    if s' != s && !a.Tick? {
      if a.Add? {
        AddKeepsSpan(c, s, a.i, t - (c.windowMs - lag), t);
      } else if a.Count? && s'.phases[a.i].Passed? {
        PassKeepsSpan(c, s, a.i, lag, t);
      } else {
        assert PassedIn(s'.phases, t - (c.windowMs - lag), t) == PassedIn(s.phases, t - (c.windowMs - lag), t);
      }
    }
  }

  lemma {:induction false} RunKeepsSpan(c: Config, s: State, actions: seq<Action>, lag: nat, t: int)
    requires c.Valid() && Inv(c, s) && Prompt(c, s, actions, lag) && SpanBound(c, s, t - (c.windowMs - lag), t)
    ensures SpanBound(c, Run(c, s, actions), t - (c.windowMs - lag), t)
    decreases |actions|
  {
    hide Inv, SpanBound, Step, PromptStep;
    if actions != [] {
      StepKeepsInv(c, s, actions[0]);
      StepKeepsSpan(c, s, actions[0], lag, t);
      RunKeepsSpan(c, Step(c, s, actions[0]), actions[1..], lag, t);
    }
  }

  // If no check lags its clock by more than `lag`, then in hindsight no stretch of
  // windowMs - lag, past or present, holds more than max + N - 1 stamps.
  lemma PromptBound(c: Config, callers: nat, actions: seq<Action>, lag: nat, t: int)
    requires c.Valid() && Prompt(c, Init(callers), actions, lag)
    ensures |InSpan(Run(c, Init(callers), actions).history, t - (c.windowMs - lag), t)| <= c.maxRequests + callers - 1
  {
    InitInv(c, callers);
    var lo := t - (c.windowMs - lag);
    assert InSpan(Init(callers).history, lo, t) == {} && PassedIn(Init(callers).phases, lo, t) == {};
    RunKeepsSpan(c, Init(callers), actions, lag, t);
    RunKeepsInv(c, Init(callers), actions);
  }

  // ---------------------------------------------------------------- building runs

  // One more action at the end of a prompt run.
  lemma Extend(c: Config, s: State, actions: seq<Action>, a: Action, lag: nat)
    requires Prompt(c, s, actions, lag) && PromptStep(Run(c, s, actions), a, lag)
    ensures Prompt(c, s, actions + [a], lag) && Run(c, s, actions + [a]) == Step(c, Run(c, s, actions), a)
  {
    hide Step, PromptStep;
    PromptConcat(c, s, actions, [a], lag);
    RunConcat(c, s, actions, [a]);
    assert [a][1..] == [];
    var s' := Run(c, s, actions);
    assert Run(c, s', [a]) == Run(c, Step(c, s', a), []);
  }

  lemma {:induction false} PromptConcat(c: Config, s: State, a: seq<Action>, b: seq<Action>, lag: nat)
    requires Prompt(c, s, a, lag)
    ensures Prompt(c, s, a + b, lag) <==> Prompt(c, Run(c, s, a), b, lag)
    decreases |a|
  {
    hide Step, PromptStep;
    if a == [] {
      assert a + b == b;
    } else {
      assert (a + b)[0] == a[0] && (a + b)[1..] == a[1..] + b;
      PromptConcat(c, Step(c, s, a[0]), a[1..], b, lag);
    }
  }

  lemma Append(c: Config, s: State, a: seq<Action>, b: seq<Action>, lag: nat)
    requires Prompt(c, s, a, lag) && Prompt(c, Run(c, s, a), b, lag)
    ensures Prompt(c, s, a + b, lag) && Run(c, s, a + b) == Run(c, Run(c, s, a), b)
  {
    PromptConcat(c, s, a, b, lag);
    RunConcat(c, s, a, b);
  }

  // The first k of the n racing callers have moved on; the others are idle.
  ghost function Racing(callers: nat, k: nat, n: nat, from: Phase, to: Phase): seq<Phase> {
    seq(callers, i => if i < k then to else if i < n then from else Idle)
  }

  ghost predicate AllIdle(s: State) {
    forall i :: 0 <= i < |s.phases| ==> s.phases[i].Idle?
  }

  lemma {:induction false} AllBegin(c: Config, s: State, k: nat, n: nat, lag: nat) returns (actions: seq<Action>)
    requires AllIdle(s) && k <= n <= |s.phases|
    ensures Prompt(c, s, actions, lag)
    ensures Run(c, s, actions) == s.(phases := Racing(|s.phases|, k, n, Idle, Read(s.now)))
  {
    actions := [];
    if k == 0 {
      assert s.phases == Racing(|s.phases|, k, n, Idle, Read(s.now));
    } else {
      actions := AllBegin(c, s, k - 1, n, lag);
      Extend(c, s, actions, Begin(k - 1), lag);
      actions := actions + [Begin(k - 1)];
      assert Racing(|s.phases|, k, n, Idle, Read(s.now))
          == Racing(|s.phases|, k - 1, n, Idle, Read(s.now))[k - 1 := Read(s.now)];
    }
  }

  lemma {:induction false} AllTrim(c: Config, s: State, k: nat, n: nat, stamp: int,
                                   lag: nat) returns (actions: seq<Action>)
    requires k <= n <= |s.phases| && s.phases == Racing(|s.phases|, n, n, Idle, Read(stamp))
    ensures Prompt(c, s, actions, lag)
    ensures var s' := Run(c, s, actions);
            && s' == s.(bucket := s'.bucket, phases := Racing(|s.phases|, k, n, Read(stamp), Trimmed(stamp)))
            && |Members(s'.bucket, s.now)| <= |Members(s.bucket, s.now)|
  {
    actions := [];
    if k == 0 {
      assert s.phases == Racing(|s.phases|, k, n, Read(stamp), Trimmed(stamp));
    } else {
      actions := AllTrim(c, s, k - 1, n, stamp, lag);
      var before := Run(c, s, actions);
      Extend(c, s, actions, Trim(k - 1), lag);
      actions := actions + [Trim(k - 1)];
      MapCard(Members(TrimBucket(c, before, stamp), s.now), Members(before.bucket, s.now));
      assert Racing(|s.phases|, k, n, Read(stamp), Trimmed(stamp))
          == Racing(|s.phases|, k - 1, n, Read(stamp), Trimmed(stamp))[k - 1 := Trimmed(stamp)];
    }
  }

  lemma {:induction false} AllCount(c: Config, s: State, k: nat, n: nat, stamp: int,
                                    lag: nat) returns (actions: seq<Action>)
    requires k <= n <= |s.phases| && s.phases == Racing(|s.phases|, n, n, Idle, Trimmed(stamp))
    requires |Members(s.bucket, s.now)| < c.maxRequests && s.now <= stamp + lag
    ensures Prompt(c, s, actions, lag)
    ensures Run(c, s, actions) == s.(phases := Racing(|s.phases|, k, n, Trimmed(stamp), Passed(stamp)))
  {
    actions := [];
    if k == 0 {
      assert s.phases == Racing(|s.phases|, k, n, Trimmed(stamp), Passed(stamp));
    } else {
      actions := AllCount(c, s, k - 1, n, stamp, lag);
      Extend(c, s, actions, Count(k - 1), lag);
      actions := actions + [Count(k - 1)];
      assert Racing(|s.phases|, k, n, Trimmed(stamp), Passed(stamp))
          == Racing(|s.phases|, k - 1, n, Trimmed(stamp), Passed(stamp))[k - 1 := Passed(stamp)];
    }
  }

  lemma {:induction false} AllAdd(c: Config, s: State, k: nat, n: nat, stamp: int,
                                  lag: nat) returns (actions: seq<Action>)
    requires k <= n <= |s.phases| && s.phases == Racing(|s.phases|, n, n, Idle, Passed(stamp))
    ensures Prompt(c, s, actions, lag)
    ensures var s' := Run(c, s, actions);
            s' == s.(bucket := s'.bucket, phases := Racing(|s.phases|, k, n, Passed(stamp), Idle),
                     history := s.history + seq(k, _ => stamp))
  {
    actions := [];
    if k == 0 {
      assert s.phases == Racing(|s.phases|, k, n, Passed(stamp), Idle);
      assert s.history + seq(0, _ => stamp) == s.history;
    } else {
      actions := AllAdd(c, s, k - 1, n, stamp, lag);
      Extend(c, s, actions, Add(k - 1), lag);
      actions := actions + [Add(k - 1)];
      assert Racing(|s.phases|, k, n, Passed(stamp), Idle)
          == Racing(|s.phases|, k - 1, n, Passed(stamp), Idle)[k - 1 := Idle];
      assert s.history + seq(k, _ => stamp) == s.history + seq(k - 1, _ => stamp) + [stamp];
    }
  }

  // n callers that have read the same clock all get in if the bucket has room for one.
  lemma AllIn(c: Config, s: State, n: nat, stamp: int, lag: nat) returns (actions: seq<Action>)
    requires n <= |s.phases| && s.phases == Racing(|s.phases|, n, n, Idle, Read(stamp))
    requires |Members(s.bucket, s.now)| < c.maxRequests && s.now <= stamp + lag
    ensures Prompt(c, s, actions, lag)
    ensures var s' := Run(c, s, actions);
            s'.now == s.now && |s'.phases| == |s.phases| && AllIdle(s') && s'.history == s.history + seq(n, _ => stamp)
  {
    hide Step, PromptStep;
    var N := |s.phases|;
    var trims := AllTrim(c, s, n, n, stamp, lag);
    var s1 := Run(c, s, trims);
    assert s1.phases == Racing(N, n, n, Idle, Trimmed(stamp));
    var counts := AllCount(c, s1, n, n, stamp, lag);
    Append(c, s, trims, counts, lag);
    var s2 := Run(c, s1, counts);
    assert s2.phases == Racing(N, n, n, Idle, Passed(stamp));
    var adds := AllAdd(c, s2, n, n, stamp, lag);
    Append(c, s, trims + counts, adds, lag);
    actions := trims + counts + adds;
  }

  lemma Race(c: Config, s: State, n: nat, lag: nat) returns (actions: seq<Action>)
    requires AllIdle(s) && n <= |s.phases| && |Members(s.bucket, s.now)| < c.maxRequests
    ensures Prompt(c, s, actions, lag)
    ensures var s' := Run(c, s, actions);
            s'.now == s.now && |s'.phases| == |s.phases| && AllIdle(s') && s'.history == s.history + seq(n, _ => s.now)
  {
    hide Step, PromptStep;
    var begins := AllBegin(c, s, n, n, lag);
    var s1 := Run(c, s, begins);
    var rest := AllIn(c, s1, n, s.now, lag);
    Append(c, s, begins, rest, lag);
    actions := begins + rest;
  }

  // The bucket holds no more than was ever admitted, and lapses in time.
  lemma MembersAdmitted(c: Config, s: State)
    requires BucketFaithful(c, s)
    ensures |Members(s.bucket, s.now)| <= |s.history|
  {
    RangeCard(Members(s.bucket, s.now).Keys, 0, |s.history|);
    assert |Members(s.bucket, s.now).Keys| == |Members(s.bucket, s.now)|;
  }

  lemma {:induction false} DeadlineBound(c: Config, s: State, actions: seq<Action>)
    requires c.Valid() && s.bucket.deadline <= s.now + c.expireMs
    ensures Run(c, s, actions).bucket.deadline <= Run(c, s, actions).now + c.expireMs
    decreases |actions|
  {
    if actions != [] {
      DeadlineBound(c, Step(c, s, actions[0]), actions[1..]);
    }
  }

  // ---------------------------------------------------------------- full windows

  // n admissions at instant zero, one caller after the other.
  lemma {:induction false} FillUp(c: Config, callers: nat, n: nat, lag: nat) returns (actions: seq<Action>)
    requires c.Valid() && 1 <= callers && n <= c.maxRequests
    ensures Prompt(c, Init(callers), actions, lag)
    ensures var s := Run(c, Init(callers), actions);
            s.now == 0 && |s.phases| == callers && AllIdle(s) && s.history == seq(n, _ => 0)
  {
    hide Step, PromptStep;
    actions := [];
    if n > 0 {
      actions := FillUp(c, callers, n - 1, lag);
      var s := Run(c, Init(callers), actions);
      RoomLeft(c, callers, actions);
      var more := Race(c, s, 1, lag);
      Append(c, Init(callers), actions, more, lag);
      actions := actions + more;
      assert seq(n, _ => 0) == seq(n - 1, _ => 0) + seq(1, _ => 0);
    }
  }

  lemma RoomLeft(c: Config, callers: nat, actions: seq<Action>)
    requires c.Valid()
    ensures var s := Run(c, Init(callers), actions); Inv(c, s) && |Members(s.bucket, s.now)| <= |s.history|
  {
    InitInv(c, callers);
    RunKeepsInv(c, Init(callers), actions);
    MembersAdmitted(c, Run(c, Init(callers), actions));
  }

  // The last free slot is raced for by everybody.
  lemma Saturate(c: Config, callers: nat, lag: nat) returns (actions: seq<Action>)
    requires c.Valid() && 1 <= callers
    ensures Prompt(c, Init(callers), actions, lag)
    ensures var s := Run(c, Init(callers), actions);
            && Inv(c, s) && s.now == 0 && |s.phases| == callers && AllIdle(s)
            && |s.history| == c.maxRequests + callers - 1 && (forall k :: 0 <= k < |s.history| ==> s.history[k] == 0)
            && s.bucket.deadline <= c.expireMs
  {
    hide Step, PromptStep;
    var fill := FillUp(c, callers, c.maxRequests - 1, lag);
    var s := Run(c, Init(callers), fill);
    RoomLeft(c, callers, fill);
    var race := Race(c, s, callers, lag);
    Append(c, Init(callers), fill, race, lag);
    actions := fill + race;
    RoomLeft(c, callers, actions);
    DeadlineBound(c, Init(callers), actions);
  }

  lemma {:induction false} AllInStretch(stretch: nat, history: seq<int>, t: int)
    requires forall k :: 0 <= k < |history| ==> t - stretch < history[k] <= t
    ensures |InStretch(stretch, history, t)| == |history|
  {
    if history == [] {
      assert InStretch(stretch, history, t) == {};
    } else {
      var last := |history| - 1;
      AllInStretch(stretch, history[..last], t);
      assert InStretch(stretch, history, t) == InStretch(stretch, history[..last], t) + {last};
    }
  }

  // Caller 0 reads its clock at b. By the time it checks, d later and a window after
  // instant zero, another caller's trim has removed what was added then.
  function LateCheck(b: nat, d: nat): seq<Action> {
    [Tick(b), Begin(0), Tick(d), Begin(1)] + [Trim(1), Trim(0), Count(0), Add(0)]
  }

  lemma LateCheckAdmits(c: Config, s: State, b: nat, lag: nat)
    requires c.Valid() && Inv(c, s) && b <= c.windowMs <= b + lag && 2 <= |s.phases|
    requires s.now == 0 && AllIdle(s) && forall k :: 0 <= k < |s.history| ==> s.history[k] == 0
    ensures Prompt(c, s, LateCheck(b, c.windowMs - b), lag)
    ensures Run(c, s, LateCheck(b, c.windowMs - b)).history == s.history + [b]
  {
    hide Step, PromptStep, Prompt, Run, Members;
    assert forall m :: m in s.bucket.scores ==> s.bucket.scores[m] == 0;
    hide Inv;
    var w := c.windowMs;
    var s1 := s.(now := w, phases := s.phases[0 := Read(b)][1 := Read(w)]);
    var first, second := [Tick(b), Begin(0), Tick(w - b), Begin(1)], [Trim(1), Trim(0), Count(0), Add(0)];
    LateReads(c, s, b, lag);
    LateTrims(c, s1, s.phases, b, lag);
    Append(c, s, first, second, lag);
  }

  lemma LateReads(c: Config, s: State, b: nat, lag: nat)
    requires b <= c.windowMs && 2 <= |s.phases| && s.now == 0 && AllIdle(s)
    ensures var w := c.windowMs;
            var first := [Tick(b), Begin(0), Tick(w - b), Begin(1)];
            && Prompt(c, s, first, lag)
            && Run(c, s, first) == s.(now := w, phases := s.phases[0 := Read(b)][1 := Read(w)])
  {
    FourSteps(c, s, Tick(b), Begin(0), Tick(c.windowMs - b), Begin(1), lag);
  }

  lemma FourSteps(c: Config, s: State, a: Action, b: Action, d: Action, e: Action, lag: nat)
    requires PromptStep(s, a, lag) && PromptStep(Step(c, s, a), b, lag)
    requires PromptStep(Step(c, Step(c, s, a), b), d, lag)
    requires PromptStep(Step(c, Step(c, Step(c, s, a), b), d), e, lag)
    ensures Prompt(c, s, [a, b, d, e], lag)
    ensures Run(c, s, [a, b, d, e]) == Step(c, Step(c, Step(c, Step(c, s, a), b), d), e)
  {
    hide Step, PromptStep;
    assert Prompt(c, s, [], lag) && Run(c, s, []) == s;
    Extend(c, s, [], a, lag);
    assert [] + [a] == [a] && [a] + [b] == [a, b] && [a, b] + [d] == [a, b, d] && [a, b, d] + [e] == [a, b, d, e];
    Extend(c, s, [a], b, lag);
    Extend(c, s, [a, b], d, lag);
    Extend(c, s, [a, b, d], e, lag);
  }

  lemma LateTrims(c: Config, s: State, phases: seq<Phase>, b: nat, lag: nat)
    requires c.Valid() && b <= c.windowMs <= b + lag && 2 <= |phases|
    requires s.now == c.windowMs && s.phases == phases[0 := Read(b)][1 := Read(c.windowMs)]
    requires forall m :: m in s.bucket.scores ==> s.bucket.scores[m] == 0
    ensures Prompt(c, s, [Trim(1), Trim(0), Count(0), Add(0)], lag)
    ensures Run(c, s, [Trim(1), Trim(0), Count(0), Add(0)]).history == s.history + [b]
  {
    var w := c.windowMs;
    var s1 := Step(c, s, Trim(1));
    assert Members(s1.bucket, w) == map[];
    var s2 := Step(c, s1, Trim(0));
    assert Members(s2.bucket, w) == map[] && s2.phases[0] == Trimmed(b);
    var s3 := Step(c, s2, Count(0));
    assert s3.phases[0] == Passed(b) && s3.history == s.history;
    FourSteps(c, s, Trim(1), Trim(0), Count(0), Add(0), lag);
  }

  // Two or more callers exceed max + N - 1 in a stretch that is too long for the
  // lag, whatever the configuration.
  lemma LagBreaksStretch(c: Config, callers: nat, lag: nat, stretch: nat) returns (actions: seq<Action>, t: int)
    requires c.Valid() && 2 <= callers && 1 <= stretch && c.windowMs < stretch + lag
    ensures Prompt(c, Init(callers), actions, lag)
    ensures |InStretch(stretch, Run(c, Init(callers), actions).history, t)| == c.maxRequests + callers
  {
    t := if lag <= c.windowMs then c.windowMs - lag else 0;
    var full := Saturate(c, callers, lag);
    var s := Run(c, Init(callers), full);
    LateCheckAdmits(c, s, t, lag);
    Append(c, Init(callers), full, LateCheck(t, c.windowMs - t), lag);
    actions := full + LateCheck(t, c.windowMs - t);
    AllInStretch(stretch, Run(c, Init(callers), actions).history, t);
  }

  // Of two or more callers, every stretch of a given length keeps max + N - 1 in
  // hindsight, over all runs, exactly when length and lag together fit the window.
  lemma StretchIffPrompt(c: Config, callers: nat, lag: nat, stretch: nat)
    requires c.Valid() && 2 <= callers && 1 <= stretch
    ensures (forall actions: seq<Action>, t: int :: Prompt(c, Init(callers), actions, lag) ==>
               |InStretch(stretch, Run(c, Init(callers), actions).history, t)| <= c.maxRequests + callers - 1)
            <==> stretch + lag <= c.windowMs
  {
    if stretch + lag <= c.windowMs {
      forall actions: seq<Action>, t: int | Prompt(c, Init(callers), actions, lag)
        ensures |InStretch(stretch, Run(c, Init(callers), actions).history, t)| <= c.maxRequests + callers - 1
      {
        PromptBound(c, callers, actions, lag, t);
        var history := Run(c, Init(callers), actions).history;
        SubsetCard(InStretch(stretch, history, t), InSpan(history, t - (c.windowMs - lag), t));
      }
    } else {
      var actions, t := LagBreaksStretch(c, callers, lag, stretch);
    }
  }

  // So full windows keep it exactly when no check lags its clock reading.
  lemma FullWindowIffPrompt(c: Config, callers: nat, lag: nat)
    requires c.Valid() && 1 <= c.windowMs && 2 <= callers
    ensures (forall actions: seq<Action>, t: int :: Prompt(c, Init(callers), actions, lag) ==>
               |InWindow(c, Run(c, Init(callers), actions).history, t)| <= c.maxRequests + callers - 1)
            <==> lag == 0
  {
    StretchIffPrompt(c, callers, lag, c.windowMs);
    forall actions: seq<Action>, t: int
      ensures InWindow(c, Run(c, Init(callers), actions).history, t)
           == InStretch(c.windowMs, Run(c, Init(callers), actions).history, t)
    {
    }
  }

  // All callers read the clock together and check once the key has lapsed.
  lemma LapseAdmitsAll(c: Config, callers: nat, lag: nat, stretch: nat) returns (actions: seq<Action>, t: int)
    requires c.Valid() && 1 <= callers && 1 <= stretch && c.expireMs < stretch + lag
    ensures Prompt(c, Init(callers), actions, lag)
    ensures |InStretch(stretch, Run(c, Init(callers), actions).history, t)| == c.maxRequests + 2 * callers - 1
  {
    hide Step, PromptStep;
    var full := Saturate(c, callers, lag);
    var s := Run(c, Init(callers), full);
    t := if lag <= c.expireMs then c.expireMs - lag else 0;
    OneTick(c, s, t, lag);
    Append(c, Init(callers), full, [Tick(t)], lag);
    var s1 := s.(now := t);
    var begins := AllBegin(c, s1, callers, callers, lag);
    Append(c, Init(callers), full + [Tick(t)], begins, lag);
    var s2 := Run(c, s1, begins);
    OneTick(c, s2, lag, lag);
    Append(c, Init(callers), full + [Tick(t)] + begins, [Tick(lag)], lag);
    var s3 := s2.(now := t + lag);
    assert Members(s3.bucket, s3.now) == map[];
    var adds := AllIn(c, s3, callers, t, lag);
    actions := full + [Tick(t)] + begins + [Tick(lag)];
    Append(c, Init(callers), actions, adds, lag);
    actions := actions + adds;
    AllInStretch(stretch, Run(c, Init(callers), actions).history, t);
  }

  // So the hindsight bound for arbitrary lags is reached by every configuration
  // with any number of callers.
  lemma HindsightBoundReached(c: Config, callers: nat) returns (actions: seq<Action>, t: int)
    requires c.Valid() && 1 <= c.windowMs && 1 <= callers
    ensures |InWindow(c, Run(c, Init(callers), actions).history, t)| == c.maxRequests + 2 * callers - 1
  {
    actions, t := LapseAdmitsAll(c, callers, c.expireMs, c.windowMs);
    var history := Run(c, Init(callers), actions).history;
    assert InWindow(c, history, t) == InStretch(c.windowMs, history, t);
  }

  lemma OneTick(c: Config, s: State, d: nat, lag: nat)
    ensures Prompt(c, s, [Tick(d)], lag) && Run(c, s, [Tick(d)]) == s.(now := s.now + d)
  {
    assert Prompt(c, s, [], lag) && Run(c, s, []) == s && [] + [Tick(d)] == [Tick(d)];
    Extend(c, s, [], Tick(d), lag);
  }

  // ---------------------------------------------------------------- a single caller

  // The clock reading by which the caller trims: its own, or the next one it takes.
  function Reference(s: State): int
    requires |s.phases| == 1
  {
    if s.phases[0].Idle? then s.now else s.phases[0].stamp
  }

  // Stamps less than a stretch before the caller's own reading.
  ghost function Recent(stretch: nat, s: State): set<nat>
    requires |s.phases| == 1
  {
    set k: nat | k < |s.history| && Reference(s) - stretch < s.history[k]
  }

  // The bucket has every recent stamp whose key cannot have lapsed yet, and no
  // stretch of the past holds more than max.
  ghost predicate Alone(c: Config, stretch: nat, s: State) {
    && |s.phases| == 1 && stretch <= c.windowMs
    && (forall k :: 0 <= k < |s.history| ==> s.history[k] <= Reference(s))
    && (forall k :: k in Recent(stretch, s) && s.now < s.history[k] + c.expireMs ==> k in Members(s.bucket, s.now))
    && (s.phases[0].Passed? ==> |Recent(stretch, s)| < c.maxRequests)
    && (forall t: int :: |InStretch(stretch, s.history, t)| <= c.maxRequests)
  }

  lemma AloneCheck(c: Config, stretch: nat, s: State, lag: nat)
    requires c.Valid() && Inv(c, s) && Alone(c, stretch, s) && stretch + lag <= c.expireMs
    requires s.phases[0].Trimmed? && PromptStep(s, Count(0), lag)
    ensures |Recent(stretch, s)| <= |Members(s.bucket, s.now)|
  {
    SubsetCard(Recent(stretch, s), Members(s.bucket, s.now).Keys);
    assert |Members(s.bucket, s.now).Keys| == |Members(s.bucket, s.now)|;
  }

  lemma AloneAdd(c: Config, stretch: nat, s: State, t: int)
    requires c.Valid() && Inv(c, s) && Alone(c, stretch, s) && s.phases[0].Passed?
    ensures |InStretch(stretch, Step(c, s, Add(0)).history, t)| <= c.maxRequests
  {
    var after := InStretch(stretch, Step(c, s, Add(0)).history, t);
    if s.phases[0].stamp <= t {
      SubsetCard(after, Recent(stretch, s) + {|s.history|});
      assert |Recent(stretch, s) + {|s.history|}| <= |Recent(stretch, s)| + 1;
    } else {
      assert after == InStretch(stretch, s.history, t);
    }
  }

  lemma AloneCount(c: Config, stretch: nat, s: State, lag: nat)
    requires c.Valid() && Inv(c, s) && Alone(c, stretch, s) && stretch + lag <= c.expireMs
    requires s.phases[0].Trimmed? && PromptStep(s, Count(0), lag)
    ensures Alone(c, stretch, Step(c, s, Count(0)))
  {
    var s' := Step(c, s, Count(0));
    AloneCheck(c, stretch, s, lag);
    if s'.phases[0].Passed? {
      assert Recent(stretch, s') == Recent(stretch, s);
    }
  }

  lemma AloneTick(c: Config, stretch: nat, s: State, d: nat)
    requires c.Valid() && Inv(c, s) && Alone(c, stretch, s)
    ensures Alone(c, stretch, Step(c, s, Tick(d)))
  {
    if !s.phases[0].Idle? {
      assert Recent(stretch, Step(c, s, Tick(d))) == Recent(stretch, s);
    }
  }

  lemma AloneTrim(c: Config, stretch: nat, s: State)
    requires c.Valid() && Inv(c, s) && Alone(c, stretch, s) && s.phases[0].Read?
    ensures Alone(c, stretch, Step(c, s, Trim(0)))
  {
    assert Recent(stretch, Step(c, s, Trim(0))) == Recent(stretch, s);
  }

  lemma AloneAdded(c: Config, stretch: nat, s: State)
    requires c.Valid() && Inv(c, s) && Alone(c, stretch, s) && s.phases[0].Passed?
    ensures Alone(c, stretch, Step(c, s, Add(0)))
  {
    hide InStretch;
    forall t: int ensures |InStretch(stretch, Step(c, s, Add(0)).history, t)| <= c.maxRequests {
      AloneAdd(c, stretch, s, t);
    }
  }

  lemma AloneStep(c: Config, stretch: nat, s: State, a: Action, lag: nat)
    requires c.Valid() && Inv(c, s) && Alone(c, stretch, s) && PromptStep(s, a, lag) && stretch + lag <= c.expireMs
    ensures Alone(c, stretch, Step(c, s, a))
  {
    hide Inv, Recent, Members, InStretch;
    if Step(c, s, a) != s {
      match a
      case Tick(d) => AloneTick(c, stretch, s, d);
      case Begin(_) => assert Recent(stretch, Step(c, s, a)) == Recent(stretch, s) by { SameReference(c, stretch, s); }
      case Trim(_) => AloneTrim(c, stretch, s);
      case Count(_) => AloneCount(c, stretch, s, lag);
      case Add(_) => AloneAdded(c, stretch, s);
    }
  }

  lemma SameReference(c: Config, stretch: nat, s: State)
    requires |s.phases| == 1 && s.phases[0].Idle?
    ensures Recent(stretch, Step(c, s, Begin(0))) == Recent(stretch, s)
  {
  }

  lemma {:induction false} RunKeepsAlone(c: Config, stretch: nat, s: State, actions: seq<Action>, lag: nat)
    requires c.Valid() && Inv(c, s) && Alone(c, stretch, s) && Prompt(c, s, actions, lag) && stretch + lag <= c.expireMs
    ensures Alone(c, stretch, Run(c, s, actions))
    decreases |actions|
  {
    hide Inv, Alone, Step, PromptStep;
    if actions != [] {
      StepKeepsInv(c, s, actions[0]);
      AloneStep(c, stretch, s, actions[0], lag);
      RunKeepsAlone(c, stretch, Step(c, s, actions[0]), actions[1..], lag);
    }
  }

  // The caller's own trim, a window after instant zero.
  lemma OwnTrimAdmits(c: Config, s: State, lag: nat)
    requires c.Valid() && Inv(c, s) && |s.phases| == 1 && s.now == c.windowMs && AllIdle(s)
    requires forall k :: 0 <= k < |s.history| ==> s.history[k] == 0
    ensures Prompt(c, s, [Begin(0), Trim(0), Count(0), Add(0)], lag)
    ensures Run(c, s, [Begin(0), Trim(0), Count(0), Add(0)]).history == s.history + [c.windowMs]
  {
    var w := c.windowMs;
    var s1 := Step(c, s, Begin(0));
    var s2 := Step(c, s1, Trim(0));
    assert Members(s2.bucket, w) == map[] && s2.phases[0] == Trimmed(w);
    var s3 := Step(c, s2, Count(0));
    assert s3.phases[0] == Passed(w) && s3.history == s.history;
    FourSteps(c, s, Begin(0), Trim(0), Count(0), Add(0), lag);
  }

  lemma TrimBreaksStretch(c: Config, lag: nat, stretch: nat) returns (actions: seq<Action>)
    requires c.Valid() && c.windowMs < stretch
    ensures Prompt(c, Init(1), actions, lag)
    ensures |InStretch(stretch, Run(c, Init(1), actions).history, c.windowMs)| == c.maxRequests + 1
  {
    hide Step, PromptStep;
    var full := Saturate(c, 1, lag);
    var s := Run(c, Init(1), full);
    OneTick(c, s, c.windowMs, lag);
    Append(c, Init(1), full, [Tick(c.windowMs)], lag);
    actions := full + [Tick(c.windowMs)];
    RoomLeft(c, 1, actions);
    OwnTrimAdmits(c, Run(c, Init(1), actions), lag);
    Append(c, Init(1), actions, [Begin(0), Trim(0), Count(0), Add(0)], lag);
    actions := actions + [Begin(0), Trim(0), Count(0), Add(0)];
    AllInStretch(stretch, Run(c, Init(1), actions).history, c.windowMs);
  }

  // A caller without rivals keeps max in every stretch of a given length exactly
  // when it is no longer than the window and, with the lag, than the key's life.
  lemma SingleCallerIff(c: Config, lag: nat, stretch: nat)
    requires c.Valid() && 1 <= stretch
    ensures (forall actions: seq<Action>, t: int :: Prompt(c, Init(1), actions, lag) ==>
               |InStretch(stretch, Run(c, Init(1), actions).history, t)| <= c.maxRequests)
            <==> stretch <= c.windowMs && stretch + lag <= c.expireMs
  {
    if c.windowMs < stretch {
      var actions := TrimBreaksStretch(c, lag, stretch);
    } else if c.expireMs < stretch + lag {
      var actions, t := LapseAdmitsAll(c, 1, lag, stretch);
    } else {
      forall actions: seq<Action>, t: int | Prompt(c, Init(1), actions, lag)
        ensures |InStretch(stretch, Run(c, Init(1), actions).history, t)| <= c.maxRequests
      {
        InitInv(c, 1);
        assert forall u: int :: InStretch(stretch, Init(1).history, u) == {};
        RunKeepsAlone(c, stretch, Init(1), actions, lag);
      }
    }
  }
}
