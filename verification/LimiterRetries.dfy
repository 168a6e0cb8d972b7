// The branch of acquire() that retries when ZRANGE finds the bucket empty just
// after ZCARD found it full: no sleep, and no look at the budget.
module LimiterRetries {
  import opened Wrappers
  import opened Redis
  import opened Counting
  import opened RateLimiter

  // One caller's attempts: whether its ZRANGE is due, how often that found nothing,
  // how many attempts ended otherwise, and how many admissions there had been when
  // its ZRANGE last found nothing.
  datatype Tally = Tally(due: bool, retries: nat, ended: nat, paid: nat)

  datatype Watched = Watched(s: State, tallies: seq<Tally>)

  datatype Event = Do(a: Action) | Look(i: nat)  // Look is caller i's ZRANGE

  function Start(callers: nat): Watched {
    Watched(Init(callers), seq(callers, _ => Tally(false, 0, 0, 0)))
  }

  predicate FindsFull(c: Config, s: State, a: Action) {
    a.Count? && a.i < |s.phases| && s.phases[a.i].Trimmed? && c.maxRequests <= |Members(s.bucket, s.now)|
  }

  predicate Adds(s: State, a: Action) {
    a.Add? && a.i < |s.phases| && s.phases[a.i].Passed?
  }

  // A caller whose ZRANGE is due does nothing else.
  function Watch(c: Config, w: Watched, e: Event): Watched {
    match e
    case Do(a) =>
      if a.Tick? then w.(s := Step(c, w.s, a))
      else if a.i >= |w.tallies| || w.tallies[a.i].due then w
      else
        var t := w.tallies[a.i];
        Watched(Step(c, w.s, a),
                w.tallies[a.i := if FindsFull(c, w.s, a) then t.(due := true)
                                 else if Adds(w.s, a) then t.(ended := t.ended + 1) else t])
    case Look(i) =>
      if i >= |w.tallies| || !w.tallies[i].due then w
      else
        var t := w.tallies[i];
        w.(tallies := w.tallies[i := if Members(w.s.bucket, w.s.now) == map[]
                                     then Tally(false, t.retries + 1, t.ended, |w.s.history|)
                                     else Tally(false, t.retries, t.ended + 1, t.paid)])
  }

  // What is tallied of a caller that is not held up: an admission, a full bucket, and
  // what its ZRANGE then finds.
  lemma WatchMeans(c: Config, w: Watched, i: nat)
    requires i < |w.tallies| == |w.s.phases|
    ensures var t, after := w.tallies[i], Watch(c, w, Look(i)).tallies[i];
            t.due ==> !after.due && if Members(w.s.bucket, w.s.now) == map[]
                                    then after.retries == t.retries + 1 && after.ended == t.ended
                                    else after.retries == t.retries && after.ended == t.ended + 1
    ensures var t, after := w.tallies[i], Watch(c, w, Do(Add(i))).tallies[i];
            after.ended == t.ended + (if !t.due && w.s.phases[i].Passed? then 1 else 0) && after.retries == t.retries
    ensures var t, after := w.tallies[i], Watch(c, w, Do(Count(i))).tallies[i];
            after.due <==> t.due || (w.s.phases[i].Trimmed? && |Members(w.s.bucket, w.s.now)| >= c.maxRequests)
  {
  }

  function WatchAll(c: Config, w: Watched, events: seq<Event>): Watched
    decreases |events|
  {
    if events == [] then w else WatchAll(c, Watch(c, w, events[0]), events[1..])
  }

  // ---------------------------------------------------------------- what a retry costs

  // What the bucket holds was added since the caller's last empty ZRANGE, and if it
  // was full since, that is at least max.
  ghost predicate Settled(c: Config, s: State, t: Tally) {
    && t.retries * c.maxRequests <= t.paid <= |s.history|
    && (forall m :: m in Members(s.bucket, s.now) ==> t.paid <= m)
    && (t.due ==> t.paid + c.maxRequests <= |s.history|)
  }

  ghost predicate WatchInv(c: Config, w: Watched) {
    && Inv(c, w.s) && |w.tallies| == |w.s.phases|
    && forall i :: 0 <= i < |w.tallies| ==> Settled(c, w.s, w.tallies[i])
  }

  lemma FullHasMax(c: Config, s: State, t: Tally)
    requires c.Valid() && Inv(c, s) && Settled(c, s, t) && c.maxRequests <= |Members(s.bucket, s.now)|
    ensures t.paid + c.maxRequests <= |s.history|
  {
    RangeCard(Members(s.bucket, s.now).Keys, t.paid, |s.history| - t.paid);
    assert |Members(s.bucket, s.now).Keys| == |Members(s.bucket, s.now)|;
  }

  lemma StepKeepsSettled(c: Config, s: State, a: Action, t: Tally)
    requires c.Valid() && Inv(c, s) && Settled(c, s, t)
    ensures Settled(c, Step(c, s, a), t)
  {
  }

  lemma LookKeepsSettled(c: Config, s: State, t: Tally)
    requires c.Valid() && Settled(c, s, t) && t.due && Members(s.bucket, s.now) == map[]
    ensures Settled(c, s, Tally(false, t.retries + 1, t.ended, |s.history|))
  {
    assert (t.retries + 1) * c.maxRequests == t.retries * c.maxRequests + c.maxRequests;
  }

  lemma WatchKeepsInv(c: Config, w: Watched, e: Event)
    requires c.Valid() && WatchInv(c, w)
    ensures WatchInv(c, Watch(c, w, e))
  {
    var w' := Watch(c, w, e);
    if e.Do? && (e.a.Tick? || (e.a.i < |w.tallies| && !w.tallies[e.a.i].due)) {
      StepKeepsInv(c, w.s, e.a);
    }
    hide Inv, Step, Members;
    forall i | 0 <= i < |w'.tallies| ensures Settled(c, w'.s, w'.tallies[i]) {
      var t := w.tallies[i];
      assert Settled(c, w.s, t);
      if e.Do? {
        StepKeepsSettled(c, w.s, e.a, t);
        if FindsFull(c, w.s, e.a) {
          FullHasMax(c, w.s, t);
          StepKeepsSettled(c, w.s, e.a, t.(due := true));
        }
        StepKeepsSettled(c, w.s, e.a, t.(ended := t.ended + 1));
      } else if t.due && Members(w.s.bucket, w.s.now) == map[] {
        LookKeepsSettled(c, w.s, t);
      }
    }
  }

  lemma {:induction false} WatchAllKeepsInv(c: Config, w: Watched, events: seq<Event>)
    requires c.Valid() && WatchInv(c, w)
    ensures WatchInv(c, WatchAll(c, w, events)) && |WatchAll(c, w, events).tallies| == |w.tallies|
    decreases |events|
  {
    hide WatchInv;
    if events != [] {
      WatchKeepsInv(c, w, events[0]);
      WatchAllKeepsInv(c, Watch(c, w, events[0]), events[1..]);
    }
  }

  lemma StartInv(c: Config, callers: nat)
    requires c.Valid()
    ensures WatchInv(c, Start(callers))
  {
    InitInv(c, callers);
    assert Members(Init(callers).bucket, 0) == map[];
  }

  // Watching changes nothing: the callers are those of the interleaved machine.
  lemma {:induction false} WatchedIsRun(c: Config, w: Watched, events: seq<Event>) returns (actions: seq<Action>)
    requires |w.tallies| == |w.s.phases|
    ensures WatchAll(c, w, events).s == Run(c, w.s, actions)
    decreases |events|
  {
    actions := [];
    if events != [] {
      var w' := Watch(c, w, events[0]);
      var rest := WatchedIsRun(c, w', events[1..]);
      actions := if w'.s != w.s then [events[0].a] + rest else rest;
      assert w'.s != w.s ==> actions[1..] == rest;
    }
  }

  // ---------------------------------------------------------------- in bounded time

  // The admissions from the n-th on with stamps in [lo, hi).
  ghost function Later(n: nat, history: seq<int>, lo: int, hi: int): set<nat> {
    set k: nat | n <= k < |history| && lo <= history[k] < hi
  }

  // Callers that had read their clocks before t0 add one stamp each.
  ghost predicate FewOld(n: nat, t0: int, s: State) {
    && 0 <= t0 <= s.now && n <= |s.history|
    && |Later(n, s.history, 0, t0)| + |Pending(s.phases, t0 - 1)| <= |s.phases|
  }

  lemma StepKeepsFewOld(c: Config, n: nat, t0: int, s: State, a: Action)
    requires c.Valid() && Inv(c, s) && FewOld(n, t0, s)
    ensures FewOld(n, t0, Step(c, s, a))
  {
    hide Members;
    var s' := Step(c, s, a);
    if s' != s && !a.Tick? {
      PendingAfter(s.phases, a.i, s'.phases[a.i], t0 - 1);
      var before, after := Later(n, s.history, 0, t0), Later(n, s'.history, 0, t0);
      if a.Add? && s.phases[a.i].stamp < t0 {
        assert after == before + {|s.history|};
      } else {
        assert after == before;
      }
    }
  }

  // Windows laid side by side.
  lemma {:induction false} LaterInWindows(c: Config, n: nat, history: seq<int>, t0: int, q: nat, most: nat)
    requires 1 <= c.windowMs && forall t: int :: |InWindow(c, history, t)| <= most
    ensures |Later(n, history, t0, t0 + q * c.windowMs)| <= q * most
    decreases q
  {
    if q == 0 {
      assert Later(n, history, t0, t0 + q * c.windowMs) == {};
    } else {
      LaterInWindows(c, n, history, t0, q - 1, most);
      assert q * c.windowMs == (q - 1) * c.windowMs + c.windowMs && q * most == (q - 1) * most + most;
      var start := t0 + (q - 1) * c.windowMs;
      var window := InWindow(c, history, start + c.windowMs - 1);
      var earlier := Later(n, history, t0, start);
      SubsetCard(Later(n, history, t0, start + c.windowMs), earlier + window);
      assert |earlier + window| <= |earlier| + |window|;
    }
  }

  lemma LaterLast(n: nat, history: seq<int>, lo: int, hi: int)
    requires n < |history|
    ensures var last := |history| - 1;
            |Later(n, history, lo, hi)|
            == |Later(n, history[..last], lo, hi)| + if lo <= history[last] < hi then 1 else 0
  {
    var last := |history| - 1;
    var before := Later(n, history[..last], lo, hi);
    assert last !in before;
    assert Later(n, history, lo, hi) == if lo <= history[last] < hi then before + {last} else before;
  }

  lemma {:induction false} AllLater(n: nat, history: seq<int>, t0: int, hi: int)
    requires n <= |history| && forall k :: 0 <= k < |history| ==> 0 <= history[k] < hi
    ensures |history| - n <= |Later(n, history, 0, t0)| + |Later(n, history, t0, hi)|
    decreases |history|
  {
    hide Later;
    if |history| > n {
      AllLater(n, history[..|history| - 1], t0, hi);
      LaterLast(n, history, 0, t0);
      LaterLast(n, history, t0, hi);
    }
  }

  // Since there were n admissions and `before` retries, every retry but the first
  // was paid for by max admissions.
  ghost predicate PaidSince(c: Config, n: nat, before: nat, t: Tally) {
    && before <= t.retries
    && (before < t.retries ==> (t.retries - before - 1) * c.maxRequests <= t.paid - n)
  }

  ghost predicate Since(c: Config, w: Watched, n: nat, t0: int, i: nat, before: nat) {
    && WatchInv(c, w) && FewOld(n, t0, w.s)
    && i < |w.tallies| && PaidSince(c, n, before, w.tallies[i])
  }

  lemma LookKeepsPaid(c: Config, n: nat, before: nat, s: State, t: Tally)
    requires c.Valid() && Settled(c, s, t) && t.due && PaidSince(c, n, before, t) && n <= |s.history|
    ensures PaidSince(c, n, before, Tally(false, t.retries + 1, t.ended, |s.history|))
  {
    var more := t.retries - before;
    assert more * c.maxRequests == (more - 1) * c.maxRequests + c.maxRequests;
  }

  lemma WatchKeepsFewOld(c: Config, w: Watched, e: Event, n: nat, t0: int)
    requires c.Valid() && Inv(c, w.s) && FewOld(n, t0, w.s)
    ensures FewOld(n, t0, Watch(c, w, e).s)
  {
    hide Inv, FewOld, Step, Members;
    if e.Do? {
      StepKeepsFewOld(c, n, t0, w.s, e.a);
    }
  }

  lemma WatchKeepsPaid(c: Config, w: Watched, e: Event, n: nat, i: nat, before: nat)
    requires c.Valid() && i < |w.tallies| && Settled(c, w.s, w.tallies[i]) && n <= |w.s.history|
    requires PaidSince(c, n, before, w.tallies[i])
    ensures i < |Watch(c, w, e).tallies| && PaidSince(c, n, before, Watch(c, w, e).tallies[i])
  {
    hide Step, Members, Settled;
    if e == Look(i) && w.tallies[i].due {
      LookKeepsPaid(c, n, before, w.s, w.tallies[i]);
    }
  }

  lemma WatchKeepsSince(c: Config, w: Watched, e: Event, n: nat, t0: int, i: nat, before: nat)
    requires c.Valid() && Since(c, w, n, t0, i, before)
    ensures Since(c, Watch(c, w, e), n, t0, i, before)
  {
    hide Watch, PaidSince, Inv, Settled;
    assert Settled(c, w.s, w.tallies[i]);
    WatchKeepsInv(c, w, e);
    WatchKeepsFewOld(c, w, e, n, t0);
    WatchKeepsPaid(c, w, e, n, i, before);
  }

  lemma {:induction false} WatchAllKeepsSince(c: Config, w: Watched, events: seq<Event>, n: nat, t0: int, i: nat,
                                              before: nat)
    requires c.Valid() && Since(c, w, n, t0, i, before)
    ensures Since(c, WatchAll(c, w, events), n, t0, i, before)
    decreases |events|
  {
    hide Since, Watch;
    if events != [] {
      WatchKeepsSince(c, w, events[0], n, t0, i, before);
      WatchAllKeepsSince(c, Watch(c, w, events[0]), events[1..], n, t0, i, before);
    }
  }

  lemma SinceNow(c: Config, w: Watched, i: nat)
    requires c.Valid() && WatchInv(c, w) && i < |w.tallies|
    ensures Since(c, w, |w.s.history|, w.s.now, i, w.tallies[i].retries)
  {
    assert Later(|w.s.history|, w.s.history, 0, w.s.now) == {};
    RangeCard(Pending(w.s.phases, w.s.now - 1), 0, |w.s.phases|);
  }

  lemma DivCovers(d: nat, w: nat)
    requires 1 <= w
    ensures d < (d / w + 1) * w
  {
  }

  lemma AdmissionsInTime(c: Config, s: State, n: nat, t0: int, q: nat, most: nat)
    requires c.Valid() && 1 <= c.windowMs && FewOld(n, t0, s) && Inv(c, s) && s.now < t0 + q * c.windowMs
    requires forall t: int :: |InWindow(c, s.history, t)| <= most
    ensures |s.history| - n <= |s.phases| + q * most
  {
    hide Later, InWindow, BucketFaithful, Pending, PassedCallers;
    LaterInWindows(c, n, s.history, t0, q, most);
    AllLater(n, s.history, t0, t0 + q * c.windowMs);
  }

  lemma WatchedHindsight(c: Config, callers: nat, events: seq<Event>)
    requires c.Valid()
    ensures forall t: int ::
              |InWindow(c, WatchAll(c, Start(callers), events).s.history, t)| <= c.maxRequests + 2 * callers - 1
  {
    var actions := WatchedIsRun(c, Start(callers), events);
    hide InWindow, WatchAll, Run;
    forall t: int
      ensures |InWindow(c, WatchAll(c, Start(callers), events).s.history, t)| <= c.maxRequests + 2 * callers - 1
    {
      HindsightBound(c, callers, actions, t);
    }
  }

  lemma PaidMeans(c: Config, w: Watched, n: nat, t0: int, i: nat, before: nat)
    requires c.Valid() && Since(c, w, n, t0, i, before)
    ensures (w.tallies[i].retries - before - 1) * c.maxRequests <= |w.s.history| - n
  {
    var more := w.tallies[i].retries - before;
    assert Settled(c, w.s, w.tallies[i]);
    if more == 0 {
      assert (more - 1) * c.maxRequests == -c.maxRequests;
    }
  }

  // Every empty ZRANGE of a caller but the first of a stretch is paid for by max new
  // admissions, so over any run and any part of it a caller's retries are bounded by
  // the time they take, whatever the rivals do in between.
  lemma RetriesTakeTime(c: Config, callers: nat, before: seq<Event>, during: seq<Event>, i: nat)
    requires c.Valid() && 1 <= c.windowMs && i < callers
    ensures var w := WatchAll(c, Start(callers), before);
            var w' := WatchAll(c, Start(callers), before + during);
            && |w.tallies| == |w'.tallies| == callers
            && (w'.tallies[i].retries - w.tallies[i].retries - 1) * c.maxRequests <= |w'.s.history| - |w.s.history|
            && |w'.s.history| - |w.s.history|
               <= callers + ((w'.s.now - w.s.now) / c.windowMs + 1) * (c.maxRequests + 2 * callers - 1)
  {
    hide WatchAll, WatchInv, Since, InWindow, Inv, FewOld, PaidSince;
    StartInv(c, callers);
    WatchAllKeepsInv(c, Start(callers), before);
    var w := WatchAll(c, Start(callers), before);
    var n, t0, r := |w.s.history|, w.s.now, w.tallies[i].retries;
    SinceNow(c, w, i);
    WatchAllKeepsSince(c, w, during, n, t0, i, r);
    WatchAllKeepsInv(c, w, during);
    WatchConcat(c, Start(callers), before, during);
    var w' := WatchAll(c, Start(callers), before + during);
    PaidMeans(c, w', n, t0, i, r);
    WatchedHindsight(c, callers, before + during);
    SinceParts(c, w', n, t0, i, r);
    NeverBack(n, t0, w'.s);
    DivCovers(w'.s.now - t0, c.windowMs);
    AdmissionsInTime(c, w'.s, n, t0, (w'.s.now - t0) / c.windowMs + 1, c.maxRequests + 2 * callers - 1);
  }

  lemma NeverBack(n: nat, t0: int, s: State)
    requires FewOld(n, t0, s)
    ensures t0 <= s.now
  {
  }

  lemma SinceParts(c: Config, w: Watched, n: nat, t0: int, i: nat, before: nat)
    requires Since(c, w, n, t0, i, before)
    ensures FewOld(n, t0, w.s) && Inv(c, w.s) && |w.s.phases| == |w.tallies|
  {
  }

  lemma {:induction false} WatchConcat(c: Config, w: Watched, a: seq<Event>, b: seq<Event>)
    ensures WatchAll(c, w, a + b) == WatchAll(c, WatchAll(c, w, a), b)
    decreases |a|
  {
    hide Watch;
    if a == [] {
      assert a + b == b;
    } else {
      assert (a + b)[0] == a[0] && (a + b)[1..] == a[1..] + b;
      WatchConcat(c, Watch(c, w, a[0]), a[1..], b);
    }
  }

  // ---------------------------------------------------------------- without an end

  lemma WatchThree(c: Config, w: Watched, a: Event, b: Event, d: Event)
    ensures WatchAll(c, w, [a, b, d]) == Watch(c, Watch(c, Watch(c, w, a), b), d)
  {
    hide Watch;
    assert [a, b, d][1..] == [b, d] && [b, d][1..] == [d] && [d][1..] == [];
    var w1 := Watch(c, w, a);
    var w2 := Watch(c, w1, b);
    assert WatchAll(c, w2, [d]) == WatchAll(c, Watch(c, w2, d), []);
    assert WatchAll(c, w1, [b, d]) == WatchAll(c, w2, [d]);
    assert WatchAll(c, w, [a, b, d]) == WatchAll(c, w1, [b, d]);
  }

  // Nobody is in the middle of an attempt.
  ghost predicate Ready(w: Watched) {
    && |w.tallies| == |w.s.phases| && 2 <= |w.tallies|
    && forall i :: 0 <= i < |w.tallies| ==> w.s.phases[i].Idle? && !w.tallies[i].due
  }

  // The bucket holds k admissions of this instant.
  ghost predicate Filled(c: Config, w: Watched, k: nat) {
    var z := w.s.bucket;
    && |Members(z, w.s.now)| == k && (0 < k ==> z.deadline == w.s.now + c.expireMs)
    && forall m :: m in Members(z, w.s.now) ==> m < |w.s.history| && z.scores[m] == w.s.now
  }

  // Caller 0 is admitted once more.
  lemma OneMore(c: Config, w: Watched, k: nat) returns (events: seq<Event>)
    requires c.Valid() && 1 <= c.windowMs && Ready(w) && Filled(c, w, k) && k < c.maxRequests
    ensures var w' := WatchAll(c, w, events);
            Ready(w') && Filled(c, w', k + 1) && w'.s.now == w.s.now && w'.tallies[1] == w.tallies[1]
            && |w'.tallies| == |w.tallies|
  {
    var w1 := Watch(c, w, Do(Begin(0)));
    var w2 := Watch(c, w1, Do(Trim(0)));
    var w3 := Watch(c, w2, Do(Count(0)));
    var w4 := Watch(c, w3, Do(Add(0)));
    assert Members(w2.s.bucket, w.s.now) == Members(w.s.bucket, w.s.now);
    assert w3.s.phases == w.s.phases[0 := Passed(w.s.now)];
    var id: nat := |w.s.history|;
    assert Members(w4.s.bucket, w.s.now) == Members(w.s.bucket, w.s.now)[id := w.s.now];
    events := [Do(Begin(0)), Do(Trim(0)), Do(Count(0))] + [Do(Add(0))];
    hide Watch;
    WatchThree(c, w, Do(Begin(0)), Do(Trim(0)), Do(Count(0)));
    WatchConcat(c, w, [Do(Begin(0)), Do(Trim(0)), Do(Count(0))], [Do(Add(0))]);
    assert [Do(Add(0))][1..] == [];
    assert WatchAll(c, w3, [Do(Add(0))]) == WatchAll(c, Watch(c, w3, Do(Add(0))), []);
  }

  lemma {:induction false} Fill(c: Config, w: Watched, k: nat) returns (events: seq<Event>)
    requires c.Valid() && 1 <= c.windowMs && Ready(w) && Filled(c, w, 0) && k <= c.maxRequests
    ensures var w' := WatchAll(c, w, events);
            Ready(w') && Filled(c, w', k) && w'.s.now == w.s.now && w'.tallies[1] == w.tallies[1]
            && |w'.tallies| == |w.tallies|
  {
    hide Ready, Filled, Watch;
    events := [];
    if k > 0 {
      events := Fill(c, w, k - 1);
      var more := OneMore(c, WatchAll(c, w, events), k - 1);
      WatchConcat(c, w, events, more);
      events := events + more;
    }
  }

  // Caller 1 finds the bucket full, and after the key has lapsed, empty.
  lemma OneRetry(c: Config, w: Watched) returns (events: seq<Event>)
    requires c.Valid() && 1 <= c.windowMs && Ready(w) && Filled(c, w, c.maxRequests)
    ensures var w' := WatchAll(c, w, events);
            Ready(w') && Filled(c, w', 0) && w'.s.now == w.s.now + c.expireMs && |w'.tallies| == |w.tallies|
            && w'.tallies[1].retries == w.tallies[1].retries + 1 && w'.tallies[1].ended == w.tallies[1].ended
  {
    var w1 := Watch(c, w, Do(Begin(1)));
    var w2 := Watch(c, w1, Do(Trim(1)));
    var w3 := Watch(c, w2, Do(Count(1)));
    assert Members(w2.s.bucket, w.s.now) == Members(w.s.bucket, w.s.now);
    assert w3.s.phases == w.s.phases[1 := Idle] && w3.tallies == w.tallies[1 := w.tallies[1].(due := true)];
    var w4 := Watch(c, w3, Do(Tick(c.expireMs)));
    var w5 := Watch(c, w4, Look(1));
    assert Members(w4.s.bucket, w4.s.now) == map[];
    var first, second := [Do(Begin(1)), Do(Trim(1)), Do(Count(1))], [Do(Tick(c.expireMs)), Look(1), Look(1)];
    assert Watch(c, w5, Look(1)) == w5;
    hide Watch;
    WatchThree(c, w, Do(Begin(1)), Do(Trim(1)), Do(Count(1)));
    WatchThree(c, w3, Do(Tick(c.expireMs)), Look(1), Look(1));
    WatchConcat(c, w, first, second);
    events := first + second;
  }

  // Nothing else bounds them: with one rival, a caller can retry any number of times
  // in a row without a sleep, an admission or a refusal, and for longer than any
  // budget.
  lemma {:induction false} RetriesGoOn(c: Config, callers: nat, r: nat) returns (events: seq<Event>)
    requires c.Valid() && 1 <= c.windowMs && 2 <= callers
    ensures var w := WatchAll(c, Start(callers), events);
            && Ready(w) && Filled(c, w, 0) && |w.tallies| == callers
            && w.tallies[1].retries == r && w.tallies[1].ended == 0 && w.s.now == r * c.expireMs
  {
    events := [];
    if r > 0 {
      events := RetriesGoOn(c, callers, r - 1);
      hide Ready, Filled, Watch;
      var w := WatchAll(c, Start(callers), events);
      var fill := Fill(c, w, c.maxRequests);
      var w1 := WatchAll(c, w, fill);
      var more := OneRetry(c, w1);
      WatchConcat(c, w, fill, more);
      WatchConcat(c, Start(callers), events, fill + more);
      events := events + (fill + more);
      assert r * c.expireMs == (r - 1) * c.expireMs + c.expireMs;
    } else {
      assert Members(Init(callers).bucket, 0) == map[];
    }
  }
}
