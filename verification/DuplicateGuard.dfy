// The duplicate-order guard: one sorted set per user, whose members are orders
// and whose scores are the clock readings of the calls that recorded them.
module DuplicateGuard {
  import opened Wrappers
  import opened Redis

  datatype Phase =
    | Idle
    | Read(stamp: int, order: string)       // check_duplicate_order has read its clock
    | Trimmed(stamp: int, order: string)    // and trimmed; about to ZADD NX
    | Recording(stamp: int, order: string)  // record_order has read its clock

  // An accepted check: the order, and the instant of its ZADD.
  datatype Accept = Accept(order: string, at: int)

  // One user's orders. `lag` is the longest any ZADD so far came after the clock
  // reading it writes.
  datatype State = State(now: int, orders: ZSet<string>, phases: seq<Phase>, accepts: seq<Accept>, lag: nat)

  datatype Action =
    | Tick(d: nat)
    | BeginCheck(i: nat, order: string)
    | Trim(i: nat)
    | Claim(i: nat)
    | BeginRecord(i: nat, order: string)
    | Record(i: nat)

  function TrimOrders(window: nat, z: ZSet<string>, now: int, stamp: int): ZSet<string> {
    RemoveByScore(z, now, None, stamp - window)
  }

  function Longer(lag: nat, d: int): nat {
    if d > lag then d else lag
  }

  function Step(window: nat, s: State, a: Action): State {
    match a
    case Tick(d) => s.(now := s.now + d)
    case BeginCheck(i, order) =>
      if i < |s.phases| && s.phases[i].Idle? then s.(phases := s.phases[i := Read(s.now, order)]) else s
    case Trim(i) =>
      if i < |s.phases| && s.phases[i].Read? then
        s.(orders := TrimOrders(window, s.orders, s.now, s.phases[i].stamp),
           phases := s.phases[i := Trimmed(s.phases[i].stamp, s.phases[i].order)])
      else s
    case Claim(i) =>
      if i < |s.phases| && s.phases[i].Trimmed? then
        var Trimmed(stamp, order) := s.phases[i];
        var s' := s.(orders := AddNxExpire(s.orders, s.now, order, stamp, 2 * window), phases := s.phases[i := Idle]);
        if order in Members(s.orders, s.now) then s'
        else s'.(accepts := s.accepts + [Accept(order, s.now)], lag := Longer(s.lag, s.now - stamp))
      else s
    case BeginRecord(i, order) =>
      if i < |s.phases| && s.phases[i].Idle? then s.(phases := s.phases[i := Recording(s.now, order)]) else s
    case Record(i) =>
      if i < |s.phases| && s.phases[i].Recording? then
        s.(orders := AddExpire(s.orders, s.now, s.phases[i].order, s.phases[i].stamp, 2 * window),
           phases := s.phases[i := Idle], lag := Longer(s.lag, s.now - s.phases[i].stamp))
      else s
  }

  function Run(window: nat, s: State, actions: seq<Action>): State
    decreases |actions|
  {
    if actions == [] then s else Run(window, Step(window, s, actions[0]), actions[1..])
  }

  function Init(callers: nat): State {
    State(0, ZSet(map[], 0), seq(callers, _ => Idle), [], 0)
  }

  // The window of an accepted order has passed, or the set still holds it.
  ghost predicate Remembered(window: nat, s: State, a: Accept) {
    || a.at + window - s.lag <= s.now
    || (a.order in Members(s.orders, s.now) && a.at - s.lag <= Members(s.orders, s.now)[a.order])
  }

  // Accepts of the same order are at least `gap` apart.
  ghost predicate Spaced(gap: int, accepts: seq<Accept>) {
    forall i, j :: 0 <= i < j < |accepts| && accepts[i].order == accepts[j].order ==>
      accepts[j].at - accepts[i].at >= gap
  }

  ghost predicate Apart(window: nat, s: State) {
    Spaced(window - s.lag, s.accepts)
  }

  ghost predicate StampsPast(s: State) {
    forall i :: 0 <= i < |s.phases| && !s.phases[i].Idle? ==> s.phases[i].stamp <= s.now
  }

  // The key outlives every score by at least the window.
  ghost predicate Outlives(window: nat, s: State) {
    && (forall m :: m in s.orders.scores ==> s.orders.scores[m] + 2 * window <= s.orders.deadline)
    && (forall k :: 0 <= k < |s.accepts| ==>
          s.accepts[k].at <= s.now && s.accepts[k].at + 2 * window <= s.orders.deadline)
  }

  ghost predicate Inv(window: nat, s: State) {
    && StampsPast(s) && Outlives(window, s) && Apart(window, s)
    && s.orders.deadline <= s.now + 2 * window
    && forall k :: 0 <= k < |s.accepts| ==> Remembered(window, s, s.accepts[k])
  }

  lemma TickKeepsInv(window: nat, s: State, d: nat)
    requires Inv(window, s)
    ensures Inv(window, Step(window, s, Tick(d)))
  {
  }

  lemma TrimKeepsInv(window: nat, s: State, i: nat)
    requires Inv(window, s) && i < |s.phases| && s.phases[i].Read?
    ensures Inv(window, Step(window, s, Trim(i)))
  {
  }

  // A ZADD at `stamp`, by a call that read its clock then.
  lemma AddKeepsRemembered(window: nat, s: State, order: string, stamp: int, accepts: seq<Accept>)
    requires Inv(window, s) && stamp <= s.now
    requires accepts == s.accepts || accepts == s.accepts + [Accept(order, s.now)]
    ensures var s' := s.(orders := AddExpire(s.orders, s.now, order, stamp, 2 * window), accepts := accepts,
                         lag := Longer(s.lag, s.now - stamp));
            forall k :: 0 <= k < |accepts| ==> Remembered(window, s', accepts[k])
  {
  }

  lemma ClaimKeepsInv(window: nat, s: State, i: nat)
    requires Inv(window, s) && i < |s.phases| && s.phases[i].Trimmed?
    ensures Inv(window, Step(window, s, Claim(i)))
  {
    var s' := Step(window, s, Claim(i));
    var Trimmed(stamp, order) := s.phases[i];
    if order in Members(s.orders, s.now) {
      forall k | 0 <= k < |s.accepts| ensures Remembered(window, s', s.accepts[k]) {
        assert Remembered(window, s, s.accepts[k]);
      }
    } else {
      AddKeepsRemembered(window, s, order, stamp, s'.accepts);
      forall k | 0 <= k < |s'.accepts| ensures Remembered(window, s', s'.accepts[k]) {
      }
      forall k | 0 <= k < |s.accepts| && s.accepts[k].order == order
        ensures s.now - s.accepts[k].at >= window - s.lag
      {
        assert Remembered(window, s, s.accepts[k]);
      }
    }
  }

  lemma RecordKeepsInv(window: nat, s: State, i: nat)
    requires Inv(window, s) && i < |s.phases| && s.phases[i].Recording?
    ensures Inv(window, Step(window, s, Record(i)))
  {
  }

  lemma StepKeepsInv(window: nat, s: State, a: Action)
    requires Inv(window, s)
    ensures Inv(window, Step(window, s, a))
  {
    var s' := Step(window, s, a);
    if a.Tick? {
      TickKeepsInv(window, s, a.d);
    } else if a.i < |s.phases| {
      match s.phases[a.i]
      case Idle =>
        forall k | 0 <= k < |s.accepts| ensures Remembered(window, s', s.accepts[k]) {
          assert Remembered(window, s, s.accepts[k]);
        }
      case Read(_, _) => if a.Trim? { TrimKeepsInv(window, s, a.i); }
      case Trimmed(_, _) => if a.Claim? { ClaimKeepsInv(window, s, a.i); }
      case Recording(_, _) => if a.Record? { RecordKeepsInv(window, s, a.i); }
    }
  }

  lemma {:induction false} RunKeepsInv(window: nat, s: State, actions: seq<Action>)
    requires Inv(window, s)
    ensures Inv(window, Run(window, s, actions))
    decreases |actions|
  {
    hide Inv, Step;
    if actions != [] {
      StepKeepsInv(window, s, actions[0]);
      RunKeepsInv(window, Step(window, s, actions[0]), actions[1..]);
    }
  }

  // However the commands of the user's calls interleave, two accepted identical
  // orders are at least window - lag apart, and the key lapses only once every
  // order in it is older than the window.
  lemma AcceptsApart(window: nat, callers: nat, actions: seq<Action>)
    requires 0 < window
    ensures var s := Run(window, Init(callers), actions);
            && Apart(window, s)
            && (s.orders.deadline <= s.now ==>
                  forall m :: m in s.orders.scores ==> s.orders.scores[m] + window <= s.now)
  {
    RunKeepsInv(window, Init(callers), actions);
  }

  // The lag is a real loss: a call that stalls for d between its clock and its
  // ZADD lets the same order through again window - d later.
  lemma LagIsLost(window: nat, callers: nat, d: nat, order: string)
    requires d <= window && 0 < window && 1 <= callers
    ensures var s := Run(window, Init(callers), [BeginCheck(0, order), Trim(0), Tick(d), Claim(0)]
                                                + [Tick(window - d), BeginCheck(0, order), Trim(0), Claim(0)]);
            s.accepts == [Accept(order, d), Accept(order, window)] && s.lag == d
  {
    var first := [BeginCheck(0, order), Trim(0), Tick(d), Claim(0)];
    var again := [Tick(window - d), BeginCheck(0, order), Trim(0), Claim(0)];
    RunConcat(window, Init(callers), first, again);
    FirstClaim(window, Init(callers), d, order);
    var s := Run(window, Init(callers), first);
    SecondClaim(window, s, d, order);
  }

  // Over all runs with no lag above d, identical orders are accepted at least `gap`
  // apart exactly when gap and d together fit the window.
  lemma SpacedIff(window: nat, callers: nat, d: nat, gap: nat)
    requires 0 < window && 1 <= callers && 1 <= gap
    ensures (forall actions: seq<Action> ::
               Run(window, Init(callers), actions).lag <= d ==>
                 Spaced(gap, Run(window, Init(callers), actions).accepts))
            <==> gap + d <= window
  {
    if gap + d <= window {
      forall actions: seq<Action> | Run(window, Init(callers), actions).lag <= d
        ensures Spaced(gap, Run(window, Init(callers), actions).accepts)
      {
        AcceptsApart(window, callers, actions);
      }
    } else {
      var stall := if d <= window then d else window;
      var actions := [BeginCheck(0, ""), Trim(0), Tick(stall), Claim(0)]
                   + [Tick(window - stall), BeginCheck(0, ""), Trim(0), Claim(0)];
      LagIsLost(window, callers, stall, "");
      var accepts := Run(window, Init(callers), actions).accepts;
      assert accepts[0].order == accepts[1].order && accepts[1].at - accepts[0].at < gap;
    }
  }

  // So a full window lies between them exactly when no call lags its clock.
  lemma FullWindowIffPrompt(window: nat, callers: nat, d: nat)
    requires 0 < window && 1 <= callers
    ensures (forall actions: seq<Action> ::
               Run(window, Init(callers), actions).lag <= d ==>
                 Spaced(window, Run(window, Init(callers), actions).accepts))
            <==> d == 0
  {
    SpacedIff(window, callers, d, window);
  }

  lemma RunFour(window: nat, s: State, a: Action, b: Action, c: Action, d: Action)
    ensures Run(window, s, [a, b, c, d]) == Step(window, Step(window, Step(window, Step(window, s, a), b), c), d)
  {
    hide Step;
    RunConcat(window, s, [a, b], [c, d]);
    assert [a, b] + [c, d] == [a, b, c, d];
    RunTwo(window, s, a, b);
    RunTwo(window, Run(window, s, [a, b]), c, d);
  }

  lemma RunTwo(window: nat, s: State, a: Action, b: Action)
    ensures Run(window, s, [a, b]) == Step(window, Step(window, s, a), b)
  {
    hide Step;
    assert [a, b][1..] == [b] && [b][1..] == [];
    var s' := Step(window, s, a);
    assert Run(window, s', [b]) == Run(window, Step(window, s', b), []);
    assert Run(window, s, [a, b]) == Run(window, s', [b]);
  }

  lemma FirstClaim(window: nat, s: State, d: nat, order: string)
    requires s == Init(|s.phases|) && 1 <= |s.phases| && 0 < window
    ensures var s' := Run(window, s, [BeginCheck(0, order), Trim(0), Tick(d), Claim(0)]);
            s' == State(d, ZSet(map[order := 0], d + 2 * window), s.phases, [Accept(order, d)], d)
  {
    RunFour(window, s, BeginCheck(0, order), Trim(0), Tick(d), Claim(0));
    var s2 := Step(window, Step(window, s, BeginCheck(0, order)), Trim(0));
    assert s2.phases[0] == Trimmed(0, order) && Members(s2.orders, d) == map[];
  }

  lemma SecondClaim(window: nat, s: State, d: nat, order: string)
    requires d <= window && 0 < window && 1 <= |s.phases| && s.phases[0].Idle?
    requires s == State(d, ZSet(map[order := 0], d + 2 * window), s.phases, [Accept(order, d)], d)
    ensures var s' := Run(window, s, [Tick(window - d), BeginCheck(0, order), Trim(0), Claim(0)]);
            s'.accepts == [Accept(order, d), Accept(order, window)] && s'.lag == d
  {
    RunFour(window, s, Tick(window - d), BeginCheck(0, order), Trim(0), Claim(0));
    var s2 := Step(window, Step(window, s, Tick(window - d)), BeginCheck(0, order));
    assert s2.now == window && s2.phases[0] == Read(window, order);
    assert Members(TrimOrders(window, s2.orders, window, window), window) == map[];
  }

  lemma {:induction false} RunConcat(window: nat, s: State, a: seq<Action>, b: seq<Action>)
    ensures Run(window, s, a + b) == Run(window, Run(window, s, a), b)
    decreases |a|
  {
    hide Step;
    if a == [] {
      assert a + b == b;
    } else {
      assert (a + b)[0] == a[0] && (a + b)[1..] == a[1..] + b;
      RunConcat(window, Step(window, s, a[0]), a[1..], b);
    }
  }

  // ---------------------------------------------------------------- whole calls

  function CheckedOrders(window: nat, z: ZSet<string>, now: int, order: string): ZSet<string> {
    AddNxExpire(TrimOrders(window, z, now, now), now, order, now, 2 * window)
  }

  predicate Accepted(window: nat, z: ZSet<string>, now: int, order: string) {
    order !in Members(TrimOrders(window, z, now, now), now)
  }

  // A whole check is three steps of the interleaved machine taken back to back.
  lemma CheckIsRun(window: nat, s: State, i: nat, order: string)
    requires i < |s.phases| && s.phases[i].Idle?
    ensures var s' := Step(window, Step(window, Step(window, s, BeginCheck(i, order)), Trim(i)), Claim(i));
            && s'.orders == CheckedOrders(window, s.orders, s.now, order)
            && s'.accepts == (if Accepted(window, s.orders, s.now, order)
                              then s.accepts + [Accept(order, s.now)] else s.accepts)
            && s'.phases == s.phases && s'.lag == s.lag
  {
  }

  // A whole record is two of its steps, and a call that has begun goes on.
  lemma RecordIsRun(window: nat, s: State, i: nat, order: string)
    requires i < |s.phases|
    ensures s.phases[i].Idle? ==>
              Step(window, Step(window, s, BeginRecord(i, order)), Record(i))
              == s.(orders := AddExpire(s.orders, s.now, order, s.now, 2 * window))
    ensures !s.phases[i].Idle? ==>
              Step(window, s, BeginRecord(i, order)) == s && Step(window, s, BeginCheck(i, order)) == s
  {
    if s.phases[i].Idle? {
      assert s.phases[i := Recording(s.now, order)][i := Idle] == s.phases;
    }
  }

  datatype Call = Pass(d: nat) | Check(order: string) | Note(order: string)

  // `claims` lists the accepted checks and the recorded orders.
  datatype Calls = Calls(now: int, orders: ZSet<string>, claims: seq<Accept>)

  function Serve(window: nat, s: Calls, c: Call): Calls {
    match c
    case Pass(d) => s.(now := s.now + d)
    case Check(order) =>
      Calls(s.now, CheckedOrders(window, s.orders, s.now, order),
            if Accepted(window, s.orders, s.now, order) then s.claims + [Accept(order, s.now)] else s.claims)
    case Note(order) =>
      Calls(s.now, AddExpire(s.orders, s.now, order, s.now, 2 * window), s.claims + [Accept(order, s.now)])
  }

  function ServeAll(window: nat, s: Calls, calls: seq<Call>): Calls
    decreases |calls|
  {
    if calls == [] then s else ServeAll(window, Serve(window, s, calls[0]), calls[1..])
  }

  // The order was accepted or recorded less than a window ago.
  ghost predicate Recent(window: nat, s: Calls, order: string) {
    exists k :: 0 <= k < |s.claims| && s.claims[k].order == order && s.now - window < s.claims[k].at
  }

  // Every entry is the latest claim of its order; no claim of the window is lost.
  ghost predicate Exact(window: nat, s: Calls) {
    && (forall k :: 0 <= k < |s.claims| ==>
          s.claims[k].at <= s.now && s.claims[k].at + 2 * window <= s.orders.deadline)
    && (forall k :: 0 <= k < |s.claims| && s.now - window < s.claims[k].at ==>
          s.claims[k].order in Members(s.orders, s.now) && s.claims[k].at <= s.orders.scores[s.claims[k].order])
    && (forall m :: m in s.orders.scores ==> Accept(m, s.orders.scores[m]) in s.claims)
  }

  lemma PassKeepsExact(window: nat, s: Calls, d: nat)
    requires 0 < window && Exact(window, s)
    ensures Exact(window, s.(now := s.now + d))
  {
  }

  lemma TrimKeepsExact(window: nat, s: Calls)
    requires 0 < window && Exact(window, s)
    ensures Exact(window, s.(orders := TrimOrders(window, s.orders, s.now, s.now)))
  {
  }

  lemma ExtendKeepsExact(window: nat, s: Calls)
    requires 0 < window && Exact(window, s)
    ensures Exact(window, s.(orders := ZSet(Members(s.orders, s.now), s.now + 2 * window)))
  {
  }

  lemma AddKeepsExact(window: nat, s: Calls, order: string)
    requires 0 < window && Exact(window, s)
    ensures Exact(window, Serve(window, s, Note(order)))
  {
  }

  lemma ServeKeepsExact(window: nat, s: Calls, c: Call)
    requires 0 < window && Exact(window, s)
    ensures Exact(window, Serve(window, s, c))
  {
    hide Exact, TrimOrders, Members;
    match c
    case Pass(d) => PassKeepsExact(window, s, d);
    case Check(order) =>
      TrimKeepsExact(window, s);
      var trimmed := s.(orders := TrimOrders(window, s.orders, s.now, s.now));
      if Accepted(window, s.orders, s.now, order) {
        AddKeepsExact(window, trimmed, order);
      } else {
        ExtendKeepsExact(window, trimmed);
      }
    case Note(order) => AddKeepsExact(window, s, order);
  }

  lemma {:induction false} ServeAllKeepsExact(window: nat, s: Calls, calls: seq<Call>)
    requires 0 < window && Exact(window, s)
    ensures Exact(window, ServeAll(window, s, calls))
    decreases |calls|
  {
    hide Exact, Serve;
    if calls != [] {
      ServeKeepsExact(window, s, calls[0]);
      ServeAllKeepsExact(window, Serve(window, s, calls[0]), calls[1..]);
    }
  }

  // With whole calls, a check is accepted exactly when the order was neither
  // accepted nor recorded less than a window ago. Rejected retries are not in
  // `claims`, so they never push that instant back.
  lemma AcceptedIffNotRecent(window: nat, start: int, calls: seq<Call>, order: string)
    requires 0 < window
    ensures var s := ServeAll(window, Calls(start, ZSet(map[], start), []), calls);
            Accepted(window, s.orders, s.now, order) <==> !Recent(window, s, order)
  {
    var s0 := Calls(start, ZSet(map[], start), []);
    ServeAllKeepsExact(window, s0, calls);
    var s := ServeAll(window, s0, calls);
    if !Accepted(window, s.orders, s.now, order) {
      assert Accept(order, s.orders.scores[order]) in s.claims;
      var k :| 0 <= k < |s.claims| && s.claims[k] == Accept(order, s.orders.scores[order]);
      assert s.now - window < s.claims[k].at;
    }
  }

  // So an order that is accepted or recorded is accepted again exactly when a
  // window has passed, and a rejected retry in between changes nothing.
  lemma RetryAfter(window: nat, start: int, first: Call, order: string, d: nat, e: nat)
    requires 0 < window && first in {Check(order), Note(order)} && d < window
    ensures var s := ServeAll(window, Calls(start, ZSet(map[], start), []),
                              [first, Pass(d), Check(order), Pass(e)]);
            s.now == start + d + e && (Accepted(window, s.orders, s.now, order) <==> window <= d + e)
  {
    var s0 := Calls(start, ZSet(map[], start), []);
    var calls := [first, Pass(d), Check(order), Pass(e)];
    var s1 := Serve(window, s0, first);
    assert Members(s0.orders, start) == map[];
    assert s1.claims == [Accept(order, start)];
    var s2 := Serve(window, s1, Pass(d));
    var s3 := Serve(window, s2, Check(order));
    assert !Accepted(window, s2.orders, s2.now, order);
    var s4 := Serve(window, s3, Pass(e));
    assert s4.claims == [Accept(order, start)];
    ServeFour(window, s0, first, Pass(d), Check(order), Pass(e));
    AcceptedIffNotRecent(window, start, calls, order);
    assert s4 == ServeAll(window, s0, calls);
    assert s4.claims[0] == Accept(order, start);
  }

  lemma ServeFour(window: nat, s: Calls, a: Call, b: Call, c: Call, d: Call)
    ensures ServeAll(window, s, [a, b, c, d])
         == Serve(window, Serve(window, Serve(window, Serve(window, s, a), b), c), d)
  {
    hide Serve;
    assert [a, b, c, d][1..] == [b, c, d] && [b, c, d][1..] == [c, d] && [c, d][1..] == [d] && [d][1..] == [];
    var s1 := Serve(window, s, a);
    var s2 := Serve(window, s1, b);
    var s3 := Serve(window, s2, c);
    assert ServeAll(window, s3, [d]) == ServeAll(window, Serve(window, s3, d), []);
    assert ServeAll(window, s2, [c, d]) == ServeAll(window, s3, [d]);
    assert ServeAll(window, s1, [b, c, d]) == ServeAll(window, s2, [c, d]);
    assert ServeAll(window, s, [a, b, c, d]) == ServeAll(window, s1, [b, c, d]);
  }
}
