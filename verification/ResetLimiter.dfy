// The fixed-window counter in front of password resets: INCR and EXPIRE NX in
// one transaction. Times are whole seconds.
module ResetLimiter {
  import opened Wrappers
  import opened Redis
  import opened Counting

  datatype Config = Config(max: nat, window: int)

  // A request let through: when, in the window opened when, as which one in it.
  datatype Pass = Pass(at: int, start: int, nth: int)

  datatype State = State(now: int, counter: Option<Cell<int>>, passes: seq<Pass>)

  datatype Action = Advance(d: nat) | Hit

  function Init(): State {
    State(0, None, [])
  }

  // INCR key
  function Incr(c: Option<Cell<int>>, now: int): Cell<int> {
    if c.None? || (c.value.deadline.Some? && c.value.deadline.value <= now) then Cell(1, None)
    else Cell(c.value.value + 1, c.value.deadline)
  }

  // EXPIRE key ttl NX
  function ExpireNx(c: Cell<int>, now: int, ttl: int): (r: Cell<int>)
    ensures r.deadline.Some? && r.value == c.value
  {
    if c.deadline.Some? then c else Cell(c.value, Some(now + ttl))
  }

  function Step(c: Config, s: State, a: Action): State {
    match a
    case Advance(d) => s.(now := s.now + d)
    case Hit =>
      var cell := ExpireNx(Incr(s.counter, s.now), s.now, c.window);
      var s' := s.(counter := Some(cell));
      if cell.value <= c.max then
        s'.(passes := s.passes + [Pass(s.now, cell.deadline.value - c.window, cell.value)])
      else s'
  }

  function Run(c: Config, s: State, actions: seq<Action>): State
    decreases |actions|
  {
    if actions == [] then s else Run(c, Step(c, s, actions[0]), actions[1..])
  }

  lemma {:induction false} RunConcat(c: Config, s: State, a: seq<Action>, b: seq<Action>)
    ensures Run(c, s, a + b) == Run(c, Run(c, s, a), b)
    decreases |a|
  {
    if a == [] {
      assert a + b == b;
    } else {
      assert (a + b)[0] == a[0] && (a + b)[1..] == a[1..] + b;
      RunConcat(c, Step(c, s, a[0]), a[1..], b);
    }
  }

  ghost predicate Follows(c: Config, p: Pass, q: Pass) {
    || (q.start == p.start && q.nth == p.nth + 1)
    || (q.start >= p.start + c.window && q.nth == 1)
  }

  ghost predicate History(c: Config, passes: seq<Pass>) {
    && (forall i :: 0 <= i < |passes| ==>
          && 1 <= passes[i].nth <= c.max && passes[i].start <= passes[i].at < passes[i].start + c.window
          && (passes[i].nth == 1 ==> passes[i].at == passes[i].start))
    && (forall i :: 0 < i < |passes| ==> passes[i - 1].at <= passes[i].at && Follows(c, passes[i - 1], passes[i]))
  }

  ghost predicate Inv(c: Config, s: State) {
    && History(c, s.passes)
    && (s.counter.Some? ==> s.counter.value.deadline.Some? && 1 <= s.counter.value.value
                            && s.counter.value.deadline.value - c.window <= s.now)
    && (s.passes == [] && 0 < c.max ==> s.counter.None?)
    && (s.passes != [] ==>
          var last := s.passes[|s.passes| - 1];
          && last.at <= s.now && s.counter.Some?
          && last.start == s.counter.value.deadline.value - c.window
          && last.nth == (if s.counter.value.value <= c.max then s.counter.value.value else c.max))
  }

  lemma {:induction false} RunKeepsInv(c: Config, s: State, actions: seq<Action>)
    requires 0 < c.window && Inv(c, s)
    ensures Inv(c, Run(c, s, actions))
    decreases |actions|
  {
    if actions != [] {
      StepKeepsInv(c, s, actions[0]);
      RunKeepsInv(c, Step(c, s, actions[0]), actions[1..]);
    }
  }

  lemma HistoryExtends(c: Config, passes: seq<Pass>, p: Pass)
    requires History(c, passes) && 1 <= p.nth <= c.max && p.start <= p.at < p.start + c.window
    requires p.nth == 1 ==> p.at == p.start
    requires passes != [] ==> passes[|passes| - 1].at <= p.at && Follows(c, passes[|passes| - 1], p)
    ensures History(c, passes + [p])
  {
  }

  // A request let through.
  lemma PassKeepsInv(c: Config, s: State, cell: Cell<int>)
    requires 0 < c.window && Inv(c, s)
    requires cell == ExpireNx(Incr(s.counter, s.now), s.now, c.window) && cell.value <= c.max
    ensures Inv(c, Step(c, s, Hit))
  {
    var p := Pass(s.now, cell.deadline.value - c.window, cell.value);
    PassFollows(c, s, p);
    HistoryExtends(c, s.passes, p);
    hide History, Follows;
    assert Step(c, s, Hit).passes == s.passes + [p];
  }

  // A request refused.
  lemma RefusalKeepsInv(c: Config, s: State, cell: Cell<int>)
    requires 0 < c.window && Inv(c, s)
    requires cell == ExpireNx(Incr(s.counter, s.now), s.now, c.window) && c.max < cell.value
    ensures Inv(c, Step(c, s, Hit))
  {
    assert s.passes != [] ==> 1 <= s.passes[|s.passes| - 1].nth <= c.max;
    hide History;
  }

  lemma StepKeepsInv(c: Config, s: State, a: Action)
    requires 0 < c.window && Inv(c, s)
    ensures Inv(c, Step(c, s, a))
  {
    hide History;
    if a.Hit? {
      var cell := ExpireNx(Incr(s.counter, s.now), s.now, c.window);
      hide Inv, Step, ExpireNx, Incr;
      if cell.value <= c.max {
        PassKeepsInv(c, s, cell);
      } else {
        RefusalKeepsInv(c, s, cell);
      }
    }
  }

  lemma PassFollows(c: Config, s: State, p: Pass)
    requires 0 < c.window && Inv(c, s)
    requires var cell := ExpireNx(Incr(s.counter, s.now), s.now, c.window);
             cell.value <= c.max && p == Pass(s.now, cell.deadline.value - c.window, cell.value)
    ensures 1 <= p.nth <= c.max && p.start <= p.at < p.start + c.window && (p.nth == 1 ==> p.at == p.start)
    ensures s.passes != [] ==> s.passes[|s.passes| - 1].at <= p.at && Follows(c, s.passes[|s.passes| - 1], p)
  {
  }

  // Between two passes, either the window is the same and the count has grown by
  // their distance, or a whole window lies between the starts.
  lemma {:induction false} Between(c: Config, passes: seq<Pass>, i: nat, j: nat)
    requires 0 < c.window && History(c, passes) && i <= j < |passes|
    ensures passes[i].at <= passes[j].at
    ensures || (passes[j].start == passes[i].start && passes[j].nth == passes[i].nth + (j - i))
            || passes[j].start >= passes[i].start + c.window
    decreases j - i
  {
    if i < j {
      Between(c, passes, i, j - 1);
      assert Follows(c, passes[j - 1], passes[j]);
    }
  }

  lemma {:induction false} StartsSpaced(c: Config, passes: seq<Pass>, i: nat, j: nat, k: nat)
    requires 0 < c.window && History(c, passes) && i + k * c.max <= j < |passes|
    ensures passes[j].start >= passes[i].start + k * c.window
    decreases k
  {
    if k == 0 {
      Between(c, passes, i, j);
    } else {
      assert k * c.max == (k - 1) * c.max + c.max;
      StartsSpaced(c, passes, i, j - c.max, k - 1);
      Between(c, passes, j - c.max, j);
      assert k * c.window == (k - 1) * c.window + c.window;
    }
  }

  // The passes in the real-time interval [a, a + len).
  ghost function PassedIn(passes: seq<Pass>, a: int, len: int): set<nat> {
    set i: nat | i < |passes| && a <= passes[i].at < a + len
  }

  // At most width passes fit into the interval, for any k windows that cover it.
  lemma IntervalCard(c: Config, passes: seq<Pass>, a: int, len: nat, k: nat)
    requires 0 < c.window && History(c, passes) && len <= k * c.window
    ensures |PassedIn(passes, a, len)| <= c.max * (k + 1)
  {
    var inside := PassedIn(passes, a, len);
    var width: nat := c.max * (k + 1);
    if inside != {} {
      var i := LeastOf(inside);
      assert (k + 1) * c.window == k * c.window + c.window;
      forall j | j in inside ensures i <= j < i + width {
        if i + width <= j {
          StartsSpaced(c, passes, i, j, k + 1);
        }
      }
      RangeCard(inside, i, width);
    }
  }

  // In any run, the key never exists without a TTL, no window lets more than max
  // through, and no half-open interval of real time of length len lets more than
  // max * (ceil(len / window) + 1) through.
  lemma IntervalBound(c: Config, actions: seq<Action>, a: int, len: nat)
    requires 0 < c.window
    ensures var s := Run(c, Init(), actions);
            && (s.counter.Some? ==> s.counter.value.deadline.Some?)
            && (forall i, j :: 0 <= i <= j < |s.passes| && s.passes[i].start == s.passes[j].start ==> j - i < c.max)
            && |PassedIn(s.passes, a, len)| <= c.max * (CeilDiv(len, c.window) + 1)
  {
    RunKeepsInv(c, Init(), actions);
    var passes := Run(c, Init(), actions).passes;
    hide Run;
    forall i, j | 0 <= i <= j < |passes| && passes[i].start == passes[j].start ensures j - i < c.max {
      Between(c, passes, i, j);
    }
    CeilDivLeast(len, c.window);
    IntervalCard(c, passes, a, len, CeilDiv(len, c.window));
  }

  // So an interval as long as the window lets at most 2 * max through, and any
  // interval at most max * (floor(len / window) + 2).
  lemma IntervalBoundReadings(c: Config, len: nat)
    requires 0 < c.window
    ensures c.max * (CeilDiv(c.window, c.window) + 1) == 2 * c.max
    ensures c.max * (CeilDiv(len, c.window) + 1) <= c.max * (len / c.window + 2)
  {
    CeilDivIs(c.window, c.window, 1);
    CeilDivAtMost(len, c.window);
    hide CeilDiv;
    MulMonotone(c.max, CeilDiv(len, c.window) + 1, len / c.window + 2);
  }

  // ---------------------------------------------------------------- the exact bound

  // The most that an interval of length len can let through: the windows that open
  // in it, and, unless they fill it exactly, all but the first pass of one before.
  function Peak(c: Config, len: nat): nat
    requires 0 < c.window
  {
    if len == 0 || c.max == 0 then 0
    else c.max * ((len - 1) / c.window + 1) + if (len - 1) % c.window == 0 then 0 else c.max - 1
  }

  // After the rest of i's window, each max passes take another window.
  lemma NextWindows(c: Config, passes: seq<Pass>, i: nat, j: nat, k: nat)
    requires 0 < c.window && History(c, passes)
    requires i < |passes| && i + (c.max + 1 - passes[i].nth) + k * c.max <= j < |passes|
    ensures passes[j].start > passes[i].at + k * c.window
    ensures passes[j].start >= passes[i].start + (k + 1) * c.window
  {
    var first := i + (c.max + 1 - passes[i].nth);
    assert (k + 1) * c.window == k * c.window + c.window && 0 <= k * c.max;
    Between(c, passes, i, first);
    assert passes[first].start >= passes[i].start + c.window;
    StartsSpaced(c, passes, first, j, k);
  }

  lemma PeakHolds(c: Config, passes: seq<Pass>, a: int, len: nat)
    requires 0 < c.window && History(c, passes)
    ensures |PassedIn(passes, a, len)| <= Peak(c, len)
  {
    hide Peak, History;
    var inside := PassedIn(passes, a, len);
    if inside != {} {
      var i := LeastOf(inside);
      var q, r := (len - 1) / c.window, (len - 1) % c.window;
      assert len - 1 == q * c.window + r && (q + 1) * c.window == q * c.window + c.window;
      assert (q + 1) * c.max == q * c.max + c.max;
      forall j | j in inside ensures i <= j < i + Peak(c, len) {
        if i + Peak(c, len) <= j {
          BeyondPeak(c, passes, i, j, len, q, r);
        }
      }
      RangeCard(inside, i, Peak(c, len));
    }
  }

  // So many passes later, the interval is over.
  lemma BeyondPeak(c: Config, passes: seq<Pass>, i: nat, j: nat, len: nat, q: nat, r: nat)
    requires 0 < c.window && History(c, passes) && 0 < len && i < |passes|
    requires q == (len - 1) / c.window && r == (len - 1) % c.window && len - 1 == q * c.window + r
    requires (q + 1) * c.window == q * c.window + c.window && (q + 1) * c.max == q * c.max + c.max
    requires i + Peak(c, len) <= j < |passes|
    ensures passes[i].at + len <= passes[j].at
  {
    if passes[i].nth == 1 {
      NextWindows(c, passes, i, j, q);
    } else if r == 0 {
      NextWindows(c, passes, i, j, q);
    } else {
      NextWindows(c, passes, i, j, q + 1);
    }
  }

  // k more hits in an open window.
  lemma {:induction false} HitMany(c: Config, s: State, k: nat) returns (actions: seq<Action>)
    requires s.counter.Some? && s.counter.value.deadline.Some? && s.now < s.counter.value.deadline.value
    requires s.counter.value.value + k <= c.max
    ensures var s' := Run(c, s, actions);
            && s'.now == s.now && AddsAt(s, s', k, s.now, s.now)
            && s'.counter == Some(Cell(s.counter.value.value + k, s.counter.value.deadline))
    decreases k
  {
    if k == 0 {
      actions := [];
      assert s.passes == s.passes + [];
    } else {
      var s1 := Step(c, s, Hit);
      var rest := HitMany(c, s1, k - 1);
      actions := [Hit] + rest;
      var s' := Run(c, s1, rest);
      assert actions[0] == Hit && actions[1..] == rest;
      assert s'.passes == s.passes + (s1.passes[|s.passes|..] + s'.passes[|s1.passes|..]);
    }
  }

  // k passes have been added, at instants from lo to hi.
  ghost predicate AddsAt(s: State, s': State, k: nat, lo: int, hi: int) {
    && |s'.passes| == |s.passes| + k && s.passes <= s'.passes
    && forall i :: |s.passes| <= i < |s'.passes| ==> lo <= s'.passes[i].at <= hi
  }

  ghost predicate Lapsed(s: State) {
    s.counter.Some? ==> s.counter.value.deadline.Some? && s.counter.value.deadline.value <= s.now
  }

  // A whole window's passes at one instant, n times, a window apart.
  lemma {:induction false} Bursts(c: Config, s: State, n: nat) returns (actions: seq<Action>)
    requires 0 < c.window && 0 < c.max && Lapsed(s)
    ensures AddsAt(s, Run(c, s, actions), n * c.max, s.now, s.now + (n - 1) * c.window)
    decreases n
  {
    if n == 0 {
      actions := [];
    } else {
      var s1 := Step(c, s, Hit);
      var hits := HitMany(c, s1, c.max - 1);
      var s2 := Run(c, s1, hits);
      var s3 := Step(c, s2, Advance(c.window));
      var rest := Bursts(c, s3, n - 1);
      actions := [Hit] + hits + ([Advance(c.window)] + rest);
      RunConcat(c, s, [Hit] + hits, [Advance(c.window)] + rest);
      assert ([Hit] + hits)[1..] == hits && ([Advance(c.window)] + rest)[1..] == rest;
      assert n * c.max == (n - 1) * c.max + c.max;
      assert (n - 1) * c.window == (n - 2) * c.window + c.window;
    }
  }

  lemma {:induction false} FromOnwards(passes: seq<Pass>, first: nat, a: int, len: nat)
    requires first <= |passes| && forall i :: 0 <= i < first ==> passes[i].at < a
    requires forall i :: first <= i < |passes| ==> a <= passes[i].at < a + len
    ensures |PassedIn(passes, a, len)| == |passes| - first
    decreases |passes|
  {
    if |passes| == first {
      assert PassedIn(passes, a, len) == {};
    } else {
      var last := |passes| - 1;
      FromOnwards(passes[..last], first, a, len);
      assert PassedIn(passes, a, len) == PassedIn(passes[..last], a, len) + {last};
    }
  }

  // One hit opens a window, all its others come at its last instant, and full
  // windows follow at once.
  lemma LateBursts(c: Config, n: nat) returns (actions: seq<Action>)
    requires 0 < c.window && 0 < c.max && 0 < n
    ensures var passes := Run(c, Init(), actions).passes;
            && |passes| == c.max + n * c.max && passes[0].at == 0
            && forall i :: 1 <= i < |passes| ==> c.window - 1 <= passes[i].at <= n * c.window
  {
    var s1 := Step(c, Step(c, Init(), Hit), Advance(c.window - 1));
    var hits := HitMany(c, s1, c.max - 1);
    var s2 := Run(c, s1, hits);
    var s3 := Step(c, s2, Advance(1));
    var rest := Bursts(c, s3, n);
    actions := [Hit, Advance(c.window - 1)] + hits + ([Advance(1)] + rest);
    RunConcat(c, Init(), [Hit, Advance(c.window - 1)] + hits, [Advance(1)] + rest);
    assert ([Hit, Advance(c.window - 1)] + hits)[1..] == [Advance(c.window - 1)] + hits;
    assert ([Advance(c.window - 1)] + hits)[1..] == hits && ([Advance(1)] + rest)[1..] == rest;
  }

  lemma FullReached(c: Config, len: nat, n: nat) returns (actions: seq<Action>)
    requires 0 < c.window && 0 < c.max && len == 1 + (n - 1) * c.window
    ensures |PassedIn(Run(c, Init(), actions).passes, 0, len)| == n * c.max
  {
    hide Run;
    actions := Bursts(c, Init(), n);
    FromOnwards(Run(c, Init(), actions).passes, 0, 0, len);
  }

  lemma LateReached(c: Config, len: nat, n: nat) returns (actions: seq<Action>)
    requires 1 < c.window && 0 < c.max && 0 < n && n * c.window < c.window - 1 + len
    ensures |PassedIn(Run(c, Init(), actions).passes, c.window - 1, len)| == c.max - 1 + n * c.max
  {
    hide Run;
    actions := LateBursts(c, n);
    FromOnwards(Run(c, Init(), actions).passes, 1, c.window - 1, len);
  }

  lemma PeakReached(c: Config, len: nat) returns (actions: seq<Action>, a: int)
    requires 0 < c.window
    ensures |PassedIn(Run(c, Init(), actions).passes, a, len)| == Peak(c, len)
  {
    if len == 0 || c.max == 0 {
      actions, a := [], 0;
      assert PassedIn(Run(c, Init(), []).passes, a, len) == {};
    } else {
      var n := (len - 1) / c.window + 1;
      assert len - 1 == (n - 1) * c.window + (len - 1) % c.window && n * c.window == (n - 1) * c.window + c.window;
      if (len - 1) % c.window == 0 {
        a := 0;
        actions := FullReached(c, len, n);
      } else {
        a := c.window - 1;
        actions := LateReached(c, len, n);
      }
    }
  }

  // So the exact bound on the passes of an interval, over all runs.
  lemma IntervalPeakIff(c: Config, len: nat, bound: int)
    requires 0 < c.window
    ensures (forall actions: seq<Action>, a: int :: |PassedIn(Run(c, Init(), actions).passes, a, len)| <= bound)
            <==> Peak(c, len) <= bound
  {
    if Peak(c, len) <= bound {
      forall actions: seq<Action>, a: int ensures |PassedIn(Run(c, Init(), actions).passes, a, len)| <= bound {
        RunKeepsInv(c, Init(), actions);
        PeakHolds(c, Run(c, Init(), actions).passes, a, len);
      }
    } else {
      var actions, a := PeakReached(c, len);
    }
  }

  // An interval as long as the window never lets 2 * max through, but one fewer.
  lemma PeakOfWindow(c: Config)
    requires 1 < c.window && 0 < c.max
    ensures Peak(c, c.window) == 2 * c.max - 1
  {
  }

  // One key's counter, as _check_rate_limit uses it.
  class Counter {
    const c: Config
    var now: int
    var counter: Option<Cell<int>>
    ghost var passes: seq<Pass>

    ghost function Snapshot(): State
      reads this
    {
      State(now, counter, passes)
    }

    constructor (c: Config)
      ensures this.c == c && Snapshot() == Init()
    {
      this.c, now, counter, passes := c, 0, None, [];
    }

    method CheckRateLimit() returns (allowed: bool)
      modifies this`counter, this`passes
      ensures Snapshot() == Step(c, old(Snapshot()), Hit)
      ensures allowed <==> |passes| == |old(passes)| + 1
    {
      var incremented := Incr(counter, now);
      var cell := ExpireNx(incremented, now, c.window);
      counter := Some(cell);
      allowed := cell.value <= c.max;
      if allowed {
        passes := passes + [Pass(now, cell.deadline.value - c.window, cell.value)];
      }
    }
  }
}
