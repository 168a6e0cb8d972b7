// How old the readings of a full hit are: each was set by its call less than that
// call's TTL before the GET that found it.
module IndicatorAges {
  import opened Wrappers
  import opened Redis
  import IndicatorCache
  import opened IndicatorCommands

  // The state before the n-th event.
  function At(s: State, events: seq<Event>, n: nat): State
    requires n <= |events|
  {
    Run(s, events[..n])
  }

  lemma {:induction false} RunConcat(s: State, a: seq<Event>, b: seq<Event>)
    ensures Run(s, a + b) == Run(Run(s, a), b)
    decreases |a|
  {
    hide Step;
    if a == [] {
      assert a + b == b;
    } else {
      assert (a + b)[0] == a[0] && (a + b)[1..] == a[1..] + b;
      RunConcat(Step(s, a[0]), a[1..], b);
    }
  }

  lemma AtNext(s: State, events: seq<Event>, n: nat)
    requires n < |events|
    ensures At(s, events, n + 1) == Step(At(s, events, n), events[n])
  {
    hide Step;
    assert events[..n + 1] == events[..n] + [events[n]];
    RunConcat(s, events[..n], [events[n]]);
    assert [events[n]][1..] == [];
    assert Run(At(s, events, n), [events[n]]) == Run(Step(At(s, events, n), events[n]), []);
  }

  // The m-th event is call g's SET of x.
  ghost predicate SetAt(s: State, events: seq<Event>, m: nat, x: Indicator, g: nat)
    requires m < |events|
  {
    var before := At(s, events, m);
    && events[m] == Command(g) && g < |before.calls|
    && before.calls[g].stage == Writing(Position(x)) && Sets(before.calls[g].frame, x)
  }

  // The n-th event is call j's GET of x, and finds r.
  ghost predicate GotAt(s: State, events: seq<Event>, n: nat, x: Indicator, j: nat, r: Entry)
    requires n < |events|
  {
    var before := At(s, events, n);
    && events[n] == Command(j) && j < |before.calls|
    && before.calls[j].stage.Loading? && before.calls[j].stage.k == Position(x)
    && Get(before.cells, x, before.now) == Some(r)
  }

  // What is cached under x was set by the m-th event, and lapses a TTL later.
  ghost predicate CachedBy(s: State, events: seq<Event>, m: nat, x: Indicator, c: Cell<Entry>)
    requires m < |events|
  {
    && SetAt(s, events, m, x, c.value.generation)
    && var before := At(s, events, m);
       c.deadline == Some(before.now + before.calls[c.value.generation].ttl)
  }

  ghost predicate AllCachedBy(s: State, events: seq<Event>, n: nat)
    requires n <= |events|
  {
    forall x :: x in At(s, events, n).cells ==>
      exists m :: 0 <= m < n && CachedBy(s, events, m, x, At(s, events, n).cells[x])
  }

  ghost predicate AllGot(s: State, events: seq<Event>, n: nat)
    requires n <= |events|
  {
    forall j, x :: 0 <= j < |At(s, events, n).calls| && x in FoundBy(At(s, events, n).calls[j]) ==>
      exists k :: 0 <= k < n && GotAt(s, events, k, x, j, FoundBy(At(s, events, n).calls[j])[x])
  }

  // A cell is an old one or this event's SET.
  lemma CellSetNow(s: State, e: Event, x: Indicator)
    requires x in Step(s, e).cells
    ensures || (x in s.cells && Step(s, e).cells[x] == s.cells[x])
            || (e.Command? && e.i < |s.calls| && s.calls[e.i].stage == Writing(Position(x))
                && Sets(s.calls[e.i].frame, x) && Step(s, e).cells[x] == CellOf(s.calls[e.i], e.i, x, s.now))
  {
    hide Loaded, AfterGet, IndicatorCache.Compute;
    if e.Command? && e.i < |s.calls| && s.calls[e.i].stage.Writing? && s.calls[e.i].stage.k < |ORDER| {
      OrderIs(s.calls[e.i].stage.k);
    }
  }

  // A reading found is an old one or this event's.
  lemma FoundNow(s: State, e: Event, j: nat, x: Indicator)
    requires j < |Step(s, e).calls| && x in FoundBy(Step(s, e).calls[j])
    ensures var r := FoundBy(Step(s, e).calls[j])[x];
            || (j < |s.calls| && x in FoundBy(s.calls[j]) && r == FoundBy(s.calls[j])[x])
            || (e == Command(j) && j < |s.calls| && s.calls[j].stage.Loading? && s.calls[j].stage.k == Position(x)
                && Get(s.cells, x, s.now) == Some(r))
  {
    if e == Command(j) && j < |s.calls| && s.calls[j].stage.Loading? && s.calls[j].stage.k < |ORDER| {
      OrderIs(s.calls[j].stage.k);
    }
  }

  lemma {:induction false} CachedByThen(s: State, events: seq<Event>, n: nat)
    requires s.cells == map[] && n <= |events|
    ensures AllCachedBy(s, events, n)
  {
    if n == 0 {
      assert events[..0] == [];
    } else {
      CachedByThen(s, events, n - 1);
      AtNext(s, events, n - 1);
      var before, e := At(s, events, n - 1), events[n - 1];
      hide Step, At, Sets;
      forall x | x in At(s, events, n).cells
        ensures exists m :: 0 <= m < n && CachedBy(s, events, m, x, At(s, events, n).cells[x])
      {
        CellSetNow(before, e, x);
        if x in before.cells && before.cells[x] == At(s, events, n).cells[x] {
          var m :| 0 <= m < n - 1 && CachedBy(s, events, m, x, before.cells[x]);
        } else {
          assert CachedBy(s, events, n - 1, x, At(s, events, n).cells[x]);
        }
      }
    }
  }

  lemma {:induction false} GotThen(s: State, events: seq<Event>, n: nat)
    requires s.calls == [] && n <= |events|
    ensures AllGot(s, events, n)
  {
    if n == 0 {
      assert events[..0] == [];
    } else {
      GotThen(s, events, n - 1);
      AtNext(s, events, n - 1);
      var before, e := At(s, events, n - 1), events[n - 1];
      hide Step, At, FoundBy;
      forall j, x | 0 <= j < |At(s, events, n).calls| && x in FoundBy(At(s, events, n).calls[j])
        ensures exists k :: 0 <= k < n && GotAt(s, events, k, x, j, FoundBy(At(s, events, n).calls[j])[x])
      {
        var r := FoundBy(At(s, events, n).calls[j])[x];
        FoundNow(before, e, j, x);
        if j < |before.calls| && x in FoundBy(before.calls[j]) && FoundBy(before.calls[j])[x] == r {
          var k :| 0 <= k < n - 1 && GotAt(s, events, k, x, j, r);
        } else {
          assert GotAt(s, events, n - 1, x, j, r);
        }
      }
    }
  }

  // r was set by the m-th event, and found under x by call j's n-th event, less than
  // a TTL later.
  ghost predicate Recent(s: State, events: seq<Event>, m: nat, n: nat, x: Indicator, j: nat, r: Entry)
    requires m < n < |events|
  {
    && SetAt(s, events, m, x, r.generation) && GotAt(s, events, n, x, j, r)
    && var before := At(s, events, m);
       At(s, events, n).now < before.now + before.calls[r.generation].ttl
  }

  lemma GetIsRecent(s: State, events: seq<Event>, n: nat, x: Indicator, j: nat, r: Entry)
    requires s.cells == map[] && n < |events| && GotAt(s, events, n, x, j, r)
    ensures exists m :: 0 <= m < n && Recent(s, events, m, n, x, j, r)
  {
    hide At, SetAt;
    CachedByThen(s, events, n);
    var m :| 0 <= m < n && CachedBy(s, events, m, x, At(s, events, n).cells[x]);
    assert Recent(s, events, m, n, x, j, r);
  }

  // In every run at all, each reading that a call has found was set by the call it
  // names, and less than that call's TTL before the GET that found it.
  lemma FoundIsRecent(now: int, events: seq<Event>, j: nat, x: Indicator)
    requires j < |Run(Init(now), events).calls| && x in FoundBy(Run(Init(now), events).calls[j])
    ensures var r := FoundBy(Run(Init(now), events).calls[j])[x];
            exists m, n :: 0 <= m < n < |events| && Recent(Init(now), events, m, n, x, j, r)
  {
    hide GotAt, Recent, FoundBy;
    var s := Init(now);
    assert events[..|events|] == events && At(s, events, |events|) == Run(s, events);
    hide Run;
    GotThen(s, events, |events|);
    var r := FoundBy(At(s, events, |events|).calls[j])[x];
    hide At;
    var n :| 0 <= n < |events| && GotAt(s, events, n, x, j, r);
    GetIsRecent(s, events, n, x, j, r);
  }
}
