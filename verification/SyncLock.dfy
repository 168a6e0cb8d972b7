// The per-user lock around a portfolio sync: SET NX EX to enter, an unconditional
// DEL to leave. The key's value is never read, so here it names the setter.
module SyncLock {
  import opened Wrappers
  import opened Redis

  datatype Phase = Waiting | Syncing(since: int) | Done | Refused

  datatype Request = Request(user: nat, phase: Phase)

  // A DEL by a leaving request, and whose lock it deleted, if any was held.
  datatype Release = Release(request: nat, owner: Option<nat>)

  // `overstayed` has the users of whom a request was inside for a whole TTL.
  datatype State = State(now: int, locks: map<nat, Cell<nat>>, requests: seq<Request>,
                         releases: seq<Release>, overstayed: set<nat>)

  datatype Action = Tick(d: nat) | Enter(i: nat) | Leave(i: nat)

  predicate TooLong(ttl: nat, r: Request, now: int) {
    r.phase.Syncing? && r.phase.since + ttl <= now
  }

  function Overstayers(ttl: nat, requests: seq<Request>, now: int): set<nat> {
    set i | 0 <= i < |requests| && TooLong(ttl, requests[i], now) :: requests[i].user
  }

  function Step(ttl: nat, s: State, a: Action): State {
    match a
    case Tick(d) =>
      s.(now := s.now + d,
         overstayed := s.overstayed + Overstayers(ttl, s.requests, s.now + d))
    case Enter(i) =>
      if i < |s.requests| && s.requests[i].phase.Waiting? then
        var user := s.requests[i].user;
        if Get(s.locks, user, s.now).None?
        then s.(locks := s.locks[user := Cell(i, Some(s.now + ttl))],
                requests := s.requests[i := Request(user, Syncing(s.now))])
        else s.(requests := s.requests[i := Request(user, Refused)])
      else s
    case Leave(i) =>
      if i < |s.requests| && s.requests[i].phase.Syncing? then
        var user := s.requests[i].user;
        s.(locks := s.locks - {user}, requests := s.requests[i := Request(user, Done)],
           releases := s.releases + [Release(i, Get(s.locks, user, s.now))])
      else s
  }

  function Run(ttl: nat, s: State, actions: seq<Action>): State
    decreases |actions|
  {
    if actions == [] then s else Run(ttl, Step(ttl, s, actions[0]), actions[1..])
  }

  function Init(users: seq<nat>): State {
    State(0, map[], seq(|users|, i requires 0 <= i < |users| => Request(users[i], Waiting)), [], {})
  }

  // A user is marked when one of its requests has been inside for a whole TTL.
  lemma OverstayedMeans(ttl: nat, s: State, d: nat, u: nat)
    ensures u in Step(ttl, s, Tick(d)).overstayed <==>
            || u in s.overstayed
            || exists i :: 0 <= i < |s.requests| && s.requests[i].user == u && s.requests[i].phase.Syncing?
                           && s.now + d - s.requests[i].phase.since >= ttl
  {
  }

  // A waiting request enters if the user's lock is free, and is refused for good if
  // it is not.
  lemma EnterMeans(ttl: nat, s: State, i: nat, a: Action)
    requires i < |s.requests|
    ensures s.requests[i].phase.Waiting? ==>
              var u := s.requests[i].user;
              var held := u in s.locks && s.locks[u].deadline.GetOr(s.now + 1) > s.now;
              Step(ttl, s, Enter(i)).requests[i] == Request(u, if held then Refused else Syncing(s.now))
    ensures s.requests[i].phase.Refused? || s.requests[i].phase.Done? ==>
              Step(ttl, s, a).requests[i] == s.requests[i]
  {
  }

  // Every request of the user that is inside holds the user's lock.
  ghost predicate HoldersHold(s: State, u: nat) {
    forall i :: 0 <= i < |s.requests| && s.requests[i].user == u && s.requests[i].phase.Syncing? ==>
      Get(s.locks, u, s.now) == Some(i)
  }

  // No two requests of one user are inside.
  ghost predicate Exclusive(s: State, u: nat) {
    forall i, j :: 0 <= i < j < |s.requests| && s.requests[i].user == u && s.requests[j].user == u ==>
      !(s.requests[i].phase.Syncing? && s.requests[j].phase.Syncing?)
  }

  // Every DEL by a request of the user so far was of the caller's own lock.
  ghost predicate OwnReleases(s: State, u: nat) {
    forall k :: 0 <= k < |s.releases| && ReleasedBy(s, k, u) ==> s.releases[k].owner == Some(s.releases[k].request)
  }

  predicate ReleasedBy(s: State, k: nat, u: nat)
    requires k < |s.releases|
  {
    s.releases[k].request < |s.requests| && s.requests[s.releases[k].request].user == u
  }

  // Only requests that went through a sync have deleted anything.
  ghost predicate ReleasersDone(s: State) {
    forall k :: 0 <= k < |s.releases| ==>
      s.releases[k].request < |s.requests| && s.requests[s.releases[k].request].phase.Done?
  }

  ghost predicate Fresh(ttl: nat, s: State) {
    && (forall u :: u in s.locks ==> s.locks[u].deadline.Some? && s.locks[u].deadline.value <= s.now + ttl)
    && (forall i :: 0 <= i < |s.requests| && s.requests[i].phase.Syncing? ==>
          s.requests[i].phase.since <= s.now)
  }

  // The requests inside whose user never overstayed are within their TTL and hold
  // the lock they set.
  ghost predicate Timed(ttl: nat, s: State) {
    forall i :: 0 <= i < |s.requests| && s.requests[i].phase.Syncing? && s.requests[i].user !in s.overstayed ==>
      && s.now < s.requests[i].phase.since + ttl
      && s.requests[i].user in s.locks
      && s.locks[s.requests[i].user] == Cell(i, Some(s.requests[i].phase.since + ttl))
  }

  ghost predicate Inv(ttl: nat, s: State) {
    ReleasersDone(s) && Fresh(ttl, s) && Timed(ttl, s) && forall u :: u !in s.overstayed ==> OwnReleases(s, u)
  }

  lemma TickKeepsInv(ttl: nat, s: State, d: nat)
    requires 0 < ttl && Inv(ttl, s)
    ensures Inv(ttl, Step(ttl, s, Tick(d)))
  {
    var s' := Step(ttl, s, Tick(d));
    assert forall i :: 0 <= i < |s.requests| && TooLong(ttl, s.requests[i], s'.now) ==>
        s.requests[i].user in s'.overstayed;
    forall u | u !in s'.overstayed ensures OwnReleases(s', u) {
      assert OwnReleases(s, u);
    }
  }

  lemma EnterKeepsInv(ttl: nat, s: State, i: nat)
    requires 0 < ttl && Inv(ttl, s)
    ensures Inv(ttl, Step(ttl, s, Enter(i)))
  {
    var s' := Step(ttl, s, Enter(i));
    forall u | u !in s'.overstayed ensures OwnReleases(s', u) {
      assert OwnReleases(s, u);
      forall k | 0 <= k < |s'.releases| && ReleasedBy(s', k, u)
        ensures s'.releases[k].owner == Some(s'.releases[k].request)
      {
        assert ReleasedBy(s, k, u);
      }
    }
  }

  lemma LeaveKeepsInv(ttl: nat, s: State, i: nat)
    requires 0 < ttl && Inv(ttl, s)
    ensures Inv(ttl, Step(ttl, s, Leave(i)))
  {
    var s' := Step(ttl, s, Leave(i));
    forall u | u !in s'.overstayed ensures OwnReleases(s', u) {
      assert OwnReleases(s, u);
      forall k | 0 <= k < |s'.releases| && ReleasedBy(s', k, u)
        ensures s'.releases[k].owner == Some(s'.releases[k].request)
      {
        assert k < |s.releases| ==> ReleasedBy(s, k, u);
      }
    }
  }

  lemma StepKeepsInv(ttl: nat, s: State, a: Action)
    requires 0 < ttl && Inv(ttl, s)
    ensures Inv(ttl, Step(ttl, s, a))
  {
    match a
    case Tick(d) => TickKeepsInv(ttl, s, d);
    case Enter(i) => EnterKeepsInv(ttl, s, i);
    case Leave(i) => LeaveKeepsInv(ttl, s, i);
  }

  lemma {:induction false} RunKeepsInv(ttl: nat, s: State, actions: seq<Action>)
    requires 0 < ttl && Inv(ttl, s)
    ensures Inv(ttl, Run(ttl, s, actions))
    decreases |actions|
  {
    hide Inv, Step;
    if actions != [] {
      StepKeepsInv(ttl, s, actions[0]);
      RunKeepsInv(ttl, Step(ttl, s, actions[0]), actions[1..]);
    }
  }

  // In every interleaving, for each user of whom nobody stayed a whole TTL: no two
  // of the user's syncs overlap and every DEL removes the caller's own lock; and a
  // refused request has never deleted a lock, overstayers or not.
  lemma MutualExclusion(ttl: nat, users: seq<nat>, actions: seq<Action>)
    requires 0 < ttl
    ensures var s := Run(ttl, Init(users), actions);
            && ReleasersDone(s)
            && forall u :: u !in s.overstayed ==> Exclusive(s, u) && HoldersHold(s, u) && OwnReleases(s, u)
  {
    RunKeepsInv(ttl, Init(users), actions);
    var s := Run(ttl, Init(users), actions);
    hide Run;
    forall u | u !in s.overstayed ensures Exclusive(s, u) && HoldersHold(s, u) && OwnReleases(s, u) {
    }
  }

  // Nobody is locked out for longer than a TTL, even by a holder that never leaves.
  lemma LockLapses(ttl: nat, users: seq<nat>, actions: seq<Action>, i: nat)
    requires 0 < ttl
    requires var s := Run(ttl, Init(users), actions); i < |s.requests| && s.requests[i].phase.Waiting?
    ensures var s := Run(ttl, Init(users), actions);
            Step(ttl, Step(ttl, s, Tick(ttl)), Enter(i)).requests[i].phase == Syncing(s.now + ttl)
  {
    RunKeepsInv(ttl, Init(users), actions);
  }

  // Without the bound both guarantees fail: the first of three requests of one
  // user overstays, the second enters beside it, and the first's DEL removes the
  // second's lock, so the third enters beside the second.
  lemma OverstayerBreaksExclusion(ttl: nat, user: nat)
    requires 1 < ttl
    ensures var before := Run(ttl, Init([user, user, user]), [Enter(0), Tick(ttl), Enter(1)]);
            !Exclusive(before, user)
            && var s := Run(ttl, before, [Leave(0), Tick(1), Enter(2)]);
               s.releases == [Release(0, Some(1))] && !Exclusive(s, user) && s.requests[0].phase.Done?
  {
    var s0 := Init([user, user, user]);
    RunThree(ttl, s0, Enter(0), Tick(ttl), Enter(1));
    var s2 := Step(ttl, Step(ttl, s0, Enter(0)), Tick(ttl));
    assert s2.requests == [Request(user, Syncing(0)), Request(user, Waiting), Request(user, Waiting)];
    var before := Step(ttl, s2, Enter(1));
    assert before.requests == [Request(user, Syncing(0)), Request(user, Syncing(ttl)), Request(user, Waiting)];
    assert before.requests[0].phase.Syncing? && before.requests[1].phase.Syncing?;
    RunThree(ttl, before, Leave(0), Tick(1), Enter(2));
    var s := Step(ttl, Step(ttl, Step(ttl, before, Leave(0)), Tick(1)), Enter(2));
    assert s.requests[1].phase.Syncing? && s.requests[2].phase.Syncing?;
  }

  // Whoever's lock is in the store is inside, and set it on entering.
  ghost predicate OwnersInside(ttl: nat, s: State) {
    forall u :: u in s.locks ==>
      var h := s.locks[u].value;
      && h < |s.requests| && s.requests[h].user == u && s.requests[h].phase.Syncing?
      && s.locks[u].deadline == Some(s.requests[h].phase.since + ttl)
  }

  lemma {:induction false} RunKeepsOwners(ttl: nat, s: State, actions: seq<Action>)
    requires OwnersInside(ttl, s)
    ensures OwnersInside(ttl, Run(ttl, s, actions))
    decreases |actions|
  {
    hide OwnersInside, Step;
    if actions != [] {
      StepKeepsOwners(ttl, s, actions[0]);
      RunKeepsOwners(ttl, Step(ttl, s, actions[0]), actions[1..]);
    }
  }

  lemma StepKeepsOwners(ttl: nat, s: State, a: Action)
    requires OwnersInside(ttl, s)
    ensures OwnersInside(ttl, Step(ttl, s, a))
  {
  }

  // In every reachable state with an overstayer inside, the next request of its
  // user finds or makes two syncs at once; and if the overstayer's lock had
  // lapsed, its DEL then removes the newcomer's.
  lemma OverstayerAdmitsAnother(ttl: nat, users: seq<nat>, actions: seq<Action>, i: nat, j: nat)
    requires 0 < ttl
    requires var s := Run(ttl, Init(users), actions);
             && i < |s.requests| && j < |s.requests| && s.requests[i].user == s.requests[j].user
             && TooLong(ttl, s.requests[i], s.now) && s.requests[j].phase.Waiting?
    ensures var s := Run(ttl, Init(users), actions);
            var s' := Step(ttl, s, Enter(j));
            && !Exclusive(s', s.requests[i].user)
            && (Get(s.locks, s.requests[i].user, s.now).None? ==>
                  Step(ttl, s', Leave(i)).releases == s.releases + [Release(i, Some(j))]
                  && s.requests[i].user !in Step(ttl, s', Leave(i)).locks)
  {
    RunKeepsOwners(ttl, Init(users), actions);
    var s := Run(ttl, Init(users), actions);
    hide Run;
    var s', u := Step(ttl, s, Enter(j)), s.requests[i].user;
    var other := if Get(s.locks, u, s.now).None? then j else s.locks[u].value;
    assert other != i && s'.requests[other].user == u && s'.requests[other].phase.Syncing?;
    assert s'.requests[i] == s.requests[i];
    BothInside(s', i, other);
  }

  lemma BothInside(s: State, i: nat, j: nat)
    requires i < |s.requests| && j < |s.requests| && i != j && s.requests[i].user == s.requests[j].user
    requires s.requests[i].phase.Syncing? && s.requests[j].phase.Syncing?
    ensures !Exclusive(s, s.requests[i].user)
  {
    if i < j {
      assert s.requests[i].phase.Syncing? && s.requests[j].phase.Syncing?;
    } else {
      assert s.requests[j].phase.Syncing? && s.requests[i].phase.Syncing?;
    }
  }

  lemma RunThree(ttl: nat, s: State, a: Action, b: Action, c: Action)
    ensures Run(ttl, s, [a, b, c]) == Step(ttl, Step(ttl, Step(ttl, s, a), b), c)
  {
    hide Step;
    assert [a, b, c][1..] == [b, c] && [b, c][1..] == [c] && [c][1..] == [];
    var s1 := Step(ttl, s, a);
    var s2 := Step(ttl, s1, b);
    assert Run(ttl, s2, [c]) == Run(ttl, Step(ttl, s2, c), []);
    assert Run(ttl, s1, [b, c]) == Run(ttl, s2, [c]);
    assert Run(ttl, s, [a, b, c]) == Run(ttl, s1, [b, c]);
  }

  // ---------------------------------------------------------------- the endpoint

  datatype Status = Active | Expired

  class Connection {
    const user: nat
    var status: Status

    constructor (user: nat)
      ensures this.user == user && status == Active
    {
      this.user, status := user, Active;
    }
  }

  // How the work inside the lock ends.
  datatype Work = Synced | StaleCredentials | BrokerFailed(authExpired: bool) | Crashed

  datatype Response = Summary | NotFound | Conflict | BadGateway | InternalError

  class SyncEndpoint {
    const redis: Strings<nat, nat>
    const ttl: nat

    constructor (redis: Strings<nat, nat>, ttl: nat)
      ensures this.redis == redis && this.ttl == ttl
    {
      this.redis, this.ttl := redis, ttl;
    }

    // The active connection of the user, if any, was looked up by the caller;
    // `elapsed` is how long the work takes.
    method SyncPortfolio(connection: Connection?, request: nat, work: Work, elapsed: nat) returns (r: Response)
      requires connection != null ==> connection.status == Active
      modifies redis, connection
      ensures connection == null ==> r == NotFound && redis.cells == old(redis.cells) && redis.now == old(redis.now)
      ensures connection != null && Get(old(redis.cells), connection.user, old(redis.now)).Some? ==>
                r == Conflict && redis.cells == old(redis.cells) && connection.status == Active
      ensures connection != null && Get(old(redis.cells), connection.user, old(redis.now)).None? ==>
                && redis.cells == old(redis.cells) - {connection.user}
                && redis.now == old(redis.now) + elapsed
                && r == (match work
                         case Synced => Summary
                         case StaleCredentials => Conflict
                         case BrokerFailed(_) => BadGateway
                         case Crashed => InternalError)
                && (connection.status == Expired <==> work == StaleCredentials || work == BrokerFailed(true))
    {
      if connection == null {
        return NotFound;
      }
      var acquired := redis.SetNxEx(connection.user, request, ttl);
      if !acquired {
        return Conflict;
      }
      redis.Advance(elapsed);
      match work {
        case StaleCredentials =>
          connection.status := Expired;
          r := Conflict;
        case BrokerFailed(authExpired) =>
          if authExpired {
            connection.status := Expired;
          }
          r := BadGateway;
        case Synced =>
          r := Summary;
        case Crashed =>
          r := InternalError;
      }
      redis.Del(connection.user);
    }
  }
}
