// The mobile client's single-flight refresh against the token server. The code
// between two awaits of the interceptor or of the auth store is one step.
module ClientSession {
  import opened Wrappers
  import S = RefreshTokens

  type Token = S.Token
  type ReqId = nat

  // How far the request that runs the refresh has come.
  datatype Stage =
    | Sent(token: Token)                  // POST /api/auth/refresh is on its way
    | AtServer(p: S.Pid)
    | Saving(token: Token)                // new pair received, secure store being written
    | Clearing                            // refresh failed, secure store being cleared
    | Returned(result: Option<Token>)     // refresh() has resolved
    | SigningOut                          // waiters rejected, onAuthFailure() running

  datatype Phase =
    | InFlight(retried: bool, auth: Option<Token>)   // sent with this pair's access token
    | Waiting                                        // queued behind the refresh
    | Leading(stage: Stage)
    | Settled(ok: bool)

  // `replays` counts re-sends of the request, `callbacks` the calls of the
  // resolve or reject handler it left in the queue.
  datatype Request = Request(phase: Phase, replays: nat, callbacks: nat)

  // A token pair is named by its refresh token. `leader` is the request that set
  // isRefreshing; `presented` lists the tokens sent to the refresh endpoint.
  datatype Client = Client(
    isRefreshing: bool, waiters: seq<ReqId>,
    refreshToken: Option<Token>, accessToken: Option<Token>,
    requests: seq<Request>, leader: Option<ReqId>, presented: seq<Token>)

  datatype Response = Success | Unauthorized | OtherError

  function SetPhase(c: Client, r: ReqId, p: Phase): Client
    requires r < |c.requests|
  {
    c.(requests := c.requests[r := c.requests[r].(phase := p)])
  }

  // The response interceptor up to its first await.
  function OnResponse(c: Client, r: ReqId, resp: Response): Client
    requires r < |c.requests| && c.requests[r].phase.InFlight?
  {
    if !resp.Unauthorized? || c.requests[r].phase.retried then SetPhase(c, r, Settled(resp.Success?))
    else if c.isRefreshing then SetPhase(c, r, Waiting).(waiters := c.waiters + [r])
    else
      var c' := c.(isRefreshing := true, leader := Some(r));
      if c.refreshToken.None? then SetPhase(c', r, Leading(Returned(None)))
      else SetPhase(c', r, Leading(Sent(c.refreshToken.value))).(presented := c.presented + [c.refreshToken.value])
  }

  // drainWaiters: every queued handler is called once, then the queue is empty.
  function Drained(requests: seq<Request>, waiters: seq<ReqId>, token: Option<Token>): seq<Request> {
    seq(|requests|, i requires 0 <= i < |requests| =>
      if i in waiters then Answered(requests[i], token) else requests[i])
  }

  function Answered(q: Request, token: Option<Token>): Request {
    if token.Some? then Request(InFlight(true, token), q.replays + 1, q.callbacks + 1)
    else q.(phase := Settled(false), callbacks := q.callbacks + 1)
  }

  // The secure store is written and refresh() sets its result.
  function OnSaved(c: Client, r: ReqId): Client
    requires r < |c.requests|
  {
    match c.requests[r].phase
    case Leading(Saving(t)) =>
      SetPhase(c, r, Leading(Returned(Some(t)))).(refreshToken := Some(t), accessToken := Some(t))
    case Leading(Clearing) =>
      SetPhase(c, r, Leading(Returned(None))).(refreshToken := None, accessToken := None)
    case _ => c
  }

  // The interceptor after `await doRefresh()`.
  function OnRefreshed(c: Client, r: ReqId): Client
    requires r < |c.requests|
  {
    match c.requests[r].phase
    case Leading(Returned(Some(t))) =>
      var c' := c.(requests := Drained(c.requests, c.waiters, Some(t)), waiters := []);
      var Request(_, replays, callbacks) := c'.requests[r];
      c'.(requests := c'.requests[r := Request(InFlight(true, Some(t)), replays + 1, callbacks)],
          isRefreshing := false, leader := None)
    case Leading(Returned(None)) =>
      var c' := c.(requests := Drained(c.requests, c.waiters, None), waiters := []);
      SetPhase(c', r, Leading(SigningOut))
    case _ => c
  }

  // onAuthFailure() is done: signOut found no token to log out with.
  function OnSignedOut(c: Client, r: ReqId): Client
    requires r < |c.requests|
  {
    if c.requests[r].phase == Leading(SigningOut) then
      SetPhase(c, r, Settled(false)).(refreshToken := None, accessToken := None, isRefreshing := false, leader := None)
    else c
  }

  // ---------------------------------------------------------------- client and server

  // `chain` is the login the client's tokens belong to.
  datatype World = World(server: S.State, client: Client, chain: S.Chain)

  datatype Action =
    | Send                                  // the app issues a request
    | Respond(r: ReqId, resp: Response)
    | Deliver(r: ReqId)                     // the refresh call reaches the server's GETDEL
    | Reply(r: ReqId)
    | Lose(r: ReqId)                        // timeout or network error on the refresh call
    | Saved(r: ReqId)
    | Refreshed(r: ReqId)
    | SignedOut(r: ReqId)
    | Server(a: S.Action)                   // any step of any request on the server

  // A refresh call that the client has given up on may still reach the server.
  predicate Abandoned(c: Client, t: Token) {
    t in c.presented && forall r :: 0 <= r < |c.requests| ==> c.requests[r].phase != Leading(Sent(t))
  }

  // The rest of the world keeps its hands off this chain's live token: no TTL
  // expiry, logout or foreign refresh. Password changes are allowed.
  predicate Allowed(w: World, a: S.Action) {
    match a
    case GetDel(t) => t in w.server.live ==> w.server.live[t].chain != w.chain || Abandoned(w.client, t)
    case Del(t) => t in w.server.live ==> w.server.live[t].chain != w.chain
    case Lapse(t) => t in w.server.live ==> w.server.live[t].chain != w.chain
    case _ => true
  }

  predicate LeadingAt(c: Client, r: ReqId) {
    r < |c.requests| && c.requests[r].phase.Leading?
  }

  function Step(w: World, a: Action): World {
    var c := w.client;
    match a
    case Send => w.(client := c.(requests := c.requests + [Request(InFlight(false, c.accessToken), 0, 0)]))
    case Respond(r, resp) =>
      if r < |c.requests| && c.requests[r].phase.InFlight? then w.(client := OnResponse(c, r, resp)) else w
    case Deliver(r) =>
      if LeadingAt(c, r) && c.requests[r].phase.stage.Sent? then
        w.(server := S.Step(w.server, S.GetDel(c.requests[r].phase.stage.token)),
           client := SetPhase(c, r, Leading(AtServer(w.server.nextPid))))
      else w
    case Reply(r) =>
      if LeadingAt(c, r) && c.requests[r].phase.stage.AtServer? && c.requests[r].phase.stage.p in w.server.results then
        match w.server.results[c.requests[r].phase.stage.p]
        case Some(t) => w.(client := SetPhase(c, r, Leading(Saving(t))))
        case None => w.(client := SetPhase(c, r, Leading(Clearing)))
      else w
    case Lose(r) =>
      if LeadingAt(c, r) && (c.requests[r].phase.stage.Sent? || c.requests[r].phase.stage.AtServer?) then
        w.(client := SetPhase(c, r, Leading(Clearing)))
      else w
    case Saved(r) => if r < |c.requests| then w.(client := OnSaved(c, r)) else w
    case Refreshed(r) => if r < |c.requests| then w.(client := OnRefreshed(c, r)) else w
    case SignedOut(r) => if r < |c.requests| then w.(client := OnSignedOut(c, r)) else w
    case Server(sa) => if Allowed(w, sa) then w.(server := S.Step(w.server, sa)) else w
  }

  function Run(w: World, actions: seq<Action>): World
    decreases |actions|
  {
    if actions == [] then w else Run(Step(w, actions[0]), actions[1..])
  }

  // A request leaves with the access token of the moment, and a refresh call that is
  // lost on its way or at the server leads to clearing the store.
  lemma SendAndLose(w: World, r: ReqId)
    ensures var c := Step(w, Send).client;
            && c.requests == w.client.requests + [Request(InFlight(false, w.client.accessToken), 0, 0)]
            && c == w.client.(requests := c.requests)
    ensures r < |w.client.requests| ==>
              var before, after := w.client.requests[r].phase, Step(w, Lose(r)).client.requests[r].phase;
              after == match before
                       case Leading(Sent(_)) => Leading(Clearing)
                       case Leading(AtServer(_)) => Leading(Clearing)
                       case _ => before
  {
  }

  // Just after sign-in.
  ghost predicate SignedIn(w: World, t: Token) {
    && S.Inv(w.server) && t in w.server.live && w.server.live[t].chain == w.chain
    && w.client == Client(false, [], Some(t), Some(t), [], None, [])
  }

  // ---------------------------------------------------------------- invariants

  ghost predicate QueueInv(c: Client) {
    && (c.isRefreshing <==> c.leader.Some?)
    && (c.leader.Some? ==> c.leader.value < |c.requests|)
    && (forall r :: 0 <= r < |c.requests| ==> (c.requests[r].phase.Leading? <==> c.leader == Some(r)))
    && (forall i :: 0 <= i < |c.waiters| ==> c.waiters[i] < |c.requests| && c.requests[c.waiters[i]].phase.Waiting?)
    && (forall i, j :: 0 <= i < j < |c.waiters| ==> c.waiters[i] != c.waiters[j])
    && (forall r :: 0 <= r < |c.requests| ==> CountsFit(c.requests[r]))
  }

  ghost predicate CountsFit(q: Request) {
    && q.replays <= 1 && q.callbacks <= 1
    && (q.phase.Waiting? || q.phase.Leading? || (q.phase.InFlight? && !q.phase.retried) ==>
          q.replays == 0 && q.callbacks == 0)
  }

  // t is live, in this client's chain, and was never presented.
  ghost predicate Unspent(w: World, t: Token) {
    t in w.server.live && w.server.live[t].chain == w.chain && t !in w.client.presented
  }

  ghost predicate ServerSide(w: World, p: S.Pid) {
    && p < w.server.nextPid
    && (p in w.server.procs || p in w.server.results)
    && (p in w.server.procs ==>
          S.ChainOf(w.server.procs[p]) == w.chain
          && (!w.server.procs[p].Checking? ==> w.server.procs[p].token !in w.client.presented))
    && (p in w.server.results && w.server.results[p].Some? ==> Unspent(w, w.server.results[p].value))
  }

  ghost predicate TokenInv(w: World) {
    && (forall i :: 0 <= i < |w.client.presented| ==> w.client.presented[i] < |w.server.issuers|)
    && (forall i, j :: 0 <= i < j < |w.client.presented| ==> w.client.presented[i] != w.client.presented[j])
    && (w.client.leader.None? && w.client.refreshToken.Some? ==> Unspent(w, w.client.refreshToken.value))
    && (w.client.leader.Some? ==>
          w.client.leader.value < |w.client.requests|
          && w.client.requests[w.client.leader.value].phase.Leading?
          && StageInv(w, w.client.requests[w.client.leader.value].phase.stage))
  }

  ghost predicate StageInv(w: World, stage: Stage) {
    match stage
    case Sent(t) => t in w.server.live && w.server.live[t].chain == w.chain
    case AtServer(p) => ServerSide(w, p)
    case Saving(t) => Unspent(w, t)
    case Clearing => true
    case Returned(Some(t)) => w.client.refreshToken == Some(t) && Unspent(w, t)
    case Returned(None) => w.client.refreshToken.None?
    case SigningOut => w.client.refreshToken.None?
  }

  ghost predicate Inv(w: World) {
    S.Inv(w.server) && QueueInv(w.client) && TokenInv(w)
  }

  lemma ResponseKeepsQueue(c: Client, r: ReqId, resp: Response)
    requires QueueInv(c) && r < |c.requests| && c.requests[r].phase.InFlight?
    ensures QueueInv(OnResponse(c, r, resp))
  {
  }

  lemma RefreshedKeepsQueue(c: Client, r: ReqId)
    requires QueueInv(c) && r < |c.requests|
    ensures QueueInv(OnRefreshed(c, r))
  {
  }

  lemma SignedOutKeepsQueue(c: Client, r: ReqId)
    requires QueueInv(c) && r < |c.requests|
    ensures QueueInv(OnSignedOut(c, r))
  {
  }

  lemma StepKeepsQueue(w: World, a: Action)
    requires QueueInv(w.client)
    ensures QueueInv(Step(w, a).client)
  {
    hide OnResponse, OnRefreshed, OnSignedOut, S.Step;
    var c := w.client;
    match a
    case Send =>
    case Server(_) =>
    case Respond(r, resp) =>
      if r < |c.requests| && c.requests[r].phase.InFlight? {
        ResponseKeepsQueue(c, r, resp);
      }
    case Deliver(r) =>
    case Reply(r) =>
    case Lose(r) =>
    case Saved(r) =>
    case Refreshed(r) =>
      if r < |c.requests| {
        RefreshedKeepsQueue(c, r);
      }
    case SignedOut(r) =>
      if r < |c.requests| {
        SignedOutKeepsQueue(c, r);
      }
  }

  lemma LiveTokenStays(w: World, a: S.Action, t: Token)
    requires Allowed(w, a) && !Abandoned(w.client, t) && t in w.server.live && w.server.live[t].chain == w.chain
    requires t < |w.server.issuers|
    requires forall p :: p in w.server.procs && w.server.procs[p].Storing? ==> w.server.procs[p].token != t
    ensures var s' := S.Step(w.server, a); t in s'.live && s'.live[t].chain == w.chain
  {
  }

  lemma ProcTokensFresh(s: S.State, t: Token)
    requires S.Inv(s) && t in s.live
    ensures t < |s.issuers| && forall p :: p in s.procs && s.procs[p].Storing? ==> s.procs[p].token != t
  {
    forall p | p in s.procs && s.procs[p].Storing? ensures s.procs[p].token != t {
      assert S.InIssue(s, p, s.procs[p].token);
    }
  }

  lemma HeldTokenStays(w: World, a: S.Action, t: Token)
    requires S.Inv(w.server) && Allowed(w, a) && !Abandoned(w.client, t)
    requires t in w.server.live && w.server.live[t].chain == w.chain
    ensures var s' := S.Step(w.server, a); t in s'.live && s'.live[t].chain == w.chain
  {
    ProcTokensFresh(w.server, t);
    LiveTokenStays(w, a, t);
  }

  lemma ResultKept(s: S.State, a: S.Action, p: S.Pid)
    requires p in s.results && p < s.nextPid && p !in s.procs
    ensures var s' := S.Step(s, a);
            p in s'.results && s'.results[p] == s.results[p] && p < s'.nextPid && p !in s'.procs
  {
  }

  lemma ResultStays(w: World, a: S.Action, p: S.Pid)
    requires S.Inv(w.server) && Allowed(w, a) && ServerSide(w, p) && p in w.server.results
    ensures ServerSide(w.(server := S.Step(w.server, a)), p)
  {
    if w.server.results[p].Some? {
      HeldTokenStays(w, a, w.server.results[p].value);
    }
    PidsApart(w.server);
    ResultKept(w.server, a, p);
    hide S.Inv, Allowed, S.Step;
  }

  // A request of the chain stays one, with a token of its own, or ends.
  lemma ProcKept(s: S.State, a: S.Action, p: S.Pid)
    requires p in s.procs && p < s.nextPid
    ensures var s' := S.Step(s, a);
            && p < s'.nextPid
            && (if p in s'.procs then
                  && S.ChainOf(s'.procs[p]) == S.ChainOf(s.procs[p])
                  && (!s'.procs[p].Checking? ==>
                        s'.procs[p].token == if s.procs[p].Checking? then |s.issuers| else s.procs[p].token)
                else
                  && p in s'.results
                  && (s'.results[p].Some? ==>
                        && !s.procs[p].Checking? && s'.results[p] == Some(s.procs[p].token)
                        && s'.results[p].value in s'.live
                        && s'.live[s'.results[p].value].chain == S.ChainOf(s.procs[p])))
  {
  }

  lemma PidsApart(s: S.State)
    requires S.Inv(s)
    ensures forall p :: p in s.procs ==> p < s.nextPid && p !in s.results
    ensures forall p :: p in s.procs && !s.procs[p].Checking? ==> s.procs[p].token !in s.live
  {
    forall p | p in s.procs && !s.procs[p].Checking? ensures s.procs[p].token !in s.live {
      assert S.InIssue(s, p, s.procs[p].token);
    }
  }

  lemma ResultsAhead(s: S.State, a: S.Action, p: S.Pid)
    requires p in s.procs && p !in s.results && p < s.nextPid
    ensures p in S.Step(s, a).procs ==> p !in S.Step(s, a).results
  {
  }

  lemma ProcStays(w: World, a: S.Action, p: S.Pid)
    requires S.Inv(w.server) && ServerSide(w, p) && p in w.server.procs
    requires forall i :: 0 <= i < |w.client.presented| ==> w.client.presented[i] < |w.server.issuers|
    ensures ServerSide(w.(server := S.Step(w.server, a)), p)
  {
    PidsApart(w.server);
    ProcKept(w.server, a, p);
    ResultsAhead(w.server, a, p);
    hide S.Inv, S.Step;
  }

  lemma ServerSideStays(w: World, a: S.Action, p: S.Pid)
    requires S.Inv(w.server) && Allowed(w, a) && ServerSide(w, p)
    requires forall i :: 0 <= i < |w.client.presented| ==> w.client.presented[i] < |w.server.issuers|
    ensures ServerSide(w.(server := S.Step(w.server, a)), p)
  {
    if p in w.server.procs {
      ProcStays(w, a, p);
    } else {
      ResultStays(w, a, p);
    }
  }

  lemma IssuersGrow(s: S.State, a: S.Action)
    ensures |s.issuers| <= |S.Step(s, a).issuers|
  {
  }

  lemma ServerStepKeepsTokens(w: World, a: S.Action)
    requires Inv(w) && Allowed(w, a)
    ensures TokenInv(w.(server := S.Step(w.server, a)))
  {
    hide S.Step, S.Inv, QueueInv, Allowed, ServerSide;
    IssuersGrow(w.server, a);
    var c := w.client;
    if c.leader.None? {
      if c.refreshToken.Some? {
        HeldTokenStays(w, a, c.refreshToken.value);
      }
    } else {
      match c.requests[c.leader.value].phase.stage
      case Sent(t) => HeldTokenStays(w, a, t);
      case AtServer(p) => ServerSideStays(w, a, p);
      case Saving(t) => HeldTokenStays(w, a, t);
      case Returned(Some(t)) => HeldTokenStays(w, a, t);
      case _ =>
    }
  }

  lemma DeliverKeepsTokens(w: World, r: ReqId)
    requires Inv(w)
    ensures TokenInv(Step(w, Deliver(r)))
  {
  }

  lemma RespondKeepsTokens(w: World, r: ReqId, resp: Response)
    requires Inv(w)
    ensures TokenInv(Step(w, Respond(r, resp)))
  {
  }

  lemma ReplyKeepsTokens(w: World, r: ReqId)
    requires Inv(w)
    ensures TokenInv(Step(w, Reply(r)))
  {
    hide S.Inv;
  }

  lemma SavedKeepsTokens(w: World, r: ReqId)
    requires Inv(w)
    ensures TokenInv(Step(w, Saved(r)))
  {
    hide S.Inv, ServerSide;
  }

  lemma SendKeepsTokens(w: World)
    requires Inv(w)
    ensures TokenInv(Step(w, Send))
  {
    hide S.Inv;
  }

  lemma OthersKeepTokens(w: World, a: Action)
    requires Inv(w) && (a.Lose? || a.SignedOut?)
    ensures TokenInv(Step(w, a))
  {
    hide S.Inv;
  }

  lemma RefreshedKeepsTokens(w: World, r: ReqId)
    requires Inv(w)
    ensures TokenInv(Step(w, Refreshed(r)))
  {
  }

  lemma StepKeepsInv(w: World, a: Action)
    requires Inv(w)
    ensures Inv(Step(w, a)) && Step(w, a).chain == w.chain
  {
    StepKeepsQueue(w, a);
    match a
    case Server(sa) => if Allowed(w, sa) { ServerStepKeepsTokens(w, sa); S.StepKeepsInv(w.server, sa); }
    case Deliver(r) => DeliverKeeps(w, r);
    case Respond(r, resp) => RespondKeepsTokens(w, r, resp);
    case Refreshed(r) => RefreshedKeepsTokens(w, r);
    case Reply(r) => ReplyKeepsTokens(w, r);
    case Saved(r) => SavedKeepsTokens(w, r);
    case Send => SendKeepsTokens(w);
    case _ => OthersKeepTokens(w, a);
  }

  lemma DeliverKeeps(w: World, r: ReqId)
    requires Inv(w)
    ensures S.Inv(Step(w, Deliver(r)).server) && TokenInv(Step(w, Deliver(r)))
  {
    DeliverKeepsTokens(w, r);
    if LeadingAt(w.client, r) && w.client.requests[r].phase.stage.Sent? {
      S.StepKeepsInv(w.server, S.GetDel(w.client.requests[r].phase.stage.token));
    }
  }

  lemma {:induction false} RunKeepsInv(w: World, actions: seq<Action>)
    requires Inv(w)
    ensures Inv(Run(w, actions)) && Run(w, actions).chain == w.chain
    decreases |actions|
  {
    hide Inv, Step;
    if actions != [] {
      StepKeepsInv(w, actions[0]);
      RunKeepsInv(Step(w, actions[0]), actions[1..]);
    }
  }

  // From sign-in on, over every interleaving: at most one request runs a refresh;
  // every request is replayed at most once and its queued handler called at most
  // once; whenever no refresh runs, the client's token, if it has one, is the one
  // live token of its chain and was never presented; no token is presented twice.
  lemma SessionSafety(w0: World, t: Token, actions: seq<Action>)
    requires SignedIn(w0, t)
    ensures var w := Run(w0, actions); var c := w.client;
            && (forall i, j | 0 <= i < |c.requests| && 0 <= j < |c.requests| ::
                  c.requests[i].phase.Leading? && c.requests[j].phase.Leading? ==> i == j)
            && (c.isRefreshing <==> exists i :: 0 <= i < |c.requests| && c.requests[i].phase.Leading?)
            && (forall i :: 0 <= i < |c.requests| ==> c.requests[i].replays <= 1 && c.requests[i].callbacks <= 1)
            && (forall i, j :: 0 <= i < j < |c.presented| ==> c.presented[i] != c.presented[j])
            && (!c.isRefreshing && c.refreshToken.Some? ==>
                  Unspent(w, c.refreshToken.value)
                  && forall x :: x in w.server.live && w.server.live[x].chain == w0.chain ==> x == c.refreshToken.value)
  {
    RunKeepsInv(w0, actions);
    var w := Run(w0, actions);
    hide Run;
    if w.client.isRefreshing {
      assert w.client.requests[w.client.leader.value].phase.Leading?;
    } else if w.client.refreshToken.Some? {
      var mine := w.client.refreshToken.value;
      assert Unspent(w, mine);
      forall x | x in w.server.live && w.server.live[x].chain == w0.chain ensures x == mine {
        assert S.At(w.server, w0.chain, S.InStore(x)) && S.At(w.server, w0.chain, S.InStore(mine));
      }
    }
  }

  // Whatever the client presents is live at that moment and was never redeemed,
  // and the server redeems it when it arrives.
  lemma PresentsOnlyLiveTokens(w0: World, t: Token, actions: seq<Action>, a: Action)
    requires SignedIn(w0, t)
    ensures var w := Run(w0, actions);
            var presented := Step(w, a).client.presented;
            presented == w.client.presented
            || exists x :: presented == w.client.presented + [x] && x in w.server.live && x !in w.server.redeemed
    ensures var w := Run(w0, actions);
            a.Deliver? && LeadingAt(w.client, a.r) && w.client.requests[a.r].phase.stage.Sent? ==>
              Step(w, a).server.redeemed == w.server.redeemed + [w.client.requests[a.r].phase.stage.token]
  {
    RunKeepsInv(w0, actions);
    var w := Run(w0, actions);
    hide Run, Inv;
    if a.Respond? {
      RespondPresents(w, a.r, a.resp);
    } else {
      OthersPresentNothing(w, a);
    }
    if a.Deliver? && LeadingAt(w.client, a.r) && w.client.requests[a.r].phase.stage.Sent? {
      DeliverRedeems(w, a.r);
    }
    hide Step;
  }

  lemma OthersPresentNothing(w: World, a: Action)
    requires !a.Respond?
    ensures Step(w, a).client.presented == w.client.presented
  {
    hide S.Step;
  }

  lemma RespondPresents(w: World, r: ReqId, resp: Response)
    requires Inv(w)
    ensures var presented := Step(w, Respond(r, resp)).client.presented;
            presented == w.client.presented
            || exists x :: presented == w.client.presented + [x] && x in w.server.live && x !in w.server.redeemed
  {
    if Step(w, Respond(r, resp)).client.presented != w.client.presented {
      var x := w.client.refreshToken.value;
      assert Step(w, Respond(r, resp)).client.presented == w.client.presented + [x];
      assert x in w.server.live && x !in w.server.redeemed;
    }
  }

  lemma DeliverRedeems(w: World, r: ReqId)
    requires Inv(w) && LeadingAt(w.client, r) && w.client.requests[r].phase.stage.Sent?
    ensures Step(w, Deliver(r)).server.redeemed == w.server.redeemed + [w.client.requests[r].phase.stage.token]
  {
    assert w.client.leader == Some(r);
  }

  // ---------------------------------------------------------------- the client's code

  // ---------------------------------------------------------------- whole refreshes

  lemma {:induction false} RunConcat(w: World, a: seq<Action>, b: seq<Action>)
    ensures Run(w, a + b) == Run(Run(w, a), b)
    decreases |a|
  {
    hide Step;
    if a == [] {
      assert a + b == b;
    } else {
      assert (a + b)[0] == a[0] && (a + b)[1..] == a[1..] + b;
      RunConcat(Step(w, a[0]), a[1..], b);
    }
  }

  lemma RunThree(w: World, a: Action, b: Action, c: Action)
    ensures Run(w, [a, b, c]) == Step(Step(Step(w, a), b), c)
  {
    hide Step;
    assert [a, b, c][1..] == [b, c] && [b, c][1..] == [c] && [c][1..] == [];
    var w1 := Step(w, a);
    var w2 := Step(w1, b);
    assert Run(w2, [c]) == Run(Step(w2, c), []);
    assert Run(w1, [b, c]) == Run(w2, [c]);
    assert Run(w, [a, b, c]) == Run(w1, [b, c]);
  }

  // Two requests answered with 401: the first refreshes and the second queues.
  lemma BothUnauthorized(w: World, t: Token)
    requires SignedIn(w, t)
    ensures var w' := Run(w, [Send, Send, Respond(0, Unauthorized)] + [Respond(1, Unauthorized), Deliver(0), Send]);
            && w'.server == S.Step(w.server, S.GetDel(t)) && w'.chain == w.chain
            && w'.client == Client(true, [1], Some(t), Some(t),
                                   [Request(Leading(AtServer(w.server.nextPid)), 0, 0), Request(Waiting, 0, 0),
                                    Request(InFlight(false, Some(t)), 0, 0)], Some(0), [t])
  {
    hide S.Step, S.Inv;
    RunConcat(w, [Send, Send, Respond(0, Unauthorized)], [Respond(1, Unauthorized), Deliver(0), Send]);
    RunThree(w, Send, Send, Respond(0, Unauthorized));
    var sent := Request(InFlight(false, Some(t)), 0, 0);
    var w2 := Step(Step(w, Send), Send);
    assert w2.client.requests == [sent, sent];
    var w3 := Step(w2, Respond(0, Unauthorized));
    assert w3.client.requests == [Request(Leading(Sent(t)), 0, 0), sent];
    RunThree(w3, Respond(1, Unauthorized), Deliver(0), Send);
    var w4 := Step(w3, Respond(1, Unauthorized));
    assert w4.client.requests == [Request(Leading(Sent(t)), 0, 0), Request(Waiting, 0, 0)];
    var w5 := Step(w4, Deliver(0));
    assert w5.client.requests == [Request(Leading(AtServer(w.server.nextPid)), 0, 0), Request(Waiting, 0, 0)];
  }

  // The server finds the token good and stores the next one.
  lemma ServerRotates(w: World, s: S.State, p: S.Pid, t: Token)
    requires t in s.live && s.live[t].pwv == S.PwVersion(s, s.live[t].user) && p == s.nextPid && p !in s.procs
    requires w.server == S.Step(s, S.GetDel(t))
    ensures var w' := Run(w, [Server(S.Check(p, true)), Server(S.Read(p)), Server(S.Store(p))]);
            var next := |s.issuers|;
            && w' == w.(server := w'.server) && p in w'.server.results && w'.server.results[p] == Some(next)
            && w'.server.live == (s.live - {t})[next :=
                 S.Record(s.live[t].user, s.live[t].pwv, s.live[t].chain, |s.bumps|)]
  {
    RunThree(w, Server(S.Check(p, true)), Server(S.Read(p)), Server(S.Store(p)));
    var s1 := S.Step(w.server, S.Check(p, true));
    assert p in s1.procs && s1.procs[p] == S.Reading(s.live[t].user, s.live[t].chain, |s.issuers|);
    var s2 := S.Step(s1, S.Read(p));
    assert p in s2.procs && s2.procs[p].Storing?;
  }

  // The client stores the pair and replays both requests.
  lemma PairStored(w: World, p: S.Pid, t: Token, next: Token)
    requires p in w.server.results && w.server.results[p] == Some(next)
    requires w.client == Client(true, [1], Some(t), Some(t),
                                [Request(Leading(AtServer(p)), 0, 0), Request(Waiting, 0, 0),
                                 Request(InFlight(false, Some(t)), 0, 0)], Some(0), [t])
    ensures Run(w, [Reply(0), Saved(0), Refreshed(0)])
         == w.(client := Client(false, [], Some(next), Some(next),
                                [Request(InFlight(true, Some(next)), 1, 0), Request(InFlight(true, Some(next)), 1, 1),
                                 Request(InFlight(false, Some(t)), 0, 0)], None, [t]))
  {
    hide S.Step;
    RunThree(w, Reply(0), Saved(0), Refreshed(0));
    var w1 := Step(w, Reply(0));
    assert w1.client.requests[0] == Request(Leading(Saving(next)), 0, 0);
    var w2 := Step(w1, Saved(0));
    assert w2.client.requests[0] == Request(Leading(Returned(Some(next))), 0, 0);
    var w3 := Step(w2, Refreshed(0));
    assert w3.client.requests == [Request(InFlight(true, Some(next)), 1, 0), Request(InFlight(true, Some(next)), 1, 1),
                                  Request(InFlight(false, Some(t)), 0, 0)];
  }

  lemma AllSettle(w: World, t: Token, next: Token)
    requires w.client == Client(false, [], Some(next), Some(next),
                                [Request(InFlight(true, Some(next)), 1, 0), Request(InFlight(true, Some(next)), 1, 1),
                                 Request(InFlight(false, Some(t)), 0, 0)], None, [t])
    ensures Run(w, [Respond(0, Success), Respond(1, Success), Respond(2, OtherError)])
         == w.(client := w.client.(requests := [Request(Settled(true), 1, 0), Request(Settled(true), 1, 1),
                                                Request(Settled(false), 0, 0)]))
  {
    hide S.Step;
    RunThree(w, Respond(0, Success), Respond(1, Success), Respond(2, OtherError));
  }

  // A refresh from end to end: with a current token of an active user, two requests
  // that get 401 cause one refresh, are both replayed with the new pair and succeed;
  // one that fails otherwise is not replayed. The old token is gone and the new one
  // is live in the same chain.
  lemma RefreshServesAll(w: World, t: Token) returns (actions: seq<Action>)
    requires SignedIn(w, t) && w.server.live[t].pwv == S.PwVersion(w.server, w.server.live[t].user)
    ensures var w' := Run(w, actions);
            var next := |w.server.issuers|;
            && w'.client == Client(false, [], Some(next), Some(next),
                                   [Request(Settled(true), 1, 0), Request(Settled(true), 1, 1),
                                    Request(Settled(false), 0, 0)], None, [t])
            && t !in w'.server.live && next in w'.server.live && w'.server.live[next].chain == w.chain
  {
    var p, next := w.server.nextPid, |w.server.issuers|;
    assert t < next && p !in w.server.procs;
    var first := [Send, Send, Respond(0, Unauthorized)] + [Respond(1, Unauthorized), Deliver(0), Send];
    var served := [Server(S.Check(p, true)), Server(S.Read(p)), Server(S.Store(p))];
    var stored := [Reply(0), Saved(0), Refreshed(0)];
    var settled := [Respond(0, Success), Respond(1, Success), Respond(2, OtherError)];
    BothUnauthorized(w, t);
    var w1 := Run(w, first);
    hide Run, Step, S.Step, S.Inv;
    ServerRotates(w1, w.server, p, t);
    var w2 := Run(w1, served);
    PairStored(w2, p, t, next);
    AllSettle(Run(w2, stored), t, next);
    actions := first + served + stored + settled;
    RunConcat(w, first, served);
    RunConcat(w, first + served, stored);
    RunConcat(w, first + served + stored, settled);
  }

  // And without an answer: the request fails, and the client is signed out.
  lemma LostRefreshSignsOut(w: World, t: Token)
    requires SignedIn(w, t)
    ensures var w' := Run(w, [Send, Respond(0, Unauthorized), Lose(0)] + [Saved(0), Refreshed(0), SignedOut(0)]);
            w' == w.(client := Client(false, [], None, None, [Request(Settled(false), 0, 0)], None, [t]))
  {
    hide Run, S.Inv;
    RunConcat(w, [Send, Respond(0, Unauthorized), Lose(0)], [Saved(0), Refreshed(0), SignedOut(0)]);
    RefreshLost(w, t);
    LostIsCleared(Run(w, [Send, Respond(0, Unauthorized), Lose(0)]), t);
  }

  lemma RefreshLost(w: World, t: Token)
    requires w.client == Client(false, [], Some(t), Some(t), [], None, [])
    ensures Run(w, [Send, Respond(0, Unauthorized), Lose(0)])
         == w.(client := Client(true, [], Some(t), Some(t), [Request(Leading(Clearing), 0, 0)], Some(0), [t]))
  {
    hide S.Step;
    RunThree(w, Send, Respond(0, Unauthorized), Lose(0));
    var w2 := Step(Step(w, Send), Respond(0, Unauthorized));
    assert w2.client.requests == [Request(Leading(Sent(t)), 0, 0)];
  }

  lemma LostIsCleared(w: World, t: Token)
    requires w.client == Client(true, [], Some(t), Some(t), [Request(Leading(Clearing), 0, 0)], Some(0), [t])
    ensures Run(w, [Saved(0), Refreshed(0), SignedOut(0)])
         == w.(client := Client(false, [], None, None, [Request(Settled(false), 0, 0)], None, [t]))
  {
    hide S.Step;
    RunThree(w, Saved(0), Refreshed(0), SignedOut(0));
    var w1 := Step(w, Saved(0));
    assert w1.client.requests == [Request(Leading(Returned(None)), 0, 0)];
    var w2 := Step(w1, Refreshed(0));
    assert w2.client.requests == [Request(Leading(SigningOut), 0, 0)];
  }

  // The module state of the API client with the token fields of the auth store.
  class ApiClient {
    var isRefreshing: bool
    var waiters: seq<ReqId>
    var refreshToken: Option<Token>
    var accessToken: Option<Token>
    var requests: seq<Request>
    ghost var leader: Option<ReqId>
    ghost var presented: seq<Token>

    ghost function Snapshot(): Client
      reads this
    {
      Client(isRefreshing, waiters, refreshToken, accessToken, requests, leader, presented)
    }

    // drainWaiters(token): each pending handler is called, once.
    method DrainWaiters(token: Option<Token>)
      requires QueueInv(Snapshot())
      modifies this`waiters, this`requests
      ensures waiters == [] && requests == Drained(old(requests), old(waiters), token)
      // With a token every queued request is sent again with it, and otherwise fails.
      ensures |requests| == |old(requests)|
      ensures forall i :: 0 <= i < |requests| && i in old(waiters) ==>
                var q := old(requests)[i];
                requests[i] == if token.Some? then Request(InFlight(true, token), q.replays + 1, q.callbacks + 1)
                               else Request(Settled(false), q.replays, q.callbacks + 1)
      ensures forall i :: 0 <= i < |requests| && i !in old(waiters) ==> requests[i] == old(requests)[i]
    {
      var pending := waiters;
      waiters := [];
      for k := 0 to |pending|
        invariant waiters == [] && |requests| == |old(requests)|
        invariant forall i :: 0 <= i < |requests| ==>
                    requests[i] == if i in pending[..k] then Answered(old(requests)[i], token) else old(requests)[i]
      {
        assert pending[..k + 1] == pending[..k] + [pending[k]];
        var r := pending[k];
        assert r !in pending[..k];
        requests := requests[r := Answered(requests[r], token)];
      }
      assert pending[..|pending|] == pending;
    }

    // The response interceptor: either settles the request, queues it behind the
    // running refresh, or starts one. The result says what is sent to refresh.
    method HandleResponse(r: ReqId, resp: Response) returns (present: Option<Token>)
      requires QueueInv(Snapshot()) && r < |requests| && requests[r].phase.InFlight?
      modifies this
      ensures Snapshot() == OnResponse(old(Snapshot()), r, resp) && QueueInv(Snapshot())
      ensures presented == old(presented) + if present.Some? then [present.value] else []
      // Any response but a first 401 settles the request.
      ensures !resp.Unauthorized? || old(requests)[r].phase.retried ==>
                && requests[r].phase == Settled(resp.Success?) && present == None
                && isRefreshing == old(isRefreshing) && waiters == old(waiters)
      // A first 401 queues it behind a running refresh,
      ensures resp.Unauthorized? && !old(requests)[r].phase.retried && old(isRefreshing) ==>
                && requests[r].phase == Waiting && present == None
                && isRefreshing && waiters == old(waiters) + [r]
      // or starts one with the stored token.
      ensures resp.Unauthorized? && !old(requests)[r].phase.retried && !old(isRefreshing) ==>
                && isRefreshing && waiters == old(waiters) && present == old(refreshToken)
                && requests[r].phase == Leading(if present.Some? then Sent(present.value) else Returned(None))
      ensures requests == old(requests)[r := old(requests)[r].(phase := requests[r].phase)]
      ensures refreshToken == old(refreshToken) && accessToken == old(accessToken)
    {
      ResponseKeepsQueue(Snapshot(), r, resp);
      present := None;
      if !resp.Unauthorized? || requests[r].phase.retried {
        requests := requests[r := requests[r].(phase := Settled(resp.Success?))];
        return;
      }
      if isRefreshing {
        requests := requests[r := requests[r].(phase := Waiting)];
        waiters := waiters + [r];
        return;
      }
      isRefreshing := true;
      leader := Some(r);
      if refreshToken.None? {
        requests := requests[r := requests[r].(phase := Leading(Returned(None)))];
        return;
      }
      present := refreshToken;
      presented := presented + [refreshToken.value];
      requests := requests[r := requests[r].(phase := Leading(Sent(refreshToken.value)))];
    }

    // refresh() of the auth store, after the secure store was written.
    method StoreTokens(r: ReqId, pair: Option<Token>)
      requires r < |requests|
      requires requests[r].phase == Leading(if pair.Some? then Saving(pair.value) else Clearing)
      modifies this`refreshToken, this`accessToken, this`requests
      ensures Snapshot() == OnSaved(old(Snapshot()), r)
      ensures refreshToken == accessToken == pair
      ensures requests == old(requests)[r := old(requests)[r].(phase := Leading(Returned(pair)))]
    {
      refreshToken, accessToken := pair, pair;
      requests := requests[r := requests[r].(phase := Leading(Returned(pair)))];
    }

    // The interceptor resumes: drains the queue, then replays its own request and
    // lets go of isRefreshing, or goes on to sign out.
    method ResumeAfterRefresh(r: ReqId)
      requires QueueInv(Snapshot()) && LeadingAt(Snapshot(), r) && requests[r].phase.stage.Returned?
      modifies this
      ensures Snapshot() == OnRefreshed(old(Snapshot()), r) && QueueInv(Snapshot())
      ensures |requests| == |old(requests)| && waiters == []
      ensures refreshToken == old(refreshToken) && accessToken == old(accessToken) && presented == old(presented)
      // The new token goes to every queued request and to the leader, each sent once
      // more; without one the queue fails and the leader goes on to sign out.
      ensures var token := old(requests)[r].phase.stage.result;
              && isRefreshing == token.None?
              && (forall i :: 0 <= i < |requests| ==>
                    var q := old(requests)[i];
                    requests[i] ==
                      if i == r && token.Some? then Request(InFlight(true, token), q.replays + 1, q.callbacks)
                      else if i == r then Request(Leading(SigningOut), q.replays, q.callbacks)
                      else if i !in old(waiters) then q
                      else if token.Some? then Request(InFlight(true, token), q.replays + 1, q.callbacks + 1)
                      else Request(Settled(false), q.replays, q.callbacks + 1))
    {
      RefreshedKeepsQueue(Snapshot(), r);
      var newToken := requests[r].phase.stage.result;
      DrainWaiters(newToken);
      if newToken.None? {
        requests := requests[r := requests[r].(phase := Leading(SigningOut))];
        return;
      }
      requests := requests[r := Request(InFlight(true, newToken), requests[r].replays + 1, requests[r].callbacks)];
      isRefreshing := false;
      leader := None;
    }

    // signOut() has run as onAuthFailure(); the finally block follows.
    method FinishSignOut(r: ReqId)
      requires QueueInv(Snapshot()) && r < |requests| && requests[r].phase == Leading(SigningOut)
      modifies this
      ensures Snapshot() == OnSignedOut(old(Snapshot()), r) && QueueInv(Snapshot())
      ensures refreshToken == accessToken == None && !isRefreshing && waiters == old(waiters)
      ensures requests == old(requests)[r := old(requests)[r].(phase := Settled(false))]
    {
      SignedOutKeepsQueue(Snapshot(), r);
      refreshToken, accessToken := None, None;
      requests := requests[r := requests[r].(phase := Settled(false))];
      isRefreshing := false;
      leader := None;
    }
  }
}
