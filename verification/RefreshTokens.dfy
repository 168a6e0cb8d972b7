// Refresh-token rotation on the server. Every Redis command of a login, refresh,
// logout or password change is one step, and requests interleave freely.
module RefreshTokens {
  import opened Wrappers

  // Tokens are fresh values; a chain is one login and the refreshes after it.
  type User = nat
  type Token = nat
  type Chain = nat
  type Pid = nat

  // The payload stored under a token, with the chain it belongs to and the
  // number of INCRs of any pw_v that preceded its read of pw_v.
  datatype Record = Record(user: User, pwv: nat, chain: Chain, readAt: nat)

  // A request between two Redis commands.
  datatype Proc =
    | Checking(token: Token, rec: Record)                // GETDEL returned rec, pw_v not read yet
    | Reading(user: User, chain_: Chain, token: Token)   // issuing `token`, about to read pw_v
    | Storing(token: Token, rec: Record)                 // about to SET the token

  // Where a chain was last seen: its live token, or the request that took it.
  datatype Place = InStore(token: Token) | InRequest(p: Pid)

  // The outcome of one pw_v comparison, made after `at` INCRs.
  datatype Verdict = Verdict(token: Token, rec: Record, at: nat, accepted: bool)

  datatype State = State(
    live: map<Token, Record>,
    pwv: map<User, nat>,
    procs: map<Pid, Proc>,
    results: map<Pid, Option<Token>>,   // finished logins and refreshes
    nextPid: Pid,
    issuers: seq<Pid>,                  // the request that generated each token
    places: seq<Place>,                 // the place of each chain
    bumps: seq<User>,                   // every INCR of a pw_v, in order
    redeemed: seq<Token>,               // every token a GETDEL returned
    verdicts: seq<Verdict>)

  datatype Action =
    | Login(user: User)                   // credentials verified; starts a chain
    | GetDel(token: Token)                // a refresh arrives
    | Check(p: Pid, active: bool)         // reads pw_v, then the user row
    | Read(p: Pid)
    | Store(p: Pid)
    | Del(token: Token)                   // logout
    | Bump(user: User)                    // the INCR of a password change or reset
    | Lapse(token: Token)                 // a token's TTL runs out

  function Init(): State {
    State(map[], map[], map[], map[], 0, [], [], [], [], [])
  }

  function PwVersion(s: State, u: User): nat {
    if u in s.pwv then s.pwv[u] else 0
  }

  function Moved(places: seq<Place>, c: Chain, to: Place): seq<Place> {
    if c < |places| then places[c := to] else places
  }

  function Step(s: State, a: Action): State {
    match a
    case Login(u) =>
      s.(procs := s.procs[s.nextPid := Reading(u, |s.places|, |s.issuers|)], nextPid := s.nextPid + 1,
         issuers := s.issuers + [s.nextPid], places := s.places + [InRequest(s.nextPid)])
    case GetDel(t) =>
      if t in s.live then
        s.(live := s.live - {t}, procs := s.procs[s.nextPid := Checking(t, s.live[t])], nextPid := s.nextPid + 1,
           places := Moved(s.places, s.live[t].chain, InRequest(s.nextPid)), redeemed := s.redeemed + [t])
      else s.(results := s.results[s.nextPid := None], nextPid := s.nextPid + 1)
    case Check(p, active) =>
      if p in s.procs && s.procs[p].Checking? then
        var rec := s.procs[p].rec;
        var ok := rec.pwv == PwVersion(s, rec.user);
        var s' := s.(verdicts := s.verdicts + [Verdict(s.procs[p].token, rec, |s.bumps|, ok)]);
        if ok && active then
          s'.(procs := s.procs[p := Reading(rec.user, rec.chain, |s.issuers|)], issuers := s.issuers + [p])
        else s'.(procs := s.procs - {p}, results := s.results[p := None])
      else s
    case Read(p) =>
      if p in s.procs && s.procs[p].Reading? then
        var r := s.procs[p];
        s.(procs := s.procs[p := Storing(r.token, Record(r.user, PwVersion(s, r.user), r.chain_, |s.bumps|))])
      else s
    case Store(p) =>
      if p in s.procs && s.procs[p].Storing? then
        var r := s.procs[p];
        s.(live := s.live[r.token := r.rec], procs := s.procs - {p},
           places := Moved(s.places, r.rec.chain, InStore(r.token)), results := s.results[p := Some(r.token)])
      else s
    case Del(t) => s.(live := s.live - {t})
    case Bump(u) => s.(pwv := s.pwv[u := PwVersion(s, u) + 1], bumps := s.bumps + [u])
    case Lapse(t) => s.(live := s.live - {t})
  }

  function Run(s: State, actions: seq<Action>): State
    decreases |actions|
  {
    if actions == [] then s else Run(Step(s, actions[0]), actions[1..])
  }

  function ChainOf(p: Proc): Chain {
    if p.Reading? then p.chain_ else p.rec.chain
  }

  // ---------------------------------------------------------------- counting INCRs

  function Bumps(u: User, bumps: seq<User>): nat {
    if bumps == [] then 0
    else Bumps(u, bumps[..|bumps| - 1]) + if bumps[|bumps| - 1] == u then 1 else 0
  }

  lemma {:induction false} BumpsSplit(u: User, a: seq<User>, b: seq<User>)
    ensures Bumps(u, a + b) == Bumps(u, a) + Bumps(u, b)
    decreases |b|
  {
    if b == [] {
      assert a + b == a;
    } else {
      var b' := b[..|b| - 1];
      assert (a + b)[..|a + b| - 1] == a + b';
      BumpsSplit(u, a, b');
    }
  }

  lemma {:induction false} BumpsZero(u: User, bumps: seq<User>)
    ensures Bumps(u, bumps) == 0 <==> u !in bumps
    decreases |bumps|
  {
    if bumps != [] {
      BumpsZero(u, bumps[..|bumps| - 1]);
      assert bumps == bumps[..|bumps| - 1] + [bumps[|bumps| - 1]];
    }
  }

  // ---------------------------------------------------------------- the invariant

  // Tokens in issue, live and redeemed are kept apart, and whatever holds a
  // chain is at the chain's one place.
  ghost predicate HoldersApart(s: State) {
    && (forall t :: t in s.live ==> t < |s.issuers| && t !in s.redeemed && At(s, s.live[t].chain, InStore(t)))
    && (forall i :: 0 <= i < |s.redeemed| ==> s.redeemed[i] < |s.issuers|)
    && (forall i, j :: 0 <= i < j < |s.redeemed| ==> s.redeemed[i] != s.redeemed[j])
    && (forall p :: p in s.procs ==> p < s.nextPid && At(s, ChainOf(s.procs[p]), InRequest(p)))
    && (forall p :: p in s.procs && !s.procs[p].Checking? ==> InIssue(s, p, s.procs[p].token))
    && (forall p :: p in s.results ==> p < s.nextPid && p !in s.procs)
  }

  ghost predicate At(s: State, c: Chain, place: Place) {
    c < |s.places| && s.places[c] == place
  }

  ghost predicate InIssue(s: State, p: Pid, t: Token) {
    t < |s.issuers| && s.issuers[t] == p && t !in s.live && t !in s.redeemed
  }

  ghost predicate Dated(s: State, rec: Record) {
    rec.readAt <= |s.bumps| && rec.pwv == Bumps(rec.user, s.bumps[..rec.readAt])
  }

  ghost predicate VersionsDated(s: State) {
    && (forall u :: PwVersion(s, u) == Bumps(u, s.bumps))
    && (forall t :: t in s.live ==> Dated(s, s.live[t]))
    && (forall p :: p in s.procs && !s.procs[p].Reading? ==> Dated(s, s.procs[p].rec))
    && (forall i :: 0 <= i < |s.verdicts| ==> VerdictSound(s, s.verdicts[i]))
  }

  // Accepted exactly when the user's pw_v was not incremented between the read
  // at the token's issue and the read at its check.
  ghost predicate VerdictSound(s: State, v: Verdict) {
    && v.rec.readAt <= v.at <= |s.bumps|
    && (v.accepted <==> v.rec.user !in s.bumps[v.rec.readAt..v.at])
  }

  ghost predicate Inv(s: State) {
    HoldersApart(s) && VersionsDated(s)
  }

  lemma GetDelKeepsHolders(s: State, t: Token)
    requires HoldersApart(s)
    ensures HoldersApart(Step(s, GetDel(t)))
  {
    if t in s.live {
      var s' := Step(s, GetDel(t));
      var chain := s.live[t].chain;
      assert At(s, chain, InStore(t));
      forall u | u in s'.live ensures At(s', s'.live[u].chain, InStore(u)) && u !in s'.redeemed {
        assert At(s, s.live[u].chain, InStore(u));
      }
      forall p | p in s'.procs ensures At(s', ChainOf(s'.procs[p]), InRequest(p)) {
        assert p in s.procs ==> At(s, ChainOf(s.procs[p]), InRequest(p));
      }
      forall p | p in s'.procs && !s'.procs[p].Checking? ensures InIssue(s', p, s'.procs[p].token) {
        assert InIssue(s, p, s.procs[p].token);
      }
    }
  }

  lemma CheckKeepsHolders(s: State, p: Pid, active: bool)
    requires HoldersApart(s)
    ensures HoldersApart(Step(s, Check(p, active)))
  {
  }

  lemma StoreKeepsHolders(s: State, p: Pid)
    requires HoldersApart(s)
    ensures HoldersApart(Step(s, Store(p)))
  {
    if p in s.procs && s.procs[p].Storing? {
      var s' := Step(s, Store(p));
      assert At(s, ChainOf(s.procs[p]), InRequest(p)) && InIssue(s, p, s.procs[p].token);
      StoredPlaces(s, p);
      forall q | q in s'.procs && !s'.procs[q].Checking? ensures InIssue(s', q, s'.procs[q].token) {
        assert InIssue(s, q, s.procs[q].token);
      }
      hide At, InIssue;
    }
  }

  lemma StoredPlaces(s: State, p: Pid)
    requires p in s.procs && s.procs[p].Storing? && At(s, ChainOf(s.procs[p]), InRequest(p))
    requires forall t :: t in s.live ==> At(s, s.live[t].chain, InStore(t))
    requires forall q :: q in s.procs ==> At(s, ChainOf(s.procs[q]), InRequest(q))
    ensures var s' := Step(s, Store(p));
            && (forall t :: t in s'.live ==> At(s', s'.live[t].chain, InStore(t)))
            && (forall q :: q in s'.procs ==> At(s', ChainOf(s'.procs[q]), InRequest(q)))
  {
  }

  lemma LoginKeepsHolders(s: State, u: User)
    requires HoldersApart(s)
    ensures HoldersApart(Step(s, Login(u)))
  {
  }

  lemma ReadKeepsHolders(s: State, p: Pid)
    requires HoldersApart(s)
    ensures HoldersApart(Step(s, Read(p)))
  {
  }

  lemma DropKeepsHolders(s: State, a: Action)
    requires HoldersApart(s) && (a.Del? || a.Lapse? || a.Bump?)
    ensures HoldersApart(Step(s, a))
  {
  }

  lemma StepKeepsHolders(s: State, a: Action)
    requires HoldersApart(s)
    ensures HoldersApart(Step(s, a))
  {
    hide Step, HoldersApart;
    match a
    case GetDel(t) => GetDelKeepsHolders(s, t);
    case Check(p, active) => CheckKeepsHolders(s, p, active);
    case Store(p) => StoreKeepsHolders(s, p);
    case Login(u) => LoginKeepsHolders(s, u);
    case Read(p) => ReadKeepsHolders(s, p);
    case Del(_) => DropKeepsHolders(s, a);
    case Lapse(_) => DropKeepsHolders(s, a);
    case Bump(_) => DropKeepsHolders(s, a);
  }

  lemma VerdictIsSound(s: State, rec: Record)
    requires Dated(s, rec) && PwVersion(s, rec.user) == Bumps(rec.user, s.bumps)
    ensures rec.pwv == PwVersion(s, rec.user) <==> rec.user !in s.bumps[rec.readAt..]
  {
    assert s.bumps == s.bumps[..rec.readAt] + s.bumps[rec.readAt..];
    BumpsSplit(rec.user, s.bumps[..rec.readAt], s.bumps[rec.readAt..]);
    BumpsZero(rec.user, s.bumps[rec.readAt..]);
  }

  lemma BumpKeepsVersions(s: State, u: User)
    requires VersionsDated(s)
    ensures VersionsDated(Step(s, Bump(u)))
  {
    var s' := Step(s, Bump(u));
    assert s'.bumps[..|s.bumps|] == s.bumps;
    forall r: nat | r <= |s.bumps| ensures s'.bumps[..r] == s.bumps[..r] {
    }
    forall i | 0 <= i < |s.verdicts| ensures VerdictSound(s', s'.verdicts[i]) {
      var v := s.verdicts[i];
      assert VerdictSound(s, v);
      assert s'.bumps[v.rec.readAt..v.at] == s.bumps[v.rec.readAt..v.at];
    }
  }

  lemma CheckKeepsVersions(s: State, p: Pid, active: bool)
    requires VersionsDated(s)
    ensures VersionsDated(Step(s, Check(p, active)))
  {
    if p in s.procs && s.procs[p].Checking? {
      var rec := s.procs[p].rec;
      VerdictIsSound(s, rec);
      assert s.bumps[rec.readAt..|s.bumps|] == s.bumps[rec.readAt..];
    }
  }

  lemma SameBumps(s: State, s': State)
    requires s.bumps == s'.bumps
    ensures forall rec :: Dated(s, rec) <==> Dated(s', rec)
    ensures forall v :: VerdictSound(s, v) <==> VerdictSound(s', v)
  {
  }

  lemma ReadNow(s: State, u: User, c: Chain)
    requires PwVersion(s, u) == Bumps(u, s.bumps)
    ensures Dated(s, Record(u, PwVersion(s, u), c, |s.bumps|))
  {
    assert s.bumps[..|s.bumps|] == s.bumps;
  }

  lemma ReadKeepsVersions(s: State, p: Pid)
    requires VersionsDated(s)
    ensures VersionsDated(Step(s, Read(p)))
  {
    if p in s.procs && s.procs[p].Reading? {
      ReadNow(s, s.procs[p].user, s.procs[p].chain_);
    }
    SameBumps(s, Step(s, Read(p)));
    hide Dated, VerdictSound;
  }

  lemma OtherKeepsVersions(s: State, a: Action)
    requires VersionsDated(s) && !a.Bump? && !a.Check? && !a.Read?
    ensures VersionsDated(Step(s, a))
  {
    hide Dated, VerdictSound;
    SameBumps(s, Step(s, a));
  }

  lemma {:induction false} RunKeepsInv(s: State, actions: seq<Action>)
    requires Inv(s)
    ensures Inv(Run(s, actions))
    decreases |actions|
  {
    hide Step, HoldersApart, VersionsDated;
    if actions != [] {
      StepKeepsHolders(s, actions[0]);
      match actions[0] {
        case Bump(u) => BumpKeepsVersions(s, u);
        case Check(p, active) => CheckKeepsVersions(s, p, active);
        case Read(p) => ReadKeepsVersions(s, p);
        case _ => OtherKeepsVersions(s, actions[0]);
      }
      RunKeepsInv(Step(s, actions[0]), actions[1..]);
    }
  }

  lemma InitInv()
    ensures Inv(Init())
  {
  }

  // Over every interleaving: a token is redeemed at most once and is dead from
  // then on, a chain has at most one live token and none while a request holds
  // the chain, and every pw_v comparison decides exactly as VerdictSound says.
  lemma RotationSafety(actions: seq<Action>)
    ensures var s := Run(Init(), actions);
            && (forall i, j :: 0 <= i < j < |s.redeemed| ==> s.redeemed[i] != s.redeemed[j])
            && (forall i :: 0 <= i < |s.redeemed| ==> s.redeemed[i] !in s.live)
            && (forall t, u :: t in s.live && u in s.live && s.live[t].chain == s.live[u].chain ==> t == u)
            && (forall t, p :: t in s.live && p in s.procs ==> s.live[t].chain != ChainOf(s.procs[p]))
            && (forall i :: 0 <= i < |s.verdicts| ==> VerdictSound(s, s.verdicts[i]))
  {
    InitInv();
    RunKeepsInv(Init(), actions);
    var s := Run(Init(), actions);
    forall i | 0 <= i < |s.redeemed| ensures s.redeemed[i] !in s.live {
      assert s.redeemed[i] in s.redeemed;
    }
    forall t, u | t in s.live && u in s.live && s.live[t].chain == s.live[u].chain ensures t == u {
      assert At(s, s.live[t].chain, InStore(t)) && At(s, s.live[u].chain, InStore(u));
    }
    forall t, p | t in s.live && p in s.procs ensures s.live[t].chain != ChainOf(s.procs[p]) {
      assert At(s, s.live[t].chain, InStore(t)) && At(s, ChainOf(s.procs[p]), InRequest(p));
    }
  }

  // A password change that lands after a refresh has compared pw_v but before it
  // reads pw_v again does not end the chain: the new token carries the new
  // version and will be accepted. So the rule is about the read at issue time.
  lemma ChainOutlivesPasswordChange(s: State, t: Token)
    requires Inv(s) && t in s.live && s.live[t].pwv == PwVersion(s, s.live[t].user)
    ensures var u := s.live[t].user; var p := s.nextPid; var next := |s.issuers|;
            var s' := Step(Step(Step(Step(Step(s, GetDel(t)), Check(p, true)), Bump(u)), Read(p)), Store(p));
            && next in s'.live && s'.live[next].user == u && s'.live[next].chain == s.live[t].chain
            && s'.bumps == s.bumps + [u] && s'.live[next].pwv == PwVersion(s', u)
  {
  }

  // ---------------------------------------------------------------- atomic requests

  datatype Request =
    | LoginRequest(user: User)
    | RefreshRequest(token: Token, active: bool)
    | LogoutRequest(token: Token)
    | PasswordChange(user: User)
    | Expiry(token: Token)

  // A request with nobody in between. Steps that do not apply do nothing.
  function Serve(s: State, r: Request): State {
    match r
    case LoginRequest(u) => Step(Step(Step(s, Login(u)), Read(s.nextPid)), Store(s.nextPid))
    case RefreshRequest(t, active) =>
      Step(Step(Step(Step(s, GetDel(t)), Check(s.nextPid, active)), Read(s.nextPid)), Store(s.nextPid))
    case LogoutRequest(t) => Step(s, Del(t))
    case PasswordChange(u) => Step(s, Bump(u))
    case Expiry(t) => Step(s, Lapse(t))
  }

  function ServeAll(s: State, rs: seq<Request>): State
    decreases |rs|
  {
    if rs == [] then s else ServeAll(Serve(s, rs[0]), rs[1..])
  }

  lemma StepKeepsInv(s: State, a: Action)
    requires Inv(s)
    ensures Inv(Step(s, a))
  {
    assert [a][1..] == [] && Run(s, [a]) == Run(Step(s, a), []);
    RunKeepsInv(s, [a]);
  }

  lemma ServeKeepsInv(s: State, r: Request)
    requires Inv(s)
    ensures Inv(Serve(s, r))
  {
    hide Step, Inv;
    var p := s.nextPid;
    match r
    case LoginRequest(u) =>
      StepKeepsInv(s, Login(u));
      StepKeepsInv(Step(s, Login(u)), Read(p));
      StepKeepsInv(Step(Step(s, Login(u)), Read(p)), Store(p));
    case RefreshRequest(t, active) =>
      StepKeepsInv(s, GetDel(t));
      StepKeepsInv(Step(s, GetDel(t)), Check(p, active));
      StepKeepsInv(Step(Step(s, GetDel(t)), Check(p, active)), Read(p));
      StepKeepsInv(Step(Step(Step(s, GetDel(t)), Check(p, active)), Read(p)), Store(p));
    case LogoutRequest(t) => StepKeepsInv(s, Del(t));
    case PasswordChange(u) => StepKeepsInv(s, Bump(u));
    case Expiry(t) => StepKeepsInv(s, Lapse(t));
  }

  // What a whole request does to the store and to its caller.
  lemma LoginServed(s: State, u: User)
    ensures var s' := Serve(s, LoginRequest(u));
            && s'.live == s.live[|s.issuers| := Record(u, PwVersion(s, u), |s.places|, |s.bumps|)]
            && |s'.issuers| == |s.issuers| + 1 && s'.pwv == s.pwv && s'.bumps == s.bumps
  {
  }

  lemma RefreshServed(s: State, t: Token, active: bool)
    requires forall p :: p in s.procs ==> p < s.nextPid
    ensures var s' := Serve(s, RefreshRequest(t, active));
            var ok := t in s.live && s.live[t].pwv == PwVersion(s, s.live[t].user) && active;
            && s'.pwv == s.pwv && s'.bumps == s.bumps && |s'.issuers| == |s.issuers| + (if ok then 1 else 0)
            && (ok ==> s'.live == (s.live - {t})[|s.issuers| :=
                   Record(s.live[t].user, PwVersion(s, s.live[t].user), s.live[t].chain, |s.bumps|)])
            && (!ok ==> s'.live == s.live - {t})
            && s.nextPid in s'.results && s'.results[s.nextPid] == if ok then Some(|s.issuers|) else None
  {
  }

  // Tokens below n carry reads made before the m-th INCR.
  ghost predicate OldReads(s: State, n: nat, m: nat) {
    && n <= |s.issuers| && m <= |s.bumps|
    && forall t :: t in s.live && t < n ==> s.live[t].readAt <= m
  }

  lemma {:induction false} OldReadsStay(s: State, rs: seq<Request>, n: nat, m: nat)
    requires Inv(s) && OldReads(s, n, m)
    ensures Inv(ServeAll(s, rs)) && OldReads(ServeAll(s, rs), n, m) && s.bumps <= ServeAll(s, rs).bumps
    decreases |rs|
  {
    hide Inv;
    if rs != [] {
      var s' := Serve(s, rs[0]);
      ServeKeepsInv(s, rs[0]);
      OneRequestKeepsOldReads(s, rs[0], n, m);
      OldReadsStay(s', rs[1..], n, m);
    }
  }

  lemma OneRequestKeepsOldReads(s: State, r: Request, n: nat, m: nat)
    requires Inv(s) && OldReads(s, n, m)
    ensures OldReads(Serve(s, r), n, m) && s.bumps <= Serve(s, r).bumps
  {
    hide Step, VersionsDated;
    match r
    case LoginRequest(u) => LoginServed(s, u);
    case RefreshRequest(t, active) => RefreshServed(s, t, active);
    case LogoutRequest(t) => DropEffect(s, Del(t));
    case PasswordChange(u) => DropEffect(s, Bump(u));
    case Expiry(t) => DropEffect(s, Lapse(t));
  }

  lemma DropEffect(s: State, a: Action)
    requires a.Del? || a.Lapse? || a.Bump?
    ensures Step(s, a).live.Keys <= s.live.Keys && Step(s, a).issuers == s.issuers && s.bumps <= Step(s, a).bumps
    ensures forall t :: t in Step(s, a).live ==> Step(s, a).live[t] == s.live[t]
  {
  }

  lemma OldTokenRefused(s: State, n: nat, m: nat, t: Token, active: bool)
    requires Inv(s) && OldReads(s, n, m)
    requires t < n && t in s.live && m < |s.bumps| && s.bumps[m] == s.live[t].user
    ensures var s' := Serve(s, RefreshRequest(t, active)); s.nextPid in s'.results && s'.results[s.nextPid] == None
  {
    hide Serve;
    var rec := s.live[t];
    assert s.bumps[rec.readAt..][m - rec.readAt] == rec.user;
    VerdictIsSound(s, rec);
    RefreshServed(s, t, active);
  }

  lemma ChangeDatesOldReads(s: State, u: User)
    requires Inv(s)
    ensures var s' := Serve(s, PasswordChange(u));
            Inv(s') && OldReads(s', |s.issuers|, |s.bumps|) && |s.bumps| < |s'.bumps| && s'.bumps[|s.bumps|] == u
  {
    ServeKeepsInv(s, PasswordChange(u));
  }

  // With atomic requests: no refresh token issued before a password change is
  // accepted after it, whatever happens before, in between and afterwards.
  lemma NoOldTokenAfterPasswordChange(before: seq<Request>, u: User, after: seq<Request>, t: Token, active: bool)
    ensures var s1 := ServeAll(Init(), before);
            var s2 := ServeAll(Serve(s1, PasswordChange(u)), after);
            t < |s1.issuers| && t in s2.live && s2.live[t].user == u ==>
              s2.nextPid in Serve(s2, RefreshRequest(t, active)).results
              && Serve(s2, RefreshRequest(t, active)).results[s2.nextPid] == None
  {
    InitInv();
    OldReadsStay(Init(), before, 0, 0);
    hide Inv, Serve;
    var s1 := ServeAll(Init(), before);
    ChangeDatesOldReads(s1, u);
    var changed := Serve(s1, PasswordChange(u));
    OldReadsStay(changed, after, |s1.issuers|, |s1.bumps|);
    var s2 := ServeAll(changed, after);
    if t < |s1.issuers| && t in s2.live && s2.live[t].user == u {
      OldTokenRefused(s2, |s1.issuers|, |s1.bumps|, t, active);
    }
  }

  // A login and two refreshes leave one live token; a password change in between
  // leaves none.
  lemma RotatesUntilChanged(u: User)
    ensures var s := ServeAll(Init(), [LoginRequest(u), RefreshRequest(0, true), RefreshRequest(1, true)]);
            s.live == map[2 := Record(u, 0, 0, 0)]
    ensures ServeAll(Init(), [LoginRequest(u), PasswordChange(u), RefreshRequest(0, true)]).live == map[]
  {
    hide Serve, ServeAll;
    ServeThree(Init(), LoginRequest(u), RefreshRequest(0, true), RefreshRequest(1, true));
    ServeThree(Init(), LoginRequest(u), PasswordChange(u), RefreshRequest(0, true));
    var s := Serve(Init(), LoginRequest(u));
    FirstLogin(u);
    RefreshGood(s, 0);
    RefreshGood(Serve(s, RefreshRequest(0, true)), 1);
    ChangeServed(s, u);
    RefreshServed(Serve(s, PasswordChange(u)), 0, true);
  }

  lemma FirstLogin(u: User)
    ensures var s := Serve(Init(), LoginRequest(u));
            s.live == map[0 := Record(u, 0, 0, 0)] && s.procs == map[] && |s.issuers| == 1
            && s.pwv == map[] && s.bumps == []
  {
  }

  lemma RefreshGood(s: State, t: Token)
    requires s.procs == map[] && t in s.live && s.live[t].pwv == PwVersion(s, s.live[t].user)
    ensures var s' := Serve(s, RefreshRequest(t, true));
            && s'.procs == map[] && s'.pwv == s.pwv && s'.bumps == s.bumps && |s'.issuers| == |s.issuers| + 1
            && s'.live == (s.live - {t})[|s.issuers| :=
                 Record(s.live[t].user, PwVersion(s, s.live[t].user), s.live[t].chain, |s.bumps|)]
  {
    RefreshServed(s, t, true);
  }

  lemma ChangeServed(s: State, u: User)
    ensures var s' := Serve(s, PasswordChange(u));
            s'.live == s.live && s'.procs == s.procs && PwVersion(s', u) == PwVersion(s, u) + 1
  {
  }

  lemma ServeThree(s: State, a: Request, b: Request, c: Request)
    ensures ServeAll(s, [a, b, c]) == Serve(Serve(Serve(s, a), b), c)
  {
    hide Serve;
    assert [a, b, c][1..] == [b, c] && [b, c][1..] == [c] && [c][1..] == [];
    var s1 := Serve(s, a);
    var s2 := Serve(s1, b);
    assert ServeAll(s2, [c]) == ServeAll(Serve(s2, c), []);
    assert ServeAll(s1, [b, c]) == ServeAll(s2, [c]);
    assert ServeAll(s, [a, b, c]) == ServeAll(s1, [b, c]);
  }
}
