// Which login chains a password change ends, when requests interleave.
module PasswordChange {
  import opened Wrappers
  import opened RefreshTokens

  // The chain's live token and its request, if any, are the user's.
  ghost predicate OwnedBy(s: State, c: Chain, u: User) {
    && (forall t :: t in s.live && s.live[t].chain == c ==> s.live[t].user == u)
    && (forall p :: p in s.procs && ChainOf(s.procs[p]) == c ==>
          if s.procs[p].Reading? then s.procs[p].user == u else s.procs[p].rec.user == u)
  }

  // A login past its credentials, or a refresh past its check, has yet to read
  // the pw_v that it will store with the chain's next token.
  ghost predicate AboutToRead(s: State, c: Chain) {
    exists p :: p in s.procs && s.procs[p].Reading? && s.procs[p].chain_ == c
  }

  // Of the pw_v comparisons from the n-th on, none accepts a token of the chain.
  ghost predicate NoneAccepted(s: State, n: nat, c: Chain) {
    forall i :: n <= i < |s.verdicts| && s.verdicts[i].rec.chain == c ==> !s.verdicts[i].accepted
  }

  // Whatever the chain still has carries a read from before the m-th INCR.
  ghost predicate HeldFromBefore(s: State, c: Chain, u: User, m: nat) {
    && c < |s.places|
    && (forall t :: t in s.live && s.live[t].chain == c ==> s.live[t].user == u && s.live[t].readAt <= m)
    && (forall p :: p in s.procs && ChainOf(s.procs[p]) == c ==>
          !s.procs[p].Reading? && s.procs[p].rec.user == u && s.procs[p].rec.readAt <= m)
  }

  // The chain's owner had his m-th INCR, and nothing of the chain passed a check.
  ghost predicate Ended(s: State, c: Chain, u: User, m: nat, n: nat) {
    && Inv(s) && HeldFromBefore(s, c, u, m)
    && m < |s.bumps| && s.bumps[m] == u
    && n <= |s.verdicts| && NoneAccepted(s, n, c)
  }

  lemma OtherKeepsHeld(s: State, a: Action, c: Chain, u: User, m: nat)
    requires HeldFromBefore(s, c, u, m) && !a.Check?
    ensures HeldFromBefore(Step(s, a), c, u, m) && Step(s, a).verdicts == s.verdicts && s.bumps <= Step(s, a).bumps
  {
  }

  lemma CheckRefuses(s: State, p: Pid, u: User, m: nat)
    requires Inv(s) && m < |s.bumps| && s.bumps[m] == u
    requires p in s.procs && s.procs[p].Checking? && s.procs[p].rec.user == u && s.procs[p].rec.readAt <= m
    ensures s.procs[p].rec.pwv != PwVersion(s, u)
  {
    var rec := s.procs[p].rec;
    assert Dated(s, rec);
    VerdictIsSound(s, rec);
    assert s.bumps[rec.readAt..][m - rec.readAt] == u;
  }

  lemma CheckKeepsHeld(s: State, p: Pid, active: bool, c: Chain, u: User, m: nat, n: nat)
    requires HeldFromBefore(s, c, u, m) && n <= |s.verdicts| && NoneAccepted(s, n, c)
    requires p in s.procs && s.procs[p].Checking? && s.procs[p].rec.chain == c ==> s.procs[p].rec.pwv != PwVersion(s, u)
    ensures var s' := Step(s, Check(p, active));
            HeldFromBefore(s', c, u, m) && n <= |s'.verdicts| && NoneAccepted(s', n, c) && s'.bumps == s.bumps
  {
  }

  lemma StepKeepsEnded(s: State, a: Action, c: Chain, u: User, m: nat, n: nat)
    requires Ended(s, c, u, m, n)
    ensures Ended(Step(s, a), c, u, m, n)
  {
    hide Step, Inv;
    StepKeepsInv(s, a);
    if a.Check? {
      if a.p in s.procs && s.procs[a.p].Checking? && s.procs[a.p].rec.chain == c {
        CheckRefuses(s, a.p, u, m);
      }
      CheckKeepsHeld(s, a.p, a.active, c, u, m, n);
    } else {
      OtherKeepsHeld(s, a, c, u, m);
    }
  }

  lemma {:induction false} RunKeepsEnded(s: State, actions: seq<Action>, c: Chain, u: User, m: nat, n: nat)
    requires Ended(s, c, u, m, n)
    ensures Ended(Run(s, actions), c, u, m, n)
    decreases |actions|
  {
    hide Ended, Step;
    if actions != [] {
      StepKeepsEnded(s, actions[0], c, u, m, n);
      RunKeepsEnded(Step(s, actions[0]), actions[1..], c, u, m, n);
    }
  }

  lemma ReadsPast(s: State)
    requires Inv(s)
    ensures forall t :: t in s.live ==> s.live[t].readAt <= |s.bumps|
    ensures forall p :: p in s.procs && !s.procs[p].Reading? ==> s.procs[p].rec.readAt <= |s.bumps|
  {
    forall t | t in s.live ensures s.live[t].readAt <= |s.bumps| {
      assert Dated(s, s.live[t]);
    }
    forall p | p in s.procs && !s.procs[p].Reading? ensures s.procs[p].rec.readAt <= |s.bumps| {
      assert Dated(s, s.procs[p].rec);
    }
  }

  lemma ChangeEnds(s: State, c: Chain, u: User)
    requires Inv(s) && c < |s.places| && OwnedBy(s, c, u) && !AboutToRead(s, c)
    ensures Ended(Step(s, Bump(u)), c, u, |s.bumps|, |s.verdicts|)
  {
    ReadsPast(s);
    StepKeepsInv(s, Bump(u));
    hide Inv;
    assert Step(s, Bump(u)).bumps[|s.bumps|] == u;
  }

  // A request that reads now stores a token under the current version.
  lemma ReadStored(s: State, p: Pid)
    requires p in s.procs && s.procs[p].Reading?
    ensures var r, s' := s.procs[p], Step(Step(s, Read(p)), Store(p));
            && r.token in s'.live
            && s'.live[r.token] == Record(r.user, PwVersion(s, r.user), r.chain_, |s.bumps|)
            && s'.pwv == s.pwv && s'.nextPid == s.nextPid && s'.verdicts == s.verdicts
  {
  }

  lemma CurrentAccepted(s: State, t: Token)
    requires t in s.live && s.live[t].pwv == PwVersion(s, s.live[t].user)
    ensures var s' := Step(Step(s, GetDel(t)), Check(s.nextPid, true));
            s'.verdicts == s.verdicts + [Verdict(t, s.live[t], |s.bumps|, true)]
  {
  }

  // The request reads, stores, and the token it stored is accepted.
  lemma ReaderSurvives(s: State, c: Chain, u: User) returns (after: seq<Action>)
    requires AboutToRead(s, c)
    ensures !NoneAccepted(Run(Step(s, Bump(u)), after), |s.verdicts|, c)
  {
    var p :| p in s.procs && s.procs[p].Reading? && s.procs[p].chain_ == c;
    var token := s.procs[p].token;
    after := [Read(p), Store(p), GetDel(token), Check(s.nextPid, true)];
    var s0 := Step(s, Bump(u));
    assert s0.procs == s.procs && s0.verdicts == s.verdicts && s0.nextPid == s.nextPid;
    RunFour(s0, after[0], after[1], after[2], after[3]);
    hide Step;
    ReadStored(s0, p);
    var s2 := Step(Step(s0, Read(p)), Store(p));
    CurrentAccepted(s2, token);
    var s4 := Run(s0, after);
    assert s4.verdicts[|s.verdicts|] == Verdict(token, s2.live[token], |s2.bumps|, true);
  }

  lemma RunFour(s: State, a: Action, b: Action, d: Action, e: Action)
    ensures Run(s, [a, b, d, e]) == Step(Step(Step(Step(s, a), b), d), e)
  {
    hide Step;
    assert [a, b, d, e][1..] == [b, d, e] && [b, d, e][1..] == [d, e] && [d, e][1..] == [e] && [e][1..] == [];
    var s1 := Step(s, a);
    var s2 := Step(s1, b);
    var s3 := Step(s2, d);
    assert Run(s3, [e]) == Run(Step(s3, e), []);
    assert Run(s2, [d, e]) == Run(s3, [e]);
    assert Run(s1, [b, d, e]) == Run(s2, [d, e]);
    assert Run(s, [a, b, d, e]) == Run(s1, [b, d, e]);
  }

  // A password change ends a chain, whatever happens afterwards, exactly when at
  // its INCR no request of the chain is about to read pw_v for a token.
  lemma ChangeEndsChainIff(s: State, c: Chain, u: User)
    requires Inv(s) && c < |s.places| && OwnedBy(s, c, u)
    ensures (forall after: seq<Action> :: NoneAccepted(Run(Step(s, Bump(u)), after), |s.verdicts|, c))
            <==> !AboutToRead(s, c)
  {
    if AboutToRead(s, c) {
      var after := ReaderSurvives(s, c, u);
    } else {
      ChangeEnds(s, c, u);
      forall after: seq<Action> ensures NoneAccepted(Run(Step(s, Bump(u)), after), |s.verdicts|, c) {
        RunKeepsEnded(Step(s, Bump(u)), after, c, u, |s.bumps|, |s.verdicts|);
      }
    }
  }

  // Every chain of every run belongs to one user, so the condition speaks of all
  // chains that a change can reach.
  lemma EveryChainOwned(s: State, c: Chain) returns (u: User)
    requires Inv(s)
    ensures OwnedBy(s, c, u)
  {
    if t :| t in s.live && s.live[t].chain == c {
      u := s.live[t].user;
      assert At(s, c, InStore(t));
    } else if p :| p in s.procs && ChainOf(s.procs[p]) == c {
      u := if s.procs[p].Reading? then s.procs[p].user else s.procs[p].rec.user;
      assert At(s, c, InRequest(p));
    } else {
      u := 0;
    }
  }
}
