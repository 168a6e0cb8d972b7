// The auth service as it runs one request at a time over Redis and the users
// table. Each method is proved against a whole request of RefreshTokens.
module AuthService {
  import opened Wrappers
  import opened RefreshTokens

  // Passwords stand for their hashes.
  datatype Account = Account(password: string, active: bool)

  datatype Payload = Payload(user: User, pwv: nat)

  datatype AuthError = InvalidCredentials | InvalidToken | PasswordChanged | UserInactive | InvalidReset | EmailTaken

  class Service {
    var tokens: map<Token, Payload>   // auth:rt:{token}
    var versions: map<User, nat>      // auth:pwv:{user}
    var resets: map<Token, User>      // auth:pwreset:{hash}
    var users: map<User, Account>
    var issued: nat                   // refresh tokens generated so far
    ghost var s: State

    ghost predicate Valid()
      reads this
    {
      && Inv(s) && s.procs == map[]
      && s.pwv == versions && |s.issuers| == issued
      && s.live.Keys == tokens.Keys
      && forall t :: t in tokens ==> tokens[t] == Payload(s.live[t].user, s.live[t].pwv)
    }

    constructor ()
      ensures Valid() && s == Init() && users == map[] && resets == map[]
    {
      tokens, versions, resets, users, issued := map[], map[], map[], map[], 0;
      s := Init();
      new;
      InitInv();
    }

    method GetPwVersion(u: User) returns (v: nat)
      requires Valid()
      ensures v == PwVersion(s, u)
    {
      v := if u in versions then versions[u] else 0;
    }

    method BumpPwVersion(u: User)
      requires Valid()
      modifies this`versions, this`s
      ensures Valid() && s == Serve(old(s), PasswordChange(u))
    {
      hide Inv;
      var v := GetPwVersion(u);
      ServeKeepsInv(s, PasswordChange(u));
      versions := versions[u := v + 1];
      s := Serve(s, PasswordChange(u));
    }

    // Stores a fresh token under the user's current pw_v. The caller accounts for
    // it in `s`.
    method IssueTokens(u: User) returns (token: Token)
      requires versions == s.pwv
      modifies this`tokens, this`issued
      ensures token == old(issued) && issued == old(issued) + 1
      ensures tokens == old(tokens)[token := Payload(u, PwVersion(s, u))]
    {
      token := issued;
      issued := issued + 1;
      var v := if u in versions then versions[u] else 0;
      tokens := tokens[token := Payload(u, v)];
    }

    method Register(u: User, password: string) returns (r: Result<Token, AuthError>)
      requires Valid()
      modifies this`users, this`tokens, this`issued, this`s
      ensures Valid() && (r.Err? <==> u in old(users))
      ensures r.Err? ==> r.error == EmailTaken && s == old(s) && users == old(users)
      ensures r.Ok? ==> s == Serve(old(s), LoginRequest(u)) && r.value in tokens
                        && users == old(users)[u := Account(password, true)]
    {
      if u in users {
        return Err(EmailTaken);
      }
      users := users[u := Account(password, true)];
      var token := StartChain(u);
      return Ok(token);
    }

    method StartChain(u: User) returns (token: Token)
      requires Valid()
      modifies this`tokens, this`issued, this`s
      ensures Valid() && s == Serve(old(s), LoginRequest(u)) && token == old(issued) && token in tokens
    {
      token := IssueTokens(u);
      LoginServed(s, u);
      ServeKeepsInv(s, LoginRequest(u));
      LoginLeavesNoProc(s, u);
      s := Serve(s, LoginRequest(u));
    }

    method Login(u: User, password: string) returns (r: Result<Token, AuthError>)
      requires Valid()
      modifies this`tokens, this`issued, this`s
      ensures Valid()
      ensures r.Ok? <==> u in users && users[u].active && users[u].password == password
      ensures r.Ok? ==> s == Serve(old(s), LoginRequest(u)) && r.value == old(issued) && r.value in tokens
      ensures r.Err? ==> r.error == InvalidCredentials && s == old(s) && tokens == old(tokens)
    {
      if u !in users || !users[u].active || users[u].password != password {
        return Err(InvalidCredentials);
      }
      var token := StartChain(u);
      return Ok(token);
    }

    method Refresh(t: Token) returns (r: Result<Token, AuthError>)
      requires Valid()
      modifies this`tokens, this`issued, this`s
      ensures Valid() && t !in tokens
      ensures s == Serve(old(s), RefreshRequest(t, IsActive(old(tokens), t)))
      ensures t !in old(tokens) <==> r == Err(InvalidToken)
      ensures t in old(tokens) && old(tokens)[t].pwv != PwVersion(s, old(tokens)[t].user) <==> r == Err(PasswordChanged)
      // A known token of the current version is answered by whether its user is active.
      ensures r.Ok? <==> && t in old(tokens) && old(tokens)[t].pwv == PwVersion(s, old(tokens)[t].user)
                         && old(tokens)[t].user in users && users[old(tokens)[t].user].active
      ensures r == Err(UserInactive) <==>
                && t in old(tokens) && old(tokens)[t].pwv == PwVersion(s, old(tokens)[t].user)
                && (old(tokens)[t].user in users ==> !users[old(tokens)[t].user].active)
      ensures r.Ok? ==> r.value == old(issued) && r.value in tokens && tokens[r.value] == old(tokens)[t]
      ensures forall x :: x in old(tokens) && x != t ==> x in tokens && tokens[x] == old(tokens)[x]
    {
      hide Serve, Step, Inv;
      ghost var request := RefreshRequest(t, IsActive(tokens, t));
      LiveWereIssued(s);
      RefreshServed(s, t, IsActive(tokens, t));
      ServeKeepsInv(s, request);
      RefreshLeavesNoProc(s, t, IsActive(tokens, t));
      if t !in tokens {
        s := Serve(s, request);
        return Err(InvalidToken);
      }
      var data := tokens[t];
      tokens := tokens - {t};
      var current := if data.user in versions then versions[data.user] else 0;
      if data.pwv != current {
        s := Serve(s, request);
        return Err(PasswordChanged);
      }
      if data.user !in users || !users[data.user].active {
        s := Serve(s, request);
        return Err(UserInactive);
      }
      var token := IssueTokens(data.user);
      s := Serve(s, request);
      return Ok(token);
    }

    predicate IsActive(ts: map<Token, Payload>, t: Token)
      reads this`users
    {
      t in ts && ts[t].user in users && users[ts[t].user].active
    }

    method Logout(t: Token)
      requires Valid()
      modifies this`tokens, this`s
      ensures Valid() && s == Serve(old(s), LogoutRequest(t)) && tokens == old(tokens) - {t}
    {
      ServeKeepsInv(s, LogoutRequest(t));
      tokens := tokens - {t};
      s := Serve(s, LogoutRequest(t));
    }

    method ChangePassword(u: User, current: string, password: string) returns (r: Result<(), AuthError>)
      requires Valid() && u in users
      modifies this`users, this`versions, this`s
      ensures Valid() && (r.Ok? <==> old(users)[u].password == current)
      ensures r.Ok? ==>
                && s == Serve(old(s), PasswordChange(u))
                && users == old(users)[u := old(users)[u].(password := password)]
      ensures r.Err? ==> r.error == InvalidCredentials && s == old(s) && users == old(users)
    {
      if users[u].password != current {
        return Err(InvalidCredentials);
      }
      users := users[u := users[u].(password := password)];
      BumpPwVersion(u);
      return Ok(());
    }

    // A reset token works once, used or refused.
    method ResetPassword(token: Token, password: string) returns (r: Result<(), AuthError>)
      requires Valid()
      modifies this`resets, this`users, this`versions, this`s
      ensures Valid() && resets == old(resets) - {token}
      ensures r.Ok? <==> && token in old(resets) && old(resets)[token] in old(users)
                         && old(users)[old(resets)[token]].active
      ensures r.Ok? ==> var u := old(resets)[token];
                        s == Serve(old(s), PasswordChange(u)) && users == old(users)[u := Account(password, true)]
      ensures r.Err? ==> r.error == InvalidReset && s == old(s) && users == old(users)
    {
      if token !in resets {
        return Err(InvalidReset);
      }
      var u := resets[token];
      resets := resets - {token};
      if u !in users || !users[u].active {
        return Err(InvalidReset);
      }
      users := users[u := Account(password, true)];
      BumpPwVersion(u);
      return Ok(());
    }
  }

  lemma LiveWereIssued(s: State)
    requires Inv(s)
    ensures forall t :: t in s.live ==> t < |s.issuers|
  {
  }

  lemma LoginLeavesNoProc(s: State, u: User)
    requires s.procs == map[]
    ensures Serve(s, LoginRequest(u)).procs == map[]
  {
  }

  lemma RefreshLeavesNoProc(s: State, t: Token, active: bool)
    requires s.procs == map[]
    ensures Serve(s, RefreshRequest(t, active)).procs == map[]
  {
  }
}
