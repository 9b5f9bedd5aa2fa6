/** Refresh tokens, revocation and the session cap over whole runs. */
module AccountsSessions {
  import opened Core
  import opened Accounts

  // ----- the token tables -----

  ghost predicate Distinct(refresh: seq<Entry>) {
    forall i, j :: 0 <= i < j < |refresh| ==> refresh[i].token != refresh[j].token
  }

  /** Active and rotated tokens were issued, are told apart, never overlap, and belong to live accounts. */
  ghost predicate TokensOk(s: Accounts) {
    && Distinct(s.refresh)
    && (forall e :: e in s.refresh ==> e.token < s.issued && e.token !in s.rotated && LiveId(s.users, e.user))
    && (forall t :: t in s.rotated ==> t < s.issued && LiveId(s.users, s.rotated[t]))
  }

  /** The reply says that every session of the user has just ended. */
  predicate Ends(reply: Reply, user: nat) {
    reply == SessionsEnded(user) || reply == ReuseDetected(user)
  }

  // ----- one step -----

  ghost predicate NoSession(s: Accounts, user: nat) {
    (forall e :: e in s.refresh ==> e.user != user) && (forall t :: t in s.rotated ==> s.rotated[t] != user)
  }

  /**
   Tokens only appear by being issued, only rotate by being redeemed, and only leave the rotated table with all of
   their user's.
   */
  ghost predicate TokensStep(s: Accounts, op: Op, o: Outcome) {
    && s.issued <= o.accounts.issued
    && (forall e :: e in o.accounts.refresh ==> e in s.refresh || s.issued <= e.token)
    && (forall t :: t in o.accounts.rotated ==>
         if t in s.rotated then o.accounts.rotated[t] == s.rotated[t] else o.reply.Refreshed? && o.reply.used == t)
    && (forall t :: t in s.rotated && t !in o.accounts.rotated ==>
         Ends(o.reply, s.rotated[t]) || op == OpDeleteUser(s.rotated[t]))
    && (o.reply.Refreshed? ==>
          && Entry(o.reply.used, o.reply.user) in s.refresh && !Holds(o.accounts.refresh, o.reply.used)
          && o.reply.used in o.accounts.rotated && o.accounts.rotated[o.reply.used] == o.reply.user)
  }

  ghost predicate StampsStep(a: seq<User>, b: seq<User>, now: int) {
    && |a| <= |b|
    && (forall i :: 0 <= i < |a| ==> b[i].tokenRevokedAt == a[i].tokenRevokedAt || b[i].tokenRevokedAt == Some(now))
    && (forall i :: |a| <= i < |b| ==> b[i].tokenRevokedAt.None?)
  }

  /** A reply that ends a user's sessions leaves them none, and stamps the account now. */
  ghost predicate EndsAll(o: Outcome, now: int) {
    forall user: nat :: Ends(o.reply, user) ==>
      NoSession(o.accounts, user) && user < |o.accounts.users| && o.accounts.users[user].tokenRevokedAt == Some(now)
  }

  /** As long as accounts stay live, their rows do not matter to the token tables. */
  lemma StillOk(s: Accounts, t: Accounts)
    requires TokensOk(s) && t.refresh == s.refresh && t.rotated == s.rotated && s.issued <= t.issued
    requires forall i: nat :: LiveId(s.users, i) ==> LiveId(t.users, i)
    ensures TokensOk(t)
  {
  }

  ghost predicate SessionStep(s: Accounts, op: Op, now: int, o: Outcome) {
    TokensOk(o.accounts) && TokensStep(s, op, o) && StampsStep(s.users, o.accounts.users, now) && EndsAll(o, now)
  }

  lemma {:induction false} OwnedDistinct(refresh: seq<Entry>, user: nat, own: bool)
    requires Distinct(refresh)
    ensures Distinct(Owned(refresh, user, own))
  {
    if refresh != [] {
      assert Distinct(refresh[1..]);
      OwnedDistinct(refresh[1..], user, own);
      HeadDistinct(refresh, Owned(refresh[1..], user, own));
    }
  }

  lemma HeadDistinct(refresh: seq<Entry>, rest: seq<Entry>)
    requires refresh != [] && Distinct(refresh) && Distinct(rest) && forall e :: e in rest ==> e in refresh[1..]
    ensures Distinct([refresh[0]] + rest)
  {
    var r := [refresh[0]] + rest;
    forall i, j | 0 <= i < j < |r|
      ensures r[i].token != r[j].token
    {
      assert r[j] in rest;
    }
  }

  lemma {:induction false} DropTokenDistinct(refresh: seq<Entry>, token: nat)
    requires Distinct(refresh)
    ensures Distinct(DropToken(refresh, token))
  {
    if refresh != [] {
      assert Distinct(refresh[1..]);
      DropTokenDistinct(refresh[1..], token);
      HeadDistinct(refresh, DropToken(refresh[1..], token));
    }
  }

  lemma {:induction false} DropOldestDistinct(refresh: seq<Entry>, user: nat, excess: nat)
    requires Distinct(refresh)
    ensures Distinct(DropOldest(refresh, user, excess))
  {
    if refresh != [] && excess > 0 {
      assert Distinct(refresh[1..]);
      if refresh[0].user == user {
        DropOldestDistinct(refresh[1..], user, excess - 1);
      } else {
        DropOldestDistinct(refresh[1..], user, excess);
        HeadDistinct(refresh, DropOldest(refresh[1..], user, excess));
      }
    }
  }

  /** One step into both recursions. */
  lemma OldestUnfolds(refresh: seq<Entry>, user: nat, n: nat)
    ensures refresh == [] ==> Owned(refresh, user, true) == []
    ensures refresh != [] && refresh[0].user == user ==>
            Owned(refresh, user, true) == [refresh[0]] + Owned(refresh[1..], user, true)
    ensures refresh != [] && refresh[0].user != user ==> Owned(refresh, user, true) == Owned(refresh[1..], user, true)
    ensures DropOldest(refresh, user, n) ==
            if refresh == [] || n == 0 then refresh
            else if refresh[0].user == user then DropOldest(refresh[1..], user, n - 1)
            else [refresh[0]] + DropOldest(refresh[1..], user, n)
  {
  }

  lemma AppendDistinct(refresh: seq<Entry>, e: Entry)
    requires Distinct(refresh) && !Holds(refresh, e.token)
    ensures Distinct(refresh + [e])
  {
    forall i | 0 <= i < |refresh|
      ensures refresh[i].token != e.token
    {
      assert refresh[i] in refresh;
    }
  }

  lemma SignInStep(s: Accounts, user: nat, allowance: nat, now: int, op: Op)
    requires TokensOk(s) && LiveId(s.users, user)
    ensures SessionStep(s, op, now, SignIn(s, user, allowance, now))
  {
    var grown := s.refresh + [Entry(s.issued, user)];
    AppendDistinct(s.refresh, Entry(s.issued, user));
    DropOldestDistinct(grown, user, Max(0, |Owned(grown, user, true)| - allowance));
  }

  lemma EndSessionsStep(s: Accounts, user: nat, now: int)
    requires TokensOk(s)
    ensures var t := EndSessions(s, user, now);
            && TokensOk(t) && NoSession(t, user) && t.issued == s.issued
            && (forall e :: e in t.refresh ==> e in s.refresh)
            && (forall k :: k in t.rotated <==> k in s.rotated && s.rotated[k] != user)
            && (forall k :: k in t.rotated ==> t.rotated[k] == s.rotated[k])
            && StampsStep(s.users, t.users, now)
            && (LiveId(s.users, user) ==> t.users[user].tokenRevokedAt == Some(now))
  {
    OwnedDistinct(s.refresh, user, false);
  }

  /** Ending the sessions of a live user, from tables that agree with `s` on tokens. */
  lemma EndingStep(s: Accounts, mid: Accounts, user: nat, now: int, op: Op, reply: Reply)
    requires TokensOk(s) && TokensOk(mid) && mid.refresh == s.refresh && mid.rotated == s.rotated &&
             mid.issued == s.issued
    requires StampsStep(s.users, mid.users, now) && |mid.users| == |s.users| && LiveId(mid.users, user)
    requires Ends(reply, user)
    ensures SessionStep(s, op, now, Outcome(EndSessions(mid, user, now), reply))
  {
    hide EndSessions, TokensOk;
    EndSessionsStep(mid, user, now);
  }

  /** A step that leaves the session tables alone. */
  lemma QuietStep(s: Accounts, o: Outcome, now: int, op: Op)
    requires TokensOk(s) && Quiet(s, o, now)
    ensures SessionStep(s, op, now, o)
  {
  }

  ghost predicate SameAccounts(a: seq<User>, b: seq<User>) {
    |a| == |b| && forall i :: 0 <= i < |a| ==>
      b[i].tokenRevokedAt == a[i].tokenRevokedAt && b[i].deletedAt == a[i].deletedAt
  }

  /** A login touches lock fields only, and then perhaps signs in. */
  lemma LoginShape(s: Accounts, email: string, password: Option<string>, allowance: nat, now: int)
      returns (mid: Accounts, id: nat)
    ensures mid == s.(users := mid.users) && SameAccounts(s.users, mid.users)
    ensures var o := Login(s, email, password, allowance, now);
            if o.reply.Refused? then o.accounts == mid
            else LiveId(mid.users, id) && o == SignIn(mid, id, allowance, now)
  {
    hide SignIn;
    var o, found := Login(s, email, password, allowance, now), FindByEmail(s.users, email);
    mid, id := s, 0;
    if found.Some? && !LockedAt(s.users[found.value], now) {
      id := found.value;
      var u := Unexpired(s.users[id]);
      mid := s.(users := s.users[id := if !u.isActive then u
                                       else if u.password != password then CountFailure(u, now)
                                       else if !u.isEmailVerified then u
                                       else u.(failedLoginAttempts := 0, lockedUntil := None)]);
    }
    SignInReplies(mid, id, allowance, now);
  }

  lemma SignInReplies(s: Accounts, id: nat, allowance: nat, now: int)
    ensures SignIn(s, id, allowance, now).reply.SignedIn?
  {
  }

  lemma LoginSessions(s: Accounts, email: string, password: Option<string>, allowance: nat, now: int)
    requires TokensOk(s)
    ensures SessionStep(s, OpLogin(email, password, allowance), now, Login(s, email, password, allowance, now))
  {
    hide Login, SignIn, SessionStep, TokensOk;
    var op, o := OpLogin(email, password, allowance), Login(s, email, password, allowance, now);
    var mid, id := LoginShape(s, email, password, allowance, now);
    assert forall i: nat :: LiveId(s.users, i) ==> LiveId(mid.users, i);
    StillOk(s, mid);
    if o.reply.Refused? {
      QuietStep(s, o, now, op);
    } else {
      SignInStep(mid, id, allowance, now, op);
      FromMiddle(s, mid, o, now, op);
    }
  }

  /** Changes to user rows that keep accounts live and stamps in place do not matter to the session tables. */
  lemma FromMiddle(s: Accounts, mid: Accounts, o: Outcome, now: int, op: Op)
    requires mid == s.(users := mid.users) && SameAccounts(s.users, mid.users)
    requires SessionStep(mid, op, now, o)
    ensures SessionStep(s, op, now, o)
  {
  }

  lemma RefreshSessions(s: Accounts, token: nat, now: int)
    requires TokensOk(s)
    ensures SessionStep(s, OpRefresh(token), now, Refresh(s, token, now))
  {
    var op, o := OpRefresh(token), Refresh(s, token, now);
    if token in s.rotated {
      hide EndSessions, SessionStep;
      EndingStep(s, s, s.rotated[token], now, op, ReuseDetected(s.rotated[token]));
    } else if o.reply.Refreshed? {
      RotationStep(s, token, now);
    } else {
      hide OwnerOf;
      DropTokenDistinct(s.refresh, token);
    }
  }

  lemma RotationStep(s: Accounts, token: nat, now: int)
    requires TokensOk(s) && token !in s.rotated && Refresh(s, token, now).reply.Refreshed?
    ensures SessionStep(s, OpRefresh(token), now, Refresh(s, token, now))
  {
    var o := Refresh(s, token, now);
    var kept := DropToken(s.refresh, token);
    DropTokenDistinct(s.refresh, token);
    AppendDistinct(kept, Entry(s.issued, o.reply.user));
    assert o.accounts.refresh == kept + [Entry(s.issued, o.reply.user)];
    assert forall e :: e in o.accounts.refresh <==> e in kept || e == Entry(s.issued, o.reply.user);
    assert Entry(token, o.reply.user) in s.refresh;
    hide OwnerOf, Refresh;
  }

  lemma EndingSessions(s: Accounts, op: Op, now: int)
    requires TokensOk(s) && (op.OpLogout? || op.OpChangePassword? || op.OpResetPassword?)
    ensures SessionStep(s, op, now, Step(s, op, now))
  {
    hide SessionStep, TokensOk, Logout, ChangePassword, ResetPassword;
    match op
    case OpLogout(access) => LogoutSessions(s, access, now);
    case OpChangePassword(access, current, next) => PasswordSessions(s, access, current, next, now);
    case OpResetPassword(token, next) => ResetSessions(s, token, next, now);
  }

  lemma LogoutSessions(s: Accounts, access: AccessToken, now: int)
    requires TokensOk(s)
    ensures SessionStep(s, OpLogout(access), now, Logout(s, access, now))
  {
    hide SessionStep, EndSessions, TokensOk;
    var op, o := OpLogout(access), Logout(s, access, now);
    if o.reply.Refused? {
      QuietStep(s, o, now, op);
    } else {
      EndingStep(s, s, o.reply.user, now, op, o.reply);
    }
  }

  lemma PasswordSessions(s: Accounts, access: AccessToken, current: Option<string>, next: string, now: int)
    requires TokensOk(s)
    ensures SessionStep(s, OpChangePassword(access, current, next), now, ChangePassword(s, access, current, next, now))
  {
    hide SessionStep, EndSessions, TokensOk;
    var op, o := OpChangePassword(access, current, next), ChangePassword(s, access, current, next, now);
    if o.reply.Refused? {
      QuietStep(s, o, now, op);
    } else {
      var user := o.reply.user;
      EndingRow(s, s, user, s.users[user].(password := Some(next)), now, op, o.reply);
    }
  }

  lemma ResetSessions(s: Accounts, token: nat, next: string, now: int)
    requires TokensOk(s)
    ensures SessionStep(s, OpResetPassword(token, next), now, ResetPassword(s, token, next, now))
  {
    hide SessionStep, EndSessions, TokensOk;
    var op, o := OpResetPassword(token, next), ResetPassword(s, token, next, now);
    if o.reply.Refused? {
      QuietStep(s, o, now, op);
    } else {
      var user := o.reply.user;
      var row := WithoutPending(s.users[user].(password := Some(next)));
      var tables := s.(emailChanges := DropKey(s.emailChanges, s.users[user].pendingEmailToken),
        resets := s.resets - {token});
      EndingRow(s, tables, user, row, now, op, o.reply);
      assert s.users[user := s.users[user].(password := Some(next))][user := row] == s.users[user := row];
    }
  }

  lemma ConfirmSessions(s: Accounts, token: nat, now: int)
    requires TokensOk(s)
    ensures SessionStep(s, OpConfirmEmailChange(token), now, ConfirmEmailChange(s, token, now))
  {
    hide SessionStep, EndSessions, TokensOk, HeldElsewhere;
    var op, o := OpConfirmEmailChange(token), ConfirmEmailChange(s, token, now);
    if o.reply.Refused? {
      QuietStep(s, o, now, op);
    } else {
      var id := o.reply.user;
      var moved := WithoutPending(s.users[id]).(email := s.users[id].pendingEmail.value, isEmailVerified := true);
      EndingRow(s, s.(emailChanges := s.emailChanges - {token}), id, moved, now, op, o.reply);
    }
  }

  /** Ending the sessions of an account whose row - and other tables - changed first. */
  lemma EndingRow(s: Accounts, tables: Accounts, user: nat, row: User, now: int, op: Op, reply: Reply)
    requires TokensOk(s) && LiveId(s.users, user) && Live(row) && row.tokenRevokedAt == s.users[user].tokenRevokedAt
    requires tables.users == s.users && tables.refresh == s.refresh && tables.rotated == s.rotated &&
             tables.issued == s.issued
    requires Ends(reply, user)
    ensures SessionStep(s, op, now, Outcome(EndSessions(tables.(users := s.users[user := row]), user, now), reply))
  {
    hide SessionStep, EndSessions, TokensOk;
    var mid := tables.(users := s.users[user := row]);
    assert forall i: nat :: LiveId(s.users, i) ==> LiveId(mid.users, i);
    StillOk(s, mid);
    EndingStep(s, mid, user, now, op, reply);
  }

  lemma QuietAccountSteps(s: Accounts, op: Op, now: int)
    requires TokensOk(s)
    requires op.OpRegister? || op.OpAdminCreate? || op.OpVerifyEmail? || op.OpRestoreUser? || op.OpChangeRoles?
    ensures SessionStep(s, op, now, Step(s, op, now))
  {
    hide SessionStep, TokensOk, Step, StampsStep;
    if op.OpRegister? || op.OpAdminCreate? {
      QuietCreations(s, op, now);
    } else {
      QuietMarks(s, op, now);
    }
    QuietStep(s, Step(s, op, now), now, op);
  }

  /** What `QuietStep` asks of a step. */
  ghost predicate Quiet(s: Accounts, o: Outcome, now: int) {
    && o.accounts.refresh == s.refresh && o.accounts.rotated == s.rotated && s.issued <= o.accounts.issued
    && StampsStep(s.users, o.accounts.users, now)
    && (forall i :: 0 <= i < |s.users| && Live(s.users[i]) ==> Live(o.accounts.users[i]))
    && (o.reply.Done? || o.reply.Refused?)
  }

  lemma QuietCreations(s: Accounts, op: Op, now: int)
    requires op.OpRegister? || op.OpAdminCreate?
    ensures Quiet(s, Step(s, op, now), now)
  {
    hide AddressTaken;
  }

  lemma QuietMarks(s: Accounts, op: Op, now: int)
    requires op.OpVerifyEmail? || op.OpRestoreUser? || op.OpChangeRoles?
    ensures Quiet(s, Step(s, op, now), now)
  {
    hide Quiet, VerifyEmail, RestoreUser, ChangeRoles;
    match op
    case OpVerifyEmail(token) => QuietVerify(s, token, now);
    case OpRestoreUser(id) => QuietRestore(s, id, now);
    case OpChangeRoles(id) => QuietRoles(s, id, now);
  }

  lemma QuietVerify(s: Accounts, token: nat, now: int)
    ensures Quiet(s, VerifyEmail(s, token), now)
  {
  }

  lemma QuietRestore(s: Accounts, id: nat, now: int)
    ensures Quiet(s, RestoreUser(s, id), now)
  {
  }

  lemma QuietRoles(s: Accounts, id: nat, now: int)
    ensures Quiet(s, ChangeRoles(s, id, now), now)
  {
  }

  lemma QuietRequestSteps(s: Accounts, op: Op, now: int)
    requires TokensOk(s)
    requires op.OpForgotPassword? || op.OpInitiateEmailChange? || op.OpResendVerification?
    ensures SessionStep(s, op, now, Step(s, op, now))
  {
    hide SessionStep, TokensOk, Quiet, ForgotPassword, InitiateEmailChange, ResendVerification;
    match op
    case OpForgotPassword(email) =>
      QuietForgot(s, email, now);
      QuietStep(s, ForgotPassword(s, email), now, op);
    case OpResendVerification(email) =>
      QuietResend(s, email, now);
      QuietStep(s, ResendVerification(s, email), now, op);
    case OpInitiateEmailChange(access, current, newEmail) =>
      QuietInitiate(s, access, current, newEmail, now);
      QuietStep(s, InitiateEmailChange(s, access, current, newEmail, now), now, op);
  }

  lemma QuietResend(s: Accounts, email: string, now: int)
    ensures Quiet(s, ResendVerification(s, email), now)
  {
    hide FindByEmail;
  }

  lemma QuietForgot(s: Accounts, email: string, now: int)
    ensures Quiet(s, ForgotPassword(s, email), now)
  {
    hide FindByEmail;
  }

  lemma QuietInitiate(s: Accounts, access: AccessToken, current: string, newEmail: string, now: int)
    ensures Quiet(s, InitiateEmailChange(s, access, current, newEmail, now), now)
  {
    hide TakenByOther;
  }

  lemma DeleteSessions(s: Accounts, id: nat, now: int)
    requires TokensOk(s)
    ensures SessionStep(s, OpDeleteUser(id), now, DeleteUser(s, id, now))
  {
    if LiveId(s.users, id) {
      OwnedDistinct(s.refresh, id, false);
      DroppedUserStep(s, ClearPending(s.(users := s.users[id := s.users[id].(deletedAt := Some(now))]), id), id, now);
    } else {
      QuietStep(s, DeleteUser(s, id, now), now, OpDeleteUser(id));
    }
  }

  lemma DroppedUserStep(s: Accounts, mid: Accounts, id: nat, now: int)
    requires TokensOk(s) && mid.refresh == s.refresh && mid.rotated == s.rotated && mid.issued == s.issued
    requires StampsStep(s.users, mid.users, now) && Distinct(Owned(s.refresh, id, false))
    requires forall i :: 0 <= i < |s.users| && i != id && Live(s.users[i]) ==> Live(mid.users[i])
    ensures SessionStep(s, OpDeleteUser(id), now, Outcome(DropSessions(mid, id), Done))
  {
  }

  lemma PatchSessions(s: Accounts, id: nat, p: Patch, now: int)
    requires TokensOk(s)
    ensures SessionStep(s, OpAdminPatch(id, p), now, AdminPatch(s, id, p, now))
  {
    var op, o := OpAdminPatch(id, p), AdminPatch(s, id, p, now);
    if o.reply.Refused? {
      QuietStep(s, o, now, op);
    } else {
      PatchedSessions(s, id, p, now);
    }
  }

  lemma PatchEmailSessions(s: Accounts, id: nat, email: string, now: int)
    requires TokensOk(s) && LiveId(s.users, id)
    ensures var t := PatchEmail(s, id, email, now);
            && TokensOk(t) && t.issued == s.issued && LiveId(t.users, id) && StampsStep(s.users, t.users, now)
            && (forall e :: e in t.refresh ==> e in s.refresh)
            && (forall k :: k in t.rotated ==> k in s.rotated && t.rotated[k] == s.rotated[k])
            && (forall k :: k in s.rotated && k !in t.rotated ==> email != s.users[id].email && s.rotated[k] == id)
            && (email != s.users[id].email ==> NoSession(t, id) && t.users[id].tokenRevokedAt == Some(now))
  {
    if email != s.users[id].email {
      var s1 := ClearPending(s, id);
      var mid := s1.(users := s1.users[id := s1.users[id].(email := email, isEmailVerified := false)]);
      hide EndSessions;
      EndSessionsStep(mid, id, now);
      EndSessionsLive(mid, id, now, id);
    }
  }

  lemma EndSessionsLive(s: Accounts, user: nat, now: int, id: nat)
    ensures LiveId(EndSessions(s, user, now).users, id) <==> LiveId(s.users, id)
  {
  }

  /** The tables between two points of one patch. */
  ghost predicate SessionsShrunk(s: Accounts, t: Accounts, id: nat, now: int, ended: bool) {
    && TokensOk(t) && t.issued == s.issued && |t.users| == |s.users| && LiveId(t.users, id) &&
         StampsStep(s.users, t.users, now)
    && (forall e :: e in t.refresh ==> e in s.refresh)
    && (forall k :: k in t.rotated ==> k in s.rotated && t.rotated[k] == s.rotated[k])
    && (forall k :: k in s.rotated && k !in t.rotated ==> ended && s.rotated[k] == id)
    && (ended ==> NoSession(t, id) && t.users[id].tokenRevokedAt == Some(now))
  }

  lemma PatchPasswordSessions(s: Accounts, t: Accounts, id: nat, password: Option<string>, now: int, ended: bool)
    requires SessionsShrunk(s, t, id, now, ended)
    ensures SessionsShrunk(s, EndSessions(t.(users := t.users[id := t.users[id].(password := password)]), id, now),
            id, now, true)
  {
    hide EndSessions, TokensOk;
    var mid := t.(users := t.users[id := t.users[id].(password := password)]);
    assert forall i: nat :: LiveId(t.users, i) ==> LiveId(mid.users, i);
    StillOk(t, mid);
    EndSessionsStep(mid, id, now);
    EndSessionsLive(mid, id, now, id);
  }

  lemma PatchFlagsSessions(s: Accounts, t: Accounts, id: nat, p: Patch, now: int, ended: bool, op: Op)
    requires SessionsShrunk(s, t, id, now, ended)
    ensures SessionStep(s, op, now, Outcome(t.(users := t.users[id := PatchFlags(t.users[id], p, now)]),
            if ended then SessionsEnded(id) else Done))
  {
    hide TokensOk, PatchFlags;
    FlagsRow(t.users[id], p, now);
    var after := t.(users := t.users[id := PatchFlags(t.users[id], p, now)]);
    assert forall i: nat :: LiveId(t.users, i) ==> LiveId(after.users, i);
    StillOk(t, after);
  }

  lemma FlagsRow(u: User, p: Patch, now: int)
    ensures var r := PatchFlags(u, p, now);
            r.deletedAt == u.deletedAt && (r.tokenRevokedAt == u.tokenRevokedAt || r.tokenRevokedAt == Some(now))
  {
  }

  lemma PatchedSessions(s: Accounts, id: nat, p: Patch, now: int)
    requires TokensOk(s) && LiveId(s.users, id) && !AdminPatch(s, id, p, now).reply.Refused?
    ensures SessionStep(s, OpAdminPatch(id, p), now, AdminPatch(s, id, p, now))
  {
    var s1 := if p.email.Some? then PatchEmail(s, id, p.email.value, now) else s;
    var moved := p.email.Some? && p.email.value != s.users[id].email;
    if p.email.Some? {
      PatchEmailSessions(s, id, p.email.value, now);
    }
    assert SessionsShrunk(s, s1, id, now, moved);
    hide SessionsShrunk, SessionStep, PatchEmail, EndSessions, PatchConflicts, PatchFlags;
    if p.password.Some? {
      PatchPasswordSessions(s, s1, id, p.password, now, moved);
      PatchFlagsSessions(s, EndSessions(s1.(users := s1.users[id := s1.users[id].(password := p.password)]), id, now),
        id, p, now, true, OpAdminPatch(id, p));
    } else {
      PatchFlagsSessions(s, s1, id, p, now, moved, OpAdminPatch(id, p));
    }
  }

  lemma StepSessions(s: Accounts, op: Op, now: int)
    requires TokensOk(s)
    ensures SessionStep(s, op, now, Step(s, op, now))
  {
    hide TokensOk, SessionStep;
    match op
    case OpLogin(email, password, allowance) => LoginSessions(s, email, password, allowance, now);
    case OpOAuthSignIn(id, allowance) => OAuthSessions(s, id, allowance, now);
    case OpRefresh(token) => RefreshSessions(s, token, now);
    case OpLogout(_) => EndingSessions(s, op, now);
    case OpChangePassword(_, _, _) => EndingSessions(s, op, now);
    case OpResetPassword(_, _) => EndingSessions(s, op, now);
    case OpConfirmEmailChange(token) => ConfirmSessions(s, token, now);
    case OpDeleteUser(id) => DeleteSessions(s, id, now);
    case OpAdminPatch(id, p) => PatchSessions(s, id, p, now);
    case OpForgotPassword(_) => QuietRequestSteps(s, op, now);
    case OpResendVerification(_) => QuietRequestSteps(s, op, now);
    case OpInitiateEmailChange(_, _, _) => QuietRequestSteps(s, op, now);
    case _ => QuietAccountSteps(s, op, now);
  }

  lemma OAuthSessions(s: Accounts, id: nat, allowance: nat, now: int)
    requires TokensOk(s)
    ensures SessionStep(s, OpOAuthSignIn(id, allowance), now, OAuthSignIn(s, id, allowance, now))
  {
    hide SignIn;
    if LiveId(s.users, id) {
      SignInStep(s, id, allowance, now, OpOAuthSignIn(id, allowance));
    } else {
      QuietStep(s, OAuthSignIn(s, id, allowance, now), now, OpOAuthSignIn(id, allowance));
    }
  }

  // ----- runs -----

  lemma {:induction false} RunTokens(s: Accounts, events: seq<Event>)
    requires TokensOk(s)
    ensures TokensOk(After(s, events))
    ensures s.issued <= After(s, events).issued
  {
    hide Step, TokensOk;
    if events != [] {
      var last := |events| - 1;
      RunTokens(s, events[..last]);
      StepSessions(After(s, events[..last]), events[last].op, events[last].now);
    }
  }

  lemma EmptyTokens()
    ensures TokensOk(EMPTY)
  {
  }

  lemma AfterNext(s: Accounts, events: seq<Event>, k: nat)
    requires k < |events|
    ensures After(s, events[..k + 1]) == Step(After(s, events[..k]), events[k].op, events[k].now).accounts
  {
    hide Step;
    assert events[..k + 1][..k] == events[..k];
  }

  /** A token that has been issued and is no longer active. */
  ghost predicate Retired(s: Accounts, token: nat) {
    token < s.issued && !Holds(s.refresh, token)
  }

  lemma StepRetired(s: Accounts, op: Op, now: int, token: nat)
    requires TokensOk(s) && Retired(s, token)
    ensures var t := Step(s, op, now).accounts;
            Retired(t, token) && (token !in s.rotated ==> token !in t.rotated)
  {
    hide Step;
    StepSessions(s, op, now);
  }

  /** An inactive token never becomes active again, nor rotated if it was not. */
  lemma {:induction false} StaysRetired(s: Accounts, events: seq<Event>, i: nat, j: nat, token: nat)
    requires TokensOk(s) && i <= j <= |events| && Retired(After(s, events[..i]), token)
    ensures Retired(After(s, events[..j]), token)
    ensures token !in After(s, events[..i]).rotated ==> token !in After(s, events[..j]).rotated
    decreases j
  {
    hide Step, TokensOk, Retired, After;
    if i < j {
      AfterNext(s, events, j - 1);
      StaysRetired(s, events, i, j - 1, token);
      RunTokens(s, events[..j - 1]);
      StepRetired(After(s, events[..j - 1]), events[j - 1].op, events[j - 1].now, token);
    }
  }

  lemma RedeemedIsRetired(s: Accounts, events: seq<Event>, i: nat)
    requires TokensOk(s) && i < |events| && ReplyAt(s, events, i).Refreshed?
    ensures var t := ReplyAt(s, events, i).used;
            && Holds(After(s, events[..i]).refresh, t)
            && Retired(After(s, events[..i + 1]), t)
            && t in After(s, events[..i + 1]).rotated &&
                 After(s, events[..i + 1]).rotated[t] == ReplyAt(s, events, i).user
  {
    hide Step, After, StampsStep, EndsAll;
    AfterNext(s, events, i);
    RunTokens(s, events[..i]);
    StepSessions(After(s, events[..i]), events[i].op, events[i].now);
  }

  /** Every refresh token is redeemed at most once in any run. */
  lemma RedeemedOnce(s: Accounts, events: seq<Event>, i: nat, j: nat)
    requires TokensOk(s) && i < |events| && j < |events|
    requires ReplyAt(s, events, i).Refreshed? && ReplyAt(s, events, j).Refreshed?
    requires ReplyAt(s, events, i).used == ReplyAt(s, events, j).used
    ensures i == j
  {
    hide Step, TokensOk;
    RedeemedIsRetired(s, events, i);
    RedeemedIsRetired(s, events, j);
    var t := ReplyAt(s, events, i).used;
    if i < j {
      StaysRetired(s, events, i + 1, j, t);
    } else if j < i {
      StaysRetired(s, events, j + 1, i, t);
    }
  }

  /** The step at k ended every session of the user, or deleted the account. */
  predicate Cuts(s: Accounts, events: seq<Event>, k: nat, user: nat)
    requires k < |events|
  {
    Ends(ReplyAt(s, events, k), user) || events[k].op == OpDeleteUser(user)
  }

  lemma StepStaysRotated(s: Accounts, op: Op, now: int, token: nat, user: nat)
    requires TokensOk(s) && token in s.rotated && s.rotated[token] == user
    requires !Ends(Step(s, op, now).reply, user) && op != OpDeleteUser(user)
    ensures var t := Step(s, op, now).accounts; token in t.rotated && t.rotated[token] == user
  {
    hide Step, TokensOk;
    StepSessions(s, op, now);
  }

  lemma {:induction false} StaysRotated(s: Accounts, events: seq<Event>, i: nat, j: nat, token: nat, user: nat)
    requires TokensOk(s) && i <= j <= |events|
    requires token in After(s, events[..i]).rotated && After(s, events[..i]).rotated[token] == user
    requires forall k :: i <= k < j ==> !Cuts(s, events, k, user)
    ensures token in After(s, events[..j]).rotated && After(s, events[..j]).rotated[token] == user
    decreases j
  {
    hide Step, TokensOk, After, Ends;
    if i < j {
      AfterNext(s, events, j - 1);
      StaysRotated(s, events, i, j - 1, token, user);
      RunTokens(s, events[..j - 1]);
      assert !Cuts(s, events, j - 1, user);
      StepStaysRotated(After(s, events[..j - 1]), events[j - 1].op, events[j - 1].now, token, user);
    }
  }

  /**
   Reuse detection (section 5.2.2.3 of RFC 6819, section 4.14.2 of RFC 9700): a redeemed token presented again is
   refused, and unless the user's sessions were cut in between anyway, it ends all of them.
   */
  lemma ReplayEndsTheFamily(s: Accounts, events: seq<Event>, i: nat, j: nat, token: nat, user: nat)
    requires TokensOk(s) && i < j < |events|
    requires ReplyAt(s, events, i).Refreshed? && ReplyAt(s, events, i).used == token &&
             ReplyAt(s, events, i).user == user
    requires events[j].op == OpRefresh(token)
    ensures ReplyAt(s, events, j) == Refused(401) || ReplyAt(s, events, j) == ReuseDetected(user)
    ensures (forall k :: i < k < j ==> !Cuts(s, events, k, user)) ==>
              ReplyAt(s, events, j) == ReuseDetected(user) && NoSession(After(s, events[..j + 1]), user)
  {
    hide Step, TokensOk, After, Retired, Cuts;
    RedeemedIsRetired(s, events, i);
    StaysRetired(s, events, i + 1, j, token);
    RunTokens(s, events[..j]);
    AfterNext(s, events, j);
    RotatedOwner(s, events, i + 1, j, token, user);
    PresentedAgain(After(s, events[..j]), token, user, events[j].now);
    if forall k :: i < k < j ==> !Cuts(s, events, k, user) {
      StaysRotated(s, events, i + 1, j, token, user);
    }
  }

  /** A retired token presented: reuse is detected while it is remembered. */
  lemma PresentedAgain(s: Accounts, token: nat, user: nat, now: int)
    requires TokensOk(s) && Retired(s, token) && RotatedFor(s, token, user)
    ensures var o := Step(s, OpRefresh(token), now);
            && o.reply == (if token in s.rotated then ReuseDetected(user) else Refused(401))
            && (token in s.rotated ==> NoSession(o.accounts, user))
  {
    hide EndSessions, TokensOk, NoSession;
    if token in s.rotated {
      EndSessionsStep(s, user, now);
    } else {
      RetiredRefused(s, token, now);
    }
  }

  predicate RotatedFor(s: Accounts, token: nat, user: nat) { token in s.rotated ==> s.rotated[token] == user }

  lemma StepRotatedOwner(s: Accounts, op: Op, now: int, token: nat, user: nat)
    requires TokensOk(s) && Retired(s, token) && RotatedFor(s, token, user)
    ensures RotatedFor(Step(s, op, now).accounts, token, user)
  {
    hide Step, TokensOk;
    StepSessions(s, op, now);
    StepRetired(s, op, now, token);
  }

  /** A rotated token never changes owner. */
  lemma {:induction false} RotatedOwner(s: Accounts, events: seq<Event>, i: nat, j: nat, token: nat, user: nat)
    requires TokensOk(s) && i <= j <= |events| && Retired(After(s, events[..i]), token)
    requires RotatedFor(After(s, events[..i]), token, user)
    ensures RotatedFor(After(s, events[..j]), token, user)
    decreases j
  {
    hide Step, TokensOk, Retired, After, RotatedFor;
    if i < j {
      AfterNext(s, events, j - 1);
      RotatedOwner(s, events, i, j - 1, token, user);
      StaysRetired(s, events, i, j - 1, token);
      RunTokens(s, events[..j - 1]);
      StepRotatedOwner(After(s, events[..j - 1]), events[j - 1].op, events[j - 1].now, token, user);
    }
  }

  lemma RetiredRefused(s: Accounts, token: nat, now: int)
    requires Retired(s, token) && token !in s.rotated
    ensures Refresh(s, token, now) == Outcome(s, Refused(401))
  {
  }

  lemma DeletionLeavesNone(s: Accounts, id: nat, now: int)
    requires DeleteUser(s, id, now).reply.Done?
    ensures NoSession(DeleteUser(s, id, now).accounts, id)
  {
  }

  /**
   Once a user's sessions end or the account is deleted, every refresh token they had - active or rotated - is refused
   for good, a restore included.
   */
  lemma EndedTokensAreDead(s: Accounts, events: seq<Event>, i: nat, j: nat, token: nat, user: nat)
    requires TokensOk(s) && i < j < |events|
    requires Ends(ReplyAt(s, events, i), user) || (events[i].op == OpDeleteUser(user) && ReplyAt(s, events, i).Done?)
    requires Entry(token, user) in After(s, events[..i]).refresh ||
             (token in After(s, events[..i]).rotated && After(s, events[..i]).rotated[token] == user)
    requires events[j].op == OpRefresh(token)
    ensures ReplyAt(s, events, j) == Refused(401) && After(s, events[..j + 1]) == After(s, events[..j])
  {
    hide Step, TokensOk, After, Retired, Ends;
    AfterNext(s, events, i);
    AfterNext(s, events, j);
    RunTokens(s, events[..i]);
    CutRetires(After(s, events[..i]), events[i].op, events[i].now, token, user);
    StaysRetired(s, events, i + 1, j, token);
    RetiredRefused(After(s, events[..j]), token, events[j].now);
    RefreshStep(After(s, events[..j]), token, events[j].now);
  }

  lemma RefreshStep(s: Accounts, token: nat, now: int)
    ensures Step(s, OpRefresh(token), now) == Refresh(s, token, now)
  {
  }

  lemma CutRetires(s: Accounts, op: Op, now: int, token: nat, user: nat)
    requires TokensOk(s)
    requires var reply := Step(s, op, now).reply; Ends(reply, user) || (op == OpDeleteUser(user) && reply.Done?)
    requires Entry(token, user) in s.refresh || (token in s.rotated && s.rotated[token] == user)
    ensures var t := Step(s, op, now).accounts; Retired(t, token) && token !in t.rotated
  {
    hide DeleteUser, TokensOk, TokensStep, StampsStep, Retired, NoSession;
    StepSessions(s, op, now);
    if op == OpDeleteUser(user) && Step(s, op, now).reply.Done? {
      DeletionLeavesNone(s, user, now);
      assert Step(s, op, now) == DeleteUser(s, user, now);
    }
    EndedTokenGone(s, op, now, token, user);
    hide Step;
  }

  lemma EndedTokenGone(s: Accounts, op: Op, now: int, token: nat, user: nat)
    requires TokensOk(s) && SessionStep(s, op, now, Step(s, op, now)) && NoSession(Step(s, op, now).accounts, user)
    requires Entry(token, user) in s.refresh || (token in s.rotated && s.rotated[token] == user)
    ensures var t := Step(s, op, now).accounts; Retired(t, token) && token !in t.rotated
  {
    hide Step, StampsStep;
    var o := Step(s, op, now);
    forall e | e in o.accounts.refresh
      ensures e.token != token
    {
      if Entry(token, user) in s.refresh && e in s.refresh && e.token == token {
        SameToken(s.refresh, e, Entry(token, user));
      }
    }
  }

  lemma SameToken(refresh: seq<Entry>, a: Entry, b: Entry)
    requires Distinct(refresh) && a in refresh && b in refresh && a.token == b.token
    ensures a == b
  {
    var i :| 0 <= i < |refresh| && refresh[i] == a;
    var j :| 0 <= j < |refresh| && refresh[j] == b;
  }
}
