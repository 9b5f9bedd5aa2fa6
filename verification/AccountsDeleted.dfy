/** A deleted account over whole runs: nothing touches its row until it is restored. */
module AccountsDeleted {
  import opened Core
  import opened Accounts
  import AccountsLockout
  import AccountsSessions

  /** Deleted rows stay as they are. */
  ghost predicate DeadKept(a: seq<User>, b: seq<User>) {
    |a| <= |b| && forall i :: 0 <= i < |a| && !Live(a[i]) ==> b[i] == a[i]
  }

  lemma DeadCompose(a: seq<User>, b: seq<User>, c: seq<User>)
    requires DeadKept(a, b) && DeadKept(b, c)
    ensures DeadKept(a, c)
  {
  }

  lemma LiveRowChanged(users: seq<User>, id: nat, u: User)
    requires LiveId(users, id)
    ensures DeadKept(users, users[id := u])
  {
  }

  lemma EndSessionsDead(s: Accounts, user: nat, now: int)
    ensures DeadKept(s.users, EndSessions(s, user, now).users)
  {
    hide Owned, DropUser;
  }

  lemma LoginDead(s: Accounts, email: string, password: Option<string>, allowance: nat, now: int)
    ensures DeadKept(s.users, Login(s, email, password, allowance, now).accounts.users)
  {
    hide Login, FindByEmail, DeadKept, AccountsLockout.LoginRow;
    AccountsLockout.LoginTouchesOneRow(s, email, password, allowance, now);
    FoundIsLive(s.users, email);
    SameKept(s.users);
    var found := FindByEmail(s.users, email);
    if found.Some? {
      LiveRowChanged(s.users, found.value, AccountsLockout.LoginRow(s.users[found.value], password, now));
    }
  }

  lemma SameKept(users: seq<User>)
    ensures DeadKept(users, users)
  {
  }

  lemma SessionDead(s: Accounts, op: Op, now: int)
    requires op.OpOAuthSignIn? || op.OpRefresh? || op.OpLogout? || op.OpForgotPassword? ||
             op.OpResendVerification? || op.OpChangeRoles?
    ensures DeadKept(s.users, Step(s, op, now).accounts.users)
  {
    hide Prune, Owned, DropUser, OwnerOf, DropToken, Authenticate, FindByEmail;
  }

  lemma PasswordDead(s: Accounts, access: AccessToken, current: Option<string>, next: string, now: int)
    ensures DeadKept(s.users, ChangePassword(s, access, current, next, now).accounts.users)
  {
    hide EndSessions, DeadKept;
    var o := ChangePassword(s, access, current, next, now);
    SameKept(s.users);
    if o.reply.SessionsEnded? {
      var id := o.reply.user;
      var mid := s.(users := s.users[id := s.users[id].(password := Some(next))]);
      LiveRowChanged(s.users, id, mid.users[id]);
      EndSessionsDead(mid, id, now);
      DeadCompose(s.users, mid.users, o.accounts.users);
    }
  }

  lemma ResetDead(s: Accounts, token: nat, next: string, now: int)
    ensures DeadKept(s.users, ResetPassword(s, token, next, now).accounts.users)
  {
    hide EndSessions, DeadKept;
    var o := ResetPassword(s, token, next, now);
    SameKept(s.users);
    if o.reply.SessionsEnded? {
      var id := o.reply.user;
      var s0 := s.(users := s.users[id := s.users[id].(password := Some(next))]);
      var s1 := ClearPending(s0, id);
      var mid := s1.(resets := s1.resets - {token});
      assert mid.users == s.users[id := mid.users[id]];
      LiveRowChanged(s.users, id, mid.users[id]);
      EndSessionsDead(mid, id, now);
      DeadCompose(s.users, mid.users, o.accounts.users);
    }
  }

  lemma ConfirmDead(s: Accounts, token: nat, now: int)
    ensures DeadKept(s.users, ConfirmEmailChange(s, token, now).accounts.users)
  {
    hide EndSessions, DeadKept, HeldElsewhere;
    var o := ConfirmEmailChange(s, token, now);
    SameKept(s.users);
    if token in s.emailChanges && LiveId(s.users, s.emailChanges[token]) &&
      s.users[s.emailChanges[token]].pendingEmail.Some? {
      var id := s.emailChanges[token];
      var moved := WithoutPending(s.users[id]).(email := s.users[id].pendingEmail.value, isEmailVerified := true);
      LiveRowChanged(s.users, id, WithoutPending(s.users[id]));
      LiveRowChanged(s.users, id, moved);
      var mid := s.(emailChanges := s.emailChanges - {token}, users := s.users[id := moved]);
      EndSessionsDead(mid, id, now);
      DeadCompose(s.users, mid.users, EndSessions(mid, id, now).users);
    }
  }

  lemma AccountDead(s: Accounts, op: Op, now: int)
    requires op.OpInitiateEmailChange? || op.OpRegister? || op.OpAdminCreate? || op.OpVerifyEmail? || op.OpDeleteUser?
    ensures DeadKept(s.users, Step(s, op, now).accounts.users)
  {
    hide Authenticate, TakenByOther, AddressTaken, Owned, DropUser;
  }

  lemma PatchEmailDead(s: Accounts, id: nat, email: string, now: int)
    requires LiveId(s.users, id)
    ensures DeadKept(s.users, PatchEmail(s, id, email, now).users) && LiveId(PatchEmail(s, id, email, now).users, id)
  {
    hide EndSessions, DeadKept;
    SameKept(s.users);
    if email != s.users[id].email {
      var s1 := ClearPending(s, id);
      var mid := s1.(users := s1.users[id := s1.users[id].(email := email, isEmailVerified := false)]);
      assert mid.users == s.users[id := mid.users[id]];
      LiveRowChanged(s.users, id, mid.users[id]);
      EndSessionsDead(mid, id, now);
      DeadCompose(s.users, mid.users, EndSessions(mid, id, now).users);
      AccountsSessions.EndSessionsLive(mid, id, now, id);
    }
  }

  lemma PatchDead(s: Accounts, id: nat, p: Patch, now: int)
    ensures DeadKept(s.users, AdminPatch(s, id, p, now).accounts.users)
  {
    hide EndSessions, PatchEmail, PatchFlags, PatchConflicts, DeadKept;
    var o := AdminPatch(s, id, p, now);
    SameKept(s.users);
    if !o.reply.Refused? {
      var s1 := if p.email.Some? then PatchEmail(s, id, p.email.value, now) else s;
      if p.email.Some? {
        PatchEmailDead(s, id, p.email.value, now);
      }
      var s2 := s1;
      if p.password.Some? {
        var mid := s1.(users := s1.users[id := s1.users[id].(password := p.password)]);
        LiveRowChanged(s1.users, id, mid.users[id]);
        EndSessionsDead(mid, id, now);
        DeadCompose(s1.users, mid.users, EndSessions(mid, id, now).users);
        DeadCompose(s.users, s1.users, EndSessions(mid, id, now).users);
        AccountsSessions.EndSessionsLive(mid, id, now, id);
        s2 := EndSessions(mid, id, now);
      }
      LiveRowChanged(s2.users, id, PatchFlags(s2.users[id], p, now));
      DeadCompose(s.users, s2.users, o.accounts.users);
    }
  }

  /** Only a restore of the account itself changes a deleted row. */
  lemma StepLeavesDead(s: Accounts, op: Op, now: int, user: nat)
    requires user < |s.users| && !Live(s.users[user]) && op != OpRestoreUser(user)
    ensures var t := Step(s, op, now).accounts; user < |t.users| && t.users[user] == s.users[user]
  {
    hide Login, ChangePassword, ResetPassword, ConfirmEmailChange, AdminPatch, OAuthSignIn, Refresh, Logout,
      ForgotPassword,
      InitiateEmailChange, Register, AdminCreate, VerifyEmail, ResendVerification, DeleteUser, ChangeRoles;
    match op
    case OpLogin(email, password, allowance) => LoginDead(s, email, password, allowance, now);
    case OpChangePassword(access, current, next) => PasswordDead(s, access, current, next, now);
    case OpResetPassword(token, next) => ResetDead(s, token, next, now);
    case OpConfirmEmailChange(token) => ConfirmDead(s, token, now);
    case OpAdminPatch(id, p) => PatchDead(s, id, p, now);
    case OpRestoreUser(id) =>
    case _ =>
      if op.OpInitiateEmailChange? || op.OpRegister? || op.OpAdminCreate? || op.OpVerifyEmail? || op.OpDeleteUser? {
        AccountDead(s, op, now);
      } else {
        SessionDead(s, op, now);
      }
  }

  /** No event in [i, j) restores the account. */
  ghost predicate StaysDeleted(events: seq<Event>, i: nat, j: nat, user: nat) {
    forall k :: i <= k < j && k < |events| ==> events[k].op != OpRestoreUser(user)
  }

  lemma {:induction false} DeletedRowStands(s: Accounts, events: seq<Event>, i: nat, j: nat, user: nat)
    requires i <= j <= |events| && StaysDeleted(events, i, j, user)
    requires var u := After(s, events[..i]).users; user < |u| && !Live(u[user])
    ensures var u, v := After(s, events[..i]).users, After(s, events[..j]).users; user < |v| && v[user] == u[user]
    decreases j
  {
    hide Step, After;
    if i < j {
      DeletedRowStands(s, events, i, j - 1, user);
      AccountsSessions.AfterNext(s, events, j - 1);
      StepLeavesDead(After(s, events[..j - 1]), events[j - 1].op, events[j - 1].now, user);
    }
  }

  lemma DeletedRow(s: Accounts, user: nat, now: int)
    requires LiveId(s.users, user)
    ensures var t := DeleteUser(s, user, now).accounts;
            && user < |t.users| && !Live(t.users[user]) && t.users[user].tokenRevokedAt == s.users[user].tokenRevokedAt
  {
    hide Owned, DropUser;
  }

  lemma RestoredRow(s: Accounts, user: nat)
    requires user < |s.users|
    ensures var t := RestoreUser(s, user).accounts;
            LiveId(t.users, user) && t.users[user].tokenRevokedAt == s.users[user].tokenRevokedAt
  {
  }

  lemma SameAcceptance(s: Accounts, t: Accounts, token: AccessToken, now: int)
    requires LiveId(s.users, token.sub) && LiveId(t.users, token.sub)
    requires t.users[token.sub].tokenRevokedAt == s.users[token.sub].tokenRevokedAt
    ensures Authenticate(t, token, now) == Authenticate(s, token, now)
  {
  }

  lemma DeadIsRefused(s: Accounts, token: AccessToken, now: int)
    requires !LiveId(s.users, token.sub)
    ensures Authenticate(s, token, now) == None
  {
  }

  /**
   From a deletion at i to the first restore at j, every access token of the account is refused. Deletion sets no stamp,
   and nothing stamps a deleted row: after the restore, whatever happened in between, a token is accepted exactly as it
   would have been just before the deletion.
   */
  lemma RestoreRevivesAccess(s: Accounts, events: seq<Event>, i: nat, j: nat, token: AccessToken, now: int)
    requires i < j < |events| && events[i].op == OpDeleteUser(token.sub) && events[j].op == OpRestoreUser(token.sub)
    requires LiveId(After(s, events[..i]).users, token.sub) && StaysDeleted(events, i + 1, j, token.sub)
    ensures forall m :: i < m <= j ==> Authenticate(After(s, events[..m]), token, now) == None
    ensures Authenticate(After(s, events[..j + 1]), token, now) == Authenticate(After(s, events[..i]), token, now)
  {
    hide After, Authenticate, DeleteUser, RestoreUser;
    var user := token.sub;
    AccountsSessions.AfterNext(s, events, i);
    AccountsSessions.AfterNext(s, events, j);
    DeletedRow(After(s, events[..i]), user, events[i].now);
    forall m | i < m <= j
      ensures Authenticate(After(s, events[..m]), token, now) == None
    {
      DeletedRowStands(s, events, i + 1, m, user);
      DeadIsRefused(After(s, events[..m]), token, now);
    }
    DeletedRowStands(s, events, i + 1, j, user);
    RestoredRow(After(s, events[..j]), user);
    SameAcceptance(After(s, events[..i]), After(s, events[..j + 1]), token, now);
  }
}
