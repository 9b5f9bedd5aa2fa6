/** Which accounts have a password, and what a login without one does. */
module AccountsPasswords {
  import opened Core
  import opened Accounts
  import AccountsLockout

  ghost predicate PasswordsSet(users: seq<User>) {
    forall i :: 0 <= i < |users| ==> users[i].password.Some?
  }

  /** Passwords are only ever replaced by passwords. */
  ghost predicate PasswordsStep(a: seq<User>, b: seq<User>) {
    && |a| <= |b|
    && (forall i :: 0 <= i < |a| ==> b[i].password == a[i].password || b[i].password.Some?)
    && (forall i :: |a| <= i < |b| ==> b[i].password.Some?)
  }

  lemma PasswordsCompose(a: seq<User>, b: seq<User>, c: seq<User>)
    requires PasswordsStep(a, b) && PasswordsStep(b, c)
    ensures PasswordsStep(a, c)
  {
  }

  lemma EndSessionsPasswords(s: Accounts, user: nat, now: int)
    ensures PasswordsStep(s.users, EndSessions(s, user, now).users)
  {
    hide Owned, DropUser;
  }

  lemma RowPasswords(users: seq<User>, id: nat, u: User)
    requires id < |users| && (u.password == users[id].password || u.password.Some?)
    ensures PasswordsStep(users, users[id := u])
  {
  }

  lemma SamePasswords(users: seq<User>)
    ensures PasswordsStep(users, users)
  {
  }

  lemma LoginPasswords(s: Accounts, email: string, password: Option<string>, allowance: nat, now: int)
    ensures PasswordsStep(s.users, Login(s, email, password, allowance, now).accounts.users)
  {
    hide Login, FindByEmail, PasswordsStep;
    AccountsLockout.LoginTouchesOneRow(s, email, password, allowance, now);
    FoundIsLive(s.users, email);
    SamePasswords(s.users);
    var found := FindByEmail(s.users, email);
    if found.Some? {
      RowPasswords(s.users, found.value, AccountsLockout.LoginRow(s.users[found.value], password, now));
    }
  }

  lemma SessionPasswords(s: Accounts, op: Op, now: int)
    requires op.OpOAuthSignIn? || op.OpRefresh? || op.OpLogout? || op.OpForgotPassword? ||
             op.OpResendVerification? || op.OpChangeRoles?
    ensures PasswordsStep(s.users, Step(s, op, now).accounts.users)
  {
    hide Prune, Owned, DropUser, OwnerOf, DropToken, Authenticate, FindByEmail;
  }

  lemma AccountPasswords(s: Accounts, op: Op, now: int)
    requires op.OpInitiateEmailChange? || op.OpRegister? || op.OpAdminCreate? || op.OpVerifyEmail? ||
             op.OpDeleteUser? ||
             op.OpRestoreUser?
    ensures PasswordsStep(s.users, Step(s, op, now).accounts.users)
  {
    hide Authenticate, TakenByOther, AddressTaken, Owned, DropUser;
  }

  lemma ChangePasswords(s: Accounts, access: AccessToken, current: Option<string>, next: string, now: int)
    ensures PasswordsStep(s.users, ChangePassword(s, access, current, next, now).accounts.users)
  {
    hide EndSessions, PasswordsStep;
    var o := ChangePassword(s, access, current, next, now);
    SamePasswords(s.users);
    if o.reply.SessionsEnded? {
      var id := o.reply.user;
      var mid := s.(users := s.users[id := s.users[id].(password := Some(next))]);
      RowPasswords(s.users, id, mid.users[id]);
      EndSessionsPasswords(mid, id, now);
      PasswordsCompose(s.users, mid.users, o.accounts.users);
    }
  }

  lemma ResetPasswords(s: Accounts, token: nat, next: string, now: int)
    ensures PasswordsStep(s.users, ResetPassword(s, token, next, now).accounts.users)
  {
    hide EndSessions, PasswordsStep;
    var o := ResetPassword(s, token, next, now);
    SamePasswords(s.users);
    if o.reply.SessionsEnded? {
      var id := o.reply.user;
      var s1 := ClearPending(s.(users := s.users[id := s.users[id].(password := Some(next))]), id);
      var mid := s1.(resets := s1.resets - {token});
      assert mid.users == s.users[id := mid.users[id]];
      RowPasswords(s.users, id, mid.users[id]);
      EndSessionsPasswords(mid, id, now);
      PasswordsCompose(s.users, mid.users, o.accounts.users);
    }
  }

  lemma ConfirmPasswords(s: Accounts, token: nat, now: int)
    ensures PasswordsStep(s.users, ConfirmEmailChange(s, token, now).accounts.users)
  {
    hide EndSessions, PasswordsStep, HeldElsewhere;
    SamePasswords(s.users);
    if token in s.emailChanges && LiveId(s.users, s.emailChanges[token]) &&
      s.users[s.emailChanges[token]].pendingEmail.Some? {
      var id := s.emailChanges[token];
      var moved := WithoutPending(s.users[id]).(email := s.users[id].pendingEmail.value, isEmailVerified := true);
      RowPasswords(s.users, id, WithoutPending(s.users[id]));
      RowPasswords(s.users, id, moved);
      var mid := s.(emailChanges := s.emailChanges - {token}, users := s.users[id := moved]);
      EndSessionsPasswords(mid, id, now);
      PasswordsCompose(s.users, mid.users, EndSessions(mid, id, now).users);
    }
  }

  lemma PatchEmailPasswords(s: Accounts, id: nat, email: string, now: int)
    requires id < |s.users|
    ensures PasswordsStep(s.users, PatchEmail(s, id, email, now).users)
  {
    hide EndSessions, PasswordsStep;
    SamePasswords(s.users);
    if email != s.users[id].email {
      var s1 := ClearPending(s, id);
      var mid := s1.(users := s1.users[id := s1.users[id].(email := email, isEmailVerified := false)]);
      assert mid.users == s.users[id := mid.users[id]];
      RowPasswords(s.users, id, mid.users[id]);
      EndSessionsPasswords(mid, id, now);
      PasswordsCompose(s.users, mid.users, EndSessions(mid, id, now).users);
    }
  }

  lemma PatchPasswords(s: Accounts, id: nat, p: Patch, now: int)
    ensures PasswordsStep(s.users, AdminPatch(s, id, p, now).accounts.users)
  {
    hide EndSessions, PatchEmail, PatchConflicts, PasswordsStep;
    var o := AdminPatch(s, id, p, now);
    SamePasswords(s.users);
    if !o.reply.Refused? {
      var s1 := if p.email.Some? then PatchEmail(s, id, p.email.value, now) else s;
      if p.email.Some? {
        PatchEmailPasswords(s, id, p.email.value, now);
      }
      var s2 := s1;
      if p.password.Some? {
        var mid := s1.(users := s1.users[id := s1.users[id].(password := p.password)]);
        RowPasswords(s1.users, id, mid.users[id]);
        EndSessionsPasswords(mid, id, now);
        PasswordsCompose(s1.users, mid.users, EndSessions(mid, id, now).users);
        PasswordsCompose(s.users, s1.users, EndSessions(mid, id, now).users);
        s2 := EndSessions(mid, id, now);
      }
      RowPasswords(s2.users, id, PatchFlags(s2.users[id], p, now));
      PasswordsCompose(s.users, s2.users, o.accounts.users);
    }
  }

  lemma StepPasswords(s: Accounts, op: Op, now: int)
    ensures PasswordsStep(s.users, Step(s, op, now).accounts.users)
  {
    hide PasswordsStep, Login, ChangePassword, ResetPassword, ConfirmEmailChange, AdminPatch, OAuthSignIn, Refresh,
      Logout,
      ForgotPassword, InitiateEmailChange, Register, AdminCreate, VerifyEmail, ResendVerification, DeleteUser,
        RestoreUser, ChangeRoles;
    match op
    case OpLogin(email, password, allowance) => LoginPasswords(s, email, password, allowance, now);
    case OpChangePassword(access, current, next) => ChangePasswords(s, access, current, next, now);
    case OpResetPassword(token, next) => ResetPasswords(s, token, next, now);
    case OpConfirmEmailChange(token) => ConfirmPasswords(s, token, now);
    case OpAdminPatch(id, p) => PatchPasswords(s, id, p, now);
    case _ =>
      if op.OpOAuthSignIn? || op.OpRefresh? || op.OpLogout? || op.OpForgotPassword? ||
        op.OpResendVerification? || op.OpChangeRoles? {
        SessionPasswords(s, op, now);
      } else {
        AccountPasswords(s, op, now);
      }
  }

  /** Where every account has a password, every account keeps having one. */
  lemma {:induction false} RunPasswords(s: Accounts, events: seq<Event>)
    requires PasswordsSet(s.users)
    ensures PasswordsSet(After(s, events).users)
  {
    hide Step;
    if events != [] {
      var last := |events| - 1;
      RunPasswords(s, events[..last]);
      StepPasswords(After(s, events[..last]), events[last].op, events[last].now);
    }
  }

  /** A null password signs in exactly where the account has none, for a verified, active and unlocked account. */
  lemma NullPasswordSignsInIff(s: Accounts, email: string, allowance: nat, now: int)
    requires FindByEmail(s.users, email).Some?
    ensures var u := s.users[FindByEmail(s.users, email).value];
            Login(s, email, None, allowance, now).reply.SignedIn? <==>
              u.password.None? && u.isActive && u.isEmailVerified && !LockedAt(u, now)
  {
    hide Login, FindByEmail;
    AccountsLockout.LoginTouchesOneRow(s, email, None, allowance, now);
  }

  /** From an empty table no login without a password ever signs in. */
  lemma NobodySignsInWithoutPassword(events: seq<Event>, k: nat, email: string, allowance: nat)
    requires k < |events| && events[k].op == OpLogin(email, None, allowance)
    ensures !ReplyAt(EMPTY, events, k).SignedIn?
  {
    hide After, Login, FindByEmail;
    RunPasswords(EMPTY, events[..k]);
    var s := After(EMPTY, events[..k]);
    FoundIsLive(s.users, email);
    AccountsLockout.LoginTouchesOneRow(s, email, None, allowance, events[k].now);
  }
}
