/** The login lockout over whole runs. */
module AccountsLockout {
  import opened Core
  import opened Accounts

  /** Unlocked accounts have attempts to spare; locked ones have used exactly all of them. */
  ghost predicate LockOk(u: User) {
    if u.lockedUntil.None? then u.failedLoginAttempts < MAX_FAILED_ATTEMPTS
      else u.failedLoginAttempts == MAX_FAILED_ATTEMPTS
  }

  ghost predicate LocksOk(users: seq<User>) {
    forall i :: 0 <= i < |users| ==> LockOk(users[i])
  }

  /** The lock fields of one account. */
  ghost predicate SameLock(a: User, b: User) {
    b.failedLoginAttempts == a.failedLoginAttempts && b.lockedUntil == a.lockedUntil
  }

  // ----- what counts -----

  /**
   A password comparison that fails for account `id`: found by its address, not locked, active, and the wrong
   password.
   */
  predicate FailsComparison(s: Accounts, op: Op, now: int, id: nat) {
    && op.OpLogin? && FindByEmail(s.users, op.email) == Some(id)
    && !LockedAt(s.users[id], now) && s.users[id].isActive && s.users[id].password != op.password
  }

  /** A successful login of the account, or an admin unlock. */
  predicate Resets(s: Accounts, op: Op, now: int, id: nat) {
    || (op.OpLogin? && var r := Step(s, op, now).reply; r.SignedIn? && r.user == id)
    || (op.OpAdminPatch? && op.id == id && op.patch.unlock && !Step(s, op, now).reply.Refused?)
  }

  function Failures(s: Accounts, events: seq<Event>, id: nat): nat {
    if events == [] then 0
    else
      var init, last := events[..|events| - 1], events[|events| - 1];
      Failures(s, init, id) + if FailsComparison(After(s, init), last.op, last.now, id) then 1 else 0
  }

  ghost predicate NeverResets(s: Accounts, events: seq<Event>, id: nat) {
    forall k :: 0 <= k < |events| ==> !Resets(After(s, events[..k]), events[k].op, events[k].now, id)
  }

  // ----- one step -----

  /** What one step may do to one account's lock. */
  ghost predicate LockStep(s: Accounts, op: Op, now: int, id: nat, a: User, b: User) {
    if FailsComparison(s, op, now, id) then SameLock(CountFailure(Unexpired(a), now), b)
    else
      || SameLock(a, b)
      || (SameLock(Unexpired(a), b) && !LockedAt(a, now))
      || (Resets(s, op, now, id) && b.lockedUntil.None? && b.failedLoginAttempts == 0)
  }

  ghost predicate UsersStep(s: Accounts, op: Op, now: int, after: seq<User>) {
    && |s.users| <= |after|
    && (forall i :: 0 <= i < |s.users| ==> LockStep(s, op, now, i, s.users[i], after[i]))
    && (forall i :: |s.users| <= i < |after| ==> after[i].lockedUntil.None? && after[i].failedLoginAttempts == 0)
  }

  /** The row a login leaves behind. */
  function LoginRow(u: User, password: Option<string>, now: int): User {
    if LockedAt(u, now) then u
    else if !u.isActive then Unexpired(u)
    else if u.password != password then CountFailure(Unexpired(u), now)
    else if !u.isEmailVerified then Unexpired(u)
    else Unexpired(u).(failedLoginAttempts := 0, lockedUntil := None)
  }

  lemma LoginTouchesOneRow(s: Accounts, email: string, password: Option<string>, allowance: nat, now: int)
    ensures var found, o := FindByEmail(s.users, email), Login(s, email, password, allowance, now);
            && o.accounts.users == (if found.None? then s.users
                 else s.users[found.value := LoginRow(s.users[found.value], password, now)])
            && (o.reply.SignedIn? ==> found == Some(o.reply.user))
            && (o.reply.SignedIn? <==>
                  && found.Some? && !LockedAt(s.users[found.value], now) && s.users[found.value].isActive
                  && s.users[found.value].password == password && s.users[found.value].isEmailVerified)
  {
    hide Prune;
  }

  lemma LoginStep(s: Accounts, email: string, password: Option<string>, allowance: nat, now: int)
    ensures UsersStep(s, OpLogin(email, password, allowance), now,
            Login(s, email, password, allowance, now).accounts.users)
  {
    LoginTouchesOneRow(s, email, password, allowance, now);
    hide Login;
    var op, found := OpLogin(email, password, allowance), FindByEmail(s.users, email);
    assert found.Some? ==> found.value < |s.users|;
    hide FindByEmail;
    var after := Login(s, email, password, allowance, now).accounts.users;
    assert Step(s, op, now) == Login(s, email, password, allowance, now);
    forall i | 0 <= i < |s.users|
      ensures LockStep(s, op, now, i, s.users[i], after[i])
    {
      if found == Some(i) {
        assert after[i] == LoginRow(s.users[i], password, now);
      }
    }
  }

  /** No lock moves, and new accounts start clean. */
  ghost predicate LocksKept(a: seq<User>, b: seq<User>) {
    && |a| <= |b|
    && (forall i :: 0 <= i < |a| ==> SameLock(a[i], b[i]))
    && (forall i :: |a| <= i < |b| ==> b[i].lockedUntil.None? && b[i].failedLoginAttempts == 0)
  }

  lemma LocksKeptIsAStep(s: Accounts, op: Op, now: int, after: seq<User>)
    requires LocksKept(s.users, after) && !op.OpLogin?
    ensures UsersStep(s, op, now, after)
  {
    hide Resets;
    assert forall i :: !FailsComparison(s, op, now, i);
  }

  lemma SessionSteps(s: Accounts, op: Op, now: int)
    requires op.OpOAuthSignIn? || op.OpRefresh? || op.OpLogout? || op.OpForgotPassword? ||
             op.OpResendVerification? || op.OpChangeRoles?
    ensures LocksKept(s.users, Step(s, op, now).accounts.users)
  {
    hide Prune, FindByEmail, OwnerOf, Owned, DropUser, DropToken, Authenticate, IssueAccess;
  }

  lemma PasswordSteps(s: Accounts, op: Op, now: int)
    requires op.OpChangePassword? || op.OpResetPassword?
    ensures LocksKept(s.users, Step(s, op, now).accounts.users)
  {
    hide Owned, DropUser, Authenticate;
  }

  lemma EmailChangeSteps(s: Accounts, op: Op, now: int)
    requires op.OpInitiateEmailChange? || op.OpConfirmEmailChange?
    ensures LocksKept(s.users, Step(s, op, now).accounts.users)
  {
    hide LocksKept, InitiateEmailChange, ConfirmEmailChange;
    match op
    case OpInitiateEmailChange(access, current, newEmail) => InitiateLocks(s, access, current, newEmail, now);
    case OpConfirmEmailChange(token) => ConfirmLocks(s, token, now);
  }

  lemma InitiateLocks(s: Accounts, access: AccessToken, current: string, newEmail: string, now: int)
    ensures LocksKept(s.users, InitiateEmailChange(s, access, current, newEmail, now).accounts.users)
  {
    hide TakenByOther;
  }

  lemma ConfirmLocks(s: Accounts, token: nat, now: int)
    ensures LocksKept(s.users, ConfirmEmailChange(s, token, now).accounts.users)
  {
    hide EndSessions, HeldElsewhere, LocksKept;
    var o := ConfirmEmailChange(s, token, now);
    if o.reply.SessionsEnded? {
      var id := o.reply.user;
      var moved := WithoutPending(s.users[id]).(email := s.users[id].pendingEmail.value, isEmailVerified := true);
      var mid := s.(emailChanges := s.emailChanges - {token}, users := s.users[id := moved]);
      OneRowLocks(s.users, id, moved);
      EndSessionsKeeps(mid, id, now);
      LocksCompose(s.users, mid.users, o.accounts.users);
    } else if token in s.emailChanges && LiveId(s.users, s.emailChanges[token]) {
      OneRowLocks(s.users, s.emailChanges[token], WithoutPending(s.users[s.emailChanges[token]]));
      NoRowLocks(s.users);
    } else {
      NoRowLocks(s.users);
    }
  }

  lemma OneRowLocks(users: seq<User>, id: nat, u: User)
    requires id < |users| && SameLock(users[id], u)
    ensures LocksKept(users, users[id := u])
  {
  }

  lemma NoRowLocks(users: seq<User>)
    ensures LocksKept(users, users)
  {
  }

  lemma LocksCompose(a: seq<User>, b: seq<User>, c: seq<User>)
    requires |a| == |b| && LocksKept(a, b) && LocksKept(b, c)
    ensures LocksKept(a, c)
  {
  }

  lemma AccountSteps(s: Accounts, op: Op, now: int)
    requires op.OpRegister? || op.OpAdminCreate? || op.OpVerifyEmail? || op.OpDeleteUser? || op.OpRestoreUser?
    ensures LocksKept(s.users, Step(s, op, now).accounts.users)
  {
    hide AddressTaken, Owned, DropUser;
  }

  lemma PatchEmailKeeps(s: Accounts, id: nat, email: string, now: int)
    requires id < |s.users|
    ensures LocksKept(s.users, PatchEmail(s, id, email, now).users)
  {
    hide Owned, DropUser;
  }

  lemma EndSessionsKeeps(s: Accounts, id: nat, now: int)
    ensures LocksKept(s.users, EndSessions(s, id, now).users)
  {
    hide Owned, DropUser;
  }

  lemma PatchStep(s: Accounts, id: nat, p: Patch, now: int)
    ensures UsersStep(s, OpAdminPatch(id, p), now, AdminPatch(s, id, p, now).accounts.users)
  {
    hide PatchConflicts, EndSessions, PatchEmail;
    var o := AdminPatch(s, id, p, now);
    assert forall i :: !FailsComparison(s, OpAdminPatch(id, p), now, i);
    if !o.reply.Refused? {
      var s1 := if p.email.Some? then PatchEmail(s, id, p.email.value, now) else s;
      if p.email.Some? {
        PatchEmailKeeps(s, id, p.email.value, now);
      }
      var s2 := s1.(users := s1.users[id := s1.users[id].(password := p.password)]);
      EndSessionsKeeps(s2, id, now);
    }
  }

  lemma StepUsers(s: Accounts, op: Op, now: int)
    ensures UsersStep(s, op, now, Step(s, op, now).accounts.users)
  {
    hide UsersStep, LocksKept;
    match op
    case OpLogin(email, password, allowance) => LoginStep(s, email, password, allowance, now);
    case OpAdminPatch(id, p) => PatchStep(s, id, p, now);
    case _ =>
      if op.OpInitiateEmailChange? || op.OpConfirmEmailChange? {
        EmailChangeSteps(s, op, now);
        LocksKeptIsAStep(s, op, now, Step(s, op, now).accounts.users);
      } else if op.OpRegister? || op.OpAdminCreate? || op.OpVerifyEmail? || op.OpDeleteUser? || op.OpRestoreUser? {
        AccountSteps(s, op, now);
        LocksKeptIsAStep(s, op, now, Step(s, op, now).accounts.users);
      } else if op.OpChangePassword? || op.OpResetPassword? {
        PasswordSteps(s, op, now);
        LocksKeptIsAStep(s, op, now, Step(s, op, now).accounts.users);
      } else {
        SessionSteps(s, op, now);
        LocksKeptIsAStep(s, op, now, Step(s, op, now).accounts.users);
      }
  }

  /** Every step keeps the lock invariant. */
  lemma StepKeepsLocks(s: Accounts, op: Op, now: int)
    requires LocksOk(s.users)
    ensures LocksOk(Step(s, op, now).accounts.users)
  {
    StepUsers(s, op, now);
    hide Step, FailsComparison, Resets;
    var after := Step(s, op, now).accounts.users;
    forall i | 0 <= i < |after|
      ensures LockOk(after[i])
    {
      if i < |s.users| {
        assert LockOk(s.users[i]) && LockStep(s, op, now, i, s.users[i], after[i]);
      }
    }
  }

  lemma {:induction false} RunKeepsLocks(s: Accounts, events: seq<Event>)
    requires LocksOk(s.users)
    ensures LocksOk(After(s, events).users)
    ensures |s.users| <= |After(s, events).users|
  {
    hide Step, LocksOk;
    if events != [] {
      var last := |events| - 1;
      RunKeepsLocks(s, events[..last]);
      StepKeepsLocks(After(s, events[..last]), events[last].op, events[last].now);
      StepUsers(After(s, events[..last]), events[last].op, events[last].now);
    }
  }

  // ----- the window -----

  /**
   The failures an account can still have before `end`: none while locked past it, a fresh set once a lock runs out,
   else what is left.
   */
  function Allowance(users: seq<User>, id: nat, end: int): int {
    if id >= |users| then MAX_FAILED_ATTEMPTS
    else if users[id].lockedUntil.None? then MAX_FAILED_ATTEMPTS - users[id].failedLoginAttempts
    else if users[id].lockedUntil.value >= end then 0
    else MAX_FAILED_ATTEMPTS
  }

  lemma AllowanceFalls(s: Accounts, op: Op, now: int, id: nat, end: int)
    requires LocksOk(s.users) && now < end <= now + LOCKOUT_DURATION_MS
    requires !Resets(s, op, now, id)
    ensures Allowance(Step(s, op, now).accounts.users, id,
            end) + (if FailsComparison(s, op, now, id) then 1 else 0) <= Allowance(s.users, id, end)
  {
    StepUsers(s, op, now);
    hide Step, Resets;
    var after := Step(s, op, now).accounts.users;
    if id < |s.users| {
      assert LockOk(s.users[id]) && LockStep(s, op, now, id, s.users[id], after[id]);
    }
  }

  lemma {:induction false} FailuresWithinAllowance(s: Accounts, events: seq<Event>, id: nat, from: int)
    requires LocksOk(s.users) && NeverResets(s, events, id)
    requires forall k :: 0 <= k < |events| ==> from <= events[k].now < from + LOCKOUT_DURATION_MS
    ensures Failures(s, events, id) + Allowance(After(s, events).users, id, from + LOCKOUT_DURATION_MS)
            <= Allowance(s.users, id, from + LOCKOUT_DURATION_MS)
  {
    hide Step, LocksOk, FailsComparison, Resets, Allowance;
    if events != [] {
      var last := |events| - 1;
      var init := events[..last];
      assert forall k :: 0 <= k < last ==> init[..k] == events[..k];
      FailuresWithinAllowance(s, init, id, from);
      RunKeepsLocks(s, init);
      AllowanceFalls(After(s, init), events[last].op, events[last].now, id, from + LOCKOUT_DURATION_MS);
    }
  }

  /**
   The lockout promise: from any reachable state, in any half-open window of the lockout's length with no successful
   login and no admin unlock of the account, at most five password comparisons fail for it.
   */
  lemma AtMostFiveFailures(s: Accounts, before: seq<Event>, window: seq<Event>, id: nat, from: int)
    requires LocksOk(s.users)
    requires NeverResets(After(s, before), window, id)
    requires forall k :: 0 <= k < |window| ==> from <= window[k].now < from + LOCKOUT_DURATION_MS
    ensures Failures(After(s, before), window, id) <= MAX_FAILED_ATTEMPTS
  {
    hide Step;
    RunKeepsLocks(s, before);
    RunKeepsLocks(After(s, before), window);
    FailuresWithinAllowance(After(s, before), window, id, from);
    var u, v := After(s, before).users, After(After(s, before), window).users;
    assert id < |u| ==> LockOk(u[id]);
    assert id < |v| ==> LockOk(v[id]);
  }

  /**
   The bound is reached: wrong passwords on an unlocked account with no attempts used lock it at the fifth, for the
   whole duration.
   */
  lemma FifthFailureLocks(s: Accounts, id: nat, email: string, wrong: Option<string>, allowance: nat, now: int)
    requires FindByEmail(s.users, email) == Some(id) && s.users[id].isActive && s.users[id].password != wrong
    requires s.users[id].lockedUntil.None? && s.users[id].failedLoginAttempts == 0
    ensures var op := Event(OpLogin(email, wrong, allowance), now);
            var t := After(s, [op, op, op, op, op]);
            && id < |t.users| && t.users[id].lockedUntil == Some(now + LOCKOUT_DURATION_MS)
            && forall other, later :: later < now + LOCKOUT_DURATION_MS ==>
                 Login(t, email, other, allowance, later) == Outcome(t, Refused(423))
  {
    hide After, FindByEmail;
    var op := Event(OpLogin(email, wrong, allowance), now);
    FoundIsLive(s.users, email);
    FailedLogins(s, id, email, wrong, allowance, now, 5);
    assert Repeat(op, 5) == [op, op, op, op, op];
  }

  lemma AfterRepeat(s: Accounts, e: Event, n: nat)
    requires n > 0
    ensures After(s, Repeat(e, n)) == Step(After(s, Repeat(e, n - 1)), e.op, e.now).accounts
  {
    hide Step;
    assert Repeat(e, n)[..n - 1] == Repeat(e, n - 1);
  }

  /** One more wrong password for an unlocked account with attempts to spare. */
  lemma WrongAgain(s: Accounts, id: nat, email: string, wrong: Option<string>, allowance: nat, now: int)
    requires FindByEmail(s.users, email) == Some(id) && id < |s.users|
    requires s.users[id].isActive && s.users[id].password != wrong
    requires s.users[id].lockedUntil.None? && s.users[id].failedLoginAttempts < MAX_FAILED_ATTEMPTS
    ensures var t := Step(s, OpLogin(email, wrong, allowance), now).accounts;
            && FindByEmail(t.users, email) == Some(id) && id < |t.users|
            && t.users[id] == CountFailure(s.users[id], now)
  {
    hide Login;
    LoginTouchesOneRow(s, email, wrong, allowance, now);
    SameLookup(s.users, Step(s, OpLogin(email, wrong, allowance), now).accounts.users, email);
  }

  lemma {:induction false} FailedLogins(s: Accounts, id: nat, email: string, wrong: Option<string>, allowance: nat,
      now: int, n: nat)
    requires n <= 5
    requires FindByEmail(s.users, email) == Some(id) && id < |s.users|
    requires s.users[id].isActive && s.users[id].password != wrong
    requires s.users[id].lockedUntil.None? && s.users[id].failedLoginAttempts == 0
    ensures var t := After(s, Repeat(Event(OpLogin(email, wrong, allowance), now), n));
            && FindByEmail(t.users, email) == Some(id) && id < |t.users|
            && t.users[id] == s.users[id].(failedLoginAttempts := n,
                 lockedUntil := if n < 5 then None else Some(now + LOCKOUT_DURATION_MS))
  {
    hide Step, FindByEmail, After;
    var e := Event(OpLogin(email, wrong, allowance), now);
    if n == 0 {
      NothingRepeated(s, e);
    } else {
      FailedLogins(s, id, email, wrong, allowance, now, n - 1);
      AfterRepeat(s, e, n);
      WrongAgain(After(s, Repeat(e, n - 1)), id, email, wrong, allowance, now);
    }
  }

  lemma NothingRepeated(s: Accounts, e: Event)
    ensures After(s, Repeat(e, 0)) == s
  {
    assert Repeat(e, 0) == [];
  }
}
