/** Addresses and the pending-change index over whole runs. */
module AccountsEmail {
  import opened Core
  import opened Accounts
  import AccountsLockout
  import AccountsSessions

  /** No address - current or pending - is shared by two live accounts. */
  ghost predicate Unshared(users: seq<User>) {
    forall i, j :: 0 <= i < |users| && 0 <= j < |users| && i != j && Live(users[i]) && Live(users[j]) ==>
      && users[i].email != users[j].email
      && users[j].pendingEmail != Some(users[i].email)
      && (users[i].pendingEmail.Some? ==> users[i].pendingEmail != users[j].pendingEmail)
  }

  /**
   The index maps a token to exactly the live account that carries it, and the pending fields come and go together.
   */
  ghost predicate IndexOk(s: Accounts) {
    && (forall t :: t in s.emailChanges ==>
         t < s.issued && LiveId(s.users, s.emailChanges[t]) &&
         s.users[s.emailChanges[t]].pendingEmailToken == Some(t))
    && (forall i :: 0 <= i < |s.users| && s.users[i].pendingEmailToken.Some? ==>
          s.users[i].pendingEmailToken.value in s.emailChanges &&
            s.emailChanges[s.users[i].pendingEmailToken.value] == i)
    && (forall i :: 0 <= i < |s.users| ==> (s.users[i].pendingEmail.Some? <==> s.users[i].pendingEmailToken.Some?))
  }

  ghost predicate EmailsOk(s: Accounts) { Unshared(s.users) && IndexOk(s) }

  // ----- steps that do not touch addresses -----

  ghost predicate SameAddresses(a: seq<User>, b: seq<User>) {
    |a| == |b| && forall i :: 0 <= i < |a| ==>
      b[i].email == a[i].email && b[i].pendingEmail == a[i].pendingEmail &&
        b[i].pendingEmailToken == a[i].pendingEmailToken && b[i].deletedAt == a[i].deletedAt
  }

  lemma AddressesUntouched(s: Accounts, t: Accounts)
    requires EmailsOk(s) && SameAddresses(s.users, t.users) && t.emailChanges == s.emailChanges && s.issued <= t.issued
    ensures EmailsOk(t)
  {
  }

  lemma EndSessionsEmails(s: Accounts, user: nat, now: int)
    requires EmailsOk(s)
    ensures EmailsOk(EndSessions(s, user, now))
  {
    hide Owned, DropUser;
    AddressesUntouched(s, EndSessions(s, user, now));
  }

  lemma QuietEmails(s: Accounts, op: Op, now: int)
    requires EmailsOk(s)
    requires op.OpOAuthSignIn? || op.OpRefresh? || op.OpLogout? || op.OpForgotPassword? || op.OpVerifyEmail? ||
             op.OpResendVerification? || op.OpChangeRoles?
    ensures EmailsOk(Step(s, op, now).accounts)
  {
    hide EmailsOk, Step, SameAddresses;
    if op.OpOAuthSignIn? || op.OpRefresh? {
      QuietSignIns(s, op, now);
    } else {
      QuietOthers(s, op, now);
    }
    AddressesUntouched(s, Step(s, op, now).accounts);
  }

  lemma QuietSignIns(s: Accounts, op: Op, now: int)
    requires op.OpOAuthSignIn? || op.OpRefresh?
    ensures var t := Step(s, op, now).accounts;
            SameAddresses(s.users, t.users) && t.emailChanges == s.emailChanges && s.issued <= t.issued
  {
    hide Owned, DropUser, Prune, OwnerOf, DropToken, IssueAccess;
  }

  lemma QuietOthers(s: Accounts, op: Op, now: int)
    requires op.OpLogout? || op.OpForgotPassword? || op.OpVerifyEmail? || op.OpResendVerification? || op.OpChangeRoles?
    ensures var t := Step(s, op, now).accounts;
            SameAddresses(s.users, t.users) && t.emailChanges == s.emailChanges && s.issued <= t.issued
  {
    hide Owned, DropUser, FindByEmail, Authenticate;
  }

  lemma LoginEmails(s: Accounts, email: string, password: Option<string>, allowance: nat, now: int)
    requires EmailsOk(s)
    ensures EmailsOk(Login(s, email, password, allowance, now).accounts)
  {
    hide EmailsOk, Prune, Login, FindByEmail;
    var o, found := Login(s, email, password, allowance, now), FindByEmail(s.users, email);
    var mid, id := AccountsSessions.LoginShape(s, email, password, allowance, now);
    assert o.accounts.emailChanges == s.emailChanges && s.issued <= o.accounts.issued;
    AccountsLockout.LoginTouchesOneRow(s, email, password, allowance, now);
    FoundIsLive(s.users, email);
    assert SameAddresses(s.users, o.accounts.users);
    AddressesUntouched(s, o.accounts);
  }

  lemma PasswordEmails(s: Accounts, access: AccessToken, current: Option<string>, next: string, now: int)
    requires EmailsOk(s)
    ensures EmailsOk(ChangePassword(s, access, current, next, now).accounts)
  {
    hide EmailsOk, EndSessions;
    var o := ChangePassword(s, access, current, next, now);
    if o.reply.SessionsEnded? {
      var id := o.reply.user;
      var mid := s.(users := s.users[id := s.users[id].(password := Some(next))]);
      AddressesUntouched(s, mid);
      EndSessionsEmails(mid, id, now);
    }
  }

  // ----- the address-changing blocks -----

  /** Canceling a change in flight: fields and index together. */
  lemma ClearPendingEmails(s: Accounts, id: nat)
    requires EmailsOk(s) && id < |s.users|
    ensures EmailsOk(ClearPending(s, id))
  {
  }

  /** A live account moves to an address nobody else uses. */
  lemma Moved(s: Accounts, id: nat, u: User)
    requires EmailsOk(s) && LiveId(s.users, id) && s.users[id].pendingEmail.None?
    requires Live(u) && u.pendingEmail.None? && u.pendingEmailToken.None? && !TakenByOther(s.users, id, u.email)
    ensures EmailsOk(s.(users := s.users[id := u]))
  {
  }

  lemma Added(s: Accounts, u: User, t: Accounts)
    requires EmailsOk(s) && !AddressTaken(s.users, u.email)
    requires Live(u) && u.pendingEmail.None? && u.pendingEmailToken.None?
    requires t.users == s.users + [u] && t.emailChanges == s.emailChanges && s.issued <= t.issued
    ensures EmailsOk(t)
  {
  }

  lemma ResetEmails(s: Accounts, token: nat, next: string, now: int)
    requires EmailsOk(s)
    ensures EmailsOk(ResetPassword(s, token, next, now).accounts)
  {
    hide EmailsOk, ClearPending, EndSessions;
    if token in s.resets && LiveId(s.users, s.resets[token]) {
      var id := s.resets[token];
      var s0 := s.(users := s.users[id := s.users[id].(password := Some(next))]);
      AddressesUntouched(s, s0);
      ClearPendingEmails(s0, id);
      var s1 := ClearPending(s0, id);
      AddressesUntouched(s1, s1.(resets := s1.resets - {token}));
      EndSessionsEmails(s1.(resets := s1.resets - {token}), id, now);
    }
  }

  lemma InitiateEmails(s: Accounts, access: AccessToken, current: string, newEmail: string, now: int)
    requires EmailsOk(s)
    ensures EmailsOk(InitiateEmailChange(s, access, current, newEmail, now).accounts)
  {
    hide EmailsOk, Authenticate, TakenByOther;
    var user := Authenticate(s, access, now);
    if user.Some? && user.value < |s.users| && !TakenByOther(s.users, user.value, newEmail) {
      if LiveId(s.users, user.value) {
        PendingAdded(s, user.value, newEmail, Some(now + EMAIL_CHANGE_TOKEN_EXPIRY_MS));
      }
    }
  }

  /** An account starts to await an address nobody else uses, its change in flight - if any - replaced. */
  lemma PendingAdded(s: Accounts, id: nat, newEmail: string, expiresAt: Option<int>)
    requires EmailsOk(s) && LiveId(s.users, id) && !TakenByOther(s.users, id, newEmail)
    ensures var pending := s.users[id].(pendingEmail := Some(newEmail), pendingEmailToken := Some(s.issued),
            pendingEmailExpiresAt := expiresAt);
            EmailsOk(s.(users := s.users[id := pending],
                        emailChanges := DropKey(s.emailChanges, s.users[id].pendingEmailToken)[s.issued := id],
                        issued := s.issued + 1))
  {
  }

  /** The race check of a confirmation never fires: an address is reserved from the moment a change to it is pending. */
  lemma ConfirmNeverConflicts(s: Accounts, token: nat, now: int)
    requires EmailsOk(s)
    ensures ConfirmEmailChange(s, token, now).reply != Refused(409)
  {
    hide EndSessions;
    if token in s.emailChanges {
      var id := s.emailChanges[token];
      assert forall i :: 0 <= i < |s.users| && i != id && Live(s.users[i]) ==>
        s.users[id].pendingEmail != Some(s.users[i].email);
    }
  }

  lemma ConfirmEmails(s: Accounts, token: nat, now: int)
    requires EmailsOk(s)
    ensures EmailsOk(ConfirmEmailChange(s, token, now).accounts)
  {
    ConfirmNeverConflicts(s, token, now);
    if token in s.emailChanges {
      var id := s.emailChanges[token];
      var u := s.users[id];
      var cleared := ClearPending(s, id);
      ClearPendingEmails(s, id);
      assert cleared.emailChanges == s.emailChanges - {token};
      hide EndSessions;
      var moved := WithoutPending(u).(email := u.pendingEmail.value, isEmailVerified := true);
      PendingIsFree(s, id);
      Moved(cleared, id, moved);
      EndSessionsEmails(cleared.(users := cleared.users[id := moved]), id, now);
      assert cleared.users[id := moved] == s.users[id := moved];
    }
  }

  lemma PendingIsFree(s: Accounts, id: nat)
    requires EmailsOk(s) && LiveId(s.users, id) && s.users[id].pendingEmail.Some?
    ensures !TakenByOther(ClearPending(s, id).users, id, s.users[id].pendingEmail.value)
  {
  }

  lemma CreateEmails(s: Accounts, op: Op, now: int)
    requires EmailsOk(s) && (op.OpRegister? || op.OpAdminCreate?)
    ensures EmailsOk(Step(s, op, now).accounts)
  {
    hide EmailsOk, AddressTaken;
    if !AddressTaken(s.users, op.email) {
      var t := Step(s, op, now).accounts;
      Added(s, t.users[|s.users|], t);
    }
  }

  /** Where no address is shared, looking at its first holder finds the same conflicts as looking at every account. */
  lemma ConflictIffTaken(s: Accounts, id: nat, email: string)
    requires EmailsOk(s) && LiveId(s.users, id)
    ensures PatchConflicts(s.users, id, email) <==> TakenByOther(s.users, id, email)
  {
    if TakenByOther(s.users, id, email) {
      var i :| 0 <= i < |s.users| && i != id && Live(s.users[i]) &&
        (s.users[i].email == email || s.users[i].pendingEmail == Some(email));
      assert s.users[i].email == email ==> FindByEmail(s.users, email).Some?;
    }
  }

  lemma PatchEmails(s: Accounts, id: nat, p: Patch, now: int)
    requires EmailsOk(s)
    ensures EmailsOk(AdminPatch(s, id, p, now).accounts)
  {
    hide EmailsOk, PatchEmail, EndSessions, TakenByOther, PatchConflicts;
    var o := AdminPatch(s, id, p, now);
    if !o.reply.Refused? {
      var s1 := if p.email.Some? then PatchEmail(s, id, p.email.value, now) else s;
      if p.email.Some? {
        ConflictIffTaken(s, id, p.email.value);
        PatchEmailEmails(s, id, p.email.value, now);
      }
      var s2 := s1;
      if p.password.Some? {
        var mid := s1.(users := s1.users[id := s1.users[id].(password := p.password)]);
        AddressesUntouched(s1, mid);
        EndSessionsEmails(mid, id, now);
        s2 := EndSessions(mid, id, now);
      }
      AddressesUntouched(s2, o.accounts);
    }
  }

  lemma PatchEmailEmails(s: Accounts, id: nat, email: string, now: int)
    requires EmailsOk(s) && LiveId(s.users, id) && !TakenByOther(s.users, id, email)
    ensures EmailsOk(PatchEmail(s, id, email, now))
  {
    if email != s.users[id].email {
      var s1 := ClearPending(s, id);
      ClearPendingEmails(s, id);
      hide EndSessions, EmailsOk;
      var u := s1.users[id].(email := email, isEmailVerified := false);
      assert !TakenByOther(s1.users, id, email) by {
        assert forall i :: 0 <= i < |s.users| && i != id ==> s1.users[i] == s.users[i];
      }
      Moved(s1, id, u);
      EndSessionsEmails(s1.(users := s1.users[id := u]), id, now);
    }
  }

  lemma DeleteEmails(s: Accounts, id: nat, now: int)
    requires EmailsOk(s)
    ensures EmailsOk(DeleteUser(s, id, now).accounts)
  {
    hide Owned, DropUser, EmailsOk;
    if LiveId(s.users, id) {
      ClearPendingEmails(s, id);
      Buried(s, ClearPending(s, id), DeleteUser(s, id, now).accounts, id, now);
    }
  }

  /** A row without a pending change can be marked deleted. */
  lemma Buried(s: Accounts, cleared: Accounts, t: Accounts, id: nat, now: int)
    requires id < |s.users| && cleared == ClearPending(s, id) && EmailsOk(cleared)
    requires t.emailChanges == cleared.emailChanges && t.issued == cleared.issued
    requires t.users == s.users[id := WithoutPending(s.users[id]).(deletedAt := Some(now))]
    ensures EmailsOk(t)
  {
    assert forall i :: 0 <= i < |s.users| && i != id ==> t.users[i] == cleared.users[i];
    assert !Live(t.users[id]) && cleared.users[id].pendingEmailToken.None?;
    hide ClearPending;
  }

  // ----- a change from start to finish -----

  lemma Initiated(s: Accounts, access: AccessToken, current: string, newEmail: string, now: int) returns (id: nat)
    requires InitiateEmailChange(s, access, current, newEmail, now).accounts != s
    ensures var t := InitiateEmailChange(s, access, current, newEmail, now).accounts;
            && Authenticate(s, access, now) == Some(id) && LiveId(s.users, id) && !TakenByOther(s.users, id, newEmail)
            && t.emailChanges == DropKey(s.emailChanges, s.users[id].pendingEmailToken)[s.issued := id]
            && t.users == s.users[id := s.users[id].(pendingEmail := Some(newEmail),
                 pendingEmailToken := Some(s.issued),
                 pendingEmailExpiresAt := Some(now + EMAIL_CHANGE_TOKEN_EXPIRY_MS))]
  {
    id := Authenticate(s, access, now).value;
  }

  /**
   Confirming with the mailed token moves the account to the new, verified address within the hour, and only drops the
   change after it.
   */
  lemma InitiateThenConfirm(s: Accounts, access: AccessToken, current: string, newEmail: string, now: int, later: int)
      returns (id: nat)
    requires EmailsOk(s) && InitiateEmailChange(s, access, current, newEmail, now).accounts != s
    ensures var t := InitiateEmailChange(s, access, current, newEmail, now).accounts;
            var o := ConfirmEmailChange(t, s.issued, later);
            && Authenticate(s, access, now) == Some(id) && |o.accounts.users| == |s.users|
            && o.accounts.emailChanges == DropKey(s.emailChanges, s.users[id].pendingEmailToken)
            && (forall i :: 0 <= i < |s.users| && i != id ==> o.accounts.users[i] == s.users[i])
            && o.accounts.users[id] == if later <= now + EMAIL_CHANGE_TOKEN_EXPIRY_MS
                 then WithoutPending(s.users[id]).(email := newEmail, isEmailVerified := true,
                   tokenRevokedAt := Some(later))
                 else WithoutPending(s.users[id])
  {
    id := Initiated(s, access, current, newEmail, now);
    assert s.issued !in DropKey(s.emailChanges, s.users[id].pendingEmailToken);
    assert !exists i :: 0 <= i < |s.users| && i != id && Live(s.users[i]) && s.users[i].email == newEmail;
    var t := InitiateEmailChange(s, access, current, newEmail, now).accounts;
    hide InitiateEmailChange, Authenticate, ConfirmEmailChange, TakenByOther, EmailsOk;
    Confirmed(s, t, id, newEmail, now, later);
  }

  /** Confirming a change that is pending since `now`. */
  lemma Confirmed(s: Accounts, t: Accounts, id: nat, newEmail: string, now: int, later: int)
    requires LiveId(s.users, id)
    requires !exists i :: 0 <= i < |s.users| && i != id && Live(s.users[i]) && s.users[i].email == newEmail
    requires t.users == s.users[id := s.users[id].(pendingEmail := Some(newEmail),
             pendingEmailToken := Some(s.issued), pendingEmailExpiresAt := Some(now + EMAIL_CHANGE_TOKEN_EXPIRY_MS))]
    requires s.issued in t.emailChanges && t.emailChanges[s.issued] == id
    ensures var a := ConfirmEmailChange(t, s.issued, later).accounts;
            && a.emailChanges == t.emailChanges - {s.issued}
            && a.users == s.users[id := if later <= now + EMAIL_CHANGE_TOKEN_EXPIRY_MS
                 then WithoutPending(s.users[id]).(email := newEmail, isEmailVerified := true,
                   tokenRevokedAt := Some(later))
                 else WithoutPending(s.users[id])]
  {
    assert !exists i :: 0 <= i < |t.users| && i != id && Live(t.users[i]) && t.users[i].email == newEmail;
    hide Owned, DropUser;
  }

  // ----- restoring -----

  /** Nobody live has taken the account's address - a live account's own restore changes nothing. */
  predicate AddressFree(users: seq<User>, id: nat) {
    id >= |users| || Live(users[id]) || !TakenByOther(users, id, users[id].email)
  }

  /** Restore re-checks nothing, so it keeps the promise exactly when the address is still free. */
  lemma RestoreIffFree(s: Accounts, id: nat)
    requires EmailsOk(s)
    ensures EmailsOk(RestoreUser(s, id).accounts) <==> AddressFree(s.users, id)
  {
    if id < |s.users| && !Live(s.users[id]) {
      assert s.users[id].pendingEmailToken.None?;
      var t := RestoreUser(s, id).accounts;
      if TakenByOther(s.users, id, s.users[id].email) {
        var i :| 0 <= i < |s.users| && i != id && Live(s.users[i]) &&
          (s.users[i].email == s.users[id].email || s.users[i].pendingEmail == Some(s.users[id].email));
        assert t.users[i] == s.users[i] && Live(t.users[id]);
      }
    } else if id < |s.users| {
      assert s.users[id := s.users[id].(deletedAt := None)] == s.users;
    }
  }

  /** The failing run: delete, register the same address anew, restore. */
  lemma RestoreCanCollide(email: string, password: string, now: int)
    ensures var s := After(EMPTY, [Event(OpAdminCreate(email, password), now), Event(OpDeleteUser(0), now),
                                   Event(OpAdminCreate(email, password), now), Event(OpRestoreUser(0), now)]);
            |s.users| == 2 && Live(s.users[0]) && Live(s.users[1]) && s.users[0].email == email &&
              s.users[1].email == email
  {
    hide AdminCreate, DeleteUser, RestoreUser;
    var e := [Event(OpAdminCreate(email, password), now), Event(OpDeleteUser(0), now),
      Event(OpAdminCreate(email, password), now), Event(OpRestoreUser(0), now)];
    FourEvents(EMPTY, e);
    Recreated(email, password, now);
  }

  lemma Recreated(email: string, password: string, now: int)
    ensures var s := RestoreUser(AdminCreate(DeleteUser(AdminCreate(EMPTY, email, password).accounts, 0,
            now).accounts, email, password).accounts, 0).accounts;
            |s.users| == 2 && Live(s.users[0]) && Live(s.users[1]) && s.users[0].email == email &&
              s.users[1].email == email
  {
    hide Owned, DropUser;
    var s1 := AdminCreate(EMPTY, email, password).accounts;
    assert s1.users == [NewUser(email, password, true)];
    var s2 := DeleteUser(s1, 0, now).accounts;
    assert |s2.users| == 1 && !Live(s2.users[0]) && s2.users[0].email == email;
    assert s2.users[0].pendingEmail.None?;
    var s3 := AdminCreate(s2, email, password).accounts;
    assert s3.users == s2.users + [NewUser(email, password, true)];
  }

  lemma FourEvents(s: Accounts, e: seq<Event>)
    requires |e| == 4
    ensures var s1 := Step(s, e[0].op, e[0].now).accounts;
            var s2 := Step(s1, e[1].op, e[1].now).accounts;
            var s3 := Step(s2, e[2].op, e[2].now).accounts;
            After(s, e) == Step(s3, e[3].op, e[3].now).accounts
  {
    hide Step, After;
    assert After(s, e[..0]) == s by {
      NoEvents(s);
    }
    AccountsSessions.AfterNext(s, e, 0);
    AccountsSessions.AfterNext(s, e, 1);
    AccountsSessions.AfterNext(s, e, 2);
    AccountsSessions.AfterNext(s, e, 3);
    assert e[..4] == e;
  }

  lemma NoEvents(s: Accounts)
    ensures After(s, []) == s
  {
  }

  // ----- runs -----

  predicate Permitted(s: Accounts, op: Op) {
    op.OpRestoreUser? ==> AddressFree(s.users, op.id)
  }

  lemma StepEmails(s: Accounts, op: Op, now: int)
    requires EmailsOk(s) && Permitted(s, op)
    ensures EmailsOk(Step(s, op, now).accounts)
  {
    hide EmailsOk;
    match op
    case OpLogin(email, password, allowance) => LoginEmails(s, email, password, allowance, now);
    case OpChangePassword(access, current, next) => PasswordEmails(s, access, current, next, now);
    case OpResetPassword(token, next) => ResetEmails(s, token, next, now);
    case OpInitiateEmailChange(access, current, newEmail) => InitiateEmails(s, access, current, newEmail, now);
    case OpConfirmEmailChange(token) => ConfirmEmails(s, token, now);
    case OpRegister(_, _) => CreateEmails(s, op, now);
    case OpAdminCreate(_, _) => CreateEmails(s, op, now);
    case OpAdminPatch(id, p) => PatchEmails(s, id, p, now);
    case OpDeleteUser(id) => DeleteEmails(s, id, now);
    case OpRestoreUser(id) => RestoreIffFree(s, id);
    case _ => QuietEmails(s, op, now);
  }

  ghost predicate AllPermitted(s: Accounts, events: seq<Event>) {
    forall k :: 0 <= k < |events| ==> Permitted(After(s, events[..k]), events[k].op)
  }

  /**
   In every run whose restores find the address free, no address is ever shared, the index agrees with the rows, and
   no confirmation conflicts.
   */
  lemma {:induction false} AddressesNeverShared(s: Accounts, events: seq<Event>)
    requires EmailsOk(s) && AllPermitted(s, events)
    ensures EmailsOk(After(s, events))
    ensures forall k :: 0 <= k < |events| && events[k].op.OpConfirmEmailChange? ==>
            ReplyAt(s, events, k) != Refused(409)
  {
    hide Step, EmailsOk, Permitted;
    if events != [] {
      var last := |events| - 1;
      var init := events[..last];
      assert forall k :: 0 <= k <= last ==> init[..k] == events[..k];
      AddressesNeverShared(s, init);
      StepEmails(After(s, init), events[last].op, events[last].now);
      forall k | 0 <= k < |events| && events[k].op.OpConfirmEmailChange?
        ensures ReplyAt(s, events, k) != Refused(409)
      {
        if k < last {
          assert ReplyAt(s, init, k) == ReplyAt(s, events, k);
        } else {
          ConfirmReply(After(s, init), events[last].op, events[last].now);
        }
      }
    }
  }

  lemma ConfirmReply(s: Accounts, op: Op, now: int)
    requires EmailsOk(s) && op.OpConfirmEmailChange?
    ensures Step(s, op, now).reply != Refused(409)
  {
    hide EmailsOk, ConfirmEmailChange;
    ConfirmNeverConflicts(s, op.token, now);
  }

  lemma EmptyEmails()
    ensures EmailsOk(EMPTY)
  {
  }
}
