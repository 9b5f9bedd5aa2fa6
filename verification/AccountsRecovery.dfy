/** Password recovery over whole runs: who holds a reset token, and what redeeming it does. */
module AccountsRecovery {
  import opened Core
  import opened Accounts
  import AccountsSessions

  /** An account has at most one reset token, and every one was issued. */
  ghost predicate ResetsOk(s: Accounts) {
    && (forall t :: t in s.resets ==> t < s.issued)
    && (forall t, u :: t in s.resets && u in s.resets && s.resets[t] == s.resets[u] ==> t == u)
  }

  predicate Redeems(op: Op, reply: Reply, token: nat) {
    op.OpResetPassword? && op.token == token && reply.SessionsEnded?
  }

  /** Reset tokens only appear by being issued, and leave when redeemed. */
  ghost predicate ResetsStep(s: Accounts, op: Op, o: Outcome) {
    && ResetsOk(o.accounts) && s.issued <= o.accounts.issued
    && (forall t :: t in o.accounts.resets ==> s.issued <= t || (t in s.resets && o.accounts.resets[t] == s.resets[t]))
    && (forall t :: Redeems(op, o.reply, t) ==> t in s.resets && t !in o.accounts.resets)
  }

  lemma SignInResets(s: Accounts, op: Op, now: int)
    requires op.OpLogin? || op.OpOAuthSignIn? || op.OpRefresh?
    ensures var o := Step(s, op, now); o.accounts.resets == s.resets && s.issued <= o.accounts.issued
  {
    hide FindByEmail, Prune, Owned, DropUser, OwnerOf, DropToken;
  }

  lemma AccountResets(s: Accounts, op: Op, now: int)
    requires op.OpLogout? || op.OpChangePassword? || op.OpConfirmEmailChange? || op.OpDeleteUser?
    ensures var o := Step(s, op, now); o.accounts.resets == s.resets && s.issued == o.accounts.issued
  {
    hide Owned, DropUser, Authenticate, PatchConflicts, PatchFlags;
  }

  lemma PatchResets(s: Accounts, id: nat, p: Patch, now: int)
    ensures var o := Step(s, OpAdminPatch(id, p), now); o.accounts.resets == s.resets && s.issued == o.accounts.issued
  {
    hide PatchConflicts, PatchFlags, PatchEmail, EndSessions;
    if p.email.Some? && LiveId(s.users, id) {
      PatchEmailResets(s, id, p.email.value, now);
    }
    forall mid: Accounts
      ensures EndSessions(mid, id, now).resets == mid.resets && EndSessions(mid, id, now).issued == mid.issued
    {
      EndSessionsResets(mid, id, now);
    }
  }

  lemma PatchEmailResets(s: Accounts, id: nat, email: string, now: int)
    requires id < |s.users|
    ensures var t := PatchEmail(s, id, email, now); t.resets == s.resets && t.issued == s.issued
  {
    hide Owned, DropUser, WithoutPending;
  }

  lemma EndSessionsResets(s: Accounts, id: nat, now: int)
    ensures EndSessions(s, id, now).resets == s.resets && EndSessions(s, id, now).issued == s.issued
  {
    hide Owned, DropUser;
  }

  lemma OtherResets(s: Accounts, op: Op, now: int)
    requires op.OpInitiateEmailChange? || op.OpRegister? || op.OpAdminCreate? || op.OpVerifyEmail? ||
             op.OpResendVerification? || op.OpRestoreUser? || op.OpChangeRoles?
    ensures var o := Step(s, op, now); o.accounts.resets == s.resets && s.issued <= o.accounts.issued
  {
    hide Authenticate, TakenByOther, AddressTaken, FindByEmail, DropUser;
  }

  lemma UntouchedResets(s: Accounts, op: Op, o: Outcome)
    requires ResetsOk(s) && !op.OpResetPassword? && o.accounts.resets == s.resets && s.issued <= o.accounts.issued
    ensures ResetsStep(s, op, o)
  {
  }

  lemma ForgotResets(s: Accounts, email: string, now: int)
    requires ResetsOk(s)
    ensures ResetsStep(s, OpForgotPassword(email), Step(s, OpForgotPassword(email), now))
  {
    hide FindByEmail;
  }

  lemma RedeemedResets(s: Accounts, token: nat, next: string, now: int)
    requires ResetsOk(s)
    ensures ResetsStep(s, OpResetPassword(token, next), Step(s, OpResetPassword(token, next), now))
  {
    hide Owned, DropUser, WithoutPending;
  }

  lemma StepResets(s: Accounts, op: Op, now: int)
    requires ResetsOk(s)
    ensures ResetsStep(s, op, Step(s, op, now))
  {
    hide Step, ResetsStep;
    if op.OpForgotPassword? {
      ForgotResets(s, op.email, now);
    } else if op.OpResetPassword? {
      RedeemedResets(s, op.token, op.next, now);
    } else {
      OtherwiseUntouched(s, op, now);
      UntouchedResets(s, op, Step(s, op, now));
    }
  }

  /** Only a request for a reset and a reset touch the table. */
  lemma OtherwiseUntouched(s: Accounts, op: Op, now: int)
    requires !op.OpForgotPassword? && !op.OpResetPassword?
    ensures var o := Step(s, op, now); o.accounts.resets == s.resets && s.issued <= o.accounts.issued
  {
    hide Step;
    if op.OpLogin? || op.OpOAuthSignIn? || op.OpRefresh? {
      SignInResets(s, op, now);
    } else if op.OpLogout? || op.OpChangePassword? || op.OpConfirmEmailChange? || op.OpDeleteUser? {
      AccountResets(s, op, now);
    } else if op.OpAdminPatch? {
      PatchResets(s, op.id, op.patch, now);
    } else {
      OtherResets(s, op, now);
    }
  }

  lemma {:induction false} RunResets(s: Accounts, events: seq<Event>)
    requires ResetsOk(s)
    ensures ResetsOk(After(s, events))
    ensures s.issued <= After(s, events).issued
  {
    hide Step;
    if events != [] {
      var last := |events| - 1;
      RunResets(s, events[..last]);
      StepResets(After(s, events[..last]), events[last].op, events[last].now);
    }
  }

  ghost predicate Spent(s: Accounts, token: nat) { token < s.issued && token !in s.resets }

  lemma StepSpent(s: Accounts, op: Op, now: int, token: nat)
    requires ResetsOk(s) && Spent(s, token)
    ensures Spent(Step(s, op, now).accounts, token)
  {
    hide Step;
    StepResets(s, op, now);
  }

  lemma {:induction false} StaysSpent(s: Accounts, events: seq<Event>, i: nat, j: nat, token: nat)
    requires ResetsOk(s) && i <= j <= |events| && Spent(After(s, events[..i]), token)
    ensures Spent(After(s, events[..j]), token)
    decreases j
  {
    hide Step, After, ResetsOk, Spent;
    if i < j {
      AccountsSessions.AfterNext(s, events, j - 1);
      StaysSpent(s, events, i, j - 1, token);
      RunResets(s, events[..j - 1]);
      StepSpent(After(s, events[..j - 1]), events[j - 1].op, events[j - 1].now, token);
    }
  }

  /** A reset token is redeemed at most once in any run. */
  lemma ResetOnce(s: Accounts, events: seq<Event>, i: nat, j: nat, token: nat)
    requires ResetsOk(s) && i < j < |events|
    requires Redeems(events[i].op, ReplyAt(s, events, i), token)
    ensures !Redeems(events[j].op, ReplyAt(s, events, j), token)
  {
    hide Step, After;
    AccountsSessions.AfterNext(s, events, i);
    RunResets(s, events[..i]);
    RunResets(s, events[..j]);
    StepResets(After(s, events[..i]), events[i].op, events[i].now);
    StepResets(After(s, events[..j]), events[j].op, events[j].now);
    StaysSpent(s, events, i + 1, j, token);
  }

  // ----- from the request to the new sign-in -----

  lemma Requested(s: Accounts, email: string) returns (id: nat)
    requires FindByEmail(s.users, email).Some? && s.users[FindByEmail(s.users, email).value].isActive
    ensures FindByEmail(s.users, email) == Some(id) && LiveId(s.users, id) && s.users[id].isActive
    ensures var t := ForgotPassword(s, email).accounts;
            && t == s.(resets := t.resets, issued := s.issued + 1)
            && t.resets == DropUser(s.resets, id)[s.issued := id]
  {
    id := FindByEmail(s.users, email).value;
  }

  lemma ResetRow(s: Accounts, token: nat, next: string, now: int)
    requires token in s.resets && LiveId(s.users, s.resets[token])
    ensures var id, o := s.resets[token], ResetPassword(s, token, next, now);
            && o.reply == SessionsEnded(id)
            && o.accounts.users == s.users[id :=
                 WithoutPending(s.users[id]).(password := Some(next), tokenRevokedAt := Some(now))]
  {
    hide Owned, DropUser;
  }

  /**
   Recovery works end to end: the mailed token sets the password, older tokens of the account are refused, and then
   exactly the new password signs a verified, unlocked account in.
   */
  lemma RecoveredAccountSignsIn(s: Accounts, email: string, next: string, attempt: Option<string>, stale: nat,
      allowance: nat, now: int) returns (id: nat)
    requires ResetsOk(s) && FindByEmail(s.users, email).Some? && s.users[FindByEmail(s.users, email).value].isActive
    ensures FindByEmail(s.users, email) == Some(id)
    ensures var asked := ForgotPassword(s, email).accounts;
            var reset := ResetPassword(asked, s.issued, next, now);
            && reset.reply == SessionsEnded(id)
            && (stale in s.resets && s.resets[stale] == id ==>
                 ResetPassword(asked, stale, next, now) == Outcome(asked, Refused(400)))
            && (s.users[id].isEmailVerified && !LockedAt(s.users[id], now) ==>
                  (Login(reset.accounts, email, attempt, allowance, now).reply.SignedIn? <==> attempt == Some(next)))
  {
    id := Requested(s, email);
    var asked := ForgotPassword(s, email).accounts;
    hide ForgotPassword;
    ResetRow(asked, s.issued, next, now);
    var users := ResetPassword(asked, s.issued, next, now).accounts.users;
    SameLookup(s.users, users, email);
    assert FindByEmail(users, email) == Some(id);
    assert ResetsOk(s);
    hide FindByEmail, Prune, Owned, ClearPending, EndSessions;
  }

  lemma EmptyResets()
    ensures ResetsOk(EMPTY)
  {
  }
}
