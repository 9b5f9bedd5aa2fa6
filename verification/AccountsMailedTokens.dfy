/**
 How long a mailed token stays good: moving an account to another address spends neither its reset nor its
 verification tokens.
 */
module AccountsMailedTokens {
  import opened Core
  import opened Accounts
  import AccountsEmail
  import AccountsLockout
  import AccountsSessions
  import opened AccountsRecovery

  // ----- reset tokens -----

  /** The request redeems the token, or mails its account another one. */
  predicate SpendsReset(s: Accounts, op: Op, token: nat) {
    && token in s.resets
    && (|| (op.OpResetPassword? && op.token == token && LiveId(s.users, s.resets[token]))
        || (&& op.OpForgotPassword? && FindByEmail(s.users, op.email) == Some(s.resets[token])
            && s.resets[token] < |s.users| && s.users[s.resets[token]].isActive))
  }

  lemma ForgotSpends(s: Accounts, email: string, token: nat)
    requires token in s.resets && token < s.issued
    ensures var t := ForgotPassword(s, email).accounts;
            && (token in t.resets <==> !SpendsReset(s, OpForgotPassword(email), token))
            && (token in t.resets ==> t.resets[token] == s.resets[token])
  {
    FoundIsLive(s.users, email);
    hide FindByEmail;
  }

  lemma RedeemSpends(s: Accounts, used: nat, next: string, now: int, token: nat)
    requires token in s.resets
    ensures var t := ResetPassword(s, used, next, now).accounts;
            && (token in t.resets <==> !SpendsReset(s, OpResetPassword(used, next), token))
            && (token in t.resets ==> t.resets[token] == s.resets[token])
  {
    hide Owned, DropUser, WithoutPending, FindByEmail;
  }

  /** Exactly when one step makes a reset token useless. */
  lemma ResetTokenLeavesIff(s: Accounts, op: Op, now: int, token: nat)
    requires ResetsOk(s) && token in s.resets
    ensures var t := Step(s, op, now).accounts;
            && (token in t.resets <==> !SpendsReset(s, op, token))
            && (token in t.resets ==> t.resets[token] == s.resets[token])
  {
    hide ForgotPassword, ResetPassword;
    if op.OpForgotPassword? {
      ForgotSpends(s, op.email, token);
    } else if op.OpResetPassword? {
      RedeemSpends(s, op.token, op.next, now, token);
    } else {
      OtherwiseUntouched(s, op, now);
      hide Step;
    }
  }

  ghost predicate NeverSpent(s: Accounts, events: seq<Event>, i: nat, j: nat, token: nat) {
    forall k :: i <= k < j && k < |events| ==> !SpendsReset(After(s, events[..k]), events[k].op, token)
  }

  /**
   A reset token stays good over any run in which it is neither redeemed nor replaced - changes of address included:
   presented again it is accepted if and only if its account is live.
   */
  lemma {:induction false} ResetTokenOutlives(s: Accounts, events: seq<Event>, i: nat, j: nat, token: nat,
      next: string, now: int)
    requires ResetsOk(s) && i <= j <= |events| && token in After(s, events[..i]).resets
    requires NeverSpent(s, events, i, j, token)
    ensures var t, owner := After(s, events[..j]), After(s, events[..i]).resets[token];
            && token in t.resets && t.resets[token] == owner
            && ResetPassword(t, token, next, now).reply == if LiveId(t.users, owner) then SessionsEnded(owner)
                 else Refused(400)
    decreases j
  {
    hide Step, After, SpendsReset;
    if i < j {
      ResetTokenOutlives(s, events, i, j - 1, token, next, now);
      AccountsSessions.AfterNext(s, events, j - 1);
      RunResets(s, events[..j - 1]);
      ResetTokenLeavesIff(After(s, events[..j - 1]), events[j - 1].op, events[j - 1].now, token);
    }
  }

  // ----- verification tokens -----

  /** An account has at most one verification token, and every one was issued. */
  ghost predicate VerificationsOk(s: Accounts) {
    && (forall t :: t in s.verifications ==> t < s.issued && s.verifications[t] < |s.users|)
    && (forall t, u :: t in s.verifications && u in s.verifications && s.verifications[t] == s.verifications[u] ==>
         t == u)
  }

  lemma VerifiedSignIns(s: Accounts, op: Op, now: int)
    requires op.OpLogin? || op.OpOAuthSignIn? || op.OpRefresh?
    ensures var o := Step(s, op, now); o.accounts.verifications == s.verifications && s.issued <= o.accounts.issued
  {
    hide FindByEmail, Prune, Owned, DropUser, OwnerOf, DropToken;
  }

  lemma VerifiedEndings(s: Accounts, op: Op, now: int)
    requires op.OpLogout? || op.OpChangePassword? || op.OpResetPassword? || op.OpConfirmEmailChange? || op.OpDeleteUser?
    ensures var o := Step(s, op, now); o.accounts.verifications == s.verifications && s.issued <= o.accounts.issued
  {
    hide Owned, DropUser, Authenticate, HeldElsewhere, WithoutPending;
  }

  lemma VerifiedPatch(s: Accounts, id: nat, p: Patch, now: int)
    ensures var o := Step(s, OpAdminPatch(id, p), now);
            o.accounts.verifications == s.verifications && s.issued <= o.accounts.issued
  {
    hide PatchConflicts, PatchFlags, PatchEmail, EndSessions;
    if p.email.Some? && LiveId(s.users, id) {
      VerifiedPatchEmail(s, id, p.email.value, now);
    }
    forall mid: Accounts
      ensures EndSessions(mid, id, now).verifications == mid.verifications &&
              EndSessions(mid, id, now).issued == mid.issued
    {
      VerifiedEndSessions(mid, id, now);
    }
  }

  lemma VerifiedPatchEmail(s: Accounts, id: nat, email: string, now: int)
    requires id < |s.users|
    ensures var t := PatchEmail(s, id, email, now); t.verifications == s.verifications && t.issued == s.issued
  {
    hide Owned, DropUser, WithoutPending;
  }

  lemma VerifiedEndSessions(s: Accounts, id: nat, now: int)
    ensures EndSessions(s, id, now).verifications == s.verifications && EndSessions(s, id, now).issued == s.issued
  {
    hide Owned, DropUser;
  }

  lemma VerifiedOthers(s: Accounts, op: Op, now: int)
    requires op.OpForgotPassword? || op.OpInitiateEmailChange? || op.OpAdminCreate? || op.OpRestoreUser? ||
             op.OpChangeRoles?
    ensures var o := Step(s, op, now); o.accounts.verifications == s.verifications && s.issued <= o.accounts.issued
  {
    hide FindByEmail, Authenticate, TakenByOther, AddressTaken, DropUser;
  }

  /** The request uses the token, or mails its account - known by its address, not verified yet - another one. */
  predicate SpendsVerification(s: Accounts, op: Op, token: nat) {
    && token in s.verifications
    && (|| (op == OpVerifyEmail(token) && LiveId(s.users, s.verifications[token]))
        || (&& op.OpResendVerification? && FindByEmail(s.users, op.email) == Some(s.verifications[token])
            && s.verifications[token] < |s.users| && !s.users[s.verifications[token]].isEmailVerified))
  }

  lemma RegisterVerifications(s: Accounts, email: string, password: string)
    requires VerificationsOk(s)
    ensures var t := Register(s, email, password).accounts;
            && VerificationsOk(t)
            && forall token :: token in s.verifications ==>
                 token in t.verifications && t.verifications[token] == s.verifications[token]
  {
    hide AddressTaken;
  }

  lemma VerifySpends(s: Accounts, used: nat, token: nat)
    requires VerificationsOk(s)
    ensures var t := VerifyEmail(s, used).accounts;
            && VerificationsOk(t)
            && (token in s.verifications ==>
                  && (token in t.verifications <==> !SpendsVerification(s, OpVerifyEmail(used), token))
                  && (token in t.verifications ==> t.verifications[token] == s.verifications[token]))
  {
  }

  lemma ResendSpends(s: Accounts, email: string, token: nat)
    requires VerificationsOk(s)
    ensures var t := ResendVerification(s, email).accounts;
            && VerificationsOk(t)
            && (token in s.verifications ==>
                  && (token in t.verifications <==> !SpendsVerification(s, OpResendVerification(email), token))
                  && (token in t.verifications ==> t.verifications[token] == s.verifications[token]))
  {
    hide FindByEmail;
    FoundIsLive(s.users, email);
  }

  /** The other requests touch no verification token. */
  lemma VerificationsUntouched(s: Accounts, op: Op, now: int)
    requires !op.OpRegister? && !op.OpVerifyEmail? && !op.OpResendVerification?
    ensures var o := Step(s, op, now);
            && o.accounts.verifications == s.verifications && s.issued <= o.accounts.issued
            && |s.users| <= |o.accounts.users|
  {
    hide Step, AdminPatch, AccountsLockout.LockStep;
    AccountsLockout.StepUsers(s, op, now);
    if op.OpLogin? || op.OpOAuthSignIn? || op.OpRefresh? {
      VerifiedSignIns(s, op, now);
    } else if op.OpAdminPatch? {
      VerifiedPatch(s, op.id, op.patch, now);
    } else if op.OpForgotPassword? || op.OpInitiateEmailChange? || op.OpAdminCreate? || op.OpRestoreUser? ||
      op.OpChangeRoles? {
      VerifiedOthers(s, op, now);
    } else {
      VerifiedEndings(s, op, now);
    }
  }

  /** Exactly when one step makes a verification token useless. */
  lemma VerificationLeavesIff(s: Accounts, op: Op, now: int, token: nat)
    requires VerificationsOk(s) && token in s.verifications
    ensures var t := Step(s, op, now).accounts;
            && VerificationsOk(t)
            && (token in t.verifications <==> !SpendsVerification(s, op, token))
            && (token in t.verifications ==> t.verifications[token] == s.verifications[token])
  {
    hide Register, VerifyEmail, ResendVerification;
    if op.OpRegister? {
      RegisterVerifications(s, op.email, op.newPassword);
    } else if op.OpVerifyEmail? {
      VerifySpends(s, op.token, token);
    } else if op.OpResendVerification? {
      ResendSpends(s, op.email, token);
    } else {
      VerificationsUntouched(s, op, now);
    }
    hide Login, OAuthSignIn, Refresh, Logout, ChangePassword, ForgotPassword, ResetPassword, InitiateEmailChange,
      ConfirmEmailChange, AdminCreate, AdminPatch, DeleteUser, RestoreUser, ChangeRoles;
  }

  /** Every step keeps at most one verification token for each account. */
  lemma StepVerifications(s: Accounts, op: Op, now: int)
    requires VerificationsOk(s)
    ensures VerificationsOk(Step(s, op, now).accounts)
  {
    hide Register, VerifyEmail, ResendVerification, Login, OAuthSignIn, Refresh, Logout, ChangePassword, ForgotPassword,
      ResetPassword, InitiateEmailChange, ConfirmEmailChange, AdminCreate, AdminPatch, DeleteUser, RestoreUser,
        ChangeRoles;
    if op.OpRegister? {
      RegisterVerifications(s, op.email, op.newPassword);
    } else if op.OpVerifyEmail? {
      VerifySpends(s, op.token, op.token);
    } else if op.OpResendVerification? {
      ResendSpends(s, op.email, 0);
    } else {
      VerificationsUntouched(s, op, now);
    }
  }

  lemma EmptyVerifications()
    ensures VerificationsOk(EMPTY)
  {
  }

  /** No event in [i, j) uses or replaces the token. */
  ghost predicate NeverVerified(s: Accounts, events: seq<Event>, i: nat, j: nat, token: nat) {
    forall k :: i <= k < j && k < |events| ==> !SpendsVerification(After(s, events[..k]), events[k].op, token)
  }

  /**
   A verification token stays good until it is used or replaced by a further mail: presented then, it verifies whatever
   address its account has by that time, if the account is live.
   */
  lemma {:induction false} VerificationOutlives(s: Accounts, events: seq<Event>, i: nat, j: nat, token: nat)
    requires i <= j <= |events| && VerificationsOk(After(s, events[..i])) &&
             token in After(s, events[..i]).verifications
    requires NeverVerified(s, events, i, j, token)
    ensures var t, owner := After(s, events[..j]), After(s, events[..i]).verifications[token];
            && VerificationsOk(t) && token in t.verifications && t.verifications[token] == owner
            && VerifyEmail(t, token) ==
               if LiveId(t.users, owner)
               then Outcome(t.(users := t.users[owner := t.users[owner].(isEmailVerified := true)],
                 verifications := t.verifications - {token}), Done)
               else Outcome(t, Refused(400))
    decreases j
  {
    hide Step, After, SpendsVerification;
    if i < j {
      VerificationOutlives(s, events, i, j - 1, token);
      AccountsSessions.AfterNext(s, events, j - 1);
      VerificationLeavesIff(After(s, events[..j - 1]), events[j - 1].op, events[j - 1].now, token);
    }
  }

  // ----- two runs -----

  const NO_CHANGE := Patch(None, None, None, false)

  /** A token mailed to the former address resets the password of the moved account. */
  lemma ResetAfterMove(former: string, email: string, password: string, next: string, now: int)
    requires former != email
    ensures var moved := AdminPatch(ForgotPassword(AdminCreate(EMPTY, former, password).accounts, former).accounts, 0,
                                    NO_CHANGE.(email := Some(email)), now);
            var o := ResetPassword(moved.accounts, 0, next, now);
            && moved.reply == SessionsEnded(0) && o.reply == SessionsEnded(0) && |o.accounts.users| == 1
            && o.accounts.users[0].email == email && o.accounts.users[0].password == Some(next)
    ensures After(EMPTY, [Event(OpAdminCreate(former, password), now), Event(OpForgotPassword(former), now),
                          Event(OpAdminPatch(0, NO_CHANGE.(email := Some(email))), now),
                            Event(OpResetPassword(0, next), now)]) ==
            ResetPassword(AdminPatch(ForgotPassword(AdminCreate(EMPTY, former, password).accounts, former).accounts, 0,
                                     NO_CHANGE.(email := Some(email)), now).accounts, 0, next, now).accounts
  {
    hide AdminPatch, ResetPassword, ForgotPassword, AdminCreate;
    var e := [Event(OpAdminCreate(former, password), now), Event(OpForgotPassword(former), now),
              Event(OpAdminPatch(0, NO_CHANGE.(email := Some(email))), now), Event(OpResetPassword(0, next), now)];
    AccountsEmail.FourEvents(EMPTY, e);
    FirstAccount(former, password);
    OnlyAccountAsks(AdminCreate(EMPTY, former, password).accounts, former);
    var s := ForgotPassword(AdminCreate(EMPTY, former, password).accounts, former).accounts;
    OnlyAccountMoves(s, email, now);
    OnlyAccountResets(AdminPatch(s, 0, NO_CHANGE.(email := Some(email)), now).accounts, 0, next, now);
  }

  lemma FirstAccount(email: string, password: string)
    ensures var s := AdminCreate(EMPTY, email, password).accounts;
            s.users == [NewUser(email, password, true)] && s.issued == 0 && s.resets == map[]
  {
  }

  lemma OnlyAccountAsks(s: Accounts, email: string)
    requires |s.users| == 1 && Live(s.users[0]) && s.users[0].isActive && s.users[0].email == email
    ensures var t := ForgotPassword(s, email).accounts;
            t.users == s.users && s.issued in t.resets && t.resets[s.issued] == 0 && t.verifications == s.verifications
  {
    OnlyFound(s.users, email);
    hide FindByEmail;
  }

  lemma OnlyFound(users: seq<User>, email: string)
    requires |users| == 1 && Live(users[0]) && users[0].email == email
    ensures FindByEmail(users, email) == Some(0)
  {
  }

  lemma OnlyAccountMoves(s: Accounts, email: string, now: int)
    requires |s.users| == 1 && Live(s.users[0]) && s.users[0].email != email
    ensures var o := AdminPatch(s, 0, NO_CHANGE.(email := Some(email)), now);
            && o.reply == SessionsEnded(0) && |o.accounts.users| == 1 && Live(o.accounts.users[0])
            && o.accounts.users[0].email == email && !o.accounts.users[0].isEmailVerified
            && o.accounts.resets == s.resets && o.accounts.verifications == s.verifications
  {
    NoConflict(s.users, email);
    hide PatchConflicts, Owned, DropUser;
  }

  lemma NoConflict(users: seq<User>, email: string)
    requires |users| == 1 && users[0].email != email
    ensures !PatchConflicts(users, 0, email)
  {
  }

  lemma OnlyAccountResets(s: Accounts, token: nat, next: string, now: int)
    requires |s.users| == 1 && Live(s.users[0]) && token in s.resets && s.resets[token] == 0
    ensures var o := ResetPassword(s, token, next, now);
            && o.reply == SessionsEnded(0) && |o.accounts.users| == 1
            && o.accounts.users[0].email == s.users[0].email && o.accounts.users[0].password == Some(next)
  {
    hide Owned, DropUser;
  }

  /** A token mailed to the former address marks the new one verified. */
  lemma VerifiedAfterMove(former: string, email: string, password: string, now: int)
    requires former != email
    ensures var s := After(EMPTY, [Event(OpRegister(former, password), now),
                                   Event(OpAdminPatch(0, NO_CHANGE.(email := Some(email))), now),
                                     Event(OpVerifyEmail(0), now)]);
            |s.users| == 1 && s.users[0].email == email && s.users[0].isEmailVerified
  {
    hide AdminPatch, Register, VerifyEmail, After;
    var e := [Event(OpRegister(former, password), now),
              Event(OpAdminPatch(0, NO_CHANGE.(email := Some(email))), now), Event(OpVerifyEmail(0), now)];
    ThreeEvents(EMPTY, e);
    FirstRegistered(former, password);
    var s := Register(EMPTY, former, password).accounts;
    OnlyAccountMoves(s, email, now);
    OnlyAccountVerifies(AdminPatch(s, 0, NO_CHANGE.(email := Some(email)), now).accounts, 0);
  }

  lemma ThreeEvents(s: Accounts, e: seq<Event>)
    requires |e| == 3
    ensures var s1 := Step(s, e[0].op, e[0].now).accounts;
            var s2 := Step(s1, e[1].op, e[1].now).accounts;
            After(s, e) == Step(s2, e[2].op, e[2].now).accounts
  {
    hide Step, After;
    AccountsEmail.NoEvents(s);
    assert e[..0] == [];
    AccountsSessions.AfterNext(s, e, 0);
    AccountsSessions.AfterNext(s, e, 1);
    AccountsSessions.AfterNext(s, e, 2);
    assert e[..3] == e;
  }

  lemma FirstRegistered(email: string, password: string)
    ensures var s := Register(EMPTY, email, password).accounts;
            s.users == [NewUser(email, password, false)] && s.verifications == map[0 := 0] && s.issued == 1
  {
  }

  lemma OnlyAccountVerifies(s: Accounts, token: nat)
    requires |s.users| == 1 && Live(s.users[0]) && token in s.verifications && s.verifications[token] == 0
    ensures var t := VerifyEmail(s, token).accounts;
            |t.users| == 1 && t.users[0].email == s.users[0].email && t.users[0].isEmailVerified
  {
  }

  /** A further mail makes the first token useless, though nobody used it; the one mailed last verifies the account. */
  lemma ResentTokenReplaces(email: string, password: string, now: int)
    ensures var e := [Event(OpRegister(email, password), now), Event(OpResendVerification(email), now)];
            var s := After(EMPTY, e);
            && |s.users| == 1 && Live(s.users[0]) && !s.users[0].isEmailVerified
            && VerifyEmail(s, 0) == Outcome(s, Refused(400))
            && VerifyEmail(s, 1).reply == Done && VerifyEmail(s, 1).accounts.users[0].isEmailVerified
  {
    hide Register, ResendVerification, After;
    var e := [Event(OpRegister(email, password), now), Event(OpResendVerification(email), now)];
    AccountsEmail.NoEvents(EMPTY);
    assert e[..0] == [] && e[..2] == e;
    AccountsSessions.AfterNext(EMPTY, e, 0);
    AccountsSessions.AfterNext(EMPTY, e, 1);
    FirstRegistered(email, password);
    OnlyAccountAsksAgain(Register(EMPTY, email, password).accounts, email);
  }

  lemma OnlyAccountAsksAgain(s: Accounts, email: string)
    requires |s.users| == 1 && Live(s.users[0]) && s.users[0].email == email && !s.users[0].isEmailVerified
    requires s.verifications == map[0 := 0] && s.issued == 1
    ensures var t := ResendVerification(s, email).accounts; t.users == s.users && t.verifications == map[1 := 0]
  {
    OnlyFound(s.users, email);
    hide FindByEmail;
  }
}
