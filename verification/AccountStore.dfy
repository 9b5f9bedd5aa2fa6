/**
 The account tables as the handlers change them: every method does, statement by statement, what its step in
 `Accounts` says.
 */
module AccountStore {
  import opened Core
  import opened Accounts
  import opened AccountsSessions
  import AccountsLockout
  import AccountsMailedTokens
  import AccountsPasswords
  import AccountsRecovery

  // ----- deleting while scanning -----

  lemma {:induction false} OwnedConcat(a: seq<Entry>, b: seq<Entry>, user: nat, own: bool)
    ensures Owned(a + b, user, own) == Owned(a, user, own) + Owned(b, user, own)
  {
    if a == [] {
      assert a + b == b;
    } else {
      assert (a + b)[1..] == a[1..] + b;
      OwnedConcat(a[1..], b, user, own);
    }
  }

  /** Removing one of the user's entries leaves everybody else's as they were. */
  lemma RemovedEntry(refresh: seq<Entry>, i: nat, user: nat)
    requires i < |refresh| && refresh[i].user == user
    ensures Owned(refresh[..i] + refresh[i + 1..], user, false) == Owned(refresh, user, false)
  {
    assert refresh == refresh[..i] + ([refresh[i]] + refresh[i + 1..]);
    OwnedConcat(refresh[..i], [refresh[i]] + refresh[i + 1..], user, false);
    OwnedConcat([refresh[i]], refresh[i + 1..], user, false);
    OwnedConcat(refresh[..i], refresh[i + 1..], user, false);
  }

  lemma {:induction false} NothingOwned(refresh: seq<Entry>, user: nat)
    requires forall e :: e in refresh ==> e.user != user
    ensures Owned(refresh, user, false) == refresh
  {
    if refresh != [] {
      assert refresh[0] in refresh;
      NothingOwned(refresh[1..], user);
    }
  }

  lemma {:induction false} NotHeld(refresh: seq<Entry>, token: nat)
    requires forall e :: e in refresh ==> e.token != token
    ensures DropToken(refresh, token) == refresh
  {
    if refresh != [] {
      assert refresh[0] in refresh;
      NotHeld(refresh[1..], token);
    }
  }

  lemma HeadToken(refresh: seq<Entry>)
    requires Distinct(refresh) && refresh != []
    ensures Distinct(refresh[1..]) && forall e :: e in refresh[1..] ==> e.token != refresh[0].token
  {
    forall e | e in refresh[1..]
      ensures e.token != refresh[0].token
    {
      var i :| 0 <= i < |refresh| - 1 && refresh[1..][i] == e;
      assert refresh[i + 1] == e;
    }
  }

  lemma DropBehind(e: Entry, rest: seq<Entry>, token: nat)
    requires e.token != token
    ensures DropToken([e] + rest, token) == [e] + DropToken(rest, token)
  {
  }

  /** Deleting the oldest entry still there is deleting one more of the oldest. */
  lemma {:induction false} OneMoreOldest(refresh: seq<Entry>, user: nat, k: nat)
    requires Distinct(refresh) && k < |Owned(refresh, user, true)|
    ensures DropOldest(refresh, user, k + 1) ==
            DropToken(DropOldest(refresh, user, k), Owned(refresh, user, true)[k].token)
  {
    hide Distinct, DropToken, Owned, DropOldest;
    OldestUnfolds(refresh, user, k);
    OldestUnfolds(refresh, user, k + 1);
    HeadToken(refresh);
    var head, rest := refresh[0], refresh[1..];
    if head.user != user {
      OneMoreOldest(rest, user, k);
      OldestUnfolds(rest, user, k);
      OwnedInTable(rest, user, k);
      var token := Owned(rest, user, true)[k].token;
      assert refresh == [head] + rest;
      DropBehind(head, DropOldest(rest, user, k), token);
    } else if k > 0 {
      OneMoreOldest(rest, user, k - 1);
      assert Owned(refresh, user, true)[k] == Owned(rest, user, true)[k - 1];
    } else {
      DropHead(refresh);
      OldestUnfolds(rest, user, 0);
    }
  }

  lemma OwnedInTable(refresh: seq<Entry>, user: nat, k: nat)
    requires k < |Owned(refresh, user, true)|
    ensures Owned(refresh, user, true)[k] in refresh
  {
    assert Owned(refresh, user, true)[k] in Owned(refresh, user, true);
  }

  lemma DropHead(refresh: seq<Entry>)
    requires refresh != [] && forall e :: e in refresh[1..] ==> e.token != refresh[0].token
    ensures DropToken(refresh, refresh[0].token) == refresh[1..]
  {
    NotHeld(refresh[1..], refresh[0].token);
  }

  /**
   What every handler keeps: sound token tables, lock counts in step, at most one reset and one verification token
   each, a password each.
   */
  ghost predicate Sound(s: Accounts) {
    && TokensOk(s)
    && AccountsLockout.LocksOk(s.users)
    && AccountsRecovery.ResetsOk(s)
    && AccountsMailedTokens.VerificationsOk(s)
    && AccountsPasswords.PasswordsSet(s.users)
  }

  class Store {
    var users: seq<User>
    var refresh: seq<Entry>
    var rotated: map<nat, nat>
    var resets: map<nat, nat>
    var verifications: map<nat, nat>
    var emailChanges: map<nat, nat>
    var issued: nat

    function Snapshot(): Accounts
      reads this
    {
      Tables(users, refresh, rotated, resets, verifications, emailChanges, issued)
    }

    ghost predicate Valid()
      reads this
    {
      Sound(Snapshot())
    }

    constructor ()
      ensures Valid() && Snapshot() == EMPTY
    {
      users, refresh, rotated, resets, verifications, emailChanges, issued := [], [], map[], map[], map[], map[], 0;
    }

    // ----- the shared loops -----

    method DeleteRefreshTokens(user: nat)
      modifies this`refresh
      ensures refresh == Owned(old(refresh), user, false)
    {
      var i := 0;
      while i < |refresh|
        invariant i <= |refresh|
        invariant Owned(refresh, user, false) == Owned(old(refresh), user, false)
        invariant forall e :: e in refresh[..i] ==> e.user != user
        decreases |refresh| - i
      {
        if refresh[i].user == user {
          RemovedEntry(refresh, i, user);
          assert (refresh[..i] + refresh[i + 1..])[..i] == refresh[..i];
          refresh := refresh[..i] + refresh[i + 1..];
        } else {
          assert refresh[..i + 1] == refresh[..i] + [refresh[i]];
          i := i + 1;
        }
      }
      assert refresh[..i] == refresh;
      NothingOwned(refresh, user);
    }

    method DeleteRotatedTokens(user: nat)
      modifies this`rotated
      ensures rotated == DropUser(old(rotated), user)
    {
      var todo := rotated.Keys;
      while todo != {}
        invariant todo <= old(rotated).Keys
        invariant forall t :: t in rotated <==> t in old(rotated) && (t in todo || old(rotated)[t] != user)
        invariant forall t :: t in rotated ==> rotated[t] == old(rotated)[t]
        decreases todo
      {
        var t :| t in todo;
        if rotated[t] == user {
          rotated := rotated - {t};
        }
        todo := todo - {t};
      }
    }

    method Stamp(id: nat, now: int)
      modifies this`users
      ensures users == Stamped(old(users), id, now)
    {
      if LiveId(users, id) {
        users := users[id := users[id].(tokenRevokedAt := Some(now))];
      }
    }

    method EndUserSessions(user: nat, now: int)
      modifies this`users, this`refresh, this`rotated
      ensures Snapshot() == EndSessions(old(Snapshot()), user, now)
    {
      DeleteRefreshTokens(user);
      DeleteRotatedTokens(user);
      Stamp(user, now);
    }

    /** The user's tokens, oldest first. */
    method TokensOf(user: nat) returns (tokens: seq<nat>)
      ensures |tokens| == |Owned(refresh, user, true)|
      ensures forall k :: 0 <= k < |tokens| ==> tokens[k] == Owned(refresh, user, true)[k].token
    {
      tokens := [];
      for i := 0 to |refresh|
        invariant |tokens| == |Owned(refresh[..i], user, true)|
        invariant forall k :: 0 <= k < |tokens| ==> tokens[k] == Owned(refresh[..i], user, true)[k].token
      {
        assert refresh[..i + 1] == refresh[..i] + [refresh[i]];
        OwnedConcat(refresh[..i], [refresh[i]], user, true);
        if refresh[i].user == user {
          tokens := tokens + [refresh[i].token];
        }
      }
      assert refresh[..|refresh|] == refresh;
    }

    /** Collects the user's tokens oldest first, then deletes the excess from the front. */
    method PruneOldest(user: nat, maxSessions: nat)
      requires Distinct(refresh)
      modifies this`refresh
      ensures refresh == Prune(old(refresh), user, maxSessions)
    {
      hide Owned, Distinct, DropToken, DropOldest;
      var tokens := TokensOf(user);
      OldestUnfolds(refresh, user, 0);
      if |tokens| > maxSessions {
        var excess := |tokens| - maxSessions;
        for k := 0 to excess
          invariant refresh == DropOldest(old(refresh), user, k)
        {
          OneMoreOldest(old(refresh), user, k);
          refresh := DropToken(refresh, tokens[k]);
        }
      }
    }

    method OpenSession(user: nat, allowance: nat, now: int) returns (reply: Reply)
      requires Distinct(refresh) && !Holds(refresh, issued)
      modifies this`refresh, this`issued
      ensures Outcome(Snapshot(), reply) == SignIn(old(Snapshot()), user, allowance, now)
    {
      var token := issued;
      AppendDistinct(refresh, Entry(token, user));
      refresh := refresh + [Entry(token, user)];
      issued := issued + 1;
      PruneOldest(user, allowance);
      reply := SignedIn(user, token, IssueAccess(user, now));
    }

    method ClearPendingEmail(id: nat)
      requires id < |users|
      modifies this`users, this`emailChanges
      ensures Snapshot() == ClearPending(old(Snapshot()), id)
    {
      if users[id].pendingEmailToken.Some? {
        emailChanges := emailChanges - {users[id].pendingEmailToken.value};
      }
      users := users[id := WithoutPending(users[id])];
    }

    // ----- sessions -----

    method ClearExpiredLock(id: nat)
      requires id < |users|
      modifies this`users
      ensures users == old(users)[id := Unexpired(old(users)[id])]
    {
      if users[id].lockedUntil.Some? {
        users := users[id := users[id].(lockedUntil := None, failedLoginAttempts := 0)];
      }
    }

    method RecordFailure(id: nat, now: int)
      requires id < |users|
      modifies this`users
      ensures users == old(users)[id := CountFailure(old(users)[id], now)]
    {
      users := users[id := users[id].(failedLoginAttempts := users[id].failedLoginAttempts + 1)];
      if users[id].failedLoginAttempts >= MAX_FAILED_ATTEMPTS {
        users := users[id := users[id].(lockedUntil := Some(now + LOCKOUT_DURATION_MS))];
      }
    }

    method ResetFailures(id: nat)
      requires id < |users|
      modifies this`users
      ensures users == old(users)[id := old(users)[id].(failedLoginAttempts := 0, lockedUntil := None)]
    {
      if users[id].failedLoginAttempts > 0 || users[id].lockedUntil.Some? {
        users := users[id := users[id].(failedLoginAttempts := 0, lockedUntil := None)];
      }
    }

    method HandleLogin(email: string, password: Option<string>, allowance: nat, now: int) returns (reply: Reply)
      requires Valid()
      modifies this
      ensures Valid() && Outcome(Snapshot(), reply) == Login(old(Snapshot()), email, password, allowance, now)
    {
      hide Sound, SignIn, FindByEmail, LockedAt, Unexpired, CountFailure;
      SoundIsDistinct(Snapshot());
      StaysSound(Snapshot(), OpLogin(email, password, allowance), now,
        Login(Snapshot(), email, password, allowance, now));
      var found := FindByEmail(users, email);
      FoundIsLive(users, email);
      if found.None? {
        return Refused(401);
      }
      var id := found.value;
      if LockedAt(users[id], now) {
        return Refused(423);
      }
      ClearExpiredLock(id);
      if !users[id].isActive {
        return Refused(401);
      }
      if users[id].password != password {
        RecordFailure(id, now);
        assert users == old(users)[id := CountFailure(Unexpired(old(users)[id]), now)];
        return Refused(if users[id].failedLoginAttempts >= MAX_FAILED_ATTEMPTS then 423 else 401);
      }
      if !users[id].isEmailVerified {
        return Refused(403);
      }
      ResetFailures(id);
      assert users == old(users)[id := Unexpired(old(users)[id]).(failedLoginAttempts := 0, lockedUntil := None)];
      reply := OpenSession(id, allowance, now);
    }

    method HandleOAuthSignIn(user: nat, allowance: nat, now: int) returns (reply: Reply)
      requires Valid()
      modifies this
      ensures Valid() && Outcome(Snapshot(), reply) == OAuthSignIn(old(Snapshot()), user, allowance, now)
    {
      hide Sound, SignIn;
      SoundIsDistinct(Snapshot());
      StaysSound(Snapshot(), OpOAuthSignIn(user, allowance), now, OAuthSignIn(Snapshot(), user, allowance, now));
      if !LiveId(users, user) {
        return Refused(400);
      }
      reply := OpenSession(user, allowance, now);
    }

    method HandleRefresh(token: nat, now: int) returns (reply: Reply)
      requires Valid()
      modifies this
      ensures Valid() && Outcome(Snapshot(), reply) == Refresh(old(Snapshot()), token, now)
    {
      hide Sound, EndSessions, DropToken, IssueAccess;
      StaysSound(Snapshot(), OpRefresh(token), now, Refresh(Snapshot(), token, now));
      if token in rotated {
        var reused := rotated[token];
        EndUserSessions(reused, now);
        return ReuseDetected(reused);
      }
      var owner := OwnerOf(refresh, token);
      if owner.None? {
        return Refused(401);
      }
      if !LiveId(users, owner.value) || !users[owner.value].isActive {
        refresh := DropToken(refresh, token);
        return Refused(401);
      }
      refresh := DropToken(refresh, token);
      rotated := rotated[token := owner.value];
      refresh := refresh + [Entry(issued, owner.value)];
      reply := Refreshed(owner.value, token, issued, IssueAccess(owner.value, now));
      issued := issued + 1;
    }

    method HandleLogout(access: AccessToken, now: int) returns (reply: Reply)
      requires Valid()
      modifies this
      ensures Valid() && Outcome(Snapshot(), reply) == Logout(old(Snapshot()), access, now)
    {
      hide Sound, EndSessions;
      StaysSound(Snapshot(), OpLogout(access), now, Logout(Snapshot(), access, now));
      var user := Authenticate(Snapshot(), access, now);
      if user.None? {
        return Refused(401);
      }
      EndUserSessions(user.value, now);
      reply := SessionsEnded(user.value);
    }

    method HandleChangePassword(access: AccessToken, current: Option<string>, next: string, now: int)
        returns (reply: Reply)
      requires Valid()
      modifies this
      ensures Valid() && Outcome(Snapshot(), reply) == ChangePassword(old(Snapshot()), access, current, next, now)
    {
      hide Sound, EndSessions;
      StaysSound(Snapshot(), OpChangePassword(access, current, next), now,
        ChangePassword(Snapshot(), access, current, next, now));
      var user := Authenticate(Snapshot(), access, now);
      if user.None? {
        return Refused(401);
      }
      var id := user.value;
      if users[id].password.Some? && (current.None? || current.value == "" || users[id].password != current) {
        return Refused(400);
      }
      users := users[id := users[id].(password := Some(next))];
      EndUserSessions(id, now);
      reply := SessionsEnded(id);
    }

    method DeleteResets(user: nat)
      modifies this`resets
      ensures resets == DropUser(old(resets), user)
    {
      var todo := resets.Keys;
      while todo != {}
        invariant todo <= old(resets).Keys
        invariant forall t :: t in resets <==> t in old(resets) && (t in todo || old(resets)[t] != user)
        invariant forall t :: t in resets ==> resets[t] == old(resets)[t]
        decreases todo
      {
        var t :| t in todo;
        if resets[t] == user {
          resets := resets - {t};
        }
        todo := todo - {t};
      }
    }

    method HandleForgotPassword(email: string, now: int) returns (reply: Reply)
      requires Valid()
      modifies this
      ensures Valid() && Outcome(Snapshot(), reply) == ForgotPassword(old(Snapshot()), email)
    {
      hide Sound;
      StaysSound(Snapshot(), OpForgotPassword(email), now, ForgotPassword(Snapshot(), email));
      reply := Done;
      var found := FindByEmail(users, email);
      if found.None? || !users[found.value].isActive {
        return;
      }
      DeleteResets(found.value);
      resets := resets[issued := found.value];
      issued := issued + 1;
    }

    method HandleResetPassword(token: nat, next: string, now: int) returns (reply: Reply)
      requires Valid()
      modifies this
      ensures Valid() && Outcome(Snapshot(), reply) == ResetPassword(old(Snapshot()), token, next, now)
    {
      hide Sound, EndSessions, ClearPending;
      StaysSound(Snapshot(), OpResetPassword(token, next), now, ResetPassword(Snapshot(), token, next, now));
      if token !in resets || !LiveId(users, resets[token]) {
        return Refused(400);
      }
      var id := resets[token];
      users := users[id := users[id].(password := Some(next))];
      ClearPendingEmail(id);
      resets := resets - {token};
      EndUserSessions(id, now);
      reply := SessionsEnded(id);
    }

    // ----- email change -----

    method HandleInitiateEmailChange(access: AccessToken, current: string, newEmail: string, now: int)
        returns (reply: Reply)
      requires Valid()
      modifies this
      ensures Valid() && Outcome(Snapshot(), reply) ==
              InitiateEmailChange(old(Snapshot()), access, current, newEmail, now)
    {
      hide Sound;
      StaysSound(Snapshot(), OpInitiateEmailChange(access, current, newEmail), now,
        InitiateEmailChange(Snapshot(), access, current, newEmail, now));
      var user := Authenticate(Snapshot(), access, now);
      if user.None? {
        return Refused(401);
      }
      var id := user.value;
      if users[id].password.None? || users[id].password.value != current || newEmail == users[id].email {
        return Refused(400);
      }
      var conflict := false;
      for i := 0 to |users|
        invariant !conflict && forall k :: 0 <= k < i && k != id && Live(users[k]) ==>
                  users[k].email != newEmail && users[k].pendingEmail != Some(newEmail)
      {
        if i != id && Live(users[i]) && (users[i].email == newEmail || users[i].pendingEmail == Some(newEmail)) {
          conflict := true;
          break;
        }
      }
      if conflict {
        return Done;
      }
      if users[id].pendingEmailToken.Some? {
        emailChanges := emailChanges - {users[id].pendingEmailToken.value};
      }
      var token := issued;
      issued := issued + 1;
      users := users[id := users[id].(pendingEmail := Some(newEmail), pendingEmailToken := Some(token),
        pendingEmailExpiresAt := Some(now + EMAIL_CHANGE_TOKEN_EXPIRY_MS))];
      emailChanges := emailChanges[token := id];
      reply := Done;
    }

    method HandleConfirmEmailChange(token: nat, now: int) returns (reply: Reply)
      requires Valid()
      modifies this
      ensures Valid() && Outcome(Snapshot(), reply) == ConfirmEmailChange(old(Snapshot()), token, now)
    {
      hide Sound, EndSessions;
      StaysSound(Snapshot(), OpConfirmEmailChange(token), now, ConfirmEmailChange(Snapshot(), token, now));
      if token !in emailChanges {
        return Refused(400);
      }
      var id := emailChanges[token];
      emailChanges := emailChanges - {token};
      if !LiveId(users, id) || users[id].pendingEmail.None? {
        return Refused(400);
      }
      var newEmail := users[id].pendingEmail.value;
      if users[id].pendingEmailExpiresAt.Some? && users[id].pendingEmailExpiresAt.value < now {
        users := users[id := WithoutPending(users[id])];
        return Refused(400);
      }
      for i := 0 to |users|
        invariant users == old(users) && emailChanges == old(emailChanges) - {token}
        invariant forall k :: 0 <= k < i && k != id && Live(users[k]) ==> users[k].email != newEmail
      {
        if i != id && Live(users[i]) && users[i].email == newEmail {
          users := users[id := WithoutPending(users[id])];
          return Refused(409);
        }
      }
      users := users[id := WithoutPending(users[id]).(email := newEmail, isEmailVerified := true)];
      EndUserSessions(id, now);
      reply := SessionsEnded(id);
    }

    // ----- accounts -----

    method HandleRegister(email: string, password: string, now: int) returns (reply: Reply)
      requires Valid()
      modifies this
      ensures Valid() && Outcome(Snapshot(), reply) == Register(old(Snapshot()), email, password)
    {
      hide Sound, FindByEmail, FindByPendingEmail;
      StaysSound(Snapshot(), OpRegister(email, password), now, Register(Snapshot(), email, password));
      var byEmail, byPending := FindByEmail(users, email), FindByPendingEmail(users, email);
      if byEmail.Some? || byPending.Some? {
        return Refused(409);
      }
      verifications := verifications[issued := |users|];
      users := users + [NewUser(email, password, false)];
      issued := issued + 1;
      reply := Done;
    }

    method HandleAdminCreate(email: string, password: string, now: int) returns (reply: Reply)
      requires Valid()
      modifies this
      ensures Valid() && Outcome(Snapshot(), reply) == AdminCreate(old(Snapshot()), email, password)
    {
      hide Sound, FindByEmail, FindByPendingEmail;
      StaysSound(Snapshot(), OpAdminCreate(email, password), now, AdminCreate(Snapshot(), email, password));
      var byEmail, byPending := FindByEmail(users, email), FindByPendingEmail(users, email);
      if byEmail.Some? || byPending.Some? {
        return Refused(409);
      }
      users := users + [NewUser(email, password, true)];
      reply := Done;
    }

    method HandleVerifyEmail(token: nat, now: int) returns (reply: Reply)
      requires Valid()
      modifies this
      ensures Valid() && Outcome(Snapshot(), reply) == VerifyEmail(old(Snapshot()), token)
    {
      hide Sound;
      StaysSound(Snapshot(), OpVerifyEmail(token), now, VerifyEmail(Snapshot(), token));
      if token !in verifications || !LiveId(users, verifications[token]) {
        return Refused(400);
      }
      var id := verifications[token];
      users := users[id := users[id].(isEmailVerified := true)];
      verifications := verifications - {token};
      reply := Done;
    }

    method DeleteVerifications(user: nat)
      modifies this`verifications
      ensures verifications == DropUser(old(verifications), user)
    {
      var todo := verifications.Keys;
      while todo != {}
        invariant todo <= old(verifications).Keys
        invariant forall t :: t in verifications <==>
                    t in old(verifications) && (t in todo || old(verifications)[t] != user)
        invariant forall t :: t in verifications ==> verifications[t] == old(verifications)[t]
        decreases todo
      {
        var t :| t in todo;
        if verifications[t] == user {
          verifications := verifications - {t};
        }
        todo := todo - {t};
      }
    }

    method HandleResendVerification(email: string, now: int) returns (reply: Reply)
      requires Valid()
      modifies this
      ensures Valid() && Outcome(Snapshot(), reply) == ResendVerification(old(Snapshot()), email)
    {
      hide Sound;
      StaysSound(Snapshot(), OpResendVerification(email), now, ResendVerification(Snapshot(), email));
      reply := Done;
      var found := FindByEmail(users, email);
      if found.None? || users[found.value].isEmailVerified {
        return;
      }
      DeleteVerifications(found.value);
      verifications := verifications[issued := found.value];
      issued := issued + 1;
    }

    method ApplyEmail(id: nat, email: string, now: int)
      requires id < |users|
      modifies this
      ensures Snapshot() == PatchEmail(old(Snapshot()), id, email, now)
    {
      hide EndSessions, ClearPending;
      if email != users[id].email {
        ClearPendingEmail(id);
        assert |users| == |old(users)| by { ClearedLength(old(Snapshot()), id); }
        users := users[id := users[id].(email := email, isEmailVerified := false)];
        EndUserSessions(id, now);
      }
    }

    method ApplyFlags(id: nat, p: Patch, now: int)
      requires id < |users|
      modifies this`users
      ensures users == old(users)[id := PatchFlags(old(users)[id], p, now)]
    {
      if p.isActive.Some? {
        if !p.isActive.value && users[id].isActive {
          users := users[id := users[id].(tokenRevokedAt := Some(now))];
        }
        users := users[id := users[id].(isActive := p.isActive.value)];
      }
      if p.unlock {
        users := users[id := users[id].(failedLoginAttempts := 0, lockedUntil := None)];
      }
    }

    method AddressConflicts(id: nat, email: string) returns (conflict: bool)
      ensures conflict <==> PatchConflicts(users, id, email)
    {
      hide FindByEmail;
      var existing := FindByEmail(users, email);
      if existing.Some? && existing.value != id {
        return true;
      }
      for i := 0 to |users|
        invariant forall k :: 0 <= k < i && Live(users[k]) && users[k].pendingEmail == Some(email) ==> k == id
      {
        if Live(users[i]) && users[i].pendingEmail == Some(email) && i != id {
          return true;
        }
      }
      return false;
    }

    method HandleAdminPatch(id: nat, p: Patch, now: int) returns (reply: Reply)
      requires Valid()
      modifies this
      ensures Valid() && Outcome(Snapshot(), reply) == AdminPatch(old(Snapshot()), id, p, now)
    {
      hide Sound, EndSessions, PatchEmail, PatchFlags, PatchConflicts;
      StaysSound(Snapshot(), OpAdminPatch(id, p), now, AdminPatch(Snapshot(), id, p, now));
      if !LiveId(users, id) {
        return Refused(404);
      }
      var ended := false;
      if p.email.Some? {
        var conflict := AddressConflicts(id, p.email.value);
        if conflict {
          return Refused(409);
        }
        ended := p.email.value != users[id].email;
        ApplyEmail(id, p.email.value, now);
      }
      if p.password.Some? {
        users := users[id := users[id].(password := p.password)];
        EndUserSessions(id, now);
        ended := true;
      }
      ApplyFlags(id, p, now);
      reply := if ended then SessionsEnded(id) else Done;
    }

    method HandleDelete(id: nat, now: int) returns (reply: Reply)
      requires Valid()
      modifies this
      ensures Valid() && Outcome(Snapshot(), reply) == DeleteUser(old(Snapshot()), id, now)
    {
      hide Sound, ClearPending;
      StaysSound(Snapshot(), OpDeleteUser(id), now, DeleteUser(Snapshot(), id, now));
      if !LiveId(users, id) {
        return Refused(404);
      }
      users := users[id := users[id].(deletedAt := Some(now))];
      ClearPendingEmail(id);
      DeleteRefreshTokens(id);
      DeleteRotatedTokens(id);
      reply := Done;
    }

    method HandleRestore(id: nat, now: int) returns (reply: Reply)
      requires Valid()
      modifies this
      ensures Valid() && Outcome(Snapshot(), reply) == RestoreUser(old(Snapshot()), id)
    {
      hide Sound;
      StaysSound(Snapshot(), OpRestoreUser(id), now, RestoreUser(Snapshot(), id));
      if id >= |users| {
        return Refused(404);
      }
      users := users[id := users[id].(deletedAt := None)];
      reply := Done;
    }

    method HandleChangeRoles(id: nat, now: int) returns (reply: Reply)
      requires Valid()
      modifies this
      ensures Valid() && Outcome(Snapshot(), reply) == ChangeRoles(old(Snapshot()), id, now)
    {
      hide Sound;
      StaysSound(Snapshot(), OpChangeRoles(id), now, ChangeRoles(Snapshot(), id, now));
      if !LiveId(users, id) {
        return Refused(404);
      }
      Stamp(id, now);
      reply := Done;
    }
  }

  lemma StaysSound(s: Accounts, op: Op, now: int, o: Outcome)
    requires Sound(s) && o == Step(s, op, now)
    ensures Sound(o.accounts)
  {
    hide Step, TokensOk, AccountsRecovery.ResetsOk, AccountsMailedTokens.VerificationsOk;
    StepSessions(s, op, now);
    AccountsLockout.StepKeepsLocks(s, op, now);
    AccountsRecovery.StepResets(s, op, now);
    AccountsMailedTokens.StepVerifications(s, op, now);
    AccountsPasswords.StepPasswords(s, op, now);
  }

  lemma SoundIsDistinct(s: Accounts)
    requires Sound(s)
    ensures Distinct(s.refresh) && !Holds(s.refresh, s.issued)
  {
    hide AccountsLockout.LocksOk, AccountsRecovery.ResetsOk, AccountsMailedTokens.VerificationsOk,
      AccountsPasswords.PasswordsSet;
  }

  lemma ClearedLength(s: Accounts, id: nat)
    requires id < |s.users|
    ensures |ClearPending(s, id).users| == |s.users|
  {
  }
}
