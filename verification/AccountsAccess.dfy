/** Access tokens against revocation stamps, and the concurrent-session cap, over whole runs. */
module AccountsAccess {
  import opened Core
  import opened Accounts
  import opened AccountsSessions

  // ----- revocation -----

  ghost predicate StampedFrom(users: seq<User>, user: nat, instant: int) {
    user < |users| && users[user].tokenRevokedAt.Some? && users[user].tokenRevokedAt.value >= instant
  }

  lemma StepStamps(s: Accounts, op: Op, now: int, user: nat, instant: int)
    requires TokensOk(s) && StampedFrom(s.users, user, instant) && instant <= now
    ensures StampedFrom(Step(s, op, now).accounts.users, user, instant)
  {
    hide Step, TokensOk, TokensStep, EndsAll;
    StepSessions(s, op, now);
  }

  /** A revocation stamp never moves back. */
  lemma {:induction false} StampsNeverFall(s: Accounts, events: seq<Event>, i: nat, j: nat, user: nat, instant: int)
    requires TokensOk(s) && i <= j <= |events|
    requires StampedFrom(After(s, events[..i]).users, user, instant)
    requires forall k :: i <= k < |events| ==> instant <= events[k].now
    ensures StampedFrom(After(s, events[..j]).users, user, instant)
    decreases j
  {
    hide Step, TokensOk, After, StampedFrom;
    if i < j {
      AfterNext(s, events, j - 1);
      StampsNeverFall(s, events, i, j - 1, user, instant);
      RunTokens(s, events[..j - 1]);
      StepStamps(After(s, events[..j - 1]), events[j - 1].op, events[j - 1].now, user, instant);
    }
  }

  lemma StampedIsRejected(s: Accounts, token: AccessToken, issuedAt: int, instant: int, now: int)
    requires StampedFrom(s.users, token.sub, instant) && token.iat == issuedAt / 1000 && issuedAt < instant
    ensures Authenticate(s, token, now) == None
  {
  }

  /** Once a user's sessions end, every access token issued to them strictly before is rejected, then and ever after. */
  lemma RevokedForever(s: Accounts, events: seq<Event>, i: nat, j: nat, token: AccessToken, issuedAt: int, now: int)
    requires TokensOk(s) && Clocked(events) && i < j <= |events|
    requires Ends(ReplyAt(s, events, i), token.sub) && token.iat == issuedAt / 1000 && issuedAt < events[i].now
    ensures Authenticate(After(s, events[..j]), token, now) == None
  {
    hide Step, TokensOk, After, TokensStep, StampsStep, Authenticate;
    AfterNext(s, events, i);
    RunTokens(s, events[..i]);
    StepSessions(After(s, events[..i]), events[i].op, events[i].now);
    StampsNeverFall(s, events, i + 1, j, token.sub, events[i].now);
    StampedIsRejected(After(s, events[..j]), token, issuedAt, events[i].now, now);
  }

  /**
   Exactly which tokens survive a stamp: those whose whole second begins at or after it. A token issued later in the
   stamp's own second does not.
   */
  lemma SurvivesTheStamp(s: Accounts, user: nat, issuedAt: int, stamp: int, now: int)
    requires LiveId(s.users, user) && s.users[user].tokenRevokedAt == Some(stamp)
    requires now / 1000 <= issuedAt / 1000 + ACCESS_TOKEN_SECONDS
    ensures Authenticate(s, IssueAccess(user, issuedAt), now) == Some(user) <==> stamp <= issuedAt / 1000 * 1000
    ensures issuedAt < stamp ==> Authenticate(s, IssueAccess(user, issuedAt), now) == None
    ensures issuedAt >= stamp + 1000 ==> Authenticate(s, IssueAccess(user, issuedAt), now) == Some(user)
  {
  }

  // ----- the session cap -----

  function Sessions(refresh: seq<Entry>, user: nat): nat {
    |Owned(refresh, user, true)|
  }

  lemma {:induction false} DropOldestExact(refresh: seq<Entry>, user: nat, excess: nat)
    requires excess <= Sessions(refresh, user)
    ensures Owned(DropOldest(refresh, user, excess), user, true) == Owned(refresh, user, true)[excess..]
    ensures Owned(DropOldest(refresh, user, excess), user, false) == Owned(refresh, user, false)
  {
    hide Owned, DropOldest;
    OldestUnfolds(refresh, user, excess);
    OwnedUnfolds(refresh, user);
    if refresh != [] && excess > 0 {
      var head, rest := refresh[0], refresh[1..];
      if head.user == user {
        DropOldestExact(rest, user, excess - 1);
        assert ([head] + Owned(rest, user, true))[excess..] == Owned(rest, user, true)[excess - 1..];
      } else {
        DropOldestExact(rest, user, excess);
        var kept := DropOldest(rest, user, excess);
        OwnedUnfolds([head] + kept, user);
        assert ([head] + kept)[1..] == kept;
      }
    }
  }

  lemma OwnedUnfolds(refresh: seq<Entry>, user: nat)
    ensures forall own ::
              Owned(refresh, user, own) ==
              if refresh == [] then []
              else if (refresh[0].user == user) == own then [refresh[0]] + Owned(refresh[1..], user, own)
              else Owned(refresh[1..], user, own)
  {
  }

  /** Pruning keeps exactly the user's newest `maxSessions` tokens, in order, and everybody else's as they were. */
  lemma PruneKeepsNewest(refresh: seq<Entry>, user: nat, maxSessions: nat)
    ensures var mine := Owned(refresh, user, true);
            && Owned(Prune(refresh, user, maxSessions), user, true) == mine[|mine| - Min(|mine|, maxSessions)..]
            && Owned(Prune(refresh, user, maxSessions), user, false) == Owned(refresh, user, false)
  {
    DropOldestExact(refresh, user, Max(0, |Owned(refresh, user, true)| - maxSessions));
  }

  lemma {:induction false} OthersOf(refresh: seq<Entry>, user: nat, other: nat)
    requires user != other
    ensures Owned(Owned(refresh, user, false), other, true) == Owned(refresh, other, true)
  {
    if refresh != [] {
      OthersOf(refresh[1..], user, other);
    }
  }

  lemma {:induction false} OwnedAppend(refresh: seq<Entry>, e: Entry, user: nat, own: bool)
    ensures Owned(refresh + [e], user, own) == Owned(refresh, user, own) + if (e.user == user) == own then [e] else []
  {
    if refresh == [] {
      assert [] + [e] == [e];
    } else {
      assert (refresh + [e])[1..] == refresh[1..] + [e];
      OwnedAppend(refresh[1..], e, user, own);
    }
  }

  lemma {:induction false} DropTokenCount(refresh: seq<Entry>, token: nat, user: nat)
    ensures Sessions(DropToken(refresh, token),
            user) + (if Entry(token, user) in refresh then 1 else 0) <= Sessions(refresh, user)
  {
    if refresh != [] {
      DropTokenCount(refresh[1..], token, user);
    }
  }

  lemma {:induction false} NoneLeft(refresh: seq<Entry>, user: nat)
    ensures Owned(Owned(refresh, user, false), user, true) == []
  {
    if refresh != [] {
      NoneLeft(refresh[1..], user);
    }
  }

  lemma OwnedCount(refresh: seq<Entry>, gone: nat, user: nat)
    ensures Sessions(Owned(refresh, gone, false), user) <= Sessions(refresh, user)
  {
    if gone == user {
      NoneLeft(refresh, user);
    } else {
      OthersOf(refresh, gone, user);
    }
  }

  lemma SignInCount(s: Accounts, id: nat, allowance: nat, now: int, user: nat)
    ensures var o := SignIn(s, id, allowance, now);
            Sessions(o.accounts.refresh, user) <= if id == user then allowance else Sessions(s.refresh, user)
  {
    var grown := s.refresh + [Entry(s.issued, id)];
    PruneKeepsNewest(grown, id, allowance);
    if id != user {
      OthersOf(grown, id, user);
      OthersOf(Prune(grown, id, allowance), id, user);
      OwnedAppend(s.refresh, Entry(s.issued, id), user, true);
    }
  }

  /** The allowance a sign-in was given. */
  function AllowanceOf(op: Op): nat {
    match op
    case OpLogin(_, _, allowance) => allowance
    case OpOAuthSignIn(_, allowance) => allowance
    case _ => 0
  }

  predicate SignsIn(reply: Reply, user: nat) { reply.SignedIn? && reply.user == user }

  lemma RefreshCount(s: Accounts, token: nat, now: int, user: nat)
    ensures Sessions(Refresh(s, token, now).accounts.refresh, user) <= Sessions(s.refresh, user)
  {
    var o := Refresh(s, token, now);
    if token in s.rotated {
      OwnedCount(s.refresh, s.rotated[token], user);
    } else {
      DropTokenCount(s.refresh, token, user);
      if o.reply.Refreshed? {
        OwnedAppend(DropToken(s.refresh, token), Entry(s.issued, o.reply.user), user, true);
      }
    }
  }

  lemma PatchCount(s: Accounts, id: nat, p: Patch, now: int, user: nat)
    ensures Sessions(AdminPatch(s, id, p, now).accounts.refresh, user) <= Sessions(s.refresh, user)
  {
    hide Owned, DropUser, PatchConflicts, PatchFlags;
    OwnedCount(s.refresh, id, user);
    OwnedCount(Owned(s.refresh, id, false), id, user);
  }

  /** The other steps leave the table alone or drop one user's entries. */
  lemma OtherCounts(s: Accounts, op: Op, now: int)
    requires !op.OpLogin? && !op.OpOAuthSignIn? && !op.OpRefresh? && !op.OpAdminPatch?
    ensures var o := Step(s, op, now);
            && !o.reply.SignedIn?
            && (o.accounts.refresh == s.refresh || exists gone :: o.accounts.refresh == Owned(s.refresh, gone, false))
  {
    hide Owned, DropUser, TakenByOther, AddressTaken, FindByEmail;
    var o := Step(s, op, now);
    match op
    case OpLogout(access) => EndSessionsDrops(s, o);
    case OpChangePassword(_, _, _) => EndSessionsDrops(s, o);
    case OpResetPassword(_, _) => EndSessionsDrops(s, o);
    case OpConfirmEmailChange(_) => EndSessionsDrops(s, o);
    case OpDeleteUser(id) => assert o.accounts.refresh == s.refresh ||
      o.accounts.refresh == Owned(s.refresh, id, false);
    case _ =>
  }

  lemma EndSessionsDrops(s: Accounts, o: Outcome)
    requires o.reply.SessionsEnded? ==> o.accounts.refresh == Owned(s.refresh, o.reply.user, false)
    requires !o.reply.SessionsEnded? ==> o.accounts.refresh == s.refresh
    ensures o.accounts.refresh == s.refresh || exists gone :: o.accounts.refresh == Owned(s.refresh, gone, false)
  {
  }

  lemma StepCount(s: Accounts, op: Op, now: int, user: nat)
    ensures var o := Step(s, op, now);
            Sessions(o.accounts.refresh, user) <= if SignsIn(o.reply, user) then AllowanceOf(op)
              else Sessions(s.refresh, user)
  {
    hide Login, OAuthSignIn, Refresh, AdminPatch, Sessions, Owned;
    match op
    case OpLogin(email, password, allowance) => LoginCount(s, email, password, allowance, now, user);
    case OpOAuthSignIn(id, allowance) => OAuthCount(s, id, allowance, now, user);
    case OpRefresh(token) =>
      RefreshCount(s, token, now, user);
      RefreshNeverSignsIn(s, token, now);
    case OpAdminPatch(id, p) =>
      PatchCount(s, id, p, now, user);
      PatchNeverSignsIn(s, id, p, now);
    case _ => OtherCount(s, op, now, user);
  }

  lemma LoginCount(s: Accounts, email: string, password: Option<string>, allowance: nat, now: int, user: nat)
    ensures var o := Login(s, email, password, allowance, now);
            Sessions(o.accounts.refresh, user) <=
            if SignsIn(o.reply, user) then allowance else Sessions(s.refresh, user)
  {
    hide Login, Sessions, Prune;
    var mid, id := LoginShape(s, email, password, allowance, now);
    SignInCount(mid, id, allowance, now, user);
  }

  lemma OAuthCount(s: Accounts, id: nat, allowance: nat, now: int, user: nat)
    ensures var o := OAuthSignIn(s, id, allowance, now);
            Sessions(o.accounts.refresh, user) <=
            if SignsIn(o.reply, user) then allowance else Sessions(s.refresh, user)
  {
    hide Sessions, Prune;
    SignInCount(s, id, allowance, now, user);
  }

  lemma OtherCount(s: Accounts, op: Op, now: int, user: nat)
    requires !op.OpLogin? && !op.OpOAuthSignIn? && !op.OpRefresh? && !op.OpAdminPatch?
    ensures var o := Step(s, op, now);
            !o.reply.SignedIn? && Sessions(o.accounts.refresh, user) <= Sessions(s.refresh, user)
  {
    hide Step, Owned, Sessions;
    OtherCounts(s, op, now);
    var o := Step(s, op, now);
    if o.accounts.refresh != s.refresh {
      var gone :| o.accounts.refresh == Owned(s.refresh, gone, false);
      OwnedCount(s.refresh, gone, user);
    }
  }

  lemma PatchNeverSignsIn(s: Accounts, id: nat, p: Patch, now: int)
    ensures !AdminPatch(s, id, p, now).reply.SignedIn?
  {
    hide PatchEmail, EndSessions, PatchConflicts, PatchFlags;
  }

  lemma RefreshNeverSignsIn(s: Accounts, token: nat, now: int)
    ensures !Refresh(s, token, now).reply.SignedIn?
  {
  }

  /** The allowance of the user's last sign-in in the run; what they started with, if none. */
  function Cap(s: Accounts, events: seq<Event>, user: nat): nat {
    if events == [] then Sessions(s.refresh, user)
    else if SignsIn(ReplyAt(s, events, |events| - 1), user) then AllowanceOf(events[|events| - 1].op)
    else Cap(s, events[..|events| - 1], user)
  }

  /**
   A user's active refresh tokens never exceed the allowance resolved at their last sign-in, through any number of
   rotations.
   */
  lemma {:induction false} SessionsWithinCap(s: Accounts, events: seq<Event>, user: nat)
    ensures Sessions(After(s, events).refresh, user) <= Cap(s, events, user)
  {
    hide Step, Sessions;
    if events != [] {
      var last := |events| - 1;
      SessionsWithinCap(s, events[..last], user);
      StepCount(After(s, events[..last]), events[last].op, events[last].now, user);
    }
  }
}
