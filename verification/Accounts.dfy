/**
 Accounts, refresh tokens and email changes as a step machine. A user's id is their index in the table; a fresh token
 is the next number of a supply, so no token is ever issued twice. Times are milliseconds. Request bodies are those
 that pass the field validation.
 */
module Accounts {
  import opened Core

  const MAX_FAILED_ATTEMPTS: nat := 5
  const LOCKOUT_DURATION_MS := 15 * 60 * 1000
  const EMAIL_CHANGE_TOKEN_EXPIRY_MS := 60 * 60 * 1000
  const ACCESS_TOKEN_SECONDS := 3600

  datatype User = User(
    email: string,
    password: Option<string>,
    isActive: bool,
    isEmailVerified: bool,
    failedLoginAttempts: nat,
    lockedUntil: Option<int>,
    tokenRevokedAt: Option<int>,
    pendingEmail: Option<string>,
    pendingEmailToken: Option<nat>,
    pendingEmailExpiresAt: Option<int>,
    deletedAt: Option<int>)

  datatype Entry = Entry(token: nat, user: nat)

  /** `refresh` keeps insertion order, oldest first; `rotated` remembers redeemed tokens. */
  datatype Accounts = Tables(
    users: seq<User>,
    refresh: seq<Entry>,
    rotated: map<nat, nat>,
    resets: map<nat, nat>,
    verifications: map<nat, nat>,
    emailChanges: map<nat, nat>,
    issued: nat)

  datatype AccessToken = AccessToken(sub: nat, iat: int, exp: int)

  const EMPTY := Tables([], [], map[], map[], map[], map[], 0)

  // ----- lookups and tokens -----

  predicate Live(u: User) { u.deletedAt.None? }

  predicate LiveId(users: seq<User>, id: nat) { id < |users| && Live(users[id]) }

  function FindByEmail(users: seq<User>, email: string): Option<nat> {
    First(users, (u: User) => u.email == email && Live(u))
  }

  /** The lookup finds a live account. */
  lemma FoundIsLive(users: seq<User>, email: string)
    ensures var found := FindByEmail(users, email);
            found.Some? ==> found.value < |users| && Live(users[found.value]) && users[found.value].email == email
  {
  }

  /** The lookup sees addresses and deletion marks only. */
  lemma SameLookup(a: seq<User>, b: seq<User>, email: string)
    requires |a| == |b| && forall i :: 0 <= i < |a| ==> b[i].email == a[i].email && b[i].deletedAt == a[i].deletedAt
    ensures FindByEmail(a, email) == FindByEmail(b, email)
  {
  }

  function FindByPendingEmail(users: seq<User>, email: string): Option<nat> {
    First(users, (u: User) => u.pendingEmail == Some(email) && Live(u))
  }

  /** Another live account already uses the address, as its own or as a pending one. */
  predicate TakenByOther(users: seq<User>, id: nat, email: string) {
    exists i :: 0 <= i < |users| && i != id && Live(users[i]) &&
      (users[i].email == email || users[i].pendingEmail == Some(email))
  }

  /**
   What an administrator's change of address looks for: the first live holder of the address, and a pending change to
   it elsewhere.
   */
  predicate PatchConflicts(users: seq<User>, id: nat, email: string) {
    var existing := FindByEmail(users, email);
    || (existing.Some? && existing.value != id)
    || exists i :: 0 <= i < |users| && Live(users[i]) && users[i].pendingEmail == Some(email) && i != id
  }

  function IssueAccess(user: nat, now: int): AccessToken {
    AccessToken(user, now / 1000, now / 1000 + ACCESS_TOKEN_SECONDS)
  }

  /** `authenticateRequest`: the iat is in whole seconds, the revocation stamp in milliseconds. */
  function Authenticate(s: Accounts, t: AccessToken, now: int): (r: Option<nat>)
    ensures r.Some? ==> r.value == t.sub && LiveId(s.users, r.value)
  {
    if t.exp < now / 1000 then None
    else if !LiveId(s.users, t.sub) then None
    else if s.users[t.sub].tokenRevokedAt.Some? && t.iat * 1000 < s.users[t.sub].tokenRevokedAt.value then None
    else Some(t.sub)
  }

  predicate Holds(refresh: seq<Entry>, token: nat) {
    exists e :: e in refresh && e.token == token
  }

  function OwnerOf(refresh: seq<Entry>, token: nat): (r: Option<nat>)
    ensures r.None? <==> !Holds(refresh, token)
    ensures r.Some? ==> Entry(token, r.value) in refresh
  {
    var i := First(refresh, (e: Entry) => e.token == token);
    if i.None? then None else Some(refresh[i.value].user)
  }

  function DropToken(refresh: seq<Entry>, token: nat): (r: seq<Entry>)
    ensures forall e :: e in r <==> e in refresh && e.token != token
  {
    if refresh == [] then []
    else if refresh[0].token == token then DropToken(refresh[1..], token)
    else [refresh[0]] + DropToken(refresh[1..], token)
  }

  /** The entries of one user, or of everybody else, in order. */
  function Owned(refresh: seq<Entry>, user: nat, own: bool): (r: seq<Entry>)
    ensures forall e :: e in r <==> e in refresh && (e.user == user) == own
  {
    if refresh == [] then []
    else if (refresh[0].user == user) == own then [refresh[0]] + Owned(refresh[1..], user, own)
    else Owned(refresh[1..], user, own)
  }

  function DropUser(rotated: map<nat, nat>, user: nat): map<nat, nat> {
    map t | t in rotated && rotated[t] != user :: rotated[t]
  }

  /** Deletes the user's oldest `excess` entries. */
  function DropOldest(refresh: seq<Entry>, user: nat, excess: nat): (r: seq<Entry>)
    ensures forall e :: e in r ==> e in refresh
  {
    if refresh == [] || excess == 0 then refresh
    else if refresh[0].user == user then DropOldest(refresh[1..], user, excess - 1)
    else [refresh[0]] + DropOldest(refresh[1..], user, excess)
  }

  /** The concurrent-session cap. */
  function Prune(refresh: seq<Entry>, user: nat, maxSessions: nat): seq<Entry> {
    DropOldest(refresh, user, Max(0, |Owned(refresh, user, true)| - maxSessions))
  }

  datatype Reply =
    | Done
    | Refused(status: nat)
    | SignedIn(user: nat, refresh: nat, access: AccessToken)
    | Refreshed(user: nat, used: nat, refresh: nat, access: AccessToken)
    | ReuseDetected(user: nat)
    | SessionsEnded(user: nat)

  datatype Outcome = Outcome(accounts: Accounts, reply: Reply)

  // ----- sessions -----

  /** Drops every refresh token of the user, active and rotated. */
  function DropSessions(s: Accounts, user: nat): Accounts {
    s.(refresh := Owned(s.refresh, user, false), rotated := DropUser(s.rotated, user))
  }

  function Stamped(users: seq<User>, id: nat, now: int): (r: seq<User>)
    ensures |r| == |users|
  {
    if LiveId(users, id) then users[id := users[id].(tokenRevokedAt := Some(now))] else users
  }

  function EndSessions(s: Accounts, user: nat, now: int): (r: Accounts)
    ensures |r.users| == |s.users|
  {
    DropSessions(s, user).(users := Stamped(s.users, user, now))
  }

  /** A new session for the user, then the cap. */
  function SignIn(s: Accounts, user: nat, allowance: nat, now: int): Outcome {
    Outcome(s.(refresh := Prune(s.refresh + [Entry(s.issued, user)], user, allowance), issued := s.issued + 1),
            SignedIn(user, s.issued, IssueAccess(user, now)))
  }

  predicate LockedAt(u: User, now: int) { u.lockedUntil.Some? && u.lockedUntil.value > now }

  /** An expired lock is cleared, with its count, before the password is looked at. */
  function Unexpired(u: User): User {
    if u.lockedUntil.Some? then u.(lockedUntil := None, failedLoginAttempts := 0) else u
  }

  function CountFailure(u: User, now: int): User {
    var attempts := u.failedLoginAttempts + 1;
    u.(failedLoginAttempts := attempts, lockedUntil := if attempts >= MAX_FAILED_ATTEMPTS
      then Some(now + LOCKOUT_DURATION_MS) else u.lockedUntil)
  }

  function Login(s: Accounts, email: string, password: Option<string>, allowance: nat, now: int): Outcome {
    var found := FindByEmail(s.users, email);
    if found.None? then Outcome(s, Refused(401))
    else
      var id := found.value;
      if LockedAt(s.users[id], now) then Outcome(s, Refused(423))
      else
        var u := Unexpired(s.users[id]);
        if !u.isActive then Outcome(s.(users := s.users[id := u]), Refused(401))
        else if u.password != password then
          var failed := CountFailure(u, now);
          Outcome(s.(users := s.users[id := failed]),
            Refused(if failed.failedLoginAttempts >= MAX_FAILED_ATTEMPTS then 423 else 401))
        else if !u.isEmailVerified then Outcome(s.(users := s.users[id := u]), Refused(403))
        else SignIn(s.(users := s.users[id := u.(failedLoginAttempts := 0, lockedUntil := None)]), id, allowance, now)
  }

  function OAuthSignIn(s: Accounts, user: nat, allowance: nat, now: int): Outcome {
    if LiveId(s.users, user) then SignIn(s, user, allowance, now) else Outcome(s, Refused(400))
  }

  /** Rotation, with reuse detection: a redeemed token presented again ends every session of its user. */
  function Refresh(s: Accounts, token: nat, now: int): Outcome {
    if token in s.rotated then Outcome(EndSessions(s, s.rotated[token], now), ReuseDetected(s.rotated[token]))
    else
      var owner := OwnerOf(s.refresh, token);
      if owner.None? then Outcome(s, Refused(401))
      else if !LiveId(s.users, owner.value) || !s.users[owner.value].isActive then
        Outcome(s.(refresh := DropToken(s.refresh, token)), Refused(401))
      else
        Outcome(s.(refresh := DropToken(s.refresh, token) + [Entry(s.issued, owner.value)],
          rotated := s.rotated[token := owner.value], issued := s.issued + 1),
                Refreshed(owner.value, token, s.issued, IssueAccess(owner.value, now)))
  }

  function Logout(s: Accounts, access: AccessToken, now: int): Outcome {
    var user := Authenticate(s, access, now);
    if user.None? then Outcome(s, Refused(401)) else Outcome(EndSessions(s, user.value, now), SessionsEnded(user.value))
  }

  /** The password part of the profile update. */
  function ChangePassword(s: Accounts, access: AccessToken, current: Option<string>, next: string, now: int): Outcome {
    var user := Authenticate(s, access, now);
    if user.None? then Outcome(s, Refused(401))
    else
      var u := s.users[user.value];
      if u.password.Some? && (current.None? || current.value == "" || u.password != current)
        then Outcome(s, Refused(400))
      else Outcome(EndSessions(s.(users := s.users[user.value := u.(password := Some(next))]), user.value, now),
        SessionsEnded(user.value))
  }

  function ForgotPassword(s: Accounts, email: string): Outcome {
    var found := FindByEmail(s.users, email);
    if found.None? || !s.users[found.value].isActive then Outcome(s, Done)
    else Outcome(s.(resets := DropUser(s.resets, found.value)[s.issued := found.value], issued := s.issued + 1), Done)
  }

  // ----- email change -----

  function WithoutPending(u: User): User {
    u.(pendingEmail := None, pendingEmailToken := None, pendingEmailExpiresAt := None)
  }

  function DropKey(m: map<nat, nat>, key: Option<nat>): map<nat, nat> {
    if key.Some? then m - {key.value} else m
  }

  /** Cancels a change in flight: the user's fields and the token index together. */
  function ClearPending(s: Accounts, id: nat): Accounts
    requires id < |s.users|
  {
    s.(users := s.users[id := WithoutPending(s.users[id])],
      emailChanges := DropKey(s.emailChanges, s.users[id].pendingEmailToken))
  }

  function ResetPassword(s: Accounts, token: nat, next: string, now: int): Outcome {
    if token !in s.resets || !LiveId(s.users, s.resets[token]) then Outcome(s, Refused(400))
    else
      var id := s.resets[token];
      var s1 := ClearPending(s.(users := s.users[id := s.users[id].(password := Some(next))]), id);
      Outcome(EndSessions(s1.(resets := s1.resets - {token}), id, now), SessionsEnded(id))
  }

  function InitiateEmailChange(s: Accounts, access: AccessToken, current: string, newEmail: string, now: int): Outcome {
    var user := Authenticate(s, access, now);
    if user.None? then Outcome(s, Refused(401))
    else
      var id := user.value;
      var u := s.users[id];
      if u.password.None? || u.password.value != current || newEmail == u.email then Outcome(s, Refused(400))
      else if TakenByOther(s.users, id, newEmail) then Outcome(s, Done)
      else
        var pending := u.(pendingEmail := Some(newEmail), pendingEmailToken := Some(s.issued),
          pendingEmailExpiresAt := Some(now + EMAIL_CHANGE_TOKEN_EXPIRY_MS));
        Outcome(s.(users := s.users[id := pending],
                   emailChanges := DropKey(s.emailChanges, u.pendingEmailToken)[s.issued := id],
                   issued := s.issued + 1),
                Done)
  }

  predicate HeldElsewhere(users: seq<User>, id: nat, email: string) {
    exists i :: 0 <= i < |users| && i != id && Live(users[i]) && users[i].email == email
  }

  function ConfirmEmailChange(s: Accounts, token: nat, now: int): Outcome {
    if token !in s.emailChanges then Outcome(s, Refused(400))
    else
      var id := s.emailChanges[token];
      var unindexed := s.(emailChanges := s.emailChanges - {token});
      if !LiveId(s.users, id) || s.users[id].pendingEmail.None? then Outcome(unindexed, Refused(400))
      else
        var u := s.users[id];
        var canceled := unindexed.(users := s.users[id := WithoutPending(u)]);
        if u.pendingEmailExpiresAt.Some? && u.pendingEmailExpiresAt.value < now then Outcome(canceled, Refused(400))
        else if HeldElsewhere(s.users, id, u.pendingEmail.value) then Outcome(canceled, Refused(409))
        else
          var moved := WithoutPending(u).(email := u.pendingEmail.value, isEmailVerified := true);
          Outcome(EndSessions(unindexed.(users := s.users[id := moved]), id, now), SessionsEnded(id))
  }

  // ----- accounts -----

  function NewUser(email: string, password: string, verified: bool): User {
    User(email, Some(password), true, verified, 0, None, None, None, None, None, None)
  }

  predicate AddressTaken(users: seq<User>, email: string) {
    FindByEmail(users, email).Some? || FindByPendingEmail(users, email).Some?
  }

  function Register(s: Accounts, email: string, password: string): Outcome {
    if AddressTaken(s.users, email) then Outcome(s, Refused(409))
    else Outcome(s.(users := s.users + [NewUser(email, password, false)],
      verifications := s.verifications[s.issued := |s.users|], issued := s.issued + 1), Done)
  }

  function AdminCreate(s: Accounts, email: string, password: string): Outcome {
    if AddressTaken(s.users, email) then Outcome(s, Refused(409))
    else Outcome(s.(users := s.users + [NewUser(email, password, true)]), Done)
  }

  function VerifyEmail(s: Accounts, token: nat): Outcome {
    if token !in s.verifications || !LiveId(s.users, s.verifications[token]) then Outcome(s, Refused(400))
    else
      var id := s.verifications[token];
      Outcome(s.(users := s.users[id := s.users[id].(isEmailVerified := true)],
        verifications := s.verifications - {token}), Done)
  }

  /** A further verification mail, for a known address not verified yet: it replaces every token mailed before. */
  function ResendVerification(s: Accounts, email: string): Outcome {
    var found := FindByEmail(s.users, email);
    if found.None? || s.users[found.value].isEmailVerified then Outcome(s, Done)
    else Outcome(s.(verifications := DropUser(s.verifications, found.value)[s.issued := found.value],
                    issued := s.issued + 1), Done)
  }

  datatype Patch = Patch(email: Option<string>, password: Option<string>, isActive: Option<bool>, unlock: bool)

  function PatchEmail(s: Accounts, id: nat, email: string, now: int): (r: Accounts)
    requires id < |s.users|
    ensures |r.users| == |s.users|
  {
    if email == s.users[id].email then s
    else
      var s1 := ClearPending(s, id);
      EndSessions(s1.(users := s1.users[id := s1.users[id].(email := email, isEmailVerified := false)]), id, now)
  }

  function PatchFlags(u: User, p: Patch, now: int): User {
    var u1 := if p.isActive.None? then u
              else u.(isActive := p.isActive.value, tokenRevokedAt := if !p.isActive.value &&
                u.isActive then Some(now) else u.tokenRevokedAt);
    if p.unlock then u1.(failedLoginAttempts := 0, lockedUntil := None) else u1
  }

  function AdminPatch(s: Accounts, id: nat, p: Patch, now: int): Outcome {
    if !LiveId(s.users, id) then Outcome(s, Refused(404))
    else if p.email.Some? && PatchConflicts(s.users, id, p.email.value) then Outcome(s, Refused(409))
    else
      var s1 := if p.email.Some? then PatchEmail(s, id, p.email.value, now) else s;
      var s2 := if p.password.Some?
                then EndSessions(s1.(users := s1.users[id := s1.users[id].(password := p.password)]), id, now) else s1;
      var ended := p.password.Some? || (p.email.Some? && p.email.value != s.users[id].email);
      Outcome(s2.(users := s2.users[id := PatchFlags(s2.users[id], p, now)]), if ended then SessionsEnded(id) else Done)
  }

  function DeleteUser(s: Accounts, id: nat, now: int): Outcome {
    if !LiveId(s.users, id) then Outcome(s, Refused(404))
    else
      var s1 := s.(users := s.users[id := s.users[id].(deletedAt := Some(now))]);
      Outcome(DropSessions(ClearPending(s1, id), id), Done)
  }

  function RestoreUser(s: Accounts, id: nat): Outcome {
    if id >= |s.users| then Outcome(s, Refused(404))
    else Outcome(s.(users := s.users[id := s.users[id].(deletedAt := None)]), Done)
  }

  /** A role assignment or removal stamps the account; its refresh tokens stay. */
  function ChangeRoles(s: Accounts, id: nat, now: int): Outcome {
    if LiveId(s.users, id) then Outcome(s.(users := Stamped(s.users, id, now)), Done) else Outcome(s, Refused(404))
  }

  // ----- steps and runs -----

  datatype Op =
    | OpLogin(email: string, password: Option<string>, allowance: nat)
    | OpOAuthSignIn(id: nat, allowance: nat)
    | OpRefresh(token: nat)
    | OpLogout(access: AccessToken)
    | OpChangePassword(access: AccessToken, current: Option<string>, next: string)
    | OpForgotPassword(email: string)
    | OpResetPassword(token: nat, next: string)
    | OpInitiateEmailChange(access: AccessToken, oldPassword: string, newEmail: string)
    | OpConfirmEmailChange(token: nat)
    | OpRegister(email: string, newPassword: string)
    | OpAdminCreate(email: string, newPassword: string)
    | OpVerifyEmail(token: nat)
    | OpResendVerification(email: string)
    | OpAdminPatch(id: nat, patch: Patch)
    | OpDeleteUser(id: nat)
    | OpRestoreUser(id: nat)
    | OpChangeRoles(id: nat)

  function Step(s: Accounts, op: Op, now: int): Outcome {
    match op
    case OpLogin(email, password, allowance) => Login(s, email, password, allowance, now)
    case OpOAuthSignIn(id, allowance) => OAuthSignIn(s, id, allowance, now)
    case OpRefresh(token) => Refresh(s, token, now)
    case OpLogout(access) => Logout(s, access, now)
    case OpChangePassword(access, current, next) => ChangePassword(s, access, current, next, now)
    case OpForgotPassword(email) => ForgotPassword(s, email)
    case OpResetPassword(token, next) => ResetPassword(s, token, next, now)
    case OpInitiateEmailChange(access, current, newEmail) => InitiateEmailChange(s, access, current, newEmail, now)
    case OpConfirmEmailChange(token) => ConfirmEmailChange(s, token, now)
    case OpRegister(email, password) => Register(s, email, password)
    case OpAdminCreate(email, password) => AdminCreate(s, email, password)
    case OpVerifyEmail(token) => VerifyEmail(s, token)
    case OpResendVerification(email) => ResendVerification(s, email)
    case OpAdminPatch(id, patch) => AdminPatch(s, id, patch, now)
    case OpDeleteUser(id) => DeleteUser(s, id, now)
    case OpRestoreUser(id) => RestoreUser(s, id)
    case OpChangeRoles(id) => ChangeRoles(s, id, now)
  }

  datatype Event = Event(op: Op, now: int)

  function After(s: Accounts, events: seq<Event>): Accounts {
    if events == [] then s
    else
      var last := events[|events| - 1];
      Step(After(s, events[..|events| - 1]), last.op, last.now).accounts
  }

  function ReplyAt(s: Accounts, events: seq<Event>, k: nat): Reply
    requires k < |events|
  {
    Step(After(s, events[..k]), events[k].op, events[k].now).reply
  }

  /** Time never runs backwards. */
  ghost predicate Clocked(events: seq<Event>) {
    forall i, j :: 0 <= i < j < |events| ==> events[i].now <= events[j].now
  }
}
