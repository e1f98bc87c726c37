// Local users and revocable sessions: login lockout, and which sessions can still resolve.
module UserService {
  import opened Strings
  import FailureLimiter

  const MAX_FAILED_LOGINS: nat := 5
  const LOCKOUT_MINUTES := 15
  const SESSION_TTL_MINUTES := 480

  datatype UserStatus = Active | Disabled

  datatype User = User(
    email: string, passwordHash: string, status: UserStatus,
    failedLoginCount: nat, lockedUntil: Option<int>, lastLoginAt: Option<int>)

  datatype Session = Session(
    userId: nat, tokenHash: string, createdAt: int, expiresAt: int, lastSeenAt: int, revokedAt: Option<int>)

  /** The two tables. A row's position is its primary key; times are minutes. */
  datatype State = State(users: seq<User>, sessions: seq<Session>)

  /** Email normalization, password verification and token hashing. */
  datatype Crypto = Crypto(
    normalizeEmail: string -> string, verify: (string, string) -> bool, tokenHash: string -> string)

  const EMPTY := State([], [])

  function FindUser(users: seq<User>, email: string): (u: Option<nat>)
    ensures u.Some? ==> u.value < |users| && users[u.value].email == email
  {
    if users == [] then None
    else if users[|users| - 1].email == email then Some(|users| - 1)
    else FindUser(users[..|users| - 1], email)
  }

  function FindSession(sessions: seq<Session>, hash: string): (i: Option<nat>)
    ensures i.Some? ==> i.value < |sessions| && sessions[i.value].tokenHash == hash
  {
    if sessions == [] then None
    else if sessions[|sessions| - 1].tokenHash == hash then Some(|sessions| - 1)
    else FindSession(sessions[..|sessions| - 1], hash)
  }

  // ----- what each operation does -----

  datatype LoginOutcome = LoggedIn(user: nat) | UnknownUser | Locked | WrongPassword | AccountDisabled

  function Missed(user: User, now: int): User {
    if user.failedLoginCount + 1 >= MAX_FAILED_LOGINS
    then user.(failedLoginCount := 0, lockedUntil := Some(now + LOCKOUT_MINUTES))
    else user.(failedLoginCount := user.failedLoginCount + 1)
  }

  function Login(c: Crypto, s: State, email: string, password: string, now: int): (LoginOutcome, State) {
    match FindUser(s.users, c.normalizeEmail(email))
    case None => (UnknownUser, s)
    case Some(u) =>
      var user := s.users[u];
      if user.lockedUntil.Some? && user.lockedUntil.value > now then (Locked, s)
      else if !c.verify(password, user.passwordHash) then
        (WrongPassword, s.(users := s.users[u := Missed(user, now)]))
      else if user.status != Active then (AccountDisabled, s)
      else (LoggedIn(u), s.(users := s.users[u := user.(failedLoginCount := 0, lockedUntil := None, lastLoginAt := Some(now))]))
  }

  function Resolve(c: Crypto, s: State, token: string, now: int): (Option<nat>, State) {
    match FindSession(s.sessions, c.tokenHash(token))
    case None => (None, s)
    case Some(i) =>
      var row := s.sessions[i];
      if row.revokedAt.Some? || row.expiresAt <= now then (None, s)
      else if row.userId >= |s.users| || s.users[row.userId].status != Active then (None, s)
      else (Some(row.userId), s.(sessions := s.sessions[i := row.(lastSeenAt := now)]))
  }

  function RevokedRow(row: Session, now: int): Session {
    if row.revokedAt.None? then row.(revokedAt := Some(now)) else row
  }

  function RevokeToken(c: Crypto, s: State, token: string, now: int): State {
    match FindSession(s.sessions, c.tokenHash(token))
    case None => s
    case Some(i) => s.(sessions := s.sessions[i := RevokedRow(s.sessions[i], now)])
  }

  /** All open sessions of one user, revoked. */
  function RevokeAll(sessions: seq<Session>, user: nat, now: int): (r: seq<Session>)
    ensures |r| == |sessions|
  {
    if sessions == [] then []
    else
      var last := sessions[|sessions| - 1];
      RevokeAll(sessions[..|sessions| - 1], user, now) + [if last.userId == user then RevokedRow(last, now) else last]
  }

  /** How many sessions of a user are not revoked yet. */
  function OpenCount(sessions: seq<Session>, user: nat): nat {
    if sessions == [] then 0
    else
      var last := sessions[|sessions| - 1];
      OpenCount(sessions[..|sessions| - 1], user) + if last.userId == user && last.revokedAt.None? then 1 else 0
  }

  lemma RevokeNext(sessions: seq<Session>, user: nat, now: int, i: nat)
    requires i < |sessions|
    ensures var row := sessions[i];
      && RevokeAll(sessions[..i + 1], user, now) + sessions[i + 1..]
           == (RevokeAll(sessions[..i], user, now) + sessions[i..])[i := if row.userId == user then RevokedRow(row, now) else row]
      && OpenCount(sessions[..i + 1], user)
           == OpenCount(sessions[..i], user) + if row.userId == user && row.revokedAt.None? then 1 else 0
  {
    assert sessions[..i + 1][..i] == sessions[..i];
  }

  // ----- what a login attempt answers and leaves, in terms of the stored rows -----

  predicate HasAddress(c: Crypto, s: State, u: nat, email: string) {
    u < |s.users| && s.users[u].email == c.normalizeEmail(email)
  }

  predicate IsLocked(user: User, now: int) { user.lockedUntil.Some? && now < user.lockedUntil.value }

  /** The user is checked: the address is theirs and no lock is running. */
  predicate Checked(c: Crypto, s: State, u: nat, email: string, now: int) {
    HasAddress(c, s, u, email) && !IsLocked(s.users[u], now)
  }

  predicate Misses(c: Crypto, s: State, u: nat, email: string, password: string, now: int) {
    Checked(c, s, u, email, now) && !c.verify(password, s.users[u].passwordHash)
  }

  predicate Succeeds(c: Crypto, s: State, u: nat, email: string, password: string, now: int) {
    Checked(c, s, u, email, now) && c.verify(password, s.users[u].passwordHash) && s.users[u].status == Active
  }

  predicate RefusesDisabled(c: Crypto, s: State, u: nat, email: string, password: string, now: int) {
    Checked(c, s, u, email, now) && c.verify(password, s.users[u].passwordHash) && s.users[u].status == Disabled
  }

  ghost predicate Answers(c: Crypto, s: State, email: string, password: string, now: int, o: LoginOutcome) {
    && (forall u: nat :: o == LoggedIn(u) <==> Succeeds(c, s, u, email, password, now))
    && (o == WrongPassword <==> exists u: nat :: Misses(c, s, u, email, password, now))
    && (o == Locked <==> exists u: nat :: HasAddress(c, s, u, email) && IsLocked(s.users[u], now))
    && (o == AccountDisabled <==> exists u: nat :: RefusesDisabled(c, s, u, email, password, now))
    && (o == UnknownUser <==> forall u: nat :: !HasAddress(c, s, u, email))
  }

  /** The fifth miss in a row locks for 15 minutes and clears the counter; a success clears both. */
  predicate LeavesUser(c: Crypto, s: State, s': State, email: string, password: string, now: int, u: nat)
    requires u < |s.users| == |s'.users|
  {
    var before := s.users[u];
    s'.users[u] ==
      if Misses(c, s, u, email, password, now) then
        if before.failedLoginCount >= 4 then before.(failedLoginCount := 0, lockedUntil := Some(now + 15))
        else before.(failedLoginCount := before.failedLoginCount + 1)
      else if Succeeds(c, s, u, email, password, now) then
        before.(failedLoginCount := 0, lockedUntil := None, lastLoginAt := Some(now))
      else before
  }

  ghost predicate Leaves(c: Crypto, s: State, s': State, email: string, password: string, now: int) {
    && s'.sessions == s.sessions && |s'.users| == |s.users|
    && forall u: nat :: u < |s.users| ==> LeavesUser(c, s, s', email, password, now, u)
  }

  ghost predicate UniqueAddresses(users: seq<User>) {
    forall i, j :: 0 <= i < j < |users| ==> users[i].email != users[j].email
  }

  lemma {:induction false} FindUserNone(users: seq<User>, email: string, u: nat)
    requires FindUser(users, email).None? && u < |users|
    ensures users[u].email != email
  {
    if u < |users| - 1 {
      FindUserNone(users[..|users| - 1], email, u);
    }
  }

  lemma OneAddress(users: seq<User>, i: nat, j: nat)
    requires UniqueAddresses(users) && i < |users| && j < |users| && users[i].email == users[j].email
    ensures i == j
  {
  }

  /** The user found is the only one with the address. */
  lemma FoundUser(c: Crypto, s: State, email: string)
    requires UniqueAddresses(s.users)
    ensures var found := FindUser(s.users, c.normalizeEmail(email));
      forall u: nat :: HasAddress(c, s, u, email) <==> found == Some(u)
  {
    var found := FindUser(s.users, c.normalizeEmail(email));
    forall u: nat ensures HasAddress(c, s, u, email) <==> found == Some(u) {
      if HasAddress(c, s, u, email) {
        if found.None? {
          FindUserNone(s.users, c.normalizeEmail(email), u);
        } else {
          OneAddress(s.users, found.value, u);
        }
      }
    }
  }

  /** Where addresses are unique, a login attempt answers and leaves what the rows and the verification call for. */
  lemma LoginMeans(c: Crypto, s: State, email: string, password: string, now: int)
    requires UniqueAddresses(s.users)
    ensures var (o, s') := Login(c, s, email, password, now);
      Answers(c, s, email, password, now, o) && Leaves(c, s, s', email, password, now)
  {
    FoundUser(c, s, email);
    var found := FindUser(s.users, c.normalizeEmail(email));
    if found.Some? {
      assert HasAddress(c, s, found.value, email);
      LoginOf(c, s, email, password, now, found.value);
      AnswerOf(c, s, email, password, now, found.value, Login(c, s, email, password, now).0);
    }
  }

  lemma LoginOf(c: Crypto, s: State, email: string, password: string, now: int, u: nat)
    requires FindUser(s.users, c.normalizeEmail(email)) == Some(u)
    ensures var (o, s') := Login(c, s, email, password, now);
      && (Misses(c, s, u, email, password, now) ==> o == WrongPassword)
      && (Succeeds(c, s, u, email, password, now) ==> o == LoggedIn(u))
      && (RefusesDisabled(c, s, u, email, password, now) ==> o == AccountDisabled)
      && (IsLocked(s.users[u], now) ==> o == Locked)
      && s'.sessions == s.sessions && |s'.users| == |s.users| && LeavesUser(c, s, s', email, password, now, u)
      && (forall v: nat :: v < |s.users| && v != u ==> s'.users[v] == s.users[v])
  {
  }

  lemma AnswerOf(c: Crypto, s: State, email: string, password: string, now: int, u: nat, o: LoginOutcome)
    requires forall v: nat :: HasAddress(c, s, v, email) <==> v == u
    requires Misses(c, s, u, email, password, now) ==> o == WrongPassword
    requires Succeeds(c, s, u, email, password, now) ==> o == LoggedIn(u)
    requires RefusesDisabled(c, s, u, email, password, now) ==> o == AccountDisabled
    requires IsLocked(s.users[u], now) ==> o == Locked
    ensures Answers(c, s, email, password, now, o)
  {
    assert HasAddress(c, s, u, email);
    assert Misses(c, s, u, email, password, now) || Succeeds(c, s, u, email, password, now)
        || RefusesDisabled(c, s, u, email, password, now) || IsLocked(s.users[u], now);
  }

  /** In every reachable state, and in terms of the stored rows: who is logged in, and when the answer is a
      wrong password, a running lock, a disabled account or an unknown user. */
  lemma AuthenticationMeans(c: Crypto, steps: seq<Step>, email: string, password: string, now: int)
    ensures var s := Run(c, EMPTY, steps);
      var (o, s') := Login(c, s, email, password, now);
      Answers(c, s, email, password, now, o) && Leaves(c, s, s', email, password, now)
  {
    RunConsistent(c, EMPTY, steps);
    LoginMeans(c, Run(c, EMPTY, steps), email, password, now);
  }

  datatype Op =
    | CreateUser(email: string, passwordHash: string, initial: UserStatus)
    | Authenticate(address: string, password: string)
    | CreateSession(owner: nat, token: string)
    | ResolveSession(token: string)
    | RevokeSession(token: string)
    | RevokeAllSessions(owner: nat)
    | SetPassword(user: nat, newHash: string)
    | SetStatus(user: nat, status: UserStatus)

  /** One committed operation. A duplicate email or token violates a unique key and changes nothing. */
  function Do(c: Crypto, s: State, op: Op, now: int): State {
    match op
    case CreateUser(email, hash, initial) =>
      if FindUser(s.users, c.normalizeEmail(email)).Some? then s
      else s.(users := s.users + [User(c.normalizeEmail(email), hash, initial, 0, None, None)])
    case Authenticate(email, password) => Login(c, s, email, password, now).1
    case CreateSession(u, token) =>
      if u >= |s.users| || FindSession(s.sessions, c.tokenHash(token)).Some? then s
      else s.(sessions := s.sessions + [Session(u, c.tokenHash(token), now, now + SESSION_TTL_MINUTES, now, None)])
    case ResolveSession(token) => Resolve(c, s, token, now).1
    case RevokeSession(token) => RevokeToken(c, s, token, now)
    case RevokeAllSessions(u) => s.(sessions := RevokeAll(s.sessions, u, now))
    case SetPassword(u, hash) =>
      if u >= |s.users| then s
      else s.(users := s.users[u := s.users[u].(passwordHash := hash, failedLoginCount := 0, lockedUntil := None)],
              sessions := RevokeAll(s.sessions, u, now))
    case SetStatus(u, status) =>
      if u >= |s.users| then s
      else s.(users := s.users[u := s.users[u].(status := status)],
              sessions := if status.Disabled? then RevokeAll(s.sessions, u, now) else s.sessions)
  }

  // ----- the service -----

  class Service {
    const c: Crypto
    var state: State

    ghost predicate Valid()
      reads this
    {
      Consistent(state)
    }

    constructor (crypto: Crypto)
      ensures c == crypto && state == EMPTY && Valid()
    {
      c, state := crypto, EMPTY;
    }

    /** `create_user`; a duplicate address violates a unique key. */
    method CreateUser(email: string, passwordHash: string, status: UserStatus, now: int) returns (user: nat)
      requires Valid() && FindUser(state.users, c.normalizeEmail(email)).None?
      modifies this
      ensures Valid() && Keeps(old(state), state)
      ensures state == Do(c, old(state), Op.CreateUser(email, passwordHash, status), now) && user == |old(state).users|
    {
      StepConsistent(c, state, Op.CreateUser(email, passwordHash, status), now);
      user := |state.users|;
      state := state.(users := state.users + [User(c.normalizeEmail(email), passwordHash, status, 0, None, None)]);
    }

    /** `authenticate` */
    method Authenticate(email: string, password: string, now: int) returns (outcome: LoginOutcome)
      requires Valid()
      modifies this
      ensures Valid() && Keeps(old(state), state)
      ensures Answers(c, old(state), email, password, now, outcome)
      ensures Leaves(c, old(state), state, email, password, now)
      ensures (outcome, state) == Login(c, old(state), email, password, now)
    {
      StepConsistent(c, state, Op.Authenticate(email, password), now);
      LoginMeans(c, state, email, password, now);
      var found := FindUser(state.users, c.normalizeEmail(email));
      if found.None? {
        return UnknownUser;
      }
      var u := found.value;
      var user := state.users[u];
      if user.lockedUntil.Some? && user.lockedUntil.value > now {
        return Locked;
      }
      if !c.verify(password, user.passwordHash) {
        user := user.(failedLoginCount := user.failedLoginCount + 1);
        if user.failedLoginCount >= MAX_FAILED_LOGINS {
          user := user.(lockedUntil := Some(now + LOCKOUT_MINUTES), failedLoginCount := 0);
        }
        state := state.(users := state.users[u := user]);
        return WrongPassword;
      }
      if user.status != Active {
        return AccountDisabled;
      }
      user := user.(failedLoginCount := 0, lockedUntil := None, lastLoginAt := Some(now));
      state := state.(users := state.users[u := user]);
      return LoggedIn(u);
    }

    /** `create_session`, with the token that was generated */
    method CreateSession(user: nat, token: string, now: int) returns (expiresAt: int)
      requires Valid() && user < |state.users| && FindSession(state.sessions, c.tokenHash(token)).None?
      modifies this
      ensures Valid() && Keeps(old(state), state)
      ensures state == Do(c, old(state), Op.CreateSession(user, token), now) && expiresAt == now + 480
    {
      StepConsistent(c, state, Op.CreateSession(user, token), now);
      expiresAt := now + SESSION_TTL_MINUTES;
      state := state.(sessions := state.sessions + [Session(user, c.tokenHash(token), now, expiresAt, now, None)]);
    }

    /** `resolve_session` */
    method ResolveSession(token: string, now: int) returns (user: Option<nat>)
      requires Valid()
      modifies this
      ensures Valid() && Keeps(old(state), state)
      ensures (user, state) == Resolve(c, old(state), token, now)
    {
      StepConsistent(c, state, Op.ResolveSession(token), now);
      var found := FindSession(state.sessions, c.tokenHash(token));
      if found.None? {
        return None;
      }
      var row := state.sessions[found.value];
      if row.revokedAt.Some? || row.expiresAt <= now {
        return None;
      }
      if row.userId >= |state.users| || state.users[row.userId].status != Active {
        return None;
      }
      state := state.(sessions := state.sessions[found.value := row.(lastSeenAt := now)]);
      return Some(row.userId);
    }

    /** `revoke_session` */
    method RevokeSession(token: string, now: int)
      requires Valid()
      modifies this
      ensures Valid() && Keeps(old(state), state)
      ensures state == Do(c, old(state), Op.RevokeSession(token), now)
    {
      StepConsistent(c, state, Op.RevokeSession(token), now);
      var found := FindSession(state.sessions, c.tokenHash(token));
      if found.Some? && state.sessions[found.value].revokedAt.None? {
        var row := state.sessions[found.value];
        state := state.(sessions := state.sessions[found.value := row.(revokedAt := Some(now))]);
      }
    }

    /** `revoke_all_sessions` */
    method RevokeAllSessions(user: nat, now: int) returns (count: nat)
      requires Valid()
      modifies this
      ensures Valid() && Keeps(old(state), state)
      ensures state == old(state).(sessions := RevokeAll(old(state).sessions, user, now))
      ensures count == OpenCount(old(state).sessions, user)
    {
      StepConsistent(c, state, Op.RevokeAllSessions(user), now);
      count := RevokeOpen(user, now);
    }

    /** The loop over the open sessions of a user. */
    method RevokeOpen(user: nat, now: int) returns (count: nat)
      modifies this
      ensures state == old(state).(sessions := RevokeAll(old(state).sessions, user, now))
      ensures count == OpenCount(old(state).sessions, user)
    {
      count := 0;
      var before := state.sessions;
      for i := 0 to |before|
        invariant state == old(state).(sessions := RevokeAll(before[..i], user, now) + before[i..])
        invariant count == OpenCount(before[..i], user)
      {
        RevokeNext(before, user, now, i);
        var row := before[i];
        if row.userId == user && row.revokedAt.None? {
          state := state.(sessions := state.sessions[i := row.(revokedAt := Some(now))]);
          count := count + 1;
        }
      }
      assert before[..|before|] == before;
    }

    /** `set_password` */
    method SetPassword(user: nat, newHash: string, now: int)
      requires Valid() && user < |state.users|
      modifies this
      ensures Valid() && Keeps(old(state), state)
      ensures state == Do(c, old(state), Op.SetPassword(user, newHash), now)
    {
      StepConsistent(c, state, Op.SetPassword(user, newHash), now);
      var row := state.users[user].(passwordHash := newHash, failedLoginCount := 0, lockedUntil := None);
      state := state.(users := state.users[user := row]);
      var _ := RevokeAllSessions(user, now);
    }

    /** `set_status` */
    method SetStatus(user: nat, status: UserStatus, now: int)
      requires Valid() && user < |state.users|
      modifies this
      ensures Valid() && Keeps(old(state), state)
      ensures state == Do(c, old(state), Op.SetStatus(user, status), now)
    {
      StepConsistent(c, state, Op.SetStatus(user, status), now);
      state := state.(users := state.users[user := state.users[user].(status := status)]);
      if status == Disabled {
        var _ := RevokeAllSessions(user, now);
      }
    }
  }

  // ----- runs -----

  datatype Step = Step(op: Op, now: int)

  function Run(c: Crypto, s: State, steps: seq<Step>): State {
    if steps == [] then s
    else Do(c, Run(c, s, steps[..|steps| - 1]), steps[|steps| - 1].op, steps[|steps| - 1].now)
  }

  lemma {:induction false} RunAppend(c: Crypto, s: State, a: seq<Step>, b: seq<Step>)
    ensures Run(c, s, a + b) == Run(c, Run(c, s, a), b)
  {
    if b == [] {
      assert a + b == a;
    } else {
      assert (a + b)[..|a + b| - 1] == a + b[..|b| - 1];
      RunAppend(c, s, a, b[..|b| - 1]);
    }
  }

  lemma {:induction false} RevokeAllAt(sessions: seq<Session>, user: nat, now: int, i: nat)
    requires i < |sessions|
    ensures RevokeAll(sessions, user, now)[i]
      == if sessions[i].userId == user then RevokedRow(sessions[i], now) else sessions[i]
  {
    if i < |sessions| - 1 {
      RevokeAllAt(sessions[..|sessions| - 1], user, now, i);
    }
  }

  // ----- sessions over runs -----

  /** What no operation may do to a stored session: hand it over, extend it, or reopen it. */
  predicate SameGrant(before: Session, after: Session) {
    && after.userId == before.userId && after.tokenHash == before.tokenHash
    && after.createdAt == before.createdAt && after.expiresAt == before.expiresAt
    && (before.revokedAt.Some? ==> after.revokedAt == before.revokedAt)
  }

  lemma StepKeepsSession(c: Crypto, s: State, op: Op, now: int, i: nat)
    requires i < |s.sessions|
    ensures var s' := Do(c, s, op, now);
      |s'.users| >= |s.users| && |s'.sessions| >= |s.sessions| && SameGrant(s.sessions[i], s'.sessions[i])
  {
    match op
    case RevokeAllSessions(u) => RevokeAllAt(s.sessions, u, now, i);
    case SetPassword(u, _) => RevokeAllAt(s.sessions, u, now, i);
    case SetStatus(u, _) => RevokeAllAt(s.sessions, u, now, i);
    case _ =>
  }

  lemma {:induction false} RunKeepsSession(c: Crypto, s: State, steps: seq<Step>, i: nat)
    requires i < |s.sessions|
    ensures var s' := Run(c, s, steps); |s'.sessions| >= |s.sessions| && SameGrant(s.sessions[i], s'.sessions[i])
  {
    if steps != [] {
      var front, last := steps[..|steps| - 1], steps[|steps| - 1];
      RunKeepsSession(c, s, front, i);
      StepKeepsSession(c, Run(c, s, front), last.op, last.now, i);
    }
  }

  /** The unique keys, the foreign key, the lifetime of sessions and the range of the counters. */
  ghost predicate Consistent(s: State) {
    && (forall i, j :: 0 <= i < j < |s.sessions| ==> s.sessions[i].tokenHash != s.sessions[j].tokenHash)
    && (forall i :: 0 <= i < |s.sessions| ==> SessionOk(s, s.sessions[i]))
    && (forall u :: 0 <= u < |s.users| ==> s.users[u].failedLoginCount < MAX_FAILED_LOGINS)
    && UniqueAddresses(s.users)
  }

  predicate SessionOk(s: State, row: Session) {
    row.userId < |s.users| && row.expiresAt == row.createdAt + SESSION_TTL_MINUTES
  }

  lemma {:induction false} FindSessionNone(sessions: seq<Session>, hash: string, i: nat)
    requires FindSession(sessions, hash).None? && i < |sessions|
    ensures sessions[i].tokenHash != hash
  {
    if i < |sessions| - 1 {
      FindSessionNone(sessions[..|sessions| - 1], hash, i);
    }
  }

  lemma StepUsers(c: Crypto, s: State, op: Op, now: int, u: nat)
    requires Consistent(s) && u < |Do(c, s, op, now).users|
    ensures Do(c, s, op, now).users[u].failedLoginCount < MAX_FAILED_LOGINS
  {
  }

  lemma StepAddresses(c: Crypto, s: State, op: Op, now: int, i: nat, j: nat)
    requires UniqueAddresses(s.users) && i < j < |Do(c, s, op, now).users|
    ensures var users := Do(c, s, op, now).users; users[i].email != users[j].email
  {
    SameAddresses(c, s, op, now);
    if j == |s.users| {
      FindUserNone(s.users, c.normalizeEmail(op.email), i);
    }
  }

  lemma SameAddresses(c: Crypto, s: State, op: Op, now: int)
    ensures var users := Do(c, s, op, now).users;
      && |users| >= |s.users| && (forall u :: 0 <= u < |s.users| ==> users[u].email == s.users[u].email)
      && (|users| > |s.users| ==>
            && op.CreateUser? && |users| == |s.users| + 1 && users[|s.users|].email == c.normalizeEmail(op.email)
            && FindUser(s.users, c.normalizeEmail(op.email)).None?)
  {
  }

  lemma StepNewSession(c: Crypto, s: State, op: Op, now: int)
    requires |Do(c, s, op, now).sessions| > |s.sessions|
    ensures var s' := Do(c, s, op, now); var row := s'.sessions[|s.sessions|];
      && |s'.sessions| == |s.sessions| + 1
      && s'.users == s.users && SessionOk(s', row) && FindSession(s.sessions, row.tokenHash).None?
  {
  }

  lemma StepSessionOk(c: Crypto, s: State, op: Op, now: int, i: nat)
    requires Consistent(s) && i < |Do(c, s, op, now).sessions|
    ensures SessionOk(Do(c, s, op, now), Do(c, s, op, now).sessions[i])
  {
    if i < |s.sessions| {
      StepKeepsSession(c, s, op, now, i);
      assert SessionOk(s, s.sessions[i]);
    } else {
      StepNewSession(c, s, op, now);
    }
  }

  lemma StepDistinct(c: Crypto, s: State, op: Op, now: int, i: nat, j: nat)
    requires Consistent(s) && i < j < |Do(c, s, op, now).sessions|
    ensures var s' := Do(c, s, op, now); s'.sessions[i].tokenHash != s'.sessions[j].tokenHash
  {
    var s' := Do(c, s, op, now);
    if j < |s.sessions| {
      StepKeepsSession(c, s, op, now, i);
      StepKeepsSession(c, s, op, now, j);
    } else {
      StepNewSession(c, s, op, now);
      StepKeepsSession(c, s, op, now, i);
      FindSessionNone(s.sessions, s'.sessions[j].tokenHash, i);
    }
  }

  /** No operation reopens, extends or hands over a stored session. */
  ghost predicate Keeps(s: State, s': State) {
    && |s'.users| >= |s.users| && |s'.sessions| >= |s.sessions|
    && forall i :: 0 <= i < |s.sessions| ==> SameGrant(s.sessions[i], s'.sessions[i])
  }

  lemma StepConsistent(c: Crypto, s: State, op: Op, now: int)
    requires Consistent(s)
    ensures Consistent(Do(c, s, op, now)) && Keeps(s, Do(c, s, op, now))
  {
    var s' := Do(c, s, op, now);
    forall i, j | 0 <= i < j < |s'.sessions| ensures s'.sessions[i].tokenHash != s'.sessions[j].tokenHash {
      StepDistinct(c, s, op, now, i, j);
    }
    forall i | 0 <= i < |s'.sessions| ensures SessionOk(s', s'.sessions[i]) {
      StepSessionOk(c, s, op, now, i);
    }
    forall u | 0 <= u < |s'.users| ensures s'.users[u].failedLoginCount < MAX_FAILED_LOGINS {
      StepUsers(c, s, op, now, u);
    }
    forall i, j | 0 <= i < j < |s'.users| ensures s'.users[i].email != s'.users[j].email {
      StepAddresses(c, s, op, now, i, j);
    }
    forall i | 0 <= i < |s.sessions| ensures SameGrant(s.sessions[i], s'.sessions[i]) {
      StepKeepsSession(c, s, op, now, i);
    }
    StepGrows(c, s, op, now);
  }

  lemma StepGrows(c: Crypto, s: State, op: Op, now: int)
    ensures |Do(c, s, op, now).users| >= |s.users| && |Do(c, s, op, now).sessions| >= |s.sessions|
  {
  }

  /** Every reachable state is consistent. */
  lemma {:induction false} RunConsistent(c: Crypto, s: State, steps: seq<Step>)
    requires Consistent(s)
    ensures Consistent(Run(c, s, steps))
  {
    if steps != [] {
      RunConsistent(c, s, steps[..|steps| - 1]);
      StepConsistent(c, Run(c, s, steps[..|steps| - 1]), steps[|steps| - 1].op, steps[|steps| - 1].now);
    }
  }

  lemma {:induction false} FindSessionIs(sessions: seq<Session>, i: nat)
    requires i < |sessions| && forall k :: 0 <= k < |sessions| && k != i ==> sessions[k].tokenHash != sessions[i].tokenHash
    ensures FindSession(sessions, sessions[i].tokenHash) == Some(i)
  {
    if i < |sessions| - 1 {
      FindSessionIs(sessions[..|sessions| - 1], i);
    }
  }

  /** In every reachable state a token resolves exactly when its one session is unrevoked, was
      created less than eight hours ago, and belongs to an active user. */
  lemma ResolvesWhen(c: Crypto, steps: seq<Step>, token: string, now: int, user: nat)
    ensures var s := Run(c, EMPTY, steps);
      Resolve(c, s, token, now).0 == Some(user) <==>
        exists i :: 0 <= i < |s.sessions| && s.sessions[i].tokenHash == c.tokenHash(token) && Open(s, s.sessions[i], user, now)
  {
    var s := Run(c, EMPTY, steps);
    RunConsistent(c, EMPTY, steps);
    forall i | 0 <= i < |s.sessions| && s.sessions[i].tokenHash == c.tokenHash(token)
      ensures FindSession(s.sessions, c.tokenHash(token)) == Some(i) && SessionOk(s, s.sessions[i])
    {
      FindSessionIs(s.sessions, i);
    }
  }

  predicate Open(s: State, row: Session, user: nat, now: int) {
    && row.userId == user && row.revokedAt.None? && now < row.createdAt + 8 * 60
    && user < |s.users| && s.users[user].status == Active
  }

  /** The operations that end session `i`: logout, a new password, or disabling its owner. */
  predicate Ends(c: Crypto, s: State, op: Op, i: nat)
    requires i < |s.sessions|
  {
    match op
    case RevokeSession(token) => c.tokenHash(token) == s.sessions[i].tokenHash
    case RevokeAllSessions(u) => u == s.sessions[i].userId
    case SetPassword(u, _) => u == s.sessions[i].userId
    case SetStatus(u, status) => u == s.sessions[i].userId && status.Disabled?
    case _ => false
  }

  lemma EndRevokes(c: Crypto, s: State, op: Op, now: int, i: nat)
    requires Consistent(s) && i < |s.sessions| && Ends(c, s, op, i)
    ensures |Do(c, s, op, now).sessions| == |s.sessions| && Do(c, s, op, now).sessions[i].revokedAt.Some?
  {
    assert SessionOk(s, s.sessions[i]);
    match op
    case RevokeSession(token) => FindSessionIs(s.sessions, i);
    case RevokeAllSessions(u) => RevokeAllAt(s.sessions, u, now, i);
    case SetPassword(u, _) => RevokeAllAt(s.sessions, u, now, i);
    case SetStatus(u, _) => RevokeAllAt(s.sessions, u, now, i);
  }

  /** A session ended by any of them never resolves again, whatever happens later: not after its
      user is enabled again, and not at any time. */
  lemma EndedForGood(c: Crypto, before: seq<Step>, end: Step, after: seq<Step>, i: nat, token: string, now: int)
    requires i < |Run(c, EMPTY, before).sessions| && Ends(c, Run(c, EMPTY, before), end.op, i)
    requires c.tokenHash(token) == Run(c, EMPTY, before).sessions[i].tokenHash
    ensures Resolve(c, Run(c, EMPTY, before + [end] + after), token, now).0 == None
  {
    var s := Run(c, EMPTY, before);
    RunConsistent(c, EMPTY, before);
    EndRevokes(c, s, end.op, end.now, i);
    var s1 := Do(c, s, end.op, end.now);
    assert (before + [end])[..|before|] == before && (before + [end])[|before|] == end;
    assert Run(c, EMPTY, before + [end]) == s1;
    StepKeepsSession(c, s, end.op, end.now, i);
    RunKeepsSession(c, s1, after, i);
    RunAppend(c, EMPTY, before + [end], after);
    RunConsistent(c, EMPTY, before + [end] + after);
    FindSessionIs(Run(c, s1, after).sessions, i);
  }

  // ----- lockout over runs -----

  predicate Timed(steps: seq<Step>) {
    |steps| <= 1 || (Timed(steps[..|steps| - 1]) && steps[|steps| - 2].now <= steps[|steps| - 1].now)
  }

  /** The step checks a password of user `u` and finds it wrong. */
  predicate FailsFor(c: Crypto, s: State, step: Step, u: nat) {
    step.op.Authenticate? && Misses(c, s, u, step.op.address, step.op.password, step.now)
  }

  /** A successful login of `u` or a new password for `u`. */
  predicate ResetsFor(c: Crypto, s: State, step: Step, u: nat) {
    || (step.op.Authenticate? && Succeeds(c, s, u, step.op.address, step.op.password, step.now))
    || (step.op.SetPassword? && step.op.user == u)
  }

  predicate NoReset(c: Crypto, s: State, steps: seq<Step>, u: nat) {
    steps == [] || (
      var front, last := steps[..|steps| - 1], steps[|steps| - 1];
      NoReset(c, s, front, u) && !ResetsFor(c, Run(c, s, front), last, u))
  }

  /** The times at which a run's wrong passwords for `u` were checked. */
  function FailureTimes(c: Crypto, s: State, steps: seq<Step>, u: nat): seq<int> {
    if steps == [] then []
    else
      var front, last := steps[..|steps| - 1], steps[|steps| - 1];
      FailureTimes(c, s, front, u) + if FailsFor(c, Run(c, s, front), last, u) then [last.now] else []
  }

  function Instant(t: int): FailureLimiter.Failure { FailureLimiter.Failure(t, t) }

  function Instants(times: seq<int>): (fs: seq<FailureLimiter.Failure>)
    ensures |fs| == |times|
  {
    if times == [] then [] else Instants(times[..|times| - 1]) + [Instant(times[|times| - 1])]
  }

  lemma {:induction false} InstantsAt(times: seq<int>, i: nat)
    requires i < |times|
    ensures Instants(times)[i] == Instant(times[i])
  {
    if i < |times| - 1 {
      InstantsAt(times[..|times| - 1], i);
    }
  }

  lemma InstantsNext(times: seq<int>, t: int)
    ensures Instants(times + [t]) == Instants(times) + [Instant(t)]
    ensures Instants(times + [t])[..|times|] == Instants(times)
  {
    assert (times + [t])[..|times|] == times;
  }

  function LimiterOf(user: User): FailureLimiter.Limiter {
    FailureLimiter.Limiter(user.failedLoginCount, user.lockedUntil)
  }

  lemma StepLimiter(c: Crypto, s: State, step: Step, u: nat)
    requires Consistent(s) && u < |s.users| && !ResetsFor(c, s, step, u)
    ensures u < |Do(c, s, step.op, step.now).users|
    ensures LimiterOf(Do(c, s, step.op, step.now).users[u])
      == if FailsFor(c, s, step, u) then FailureLimiter.Fail(LimiterOf(s.users[u]), step.now, MAX_FAILED_LOGINS, LOCKOUT_MINUTES)
         else LimiterOf(s.users[u])
    ensures FailsFor(c, s, step, u) ==> FailureLimiter.Admits(LimiterOf(s.users[u]), step.now)
  {
    if step.op.Authenticate? {
      LoginMeans(c, s, step.op.address, step.op.password, step.now);
      assert LeavesUser(c, s, Do(c, s, step.op, step.now), step.op.address, step.op.password, step.now, u);
    } else {
      OtherStep(c, s, step, u);
    }
  }

  lemma OtherStep(c: Crypto, s: State, step: Step, u: nat)
    requires u < |s.users| && !step.op.Authenticate? && !(step.op.SetPassword? && step.op.user == u)
    ensures u < |Do(c, s, step.op, step.now).users|
    ensures LimiterOf(Do(c, s, step.op, step.now).users[u]) == LimiterOf(s.users[u])
  {
  }

  /** A run without resets drives the counter of one user exactly like the plain limiter. */
  lemma {:induction false} RunIsLimiter(c: Crypto, s: State, steps: seq<Step>, u: nat)
    requires Consistent(s) && u < |s.users| && Timed(steps) && NoReset(c, s, steps, u)
    ensures var fs := Instants(FailureTimes(c, s, steps, u)); var l := LimiterOf(s.users[u]);
      && u < |Run(c, s, steps).users|
      && LimiterOf(Run(c, s, steps).users[u]) == FailureLimiter.After(l, fs, MAX_FAILED_LOGINS, LOCKOUT_MINUTES)
      && FailureLimiter.Admitted(l, fs, MAX_FAILED_LOGINS, LOCKOUT_MINUTES)
      && (fs != [] ==> steps != [] && fs[|fs| - 1].failed <= steps[|steps| - 1].now)
  {
    if steps != [] {
      var front, last := steps[..|steps| - 1], steps[|steps| - 1];
      RunIsLimiter(c, s, front, u);
      RunConsistent(c, s, front);
      StepLimiter(c, Run(c, s, front), last, u);
      var times := FailureTimes(c, s, front, u);
      if FailsFor(c, Run(c, s, front), last, u) {
        InstantsNext(times, last.now);
      } else {
        assert FailureTimes(c, s, steps, u) == times;
      }
    }
  }

  /** Failures at these times, after `count` earlier ones, took a lockout per five. */
  predicate Spread(times: seq<int>, count: nat)
    requires times != []
  {
    times[|times| - 1] - times[0] >= 15 * ((count + |times| - 1) / 5)
  }

  lemma InstantsLaw(l: FailureLimiter.Limiter, times: seq<int>)
    requires times != [] && l.count < 5 && FailureLimiter.Admitted(l, Instants(times), 5, 15)
    ensures Spread(times, l.count)
  {
    InstantsAt(times, 0);
    InstantsAt(times, |times| - 1);
    EndsLaw(l, Instants(times), times[0], times[|times| - 1]);
  }

  lemma EndsLaw(l: FailureLimiter.Limiter, fs: seq<FailureLimiter.Failure>, first: int, last: int)
    requires fs != [] && l.count < 5 && FailureLimiter.Admitted(l, fs, 5, 15)
    requires fs[0] == Instant(first) && fs[|fs| - 1] == Instant(last)
    ensures last - first >= 15 * ((l.count + |fs| - 1) / 5)
  {
    FailureLimiter.SpanLaw(l, fs, 5, 15);
  }

  /** The counter stays in 0..4 in every reachable state. */
  lemma CounterInRange(c: Crypto, steps: seq<Step>, u: nat)
    requires u < |Run(c, EMPTY, steps).users|
    ensures Run(c, EMPTY, steps).users[u].failedLoginCount < 5
  {
    RunConsistent(c, EMPTY, steps);
  }

  lemma ChecksSpan(c: Crypto, s: State, steps: seq<Step>, u: nat)
    requires Consistent(s) && u < |s.users| && s.users[u].failedLoginCount < 5 && Timed(steps) && NoReset(c, s, steps, u)
    requires FailureTimes(c, s, steps, u) != []
    ensures Spread(FailureTimes(c, s, steps, u), s.users[u].failedLoginCount)
  {
    RunIsLimiter(c, s, steps, u);
    InstantsLaw(LimiterOf(s.users[u]), FailureTimes(c, s, steps, u));
  }

  /** From any reachable state with time moving forward: N failed password checks of a user, with no
      success or password reset between them, span at least 15 minutes per five checks already
      counted. */
  lemma FailedChecksTakeTime(c: Crypto, before: seq<Step>, s: State, steps: seq<Step>, u: nat)
    requires s == Run(c, EMPTY, before) && u < |s.users| && Timed(steps) && NoReset(c, s, steps, u)
    requires FailureTimes(c, s, steps, u) != []
    ensures Spread(FailureTimes(c, s, steps, u), s.users[u].failedLoginCount)
  {
    CounterInRange(c, before, u);
    RunConsistent(c, EMPTY, before);
    ChecksSpan(c, s, steps, u);
  }
}
