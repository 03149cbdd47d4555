/**
 Browser sessions: refresh-token rotation, switching to another user and back,
 logout, and the bindings that other parts of the system keep of a session.

 A refresh token's secret is the position of its row.  `parent`, the row a row
 replaced, and `issued`, the access tokens handed out, record history the
 tables do not hold.  A `Binding` stands for the SHA-256 digest of its text.
 Each function is one committed transaction; an event reads the clock when it
 starts and again when it writes a row.
 */
module Sessions {
  import opened Options

  type Time = int
  type UserId = nat

  /** Positive settings read from the environment. */
  type Span = x: int | 0 < x witness 1
  const REFRESH_LIFETIME: Span
  const SESSION_TIMEOUT: Span

  datatype Role = SuperadminRole | AdminRole | ViewerRole | OtherRole

  datatype User = User(
    active: bool, tokenVersion: nat, mustChangePassword: bool, superadmin: bool, role: Role, organization: Option<nat>)

  datatype Row = Row(
    user: UserId, expiresAt: Time, sessionExpiresAt: Option<Time>, sid: Option<nat>, impersonated: Option<UserId>,
    revokedAt: Option<Time>, createdAt: Time, parent: Option<nat>)
  {
    predicate Live() { revokedAt.None? }
  }

  datatype Actor = Actor(id: UserId, tokenVersion: nat)

  datatype Access = Access(user: UserId, tokenVersion: nat, sid: nat, sessionExpiresAt: Time, actor: Option<Actor>)

  datatype Issue = Issue(access: Access, row: nat)

  datatype State = State(users: map<UserId, User>, rows: seq<Row>, issued: seq<Issue>, nextSid: nat, clock: Time)

  datatype Outcome = Granted(token: nat, access: Access) | Done | Unauthorized | Forbidden | Busy | NotFound

  function Min(a: Time, b: Time): Time { if a < b then a else b }

  /** `_refresh_session_expires_at`: the stored expiry, capped by the policy counted from the row's creation. */
  function Effective(row: Row): Time {
    var policy := row.createdAt + SESSION_TIMEOUT;
    if row.sessionExpiresAt.Some? then Min(row.sessionExpiresAt.value, policy) else policy
  }

  /** `_assert_impersonation_allowed`. */
  predicate MayActAs(actorId: UserId, actor: User, targetId: UserId, target: User) {
    && actor.active && target.active && !actor.mustChangePassword && !target.mustChangePassword && actorId != targetId
    && (actor.superadmin
        || (&& actor.role.AdminRole? && !target.role.SuperadminRole? && !target.role.ViewerRole?
            && actor.organization.Some? && target.organization == actor.organization))
  }

  // ---------------------------------------------------------------- tokens

  /** `_create_refresh_token` for a row that replaces `parent`. */
  function NewRow(
    user: UserId, absolute: Option<Time>, impersonated: Option<UserId>, sid: nat, parent: Option<nat>,
    now: Time, written: Time): Row
  {
    var expiry := if absolute.Some? then absolute.value else now + SESSION_TIMEOUT;
    Row(user, Min(now + REFRESH_LIFETIME, expiry), Some(expiry), Some(sid), impersonated, None, written, parent)
  }

  /** The claims of an access token for a fresh row. */
  function Claims(users: map<UserId, User>, row: Row): Access
    requires row.sid.Some? && row.sessionExpiresAt.Some? && row.user in users
    requires row.impersonated.Some? ==> row.impersonated.value in users
  {
    var effective := if row.impersonated.Some? then row.impersonated.value else row.user;
    var actor := if effective != row.user then Some(Actor(row.user, users[row.user].tokenVersion)) else None;
    Access(effective, users[effective].tokenVersion, row.sid.value, row.sessionExpiresAt.value, actor)
  }

  function Revoke(rows: seq<Row>, i: nat, now: Time): seq<Row>
    requires i < |rows|
  {
    rows[i := rows[i].(revokedAt := Some(now))]
  }

  /** Revoke the rows of a set that are still live. */
  function RevokeAmong(rows: seq<Row>, which: set<nat>, now: Time): (r: seq<Row>)
    ensures |r| == |rows|
  {
    seq(|rows|, i requires 0 <= i < |rows| =>
      if i in which && rows[i].Live() then rows[i].(revokedAt := Some(now)) else rows[i])
  }

  function RowsOf(rows: seq<Row>, user: UserId): set<nat> {
    set i: nat | i < |rows| && rows[i].user == user
  }

  /** `_revoke_all_user_refresh_tokens`. */
  function RevokeUser(rows: seq<Row>, user: UserId, now: Time): seq<Row> {
    RevokeAmong(rows, RowsOf(rows, user), now)
  }

  /** Store a new row and hand out its tokens. */
  function Grant(s: State, rows: seq<Row>, row: Row, written: Time): (State, Outcome)
    requires row.sid.Some? && row.sessionExpiresAt.Some? && row.user in s.users
    requires row.impersonated.Some? ==> row.impersonated.value in s.users
  {
    var access := Claims(s.users, row);
    (s.(rows := rows + [row], issued := s.issued + [Issue(access, |rows|)], clock := written,
        nextSid := if row.sid.value == s.nextSid then s.nextSid + 1 else s.nextSid),
     Granted(|rows|, access))
  }

  // ---------------------------------------------------------------- transactions

  /** A login whose password was accepted. */
  function Login(s: State, user: UserId, now: Time, written: Time): (State, Outcome) {
    if user !in s.users || !s.users[user].active then (s, Unauthorized)
    else Grant(s, s.rows, NewRow(user, None, None, s.nextSid, None, now, written), written)
  }

  /** `refresh_access_token`. */
  function Refresh(s: State, token: nat, now: Time, written: Time): (State, Outcome) {
    if token >= |s.rows| then (s, Unauthorized)
    else
      var row := s.rows[token];
      if !row.Live() then (s.(rows := RevokeUser(s.rows, row.user, now), clock := now), Unauthorized)
      else if row.expiresAt < now || Effective(row) < now then (s, Unauthorized)
      else if row.user !in s.users then (s, Unauthorized)
      else if !s.users[row.user].active then
        (s.(rows := RevokeUser(s.rows, row.user, now), clock := now), Unauthorized)
      else if row.impersonated.Some? && row.impersonated.value !in s.users then
        (s.(rows := Revoke(s.rows, token, now), clock := now), Unauthorized)
      else if row.impersonated.Some?
              && !MayActAs(row.user, s.users[row.user], row.impersonated.value, s.users[row.impersonated.value])
      then (s, Forbidden)
      else
        var sid := if row.sid.Some? then row.sid.value else s.nextSid;
        Grant(s, Revoke(s.rows, token, now),
              NewRow(row.user, Some(Effective(row)), row.impersonated, sid, Some(token), now, written), written)
  }

  predicate Expired(row: Row, now: Time) { row.expiresAt <= now || Effective(row) <= now }

  /** The live row of a session id. */
  function LiveRow(rows: seq<Row>, sid: nat): (i: Option<nat>)
    ensures i.Some? ==> i.value < |rows| && rows[i.value].Live() && rows[i.value].sid == Some(sid)
    ensures i.None? ==> forall k :: 0 <= k < |rows| ==> !(rows[k].Live() && rows[k].sid == Some(sid))
  {
    if rows == [] then None
    else
      var last := |rows| - 1;
      var i := LiveRow(rows[..last], sid);
      assert forall k :: 0 <= k < last ==> rows[k] == rows[..last][k];
      if i.Some? then i
      else if rows[last].Live() && rows[last].sid == Some(sid) then Some(last) else None
  }

  /** The row and the users behind an access token agree with it. */
  predicate Agrees(s: State, a: Access, row: Row) {
    var actor := if a.actor.Some? then a.actor.value.id else a.user;
    && row.user == actor && row.impersonated == (if a.actor.Some? then Some(a.user) else None)
    && actor in s.users && a.user in s.users && s.users[actor].active && s.users[a.user].active
    && a.tokenVersion == s.users[a.user].tokenVersion
    && (a.actor.Some? ==>
          && actor != a.user && a.actor.value.tokenVersion == s.users[actor].tokenVersion
          && MayActAs(actor, s.users[actor], a.user, s.users[a.user]))
  }

  /** `_require_active_refresh_row` and `_resolve_user_from_payload`. */
  function Resolve(s: State, a: Access, now: Time): (i: Option<nat>)
    ensures i.Some? ==> i.value < |s.rows| && s.rows[i.value].Live()
  {
    var i := LiveRow(s.rows, a.sid);
    if i.None? || Expired(s.rows[i.value], now) || a.sessionExpiresAt != Effective(s.rows[i.value])
       || !Agrees(s, a, s.rows[i.value])
    then None else i
  }

  /** `start_impersonation`, with the access token and the refresh cookie of the request. */
  function Start(s: State, a: Access, cookie: nat, target: UserId, now: Time, written: Time): (State, Outcome) {
    var i := Resolve(s, a, now);
    if i.None? then (s, Unauthorized)
    else if a.actor.Some? then (s, Busy)
    else if target !in s.users then (s, NotFound)
    else if !MayActAs(a.user, s.users[a.user], target, s.users[target]) then (s, Forbidden)
    else if cookie != i.value then (s, Busy)
    else
      var row := s.rows[i.value];
      Grant(s, Revoke(s.rows, i.value, now),
            NewRow(row.user, Some(Effective(row)), Some(target), s.nextSid, Some(i.value), now, written), written)
  }

  /** `stop_impersonation`. */
  function Stop(s: State, a: Access, cookie: nat, now: Time, written: Time): (State, Outcome) {
    var i := Resolve(s, a, now);
    if i.None? then (s, Unauthorized)
    else if a.actor.None? then (s, Busy)
    else if cookie != i.value then (s, Busy)
    else
      var row := s.rows[i.value];
      Grant(s, Revoke(s.rows, i.value, now),
            NewRow(row.user, Some(Effective(row)), None, s.nextSid, Some(i.value), now, written), written)
  }

  function Logout(s: State, token: nat, now: Time): (State, Outcome) {
    if token < |s.rows| && s.rows[token].Live() then (s.(rows := Revoke(s.rows, token, now), clock := now), Done)
    else (s, Done)
  }

  /** `AccountChanges` and `Revocations` are the effects of the endpoints that manage users and sessions. */
  datatype Event =
    | LoggedIn(user: UserId)
    | Refreshed(token: nat)
    | Started(access: Access, cookie: nat, target: UserId)
    | Stopped(access: Access, cookie: nat)
    | LoggedOut(token: nat)
    | Revocations(which: set<nat>)
    | AccountChanges(users: map<UserId, User>)

  datatype Timed = Timed(event: Event, now: Time, written: Time)

  function Step(s: State, t: Timed): (State, Outcome) {
    match t.event
    case LoggedIn(user) => Login(s, user, t.now, t.written)
    case Refreshed(token) => Refresh(s, token, t.now, t.written)
    case Started(access, cookie, target) => Start(s, access, cookie, target, t.now, t.written)
    case Stopped(access, cookie) => Stop(s, access, cookie, t.now, t.written)
    case LoggedOut(token) => Logout(s, token, t.now)
    case Revocations(which) => (s.(rows := RevokeAmong(s.rows, which, t.now), clock := t.now), Done)
    case AccountChanges(users) => (s.(users := users), Done)
  }

  function Run(s: State, ts: seq<Timed>): State
    decreases |ts|
  {
    if ts == [] then s else Run(Step(s, ts[0]).0, ts[1..])
  }

  /** The clock does not go back, within an event or from one event to the next. */
  predicate InTime(clock: Time, ts: seq<Timed>)
    decreases |ts|
  {
    ts == [] || (clock <= ts[0].now <= ts[0].written && InTime(ts[0].written, ts[1..]))
  }

  const EMPTY := State(map[], [], [], 0, 0)

  // ---------------------------------------------------------------- what every step keeps

  /** A row replaced a revoked one of the same user and kept its effective expiry. */
  predicate RowsOk(rows: seq<Row>, clock: Time) {
    forall i :: 0 <= i < |rows| ==>
      && rows[i].createdAt <= clock
      && (rows[i].parent.Some? ==>
            var p := rows[i].parent.value;
            p < i && rows[p].user == rows[i].user && !rows[p].Live() && Effective(rows[p]) == Effective(rows[i]))
  }

  /** A row is replaced at most once. */
  predicate OneChild(rows: seq<Row>) {
    forall i, j :: 0 <= i < j < |rows| && rows[i].parent.Some? ==> rows[i].parent != rows[j].parent
  }

  /** The rows of one session id share user context and effective expiry, and at most one of them is live. */
  predicate SidsOk(rows: seq<Row>, nextSid: nat) {
    && (forall i :: 0 <= i < |rows| && rows[i].sid.Some? ==> rows[i].sid.value < nextSid)
    && (forall i, j :: 0 <= i < j < |rows| && rows[i].sid.Some? && rows[i].sid == rows[j].sid ==>
          && rows[i].user == rows[j].user && rows[i].impersonated == rows[j].impersonated
          && Effective(rows[i]) == Effective(rows[j]) && !(rows[i].Live() && rows[j].Live()))
  }

  /** An access token carries its row's session id, context and effective expiry. */
  predicate Matches(a: Access, row: Row) {
    && row.sid == Some(a.sid) && a.sessionExpiresAt == Effective(row)
    && row.user == (if a.actor.Some? then a.actor.value.id else a.user)
    && row.impersonated == (if a.actor.Some? then Some(a.user) else None)
    && (a.actor.Some? ==> a.actor.value.id != a.user)
  }

  predicate IssuedOk(rows: seq<Row>, issued: seq<Issue>) {
    forall k :: 0 <= k < |issued| ==> issued[k].row < |rows| && Matches(issued[k].access, rows[issued[k].row])
  }

  predicate Inv(s: State) {
    RowsOk(s.rows, s.clock) && OneChild(s.rows) && SidsOk(s.rows, s.nextSid) && IssuedOk(s.rows, s.issued)
  }

  /** Nothing but revocations happened. */
  predicate OnlyRevoked(rows: seq<Row>, rows': seq<Row>) {
    && |rows'| == |rows|
    && forall i :: 0 <= i < |rows| ==>
         rows'[i].(revokedAt := rows[i].revokedAt) == rows[i] && (rows'[i].Live() ==> rows[i].Live())
  }

  lemma RevocationsKeep(s: State, s': State)
    requires Inv(s) && OnlyRevoked(s.rows, s'.rows)
    requires s'.issued == s.issued && s'.nextSid >= s.nextSid && s'.clock >= s.clock
    ensures Inv(s')
  {
    assert forall i :: 0 <= i < |s.rows| ==> Effective(s'.rows[i]) == Effective(s.rows[i]);
    assert RowsOk(s'.rows, s'.clock);
    assert OneChild(s'.rows);
    assert SidsOk(s'.rows, s'.nextSid);
    assert IssuedOk(s'.rows, s'.issued);
  }

  /** A row created no earlier than the one whose effective expiry it takes over has the same effective expiry. */
  lemma ExpiryCarriesOver(before: Row, row: Row)
    requires row.sessionExpiresAt == Some(Effective(before)) && row.createdAt >= before.createdAt
    ensures Effective(row) == Effective(before)
  {
  }

  /** What a row must be like for its tokens to be granted. */
  predicate Fits(s: State, row: Row, written: Time) {
    && row.Live() && row.sid.Some? && row.sessionExpiresAt == Some(Effective(row))
    && row.createdAt == written >= s.clock
    && row.user in s.users
    && (row.impersonated.Some? ==> row.impersonated.value in s.users && row.impersonated.value != row.user)
    && row.sid.value <= s.nextSid
    && (forall i :: 0 <= i < |s.rows| && s.rows[i].sid == row.sid ==>
          && s.rows[i].user == row.user && s.rows[i].impersonated == row.impersonated
          && Effective(s.rows[i]) == Effective(row) && !s.rows[i].Live())
    && (row.parent.Some? ==>
          && row.parent.value < |s.rows|
          && var p := s.rows[row.parent.value];
             p.user == row.user && !p.Live() && Effective(p) == Effective(row))
    && (forall i :: 0 <= i < |s.rows| && row.parent.Some? ==> s.rows[i].parent != row.parent)
  }

  lemma GrantKeeps(s: State, row: Row, written: Time)
    requires Inv(s) && Fits(s, row, written)
    ensures Inv(Grant(s, s.rows, row, written).0)
  {
    var s' := Grant(s, s.rows, row, written).0;
    assert RowsOk(s'.rows, s'.clock);
    assert OneChild(s'.rows);
    assert SidsOk(s'.rows, s'.nextSid);
    assert IssuedOk(s'.rows, s'.issued) by {
      hide Effective;
    }
  }

  lemma ReplacementFits(s: State, i: nat, impersonated: Option<UserId>, sid: nat, now: Time, written: Time)
    requires Inv(s) && i < |s.rows| && s.rows[i].Live() && s.clock <= now <= written && s.rows[i].user in s.users
    requires impersonated.Some? ==> impersonated.value in s.users && impersonated.value != s.rows[i].user
    requires sid == s.nextSid || (s.rows[i].sid == Some(sid) && s.rows[i].impersonated == impersonated)
    ensures Fits(s.(rows := Revoke(s.rows, i, now)),
      NewRow(s.rows[i].user, Some(Effective(s.rows[i])), impersonated, sid, Some(i), now, written), written)
  {
    var row := NewRow(s.rows[i].user, Some(Effective(s.rows[i])), impersonated, sid, Some(i), now, written);
    ExpiryCarriesOver(s.rows[i], row);
    RevokedEffective(s.rows, i, now);
    hide Effective;
    assert forall k :: 0 <= k < |s.rows| && s.rows[k].parent.Some? ==> !s.rows[s.rows[k].parent.value].Live();
  }

  lemma RevokedEffective(rows: seq<Row>, i: nat, now: Time)
    requires i < |rows|
    ensures forall k :: 0 <= k < |rows| ==> Effective(Revoke(rows, i, now)[k]) == Effective(rows[k])
  {
  }

  /** Replacing a live row keeps the invariant, whether the session id is kept or fresh. */
  lemma ReplaceKeeps(s: State, i: nat, impersonated: Option<UserId>, sid: nat, now: Time, written: Time)
    requires Inv(s) && i < |s.rows| && s.rows[i].Live() && s.clock <= now <= written && s.rows[i].user in s.users
    requires impersonated.Some? ==> impersonated.value in s.users && impersonated.value != s.rows[i].user
    requires sid == s.nextSid || (s.rows[i].sid == Some(sid) && s.rows[i].impersonated == impersonated)
    ensures var row := NewRow(s.rows[i].user, Some(Effective(s.rows[i])), impersonated, sid, Some(i), now, written);
      Inv(Grant(s, Revoke(s.rows, i, now), row, written).0) && Effective(row) == Effective(s.rows[i])
  {
    var row := NewRow(s.rows[i].user, Some(Effective(s.rows[i])), impersonated, sid, Some(i), now, written);
    var mid := s.(rows := Revoke(s.rows, i, now));
    RevocationsKeep(s, mid);
    ExpiryCarriesOver(s.rows[i], row);
    ReplacementFits(s, i, impersonated, sid, now, written);
    hide Inv, Fits, Effective;
    GrantKeeps(mid, row, written);
  }

  lemma LoginKeeps(s: State, user: UserId, now: Time, written: Time)
    requires Inv(s) && s.clock <= now <= written
    ensures Inv(Login(s, user, now, written).0)
    ensures Login(s, user, now, written).1.Granted? ==>
      Effective(Login(s, user, now, written).0.rows[|s.rows|]) == now + SESSION_TIMEOUT
  {
    if user in s.users && s.users[user].active {
      GrantKeeps(s, NewRow(user, None, None, s.nextSid, None, now, written), written);
    }
  }

  lemma RefreshKeeps(s: State, token: nat, now: Time, written: Time)
    requires Inv(s) && s.clock <= now <= written
    ensures Inv(Refresh(s, token, now, written).0)
  {
    var r := Refresh(s, token, now, written);
    if r.1.Granted? {
      var row := s.rows[token];
      ReplaceKeeps(s, token, row.impersonated, if row.sid.Some? then row.sid.value else s.nextSid, now, written);
    } else {
      RevocationsKeep(s, r.0);
    }
  }

  lemma StartKeeps(s: State, a: Access, cookie: nat, target: UserId, now: Time, written: Time)
    requires Inv(s) && s.clock <= now <= written
    ensures Inv(Start(s, a, cookie, target, now, written).0)
  {
    if Start(s, a, cookie, target, now, written).1.Granted? {
      ReplaceKeeps(s, cookie, Some(target), s.nextSid, now, written);
    }
  }

  lemma StopKeeps(s: State, a: Access, cookie: nat, now: Time, written: Time)
    requires Inv(s) && s.clock <= now <= written
    ensures Inv(Stop(s, a, cookie, now, written).0)
  {
    if Stop(s, a, cookie, now, written).1.Granted? {
      ReplaceKeeps(s, cookie, None, s.nextSid, now, written);
    }
  }

  lemma StepKeeps(s: State, t: Timed)
    requires Inv(s) && s.clock <= t.now <= t.written
    ensures Inv(Step(s, t).0) && Step(s, t).0.clock <= t.written
  {
    hide RowsOk, OneChild, SidsOk, IssuedOk;
    match t.event
    case LoggedIn(user) => LoginKeeps(s, user, t.now, t.written);
    case Refreshed(token) => RefreshKeeps(s, token, t.now, t.written);
    case Started(access, cookie, target) => StartKeeps(s, access, cookie, target, t.now, t.written);
    case Stopped(access, cookie) => StopKeeps(s, access, cookie, t.now, t.written);
    case LoggedOut(token) => RevocationsKeep(s, Step(s, t).0);
    case Revocations(which) => RevocationsKeep(s, Step(s, t).0);
    case AccountChanges(users) =>
  }

  lemma {:induction false} RunKeeps(s: State, ts: seq<Timed>, clock: Time)
    requires Inv(s) && s.clock <= clock && InTime(clock, ts)
    ensures Inv(Run(s, ts))
    decreases |ts|
  {
    hide Inv, Step;
    if ts != [] {
      StepKeeps(s, ts[0]);
      RunKeeps(Step(s, ts[0]).0, ts[1..], ts[0].written);
    }
  }

  // ---------------------------------------------------------------- one family for each login

  predicate ParentsOk(rows: seq<Row>) {
    forall i :: 0 <= i < |rows| && rows[i].parent.Some? ==> rows[i].parent.value < i
  }

  /** The login a row goes back to. */
  function Origin(rows: seq<Row>, i: nat): (o: nat)
    requires ParentsOk(rows) && i < |rows|
    ensures o <= i && rows[o].parent.None?
    decreases i
  {
    match rows[i].parent
    case None => i
    case Some(p) => Origin(rows, p)
  }

  /** However often a session was refreshed and switched, its effective expiry is that of its login. */
  lemma {:induction false} FamilyExpiry(rows: seq<Row>, clock: Time, i: nat)
    requires RowsOk(rows, clock) && i < |rows|
    ensures ParentsOk(rows)
    ensures Effective(rows[i]) == Effective(rows[Origin(rows, i)]) && rows[i].user == rows[Origin(rows, i)].user
    decreases i
  {
    if rows[i].parent.Some? { FamilyExpiry(rows, clock, rows[i].parent.value); }
  }

  /** Of two rows of one family the earlier one has been replaced, by a row no later than the other. */
  lemma {:induction false} EarlierWasReplaced(rows: seq<Row>, i: nat, j: nat) returns (child: nat)
    requires ParentsOk(rows) && OneChild(rows) && i < j < |rows| && Origin(rows, i) == Origin(rows, j)
    ensures i < child <= j && rows[child].parent == Some(i)
    decreases i + j
  {
    var p := rows[j].parent.value;
    if p == i {
      child := j;
    } else if p > i {
      child := EarlierWasReplaced(rows, i, p);
    } else {
      child := EarlierWasReplaced(rows, p, i);
      assert false;
    }
  }

  /** A login never has two live refresh tokens. */
  lemma OneLiveTokenPerLogin(s: State, i: nat, j: nat)
    requires Inv(s) && i < j < |s.rows| && ParentsOk(s.rows) && Origin(s.rows, i) == Origin(s.rows, j)
    ensures !s.rows[i].Live()
  {
    var child := EarlierWasReplaced(s.rows, i, j);
  }

  /** Rows are only added and revoked; issued access tokens stay issued. */
  predicate Grows(s: State, s': State) {
    && |s.rows| <= |s'.rows| && s.issued <= s'.issued && s.nextSid <= s'.nextSid
    && forall i :: 0 <= i < |s.rows| ==>
         s'.rows[i].(revokedAt := s.rows[i].revokedAt) == s.rows[i] && (s'.rows[i].Live() ==> s.rows[i].Live())
  }

  lemma StepGrows(s: State, t: Timed)
    ensures Grows(s, Step(s, t).0)
  {
    hide Effective, MayActAs, Resolve, LiveRow, RowsOf, Claims;
  }

  lemma {:induction false} RunGrows(s: State, ts: seq<Timed>)
    ensures Grows(s, Run(s, ts))
    decreases |ts|
  {
    hide Step;
    if ts != [] {
      StepGrows(s, ts[0]);
      RunGrows(Step(s, ts[0]).0, ts[1..]);
    }
  }

  /** Every later row that goes back to a login expires exactly one session timeout after that login. */
  lemma SessionEndsWithLogin(s: State, user: UserId, now: Time, written: Time, ts: seq<Timed>, i: nat)
    requires Inv(s) && s.clock <= now <= written && InTime(written, ts)
    requires Login(s, user, now, written).1.Granted?
    requires i < |Run(Login(s, user, now, written).0, ts).rows|
    ensures var rows := Run(Login(s, user, now, written).0, ts).rows;
      && ParentsOk(rows)
      && (Origin(rows, i) == |s.rows| ==> Effective(rows[i]) == now + SESSION_TIMEOUT && rows[i].user == user)
  {
    var s1 := Login(s, user, now, written).0;
    var s2 := Run(s1, ts);
    LoginKeeps(s, user, now, written);
    RunKeeps(s1, ts, written);
    RunGrows(s1, ts);
    FamilyExpiry(s2.rows, s2.clock, i);
    assert Effective(s2.rows[|s.rows|]) == Effective(s1.rows[|s.rows|]);
    assert s1.rows[|s.rows|].user == user;
  }

  // ---------------------------------------------------------------- access tokens

  /** The part of an access token that depends on accounts only. */
  predicate AccountsAgree(users: map<UserId, User>, a: Access) {
    && a.user in users && users[a.user].active && users[a.user].tokenVersion == a.tokenVersion
    && (a.actor.Some? ==>
          && a.actor.value.id in users && users[a.actor.value.id].tokenVersion == a.actor.value.tokenVersion
          && MayActAs(a.actor.value.id, users[a.actor.value.id], a.user, users[a.user]))
  }

  /** An issued access token is honoured exactly while its session has a live, unexpired row and the accounts agree. */
  lemma ResolveIff(s: State, k: nat, now: Time)
    requires Inv(s) && k < |s.issued|
    ensures var a := s.issued[k].access;
      Resolve(s, a, now).Some? <==>
        && AccountsAgree(s.users, a)
        && exists r :: 0 <= r < |s.rows| && s.rows[r].Live() && s.rows[r].sid == Some(a.sid) && !Expired(s.rows[r], now)
  {
    var a, first := s.issued[k].access, s.issued[k].row;
    assert Matches(a, s.rows[first]);
    var i := LiveRow(s.rows, a.sid);
    if i.Some? { SameSid(s, first, i.value); }
    forall r | 0 <= r < |s.rows| && s.rows[r].Live() && s.rows[r].sid == Some(a.sid)
      ensures i == Some(r)
    {
      SameSid(s, r, i.value);
    }
  }

  lemma SameSid(s: State, i: nat, j: nat)
    requires Inv(s) && i < |s.rows| && j < |s.rows| && s.rows[i].sid.Some? && s.rows[i].sid == s.rows[j].sid
    ensures s.rows[i].user == s.rows[j].user && s.rows[i].impersonated == s.rows[j].impersonated
    ensures Effective(s.rows[i]) == Effective(s.rows[j])
    ensures s.rows[i].Live() && s.rows[j].Live() ==> i == j
  {
  }

  /** A session id that was handed out and has no live row. */
  predicate Ended(s: State, sid: nat) {
    sid < s.nextSid && forall i :: 0 <= i < |s.rows| && s.rows[i].sid == Some(sid) ==> !s.rows[i].Live()
  }

  lemma EndedInStep(s: State, t: Timed, sid: nat)
    requires Ended(s, sid)
    ensures Ended(Step(s, t).0, sid)
  {
    hide Effective, MayActAs, Agrees;
  }

  /** Once a session id has no live row it never has one again. */
  lemma {:induction false} EndedSessionStaysEnded(s: State, ts: seq<Timed>, sid: nat)
    requires Ended(s, sid)
    ensures Ended(Run(s, ts), sid)
    decreases |ts|
  {
    hide Step, Ended;
    if ts != [] {
      EndedInStep(s, ts[0], sid);
      EndedSessionStaysEnded(Step(s, ts[0]).0, ts[1..], sid);
    }
  }

  /** After a switch the access token of the previous context is refused in every later state. */
  lemma SwitchEndsContext(s: State, a: Access, cookie: nat, target: UserId, now: Time, written: Time,
                          ts: seq<Timed>, later: Time)
    requires Inv(s) && s.clock <= now <= written
    requires Start(s, a, cookie, target, now, written).1.Granted?
    ensures Resolve(Run(Start(s, a, cookie, target, now, written).0, ts), a, later).None?
  {
    var s' := Start(s, a, cookie, target, now, written).0;
    forall i | 0 <= i < |s'.rows| && s'.rows[i].sid == Some(a.sid) ensures !s'.rows[i].Live() {
      if i < |s.rows| { SameSid(s, i, cookie); }
    }
    EndedSessionStaysEnded(s', ts, a.sid);
  }

  lemma StopEndsContext(s: State, a: Access, cookie: nat, now: Time, written: Time, ts: seq<Timed>, later: Time)
    requires Inv(s) && s.clock <= now <= written
    requires Stop(s, a, cookie, now, written).1.Granted?
    ensures Resolve(Run(Stop(s, a, cookie, now, written).0, ts), a, later).None?
  {
    var s' := Stop(s, a, cookie, now, written).0;
    forall i | 0 <= i < |s'.rows| && s'.rows[i].sid == Some(a.sid) ensures !s'.rows[i].Live() {
      if i < |s.rows| { SameSid(s, i, cookie); }
    }
    EndedSessionStaysEnded(s', ts, a.sid);
  }

  /** Presenting a refresh token that was already used ends every session of its user. */
  lemma ReuseRevokesAll(s: State, token: nat, now: Time, written: Time)
    requires token < |s.rows| && !s.rows[token].Live()
    ensures var r := Refresh(s, token, now, written);
      && r.1.Unauthorized? && |r.0.rows| == |s.rows|
      && (forall i :: 0 <= i < |s.rows| ==>
            if s.rows[i].user == s.rows[token].user then !r.0.rows[i].Live() else r.0.rows[i] == s.rows[i])
  {
    var user := s.rows[token].user;
    assert forall i: nat :: i < |s.rows| ==> (i in RowsOf(s.rows, user) <==> s.rows[i].user == user);
  }

  // ---------------------------------------------------------------- bindings kept by other parts of the system

  datatype Binding =
    | Plain(user: UserId, tokenVersion: nat, expiry: Time)
    | Switched(actor: UserId, actorVersion: nat, effective: UserId, effectiveVersion: nat, until: Time)

  /** `get_access_token_session_binding`. */
  function BindingOf(a: Access): Binding {
    match a.actor
    case None => Plain(a.user, a.tokenVersion, a.sessionExpiresAt)
    case Some(actor) => Switched(actor.id, actor.tokenVersion, a.user, a.tokenVersion, a.sessionExpiresAt)
  }

  predicate Backs(users: map<UserId, User>, row: Row, user: UserId, b: Binding, now: Time)
    requires user in users
  {
    && row.Live() && (row.user == user || row.impersonated == Some(user)) && !Expired(row, now)
    && match row.impersonated
       case None => row.user == user && b == Plain(user, users[user].tokenVersion, Effective(row))
       case Some(effective) =>
         && effective == user && row.user in users && MayActAs(row.user, users[row.user], user, users[user])
         && b == Switched(row.user, users[row.user].tokenVersion, user, users[user].tokenVersion, Effective(row))
  }

  /** `validate_browser_auth_session_binding`. */
  predicate Validates(s: State, user: UserId, version: nat, b: Binding, now: Time) {
    && user in s.users && s.users[user].active && s.users[user].tokenVersion == version
    && exists i :: 0 <= i < |s.rows| && Backs(s.users, s.rows[i], user, b, now)
  }

  /** A live, unexpired row in a token's user context and with its expiry. */
  predicate SameContext(row: Row, a: Access, now: Time) {
    && row.Live() && !Expired(row, now) && Effective(row) == a.sessionExpiresAt
    && row.user == (if a.actor.Some? then a.actor.value.id else a.user)
    && row.impersonated == (if a.actor.Some? then Some(a.user) else None)
  }

  /** A binding is honoured exactly while the accounts agree and some live session has its context and expiry. */
  lemma BindingIff(s: State, a: Access, now: Time)
    ensures Validates(s, a.user, a.tokenVersion, BindingOf(a), now) <==>
      && AccountsAgree(s.users, a)
      && exists i :: 0 <= i < |s.rows| && SameContext(s.rows[i], a, now)
  {
    if a.user in s.users {
      forall i | 0 <= i < |s.rows|
        ensures s.users[a.user].active && s.users[a.user].tokenVersion == a.tokenVersion ==>
          (Backs(s.users, s.rows[i], a.user, BindingOf(a), now)
           <==> AccountsAgree(s.users, a) && SameContext(s.rows[i], a, now))
      {
      }
    }
  }

  /**
   In every reachable state: the binding taken from any access token ever issued is honoured while its session goes
   on, that is, while the session id has a live and unexpired row and the accounts agree.
   */
  lemma EarlierBindingSurvives(ts: seq<Timed>, k: nat, r: nat, now: Time)
    requires InTime(0, ts) && k < |Run(EMPTY, ts).issued| && r < |Run(EMPTY, ts).rows|
    requires var s := Run(EMPTY, ts);
      && s.rows[r].Live() && s.rows[r].sid == Some(s.issued[k].access.sid) && !Expired(s.rows[r], now)
      && AccountsAgree(s.users, s.issued[k].access)
    ensures var s := Run(EMPTY, ts);
      var a := s.issued[k].access;
      Validates(s, a.user, a.tokenVersion, BindingOf(a), now) && Resolve(s, a, now) == Some(r)
  {
    var s := Run(EMPTY, ts);
    RunKeeps(EMPTY, ts, 0);
    var a := s.issued[k].access;
    assert Matches(a, s.rows[s.issued[k].row]);
    SameSid(s, s.issued[k].row, r);
    assert SameContext(s.rows[r], a, now);
    BindingIff(s, a, now);
    ResolveIff(s, k, now);
    SameSid(s, r, Resolve(s, a, now).value);
  }

  // ---------------------------------------------------------------- the tables themselves

  class SessionStore {
    var users: map<UserId, User>
    var rows: seq<Row>
    var issued: seq<Issue>
    var nextSid: nat
    var clock: Time

    ghost function Tables(): State
      reads this
    {
      State(users, rows, issued, nextSid, clock)
    }

    ghost predicate Valid()
      reads this
    {
      Inv(Tables())
    }

    constructor (users: map<UserId, User>)
      ensures Valid() && Tables() == EMPTY.(users := users)
    {
      this.users, rows, issued, nextSid, clock := users, [], [], 0, 0;
    }

    /** `_create_refresh_token` and `_create_user_access_token`. */
    method CreateTokens(user: UserId, absolute: Option<Time>, impersonated: Option<UserId>, sid: Option<nat>,
                        parent: Option<nat>, now: Time, written: Time)
      returns (outcome: Outcome)
      requires user in users && (impersonated.Some? ==> impersonated.value in users)
      modifies this
      ensures var session := if sid.Some? then sid.value else old(nextSid);
        var row := NewRow(user, absolute, impersonated, session, parent, now, written);
        (Tables(), outcome) == Grant(old(Tables()), old(rows), row, written)
    {
      var session := nextSid;
      if sid.Some? { session := sid.value; }
      if session == nextSid { nextSid := nextSid + 1; }
      var expiry := now + SESSION_TIMEOUT;
      if absolute.Some? { expiry := absolute.value; }
      var until := Min(now + REFRESH_LIFETIME, expiry);
      var row := Row(user, until, Some(expiry), Some(session), impersonated, None, written, parent);
      var access := Claims(users, row);
      issued := issued + [Issue(access, |rows|)];
      outcome := Granted(|rows|, access);
      rows := rows + [row];
      clock := written;
    }

    method LoginForAccessToken(user: UserId, now: Time, written: Time) returns (outcome: Outcome)
      requires Valid() && clock <= now <= written
      modifies this
      ensures Valid() && (Tables(), outcome) == Login(old(Tables()), user, now, written)
      ensures outcome.Granted? ==> outcome.token == |old(rows)| < |rows| && rows[outcome.token].Live()
      ensures outcome.Granted? <==> user in old(users) && old(users)[user].active
    {
      LoginKeeps(Tables(), user, now, written);
      hide Inv, Claims;
      if user !in users || !users[user].active { return Unauthorized; }
      outcome := CreateTokens(user, None, None, None, None, now, written);
    }

    /** `_revoke_all_user_refresh_tokens`. */
    method RevokeAllFor(user: UserId, now: Time)
      modifies this`rows
      ensures rows == RevokeUser(old(rows), user, now)
    {
      for i := 0 to |rows|
        invariant |rows| == |old(rows)|
        invariant forall k :: 0 <= k < |rows| ==>
          rows[k] == if k < i && old(rows)[k].user == user && old(rows)[k].Live()
                     then old(rows)[k].(revokedAt := Some(now)) else old(rows)[k]
      {
        if rows[i].user == user && rows[i].revokedAt.None? {
          rows := rows[i := rows[i].(revokedAt := Some(now))];
        }
      }
    }

    method RefreshAccessToken(token: nat, now: Time, written: Time) returns (outcome: Outcome)
      requires Valid() && clock <= now <= written
      modifies this
      ensures Valid() && (Tables(), outcome) == Refresh(old(Tables()), token, now, written)
      ensures outcome.Granted? ==> outcome.token == |old(rows)| < |rows| && rows[outcome.token].Live()
      ensures outcome.Granted? ==> old(rows)[token].Live() && !rows[token].Live()
    {
      RefreshKeeps(Tables(), token, now, written);
      hide Inv, Claims, RevokeUser, MayActAs;
      if token >= |rows| { return Unauthorized; }
      var row := rows[token];
      if row.revokedAt.Some? {
        RevokeAllFor(row.user, now);
        clock := now;
        return Unauthorized;
      }
      var expiry := Effective(row);
      if row.expiresAt < now || expiry < now { return Unauthorized; }
      if row.user !in users { return Unauthorized; }
      if !users[row.user].active {
        RevokeAllFor(row.user, now);
        clock := now;
        return Unauthorized;
      }
      if row.impersonated.Some? {
        if row.impersonated.value !in users {
          rows := rows[token := row.(revokedAt := Some(now))];
          clock := now;
          return Unauthorized;
        }
        if !MayActAs(row.user, users[row.user], row.impersonated.value, users[row.impersonated.value]) {
          return Forbidden;
        }
      }
      rows := rows[token := row.(revokedAt := Some(now))];
      outcome := CreateTokens(row.user, Some(expiry), row.impersonated, row.sid, Some(token), now, written);
    }

    method StartImpersonation(a: Access, cookie: nat, target: UserId, now: Time, written: Time)
      returns (outcome: Outcome)
      requires Valid() && clock <= now <= written
      modifies this
      ensures Valid() && (Tables(), outcome) == Start(old(Tables()), a, cookie, target, now, written)
      ensures outcome.Granted? ==> outcome.token == |old(rows)| < |rows| && rows[outcome.token].Live()
      ensures outcome.Granted? ==> cookie < |old(rows)| && !rows[cookie].Live()
    {
      StartKeeps(Tables(), a, cookie, target, now, written);
      hide Inv, Claims, MayActAs, LiveRow, Expired;
      var current := ResolveToken(a, now);
      if current.None? { return Unauthorized; }
      if a.actor.Some? { return Busy; }
      if target !in users { return NotFound; }
      if !MayActAs(a.user, users[a.user], target, users[target]) { return Forbidden; }
      if cookie != current.value { return Busy; }
      var row := rows[current.value];
      var expiry := Effective(row);
      rows := rows[current.value := row.(revokedAt := Some(now))];
      outcome := CreateTokens(row.user, Some(expiry), Some(target), None, Some(current.value), now, written);
    }

    method StopImpersonation(a: Access, cookie: nat, now: Time, written: Time) returns (outcome: Outcome)
      requires Valid() && clock <= now <= written
      modifies this
      ensures Valid() && (Tables(), outcome) == Stop(old(Tables()), a, cookie, now, written)
      ensures outcome.Granted? ==> outcome.token == |old(rows)| < |rows| && rows[outcome.token].Live()
      ensures outcome.Granted? ==> cookie < |old(rows)| && !rows[cookie].Live()
    {
      StopKeeps(Tables(), a, cookie, now, written);
      hide Inv, Claims, MayActAs, LiveRow, Expired;
      var current := ResolveToken(a, now);
      if current.None? { return Unauthorized; }
      if a.actor.None? { return Busy; }
      if cookie != current.value { return Busy; }
      var row := rows[current.value];
      var expiry := Effective(row);
      rows := rows[current.value := row.(revokedAt := Some(now))];
      outcome := CreateTokens(row.user, Some(expiry), None, None, Some(current.value), now, written);
    }

    method LogoutSession(token: nat, now: Time)
      requires Valid() && clock <= now
      modifies this
      ensures Valid() && Tables() == Logout(old(Tables()), token, now).0
      ensures token < |rows| ==> !rows[token].Live()
      ensures |rows| == |old(rows)| && forall i :: 0 <= i < |rows| && i != token ==> rows[i] == old(rows)[i]
      ensures issued == old(issued) && users == old(users)
    {
      RevocationsKeep(Tables(), Logout(Tables(), token, now).0);
      hide Inv;
      if token < |rows| && rows[token].revokedAt.None? {
        rows := rows[token := rows[token].(revokedAt := Some(now))];
        clock := now;
      }
    }

    /** The row behind an access token, checked step by step. */
    method ResolveToken(a: Access, now: Time) returns (current: Option<nat>)
      ensures current == Resolve(Tables(), a, now)
    {
      hide MayActAs;
      current := LiveRow(rows, a.sid);
      if current.None? { return; }
      var row := rows[current.value];
      if row.expiresAt <= now || Effective(row) <= now { return None; }
      if a.sessionExpiresAt != Effective(row) { return None; }
      var actor := a.user;
      if a.actor.Some? {
        actor := a.actor.value.id;
        if actor == a.user { return None; }
      }
      if row.user != actor || row.impersonated != (if a.actor.Some? then Some(a.user) else None) { return None; }
      if actor !in users || a.user !in users { return None; }
      if !users[actor].active || !users[a.user].active { return None; }
      if a.tokenVersion != users[a.user].tokenVersion { return None; }
      if a.actor.Some? {
        if a.actor.value.tokenVersion != users[actor].tokenVersion { return None; }
        if !MayActAs(actor, users[actor], a.user, users[a.user]) { return None; }
      }
    }

    /** `validate_browser_auth_session_binding`: look for a row whose binding is the one presented. */
    method ValidateBinding(user: UserId, version: nat, b: Binding, now: Time) returns (ok: bool)
      ensures ok == Validates(Tables(), user, version, b, now)
    {
      hide MayActAs, Effective;
      if user !in users || !users[user].active || users[user].tokenVersion != version { return false; }
      for i := 0 to |rows|
        invariant forall k :: 0 <= k < i ==> !Backs(users, rows[k], user, b, now)
      {
        var row := rows[i];
        if row.revokedAt.None? && (row.user == user || row.impersonated == Some(user)) {
          var expiry := Effective(row);
          if !(row.expiresAt <= now || expiry <= now) {
            if row.impersonated.None? {
              if row.user == user && Plain(user, users[user].tokenVersion, expiry) == b { return true; }
            } else if row.impersonated == Some(user) && row.user in users {
              if MayActAs(row.user, users[row.user], user, users[user]) {
                var material :=
                  Switched(row.user, users[row.user].tokenVersion, user, users[user].tokenVersion, expiry);
                if material == b { return true; }
              }
            }
          }
        }
      }
      return false;
    }
  }
}
