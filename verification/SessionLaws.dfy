/**
 Who gets which session: the conditions of login, refresh, switching, switching back, access tokens and bindings, read
 off the rows and the accounts.
 */
module SessionLaws {
  import opened Options
  import opened Sessions

  // ---------------------------------------------------------------- rows and accounts

  /** The stored expiry of the session, or one session timeout after the row was made if that comes first. */
  function Until(row: Row): Time {
    if row.sessionExpiresAt.Some? && row.sessionExpiresAt.value < row.createdAt + SESSION_TIMEOUT
    then row.sessionExpiresAt.value else row.createdAt + SESSION_TIMEOUT
  }

  predicate Running(row: Row, now: Time) {
    row.revokedAt.None? && now < row.expiresAt && now < Until(row)
  }

  /** An administrator acts for a user of the own organisation; a superadmin for anybody. */
  predicate MaySwitch(users: map<UserId, User>, actor: UserId, target: UserId) {
    && actor in users && target in users && actor != target
    && users[actor].active && users[target].active
    && !users[actor].mustChangePassword && !users[target].mustChangePassword
    && (users[actor].superadmin
        || (&& users[actor].role == AdminRole && users[actor].organization.Some?
            && users[target].organization == users[actor].organization
            && users[target].role != SuperadminRole && users[target].role != ViewerRole))
  }

  lemma MaySwitchIff(users: map<UserId, User>, actor: UserId, target: UserId)
    requires actor in users && target in users
    ensures MayActAs(actor, users[actor], target, users[target]) <==> MaySwitch(users, actor, target)
  {
  }

  lemma UntilIsEffective(row: Row)
    ensures Until(row) == Effective(row)
  {
  }

  // ---------------------------------------------------------------- access tokens

  /** The access token belongs to the running row `i`: same session, same expiry, same people, unchanged accounts. */
  predicate Carries(s: State, a: Access, i: nat, now: Time) {
    && i < |s.rows| && Running(s.rows[i], now) && s.rows[i].sid == Some(a.sid) && a.sessionExpiresAt == Until(s.rows[i])
    && a.user in s.users && s.users[a.user].active && s.users[a.user].tokenVersion == a.tokenVersion
    && match a.actor
       case None => s.rows[i].user == a.user && s.rows[i].impersonated == None
       case Some(actor) =>
         && s.rows[i].user == actor.id && s.rows[i].impersonated == Some(a.user)
         && MaySwitch(s.users, actor.id, a.user) && s.users[actor.id].tokenVersion == actor.tokenVersion
  }

  /** A token resolves to a row exactly if it carries it. */
  lemma ResolveLaw(s: State, a: Access, now: Time)
    requires Inv(s)
    ensures forall i: nat :: Resolve(s, a, now) == Some(i) <==> Carries(s, a, i, now)
    ensures Resolve(s, a, now).None? <==> forall i: nat :: !Carries(s, a, i, now)
  {
    forall i: nat ensures Resolve(s, a, now) == Some(i) <==> Carries(s, a, i, now) {
      ResolveLawAt(s, a, now, i);
    }
    if Resolve(s, a, now).Some? { assert Carries(s, a, Resolve(s, a, now).value, now); }
  }

  lemma ResolveLawAt(s: State, a: Access, now: Time, i: nat)
    requires Inv(s)
    ensures Resolve(s, a, now) == Some(i) <==> Carries(s, a, i, now)
  {
    var live := LiveRow(s.rows, a.sid);
    if i < |s.rows| {
      if s.rows[i].Live() && s.rows[i].sid == Some(a.sid) { SameSid(s, i, live.value); }
      UntilIsEffective(s.rows[i]);
      AgreesIff(s, a, s.rows[i]);
    }
    hide Agrees, MaySwitch, Inv, Effective, Until;
  }

  lemma AgreesIff(s: State, a: Access, row: Row)
    ensures Agrees(s, a, row) <==>
      && a.user in s.users && s.users[a.user].active && s.users[a.user].tokenVersion == a.tokenVersion
      && match a.actor
         case None => row.user == a.user && row.impersonated == None
         case Some(actor) =>
           && row.user == actor.id && row.impersonated == Some(a.user)
           && MaySwitch(s.users, actor.id, a.user) && s.users[actor.id].tokenVersion == actor.tokenVersion
  {
  }

  // ---------------------------------------------------------------- what a grant leaves behind

  /** The tables with one row of a session more, replacing row `replaced` if there is one, and its access token. */
  predicate Opened(
    s: State, s': State, token: nat, a: Access, user: UserId, effective: UserId, until: Time, sid: nat,
    replaced: Option<nat>, now: Time, written: Time)
  {
    && token == |s.rows| && |s'.rows| == |s.rows| + 1 && user in s.users && effective in s.users
    && (forall i :: 0 <= i < |s.rows| ==>
          s'.rows[i] == if replaced == Some(i) then s.rows[i].(revokedAt := Some(now)) else s.rows[i])
    && s'.rows[token] == Row(
         user, if now + REFRESH_LIFETIME < until then now + REFRESH_LIFETIME else until, Some(until), Some(sid),
         if effective == user then None else Some(effective), None, written, replaced)
    && a == Access(effective, s.users[effective].tokenVersion, sid, until,
                   if effective == user then None else Some(Actor(user, s.users[user].tokenVersion)))
    && s'.issued == s.issued + [Issue(a, token)]
    && s'.users == s.users && s'.clock == written
    && s'.nextSid == (if sid == s.nextSid then s.nextSid + 1 else s.nextSid)
  }

  /** An active account logs in: a new session that lasts one session timeout. */
  lemma LoginLaw(s: State, user: UserId, now: Time, written: Time)
    ensures var (s', o) := Step(s, Timed(LoggedIn(user), now, written));
      if user in s.users && s.users[user].active then
        o.Granted? && Opened(s, s', o.token, o.access, user, user, now + SESSION_TIMEOUT, s.nextSid, None, now, written)
      else o == Unauthorized && s' == s
  {
  }

  /** A switch is granted exactly with a running plain session, its own cookie, and accounts that allow it. */
  lemma SwitchLaw(s: State, a: Access, cookie: nat, target: UserId, now: Time, written: Time)
    requires Inv(s)
    ensures var (s', o) := Step(s, Timed(Started(a, cookie, target), now, written));
      && (o.Granted? <==> a.actor.None? && Carries(s, a, cookie, now) && MaySwitch(s.users, a.user, target))
      && (o.Granted? ==>
            Opened(s, s', o.token, o.access, a.user, target, Until(s.rows[cookie]), s.nextSid, Some(cookie), now,
                   written))
      && (!o.Granted? ==> s' == s)
  {
    ResolveLaw(s, a, now);
    if target in s.users && a.user in s.users { MaySwitchIff(s.users, a.user, target); }
    if cookie < |s.rows| { UntilIsEffective(s.rows[cookie]); }
    hide Resolve, MaySwitch, MayActAs, Effective, Until, Inv, Running;
  }

  /** Which refusal it is otherwise. */
  lemma SwitchRefusedLaw(s: State, a: Access, cookie: nat, target: UserId, now: Time, written: Time)
    requires Inv(s)
    ensures var o := Step(s, Timed(Started(a, cookie, target), now, written)).1;
      && (o == Unauthorized <==> forall i: nat :: !Carries(s, a, i, now))
      && ((exists i: nat :: Carries(s, a, i, now)) && a.actor.None? ==>
            && (o == NotFound <==> target !in s.users)
            && (o == Forbidden <==> target in s.users && !MaySwitch(s.users, a.user, target)))
  {
    ResolveLaw(s, a, now);
    if target in s.users && a.user in s.users { MaySwitchIff(s.users, a.user, target); }
    hide MaySwitch, MayActAs, Effective, Until, Inv, Running;
  }

  /** Switching back needs a running switched session and its own cookie. */
  lemma SwitchBackLaw(s: State, a: Access, cookie: nat, now: Time, written: Time)
    requires Inv(s)
    ensures var (s', o) := Step(s, Timed(Stopped(a, cookie), now, written));
      && (o.Granted? <==> a.actor.Some? && Carries(s, a, cookie, now))
      && (o.Granted? ==>
            var user := a.actor.value.id;
            Opened(s, s', o.token, o.access, user, user, Until(s.rows[cookie]), s.nextSid, Some(cookie), now, written))
      && (!o.Granted? ==> s' == s)
  {
    ResolveLaw(s, a, now);
    if cookie < |s.rows| { UntilIsEffective(s.rows[cookie]); }
    hide Resolve, MayActAs, Effective, Until, Inv, Running;
  }

  /** The row may be refreshed: it is not used up, neither of its ends is past, and its people may still share it. */
  predicate Refreshable(s: State, token: nat, now: Time) {
    && token < |s.rows| && s.rows[token].revokedAt.None?
    && now <= s.rows[token].expiresAt && now <= Until(s.rows[token])
    && s.rows[token].user in s.users && s.users[s.rows[token].user].active
    && (s.rows[token].impersonated.Some? ==> MaySwitch(s.users, s.rows[token].user, s.rows[token].impersonated.value))
  }

  /** A refresh is granted exactly then, and keeps the session, its people and its end. */
  lemma RefreshLaw(s: State, token: nat, now: Time, written: Time)
    ensures var (s', o) := Step(s, Timed(Refreshed(token), now, written));
      && (o.Granted? <==> Refreshable(s, token, now))
      && (o.Granted? ==>
            var row := s.rows[token];
            Opened(s, s', o.token, o.access, row.user,
                   if row.impersonated.Some? then row.impersonated.value else row.user, Until(row),
                   if row.sid.Some? then row.sid.value else s.nextSid, Some(token), now, written))
  {
    if token < |s.rows| {
      var row := s.rows[token];
      UntilIsEffective(row);
      if row.user in s.users && row.impersonated.Some? && row.impersonated.value in s.users {
        MaySwitchIff(s.users, row.user, row.impersonated.value);
        assert MaySwitch(s.users, row.user, row.impersonated.value) ==> row.user != row.impersonated.value;
      }
    }
    hide MayActAs, MaySwitch, Effective, Until, RevokeUser;
  }

  /** A refusal changes nothing, unless it revokes the user's rows, or the one row of a user who is gone. */
  lemma RefreshRefusedLaw(s: State, token: nat, now: Time, written: Time)
    requires !Refreshable(s, token, now)
    ensures var (s', o) := Step(s, Timed(Refreshed(token), now, written));
      && !o.Granted? && s'.issued == s.issued && s'.users == s.users && |s'.rows| == |s.rows|
      && if token >= |s.rows| then s' == s
         else
           var row := s.rows[token];
           var inTime := now <= row.expiresAt && now <= Until(row);
           if row.revokedAt.Some? || (inTime && row.user in s.users && !s.users[row.user].active) then
             forall i :: 0 <= i < |s.rows| ==>
               s'.rows[i] == if s.rows[i].user == row.user && s.rows[i].revokedAt.None?
                             then s.rows[i].(revokedAt := Some(now)) else s.rows[i]
           else if inTime && row.user in s.users && row.impersonated.Some? && row.impersonated.value !in s.users then
             s'.rows == s.rows[token := row.(revokedAt := Some(now))]
           else s' == s
  {
    if token < |s.rows| {
      var row := s.rows[token];
      UntilIsEffective(row);
      if row.user in s.users && row.impersonated.Some? && row.impersonated.value in s.users {
        MaySwitchIff(s.users, row.user, row.impersonated.value);
      }
      assert forall i: nat :: i < |s.rows| ==> (i in RowsOf(s.rows, row.user) <==> s.rows[i].user == row.user);
    }
    hide MayActAs, MaySwitch, Effective, Until, RowsOf;
  }

  // ---------------------------------------------------------------- bindings

  /** The row backs the binding of a user. */
  predicate Vouches(users: map<UserId, User>, row: Row, user: UserId, b: Binding, now: Time)
    requires user in users
  {
    && Running(row, now)
    && match row.impersonated
       case None => row.user == user && b == Plain(user, users[user].tokenVersion, Until(row))
       case Some(effective) =>
         && effective == user && MaySwitch(users, row.user, user)
         && b == Switched(row.user, users[row.user].tokenVersion, user, users[user].tokenVersion, Until(row))
  }

  /** A binding is honoured exactly for an active account of the version given, backed by some running row. */
  lemma BindingLaw(s: State, user: UserId, version: nat, b: Binding, now: Time)
    ensures Validates(s, user, version, b, now) <==>
      && user in s.users && s.users[user].active && s.users[user].tokenVersion == version
      && exists i :: 0 <= i < |s.rows| && Vouches(s.users, s.rows[i], user, b, now)
  {
    if user in s.users {
      forall i | 0 <= i < |s.rows|
        ensures Backs(s.users, s.rows[i], user, b, now) <==> Vouches(s.users, s.rows[i], user, b, now)
      {
        UntilIsEffective(s.rows[i]);
        if s.rows[i].user in s.users { MaySwitchIff(s.users, s.rows[i].user, user); }
      }
    }
  }

  // ---------------------------------------------------------------- every switched token was allowed when issued

  lemma StepIssues(s: State, t: Timed)
    requires Inv(s)
    ensures var s' := Step(s, t).0;
      && s.issued <= s'.issued && |s'.issued| <= |s.issued| + 1
      && (|s'.issued| > |s.issued| && s'.issued[|s.issued|].access.actor.Some? ==>
            var a := s'.issued[|s.issued|].access;
            MaySwitch(s.users, a.actor.value.id, a.user))
  {
    StepGrows(s, t);
    match t.event
    case LoggedIn(user) => LoginLaw(s, user, t.now, t.written);
    case Refreshed(token) =>
      RefreshLaw(s, token, t.now, t.written);
      if !Refreshable(s, token, t.now) { RefreshRefusedLaw(s, token, t.now, t.written); }
    case Started(access, cookie, target) => SwitchLaw(s, access, cookie, target, t.now, t.written);
    case Stopped(access, cookie) => SwitchBackLaw(s, access, cookie, t.now, t.written);
    case _ =>
    hide Login, Refresh, Start, Stop, MaySwitch, Carries, Inv;
  }

  /** Token `k` was handed out by event `n`, when the accounts allowed its actor to act for its user. */
  predicate AllowedWhenIssued(s: State, ts: seq<Timed>, k: nat, n: nat) {
    && n < |ts|
    && var before, after := Run(s, ts[..n]), Run(s, ts[..n + 1]);
      && |before.issued| <= k < |after.issued| && after.issued[k].access.actor.Some?
      && MaySwitch(before.users, after.issued[k].access.actor.value.id, after.issued[k].access.user)
  }

  lemma {:induction false} SwitchedTokenWasAllowed(s: State, ts: seq<Timed>, k: nat, clock: Time) returns (n: nat)
    requires Inv(s) && s.clock <= clock && InTime(clock, ts)
    requires |s.issued| <= k < |Run(s, ts).issued| && Run(s, ts).issued[k].access.actor.Some?
    ensures AllowedWhenIssued(s, ts, k, n)
    decreases |ts|
  {
    hide Step, Inv, MaySwitch;
    var s' := Step(s, ts[0]).0;
    StepIssues(s, ts[0]);
    StepKeeps(s, ts[0]);
    if k < |s'.issued| {
      RunGrows(s', ts[1..]);
      n := 0;
      assert ts[..0] == [] && ts[..1] == [ts[0]];
      assert Run(s, ts[..1]) == Run(s', ts[..1][1..]) == s';
    } else {
      var m := SwitchedTokenWasAllowed(s', ts[1..], k, ts[0].written);
      n := m + 1;
      assert ts[..n][1..] == ts[1..][..m] && ts[..n + 1][1..] == ts[1..][..m + 1];
    }
  }

  /** In every run an access token that carries an actor was issued when the accounts allowed it. */
  lemma EverySwitchWasAllowed(ts: seq<Timed>, k: nat)
    requires InTime(0, ts) && k < |Run(EMPTY, ts).issued| && Run(EMPTY, ts).issued[k].access.actor.Some?
    ensures exists n: nat :: AllowedWhenIssued(EMPTY, ts, k, n)
  {
    hide Run;
    var n := SwitchedTokenWasAllowed(EMPTY, ts, k, 0);
  }
}
