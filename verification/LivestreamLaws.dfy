/**
 What each transaction of a client does, read off the rows alone: who is present, how long nobody has been, how old the
 media is, and what then happens to generations and commands.
 */
module LivestreamLaws {
  import opened Options
  import opened LivestreamClient
  import opened LivestreamSafety

  const LEASE: Time := VIEWER_LEASE_SECONDS * SECOND
  const GRACE: Time := VIEWER_STOP_GRACE_SECONDS * SECOND
  const STALE: Time := MEDIA_STALE_SECONDS * SECOND

  // ---------------------------------------------------------------- who is present

  /** The row has not ended, and its lease still runs or its viewer is live in memory. */
  predicate Here(v: Viewer, env: Env) {
    v.endedAt.None? && (v.lastSeen >= env.now - LEASE || (v.id, v.principal) in env.live)
  }

  predicate ViewerHere(c: Client, env: Env) {
    exists i :: 0 <= i < |c.viewers| && Here(c.viewers[i], env)
  }

  predicate SomebodyHere(c: Client, env: Env) { ViewerHere(c, env) || env.activity }

  predicate IsLive(g: Generation) { g.state.Starting? || g.state.Running? }

  predicate IsActive(g: Generation) { IsLive(g) || g.state.Stopping? }

  predicate NoneActive(gens: seq<Generation>) {
    forall i :: 0 <= i < |gens| ==> !IsActive(gens[i])
  }

  predicate NothingLive(gens: seq<Generation>) {
    forall i :: 0 <= i < |gens| ==> !IsLive(gens[i])
  }

  /** Rows whose viewer is gone are ended with the end of their lease; the others stay. */
  predicate RowsLapsed(before: seq<Viewer>, after: seq<Viewer>, env: Env) {
    && |after| == |before|
    && forall i :: 0 <= i < |before| ==>
         after[i] == if before[i].endedAt.None? && !Here(before[i], env)
                     then before[i].(endedAt := Some(before[i].lastSeen + LEASE)) else before[i]
  }

  /** Nothing but viewer rows has changed. */
  predicate OnlyLapsed(c: Client, d: Client, env: Env) {
    d == c.(viewers := d.viewers) && RowsLapsed(c.viewers, d.viewers, env)
  }

  lemma ExpiryLapses(c: Client, env: Env)
    ensures OnlyLapsed(c, ExpireStale(c, env), env)
  {
  }

  lemma HereIffOpen(c: Client, env: Env)
    ensures AnyOpen(ExpireStale(c, env).viewers) <==> ViewerHere(c, env)
  {
    var rows := ExpireStale(c, env).viewers;
    forall i | 0 <= i < |rows| ensures rows[i].Open() <==> Here(c.viewers[i], env) { }
  }

  // ---------------------------------------------------------------- what a start and a stop leave behind

  /** A queued start-type command is cancelled by every new intent. */
  predicate LaunchesCancelled(before: seq<Command>, after: seq<Command>)
    requires |before| <= |after|
  {
    forall k :: 0 <= k < |before| ==>
      after[k] == if before[k].kind.Launch? && before[k].state.Queued? then before[k].(state := Cancelled)
                  else before[k]
  }

  /** One generation more, starting now, with its one command; whatever was active is superseded. */
  predicate Launched(c: Client, d: Client, action: Action, now: Time) {
    var n, m := |c.generations|, |c.commands|;
    && |d.generations| == n + 1 && d.generations[n] == Generation(Starting, action, now, None, None)
    && (forall i :: 0 <= i < n ==>
          d.generations[i] == if IsActive(c.generations[i]) then c.generations[i].(state := Superseded)
                              else c.generations[i])
    && |d.commands| == m + 1 && d.commands[m] == Command(Launch(action), Some(n), Queued, 0, now, None, None, now)
    && LaunchesCancelled(c.commands, d.commands)
    && d.stopReason.NoStop? && d.blocked == c.blocked && d.issued == c.issued
  }

  /** A stop command that waits or is being carried out. */
  predicate StopWaits(c: Command) { c.kind.Halt? && (c.state.Queued? || c.state.Leased?) }

  predicate LaunchWaits(c: Command) { c.kind.Launch? && (c.state.Queued? || c.state.Leased?) }

  /** The active generation is stopping, and one stop command is open. */
  predicate Halted(c: Client, d: Client, reason: StopReason, now: Time) {
    var m := |c.commands|;
    && |d.generations| == |c.generations|
    && (forall i :: 0 <= i < |c.generations| ==>
          d.generations[i] == if IsActive(c.generations[i]) then c.generations[i].(state := Stopping)
                              else c.generations[i])
    && |d.commands| >= m && LaunchesCancelled(c.commands, d.commands)
    && (if exists k :: 0 <= k < m && StopWaits(c.commands[k]) then |d.commands| == m
        else |d.commands| == m + 1 && d.commands[m].kind.Halt? && d.commands[m].state.Queued?
             && d.commands[m].attempts == 0 && d.commands[m].availableAt == d.commands[m].createdAt == now
             && (if NoneActive(c.generations) then d.commands[m].target.None?
                 else d.commands[m].target.Some? && d.commands[m].target.value < |c.generations|
                      && IsActive(c.generations[d.commands[m].target.value])))
    && d.stopReason == reason && d.blocked == c.blocked && d.issued == c.issued
  }

  lemma ActiveIsCurrent(gens: seq<Generation>)
    requires OneActive(gens)
    ensures Current(gens).None? <==> NoneActive(gens)
    ensures Current(gens).Some? ==> forall i :: 0 <= i < |gens| ==> (IsActive(gens[i]) <==> i == Current(gens).value)
  {
    OnlyCurrentActive(gens);
  }

  lemma NewGenerationLaunches(c: Client, action: Action, now: Time)
    requires OneActive(c.generations)
    ensures if c.blocked then NewGeneration(c, action, true, now) == Refused(0)
      else NewGeneration(c, action, true, now).Done? && NewGeneration(c, action, true, now).notices == 1
           && Launched(c, NewGeneration(c, action, true, now).client, action, now)
    ensures NoneActive(c.generations) ==> NewGeneration(c, action, false, now) == NewGeneration(c, action, true, now)
  {
    ActiveIsCurrent(c.generations);
  }

  /** A start is refused while blocked or stopping, does nothing while live, and otherwise launches. */
  lemma StartLaw(c: Client, now: Time)
    requires OneActive(c.generations)
    ensures var r := RequestStart(c, now);
      if c.blocked || (exists i :: 0 <= i < |c.generations| && c.generations[i].state.Stopping?) then r == Refused(0)
      else if exists i :: 0 <= i < |c.generations| && IsLive(c.generations[i]) then r == Done(c, 0)
      else r.Done? && r.notices == 1 && Launched(c, r.client, Start, now)
  {
    ActiveIsCurrent(c.generations);
    NewGenerationLaunches(c, Start, now);
  }

  /** A stop; an explicit one sets the latch, any other leaves a set latch alone. */
  lemma StopLaw(c: Client, explicit: bool, source: string, now: Time)
    requires OneActive(c.generations)
    ensures var r := RequestStop(c, explicit, source, now);
      && r.Done? && (exists k :: 0 <= k < |r.client.commands| && StopWaits(r.client.commands[k]))
      && Halted(c, r.client,
                if explicit then ExplicitStop(source)
                else if c.stopReason.ExplicitStop? then c.stopReason else ImplicitStop(source), now)
      && r.client.viewers == c.viewers
      && (r.notices == 1 <==> |r.client.commands| > |c.commands|)
  {
    ActiveIsCurrent(c.generations);
    var mid := CancelLaunches(c.commands);
    assert forall k :: 0 <= k < |mid| ==> (StopWaits(mid[k]) <==> StopWaits(c.commands[k]));
    var d := RequestStop(c, explicit, source, now).client;
    if |d.commands| == |c.commands| {
      var k :| 0 <= k < |c.commands| && StopWaits(c.commands[k]);
      assert StopWaits(d.commands[k]);
    } else {
      assert StopWaits(d.commands[|c.commands|]);
    }
  }

  // ---------------------------------------------------------------- the per-client reconciler

  /** When this row's viewer was last there. */
  predicate EndedAt(v: Viewer, at: Time) {
    v.endedAt == Some(at) || (v.endedAt.None? && at == v.lastSeen + LEASE)
  }

  /** `at` is the latest end of any viewer or activity, or the generation's creation if there never was one. */
  ghost predicate AbsentFrom(c: Client, env: Env, g: nat, at: Time)
    requires g < |c.generations|
  {
    && (forall i, t :: 0 <= i < |c.viewers| && EndedAt(c.viewers[i], t) ==> t <= at)
    && (env.activityEndedAt.Some? ==> env.activityEndedAt.value <= at)
    && ((exists i :: 0 <= i < |c.viewers| && EndedAt(c.viewers[i], at))
        || env.activityEndedAt == Some(at)
        || (c.viewers == [] && env.activityEndedAt.None? && at == c.generations[g].createdAt))
  }

  lemma {:induction false} LastEndedIsLatest(vs: seq<Viewer>)
    ensures LastEnded(vs).None? <==> forall i :: 0 <= i < |vs| ==> vs[i].endedAt.None?
    ensures LastEnded(vs).Some? ==>
      && (exists i :: 0 <= i < |vs| && vs[i].endedAt == LastEnded(vs))
      && forall i :: 0 <= i < |vs| && vs[i].endedAt.Some? ==> vs[i].endedAt.value <= LastEnded(vs).value
  {
    if vs != [] {
      LastEndedIsLatest(vs[1..]);
      assert forall i :: 0 < i < |vs| ==> vs[i] == vs[1..][i - 1];
      if LastEnded(vs).Some? && vs[0].endedAt != LastEnded(vs) {
        var i :| 0 <= i < |vs[1..]| && vs[1..][i].endedAt == LastEnded(vs[1..]);
        assert vs[i + 1].endedAt == LastEnded(vs);
      }
    }
  }

  lemma AbsentFromIsAbsentSince(c: Client, env: Env, g: nat, at: Time)
    requires g < |c.generations| && !ViewerHere(c, env) && AbsentFrom(c, env, g, at)
    ensures AbsentSince(ExpireStale(c, env), g, env) == at
  {
    var rows := ExpireStale(c, env).viewers;
    LastEndedIsLatest(rows);
    forall i | 0 <= i < |rows| ensures rows[i].endedAt.Some? && EndedAt(c.viewers[i], rows[i].endedAt.value) {
      assert !Here(c.viewers[i], env);
    }
    if i :| 0 <= i < |rows| && EndedAt(c.viewers[i], at) { assert rows[i].endedAt == Some(at); }
  }

  /** With somebody there and nothing active, the reconciler starts a stream unless latched; a block refuses it. */
  lemma ReconcileStarts(c: Client, env: Env)
    requires SomebodyHere(c, env) && NoneActive(c.generations)
    ensures var r := Transact(c, env, ReconcileEvent);
      if c.stopReason.ExplicitStop? then r.Done? && r.notices == 0 && OnlyLapsed(c, r.client, env)
      else if c.blocked then r == Refused(0)
      else r.Done? && r.notices == 1 && Launched(c, r.client, Start, env.now)
           && RowsLapsed(c.viewers, r.client.viewers, env)
  {
    HereIffOpen(c, env);
    ActiveIsCurrent(c.generations);
    NewGenerationLaunches(ExpireStale(c, env), Start, env.now);
  }

  /** With somebody there and a generation active, or with nobody and nothing live, only viewer rows expire. */
  lemma ReconcileWaits(c: Client, env: Env)
    requires OneActive(c.generations)
    requires if SomebodyHere(c, env) then !NoneActive(c.generations) else NothingLive(c.generations)
    ensures var r := Transact(c, env, ReconcileEvent);
      r.Done? && r.notices == 0 && OnlyLapsed(c, r.client, env)
  {
    HereIffOpen(c, env);
    ActiveIsCurrent(c.generations);
  }

  /** With nobody there, a live stream is stopped from the end of the grace on. */
  lemma ReconcileStops(c: Client, env: Env, g: nat, at: Time)
    requires OneActive(c.generations) && !SomebodyHere(c, env)
    requires g < |c.generations| && IsLive(c.generations[g]) && AbsentFrom(c, env, g, at) && env.now >= at + GRACE
    ensures var r := Transact(c, env, ReconcileEvent);
      && r.Done? && g < |r.client.generations|
      && r.client.generations[g].state.Stopping? && RowsLapsed(c.viewers, r.client.viewers, env)
      && (exists k :: 0 <= k < |r.client.commands| && StopWaits(r.client.commands[k]))
      && Halted(c, r.client,
                if c.stopReason.ExplicitStop? then c.stopReason
                else ImplicitStop("client_activity_grace_expired"), env.now)
  {
    var r := Transact(c, env, ReconcileEvent);
    ExpiryLapses(c, env);
    ReconcileGone(c, env, g, at);
    StopLaw(ExpireStale(c, env), false, "client_activity_grace_expired", env.now);
    HaltedAlike(c, ExpireStale(c, env), r.client, env.now, g);
    hide RequestStop, Reconcile;
  }

  /** And not before. */
  lemma ReconcileWaitsOutGrace(c: Client, env: Env, g: nat, at: Time)
    requires OneActive(c.generations) && !SomebodyHere(c, env)
    requires g < |c.generations| && IsLive(c.generations[g]) && AbsentFrom(c, env, g, at) && env.now < at + GRACE
    ensures var r := Transact(c, env, ReconcileEvent);
      r.Done? && r.notices == 0 && OnlyLapsed(c, r.client, env)
  {
    ExpiryLapses(c, env);
    ReconcileGone(c, env, g, at);
  }

  lemma HaltedAlike(c: Client, counted: Client, d: Client, now: Time, g: nat)
    requires counted == c.(viewers := counted.viewers) && Halted(counted, d, d.stopReason, now)
    requires g < |c.generations| && IsLive(c.generations[g])
    ensures Halted(c, d, d.stopReason, now) && d.generations[g].state.Stopping?
  {
  }

  lemma ReconcileGone(c: Client, env: Env, g: nat, at: Time)
    requires OneActive(c.generations) && !SomebodyHere(c, env)
    requires g < |c.generations| && IsLive(c.generations[g]) && AbsentFrom(c, env, g, at)
    ensures var counted := ExpireStale(c, env);
      Reconcile(c, env) == if env.now >= at + GRACE
                           then RequestStop(counted, false, "client_activity_grace_expired", env.now)
                           else Done(counted, 0)
  {
    HereIffOpen(c, env);
    OnlyCurrentActive(c.generations);
    AbsentFromIsAbsentSince(c, env, g, at);
    hide RequestStop, LastEnded, AbsentSince;
  }

  /** Nobody is absent for no time at all: there always is such an instant. */
  lemma SomeAbsence(c: Client, env: Env, g: nat) returns (at: Time)
    requires g < |c.generations| && !ViewerHere(c, env)
    ensures AbsentFrom(c, env, g, at)
  {
    var rows := ExpireStale(c, env).viewers;
    LastEndedIsLatest(rows);
    at := AbsentSince(ExpireStale(c, env), g, env);
    forall i | 0 <= i < |rows| ensures rows[i].endedAt.Some? && EndedAt(c.viewers[i], rows[i].endedAt.value) {
      assert !Here(c.viewers[i], env);
    }
    if i :| 0 <= i < |rows| && rows[i].endedAt == Some(at) { assert EndedAt(c.viewers[i], at); }
    if rows != [] { assert rows[0].endedAt.Some?; }
  }

  // ---------------------------------------------------------------- the watchdog

  /** Somebody is there, or a viewer without a row is live in memory. */
  predicate Attended(c: Client, env: Env) { SomebodyHere(c, env) || env.live != {} }

  /** The instant the media was last known good: the last upload, else the start, else the creation. */
  predicate MediaSince(g: Generation, at: Time) {
    || g.lastUploadAt == Some(at)
    || (g.lastUploadAt.None? && g.startedAt == Some(at))
    || (g.lastUploadAt.None? && g.startedAt.None? && g.createdAt == at)
  }

  /** The watchdog's resets of the last ten minutes. */
  function ResetIds(gens: seq<Generation>, now: Time): set<nat> {
    set i: nat | i < |gens| && gens[i].action.Reset? && gens[i].createdAt >= now - 600 * SECOND
  }

  lemma {:induction false} RecentResetsCounts(gens: seq<Generation>, now: Time)
    ensures RecentResets(gens, now) == |ResetIds(gens, now)|
  {
    if gens != [] {
      var n := |gens| - 1;
      RecentResetsCounts(gens[..n], now);
      assert ResetIds(gens, now) == ResetIds(gens[..n], now) + (if RecentReset(gens[n], now) then {n} else {});
    }
  }

  /** The stream has failed, and a stop without a target tells the agent. */
  predicate GivenUp(c: Client, d: Client, g: nat, now: Time)
    requires g < |c.generations|
  {
    && d == c.(generations := d.generations, commands := d.commands, viewers := d.viewers)
    && d.generations == c.generations[g := c.generations[g].(state := Failed)]
    && d.commands == c.commands + [Command(Halt, None, Queued, 0, now, None, None, now)]
  }

  /**
   What a status report does to a live stream: nothing while nobody attends, the media is fresh or a start-type command
   is waiting; otherwise the third reset in ten minutes was the last, and before that a client that is not blocked is
   reset.
   */
  lemma WatchdogLaw(c: Client, env: Env, report: AgentReport, g: nat, at: Time)
    requires Inv(c) && g < |c.generations| && IsLive(c.generations[g]) && MediaSince(c.generations[g], at)
    ensures var r := Transact(c, env, StatusEvent(report));
      if !Attended(c, env) || env.now - at <= STALE
         || (exists k :: 0 <= k < |c.commands| && LaunchWaits(c.commands[k]))
      then r.Done? && r.notices == 0 && OnlyLapsed(c, r.client, env)
      else if |ResetIds(c.generations, env.now)| >= 3 then
        r.Done? && r.notices == 1 && GivenUp(c, r.client, g, env.now) && RowsLapsed(c.viewers, r.client.viewers, env)
      else if c.blocked then r == Refused(0)
      else r.Done? && r.notices == 1 && Launched(c, r.client, Reset, env.now)
           && RowsLapsed(c.viewers, r.client.viewers, env)
  {
    ReportIsWatchdog(c, env, report, g);
    OnlyCurrentActive(c.generations);
    HereIffOpen(c, env);
    ExpiryLapses(c, env);
    RecentResetsCounts(c.generations, env.now);
    NewGenerationLaunches(ExpireStale(c, env), Reset, env.now);
    LaunchWaitsIff(c.commands);
    assert MediaReference(c.generations[g]) == at;
    hide RecentResets, ResetIds, NewGeneration, Launched, AgentStatus, Inv, RowsLapsed, LaunchWaits, HasOpenLaunch;
  }

  lemma ReportIsWatchdog(c: Client, env: Env, report: AgentReport, g: nat)
    requires Inv(c) && g < |c.generations| && IsLive(c.generations[g])
    ensures Transact(c, env, StatusEvent(report)) == Watchdog(c, env)
  {
    OnlyCurrentActive(c.generations);
    StatusSplits(c, report, env);
  }

  lemma LaunchWaitsIff(cmds: seq<Command>)
    ensures HasOpenLaunch(cmds) <==> exists k :: 0 <= k < |cmds| && LaunchWaits(cmds[k])
  {
    if HasOpenLaunch(cmds) {
      var k :| 0 <= k < |cmds| && OpenLaunch(cmds[k]);
      assert LaunchWaits(cmds[k]);
    }
    if k :| 0 <= k < |cmds| && LaunchWaits(cmds[k]) { assert OpenLaunch(cmds[k]); }
  }

  // ---------------------------------------------------------------- a stop settled by the agent's report

  /** The agent proves that generation `g` produces and uploads nothing, and no stop of it is being carried out. */
  predicate StopProved(c: Client, g: nat, r: AgentReport) {
    && r.wellFormed
    && (r.producerGeneration == None || r.producerGeneration == Some(g))
    && (r.uploaderGeneration == None || r.uploaderGeneration == Some(g)
        || (r.uploaderGeneration.value < |c.generations| && !IsActive(c.generations[r.uploaderGeneration.value])))
    && r.producerStopped && r.producerPid == None && r.uploaderIdle
    && forall k :: 0 <= k < |c.commands| ==>
         !(c.commands[k].kind.Halt? && c.commands[k].state.Leased? && c.commands[k].target == Some(g))
  }

  /** Generation `g` has ended in this state and its waiting stops are cancelled. */
  predicate StopSettled(c: Client, d: Client, g: nat)
    requires g < |c.generations|
  {
    && d == c.(generations := d.generations, commands := d.commands, viewers := d.viewers)
    && d.generations == c.generations[g := c.generations[g].(state := Stopped)]
    && |d.commands| == |c.commands|
    && forall k :: 0 <= k < |c.commands| ==>
         d.commands[k] == if c.commands[k].kind.Halt? && c.commands[k].state.Queued? && c.commands[k].target == Some(g)
                          then c.commands[k].(state := Cancelled) else c.commands[k]
  }

  /** A report settles a stop exactly by that proof, and starts again at once for whoever is there unless latched. */
  lemma SettleLaw(c: Client, env: Env, report: AgentReport, g: nat)
    requires Inv(c) && g < |c.generations| && c.generations[g].state.Stopping?
    ensures var r := Transact(c, env, StatusEvent(report));
      if !StopProved(c, g, report) then r.Done? && r.notices == 0 && OnlyLapsed(c, r.client, env)
      else if c.stopReason.ExplicitStop? || !Attended(c, env) then
        r.Done? && r.notices == 1 && StopSettled(c, r.client, g) && RowsLapsed(c.viewers, r.client.viewers, env)
      else if c.blocked then r.Refused?
      else
        && r.Done? && r.notices == 2 && RowsLapsed(c.viewers, r.client.viewers, env)
        && exists mid :: StopSettled(c, mid, g) && Launched(mid, r.client, Start, env.now)
  {
    var r := Transact(c, env, StatusEvent(report));
    OnlyCurrentActive(c.generations);
    assert Current(c.generations) == Some(g);
    StatusSplits(c, report, env);
    ExpiryLapses(c, env);
    ProvedIff(c, g, report);
    if !StopProved(c, g, report) {
      assert Watchdog(c, env) == Done(ExpireStale(c, env), 0);
    } else {
      var stopped := c.(commands := CancelHalts(c.commands, g), generations := SetState(c.generations, g, Stopped));
      SettledStart(c, env, report, g, stopped);
      ExpiryLapses(stopped, env);
      var counted := ExpireStale(stopped, env);
      NewGenerationLaunches(counted, Start, env.now);
      assert RowsLapsed(c.viewers, counted.viewers, env);
    }
  }

  lemma SettledStart(c: Client, env: Env, report: AgentReport, g: nat, stopped: Client)
    requires Inv(c) && g < |c.generations| && c.generations[g].state.Stopping? && StopProved(c, g, report)
    requires stopped == c.(commands := CancelHalts(c.commands, g), generations := SetState(c.generations, g, Stopped))
    ensures StopSettled(c, ExpireStale(stopped, env), g) && NoneActive(stopped.generations)
    ensures var counted := ExpireStale(stopped, env);
      ReconcileStopping(c, report, env) ==
        if c.stopReason.ExplicitStop? || !Attended(c, env) then Done(counted, 1)
        else After(NewGeneration(counted, Start, true, env.now), 1)
  {
    OnlyCurrentActive(c.generations);
    ProvedIff(c, g, report);
    HereIffOpen(stopped, env);
    HereIffOpen(c, env);
    NewGenerationLaunches(ExpireStale(stopped, env), Start, env.now);
    hide Launched, NewGeneration, Quiesced, HasLeasedHalt, StopProved;
  }

  lemma ProvedIff(c: Client, g: nat, report: AgentReport)
    ensures StopProved(c, g, report) <==> Quiesced(c.generations, g, report) && !HasLeasedHalt(c.commands, g)
  {
    if HasLeasedHalt(c.commands, g) {
      var k :| 0 <= k < |c.commands| && LeasedHalt(c.commands[k], g);
      assert c.commands[k].kind.Halt? && c.commands[k].state.Leased? && c.commands[k].target == Some(g);
    }
    if k :| 0 <= k < |c.commands| && c.commands[k].kind.Halt? && c.commands[k].state.Leased?
            && c.commands[k].target == Some(g) {
      assert LeasedHalt(c.commands[k], g);
    }
  }

  // ---------------------------------------------------------------- viewers come and go

  predicate DistinctIds(vs: seq<Viewer>) {
    forall i, j :: 0 <= i < j < |vs| ==> vs[i].id != vs[j].id
  }

  /** The viewer has an open row: new, as it was, or opened again and seen now. */
  predicate Arrived(before: seq<Viewer>, after: seq<Viewer>, id: ViewerId, principal: Principal, now: Time) {
    if exists i :: 0 <= i < |before| && before[i].id == id then
      && |after| == |before|
      && forall i :: 0 <= i < |before| ==>
           after[i] == if before[i].id == id && before[i].endedAt.Some?
                       then before[i].(lastSeen := now, endedAt := None) else before[i]
    else after == before + [Viewer(id, principal, now, None)]
  }

  /** A heartbeat is refused if blocked or for another's viewer id; it starts a stream unless latched or active. */
  lemma HeartbeatLaw(c: Client, env: Env, id: ViewerId, principal: Principal)
    requires DistinctIds(c.viewers) && OneActive(c.generations)
    ensures var r := Transact(c, env, HeartbeatEvent(id, principal));
      if c.blocked || (exists i :: 0 <= i < |c.viewers| && c.viewers[i].id == id && c.viewers[i].principal != principal)
      then r == Refused(0)
      else
        && r.Done? && Arrived(c.viewers, r.client.viewers, id, principal, env.now)
        && if NoneActive(c.generations) && !c.stopReason.ExplicitStop? then
             r.notices == 1 && Launched(c, r.client, Start, env.now)
           else r.notices == 0 && r.client == c.(viewers := r.client.viewers)
  {
    var i := FindViewer(c.viewers, id);
    assert forall j :: 0 <= j < |c.viewers| && c.viewers[j].id == id ==> j == i;
    ActiveIsCurrent(c.generations);
    var rows :=
      if i == |c.viewers| then c.viewers + [Viewer(id, principal, env.now, None)]
      else if c.viewers[i].Open() then c.viewers
      else c.viewers[i := c.viewers[i].(lastSeen := env.now, endedAt := None)];
    if i == |c.viewers| || c.viewers[i].principal == principal { ArrivedRows(c.viewers, i, id, principal, env.now); }
    NewGenerationLaunches(c.(viewers := rows), Start, env.now);
    hide Launched, NewGeneration, Arrived, DistinctIds;
  }

  lemma ArrivedRows(vs: seq<Viewer>, i: nat, id: ViewerId, principal: Principal, now: Time)
    requires DistinctIds(vs) && i <= |vs| && (i < |vs| ==> vs[i].id == id)
    requires i == |vs| ==> forall j :: 0 <= j < |vs| ==> vs[j].id != id
    ensures var rows :=
        if i == |vs| then vs + [Viewer(id, principal, now, None)]
        else if vs[i].Open() then vs
        else vs[i := vs[i].(lastSeen := now, endedAt := None)];
      Arrived(vs, rows, id, principal, now)
  {
  }

  /** The viewer's row ends now unless it had ended; other rows lapse as always. */
  predicate Left(before: seq<Viewer>, after: seq<Viewer>, id: ViewerId, principal: Principal, env: Env) {
    && |after| == |before|
    && forall i :: 0 <= i < |before| ==>
         after[i] == if before[i].id == id && before[i].endedAt.None? then before[i].(endedAt := Some(env.now))
                     else if before[i].endedAt.None? && !Here(before[i], env)
                     then before[i].(endedAt := Some(before[i].lastSeen + LEASE)) else before[i]
  }

  lemma LeaveLaw(c: Client, env: Env, id: ViewerId, principal: Principal)
    requires DistinctIds(c.viewers)
    ensures var r := Transact(c, env, LeaveEvent(id, principal));
      if exists i :: 0 <= i < |c.viewers| && c.viewers[i].id == id && c.viewers[i].principal != principal
      then r == Refused(0)
      else r.Done? && r.notices == 0 && r.client == c.(viewers := r.client.viewers)
           && Left(c.viewers, r.client.viewers, id, principal, env)
  {
    var i := FindViewer(c.viewers, id);
    assert forall j :: 0 <= j < |c.viewers| && c.viewers[j].id == id ==> j == i;
    if i == |c.viewers| {
      LapsedIsLeft(c.viewers, id, principal, env);
    } else if c.viewers[i].principal == principal {
      LeftRows(c.viewers, i, id, principal, env);
    }
    hide Expire, Left;
  }

  lemma LapsedIsLeft(vs: seq<Viewer>, id: ViewerId, principal: Principal, env: Env)
    requires forall i :: 0 <= i < |vs| ==> vs[i].id != id
    ensures Left(vs, Expire(vs, env.live, env.now), id, principal, env)
  {
  }

  lemma LeftRows(vs: seq<Viewer>, i: nat, id: ViewerId, principal: Principal, env: Env)
    requires DistinctIds(vs) && i < |vs| && vs[i].id == id && vs[i].principal == principal
    ensures var rows := if vs[i].endedAt.None? then vs[i := vs[i].(endedAt := Some(env.now))] else vs;
      Left(vs, Expire(rows, env.live - {(id, principal)}, env.now), id, principal, env)
  {
  }

  // ---------------------------------------------------------------- the agent's reports on a generation

  /** A stop report ends the generation, and starts again for a viewer who is there unless latched or still active. */
  lemma StoppedLaw(c: Client, env: Env, g: nat, failed: bool)
    ensures var r := Transact(c, env, StoppedEvent(g, failed));
      if g >= |c.generations| then r == Refused(0)
      else
        var gens := c.generations[g := c.generations[g].(state := if failed then Failed else Stopped)];
        if c.stopReason.ExplicitStop? then r == Done(c.(generations := gens), 1)
        else if NoneActive(gens) && (ViewerHere(c, env) || env.live != {}) then
          if c.blocked then r.Refused?
          else
            && r.Done? && r.notices == 2 && RowsLapsed(c.viewers, r.client.viewers, env)
            && Launched(c.(generations := gens), r.client, Start, env.now)
        else r.Done? && r.notices == 1 && r.client == c.(generations := gens, viewers := r.client.viewers)
             && RowsLapsed(c.viewers, r.client.viewers, env)
  {
    if g < |c.generations| {
      var stopped := c.(generations := SetState(c.generations, g, if failed then Failed else Stopped));
      HereIffOpen(stopped, env);
      assert ViewerHere(stopped, env) <==> ViewerHere(c, env);
      ExpiryLapses(stopped, env);
      CurrentIsNone(stopped.generations);
      if NoneActive(stopped.generations) { NewGenerationLaunches(ExpireStale(stopped, env), Start, env.now); }
      hide Launched, NewGeneration, RowsLapsed;
    }
  }

  lemma CurrentIsNone(gens: seq<Generation>)
    ensures Current(gens).None? <==> NoneActive(gens)
  {
  }

  /** Start and upload reports are accepted exactly from the live generation. */
  lemma StartedLaw(c: Client, env: Env, g: nat)
    requires OneActive(c.generations)
    ensures var r := Transact(c, env, StartedEvent(g));
      if g < |c.generations| && IsLive(c.generations[g]) then
        r == Done(c.(generations := c.generations[g := c.generations[g].(
                       state := Running,
                       startedAt := if c.generations[g].startedAt == None then Some(env.now)
                                    else c.generations[g].startedAt)],
                     stopReason := NoStop), 0)
      else r == Refused(0)
    ensures var r := Transact(c, env, UploadedEvent(g));
      if g < |c.generations| && IsLive(c.generations[g]) then
        r == Done(c.(generations := c.generations[g := c.generations[g].(lastUploadAt := Some(env.now))]), 0)
      else r == Refused(0)
  {
    OnlyCurrentActive(c.generations);
  }

  // ---------------------------------------------------------------- the command queue

  /** The lease ran out: the agent that claimed the command has not come back in time. */
  predicate RanOut(x: Command, now: Time) {
    x.state.Leased? && x.leaseUntil.Some? && x.leaseUntil.value < now
  }

  /** The command can be handed out now, by itself or because its lease ran out with attempts left. */
  predicate Ready(x: Command, now: Time) {
    || (x.state.Queued? && x.availableAt <= now)
    || (RanOut(x, now) && x.attempts < COMMAND_MAX_ATTEMPTS)
  }

  predicate Recovered(before: Command, after: Command, now: Time) {
    after == if !RanOut(before, now) then before
             else if before.attempts >= COMMAND_MAX_ATTEMPTS then before.(state := CommandFailed)
             else before.(state := Queued, availableAt := now, token := None, leaseUntil := None)
  }

  predicate OldestReady(cmds: seq<Command>, k: nat, now: Time) {
    && k < |cmds| && Ready(cmds[k], now)
    && forall j :: 0 <= j < k ==> !Ready(cmds[j], now)
  }

  /**
   A claim leases the oldest ready command for the time asked, under a token never used; every other lease that ran out
   goes back to the queue or, with no attempts left, fails.
   */
  lemma ClaimLaw(c: Client, env: Env, seconds: nat)
    ensures var r := Transact(c, env, ClaimEvent(seconds));
      && r.Done? && r.notices == 0 && |r.client.commands| == |c.commands|
      && (forall k: nat :: OldestReady(c.commands, k, env.now) ==>
            && r.client == c.(commands := r.client.commands, issued := c.issued + 1)
            && r.client.commands[k] == c.commands[k].(
                 state := Leased, attempts := c.commands[k].attempts + 1, token := Some(c.issued),
                 leaseUntil := Some(env.now + seconds * SECOND),
                 availableAt := if RanOut(c.commands[k], env.now) then env.now else c.commands[k].availableAt)
            && forall j :: 0 <= j < |c.commands| && j != k ==>
                 Recovered(c.commands[j], r.client.commands[j], env.now))
      && ((forall k :: 0 <= k < |c.commands| ==> !Ready(c.commands[k], env.now)) ==>
            && r.client == c.(commands := r.client.commands)
            && forall j :: 0 <= j < |c.commands| ==> Recovered(c.commands[j], r.client.commands[j], env.now))
  {
    var cmds := Recover(c.commands, env.now);
    assert forall j :: 0 <= j < |cmds| ==> (Claimable(cmds[j], env.now) <==> Ready(c.commands[j], env.now));
  }

  /** The request names the command's running lease. */
  predicate LeaseHeld(c: Client, k: nat, token: nat, now: Time) {
    && k < |c.commands| && c.commands[k].state.Leased? && c.commands[k].token == Some(token)
    && c.commands[k].leaseUntil.Some? && c.commands[k].leaseUntil.value >= now
  }

  lemma RenewLaw(c: Client, env: Env, k: nat, token: nat, seconds: nat)
    ensures Transact(c, env, RenewEvent(k, token, seconds)) ==
      if LeaseHeld(c, k, token, env.now)
      then Done(c.(commands := c.commands[k := c.commands[k].(leaseUntil := Some(env.now + seconds * SECOND))]), 0)
      else Refused(0)
    ensures Transact(c, env, CompleteEvent(k, token)) ==
      if LeaseHeld(c, k, token, env.now)
      then
        var done := c.commands[k].(state := Completed, token := None, leaseUntil := None);
        Done(c.(commands := c.commands[k := done]), 0)
      else Refused(0)
  {
  }

  function Power(n: nat): nat { if n == 0 then 1 else 2 * Power(n - 1) }

  lemma {:induction false} PowerGrows(n: nat)
    ensures n >= 6 ==> Power(n) >= 64
  {
    if n > 6 { PowerGrows(n - 1); }
  }

  lemma BackoffIsPower(n: nat)
    ensures Backoff(n) == if Power(n) < 60 then Power(n) else 60
  {
    PowerGrows(n);
  }

  /** The command still serves the active generation: it has no target, or targets that one and may still act on it. */
  predicate StillMeant(c: Client, x: Command) {
    x.target.Some? ==>
      && x.target.value < |c.generations| && IsActive(c.generations[x.target.value])
      && (c.generations[x.target.value].state.Stopping? ==> x.kind.Halt?)
  }

  /**
   A failed command waits twice as long each time, a minute at most, and is tried again as long as the agent asks for
   it, attempts are left and it is still meant; otherwise it has failed, and with it the live generation it was to start
   or stop.
   */
  lemma FailLaw(c: Client, env: Env, k: nat, token: nat, retryable: bool)
    requires OneActive(c.generations)
    ensures var r := Transact(c, env, FailEvent(k, token, retryable));
      if !LeaseHeld(c, k, token, env.now) then r == Refused(0)
      else
        var x := c.commands[k];
        var delay := if Power(x.attempts) < 60 then Power(x.attempts) else 60;
        if retryable && x.attempts < COMMAND_MAX_ATTEMPTS && StillMeant(c, x) then
          r == Done(c.(commands := c.commands[k := x.(
                         state := Queued, token := None, leaseUntil := None,
                         availableAt := env.now + delay * SECOND)]), 0)
        else
          r == Done(c.(commands := c.commands[k := x.(state := CommandFailed, token := None, leaseUntil := None)],
                       generations :=
                         if x.target.Some? && x.target.value < |c.generations| && IsLive(c.generations[x.target.value])
                         then c.generations[x.target.value := c.generations[x.target.value].(state := Failed)]
                         else c.generations), 0)
  {
    OnlyCurrentActive(c.generations);
    if LeaseHeld(c, k, token, env.now) { BackoffIsPower(c.commands[k].attempts); }
  }

  // ---------------------------------------------------------------- uploads keep the watchdog away

  /** No transaction but an upload report of its own touches a generation's last upload. */
  lemma UploadStays(c: Client, env: Env, e: Event, g: nat)
    requires Inv(c) && g < |c.generations|
    ensures var d := Step(c, env, e);
      && g < |d.generations|
      && (d.generations[g].lastUploadAt == c.generations[g].lastUploadAt
          || (e == UploadedEvent(g) && d.generations[g].lastUploadAt == Some(env.now)))
  {
    if e.StatusEvent? {
      ReportKeepsUpload(c, env, e.report, g);
    } else if e.StoppedEvent? || e.ReconcileEvent? {
      StopsKeepUpload(c, env, e, g);
    }
    hide AgentStatus, GenerationStopped, Reconcile, Inv;
  }

  lemma ReportKeepsUpload(c: Client, env: Env, report: AgentReport, g: nat)
    requires Inv(c) && g < |c.generations|
    ensures var d := Step(c, env, StatusEvent(report));
      g < |d.generations| && d.generations[g].lastUploadAt == c.generations[g].lastUploadAt
  {
    StatusSplits(c, report, env);
    hide AgentStatus, Inv;
  }

  lemma StopsKeepUpload(c: Client, env: Env, e: Event, g: nat)
    requires g < |c.generations| && (e.StoppedEvent? || e.ReconcileEvent?)
    ensures var d := Step(c, env, e);
      g < |d.generations| && d.generations[g].lastUploadAt == c.generations[g].lastUploadAt
  {
  }

  lemma {:induction false} UploadLasts(c: Client, moves: seq<Move>, g: nat, from: Time)
    requires Inv(c) && g < |c.generations|
    requires c.generations[g].lastUploadAt.Some? && c.generations[g].lastUploadAt.value >= from
    requires forall i :: 0 <= i < |moves| ==> moves[i].env.now >= from
    ensures var d := Run(c, moves);
      && Inv(d) && g < |d.generations|
      && d.generations[g].lastUploadAt.Some? && d.generations[g].lastUploadAt.value >= from
  {
    if moves != [] {
      var n := |moves| - 1;
      UploadLasts(c, moves[..n], g, from);
      StepKeeps(Run(c, moves[..n]), moves[n].env, moves[n].event);
      UploadStays(Run(c, moves[..n]), moves[n].env, moves[n].event, g);
    }
  }

  /**
   After an accepted upload, whatever else happens from then on, no status report within the stale time resets or fails
   that generation while it is live.
   */
  lemma UploadHoldsWatchdogOff(c: Client, env: Env, g: nat, moves: seq<Move>, report: AgentReport, later: Env)
    requires Inv(c) && Transact(c, env, UploadedEvent(g)).Done?
    requires forall i :: 0 <= i < |moves| ==> moves[i].env.now >= env.now
    requires env.now <= later.now <= env.now + STALE
    ensures var d := Run(Step(c, env, UploadedEvent(g)), moves);
      && g < |d.generations|
      && (IsLive(d.generations[g]) ==>
            var r := Transact(d, later, StatusEvent(report)); r.Done? && OnlyLapsed(d, r.client, later))
  {
    var b := Step(c, env, UploadedEvent(g));
    StepKeeps(c, env, UploadedEvent(g));
    StartedLaw(c, env, g);
    UploadLasts(b, moves, g, env.now);
    var d := Run(b, moves);
    hide Inv, Transact, OnlyLapsed, Run;
    if IsLive(d.generations[g]) {
      WatchdogLaw(d, later, report, g, d.generations[g].lastUploadAt.value);
    }
  }
}
