/**
 The imperative control plane: row loops, route handlers that commit or roll
 back, and the sweep with its shortcuts, each proved against the specification
 of the modules before it.
 */
module LivestreamService {
  import opened Options
  import opened LivestreamClient
  import opened LivestreamSafety
  import opened LivestreamWorld
  import opened LivestreamSweep
  import opened IdOrder

  // ---------------------------------------------------------------- row loops

  method CancelQueuedGenerationCommands(cmds: seq<Command>) returns (rows: seq<Command>)
    ensures rows == CancelLaunches(cmds)
  {
    rows := cmds;
    for i := 0 to |cmds|
      invariant |rows| == |cmds|
      invariant forall j :: 0 <= j < i ==> rows[j] == CancelLaunch(cmds[j])
      invariant forall j :: i <= j < |cmds| ==> rows[j] == cmds[j]
    {
      if rows[i].kind.Launch? && rows[i].state.Queued? {
        rows := rows[i := rows[i].(state := Cancelled)];
      }
    }
  }

  method CancelQueuedStops(cmds: seq<Command>, g: nat) returns (rows: seq<Command>)
    ensures rows == CancelHalts(cmds, g)
  {
    rows := cmds;
    for i := 0 to |cmds|
      invariant |rows| == |cmds|
      invariant forall j :: 0 <= j < i ==> rows[j] == CancelHalt(cmds[j], g)
      invariant forall j :: i <= j < |cmds| ==> rows[j] == cmds[j]
    {
      if rows[i].kind.Halt? && rows[i].state.Queued? && rows[i].target == Some(g) {
        rows := rows[i := rows[i].(state := Cancelled)];
      }
    }
  }

  method RecoverExpiredLeases(cmds: seq<Command>, now: Time) returns (rows: seq<Command>)
    ensures rows == Recover(cmds, now)
  {
    rows := cmds;
    for i := 0 to |cmds|
      invariant |rows| == |cmds|
      invariant forall j :: 0 <= j < i ==> rows[j] == RecoverOne(cmds[j], now)
      invariant forall j :: i <= j < |cmds| ==> rows[j] == cmds[j]
    {
      var row := rows[i];
      if row.state.Leased? && row.leaseUntil.Some? && row.leaseUntil.value < now {
        if row.attempts >= COMMAND_MAX_ATTEMPTS {
          row := row.(state := CommandFailed);
        } else {
          row := row.(state := Queued, availableAt := now, token := None, leaseUntil := None);
        }
        rows := rows[i := row];
      }
    }
  }

  method ExpireStaleViewers(vs: seq<Viewer>, live: set<ViewerKey>, now: Time) returns (rows: seq<Viewer>)
    ensures rows == Expire(vs, live, now)
  {
    var cutoff := now - VIEWER_LEASE_SECONDS * SECOND;
    rows := vs;
    for i := 0 to |vs|
      invariant |rows| == |vs|
      invariant forall j :: 0 <= j < i ==> rows[j] == ExpireOne(vs[j], live, now)
      invariant forall j :: i <= j < |vs| ==> rows[j] == vs[j]
    {
      var row := rows[i];
      if row.endedAt.None? && row.lastSeen < cutoff && (row.id, row.principal) !in live {
        rows := rows[i := row.(endedAt := Some(row.lastSeen + VIEWER_LEASE_SECONDS * SECOND))];
      }
    }
  }

  method LatestEnd(vs: seq<Viewer>) returns (at: Option<Time>)
    ensures at == LastEnded(vs)
  {
    at := None;
    var i := |vs|;
    while i > 0
      invariant 0 <= i <= |vs|
      invariant at == LastEnded(vs[i..])
    {
      i := i - 1;
      assert vs[i..][1..] == vs[i + 1..];
      if vs[i].endedAt.Some? && (at.None? || vs[i].endedAt.value >= at.value) {
        at := vs[i].endedAt;
      }
    }
    assert vs[0..] == vs;
  }

  // ---------------------------------------------------------------- starting and stopping

  method InsertGeneration(c: Client, action: Action, supersede: bool, now: Time) returns (reply: Reply)
    ensures reply == NewGeneration(c, action, supersede, now)
    ensures reply.Done? <==> !c.blocked
    ensures reply.Done? ==>
      Current(reply.client.generations) == Some(|c.generations|) && HasOpenLaunch(reply.client.commands)
  {
    if c.blocked { return Refused(0); }
    var row := c;
    var cmds := CancelQueuedGenerationCommands(row.commands);
    row := row.(commands := cmds);
    var existing := Current(row.generations);
    if existing.Some? && supersede {
      row := row.(generations := SetState(row.generations, existing.value, Superseded));
    }
    var id := |row.generations|;
    row := row.(generations := row.generations + [Generation(Starting, action, now, None, None)]);
    row := Enqueue(row, Launch(action), Some(id), now);
    row := row.(stopReason := NoStop);
    assert OpenLaunch(row.commands[|row.commands| - 1]);
    reply := Done(row, 1);
  }

  method StartStream(c: Client, now: Time) returns (reply: Reply)
    ensures reply == RequestStart(c, now)
    ensures reply.Done? ==>
      var g := Current(reply.client.generations); g.Some? && reply.client.generations[g.value].state.Live()
  {
    if c.blocked { return Refused(0); }
    var existing := Current(c.generations);
    if existing.Some? {
      if c.generations[existing.value].state.Live() { return Done(c, 0); }
      return Refused(0);
    }
    reply := InsertGeneration(c, Start, false, now);
  }

  method StopStream(c: Client, explicit: bool, source: string, now: Time) returns (reply: Reply)
    ensures reply == RequestStop(c, explicit, source, now)
    ensures reply.Done? && HasOpenHalt(reply.client.commands)
    ensures reply.client.Latched() <==> explicit || c.Latched()
  {
    var row := c;
    var cmds := CancelQueuedGenerationCommands(row.commands);
    row := row.(commands := cmds);
    var g := Current(row.generations);
    if g.Some? { row := row.(generations := SetState(row.generations, g.value, Stopping)); }
    if explicit {
      row := row.(stopReason := ExplicitStop(source));
    } else if !row.Latched() {
      row := row.(stopReason := ImplicitStop(source));
    }
    if HasOpenHalt(row.commands) {
      reply := Done(row, 0);
    } else {
      reply := Done(Enqueue(row, Halt, g, now), 1);
      assert OpenHalt(reply.client.commands[|row.commands|]);
    }
  }

  // ---------------------------------------------------------------- transactions on one client's rows

  method BeatViewer(c: Client, id: ViewerId, principal: Principal, now: Time) returns (reply: Reply)
    ensures reply == Heartbeat(c, id, principal, now)
    ensures reply.Done? ==> OpenRow(reply.client.viewers, (id, principal))
  {
    if c.blocked { return Refused(0); }
    var row := c;
    var i := FindViewer(row.viewers, id);
    if i == |row.viewers| {
      row := row.(viewers := row.viewers + [Viewer(id, principal, now, None)]);
    } else {
      var viewer := row.viewers[i];
      if viewer.principal != principal { return Refused(0); }
      if viewer.endedAt.Some? {
        row := row.(viewers := row.viewers[i := viewer.(lastSeen := now, endedAt := None)]);
      }
    }
    assert row.viewers[i].Open() && (row.viewers[i].id, row.viewers[i].principal) == (id, principal);
    var generation := Current(row.generations);
    if generation.None? && !row.Latched() {
      reply := StartStream(row, now);
    } else {
      reply := Done(row, 0);
    }
  }

  method EndViewer(c: Client, id: ViewerId, principal: Principal, env: Env) returns (reply: Reply)
    ensures reply == Leave(c, id, principal, env)
    ensures reply.Done? && DistinctViewers(c.viewers) ==> !OpenRow(reply.client.viewers, (id, principal))
  {
    var row, live := c, env.live;
    var i := FindViewer(row.viewers, id);
    if i < |row.viewers| {
      var viewer := row.viewers[i];
      if viewer.principal != principal { return Refused(0); }
      live := live - {(id, principal)};
      if viewer.endedAt.None? {
        row := row.(viewers := row.viewers[i := viewer.(endedAt := Some(env.now))]);
      }
    }
    var rows := ExpireStaleViewers(row.viewers, live, env.now);
    reply := Done(row.(viewers := rows), 0);
  }

  method LeaseCommand(c: Client, leaseSeconds: nat, now: Time) returns (reply: Reply, claimed: Option<(nat, nat)>)
    ensures reply == Claim(c, leaseSeconds, now)
    ensures claimed.Some? ==> Holds(reply.client, claimed.value.0, claimed.value.1, now)
    ensures reply.client.issued == (if claimed.Some? then c.issued + 1 else c.issued)
    ensures claimed.Some? ==> claimed.value.1 == c.issued
  {
    var row := c;
    var cmds := RecoverExpiredLeases(row.commands, now);
    row := row.(commands := cmds);
    var k := FirstClaimable(row.commands, now, 0);
    if k == |row.commands| { return Done(row, 0), None; }
    var token := row.issued;
    var command := row.commands[k];
    command := command.(state := Leased, attempts := command.attempts + 1, token := Some(token),
                        leaseUntil := Some(now + leaseSeconds * SECOND));
    row := row.(commands := row.commands[k := command], issued := token + 1);
    return Done(row, 0), Some((k, token));
  }

  method FailCommand(c: Client, k: nat, token: nat, retryable: bool, now: Time) returns (reply: Reply)
    ensures reply == Fail(c, k, token, retryable, now)
    ensures reply.Done? ==> forall t :: !Holds(reply.client, k, t, now)
  {
    if !Holds(c, k, token, now) { return Refused(0); }
    var row := c;
    var command := row.commands[k].(token := None, leaseUntil := None);
    var stale := StaleTarget(row, command);
    if retryable && !stale && command.attempts < COMMAND_MAX_ATTEMPTS {
      command := command.(state := Queued, availableAt := now + Backoff(command.attempts) * SECOND);
    } else {
      command := command.(state := CommandFailed);
      if command.target.Some? && command.target.value < |row.generations|
         && row.generations[command.target.value].state.Live()
      {
        row := row.(generations := SetState(row.generations, command.target.value, Failed));
      }
    }
    reply := Done(row.(commands := row.commands[k := command]), 0);
  }

  method RecordStop(c: Client, g: nat, failed: bool, env: Env) returns (reply: Reply)
    ensures reply == GenerationStopped(c, g, failed, env)
    ensures reply.Done? ==> g < |reply.client.generations| && !reply.client.generations[g].state.Active()
  {
    if g >= |c.generations| { return Refused(0); }
    var row := c.(generations := SetState(c.generations, g, if failed then Failed else Stopped));
    if row.Latched() { return Done(row, 1); }
    var rows := ExpireStaleViewers(row.viewers, env.live, env.now);
    row := row.(viewers := rows);
    if Watched(row.viewers, env.live) && Current(row.generations).None? {
      reply := StartStream(row, env.now);
      reply := After(reply, 1);
    } else {
      reply := Done(row, 1);
    }
  }

  method SettleStop(c: Client, report: AgentReport, env: Env) returns (reply: Reply)
    ensures reply == ReconcileStopping(c, report, env)
    ensures reply.Done? && reply != Done(c, 0) ==>
      var g := Current(c.generations); g.Some? && reply.client.generations[g.value].state.Stopped?
  {
    var g := Current(c.generations);
    if g.None? || !c.generations[g.value].state.Stopping? { return Done(c, 0); }
    if !Quiesced(c.generations, g.value, report) { return Done(c, 0); }
    if HasLeasedHalt(c.commands, g.value) { return Done(c, 0); }
    var row := c;
    var cmds := CancelQueuedStops(row.commands, g.value);
    row := row.(commands := cmds);
    row := row.(generations := SetState(row.generations, g.value, Stopped));
    var rows := ExpireStaleViewers(row.viewers, env.live, env.now);
    row := row.(viewers := rows);
    if !row.Latched() && (Watched(row.viewers, env.live) || env.activity) && Current(row.generations).None? {
      reply := StartStream(row, env.now);
      reply := After(reply, 1);
    } else {
      reply := Done(row, 1);
    }
  }

  method CountRecentResets(gens: seq<Generation>, now: Time) returns (n: nat)
    ensures n == RecentResets(gens, now)
  {
    n := 0;
    for i := 0 to |gens|
      invariant n == RecentResets(gens[..i], now)
    {
      assert gens[..i + 1][..i] == gens[..i];
      if RecentReset(gens[i], now) { n := n + 1; }
    }
    assert gens[..|gens|] == gens;
  }

  method RecoverStaleMedia(c: Client, env: Env) returns (reply: Reply)
    ensures reply == Watchdog(c, env)
  {
    var row := c;
    var rows := ExpireStaleViewers(row.viewers, env.live, env.now);
    row := row.(viewers := rows);
    if !Watched(row.viewers, env.live) && !env.activity { return Done(row, 0); }
    var g := Current(row.generations);
    if g.None? || !Stalled(row, g.value, env.now) { return Done(row, 0); }
    var recent := CountRecentResets(row.generations, env.now);
    if recent >= RESETS_PER_WINDOW {
      row := row.(generations := SetState(row.generations, g.value, Failed));
      return Done(Enqueue(row, Halt, None, env.now), 1);
    }
    reply := InsertGeneration(row, Reset, true, env.now);
  }

  method TakeStatus(c: Client, report: AgentReport, env: Env) returns (reply: Reply)
    ensures reply == AgentStatus(c, report, env)
  {
    reply := SettleStop(c, report, env);
    if reply.Done? {
      var notices := reply.notices;
      reply := RecoverStaleMedia(reply.client, env);
      reply := After(reply, notices);
    }
  }

  method ReconcileViewerLifecycle(c: Client, env: Env) returns (reply: Reply, action: Option<SweepAction>)
    ensures reply == Reconcile(c, env)
    ensures action == ReconcileChoice(ExpireStale(c, env), env)
    ensures action == Some(StopAction) ==> reply.Done? && HasOpenHalt(reply.client.commands)
  {
    var row := c;
    var rows := ExpireStaleViewers(row.viewers, env.live, env.now);
    row := row.(viewers := rows);
    var g := Current(row.generations);
    if AnyOpen(row.viewers) || env.activity {
      if g.None? {
        if row.Latched() { return Done(row, 0), None; }
        reply := StartStream(row, env.now);
        return reply, Some(StartAction);
      }
      return Done(row, 0), None;
    }
    if g.None? || row.generations[g.value].state.Stopping? { return Done(row, 0), None; }
    var ended := LatestEnd(row.viewers);
    var absent := Later(ended, env.activityEndedAt);
    var since := if absent.Some? then absent.value else row.generations[g.value].createdAt;
    if env.now - since < VIEWER_STOP_GRACE_SECONDS * SECOND { return Done(row, 0), None; }
    reply := StopStream(row, false, "client_activity_grace_expired", env.now);
    return reply, Some(StopAction);
  }

  // ---------------------------------------------------------------- sorting the candidates

  method SortIds(s: set<int>) returns (ids: seq<int>)
    ensures Sorts(ids, s)
  {
    ids := [];
    var rest := s;
    while rest != {}
      invariant rest <= s
      invariant Sorts(ids, s - rest)
      decreases rest
    {
      Inhabited(rest);
      var x :| x in rest;
      InsertSorts(x, ids, s - rest);
      ids := Insert(x, ids);
      assert s - rest + {x} == s - (rest - {x});
      rest := rest - {x};
    }
    assert s - rest == s;
  }

  // ---------------------------------------------------------------- the process

  class Service {
    var now: Time
    var clients: map<ClientId, Client>
    var presence: map<PresenceKey, Time>
    var activity: set<ActivityKey>
    var lastEnded: map<ClientId, Time>
    var auditEnded: map<ClientId, Time>
    var revision: nat

    function State(): World
      reads this
    {
      World(now, clients, presence, activity, lastEnded, auditEnded, revision)
    }

    constructor ()
      ensures State() == START
    {
      now, clients, presence, activity, lastEnded, auditEnded, revision := 0, map[], map[], {}, map[], map[], 0;
    }

    /** `livestream_presence.touch`: only a new key wakes the sweeper. */
    method Touch(key: PresenceKey)
      modifies this`presence, this`revision
      ensures presence == old(presence)[key := now]
      ensures revision == old(revision) + (if key in old(presence) then 0 else 1)
    {
      var added := key !in presence;
      presence := presence[key := now];
      if added { revision := revision + 1; }
    }

    /** `livestream_presence.leave`. */
    method Drop(key: PresenceKey)
      modifies this`presence, this`revision
      ensures presence == old(presence) - {key}
      ensures revision == old(revision) + (if key in old(presence) then 1 else 0)
    {
      var removed := key in presence;
      presence := presence - {key};
      if removed { revision := revision + 1; }
    }

    /** `livestream_presence.active_keys`: one pass that collects this client's live keys and pops stale ones. */
    method ActiveKeys(id: ClientId) returns (keys: set<ViewerKey>)
      modifies this`presence
      ensures keys == LiveKeys(old(presence), id, now)
      ensures presence == Prune(old(presence), now)
    {
      var stale: set<PresenceKey> := {};
      keys := {};
      var rest := presence.Keys;
      while rest != {}
        invariant rest <= presence.Keys && presence == old(presence)
        invariant keys == set k | k in presence.Keys - rest && k.0 == id && Fresh(presence[k], now) :: (k.1, k.2)
        invariant stale == set k | k in presence.Keys - rest && !Fresh(presence[k], now)
        decreases rest
      {
        var k :| k in rest;
        rest := rest - {k};
        if presence[k] < now - VIEWER_LEASE_SECONDS * SECOND {
          stale := stale + {k};
        } else if k.0 == id {
          keys := keys + {(k.1, k.2)};
        }
      }
      presence := presence - stale;
    }

    /** Store the outcome: a refusal rolls the rows back but cannot unsend a wake-up. */
    method Commit(id: ClientId, reply: Reply)
      requires id in clients
      modifies this`clients, this`revision
      ensures clients == old(clients)[id := Committed(old(clients)[id], reply)]
      ensures revision == old(revision) + reply.notices
    {
      if reply.Done? { clients := clients[id := reply.client]; }
      revision := revision + reply.notices;
    }

    method ViewerHeartbeat(id: ClientId, viewer: ViewerId, principal: Principal) returns (ok: bool)
      modifies this
      ensures State() == Request(old(State()), id, HeartbeatEvent(viewer, principal))
      ensures ok <==> id in old(clients) && old(ReplyTo(State(), id, HeartbeatEvent(viewer, principal))).Done?
      ensures ok ==> OpenRow(clients[id].viewers, (viewer, principal)) && (id, viewer, principal) in presence
    {
      if id !in clients { return false; }
      var reply := BeatViewer(clients[id], viewer, principal, now);
      if reply.Done? { Touch((id, viewer, principal)); }
      Commit(id, reply);
      if reply.Done? { var keys := ActiveKeys(id); }
      return reply.Done?;
    }

    method ViewerLeave(id: ClientId, viewer: ViewerId, principal: Principal) returns (ok: bool)
      modifies this
      ensures State() == Request(old(State()), id, LeaveEvent(viewer, principal))
      ensures ok <==> id in old(clients) && old(ReplyTo(State(), id, LeaveEvent(viewer, principal))).Done?
    {
      if id !in clients { return false; }
      var found := FindViewer(clients[id].viewers, viewer) < |clients[id].viewers|;
      var reply := EndViewer(clients[id], viewer, principal, EnvOf(State(), id));
      if reply.Done? {
        if found { Drop((id, viewer, principal)); }
        var keys := ActiveKeys(id);
      }
      Commit(id, reply);
      return reply.Done?;
    }

    /** The browser's start, restart and stop commands. */
    method BrowserCommand(id: ClientId, command: Event) returns (ok: bool)
      requires command.StartEvent? || command.RestartEvent? || command.StopEvent?
      modifies this
      ensures State() == Request(old(State()), id, command)
      ensures ok <==> id in old(clients) && old(ReplyTo(State(), id, command)).Done?
    {
      if id !in clients { return false; }
      var reply: Reply;
      match command {
        case StartEvent => reply := StartStream(clients[id], now);
        case RestartEvent => reply := InsertGeneration(clients[id], Restart, true, now);
        case StopEvent(source) => reply := StopStream(clients[id], true, source, now);
      }
      Commit(id, reply);
      return reply.Done?;
    }

    method ClaimCommand(id: ClientId, leaseSeconds: nat) returns (claimed: Option<(nat, nat)>)
      modifies this
      ensures State() == Request(old(State()), id, ClaimEvent(leaseSeconds))
      ensures claimed.Some? ==>
        && id in clients && Holds(clients[id], claimed.value.0, claimed.value.1, now)
        && claimed.value.1 == old(clients)[id].issued
      ensures claimed.Some? <==> id in old(clients) && clients[id].issued > old(clients)[id].issued
    {
      if id !in clients { return None; }
      var reply: Reply;
      reply, claimed := LeaseCommand(clients[id], leaseSeconds, now);
      Commit(id, reply);
    }

    method RenewCommand(id: ClientId, k: nat, token: nat, leaseSeconds: nat) returns (ok: bool)
      modifies this
      ensures State() == Request(old(State()), id, RenewEvent(k, token, leaseSeconds))
      ensures ok <==> id in old(clients) && old(ReplyTo(State(), id, RenewEvent(k, token, leaseSeconds))).Done?
      ensures ok ==> Holds(clients[id], k, token, now)
    {
      if id !in clients || !Holds(clients[id], k, token, now) { return false; }
      var row := clients[id];
      var command := row.commands[k].(leaseUntil := Some(now + leaseSeconds * SECOND));
      Commit(id, Done(row.(commands := row.commands[k := command]), 0));
      return true;
    }

    method CompleteCommand(id: ClientId, k: nat, token: nat) returns (ok: bool)
      modifies this
      ensures State() == Request(old(State()), id, CompleteEvent(k, token))
      ensures ok <==> id in old(clients) && old(ReplyTo(State(), id, CompleteEvent(k, token))).Done?
      ensures ok <==> id in old(clients) && Holds(old(clients)[id], k, token, now)
      ensures ok ==> clients[id].commands[k].state.Completed?
    {
      if id !in clients || !Holds(clients[id], k, token, now) { return false; }
      var row := clients[id];
      var command := row.commands[k].(state := Completed, token := None, leaseUntil := None);
      Commit(id, Done(row.(commands := row.commands[k := command]), 0));
      return true;
    }

    method ReportFailure(id: ClientId, k: nat, token: nat, retryable: bool) returns (ok: bool)
      modifies this
      ensures State() == Request(old(State()), id, FailEvent(k, token, retryable))
      ensures ok <==> id in old(clients) && old(ReplyTo(State(), id, FailEvent(k, token, retryable))).Done?
      ensures ok <==> id in old(clients) && Holds(old(clients)[id], k, token, now)
      ensures ok ==> forall t :: !Holds(clients[id], k, t, now)
    {
      if id !in clients { return false; }
      var reply := FailCommand(clients[id], k, token, retryable, now);
      Commit(id, reply);
      return reply.Done?;
    }

    method ReportStarted(id: ClientId, g: nat) returns (ok: bool)
      modifies this
      ensures State() == Request(old(State()), id, StartedEvent(g))
      ensures ok <==> id in old(clients) && old(ReplyTo(State(), id, StartedEvent(g))).Done?
      ensures ok ==> g < |clients[id].generations| && clients[id].generations[g].state.Running?
      ensures ok ==> !clients[id].Latched()
    {
      if id !in clients { return false; }
      var row := clients[id];
      if Current(row.generations) != Some(g) || !row.generations[g].state.Live() { return false; }
      var generation := row.generations[g].(state := Running);
      if generation.startedAt.None? { generation := generation.(startedAt := Some(now)); }
      Commit(id, Done(row.(generations := row.generations[g := generation], stopReason := NoStop), 0));
      return true;
    }

    method ReportStopped(id: ClientId, g: nat, failed: bool) returns (ok: bool)
      modifies this
      ensures State() == Request(old(State()), id, StoppedEvent(g, failed))
      ensures ok <==> id in old(clients) && old(ReplyTo(State(), id, StoppedEvent(g, failed))).Done?
      ensures ok ==> g < |clients[id].generations| && !clients[id].generations[g].state.Active()
    {
      hide GenerationStopped, EnvOf;
      if id !in clients { return false; }
      var row := clients[id];
      var reply := RecordStop(row, g, failed, EnvOf(State(), id));
      if g < |row.generations| && !row.Latched() { var keys := ActiveKeys(id); }
      Commit(id, reply);
      return reply.Done?;
    }

    method ReportStatus(id: ClientId, report: AgentReport) returns (ok: bool)
      modifies this
      ensures State() == Request(old(State()), id, StatusEvent(report))
      ensures ok <==> id in old(clients) && old(ReplyTo(State(), id, StatusEvent(report))).Done?
    {
      if id !in clients { return false; }
      var env := EnvOf(State(), id);
      var reply := TakeStatus(clients[id], report, env);
      var keys := ActiveKeys(id);
      Commit(id, reply);
      return reply.Done?;
    }

    method PresenceAdd(key: ActivityKey)
      modifies this
      ensures State() == Next(old(State()), ActivityOpened(key))
      ensures HasActivity(activity, key.0) && (revision == old(revision) <==> key in old(activity))
    {
      var added := key !in activity;
      activity := activity + {key};
      if added { revision := revision + 1; }
    }

    method PresenceRemove(key: ActivityKey)
      modifies this
      ensures State() == Next(old(State()), ActivityClosed(key))
      ensures key !in activity && lastEnded[key.0] == now && (revision == old(revision) <==> key !in old(activity))
    {
      var removed := key in activity;
      activity := activity - {key};
      lastEnded := lastEnded[key.0 := now];
      if removed { revision := revision + 1; }
    }

    /** `_active_viewer_client_ids`: expire every stale row and say which clients still have a viewer. */
    method ActiveViewerClientIds() returns (active: set<ClientId>)
      modifies this`clients, this`presence
      ensures clients == AllExpired(old(State())).clients
      ensures presence == Prune(old(presence), now)
      ensures active == set id | id in old(clients) && ViewerActive(old(State()), id)
    {
      ghost var w := State();
      hide AllExpired;
      active := {};
      var rest, rows := clients.Keys, clients;
      while rest != {}
        invariant rest <= rows.Keys == clients.Keys && State() == w
        invariant forall id :: id in rows ==>
          rows[id] == (if id in rest then clients[id] else ExpireStale(clients[id], EnvOf(w, id)))
        invariant active == set id | id in clients.Keys - rest && ViewerActive(w, id)
        decreases rest
      {
        Inhabited(rest);
        var id :| id in rest;
        rest := rest - {id};
        var live := LiveKeys(presence, id, now);
        var viewers := ExpireStaleViewers(rows[id].viewers, live, now);
        rows := rows[id := rows[id].(viewers := viewers)];
        if live != {} || AnyOpen(viewers) { active := active + {id}; }
      }
      clients := rows;
      presence := Prune(presence, now);
      AllRowsExpired(w, rows);
    }

    /** The sweep-wide reads: who may need a transition, in id order, and whether to scan again soon. */
    method ClientsToVisit() returns (order: seq<ClientId>, needsFastScan: bool)
      modifies this`clients, this`presence
      ensures State() == AllExpired(Pruned(old(State())))
      ensures needsFastScan == NeedsFastScan(old(State()))
      ensures Sorts(order, VisitSet(old(State())))
    {
      hide Visited, VisitSet, NeedsFastScan, ViewerActive, Steady, Candidate, HasStopping, HasLive, HasActivity,
        ExpireStale, AllExpired;
      ghost var w := State();
      var before := clients;
      var stopping := set id | id in clients && HasStopping(clients[id]);
      var running := set id | id in clients && HasLive(clients[id]);
      var viewing := ActiveViewerClientIds();
      var active := set k | k in activity :: k.0;
      var steady := viewing + active;
      var candidates := running + steady;
      needsFastScan := candidates - stopping != {};
      var chosen := set id | id in candidates && id !in stopping && !(id in running && id in steady);
      ActivityIds(w.activity, active);
      assert SetsRead(w, stopping, running, viewing, active);
      SetsDecide(w, stopping, running, viewing, active);
      ExpiryIgnoresPruning(w);
      order := SortIds(chosen);
    }

    /**
     `reconcile_all_viewer_lifecycles`: read once, skip every client that cannot
     need a transition, reconcile the others in id order, commit or roll back.
     */
    method ReconcileAll() returns (actions: seq<(ClientId, SweepAction)>, needsFastScan: bool, aborted: bool)
      requires WorldInv(State())
      modifies this
      ensures State() == AfterSweep(old(State()), PlainSweep(old(State())))
      ensures needsFastScan == NeedsFastScan(old(State()))
      ensures aborted == PlainSweep(old(State())).Aborted?
      ensures !aborted ==> actions == PlainSweep(old(State())).actions
    {
      hide ReconcileEach, VisitSet, NeedsFastScan, WorldInv;
      ghost var w := State();
      var before := clients;
      var order: seq<ClientId>;
      order, needsFastScan := ClientsToVisit();
      ShortcutSweepIsPlainSweep(w, VisitSet(w), order);
      var result := ReconcileInOrder(State(), order);
      match result {
        case Swept(image, taken) =>
          SweptFields(State(), order);
          clients, presence, revision := image.clients, image.presence, image.revision;
          actions, aborted := taken, false;
        case Aborted(notices) =>
          clients, revision := before, revision + notices;
          actions, aborted := [], true;
      }
    }
  }

  /** The sweep's loop: reconcile the listed clients until one refuses. */
  method ReconcileInOrder(start: World, order: seq<ClientId>) returns (result: Sweep)
    ensures result == ReconcileEach(start, order)
  {
    hide ReconcileEach, Transact, Request, Reconcile, ReconcileChoice, ExpireStale, EnvOf;
    var image, actions := start, [];
    for i := 0 to |order|
      invariant image.revision >= start.revision
      invariant ReconcileEach(start, order) ==
        Preceded(actions, image.revision - start.revision, ReconcileEach(image, order[i..]))
    {
      var id := order[i];
      assert order[i..][0] == id && order[i..][1..] == order[i + 1..];
      if id !in image.clients {
        MissingAborts(image, order[i..]);
        return Aborted(image.revision - start.revision);
      }
      var env := EnvOf(image, id);
      var reply, action := ReconcileViewerLifecycle(image.clients[id], env);
      ReconcileUnfolds(image, order[i..]);
      if reply.Refused? { return Aborted(image.revision - start.revision + reply.notices); }
      ReconcileIsRequest(image, id);
      image := image.(clients := image.clients[id := reply.client], presence := Prune(image.presence, image.now),
                      revision := image.revision + reply.notices);
      if action.Some? { actions := actions + [(id, action.value)]; }
    }
    assert order[|order|..] == [];
    NothingLeft(image);
    result := Swept(image, actions);
  }

  lemma AllRowsExpired(w: World, rows: map<ClientId, Client>)
    requires rows.Keys == w.clients.Keys
    requires forall id :: id in rows ==> rows[id] == ExpireStale(w.clients[id], EnvOf(w, id))
    ensures rows == AllExpired(w).clients
  {
  }

  lemma NothingLeft(w: World)
    ensures ReconcileEach(w, []) == Swept(w, [])
  {
  }

  lemma MissingAborts(w: World, ids: seq<ClientId>)
    requires ids != [] && ids[0] !in w.clients
    ensures ReconcileEach(w, ids) == Aborted(0)
  {
  }

  /** A finished sweep changes client rows, viewer keys and the revision only. */
  lemma {:induction false} SweptFields(w: World, ids: seq<ClientId>)
    ensures var s := ReconcileEach(w, ids);
      s.Swept? ==>
        s.world == w.(clients := s.world.clients, presence := s.world.presence, revision := s.world.revision)
    decreases |ids|
  {
    hide Transact;
    if ids != [] && ids[0] in w.clients { SweptFields(Request(w, ids[0], ReconcileEvent), ids[1..]); }
  }

  /** The ids the sweep-wide reads collect. */
  ghost predicate SetsRead(
    w: World, stopping: set<ClientId>, running: set<ClientId>, viewing: set<ClientId>, active: set<ClientId>)
  {
    && (forall id :: id in stopping <==> id in w.clients && HasStopping(w.clients[id]))
    && (forall id :: id in running <==> id in w.clients && HasLive(w.clients[id]))
    && (forall id :: id in viewing <==> id in w.clients && ViewerActive(w, id))
    && (forall id :: id in active <==> HasActivity(w.activity, id))
  }

  /** They decide exactly what the per-client predicates say. */
  lemma SetsDecide(
    w: World, stopping: set<ClientId>, running: set<ClientId>, viewing: set<ClientId>, active: set<ClientId>)
    requires SetsRead(w, stopping, running, viewing, active)
    ensures var steady := viewing + active;
      (set id | id in running + steady && id !in stopping && !(id in running && id in steady)) == VisitSet(w)
    ensures running + (viewing + active) - stopping != {} <==> NeedsFastScan(w)
  {
    StraysAre(w);
    CandidatesDecide(w, stopping, running, viewing, active);
    hide ViewerActive, HasActivity, HasStopping, HasLive, Strays;
    var steady := viewing + active;
    forall id
      ensures id in running + steady && id !in stopping && !(id in running && id in steady) <==> id in VisitSet(w)
    {
      if id in w.clients { assert Steady(w, id) <==> id in steady; }
    }
  }

  lemma ActivityIds(activity: set<ActivityKey>, active: set<ClientId>)
    requires active == set k | k in activity :: k.0
    ensures forall id :: id in active <==> HasActivity(activity, id)
  {
  }

  lemma StraysAre(w: World)
    ensures forall id :: id in Strays(w) <==> HasActivity(w.activity, id) && id !in w.clients
  {
  }

  lemma CandidatesDecide(
    w: World, stopping: set<ClientId>, running: set<ClientId>, viewing: set<ClientId>, active: set<ClientId>)
    requires SetsRead(w, stopping, running, viewing, active)
    ensures running + (viewing + active) - stopping != {} <==> NeedsFastScan(w)
  {
    var urgent := running + (viewing + active) - stopping;
    StraysAre(w);
    hide ViewerActive, HasActivity, HasStopping, HasLive, Strays;
    Inhabited(urgent);
    Inhabited(Strays(w));
    if urgent != {} {
      var id :| id in urgent;
      assert id in Strays(w) || (id in w.clients && Candidate(w, id) && !HasStopping(w.clients[id]));
    }
    if Strays(w) != {} {
      var id :| id in Strays(w);
      assert id in urgent;
    } else if NeedsFastScan(w) {
      var id :| id in w.clients && Candidate(w, id) && !HasStopping(w.clients[id]);
      assert id in urgent;
    }
  }

  lemma ExpiryIgnoresPruning(w: World)
    ensures AllExpired(Pruned(w)).clients == AllExpired(w).clients
    ensures AllExpired(Pruned(w)) == w.(clients := AllExpired(w).clients, presence := Prune(w.presence, w.now))
  {
    forall id | id in w.clients ensures EnvOf(Pruned(w), id) == EnvOf(w, id) { PruneKeepsLive(w, id); }
  }

  lemma ReconcileUnfolds(w: World, ids: seq<ClientId>)
    requires ids != [] && ids[0] in w.clients
    ensures
      var reply := Reconcile(w.clients[ids[0]], EnvOf(w, ids[0]));
      ReconcileEach(w, ids) ==
        if reply.Refused? then Aborted(reply.notices)
        else Preceded(ActionFor(w, ids[0]), reply.notices, ReconcileEach(Request(w, ids[0], ReconcileEvent), ids[1..]))
  {
  }

  lemma ReconcileIsRequest(w: World, id: ClientId)
    requires id in w.clients && Reconcile(w.clients[id], EnvOf(w, id)).Done?
    ensures
      var reply := Reconcile(w.clients[id], EnvOf(w, id));
      Request(w, id, ReconcileEvent) ==
        w.(clients := w.clients[id := reply.client], presence := Prune(w.presence, w.now),
           revision := w.revision + reply.notices)
  {
  }
}
