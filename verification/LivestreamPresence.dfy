/**
 Presence over whole histories of the process: who is live, who has left and since when, and what a committed sweep
 then does to each client.
 */
module LivestreamPresence {
  import opened Options
  import opened LivestreamClient
  import opened LivestreamSafety
  import opened LivestreamWorld
  import opened LivestreamSweep
  import opened LivestreamLaws
  import IdOrder

  // ---------------------------------------------------------------- live viewers are those who beat lately

  predicate Beats(w: World, e: WorldEvent, k: PresenceKey) {
    && e.ClientRequest? && e.id == k.0 && e.event == HeartbeatEvent(k.1, k.2)
    && e.id in w.clients && ReplyTo(w, e.id, e.event).Done?
  }

  predicate Leaves(w: World, e: WorldEvent, k: PresenceKey) {
    && e.ClientRequest? && e.id == k.0 && e.event == LeaveEvent(k.1, k.2)
    && e.id in w.clients && ReplyTo(w, e.id, e.event).Done?
  }

  /** The time of the viewer's last accepted heartbeat, unless it has left since. */
  ghost function LastBeat(events: seq<WorldEvent>, k: PresenceKey): Option<Time> {
    if events == [] then None
    else
      var n := |events| - 1;
      var before := History(START, events[..n]);
      if Beats(before, events[n], k) then Some(before.now)
      else if Leaves(before, events[n], k) then None
      else LastBeat(events[..n], k)
  }

  predicate FreshKey(w: World, k: PresenceKey, now: Time) { k in w.presence && Fresh(w.presence[k], now) }

  lemma {:induction false} SweptSame(w: World, ids: seq<ClientId>)
    requires Pruned(w) == w
    ensures var s := ReconcileEach(w, ids);
      s.Swept? ==> s.world == w.(clients := s.world.clients, revision := s.world.revision)
    decreases |ids|
  {
    if ids != [] && ids[0] in w.clients {
      PrunedStaysPruned(w, ids[0]);
      hide Transact;
      SweptSame(Request(w, ids[0], ReconcileEvent), ids[1..]);
    }
  }

  lemma SweepSame(w: World)
    ensures var w' := Next(w, SweepAll);
      w' == w.(clients := w'.clients, revision := w'.revision, presence := Prune(w.presence, w.now))
  {
    PruneKeepsLive(w, 0);
    SweptSame(Pruned(w), IdOrder.Ascending(w.clients.Keys + Strays(w)));
    hide Transact, ReconcileEach;
  }

  /** Only its own heartbeat adds a key or moves its time; only its own leave or its lease takes it away. */
  lemma PresenceStep(w: World, e: WorldEvent, k: PresenceKey)
    requires WorldInv(w)
    ensures var w' := Next(w, e);
      && w'.now >= w.now
      && if Beats(w, e, k) then FreshKey(w', k, w'.now) && w'.presence[k] == w.now == w'.now
         else if Leaves(w, e, k) then !FreshKey(w', k, w'.now)
         else && (FreshKey(w', k, w'.now) <==> FreshKey(w, k, w'.now))
              && (k in w'.presence ==> k in w.presence && w'.presence[k] == w.presence[k])
  {
    match e
    case ClientRequest(id, event) => if id in w.clients { RequestPresence(w, id, event, k); }
    case SweepAll => SweepSame(w);
    case _ =>
  }

  lemma RequestPresence(w: World, id: ClientId, e: Event, k: PresenceKey)
    requires WorldInv(w) && id in w.clients
    ensures var w' := Request(w, id, e);
      && w'.now == w.now
      && if Beats(w, ClientRequest(id, e), k) then FreshKey(w', k, w.now) && w'.presence[k] == w.now
         else if Leaves(w, ClientRequest(id, e), k) then !FreshKey(w', k, w.now)
         else && (FreshKey(w', k, w.now) <==> FreshKey(w, k, w.now))
              && (k in w'.presence ==> k in w.presence && w'.presence[k] == w.presence[k])
  {
    if Leaves(w, ClientRequest(id, e), k) && FreshKey(w, k, w.now) {
      LiveViewerFound(w.clients[id].viewers, (k.1, k.2));
    }
    hide Transact;
  }

  lemma {:induction false} LastBeatIsStored(events: seq<WorldEvent>, k: PresenceKey)
    ensures var w, t := History(START, events), LastBeat(events, k);
      && (t.Some? ==> t.value <= w.now)
      && (FreshKey(w, k, w.now) <==> t.Some? && t.value >= w.now - LEASE)
      && (FreshKey(w, k, w.now) ==> t == Some(w.presence[k]))
  {
    if events != [] {
      var n := |events| - 1;
      var before := History(START, events[..n]);
      LastBeatIsStored(events[..n], k);
      HistoryKeepsWorld(events[..n]);
      PresenceStep(before, events[n], k);
      hide Next, Beats, Leaves, WorldInv;
    }
  }

  /** In every history a viewer is live exactly if its last accepted heartbeat is recent and it has not left since. */
  lemma LiveIffRecentBeat(events: seq<WorldEvent>, id: ClientId, viewer: ViewerId, principal: Principal)
    ensures var w, t := History(START, events), LastBeat(events, (id, viewer, principal));
      (viewer, principal) in EnvOf(w, id).live <==> t.Some? && t.value >= w.now - VIEWER_LEASE_SECONDS * SECOND
  {
    LastBeatIsStored(events, (id, viewer, principal));
    LiveIsFresh(History(START, events), id, (viewer, principal));
    hide History, LastBeat;
  }

  lemma LiveIsFresh(w: World, id: ClientId, v: ViewerKey)
    ensures v in EnvOf(w, id).live <==> FreshKey(w, (id, v.0, v.1), w.now)
  {
    if FreshKey(w, (id, v.0, v.1), w.now) {
      var k := (id, v.0, v.1);
      assert k in w.presence && k.0 == id && (k.1, k.2) == v;
    }
  }

  // ---------------------------------------------------------------- activities

  /** The activity was opened and not closed since. */
  predicate StillOpen(events: seq<WorldEvent>, k: ActivityKey) {
    if events == [] then false
    else
      var e := events[|events| - 1];
      if e == ActivityOpened(k) then true
      else if e == ActivityClosed(k) then false
      else StillOpen(events[..|events| - 1], k)
  }

  /** When an activity of the client was closed last. */
  ghost function LastClosed(events: seq<WorldEvent>, id: ClientId): Option<Time> {
    if events == [] then None
    else
      var n := |events| - 1;
      if events[n].ActivityClosed? && events[n].key.0 == id then Some(History(START, events[..n]).now)
      else LastClosed(events[..n], id)
  }

  lemma ActivityStep(w: World, e: WorldEvent)
    ensures Next(w, e).activity ==
      if e.ActivityOpened? then w.activity + {e.key}
      else if e.ActivityClosed? then w.activity - {e.key} else w.activity
    ensures Next(w, e).lastEnded ==
      if e.ActivityClosed? then w.lastEnded[e.key.0 := w.now] else w.lastEnded
  {
    if e.SweepAll? { SweepSame(w); }
    hide Transact, PlainSweep;
  }

  /** An activity counts exactly while it is open, and the last close is remembered. */
  lemma {:induction false} ActivityIffOpen(events: seq<WorldEvent>, k: ActivityKey)
    ensures var w := History(START, events);
      && (k in w.activity <==> StillOpen(events, k))
      && (LastClosed(events, k.0).Some? <==> k.0 in w.lastEnded)
      && (LastClosed(events, k.0).Some? ==> ActivityEndedAt(w, k.0) == LastClosed(events, k.0))
  {
    if events != [] {
      var n := |events| - 1;
      ActivityIffOpen(events[..n], k);
      ActivityStep(History(START, events[..n]), events[n]);
      hide Next;
    }
  }

  // ---------------------------------------------------------------- what a committed sweep does to a client

  lemma {:induction false} SweptClient(w: World, ids: seq<ClientId>, id: ClientId)
    requires Pruned(w) == w && id in w.clients && ReconcileEach(w, ids).Swept?
    requires forall i, j :: 0 <= i < j < |ids| ==> ids[i] != ids[j]
    ensures id in ReconcileEach(w, ids).world.clients
    ensures ReconcileEach(w, ids).world.clients[id] ==
      if id in ids then Step(w.clients[id], EnvOf(w, id), ReconcileEvent) else w.clients[id]
    ensures id in ids ==> ReplyTo(w, id, ReconcileEvent).Done?
    decreases |ids|
  {
    if ids != [] {
      var mid := Request(w, ids[0], ReconcileEvent);
      PrunedStaysPruned(w, ids[0]);
      hide Transact;
      SweptClient(mid, ids[1..], id);
      assert id in ids <==> id == ids[0] || id in ids[1..];
      if ids[0] == id {
        assert id !in ids[1..];
      } else {
        assert EnvOf(mid, id) == EnvOf(w, id);
      }
    }
  }

  /** A committed sweep leaves every client as its own reconciliation would. */
  lemma SweepIsReconcile(w: World, id: ClientId)
    requires PlainSweep(w).Swept? && id in w.clients
    ensures id in PlainSweep(w).world.clients
    ensures PlainSweep(w).world.clients[id] == Step(w.clients[id], EnvOf(w, id), ReconcileEvent)
    ensures Transact(w.clients[id], EnvOf(w, id), ReconcileEvent).Done?
  {
    PruneKeepsLive(w, id);
    SweptClient(Pruned(w), IdOrder.Ascending(w.clients.Keys + Strays(w)), id);
    hide Transact, ReconcileEach;
  }

  /** Somebody is there and nothing active: a committed sweep starts a stream unless latched. */
  lemma SweepStarts(w: World, id: ClientId)
    requires PlainSweep(w).Swept? && id in w.clients && !w.clients[id].stopReason.ExplicitStop?
    requires SomebodyHere(w.clients[id], EnvOf(w, id)) && NoneActive(w.clients[id].generations)
    ensures id in PlainSweep(w).world.clients
    ensures Launched(w.clients[id], PlainSweep(w).world.clients[id], Start, w.now)
  {
    SweepIsReconcile(w, id);
    ReconcileStarts(w.clients[id], EnvOf(w, id));
    hide Transact, PlainSweep, Launched, NoneActive, SomebodyHere;
  }

  /** Nobody has been there for the grace: a committed sweep leaves nothing live. */
  lemma SweepStops(w: World, id: ClientId, at: Time)
    requires WorldInv(w) && PlainSweep(w).Swept? && id in w.clients
    requires !SomebodyHere(w.clients[id], EnvOf(w, id)) && w.now >= at + GRACE
    requires forall g: nat :: g < |w.clients[id].generations| && IsLive(w.clients[id].generations[g]) ==>
      AbsentFrom(w.clients[id], EnvOf(w, id), g, at)
    ensures id in PlainSweep(w).world.clients && NothingLive(PlainSweep(w).world.clients[id].generations)
  {
    var c, env := w.clients[id], EnvOf(w, id);
    SweepIsReconcile(w, id);
    if NothingLive(c.generations) {
      ReconcileWaits(c, env);
    } else {
      var g: nat :| g < |c.generations| && IsLive(c.generations[g]);
      ReconcileStops(c, env, g, at);
    }
    hide Transact, PlainSweep, AbsentFrom;
  }

  /** Some client has a live stream or somebody there and awaits no stop, or an activity has no client row. */
  predicate Unsettled(w: World) {
    || (exists id :: id in w.clients
          && (forall i :: 0 <= i < |w.clients[id].generations| ==> !w.clients[id].generations[i].state.Stopping?)
          && (!NothingLive(w.clients[id].generations) || SomebodyHere(w.clients[id], EnvOf(w, id))))
    || (exists k :: k in w.activity && k.0 !in w.clients)
  }

  /** The sweeper asks for its short interval exactly then. */
  lemma FastScanIff(w: World)
    requires WorldInv(w)
    ensures NeedsFastScan(w) <==> Unsettled(w)
  {
    forall id | id in w.clients
      ensures Candidate(w, id) <==>
        !NothingLive(w.clients[id].generations) || SomebodyHere(w.clients[id], EnvOf(w, id))
    {
      CandidateIff(w, id);
    }
    if k :| k in w.activity && k.0 !in w.clients { assert k.0 in Strays(w); }
    hide Candidate, SomebodyHere, NothingLive, EnvOf;
    IdOrder.Inhabited(Strays(w));
  }

  lemma CandidateIff(w: World, id: ClientId)
    requires WorldInv(w) && id in w.clients
    ensures Candidate(w, id) <==>
      !NothingLive(w.clients[id].generations) || SomebodyHere(w.clients[id], EnvOf(w, id))
  {
    var c, env := w.clients[id], EnvOf(w, id);
    HereIffOpen(c, env);
    if env.live != {} {
      var v :| v in env.live;
      LiveIsFresh(w, id, v);
      LiveRowStaysOpen(c.viewers, env.live, env.now, v);
    }
    if !NothingLive(c.generations) {
      var i :| 0 <= i < |c.generations| && IsLive(c.generations[i]);
      assert c.generations[i].state.Live();
    }
  }

  // ---------------------------------------------------------------- nobody returns

  /** The last end of any viewer or activity of the client; it has had one. */
  ghost predicate LeftAt(c: Client, env: Env, at: Time) {
    && (forall i, t :: 0 <= i < |c.viewers| && EndedAt(c.viewers[i], t) ==> t <= at)
    && (env.activityEndedAt.Some? ==> env.activityEndedAt.value <= at)
    && ((exists i :: 0 <= i < |c.viewers| && EndedAt(c.viewers[i], at)) || env.activityEndedAt == Some(at))
  }

  /** A viewer or an activity of the client comes or goes. */
  predicate Visits(e: WorldEvent, id: ClientId) {
    || (e.ClientRequest? && e.id == id && (e.event.HeartbeatEvent? || e.event.LeaveEvent?))
    || ((e.ActivityOpened? || e.ActivityClosed?) && e.key.0 == id)
    || (e.AuditClosed? && e.id == id)
  }

  ghost predicate Gone(w: World, id: ClientId, at: Time) {
    && id in w.clients && !SomebodyHere(w.clients[id], EnvOf(w, id)) && LeftAt(w.clients[id], EnvOf(w, id), at)
  }

  /** The client's viewer rows stay or lapse. */
  lemma RowsStayOrLapse(w: World, e: WorldEvent, id: ClientId)
    requires WorldInv(w) && id in w.clients && !Visits(e, id)
    ensures id in Next(w, e).clients
    ensures var before, after := w.clients[id].viewers, Next(w, e).clients[id].viewers;
      after == before || RowsLapsed(before, after, EnvOf(w, id))
  {
    ExpiryLapses(w.clients[id], EnvOf(w, id));
    match e
    case ClientRequest(x, event) => if x == id { RowsAfterOthers(w.clients[id], EnvOf(w, id), event); }
    case SweepAll =>
      if PlainSweep(w).Swept? {
        SweepIsReconcile(w, id);
        RowsAfterOthers(w.clients[id], EnvOf(w, id), ReconcileEvent);
      }
    case _ =>
    hide Transact, PlainSweep, RowsLapsed;
  }

  lemma EnvStaysEmpty(w: World, e: WorldEvent, id: ClientId)
    requires WorldInv(w) && id in w.clients && !Visits(e, id)
    ensures var env, env' := EnvOf(w, id), EnvOf(Next(w, e), id);
      && env'.now >= env.now && env'.live <= env.live && (env'.activity ==> env.activity)
      && env'.activityEndedAt == env.activityEndedAt
  {
    var w' := Next(w, e);
    forall v | v in EnvOf(w', id).live ensures v in EnvOf(w, id).live && w'.now >= w.now {
      PresenceStep(w, e, (id, v.0, v.1));
      LiveIsFresh(w, id, v);
      LiveIsFresh(w', id, v);
    }
    PresenceStep(w, e, (id, "", ""));
    ActivityStep(w, e);
    if e.SweepAll? { SweepSame(w); }
    hide Transact, PlainSweep, WorldInv;
  }

  /** While nobody visits, the client stays left since the same instant. */
  lemma GoneStays(w: World, e: WorldEvent, id: ClientId, at: Time)
    requires WorldInv(w) && Gone(w, id, at) && !Visits(e, id)
    ensures Gone(Next(w, e), id, at)
  {
    var c, env, w' := w.clients[id], EnvOf(w, id), Next(w, e);
    RowsStayOrLapse(w, e, id);
    EnvStaysEmpty(w, e, id);
    hide Next, EnvOf, WorldInv;
    GoneRows(c, env, w'.clients[id], EnvOf(w', id), at);
  }

  lemma GoneRows(c: Client, env: Env, d: Client, env': Env, at: Time)
    requires !SomebodyHere(c, env) && LeftAt(c, env, at)
    requires d.viewers == c.viewers || RowsLapsed(c.viewers, d.viewers, env)
    requires env'.now >= env.now && env'.live <= env.live && (env'.activity ==> env.activity)
    requires env'.activityEndedAt == env.activityEndedAt
    ensures !SomebodyHere(d, env') && LeftAt(d, env', at)
  {
    forall i | 0 <= i < |c.viewers|
      ensures !Here(d.viewers[i], env') && forall t :: EndedAt(d.viewers[i], t) <==> EndedAt(c.viewers[i], t)
    {
      assert !Here(c.viewers[i], env);
    }
    if i :| 0 <= i < |c.viewers| && EndedAt(c.viewers[i], at) { assert EndedAt(d.viewers[i], at); }
  }

  lemma {:induction false} GoneLasts(w: World, events: seq<WorldEvent>, id: ClientId, at: Time)
    requires WorldInv(w) && Gone(w, id, at) && forall i :: 0 <= i < |events| ==> !Visits(events[i], id)
    ensures WorldInv(History(w, events)) && Gone(History(w, events), id, at)
  {
    if events != [] {
      var n := |events| - 1;
      GoneLasts(w, events[..n], id, at);
      NextKeepsWorld(History(w, events[..n]), events[n]);
      GoneStays(History(w, events[..n]), events[n], id, at);
    }
  }

  /**
   Once everybody has left and nobody comes back, whatever else happens and whoever starts the stream meanwhile, a sweep
   committed at or after the end of the grace leaves nothing live.
   */
  lemma NobodyReturns(w: World, events: seq<WorldEvent>, id: ClientId, at: Time)
    requires WorldInv(w) && Gone(w, id, at) && forall i :: 0 <= i < |events| ==> !Visits(events[i], id)
    requires History(w, events).now >= at + VIEWER_STOP_GRACE_SECONDS * SECOND
    requires PlainSweep(History(w, events)).Swept?
    ensures var s := PlainSweep(History(w, events)).world;
      id in s.clients && NothingLive(s.clients[id].generations)
  {
    GoneLasts(w, events, id, at);
    hide PlainSweep, History;
    SweepStops(History(w, events), id, at);
  }
}
