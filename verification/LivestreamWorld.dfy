/**
 The whole process: every client's rows, the in-memory viewer and activity
 presence, the lifecycle revision that wakes the sweeper, and the sweep over all
 clients.
 */
module LivestreamWorld {
  import opened Options
  import opened IdOrder
  import opened LivestreamClient
  import opened LivestreamSafety

  type ClientId = int
  type PresenceKey = (ClientId, ViewerId, Principal)
  type ActivityKey = (ClientId, string, string)

  datatype World = World(
    now: Time, clients: map<ClientId, Client>, presence: map<PresenceKey, Time>, activity: set<ActivityKey>,
    lastEnded: map<ClientId, Time>, auditEnded: map<ClientId, Time>, revision: nat)

  // ---------------------------------------------------------------- presence

  predicate Fresh(seen: Time, now: Time) { seen >= now - VIEWER_LEASE_SECONDS * SECOND }

  /** The keys of one client whose lease has not run out. */
  function LiveKeys(presence: map<PresenceKey, Time>, id: ClientId, now: Time): set<ViewerKey> {
    set k | k in presence && k.0 == id && Fresh(presence[k], now) :: (k.1, k.2)
  }

  /** Every presence read drops every stale key, whichever client it belongs to. */
  function Prune(presence: map<PresenceKey, Time>, now: Time): map<PresenceKey, Time> {
    map k | k in presence && Fresh(presence[k], now) :: presence[k]
  }

  predicate HasActivity(activity: set<ActivityKey>, id: ClientId) {
    exists k :: k in activity && k.0 == id
  }

  /** Ids that hold an activity but have no client row. */
  function Strays(w: World): set<ClientId> {
    set k | k in w.activity && k.0 !in w.clients :: k.0
  }

  function ActivityEndedAt(w: World, id: ClientId): Option<Time> {
    if id in w.lastEnded then Some(w.lastEnded[id])
    else if id in w.auditEnded then Some(w.auditEnded[id])
    else None
  }

  function EnvOf(w: World, id: ClientId): Env {
    Env(w.now, LiveKeys(w.presence, id, w.now), HasActivity(w.activity, id), ActivityEndedAt(w, id))
  }

  // ---------------------------------------------------------------- one request

  function ReplyTo(w: World, id: ClientId, e: Event): Reply
    requires id in w.clients
  {
    Transact(w.clients[id], EnvOf(w, id), e)
  }

  /** The viewer dictionary after a request, and whether its set of keys grew or shrank by request. */
  function Touched(w: World, id: ClientId, e: Event): (r: (map<PresenceKey, Time>, bool))
    requires id in w.clients
  {
    var c := w.clients[id];
    var done := ReplyTo(w, id, e).Done?;
    match e
    case HeartbeatEvent(viewer, principal) =>
      var k := (id, viewer, principal);
      if done then (Prune(w.presence[k := w.now], w.now), k !in w.presence) else (w.presence, false)
    case LeaveEvent(viewer, principal) =>
      var k := (id, viewer, principal);
      if !done then (w.presence, false)
      else if FindViewer(c.viewers, viewer) == |c.viewers| then (Prune(w.presence, w.now), false)
      else (Prune(w.presence - {k}, w.now), k in w.presence)
    case StatusEvent(_) => (Prune(w.presence, w.now), false)
    case StoppedEvent(g, _) =>
      if g < |c.generations| && !c.Latched() then (Prune(w.presence, w.now), false) else (w.presence, false)
    case ReconcileEvent => (Prune(w.presence, w.now), false)
    case _ => (w.presence, false)
  }

  function Request(w: World, id: ClientId, e: Event): World {
    if id !in w.clients then w
    else
      var reply := ReplyTo(w, id, e);
      var (presence, changed) := Touched(w, id, e);
      w.(clients := w.clients[id := Committed(w.clients[id], reply)],
         presence := presence,
         revision := w.revision + reply.notices + (if changed then 1 else 0))
  }

  // ---------------------------------------------------------------- the plain sweep

  datatype Sweep =
    | Swept(world: World, actions: seq<(ClientId, SweepAction)>)
    | Aborted(notices: nat)

  function ChoiceFor(w: World, id: ClientId): Option<SweepAction>
    requires id in w.clients
  {
    ReconcileChoice(ExpireStale(w.clients[id], EnvOf(w, id)), EnvOf(w, id))
  }

  function ActionFor(w: World, id: ClientId): seq<(ClientId, SweepAction)>
    requires id in w.clients
  {
    var choice := ChoiceFor(w, id);
    if choice.Some? then [(id, choice.value)] else []
  }

  function Preceded(actions: seq<(ClientId, SweepAction)>, notices: nat, rest: Sweep): Sweep {
    match rest
    case Swept(w, more) => Swept(w, actions + more)
    case Aborted(n) => Aborted(notices + n)
  }

  /** Reconcile the listed clients one after the other; a missing row or a refusal aborts the transaction. */
  function ReconcileEach(w: World, ids: seq<ClientId>): Sweep
    decreases |ids|
  {
    if ids == [] then Swept(w, [])
    else if ids[0] !in w.clients then Aborted(0)
    else
      var reply := ReplyTo(w, ids[0], ReconcileEvent);
      if reply.Refused? then Aborted(reply.notices)
      else Preceded(ActionFor(w, ids[0]), reply.notices, ReconcileEach(Request(w, ids[0], ReconcileEvent), ids[1..]))
  }

  function Pruned(w: World): World { w.(presence := Prune(w.presence, w.now)) }

  /** The plain sweep: `reconcile_viewer_lifecycle` for every id with a row or an activity, in id order. */
  ghost function PlainSweep(w: World): Sweep {
    ReconcileEach(Pruned(w), Ascending(w.clients.Keys + Strays(w)))
  }

  function AfterSweep(w: World, s: Sweep): World {
    match s
    case Swept(w', _) => w'
    case Aborted(n) => Pruned(w).(revision := w.revision + n)
  }

  // ---------------------------------------------------------------- the sweeper's shortcut reads

  predicate HasStopping(c: Client) {
    exists i :: 0 <= i < |c.generations| && c.generations[i].state.Stopping?
  }

  predicate HasLive(c: Client) {
    exists i :: 0 <= i < |c.generations| && c.generations[i].state.Live()
  }

  /** `_active_viewer_client_ids`: a live in-memory key, or an open row whose lease still runs. */
  predicate ViewerActive(w: World, id: ClientId)
    requires id in w.clients
  {
    var env := EnvOf(w, id);
    env.live != {} || AnyOpen(Expire(w.clients[id].viewers, env.live, w.now))
  }

  predicate Steady(w: World, id: ClientId)
    requires id in w.clients
  {
    ViewerActive(w, id) || HasActivity(w.activity, id)
  }

  predicate Candidate(w: World, id: ClientId)
    requires id in w.clients
  {
    HasLive(w.clients[id]) || Steady(w, id)
  }

  /** Some candidate is not merely waiting for its agent to finish a stop. */
  predicate NeedsFastScan(w: World) {
    Strays(w) != {} || exists id :: id in w.clients && Candidate(w, id) && !HasStopping(w.clients[id])
  }

  /** The shortcut sweep calls the per-client reconciler for this client. */
  predicate Visited(w: World, id: ClientId)
    requires id in w.clients
  {
    && Candidate(w, id)
    && !HasStopping(w.clients[id])
    && !(HasLive(w.clients[id]) && Steady(w, id))
  }

  /** All the ids the shortcut sweep calls the per-client reconciler for. */
  function VisitSet(w: World): set<ClientId> {
    Strays(w) + set id | id in w.clients && Visited(w, id)
  }

  // ---------------------------------------------------------------- what the process keeps

  predicate DistinctViewers(vs: seq<Viewer>) {
    forall i, j :: 0 <= i < j < |vs| ==> vs[i].id != vs[j].id
  }

  predicate OpenRow(vs: seq<Viewer>, k: ViewerKey) {
    exists i :: 0 <= i < |vs| && vs[i].Open() && (vs[i].id, vs[i].principal) == k
  }

  /** A live in-memory viewer always has an open durable row. */
  predicate PresenceBacked(w: World) {
    forall k :: k in w.presence ==>
      k.0 in w.clients && (Fresh(w.presence[k], w.now) ==> OpenRow(w.clients[k.0].viewers, (k.1, k.2)))
  }

  ghost predicate WorldInv(w: World) {
    && (forall id :: id in w.clients ==> Inv(w.clients[id]) && DistinctViewers(w.clients[id].viewers))
    && PresenceBacked(w)
  }

  // ---------------------------------------------------------------- all the process can do

  datatype WorldEvent =
    | ClientRequest(id: ClientId, event: Event)
    | SweepAll
    | ActivityOpened(key: ActivityKey)
    | ActivityClosed(key: ActivityKey)
    | AuditClosed(id: ClientId, at: Time)
    | ViewersPolled
    | Enrolled(id: ClientId)
    | Elapsed(duration: nat)

  ghost function Next(w: World, e: WorldEvent): World {
    match e
    case ClientRequest(id, event) => Request(w, id, event)
    case SweepAll => AfterSweep(w, PlainSweep(w))
    case ActivityOpened(k) =>
      if k in w.activity then w
      else w.(activity := w.activity + {k}, revision := w.revision + 1)
    case ActivityClosed(k) =>
      w.(activity := w.activity - {k}, lastEnded := w.lastEnded[k.0 := w.now],
         revision := w.revision + (if k in w.activity then 1 else 0))
    case AuditClosed(id, at) => w.(auditEnded := w.auditEnded[id := at])
    case ViewersPolled => Pruned(w)
    case Enrolled(id) => if id in w.clients then w else w.(clients := w.clients[id := EMPTY])
    case Elapsed(d) => w.(now := w.now + d)
  }

  ghost function History(w: World, events: seq<WorldEvent>): World {
    if events == [] then w else Next(History(w, events[..|events| - 1]), events[|events| - 1])
  }

  const START: World := World(0, map[], map[], {}, map[], map[], 0)
}
