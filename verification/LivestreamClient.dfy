/**
 The Livestream v2 control plane of one client: its generations, its leased
 command queue and its durable viewer rows, with every request that can change
 them written as one atomic transaction.

 A row id is the row's position in the order of insertion, so a fresh UUID is
 simply the next index and `created_at` order is index order.  A claim token is
 the number of claims issued before it.
 */
module LivestreamClient {
  import opened Options

  /** Clock readings and durations, in microseconds. */
  type Time = int
  const SECOND: Time := 1_000_000

  // Operator-configurable settings: any value the environment may give them.
  type ViewerLease = n: int | n >= 45 witness 75
  type StopGrace = n: int | n >= 5 witness 30
  type MediaStale = n: int | n >= 15 witness 45
  type MaxAttempts = n: int | n >= 1 witness 5
  const VIEWER_LEASE_SECONDS: ViewerLease
  const VIEWER_STOP_GRACE_SECONDS: StopGrace
  const MEDIA_STALE_SECONDS: MediaStale
  const COMMAND_MAX_ATTEMPTS: MaxAttempts
  const RESET_WINDOW: Time := 600 * SECOND
  const RESETS_PER_WINDOW: nat := 3

  // ---------------------------------------------------------------- rows

  datatype GenState = Starting | Running | Stopping | Stopped | Failed | Superseded {
    predicate Active() { Starting? || Running? || Stopping? }
    predicate Live() { Starting? || Running? }
  }

  datatype Action = Start | Restart | Reset

  datatype Generation = Generation(
    state: GenState, action: Action, createdAt: Time, startedAt: Option<Time>, lastUploadAt: Option<Time>)

  datatype Kind = Launch(action: Action) | Halt

  datatype CommandState = Queued | Leased | Completed | CommandFailed | Cancelled {
    predicate Terminal() { Completed? || CommandFailed? || Cancelled? }
    predicate Open() { Queued? || Leased? }
  }

  datatype Command = Command(
    kind: Kind, target: Option<nat>, state: CommandState, attempts: nat, availableAt: Time,
    leaseUntil: Option<Time>, token: Option<nat>, createdAt: Time)

  type ViewerId = string
  type Principal = string
  type ViewerKey = (ViewerId, Principal)

  datatype Viewer = Viewer(id: ViewerId, principal: Principal, lastSeen: Time, endedAt: Option<Time>) {
    predicate Open() { endedAt.None? }
  }

  /** `livestream_stop_reason`: only an explicit stop carries the latch prefix. */
  datatype StopReason = NoStop | ExplicitStop(source: string) | ImplicitStop(source: string)

  datatype Client = Client(
    blocked: bool, stopReason: StopReason, generations: seq<Generation>, commands: seq<Command>,
    viewers: seq<Viewer>, issued: nat)
  {
    predicate Latched() { stopReason.ExplicitStop? }
  }

  /** What a transaction reads besides the client's own rows. */
  datatype Env = Env(now: Time, live: set<ViewerKey>, activity: bool, activityEndedAt: Option<Time>)

  /** A commit, or a refusal that rolls the rows back; `notices` counts sweeper wake-ups sent on the way. */
  datatype Reply = Done(client: Client, notices: nat) | Refused(notices: nat)

  // ---------------------------------------------------------------- generations

  function CurrentBelow(gens: seq<Generation>, n: nat): (g: Option<nat>)
    requires n <= |gens|
    ensures g.Some? ==> g.value < n && gens[g.value].state.Active()
    ensures g.Some? ==> forall i :: g.value < i < n ==> !gens[i].state.Active()
    ensures g.None? ==> forall i :: 0 <= i < n ==> !gens[i].state.Active()
  {
    if n == 0 then None
    else if gens[n - 1].state.Active() then Some(n - 1)
    else CurrentBelow(gens, n - 1)
  }

  /** The newest starting, running or stopping generation. */
  function Current(gens: seq<Generation>): (g: Option<nat>)
    ensures g.Some? ==> g.value < |gens| && gens[g.value].state.Active()
    ensures g.None? ==> forall i :: 0 <= i < |gens| ==> !gens[i].state.Active()
  {
    CurrentBelow(gens, |gens|)
  }

  function SetState(gens: seq<Generation>, g: nat, state: GenState): seq<Generation>
    requires g < |gens|
  {
    gens[g := gens[g].(state := state)]
  }

  // ---------------------------------------------------------------- commands

  function CancelLaunch(c: Command): Command {
    if c.kind.Launch? && c.state.Queued? then c.(state := Cancelled) else c
  }

  function CancelLaunches(cmds: seq<Command>): (r: seq<Command>) {
    seq(|cmds|, i requires 0 <= i < |cmds| => CancelLaunch(cmds[i]))
  }

  function CancelHalt(c: Command, g: nat): Command {
    if c.kind.Halt? && c.state.Queued? && c.target == Some(g) then c.(state := Cancelled) else c
  }

  function CancelHalts(cmds: seq<Command>, g: nat): seq<Command> {
    seq(|cmds|, i requires 0 <= i < |cmds| => CancelHalt(cmds[i], g))
  }

  predicate Recoverable(c: Command, now: Time) {
    c.state.Leased? && c.leaseUntil.Some? && c.leaseUntil.value < now
  }

  function RecoverOne(c: Command, now: Time): Command {
    if !Recoverable(c, now) then c
    else if c.attempts >= COMMAND_MAX_ATTEMPTS then c.(state := CommandFailed)
    else c.(state := Queued, availableAt := now, token := None, leaseUntil := None)
  }

  function Recover(cmds: seq<Command>, now: Time): seq<Command> {
    seq(|cmds|, i requires 0 <= i < |cmds| => RecoverOne(cmds[i], now))
  }

  predicate Claimable(c: Command, now: Time) { c.state.Queued? && c.availableAt <= now }

  /** Index of the oldest claimable command at or after `i`, or |cmds|. */
  function FirstClaimable(cmds: seq<Command>, now: Time, i: nat): (k: nat)
    requires i <= |cmds|
    ensures i <= k <= |cmds|
    ensures k < |cmds| ==> Claimable(cmds[k], now)
    ensures forall j :: i <= j < k ==> !Claimable(cmds[j], now)
    decreases |cmds| - i
  {
    if i == |cmds| || Claimable(cmds[i], now) then i else FirstClaimable(cmds, now, i + 1)
  }

  function Enqueue(c: Client, kind: Kind, target: Option<nat>, now: Time): Client {
    c.(commands := c.commands + [Command(kind, target, Queued, 0, now, None, None, now)])
  }

  predicate OpenHalt(c: Command) { c.kind.Halt? && c.state.Open() }

  predicate HasOpenHalt(cmds: seq<Command>) {
    exists k :: 0 <= k < |cmds| && OpenHalt(cmds[k])
  }

  predicate OpenLaunch(c: Command) { c.kind.Launch? && c.state.Open() }

  predicate HasOpenLaunch(cmds: seq<Command>) {
    exists k :: 0 <= k < |cmds| && OpenLaunch(cmds[k])
  }

  predicate LeasedHalt(c: Command, g: nat) { c.kind.Halt? && c.state.Leased? && c.target == Some(g) }

  predicate HasLeasedHalt(cmds: seq<Command>, g: nat) {
    exists k :: 0 <= k < |cmds| && LeasedHalt(cmds[k], g)
  }

  /** Seconds before a failed command may be claimed again. */
  function Backoff(attempts: nat): nat {
    if attempts >= 6 then 60 else [1, 2, 4, 8, 16, 32][attempts]
  }

  // ---------------------------------------------------------------- viewers

  function FindViewer(vs: seq<Viewer>, id: ViewerId): (i: nat)
    ensures i <= |vs|
    ensures i < |vs| ==> vs[i].id == id
    ensures forall j :: 0 <= j < i ==> vs[j].id != id
  {
    if vs == [] || vs[0].id == id then 0 else FindViewer(vs[1..], id) + 1
  }

  predicate LeaseOver(v: Viewer, live: set<ViewerKey>, now: Time) {
    v.Open() && v.lastSeen < now - VIEWER_LEASE_SECONDS * SECOND && (v.id, v.principal) !in live
  }

  function ExpireOne(v: Viewer, live: set<ViewerKey>, now: Time): Viewer {
    if LeaseOver(v, live, now) then v.(endedAt := Some(v.lastSeen + VIEWER_LEASE_SECONDS * SECOND)) else v
  }

  function Expire(vs: seq<Viewer>, live: set<ViewerKey>, now: Time): seq<Viewer> {
    seq(|vs|, i requires 0 <= i < |vs| => ExpireOne(vs[i], live, now))
  }

  function ExpireStale(c: Client, env: Env): Client {
    c.(viewers := Expire(c.viewers, env.live, env.now))
  }

  predicate AnyOpen(vs: seq<Viewer>) {
    exists i :: 0 <= i < |vs| && vs[i].Open()
  }

  /** `active_viewer_count > 0`: an open row or a live in-memory key. */
  predicate Watched(vs: seq<Viewer>, live: set<ViewerKey>) { AnyOpen(vs) || live != {} }

  function Later(a: Option<Time>, b: Option<Time>): Option<Time> {
    if a.None? then b else if b.None? || b.value <= a.value then a else b
  }

  function LastEnded(vs: seq<Viewer>): Option<Time> {
    if vs == [] then None else Later(vs[0].endedAt, LastEnded(vs[1..]))
  }

  // ---------------------------------------------------------------- start and stop

  function NewGeneration(c: Client, action: Action, supersede: bool, now: Time): Reply {
    if c.blocked then Refused(0)
    else
      var g := Current(c.generations);
      var gens := if supersede && g.Some? then SetState(c.generations, g.value, Superseded) else c.generations;
      var created := c.(generations := gens + [Generation(Starting, action, now, None, None)],
                      commands := CancelLaunches(c.commands), stopReason := NoStop);
      Done(Enqueue(created, Launch(action), Some(|gens|), now), 1)
  }

  function RequestStart(c: Client, now: Time): Reply {
    var g := Current(c.generations);
    if c.blocked then Refused(0)
    else if g.None? then NewGeneration(c, Start, false, now)
    else if c.generations[g.value].state.Live() then Done(c, 0)
    else Refused(0)
  }

  function RequestStop(c: Client, explicit: bool, source: string, now: Time): Reply {
    var g := Current(c.generations);
    var halted := c.(
      commands := CancelLaunches(c.commands),
      generations := if g.Some? then SetState(c.generations, g.value, Stopping) else c.generations,
      stopReason := if explicit then ExplicitStop(source)
                    else if c.Latched() then c.stopReason
                    else ImplicitStop(source));
    if HasOpenHalt(halted.commands) then Done(halted, 0) else Done(Enqueue(halted, Halt, g, now), 1)
  }

  // ---------------------------------------------------------------- viewer requests

  function Heartbeat(c: Client, id: ViewerId, principal: Principal, now: Time): Reply {
    var i := FindViewer(c.viewers, id);
    if c.blocked || (i < |c.viewers| && c.viewers[i].principal != principal) then Refused(0)
    else
      var rows :=
        if i == |c.viewers| then c.viewers + [Viewer(id, principal, now, None)]
        else if c.viewers[i].Open() then c.viewers
        else c.viewers[i := c.viewers[i].(lastSeen := now, endedAt := None)];
      var seen := c.(viewers := rows);
      if Current(c.generations).None? && !c.Latched() then RequestStart(seen, now) else Done(seen, 0)
  }

  function Leave(c: Client, id: ViewerId, principal: Principal, env: Env): Reply {
    var i := FindViewer(c.viewers, id);
    if i == |c.viewers| then Done(ExpireStale(c, env), 0)
    else if c.viewers[i].principal != principal then Refused(0)
    else
      var rows := if c.viewers[i].Open() then c.viewers[i := c.viewers[i].(endedAt := Some(env.now))] else c.viewers;
      Done(ExpireStale(c.(viewers := rows), env.(live := env.live - {(id, principal)})), 0)
  }

  // ---------------------------------------------------------------- the agent's command queue

  function Claim(c: Client, leaseSeconds: nat, now: Time): Reply {
    var cmds := Recover(c.commands, now);
    var k := FirstClaimable(cmds, now, 0);
    if k == |cmds| then Done(c.(commands := cmds), 0)
    else
      var leased := cmds[k].(state := Leased, attempts := cmds[k].attempts + 1, token := Some(c.issued),
                             leaseUntil := Some(now + leaseSeconds * SECOND));
      Done(c.(commands := cmds[k := leased], issued := c.issued + 1), 0)
  }

  /** `_leased_command`: the request holds a running lease on command `k`. */
  predicate Holds(c: Client, k: nat, token: nat, now: Time) {
    && k < |c.commands|
    && c.commands[k].state.Leased?
    && c.commands[k].token == Some(token)
    && c.commands[k].leaseUntil.Some?
    && now <= c.commands[k].leaseUntil.value
  }

  function Renew(c: Client, k: nat, token: nat, leaseSeconds: nat, now: Time): Reply {
    if !Holds(c, k, token, now) then Refused(0)
    else Done(c.(commands := c.commands[k := c.commands[k].(leaseUntil := Some(now + leaseSeconds * SECOND))]), 0)
  }

  function Complete(c: Client, k: nat, token: nat, now: Time): Reply {
    if !Holds(c, k, token, now) then Refused(0)
    else Done(c.(commands := c.commands[k := c.commands[k].(state := Completed, token := None, leaseUntil := None)]), 0)
  }

  /** The failed command no longer speaks for the client's current generation. */
  predicate StaleTarget(c: Client, command: Command) {
    command.target.Some? &&
    var g := command.target.value;
    || g >= |c.generations|
    || Current(c.generations) != Some(g)
    || c.generations[g].state.Superseded?
    || (c.generations[g].state.Stopping? && !command.kind.Halt?)
  }

  function Fail(c: Client, k: nat, token: nat, retryable: bool, now: Time): Reply {
    if !Holds(c, k, token, now) then Refused(0)
    else
      var released := c.commands[k].(token := None, leaseUntil := None);
      if retryable && !StaleTarget(c, released) && released.attempts < COMMAND_MAX_ATTEMPTS then
        var again := released.(state := Queued, availableAt := now + Backoff(released.attempts) * SECOND);
        Done(c.(commands := c.commands[k := again]), 0)
      else
        var gens :=
          if released.target.Some? && released.target.value < |c.generations|
             && c.generations[released.target.value].state.Live()
          then SetState(c.generations, released.target.value, Failed)
          else c.generations;
        Done(c.(commands := c.commands[k := released.(state := CommandFailed)], generations := gens), 0)
  }

  // ---------------------------------------------------------------- the agent's reports

  function Started(c: Client, g: nat, now: Time): Reply {
    if Current(c.generations) != Some(g) || !c.generations[g].state.Live() then Refused(0)
    else
      var row := c.generations[g];
      var since := if row.startedAt.None? then Some(now) else row.startedAt;
      Done(c.(generations := c.generations[g := row.(state := Running, startedAt := since)], stopReason := NoStop), 0)
  }

  function Uploaded(c: Client, g: nat, now: Time): Reply {
    if Current(c.generations) != Some(g) || !c.generations[g].state.Live() then Refused(0)
    else Done(c.(generations := c.generations[g := c.generations[g].(lastUploadAt := Some(now))]), 0)
  }

  /** A refusal after the sweeper was already woken keeps the wake-up and loses the rows. */
  function After(reply: Reply, notices: nat): Reply {
    match reply
    case Done(c, n) => Done(c, n + notices)
    case Refused(n) => Refused(n + notices)
  }

  /** The stopped route: record the stop, then start again for a viewer who returned meanwhile. */
  function GenerationStopped(c: Client, g: nat, failed: bool, env: Env): Reply {
    if g >= |c.generations| then Refused(0)
    else
      var stopped := c.(generations := SetState(c.generations, g, if failed then Failed else Stopped));
      if c.Latched() then Done(stopped, 1)
      else
        var counted := ExpireStale(stopped, env);
        if Watched(counted.viewers, env.live) && Current(counted.generations).None?
        then After(RequestStart(counted, env.now), 1)
        else Done(counted, 1)
  }

  datatype AgentReport = AgentReport(
    wellFormed: bool, producerGeneration: Option<nat>, producerStopped: bool, producerPid: Option<nat>,
    uploaderGeneration: Option<nat>, uploaderIdle: bool)

  /** The agent proves that generation `g` produces and uploads nothing any more. */
  predicate Quiesced(gens: seq<Generation>, g: nat, report: AgentReport) {
    && report.wellFormed
    && (report.producerGeneration.None? || report.producerGeneration == Some(g))
    && (report.uploaderGeneration.None? || report.uploaderGeneration == Some(g)
        || (report.uploaderGeneration.value < |gens| && !gens[report.uploaderGeneration.value].state.Active()))
    && report.producerStopped && report.producerPid.None? && report.uploaderIdle
  }

  function ReconcileStopping(c: Client, report: AgentReport, env: Env): Reply {
    var g := Current(c.generations);
    if g.None? || !c.generations[g.value].state.Stopping? || !Quiesced(c.generations, g.value, report)
       || HasLeasedHalt(c.commands, g.value)
    then Done(c, 0)
    else
      var stopped := ExpireStale(
                       c.(commands := CancelHalts(c.commands, g.value),
                          generations := SetState(c.generations, g.value, Stopped)), env);
      if !c.Latched() && (Watched(stopped.viewers, env.live) || env.activity) && Current(stopped.generations).None?
      then After(RequestStart(stopped, env.now), 1)
      else Done(stopped, 1)
  }

  predicate RecentReset(gen: Generation, now: Time) {
    gen.action.Reset? && gen.createdAt >= now - RESET_WINDOW
  }

  function RecentResets(gens: seq<Generation>, now: Time): nat {
    if gens == [] then 0
    else RecentResets(gens[..|gens| - 1], now) + (if RecentReset(gens[|gens| - 1], now) then 1 else 0)
  }

  function MediaReference(gen: Generation): Time {
    if gen.lastUploadAt.Some? then gen.lastUploadAt.value
    else if gen.startedAt.Some? then gen.startedAt.value
    else gen.createdAt
  }

  predicate Stalled(c: Client, g: nat, now: Time)
    requires g < |c.generations|
  {
    && c.generations[g].state.Live()
    && now - MediaReference(c.generations[g]) > MEDIA_STALE_SECONDS * SECOND
    && !HasOpenLaunch(c.commands)
  }

  /** `maybe_recover_stale_media`: reset a stalled stream, or give up after three resets in the window. */
  function Watchdog(c: Client, env: Env): Reply {
    var counted := ExpireStale(c, env);
    var g := Current(c.generations);
    if !Watched(counted.viewers, env.live) && !env.activity then Done(counted, 0)
    else if g.None? || !Stalled(c, g.value, env.now) then Done(counted, 0)
    else if RecentResets(c.generations, env.now) >= RESETS_PER_WINDOW then
      Done(Enqueue(counted.(generations := SetState(c.generations, g.value, Failed)), Halt, None, env.now), 1)
    else NewGeneration(counted, Reset, true, env.now)
  }

  function AgentStatus(c: Client, report: AgentReport, env: Env): Reply {
    match ReconcileStopping(c, report, env)
    case Refused(n) => Refused(n)
    case Done(c', n) => After(Watchdog(c', env), n)
  }

  // ---------------------------------------------------------------- the per-client reconciler

  datatype SweepAction = StartAction | StopAction

  function AbsentSince(c: Client, g: nat, env: Env): Time
    requires g < |c.generations|
  {
    var ended := Later(LastEnded(c.viewers), env.activityEndedAt);
    if ended.Some? then ended.value else c.generations[g].createdAt
  }

  /** What `reconcile_viewer_lifecycle` decides for rows whose stale viewers are already expired. */
  function ReconcileChoice(c: Client, env: Env): Option<SweepAction> {
    var g := Current(c.generations);
    if AnyOpen(c.viewers) || env.activity then
      if g.None? && !c.Latched() then Some(StartAction) else None
    else if g.None? || c.generations[g.value].state.Stopping? then None
    else if env.now - AbsentSince(c, g.value, env) < VIEWER_STOP_GRACE_SECONDS * SECOND then None
    else Some(StopAction)
  }

  function Reconcile(c: Client, env: Env): Reply {
    var counted := ExpireStale(c, env);
    match ReconcileChoice(counted, env)
    case None => Done(counted, 0)
    case Some(StartAction) => RequestStart(counted, env.now)
    case Some(StopAction) => RequestStop(counted, false, "client_activity_grace_expired", env.now)
  }

  // ---------------------------------------------------------------- one transaction of any kind

  datatype Event =
    | HeartbeatEvent(id: ViewerId, principal: Principal)
    | LeaveEvent(id: ViewerId, principal: Principal)
    | StartEvent
    | RestartEvent
    | StopEvent(source: string)
    | ClaimEvent(leaseSeconds: nat)
    | RenewEvent(command: nat, token: nat, leaseSeconds: nat)
    | CompleteEvent(command: nat, token: nat)
    | FailEvent(command: nat, token: nat, retryable: bool)
    | StatusEvent(report: AgentReport)
    | StartedEvent(generation: nat)
    | UploadedEvent(generation: nat)
    | StoppedEvent(generation: nat, failed: bool)
    | ReconcileEvent
    | BlockEvent(blocked: bool)
  {
    /** The operator asks for a stream: the only way to clear an explicit stop. */
    predicate OperatorStart() { StartEvent? || RestartEvent? }
  }

  function Transact(c: Client, env: Env, e: Event): Reply {
    match e
    case HeartbeatEvent(id, principal) => Heartbeat(c, id, principal, env.now)
    case LeaveEvent(id, principal) => Leave(c, id, principal, env)
    case StartEvent => RequestStart(c, env.now)
    case RestartEvent => NewGeneration(c, Restart, true, env.now)
    case StopEvent(source) => RequestStop(c, true, source, env.now)
    case ClaimEvent(leaseSeconds) => Claim(c, leaseSeconds, env.now)
    case RenewEvent(k, token, leaseSeconds) => Renew(c, k, token, leaseSeconds, env.now)
    case CompleteEvent(k, token) => Complete(c, k, token, env.now)
    case FailEvent(k, token, retryable) => Fail(c, k, token, retryable, env.now)
    case StatusEvent(report) => AgentStatus(c, report, env)
    case StartedEvent(g) => Started(c, g, env.now)
    case UploadedEvent(g) => Uploaded(c, g, env.now)
    case StoppedEvent(g, failed) => GenerationStopped(c, g, failed, env)
    case ReconcileEvent => Reconcile(c, env)
    case BlockEvent(b) => Done(c.(blocked := b), 0)
  }

  function Committed(c: Client, reply: Reply): Client {
    if reply.Done? then reply.client else c
  }

  function Step(c: Client, env: Env, e: Event): Client {
    Committed(c, Transact(c, env, e))
  }

  datatype Move = Move(env: Env, event: Event)

  /** Any run of transactions, whatever presence each of them happens to read. */
  function Run(c: Client, moves: seq<Move>): Client {
    if moves == [] then c
    else
      var before := Run(c, moves[..|moves| - 1]);
      Step(before, moves[|moves| - 1].env, moves[|moves| - 1].event)
  }

  const EMPTY: Client := Client(false, NoStop, [], [], [], 0)
}
