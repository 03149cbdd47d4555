/**
 The desired display configuration of one client and the commands that carry it
 to the agent: revisions, supersession of older commands, kiosk lockdown, and
 the list of active commands that one status report reads once and uses twice.

 A command's id is its position, which is also the order of the request times.
 `configs` records every configuration that was ever desired; the tables hold
 the last one.
 */
module Display {
  import opened Options

  type Time = int
  const SECOND: Time := 1_000_000
  const MIN_TTL_SECONDS: int := 30
  const RECONCILE_TTL_SECONDS: int := 600
  const LOCKDOWN_DRIFT_RETRY: Time := 300 * SECOND
  const DEFAULT_REFRESH: int := 900
  const V1_SCHEMA: int := 1
  const V2_SCHEMA: int := 2

  datatype Status = Queued | Claimed | Cancelled | Ended

  datatype Payload =
    | Configuration(schema: int, revision: nat, url: Option<string>, interval: Option<int>)
    | Lockdown(enabled: bool)
    | Control(name: string)

  datatype Command = Command(payload: Payload, requestedAt: Time, expiresAt: Time, status: Status)

  datatype Desired = Desired(revision: nat, url: Option<string>, interval: int)

  datatype Config = Config(url: Option<string>, interval: int)

  datatype LockState =
    Applied | Disabled | Applying | RollingBack | Drifted | Error | Unknown | Pending | Unrecognised
  {
    /** What a report may write into the client row. */
    predicate Recorded() { !Pending? && !Unrecognised? }
  }

  datatype Lock = Lock(enabled: bool, state: LockState, lastAppliedAt: Option<Time>, updatedAt: Option<Time>)

  datatype LockReport = LockReport(state: LockState, desired: Option<bool>)

  /** What a status report says that matters here. */
  datatype Report = Report(
    supportsCommands: bool, supportsV2: bool, revision: Option<int>, schema: int, lockdown: Option<LockReport>)

  datatype Client = Client(
    commands: seq<Command>, desired: Option<Desired>, configs: seq<Config>, lock: Lock, clock: Time)

  predicate Active(c: Command, now: Time) {
    (c.status.Queued? || c.status.Claimed?) && c.expiresAt > now
  }

  predicate InRange(cs: seq<Command>, ids: seq<nat>) {
    forall k :: 0 <= k < |ids| ==> ids[k] < |cs|
  }

  /** `_active_display_commands`: ids of the active ones among the first `n`, in order of request. */
  function ActiveIds(cs: seq<Command>, now: Time, n: nat): (ids: seq<nat>)
    requires n <= |cs|
    ensures InRange(cs, ids)
  {
    if n == 0 then []
    else if Active(cs[n - 1], now) then ActiveIds(cs, now, n - 1) + [n - 1]
    else ActiveIds(cs, now, n - 1)
  }

  // ---------------------------------------------------------------- desired configuration

  function Want(c: Client, d: Desired): Client {
    c.(desired := Some(d), configs := c.configs + [Config(d.url, d.interval)])
  }

  /** `set_display_desired_kiosk_url`, with the normalised address. */
  function SetUrl(c: Client, url: Option<string>): Client {
    match c.desired
    case None => Want(c, Desired(1, url, DEFAULT_REFRESH))
    case Some(d) => if d.url == url then c else Want(c, d.(revision := d.revision + 1, url := url))
  }

  /** `set_display_desired_browser_refresh_interval`, with the normalised interval. */
  function SetInterval(c: Client, interval: int): Client {
    match c.desired
    case None => Want(c, Desired(1, None, interval))
    case Some(d) =>
      if d.interval == interval then c else Want(c, d.(revision := d.revision + 1, interval := interval))
  }

  // ---------------------------------------------------------------- reconciling a status report

  function CancelAt(cs: seq<Command>, i: nat): seq<Command>
    requires i < |cs|
  {
    cs[i := cs[i].(status := Cancelled)]
  }

  /** Which listed commands a loop is about. */
  datatype Topic = Configurations | Lockdowns
  {
    predicate Covers(p: Payload) {
      match this
      case Configurations => p.Configuration?
      case Lockdowns => p.Lockdown?
    }
  }

  /** What a command has to carry to be the wanted one. */
  datatype Goal = Revision(revision: nat) | Enabled(enabled: bool)
  {
    function Topic(): Topic { if Revision? then Configurations else Lockdowns }

    predicate Met(p: Payload) {
      match this
      case Revision(r) => p.Configuration? && p.revision == r
      case Enabled(e) => p.Lockdown? && p.enabled == e
    }
  }

  /** Cancel the queued ones of a topic among the listed commands. */
  function CancelListed(cs: seq<Command>, ids: seq<nat>, topic: Topic): (r: seq<Command>)
    requires InRange(cs, ids)
    ensures |r| == |cs|
    decreases |ids|
  {
    if ids == [] then cs
    else
      var i := ids[0];
      CancelListed(if topic.Covers(cs[i].payload) && cs[i].status.Queued? then CancelAt(cs, i) else cs, ids[1..], topic)
  }

  /** Walk the listed commands up to the first wanted one and cancel the queued ones before it. */
  function Supersede(cs: seq<Command>, ids: seq<nat>, goal: Goal): (r: (seq<Command>, Option<nat>))
    requires InRange(cs, ids)
    ensures |r.0| == |cs| && (r.1.Some? ==> r.1.value < |cs|)
    decreases |ids|
  {
    if ids == [] then (cs, None)
    else
      var i := ids[0];
      if !goal.Topic().Covers(cs[i].payload) then Supersede(cs, ids[1..], goal)
      else if goal.Met(cs[i].payload) then (cs, Some(i))
      else Supersede(if cs[i].status.Queued? then CancelAt(cs, i) else cs, ids[1..], goal)
  }

  /** A command's lifetime is at least thirty seconds. */
  function Expiry(now: Time, ttlSeconds: int): Time {
    now + (if ttlSeconds < MIN_TTL_SECONDS then MIN_TTL_SECONDS else ttlSeconds) * SECOND
  }

  /** `queue_display_command`. */
  function Queue(cs: seq<Command>, p: Payload, ttlSeconds: int, now: Time): seq<Command> {
    cs + [Command(p, now, Expiry(now, ttlSeconds), Queued)]
  }

  function ConfigurationFor(d: Desired, v2: bool): Payload {
    if v2 then Configuration(V2_SCHEMA, d.revision, d.url, Some(d.interval))
    else Configuration(V1_SCHEMA, d.revision, d.url, None)
  }

  predicate Observed(d: Desired, r: Report) {
    r.revision == Some(d.revision) && r.schema >= (if r.supportsV2 then V2_SCHEMA else V1_SCHEMA)
  }

  /** The listed commands: read now unless a list was read before. */
  function Listed(c: Client, cache: Option<seq<nat>>, now: Time): seq<nat> {
    if cache.Some? then cache.value else ActiveIds(c.commands, now, |c.commands|)
  }

  predicate CacheOk(c: Client, cache: Option<seq<nat>>) {
    cache.Some? ==> InRange(c.commands, cache.value)
  }

  datatype Reconciled = Reconciled(client: Client, command: Option<nat>, cache: Option<seq<nat>>)

  /** `reconcile_display_configuration`. */
  function ReconcileConfiguration(c: Client, r: Report, cache: Option<seq<nat>>, now: Time): (q: Reconciled)
    requires CacheOk(c, cache)
    ensures CacheOk(q.client, q.cache)
  {
    if !r.supportsCommands || c.desired.None? then Reconciled(c, None, cache)
    else
      var d, ids := c.desired.value, Listed(c, cache, now);
      if Observed(d, r) then
        Reconciled(c.(commands := CancelListed(c.commands, ids, Configurations)), None, Some(ids))
      else
        var (cs, found) := Supersede(c.commands, ids, Revision(d.revision));
        if found.Some? then Reconciled(c.(commands := cs), found, Some(ids))
        else
          var queued := Queue(cs, ConfigurationFor(d, r.supportsV2), RECONCILE_TTL_SECONDS, now);
          Reconciled(c.(commands := queued), Some(|cs|), Some(ids))
  }

  /** `_lockdown_drift_retry_recent`. */
  predicate RetryRecent(lock: Lock, observed: Option<bool>, now: Time) {
    && observed == Some(lock.enabled) && lock.lastAppliedAt.Some?
    && !(lock.updatedAt.Some? && lock.updatedAt.value > lock.lastAppliedAt.value)
    && 0 <= now - lock.lastAppliedAt.value < LOCKDOWN_DRIFT_RETRY
  }

  /** The client row after the report's lockdown observation. */
  function Observe(lock: Lock, state: LockState, now: Time): Lock {
    if !state.Recorded() then lock
    else
      lock.(state := state,
            lastAppliedAt := if (state.Applied? || state.Disabled?) && lock.state != state then Some(now)
                             else lock.lastAppliedAt)
  }

  /** `reconcile_kiosk_lockdown`. */
  function ReconcileLockdown(c: Client, r: Report, cache: Option<seq<nat>>, now: Time): (q: Reconciled)
    requires CacheOk(c, cache)
  {
    if !r.supportsCommands then Reconciled(c, None, cache)
    else
      var state := if r.lockdown.Some? then r.lockdown.value.state else Unknown;
      var observed := if r.lockdown.Some? then r.lockdown.value.desired else None;
      var enabled := c.lock.enabled;
      var c1 := c.(lock := Observe(c.lock, state, now));
      if r.lockdown.None? && !enabled && !c.lock.state.Pending? then Reconciled(c1, None, cache)
      else
        var ids := Listed(c, cache, now);
        if observed == Some(enabled) && state == (if enabled then Applied else Disabled) then
          Reconciled(c1.(commands := CancelListed(c.commands, ids, Lockdowns)), None, Some(ids))
        else
          var (cs, found) := Supersede(c.commands, ids, Enabled(enabled));
          if found.Some? then Reconciled(c1.(commands := cs), found, Some(ids))
          else if state.Drifted? && RetryRecent(c1.lock, observed, now) then
            Reconciled(c1.(commands := cs), None, Some(ids))
          else
            var queued := Queue(cs, Lockdown(enabled), RECONCILE_TTL_SECONDS, now);
            Reconciled(c1.(commands := queued, lock := c1.lock.(state := Pending)), Some(|cs|), Some(ids))
  }

  /** A status report: both reconcilers share one list. */
  function ApplyStatus(c: Client, r: Report, now: Time): Client {
    var q := ReconcileConfiguration(c, r, None, now);
    ReconcileLockdown(q.client, r, q.cache, now).client
  }

  /** The same with a fresh list for each. */
  function ApplyStatusFresh(c: Client, r: Report, now: Time): Client {
    ReconcileLockdown(ReconcileConfiguration(c, r, None, now).client, r, None, now).client
  }

  // ---------------------------------------------------------------- runs

  /** `Moves` is what the agent's claims, results and lease recovery do to an active command. */
  datatype Event =
    | UrlSet(url: Option<string>)
    | IntervalSet(interval: int)
    | Reported(report: Report)
    | Moves(id: nat, to: Status)
    | ControlQueued(payload: Payload, expiresAt: Time)
    | LockdownWanted(lock: Lock)

  datatype Timed = Timed(event: Event, at: Time)

  function Step(c: Client, t: Timed): Client {
    var after :=
      match t.event
      case UrlSet(url) => SetUrl(c, url)
      case IntervalSet(interval) => SetInterval(c, interval)
      case Reported(report) => ApplyStatus(c, report, t.at)
      case Moves(id, to) =>
        if id < |c.commands| && (c.commands[id].status.Queued? || c.commands[id].status.Claimed?)
        then c.(commands := c.commands[id := c.commands[id].(status := to)]) else c
      case ControlQueued(payload, expiresAt) =>
        if payload.Configuration? then c else c.(commands := c.commands + [Command(payload, t.at, expiresAt, Queued)])
      case LockdownWanted(lock) => c.(lock := lock);
    after.(clock := t.at)
  }

  function Run(c: Client, ts: seq<Timed>): Client
    decreases |ts|
  {
    if ts == [] then c else Run(Step(c, ts[0]), ts[1..])
  }

  /** Request times strictly increase. */
  predicate InTime(clock: Time, ts: seq<Timed>)
    decreases |ts|
  {
    ts == [] || (clock < ts[0].at && InTime(ts[0].at, ts[1..]))
  }

  // ---------------------------------------------------------------- what the two loops do

  /** What a loop leaves of a command when it cancels the queued ones of a topic in a set. */
  function CancelledIn(cs: seq<Command>, i: nat, which: seq<nat>, topic: Topic): Command
    requires i < |cs|
  {
    if i in which && topic.Covers(cs[i].payload) && cs[i].status.Queued? then cs[i].(status := Cancelled) else cs[i]
  }

  lemma {:induction false} CancelListedDoes(cs: seq<Command>, ids: seq<nat>, topic: Topic)
    requires InRange(cs, ids)
    ensures forall i :: 0 <= i < |cs| ==> CancelListed(cs, ids, topic)[i] == CancelledIn(cs, i, ids, topic)
    decreases |ids|
  {
    if ids != [] {
      var i := ids[0];
      var next := if topic.Covers(cs[i].payload) && cs[i].status.Queued? then CancelAt(cs, i) else cs;
      CancelListedDoes(next, ids[1..], topic);
      assert ids == [i] + ids[1..];
    }
  }

  /** The walk stops at position `k` of the list, at the first wanted command or at the end. */
  lemma {:induction false} SupersedeDoes(cs: seq<Command>, ids: seq<nat>, goal: Goal) returns (k: nat)
    requires InRange(cs, ids)
    ensures k <= |ids|
    ensures var (cs', found) := Supersede(cs, ids, goal);
      && (forall i :: 0 <= i < |cs| ==> cs'[i] == CancelledIn(cs, i, ids[..k], goal.Topic()))
      && (found == if k < |ids| then Some(ids[k]) else None)
    ensures forall m :: 0 <= m < k ==> !goal.Met(cs[ids[m]].payload)
    ensures k < |ids| ==> goal.Met(cs[ids[k]].payload)
    decreases |ids|
  {
    if ids == [] {
      k := 0;
    } else {
      var i := ids[0];
      if goal.Met(cs[i].payload) {
        k := 0;
      } else {
        var next := if goal.Topic().Covers(cs[i].payload) && cs[i].status.Queued? then CancelAt(cs, i) else cs;
        var k' := SupersedeDoes(next, ids[1..], goal);
        k := k' + 1;
        assert ids[..k] == [i] + ids[1..][..k'];
        assert forall m :: 0 < m < k ==> ids[m] == ids[1..][m - 1];
      }
    }
  }

  /** The list holds exactly the active commands, in ascending order. */
  lemma {:induction false} ActiveIdsAre(cs: seq<Command>, now: Time, n: nat)
    requires n <= |cs|
    ensures var ids := ActiveIds(cs, now, n);
      && (forall k :: 0 <= k < |ids| ==> ids[k] < n && Active(cs[ids[k]], now))
      && (forall i :: 0 <= i < n && Active(cs[i], now) ==> i in ids)
      && (forall j, k :: 0 <= j < k < |ids| ==> ids[j] < ids[k])
  {
    if n > 0 { ActiveIdsAre(cs, now, n - 1); }
  }

  // ---------------------------------------------------------------- what every step keeps

  /** A revision number stands for one whole configuration, and every command of a revision carries that one. */
  predicate ConfigsOk(c: Client) {
    && (match c.desired
        case None => c.configs == []
        case Some(d) => d.revision == |c.configs| > 0 && c.configs[d.revision - 1] == Config(d.url, d.interval))
    && forall i :: 0 <= i < |c.commands| && c.commands[i].payload.Configuration? ==> Carries(c, c.commands[i].payload)
  }

  predicate Carries(c: Client, p: Payload)
    requires p.Configuration?
  {
    && 1 <= p.revision <= |c.configs| && p.url == c.configs[p.revision - 1].url
    && p.interval == (if p.schema == V2_SCHEMA then Some(c.configs[p.revision - 1].interval) else None)
  }

  /** Configuration commands are requested in order of revision, and a revision has one active command at most. */
  predicate OrderOk(cs: seq<Command>, clock: Time) {
    && (forall i :: 0 <= i < |cs| ==> cs[i].requestedAt <= clock)
    && (forall i, j :: 0 <= i < j < |cs| ==> cs[i].requestedAt <= cs[j].requestedAt)
    && (forall i, j :: 0 <= i < j < |cs| && cs[i].payload.Configuration? && cs[j].payload.Configuration? ==>
          && cs[i].requestedAt < cs[j].requestedAt && cs[i].payload.revision <= cs[j].payload.revision
          && (cs[i].payload.revision == cs[j].payload.revision ==> !(Active(cs[i], clock) && Active(cs[j], clock))))
  }

  predicate Inv(c: Client) { ConfigsOk(c) && OrderOk(c.commands, c.clock) }

  predicate InProgress(c: Command) { c.status.Queued? || c.status.Claimed? }

  /** Only statuses changed, and nothing came back to life. */
  predicate Settled(cs: seq<Command>, cs': seq<Command>) {
    && |cs'| == |cs|
    && forall i :: 0 <= i < |cs| ==>
         cs'[i].(status := cs[i].status) == cs[i] && (InProgress(cs'[i]) ==> InProgress(cs[i]))
  }

  lemma SettledKeeps(c: Client, c': Client)
    requires Inv(c) && Settled(c.commands, c'.commands)
    requires c'.desired == c.desired && c'.configs == c.configs && c'.clock >= c.clock
    ensures Inv(c')
  {
    assert forall i :: 0 <= i < |c.commands| ==>
      c'.commands[i].payload == c.commands[i].payload && c'.commands[i].requestedAt == c.commands[i].requestedAt
      && (Active(c'.commands[i], c'.clock) ==> Active(c.commands[i], c.clock));
    assert ConfigsOk(c');
  }

  lemma QueueKeeps(c: Client, p: Payload, now: Time, expiresAt: Time)
    requires Inv(c) && c.clock <= now
    requires p.Configuration? ==>
      && c.clock < now && Carries(c, p) && p.revision == |c.configs|
      && (forall i :: 0 <= i < |c.commands| && c.commands[i].payload.Configuration? && Active(c.commands[i], now) ==>
            c.commands[i].payload.revision != p.revision)
    ensures Inv(c.(commands := c.commands + [Command(p, now, expiresAt, Queued)], clock := now))
  {
    var c' := c.(commands := c.commands + [Command(p, now, expiresAt, Queued)], clock := now);
    QueueOrder(c, p, now, expiresAt);
    forall i | 0 <= i < |c'.commands| && c'.commands[i].payload.Configuration?
      ensures Carries(c', c'.commands[i].payload)
    {
      assert i < |c.commands| ==> Carries(c, c.commands[i].payload);
    }
    hide OrderOk;
  }

  lemma QueueOrder(c: Client, p: Payload, now: Time, expiresAt: Time)
    requires Inv(c) && c.clock <= now
    requires p.Configuration? ==>
      && c.clock < now && p.revision == |c.configs|
      && (forall i :: 0 <= i < |c.commands| && c.commands[i].payload.Configuration? && Active(c.commands[i], now) ==>
            c.commands[i].payload.revision != p.revision)
    ensures OrderOk(c.commands + [Command(p, now, expiresAt, Queued)], now)
  {
    forall i | 0 <= i < |c.commands| && c.commands[i].payload.Configuration?
      ensures c.commands[i].payload.revision <= |c.configs|
    {
      assert Carries(c, c.commands[i].payload);
    }
    assert forall i :: 0 <= i < |c.commands| ==> (Active(c.commands[i], now) ==> Active(c.commands[i], c.clock));
    hide ConfigsOk;
  }

  lemma WantKeeps(c: Client, d: Desired)
    requires Inv(c) && d.revision == |c.configs| + 1
    ensures Inv(Want(c, d))
  {
    var c' := Want(c, d);
    forall i | 0 <= i < |c'.commands| && c'.commands[i].payload.Configuration?
      ensures Carries(c', c'.commands[i].payload)
    {
      assert Carries(c, c.commands[i].payload);
    }
  }

  lemma CancelListedSettles(cs: seq<Command>, ids: seq<nat>, topic: Topic)
    requires InRange(cs, ids)
    ensures Settled(cs, CancelListed(cs, ids, topic))
  {
    CancelListedDoes(cs, ids, topic);
  }

  lemma SupersedeSettles(cs: seq<Command>, ids: seq<nat>, goal: Goal)
    requires InRange(cs, ids)
    ensures Settled(cs, Supersede(cs, ids, goal).0)
  {
    var k := SupersedeDoes(cs, ids, goal);
  }

  lemma NothingSettles(cs: seq<Command>)
    ensures Settled(cs, cs)
  {
  }

  lemma CurrentCarries(c: Client, v2: bool)
    requires Inv(c) && c.desired.Some?
    ensures Carries(c, ConfigurationFor(c.desired.value, v2)) && c.desired.value.revision == |c.configs|
  {
  }

  lemma ConfigurationKeeps(c: Client, r: Report, now: Time)
    requires Inv(c) && c.clock < now
    ensures Inv(ReconcileConfiguration(c, r, None, now).client.(clock := now))
  {
    hide OrderOk, CancelListed, Supersede, ActiveIds, Active, Carries, Settled;
    var q := ReconcileConfiguration(c, r, None, now);
    if !r.supportsCommands || c.desired.None? {
      NothingSettles(c.commands);
      SettledKeeps(c, c.(clock := now));
    } else {
      var d, ids := c.desired.value, ActiveIds(c.commands, now, |c.commands|);
      if Observed(d, r) {
        CancelListedSettles(c.commands, ids, Configurations);
        SettledKeeps(c, q.client.(clock := now));
      } else {
        var goal := Revision(d.revision);
        var (cs, found) := Supersede(c.commands, ids, goal);
        SupersedeSettles(c.commands, ids, goal);
        if found.Some? {
          SettledKeeps(c, c.(commands := cs, clock := now));
        } else {
          SettledKeeps(c, c.(commands := cs));
          NothingWantedIsActive(c.commands, now, goal);
          CurrentCarries(c.(commands := cs), r.supportsV2);
          hide Inv, Observed;
          QueueKeeps(c.(commands := cs), ConfigurationFor(d, r.supportsV2), now, Expiry(now, RECONCILE_TTL_SECONDS));
        }
      }
    }
  }

  /** When the walk finds nothing, no wanted command is active. */
  lemma NothingWantedIsActive(cs: seq<Command>, now: Time, goal: Goal)
    requires Supersede(cs, ActiveIds(cs, now, |cs|), goal).1.None?
    ensures var cs' := Supersede(cs, ActiveIds(cs, now, |cs|), goal).0;
      forall i :: 0 <= i < |cs'| && goal.Topic().Covers(cs'[i].payload) && Active(cs'[i], now) ==>
        !goal.Met(cs'[i].payload) && cs'[i].status.Claimed?
  {
    var ids := ActiveIds(cs, now, |cs|);
    var k := SupersedeDoes(cs, ids, goal);
    ActiveIdsAre(cs, now, |cs|);
    var cs' := Supersede(cs, ids, goal).0;
    forall i | 0 <= i < |cs'| && goal.Topic().Covers(cs'[i].payload) && Active(cs'[i], now)
      ensures !goal.Met(cs'[i].payload) && cs'[i].status.Claimed?
    {
      assert Active(cs[i], now);
      var m :| 0 <= m < |ids| && ids[m] == i;
      assert i in ids[..k];
    }
  }

  lemma LockdownKeeps(c: Client, r: Report, cache: Option<seq<nat>>, now: Time)
    requires Inv(c) && c.clock <= now && CacheOk(c, cache)
    ensures Inv(ReconcileLockdown(c, r, cache, now).client.(clock := now))
  {
    hide Observe, RetryRecent, Inv, CancelListed, Supersede, ActiveIds, Active, Settled;
    NothingSettles(c.commands);
    var q := ReconcileLockdown(c, r, cache, now).client.(clock := now);
    var ids, goal := Listed(c, cache, now), Enabled(c.lock.enabled);
    CancelListedSettles(c.commands, ids, Lockdowns);
    SupersedeSettles(c.commands, ids, goal);
    if |q.commands| == |c.commands| {
      SettledKeeps(c, q);
    } else {
      var mid := q.(commands := Supersede(c.commands, ids, goal).0, clock := c.clock);
      SettledKeeps(c, mid);
      QueueKeeps(mid, Lockdown(c.lock.enabled), now, Expiry(now, RECONCILE_TTL_SECONDS));
    }
  }

  lemma ReportedKeeps(c: Client, r: Report, now: Time)
    requires Inv(c) && c.clock < now
    ensures Inv(ApplyStatus(c, r, now).(clock := now))
  {
    var q := ReconcileConfiguration(c, r, None, now);
    ConfigurationKeeps(c, r, now);
    assert CacheOk(q.client, q.cache);
    hide Inv, ReconcileConfiguration;
    LockdownKeeps(q.client.(clock := now), r, q.cache, now);
    LockdownIgnoresClock(q.client, r, q.cache, now);
  }

  lemma LockdownIgnoresClock(c: Client, r: Report, cache: Option<seq<nat>>, now: Time)
    requires CacheOk(c, cache)
    ensures ReconcileLockdown(c.(clock := now), r, cache, now).client
         == ReconcileLockdown(c, r, cache, now).client.(clock := now)
  {
  }

  lemma StepKeeps(c: Client, t: Timed)
    requires Inv(c) && c.clock < t.at
    ensures Inv(Step(c, t))
  {
    hide Inv, ApplyStatus;
    var c' := Step(c, t);
    match t.event
    case UrlSet(url) =>
      SetterKeeps(c, t);
    case IntervalSet(interval) =>
      SetterKeeps(c, t);
    case Reported(report) => ReportedKeeps(c, report, t.at);
    case Moves(id, to) => SettledKeeps(c, c');
    case ControlQueued(payload, expiresAt) =>
      if payload.Configuration? { SettledKeeps(c, c'); } else { QueueKeeps(c, payload, t.at, expiresAt); }
    case LockdownWanted(lock) => SettledKeeps(c, c');
  }

  lemma SetterKeeps(c: Client, t: Timed)
    requires Inv(c) && c.clock < t.at && (t.event.UrlSet? || t.event.IntervalSet?)
    ensures Inv(Step(c, t))
  {
    var wanted := if t.event.UrlSet? then SetUrl(c, t.event.url) else SetInterval(c, t.event.interval);
    if wanted != c { WantKeeps(c, wanted.desired.value); }
    SettledKeeps(wanted, Step(c, t));
  }

  lemma {:induction false} RunKeeps(c: Client, ts: seq<Timed>)
    requires Inv(c) && InTime(c.clock, ts)
    ensures Inv(Run(c, ts))
    decreases |ts|
  {
    hide Inv, Step;
    if ts != [] {
      StepKeeps(c, ts[0]);
      assert Step(c, ts[0]).clock == ts[0].at by { StepTime(c, ts[0]); }
      RunKeeps(Step(c, ts[0]), ts[1..]);
    }
  }

  lemma StepTime(c: Client, t: Timed)
    ensures Step(c, t).clock == t.at
  {
  }

  // ---------------------------------------------------------------- revisions

  lemma StepGrows(c: Client, t: Timed)
    ensures c.configs <= Step(c, t).configs
  {
    hide ReconcileConfiguration, ReconcileLockdown;
    if t.event.Reported? { ReportingWantsNothing(c, t.event.report, t.at); }
  }

  lemma ReportingWantsNothing(c: Client, r: Report, now: Time)
    ensures ApplyStatus(c, r, now).configs == c.configs && ApplyStatus(c, r, now).desired == c.desired
  {
  }

  lemma {:induction false} RunGrows(c: Client, ts: seq<Timed>)
    ensures c.configs <= Run(c, ts).configs
    decreases |ts|
  {
    hide Step;
    if ts != [] {
      StepGrows(c, ts[0]);
      RunGrows(Step(c, ts[0]), ts[1..]);
    }
  }

  /** What a configuration command of a revision carries is the desired configuration of that revision. */
  lemma CommandsByRevision(c: Client, i: nat, j: nat)
    requires Inv(c) && i < |c.commands| && c.commands[i].payload.Configuration?
    ensures c.desired.Some? && c.commands[i].payload.revision == c.desired.value.revision ==>
      && c.commands[i].payload.url == c.desired.value.url
      && (c.commands[i].payload.schema == V2_SCHEMA ==>
            c.commands[i].payload.interval == Some(c.desired.value.interval))
    ensures j < |c.commands| && c.commands[j].payload.Configuration?
         && c.commands[i].payload.revision == c.commands[j].payload.revision
         && c.commands[i].payload.schema == c.commands[j].payload.schema
      ==> c.commands[i].payload == c.commands[j].payload
  {
    hide OrderOk;
    assert Carries(c, c.commands[i].payload);
    assert j < |c.commands| && c.commands[j].payload.Configuration? ==> Carries(c, c.commands[j].payload);
  }

  /** Within a run a revision number determines the desired configuration. */
  lemma {:induction false} RevisionDeterminesConfiguration(c: Client, ts: seq<Timed>)
    requires Inv(c) && InTime(c.clock, ts)
    requires c.desired.Some? && Run(c, ts).desired.Some?
    requires c.desired.value.revision == Run(c, ts).desired.value.revision
    ensures Run(c, ts).desired == c.desired
  {
    RunKeeps(c, ts);
    RunGrows(c, ts);
    var c' := Run(c, ts);
    hide *;
    SameRevisionSameDesired(c, c');
  }

  lemma SameRevisionSameDesired(c: Client, c': Client)
    requires ConfigsOk(c) && ConfigsOk(c') && c.configs <= c'.configs && c.desired.Some? && c'.desired.Some?
    requires c.desired.value.revision == c'.desired.value.revision
    ensures c'.desired == c.desired
  {
    assert c'.configs[c.desired.value.revision - 1] == c.configs[c.desired.value.revision - 1];
  }

  // ---------------------------------------------------------------- supersession

  /** The walk leaves the wanted command and what follows it as they were, and nothing contrary queued before it. */
  lemma WalkConverges(cs: seq<Command>, now: Time, goal: Goal)
    requires Supersede(cs, ActiveIds(cs, now, |cs|), goal).1.Some?
    ensures var (cs', found) := Supersede(cs, ActiveIds(cs, now, |cs|), goal);
      var f := found.value;
      && Active(cs'[f], now) && goal.Met(cs'[f].payload)
      && (forall i :: 0 <= i < f && goal.Topic().Covers(cs'[i].payload) && Active(cs'[i], now) ==>
            cs'[i].status.Claimed? && !goal.Met(cs'[i].payload))
      && (forall i :: f < i < |cs| ==> cs'[i] == cs[i])
  {
    var ids := ActiveIds(cs, now, |cs|);
    var k := SupersedeDoes(cs, ids, goal);
    var (cs', found) := Supersede(cs, ids, goal);
    ActiveIdsAre(cs, now, |cs|);
    hide Supersede, ActiveIds;
    forall i | 0 <= i < ids[k] && goal.Topic().Covers(cs'[i].payload) && Active(cs'[i], now)
      ensures cs'[i].status.Claimed? && !goal.Met(cs'[i].payload)
    {
      assert Active(cs[i], now);
      var m :| 0 <= m < |ids| && ids[m] == i;
      assert i in ids[..k];
    }
  }

  /** Of two active configuration commands the one requested first has the smaller revision. */
  lemma EarlierIsOlder(c: Client, f: nat, i: nat)
    requires Inv(c) && f < i < |c.commands|
    requires c.commands[f].payload.Configuration? && c.commands[i].payload.Configuration?
    requires Active(c.commands[f], c.clock) && Active(c.commands[i], c.clock)
    ensures c.commands[f].payload.revision < c.commands[i].payload.revision
  {
  }

  lemma RevisionsAreKnown(c: Client, i: nat)
    requires Inv(c) && c.desired.Some? && i < |c.commands| && c.commands[i].payload.Configuration?
    ensures c.commands[i].payload.revision <= c.desired.value.revision
  {
  }

  /** The walk for the desired revision leaves no other active configuration command but older, claimed ones. */
  lemma WalkLeavesOne(c: Client, now: Time)
    requires Inv(c) && c.clock < now && c.desired.Some?
    ensures var goal := Revision(c.desired.value.revision);
      var (cs, found) := Supersede(c.commands, ActiveIds(c.commands, now, |c.commands|), goal);
      forall i :: 0 <= i < |cs| && Some(i) != found && cs[i].payload.Configuration? && Active(cs[i], now) ==>
        cs[i].status.Claimed? && cs[i].payload.revision < c.desired.value.revision
  {
    var ids, goal := ActiveIds(c.commands, now, |c.commands|), Revision(c.desired.value.revision);
    var (cs, found) := Supersede(c.commands, ids, goal);
    SupersedeSettles(c.commands, ids, goal);
    if found.Some? { WalkConverges(c.commands, now, goal); } else { NothingWantedIsActive(c.commands, now, goal); }
    hide Inv, Supersede, ActiveIds;
    forall i | 0 <= i < |cs| && Some(i) != found && cs[i].payload.Configuration? && Active(cs[i], now)
      ensures cs[i].status.Claimed? && cs[i].payload.revision < c.desired.value.revision
    {
      RevisionsAreKnown(c, i);
      if found.Some? && i > found.value { EarlierIsOlder(c, found.value, i); }
    }
  }

  /**
   After a report that does not show the desired revision, exactly one active command carries that revision, and every
   other active configuration command is older and already claimed.
   */
  lemma MismatchLeavesOne(c: Client, r: Report, now: Time)
    requires Inv(c) && c.clock < now
    requires r.supportsCommands && c.desired.Some? && !Observed(c.desired.value, r)
    ensures var q := ReconcileConfiguration(c, r, None, now);
      var cs := q.client.commands;
      && q.command.Some? && q.command.value < |cs|
      && Active(cs[q.command.value], now)
      && Revision(c.desired.value.revision).Met(cs[q.command.value].payload)
      && forall i :: 0 <= i < |cs| && i != q.command.value && cs[i].payload.Configuration? && Active(cs[i], now) ==>
           cs[i].status.Claimed? && cs[i].payload.revision < c.desired.value.revision
  {
    var ids, goal := ActiveIds(c.commands, now, |c.commands|), Revision(c.desired.value.revision);
    WalkLeavesOne(c, now);
    if Supersede(c.commands, ids, goal).1.Some? { WalkConverges(c.commands, now, goal); }
    hide Inv, Supersede, ActiveIds, CancelListed, Observed;
  }

  /** After a report that shows the desired revision, no configuration command waits any more. */
  lemma MatchLeavesNone(c: Client, r: Report, now: Time)
    requires r.supportsCommands && c.desired.Some? && Observed(c.desired.value, r)
    ensures var q := ReconcileConfiguration(c, r, None, now);
      && q.command.None? && |q.client.commands| == |c.commands|
      && forall i :: 0 <= i < |c.commands| ==>
           q.client.commands[i].payload.Configuration? && Active(q.client.commands[i], now) ==>
             q.client.commands[i].status.Claimed?
  {
    var ids := ActiveIds(c.commands, now, |c.commands|);
    CancelListedDoes(c.commands, ids, Configurations);
    ActiveIdsAre(c.commands, now, |c.commands|);
  }

  /** A lockdown command that is returned is active and wanted; a contrary one still queued was requested after it. */
  lemma LockdownConverges(c: Client, r: Report, now: Time)
    requires ReconcileLockdown(c, r, None, now).command.Some?
    ensures var q := ReconcileLockdown(c, r, None, now);
      var cs, f := q.client.commands, q.command.value;
      && f < |cs| && Active(cs[f], now) && cs[f].payload == Lockdown(c.lock.enabled)
      && (forall i :: 0 <= i < f && cs[i].payload.Lockdown? && Active(cs[i], now) ==>
            cs[i].status.Claimed? && cs[i].payload.enabled != c.lock.enabled)
      && (forall i :: f < i < |cs| ==> cs[i] == c.commands[i])
  {
    var goal := Enabled(c.lock.enabled);
    if Supersede(c.commands, ActiveIds(c.commands, now, |c.commands|), goal).1.Some? {
      WalkConverges(c.commands, now, goal);
    } else {
      NothingWantedIsActive(c.commands, now, goal);
    }
    hide Observe, RetryRecent, Supersede, ActiveIds, CancelListed;
  }

  // ---------------------------------------------------------------- one list read for both reconcilers

  function Covered(cs: seq<Command>, ids: seq<nat>, topic: Topic): (r: seq<nat>)
    requires InRange(cs, ids)
    ensures InRange(cs, r)
    decreases |ids|
  {
    if ids == [] then []
    else (if topic.Covers(cs[ids[0]].payload) then [ids[0]] else []) + Covered(cs, ids[1..], topic)
  }

  lemma CoveredHead(cs: seq<Command>, ids: seq<nat>, topic: Topic)
    requires InRange(cs, ids) && ids != []
    ensures var rest := Covered(cs, ids[1..], topic);
      if topic.Covers(cs[ids[0]].payload) then
        Covered(cs, ids, topic) == [ids[0]] + rest && Covered(cs, ids, topic)[1..] == rest
      else Covered(cs, ids, topic) == rest
  {
  }

  lemma {:induction false} CoveredAppend(cs: seq<Command>, ids: seq<nat>, i: nat, topic: Topic)
    requires InRange(cs, ids) && i < |cs|
    ensures Covered(cs, ids + [i], topic)
         == (if topic.Covers(cs[i].payload) then Covered(cs, ids, topic) + [i] else Covered(cs, ids, topic))
    decreases |ids|
  {
    CoveredHead(cs, ids + [i], topic);
    if ids == [] {
      assert (ids + [i])[1..] == [];
      assert Covered(cs, [], topic) == [];
    } else {
      assert (ids + [i])[1..] == ids[1..] + [i];
      CoveredHead(cs, ids, topic);
      CoveredAppend(cs, ids[1..], i, topic);
    }
    hide Covered;
  }

  lemma {:induction false} CoveredByPayload(cs: seq<Command>, cs': seq<Command>, ids: seq<nat>, topic: Topic)
    requires InRange(cs, ids) && |cs| <= |cs'|
    requires forall i :: 0 <= i < |cs| ==> topic.Covers(cs'[i].payload) == topic.Covers(cs[i].payload)
    ensures Covered(cs', ids, topic) == Covered(cs, ids, topic)
    decreases |ids|
  {
    if ids != [] { CoveredByPayload(cs, cs', ids[1..], topic); }
  }

  /** The loops see only the commands of their topic. */
  lemma {:induction false} CancelSeesTopic(cs: seq<Command>, ids: seq<nat>, topic: Topic)
    requires InRange(cs, ids)
    ensures CancelListed(cs, ids, topic) == CancelListed(cs, Covered(cs, ids, topic), topic)
    decreases |ids|
  {
    if ids != [] {
      var i := ids[0];
      var next := if topic.Covers(cs[i].payload) && cs[i].status.Queued? then CancelAt(cs, i) else cs;
      CancelSeesTopic(next, ids[1..], topic);
      CoveredByPayload(cs, next, ids[1..], topic);
      CoveredHead(cs, ids, topic);
      hide Covered;
    }
  }

  lemma {:induction false} SupersedeSeesTopic(cs: seq<Command>, ids: seq<nat>, goal: Goal)
    requires InRange(cs, ids)
    ensures Supersede(cs, ids, goal) == Supersede(cs, Covered(cs, ids, goal.Topic()), goal)
    decreases |ids|
  {
    if ids != [] {
      var i, topic := ids[0], goal.Topic();
      var next := if topic.Covers(cs[i].payload) && cs[i].status.Queued? then CancelAt(cs, i) else cs;
      SupersedeSeesTopic(next, ids[1..], goal);
      CoveredByPayload(cs, next, ids[1..], topic);
      CoveredHead(cs, ids, topic);
      hide Covered;
    }
  }

  lemma CoveredActive(cs: seq<Command>, now: Time, topic: Topic, n: nat)
    requires 0 < n <= |cs|
    ensures Covered(cs, ActiveIds(cs, now, n), topic)
         == (var before := Covered(cs, ActiveIds(cs, now, n - 1), topic);
             if topic.Covers(cs[n - 1].payload) && Active(cs[n - 1], now) then before + [n - 1] else before)
  {
    var ids, more := ActiveIds(cs, now, n - 1), ActiveIds(cs, now, n);
    assert more == if Active(cs[n - 1], now) then ids + [n - 1] else ids;
    CoveredAppend(cs, ids, n - 1, topic);
    hide Covered, ActiveIds, Active;
  }

  /** Adding and changing commands of other topics leaves a topic's part of the active list as it was. */
  lemma {:induction false} ListedAsBefore(cs: seq<Command>, cs': seq<Command>, now: Time, topic: Topic, n: nat)
    requires |cs| <= |cs'| && n <= |cs|
    requires forall i :: 0 <= i < |cs| && (topic.Covers(cs[i].payload) || topic.Covers(cs'[i].payload)) ==>
      cs'[i] == cs[i]
    ensures Covered(cs', ActiveIds(cs', now, n), topic) == Covered(cs, ActiveIds(cs, now, n), topic)
  {
    if n > 0 {
      hide Covered, ActiveIds, Active, InRange;
      ListedAsBefore(cs, cs', now, topic, n - 1);
      CoveredActive(cs', now, topic, n);
      CoveredActive(cs, now, topic, n);
    }
  }

  lemma {:induction false} OthersAreNotListed(cs: seq<Command>, now: Time, topic: Topic, m: nat, n: nat)
    requires m <= n <= |cs| && forall i :: m <= i < n ==> !topic.Covers(cs[i].payload)
    ensures Covered(cs, ActiveIds(cs, now, n), topic) == Covered(cs, ActiveIds(cs, now, m), topic)
  {
    if m < n {
      hide Covered, ActiveIds, Active, InRange;
      OthersAreNotListed(cs, now, topic, m, n - 1);
      CoveredActive(cs, now, topic, n);
    }
  }

  lemma SameLoops(cs: seq<Command>, ids: seq<nat>, ids': seq<nat>, goal: Goal)
    requires InRange(cs, ids) && InRange(cs, ids') && Covered(cs, ids, goal.Topic()) == Covered(cs, ids', goal.Topic())
    ensures CancelListed(cs, ids, goal.Topic()) == CancelListed(cs, ids', goal.Topic())
    ensures Supersede(cs, ids, goal) == Supersede(cs, ids', goal)
  {
    hide Supersede, CancelListed, Covered;
    CancelSeesTopic(cs, ids, goal.Topic());
    CancelSeesTopic(cs, ids', goal.Topic());
    SupersedeSeesTopic(cs, ids, goal);
    SupersedeSeesTopic(cs, ids', goal);
  }

  /** Two lists with the same lockdown commands lead to the same result. */
  lemma SameLockdownResult(c: Client, r: Report, ids: seq<nat>, ids': seq<nat>, now: Time)
    requires InRange(c.commands, ids) && InRange(c.commands, ids')
    requires Covered(c.commands, ids, Lockdowns) == Covered(c.commands, ids', Lockdowns)
    ensures ReconcileLockdown(c, r, Some(ids), now).client == ReconcileLockdown(c, r, Some(ids'), now).client
    ensures ReconcileLockdown(c, r, Some(ids), now).command == ReconcileLockdown(c, r, Some(ids'), now).command
  {
    hide Supersede, CancelListed, Covered, Observe, RetryRecent;
    SameLoops(c.commands, ids, ids', Enabled(c.lock.enabled));
  }

  /** Reading now is the same as having just read. */
  lemma FreshIsListed(c: Client, r: Report, now: Time)
    ensures var separate := ReconcileLockdown(c, r, None, now);
      var listed := ReconcileLockdown(c, r, Some(ActiveIds(c.commands, now, |c.commands|)), now);
      separate.client == listed.client && separate.command == listed.command
  {
    hide Supersede, CancelListed, ActiveIds, Observe, RetryRecent;
  }

  /** The configuration reconciler changes and adds configuration commands only. */
  lemma ConfigurationTouchesItsTopic(c: Client, r: Report, now: Time)
    ensures var q := ReconcileConfiguration(c, r, None, now);
      var cs, cs' := c.commands, q.client.commands;
      && |cs| <= |cs'|
      && (forall i :: 0 <= i < |cs'| && Lockdowns.Covers(cs'[i].payload) ==> i < |cs| && cs'[i] == cs[i])
      && (forall i :: 0 <= i < |cs| && Lockdowns.Covers(cs[i].payload) ==> cs'[i] == cs[i])
      && (forall i :: 0 <= i < |cs| ==> Lockdowns.Covers(cs'[i].payload) == Lockdowns.Covers(cs[i].payload))
      && (q.cache.Some? ==> q.cache.value == ActiveIds(cs, now, |cs|))
  {
    if r.supportsCommands && c.desired.Some? {
      var ids := ActiveIds(c.commands, now, |c.commands|);
      CancelListedDoes(c.commands, ids, Configurations);
      var k := SupersedeDoes(c.commands, ids, Revision(c.desired.value.revision));
      hide Supersede, CancelListed, ActiveIds;
    }
  }

  /** Reading the active commands once for both reconcilers gives what two fresh reads would give. */
  lemma SharedListIsFresh(c: Client, r: Report, now: Time)
    ensures var q := ReconcileConfiguration(c, r, None, now);
      var shared, separate := ReconcileLockdown(q.client, r, q.cache, now), ReconcileLockdown(q.client, r, None, now);
      shared.client == separate.client && shared.command == separate.command
    ensures ApplyStatus(c, r, now) == ApplyStatusFresh(c, r, now)
  {
    var q := ReconcileConfiguration(c, r, None, now);
    var cs := q.client.commands;
    ConfigurationTouchesItsTopic(c, r, now);
    FreshIsListed(q.client, r, now);
    if q.cache.Some? {
      ListedAsBefore(c.commands, cs, now, Lockdowns, |c.commands|);
      OthersAreNotListed(cs, now, Lockdowns, |c.commands|, |cs|);
      CoveredByPayload(c.commands, cs, q.cache.value, Lockdowns);
      SameLockdownResult(q.client, r, q.cache.value, ActiveIds(cs, now, |cs|), now);
    }
    hide ReconcileConfiguration, ReconcileLockdown;
  }

  // ---------------------------------------------------------------- the rows themselves

  class DisplayClient {
    var commands: seq<Command>
    var desired: Option<Desired>
    ghost var configs: seq<Config>
    var lock: Lock
    ghost var clock: Time

    ghost function Rows(): Client
      reads this
    {
      Client(commands, desired, configs, lock, clock)
    }

    ghost predicate Valid()
      reads this
    {
      Inv(Rows())
    }

    constructor (lock: Lock, now: Time)
      ensures Valid() && Rows() == Client([], None, [], lock, now)
    {
      commands, desired, this.lock := [], None, lock;
      configs, clock := [], now;
    }

    method SetKioskUrl(url: Option<string>, now: Time)
      requires Valid() && clock < now
      modifies this
      ensures Valid() && Rows() == Step(old(Rows()), Timed(UrlSet(url), now))
      ensures desired.Some? && desired.value.url == url
      ensures old(desired).Some? ==>
        && desired.value.interval == old(desired).value.interval
        && (desired.value.revision == old(desired).value.revision <==> old(desired).value.url == url)
    {
      StepKeeps(Rows(), Timed(UrlSet(url), now));
      hide Inv;
      if desired.None? {
        desired := Some(Desired(1, url, DEFAULT_REFRESH));
        configs := configs + [Config(url, DEFAULT_REFRESH)];
      } else if desired.value.url != url {
        desired := Some(desired.value.(revision := desired.value.revision + 1));
        desired := Some(desired.value.(url := url));
        configs := configs + [Config(url, desired.value.interval)];
      }
      clock := now;
    }

    method SetRefreshInterval(interval: int, now: Time)
      requires Valid() && clock < now
      modifies this
      ensures Valid() && Rows() == Step(old(Rows()), Timed(IntervalSet(interval), now))
      ensures desired.Some? && desired.value.interval == interval
      ensures old(desired).Some? ==>
        && desired.value.url == old(desired).value.url
        && (desired.value.revision == old(desired).value.revision <==> old(desired).value.interval == interval)
    {
      StepKeeps(Rows(), Timed(IntervalSet(interval), now));
      hide Inv;
      if desired.None? {
        desired := Some(Desired(1, None, interval));
        configs := configs + [Config(None, interval)];
      } else if desired.value.interval != interval {
        desired := Some(desired.value.(revision := desired.value.revision + 1));
        desired := Some(desired.value.(interval := interval));
        configs := configs + [Config(desired.value.url, interval)];
      }
      clock := now;
    }

    /** The loop that cancels what waits in vain. */
    method CancelQueued(ids: seq<nat>, topic: Topic)
      requires InRange(commands, ids)
      modifies this`commands
      ensures commands == CancelListed(old(commands), ids, topic)
    {
      for k := 0 to |ids|
        invariant |commands| == |old(commands)|
        invariant CancelListed(commands, ids[k..], topic) == CancelListed(old(commands), ids, topic)
      {
        var i := ids[k];
        assert ids[k..][1..] == ids[k + 1..];
        if topic.Covers(commands[i].payload) && commands[i].status.Queued? {
          commands := commands[i := commands[i].(status := Cancelled)];
        }
      }
    }

    /** The loop that looks for the wanted command and cancels others on its way. */
    method FindWanted(ids: seq<nat>, goal: Goal) returns (found: Option<nat>)
      requires InRange(commands, ids)
      modifies this`commands
      ensures (commands, found) == Supersede(old(commands), ids, goal)
    {
      for k := 0 to |ids|
        invariant |commands| == |old(commands)|
        invariant Supersede(commands, ids[k..], goal) == Supersede(old(commands), ids, goal)
      {
        var i := ids[k];
        assert ids[k..][1..] == ids[k + 1..];
        if goal.Topic().Covers(commands[i].payload) {
          if goal.Met(commands[i].payload) { return Some(i); }
          if commands[i].status.Queued? {
            commands := commands[i := commands[i].(status := Cancelled)];
          }
        }
      }
      return None;
    }

    /** `queue_display_command`. */
    method QueueCommand(payload: Payload, ttlSeconds: int, now: Time) returns (id: nat)
      modifies this`commands
      ensures commands == Queue(old(commands), payload, ttlSeconds, now) && id == |old(commands)|
      ensures old(commands) < commands && commands[id].status.Queued? && commands[id].payload == payload
      ensures commands[id].expiresAt >= now + MIN_TTL_SECONDS * SECOND
    {
      id := |commands|;
      var ttl := if ttlSeconds < MIN_TTL_SECONDS then MIN_TTL_SECONDS else ttlSeconds;
      commands := commands + [Command(payload, now, now + ttl * SECOND, Queued)];
    }

    method ReconcileDisplayConfiguration(r: Report, cache: Option<seq<nat>>, now: Time)
      returns (command: Option<nat>, cached: Option<seq<nat>>)
      requires CacheOk(Rows(), cache)
      modifies this`commands
      ensures Reconciled(Rows(), command, cached) == ReconcileConfiguration(old(Rows()), r, cache, now)
    {
      hide Supersede, CancelListed, ActiveIds;
      if !r.supportsCommands || desired.None? { return None, cache; }
      var ids := if cache.Some? then cache.value else ActiveIds(commands, now, |commands|);
      cached := Some(ids);
      var targetSchema := if r.supportsV2 then V2_SCHEMA else V1_SCHEMA;
      if r.revision == Some(desired.value.revision) && r.schema >= targetSchema {
        CancelQueued(ids, Configurations);
        return None, cached;
      }
      command := FindWanted(ids, Revision(desired.value.revision));
      if command.Some? { return; }
      var payload := if r.supportsV2
        then Configuration(V2_SCHEMA, desired.value.revision, desired.value.url, Some(desired.value.interval))
        else Configuration(V1_SCHEMA, desired.value.revision, desired.value.url, None);
      var id := QueueCommand(payload, RECONCILE_TTL_SECONDS, now);
      command := Some(id);
    }

    method ReconcileKioskLockdown(r: Report, cache: Option<seq<nat>>, now: Time)
      returns (command: Option<nat>, cached: Option<seq<nat>>)
      requires CacheOk(Rows(), cache)
      modifies this`commands, this`lock
      ensures Reconciled(Rows(), command, cached) == ReconcileLockdown(old(Rows()), r, cache, now)
    {
      hide Supersede, CancelListed, ActiveIds, RetryRecent;
      if !r.supportsCommands { return None, cache; }
      var state := if r.lockdown.Some? then r.lockdown.value.state else Unknown;
      var observed := if r.lockdown.Some? then r.lockdown.value.desired else None;
      var previous := lock.state;
      if state.Recorded() {
        lock := lock.(state := state);
        if (state.Applied? || state.Disabled?) && previous != state { lock := lock.(lastAppliedAt := Some(now)); }
      }
      var enabled := lock.enabled;
      if r.lockdown.None? && !enabled && !previous.Pending? { return None, cache; }
      var ids := if cache.Some? then cache.value else ActiveIds(commands, now, |commands|);
      cached := Some(ids);
      if observed == Some(enabled) && state == (if enabled then Applied else Disabled) {
        CancelQueued(ids, Lockdowns);
        return None, cached;
      }
      command := FindWanted(ids, Enabled(enabled));
      if command.Some? { return; }
      if state.Drifted? && RetryRecent(lock, observed, now) { return None, cached; }
      lock := lock.(state := Pending);
      var id := QueueCommand(Lockdown(enabled), RECONCILE_TTL_SECONDS, now);
      command := Some(id);
    }

    /** A display status report: one list of active commands for both reconcilers. */
    method ApplyStatusReport(r: Report, now: Time)
      requires Valid() && clock < now
      modifies this
      ensures Valid() && Rows() == Step(old(Rows()), Timed(Reported(r), now))
    {
      StepKeeps(Rows(), Timed(Reported(r), now));
      hide Inv, ReconcileConfiguration, ReconcileLockdown;
      var first, cache := ReconcileDisplayConfiguration(r, None, now);
      var second, rest := ReconcileKioskLockdown(r, cache, now);
      clock := now;
    }
  }
}
