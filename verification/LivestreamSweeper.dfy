/**
 The background sweeper beside the process it watches: when it sleeps through
 the long idle interval, no client needs it, and no wake-up is lost.
 */
module LivestreamSweeper {
  import opened Options
  import opened LivestreamClient
  import opened LivestreamSafety
  import opened LivestreamWorld
  import opened LivestreamSweep
  import opened LivestreamRuns

  // ---------------------------------------------------------------- calm lasts until someone notifies

  /** While a stop is awaited, a transaction that wakes nobody leaves the generations alone. */
  lemma CalmWhileStopping(c: Client, env: Env, e: Event)
    requires Inv(c) && NoneLive(c.generations) && HasStopping(c)
    requires Transact(c, env, e).notices == 0
    ensures Step(c, env, e).generations == c.generations
  {
    OnlyCurrentActive(c.generations);
    assert Current(c.generations).Some? && c.generations[Current(c.generations).value].state.Stopping? by {
      var i :| 0 <= i < |c.generations| && c.generations[i].state.Stopping?;
      assert Current(c.generations) == Some(i);
    }
    if e.StatusEvent? { CalmReport(c, env, e.report); }
  }

  lemma CalmReport(c: Client, env: Env, report: AgentReport)
    requires Inv(c) && NoneLive(c.generations) && HasStopping(c) && AgentStatus(c, report, env).notices == 0
    ensures Committed(c, AgentStatus(c, report, env)).generations == c.generations
  {
    StatusSplits(c, report, env);
    OnlyCurrentActive(c.generations);
  }

  /** With nothing running and nobody present, neither does a transaction that is no accepted heartbeat. */
  lemma CalmWhileIdle(c: Client, env: Env, e: Event)
    requires Inv(c) && NoneLive(c.generations) && !HasStopping(c)
    requires !AnyOpen(c.viewers) && env.live == {} && !env.activity
    requires Transact(c, env, e).notices == 0
    requires e.HeartbeatEvent? ==> Transact(c, env, e).Refused?
    ensures Step(c, env, e).generations == c.generations
    ensures !AnyOpen(Step(c, env, e).viewers)
  {
    OnlyCurrentActive(c.generations);
    assert forall i :: 0 <= i < |c.generations| ==> !c.generations[i].state.Active();
    assert !AnyOpen(ExpireStale(c, env).viewers);
    if e.StatusEvent? { StatusSplits(c, e.report, env); }
  }

  lemma CalmRequest(w: World, id: ClientId, e: Event)
    requires WorldInv(w) && Calm(w) && Request(w, id, e).revision == w.revision
    ensures Calm(Request(w, id, e))
  {
    if id in w.clients {
      var w' := Request(w, id, e);
      CalmClient(w, id, e);
      forall x | x in w'.clients
        ensures NoneLive(w'.clients[x].generations) && (HasStopping(w'.clients[x]) || Unattended(w', x))
      {
        KeysOnlyTouched(w, id, e, x);
      }
    }
  }

  /** What the client of a quiet request is left with. */
  lemma CalmClient(w: World, id: ClientId, e: Event)
    requires WorldInv(w) && Calm(w) && Request(w, id, e).revision == w.revision && id in w.clients
    ensures Request(w, id, e).clients[id].generations == w.clients[id].generations
    ensures HasStopping(Request(w, id, e).clients[id]) || !AnyOpen(Request(w, id, e).clients[id].viewers)
    ensures HasStopping(w.clients[id]) == HasStopping(Request(w, id, e).clients[id])
    ensures !HasStopping(w.clients[id]) && e.HeartbeatEvent? ==> !ReplyTo(w, id, e).Done?
  {
    var c, env := w.clients[id], EnvOf(w, id);
    if HasStopping(c) {
      CalmWhileStopping(c, env, e);
    } else {
      assert env.live == {};
      if e.HeartbeatEvent? { assert (id, e.id, e.principal) !in w.presence; }
      CalmWhileIdle(c, env, e);
    }
  }

  /** A request adds no viewer key for any other client, and for its own only by an accepted heartbeat. */
  lemma KeysOnlyTouched(w: World, id: ClientId, e: Event, x: ClientId)
    requires id in w.clients
    ensures forall k :: k in Request(w, id, e).presence && k.0 == x ==>
      k in w.presence || (x == id && e.HeartbeatEvent? && ReplyTo(w, id, e).Done?)
  {
  }

  lemma CalmSweep(w: World)
    requires WorldInv(w) && Calm(w)
    ensures Calm(AfterSweep(w, PlainSweep(w)))
  {
    forall id | id in w.clients ensures ChoiceFor(w, id).None? {
      CalmNeedsNothing(w, id, 0);
      assert w.(now := w.now + 0) == w;
    }
    QuietPlainSweep(w);
    var w' := AllExpired(Pruned(w));
    forall id | id in w'.clients
      ensures NoneLive(w'.clients[id].generations) && (HasStopping(w'.clients[id]) || Unattended(w', id))
    {
      assert w'.clients[id].generations == w.clients[id].generations;
      if HasStopping(w.clients[id]) {
        assert HasStopping(w'.clients[id]);
      } else {
        assert !AnyOpen(w'.clients[id].viewers);
      }
    }
  }

  lemma {:induction false} SweepOnlyNotifies(w: World, ids: seq<ClientId>)
    ensures ReconcileEach(w, ids).Swept? ==> ReconcileEach(w, ids).world.revision >= w.revision
    decreases |ids|
  {
    if ids != [] && ids[0] in w.clients { SweepOnlyNotifies(Request(w, ids[0], ReconcileEvent), ids[1..]); }
  }

  lemma RevisionNeverFalls(w: World, e: WorldEvent)
    ensures Next(w, e).revision >= w.revision
  {
    hide Transact;
    if e.SweepAll? {
      SweepOnlyNotifies(Pruned(w), IdOrder.Ascending(w.clients.Keys + Strays(w)));
    }
  }

  lemma CalmStep(w: World, e: WorldEvent)
    requires WorldInv(w) && Calm(w) && Next(w, e).revision == w.revision
    ensures Calm(Next(w, e))
  {
    match e
    case ClientRequest(id, event) => CalmRequest(w, id, event);
    case SweepAll => CalmSweep(w);
    case _ =>
  }

  /** From a calm world, whatever happens and however long it takes, the world stays calm until the revision moves. */
  lemma {:induction false} CalmUntilNotified(w: World, events: seq<WorldEvent>)
    requires WorldInv(w) && Calm(w)
    ensures WorldInv(History(w, events)) && History(w, events).revision >= w.revision
    ensures History(w, events).revision == w.revision ==> Calm(History(w, events))
  {
    if events != [] {
      var n := |events| - 1;
      CalmUntilNotified(w, events[..n]);
      var before := History(w, events[..n]);
      NextKeepsWorld(before, events[n]);
      RevisionNeverFalls(before, events[n]);
      if Next(before, events[n]).revision == w.revision { CalmStep(before, events[n]); }
    }
  }

  // ---------------------------------------------------------------- the sweeper's loop

  /**
   `_sweeper_loop`: `seen` is the revision its wait returned last, `idle` the
   long interval, `awake` the stretch from the end of a wait to its scan, and
   `scanned` the revision at the start of the last scan.
   */
  datatype Sweeper = Sweeper(seen: nat, idle: bool, awake: bool, since: Time, scanned: Option<nat>)

  type SweepSeconds = n: int | n >= 2 witness 5
  type IdleSeconds = n: int | n >= 600 witness 3600
  const VIEWER_SWEEP_SECONDS: SweepSeconds
  const VIEWER_IDLE_SWEEP_SECONDS: IdleSeconds

  datatype System = System(world: World, sweeper: Sweeper)

  datatype SystemEvent = Happens(event: WorldEvent) | WaitReturns | Scans

  function Interval(s: Sweeper): Time {
    (if s.idle then VIEWER_IDLE_SWEEP_SECONDS else VIEWER_SWEEP_SECONDS) * SECOND
  }

  /** The wait ends early exactly when the revision is not the one it was given. */
  predicate WaitOver(s: System) {
    s.world.revision != s.sweeper.seen || s.world.now >= s.sweeper.since + Interval(s.sweeper)
  }

  predicate Enabled(s: System, e: SystemEvent) {
    match e
    case Happens(event) => !event.SweepAll?
    case WaitReturns => !s.sweeper.awake && WaitOver(s)
    case Scans => s.sweeper.awake
  }

  ghost function Advance(s: System, e: SystemEvent): System
    requires Enabled(s, e)
  {
    match e
    case Happens(event) => s.(world := Next(s.world, event))
    case WaitReturns => s.(sweeper := s.sweeper.(seen := s.world.revision, awake := true))
    case Scans =>
      var result := PlainSweep(s.world);
      var idle := result.Swept? && !NeedsFastScan(s.world);
      System(AfterSweep(s.world, result),
             Sweeper(s.sweeper.seen, idle, false, s.world.now, Some(s.world.revision)))
  }

  /** `SystemRun(events, s)`: the process and its sweeper reach `s` from start-up by these events. */
  ghost predicate SystemRun(events: seq<SystemEvent>, s: System)
    decreases |events|
  {
    if events == [] then
      s.world == START && s.sweeper == Sweeper(s.world.revision, false, false, s.world.now, None)
    else
      var n := |events| - 1;
      exists before :: SystemRun(events[..n], before) && Enabled(before, events[n]) && s == Advance(before, events[n])
  }

  ghost predicate SystemInv(s: System) {
    && WorldInv(s.world)
    && s.sweeper.seen <= s.world.revision
    && (s.sweeper.scanned.Some? && !s.sweeper.awake ==> s.sweeper.seen <= s.sweeper.scanned.value <= s.world.revision)
    && (s.sweeper.scanned.None? && !s.sweeper.awake ==> s.sweeper.seen == START.revision)
    && (s.sweeper.idle ==> s.sweeper.scanned.Some?)
    && (s.sweeper.idle && !s.sweeper.awake && s.sweeper.seen == s.world.revision ==> Calm(s.world))
  }

  lemma AdvanceKeeps(s: System, e: SystemEvent)
    requires SystemInv(s) && Enabled(s, e)
    ensures SystemInv(Advance(s, e))
  {
    match e
    case Happens(event) =>
      NextKeepsWorld(s.world, event);
      RevisionNeverFalls(s.world, event);
      if Next(s.world, event).revision == s.world.revision && Calm(s.world) { CalmStep(s.world, event); }
    case WaitReturns =>
    case Scans =>
      NextKeepsWorld(s.world, SweepAll);
      RevisionNeverFalls(s.world, SweepAll);
      if !NeedsFastScan(s.world) { QuietScanLeavesCalm(s.world); }
  }

  lemma {:induction false} SystemRunKeeps(events: seq<SystemEvent>, s: System)
    requires SystemRun(events, s)
    ensures SystemInv(s)
    decreases |events|
  {
    if events != [] {
      var n := |events| - 1;
      var before :| SystemRun(events[..n], before) && Enabled(before, events[n]) && s == Advance(before, events[n]);
      SystemRunKeeps(events[..n], before);
      AdvanceKeeps(before, events[n]);
    }
  }

  lemma IdleIsCalm(s: System)
    requires SystemInv(s) && s.sweeper.idle && !s.sweeper.awake && s.sweeper.seen == s.world.revision
    ensures WorldInv(s.world) && Calm(s.world)
  {
  }

  /** While the sweeper sleeps idle with no wake-up pending, the reconciler would act on no client, now or later. */
  lemma IdleSweeperMissesNothing(events: seq<SystemEvent>, s: System, id: ClientId, later: nat)
    requires SystemRun(events, s)
    requires s.sweeper.idle && !s.sweeper.awake && s.sweeper.seen == s.world.revision
    requires id in s.world.clients
    ensures ChoiceFor(s.world.(now := s.world.now + later), id).None?
  {
    SystemRunKeeps(events, s);
    IdleIsCalm(s);
    CalmNeedsNothing(s.world, id, later);
  }

  /** A notification is never lost: if the last scan started before it, the wait is already over. */
  lemma EveryNoticeIsScanned(events: seq<SystemEvent>, s: System)
    requires SystemRun(events, s) && !s.sweeper.awake && s.sweeper.scanned.Some?
    ensures s.sweeper.scanned.value < s.world.revision ==> WaitOver(s)
    ensures s.sweeper.scanned.value <= s.world.revision
  {
    SystemRunKeeps(events, s);
  }

  /** A notification the last scan did not see: it came after that scan began, or there was no scan yet. */
  predicate NoticePending(s: System) {
    if s.sweeper.scanned.Some? then s.sweeper.scanned.value < s.world.revision else s.world.revision > START.revision
  }

  /** The sweeper's next moves with nothing in between: end its wait if it waits, then scan. */
  ghost function WokenAndScanned(s: System): System
    requires s.sweeper.awake || WaitOver(s)
  {
    Advance(if s.sweeper.awake then s else Advance(s, WaitReturns), Scans)
  }

  /** With a notification pending the sweeper is awake or free to wake, and the scan that follows has seen it. */
  lemma PendingNoticeIsScanned(events: seq<SystemEvent>, s: System)
    requires SystemRun(events, s) && NoticePending(s)
    ensures s.sweeper.awake || WaitOver(s)
    ensures WokenAndScanned(s).sweeper.scanned == Some(s.world.revision)
  {
    SystemRunKeeps(events, s);
    hide PlainSweep, AfterSweep, NeedsFastScan, Next;
  }

  /** `s` goes on to `t` by these events. */
  ghost predicate GoesOn(s: System, events: seq<SystemEvent>, t: System)
    decreases |events|
  {
    if events == [] then s == t else Enabled(s, events[0]) && GoesOn(Advance(s, events[0]), events[1..], t)
  }

  lemma {:induction false} ScannedAtLeast(s: System, events: seq<SystemEvent>, t: System, notice: nat)
    requires GoesOn(s, events, t) && s.world.revision >= notice
    requires (exists i :: 0 <= i < |events| && events[i].Scans?)
      || (s.sweeper.scanned.Some? && s.sweeper.scanned.value >= notice)
    ensures t.sweeper.scanned.Some? && t.sweeper.scanned.value >= notice
    decreases |events|
  {
    hide Next, PlainSweep, AfterSweep, NeedsFastScan;
    if events != [] {
      var e := events[0];
      var next := Advance(s, e);
      match e {
        case Happens(event) => RevisionNeverFalls(s.world, event);
        case WaitReturns =>
        case Scans => ScanKeepsRevision(s);
      }
      assert forall i :: 0 < i < |events| ==> events[i] == events[1..][i - 1];
      ScannedAtLeast(next, events[1..], t, notice);
    }
  }

  lemma ScanKeepsRevision(s: System)
    requires Enabled(s, Scans)
    ensures Advance(s, Scans).world.revision >= s.world.revision
  {
    RevisionNeverFalls(s.world, SweepAll);
  }

  /** Whatever else happens in between, once a scan has begun after a notification, the last scan has seen it. */
  lemma ScanSeesEarlierNotices(s: System, events: seq<SystemEvent>, t: System)
    requires GoesOn(s, events, t) && exists i :: 0 <= i < |events| && events[i].Scans?
    ensures t.sweeper.scanned.Some? && t.sweeper.scanned.value >= s.world.revision
  {
    ScannedAtLeast(s, events, t, s.world.revision);
  }

  // ---------------------------------------------------------------- per-client promises, for the whole process

  lemma {:induction false} SweptRows(w: World, ids: seq<ClientId>, id: ClientId)
    requires forall i, j :: 0 <= i < j < |ids| ==> ids[i] != ids[j]
    requires id in w.clients && ReconcileEach(w, ids).Swept?
    ensures var w' := ReconcileEach(w, ids).world;
      && id in w'.clients
      && (w'.clients[id] == w.clients[id]
          || exists env: Env :: w'.clients[id] == Step(w.clients[id], env, ReconcileEvent))
    decreases |ids|
  {
    hide Transact;
    if ids != [] {
      var mid := Request(w, ids[0], ReconcileEvent);
      SweptRows(mid, ids[1..], id);
      if ids[0] == id {
        assert id !in ids[1..];
        SweptElsewhere(mid, ids[1..], id);
        assert mid.clients[id] == Step(w.clients[id], EnvOf(w, id), ReconcileEvent);
      }
    }
  }

  lemma {:induction false} SweptElsewhere(w: World, ids: seq<ClientId>, id: ClientId)
    requires id in w.clients && id !in ids && ReconcileEach(w, ids).Swept?
    ensures id in ReconcileEach(w, ids).world.clients && ReconcileEach(w, ids).world.clients[id] == w.clients[id]
    decreases |ids|
  {
    hide Transact;
    if ids != [] { SweptElsewhere(Request(w, ids[0], ReconcileEvent), ids[1..], id); }
  }

  /** Whatever happens in the process, one client's rows stay or take one transaction of their own. */
  lemma NextIsOneStep(w: World, e: WorldEvent, id: ClientId) returns (env: Env, event: Event, stays: bool)
    requires id in w.clients
    ensures id in Next(w, e).clients
    ensures stays ==> Next(w, e).clients[id] == w.clients[id]
    ensures !stays ==> Next(w, e).clients[id] == Step(w.clients[id], env, event)
    ensures !stays && event.OperatorStart() ==> e == ClientRequest(id, event)
  {
    hide Transact;
    env, event, stays := EnvOf(w, id), ReconcileEvent, true;
    match e
    case ClientRequest(x, ev) =>
      if x == id { event, stays := ev, false; }
    case SweepAll =>
      if PlainSweep(w).Swept? {
        SweptRows(Pruned(w), IdOrder.Ascending(w.clients.Keys + Strays(w)), id);
        if PlainSweep(w).world.clients[id] != w.clients[id] {
          env :| PlainSweep(w).world.clients[id] == Step(w.clients[id], env, ReconcileEvent);
          stays := false;
        }
      }
    case _ =>
  }

  /** The latch over whole histories of the process: only that client's operator start or restart releases it. */
  lemma {:induction false} LatchHoldsInProcess(w: World, events: seq<WorldEvent>, id: ClientId)
    requires WorldInv(w) && id in w.clients && w.clients[id].Latched()
    requires forall i :: 0 <= i < |events| ==>
      !(events[i].ClientRequest? && events[i].id == id && events[i].event.OperatorStart())
    ensures WorldInv(History(w, events)) && id in History(w, events).clients
    ensures var c := History(w, events).clients[id];
      c.Latched() && NoneLive(c.generations) && |c.generations| == |w.clients[id].generations|
  {
    if events != [] {
      var n := |events| - 1;
      LatchHoldsInProcess(w, events[..n], id);
      var before := History(w, events[..n]);
      NextKeepsWorld(before, events[n]);
      var env, event, stays := NextIsOneStep(before, events[n], id);
      if !stays { LatchStep(before.clients[id], env, event); }
    }
  }
}
