/**
 What every run of one client's control plane keeps: one active generation, one
 start-type command for each generation, the explicit-stop latch, the reset
 rate bound and the lease protocol of the command queue.

 The runs are unrestricted: any transactions in any order, reading any presence
 and any clock value.
 */
module LivestreamSafety {
  import opened Options
  import opened LivestreamClient

  // ---------------------------------------------------------------- the invariant

  ghost predicate OneActive(gens: seq<Generation>) {
    forall i, j :: 0 <= i < j < |gens| ==> !(gens[i].state.Active() && gens[j].state.Active())
  }

  predicate NoneLive(gens: seq<Generation>) {
    forall i :: 0 <= i < |gens| ==> !gens[i].state.Live()
  }

  /** Resets created in the closed window that opens at `from`. */
  function ResetsFrom(gens: seq<Generation>, from: Time): nat {
    if gens == [] then 0
    else
      var last := gens[|gens| - 1];
      ResetsFrom(gens[..|gens| - 1], from)
      + (if last.action.Reset? && from <= last.createdAt <= from + RESET_WINDOW then 1 else 0)
  }

  ghost predicate ResetsBounded(gens: seq<Generation>) {
    forall from :: ResetsFrom(gens, from) <= RESETS_PER_WINDOW
  }

  predicate Launches(c: Command, g: nat) { c.kind.Launch? && c.target == Some(g) }

  function LaunchCount(cmds: seq<Command>, g: nat): nat {
    if cmds == [] then 0 else LaunchCount(cmds[..|cmds| - 1], g) + (if Launches(cmds[|cmds| - 1], g) then 1 else 0)
  }

  predicate TargetsMatch(gens: seq<Generation>, cmds: seq<Command>) {
    forall k :: 0 <= k < |cmds| && cmds[k].kind.Launch? ==>
      cmds[k].target.Some? && cmds[k].target.value < |gens| && gens[cmds[k].target.value].action == cmds[k].kind.action
  }

  ghost predicate OneLaunchEach(gens: seq<Generation>, cmds: seq<Command>) {
    forall g: nat :: g < |gens| ==> LaunchCount(cmds, g) == 1
  }

  predicate CommandOk(c: Command, issued: nat) {
    && c.attempts <= COMMAND_MAX_ATTEMPTS
    && (c.state.Queued? ==> c.attempts < COMMAND_MAX_ATTEMPTS && c.token.None? && c.leaseUntil.None?)
    && (c.state.Leased? ==> c.token.Some? && c.leaseUntil.Some? && c.attempts > 0)
    && (c.token.Some? ==> c.token.value < issued)
  }

  predicate CommandsOk(cmds: seq<Command>, issued: nat) {
    forall k :: 0 <= k < |cmds| ==> CommandOk(cmds[k], issued)
  }

  function Attempts(cmds: seq<Command>): nat {
    if cmds == [] then 0 else Attempts(cmds[..|cmds| - 1]) + cmds[|cmds| - 1].attempts
  }

  ghost predicate Inv(c: Client) {
    && OneActive(c.generations)
    && (c.Latched() ==> NoneLive(c.generations))
    && ResetsBounded(c.generations)
    && TargetsMatch(c.generations, c.commands)
    && OneLaunchEach(c.generations, c.commands)
    && CommandsOk(c.commands, c.issued)
    && Attempts(c.commands) == c.issued
  }

  // ---------------------------------------------------------------- how rows may change

  /** Steps a command can still take before it is terminal. */
  function Rank(c: Command): int {
    if c.state.Terminal() then 0
    else 2 * (COMMAND_MAX_ATTEMPTS - c.attempts) + (if c.state.Leased? then 1 else 0)
  }

  predicate SameProgress(a: Command, b: Command) { a.state == b.state && a.attempts == b.attempts }

  predicate CommandEvolves(a: Command, b: Command) {
    && a.kind == b.kind && a.target == b.target && a.createdAt == b.createdAt
    && (a.state.Terminal() ==> b == a)
    && (SameProgress(a, b) || Rank(b) < Rank(a))
  }

  predicate NewCommand(c: Command) { c.state.Queued? && c.attempts == 0 && c.token.None? }

  predicate CommandsEvolve(a: seq<Command>, b: seq<Command>) {
    && |a| <= |b|
    && (forall k :: 0 <= k < |a| ==> CommandEvolves(a[k], b[k]))
    && (forall k :: |a| <= k < |b| ==> NewCommand(b[k]))
  }

  predicate GenerationEvolves(a: Generation, b: Generation) {
    a.action == b.action && a.createdAt == b.createdAt && (b.state.Active() ==> a.state.Active())
  }

  predicate GenerationsEvolve(a: seq<Generation>, b: seq<Generation>) {
    && |a| <= |b|
    && (forall i :: 0 <= i < |a| ==> GenerationEvolves(a[i], b[i]))
  }

  predicate Evolves(a: Client, b: Client) {
    && GenerationsEvolve(a.generations, b.generations)
    && CommandsEvolve(a.commands, b.commands)
    && a.issued <= b.issued
  }

  // ---------------------------------------------------------------- counting lemmas

  lemma {:induction false} SameStampsSameResets(a: seq<Generation>, b: seq<Generation>, from: Time)
    requires |a| == |b|
    requires forall i :: 0 <= i < |a| ==> a[i].action == b[i].action && a[i].createdAt == b[i].createdAt
    ensures ResetsFrom(a, from) == ResetsFrom(b, from)
  {
    if a != [] { SameStampsSameResets(a[..|a| - 1], b[..|b| - 1], from); }
  }

  lemma {:induction false} WindowCountedByRecent(gens: seq<Generation>, from: Time, now: Time)
    requires from >= now - RESET_WINDOW
    ensures ResetsFrom(gens, from) <= RecentResets(gens, now)
  {
    if gens != [] { WindowCountedByRecent(gens[..|gens| - 1], from, now); }
  }

  lemma {:induction false} SameLaunches(a: seq<Command>, b: seq<Command>, g: nat)
    requires |a| == |b|
    requires forall k :: 0 <= k < |a| ==> a[k].kind == b[k].kind && a[k].target == b[k].target
    ensures LaunchCount(a, g) == LaunchCount(b, g)
  {
    if a != [] { SameLaunches(a[..|a| - 1], b[..|b| - 1], g); }
  }

  lemma {:induction false} NoLaunchBeyond(gens: seq<Generation>, cmds: seq<Command>, g: nat)
    requires TargetsMatch(gens, cmds) && g >= |gens|
    ensures LaunchCount(cmds, g) == 0
  {
    if cmds != [] { NoLaunchBeyond(gens, cmds[..|cmds| - 1], g); }
  }

  lemma {:induction false} SameAttempts(a: seq<Command>, b: seq<Command>)
    requires |a| == |b|
    requires forall k :: 0 <= k < |a| ==> a[k].attempts == b[k].attempts
    ensures Attempts(a) == Attempts(b)
  {
    if a != [] { SameAttempts(a[..|a| - 1], b[..|b| - 1]); }
  }

  lemma {:induction false} OneMoreAttempt(a: seq<Command>, k: nat, b: Command)
    requires k < |a| && b.attempts == a[k].attempts + 1
    ensures Attempts(a[k := b]) == Attempts(a) + 1
  {
    var n := |a| - 1;
    if k == n {
      assert a[k := b][..n] == a[..n];
    } else {
      assert a[k := b][..n] == a[..n][k := b];
      OneMoreAttempt(a[..n], k, b);
    }
  }

  // ---------------------------------------------------------------- every transaction keeps the invariant

  /** Rows of existing generations and commands move on, nothing is added. */
  lemma RowsMoveOn(c: Client, d: Client)
    requires Inv(c)
    requires |c.generations| == |d.generations| && |c.commands| == |d.commands| && c.issued == d.issued
    requires forall i :: 0 <= i < |c.generations| ==> GenerationEvolves(c.generations[i], d.generations[i])
    requires forall k :: 0 <= k < |c.commands| ==>
      CommandEvolves(c.commands[k], d.commands[k]) && c.commands[k].attempts == d.commands[k].attempts
    requires CommandsOk(d.commands, d.issued)
    requires d.Latched() ==> NoneLive(d.generations)
    ensures Inv(d) && Evolves(c, d)
  {
    forall from ensures ResetsFrom(d.generations, from) <= RESETS_PER_WINDOW {
      SameStampsSameResets(c.generations, d.generations, from);
    }
    forall g: nat | g < |d.generations| ensures LaunchCount(d.commands, g) == 1 {
      SameLaunches(c.commands, d.commands, g);
    }
    SameAttempts(c.commands, d.commands);
  }

  lemma EnqueueHaltKeeps(c: Client, target: Option<nat>, now: Time)
    requires Inv(c)
    ensures Inv(Enqueue(c, Halt, target, now)) && Evolves(c, Enqueue(c, Halt, target, now))
  {
    var d := Enqueue(c, Halt, target, now);
    var n := |d.commands| - 1;
    assert d.commands[..n] == c.commands;
    assert Attempts(d.commands) == Attempts(c.commands) + d.commands[n].attempts;
  }

  /** Queued starts are cancelled and the current generation leaves the live states. */
  function Cleared(c: Client, to: GenState, reason: StopReason): Client {
    var g := Current(c.generations);
    c.(generations := if g.Some? then SetState(c.generations, g.value, to) else c.generations,
       commands := CancelLaunches(c.commands), stopReason := reason)
  }

  lemma ClearedKeeps(c: Client, to: GenState, reason: StopReason)
    requires Inv(c) && !to.Live()
    ensures var d := Cleared(c, to, reason); Inv(d) && Evolves(c, d) && NoneLive(d.generations)
    ensures !to.Active() ==> Current(Cleared(c, to, reason).generations).None?
  {
    OnlyCurrentActive(c.generations);
    RowsMoveOn(c, Cleared(c, to, reason));
  }

  lemma PushGenerationKeeps(c: Client, action: Action, now: Time)
    requires Inv(c) && !c.Latched() && Current(c.generations).None?
    requires action.Reset? ==> RecentResets(c.generations, now) < RESETS_PER_WINDOW
    ensures
      var d := Enqueue(c.(generations := c.generations + [Generation(Starting, action, now, None, None)]),
                       Launch(action), Some(|c.generations|), now);
      Inv(d) && Evolves(c, d)
  {
    var n, m := |c.generations|, |c.commands|;
    var gens := c.generations + [Generation(Starting, action, now, None, None)];
    var d := Enqueue(c.(generations := gens), Launch(action), Some(n), now);
    assert gens[..n] == c.generations && d.commands[..m] == c.commands;
    assert Attempts(d.commands) == Attempts(c.commands) + d.commands[m].attempts;
    forall from ensures ResetsFrom(gens, from) <= RESETS_PER_WINDOW {
      assert ResetsFrom(c.generations, from) <= RESETS_PER_WINDOW;
      if action.Reset? && from <= now <= from + RESET_WINDOW { WindowCountedByRecent(c.generations, from, now); }
    }
    forall g: nat | g < |gens| ensures LaunchCount(d.commands, g) == 1 {
      if g == n { NoLaunchBeyond(c.generations, c.commands, n); }
    }
  }

  lemma {:induction false} SameStampsSameRecent(a: seq<Generation>, b: seq<Generation>, now: Time)
    requires |a| == |b|
    requires forall i :: 0 <= i < |a| ==> a[i].action == b[i].action && a[i].createdAt == b[i].createdAt
    ensures RecentResets(a, now) == RecentResets(b, now)
  {
    if a != [] { SameStampsSameRecent(a[..|a| - 1], b[..|b| - 1], now); }
  }

  lemma NewGenerationKeeps(c: Client, action: Action, supersede: bool, now: Time)
    requires Inv(c) && !c.blocked
    requires supersede || Current(c.generations).None?
    requires action.Reset? ==> RecentResets(c.generations, now) < RESETS_PER_WINDOW
    ensures NewGeneration(c, action, supersede, now).Done?
    ensures var d := NewGeneration(c, action, supersede, now).client; Inv(d) && Evolves(c, d)
  {
    var mid := Cleared(c, Superseded, NoStop);
    ClearedKeeps(c, Superseded, NoStop);
    SameStampsSameRecent(c.generations, mid.generations, now);
    PushGenerationKeeps(mid, action, now);
    EvolvesThen(c, mid, NewGeneration(c, action, supersede, now).client);
  }

  lemma EvolvesThen(a: Client, b: Client, c: Client)
    requires Evolves(a, b) && Evolves(b, c) && |a.commands| == |b.commands|
    ensures Evolves(a, c)
  {
    forall k | 0 <= k < |a.commands| ensures CommandEvolves(a.commands[k], c.commands[k]) {
      assert CommandEvolves(a.commands[k], b.commands[k]) && CommandEvolves(b.commands[k], c.commands[k]);
    }
  }

  lemma OnlyCurrentActive(gens: seq<Generation>)
    requires OneActive(gens)
    ensures forall i :: 0 <= i < |gens| && gens[i].state.Active() ==> Current(gens) == Some(i)
  {
  }

  lemma RequestStartKeeps(c: Client, now: Time)
    requires Inv(c)
    ensures var d := Committed(c, RequestStart(c, now)); Inv(d) && Evolves(c, d)
  {
    if !c.blocked && Current(c.generations).None? { NewGenerationKeeps(c, Start, false, now); }
  }

  lemma RequestStopKeeps(c: Client, explicit: bool, source: string, now: Time)
    requires Inv(c)
    ensures RequestStop(c, explicit, source, now).Done?
    ensures var d := RequestStop(c, explicit, source, now).client; Inv(d) && Evolves(c, d)
  {
    var reason := if explicit then ExplicitStop(source) else if c.Latched() then c.stopReason else ImplicitStop(source);
    var halted := Cleared(c, Stopping, reason);
    ClearedKeeps(c, Stopping, reason);
    EnqueueHaltKeeps(halted, Current(c.generations), now);
    EvolvesThen(c, halted, Enqueue(halted, Halt, Current(c.generations), now));
  }

  lemma StartAfterKeeps(c: Client, d: Client, now: Time)
    requires Inv(c) && Inv(d) && Evolves(c, d) && |c.commands| == |d.commands|
    ensures var e := Committed(c, RequestStart(d, now)); Inv(e) && Evolves(c, e)
  {
    RequestStartKeeps(d, now);
    if RequestStart(d, now).Done? { EvolvesThen(c, d, RequestStart(d, now).client); }
  }

  lemma HeartbeatKeeps(c: Client, id: ViewerId, principal: Principal, now: Time)
    requires Inv(c)
    ensures var d := Committed(c, Heartbeat(c, id, principal, now)); Inv(d) && Evolves(c, d)
  {
    var reply := Heartbeat(c, id, principal, now);
    if reply.Done? {
      var i := FindViewer(c.viewers, id);
      var rows :=
        if i == |c.viewers| then c.viewers + [Viewer(id, principal, now, None)]
        else if c.viewers[i].Open() then c.viewers
        else c.viewers[i := c.viewers[i].(lastSeen := now, endedAt := None)];
      StartAfterKeeps(c, c.(viewers := rows), now);
    }
  }

  lemma LeaseKeeps(c: Client, k: nat, leased: Command)
    requires Inv(c) && k < |c.commands| && c.commands[k].state.Queued?
    requires leased.state.Leased? && leased.token == Some(c.issued) && leased.leaseUntil.Some?
    requires leased.attempts == c.commands[k].attempts + 1
    requires leased.kind == c.commands[k].kind && leased.target == c.commands[k].target
    requires leased.createdAt == c.commands[k].createdAt
    ensures var d := c.(commands := c.commands[k := leased], issued := c.issued + 1); Inv(d) && Evolves(c, d)
  {
    var d := c.(commands := c.commands[k := leased], issued := c.issued + 1);
    OneMoreAttempt(c.commands, k, leased);
    forall g: nat | g < |d.generations| ensures LaunchCount(d.commands, g) == 1 {
      SameLaunches(c.commands, d.commands, g);
    }
  }

  lemma RecoverKeeps(c: Client, now: Time)
    requires Inv(c)
    ensures var d := c.(commands := Recover(c.commands, now)); Inv(d) && Evolves(c, d)
  {
    RowsMoveOn(c, c.(commands := Recover(c.commands, now)));
  }

  lemma ClaimKeeps(c: Client, leaseSeconds: nat, now: Time)
    requires Inv(c)
    ensures Claim(c, leaseSeconds, now).Done?
    ensures var d := Claim(c, leaseSeconds, now).client; Inv(d) && Evolves(c, d)
  {
    var mid := c.(commands := Recover(c.commands, now));
    RecoverKeeps(c, now);
    var k := FirstClaimable(mid.commands, now, 0);
    if k < |mid.commands| {
      var d := Claim(c, leaseSeconds, now).client;
      LeaseKeeps(mid, k, d.commands[k]);
      EvolvesThen(c, mid, d);
    }
  }

  lemma RenewKeeps(c: Client, k: nat, token: nat, leaseSeconds: nat, now: Time)
    requires Inv(c)
    ensures var d := Committed(c, Renew(c, k, token, leaseSeconds, now)); Inv(d) && Evolves(c, d)
  {
    RowsMoveOn(c, Committed(c, Renew(c, k, token, leaseSeconds, now)));
  }

  lemma CompleteKeeps(c: Client, k: nat, token: nat, now: Time)
    requires Inv(c)
    ensures var d := Committed(c, Complete(c, k, token, now)); Inv(d) && Evolves(c, d)
  {
    RowsMoveOn(c, Committed(c, Complete(c, k, token, now)));
  }

  lemma StartedKeeps(c: Client, g: nat, now: Time)
    requires Inv(c)
    ensures var d := Committed(c, Started(c, g, now)); Inv(d) && Evolves(c, d)
  {
    RowsMoveOn(c, Committed(c, Started(c, g, now)));
  }

  lemma UploadedKeeps(c: Client, g: nat, now: Time)
    requires Inv(c)
    ensures var d := Committed(c, Uploaded(c, g, now)); Inv(d) && Evolves(c, d)
  {
    RowsMoveOn(c, Committed(c, Uploaded(c, g, now)));
  }

  lemma FailKeeps(c: Client, k: nat, token: nat, retryable: bool, now: Time)
    requires Inv(c)
    ensures var d := Committed(c, Fail(c, k, token, retryable, now)); Inv(d) && Evolves(c, d)
  {
    RowsMoveOn(c, Committed(c, Fail(c, k, token, retryable, now)));
  }

  lemma StoppedKeeps(c: Client, g: nat, failed: bool, env: Env)
    requires Inv(c)
    ensures var d := Committed(c, GenerationStopped(c, g, failed, env)); Inv(d) && Evolves(c, d)
  {
    if g < |c.generations| {
      var stopped := c.(generations := SetState(c.generations, g, if failed then Failed else Stopped));
      RowsMoveOn(c, stopped);
      var counted := ExpireStale(stopped, env);
      StartAfterKeeps(c, counted, env.now);
    }
  }

  lemma ReconcileStoppingKeeps(c: Client, report: AgentReport, env: Env)
    requires Inv(c)
    ensures var d := Committed(c, ReconcileStopping(c, report, env)); Inv(d) && Evolves(c, d)
  {
    var g := Current(c.generations);
    if g.Some? {
      var stopped := ExpireStale(
        c.(commands := CancelHalts(c.commands, g.value),
           generations := SetState(c.generations, g.value, Stopped)), env);
      RowsMoveOn(c, stopped);
      StartAfterKeeps(c, stopped, env.now);
    }
  }

  lemma WatchdogKeeps(c: Client, env: Env)
    requires Inv(c)
    ensures var d := Committed(c, Watchdog(c, env)); Inv(d) && Evolves(c, d)
  {
    var counted := ExpireStale(c, env);
    var g := Current(c.generations);
    if g.Some? && Stalled(c, g.value, env.now) {
      if RecentResets(c.generations, env.now) >= RESETS_PER_WINDOW {
        GivingUpKeeps(c, counted, g.value, env.now);
      } else if !c.blocked {
        NewGenerationKeeps(counted, Reset, true, env.now);
      }
    }
  }

  lemma GivingUpKeeps(c: Client, counted: Client, g: nat, now: Time)
    requires Inv(c) && counted == c.(viewers := counted.viewers)
    requires Current(c.generations) == Some(g)
    ensures var d := Enqueue(counted.(generations := SetState(c.generations, g, Failed)), Halt, None, now);
      Inv(d) && Evolves(c, d)
  {
    var failed := counted.(generations := SetState(c.generations, g, Failed));
    RowsMoveOn(c, failed);
    EnqueueHaltKeeps(failed, None, now);
  }

  /** A status report that settles a stop leaves nothing for the watchdog; any other report is the watchdog alone. */
  lemma StatusSplits(c: Client, report: AgentReport, env: Env)
    requires Inv(c)
    ensures
      var r := ReconcileStopping(c, report, env);
      var s := AgentStatus(c, report, env);
      || (r == Done(c, 0) && s == Watchdog(c, env))
      || (r.Refused? && s == r)
      || (r.Done? && s.Done? && s.client == ExpireStale(r.client, env) && s.notices == r.notices)
  {
    var r := ReconcileStopping(c, report, env);
    if r.Done? && r != Done(c, 0) { OnlyCurrentActive(c.generations); }
  }

  lemma StatusKeeps(c: Client, report: AgentReport, env: Env)
    requires Inv(c)
    ensures var d := Committed(c, AgentStatus(c, report, env)); Inv(d) && Evolves(c, d)
  {
    StatusSplits(c, report, env);
    ReconcileStoppingKeeps(c, report, env);
    WatchdogKeeps(c, env);
  }

  lemma ReconcileKeeps(c: Client, env: Env)
    requires Inv(c)
    ensures var d := Committed(c, Reconcile(c, env)); Inv(d) && Evolves(c, d)
  {
    hide RequestStart, RequestStop, ReconcileChoice;
    var counted := ExpireStale(c, env);
    StartAfterKeeps(c, counted, env.now);
    RequestStopKeeps(counted, false, "client_activity_grace_expired", env.now);
  }

  lemma RestartKeeps(c: Client, now: Time)
    requires Inv(c)
    ensures var d := Committed(c, NewGeneration(c, Restart, true, now)); Inv(d) && Evolves(c, d)
  {
    if !c.blocked { NewGenerationKeeps(c, Restart, true, now); }
  }

  /** No other table depends on the viewer rows or on the block. */
  lemma LeaveAndBlockKeep(c: Client, d: Client)
    requires Inv(c) && d == c.(viewers := d.viewers, blocked := d.blocked)
    ensures Inv(d) && Evolves(c, d)
  {
  }

  /** Every transaction keeps the invariant and moves rows only forward. */
  lemma StepKeeps(c: Client, env: Env, e: Event)
    requires Inv(c)
    ensures Inv(Step(c, env, e)) && Evolves(c, Step(c, env, e))
  {
    hide Inv, Evolves, Heartbeat, RequestStart, NewGeneration, RequestStop, Claim, Renew, Complete, Fail,
      AgentStatus, Started, Uploaded, GenerationStopped, Reconcile;
    match e
    case HeartbeatEvent(id, principal) => HeartbeatKeeps(c, id, principal, env.now);
    case LeaveEvent(id, principal) => LeaveAndBlockKeep(c, Step(c, env, e));
    case StartEvent => RequestStartKeeps(c, env.now);
    case RestartEvent => RestartKeeps(c, env.now);
    case StopEvent(source) => RequestStopKeeps(c, true, source, env.now);
    case ClaimEvent(leaseSeconds) => ClaimKeeps(c, leaseSeconds, env.now);
    case RenewEvent(k, token, leaseSeconds) => RenewKeeps(c, k, token, leaseSeconds, env.now);
    case CompleteEvent(k, token) => CompleteKeeps(c, k, token, env.now);
    case FailEvent(k, token, retryable) => FailKeeps(c, k, token, retryable, env.now);
    case StatusEvent(report) => StatusKeeps(c, report, env);
    case StartedEvent(g) => StartedKeeps(c, g, env.now);
    case UploadedEvent(g) => UploadedKeeps(c, g, env.now);
    case StoppedEvent(g, failed) => StoppedKeeps(c, g, failed, env);
    case ReconcileEvent => ReconcileKeeps(c, env);
    case BlockEvent(b) => LeaveAndBlockKeep(c, Step(c, env, e));
  }
}
