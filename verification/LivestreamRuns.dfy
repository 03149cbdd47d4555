/**
 The promises the control plane makes over whole runs of one client, starting
 from any state that keeps the invariant (or, where history matters, from the
 empty client).
 */
module LivestreamRuns {
  import opened Options
  import opened LivestreamClient
  import opened LivestreamSafety

  lemma {:induction false} RunKeeps(c: Client, moves: seq<Move>)
    requires Inv(c)
    ensures Inv(Run(c, moves))
    ensures GenerationsEvolve(c.generations, Run(c, moves).generations)
    ensures |c.commands| <= |Run(c, moves).commands|
  {
    if moves != [] {
      var n := |moves| - 1;
      var before := Run(c, moves[..n]);
      RunKeeps(c, moves[..n]);
      StepKeeps(before, moves[n].env, moves[n].event);
    }
  }

  lemma EmptyClientOk()
    ensures Inv(EMPTY)
  {
  }

  // ---------------------------------------------------------------- generations

  /** In every reachable state at most one generation is starting, running or stopping. */
  lemma {:induction false} AtMostOneActive(moves: seq<Move>, i: nat, j: nat)
    requires i < |Run(EMPTY, moves).generations| && j < |Run(EMPTY, moves).generations|
    requires Run(EMPTY, moves).generations[i].state.Active() && Run(EMPTY, moves).generations[j].state.Active()
    ensures i == j && Current(Run(EMPTY, moves).generations) == Some(i)
  {
    EmptyClientOk();
    RunKeeps(EMPTY, moves);
    OnlyCurrentActive(Run(EMPTY, moves).generations);
  }

  /** A stopped, failed or superseded generation is never active again. */
  lemma {:induction false} FinalStaysFinal(c: Client, moves: seq<Move>, g: nat)
    requires Inv(c) && g < |c.generations| && !c.generations[g].state.Active()
    ensures g < |Run(c, moves).generations| && !Run(c, moves).generations[g].state.Active()
  {
    RunKeeps(c, moves);
    assert GenerationEvolves(c.generations[g], Run(c, moves).generations[g]);
  }

  lemma {:induction false} LaunchFound(cmds: seq<Command>, g: nat) returns (k: nat)
    requires LaunchCount(cmds, g) == 1
    ensures k < |cmds| && Launches(cmds[k], g)
    ensures forall j :: 0 <= j < |cmds| && Launches(cmds[j], g) ==> j == k
  {
    var n := |cmds| - 1;
    if Launches(cmds[n], g) {
      k := n;
      NoLaunchCounted(cmds[..n], g);
    } else {
      k := LaunchFound(cmds[..n], g);
    }
  }

  lemma {:induction false} NoLaunchCounted(cmds: seq<Command>, g: nat)
    requires LaunchCount(cmds, g) == 0
    ensures forall j :: 0 <= j < |cmds| ==> !Launches(cmds[j], g)
  {
    if cmds != [] { NoLaunchCounted(cmds[..|cmds| - 1], g); }
  }

  /** Each generation has exactly one start-type command, of the kind the generation was requested with. */
  lemma {:induction false} ExactlyOneLaunch(moves: seq<Move>, g: nat) returns (k: nat)
    requires g < |Run(EMPTY, moves).generations|
    ensures var c := Run(EMPTY, moves);
      && k < |c.commands| && c.commands[k].kind == Launch(c.generations[g].action)
      && (forall j :: 0 <= j < |c.commands| ==> (Launches(c.commands[j], g) <==> j == k))
  {
    EmptyClientOk();
    RunKeeps(EMPTY, moves);
    k := LaunchFound(Run(EMPTY, moves).commands, g);
  }

  lemma StoppingReported(c: Client, env: Env, e: Event, g: nat)
    requires Current(c.generations) == Some(g) && c.generations[g].state.Stopping?
    requires e.StoppedEvent? || e.ReconcileEvent?
    ensures var d := Step(c, env, e);
      && g < |d.generations|
      && (d.generations[g].state.Stopping?
          || (e.StoppedEvent? && e.generation == g
              && (d.generations[g].state.Stopped? || d.generations[g].state.Failed?)))
  {
  }

  lemma StoppingOtherwise(c: Client, env: Env, e: Event, g: nat)
    requires Current(c.generations) == Some(g) && c.generations[g].state.Stopping?
    requires !e.StoppedEvent? && !e.ReconcileEvent? && !e.StatusEvent?
    ensures var d := Step(c, env, e);
      && g < |d.generations|
      && (d.generations[g].state.Stopping? || (e.RestartEvent? && d.generations[g].state.Superseded?))
  {
  }

  /** `stopping` ends only by an agent's stop report, an agent's proof of quiescence, or an operator's restart. */
  lemma StoppingEnds(c: Client, env: Env, e: Event, g: nat)
    requires Inv(c) && g < |c.generations| && c.generations[g].state.Stopping?
    ensures g < |Step(c, env, e).generations|
    ensures
      var now := Step(c, env, e).generations[g].state;
      || now.Stopping?
      || (e.StoppedEvent? && e.generation == g && (now.Stopped? || now.Failed?))
      || (e.StatusEvent? && Quiesced(c.generations, g, e.report) && !HasLeasedHalt(c.commands, g) && now.Stopped?)
      || (e.RestartEvent? && now.Superseded?)
  {
    OnlyCurrentActive(c.generations);
    assert Current(c.generations) == Some(g);
    if e.StatusEvent? {
      StatusSplits(c, e.report, env);
    } else if e.StoppedEvent? || e.ReconcileEvent? {
      StoppingReported(c, env, e, g);
    } else {
      StoppingOtherwise(c, env, e, g);
    }
  }

  // ---------------------------------------------------------------- the explicit-stop latch

  predicate NoOperatorStart(moves: seq<Move>) {
    forall i :: 0 <= i < |moves| ==> !moves[i].event.OperatorStart()
  }

  /** An explicit stop engages the latch and leaves nothing starting or running. */
  lemma ExplicitStopLatches(c: Client, env: Env, source: string)
    requires Inv(c)
    ensures var d := Step(c, env, StopEvent(source)); d.Latched() && NoneLive(d.generations)
  {
    StepKeeps(c, env, StopEvent(source));
  }

  lemma LatchStep(c: Client, env: Env, e: Event)
    requires Inv(c) && c.Latched() && !e.OperatorStart()
    ensures var d := Step(c, env, e); d.Latched() && |d.generations| == |c.generations|
  {
    if e.StatusEvent? { StatusSplits(c, e.report, env); }
  }

  /**
   Once latched, no heartbeat, sweep, watchdog, agent report, lease recovery or
   further stop creates a generation, revives one or clears the latch.
   */
  lemma {:induction false} LatchHolds(c: Client, moves: seq<Move>)
    requires Inv(c) && c.Latched() && NoOperatorStart(moves)
    ensures var d := Run(c, moves);
      && d.Latched() && |d.generations| == |c.generations| && NoneLive(d.generations)
      && (Current(d.generations).None? || d.generations[Current(d.generations).value].state.Stopping?)
  {
    RunKeeps(c, moves);
    if moves != [] {
      var n := |moves| - 1;
      LatchHolds(c, moves[..n]);
      RunKeeps(c, moves[..n]);
      LatchStep(Run(c, moves[..n]), moves[n].env, moves[n].event);
    }
  }

  // ---------------------------------------------------------------- the watchdog's rate bound

  /** Any transaction but a status report adds a start or restart generation, or none. */
  lemma NoOtherResets(c: Client, env: Env, e: Event)
    requires !e.StatusEvent?
    ensures forall g :: |c.generations| <= g < |Step(c, env, e).generations| ==>
      !Step(c, env, e).generations[g].action.Reset?
  {
    if e.StoppedEvent? || e.ReconcileEvent? { NoResetsByStops(c, env, e); }
  }

  lemma NoResetsByStops(c: Client, env: Env, e: Event)
    requires e.StoppedEvent? || e.ReconcileEvent?
    ensures forall g :: |c.generations| <= g < |Step(c, env, e).generations| ==>
      !Step(c, env, e).generations[g].action.Reset?
  {
  }

  /** A reset generation comes from a status report only, stamped with that transaction's clock. */
  lemma OnlyStatusResets(c: Client, env: Env, e: Event, g: nat)
    requires Inv(c) && |c.generations| <= g < |Step(c, env, e).generations|
    requires Step(c, env, e).generations[g].action.Reset?
    ensures e.StatusEvent? && Step(c, env, e).generations[g].createdAt == env.now
  {
    hide AgentStatus;
    if e.StatusEvent? {
      StatusSplits(c, e.report, env);
    } else {
      NoOtherResets(c, env, e);
    }
  }

  /** No closed ten-minute window of any run holds more than three watchdog resets. */
  lemma {:induction false} ResetRateBound(moves: seq<Move>, from: Time)
    ensures ResetsFrom(Run(EMPTY, moves).generations, from) <= 3
  {
    EmptyClientOk();
    RunKeeps(EMPTY, moves);
  }

  /**
   A stall of the watched current stream resets it, unless the window is full: then it fails with a stop and no
   successor, whether or not the client is blocked.  Only the reset is refused for a blocked client.
   */
  lemma StallVerdict(c: Client, report: AgentReport, env: Env, g: nat)
    requires Inv(c) && Current(c.generations) == Some(g) && Stalled(c, g, env.now)
    requires Watched(Expire(c.viewers, env.live, env.now), env.live) || env.activity
    ensures var d := Step(c, env, StatusEvent(report));
      if RecentResets(c.generations, env.now) >= RESETS_PER_WINDOW then
        && |d.generations| == |c.generations| && d.generations[g].state.Failed?
        && |d.commands| == |c.commands| + 1 && d.commands[|c.commands|].kind.Halt?
      else if c.blocked then d == c
      else
        && |d.generations| == |c.generations| + 1 && d.generations[g].state.Superseded?
        && d.generations[|c.generations|] == Generation(Starting, Reset, env.now, None, None)
  {
    StatusSplits(c, report, env);
  }

  // ---------------------------------------------------------------- the lease protocol

  /** The command a claim made now would lease. */
  function ClaimTarget(c: Client, now: Time): Option<nat> {
    var k := FirstClaimable(Recover(c.commands, now), now, 0);
    if k == |c.commands| then None else Some(k)
  }

  /** The token the latest claim of command `k` handed out. */
  function LatestToken(moves: seq<Move>, k: nat): Option<nat> {
    if moves == [] then None
    else
      var n := |moves| - 1;
      var before := Run(EMPTY, moves[..n]);
      if moves[n].event.ClaimEvent? && ClaimTarget(before, moves[n].env.now) == Some(k) then Some(before.issued)
      else LatestToken(moves[..n], k)
  }

  /** Tokens after a transaction that claims nothing: kept or dropped. */
  predicate TokensKept(a: Client, b: Client) {
    forall k :: 0 <= k < |b.commands| ==>
      b.commands[k].token.None? || (k < |a.commands| && b.commands[k].token == a.commands[k].token)
  }

  lemma ViewerRequestsKeepTokens(c: Client, env: Env, e: Event)
    requires Inv(c) && (e.HeartbeatEvent? || e.LeaveEvent? || e.StartEvent? || e.RestartEvent? || e.StopEvent?)
    ensures TokensKept(c, Step(c, env, e))
  {
  }

  lemma StoppedKeepsTokens(c: Client, env: Env, g: nat, failed: bool)
    requires Inv(c)
    ensures TokensKept(c, Step(c, env, StoppedEvent(g, failed)))
  {
    hide Inv;
  }

  lemma ReconcileKeepsTokens(c: Client, env: Env)
    requires Inv(c)
    ensures TokensKept(c, Step(c, env, ReconcileEvent))
  {
    hide Inv;
  }

  lemma StatusKeepsTokens(c: Client, env: Env, report: AgentReport)
    requires Inv(c)
    ensures TokensKept(c, Step(c, env, StatusEvent(report)))
  {
    hide AgentStatus;
    StatusSplits(c, report, env);
  }

  lemma TokenStep(c: Client, env: Env, e: Event, k: nat)
    requires Inv(c) && k < |Step(c, env, e).commands|
    ensures var d := Step(c, env, e);
      if e.ClaimEvent? && ClaimTarget(c, env.now) == Some(k) then
        d.commands[k].state.Leased? && d.commands[k].token == Some(c.issued)
      else
        d.commands[k].token.None? || (k < |c.commands| && d.commands[k].token == c.commands[k].token)
  {
    hide Heartbeat, Leave, RequestStart, NewGeneration, RequestStop, AgentStatus, GenerationStopped, Reconcile, Inv;
    if e.HeartbeatEvent? || e.LeaveEvent? || e.StartEvent? || e.RestartEvent? || e.StopEvent? {
      ViewerRequestsKeepTokens(c, env, e);
    } else if e.StoppedEvent? {
      StoppedKeepsTokens(c, env, e.generation, e.failed);
    } else if e.ReconcileEvent? {
      ReconcileKeepsTokens(c, env);
    } else if e.StatusEvent? {
      StatusKeepsTokens(c, env, e.report);
    }
  }

  lemma {:induction false} TokenIsLatest(moves: seq<Move>, k: nat)
    requires k < |Run(EMPTY, moves).commands| && Run(EMPTY, moves).commands[k].token.Some?
    ensures Run(EMPTY, moves).commands[k].token == LatestToken(moves, k)
  {
    var n := |moves| - 1;
    var before := Run(EMPTY, moves[..n]);
    EmptyClientOk();
    RunKeeps(EMPTY, moves[..n]);
    TokenStep(before, moves[n].env, moves[n].event, k);
    if !(moves[n].event.ClaimEvent? && ClaimTarget(before, moves[n].env.now) == Some(k)) {
      TokenIsLatest(moves[..n], k);
    }
  }

  /**
   Renew, complete and fail accept exactly the token of the latest claim of the
   command, and only while the command is leased and its lease not recoverable.
   */
  lemma OnlyLatestClaimAccepted(
    moves: seq<Move>, k: nat, token: nat, now: Time, leaseSeconds: nat, retryable: bool)
    ensures
      var c := Run(EMPTY, moves);
      var accepted :=
        && k < |c.commands| && c.commands[k].state.Leased?
        && LatestToken(moves, k) == Some(token) && !Recoverable(c.commands[k], now);
      && (Renew(c, k, token, leaseSeconds, now).Done? <==> accepted)
      && (Complete(c, k, token, now).Done? <==> accepted)
      && (Fail(c, k, token, retryable, now).Done? <==> accepted)
  {
    EmptyClientOk();
    RunKeeps(EMPTY, moves);
    var c := Run(EMPTY, moves);
    if k < |c.commands| && c.commands[k].state.Leased? {
      assert CommandOk(c.commands[k], c.issued);
      TokenIsLatest(moves, k);
    }
  }

  /** A completed, failed or cancelled command never changes again. */
  lemma {:induction false} TerminalCommandsFrozen(c: Client, moves: seq<Move>, k: nat)
    requires Inv(c) && k < |c.commands| && c.commands[k].state.Terminal()
    ensures k < |Run(c, moves).commands| && Run(c, moves).commands[k] == c.commands[k]
  {
    RunKeeps(c, moves);
    if moves != [] {
      var n := |moves| - 1;
      var before := Run(c, moves[..n]);
      RunKeeps(c, moves[..n]);
      TerminalCommandsFrozen(c, moves[..n], k);
      StepKeeps(before, moves[n].env, moves[n].event);
      assert CommandEvolves(before.commands[k], Step(before, moves[n].env, moves[n].event).commands[k]);
    }
  }

  // ---------------------------------------------------------------- the queue makes progress

  /** Steps the commands have already taken of the 2 * maximum each may take. */
  function Spent(cmds: seq<Command>): int {
    if cmds == [] then 0
    else Spent(cmds[..|cmds| - 1]) + 2 * COMMAND_MAX_ATTEMPTS - Rank(cmds[|cmds| - 1])
  }

  predicate Moved(a: seq<Command>, b: seq<Command>)
    requires |a| <= |b|
  {
    exists k :: 0 <= k < |a| && !SameProgress(a[k], b[k])
  }

  lemma {:induction false} SpentBounded(cmds: seq<Command>)
    requires forall k :: 0 <= k < |cmds| ==> cmds[k].attempts <= COMMAND_MAX_ATTEMPTS
    ensures Spent(cmds) <= 2 * COMMAND_MAX_ATTEMPTS * |cmds|
  {
    if cmds != [] {
      var n := |cmds| - 1;
      SpentBounded(cmds[..n]);
      assert 2 * COMMAND_MAX_ATTEMPTS * |cmds| == 2 * COMMAND_MAX_ATTEMPTS * n + 2 * COMMAND_MAX_ATTEMPTS;
    }
  }

  lemma {:induction false} SpentGrows(a: seq<Command>, b: seq<Command>)
    requires |a| == |b| && forall k :: 0 <= k < |a| ==> CommandEvolves(a[k], b[k])
    ensures Spent(b) >= Spent(a) + (if Moved(a, b) then 1 else 0)
  {
    if a != [] {
      var n := |a| - 1;
      SpentGrows(a[..n], b[..n]);
      assert CommandEvolves(a[n], b[n]);
      if Moved(a, b) && SameProgress(a[n], b[n]) {
        var k :| 0 <= k < |a| && !SameProgress(a[k], b[k]);
        assert !SameProgress(a[..n][k], b[..n][k]);
      }
    }
  }

  lemma {:induction false} NewCommandsSpendNothing(cmds: seq<Command>, n: nat)
    requires n <= |cmds| && forall k :: n <= k < |cmds| ==> NewCommand(cmds[k])
    ensures Spent(cmds) == Spent(cmds[..n])
  {
    if n < |cmds| {
      var m := |cmds| - 1;
      assert cmds[..m][..n] == cmds[..n];
      NewCommandsSpendNothing(cmds[..m], n);
    } else {
      assert cmds[..n] == cmds;
    }
  }

  /** Transactions of the run that claim, recover, requeue, finish or cancel some command. */
  function MovingSteps(c: Client, moves: seq<Move>): nat {
    if moves == [] then 0
    else
      var n := |moves| - 1;
      var before := Run(c, moves[..n]).commands;
      var after := Run(c, moves).commands;
      MovingSteps(c, moves[..n]) + (if |before| <= |after| && Moved(before, after) then 1 else 0)
  }

  /**
   Every such transaction uses up part of a budget of twice the maximum
   attempts for each command: with no new commands a run has finitely many.
   */
  lemma {:induction false} BudgetBoundsRuns(c: Client, moves: seq<Move>)
    requires Inv(c)
    ensures var d := Run(c, moves);
      Spent(c.commands) + MovingSteps(c, moves) <= Spent(d.commands) <= 2 * COMMAND_MAX_ATTEMPTS * |d.commands|
  {
    RunKeeps(c, moves);
    var d := Run(c, moves);
    assert forall k :: 0 <= k < |d.commands| ==> CommandOk(d.commands[k], d.issued);
    SpentBounded(d.commands);
    if moves != [] {
      var n := |moves| - 1;
      var before := Run(c, moves[..n]);
      BudgetBoundsRuns(c, moves[..n]);
      RunKeeps(c, moves[..n]);
      StepKeeps(before, moves[n].env, moves[n].event);
      StepSpends(before.commands, d.commands);
    }
  }

  lemma StepSpends(a: seq<Command>, b: seq<Command>)
    requires CommandsEvolve(a, b)
    ensures Spent(b) >= Spent(a) + (if Moved(a, b) then 1 else 0)
  {
    NewCommandsSpendNothing(b, |a|);
    SpentGrows(a, b[..|a|]);
    if Moved(a, b) {
      var k :| 0 <= k < |a| && !SameProgress(a[k], b[k]);
      assert !SameProgress(a[k], b[..|a|][k]);
    }
  }

  lemma {:induction false} AttemptsBounded(cmds: seq<Command>)
    requires forall k :: 0 <= k < |cmds| ==> cmds[k].attempts <= COMMAND_MAX_ATTEMPTS
    ensures Attempts(cmds) <= COMMAND_MAX_ATTEMPTS * |cmds|
  {
    if cmds != [] {
      var n := |cmds| - 1;
      AttemptsBounded(cmds[..n]);
      assert COMMAND_MAX_ATTEMPTS * |cmds| == COMMAND_MAX_ATTEMPTS * n + COMMAND_MAX_ATTEMPTS;
    }
  }

  /** Claims ever granted are the attempts recorded on the rows, at most the maximum for each command. */
  lemma {:induction false} ClaimsAreAttempts(moves: seq<Move>)
    ensures var c := Run(EMPTY, moves);
      && c.issued == Attempts(c.commands) <= COMMAND_MAX_ATTEMPTS * |c.commands|
      && (forall k :: 0 <= k < |c.commands| && c.commands[k].state.Queued? ==>
            c.commands[k].attempts < COMMAND_MAX_ATTEMPTS)
  {
    EmptyClientOk();
    RunKeeps(EMPTY, moves);
    var c := Run(EMPTY, moves);
    assert forall k :: 0 <= k < |c.commands| ==> CommandOk(c.commands[k], c.issued);
    AttemptsBounded(c.commands);
  }
}
