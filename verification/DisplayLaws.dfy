/**
 What a status report makes of the display commands and of the lockdown row, read off the report, the row and the
 commands.
 */
module DisplayLaws {
  import opened Options
  import opened Display

  /** The command is with the agent or waits for it, and its time has not run out. */
  predicate Waiting(c: Command, now: Time) {
    (c.status == Queued || c.status == Claimed) && now < c.expiresAt
  }

  predicate OfTopic(p: Payload, lockdowns: bool) { if lockdowns then p.Lockdown? else p.Configuration? }

  /** Of the commands below `n` those of one kind that were queued and in time are cancelled; the others stay. */
  predicate Withdrawn(before: seq<Command>, after: seq<Command>, n: nat, lockdowns: bool, now: Time) {
    && |before| <= |after|
    && forall i :: 0 <= i < |before| ==>
         after[i] == if i < n && before[i].status == Queued && now < before[i].expiresAt
                        && OfTopic(before[i].payload, lockdowns)
                     then before[i].(status := Cancelled) else before[i]
  }

  lemma CancelLaw(cs: seq<Command>, now: Time, topic: Topic)
    ensures Withdrawn(cs, CancelListed(cs, ActiveIds(cs, now, |cs|), topic), |cs|, topic.Lockdowns?, now)
  {
    var ids := ActiveIds(cs, now, |cs|);
    CancelListedDoes(cs, ids, topic);
    ActiveIdsAre(cs, now, |cs|);
    hide CancelListed, ActiveIds;
  }

  /** The walk returns the first waiting command that is wanted, and withdraws the others of its kind before it. */
  lemma WalkLaw(cs: seq<Command>, now: Time, goal: Goal)
    ensures var (cs', found) := Supersede(cs, ActiveIds(cs, now, |cs|), goal);
      && Withdrawn(cs, cs', if found.Some? then found.value else |cs|, goal.Enabled?, now)
      && (found.Some? ==> Waiting(cs[found.value], now) && goal.Met(cs[found.value].payload))
      && forall i :: 0 <= i < (if found.Some? then found.value else |cs|) && Waiting(cs[i], now) ==>
           !goal.Met(cs[i].payload)
  {
    var ids := ActiveIds(cs, now, |cs|);
    var k := SupersedeDoes(cs, ids, goal);
    ActiveIdsAre(cs, now, |cs|);
    var (cs', found) := Supersede(cs, ids, goal);
    var n := if found.Some? then found.value else |cs|;
    hide Supersede, ActiveIds, Withdrawn;
    forall i | 0 <= i < |cs| ensures i in ids[..k] <==> i < n && Active(cs[i], now) {
      InPrefixIff(cs, ids, k, i, now);
    }
    WithdrawnByWalk(cs, cs', ids[..k], n, goal, now);
    forall i | 0 <= i < n && Waiting(cs[i], now) ensures !goal.Met(cs[i].payload) {
      assert i in ids[..k];
    }
  }

  /** What lies before position `k` of a sorted list of the active commands. */
  lemma InPrefixIff(cs: seq<Command>, ids: seq<nat>, k: nat, i: nat, now: Time)
    requires i < |cs| && k <= |ids|
    requires forall j :: 0 <= j < |ids| ==> ids[j] < |cs| && Active(cs[ids[j]], now)
    requires forall j :: 0 <= j < |cs| && Active(cs[j], now) ==> j in ids
    requires forall j, m :: 0 <= j < m < |ids| ==> ids[j] < ids[m]
    ensures i in ids[..k] <==> i < (if k < |ids| then ids[k] else |cs|) && Active(cs[i], now)
  {
    if Active(cs[i], now) {
      var m :| 0 <= m < |ids| && ids[m] == i;
      assert i in ids[..k] <==> m < k;
    }
  }

  lemma WithdrawnByWalk(cs: seq<Command>, cs': seq<Command>, which: seq<nat>, n: nat, goal: Goal, now: Time)
    requires |cs'| == |cs| && forall i :: 0 <= i < |cs| ==> (i in which <==> i < n && Active(cs[i], now))
    requires forall i :: 0 <= i < |cs| ==> cs'[i] == CancelledIn(cs, i, which, goal.Topic())
    ensures Withdrawn(cs, cs', n, goal.Enabled?, now)
  {
  }

  // ---------------------------------------------------------------- the configuration

  predicate Carries(c: Command, revision: nat, now: Time) {
    Waiting(c, now) && c.payload.Configuration? && c.payload.revision == revision
  }

  /** The report shows the desired revision, in the format the agent can take. */
  predicate Shows(r: Report, d: Desired) {
    r.revision == Some(d.revision) && (if r.supportsV2 then r.schema >= 2 else r.schema >= 1)
  }

  /** From `c` to `after`, returning `command`: what one report does about the configuration. */
  predicate ConfigurationSent(c: Client, after: Client, command: Option<nat>, r: Report, now: Time) {
    && after == c.(commands := after.commands)
    && if !r.supportsCommands || c.desired.None? then after == c && command.None?
       else
         var d, n := c.desired.value, |c.commands|;
         if Shows(r, d) then
           command.None? && |after.commands| == n && Withdrawn(c.commands, after.commands, n, false, now)
         else if exists i :: 0 <= i < n && Carries(c.commands[i], d.revision, now) then
           && command.Some? && command.value < n && Carries(c.commands[command.value], d.revision, now)
           && (forall i :: 0 <= i < command.value ==> !Carries(c.commands[i], d.revision, now))
           && |after.commands| == n && Withdrawn(c.commands, after.commands, command.value, false, now)
         else
           && command == Some(n) && |after.commands| == n + 1
           && Withdrawn(c.commands, after.commands, n, false, now)
           && after.commands[n] == Command(
                if r.supportsV2 then Configuration(2, d.revision, d.url, Some(d.interval))
                else Configuration(1, d.revision, d.url, None),
                now, now + 600 * SECOND, Queued)
  }

  lemma ConfigurationLaw(c: Client, r: Report, now: Time)
    ensures var q := ReconcileConfiguration(c, r, None, now);
      ConfigurationSent(c, q.client, q.command, r, now)
  {
    if r.supportsCommands && c.desired.Some? {
      CancelLaw(c.commands, now, Configurations);
      WalkLaw(c.commands, now, Revision(c.desired.value.revision));
    }
    hide Supersede, CancelListed, ActiveIds, Withdrawn, Waiting;
    if r.supportsCommands && c.desired.Some? && !Shows(r, c.desired.value) {
      var ids := ActiveIds(c.commands, now, |c.commands|);
      var (cs, found) := Supersede(c.commands, ids, Revision(c.desired.value.revision));
      QueuedOnTop(c, cs, |c.commands|, false, now);
      if found.Some? { assert Carries(c.commands[found.value], c.desired.value.revision, now); }
    }
  }

  /** A command added at the end leaves the others as they were. */
  lemma QueuedOnTop(c: Client, cs: seq<Command>, n: nat, lockdowns: bool, now: Time)
    ensures forall x: Command ::
      |cs| == |c.commands| && Withdrawn(c.commands, cs, n, lockdowns, now) ==>
        Withdrawn(c.commands, cs + [x], n, lockdowns, now)
  {
  }

  // ---------------------------------------------------------------- the lockdown

  predicate Wanted(c: Command, enabled: bool, now: Time) { Waiting(c, now) && c.payload == Lockdown(enabled) }

  /** The lock row with what the report says; a report that says nothing counts as unknown. */
  predicate Noted(lock: Lock, after: Lock, r: Report, now: Time) {
    var state := if r.lockdown.Some? then r.lockdown.value.state else LockState.Unknown;
    if state == Pending || state == Unrecognised then after == lock
    else
      && after.state == state && after.enabled == lock.enabled && after.updatedAt == lock.updatedAt
      && after.lastAppliedAt ==
           if (state == Applied || state == Disabled) && lock.state != state then Some(now) else lock.lastAppliedAt
  }

  /** The report shows the lockdown as it is wanted. */
  predicate ShowsLock(r: Report, enabled: bool) {
    r.lockdown == Some(LockReport(if enabled then Applied else Disabled, Some(enabled)))
  }

  /** The agent drifted from what it last completed less than five minutes ago, and nothing new was asked since. */
  predicate CoolingDown(lock: Lock, r: Report, now: Time) {
    && r.lockdown == Some(LockReport(Drifted, Some(lock.enabled)))
    && lock.lastAppliedAt.Some?
    && (lock.updatedAt.None? || lock.updatedAt.value <= lock.lastAppliedAt.value)
    && lock.lastAppliedAt.value <= now < lock.lastAppliedAt.value + 300 * SECOND
  }

  /** From `c` to `after`, returning `command`: what one report does about the lockdown. */
  predicate LockdownSent(c: Client, after: Client, command: Option<nat>, r: Report, now: Time) {
    && after == c.(commands := after.commands, lock := after.lock)
    && if !r.supportsCommands then after == c && command.None?
       else
         var enabled, n := c.lock.enabled, |c.commands|;
         if r.lockdown.None? && !enabled && c.lock.state != Pending then
           command.None? && after.commands == c.commands && Noted(c.lock, after.lock, r, now)
         else if ShowsLock(r, enabled) then
           && command.None? && |after.commands| == n && Withdrawn(c.commands, after.commands, n, true, now)
           && Noted(c.lock, after.lock, r, now)
         else if exists i :: 0 <= i < n && Wanted(c.commands[i], enabled, now) then
           && command.Some? && command.value < n && Wanted(c.commands[command.value], enabled, now)
           && (forall i :: 0 <= i < command.value ==> !Wanted(c.commands[i], enabled, now))
           && |after.commands| == n && Withdrawn(c.commands, after.commands, command.value, true, now)
           && Noted(c.lock, after.lock, r, now)
         else if CoolingDown(c.lock, r, now) then
           && command.None? && |after.commands| == n && Withdrawn(c.commands, after.commands, n, true, now)
           && Noted(c.lock, after.lock, r, now)
         else
           && command == Some(n) && |after.commands| == n + 1
           && Withdrawn(c.commands, after.commands, n, true, now)
           && after.commands[n] == Command(Lockdown(enabled), now, now + 600 * SECOND, Queued)
           && after.lock.state == Pending && Noted(c.lock, after.lock.(state := NotedState(c.lock, r)), r, now)
  }

  function NotedState(lock: Lock, r: Report): LockState {
    if r.lockdown.None? then LockState.Unknown
    else if r.lockdown.value.state == Pending || r.lockdown.value.state == Unrecognised then lock.state
    else r.lockdown.value.state
  }

  lemma LockdownLaw(c: Client, r: Report, now: Time)
    ensures var q := ReconcileLockdown(c, r, None, now);
      LockdownSent(c, q.client, q.command, r, now)
  {
    CancelLaw(c.commands, now, Lockdowns);
    NotedLaw(c.lock, r, now);
    hide Supersede, CancelListed, ActiveIds, Withdrawn, RetryRecent, CoolingDown, Noted, Observe, Wanted;
    if r.supportsCommands && !(r.lockdown.None? && !c.lock.enabled && c.lock.state != Pending)
       && !ShowsLock(r, c.lock.enabled) {
      LockdownWalk(c, r, now);
    }
  }

  /** The three ways in which the walk can end. */
  lemma LockdownWalk(c: Client, r: Report, now: Time)
    requires r.supportsCommands && !(r.lockdown.None? && !c.lock.enabled && c.lock.state != Pending)
    requires !ShowsLock(r, c.lock.enabled)
    ensures var q := ReconcileLockdown(c, r, None, now);
      LockdownSent(c, q.client, q.command, r, now)
  {
    var ids, goal := ActiveIds(c.commands, now, |c.commands|), Enabled(c.lock.enabled);
    WalkLaw(c.commands, now, goal);
    NotedLaw(c.lock, r, now);
    CoolingIff(c.lock, r, now);
    hide Supersede, CancelListed, ActiveIds, Withdrawn, RetryRecent, CoolingDown, Noted, Observe;
    var (cs, found) := Supersede(c.commands, ids, goal);
    QueuedOnTop(c, cs, |c.commands|, true, now);
    if found.Some? {
      assert Wanted(c.commands[found.value], c.lock.enabled, now);
    } else {
      assert forall i :: 0 <= i < |c.commands| ==> !Wanted(c.commands[i], c.lock.enabled, now);
    }
  }

  lemma NotedLaw(lock: Lock, r: Report, now: Time)
    ensures var state := if r.lockdown.Some? then r.lockdown.value.state else LockState.Unknown;
      var after := Observe(lock, state, now);
      && Noted(lock, after, r, now) && after.(state := Pending).(state := NotedState(lock, r)) == after
  {
  }

  lemma CoolingIff(lock: Lock, r: Report, now: Time)
    ensures var state := if r.lockdown.Some? then r.lockdown.value.state else LockState.Unknown;
      var observed := if r.lockdown.Some? then r.lockdown.value.desired else None;
      state.Drifted? && RetryRecent(Observe(lock, state, now), observed, now) <==> CoolingDown(lock, r, now)
  {
  }

  /** If not more than one wanted lockdown command was active before, exactly one is afterwards, the one returned. */
  lemma OneWanted(c: Client, r: Report, now: Time)
    requires r.supportsCommands && ReconcileLockdown(c, r, None, now).command.Some?
    requires forall i, j :: 0 <= i < j < |c.commands| ==>
      !(Wanted(c.commands[i], c.lock.enabled, now) && Wanted(c.commands[j], c.lock.enabled, now))
    ensures var q := ReconcileLockdown(c, r, None, now);
      forall i :: 0 <= i < |q.client.commands| ==>
        (Wanted(q.client.commands[i], c.lock.enabled, now) <==> q.command == Some(i))
  {
    LockdownLaw(c, r, now);
    hide ReconcileLockdown;
  }

  /** After a report that shows the wanted state no lockdown command is queued any more. */
  lemma ShownLeavesNone(c: Client, r: Report, now: Time)
    requires r.supportsCommands && ShowsLock(r, c.lock.enabled)
    ensures var q := ReconcileLockdown(c, r, None, now);
      && q.command.None? && |q.client.commands| == |c.commands|
      && forall i :: 0 <= i < |c.commands| && q.client.commands[i].payload.Lockdown? ==>
           !(q.client.commands[i].status == Queued && now < q.client.commands[i].expiresAt)
  {
    LockdownLaw(c, r, now);
    hide ReconcileLockdown;
  }

  // ---------------------------------------------------------------- one report

  /** A status report does the one after the other, as with two fresh reads of the active commands. */
  lemma ReportLaw(c: Client, r: Report, now: Time)
    ensures var after := Step(c, Timed(Reported(r), now));
      exists mid, first, second ::
        && ConfigurationSent(c, mid, first, r, now) && LockdownSent(mid, after.(clock := mid.clock), second, r, now)
        && after.clock == now
  {
    SharedListIsFresh(c, r, now);
    var q := ReconcileConfiguration(c, r, None, now);
    ConfigurationLaw(c, r, now);
    LockdownLaw(q.client, r, now);
    var p := ReconcileLockdown(q.client, r, None, now);
    assert Step(c, Timed(Reported(r), now)) == p.client.(clock := now);
    assert p.client.clock == q.client.clock;
    hide ReconcileConfiguration, ReconcileLockdown, ConfigurationSent, LockdownSent, Step;
    assert Step(c, Timed(Reported(r), now)).(clock := q.client.clock) == p.client;
  }
}
