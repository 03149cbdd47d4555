/**
 The answer to every request about a deployment, read off its row and the log, and what a redelivered event is told.
 */
module DeploymentLaws {
  import opened Options
  import opened Deployments

  // ---------------------------------------------------------------- the updater's table, written as a table

  datatype Line = Line(kind: Kind, from: State, to: State)

  const TABLE: set<Line> := {
    Line(DownloadStarted, Authorized, Downloading),
    Line(BundleVerified, Downloading, Verified),
    Line(BundleStaged, Verified, Staged),
    Line(HealthCheckStarted, Activating, HealthCheck),
    Line(UpdateSucceeded, HealthCheck, Succeeded),
    Line(UpdateFailed, Authorized, Failed),
    Line(UpdateFailed, Downloading, Failed),
    Line(UpdateFailed, Verified, Failed),
    Line(UpdateFailed, Staged, Failed),
    Line(RollbackStarted, Activating, RollingBack),
    Line(RollbackStarted, HealthCheck, RollingBack),
    Line(RollbackDone, RollingBack, RolledBack),
    Line(RecoveryHasFailed, Activating, RecoveryFailed),
    Line(RecoveryHasFailed, HealthCheck, RecoveryFailed),
    Line(RecoveryHasFailed, RollingBack, RecoveryFailed)}

  lemma TransitionIsTable(kind: Kind, from: State, to: State)
    ensures Transition(kind, from) == Some(to) <==> Line(kind, from, to) in TABLE
  {
  }

  predicate Final(state: State) {
    state == Succeeded || state == Failed || state == Cancelled || state == RolledBack || state == RecoveryFailed
  }

  // ---------------------------------------------------------------- ids in the log

  /** The log holds this very event: same id, deployment, credential and kind. */
  predicate SameEvent(log: seq<Event>, id: EventId, d: nat, credential: Option<CredentialId>, kind: Kind) {
    exists i :: 0 <= i < |log| && log[i].id == id
      && log[i].deployment == d && log[i].credential == credential && log[i].kind == kind
  }

  /** The id is taken by another event. */
  predicate OtherEvent(log: seq<Event>, id: EventId, d: nat, credential: Option<CredentialId>, kind: Kind) {
    exists i :: 0 <= i < |log| && log[i].id == id
      && !(log[i].deployment == d && log[i].credential == credential && log[i].kind == kind)
  }

  predicate IdsDiffer(log: seq<Event>) {
    forall i, j :: 0 <= i < j < |log| ==> log[i].id != log[j].id
  }

  lemma IdempotentIs(log: seq<Event>, id: EventId, d: nat, credential: Option<CredentialId>, kind: Kind)
    requires IdsDiffer(log)
    ensures Idempotent(log, id, d, credential, kind) ==
      if SameEvent(log, id, d, credential, kind) then Some(Replayed)
      else if OtherEvent(log, id, d, credential, kind) then Some(Conflict)
      else None
  {
    var found := Find(log, id);
    if found.Some? {
      var n :| 0 <= n < |log| && log[n] == found.value;
      assert forall i :: 0 <= i < |log| && log[i].id == id ==> i == n;
    }
  }

  // ---------------------------------------------------------------- what is told and what is done

  /** One event more, about this deployment, and no other change than to its row. */
  predicate Recorded(s: Store, s': Store, d: nat, row: Deployment, event: Event) {
    && d < |s.deployments| && s'.deployments == s.deployments[d := row] && s'.log == s.log + [event]
    && s'.drawn == (if event.id == Drawn(s.drawn) then s.drawn + 1 else s.drawn)
  }

  predicate Unfinished(client: nat, row: Deployment) { row.client == client && row.completedAt == None }

  /** A deployment is created exactly for a client without an unfinished one and a positive sequence. */
  lemma CreateLaw(s: Store, client: nat, release: string, sequence: int, now: Time)
    ensures var (s', o) := Apply(s, Creates(client, release, sequence), now);
      if sequence > 0 && forall i :: 0 <= i < |s.deployments| ==> !Unfinished(client, s.deployments[i]) then
        && o == Done
        && s'.deployments == s.deployments
             + [Deployment(client, release, sequence, Authorized, now, None, None, None, None, None, None)]
        && s'.log == s.log
             + [Event(Drawn(s.drawn), |s.deployments|, None, WasAuthorized, Target(release, sequence))]
        && s'.drawn == s.drawn + 1
      else o == Conflict && s' == s
  {
    if HasActive(s.deployments, client) {
      var i :| 0 <= i < |s.deployments| && s.deployments[i].client == client && Active(s.deployments[i]);
      assert Unfinished(client, s.deployments[i]);
    }
  }

  /** Cancellation succeeds exactly before activation. */
  lemma CancelLaw(s: Store, d: nat, now: Time)
    ensures var (s', o) := Apply(s, Cancels(d), now);
      if d >= |s.deployments| then o == NotFound && s' == s
      else
        var row := s.deployments[d];
        if row.state == Authorized || row.state == Downloading || row.state == Verified || row.state == Staged then
          && o == Done
          && Recorded(s, s', d, row.(state := Cancelled, stateUpdatedAt := now, completedAt := Some(now)),
                      Event(Drawn(s.drawn), d, None, WasCancelled, Before(row.state)))
        else o == Conflict && s' == s
  {
  }

  /** The activation gate opens once, for a staged deployment; the same delivery again is a replay. */
  lemma ActivateLaw(s: Store, d: nat, credential: Option<CredentialId>, sent: Option<EventId>, now: Time)
    requires Inv(s)
    ensures var (s', o) := Apply(s, Activates(d, credential, sent), now);
      if d >= |s.deployments| then o == NotFound && s' == s
      else if sent.Some? && SameEvent(s.log, sent.value, d, credential, ActivationStarted) then
        o == Replayed && s' == s
      else if sent.Some? && OtherEvent(s.log, sent.value, d, credential, ActivationStarted) then
        o == Conflict && s' == s
      else if s.deployments[d].state == Staged && (sent.None? || sent.value.Sent?) then
        && o == Done
        && Recorded(s, s', d, s.deployments[d].(state := Activating, stateUpdatedAt := now),
                    Event(if sent.Some? then sent.value else Drawn(s.drawn), d, credential, ActivationStarted,
                          Before(Staged)))
      else o == Conflict && s' == s
  {
    if sent.Some? { IdempotentIs(s.log, sent.value, d, credential, ActivationStarted); }
    hide Idempotent, SameEvent, OtherEvent;
    if d < |s.deployments| { assert RowOk(s.log, s.deployments[d], d); }
  }

  /** The row after an updater's event took it to `to`. */
  predicate Reported(row: Deployment, after: Deployment, kind: Kind, report: Report, to: State, now: Time) {
    && after.client == row.client && after.targetRelease == row.targetRelease
    && after.targetSequence == row.targetSequence
    && after.state == to && after.stateUpdatedAt == now
    && after.completedAt == (if Final(to) then Some(now) else row.completedAt)
    && (if kind == UpdateSucceeded then
          && after.observedRelease == Some(report.observedRelease)
          && after.observedSequence == report.observedSequence
          && after.observedPrevious == (if report.previousRelease == "" then None else Some(report.previousRelease))
        else
          && after.observedRelease == row.observedRelease && after.observedSequence == row.observedSequence
          && after.observedPrevious == row.observedPrevious)
    && (if kind == UpdateFailed || kind == RecoveryHasFailed then
          var code := if report.failureCode == "" then "update_failed" else report.failureCode;
          && after.failureCode == Some(if |code| > 100 then code[..100] else code)
          && after.failureMessage == (if report.failureMessage == "" then None
                                      else if |report.failureMessage| > 4000 then Some(report.failureMessage[..4000])
                                      else Some(report.failureMessage))
        else after.failureCode == row.failureCode && after.failureMessage == row.failureMessage)
  }

  /** The report takes the deployment to `to`: the table says so, and a success observed the authorised release. */
  predicate Leads(row: Deployment, kind: Kind, report: Report, to: State) {
    && Line(kind, row.state, to) in TABLE
    && (kind == UpdateSucceeded ==>
          report.observedRelease == row.targetRelease && report.observedSequence == Some(row.targetSequence))
  }

  predicate Unknown(s: Store, d: nat, credential: CredentialId, sent: EventId, kind: Kind) {
    && d < |s.deployments| && !SameEvent(s.log, sent, d, Some(credential), kind)
    && !OtherEvent(s.log, sent, d, Some(credential), kind)
  }

  /** What an id already in the log is told: the same event is a replay, any other a conflict. */
  lemma KnownIdLaw(s: Store, d: nat, credential: CredentialId, sent: EventId, kind: Kind, report: Report, now: Time)
    requires Inv(s)
    ensures var (s', o) := Apply(s, Reports(d, credential, sent, kind, report), now);
      && (o == NotFound <==> d >= |s.deployments|)
      && (o == Replayed <==> d < |s.deployments| && SameEvent(s.log, sent, d, Some(credential), kind))
      && (d < |s.deployments| && OtherEvent(s.log, sent, d, Some(credential), kind) ==> o == Conflict)
      && (o != Done ==> s' == s)
  {
    IdempotentIs(s.log, sent, d, Some(credential), kind);
    hide Idempotent, SameEvent, OtherEvent, Acceptable, Advanced;
  }

  /** What a new event is told, and what it changes. */
  lemma NewEventLaw(s: Store, d: nat, credential: CredentialId, sent: EventId, kind: Kind, report: Report, now: Time)
    requires Inv(s) && Unknown(s, d, credential, sent, kind)
    ensures var (s', o) := Apply(s, Reports(d, credential, sent, kind, report), now);
      var event := Event(sent, d, Some(credential), kind, Payload.Reported(report));
      && (o == Done <==> sent.Sent? && (kind == Observation || exists to :: Leads(s.deployments[d], kind, report, to)))
      && (o == Done && kind == Observation ==> Recorded(s, s', d, s.deployments[d], event))
      && (forall to :: o == Done && Leads(s.deployments[d], kind, report, to) ==>
            exists after ::
              Reported(s.deployments[d], after, kind, report, to, now) && Recorded(s, s', d, after, event))
      && (o != Done ==> o == Conflict && s' == s)
  {
    IdempotentIs(s.log, sent, d, Some(credential), kind);
    var row := s.deployments[d];
    LeadsIff(row, kind, report);
    hide Idempotent, SameEvent, OtherEvent, Acceptable, Leads;
    forall to | Apply(s, Reports(d, credential, sent, kind, report), now).1 == Done && Leads(row, kind, report, to)
      ensures Reported(row, Advanced(row, kind, report, to, now), kind, report, to, now)
      ensures Transition(kind, row.state) == Some(to) && InTable(kind)
    {
      LeadsOn(row, kind, report, to, now);
    }
  }

  lemma LeadsIff(row: Deployment, kind: Kind, report: Report)
    ensures Acceptable(row, kind, report) <==> kind == Observation || exists to :: Leads(row, kind, report, to)
  {
    if InTable(kind) && Transition(kind, row.state).Some? {
      var to := Transition(kind, row.state).value;
      TransitionIsTable(kind, row.state, to);
      assert Acceptable(row, kind, report) ==> Leads(row, kind, report, to);
    }
    if to :| Leads(row, kind, report, to) {
      TransitionIsTable(kind, row.state, to);
      assert Transition(kind, row.state).Some?;
    }
  }

  lemma LeadsOn(row: Deployment, kind: Kind, report: Report, to: State, now: Time)
    requires Leads(row, kind, report, to)
    ensures Reported(row, Advanced(row, kind, report, to, now), kind, report, to, now)
    ensures Transition(kind, row.state) == Some(to) && InTable(kind)
  {
    TransitionIsTable(kind, row.state, to);
  }

  // ---------------------------------------------------------------- redelivery

  lemma EventStays(s: Store, ds: seq<Delivery>, id: EventId, d: nat, credential: Option<CredentialId>, kind: Kind)
    requires Inv(s) && SameEvent(s.log, id, d, credential, kind) && d < |s.deployments|
    ensures Inv(Run(s, ds)) && SameEvent(Run(s, ds).log, id, d, credential, kind) && d < |Run(s, ds).deployments|
  {
    RunKeeps(s, ds);
    FinishedIsFrozen(s, ds, d);
    var i :| 0 <= i < |s.log| && s.log[i].id == id
             && s.log[i].deployment == d && s.log[i].credential == credential && s.log[i].kind == kind;
    assert Run(s, ds).log[i] == s.log[i];
  }

  /** A report that was done and comes again unchanged, whatever was delivered in between, is a replay. */
  lemma ReportAgainIsReplay(
    s: Store, d: nat, credential: CredentialId, sent: EventId, kind: Kind, report: Report, now: Time,
    ds: seq<Delivery>, again: Report, later: Time)
    requires Inv(s) && Apply(s, Reports(d, credential, sent, kind, report), now).1 == Done
    ensures var after := Run(Apply(s, Reports(d, credential, sent, kind, report), now).0, ds);
      Apply(after, Reports(d, credential, sent, kind, again), later) == (after, Replayed)
  {
    var c := Reports(d, credential, sent, kind, report);
    var mid := Apply(s, c, now).0;
    ApplyKeeps(s, c, now);
    assert mid.log[|s.log|] == Event(sent, d, Some(credential), kind, Payload.Reported(report));
    hide Apply, Run;
    EventStays(mid, ds, sent, d, Some(credential), kind);
    KnownIdLaw(Run(mid, ds), d, credential, sent, kind, again, later);
  }

  /** The same for an activation that carried an id. */
  lemma ActivationAgainIsReplay(
    s: Store, d: nat, credential: Option<CredentialId>, sent: EventId, now: Time, ds: seq<Delivery>, later: Time)
    requires Inv(s) && Apply(s, Activates(d, credential, Some(sent)), now).1 == Done
    ensures var after := Run(Apply(s, Activates(d, credential, Some(sent)), now).0, ds);
      Apply(after, Activates(d, credential, Some(sent)), later) == (after, Replayed)
  {
    var c := Activates(d, credential, Some(sent));
    var mid := Apply(s, c, now).0;
    ApplyKeeps(s, c, now);
    assert mid.log[|s.log|] == Event(sent, d, credential, ActivationStarted, Before(Staged));
    hide Apply, Run;
    EventStays(mid, ds, sent, d, credential, ActivationStarted);
    ActivateLaw(Run(mid, ds), d, credential, Some(sent), later);
  }
}
