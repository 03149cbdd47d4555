/**
 The lifecycle of one client update: a backend-owned state machine with an
 append-only event log, event ids that make redelivery harmless, cancellation
 and a point of no return.

 Rows and events are values; a deployment's id is its position.  Each function
 from `Create` to `Report` is one committed transaction, or an aborted one,
 which leaves the store as it was.
 */
module Deployments {
  import opened Options

  type Time = int
  type Uuid = nat
  type CredentialId = string

  const MAX_FAILURE_CODE: nat := 100
  const MAX_FAILURE_MESSAGE: nat := 4000

  datatype State =
    | Authorized | Downloading | Verified | Staged | Activating | HealthCheck | Succeeded
    | Failed | Cancelled | RollingBack | RolledBack | RecoveryFailed
  {
    predicate Terminal() {
      Succeeded? || Failed? || Cancelled? || RolledBack? || RecoveryFailed?
    }

    predicate Cancellable() {
      Authorized? || Downloading? || Verified? || Staged?
    }
  }

  datatype Kind =
    | WasAuthorized | WasCancelled | ActivationStarted
    | DownloadStarted | BundleVerified | BundleStaged | HealthCheckStarted | UpdateSucceeded | UpdateFailed
    | RollbackStarted | RollbackDone | RecoveryHasFailed
    | Observation
    | Other(name: string)

  /** What an updater reports along with an event; an absent text is empty. */
  datatype Report = Report(
    observedRelease: string, observedSequence: Option<int>, previousRelease: string,
    failureCode: string, failureMessage: string)

  datatype Payload = Target(release: string, sequence: int) | Before(state: State) | Reported(report: Report)

  /**
   Ids drawn by the backend and ids made up by updaters.  An updater may also send back an id the backend drew; that
   one is in the log, and one the backend has not drawn yet is known to nobody.
   */
  datatype EventId = Drawn(n: nat) | Sent(uuid: Uuid)

  datatype Event = Event(id: EventId, deployment: nat, credential: Option<CredentialId>, kind: Kind, payload: Payload)

  datatype Deployment = Deployment(
    client: nat, targetRelease: string, targetSequence: int,
    state: State, stateUpdatedAt: Time, completedAt: Option<Time>,
    observedRelease: Option<string>, observedSequence: Option<int>, observedPrevious: Option<string>,
    failureCode: Option<string>, failureMessage: Option<string>)

  datatype Store = Store(deployments: seq<Deployment>, log: seq<Event>, drawn: nat)

  datatype Outcome = Done | Replayed | Conflict | NotFound

  /** The updater's transition table. */
  function Transition(kind: Kind, state: State): Option<State> {
    match kind
    case DownloadStarted => if state.Authorized? then Some(Downloading) else None
    case BundleVerified => if state.Downloading? then Some(Verified) else None
    case BundleStaged => if state.Verified? then Some(Staged) else None
    case HealthCheckStarted => if state.Activating? then Some(HealthCheck) else None
    case UpdateSucceeded => if state.HealthCheck? then Some(Succeeded) else None
    case UpdateFailed => if state.Cancellable() then Some(Failed) else None
    case RollbackStarted => if state.Activating? || state.HealthCheck? then Some(RollingBack) else None
    case RollbackDone => if state.RollingBack? then Some(RolledBack) else None
    case RecoveryHasFailed =>
      if state.Activating? || state.HealthCheck? || state.RollingBack? then Some(RecoveryFailed) else None
    case _ => None
  }

  predicate InTable(kind: Kind) {
    exists state :: Transition(kind, state).Some?
  }

  // ---------------------------------------------------------------- transactions

  predicate Active(d: Deployment) { d.completedAt.None? }

  predicate HasActive(deployments: seq<Deployment>, client: nat) {
    exists i :: 0 <= i < |deployments| && deployments[i].client == client && Active(deployments[i])
  }

  predicate Logged(log: seq<Event>, id: EventId) {
    exists i :: 0 <= i < |log| && log[i].id == id
  }

  function Find(log: seq<Event>, id: EventId): (e: Option<Event>)
    ensures e.Some? <==> Logged(log, id)
    ensures e.Some? ==> e.value in log && e.value.id == id
  {
    if log == [] then None
    else if log[0].id == id then Some(log[0])
    else
      var rest := Find(log[1..], id);
      assert forall i :: 0 < i < |log| ==> log[i] == log[1..][i - 1];
      rest
  }

  function Create(s: Store, client: nat, release: string, sequence: int, now: Time): (Store, Outcome) {
    if HasActive(s.deployments, client) || sequence <= 0 then (s, Conflict)
    else
      var row := Deployment(client, release, sequence, Authorized, now, None, None, None, None, None, None);
      var event := Event(Drawn(s.drawn), |s.deployments|, None, WasAuthorized, Target(release, sequence));
      (Store(s.deployments + [row], s.log + [event], s.drawn + 1), Done)
  }

  function Cancel(s: Store, d: nat, now: Time): (Store, Outcome) {
    if d >= |s.deployments| then (s, NotFound)
    else
      var row := s.deployments[d];
      if !row.state.Cancellable() then (s, Conflict)
      else
        var event := Event(Drawn(s.drawn), d, None, WasCancelled, Before(row.state));
        (Store(s.deployments[d := row.(state := Cancelled, stateUpdatedAt := now, completedAt := Some(now))],
               s.log + [event], s.drawn + 1), Done)
  }

  /** What an id already in the log means for a delivery: nothing, a replay, or a clash with another event. */
  function Idempotent(log: seq<Event>, id: EventId, d: nat, credential: Option<CredentialId>, kind: Kind)
    : Option<Outcome>
  {
    match Find(log, id)
    case None => None
    case Some(e) =>
      if e.deployment != d || e.credential != credential || e.kind != kind then Some(Conflict) else Some(Replayed)
  }

  /** Of the ids that are not in the log, the ones no delivery can carry. */
  predicate Undrawn(sent: Option<EventId>) { sent.Some? && sent.value.Drawn? }

  function Activate(
    s: Store, d: nat, credential: Option<CredentialId>, sent: Option<EventId>, now: Time): (Store, Outcome)
  {
    if d >= |s.deployments| then (s, NotFound)
    else
      var known := if sent.Some? then Idempotent(s.log, sent.value, d, credential, ActivationStarted) else None;
      if known.Some? then (s, known.value)
      else
        var row := s.deployments[d];
        if !row.state.Staged? || row.completedAt.Some? || Undrawn(sent) then (s, Conflict)
        else
          var id := if sent.Some? then sent.value else Drawn(s.drawn);
          var event := Event(id, d, credential, ActivationStarted, Before(Staged));
          (Store(s.deployments[d := row.(state := Activating, stateUpdatedAt := now)],
                 s.log + [event], if sent.Some? then s.drawn else s.drawn + 1), Done)
  }

  function Clipped(text: string, limit: nat): string {
    if |text| > limit then text[..limit] else text
  }

  function NonEmpty(text: string): Option<string> { if text == "" then None else Some(text) }

  predicate MatchesTarget(row: Deployment, report: Report) {
    report.observedRelease == row.targetRelease && report.observedSequence == Some(row.targetSequence)
  }

  /** The row after its transition to `next`, with what the event observed. */
  function Advanced(row: Deployment, kind: Kind, report: Report, next: State, now: Time): Deployment {
    var observed :=
      if kind.UpdateSucceeded? then
        row.(observedRelease := Some(report.observedRelease), observedSequence := report.observedSequence,
             observedPrevious := NonEmpty(report.previousRelease))
      else if kind.UpdateFailed? || kind.RecoveryHasFailed? then
        row.(failureCode := Some(Clipped(if report.failureCode == "" then "update_failed" else report.failureCode,
                                         MAX_FAILURE_CODE)),
             failureMessage := NonEmpty(Clipped(report.failureMessage, MAX_FAILURE_MESSAGE)))
      else row;
    observed.(state := next, stateUpdatedAt := now,
              completedAt := if next.Terminal() then Some(now) else row.completedAt)
  }

  /** The guards of a report whose id is new. */
  predicate Acceptable(row: Deployment, kind: Kind, report: Report) {
    if InTable(kind) then
      Transition(kind, row.state).Some? && (kind.UpdateSucceeded? ==> MatchesTarget(row, report))
    else kind.Observation?
  }

  function ReportEvent(s: Store, d: nat, credential: CredentialId, sent: EventId, kind: Kind, report: Report, now: Time)
    : (Store, Outcome)
  {
    if d >= |s.deployments| then (s, NotFound)
    else
      var known := Idempotent(s.log, sent, d, Some(credential), kind);
      if known.Some? then (s, known.value)
      else
        var row := s.deployments[d];
        if !Acceptable(row, kind, report) || Undrawn(Some(sent)) then (s, Conflict)
        else
          var event := Event(sent, d, Some(credential), kind, Reported(report));
          var after :=
            if InTable(kind) then Advanced(row, kind, report, Transition(kind, row.state).value, now) else row;
          (Store(s.deployments[d := after], s.log + [event], s.drawn), Done)
  }

  // ---------------------------------------------------------------- runs

  datatype Command =
    | Creates(client: nat, release: string, sequence: int)
    | Cancels(d: nat)
    | Activates(d: nat, updater: Option<CredentialId>, sent: Option<EventId>)
    | Reports(d: nat, credential: CredentialId, id: EventId, kind: Kind, report: Report)
  {
    /** The event id this delivery carries. */
    function Carried(): Option<EventId> {
      match this
      case Activates(_, _, sent) => sent
      case Reports(_, _, id, _, _) => Some(id)
      case _ => None
    }
  }

  function Apply(s: Store, c: Command, now: Time): (Store, Outcome) {
    match c
    case Creates(client, release, sequence) => Create(s, client, release, sequence, now)
    case Cancels(d) => Cancel(s, d, now)
    case Activates(d, credential, sent) => Activate(s, d, credential, sent, now)
    case Reports(d, credential, id, kind, report) => ReportEvent(s, d, credential, id, kind, report, now)
  }

  datatype Delivery = Delivery(command: Command, at: Time)

  function Run(s: Store, ds: seq<Delivery>): Store
    decreases |ds|
  {
    if ds == [] then s else Run(Apply(s, ds[0].command, ds[0].at).0, ds[1..])
  }

  const EMPTY := Store([], [], 0)

  // ---------------------------------------------------------------- the log decides the state

  /** What a log says about one deployment; `Impossible` absorbs every event the table forbids. */
  datatype Progress = NotCreated | At(state: State) | Impossible

  /** The transition table with the backend's own events added. */
  function Moved(progress: Progress, kind: Kind): Progress {
    match progress
    case Impossible => Impossible
    case NotCreated => if kind.WasAuthorized? then At(Authorized) else Impossible
    case At(state) =>
      match kind
      case Observation => progress
      case WasCancelled => if state.Cancellable() then At(Cancelled) else Impossible
      case ActivationStarted => if state.Staged? then At(Activating) else Impossible
      case _ => if Transition(kind, state).Some? then At(Transition(kind, state).value) else Impossible
  }

  /** The fold of the table over one deployment's events. */
  function StateOf(log: seq<Event>, d: nat): Progress {
    if log == [] then NotCreated
    else
      var before, e := StateOf(log[..|log| - 1], d), log[|log| - 1];
      if e.deployment == d then Moved(before, e.kind) else before
  }

  /** The kinds of one deployment's events, observations left out. */
  function History(log: seq<Event>, d: nat): seq<Kind> {
    if log == [] then []
    else
      var before, e := History(log[..|log| - 1], d), log[|log| - 1];
      if e.deployment == d && !e.kind.Observation? then before + [e.kind] else before
  }

  predicate RowOk(log: seq<Event>, row: Deployment, d: nat) {
    && StateOf(log, d) == At(row.state)
    && (row.completedAt.Some? <==> row.state.Terminal())
    && (row.state.Succeeded? <==> row.observedRelease.Some?)
    && (row.state.Succeeded? ==>
          row.observedRelease == Some(row.targetRelease) && row.observedSequence == Some(row.targetSequence))
    && (row.state.Failed? || row.state.RecoveryFailed? <==> row.failureCode.Some?)
  }

  predicate LogOk(log: seq<Event>, drawn: nat, count: nat) {
    && (forall i, j :: 0 <= i < j < |log| ==> log[i].id != log[j].id)
    && (forall i :: 0 <= i < |log| ==> log[i].id.Drawn? ==> log[i].id.n < drawn)
    && (forall i :: 0 <= i < |log| ==> log[i].deployment < count)
  }

  predicate OneActive(deployments: seq<Deployment>) {
    forall i, j :: 0 <= i < j < |deployments| && Active(deployments[i]) && Active(deployments[j])
      ==> deployments[i].client != deployments[j].client
  }

  predicate Inv(s: Store) {
    && LogOk(s.log, s.drawn, |s.deployments|)
    && (forall d :: 0 <= d < |s.deployments| ==> RowOk(s.log, s.deployments[d], d))
    && OneActive(s.deployments)
  }

  // ---------------------------------------------------------------- every transaction keeps the invariant

  lemma Appended(log: seq<Event>, e: Event, d: nat)
    ensures StateOf(log + [e], d) == (if e.deployment == d then Moved(StateOf(log, d), e.kind) else StateOf(log, d))
    ensures History(log + [e], d)
         == History(log, d) + (if e.deployment == d && !e.kind.Observation? then [e.kind] else [])
  {
    assert (log + [e])[..|log|] == log;
  }

  lemma {:induction false} NothingLogged(log: seq<Event>, d: nat)
    requires forall i :: 0 <= i < |log| ==> log[i].deployment != d
    ensures StateOf(log, d) == NotCreated && History(log, d) == []
  {
    if log != [] { NothingLogged(log[..|log| - 1], d); }
  }

  /** One event about deployment `d` and the matching change of its row keep the invariant. */
  lemma StepKeeps(s: Store, s': Store, d: nat, e: Event)
    requires Inv(s) && d < |s.deployments| && e.deployment == d && s'.log == s.log + [e]
    requires |s'.deployments| == |s.deployments| && s'.deployments == s.deployments[d := s'.deployments[d]]
    requires !Logged(s.log, e.id) && s'.drawn >= s.drawn && (e.id.Drawn? ==> e.id.n < s'.drawn)
    requires RowOk(s'.log, s'.deployments[d], d) && s'.deployments[d].client == s.deployments[d].client
    requires Active(s'.deployments[d]) ==> Active(s.deployments[d])
    ensures Inv(s')
  {
    forall k | 0 <= k < |s'.deployments| ensures RowOk(s'.log, s'.deployments[k], k) {
      Appended(s.log, e, k);
    }
  }

  lemma FreshId(s: Store)
    requires LogOk(s.log, s.drawn, |s.deployments|)
    ensures !Logged(s.log, Drawn(s.drawn))
  {
  }

  lemma CreateKeeps(s: Store, client: nat, release: string, sequence: int, now: Time)
    requires Inv(s)
    ensures Inv(Create(s, client, release, sequence, now).0)
  {
    var s' := Create(s, client, release, sequence, now).0;
    if s' != s {
      FreshId(s);
      var e := s'.log[|s.log|];
      assert s'.log == s.log + [e];
      NothingLogged(s.log, |s.deployments|);
      forall k | 0 <= k < |s'.deployments| ensures RowOk(s'.log, s'.deployments[k], k) {
        Appended(s.log, e, k);
      }
    }
  }

  lemma CancelKeeps(s: Store, d: nat, now: Time)
    requires Inv(s)
    ensures Inv(Cancel(s, d, now).0)
  {
    var s' := Cancel(s, d, now).0;
    if s' != s {
      FreshId(s);
      var e := s'.log[|s.log|];
      Appended(s.log, e, d);
      StepKeeps(s, s', d, e);
    }
  }

  lemma ActivateKeeps(s: Store, d: nat, credential: Option<CredentialId>, sent: Option<EventId>, now: Time)
    requires Inv(s)
    ensures Inv(Activate(s, d, credential, sent, now).0)
  {
    var s' := Activate(s, d, credential, sent, now).0;
    if s' != s {
      FreshId(s);
      var e := s'.log[|s.log|];
      Appended(s.log, e, d);
      StepKeeps(s, s', d, e);
    }
  }

  lemma ReportKeeps(s: Store, d: nat, credential: CredentialId, sent: EventId, kind: Kind, report: Report, now: Time)
    requires Inv(s)
    ensures Inv(ReportEvent(s, d, credential, sent, kind, report, now).0)
  {
    var s' := ReportEvent(s, d, credential, sent, kind, report, now).0;
    if s' != s {
      var e := s'.log[|s.log|];
      Appended(s.log, e, d);
      StepKeeps(s, s', d, e);
    }
  }

  lemma ApplyKeeps(s: Store, c: Command, now: Time)
    requires Inv(s)
    ensures Inv(Apply(s, c, now).0)
  {
    hide Inv, Create, Cancel, Activate, ReportEvent;
    match c
    case Creates(client, release, sequence) => CreateKeeps(s, client, release, sequence, now);
    case Cancels(d) => CancelKeeps(s, d, now);
    case Activates(d, credential, sent) => ActivateKeeps(s, d, credential, sent, now);
    case Reports(d, credential, id, kind, report) => ReportKeeps(s, d, credential, id, kind, report, now);
  }

  lemma {:induction false} RunKeeps(s: Store, ds: seq<Delivery>)
    requires Inv(s)
    ensures Inv(Run(s, ds))
    decreases |ds|
  {
    hide Inv, Apply;
    if ds != [] {
      ApplyKeeps(s, ds[0].command, ds[0].at);
      RunKeeps(Apply(s, ds[0].command, ds[0].at).0, ds[1..]);
    }
  }

  /** In every reachable store a deployment's state is the fold of the table over its log, and the row agrees. */
  lemma StateIsFold(ds: seq<Delivery>, d: nat)
    requires d < |Run(EMPTY, ds).deployments|
    ensures var s := Run(EMPTY, ds);
      var row := s.deployments[d];
      && StateOf(s.log, d) == At(row.state)
      && (row.completedAt.Some? <==> row.state.Terminal())
      && (row.state.Succeeded? ==>
            row.observedRelease == Some(row.targetRelease) && row.observedSequence == Some(row.targetSequence))
  {
    RunKeeps(EMPTY, ds);
  }

  lemma AtMostOneActive(ds: seq<Delivery>, i: nat, j: nat)
    requires i < |Run(EMPTY, ds).deployments| && j < |Run(EMPTY, ds).deployments|
    requires Active(Run(EMPTY, ds).deployments[i]) && Active(Run(EMPTY, ds).deployments[j])
    requires Run(EMPTY, ds).deployments[i].client == Run(EMPTY, ds).deployments[j].client
    ensures i == j
  {
    RunKeeps(EMPTY, ds);
  }

  // ---------------------------------------------------------------- what a log with a state can contain

  function Rank(state: State): nat {
    match state
    case Authorized => 0
    case Downloading => 1
    case Verified => 2
    case Staged => 3
    case Activating => 4
    case HealthCheck => 5
    case RollingBack => 6
    case _ => 7
  }

  lemma {:induction false} NotCreatedHasNoHistory(log: seq<Event>, d: nat)
    requires StateOf(log, d).NotCreated?
    ensures History(log, d) == []
  {
    if log != [] { NotCreatedHasNoHistory(log[..|log| - 1], d); }
  }

  /** Creation and at most seven changes of state. */
  lemma {:induction false} AtMostSevenChanges(log: seq<Event>, d: nat)
    requires StateOf(log, d).At?
    ensures 1 <= |History(log, d)| <= 1 + Rank(StateOf(log, d).state) <= 8
  {
    var before := log[..|log| - 1];
    if StateOf(before, d).At? {
      AtMostSevenChanges(before, d);
    } else {
      NotCreatedHasNoHistory(before, d);
    }
  }

  /** The states behind the point of no return. */
  predicate PastActivation(state: State) {
    state.Activating? || state.HealthCheck? || state.Succeeded? || state.RollingBack? || state.RolledBack?
    || state.RecoveryFailed?
  }

  /** Activation is in the log exactly in the states past it, and cancellation exactly in `Cancelled`. */
  lemma {:induction false} ActivationIsFinal(log: seq<Event>, d: nat)
    requires StateOf(log, d).At?
    ensures var state := StateOf(log, d).state;
      && (ActivationStarted in History(log, d) <==> PastActivation(state))
      && (WasCancelled in History(log, d) <==> state.Cancelled?)
      && (UpdateFailed in History(log, d) <==> state.Failed?)
  {
    var before := log[..|log| - 1];
    if StateOf(before, d).At? {
      ActivationIsFinal(before, d);
    } else {
      NotCreatedHasNoHistory(before, d);
    }
  }

  predicate OnStraightPath(state: State) {
    !state.Cancelled? && !state.Failed? && !state.RollingBack? && !state.RolledBack? && !state.RecoveryFailed?
  }

  /** The one way to each state of the straight path. */
  function PathTo(state: State): seq<Kind>
    requires OnStraightPath(state)
    decreases Rank(state)
  {
    match state
    case Authorized => [WasAuthorized]
    case Downloading => PathTo(Authorized) + [DownloadStarted]
    case Verified => PathTo(Downloading) + [BundleVerified]
    case Staged => PathTo(Verified) + [BundleStaged]
    case Activating => PathTo(Staged) + [ActivationStarted]
    case HealthCheck => PathTo(Activating) + [HealthCheckStarted]
    case Succeeded => PathTo(HealthCheck) + [UpdateSucceeded]
  }

  predicate EndsEarly(history: seq<Kind>, end: Kind) {
    || history == PathTo(Authorized) + [end] || history == PathTo(Downloading) + [end]
    || history == PathTo(Verified) + [end] || history == PathTo(Staged) + [end]
  }

  predicate RollsBack(history: seq<Kind>) {
    history == PathTo(Activating) + [RollbackStarted] || history == PathTo(HealthCheck) + [RollbackStarted]
  }

  /** Every history a deployment in this state can have. */
  predicate Lawful(state: State, history: seq<Kind>) {
    match state
    case Failed => EndsEarly(history, UpdateFailed)
    case Cancelled => EndsEarly(history, WasCancelled)
    case RollingBack => RollsBack(history)
    case RolledBack => history != [] && history == history[..|history| - 1] + [RollbackDone]
                       && RollsBack(history[..|history| - 1])
    case RecoveryFailed =>
      && history != [] && history == history[..|history| - 1] + [RecoveryHasFailed]
      && var before := history[..|history| - 1];
         RollsBack(before) || before == PathTo(Activating) || before == PathTo(HealthCheck)
    case _ => history == PathTo(state)
  }

  lemma LawfulStep(state: State, history: seq<Kind>, kind: Kind)
    requires !kind.Observation? && Moved(At(state), kind).At? && Lawful(state, history)
    ensures Lawful(Moved(At(state), kind).state, history + [kind])
  {
    assert (history + [kind])[..|history|] == history;
  }

  /** A deployment's log is one of the lawful histories of its state, with observations in between. */
  lemma {:induction false} HistoryIsLawful(log: seq<Event>, d: nat)
    requires StateOf(log, d).At?
    ensures Lawful(StateOf(log, d).state, History(log, d))
  {
    var before, e := log[..|log| - 1], log[|log| - 1];
    if StateOf(before, d).At? {
      HistoryIsLawful(before, d);
      if e.deployment == d && !e.kind.Observation? {
        LawfulStep(StateOf(before, d).state, History(before, d), e.kind);
      }
      hide Transition, Lawful;
    } else {
      NotCreatedHasNoHistory(before, d);
    }
  }

  /** Success means every step happened, once and in order, and the observed release is the authorised one. */
  lemma SuccessIsEarned(ds: seq<Delivery>, d: nat)
    requires d < |Run(EMPTY, ds).deployments| && Run(EMPTY, ds).deployments[d].state.Succeeded?
    ensures var s := Run(EMPTY, ds);
      var row := s.deployments[d];
      && History(s.log, d)
         == [WasAuthorized, DownloadStarted, BundleVerified, BundleStaged, ActivationStarted, HealthCheckStarted,
             UpdateSucceeded]
      && row.observedRelease == Some(row.targetRelease) && row.observedSequence == Some(row.targetSequence)
  {
    var s := Run(EMPTY, ds);
    RunKeeps(EMPTY, ds);
    assert RowOk(s.log, s.deployments[d], d);
    HistoryIsLawful(s.log, d);
  }

  /** No deployment is both cancelled and activated, and none fails quietly after activation. */
  lemma NeverBothCancelledAndActivated(ds: seq<Delivery>, d: nat)
    requires d < |Run(EMPTY, ds).deployments|
    ensures var s := Run(EMPTY, ds);
      var history := History(s.log, d);
      && !(WasCancelled in history && ActivationStarted in history)
      && !(UpdateFailed in history && ActivationStarted in history)
      && (PastActivation(s.deployments[d].state) <==> ActivationStarted in history)
      && |history| <= 8
  {
    var s := Run(EMPTY, ds);
    RunKeeps(EMPTY, ds);
    assert RowOk(s.log, s.deployments[d], d);
    ActivationIsFinal(s.log, d);
    AtMostSevenChanges(s.log, d);
  }

  // ---------------------------------------------------------------- rows and log over a run

  /** One transaction extends the log, climbs the ranks of the row it moves, and leaves finished rows alone. */
  predicate Follows(s: Store, s': Store) {
    && s.log <= s'.log && |s.deployments| <= |s'.deployments|
    && (s'.deployments == s.deployments || |s'.log| == |s.log| + 1)
    && forall d :: 0 <= d < |s.deployments| ==>
         && s'.deployments[d].client == s.deployments[d].client
         && s'.deployments[d].targetRelease == s.deployments[d].targetRelease
         && s'.deployments[d].targetSequence == s.deployments[d].targetSequence
         && (s'.deployments[d] == s.deployments[d]
             || Rank(s'.deployments[d].state) > Rank(s.deployments[d].state))
  }

  lemma ApplyFollows(s: Store, c: Command, now: Time)
    ensures Follows(s, Apply(s, c, now).0)
  {
  }

  /** A finished deployment is never touched again, and what was authorised never changes. */
  lemma {:induction false} FinishedIsFrozen(s: Store, ds: seq<Delivery>, d: nat)
    requires d < |s.deployments|
    ensures var s' := Run(s, ds);
      && s.log <= s'.log && d < |s'.deployments|
      && s'.deployments[d].targetRelease == s.deployments[d].targetRelease
      && s'.deployments[d].targetSequence == s.deployments[d].targetSequence
      && Rank(s.deployments[d].state) <= Rank(s'.deployments[d].state)
      && (s.deployments[d].state.Terminal() ==> s'.deployments[d] == s.deployments[d])
    decreases |ds|
  {
    hide Apply;
    if ds != [] {
      ApplyFollows(s, ds[0].command, ds[0].at);
      FinishedIsFrozen(Apply(s, ds[0].command, ds[0].at).0, ds[1..], d);
    }
  }

  // ---------------------------------------------------------------- redelivery

  predicate AlreadyLogged(s: Store, c: Command) {
    c.Carried().Some? && Logged(s.log, c.Carried().value)
  }

  /** The guards a transaction passes exactly when it commits something. */
  predicate Accepted(s: Store, c: Command) {
    match c
    case Creates(client, _, sequence) => !HasActive(s.deployments, client) && sequence > 0
    case Cancels(d) => d < |s.deployments| && s.deployments[d].state.Cancellable()
    case Activates(d, _, _) =>
      && !AlreadyLogged(s, c) && !Undrawn(c.Carried())
      && d < |s.deployments| && s.deployments[d].state.Staged? && Active(s.deployments[d])
    case Reports(d, _, _, kind, report) =>
      && !AlreadyLogged(s, c) && !Undrawn(c.Carried())
      && d < |s.deployments| && Acceptable(s.deployments[d], kind, report)
  }

  /** A transaction changes the store if and only if its guards pass, and then it logs the id it carries. */
  lemma ChangesIffAccepted(s: Store, c: Command, now: Time)
    ensures Apply(s, c, now).0 != s <==> Accepted(s, c)
    ensures Apply(s, c, now).1.Done? <==> Accepted(s, c)
    ensures Accepted(s, c) && c.Carried().Some? ==> AlreadyLogged(Apply(s, c, now).0, c)
  {
    var s' := Apply(s, c, now).0;
    if Accepted(s, c) {
      assert |s'.log| == |s.log| + 1;
      assert c.Carried().Some? ==> s'.log[|s.log|].id == c.Carried().value;
    }
  }

  /** Once an id is in the log, delivering it again at any later point of any run changes nothing. */
  lemma RedeliveryIsIdle(s: Store, ds: seq<Delivery>, c: Command, now: Time)
    requires AlreadyLogged(s, c)
    ensures Apply(Run(s, ds), c, now).0 == Run(s, ds) && !Apply(Run(s, ds), c, now).1.Done?
  {
    LogGrows(s, ds);
    ChangesIffAccepted(Run(s, ds), c, now);
  }

  lemma {:induction false} LogGrows(s: Store, ds: seq<Delivery>)
    ensures s.log <= Run(s, ds).log
    decreases |ds|
  {
    hide Apply;
    if ds != [] {
      ApplyFollows(s, ds[0].command, ds[0].at);
      LogGrows(Apply(s, ds[0].command, ds[0].at).0, ds[1..]);
    }
  }

  /** The deliveries that are left when those whose id is already in the log are thrown away. */
  function WithoutRedeliveries(s: Store, ds: seq<Delivery>): seq<Delivery>
    decreases |ds|
  {
    if ds == [] then []
    else
      var rest := WithoutRedeliveries(Apply(s, ds[0].command, ds[0].at).0, ds[1..]);
      if AlreadyLogged(s, ds[0].command) then rest else [ds[0]] + rest
  }

  lemma {:induction false} RedeliveriesDoNotMatter(s: Store, ds: seq<Delivery>)
    ensures Run(s, WithoutRedeliveries(s, ds)) == Run(s, ds)
    decreases |ds|
  {
    hide Apply;
    if ds != [] {
      var c, now := ds[0].command, ds[0].at;
      ChangesIffAccepted(s, c, now);
      RedeliveriesDoNotMatter(Apply(s, c, now).0, ds[1..]);
    }
  }

  // ---------------------------------------------------------------- keeping only the first delivery of each id

  /** The deliveries that are left when every id is delivered only the first time it is sent, accepted or not. */
  function KeepFirst(seen: set<EventId>, ds: seq<Delivery>): seq<Delivery>
    decreases |ds|
  {
    if ds == [] then []
    else
      match ds[0].command.Carried()
      case None => [ds[0]] + KeepFirst(seen, ds[1..])
      case Some(id) => if id in seen then KeepFirst(seen, ds[1..]) else [ds[0]] + KeepFirst(seen + {id}, ds[1..])
  }

  /** Every delivery that `KeepFirst` drops meets guards that refuse it where it stands. */
  predicate DropsOnlyRefused(s: Store, seen: set<EventId>, ds: seq<Delivery>)
    decreases |ds|
  {
    if ds == [] then true
    else
      var after := Apply(s, ds[0].command, ds[0].at).0;
      match ds[0].command.Carried()
      case None => DropsOnlyRefused(after, seen, ds[1..])
      case Some(id) =>
        if id in seen then !Accepted(s, ds[0].command) && DropsOnlyRefused(s, seen, ds[1..])
        else DropsOnlyRefused(after, seen + {id}, ds[1..])
  }

  predicate Carries(ds: seq<Delivery>, id: EventId) {
    exists i :: 0 <= i < |ds| && ds[i].command.Carried() == Some(id)
  }

  lemma {:induction false} KeptAreUnseen(seen: set<EventId>, ds: seq<Delivery>, id: EventId)
    requires id in seen
    ensures !Carries(KeepFirst(seen, ds), id)
    decreases |ds|
  {
    if ds != [] {
      var c := ds[0].command.Carried();
      KeptAreUnseen(seen, ds[1..], id);
      if c.Some? { KeptAreUnseen(seen + {c.value}, ds[1..], id); }
    }
  }

  /** Only a delivery that carries an id can put it into the log. */
  lemma {:induction false} UnsentStaysUnlogged(s: Store, ds: seq<Delivery>, id: EventId)
    requires id.Sent? && !Logged(s.log, id) && !Carries(ds, id)
    ensures !Logged(Run(s, ds).log, id)
    decreases |ds|
  {
    if ds != [] {
      var after := Apply(s, ds[0].command, ds[0].at).0;
      assert ds[0].command.Carried() != Some(id);
      assert forall i :: 0 <= i < |ds[1..]| ==> ds[1..][i] == ds[i + 1];
      assert !Logged(after.log, id) by { NewEntryId(s, ds[0].command, ds[0].at); }
      UnsentStaysUnlogged(after, ds[1..], id);
    }
  }

  lemma NewEntryId(s: Store, c: Command, now: Time)
    ensures var log' := Apply(s, c, now).0.log;
      log' == s.log || (|log'| == |s.log| + 1 && log'[..|s.log|] == s.log
                        && (log'[|s.log|].id.Drawn? || c.Carried() == Some(log'[|s.log|].id)))
  {
  }

  /**
   Keeping only first deliveries gives the same store if and only if every dropped delivery would have been refused
   where it stood: a first delivery may itself be refused and a later one of the same id accepted.
   */
  lemma {:induction false} KeepFirstIff(s: Store, seen: set<EventId>, ds: seq<Delivery>)
    ensures Run(s, KeepFirst(seen, ds)) == Run(s, ds) <==> DropsOnlyRefused(s, seen, ds)
    decreases |ds|
  {
    hide Apply, Accepted, Logged, Carries;
    if ds != [] {
      var c, now := ds[0].command, ds[0].at;
      var after, id := Apply(s, c, now).0, c.Carried();
      ChangesIffAccepted(s, c, now);
      if id.None? {
        KeepFirstIff(after, seen, ds[1..]);
      } else if id.value !in seen {
        KeepFirstIff(after, seen + {id.value}, ds[1..]);
      } else if Accepted(s, c) {
        LateAcceptance(s, seen, ds);
      } else {
        KeepFirstIff(s, seen, ds[1..]);
      }
    }
  }

  lemma LateAcceptance(s: Store, seen: set<EventId>, ds: seq<Delivery>)
    requires ds != [] && ds[0].command.Carried().Some? && ds[0].command.Carried().value in seen
    requires Accepted(s, ds[0].command)
    ensures Run(s, KeepFirst(seen, ds)) != Run(s, ds)
  {
    var c, now := ds[0].command, ds[0].at;
    var id := c.Carried().value;
    var after := Apply(s, c, now).0;
    ChangesIffAccepted(s, c, now);
    LogGrows(after, ds[1..]);
    KeptAreUnseen(seen, ds, id);
    UnsentStaysUnlogged(s, KeepFirst(seen, ds), id);
    assert Logged(Run(s, ds).log, id);
  }

  const NO_REPORT := Report("", None, "", "", "")
  const EARLY := Delivery(Reports(0, "key", Sent(7), BundleVerified, NO_REPORT), 1)
  const DOWNLOAD := Delivery(Reports(0, "key", Sent(8), DownloadStarted, NO_REPORT), 2)

  /** A verification report that comes before the download report is refused, and accepted when sent again after it. */
  lemma EarlyReport() returns (created: Store, downloading: Store)
    ensures Apply(EMPTY, Creates(1, "release", 1), 0).0 == created
    ensures Apply(created, EARLY.command, 1).0 == created
    ensures Apply(created, DOWNLOAD.command, 2).0 == downloading
    ensures Accepted(downloading, EARLY.command)
  {
    assert InTable(BundleVerified) by { assert Transition(BundleVerified, Downloading).Some?; }
    assert InTable(DownloadStarted) by { assert Transition(DownloadStarted, Authorized).Some?; }
    created := Apply(EMPTY, Creates(1, "release", 1), 0).0;
    downloading := Apply(created, DOWNLOAD.command, 2).0;
    assert downloading.deployments[0].state == Downloading && |downloading.log| == 2;
  }

  lemma FirstDeliveryCanBeRefused()
    ensures exists ds :: Run(EMPTY, KeepFirst({}, ds)) != Run(EMPTY, ds)
  {
    hide Apply, Accepted;
    var ds := [Delivery(Creates(1, "release", 1), 0), EARLY, DOWNLOAD, EARLY];
    var created, downloading := EarlyReport();
    assert ds[1..] == [EARLY, DOWNLOAD, EARLY] && ds[2..] == [DOWNLOAD, EARLY] && ds[3..] == [EARLY];
    assert ds[1..][1..] == ds[2..] && ds[2..][1..] == ds[3..];
    assert !DropsOnlyRefused(downloading, {Sent(7), Sent(8)}, ds[3..]);
    assert {Sent(7)} + {Sent(8)} == {Sent(7), Sent(8)} && {} + {Sent(7)} == {Sent(7)};
    assert !DropsOnlyRefused(created, {Sent(7)}, ds[2..]);
    assert !DropsOnlyRefused(created, {}, ds[1..]);
    KeepFirstIff(EMPTY, {}, ds);
  }

  // ---------------------------------------------------------------- the store itself

  class DeploymentStore {
    var deployments: seq<Deployment>
    var log: seq<Event>
    var drawn: nat

    ghost function Rows(): Store
      reads this
    {
      Store(deployments, log, drawn)
    }

    ghost predicate Valid()
      reads this
    {
      Inv(Rows())
    }

    constructor ()
      ensures Valid() && Rows() == EMPTY
    {
      deployments, log, drawn := [], [], 0;
    }

    /** `append_event` with a fresh id. */
    method Append(d: nat, credential: Option<CredentialId>, kind: Kind, payload: Payload)
      modifies this`log, this`drawn
      ensures log == old(log) + [Event(Drawn(old(drawn)), d, credential, kind, payload)] && drawn == old(drawn) + 1
    {
      log, drawn := log + [Event(Drawn(drawn), d, credential, kind, payload)], drawn + 1;
    }

    method CreateAuthorized(client: nat, release: string, sequence: int, now: Time) returns (outcome: Outcome)
      requires Valid()
      modifies this
      ensures Valid() && (Rows(), outcome) == Create(old(Rows()), client, release, sequence, now)
      ensures outcome.Done? <==> |log| == |old(log)| + 1
      ensures !outcome.Done? ==> Rows() == old(Rows())
      ensures outcome.Done? ==> !HasActive(old(deployments), client) && HasActive(deployments, client)
    {
      CreateKeeps(Rows(), client, release, sequence, now);
      hide Inv;
      if HasActive(deployments, client) || sequence <= 0 { return Conflict; }
      Append(|deployments|, None, WasAuthorized, Target(release, sequence));
      deployments := deployments
        + [Deployment(client, release, sequence, Authorized, now, None, None, None, None, None, None)];
      assert deployments[|deployments| - 1].client == client;
      return Done;
    }

    method CancelDeployment(d: nat, now: Time) returns (outcome: Outcome)
      requires Valid()
      modifies this
      ensures Valid() && (Rows(), outcome) == Cancel(old(Rows()), d, now)
      ensures outcome.Done? <==> |log| == |old(log)| + 1
      ensures !outcome.Done? ==> Rows() == old(Rows())
      ensures outcome.Done? ==> old(deployments)[d].state.Cancellable() && deployments[d].state.Cancelled?
    {
      CancelKeeps(Rows(), d, now);
      hide Inv;
      if d >= |deployments| { return NotFound; }
      var previous := deployments[d].state;
      if !previous.Cancellable() { return Conflict; }
      var row := deployments[d].(state := Cancelled);
      row := row.(stateUpdatedAt := now);
      row := row.(completedAt := Some(now));
      deployments := deployments[d := row];
      Append(d, None, WasCancelled, Before(previous));
      return Done;
    }

    method AuthorizeActivation(d: nat, credential: Option<CredentialId>, sent: Option<EventId>, now: Time)
      returns (outcome: Outcome)
      requires Valid()
      modifies this
      ensures Valid() && (Rows(), outcome) == Activate(old(Rows()), d, credential, sent, now)
      ensures outcome.Done? <==> |log| == |old(log)| + 1
      ensures !outcome.Done? ==> Rows() == old(Rows())
      ensures outcome.Done? ==> old(deployments)[d].state.Staged? && deployments[d].state.Activating?
    {
      ActivateKeeps(Rows(), d, credential, sent, now);
      hide Inv, Idempotent;
      if d >= |deployments| { return NotFound; }
      if sent.Some? {
        var known := Idempotent(log, sent.value, d, credential, ActivationStarted);
        if known.Some? { return known.value; }
      }
      if !deployments[d].state.Staged? || deployments[d].completedAt.Some? || Undrawn(sent) { return Conflict; }
      var row := deployments[d].(state := Activating);
      row := row.(stateUpdatedAt := now);
      deployments := deployments[d := row];
      if sent.Some? {
        log := log + [Event(sent.value, d, credential, ActivationStarted, Before(Staged))];
      } else {
        Append(d, credential, ActivationStarted, Before(Staged));
      }
      return Done;
    }

    method ReportUpdaterEvent(d: nat, credential: CredentialId, sent: EventId, kind: Kind, report: Report, now: Time)
      returns (outcome: Outcome)
      requires Valid()
      modifies this
      ensures Valid() && (Rows(), outcome) == ReportEvent(old(Rows()), d, credential, sent, kind, report, now)
      ensures outcome.Done? <==> |log| == |old(log)| + 1
      ensures !outcome.Done? ==> Rows() == old(Rows())
      ensures outcome.Replayed? <==>
        d < |old(deployments)| && Idempotent(old(log), sent, d, Some(credential), kind) == Some(Replayed)
    {
      ReportKeeps(Rows(), d, credential, sent, kind, report, now);
      hide Inv, Idempotent, Transition, InTable;
      if d >= |deployments| { return NotFound; }
      var known := Idempotent(log, sent, d, Some(credential), kind);
      if known.Some? { return known.value; }
      if Undrawn(Some(sent)) { return Conflict; }
      if !InTable(kind) {
        if !kind.Observation? { return Conflict; }
        assert deployments == deployments[d := deployments[d]];
      } else {
        var row := deployments[d];
        var next := Transition(kind, row.state);
        if next.None? { return Conflict; }
        if kind.UpdateSucceeded? {
          if !MatchesTarget(row, report) { return Conflict; }
          row := row.(observedRelease := Some(report.observedRelease));
          row := row.(observedSequence := report.observedSequence);
          row := row.(observedPrevious := NonEmpty(report.previousRelease));
        }
        if kind.UpdateFailed? || kind.RecoveryHasFailed? {
          var code := if report.failureCode == "" then "update_failed" else report.failureCode;
          row := row.(failureCode := Some(Clipped(code, MAX_FAILURE_CODE)));
          row := row.(failureMessage := NonEmpty(Clipped(report.failureMessage, MAX_FAILURE_MESSAGE)));
        }
        row := row.(state := next.value);
        row := row.(stateUpdatedAt := now);
        if next.value.Terminal() { row := row.(completedAt := Some(now)); }
        deployments := deployments[d := row];
      }
      log := log + [Event(sent, d, Some(credential), kind, Reported(report))];
      return Done;
    }
  }
}
