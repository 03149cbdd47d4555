/**
 The sweeper's two optimisations are sound: skipping clients gives the plain
 sweep's result, and going idle never leaves a client that needs an action.
 */
module LivestreamSweep {
  import opened Options
  import opened LivestreamClient
  import opened LivestreamSafety
  import opened LivestreamWorld
  import opened IdOrder

  // ---------------------------------------------------------------- viewer rows and presence

  lemma ExpireTwice(vs: seq<Viewer>, live: set<ViewerKey>, now: Time)
    ensures Expire(Expire(vs, live, now), live, now) == Expire(vs, live, now)
  {
  }

  lemma LiveRowStaysOpen(vs: seq<Viewer>, live: set<ViewerKey>, now: Time, k: ViewerKey)
    requires OpenRow(vs, k) && k in live
    ensures OpenRow(Expire(vs, live, now), k)
  {
    var i :| 0 <= i < |vs| && vs[i].Open() && (vs[i].id, vs[i].principal) == k;
    assert Expire(vs, live, now)[i] == vs[i];
  }

  lemma UpdatedRowStaysOpen(vs: seq<Viewer>, i: nat, v: Viewer, k: ViewerKey)
    requires i < |vs| && OpenRow(vs, k) && v.id == vs[i].id && v.principal == vs[i].principal
    requires v.Open() || k != (v.id, v.principal)
    ensures OpenRow(vs[i := v], k)
  {
    var j :| 0 <= j < |vs| && vs[j].Open() && (vs[j].id, vs[j].principal) == k;
    assert vs[i := v][j].Open();
  }

  /** The viewer rows a transaction leaves behind. */
  function RowsAfter(c: Client, env: Env, e: Event): seq<Viewer> {
    Step(c, env, e).viewers
  }

  /** The rows are the old ones, or those with stale rows expired, unless a viewer arrives or leaves. */
  lemma RowsAfterOthers(c: Client, env: Env, e: Event)
    requires Inv(c) && !e.HeartbeatEvent? && !e.LeaveEvent?
    ensures RowsAfter(c, env, e) == c.viewers || RowsAfter(c, env, e) == Expire(c.viewers, env.live, env.now)
  {
    if e.StatusEvent? {
      StatusSplits(c, e.report, env);
      ExpireTwice(c.viewers, env.live, env.now);
    }
  }

  lemma RowsAfterHeartbeat(c: Client, env: Env, id: ViewerId, principal: Principal)
    requires DistinctViewers(c.viewers) && Heartbeat(c, id, principal, env.now).Done?
    ensures var rows := RowsAfter(c, env, HeartbeatEvent(id, principal));
      && DistinctViewers(rows) && OpenRow(rows, (id, principal))
      && forall k :: OpenRow(c.viewers, k) ==> OpenRow(rows, k)
  {
    var rows := RowsAfter(c, env, HeartbeatEvent(id, principal));
    var i := FindViewer(c.viewers, id);
    assert rows[i].Open() && (rows[i].id, rows[i].principal) == (id, principal);
    forall k | OpenRow(c.viewers, k) ensures OpenRow(rows, k) {
      var j :| 0 <= j < |c.viewers| && c.viewers[j].Open() && (c.viewers[j].id, c.viewers[j].principal) == k;
      assert rows[j].Open();
    }
  }

  lemma RowsAfterLeave(c: Client, env: Env, id: ViewerId, principal: Principal)
    requires DistinctViewers(c.viewers) && Leave(c, id, principal, env).Done?
    ensures var rows := RowsAfter(c, env, LeaveEvent(id, principal));
      && DistinctViewers(rows)
      && forall k :: k in env.live && k != (id, principal) && OpenRow(c.viewers, k) ==> OpenRow(rows, k)
  {
    LeaveKeepsDistinct(c, env, id, principal);
    hide Transact, DistinctViewers;
    forall k | k in env.live && k != (id, principal) && OpenRow(c.viewers, k)
      ensures OpenRow(RowsAfter(c, env, LeaveEvent(id, principal)), k)
    {
      OthersOutliveLeave(c, env, id, principal, k);
    }
  }

  lemma LeaveKeepsDistinct(c: Client, env: Env, id: ViewerId, principal: Principal)
    requires DistinctViewers(c.viewers) && Leave(c, id, principal, env).Done?
    ensures DistinctViewers(RowsAfter(c, env, LeaveEvent(id, principal)))
  {
    var rows := RowsAfter(c, env, LeaveEvent(id, principal));
    assert |rows| == |c.viewers| && forall i :: 0 <= i < |rows| ==> rows[i].id == c.viewers[i].id;
  }

  lemma OthersOutliveLeave(c: Client, env: Env, id: ViewerId, principal: Principal, k: ViewerKey)
    requires DistinctViewers(c.viewers) && Leave(c, id, principal, env).Done?
    requires k in env.live && k != (id, principal) && OpenRow(c.viewers, k)
    ensures OpenRow(RowsAfter(c, env, LeaveEvent(id, principal)), k)
  {
    var i := FindViewer(c.viewers, id);
    if i < |c.viewers| && c.viewers[i].Open() {
      var ended := c.viewers[i].(endedAt := Some(env.now));
      UpdatedRowStaysOpen(c.viewers, i, ended, k);
      LiveRowStaysOpen(c.viewers[i := ended], env.live - {(id, principal)}, env.now, k);
    } else if i < |c.viewers| {
      LiveRowStaysOpen(c.viewers, env.live - {(id, principal)}, env.now, k);
    } else {
      LiveRowStaysOpen(c.viewers, env.live, env.now, k);
    }
  }

  /** A request keeps every live viewer backed by an open row. */
  lemma RequestKeepsWorld(w: World, id: ClientId, e: Event)
    requires WorldInv(w)
    ensures WorldInv(Request(w, id, e))
  {
    if id in w.clients {
      StepKeeps(w.clients[id], EnvOf(w, id), e);
      StepKeepsDistinct(w.clients[id], EnvOf(w, id), e);
      RequestKeepsPresence(w, id, e);
      hide Transact, Inv, DistinctViewers, PresenceBacked;
    }
  }

  lemma RequestKeepsPresence(w: World, id: ClientId, e: Event)
    requires WorldInv(w) && id in w.clients
    ensures PresenceBacked(Request(w, id, e))
  {
    var w' := Request(w, id, e);
    forall k | k in w'.presence
      ensures k.0 in w'.clients
      ensures Fresh(w'.presence[k], w'.now) ==> OpenRow(w'.clients[k.0].viewers, (k.1, k.2))
    {
      if Fresh(w'.presence[k], w'.now) { RequestKeepsBacking(w, id, e, k); }
    }
  }

  lemma StepKeepsDistinct(c: Client, env: Env, e: Event)
    requires Inv(c) && DistinctViewers(c.viewers)
    ensures DistinctViewers(Step(c, env, e).viewers)
  {
    if Transact(c, env, e).Done? {
      if e.HeartbeatEvent? { RowsAfterHeartbeat(c, env, e.id, e.principal); }
      else if e.LeaveEvent? { RowsAfterLeave(c, env, e.id, e.principal); }
      else { RowsAfterOthers(c, env, e); }
    }
  }

  lemma RequestKeepsBacking(w: World, id: ClientId, e: Event, k: PresenceKey)
    requires WorldInv(w) && id in w.clients
    requires k in Request(w, id, e).presence && Fresh(Request(w, id, e).presence[k], w.now)
    ensures k.0 in w.clients && OpenRow(Request(w, id, e).clients[k.0].viewers, (k.1, k.2))
  {
    var c, env := w.clients[id], EnvOf(w, id);
    var v := (k.1, k.2);
    if e.HeartbeatEvent? && ReplyTo(w, id, e).Done? {
      RowsAfterHeartbeat(c, env, e.id, e.principal);
      assert k == (id, e.id, e.principal) || k in w.presence;
    } else {
      assert k in w.presence && Fresh(w.presence[k], w.now);
      if k.0 == id {
        assert v in env.live;
        if e.LeaveEvent? && ReplyTo(w, id, e).Done? {
          RowsAfterLeave(c, env, e.id, e.principal);
          if v == (e.id, e.principal) { LiveViewerFound(c.viewers, v); }
        } else if !e.HeartbeatEvent? && !e.LeaveEvent? {
          RowsAfterOthers(c, env, e);
          LiveRowStaysOpen(c.viewers, env.live, env.now, v);
        }
      }
    }
  }

  lemma LiveViewerFound(vs: seq<Viewer>, k: ViewerKey)
    requires OpenRow(vs, k)
    ensures FindViewer(vs, k.0) < |vs|
  {
  }

  lemma {:induction false} ReconcileEachKeepsWorld(w: World, ids: seq<ClientId>)
    requires WorldInv(w)
    ensures ReconcileEach(w, ids).Swept? ==> WorldInv(ReconcileEach(w, ids).world)
    decreases |ids|
  {
    if ids != [] && ids[0] in w.clients {
      RequestKeepsWorld(w, ids[0], ReconcileEvent);
      ReconcileEachKeepsWorld(Request(w, ids[0], ReconcileEvent), ids[1..]);
    }
  }

  lemma NextKeepsWorld(w: World, e: WorldEvent)
    requires WorldInv(w)
    ensures WorldInv(Next(w, e))
  {
    match e
    case ClientRequest(id, event) => RequestKeepsWorld(w, id, event);
    case SweepAll => ReconcileEachKeepsWorld(Pruned(w), Ascending(w.clients.Keys + Strays(w)));
    case _ =>
  }

  /** In every history of the process the invariants hold, in particular a live viewer key has an open row. */
  lemma {:induction false} HistoryKeepsWorld(events: seq<WorldEvent>)
    ensures WorldInv(History(START, events))
  {
    if events != [] {
      var n := |events| - 1;
      HistoryKeepsWorld(events[..n]);
      NextKeepsWorld(History(START, events[..n]), events[n]);
    }
  }

  // ---------------------------------------------------------------- skipping clients is sound

  /** A client the shortcut sweep does not visit is one the reconciler would leave alone. */
  lemma SkippedNeedsNothing(w: World, id: ClientId)
    requires WorldInv(w) && id in w.clients && !Visited(w, id)
    ensures ChoiceFor(w, id).None?
  {
    var c, env := w.clients[id], EnvOf(w, id);
    OnlyCurrentActive(c.generations);
    if env.live != {} {
      var k :| k in env.live;
      assert (id, k.0, k.1) in w.presence;
      LiveRowStaysOpen(c.viewers, env.live, env.now, k);
    }
    assert ViewerActive(w, id) ==> AnyOpen(ExpireStale(c, env).viewers);
    if HasStopping(c) {
      var i :| 0 <= i < |c.generations| && c.generations[i].state.Stopping?;
      assert Current(c.generations) == Some(i);
    } else if Current(c.generations).Some? {
      assert HasLive(c);
    }
  }

  lemma QuietReply(w: World, id: ClientId)
    requires id in w.clients && ChoiceFor(w, id).None?
    ensures ReplyTo(w, id, ReconcileEvent) == Done(ExpireStale(w.clients[id], EnvOf(w, id)), 0)
  {
  }

  /** Already expired rows reconcile exactly like the rows they came from. */
  lemma ReconcileExpired(c: Client, env: Env)
    ensures Reconcile(ExpireStale(c, env), env) == Reconcile(c, env)
    ensures ReconcileChoice(ExpireStale(ExpireStale(c, env), env), env) == ReconcileChoice(ExpireStale(c, env), env)
  {
    ExpireTwice(c.viewers, env.live, env.now);
  }

  /** `fast` has expired every stale row up front; `plain` still has the rows of `ids` to go. */
  ghost predicate Ahead(plain: World, fast: World, ids: seq<ClientId>) {
    && plain.clients.Keys == fast.clients.Keys
    && plain == fast.(clients := plain.clients)
    && Pruned(plain) == plain
    && forall id :: id in plain.clients ==>
         fast.clients[id] == (if id in ids then ExpireStale(plain.clients[id], EnvOf(plain, id)) else plain.clients[id])
  }

  lemma PrunedStaysPruned(w: World, id: ClientId)
    requires id in w.clients && Pruned(w) == w
    ensures Request(w, id, ReconcileEvent).presence == w.presence
  {
  }

  /** Visiting only `visit` after one pass of expiry gives what visiting every client gives. */
  lemma {:induction false} SkippingIsSound(plain: World, fast: World, ids: seq<ClientId>, visit: set<ClientId>)
    requires Ahead(plain, fast, ids)
    requires forall i, j :: 0 <= i < j < |ids| ==> ids[i] != ids[j]
    requires forall i :: 0 <= i < |ids| && ids[i] !in visit ==>
      ids[i] in plain.clients && ChoiceFor(plain, ids[i]).None?
    ensures ReconcileEach(fast, Filter(ids, visit)) == ReconcileEach(plain, ids)
    decreases |ids|
  {
    hide Transact, Request, Ahead, ReplyTo, ActionFor;
    if ids == [] {
      SameWorld(plain, fast);
    } else if ids[0] !in plain.clients {
      SameKeys(plain, fast, ids);
    } else {
      var id := ids[0];
      assert id !in ids[1..];
      SameReply(plain, fast, ids);
      if ReplyTo(plain, id, ReconcileEvent).Done? {
        var fast' := if id in visit then Request(fast, id, ReconcileEvent) else fast;
        SkippingStep(plain, fast, ids, fast');
        ChoicesUnchanged(plain, ids, visit);
        SkippingIsSound(Request(plain, id, ReconcileEvent), fast', ids[1..], visit);
      }
      assert id in visit ==> Filter(ids, visit)[1..] == Filter(ids[1..], visit);
    }
  }

  lemma SameKeys(plain: World, fast: World, ids: seq<ClientId>)
    requires Ahead(plain, fast, ids)
    ensures fast.clients.Keys == plain.clients.Keys
  {
  }

  lemma SameWorld(plain: World, fast: World)
    requires Ahead(plain, fast, [])
    ensures plain == fast
  {
    var none: seq<ClientId> := [];
    assert forall id :: id in plain.clients ==> id !in none && fast.clients[id] == plain.clients[id];
    assert fast.clients == plain.clients;
  }

  lemma SameReply(plain: World, fast: World, ids: seq<ClientId>)
    requires Ahead(plain, fast, ids) && ids != [] && ids[0] in plain.clients
    ensures ids[0] in fast.clients && Pruned(plain) == plain
    ensures Request(plain, ids[0], ReconcileEvent).clients.Keys == plain.clients.Keys
    ensures ReplyTo(fast, ids[0], ReconcileEvent) == ReplyTo(plain, ids[0], ReconcileEvent)
    ensures ActionFor(fast, ids[0]) == ActionFor(plain, ids[0])
    ensures ChoiceFor(plain, ids[0]).None? ==>
      ReplyTo(plain, ids[0], ReconcileEvent).Done? && ReplyTo(plain, ids[0], ReconcileEvent).notices == 0
      && ActionFor(plain, ids[0]) == []
  {
    var id, env := ids[0], EnvOf(plain, ids[0]);
    assert EnvOf(fast, id) == env;
    assert id in ids;
    ReconcileExpired(plain.clients[id], env);
  }

  lemma SkippingStep(plain: World, fast: World, ids: seq<ClientId>, fast': World)
    requires Ahead(plain, fast, ids) && ids != [] && ids[0] in plain.clients && ids[0] !in ids[1..]
    requires ReplyTo(plain, ids[0], ReconcileEvent).Done?
    requires
      || fast' == Request(fast, ids[0], ReconcileEvent)
      || (fast' == fast && ChoiceFor(plain, ids[0]).None?)
    ensures Ahead(Request(plain, ids[0], ReconcileEvent), fast', ids[1..])
  {
    var id := ids[0];
    var plain' := Request(plain, id, ReconcileEvent);
    assert EnvOf(fast, id) == EnvOf(plain, id);
    ReconcileExpired(plain.clients[id], EnvOf(plain, id));
    PrunedStaysPruned(plain, id);
    PrunedStaysPruned(fast, id);
    forall x | x in plain'.clients
      ensures fast'.clients[x] ==
        if x in ids[1..] then ExpireStale(plain'.clients[x], EnvOf(plain', x)) else plain'.clients[x]
    {
      assert x in ids <==> x == id || x in ids[1..];
      assert x != id ==> EnvOf(plain', x) == EnvOf(plain, x);
    }
  }

  lemma ChoicesUnchanged(w: World, ids: seq<ClientId>, visit: set<ClientId>)
    requires ids != [] && Pruned(w) == w && ids[0] in w.clients
    requires forall i, j :: 0 <= i < j < |ids| ==> ids[i] != ids[j]
    requires forall i :: 0 <= i < |ids| && ids[i] !in visit ==> ids[i] in w.clients && ChoiceFor(w, ids[i]).None?
    ensures var rest := ids[1..];
      forall i :: 0 <= i < |rest| && rest[i] !in visit ==>
        && rest[i] in Request(w, ids[0], ReconcileEvent).clients
        && ChoiceFor(Request(w, ids[0], ReconcileEvent), rest[i]).None?
  {
    PrunedStaysPruned(w, ids[0]);
    var rest := ids[1..];
    forall i | 0 <= i < |rest| && rest[i] !in visit
      ensures rest[i] in Request(w, ids[0], ReconcileEvent).clients
      ensures ChoiceFor(Request(w, ids[0], ReconcileEvent), rest[i]).None?
    {
      assert rest[i] == ids[i + 1];
      assert EnvOf(Request(w, ids[0], ReconcileEvent), rest[i]) == EnvOf(w, rest[i]);
    }
  }

  function AllExpired(w: World): World {
    w.(clients := map id | id in w.clients :: ExpireStale(w.clients[id], EnvOf(w, id)))
  }

  lemma PruneKeepsLive(w: World, id: ClientId)
    ensures EnvOf(Pruned(w), id) == EnvOf(w, id)
    ensures Pruned(Pruned(w)) == Pruned(w)
  {
    var p := Prune(w.presence, w.now);
    assert Prune(p, w.now) == p;
    assert LiveKeys(p, id, w.now) == LiveKeys(w.presence, id, w.now) by {
      forall k | k in LiveKeys(w.presence, id, w.now) ensures k in LiveKeys(p, id, w.now) {
        assert (id, k.0, k.1) in p;
      }
    }
  }

  /**
   The shortcut sweep: expire every stale row, then reconcile in id order only
   the clients that can need a start or a stop.  Rows, commands, actions, wake-ups
   and aborts are those of the plain sweep.
   */
  lemma ShortcutSweepIsPlainSweep(w: World, visit: set<ClientId>, order: seq<ClientId>)
    requires WorldInv(w)
    requires visit == VisitSet(w) && Sorts(order, visit)
    ensures ReconcileEach(AllExpired(Pruned(w)), order) == PlainSweep(w)
  {
    var p, known := Pruned(w), w.clients.Keys + Strays(w);
    var ids := Ascending(known);
    assert forall i :: 0 <= i < |ids| ==> ids[i] in ids;
    forall id | id in known && id !in visit ensures id in w.clients && ChoiceFor(p, id).None? {
      SkippedNeedsNothing(w, id);
      PruneKeepsLive(w, id);
    }
    ExpiredIsAhead(w, ids);
    hide Visited, Ahead;
    SkippingIsSound(p, AllExpired(p), ids, visit);
    FilterSorts(ids, known, visit);
    SortsOnce(Filter(ids, visit), order, visit);
  }

  lemma ExpiredIsAhead(w: World, ids: seq<ClientId>)
    requires forall id :: id in w.clients ==> id in ids
    ensures Ahead(Pruned(w), AllExpired(Pruned(w)), ids)
  {
    PruneKeepsLive(w, 0);
    assert AllExpired(Pruned(w)).clients.Keys == w.clients.Keys;
  }

  /** A client the reconciler gets through: it has a row, and if it needs a start it is not blocked. */
  predicate Passes(w: World, id: ClientId) {
    id in w.clients && (ChoiceFor(w, id) == Some(StartAction) ==> !w.clients[id].blocked)
  }

  lemma {:induction false} SweptIffEach(w: World, ids: seq<ClientId>)
    requires Pruned(w) == w
    requires forall i, j :: 0 <= i < j < |ids| ==> ids[i] != ids[j]
    ensures ReconcileEach(w, ids).Swept? <==> forall i :: 0 <= i < |ids| ==> Passes(w, ids[i])
    decreases |ids|
  {
    if ids != [] && ids[0] in w.clients {
      DoneIffPasses(w, ids[0]);
      var w' := Request(w, ids[0], ReconcileEvent);
      if Passes(w, ids[0]) {
        forall i | 0 < i < |ids| ensures Passes(w', ids[i]) == Passes(w, ids[i]) { PassesElsewhere(w, ids[0], ids[i]); }
        PrunedStaysPruned(w, ids[0]);
        hide Passes, Request;
        SweptIffEach(w', ids[1..]);
        assert forall i :: 0 < i < |ids| ==> ids[i] == ids[1..][i - 1];
      }
    }
  }

  lemma DoneIffPasses(w: World, id: ClientId)
    requires id in w.clients
    ensures ReplyTo(w, id, ReconcileEvent).Done? <==> Passes(w, id)
  {
  }

  lemma PassesElsewhere(w: World, id: ClientId, x: ClientId)
    requires id in w.clients && x != id && Pruned(w) == w
    ensures Passes(Request(w, id, ReconcileEvent), x) == Passes(w, x)
  {
    PrunedStaysPruned(w, id);
    hide Transact;
    var w' := Request(w, id, ReconcileEvent);
    assert x in w.clients ==> EnvOf(w', x) == EnvOf(w, x);
  }

  lemma AllPassIff(w: World)
    ensures (forall id :: id in w.clients.Keys + Strays(w) ==> Passes(Pruned(w), id)) <==>
      && Strays(w) == {}
      && forall id :: id in w.clients && ChoiceFor(w, id) == Some(StartAction) ==> !w.clients[id].blocked
  {
    forall id | id in w.clients ensures ChoiceFor(Pruned(w), id) == ChoiceFor(w, id) { PruneKeepsLive(w, id); }
    hide ChoiceFor;
    Inhabited(Strays(w));
    if Strays(w) == {} {
      assert w.clients.Keys + Strays(w) == w.clients.Keys;
    } else {
      var id :| id in Strays(w);
      assert id in w.clients.Keys + Strays(w) && !Passes(Pruned(w), id);
    }
    forall id | id in w.clients
      ensures Passes(Pruned(w), id) <==> (ChoiceFor(w, id) == Some(StartAction) ==> !w.clients[id].blocked)
    {
    }
  }

  /** The plain sweep is committed exactly when every id has a row and no client that needs a start is blocked. */
  lemma SweptIff(w: World)
    ensures PlainSweep(w).Swept? <==>
      && Strays(w) == {}
      && forall id :: id in w.clients && ChoiceFor(w, id) == Some(StartAction) ==> !w.clients[id].blocked
  {
    var ids := Ascending(w.clients.Keys + Strays(w));
    PruneKeepsLive(w, 0);
    SweptIffEach(Pruned(w), ids);
    AllPassIff(w);
    hide Passes, ReconcileEach, ChoiceFor, Strays;
    assert forall id :: id in w.clients.Keys + Strays(w) <==> id in ids;
    assert (forall i :: 0 <= i < |ids| ==> Passes(Pruned(w), ids[i]))
      <==> forall id :: id in ids ==> Passes(Pruned(w), id);
  }

  // ---------------------------------------------------------------- going idle is sound

  predicate Unattended(w: World, id: ClientId)
    requires id in w.clients
  {
    && !AnyOpen(w.clients[id].viewers)
    && !HasActivity(w.activity, id)
    && forall k :: k in w.presence ==> k.0 != id
  }

  /** Nothing runs, and whoever is present only waits for an agent to finish its stop. */
  predicate Calm(w: World) {
    && (forall k :: k in w.activity ==> k.0 in w.clients)
    && forall id :: id in w.clients ==>
         NoneLive(w.clients[id].generations) && (HasStopping(w.clients[id]) || Unattended(w, id))
  }

  /** In a calm world the reconciler acts on no client, now or at any later time. */
  lemma CalmNeedsNothing(w: World, id: ClientId, later: nat)
    requires WorldInv(w) && Calm(w) && id in w.clients
    ensures ChoiceFor(w.(now := w.now + later), id).None?
  {
    var w' := w.(now := w.now + later);
    var c, env := w'.clients[id], EnvOf(w', id);
    OnlyCurrentActive(c.generations);
    if HasStopping(c) {
      var i :| 0 <= i < |c.generations| && c.generations[i].state.Stopping?;
      assert Current(c.generations) == Some(i);
    } else {
      assert forall i :: 0 <= i < |c.generations| ==> !c.generations[i].state.Active();
      assert !AnyOpen(ExpireStale(c, env).viewers);
    }
  }

  /** Reconciling clients that need nothing only expires their stale rows. */
  lemma {:induction false} QuietSweep(w: World, ids: seq<ClientId>)
    requires Pruned(w) == w
    requires forall i :: 0 <= i < |ids| ==> ids[i] in w.clients && ChoiceFor(w, ids[i]).None?
    requires forall i, j :: 0 <= i < j < |ids| ==> ids[i] != ids[j]
    ensures var s := ReconcileEach(w, ids);
      && s.Swept? && s.actions == [] && s.world == w.(clients := s.world.clients)
      && s.world.clients.Keys == w.clients.Keys
      && forall id :: id in w.clients ==>
           s.world.clients[id] == (if id in ids then ExpireStale(w.clients[id], EnvOf(w, id)) else w.clients[id])
    decreases |ids|
  {
    if ids != [] {
      QuietReply(w, ids[0]);
      PrunedStaysPruned(w, ids[0]);
      var w' := Request(w, ids[0], ReconcileEvent);
      assert w'.revision == w.revision;
      assert ids[0] !in ids[1..];
      ChoicesUnchanged(w, ids, {});
      QuietSweep(w', ids[1..]);
      forall id | id in w.clients && id != ids[0] ensures EnvOf(w', id) == EnvOf(w, id) { }
      assert forall id :: id in ids <==> id == ids[0] || id in ids[1..];
    }
  }

  lemma QuietPlainSweep(w: World)
    requires Strays(w) == {} && forall id :: id in w.clients ==> ChoiceFor(w, id).None?
    ensures var s := PlainSweep(w);
      && s.Swept? && s.actions == [] && s.world == AllExpired(Pruned(w))
  {
    hide Transact, ReconcileEach, ExpireStale;
    var p, ids := Pruned(w), Ascending(w.clients.Keys + Strays(w));
    assert forall i :: 0 <= i < |ids| ==> ids[i] in ids;
    PruneKeepsLive(w, 0);
    forall id | id in w.clients ensures ChoiceFor(p, id) == ChoiceFor(w, id) { PruneKeepsLive(w, id); }
    QuietSweep(p, ids);
    hide ChoiceFor;
    var s := ReconcileEach(p, ids);
    assert s.world.clients == AllExpired(p).clients;
  }

  /** A sweep that asks for no fast scan took no action and leaves a calm world. */
  lemma QuietScanLeavesCalm(w: World)
    requires WorldInv(w) && !NeedsFastScan(w)
    ensures var s := PlainSweep(w);
      && s.Swept? && s.actions == [] && Calm(s.world) && s.world.revision == w.revision
  {
    forall id | id in w.clients ensures ChoiceFor(w, id).None? { SkippedNeedsNothing(w, id); }
    assert forall k :: k in w.activity && k.0 !in w.clients ==> k.0 in Strays(w);
    QuietPlainSweep(w);
    var w' := PlainSweep(w).world;
    forall id | id in w'.clients
      ensures NoneLive(w'.clients[id].generations) && (HasStopping(w'.clients[id]) || Unattended(w', id))
    {
      ScannedClientCalm(w, id);
    }
  }

  lemma ScannedClientCalm(w: World, id: ClientId)
    requires WorldInv(w) && id in w.clients && (Candidate(w, id) ==> HasStopping(w.clients[id]))
    ensures var w' := AllExpired(Pruned(w));
      NoneLive(w'.clients[id].generations) && (HasStopping(w'.clients[id]) || Unattended(w', id))
  {
    var c, w' := w.clients[id], AllExpired(Pruned(w));
    PruneKeepsLive(w, id);
    OnlyCurrentActive(c.generations);
    assert w'.clients[id].generations == c.generations;
    if HasStopping(c) {
      var i :| 0 <= i < |c.generations| && c.generations[i].state.Stopping?;
      assert forall j :: 0 <= j < |c.generations| && c.generations[j].state.Live() ==> j == i;
      assert HasStopping(w'.clients[id]);
    } else {
      assert !HasLive(c);
      assert EnvOf(w, id).live == {};
      forall k | k in w'.presence ensures k.0 != id {
        assert k.0 == id ==> (k.1, k.2) in EnvOf(w, id).live;
      }
    }
  }
}
