/**
 The bounded HTTPS relay: two byte-counted FIFO queues for each relay, one
 process-wide byte budget, and a registry that prunes closed and idle relays.

 Each method body is one section of code between two awaits.  The ghost logs of
 a relay record what each direction accepted and how every message left.
 */
module HttpRelay {
  import opened Options

  type Time = int
  const SECOND: Time := 1_000_000
  const MAX_RELAYS: nat := 512
  const QUEUE_DEPTH: nat := 64
  const MAX_QUEUE_BYTES: int := 48 * 1024 * 1024
  const MAX_TOTAL_QUEUE_BYTES: int := 128 * 1024 * 1024
  const MAX_RELAYS_PER_OWNER: nat := 8
  const RELAY_TTL: Time := 15 * 60 * SECOND
  const RELAY_CLOSE_GRACE: Time := 30 * SECOND
  const POLL_BATCH: nat := 64
  const MAX_REASON: nat := 120
  const NORMAL_CLOSURE: int := 1000
  const HANDLER_FAILED: int := 1011

  type Owner = seq<string>

  // ---------------------------------------------------------------- messages and queues

  datatype Item = Item(text: string, size: nat)

  /** How a message left its queue: handed over, or thrown away by a prune. */
  datatype Departure = Departure(text: string, delivered: bool)

  function CharSize(c: char): nat {
    var n := c as int;
    if n < 0x80 then 1 else if n < 0x800 then 2 else if n < 0x10000 then 3 else 4
  }

  /** Bytes of the UTF-8 encoding. */
  function PayloadSize(s: string): nat {
    if s == [] then 0 else CharSize(s[0]) + PayloadSize(s[1..])
  }

  function Bytes(q: seq<Item>): nat {
    if q == [] then 0 else q[0].size + Bytes(q[1..])
  }

  function Texts(q: seq<Item>): seq<string> {
    seq(|q|, i requires 0 <= i < |q| => q[i].text)
  }

  function DepartedTexts(d: seq<Departure>): seq<string> {
    seq(|d|, i requires 0 <= i < |d| => d[i].text)
  }

  function Delivered(texts: seq<string>): seq<Departure> {
    seq(|texts|, i requires 0 <= i < |texts| => Departure(texts[i], true))
  }

  lemma DeliveredNothing()
    ensures Delivered([]) == []
  {
  }

  lemma DeliveredAppend(texts: seq<string>, text: string)
    ensures Delivered(texts + [text]) == Delivered(texts) + [Departure(text, true)]
  {
  }

  lemma {:induction false} BytesAppend(q: seq<Item>, x: Item)
    ensures Bytes(q + [x]) == Bytes(q) + x.size
  {
    if q != [] {
      assert (q + [x])[1..] == q[1..] + [x];
      BytesAppend(q[1..], x);
    }
  }

  /** A message of this size is accepted by a queue of this depth and count of bytes, under this budget. */
  predicate Fits(queued: nat, bytes: int, total: int, size: nat) {
    queued < QUEUE_DEPTH && bytes + size <= MAX_QUEUE_BYTES && total + size <= MAX_TOTAL_QUEUE_BYTES
  }

  /** The counter is its queue's sum, the bounds hold, and no message was lost, reordered or invented. */
  predicate DirectionOk(q: seq<Item>, bytes: int, accepted: seq<string>, gone: seq<Departure>, discarded: bool) {
    && |q| <= QUEUE_DEPTH
    && bytes == Bytes(q) <= MAX_QUEUE_BYTES
    && (forall i :: 0 <= i < |q| ==> q[i].size == PayloadSize(q[i].text))
    && accepted == DepartedTexts(gone) + Texts(q)
    && (!discarded ==> forall i :: 0 <= i < |gone| ==> gone[i].delivered)
  }

  lemma Enqueued(q: seq<Item>, bytes: int, accepted: seq<string>, gone: seq<Departure>, discarded: bool, text: string)
    requires DirectionOk(q, bytes, accepted, gone, discarded)
    requires |q| < QUEUE_DEPTH && bytes + PayloadSize(text) <= MAX_QUEUE_BYTES
    ensures
      DirectionOk(q + [Item(text, PayloadSize(text))], bytes + PayloadSize(text), accepted + [text], gone, discarded)
  {
    var q' := q + [Item(text, PayloadSize(text))];
    BytesAppend(q, Item(text, PayloadSize(text)));
    assert Texts(q') == Texts(q) + [text];
  }

  lemma Dequeued(
    q: seq<Item>, bytes: int, accepted: seq<string>, gone: seq<Departure>, discarded: bool, delivered: bool)
    requires DirectionOk(q, bytes, accepted, gone, discarded) && q != []
    requires delivered || discarded
    ensures 0 <= q[0].size <= bytes
    ensures DirectionOk(q[1..], bytes - q[0].size, accepted, gone + [Departure(q[0].text, delivered)], discarded)
  {
    var gone' := gone + [Departure(q[0].text, delivered)];
    assert DepartedTexts(gone') + Texts(q[1..]) == accepted by {
      assert DepartedTexts(gone') == DepartedTexts(gone) + [q[0].text];
      assert Texts(q) == [q[0].text] + Texts(q[1..]);
    }
  }

  /** Until a prune discards something, what was accepted is what was delivered followed by what is queued. */
  lemma DeliveredThenQueued(q: seq<Item>, bytes: int, accepted: seq<string>, gone: seq<Departure>)
    requires DirectionOk(q, bytes, accepted, gone, false)
    ensures DepartedTexts(gone) <= accepted && accepted[|gone|..] == Texts(q)
    ensures forall i :: 0 <= i < |gone| ==> gone[i] == Departure(accepted[i], true)
  {
  }

  lemma DiscardAllowed(q: seq<Item>, bytes: int, accepted: seq<string>, gone: seq<Departure>, discarded: bool)
    requires DirectionOk(q, bytes, accepted, gone, discarded)
    ensures DirectionOk(q, bytes, accepted, gone, true)
    ensures q == [] ==> bytes == 0
  {
  }

  lemma RemoveKeepsRegistry(relays: map<nat, Relay>, all: seq<Relay>, nextId: nat, id: nat)
    requires RegistryOk(relays, all, nextId)
    ensures RegistryOk(relays - {id}, all, nextId)
  {
    var fewer := relays - {id};
    assert |fewer| <= |relays| by {
      assert fewer.Keys <= relays.Keys;
      Fewer(fewer.Keys, relays.Keys);
    }
    forall owner ensures |OwnedBy(fewer, owner)| <= MAX_RELAYS_PER_OWNER {
      assert OwnedBy(fewer, owner) <= OwnedBy(relays, owner);
      Fewer(OwnedBy(fewer, owner), OwnedBy(relays, owner));
    }
  }

  lemma Fewer<T>(a: set<T>, b: set<T>)
    requires a <= b
    ensures |a| <= |b|
  {
    assert b == a + (b - a);
  }

  lemma OwnedAfterAdd(relays: map<nat, Relay>, id: nat, r: Relay, owner: Owner)
    requires id !in relays
    ensures OwnedBy(relays[id := r], owner) == OwnedBy(relays, owner) + (if r.owner == owner then {id} else {})
  {
  }

  lemma AddKeepsRegistry(relays: map<nat, Relay>, all: seq<Relay>, nextId: nat, r: Relay)
    requires RegistryOk(relays, all, nextId) && r !in all
    requires |relays| < MAX_RELAYS && |OwnedBy(relays, r.owner)| < MAX_RELAYS_PER_OWNER
    ensures RegistryOk(relays[nextId := r], all + [r], nextId + 1)
  {
    hide OwnedBy;
    var more := relays[nextId := r];
    assert nextId !in relays;
    assert |more| == |relays| + 1;
    forall owner ensures |OwnedBy(more, owner)| <= MAX_RELAYS_PER_OWNER {
      OwnedAfterAdd(relays, nextId, r, owner);
    }
    forall i, j | 0 <= i < j < |all + [r]| ensures (all + [r])[i] != (all + [r])[j] {
      if j == |all| { assert all[i] in all; }
    }
  }

  lemma EachOnce(relays: map<nat, Relay>, all: seq<Relay>, nextId: nat)
    requires RegistryOk(relays, all, nextId)
    ensures forall i, j :: 0 <= i < |all| && 0 <= j < |all| && i != j ==> all[i] != all[j]
  {
  }

  lemma NothingPruned(snaps: seq<Snapshot>, registered: set<nat>, now: Time)
    ensures PrunedBelow(snaps, snaps, registered, now, 0)
  {
  }

  lemma PruneStep(
    before: seq<Snapshot>, mid: seq<Snapshot>, after: seq<Snapshot>, registered: set<nat>, now: Time, n: nat)
    requires n < |mid| && |after| == |mid| && after == mid[n := after[n]]
    requires PrunedBelow(before, mid, registered, now, n)
    requires if n in registered && mid[n].Stale(now) then after[n].DrainedFrom(mid[n]) else after[n] == mid[n]
    ensures PrunedBelow(before, after, registered, now, n + 1)
    ensures StaleIds(registered, before, now, n + 1)
         == StaleIds(registered, before, now, n) + (if n in registered && mid[n].Stale(now) then {n} else {})
  {
  }

  // ---------------------------------------------------------------- one relay

  /** Every field of a relay. */
  datatype Snapshot = Snapshot(
    closed: bool, closeCode: int, closeReason: string, closedAt: Option<Time>, lastActivityAt: Time,
    incoming: seq<Item>, outgoing: seq<Item>, incomingBytes: int, outgoingBytes: int,
    acceptedIn: seq<string>, acceptedOut: seq<string>, goneIn: seq<Departure>, goneOut: seq<Departure>, discarded: bool)
  {
    predicate Ok() {
      && DirectionOk(incoming, incomingBytes, acceptedIn, goneIn, discarded)
      && DirectionOk(outgoing, outgoingBytes, acceptedOut, goneOut, discarded)
    }

    function Load(): int { incomingBytes + outgoingBytes }

    /** Closed for longer than the grace, or open and idle for longer than the time to live. */
    predicate Stale(now: Time) {
      if closed then closedAt.Some? && now - closedAt.value > RELAY_CLOSE_GRACE
      else now - lastActivityAt > RELAY_TTL
    }

    predicate Drained() {
      incoming == [] && outgoing == [] && incomingBytes == 0 && outgoingBytes == 0 && discarded
    }

    /** Drained, and otherwise as before: neither closed nor touched, nothing more accepted. */
    predicate DrainedFrom(before: Snapshot) {
      && Drained()
      && this == before.(incoming := [], outgoing := [], incomingBytes := 0, outgoingBytes := 0,
                         goneIn := goneIn, goneOut := goneOut, discarded := true)
    }
  }

  /** A relay is stale more than thirty seconds after its close, or fifteen minutes after its last activity if open. */
  lemma StaleIff(r: Snapshot, now: Time)
    requires r.closed ==> r.closedAt.Some?
    ensures r.Stale(now) <==>
      now > if r.closed then r.closedAt.value + 30 * SECOND else r.lastActivityAt + 15 * 60 * SECOND
  {
  }

  function Sum(snaps: seq<Snapshot>): int {
    if snaps == [] then 0 else snaps[0].Load() + Sum(snaps[1..])
  }

  /** The budget is the sum over every relay ever created and stays within its bound; every relay is in order. */
  ghost predicate BooksOk(total: int, snaps: seq<Snapshot>) {
    && (forall i :: 0 <= i < |snaps| ==> snaps[i].Ok())
    && total == Sum(snaps) <= MAX_TOTAL_QUEUE_BYTES
  }

  lemma {:induction false} SumUpdate(snaps: seq<Snapshot>, k: nat, x: Snapshot)
    requires k < |snaps|
    ensures Sum(snaps[k := x]) == Sum(snaps) - snaps[k].Load() + x.Load()
  {
    if k > 0 {
      assert snaps[k := x][1..] == snaps[1..][k - 1 := x];
      SumUpdate(snaps[1..], k - 1, x);
    }
  }

  lemma {:induction false} SumAppend(snaps: seq<Snapshot>, x: Snapshot)
    ensures Sum(snaps + [x]) == Sum(snaps) + x.Load()
  {
    if snaps != [] {
      assert (snaps + [x])[1..] == snaps[1..] + [x];
      SumAppend(snaps[1..], x);
    }
  }

  lemma {:induction false} SumNotNegative(snaps: seq<Snapshot>)
    requires forall i :: 0 <= i < |snaps| ==> snaps[i].Ok()
    ensures Sum(snaps) >= 0
  {
    if snaps != [] { SumNotNegative(snaps[1..]); }
  }

  /** No queue holds more than the whole budget has reserved, so releasing its bytes never goes below zero. */
  lemma {:induction false} SumCovers(snaps: seq<Snapshot>, k: nat)
    requires k < |snaps| && forall i :: 0 <= i < |snaps| ==> snaps[i].Ok()
    ensures 0 <= snaps[k].incomingBytes && 0 <= snaps[k].outgoingBytes && snaps[k].Load() <= Sum(snaps)
  {
    SumNotNegative(snaps[1..]);
    if k > 0 { SumCovers(snaps[1..], k - 1); }
  }

  /** One relay's change and the matching change of the budget keep the books. */
  lemma BooksUpdate(total: int, snaps: seq<Snapshot>, k: nat, x: Snapshot, total': int)
    requires BooksOk(total, snaps) && k < |snaps| && x.Ok()
    requires total' - total == x.Load() - snaps[k].Load() && total' <= MAX_TOTAL_QUEUE_BYTES
    ensures BooksOk(total', snaps[k := x])
  {
    SumUpdate(snaps, k, x);
  }

  lemma BooksBalance(total: int, snaps: seq<Snapshot>)
    requires BooksOk(total, snaps)
    ensures total == Sum(snaps)
  {
  }

  lemma BooksAppend(total: int, snaps: seq<Snapshot>, x: Snapshot)
    requires BooksOk(total, snaps) && x.Ok() && x.Load() == 0
    ensures BooksOk(total, snaps + [x])
  {
    SumAppend(snaps, x);
  }

  function StaleIds(registered: set<nat>, snaps: seq<Snapshot>, now: Time, n: nat): set<nat> {
    set id | id in registered && id < n && id < |snaps| && snaps[id].Stale(now)
  }

  /** Of the first `n` relays those registered and stale are drained; every other relay is as it was. */
  predicate PrunedBelow(before: seq<Snapshot>, after: seq<Snapshot>, registered: set<nat>, now: Time, n: nat) {
    && |after| == |before|
    && forall id: nat :: id < |after| ==>
         if id < n && id in registered && before[id].Stale(now) then after[id].DrainedFrom(before[id])
         else after[id] == before[id]
  }

  // ---------------------------------------------------------------- bytes held by unregistered relays

  /** What the relays in `ids` have queued, and what the others have. */
  function LoadIn(snaps: seq<Snapshot>, ids: set<nat>): int {
    if snaps == [] then 0
    else
      var n := |snaps| - 1;
      LoadIn(snaps[..n], ids) + (if n in ids then snaps[n].Load() else 0)
  }

  function LoadOutside(snaps: seq<Snapshot>, ids: set<nat>): int {
    if snaps == [] then 0
    else
      var n := |snaps| - 1;
      LoadOutside(snaps[..n], ids) + (if n in ids then 0 else snaps[n].Load())
  }

  lemma {:induction false} LoadSplits(snaps: seq<Snapshot>, ids: set<nat>)
    ensures Sum(snaps) == LoadIn(snaps, ids) + LoadOutside(snaps, ids)
  {
    if snaps != [] {
      var n := |snaps| - 1;
      LoadSplits(snaps[..n], ids);
      SumAppend(snaps[..n], snaps[n]);
      assert snaps == snaps[..n] + [snaps[n]];
    }
  }

  lemma {:induction false} NothingOutsideIff(snaps: seq<Snapshot>, ids: set<nat>)
    requires forall i :: 0 <= i < |snaps| ==> snaps[i].Load() >= 0
    ensures LoadOutside(snaps, ids) >= 0
    ensures LoadOutside(snaps, ids) == 0 <==> forall i :: 0 <= i < |snaps| && i !in ids ==> snaps[i].Load() == 0
  {
    if snaps != [] { NothingOutsideIff(snaps[..|snaps| - 1], ids); }
  }

  lemma {:induction false} OutsideUpdate(snaps: seq<Snapshot>, ids: set<nat>, k: nat, x: Snapshot)
    requires k < |snaps|
    ensures LoadOutside(snaps[k := x], ids)
         == LoadOutside(snaps, ids) + (if k in ids then 0 else x.Load() - snaps[k].Load())
  {
    var n := |snaps| - 1;
    if k < n {
      assert snaps[k := x][..n] == snaps[..n][k := x];
      OutsideUpdate(snaps[..n], ids, k, x);
    } else {
      assert snaps[k := x][..n] == snaps[..n];
    }
  }

  lemma {:induction false} OutsideAppend(snaps: seq<Snapshot>, ids: set<nat>, x: Snapshot)
    requires forall id :: id in ids ==> id < |snaps|
    ensures LoadOutside(snaps + [x], ids + {|snaps|}) == LoadOutside(snaps, ids)
  {
    assert (snaps + [x])[..|snaps|] == snaps;
    OutsideOnlyBelow(snaps, ids, ids + {|snaps|});
  }

  lemma {:induction false} OutsideOnlyBelow(snaps: seq<Snapshot>, ids: set<nat>, more: set<nat>)
    requires forall i :: 0 <= i < |snaps| ==> (i in ids <==> i in more)
    ensures LoadOutside(snaps, ids) == LoadOutside(snaps, more)
  {
    if snaps != [] { OutsideOnlyBelow(snaps[..|snaps| - 1], ids, more); }
  }

  /** Emptying some relays leaves what the others hold. */
  lemma {:induction false} DrainedSum(before: seq<Snapshot>, after: seq<Snapshot>, ids: set<nat>)
    requires |after| == |before|
    requires forall i :: 0 <= i < |after| ==> if i in ids then after[i].Load() == 0 else after[i] == before[i]
    ensures Sum(after) == LoadOutside(before, ids)
  {
    if after != [] {
      var n := |after| - 1;
      DrainedSum(before[..n], after[..n], ids);
      SumAppend(after[..n], after[n]);
      assert after == after[..n] + [after[n]];
    }
  }

  /** What a prune gives back to the budget: all that the stale registered relays held. */
  function StaleLoad(registered: set<nat>, snaps: seq<Snapshot>, now: Time): int {
    LoadIn(snaps, StaleIds(registered, snaps, now, |snaps|))
  }

  lemma PruneReleases(before: seq<Snapshot>, after: seq<Snapshot>, registered: set<nat>, now: Time)
    requires PrunedBelow(before, after, registered, now, |after|)
    ensures Sum(after) == Sum(before) - StaleLoad(registered, before, now)
  {
    var ids := StaleIds(registered, before, now, |before|);
    hide Snapshot.Stale, LoadOutside, LoadIn;
    DrainedSum(before, after, ids);
    LoadSplits(before, ids);
  }

  /** A prune takes what it unregisters out of the budget: the relays outside the registry hold what they held. */
  lemma {:induction false} PruneStrandsNothing(
    before: seq<Snapshot>, after: seq<Snapshot>, registered: set<nat>, kept: set<nat>, now: Time)
    requires |after| == |before|
    requires forall i :: 0 <= i < |after| ==>
      if i in registered && before[i].Stale(now) then after[i].Drained() && i !in kept
      else after[i] == before[i] && (i in kept <==> i in registered)
    ensures LoadOutside(after, kept) == LoadOutside(before, registered)
  {
    if after != [] {
      var n := |after| - 1;
      PruneStrandsNothing(before[..n], after[..n], registered, kept, now);
    }
  }

  lemma PrunedStrandsNothing(
    before: seq<Snapshot>, after: seq<Snapshot>, registered: set<nat>, kept: set<nat>, now: Time)
    requires PrunedBelow(before, after, registered, now, |after|)
    requires kept == registered - StaleIds(registered, before, now, |after|)
    ensures LoadOutside(after, kept) == LoadOutside(before, registered)
  {
    hide Snapshot.Stale, Snapshot.Drained, LoadOutside;
    PruneStrandsNothing(before, after, registered, kept, now);
  }

  class Relay {
    const owner: Owner
    var closed: bool
    var closeCode: int
    var closeReason: string
    var closedAt: Option<Time>
    var lastActivityAt: Time
    var incoming: seq<Item>
    var outgoing: seq<Item>
    var incomingBytes: int
    var outgoingBytes: int
    ghost var acceptedIn: seq<string>
    ghost var acceptedOut: seq<string>
    ghost var goneIn: seq<Departure>
    ghost var goneOut: seq<Departure>
    ghost var discarded: bool

    constructor (owner: Owner, now: Time)
      ensures this.owner == owner && AsCreated(now) && Snap().Ok()
    {
      this.owner := owner;
      closed, closeCode, closeReason, closedAt, lastActivityAt := false, 0, "", None, now;
      incoming, outgoing, incomingBytes, outgoingBytes := [], [], 0, 0;
      acceptedIn, acceptedOut, goneIn, goneOut, discarded := [], [], [], [], false;
    }

    /** Open, just active, with nothing queued and no history. */
    ghost predicate AsCreated(now: Time)
      reads this
    {
      && !closed && closedAt == None && lastActivityAt == now && !discarded
      && incoming == [] && outgoing == [] && incomingBytes == outgoingBytes == 0
      && acceptedIn == [] && acceptedOut == [] && goneIn == [] && goneOut == []
    }

    ghost function Snap(): Snapshot
      reads this
    {
      Snapshot(closed, closeCode, closeReason, closedAt, lastActivityAt, incoming, outgoing, incomingBytes,
               outgoingBytes, acceptedIn, acceptedOut, goneIn, goneOut, discarded)
    }

    predicate Stale(now: Time)
      reads this
      ensures Stale(now) == Snap().Stale(now)
    {
      if closed then closedAt.Some? && now - closedAt.value > RELAY_CLOSE_GRACE
      else now - lastActivityAt > RELAY_TTL
    }
  }

  /** How `close_relay` leaves an addressable relay, given the budget before it. */
  ghost predicate ClosedFrom(
    before: Snapshot, after: Snapshot, reason: string, notice: string, total: int, total': int, now: Time)
  {
    if before.closed then after == before && total' == total
    else
      var size := PayloadSize(notice);
      var fits := Fits(|before.outgoing|, before.outgoingBytes, total, size);
      && after == before.(
           closed := true, closeCode := NORMAL_CLOSURE, closeReason := Shortened(reason), closedAt := Some(now),
           lastActivityAt := now,
           outgoing := before.outgoing + (if fits then [Item(notice, size)] else []),
           outgoingBytes := before.outgoingBytes + (if fits then size else 0),
           acceptedOut := before.acceptedOut + (if fits then [notice] else []))
      && total' == total + (if fits then size else 0)
  }

  function Shortened(reason: string): string {
    if |reason| > MAX_REASON then reason[..MAX_REASON] else reason
  }

  datatype Received = Message(text: string) | Disconnected(code: int, reason: string) | Pending

  datatype Creation = Created(relay: Relay) | AtCapacity | TooManyForOwner

  // ---------------------------------------------------------------- the module's global state

  ghost function SnapsOf(all: seq<Relay>): (snaps: seq<Snapshot>)
    reads all
    ensures |snaps| == |all|
  {
    seq(|all|, i requires 0 <= i < |all| reads all => all[i].Snap())
  }

  lemma SnapsAppend(all: seq<Relay>, r: Relay)
    ensures SnapsOf(all + [r]) == SnapsOf(all) + [r.Snap()]
  {
  }

  /** What is queued, counted message by message over every relay ever created. */
  ghost function QueuedBytes(all: seq<Relay>): nat
    reads all
  {
    if all == [] then 0 else Bytes(all[0].incoming) + Bytes(all[0].outgoing) + QueuedBytes(all[1..])
  }

  lemma {:induction false} SumIsQueued(all: seq<Relay>)
    requires forall i :: 0 <= i < |all| ==> all[i].Snap().Ok()
    ensures Sum(SnapsOf(all)) == QueuedBytes(all)
  {
    if all != [] {
      assert SnapsOf(all)[1..] == SnapsOf(all[1..]);
      SumIsQueued(all[1..]);
    }
  }

  ghost function OwnedBy(relays: map<nat, Relay>, owner: Owner): set<nat> {
    set id | id in relays && relays[id].owner == owner
  }

  /** Ids name the relays in order of creation; the registry keeps its two size limits. */
  ghost predicate RegistryOk(relays: map<nat, Relay>, all: seq<Relay>, nextId: nat) {
    && |all| == nextId
    && (forall i, j :: 0 <= i < j < |all| ==> all[i] != all[j])
    && (forall id :: id in relays ==> id < nextId && relays[id] == all[id])
    && |relays| <= MAX_RELAYS
    && (forall owner :: |OwnedBy(relays, owner)| <= MAX_RELAYS_PER_OWNER)
  }

  class Hub {
    var total: int
    var relays: map<nat, Relay>
    var nextId: nat
    ghost var all: seq<Relay>

    ghost predicate Valid()
      reads this, all
    {
      RegistryOk(relays, all, nextId) && BooksOk(total, SnapsOf(all))
    }

    constructor ()
      ensures Valid() && total == 0 && relays == map[] && all == [] && nextId == 0
      ensures Stranded() == 0
    {
      total, relays, nextId, all := 0, map[], 0, [];
    }

    /** What relays outside the registry still hold of the budget. */
    ghost function Stranded(): int
      reads this, all
    {
      LoadOutside(SnapsOf(all), relays.Keys)
    }

    /** What unregistered relays hold changed by what this relay took or gave back, if it is one of them. */
    twostate predicate StrandedMoves(r: Relay)
      reads this, all
    {
      relays == old(relays) && all == old(all)
      && Stranded() == old(Stranded()) + (if r in relays.Values then 0 else total - old(total))
    }

    /** After only relay `all[k]` changed, the invariant holds again if its own part and the budget do. */
    twostate lemma OneRelayChanged(k: nat)
      requires old(Valid()) && all == old(all) && relays == old(relays) && k < |all|
      requires RegistryOk(relays, all, nextId)
      requires forall x :: x in all && x != all[k] ==> unchanged(x)
      requires all[k].Snap().Ok() && total <= MAX_TOTAL_QUEUE_BYTES
      requires total - old(total) == all[k].Snap().Load() - old(all[k].Snap()).Load()
      ensures Valid() && SnapsOf(all) == old(SnapsOf(all))[k := all[k].Snap()]
      ensures StrandedMoves(all[k])
    {
      hide DirectionOk, RegistryOk, BooksOk, LoadOutside;
      EachOnce(relays, all, nextId);
      RegisteredIff(relays, all, nextId, k);
      OutsideUpdate(old(SnapsOf(all)), relays.Keys, k, all[k].Snap());
      forall i | 0 <= i < |all| && i != k ensures all[i].Snap() == old(all[i].Snap()) {
        assert all[i] in all && all[i] != all[k];
      }
      assert SnapsOf(all) == old(SnapsOf(all))[k := all[k].Snap()];
      BooksUpdate(old(total), old(SnapsOf(all)), k, all[k].Snap(), total);
    }

    /** After only relay `all[k]` changed, its entry is the only one that did. */
    twostate lemma OthersAsBefore(k: nat)
      requires all == old(all) && k < |all| && RegistryOk(relays, all, nextId)
      requires forall x :: x in all && x != all[k] ==> unchanged(x)
      ensures SnapsOf(all) == old(SnapsOf(all))[k := all[k].Snap()]
      ensures forall j :: 0 <= j < |all| && all[j] == all[k] ==> j == k
    {
      EachOnce(relays, all, nextId);
      hide RegistryOk;
      forall i | 0 <= i < |all| && i != k ensures all[i].Snap() == old(all[i].Snap()) {
        assert all[i] in all && all[i] != all[k];
      }
    }

    /** `_reserve_global_bytes`. */
    method Reserve(size: int) returns (ok: bool)
      modifies this`total
      ensures ok <==> 0 <= size && old(total) + size <= MAX_TOTAL_QUEUE_BYTES
      ensures total == old(total) + (if ok then size else 0)
    {
      if size < 0 || total + size > MAX_TOTAL_QUEUE_BYTES { return false; }
      total := total + size;
      return true;
    }

    /** `_release_global_bytes`, clamps included. */
    method Release(size: int)
      modifies this`total
      ensures var freed := if size > 0 then size else 0;
        total == (if old(total) > freed then old(total) - freed else 0)
    {
      var freed := if size > 0 then size else 0;
      total := if total - freed > 0 then total - freed else 0;
    }

    lemma RoomReserved(r: Relay)
      requires Valid() && r in all
      ensures 0 <= r.incomingBytes && 0 <= r.outgoingBytes && r.incomingBytes + r.outgoingBytes <= total
      ensures r.Snap().Ok() && total <= MAX_TOTAL_QUEUE_BYTES
    {
      var k :| 0 <= k < |all| && all[k] == r;
      assert SnapsOf(all)[k] == r.Snap();
      SumCovers(SnapsOf(all), k);
    }

    /** The byte budget is exactly what is queued, closed and pruned relays included. */
    lemma BudgetIsWhatIsQueued()
      requires Valid()
      ensures total == QueuedBytes(all) <= MAX_TOTAL_QUEUE_BYTES
    {
      forall i | 0 <= i < |all| ensures all[i].Snap().Ok() {
        assert SnapsOf(all)[i].Ok();
      }
      SumIsQueued(all);
    }

    /** The budget is what the registered relays have queued exactly when no other relay has anything queued. */
    lemma BudgetIsOfTheRegisteredIff()
      requires Valid()
      ensures total == LoadIn(SnapsOf(all), relays.Keys) + Stranded() && Stranded() >= 0
      ensures total == LoadIn(SnapsOf(all), relays.Keys) <==>
        forall i :: 0 <= i < |all| && i !in relays ==> all[i].incomingBytes + all[i].outgoingBytes == 0
    {
      var snaps := SnapsOf(all);
      LoadSplits(snaps, relays.Keys);
      forall i | 0 <= i < |snaps| ensures snaps[i].Load() >= 0 { SumCovers(snaps, i); }
      NothingOutsideIff(snaps, relays.Keys);
      hide RegistryOk, BooksOk, LoadIn, LoadOutside;
      assert forall i :: 0 <= i < |all| ==> snaps[i].Load() == all[i].incomingBytes + all[i].outgoingBytes;
    }

    method PutIncoming(r: Relay, payload: string) returns (ok: bool)
      requires Valid() && r in all
      modifies this`total, r`incoming, r`incomingBytes, r`acceptedIn
      ensures Valid()
      ensures StrandedMoves(r)
      ensures var size := PayloadSize(payload);
        && (ok <==> Fits(|old(r.incoming)|, old(r.incomingBytes), old(total), size))
        && total == old(total) + (if ok then size else 0)
        && r.incomingBytes == old(r.incomingBytes) + (if ok then size else 0)
        && r.incoming == old(r.incoming) + (if ok then [Item(payload, size)] else [])
        && r.acceptedIn == old(r.acceptedIn) + (if ok then [payload] else [])
    {
      hide DirectionOk, RegistryOk, BooksOk;
      RoomReserved(r);
      var size := PayloadSize(payload);
      if r.incomingBytes + size > MAX_QUEUE_BYTES { return false; }
      ok := Reserve(size);
      if !ok { return; }
      if |r.incoming| >= QUEUE_DEPTH {
        Release(size);
        return false;
      }
      ghost var k :| 0 <= k < |all| && all[k] == r;
      Enqueued(r.incoming, r.incomingBytes, r.acceptedIn, r.goneIn, r.discarded, payload);
      r.incoming := r.incoming + [Item(payload, size)];
      r.acceptedIn := r.acceptedIn + [payload];
      r.incomingBytes := r.incomingBytes + size;
      OneRelayChanged(k);
    }

    method PutOutgoing(r: Relay, payload: string) returns (ok: bool)
      requires Valid() && r in all
      modifies this`total, r`outgoing, r`outgoingBytes, r`acceptedOut
      ensures Valid()
      ensures StrandedMoves(r)
      ensures var size := PayloadSize(payload);
        && (ok <==> Fits(|old(r.outgoing)|, old(r.outgoingBytes), old(total), size))
        && total == old(total) + (if ok then size else 0)
        && r.outgoingBytes == old(r.outgoingBytes) + (if ok then size else 0)
        && r.outgoing == old(r.outgoing) + (if ok then [Item(payload, size)] else [])
        && r.acceptedOut == old(r.acceptedOut) + (if ok then [payload] else [])
    {
      hide DirectionOk, RegistryOk, BooksOk;
      RoomReserved(r);
      var size := PayloadSize(payload);
      if r.outgoingBytes + size > MAX_QUEUE_BYTES { return false; }
      ok := Reserve(size);
      if !ok { return; }
      if |r.outgoing| >= QUEUE_DEPTH {
        Release(size);
        return false;
      }
      ghost var k :| 0 <= k < |all| && all[k] == r;
      Enqueued(r.outgoing, r.outgoingBytes, r.acceptedOut, r.goneOut, r.discarded, payload);
      r.outgoing := r.outgoing + [Item(payload, size)];
      r.acceptedOut := r.acceptedOut + [payload];
      r.outgoingBytes := r.outgoingBytes + size;
      OneRelayChanged(k);
    }

    /** Take the oldest incoming message; the `max(0, ...)` of the counters is written out and never bites. */
    method TakeIncoming(r: Relay, ghost delivered: bool) returns (text: string)
      requires Valid() && r in all && r.incoming != [] && (delivered || r.discarded)
      modifies this`total, r`incoming, r`incomingBytes, r`goneIn
      ensures Valid()
      ensures text == old(r.incoming)[0].text && r.incoming == old(r.incoming)[1..]
      ensures r.incomingBytes == old(r.incomingBytes) - old(r.incoming)[0].size
      ensures total == old(total) - old(r.incoming)[0].size
      ensures r.goneIn == old(r.goneIn) + [Departure(text, delivered)]
      ensures StrandedMoves(r)
      ensures forall k :: 0 <= k < |all| && all[k] == r ==> SnapsOf(all) == old(SnapsOf(all))[k := r.Snap()]
    {
      hide DirectionOk, RegistryOk, BooksOk;
      RoomReserved(r);
      ghost var k :| 0 <= k < |all| && all[k] == r;
      Dequeued(r.incoming, r.incomingBytes, r.acceptedIn, r.goneIn, r.discarded, delivered);
      var item := r.incoming[0];
      r.incoming := r.incoming[1..];
      r.goneIn := r.goneIn + [Departure(item.text, delivered)];
      r.incomingBytes := if r.incomingBytes - item.size > 0 then r.incomingBytes - item.size else 0;
      Release(item.size);
      OneRelayChanged(k);
      EachOnce(relays, all, nextId);
      return item.text;
    }

    method TakeOutgoing(r: Relay, ghost delivered: bool) returns (text: string)
      requires Valid() && r in all && r.outgoing != [] && (delivered || r.discarded)
      modifies this`total, r`outgoing, r`outgoingBytes, r`goneOut
      ensures Valid()
      ensures text == old(r.outgoing)[0].text && r.outgoing == old(r.outgoing)[1..]
      ensures r.outgoingBytes == old(r.outgoingBytes) - old(r.outgoing)[0].size
      ensures total == old(total) - old(r.outgoing)[0].size
      ensures r.goneOut == old(r.goneOut) + [Departure(text, delivered)]
      ensures StrandedMoves(r)
      ensures forall k :: 0 <= k < |all| && all[k] == r ==> SnapsOf(all) == old(SnapsOf(all))[k := r.Snap()]
    {
      hide DirectionOk, RegistryOk, BooksOk;
      RoomReserved(r);
      ghost var k :| 0 <= k < |all| && all[k] == r;
      Dequeued(r.outgoing, r.outgoingBytes, r.acceptedOut, r.goneOut, r.discarded, delivered);
      var item := r.outgoing[0];
      r.outgoing := r.outgoing[1..];
      r.goneOut := r.goneOut + [Departure(item.text, delivered)];
      r.outgoingBytes := if r.outgoingBytes - item.size > 0 then r.outgoingBytes - item.size else 0;
      Release(item.size);
      OneRelayChanged(k);
      EachOnce(relays, all, nextId);
      return item.text;
    }

    /** `close`: queue the closing message if there is room, and shut down whether there is or not. */
    method Close(r: Relay, code: int, reason: string, notice: string, now: Time)
      requires Valid() && r in all
      modifies this`total, r
      ensures Valid() && r.closed
      ensures old(r.closed) ==> unchanged(r) && total == old(total)
      ensures !old(r.closed) ==>
        && r.closeCode == code && r.closeReason == Shortened(reason) && r.closedAt == Some(now)
        && r.lastActivityAt == now
      ensures r.incoming == old(r.incoming) && r.goneIn == old(r.goneIn) && r.goneOut == old(r.goneOut)
      ensures r.acceptedIn == old(r.acceptedIn) && r.discarded == old(r.discarded)
      ensures var size := PayloadSize(notice);
        if !old(r.closed) && Fits(|old(r.outgoing)|, old(r.outgoingBytes), old(total), size) then
          && r.outgoing == old(r.outgoing) + [Item(notice, size)] && r.acceptedOut == old(r.acceptedOut) + [notice]
          && total == old(total) + size
        else r.outgoing == old(r.outgoing) && r.acceptedOut == old(r.acceptedOut) && total == old(total)
      ensures StrandedMoves(r)
      ensures r.incomingBytes == old(r.incomingBytes)
      ensures r.outgoingBytes - old(r.outgoingBytes) == total - old(total)
      ensures forall k :: 0 <= k < |all| && all[k] == r ==> SnapsOf(all) == old(SnapsOf(all))[k := r.Snap()]
    {
      hide DirectionOk, RegistryOk, BooksOk, SnapsOf;
      ghost var k :| 0 <= k < |all| && all[k] == r;
      if r.closed {
        OthersAsBefore(k);
        return;
      }
      Shut(r, k, code, reason, now);
      var ok := PutOutgoing(r, notice);
      OthersAsBefore(k);
    }

    /** Mark a relay closed. */
    method Shut(r: Relay, ghost k: nat, code: int, reason: string, now: Time)
      requires Valid() && k < |all| && all[k] == r
      modifies r`closed, r`closeCode, r`closeReason, r`closedAt, r`lastActivityAt
      ensures Valid() && r.closed && r.closeCode == code && r.closeReason == Shortened(reason)
      ensures r.closedAt == Some(now) && r.lastActivityAt == now && StrandedMoves(r)
    {
      hide DirectionOk, RegistryOk, BooksOk, SnapsOf;
      RoomReserved(r);
      r.closed, r.closeCode, r.closedAt, r.lastActivityAt := true, code, Some(now), now;
      r.closeReason := Shortened(reason);
      OneRelayChanged(k);
    }

    method SendText(r: Relay, payload: string, now: Time) returns (ok: bool)
      requires Valid() && r in all
      modifies this`total, r`outgoing, r`outgoingBytes, r`acceptedOut, r`lastActivityAt
      ensures Valid()
      ensures StrandedMoves(r)
      ensures ok <==> !r.closed && Fits(|old(r.outgoing)|, old(r.outgoingBytes), old(total), PayloadSize(payload))
      ensures r.lastActivityAt == (if r.closed then old(r.lastActivityAt) else now)
      ensures r.outgoing == old(r.outgoing) + (if ok then [Item(payload, PayloadSize(payload))] else [])
      ensures r.acceptedOut == old(r.acceptedOut) + (if ok then [payload] else [])
      ensures total == old(total) + (if ok then PayloadSize(payload) else 0)
    {
      hide DirectionOk, RegistryOk, BooksOk;
      RoomReserved(r);
      if r.closed { return false; }
      r.lastActivityAt := now;
      ghost var k :| 0 <= k < |all| && all[k] == r;
      OneRelayChanged(k);
      ok := PutOutgoing(r, payload);
    }

    method PushFromHttp(r: Relay, payload: string, now: Time) returns (ok: bool)
      requires Valid() && r in all
      modifies this`total, r`incoming, r`incomingBytes, r`acceptedIn, r`lastActivityAt
      ensures Valid()
      ensures StrandedMoves(r)
      ensures ok <==> !r.closed && Fits(|old(r.incoming)|, old(r.incomingBytes), old(total), PayloadSize(payload))
      ensures r.lastActivityAt == (if r.closed then old(r.lastActivityAt) else now)
      ensures r.incoming == old(r.incoming) + (if ok then [Item(payload, PayloadSize(payload))] else [])
      ensures r.acceptedIn == old(r.acceptedIn) + (if ok then [payload] else [])
      ensures total == old(total) + (if ok then PayloadSize(payload) else 0)
    {
      hide DirectionOk, RegistryOk, BooksOk;
      RoomReserved(r);
      if r.closed { return false; }
      r.lastActivityAt := now;
      ghost var k :| 0 <= k < |all| && all[k] == r;
      OneRelayChanged(k);
      ok := PutIncoming(r, payload);
    }

    /** `receive_text` between two awaits: the oldest message, a disconnect once closed and drained, or wait on. */
    method ReceiveText(r: Relay, now: Time) returns (result: Received)
      requires Valid() && r in all
      modifies this`total, r`incoming, r`incomingBytes, r`goneIn, r`lastActivityAt
      ensures Valid()
      ensures result.Message? <==> old(r.incoming) != []
      ensures result.Disconnected? <==> old(r.incoming) == [] && r.closed
      ensures result.Disconnected? ==>
        result.reason == r.closeReason && result.code == (if r.closeCode != 0 then r.closeCode else NORMAL_CLOSURE)
      ensures result.Message? ==>
        && result.text == old(r.incoming)[0].text && r.incoming == old(r.incoming)[1..]
        && r.goneIn == old(r.goneIn) + [Departure(result.text, true)]
        && total == old(total) - old(r.incoming)[0].size && r.lastActivityAt == now
      ensures !result.Message? ==> unchanged(r) && total == old(total)
      ensures StrandedMoves(r)
    {
      hide DirectionOk, RegistryOk, BooksOk;
      RoomReserved(r);
      if r.incoming == [] {
        if r.closed { return Disconnected(if r.closeCode != 0 then r.closeCode else NORMAL_CLOSURE, r.closeReason); }
        return Pending;
      }
      var text := TakeIncoming(r, true);
      ghost var k :| 0 <= k < |all| && all[k] == r;
      RoomReserved(r);
      label Taken:
      r.lastActivityAt := now;
      OneRelayChanged@Taken(k);
      return Message(text);
    }

    /** `poll_to_http` up to its await. */
    method OpenPoll(r: Relay, now: Time)
      requires Valid() && r in all
      modifies r`lastActivityAt
      ensures Valid() && r.lastActivityAt == now && StrandedMoves(r)
    {
      hide DirectionOk, RegistryOk, BooksOk, SnapsOf;
      RoomReserved(r);
      ghost var k :| 0 <= k < |all| && all[k] == r;
      r.lastActivityAt := now;
      OneRelayChanged(k);
    }

    /** `poll_to_http` after its await: hand over up to 64 messages in order; an empty answer is the timed-out poll. */
    method PollToHttp(r: Relay) returns (items: seq<string>)
      requires Valid() && r in all
      modifies this`total, r`outgoing, r`outgoingBytes, r`goneOut
      ensures Valid()
      ensures |items| == (if |old(r.outgoing)| < POLL_BATCH then |old(r.outgoing)| else POLL_BATCH)
      ensures items == Texts(old(r.outgoing))[..|items|] && r.outgoing == old(r.outgoing)[|items|..]
      ensures r.goneOut == old(r.goneOut) + Delivered(items)
      ensures total == old(total) - Bytes(old(r.outgoing)) + Bytes(r.outgoing)
      ensures StrandedMoves(r)
    {
      hide DirectionOk, RegistryOk, BooksOk, SnapsOf, Delivered, Relay.Snap;
      items := [];
      DeliveredNothing();
      while |items| < POLL_BATCH && r.outgoing != []
        invariant Valid() && StrandedMoves(r)
        invariant |items| <= POLL_BATCH && |items| <= |old(r.outgoing)|
        invariant r.outgoing == old(r.outgoing)[|items|..]
        invariant items == Texts(old(r.outgoing))[..|items|]
        invariant r.goneOut == old(r.goneOut) + Delivered(items)
        invariant total == old(total) - Bytes(old(r.outgoing)) + Bytes(r.outgoing)
        decreases |r.outgoing|
      {
        var text := TakeOutgoing(r, true);
        DeliveredAppend(items, text);
        items := items + [text];
      }
    }

    method DrainIncoming(r: Relay, ghost k: nat)
      requires Valid() && k < |all| && all[k] == r && r.discarded
      modifies this`total, r`incoming, r`incomingBytes, r`goneIn
      ensures Valid() && r.incoming == [] && r.incomingBytes == 0
      ensures SnapsOf(all) == old(SnapsOf(all))[k := r.Snap()]
      ensures total == old(total) - old(r.incomingBytes)
    {
      hide DirectionOk, RegistryOk, BooksOk, StrandedMoves;
      while r.incoming != []
        invariant Valid() && SnapsOf(all) == old(SnapsOf(all))[k := r.Snap()]
        invariant total == old(total) - old(r.incomingBytes) + r.incomingBytes
        decreases |r.incoming|
      {
        var text := TakeIncoming(r, false);
      }
      RoomReserved(r);
      DiscardAllowed(r.incoming, r.incomingBytes, r.acceptedIn, r.goneIn, r.discarded);
    }

    method DrainOutgoing(r: Relay, ghost k: nat)
      requires Valid() && k < |all| && all[k] == r && r.discarded
      modifies this`total, r`outgoing, r`outgoingBytes, r`goneOut
      ensures Valid() && r.outgoing == [] && r.outgoingBytes == 0
      ensures SnapsOf(all) == old(SnapsOf(all))[k := r.Snap()]
      ensures total == old(total) - old(r.outgoingBytes)
    {
      hide DirectionOk, RegistryOk, BooksOk, StrandedMoves;
      while r.outgoing != []
        invariant Valid() && SnapsOf(all) == old(SnapsOf(all))[k := r.Snap()]
        invariant total == old(total) - old(r.outgoingBytes) + r.outgoingBytes
        decreases |r.outgoing|
      {
        var text := TakeOutgoing(r, false);
      }
      RoomReserved(r);
      DiscardAllowed(r.outgoing, r.outgoingBytes, r.acceptedOut, r.goneOut, r.discarded);
    }

    /** `_discard_relay_buffers`: drain both queues and give their bytes back to the budget. */
    method DiscardBuffers(r: Relay, ghost k: nat)
      requires Valid() && k < |all| && all[k] == r
      modifies this`total, r`incoming, r`incomingBytes, r`goneIn, r`outgoing, r`outgoingBytes, r`goneOut, r`discarded
      ensures Valid() && r.Snap().DrainedFrom(old(r.Snap()))
      ensures SnapsOf(all) == old(SnapsOf(all))[k := r.Snap()]
      ensures total == old(total) - old(r.Snap()).Load()
    {
      hide DirectionOk, RegistryOk, BooksOk, StrandedMoves;
      RoomReserved(r);
      DiscardAllowed(r.incoming, r.incomingBytes, r.acceptedIn, r.goneIn, r.discarded);
      DiscardAllowed(r.outgoing, r.outgoingBytes, r.acceptedOut, r.goneOut, r.discarded);
      r.discarded := true;
      OneRelayChanged(k);
      DrainIncoming(r, k);
      DrainOutgoing(r, k);
    }

    method PruneOne(n: nat, now: Time)
      requires Valid() && n < |all|
      modifies this`total, this`relays, all[n]
      ensures Valid() && all == old(all) && nextId == old(nextId)
      ensures n in old(relays) && old(SnapsOf(all))[n].Stale(now) ==>
        relays == old(relays) - {n} && all[n].Snap().DrainedFrom(old(SnapsOf(all))[n])
      ensures !(n in old(relays) && old(SnapsOf(all))[n].Stale(now)) ==>
        relays == old(relays) && all[n].Snap() == old(SnapsOf(all))[n]
      ensures SnapsOf(all) == old(SnapsOf(all))[n := all[n].Snap()]
    {
      hide DirectionOk, RegistryOk, BooksOk, Snapshot.Stale, Snapshot.Drained, Snapshot.DrainedFrom;
      RegistryNames(relays, all, nextId);
      assert SnapsOf(all)[n] == all[n].Snap();
      if n in relays && relays[n].Stale(now) {
        var r := relays[n];
        RemoveKeepsRegistry(relays, all, nextId, n);
        relays := relays - {n};
        DiscardBuffers(r, n);
      } else {
        assert SnapsOf(all) == SnapsOf(all)[n := all[n].Snap()];
      }
    }

    /** `_prune_locked`: unregister and drain every stale relay, and touch no other. */
    method Prune(now: Time)
      requires Valid()
      modifies this`total, this`relays, all
      ensures Valid() && all == old(all) && nextId == old(nextId)
      ensures PrunedBelow(old(SnapsOf(all)), SnapsOf(all), old(relays).Keys, now, |all|)
      ensures relays == old(relays) - StaleIds(old(relays).Keys, old(SnapsOf(all)), now, |all|)
      ensures Stranded() == old(Stranded())
      ensures total == old(total) - StaleLoad(old(relays).Keys, old(SnapsOf(all)), now)
    {
      hide DirectionOk, RegistryOk, BooksOk, Snapshot.Stale, Snapshot.Drained, Snapshot.DrainedFrom, SnapsOf,
        PrunedBelow, LoadOutside, StaleLoad;
      BooksBalance(total, SnapsOf(all));
      RegistryNames(relays, all, nextId);
      ghost var before, registered := SnapsOf(all), relays.Keys;
      NothingPruned(before, registered, now);
      for n := 0 to nextId
        invariant Valid() && all == old(all) && nextId == old(nextId)
        invariant PrunedBelow(before, SnapsOf(all), registered, now, n)
        invariant relays == old(relays) - StaleIds(registered, before, now, n)
      {
        ghost var mid := SnapsOf(all);
        assert n in relays <==> n in registered;
        PruneOne(n, now);
        PruneStep(before, mid, SnapsOf(all), registered, now, n);
      }
      PrunedStrandsNothing(before, SnapsOf(all), registered, relays.Keys, now);
      PruneReleases(before, SnapsOf(all), registered, now);
      BooksBalance(total, SnapsOf(all));
    }

    method Register(owner: Owner, now: Time) returns (r: Relay)
      requires Valid() && |relays| < MAX_RELAYS && |OwnedBy(relays, owner)| < MAX_RELAYS_PER_OWNER
      modifies this
      ensures Valid() && fresh(r) && r.owner == owner && all == old(all) + [r]
      ensures relays == old(relays)[old(nextId) := r] && total == old(total)
      ensures r.AsCreated(now) && Stranded() == old(Stranded())
    {
      hide DirectionOk, RegistryOk, BooksOk, SnapsOf, OwnedBy, Snapshot.Ok, LoadOutside;
      r := new Relay(owner, now);
      RegistryNames(relays, all, nextId);
      AddKeepsRegistry(relays, all, nextId, r);
      SnapsAppend(all, r);
      BooksAppend(total, SnapsOf(all), r.Snap());
      OutsideAppend(SnapsOf(all), relays.Keys, r.Snap());
      assert relays[nextId := r].Keys == relays.Keys + {nextId};
      relays, nextId, all := relays[nextId := r], nextId + 1, all + [r];
    }

    /** `create_relay`: prune, then admit within the process and the owner's limits. */
    method CreateRelay(owner: Owner, now: Time) returns (result: Creation)
      requires Valid()
      modifies this, all
      ensures Valid()
      ensures PrunedBelow(old(SnapsOf(all)), SnapsOf(old(all)), old(relays).Keys, now, |old(all)|)
      ensures var kept := old(relays) - StaleIds(old(relays).Keys, old(SnapsOf(all)), now, |old(all)|);
        && (result.AtCapacity? <==> |kept| >= MAX_RELAYS)
        && (result.TooManyForOwner? <==> |kept| < MAX_RELAYS && |OwnedBy(kept, owner)| >= MAX_RELAYS_PER_OWNER)
        && relays == (if result.Created? then kept[old(nextId) := result.relay] else kept)
      ensures result.Created? ==>
        && fresh(result.relay) && result.relay.owner == owner && all == old(all) + [result.relay]
        && result.relay.AsCreated(now)
      ensures !result.Created? ==> all == old(all)
      ensures total == old(total) - StaleLoad(old(relays).Keys, old(SnapsOf(all)), now)
      ensures Stranded() == old(Stranded())
    {
      hide DirectionOk, RegistryOk, BooksOk, PrunedBelow, StaleIds, SnapsOf, Snapshot.Ok, StaleLoad, Relay.AsCreated;
      Prune(now);
      if |relays| >= MAX_RELAYS { return AtCapacity; }
      var owned := set id | id in relays && relays[id].owner == owner;
      assert owned == OwnedBy(relays, owner);
      if |owned| >= MAX_RELAYS_PER_OWNER { return TooManyForOwner; }
      var r := Register(owner, now);
      return Created(r);
    }

    /** `get_relay`. */
    method GetRelay(id: nat, now: Time) returns (r: Relay?)
      requires Valid()
      modifies this`total, this`relays, all
      ensures Valid() && all == old(all)
      ensures PrunedBelow(old(SnapsOf(all)), SnapsOf(all), old(relays).Keys, now, |all|)
      ensures relays == old(relays) - StaleIds(old(relays).Keys, old(SnapsOf(all)), now, |all|)
      ensures r != null <==> id in old(relays) && !old(relays[id].Stale(now))
      ensures r != null ==> r == old(relays)[id] && r in all && r in relays.Values && r.Snap() == old(r.Snap())
      ensures total == old(total) - StaleLoad(old(relays).Keys, old(SnapsOf(all)), now)
      ensures Stranded() == old(Stranded())
    {
      hide DirectionOk, RegistryOk, BooksOk, StaleLoad;
      RegistryNames(relays, all, nextId);
      Prune(now);
      if id !in relays { return null; }
      r := relays[id];
      assert SnapsOf(all)[id] == r.Snap();
    }

    /**
     `close_relay`: after the prune, a relay that is registered and not stale is closed with the given reason, with
     its notice queued exactly when it fits what the prune left, and nothing else is touched; an unknown one is ignored.
     */
    method CloseRelay(id: nat, reason: string, notice: string, now: Time)
      requires Valid()
      modifies this`total, this`relays, all
      ensures Valid() && all == old(all)
      ensures relays == old(relays) - StaleIds(old(relays).Keys, old(SnapsOf(all)), now, |all|)
      ensures Stranded() == old(Stranded())
      ensures var left := old(total) - StaleLoad(old(relays).Keys, old(SnapsOf(all)), now);
        if id in old(relays) && !old(relays[id].Stale(now)) then
          && id < |all|
          && PrunedBelow(old(SnapsOf(all)), SnapsOf(all)[id := old(SnapsOf(all))[id]], old(relays).Keys, now, |all|)
          && ClosedFrom(old(relays[id].Snap()), all[id].Snap(), reason, notice, left, total, now)
        else
          PrunedBelow(old(SnapsOf(all)), SnapsOf(all), old(relays).Keys, now, |all|) && total == left
    {
      hide DirectionOk, RegistryOk, BooksOk, SnapsOf, StaleIds, PrunedBelow, Snapshot.Stale, StaleLoad;
      RegistryNames(relays, all, nextId);
      ghost var before := SnapsOf(all);
      if id in relays { SnapAt(all, id); }
      var r := GetRelay(id, now);
      if r != null {
        ghost var pruned := SnapsOf(all);
        SnapAt(all, id);
        Close(r, NORMAL_CLOSURE, reason, notice, now);
        assert SnapsOf(all)[id := pruned[id]] == pruned;
        SnapAt(all, id);
      }
    }

    /**
     The end of a relay's runner, reached by return, error or cancellation.  If the relay is no longer registered,
     the closing message is what it can leave behind in the budget, once.
     */
    method RunnerEnds(r: Relay, failed: bool, reason: string, notice: string, now: Time)
      requires Valid() && r in all
      modifies this`total, r
      ensures Valid() && all == old(all) && relays == old(relays) && r.closed
      ensures StrandedMoves(r)
      ensures var size := PayloadSize(notice);
        total == old(total) +
          (if !old(r.closed) && Fits(|old(r.outgoing)|, old(r.outgoingBytes), old(total), size) then size else 0)
    {
      hide DirectionOk, RegistryOk, BooksOk, SnapsOf, LoadOutside;
      if !r.closed { Close(r, if failed then HANDLER_FAILED else NORMAL_CLOSURE, reason, notice, now); }
    }
  }

  /** A relay created and then idle past its time to live is unregistered, and it is still open. */
  method IdleRelay(owner: Owner, now: Time) returns (hub: Hub, r: Relay)
    ensures fresh(hub) && fresh(r) && hub.Valid() && hub.relays == map[] && hub.all == [r] && hub.total == 0
    ensures hub.Stranded() == 0 && !r.closed && r.outgoing == [] && r.outgoingBytes == 0
  {
    hide DirectionOk, RegistryOk, BooksOk, SnapsOf, LoadOutside, StaleLoad;
    hub := new Hub();
    assert OwnedBy(map[], owner) == {};
    var result := hub.CreateRelay(owner, now);
    r := result.relay;
    SnapAt(hub.all, 0);
    hub.Prune(now + RELAY_TTL + 1);
    SnapAt(hub.all, 0);
    hub.BudgetIsWhatIsQueued();
  }

  /**
   How the budget comes to hold bytes of no registered relay: an idle relay is pruned and its runner, cancelled by the
   prune, ends by queueing the closing message.
   */
  method StrandedBudget(owner: Owner, notice: string, now: Time) returns (hub: Hub)
    requires 0 < PayloadSize(notice) <= MAX_QUEUE_BYTES
    ensures fresh(hub) && hub.Valid() && hub.relays == map[]
    ensures hub.total == hub.Stranded() == PayloadSize(notice) > 0
  {
    hide DirectionOk, RegistryOk, BooksOk, SnapsOf, LoadOutside;
    var r: Relay;
    hub, r := IdleRelay(owner, now);
    hub.RunnerEnds(r, false, "", notice, now + RELAY_TTL + 1);
  }

  lemma SnapAt(all: seq<Relay>, k: nat)
    requires k < |all|
    ensures SnapsOf(all)[k] == all[k].Snap()
  {
  }

  lemma RegisteredIff(relays: map<nat, Relay>, all: seq<Relay>, nextId: nat, k: nat)
    requires RegistryOk(relays, all, nextId) && k < |all|
    ensures k in relays <==> all[k] in relays.Values
  {
  }

  lemma RegistryNames(relays: map<nat, Relay>, all: seq<Relay>, nextId: nat)
    requires RegistryOk(relays, all, nextId)
    ensures |all| == nextId && forall id :: id in relays ==> id < nextId && relays[id] == all[id]
  {
  }
}
