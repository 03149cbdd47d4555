/**
 Update keys and provisioning codes of one fleet: enrolment, rotation,
 recovery, revocation, and one-shot codes.

 A row's id is its position.  A key stands for its key id, and a code for the
 hash of the secret handed out with it, so the secret of a row is the row's
 own position.  Each function is one committed transaction or, when it fails,
 one that was rolled back.
 */
module UpdateCredentials {
  import opened Options

  type Time = int
  type Key = nat

  /** Clients are numbered in the order in which their rows are created. */
  type Client = nat

  const SECOND: Time := 1_000_000
  const PROVISIONING_TTL: Time := 600 * SECOND

  datatype Credential = Credential(
    client: Client, key: Key, createdAt: Time, revokedAt: Option<Time>, rotatedFrom: Option<nat>)

  datatype Purpose = Bootstrap | Recovery

  datatype Code = Code(
    client: Client, purpose: Purpose, createdAt: Time, expiresAt: Time, usedAt: Option<Time>, revokedAt: Option<Time>)
  {
    predicate Open() { usedAt.None? && revokedAt.None? }
  }

  datatype Book = Book(clients: nat, credentials: seq<Credential>, codes: seq<Code>)

  predicate ActiveFor(c: Credential, client: Client) { c.client == client && c.revokedAt.None? }

  /** `active_update_credential`. */
  function ActiveOf(cs: seq<Credential>, client: Client): (i: Option<nat>)
    ensures i.Some? ==> i.value < |cs| && ActiveFor(cs[i.value], client)
    ensures i.None? ==> forall k :: 0 <= k < |cs| ==> !ActiveFor(cs[k], client)
  {
    if cs == [] then None
    else if ActiveFor(cs[|cs| - 1], client) then Some(|cs| - 1)
    else
      var i := ActiveOf(cs[..|cs| - 1], client);
      assert i.None? ==> forall k :: 0 <= k < |cs| - 1 ==> cs[k] == cs[..|cs| - 1][k];
      i
  }

  /** A credential of the client created last. */
  function Newest(cs: seq<Credential>, client: Client): (i: Option<nat>)
    ensures i.Some? ==> i.value < |cs| && cs[i.value].client == client
    ensures i.None? ==> forall k :: 0 <= k < |cs| ==> cs[k].client != client
    ensures i.Some? ==> forall k :: 0 <= k < |cs| && cs[k].client == client ==> cs[k].createdAt <= cs[i.value].createdAt
  {
    if cs == [] then None
    else
      var last := |cs| - 1;
      var i := Newest(cs[..last], client);
      assert forall k :: 0 <= k < last ==> cs[k] == cs[..last][k];
      if cs[last].client == client && (i.None? || cs[i.value].createdAt <= cs[last].createdAt) then Some(last) else i
  }

  /** No credential of the client was created later than this one of its own. */
  predicate IsNewest(cs: seq<Credential>, client: Client, i: nat) {
    && i < |cs| && cs[i].client == client
    && forall k :: 0 <= k < |cs| && cs[k].client == client ==> cs[k].createdAt <= cs[i].createdAt
  }

  /** The row a query for the newest credential returns: of several created last the database may choose any. */
  function Picked(cs: seq<Credential>, client: Client, pick: nat): (i: Option<nat>)
    ensures i.Some? ==> IsNewest(cs, client, i.value)
    ensures i.None? ==> forall k :: 0 <= k < |cs| ==> cs[k].client != client
    ensures IsNewest(cs, client, pick) ==> i == Some(pick)
  {
    if IsNewest(cs, client, pick) then Some(pick) else Newest(cs, client)
  }

  predicate KeyKnown(cs: seq<Credential>, key: Key) {
    exists i :: 0 <= i < |cs| && cs[i].key == key
  }

  /** `create_update_credential`; `None` is its error, an active credential or a key id already in the table. */
  function Insert(cs: seq<Credential>, client: Client, key: Key, from: Option<nat>, now: Time)
    : Option<seq<Credential>>
  {
    if ActiveOf(cs, client).Some? || KeyKnown(cs, key) then None
    else Some(cs + [Credential(client, key, now, None, from)])
  }

  function RevokedAt(cs: seq<Credential>, i: nat, now: Time): seq<Credential>
    requires i < |cs|
  {
    cs[i := cs[i].(revokedAt := Some(now))]
  }

  /** The credentials with the active one of a client revoked, if there is one. */
  function Freed(cs: seq<Credential>, client: Client, now: Time): (r: seq<Credential>)
    ensures |r| == |cs|
  {
    var active := ActiveOf(cs, client);
    if active.Some? then RevokedAt(cs, active.value, now) else cs
  }

  // ---------------------------------------------------------------- transactions

  /** A client row made without an update key. */
  function Admit(b: Book): Book { b.(clients := b.clients + 1) }

  /** Fresh installation: a client row and its first key, made in one transaction. */
  function Enroll(b: Book, key: Key, now: Time): (Book, bool) {
    match Insert(b.credentials, b.clients, key, None, now)
    case None => (b, false)
    case Some(cs) => (b.(clients := b.clients + 1, credentials := cs), true)
  }

  function Closed(c: Code, client: Client, now: Time): Code {
    if c.client == client && c.Open() then c.(revokedAt := Some(now)) else c
  }

  function CloseCodes(codes: seq<Code>, client: Client, now: Time): (r: seq<Code>)
    ensures |r| == |codes|
  {
    seq(|codes|, i requires 0 <= i < |codes| => Closed(codes[i], client, now))
  }

  predicate HasHistory(cs: seq<Credential>, client: Client) {
    exists i :: 0 <= i < |cs| && cs[i].client == client
  }

  /** `create_provisioning_token`: revoke the open codes of an existing, approved client and hand out a new one. */
  function Issue(b: Book, client: Client, approved: bool, now: Time): (Book, bool) {
    if client >= b.clients || !approved then (b, false)
    else
      var purpose := if HasHistory(b.credentials, client) then Recovery else Bootstrap;
      var code := Code(client, purpose, now, now + PROVISIONING_TTL, None, None);
      (b.(codes := CloseCodes(b.codes, client, now) + [code]), true)
  }

  /** The guards of a code before anything is written. */
  predicate Usable(b: Book, code: nat, now: Time) {
    code < |b.codes| && b.codes[code].Open() && b.codes[code].expiresAt >= now
  }

  /** Which credential a consumed code succeeds. */
  function Predecessor(cs: seq<Credential>, client: Client, purpose: Purpose, pick: nat): (i: Option<nat>)
    ensures i.Some? ==> i.value < |cs| && cs[i.value].client == client
  {
    var active := ActiveOf(cs, client);
    if active.Some? then active else if purpose.Recovery? then Picked(cs, client, pick) else None
  }

  /** `consume_provisioning_token`; `pick` is the database's choice among credentials created at the same instant. */
  function Consume(b: Book, code: nat, key: Key, approved: bool, pick: nat, now: Time): (Book, bool) {
    if !Usable(b, code, now) || !approved then (b, false)
    else
      var c := b.codes[code];
      var active := ActiveOf(b.credentials, c.client);
      if c.purpose.Bootstrap? && active.Some? then (b, false)
      else
        var from := Predecessor(b.credentials, c.client, c.purpose, pick);
        var freed := Freed(b.credentials, c.client, now);
        match Insert(freed, c.client, key, from, now)
        case None => (b, false)
        case Some(cs) => (b.(credentials := cs, codes := b.codes[code := c.(usedAt := Some(now))]), true)
  }

  /** `rotate_update_credential`. */
  function Rotate(b: Book, current: nat, key: Key, now: Time): (Book, bool) {
    if current >= |b.credentials| || b.credentials[current].revokedAt.Some? || key == b.credentials[current].key
    then (b, false)
    else
      var freed := RevokedAt(b.credentials, current, now);
      match Insert(freed, b.credentials[current].client, key, Some(current), now)
      case None => (b, false)
      case Some(cs) => (b.(credentials := cs), true)
  }

  /** The administrator's revocation of a client's active credential. */
  function Revoke(b: Book, client: Client, now: Time): (Book, bool) {
    var active := ActiveOf(b.credentials, client);
    if active.None? then (b, false) else (b.(credentials := RevokedAt(b.credentials, active.value, now)), true)
  }

  datatype Command =
    | Admits
    | Enrolls(key: Key)
    | Issues(client: Client, approved: bool)
    | Consumes(code: nat, key: Key, approved: bool, pick: nat)
    | Rotates(current: nat, key: Key)
    | Revokes(client: Client)

  function Apply(b: Book, c: Command, now: Time): (Book, bool) {
    match c
    case Admits => (Admit(b), true)
    case Enrolls(key) => Enroll(b, key, now)
    case Issues(client, approved) => Issue(b, client, approved, now)
    case Consumes(code, key, approved, pick) => Consume(b, code, key, approved, pick, now)
    case Rotates(current, key) => Rotate(b, current, key, now)
    case Revokes(client) => Revoke(b, client, now)
  }

  datatype Timed = Timed(command: Command, at: Time)

  function Run(b: Book, cs: seq<Timed>): Book
    decreases |cs|
  {
    if cs == [] then b else Run(Apply(b, cs[0].command, cs[0].at).0, cs[1..])
  }

  const EMPTY := Book(0, [], [])

  // ---------------------------------------------------------------- what every transaction keeps

  /** Only a client's latest credential can be live. */
  predicate LatestLives(cs: seq<Credential>) {
    forall i, j :: 0 <= i < j < |cs| && cs[i].client == cs[j].client ==> cs[i].revokedAt.Some?
  }

  /** Only a client's first credential is a root. */
  predicate FirstIsRoot(cs: seq<Credential>) {
    forall i, j :: 0 <= i < j < |cs| && cs[i].client == cs[j].client ==> cs[j].rotatedFrom.Some?
  }

  predicate KeysDiffer(cs: seq<Credential>) {
    forall i, j :: 0 <= i < j < |cs| ==> cs[i].key != cs[j].key
  }

  /** A credential was rotated from an earlier, revoked one of the same client, if from any. */
  predicate LineageOk(cs: seq<Credential>) {
    forall i :: 0 <= i < |cs| && cs[i].rotatedFrom.Some? ==>
      var p := cs[i].rotatedFrom.value;
      p < i && cs[p].client == cs[i].client && cs[p].revokedAt.Some?
  }

  predicate CodesOk(codes: seq<Code>) {
    && (forall i, j :: 0 <= i < j < |codes| && codes[i].Open() && codes[j].Open() ==>
          codes[i].client != codes[j].client)
    && (forall i :: 0 <= i < |codes| ==> codes[i].usedAt.Some? ==> codes[i].revokedAt.None?)
  }

  predicate CredentialsOk(cs: seq<Credential>) {
    LatestLives(cs) && FirstIsRoot(cs) && KeysDiffer(cs) && LineageOk(cs)
  }

  /** Recovery codes belong to clients that had a credential before. */
  predicate RecoveriesOk(b: Book) {
    forall i :: 0 <= i < |b.codes| && b.codes[i].purpose.Recovery? ==> HasHistory(b.credentials, b.codes[i].client)
  }

  /** An open bootstrap code belongs to a client that never had a credential. */
  predicate BootstrapsOk(b: Book) {
    forall i :: 0 <= i < |b.codes| && b.codes[i].purpose.Bootstrap? && b.codes[i].Open() ==>
      !HasHistory(b.credentials, b.codes[i].client)
  }

  /** Credentials and codes belong to clients that exist. */
  predicate OwnersOk(b: Book) {
    && (forall i :: 0 <= i < |b.credentials| ==> b.credentials[i].client < b.clients)
    && (forall i :: 0 <= i < |b.codes| ==> b.codes[i].client < b.clients)
  }

  predicate Inv(b: Book) {
    CredentialsOk(b.credentials) && CodesOk(b.codes) && RecoveriesOk(b) && BootstrapsOk(b) && OwnersOk(b)
  }

  lemma RevokeKeeps(cs: seq<Credential>, i: nat, now: Time)
    requires CredentialsOk(cs) && i < |cs|
    ensures CredentialsOk(RevokedAt(cs, i, now))
    ensures ActiveFor(cs[i], cs[i].client) ==> ActiveOf(RevokedAt(cs, i, now), cs[i].client).None?
  {
  }

  lemma InsertKeeps(cs: seq<Credential>, client: Client, key: Key, from: Option<nat>, now: Time)
    requires CredentialsOk(cs) && Insert(cs, client, key, from, now).Some?
    requires if from.Some? then from.value < |cs| && cs[from.value].client == client else !HasHistory(cs, client)
    ensures CredentialsOk(Insert(cs, client, key, from, now).value)
  {
    assert from.Some? ==> !ActiveFor(cs[from.value], client);
  }

  lemma HistoryStays(cs: seq<Credential>, more: seq<Credential>, client: Client)
    requires |cs| <= |more| && forall i :: 0 <= i < |cs| ==> more[i].client == cs[i].client
    ensures HasHistory(cs, client) ==> HasHistory(more, client)
  {
    if i :| 0 <= i < |cs| && cs[i].client == client { assert more[i].client == client; }
  }

  /** Rows are only added; a revoked credential and a closed code never change; identities never change. */
  predicate Grows(b: Book, b': Book) {
    && b.clients <= b'.clients && |b.credentials| <= |b'.credentials| && |b.codes| <= |b'.codes|
    && (forall i :: 0 <= i < |b.credentials| ==>
          && b'.credentials[i].(revokedAt := b.credentials[i].revokedAt) == b.credentials[i]
          && (b.credentials[i].revokedAt.Some? ==> b'.credentials[i] == b.credentials[i]))
    && (forall i :: 0 <= i < |b.codes| ==>
          && b'.codes[i].(usedAt := b.codes[i].usedAt, revokedAt := b.codes[i].revokedAt) == b.codes[i]
          && (!b.codes[i].Open() ==> b'.codes[i] == b.codes[i]))
  }

  lemma ApplyGrows(b: Book, c: Command, now: Time)
    ensures Grows(b, Apply(b, c, now).0)
    ensures c.Issues? || |Apply(b, c, now).0.codes| == |b.codes|
  {
  }

  lemma IssueKeeps(b: Book, client: Client, approved: bool, now: Time)
    requires Inv(b)
    ensures Inv(Issue(b, client, approved, now).0)
  {
    var b' := Issue(b, client, approved, now).0;
    assert CodesOk(b'.codes);
    assert BootstrapsOk(b');
  }

  lemma EnrollKeeps(b: Book, key: Key, now: Time)
    requires Inv(b)
    ensures Inv(Enroll(b, key, now).0)
    ensures Enroll(b, key, now).1 <==> !KeyKnown(b.credentials, key)
  {
    var b' := Enroll(b, key, now).0;
    if b' != b {
      InsertKeeps(b.credentials, b.clients, key, None, now);
      OnlyOwnHistoryGrows(b.credentials, b'.credentials, b.clients);
    }
  }

  /** One more credential gives a history to its own client only. */
  lemma OnlyOwnHistoryGrows(cs: seq<Credential>, more: seq<Credential>, client: Client)
    requires |more| == |cs| + 1 && more[|cs|].client == client
    requires forall i :: 0 <= i < |cs| ==> more[i].client == cs[i].client
    ensures forall x :: HasHistory(more, x) <==> HasHistory(cs, x) || x == client
  {
    forall x ensures HasHistory(more, x) <==> HasHistory(cs, x) || x == client {
      HistoryStays(cs, more, x);
    }
  }

  /** A credential added for a client that has no open bootstrap code keeps the two rules about codes and histories. */
  lemma AddedKeeps(b: Book, b': Book, client: Client)
    requires Inv(b) && Grows(b, b') && |b'.codes| == |b.codes| && b'.clients == b.clients && client < b.clients
    requires |b'.credentials| == |b.credentials| + 1 && b'.credentials[|b.credentials|].client == client
    requires CredentialsOk(b'.credentials) && CodesOk(b'.codes)
    requires forall i :: 0 <= i < |b'.codes| && b'.codes[i].purpose.Bootstrap? && b'.codes[i].Open() ==>
      b'.codes[i].client != client
    ensures Inv(b')
  {
    OnlyOwnHistoryGrows(b.credentials, b'.credentials, client);
    hide HasHistory, CredentialsOk, CodesOk;
    assert BootstrapsOk(b');
  }

  /** Whom a code may be spent for, and what it continues. */
  lemma PredecessorIff(b: Book, code: nat, pick: nat)
    requires Inv(b) && code < |b.codes| && b.codes[code].Open()
    ensures var c := b.codes[code];
      && (c.purpose.Bootstrap? <==> !HasHistory(b.credentials, c.client))
      && (c.purpose.Bootstrap? <==> Predecessor(b.credentials, c.client, c.purpose, pick).None?)
      && (c.purpose.Bootstrap? ==> ActiveOf(b.credentials, c.client).None?)
  {
  }

  lemma FreedKeeps(cs: seq<Credential>, client: Client, now: Time)
    requires CredentialsOk(cs)
    ensures CredentialsOk(Freed(cs, client, now)) && ActiveOf(Freed(cs, client, now), client).None?
    ensures forall i :: 0 <= i < |cs| ==>
      Freed(cs, client, now)[i].client == cs[i].client && Freed(cs, client, now)[i].key == cs[i].key
    ensures forall key :: KeyKnown(Freed(cs, client, now), key) <==> KeyKnown(cs, key)
  {
    var active, r := ActiveOf(cs, client), Freed(cs, client, now);
    if active.Some? { RevokeKeeps(cs, active.value, now); }
    hide CredentialsOk;
    forall key ensures KeyKnown(r, key) <==> KeyKnown(cs, key) {
      assert forall i :: 0 <= i < |cs| ==> r[i].key == cs[i].key;
    }
  }

  lemma ConsumeKeeps(b: Book, code: nat, key: Key, approved: bool, pick: nat, now: Time)
    requires Inv(b)
    ensures Inv(Consume(b, code, key, approved, pick, now).0)
  {
    var r := Consume(b, code, key, approved, pick, now);
    if r.1 {
      var c := b.codes[code];
      PredecessorIff(b, code, pick);
      SpentCodeKeeps(b, code, now);
      ApplyGrows(b, Consumes(code, key, approved, pick), now);
      FreedKeeps(b.credentials, c.client, now);
      var freed := Freed(b.credentials, c.client, now);
      SameHistories(b.credentials, freed);
      hide CredentialsOk, Predecessor, CodesOk, HasHistory, Grows, RecoveriesOk, BootstrapsOk, ActiveOf, KeyKnown,
        Freed;
      InsertKeeps(freed, c.client, key, Predecessor(b.credentials, c.client, c.purpose, pick), now);
      AddedKeeps(b, r.0, c.client);
    }
  }

  lemma SameHistories(cs: seq<Credential>, more: seq<Credential>)
    requires |more| == |cs| && forall i :: 0 <= i < |cs| ==> more[i].client == cs[i].client
    ensures forall x :: HasHistory(more, x) <==> HasHistory(cs, x)
  {
    forall x ensures HasHistory(more, x) <==> HasHistory(cs, x) {
      HistoryStays(cs, more, x);
      HistoryStays(more, cs, x);
    }
  }

  lemma SpentCodeKeeps(b: Book, code: nat, now: Time)
    requires Inv(b) && code < |b.codes| && b.codes[code].Open()
    ensures var codes := b.codes[code := b.codes[code].(usedAt := Some(now))];
      CodesOk(codes) && forall i :: 0 <= i < |codes| && codes[i].Open() ==> codes[i].client != b.codes[code].client
  {
    hide CredentialsOk, RecoveriesOk, BootstrapsOk;
  }

  lemma RotateKeeps(b: Book, current: nat, key: Key, now: Time)
    requires Inv(b)
    ensures Inv(Rotate(b, current, key, now).0)
    ensures Rotate(b, current, key, now).1 <==>
      && current < |b.credentials| && b.credentials[current].revokedAt.None? && !KeyKnown(b.credentials, key)
  {
    if current < |b.credentials| && b.credentials[current].revokedAt.None? {
      RevokeKeeps(b.credentials, current, now);
      var freed := RevokedAt(b.credentials, current, now);
      var client := b.credentials[current].client;
      assert forall i :: 0 <= i < |freed| ==> freed[i].key == b.credentials[i].key;
      if Insert(freed, client, key, Some(current), now).Some? {
        InsertKeeps(freed, client, key, Some(current), now);
        ApplyGrows(b, Rotates(current, key), now);
        assert HasHistory(b.credentials, client);
        var b' := Rotate(b, current, key, now).0;
        hide CredentialsOk, CodesOk, Grows;
        if b' != b { AddedKeeps(b, b', client); }
      }
    }
  }

  lemma RevokingKeeps(b: Book, client: Client, now: Time)
    requires Inv(b)
    ensures Inv(Revoke(b, client, now).0)
  {
    var active := ActiveOf(b.credentials, client);
    if active.Some? {
      RevokeKeeps(b.credentials, active.value, now);
      SameHistories(b.credentials, RevokedAt(b.credentials, active.value, now));
      hide HasHistory, CredentialsOk, CodesOk;
    }
  }

  lemma ApplyKeeps(b: Book, c: Command, now: Time)
    requires Inv(b)
    ensures Inv(Apply(b, c, now).0)
  {
    hide CredentialsOk, CodesOk, RecoveriesOk, BootstrapsOk, Enroll, Issue, Consume, Rotate, Revoke;
    match c
    case Admits => AdmitKeeps(b);
    case Enrolls(key) => EnrollKeeps(b, key, now);
    case Issues(client, approved) => IssueKeeps(b, client, approved, now);
    case Consumes(code, key, approved, pick) => ConsumeKeeps(b, code, key, approved, pick, now);
    case Rotates(current, key) => RotateKeeps(b, current, key, now);
    case Revokes(client) => RevokingKeeps(b, client, now);
  }

  lemma AdmitKeeps(b: Book)
    requires Inv(b)
    ensures Inv(Admit(b))
  {
  }

  lemma {:induction false} RunKeeps(b: Book, cs: seq<Timed>)
    requires Inv(b)
    ensures Inv(Run(b, cs))
    decreases |cs|
  {
    hide Inv, Apply;
    if cs != [] {
      ApplyKeeps(b, cs[0].command, cs[0].at);
      RunKeeps(Apply(b, cs[0].command, cs[0].at).0, cs[1..]);
    }
  }

  /** At every moment of every run: one live credential and one open code for each client, and keys used once. */
  lemma OneOfEach(cs: seq<Timed>)
    ensures var b := Run(EMPTY, cs);
      && (forall i, j | 0 <= i < j < |b.credentials| ::
            && b.credentials[i].key != b.credentials[j].key
            && (b.credentials[i].client != b.credentials[j].client
                || b.credentials[i].revokedAt.Some? || b.credentials[j].revokedAt.Some?))
      && (forall i, j | 0 <= i < j < |b.codes| ::
            b.codes[i].client != b.codes[j].client || !b.codes[i].Open() || !b.codes[j].Open())
  {
    RunKeeps(EMPTY, cs);
  }

  lemma {:induction false} RunGrows(b: Book, cs: seq<Timed>)
    ensures Grows(b, Run(b, cs))
    decreases |cs|
  {
    hide Apply;
    if cs != [] {
      ApplyGrows(b, cs[0].command, cs[0].at);
      RunGrows(Apply(b, cs[0].command, cs[0].at).0, cs[1..]);
    }
  }

  // ---------------------------------------------------------------- the lineage of a credential

  /** In every run a client's first credential is its only root. */
  lemma OneRoot(cs: seq<Timed>, i: nat, j: nat)
    requires i < |Run(EMPTY, cs).credentials| && j < |Run(EMPTY, cs).credentials|
    requires var rows := Run(EMPTY, cs).credentials;
      rows[i].client == rows[j].client && rows[i].rotatedFrom.None? && rows[j].rotatedFrom.None?
    ensures i == j
  {
    RunKeeps(EMPTY, cs);
  }

  /** The credential and all it was rotated from, latest first. */
  function Ancestry(cs: seq<Credential>, i: nat): (line: seq<nat>)
    requires LineageOk(cs) && i < |cs|
    ensures line != [] && line[0] == i
    decreases i
  {
    match cs[i].rotatedFrom
    case None => [i]
    case Some(p) => [i] + Ancestry(cs, p)
  }

  /** Each entry of a line was rotated from the next one, which is earlier, revoked and of the same client. */
  predicate Descends(cs: seq<Credential>, line: seq<nat>, client: Client) {
    && (forall j :: 0 <= j < |line| ==> line[j] < |cs| && cs[line[j]].client == client)
    && (forall j :: 0 < j < |line| ==>
          line[j] < line[j - 1] && cs[line[j - 1]].rotatedFrom == Some(line[j]) && cs[line[j]].revokedAt.Some?)
  }

  lemma DescendsFrom(cs: seq<Credential>, i: nat, rest: seq<nat>)
    requires LineageOk(cs) && i < |cs| && rest != [] && cs[i].rotatedFrom == Some(rest[0])
    requires Descends(cs, rest, cs[i].client)
    ensures Descends(cs, [i] + rest, cs[i].client)
  {
  }

  /** Following `rotatedFrom` ends at a root through ever earlier, revoked credentials of the same client. */
  lemma {:induction false} AncestryDescends(cs: seq<Credential>, i: nat)
    requires LineageOk(cs) && i < |cs|
    ensures var line := Ancestry(cs, i);
      Descends(cs, line, cs[i].client) && line[|line| - 1] < |cs| && cs[line[|line| - 1]].rotatedFrom.None?
    decreases i
  {
    if cs[i].rotatedFrom.Some? {
      var p := cs[i].rotatedFrom.value;
      AncestryDescends(cs, p);
      hide Descends;
      DescendsFrom(cs, i, Ancestry(cs, p));
    }
  }

  /** The client's credential inserted last. */
  function LastOf(cs: seq<Credential>, client: Client): (i: Option<nat>)
    ensures i.Some? ==> i.value < |cs| && cs[i.value].client == client
    ensures i.Some? ==> forall k :: i.value < k < |cs| ==> cs[k].client != client
    ensures i.None? ==> forall k :: 0 <= k < |cs| ==> cs[k].client != client
  {
    if cs == [] then None
    else if cs[|cs| - 1].client == client then Some(|cs| - 1)
    else
      var i := LastOf(cs[..|cs| - 1], client);
      assert forall k :: 0 <= k < |cs| - 1 ==> cs[k] == cs[..|cs| - 1][k];
      i
  }

  /** Every credential continues its client's previous one, if there is one. */
  predicate Chained(cs: seq<Credential>) {
    forall i :: 0 <= i < |cs| ==> cs[i].rotatedFrom == LastOf(cs[..i], cs[i].client)
  }

  /** The client's credential inserted last was created later than all its others. */
  predicate LastIsNewest(cs: seq<Credential>, client: Client) {
    var l := LastOf(cs, client);
    l.Some? ==> forall k :: 0 <= k < |cs| && cs[k].client == client && k != l.value ==>
      cs[k].createdAt < cs[l.value].createdAt
  }

  /** Whatever row the database picks is the one inserted last, exactly when that one is strictly the newest. */
  lemma EveryPickIsLastIff(cs: seq<Credential>, client: Client)
    ensures (forall pick :: Picked(cs, client, pick) == LastOf(cs, client)) <==> LastIsNewest(cs, client)
  {
    if LastIsNewest(cs, client) {
      forall pick ensures Picked(cs, client, pick) == LastOf(cs, client) { PickIsLast(cs, client, pick); }
    } else {
      var l := LastOf(cs, client).value;
      var m := Newest(cs, client).value;
      if m == l {
        var k :| 0 <= k < |cs| && cs[k].client == client && k != l && cs[k].createdAt >= cs[l].createdAt;
        assert Picked(cs, client, k) == Some(k);
      } else {
        assert Picked(cs, client, m) == Some(m);
      }
    }
  }

  lemma PickIsLast(cs: seq<Credential>, client: Client, pick: nat)
    requires LastIsNewest(cs, client)
    ensures Picked(cs, client, pick) == LastOf(cs, client)
  {
  }

  lemma ActiveIsLast(cs: seq<Credential>, client: Client)
    requires LatestLives(cs) && ActiveOf(cs, client).Some?
    ensures ActiveOf(cs, client) == LastOf(cs, client)
  {
    var a, l := ActiveOf(cs, client).value, LastOf(cs, client).value;
    assert a <= l;
  }

  lemma {:induction false} LastOfSame(cs: seq<Credential>, more: seq<Credential>, client: Client)
    requires |more| == |cs| && forall i :: 0 <= i < |cs| ==> more[i].client == cs[i].client
    ensures LastOf(more, client) == LastOf(cs, client)
  {
    if cs != [] { LastOfSame(cs[..|cs| - 1], more[..|cs| - 1], client); }
  }

  /** Rows kept up to revocation, and at most one row more. */
  predicate Extends(cs: seq<Credential>, more: seq<Credential>) {
    && |cs| <= |more| <= |cs| + 1
    && forall i :: 0 <= i < |cs| ==> more[i].(revokedAt := cs[i].revokedAt) == cs[i]
  }

  lemma PrefixLastOf(cs: seq<Credential>, more: seq<Credential>, i: nat, client: Client)
    requires Extends(cs, more) && i <= |cs|
    ensures LastOf(more[..i], client) == LastOf(cs[..i], client)
  {
    hide LastOf;
    LastOfSame(cs[..i], more[..i], client);
  }

  /** Revocations and one credential that continues the client's last one keep the chains. */
  lemma ChainGrows(cs: seq<Credential>, more: seq<Credential>)
    requires Chained(cs) && Extends(cs, more)
    requires |more| > |cs| ==> more[|cs|].rotatedFrom == LastOf(cs, more[|cs|].client)
    ensures Chained(more)
  {
    hide LastOf;
    forall i | 0 <= i < |more| ensures more[i].rotatedFrom == LastOf(more[..i], more[i].client) {
      PrefixLastOf(cs, more, i, more[i].client);
      if i == |cs| { assert cs[..i] == cs; }
    }
  }

  /** The command with another choice of the database. */
  function Picking(c: Command, pick: nat): Command {
    match c
    case Consumes(code, key, approved, _) => Consumes(code, key, approved, pick)
    case _ => c
  }

  /** A code about to be spent for a client without a live credential whose last one is not strictly the newest. */
  predicate CanSkipLast(b: Book, c: Command, now: Time) {
    && c.Consumes? && Usable(b, c.code, now) && c.approved && !KeyKnown(b.credentials, c.key)
    && ActiveOf(b.credentials, b.codes[c.code].client).None?
    && !LastIsNewest(b.credentials, b.codes[c.code].client)
  }

  /** The credential an accepted command adds, if any, continues its client's last one. */
  predicate Continues(b: Book, c: Command, now: Time) {
    c.Consumes? && Apply(b, c, now).1 ==>
      var client := b.codes[c.code].client;
      Predecessor(b.credentials, client, b.codes[c.code].purpose, c.pick) == LastOf(b.credentials, client)
  }

  /** A transaction keeps the chains whichever row the database picks, exactly when it cannot skip the last one. */
  lemma ChainedIff(b: Book, c: Command, now: Time)
    requires Inv(b) && Chained(b.credentials)
    ensures (forall pick :: Chained(Apply(b, Picking(c, pick), now).0.credentials)) <==> !CanSkipLast(b, c, now)
  {
    forall pick
      ensures Chained(Apply(b, Picking(c, pick), now).0.credentials) <==> Continues(b, Picking(c, pick), now)
    {
      ChainedIfContinues(b, Picking(c, pick), now);
    }
    hide Chained;
    ContinuesIff(b, c, now);
  }

  lemma ContinuesIff(b: Book, c: Command, now: Time)
    requires Inv(b)
    ensures (forall pick :: Continues(b, Picking(c, pick), now)) <==> !CanSkipLast(b, c, now)
  {
    if c.Consumes? && Usable(b, c.code, now) {
      var code := b.codes[c.code];
      EveryPickIsLastIff(b.credentials, code.client);
      forall pick
        ensures Continues(b, Picking(c, pick), now) <==>
          !c.approved || KeyKnown(b.credentials, c.key) || ActiveOf(b.credentials, code.client).Some?
          || Picked(b.credentials, code.client, pick) == LastOf(b.credentials, code.client)
      {
        ConsumeIff(b, c.code, c.key, c.approved, pick, now);
        ConsumedContinues(b, c.code, pick);
      }
    }
  }

  lemma ConsumedContinues(b: Book, code: nat, pick: nat)
    requires Inv(b) && code < |b.codes| && b.codes[code].Open()
    ensures var c := b.codes[code];
      Predecessor(b.credentials, c.client, c.purpose, pick) == LastOf(b.credentials, c.client)
      <==> ActiveOf(b.credentials, c.client).Some?
           || Picked(b.credentials, c.client, pick) == LastOf(b.credentials, c.client)
  {
    PredecessorIff(b, code, pick);
    var c := b.codes[code];
    if ActiveOf(b.credentials, c.client).Some? { ActiveIsLast(b.credentials, c.client); }
    if c.purpose.Bootstrap? { assert LastOf(b.credentials, c.client).None?; }
  }

  lemma ChainedIfContinues(b: Book, c: Command, now: Time)
    requires Inv(b) && Chained(b.credentials)
    ensures Chained(Apply(b, c, now).0.credentials) <==> Continues(b, c, now)
  {
    var cs, more := b.credentials, Apply(b, c, now).0.credentials;
    ApplyGrows(b, c, now);
    assert Extends(cs, more);
    AddedIff(b, c, now);
    hide Inv, Apply, Continues;
    if |more| == |cs| || more[|cs|].rotatedFrom == LastOf(cs, more[|cs|].client) {
      ChainGrows(cs, more);
    } else {
      PrefixLastOf(cs, more, |cs|, more[|cs|].client);
      assert cs[..|cs|] == cs;
    }
  }

  /** The credential a transaction adds. */
  lemma AddedIff(b: Book, c: Command, now: Time)
    requires Inv(b)
    ensures var cs, n := Apply(b, c, now).0.credentials, |b.credentials|;
      if |cs| > n then
        && |cs| == n + 1 && cs[n].createdAt == now
        && (cs[n].rotatedFrom == LastOf(b.credentials, cs[n].client) <==> Continues(b, c, now))
      else |cs| == n && Continues(b, c, now)
  {
    hide CodesOk, RecoveriesOk, BootstrapsOk;
    match c
    case Enrolls(key) => assert LastOf(b.credentials, b.clients).None?;
    case Rotates(current, key) => CurrentIsLast(b.credentials, current);
    case _ =>
  }

  lemma CurrentIsLast(cs: seq<Credential>, current: nat)
    requires LatestLives(cs)
    ensures current < |cs| && cs[current].revokedAt.None? ==> LastOf(cs, cs[current].client) == Some(current)
  {
  }

  // ---------------------------------------------------------------- chains over whole runs

  /** The same run with other choices of the database. */
  function WithPicks(cs: seq<Timed>, picks: seq<nat>): (r: seq<Timed>)
    requires |picks| == |cs|
    ensures |r| == |cs|
  {
    seq(|cs|, i requires 0 <= i < |cs| => Timed(Picking(cs[i].command, picks[i]), cs[i].at))
  }

  /** At no moment of the run can a transaction skip a client's last credential. */
  predicate NeverSkips(b: Book, cs: seq<Timed>)
    decreases |cs|
  {
    cs == [] ||
    (!CanSkipLast(b, cs[0].command, cs[0].at) && NeverSkips(Apply(b, cs[0].command, cs[0].at).0, cs[1..]))
  }

  /** Then the choices of the database do not matter. */
  lemma PickDoesNotMatter(b: Book, c: Command, pick: nat, now: Time)
    requires Inv(b) && !CanSkipLast(b, c, now)
    ensures Apply(b, Picking(c, pick), now) == Apply(b, c, now)
  {
    if c.Consumes? && Usable(b, c.code, now) {
      var code := b.codes[c.code];
      ConsumeIff(b, c.code, c.key, c.approved, pick, now);
      ConsumeIff(b, c.code, c.key, c.approved, c.pick, now);
      PredecessorIff(b, c.code, pick);
      if LastIsNewest(b.credentials, code.client) {
        PickIsLast(b.credentials, code.client, pick);
        PickIsLast(b.credentials, code.client, c.pick);
      }
    }
  }

  lemma {:induction false} NeverSkipsChains(b: Book, cs: seq<Timed>, picks: seq<nat>)
    requires Inv(b) && Chained(b.credentials) && NeverSkips(b, cs) && |picks| == |cs|
    ensures Run(b, WithPicks(cs, picks)) == Run(b, cs)
    ensures Inv(Run(b, cs)) && Chained(Run(b, cs).credentials)
    decreases |cs|
  {
    hide Inv, Apply, Chained, CanSkipLast;
    if cs != [] {
      var c, at := cs[0].command, cs[0].at;
      ApplyKeeps(b, c, at);
      PickDoesNotMatter(b, c, picks[0], at);
      ChainedIff(b, c, at);
      assert Chained(Apply(b, Picking(c, picks[0]), at).0.credentials);
      assert WithPicks(cs, picks)[1..] == WithPicks(cs[1..], picks[1..]);
      NeverSkipsChains(Apply(b, c, at).0, cs[1..], picks[1..]);
    }
  }

  lemma BrokenStays(b: Book, cs: seq<Timed>)
    requires !Chained(b.credentials)
    ensures !Chained(Run(b, cs).credentials)
  {
    var rows, more := b.credentials, Run(b, cs).credentials;
    RunGrows(b, cs);
    var i :| 0 <= i < |rows| && rows[i].rotatedFrom != LastOf(rows[..i], rows[i].client);
    hide LastOf;
    LastOfSame(rows[..i], more[..i], rows[i].client);
    assert more[i].rotatedFrom != LastOf(more[..i], more[i].client);
  }

  /** A run that can skip a client's last credential breaks a chain with some choices of the database. */
  lemma {:induction false} SkipBreaks(b: Book, cs: seq<Timed>) returns (picks: seq<nat>)
    requires Inv(b) && Chained(b.credentials) && !NeverSkips(b, cs)
    ensures |picks| == |cs| && !Chained(Run(b, WithPicks(cs, picks)).credentials)
    decreases |cs|
  {
    hide Inv, Apply, Chained, CanSkipLast;
    var c, at := cs[0].command, cs[0].at;
    ChainedIff(b, c, at);
    if CanSkipLast(b, c, at) {
      var pick :| !Chained(Apply(b, Picking(c, pick), at).0.credentials);
      picks := [pick] + seq(|cs| - 1, i => 0);
      BrokenStays(Apply(b, Picking(c, pick), at).0, WithPicks(cs, picks)[1..]);
    } else {
      PickDoesNotMatter(b, c, 0, at);
      ApplyKeeps(b, c, at);
      assert Chained(Apply(b, Picking(c, 0), at).0.credentials);
      var rest := SkipBreaks(Apply(b, c, at).0, cs[1..]);
      picks := [0] + rest;
      assert WithPicks(cs, picks)[1..] == WithPicks(cs[1..], rest);
    }
  }

  /** A run keeps one chain for each client whatever the database picks, exactly when it never can skip a last one. */
  lemma AlwaysChainedIff(cs: seq<Timed>)
    ensures (forall picks: seq<nat> | |picks| == |cs| :: Chained(Run(EMPTY, WithPicks(cs, picks)).credentials))
      <==> NeverSkips(EMPTY, cs)
  {
    assert Chained(EMPTY.credentials) && Inv(EMPTY);
    hide Run, NeverSkips, Chained, Inv;
    if NeverSkips(EMPTY, cs) {
      forall picks: seq<nat> | |picks| == |cs| ensures Chained(Run(EMPTY, WithPicks(cs, picks)).credentials) {
        NeverSkipsChains(EMPTY, cs, picks);
      }
    } else {
      var picks := SkipBreaks(EMPTY, cs);
    }
  }

  /** Every credential was created after those before it. */
  predicate InOrder(cs: seq<Credential>, clock: Time) {
    && (forall i, j :: 0 <= i < j < |cs| ==> cs[i].createdAt < cs[j].createdAt)
    && (forall i :: 0 <= i < |cs| ==> cs[i].createdAt <= clock)
  }

  /** The clock moves on from transaction to transaction. */
  predicate InTime(clock: Time, cs: seq<Timed>)
    decreases |cs|
  {
    cs == [] || (clock < cs[0].at && InTime(cs[0].at, cs[1..]))
  }

  lemma OrderGrows(b: Book, c: Command, clock: Time, now: Time)
    requires Inv(b) && InOrder(b.credentials, clock) && clock < now
    ensures InOrder(Apply(b, c, now).0.credentials, now)
  {
    ApplyGrows(b, c, now);
    AddedIff(b, c, now);
    hide Inv, Apply, Continues, LastOf, InOrder;
    LaterStaysInOrder(b.credentials, Apply(b, c, now).0.credentials, clock, now);
  }

  lemma LaterStaysInOrder(cs: seq<Credential>, more: seq<Credential>, clock: Time, now: Time)
    requires InOrder(cs, clock) && clock < now && Extends(cs, more)
    requires |more| > |cs| ==> more[|cs|].createdAt == now
    ensures InOrder(more, now)
  {
  }

  lemma NoSkipInOrder(b: Book, c: Command, clock: Time, now: Time)
    requires Inv(b) && InOrder(b.credentials, clock)
    ensures !CanSkipLast(b, c, now)
  {
    if c.Consumes? && c.code < |b.codes| { assert LastIsNewest(b.credentials, b.codes[c.code].client); }
  }

  /** While the clock moves on from transaction to transaction, no run skips a last credential. */
  lemma {:induction false} MovingClockNeverSkips(b: Book, cs: seq<Timed>, clock: Time)
    requires Inv(b) && InOrder(b.credentials, clock) && InTime(clock, cs)
    ensures NeverSkips(b, cs)
    decreases |cs|
  {
    hide Inv, Apply, InOrder, CanSkipLast;
    if cs != [] {
      ApplyKeeps(b, cs[0].command, cs[0].at);
      NoSkipInOrder(b, cs[0].command, clock, cs[0].at);
      OrderGrows(b, cs[0].command, clock, cs[0].at);
      MovingClockNeverSkips(Apply(b, cs[0].command, cs[0].at).0, cs[1..], cs[0].at);
    }
  }

  /** A chained table's lines miss nothing: a credential's line holds every earlier credential of its client. */
  lemma {:induction false} LineIsWhole(cs: seq<Credential>, i: nat, k: nat)
    requires LineageOk(cs) && Chained(cs) && k <= i < |cs| && cs[k].client == cs[i].client
    ensures k in Ancestry(cs, i)
    decreases i
  {
    if k < i {
      assert cs[..i][k].client == cs[i].client;
      var p := LastOf(cs[..i], cs[i].client).value;
      assert k <= p;
      LineIsWhole(cs, p, k);
    }
  }

  /** In a run that never skips, a credential's line is all its client had up to it: one chain, no forks. */
  lemma OneChain(cs: seq<Timed>, i: nat)
    requires NeverSkips(EMPTY, cs) && i < |Run(EMPTY, cs).credentials|
    ensures var rows := Run(EMPTY, cs).credentials;
      && LineageOk(rows) && Descends(rows, Ancestry(rows, i), rows[i].client)
      && forall k :: k in Ancestry(rows, i) <==> 0 <= k <= i && rows[k].client == rows[i].client
  {
    NeverSkipsChains(EMPTY, cs, seq(|cs|, i => 0));
    var rows := Run(EMPTY, cs).credentials;
    hide Run, Inv, NeverSkips, Chained;
    AncestryDescends(rows, i);
    forall k | 0 <= k <= i && rows[k].client == rows[i].client ensures k in Ancestry(rows, i) {
      LineIsWhole(rows, i, k);
    }
    LineIsBelow(rows, Ancestry(rows, i), rows[i].client);
  }

  /**
   A key enrolled at `t` is rotated at 5, the new one is revoked, and a recovery code is spent, for which the database
   picks row 0 if it may.
   */
  function ForkMoves(t: Time): seq<Timed> {
    [Timed(Enrolls(1), t), Timed(Rotates(0, 2), 5), Timed(Revokes(0), 6), Timed(Issues(0, true), 7),
     Timed(Consumes(0, 3, true, 0), 8)]
  }

  predicate Forked(cs: seq<Credential>) {
    exists i, j :: 0 <= i < j < |cs| && cs[i].rotatedFrom.Some? && cs[i].rotatedFrom == cs[j].rotatedFrom
  }

  lemma ForkAt(t: Time)
    requires t >= 5
    ensures Forked(Run(EMPTY, ForkMoves(t)).credentials)
  {
    var moves, rows := ForkMoves(t), Run(EMPTY, ForkMoves(t)).credentials;
    assert |rows| == 3 && rows[1].rotatedFrom == rows[2].rotatedFrom == Some(0) by {
      ForkStarts(t, moves);
      ForkEnds(t, moves[3..]);
    }
  }

  /** A clock set back makes a fork. */
  lemma ForkWhenClockGoesBack()
    ensures exists cs: seq<Timed> :: |cs| > 1 && cs[0].at > cs[1].at && Forked(Run(EMPTY, cs).credentials)
  {
    ForkAt(10);
    hide Run, Forked;
    assert ForkMoves(10)[0].at > ForkMoves(10)[1].at;
  }

  /** So can two credentials created at the same instant, although the clock never goes back. */
  lemma ForkAtEqualInstants()
    ensures exists cs: seq<Timed> ::
      (forall i, j :: 0 <= i < j < |cs| ==> cs[i].at <= cs[j].at) && Forked(Run(EMPTY, cs).credentials)
  {
    ForkAt(5);
    hide Run, Forked;
    var cs := ForkMoves(5);
    assert forall i, j :: 0 <= i < j < |cs| ==> cs[i].at <= cs[j].at;
  }

  lemma RunUnfolds(b: Book, cs: seq<Timed>)
    requires cs != []
    ensures Run(b, cs) == Run(Apply(b, cs[0].command, cs[0].at).0, cs[1..])
  {
  }

  function ForkRoot(t: Time): Credential { Credential(0, 1, t, Some(5), None) }
  const FORK_BRANCH := Credential(0, 2, 5, Some(6), Some(0))

  lemma ForkSteps(t: Time)
    ensures Enroll(EMPTY, 1, t).0 == Book(1, [ForkRoot(t).(revokedAt := None)], [])
    ensures Rotate(Book(1, [ForkRoot(t).(revokedAt := None)], []), 0, 2, 5).0
         == Book(1, [ForkRoot(t), FORK_BRANCH.(revokedAt := None)], [])
    ensures Revoke(Book(1, [ForkRoot(t), FORK_BRANCH.(revokedAt := None)], []), 0, 6).0
         == Book(1, [ForkRoot(t), FORK_BRANCH], [])
  {
    assert RevokedAt([ForkRoot(t).(revokedAt := None)], 0, 5) == [ForkRoot(t)];
    assert !KeyKnown([ForkRoot(t)], 2);
  }

  lemma ForkStarts(t: Time, moves: seq<Timed>)
    requires |moves| >= 3
    requires moves[0] == Timed(Enrolls(1), t) && moves[1] == Timed(Rotates(0, 2), 5)
    requires moves[2] == Timed(Revokes(0), 6)
    ensures Run(EMPTY, moves) == Run(Book(1, [ForkRoot(t), FORK_BRANCH], []), moves[3..])
  {
    ForkSteps(t);
    hide Enroll, Rotate, Revoke, Run;
    RunUnfolds(EMPTY, moves);
    RunUnfolds(Book(1, [ForkRoot(t).(revokedAt := None)], []), moves[1..]);
    RunUnfolds(Book(1, [ForkRoot(t), FORK_BRANCH.(revokedAt := None)], []), moves[2..]);
    assert moves[1..][1..] == moves[2..] && moves[2..][1..] == moves[3..];
  }

  lemma ForkEnds(t: Time, moves: seq<Timed>)
    requires t >= 5 && moves == [Timed(Issues(0, true), 7), Timed(Consumes(0, 3, true, 0), 8)]
    ensures var rows := Run(Book(1, [ForkRoot(t), FORK_BRANCH], []), moves).credentials;
      rows == [ForkRoot(t), FORK_BRANCH, Credential(0, 3, 8, None, Some(0))]
  {
    var rows := [ForkRoot(t), FORK_BRANCH];
    var code := Code(0, Recovery, 7, 7 + PROVISIONING_TTL, None, None);
    assert Issue(Book(1, rows, []), 0, true, 7).0 == Book(1, rows, [code]) by {
      assert HasHistory(rows, 0) by { assert rows[0].client == 0; }
      assert CloseCodes([], 0, 7) == [];
    }
    assert Consume(Book(1, rows, [code]), 0, 3, true, 0, 8).0.credentials
        == rows + [Credential(0, 3, 8, None, Some(0))] by {
      assert Picked(rows, 0, 0) == Some(0) by { assert IsNewest(rows, 0, 0); }
      assert !KeyKnown(rows, 3);
    }
    hide Issue, Consume;
    RunUnfolds(Book(1, rows, []), moves);
    RunUnfolds(Book(1, rows, [code]), moves[1..]);
    assert moves[1..][1..] == [];
    var b := Apply(Book(1, rows, [code]), moves[1].command, moves[1].at).0;
    assert Run(b, []) == b;
  }

  lemma {:induction false} LineIsBelow(cs: seq<Credential>, line: seq<nat>, client: Client)
    requires Descends(cs, line, client) && line != []
    ensures forall k :: k in line ==> k <= line[0] && k < |cs| && cs[k].client == client
  {
    if |line| > 1 {
      LineIsBelow(cs, line[1..], client);
      assert line == [line[0]] + line[1..];
    }
  }

  // ---------------------------------------------------------------- codes

  /**
   A code is accepted exactly under these conditions, and then it is used.  That a bootstrap code must not replace a
   live credential never matters: its client has none.
   */
  lemma ConsumeIff(b: Book, code: nat, key: Key, approved: bool, pick: nat, now: Time)
    requires Inv(b)
    ensures Consume(b, code, key, approved, pick, now).1 <==>
      Usable(b, code, now) && approved && !KeyKnown(b.credentials, key)
    ensures Consume(b, code, key, approved, pick, now).1 ==>
      !Consume(b, code, key, approved, pick, now).0.codes[code].Open()
  {
    if Usable(b, code, now) && approved {
      PredecessorIff(b, code, pick);
      FreedKeeps(b.credentials, b.codes[code].client, now);
    }
  }

  /** A code starts a client's line of credentials exactly when the client has none, that is for a bootstrap code. */
  lemma RootIffBootstrap(b: Book, code: nat, key: Key, approved: bool, pick: nat, now: Time)
    requires Inv(b) && Consume(b, code, key, approved, pick, now).1
    ensures var cs, c := Consume(b, code, key, approved, pick, now).0.credentials, b.codes[code];
      && |cs| == |b.credentials| + 1 && cs[|cs| - 1].client == c.client && cs[|cs| - 1].key == key
      && cs[|cs| - 1].revokedAt.None?
      && (cs[|cs| - 1].rotatedFrom.None? <==> c.purpose.Bootstrap?)
      && (c.purpose.Bootstrap? <==> !HasHistory(b.credentials, c.client))
  {
    PredecessorIff(b, code, pick);
  }

  predicate Spends(b: Book, t: Timed, code: nat) {
    t.command.Consumes? && t.command.code == code && Apply(b, t.command, t.at).1
  }

  /** How often a run spends a code. */
  function Spendings(b: Book, cs: seq<Timed>, code: nat): nat
    decreases |cs|
  {
    if cs == [] then 0
    else
      (if Spends(b, cs[0], code) then 1 else 0) + Spendings(Apply(b, cs[0].command, cs[0].at).0, cs[1..], code)
  }

  lemma {:induction false} SpentAtMostOnce(b: Book, cs: seq<Timed>, code: nat)
    ensures Spendings(b, cs, code) <= 1
    ensures code < |b.codes| && !b.codes[code].Open() ==> Spendings(b, cs, code) == 0
    decreases |cs|
  {
    if cs != [] {
      ApplyGrows(b, cs[0].command, cs[0].at);
      SpendCloses(b, cs[0], code);
      hide Apply, Grows, Spends;
      SpentAtMostOnce(Apply(b, cs[0].command, cs[0].at).0, cs[1..], code);
    }
  }

  lemma SpendCloses(b: Book, t: Timed, code: nat)
    ensures var b' := Apply(b, t.command, t.at).0;
      && (Spends(b, t, code) ==> code < |b.codes| && b.codes[code].Open() && !b'.codes[code].Open())
      && (code < |b.codes| && !b.codes[code].Open() ==> code < |b'.codes| && !b'.codes[code].Open())
  {
    ApplyGrows(b, t.command, t.at);
  }

  // ---------------------------------------------------------------- the tables themselves

  class CredentialStore {
    var clients: nat
    var credentials: seq<Credential>
    var codes: seq<Code>

    ghost function Rows(): Book
      reads this
    {
      Book(clients, credentials, codes)
    }

    ghost predicate Valid()
      reads this
    {
      Inv(Rows())
    }

    constructor ()
      ensures Valid() && Rows() == EMPTY
    {
      clients, credentials, codes := 0, [], [];
    }

    /** `create_update_credential`. */
    method CreateCredential(client: Client, key: Key, from: Option<nat>, now: Time) returns (ok: bool)
      modifies this`credentials
      ensures ok <==> Insert(old(credentials), client, key, from, now).Some?
      ensures credentials == (if ok then Insert(old(credentials), client, key, from, now).value else old(credentials))
    {
      if ActiveOf(credentials, client).Some? || KeyKnown(credentials, key) { return false; }
      credentials := credentials + [Credential(client, key, now, None, from)];
      return true;
    }

    method AdmitClient() returns (client: Client)
      requires Valid()
      modifies this`clients
      ensures Valid() && Rows() == Admit(old(Rows())) && client == old(clients)
    {
      AdmitKeeps(Rows());
      hide Inv;
      client, clients := clients, clients + 1;
    }

    /** The client row and its key are made in one transaction, or neither is. */
    method EnrollClient(key: Key, now: Time) returns (client: Option<Client>)
      requires Valid()
      modifies this
      ensures Valid() && (Rows(), client.Some?) == Enroll(old(Rows()), key, now)
      ensures client == if KeyKnown(old(credentials), key) then None else Some(old(clients))
    {
      EnrollKeeps(Rows(), key, now);
      hide Inv, Insert;
      clients := clients + 1;
      var ok := CreateCredential(clients - 1, key, None, now);
      if !ok {
        clients := clients - 1;
        return None;
      }
      return Some(clients - 1);
    }

    method CreateProvisioningToken(client: Client, approved: bool, now: Time) returns (code: Option<nat>)
      requires Valid()
      modifies this`codes
      ensures Valid() && (Rows(), code.Some?) == Issue(old(Rows()), client, approved, now)
      ensures code.Some? ==> code.value == |old(codes)|
    {
      IssueKeeps(Rows(), client, approved, now);
      hide Inv;
      if client >= clients || !approved { return None; }
      for i := 0 to |codes|
        invariant |codes| == |old(codes)|
        invariant forall k :: 0 <= k < |codes| ==>
          codes[k] == if k < i then Closed(old(codes)[k], client, now) else old(codes)[k]
      {
        if codes[i].client == client && codes[i].Open() {
          codes := codes[i := codes[i].(revokedAt := Some(now))];
        }
      }
      assert codes == CloseCodes(old(codes), client, now);
      var purpose := if HasHistory(credentials, client) then Recovery else Bootstrap;
      code := Some(|codes|);
      codes := codes + [Code(client, purpose, now, now + PROVISIONING_TTL, None, None)];
    }

    /** A refused key leaves the transaction rolled back, the predecessor's revocation included. */
    method ConsumeProvisioningToken(code: nat, key: Key, approved: bool, pick: nat, now: Time)
      returns (ok: bool)
      requires Valid()
      modifies this
      ensures Valid() && (Rows(), ok) == Consume(old(Rows()), code, key, approved, pick, now)
    {
      ApplyKeeps(Rows(), Consumes(code, key, approved, pick), now);
      hide Inv, Insert;
      if !(code < |codes| && codes[code].Open() && codes[code].expiresAt >= now) || !approved { return false; }
      var token := codes[code];
      var active := ActiveOf(credentials, token.client);
      if token.purpose.Bootstrap? && active.Some? { return false; }
      var predecessor := active;
      if predecessor.None? && token.purpose.Recovery? { predecessor := Picked(credentials, token.client, pick); }
      var saved := credentials;
      if active.Some? {
        credentials := credentials[active.value := credentials[active.value].(revokedAt := Some(now))];
      }
      ok := CreateCredential(token.client, key, predecessor, now);
      if !ok {
        credentials := saved;
        return;
      }
      codes := codes[code := token.(usedAt := Some(now))];
    }

    method RotateCredential(current: nat, key: Key, now: Time) returns (ok: bool)
      requires Valid()
      modifies this
      ensures Valid() && (Rows(), ok) == Rotate(old(Rows()), current, key, now)
    {
      ApplyKeeps(Rows(), Rotates(current, key), now);
      hide Inv, Insert;
      if current >= |credentials| || credentials[current].revokedAt.Some? { return false; }
      var locked := credentials[current];
      if key == locked.key { return false; }
      var saved := credentials;
      credentials := credentials[current := locked.(revokedAt := Some(now))];
      ok := CreateCredential(locked.client, key, Some(current), now);
      if !ok { credentials := saved; }
    }

    method RevokeCredential(client: Client, now: Time) returns (ok: bool)
      requires Valid()
      modifies this
      ensures Valid() && (Rows(), ok) == Revoke(old(Rows()), client, now)
    {
      ApplyKeeps(Rows(), Revokes(client), now);
      hide Inv;
      var active := ActiveOf(credentials, client);
      if active.None? { return false; }
      credentials := credentials[active.value := credentials[active.value].(revokedAt := Some(now))];
      return true;
    }
  }
}
