/**
 When a key is enrolled, rotated and revoked and a code is issued and spent, read off the rows, and how long a code can
 be spent.
 */
module CredentialLaws {
  import opened Options
  import opened UpdateCredentials

  predicate Used(b: Book, key: Key) { exists i :: 0 <= i < |b.credentials| && b.credentials[i].key == key }

  predicate LiveFor(b: Book, client: Client, i: nat) {
    i < |b.credentials| && b.credentials[i].client == client && b.credentials[i].revokedAt == None
  }

  predicate EverHad(b: Book, client: Client) {
    exists i :: 0 <= i < |b.credentials| && b.credentials[i].client == client
  }

  /** The client's live credential is revoked now, and a new one has been added. */
  predicate Succeeded(b: Book, b': Book, client: Client, key: Key, from: Option<nat>, now: Time) {
    && b'.clients == b.clients && |b'.credentials| == |b.credentials| + 1
    && b'.credentials[|b.credentials|] == Credential(client, key, now, None, from)
    && forall i :: 0 <= i < |b.credentials| ==>
         b'.credentials[i] == if LiveFor(b, client, i) then b.credentials[i].(revokedAt := Some(now))
                              else b.credentials[i]
  }

  lemma LiveIsActive(b: Book, client: Client)
    requires Inv(b)
    ensures forall i: nat :: LiveFor(b, client, i) <==> ActiveOf(b.credentials, client) == Some(i)
  {
    forall i: nat | LiveFor(b, client, i) ensures ActiveOf(b.credentials, client) == Some(i) {
      assert ActiveFor(b.credentials[i], client);
    }
  }

  /** A new key enrols a new client; a known one is refused. */
  lemma EnrollLaw(b: Book, key: Key, now: Time)
    requires Inv(b)
    ensures var (b', ok) := Apply(b, Enrolls(key), now);
      if Used(b, key) then !ok && b' == b
      else ok && b' == Book(b.clients + 1, b.credentials + [Credential(b.clients, key, now, None, None)], b.codes)
  {
    EnrollKeeps(b, key, now);
  }

  /** A code is handed out exactly to an existing, approved client; it lasts ten minutes and replaces the open ones. */
  lemma IssueLaw(b: Book, client: Client, approved: bool, now: Time)
    ensures var (b', ok) := Apply(b, Issues(client, approved), now);
      if client < b.clients && approved then
        && ok && b'.clients == b.clients && b'.credentials == b.credentials && |b'.codes| == |b.codes| + 1
        && b'.codes[|b.codes|] == Code(client, if EverHad(b, client) then Recovery else Bootstrap, now,
                                       now + 600 * SECOND, None, None)
        && (forall i :: 0 <= i < |b.codes| ==>
              b'.codes[i] == if b.codes[i].client == client && b.codes[i].usedAt == None && b.codes[i].revokedAt == None
                             then b.codes[i].(revokedAt := Some(now)) else b.codes[i])
      else !ok && b' == b
  {
  }

  /** The code is neither used, revoked nor out of time, the client approved and the key new. */
  predicate Spendable(b: Book, code: nat, key: Key, approved: bool, now: Time) {
    && code < |b.codes| && b.codes[code].usedAt == None && b.codes[code].revokedAt == None
    && now <= b.codes[code].expiresAt && approved && !Used(b, key)
  }

  /** What the new credential of a spent code continues: the live one, else one created last, else nothing. */
  predicate ContinuesFrom(b: Book, client: Client, from: Option<nat>) {
    match from
    case None => !EverHad(b, client)
    case Some(p) =>
      LiveFor(b, client, p)
      || ((forall i :: 0 <= i < |b.credentials| ==> !LiveFor(b, client, i))
          && p < |b.credentials| && b.credentials[p].client == client
          && forall i :: 0 <= i < |b.credentials| && b.credentials[i].client == client ==>
               b.credentials[i].createdAt <= b.credentials[p].createdAt)
  }

  lemma ConsumeLaw(b: Book, code: nat, key: Key, approved: bool, pick: nat, now: Time)
    requires Inv(b)
    ensures var (b', ok) := Apply(b, Consumes(code, key, approved, pick), now);
      if Spendable(b, code, key, approved, now) then
        && ok && b'.codes == b.codes[code := b.codes[code].(usedAt := Some(now))]
        && exists from ::
             ContinuesFrom(b, b.codes[code].client, from) && Succeeded(b, b', b.codes[code].client, key, from, now)
      else !ok && b' == b
  {
    ConsumeIff(b, code, key, approved, pick, now);
    if Spendable(b, code, key, approved, now) {
      var client := b.codes[code].client;
      var from := Predecessor(b.credentials, client, b.codes[code].purpose, pick);
      LiveIsActive(b, client);
      PredecessorIff(b, code, pick);
      PredecessorContinues(b, code, pick);
      hide Inv, ContinuesFrom, Predecessor, ActiveOf;
    }
  }

  lemma PredecessorContinues(b: Book, code: nat, pick: nat)
    requires Inv(b) && code < |b.codes| && b.codes[code].Open()
    ensures var c := b.codes[code];
      ContinuesFrom(b, c.client, Predecessor(b.credentials, c.client, c.purpose, pick))
  {
    LiveIsActive(b, b.codes[code].client);
    PredecessorIff(b, code, pick);
  }

  /** A live key is replaced by a new one, which continues it; anything else is refused. */
  lemma RotateLaw(b: Book, current: nat, key: Key, now: Time)
    requires Inv(b)
    ensures var (b', ok) := Apply(b, Rotates(current, key), now);
      if current < |b.credentials| && b.credentials[current].revokedAt == None && !Used(b, key) then
        ok && b'.codes == b.codes && Succeeded(b, b', b.credentials[current].client, key, Some(current), now)
      else !ok && b' == b
  {
    RotateKeeps(b, current, key, now);
    if current < |b.credentials| { LiveIsActive(b, b.credentials[current].client); }
  }

  /** Revocation ends the client's live key, if it has one. */
  lemma RevokeLaw(b: Book, client: Client, now: Time)
    requires Inv(b)
    ensures var (b', ok) := Apply(b, Revokes(client), now);
      && (ok <==> exists i: nat :: LiveFor(b, client, i))
      && b'.clients == b.clients && b'.codes == b.codes && |b'.credentials| == |b.credentials|
      && forall i :: 0 <= i < |b.credentials| ==>
           b'.credentials[i] == if LiveFor(b, client, i) then b.credentials[i].(revokedAt := Some(now))
                                else b.credentials[i]
  {
    LiveIsActive(b, client);
    if ActiveOf(b.credentials, client).Some? { assert LiveFor(b, client, ActiveOf(b.credentials, client).value); }
  }

  // ---------------------------------------------------------------- how long a code can be spent

  /** The command can end code `k` of this client. */
  predicate Touches(c: Command, k: nat, client: Client) {
    (c.Issues? && c.client == client) || (c.Consumes? && c.code == k)
  }

  lemma {:induction false} CodeStays(b: Book, cs: seq<Timed>, k: nat)
    requires Inv(b) && k < |b.codes|
    requires forall i :: 0 <= i < |cs| ==> !Touches(cs[i].command, k, b.codes[k].client)
    ensures Inv(Run(b, cs)) && k < |Run(b, cs).codes| && Run(b, cs).codes[k] == b.codes[k]
    decreases |cs|
  {
    if cs != [] {
      var c, at := cs[0].command, cs[0].at;
      ApplyKeeps(b, c, at);
      ApplyGrows(b, c, at);
      CodeStaysOnce(b, c, k, at);
      hide Apply, Inv, Grows;
      CodeStays(Apply(b, c, at).0, cs[1..], k);
    }
  }

  lemma CodeStaysOnce(b: Book, c: Command, k: nat, now: Time)
    requires k < |b.codes| && !Touches(c, k, b.codes[k].client)
    ensures k < |Apply(b, c, now).0.codes| && Apply(b, c, now).0.codes[k] == b.codes[k]
  {
  }

  /**
   A code that no later code replaced and nobody spent can be spent up to ten minutes after it was issued and not
   later, whatever else was done meanwhile.
   */
  lemma {:induction false} CodeLastsTenMinutes(
    b: Book, client: Client, issued: Time, cs: seq<Timed>, key: Key, approved: bool, pick: nat, now: Time)
    requires Inv(b) && client < b.clients
    requires forall i :: 0 <= i < |cs| ==> !Touches(cs[i].command, |b.codes|, client)
    ensures var later := Run(Apply(b, Issues(client, true), issued).0, cs);
      Apply(later, Consumes(|b.codes|, key, approved, pick), now).1 <==>
        now <= issued + 600 * SECOND && approved && !Used(later, key)
  {
    var b' := Apply(b, Issues(client, true), issued).0;
    IssueLaw(b, client, true, issued);
    ApplyKeeps(b, Issues(client, true), issued);
    CodeStays(b', cs, |b.codes|);
    hide Run, Apply, Inv;
    ConsumeLaw(Run(b', cs), |b.codes|, key, approved, pick, now);
  }
}
