/**
 The replay table of the update endpoints and the time window of a DPoP proof
 (section 4.3 of RFC 9449; the use of `jti` is described in section 11.1).

 A row is found by its kind and `jti`; the stored hash stands for that pair.
 Times are microseconds, and the proof's own dates are whole seconds.
 */
module Replay {
  type Time = int

  /** A reading of the clock. */
  type Instant = nat

  const SECOND: Time := 1_000_000
  const DPOP_MAX_AGE: int := 120
  const CLOCK_SKEW: int := 30
  const MAX_JTI: nat := 200

  datatype Kind = ClientAssertion | Dpop
  datatype Key = Key(kind: Kind, jti: string)

  /** The unexpired and not yet removed rows, with their expiry. */
  type Table = map<Key, Time>

  predicate JtiOk(jti: string) { 0 < |jti| <= MAX_JTI }

  function Swept(rows: Table, now: Instant): Table {
    map key | key in rows && rows[key] >= now :: rows[key]
  }

  /** `consume_replay`: a key already present is refused and the transaction, its cleanup included, rolled back. */
  function Consume(rows: Table, key: Key, expiresAt: Time, now: Instant, cleanup: bool): (Table, bool) {
    var kept := if cleanup then Swept(rows, now) else rows;
    if !JtiOk(key.jti) || key in kept then (rows, false) else (kept[key := expiresAt], true)
  }

  datatype Attempt = Attempt(key: Key, expiresAt: Time, at: Instant, cleanup: bool)

  function Run(rows: Table, attempts: seq<Attempt>): Table
    decreases |attempts|
  {
    if attempts == [] then rows
    else
      var a := attempts[0];
      Run(Consume(rows, a.key, a.expiresAt, a.at, a.cleanup).0, attempts[1..])
  }

  /** A row outlives every cleanup up to its expiry. */
  lemma {:induction false} RowSurvives(rows: Table, attempts: seq<Attempt>, key: Key)
    requires key in rows && forall i :: 0 <= i < |attempts| ==> attempts[i].at <= rows[key]
    ensures key in Run(rows, attempts) && Run(rows, attempts)[key] == rows[key]
    decreases |attempts|
  {
    if attempts != [] {
      var a := attempts[0];
      RowSurvives(Consume(rows, a.key, a.expiresAt, a.at, a.cleanup).0, attempts[1..], key);
    }
  }

  /** Once accepted with an expiry, a key is not accepted again up to that expiry, whatever happens in between. */
  lemma AcceptedOnce(
    rows: Table, key: Key, expiresAt: Time, at: Instant, cleanup: bool,
    between: seq<Attempt>, again: Attempt)
    requires Consume(rows, key, expiresAt, at, cleanup).1
    requires again.key == key && again.at <= expiresAt
    requires forall i :: 0 <= i < |between| ==> between[i].at <= again.at
    ensures var later := Run(Consume(rows, key, expiresAt, at, cleanup).0, between);
      Consume(later, again.key, again.expiresAt, again.at, again.cleanup) == (later, false)
  {
    RowSurvives(Consume(rows, key, expiresAt, at, cleanup).0, between, key);
  }

  // ---------------------------------------------------------------- the window of a DPoP proof

  /** The acceptance test reads the clock in whole seconds. */
  predicate InWindow(iat: int, now: Instant) {
    now / SECOND - DPOP_MAX_AGE <= iat <= now / SECOND + CLOCK_SKEW
  }

  /** In microseconds: from thirty seconds before the proof's date to the end of the second two minutes after it. */
  lemma WindowLaw(iat: int, now: Instant)
    ensures InWindow(iat, now) <==> (iat - 30) * 1_000_000 <= now < (iat + 121) * 1_000_000
  {
  }

  function DpopExpiry(iat: int): Time { (iat + DPOP_MAX_AGE) * SECOND }

  /** The window test and the replay test of `verify_dpop_proof`. */
  function Present(rows: Table, jti: string, iat: int, now: Instant, cleanup: bool): (Table, bool) {
    if !InWindow(iat, now) then (rows, false) else Consume(rows, Key(Dpop, jti), DpopExpiry(iat), now, cleanup)
  }

  /** The row of this key is in the table and is not swept now. */
  predicate Taken(rows: Table, kind: Kind, jti: string, now: Instant, cleanup: bool) {
    Key(kind, jti) in rows && !(cleanup && rows[Key(kind, jti)] < now)
  }

  /** What one use is told and what it leaves: refused without a trace, or recorded up to its expiry. */
  lemma UseLaw(rows: Table, kind: Kind, jti: string, expiresAt: Time, now: Instant, cleanup: bool)
    ensures var (after, ok) := Consume(rows, Key(kind, jti), expiresAt, now, cleanup);
      && (ok <==> 1 <= |jti| <= 200 && !Taken(rows, kind, jti, now, cleanup))
      && if !ok then after == rows
         else forall k ::
                && (k in after <==> k == Key(kind, jti) || (k in rows && !(cleanup && rows[k] < now)))
                && (k in after ==> after[k] == if k == Key(kind, jti) then expiresAt else rows[k])
  {
  }

  /** A proof passes exactly inside its window with an identifier not taken, and is kept for two minutes. */
  lemma ProofLaw(rows: Table, jti: string, iat: int, now: Instant, cleanup: bool)
    ensures var (after, ok) := Present(rows, jti, iat, now, cleanup);
      && (ok <==>
            && (iat - 30) * 1_000_000 <= now < (iat + 121) * 1_000_000
            && 1 <= |jti| <= 200 && !Taken(rows, Dpop, jti, now, cleanup))
      && (ok ==> Key(Dpop, jti) in after && after[Key(Dpop, jti)] == (iat + 120) * 1_000_000)
      && (!ok ==> after == rows)
  {
    WindowLaw(iat, now);
    UseLaw(rows, Dpop, jti, DpopExpiry(iat), now, cleanup);
    hide Consume, InWindow;
  }

  /** With a clock that ticks in whole seconds no proof is accepted twice, whatever happens in between. */
  lemma ProofAcceptedOnce(
    rows: Table, jti: string, iat: int, at: Instant, cleanup: bool, between: seq<Attempt>, now: Instant, cleanup': bool)
    requires Present(rows, jti, iat, at, cleanup).1 && now % SECOND == 0
    requires forall i :: 0 <= i < |between| ==> between[i].at <= now
    ensures var later := Run(Present(rows, jti, iat, at, cleanup).0, between);
      !Present(later, jti, iat, now, cleanup').1
  {
    var e := DpopExpiry(iat);
    if InWindow(iat, now) {
      assert now <= e;
      AcceptedOnce(rows, Key(Dpop, jti), e, at, cleanup, between, Attempt(Key(Dpop, jti), e, now, cleanup'));
    }
  }

  // ---------------------------------------------------------------- when a key is accepted again

  function After(rows: Table, a: Attempt): Table { Consume(rows, a.key, a.expiresAt, a.at, a.cleanup).0 }

  predicate Accepts(rows: Table, a: Attempt) { Consume(rows, a.key, a.expiresAt, a.at, a.cleanup).1 }

  /** No attempt of the run uses the key successfully. */
  predicate NoneAccepted(rows: Table, attempts: seq<Attempt>, key: Key)
    decreases |attempts|
  {
    attempts == [] ||
    (!(attempts[0].key == key && Accepts(rows, attempts[0]))
     && NoneAccepted(After(rows, attempts[0]), attempts[1..], key))
  }

  /** Some cleanup of the run was committed and ran after `time`. */
  predicate SweptAfter(rows: Table, attempts: seq<Attempt>, time: Time)
    decreases |attempts|
  {
    attempts != [] &&
    ((attempts[0].cleanup && attempts[0].at > time && Accepts(rows, attempts[0]))
     || SweptAfter(After(rows, attempts[0]), attempts[1..], time))
  }

  /** Until its next acceptance a key's row is there exactly as long as no cleanup has run after its expiry. */
  lemma {:induction false} RowGoneIff(rows: Table, attempts: seq<Attempt>, key: Key)
    requires key in rows && NoneAccepted(rows, attempts, key)
    ensures var later := Run(rows, attempts);
      if SweptAfter(rows, attempts, rows[key]) then key !in later else key in later && later[key] == rows[key]
    decreases |attempts|
  {
    if attempts != [] {
      var next := After(rows, attempts[0]);
      if key in next {
        RowGoneIff(next, attempts[1..], key);
      } else {
        StaysGone(next, attempts[1..], key);
      }
    }
  }

  lemma {:induction false} StaysGone(rows: Table, attempts: seq<Attempt>, key: Key)
    requires key !in rows && NoneAccepted(rows, attempts, key)
    ensures key !in Run(rows, attempts)
    decreases |attempts|
  {
    if attempts != [] { StaysGone(After(rows, attempts[0]), attempts[1..], key); }
  }

  lemma {:induction false} SweptBy(rows: Table, attempts: seq<Attempt>, time: Time, now: Instant)
    requires SweptAfter(rows, attempts, time) && forall i :: 0 <= i < |attempts| ==> attempts[i].at <= now
    ensures now > time
    decreases |attempts|
  {
    if !(attempts[0].cleanup && attempts[0].at > time && Accepts(rows, attempts[0])) {
      SweptBy(After(rows, attempts[0]), attempts[1..], time, now);
    }
  }

  /**
   Exactly when a proof passes again after its last acceptance, with or without a cleanup of its own: inside the one
   second that starts at its stored expiry, if a cleanup runs after that expiry.  The window is read in whole seconds
   and the cleanup compares the unrounded clock.
   */
  lemma AcceptedAgainIff(
    rows: Table, jti: string, iat: int, at: Instant, cleanup: bool, between: seq<Attempt>, now: Instant, cleanup': bool)
    requires Present(rows, jti, iat, at, cleanup).1
    requires NoneAccepted(Present(rows, jti, iat, at, cleanup).0, between, Key(Dpop, jti))
    requires forall i :: 0 <= i < |between| ==> between[i].at <= now
    ensures var first := Present(rows, jti, iat, at, cleanup).0;
      Present(Run(first, between), jti, iat, now, cleanup').1 <==>
        && now / SECOND == iat + DPOP_MAX_AGE && now % SECOND != 0
        && (cleanup' || SweptAfter(first, between, DpopExpiry(iat)))
  {
    var first, e := Present(rows, jti, iat, at, cleanup).0, DpopExpiry(iat);
    RowGoneIff(first, between, Key(Dpop, jti));
    if SweptAfter(first, between, e) { SweptBy(first, between, e, now); }
  }

  // ---------------------------------------------------------------- the token request

  /** One transaction: the assertion is used with a cleanup, then the proof without one; a failure undoes both. */
  function TokenRequest(
    rows: Table, assertion: string, expiresAt: Time, at: Instant, jti: string, iat: int, now: Instant): (Table, bool)
  {
    var (used, ok) := Consume(rows, Key(ClientAssertion, assertion), expiresAt, at, true);
    if !ok then (rows, false)
    else
      var (proved, passed) := Present(used, jti, iat, now, false);
      if passed then (proved, true) else (rows, false)
  }

  /**
   A proof passes again at the token endpoint exactly in its last second, with a new assertion, if the assertion's
   cleanup or an earlier one ran after the proof's stored expiry.
   */
  lemma TokenAcceptsAgainIff(
    rows: Table, jti: string, iat: int, first: Instant, cleanup: bool, between: seq<Attempt>,
    assertion: string, expiresAt: Time, at: Instant, now: Instant)
    requires Present(rows, jti, iat, first, cleanup).1
    requires NoneAccepted(Present(rows, jti, iat, first, cleanup).0, between, Key(Dpop, jti))
    requires at <= now && forall i :: 0 <= i < |between| ==> between[i].at <= at
    ensures var used, e := Present(rows, jti, iat, first, cleanup).0, DpopExpiry(iat);
      var later := Run(used, between);
      TokenRequest(later, assertion, expiresAt, at, jti, iat, now).1 <==>
        && Consume(later, Key(ClientAssertion, assertion), expiresAt, at, true).1
        && now / SECOND == iat + DPOP_MAX_AGE && (at > e || SweptAfter(used, between, e))
  {
    var used, e := Present(rows, jti, iat, first, cleanup).0, DpopExpiry(iat);
    RowGoneIff(used, between, Key(Dpop, jti));
    if SweptAfter(used, between, e) { SweptBy(used, between, e, at); }
  }

  class ReplayTable {
    var rows: Table

    constructor ()
      ensures rows == map[]
    {
      rows := map[];
    }

    method ConsumeReplay(kind: Kind, jti: string, expiresAt: Time, now: Instant, cleanup: bool) returns (ok: bool)
      modifies this
      ensures (rows, ok) == Consume(old(rows), Key(kind, jti), expiresAt, now, cleanup)
    {
      var saved := rows;
      if cleanup {
        rows := map key | key in rows && !(rows[key] < now) :: rows[key];
        assert rows == Swept(saved, now);
      }
      if !(0 < |jti| <= MAX_JTI) || Key(kind, jti) in rows {
        rows := saved;
        return false;
      }
      rows := rows[Key(kind, jti) := expiresAt];
      return true;
    }

    method VerifyDpopProof(jti: string, iat: int, now: Instant, cleanup: bool) returns (ok: bool)
      modifies this
      ensures (rows, ok) == Present(old(rows), jti, iat, now, cleanup)
    {
      var seconds := now / SECOND;
      if iat > seconds + CLOCK_SKEW || iat < seconds - DPOP_MAX_AGE { return false; }
      ok := ConsumeReplay(Dpop, jti, (iat + DPOP_MAX_AGE) * SECOND, now, cleanup);
    }

    /** The replay part of the token endpoint: the proof relies on the cleanup made for the assertion. */
    method IssueToken(assertion: string, expiresAt: Time, at: Instant, jti: string, iat: int, now: Instant)
      returns (ok: bool)
      modifies this
      ensures (rows, ok) == TokenRequest(old(rows), assertion, expiresAt, at, jti, iat, now)
    {
      var saved := rows;
      ok := ConsumeReplay(ClientAssertion, assertion, expiresAt, at, true);
      if !ok { return; }
      ok := VerifyDpopProof(jti, iat, now, false);
      if !ok { rows := saved; }
    }
  }
}
