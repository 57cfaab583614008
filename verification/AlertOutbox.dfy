/**
 The alert outbox: `deliver_one` picks the first due delivery, writes it once
 and appends one attempt.  Times are seconds as reals; one call is one database
 transaction.
 */
module AlertOutbox {
  import opened Wrappers
  import opened EvidenceModel

  datatype Policy = Policy(maxAttempts: nat, retryBase: real, retryMax: real)
  {
    /** The bounds of the frozen monitoring policy. */
    predicate Ok() {
      1 <= maxAttempts <= 5 && 1.0 <= retryBase <= 300.0 && retryBase <= retryMax <= 3600.0
    }
  }

  datatype Outcome = Delivered | RetryableFailure | PermanentFailure | Expired
  {
    predicate Terminal() { this != RetryableFailure }
  }

  datatype ErrorCode = AlertExpired | StdoutWriteFailed | DeliveryWindowExceeded

  datatype Attempt = Attempt(
    no: nat, outcome: Outcome, startedAt: real, finishedAt: real, nextAt: Option<real>, error: Option<ErrorCode>,
    payloadHash: Digest, previousHash: Option<Digest>, contentHash: Digest)

  datatype Delivery = Delivery(
    availableAt: real, expiresAt: real, maxAttempts: nat, payloadHash: Digest, attempts: seq<Attempt>)

  /** SHA-256 of the attempt document: number, outcome, times, error, payload and
      predecessor; the outbox id is fixed per delivery. */
  type AttemptHash = (nat, Outcome, real, real, Option<real>, Option<ErrorCode>, Digest, Option<Digest>) -> Digest

  // ----- retry delay -----

  function Min(a: real, b: real): real { if a <= b then a else b }

  function PowerOfTwo(n: nat): (p: nat)
    ensures p >= 1
  {
    if n == 0 then 1 else 2 * PowerOfTwo(n - 1)
  }

  function RetryBase(p: Policy, attemptNo: nat): real
    requires attemptNo > 0
  {
    Min(p.retryMax, p.retryBase * PowerOfTwo(attemptNo - 1) as real)
  }

  /** `jitter` is the first two digest bytes over 65535. */
  function RetryDelay(p: Policy, attemptNo: nat, jitter: real): real
    requires attemptNo > 0
  {
    var base := RetryBase(p, attemptNo);
    Min(p.retryMax, base + jitter * Min(base * 0.25, 5.0))
  }

  lemma {:induction false} RetryBaseGrows(p: Policy, attemptNo: nat)
    requires p.Ok() && attemptNo > 0
    ensures 1.0 <= RetryBase(p, attemptNo) <= p.retryMax
    ensures RetryBase(p, attemptNo + 1) == Min(p.retryMax, 2.0 * RetryBase(p, attemptNo))
  {
    var power := PowerOfTwo(attemptNo - 1) as real;
    assert PowerOfTwo(attemptNo) as real == 2.0 * power;
    DoubleProduct(p.retryBase, power);
    ProductNonNegative(p.retryBase, power - 1.0);
    assert p.retryBase * (power - 1.0) == p.retryBase * power - p.retryBase;
  }

  lemma {:induction false} DoubleProduct(a: real, b: real)
    ensures a * (2.0 * b) == 2.0 * (a * b)
  {
  }

  lemma {:induction false} ProductNonNegative(a: real, b: real)
    requires a >= 0.0 && b >= 0.0
    ensures a * b >= 0.0
  {
  }

  lemma {:induction false} DelayBounds(p: Policy, attemptNo: nat, jitter: real)
    requires attemptNo > 0 && 0.0 <= jitter <= 1.0 && 0.0 <= RetryBase(p, attemptNo) <= p.retryMax
    ensures RetryBase(p, attemptNo) <= RetryDelay(p, attemptNo, jitter) <= p.retryMax
    ensures RetryDelay(p, attemptNo, jitter) <= RetryBase(p, attemptNo) * 2.0
  {
    var base := RetryBase(p, attemptNo);
    var spread := Min(base * 0.25, 5.0);
    ProductNonNegative(jitter, spread);
    ProductNonNegative(1.0 - jitter, spread);
    assert (1.0 - jitter) * spread == spread - jitter * spread;
    assert jitter * spread <= spread <= base;
    assert RetryDelay(p, attemptNo, jitter) == Min(p.retryMax, base + jitter * spread);
  }

  /** Whatever the two jitter digests are, the next delay is never shorter, and
      no delay exceeds the maximum. */
  lemma {:induction false} RetryDelaysNeverDecrease(p: Policy, attemptNo: nat, jitter: real, nextJitter: real)
    requires p.Ok() && attemptNo > 0 && 0.0 <= jitter <= 1.0 && 0.0 <= nextJitter <= 1.0
    ensures 1.0 <= RetryDelay(p, attemptNo, jitter) <= RetryDelay(p, attemptNo + 1, nextJitter) <= p.retryMax
  {
    RetryBaseGrows(p, attemptNo);
    RetryBaseGrows(p, attemptNo + 1);
    DelayBounds(p, attemptNo, jitter);
    DelayBounds(p, attemptNo + 1, nextJitter);
  }

  /** What the delays are: the base, doubled with each attempt up to the
      maximum, and a jitter of up to a quarter or five seconds on top. */
  lemma {:induction false} RetryDelayExact(p: Policy, attemptNo: nat, jitter: real)
    requires p.Ok() && attemptNo > 0 && 0.0 <= jitter <= 1.0
    ensures RetryDelay(p, 1, 0.0) == p.retryBase
    ensures var plain := RetryDelay(p, attemptNo, 0.0);
      && RetryDelay(p, attemptNo + 1, 0.0) == (if 2.0 * plain < p.retryMax then 2.0 * plain else p.retryMax)
      && var most := (if plain < 20.0 then plain / 4.0 else 5.0);
         var jittered := plain + jitter * most;
         RetryDelay(p, attemptNo, jitter) == if jittered < p.retryMax then jittered else p.retryMax
  {
    RetryBaseGrows(p, 1);
    RetryBaseGrows(p, attemptNo);
    RetryBaseGrows(p, attemptNo + 1);
    assert PowerOfTwo(0) == 1;
    assert RetryBase(p, 1) == p.retryBase;
    assert RetryDelay(p, attemptNo, 0.0) == RetryBase(p, attemptNo);
    assert RetryDelay(p, attemptNo + 1, 0.0) == RetryBase(p, attemptNo + 1);
  }

  // ----- one delivery -----

  /** What the bounded stream write did, and the clock after it. */
  datatype Write = Write(ok: bool, finishedAt: real, jitter: real)

  const SAFETY_MARGIN: real := 0.05

  predicate IsDue(d: Delivery, now: real) {
    && d.availableAt <= now
    && (d.attempts == [] ||
        var last := d.attempts[|d.attempts| - 1];
        last.outcome == RetryableFailure && last.nextAt.Some? && (last.nextAt.value <= now || d.expiresAt <= now))
  }

  function PreviousHash(d: Delivery): Option<Digest> {
    if d.attempts == [] then None else Some(d.attempts[|d.attempts| - 1].contentHash)
  }

  function Make(
    h: AttemptHash, d: Delivery, o: Outcome, startedAt: real, finishedAt: real, nextAt: Option<real>,
    error: Option<ErrorCode>)
    : Attempt
  {
    var no := |d.attempts| + 1;
    Attempt(no, o, startedAt, finishedAt, nextAt, error, d.payloadHash, PreviousHash(d),
      h(no, o, startedAt, finishedAt, nextAt, error, d.payloadHash, PreviousHash(d)))
  }

  /** The attempt a call at `now` appends to a due delivery; none inside the
      safety margin before expiry. */
  function NextAttempt(h: AttemptHash, p: Policy, d: Delivery, now: real, w: Write): Option<Attempt> {
    var no := |d.attempts| + 1;
    if now >= d.expiresAt then Some(Make(h, d, Expired, now, now, None, Some(AlertExpired)))
    else if d.expiresAt - now <= SAFETY_MARGIN then None
    else if !w.ok then
      var retryAt := w.finishedAt + RetryDelay(p, no, w.jitter);
      if no < d.maxAttempts && retryAt < d.expiresAt && w.finishedAt < d.expiresAt
      then Some(Make(h, d, RetryableFailure, now, w.finishedAt, Some(retryAt), Some(StdoutWriteFailed)))
      else Some(Make(h, d, PermanentFailure, now, w.finishedAt, None, Some(StdoutWriteFailed)))
    else if w.finishedAt > d.expiresAt then
      Some(Make(h, d, PermanentFailure, now, w.finishedAt, None, Some(DeliveryWindowExceeded)))
    else Some(Make(h, d, Delivered, now, w.finishedAt, None, None))
  }

  /** What an attempt says about its write: delivered exactly for one that
      succeeded in time, failed exactly for one that did not, late exactly for
      one that came back after expiry; retried exactly while attempts are left
      and the retry still fits before expiry. */
  ghost predicate TellsWrite(p: Policy, d: Delivery, now: real, w: Write, a: Attempt) {
    var no := |d.attempts| + 1;
    if now >= d.expiresAt then
      a.outcome == Expired && a.error == Some(AlertExpired) && a.startedAt == now == a.finishedAt
    else
      && a.startedAt == now && a.finishedAt == w.finishedAt
      && (a.outcome == Delivered <==> w.ok && w.finishedAt <= d.expiresAt)
      && (a.error.None? <==> w.ok && w.finishedAt <= d.expiresAt)
      && (a.error == Some(StdoutWriteFailed) <==> !w.ok)
      && (a.error == Some(DeliveryWindowExceeded) <==> w.ok && w.finishedAt > d.expiresAt)
      && (a.outcome == RetryableFailure <==>
            !w.ok && no < d.maxAttempts && w.finishedAt < d.expiresAt &&
            w.finishedAt + RetryDelay(p, no, w.jitter) < d.expiresAt)
      && (a.outcome == RetryableFailure ==> a.nextAt == Some(w.finishedAt + RetryDelay(p, no, w.jitter)))
      && a.outcome != Expired
  }

  // ----- what the attempts of a delivery keep -----

  predicate AttemptOk(h: AttemptHash, d: Delivery, i: nat)
    requires i < |d.attempts|
  {
    var a := d.attempts[i];
    && a.no == i + 1 <= d.maxAttempts && a.payloadHash == d.payloadHash
    && a.previousHash == (if i == 0 then None else Some(d.attempts[i - 1].contentHash))
    && a.contentHash == h(a.no, a.outcome, a.startedAt, a.finishedAt, a.nextAt, a.error, a.payloadHash, a.previousHash)
    && a.startedAt <= a.finishedAt
    && (a.outcome == RetryableFailure <==> a.nextAt.Some?)
    && (a.outcome == RetryableFailure ==> a.no < d.maxAttempts && a.finishedAt < a.nextAt.value < d.expiresAt)
    && (a.outcome == Delivered <==> a.error.None?)
    && (a.outcome == Expired <==> a.startedAt >= d.expiresAt) && d.availableAt <= a.startedAt
    && (a.outcome == Delivered ==> a.finishedAt <= d.expiresAt)
    && (i > 0 ==>
          var b := d.attempts[i - 1];
          b.outcome == RetryableFailure && b.nextAt.Some? && b.finishedAt <= a.startedAt &&
          (a.outcome != Expired ==> b.nextAt.value <= a.startedAt))
  }

  /** Attempts are numbered from 1, hash-linked, at most `maxAttempts`; only the
      last can be terminal; each retry waited for its boundary. */
  ghost predicate DeliveryOk(h: AttemptHash, p: Policy, d: Delivery) {
    && d.maxAttempts == p.maxAttempts && d.availableAt < d.expiresAt
    && forall i | 0 <= i < |d.attempts| :: AttemptOk(h, d, i)
  }

  function Appended(d: Delivery, a: Attempt): Delivery { d.(attempts := d.attempts + [a]) }

  predicate MayAppend(d: Delivery, a: Attempt) {
    && a.no == |d.attempts| + 1 <= d.maxAttempts && a.payloadHash == d.payloadHash && a.previousHash == PreviousHash(d)
    && a.startedAt <= a.finishedAt
    && (a.outcome == RetryableFailure <==> a.nextAt.Some?)
    && (a.outcome == RetryableFailure ==> a.no < d.maxAttempts && a.finishedAt < a.nextAt.value < d.expiresAt)
    && (a.outcome == Delivered <==> a.error.None?)
    && (a.outcome == Expired <==> a.startedAt >= d.expiresAt) && d.availableAt <= a.startedAt
    && (a.outcome == Delivered ==> a.finishedAt <= d.expiresAt)
    && (d.attempts != [] ==>
          var b := d.attempts[|d.attempts| - 1];
          b.outcome == RetryableFailure && b.nextAt.Some? && b.finishedAt <= a.startedAt &&
          (a.outcome != Expired ==> b.nextAt.value <= a.startedAt))
  }

  lemma {:induction false} AppendKeepsOk(h: AttemptHash, p: Policy, d: Delivery, a: Attempt)
    requires DeliveryOk(h, p, d) && MayAppend(d, a)
    requires a.contentHash == h(a.no, a.outcome, a.startedAt, a.finishedAt, a.nextAt, a.error, a.payloadHash, a.previousHash)
    ensures DeliveryOk(h, p, Appended(d, a))
  {
    var e := Appended(d, a);
    forall i | 0 <= i < |e.attempts| ensures AttemptOk(h, e, i) {
      if i < |d.attempts| { assert AttemptOk(h, d, i); }
    }
  }

  /** What is kept of every stored attempt is what the database asked of it when
      it was appended: nothing is lost later. */
  lemma {:induction false} KeptAsAppended(h: AttemptHash, d: Delivery, i: nat)
    requires i < |d.attempts|
    ensures var a := d.attempts[i];
      AttemptOk(h, d, i) <==>
        MayAppend(d.(attempts := d.attempts[..i]), a) &&
        a.contentHash == h(a.no, a.outcome, a.startedAt, a.finishedAt, a.nextAt, a.error, a.payloadHash, a.previousHash)
  {
  }

  lemma {:induction false} NextTellsWrite(h: AttemptHash, p: Policy, d: Delivery, now: real, w: Write)
    ensures NextAttempt(h, p, d, now, w).None? <==> 0.0 < d.expiresAt - now <= SAFETY_MARGIN
    ensures NextAttempt(h, p, d, now, w).Some? ==> TellsWrite(p, d, now, w, NextAttempt(h, p, d, now, w).value)
  {
  }

  /** A new delivery is due exactly from its start on; a failed one exactly from
      the retry time its last attempt names; an ended one never again. */
  lemma {:induction false} DueExactly(h: AttemptHash, p: Policy, d: Delivery, now: real)
    requires p.Ok() && DeliveryOk(h, p, d)
    ensures d.attempts == [] ==> (IsDue(d, now) <==> now >= d.availableAt)
    ensures d.attempts != [] ==>
      var last := d.attempts[|d.attempts| - 1];
      IsDue(d, now) <==> last.outcome == RetryableFailure && last.nextAt.Some? && now >= last.nextAt.value
  {
    if d.attempts != [] { assert AttemptOk(h, d, |d.attempts| - 1); }
  }

  /** Any attempt of a call, at any time and with any write, may follow. */
  lemma {:induction false} NextMayAppend(h: AttemptHash, p: Policy, d: Delivery, now: real, w: Write)
    requires p.Ok() && DeliveryOk(h, p, d) && IsDue(d, now) && 0.0 <= w.jitter <= 1.0
    requires NextAttempt(h, p, d, now, w).Some? && now <= NextAttempt(h, p, d, now, w).value.finishedAt
    ensures MayAppend(d, NextAttempt(h, p, d, now, w).value)
  {
    var no := |d.attempts| + 1;
    RetryDelaysNeverDecrease(p, no, w.jitter, w.jitter);
    if d.attempts != [] { assert AttemptOk(h, d, |d.attempts| - 1); }
  }

  /** A call at or after expiry ends a due delivery for good. */
  lemma {:induction false} ExpiryIsTerminal(h: AttemptHash, p: Policy, d: Delivery, now: real, w: Write, later: real)
    requires p.Ok() && DeliveryOk(h, p, d) && IsDue(d, now) && now >= d.expiresAt && 0.0 <= w.jitter <= 1.0
    ensures NextAttempt(h, p, d, now, w).Some?
    ensures var e := Appended(d, NextAttempt(h, p, d, now, w).value);
      DeliveryOk(h, p, e) && e.attempts[|d.attempts|].outcome == Expired && !IsDue(e, later)
  {
    NextMayAppend(h, p, d, now, w);
    AppendKeepsOk(h, p, d, NextAttempt(h, p, d, now, w).value);
  }

  // ----- what the next call reads back -----

  /** The checks of `_DeliveryRow.from_row` on the stored previous attempt. */
  predicate RowAccepted(p: Policy, d: Delivery, requireDue: bool) {
    var n := |d.attempts|;
    && d.maxAttempts == p.maxAttempts
    && (if n == 0 then true
        else
          var last := d.attempts[n - 1];
          && last.no <= d.maxAttempts
          && (last.outcome == RetryableFailure ==> last.nextAt.Some? && last.no < d.maxAttempts)
          && (last.outcome != RetryableFailure ==> last.nextAt.None?)
          && (requireDue ==> last.outcome == RetryableFailure))
  }

  /** Every stored row re-validates, and as a due one exactly while it has not
      ended, so whenever it is selected. */
  lemma {:induction false} StoredRowsRevalidate(h: AttemptHash, p: Policy, d: Delivery, now: real)
    requires DeliveryOk(h, p, d)
    ensures RowAccepted(p, d, false) && (IsDue(d, now) ==> RowAccepted(p, d, true))
    ensures RowAccepted(p, d, true) <==> d.attempts == [] || d.attempts[|d.attempts| - 1].outcome == RetryableFailure
  {
    if d.attempts != [] { assert AttemptOk(h, d, |d.attempts| - 1); }
  }

  // ----- the database's own guard, as an independent reference -----

  /** The table's row constraints and the attempt trigger, for a new number. */
  predicate GuardAccepts(d: Delivery, a: Attempt) {
    && a.startedAt <= a.finishedAt
    && (match a.outcome
        case Delivered => a.nextAt.None? && a.error.None?
        case RetryableFailure => a.nextAt.Some? && a.nextAt.value > a.finishedAt && a.error.Some?
        case PermanentFailure => a.nextAt.None? && a.error.Some?
        case Expired => a.nextAt.None?)
    && a.payloadHash == d.payloadHash
    && (if d.attempts == [] then a.no == 1 && a.previousHash.None?
        else
          var b := d.attempts[|d.attempts| - 1];
          && !b.outcome.Terminal()
          && a.no == b.no + 1 && a.previousHash == Some(b.contentHash)
          && a.startedAt >= b.finishedAt
          && (a.outcome != Expired && b.nextAt.Some? ==> a.startedAt >= b.nextAt.value))
    && a.no <= d.maxAttempts
    && !(a.outcome == RetryableFailure && a.no == d.maxAttempts)
    && (if a.outcome == Expired then a.startedAt >= d.expiresAt
        else
          d.availableAt <= a.startedAt < d.expiresAt &&
          !(a.outcome == Delivered && a.finishedAt > d.expiresAt))
    && (a.nextAt.Some? ==> a.nextAt.value < d.expiresAt)
  }

  /** The guard accepts exactly the attempts that may follow, except that it
      would also take an expiry without an error code. */
  lemma {:induction false} GuardExact(h: AttemptHash, p: Policy, d: Delivery, a: Attempt)
    requires DeliveryOk(h, p, d)
    ensures MayAppend(d, a) <==> GuardAccepts(d, a) && (a.outcome == Expired ==> a.error.Some?)
  {
    if d.attempts != [] { assert AttemptOk(h, d, |d.attempts| - 1); }
  }

  // ----- the outbox -----

  datatype DeliveryResult = Idle(selected: bool) | Attempted(index: nat, attempt: Attempt)

  /** The first due delivery in `ORDER BY available_at, id`; rows are kept in id
      order. */
  ghost predicate IsSelected(rows: seq<Delivery>, now: real, i: nat) {
    && i < |rows| && IsDue(rows[i], now)
    && (forall k | 0 <= k < |rows| && IsDue(rows[k], now) :: rows[i].availableAt <= rows[k].availableAt)
    && (forall k | 0 <= k < i && IsDue(rows[k], now) :: rows[i].availableAt < rows[k].availableAt)
  }

  lemma {:induction false} SelectedIsUnique(rows: seq<Delivery>, now: real, i: nat, k: nat)
    requires IsSelected(rows, now, i) && IsSelected(rows, now, k)
    ensures i == k
  {
  }

  method SelectDueDelivery(rows: seq<Delivery>, now: real) returns (r: Option<nat>)
    ensures r.None? <==> forall k | 0 <= k < |rows| :: !IsDue(rows[k], now)
    ensures r.Some? ==> IsSelected(rows, now, r.value)
  {
    r := None;
    for n := 0 to |rows|
      invariant r.None? <==> forall k | 0 <= k < n :: !IsDue(rows[k], now)
      invariant r.Some? ==> r.value < n && IsSelected(rows[..n], now, r.value)
    {
      if IsDue(rows[n], now) && (r.None? || rows[n].availableAt < rows[r.value].availableAt) {
        r := Some(n);
      }
    }
    assert rows[..|rows|] == rows;
  }

  class MonitoringRepository {
    const policy: Policy
    const hash: AttemptHash
    var rows: seq<Delivery>

    ghost predicate Valid()
      reads this
    {
      policy.Ok() && forall i | 0 <= i < |rows| :: DeliveryOk(hash, policy, rows[i])
    }

    constructor (policy: Policy, hash: AttemptHash)
      requires policy.Ok()
      ensures Valid() && rows == [] && this.policy == policy && this.hash == hash
    {
      this.policy, this.hash, rows := policy, hash, [];
    }

    /** A new alert enters the outbox. */
    method Enqueue(availableAt: real, expiresAt: real, payloadHash: Digest)
      requires Valid() && availableAt < expiresAt
      modifies this
      ensures Valid() && rows == old(rows) + [Delivery(availableAt, expiresAt, policy.maxAttempts, payloadHash, [])]
    {
      rows := rows + [Delivery(availableAt, expiresAt, policy.maxAttempts, payloadHash, [])];
    }

    /** `deliver_one`.  It fails, leaving nothing behind, only when the clock
        went back during the write. */
    method DeliverOne(now: real, w: Write) returns (r: Option<DeliveryResult>)
      requires Valid() && 0.0 <= w.jitter <= 1.0
      modifies this
      ensures Valid() && |rows| == |old(rows)|
      ensures r.None? ==> rows == old(rows)
      ensures r.None? <==>
        exists i: nat :: IsSelected(old(rows), now, i) && old(rows)[i].expiresAt - now > 0.05 && w.finishedAt < now
      ensures r == Some(Idle(false)) <==> forall k | 0 <= k < |rows| :: !IsDue(old(rows)[k], now)
      ensures r.Some? && r.value.Idle? ==> rows == old(rows)
      ensures r == Some(Idle(true)) <==>
        exists i: nat :: IsSelected(old(rows), now, i) && 0.0 < old(rows)[i].expiresAt - now <= 0.05
      ensures r.Some? && r.value.Attempted? ==>
        var i, a := r.value.index, r.value.attempt;
        && IsSelected(old(rows), now, i) && NextAttempt(hash, policy, old(rows)[i], now, w) == Some(a)
        && GuardAccepts(old(rows)[i], a) && rows == old(rows)[i := Appended(old(rows)[i], a)]
        && TellsWrite(policy, old(rows)[i], now, w, a)
    {
      var selected := SelectDueDelivery(rows, now);
      if selected.None? { return Some(Idle(false)); }
      var d := rows[selected.value];
      forall i: nat | IsSelected(rows, now, i) ensures i == selected.value {
        SelectedIsUnique(rows, now, i, selected.value);
      }
      NextTellsWrite(hash, policy, d, now, w);
      StoredRowsRevalidate(hash, policy, d, now);
      assert RowAccepted(policy, d, true);
      var attempt := AttemptDelivery(d, now, w);
      if attempt.None? { return Some(Idle(true)); }
      if attempt.value.finishedAt < now { return None; }  // refused by the table
      NextMayAppend(hash, policy, d, now, w);
      GuardExact(hash, policy, d, attempt.value);
      AppendKeepsOk(hash, policy, d, attempt.value);
      rows := rows[selected.value := Appended(d, attempt.value)];
      return Some(Attempted(selected.value, attempt.value));
    }

    /** The branches of `deliver_one` for a selected delivery. */
    method AttemptDelivery(d: Delivery, now: real, w: Write) returns (a: Option<Attempt>)
      ensures a == NextAttempt(hash, policy, d, now, w)
    {
      var attemptNo := |d.attempts| + 1;
      if now >= d.expiresAt {
        return Some(Make(hash, d, Expired, now, now, None, Some(AlertExpired)));
      }
      var secondsRemaining := d.expiresAt - now;
      if secondsRemaining <= SAFETY_MARGIN { return None; }
      if !w.ok {
        var delay := RetryDelay(policy, attemptNo, w.jitter);
        var retryAt := w.finishedAt + delay;
        var retryable := attemptNo < d.maxAttempts && retryAt < d.expiresAt && w.finishedAt < d.expiresAt;
        return Some(Make(hash, d, if retryable then RetryableFailure else PermanentFailure, now, w.finishedAt,
          if retryable then Some(retryAt) else None, Some(StdoutWriteFailed)));
      }
      if w.finishedAt > d.expiresAt {
        return Some(Make(hash, d, PermanentFailure, now, w.finishedAt, None, Some(DeliveryWindowExceeded)));
      }
      return Some(Make(hash, d, Delivered, now, w.finishedAt, None, None));
    }
  }

  // ----- whole runs of one delivery -----

  /** One call that selects this delivery. */
  datatype Visit = Visit(now: real, write: Write)

  function Visited(h: AttemptHash, p: Policy, d: Delivery, v: Visit): Delivery {
    if !IsDue(d, v.now) then d
    else match NextAttempt(h, p, d, v.now, v.write)
      case None => d
      case Some(a) => if a.finishedAt < v.now then d else Appended(d, a)
  }

  function AfterVisits(h: AttemptHash, p: Policy, d: Delivery, vs: seq<Visit>): Delivery
    decreases |vs|
  {
    if vs == [] then d else Visited(h, p, AfterVisits(h, p, d, vs[..|vs| - 1]), vs[|vs| - 1])
  }

  lemma {:induction false} VisitKeepsOk(h: AttemptHash, p: Policy, d: Delivery, v: Visit)
    requires p.Ok() && DeliveryOk(h, p, d) && 0.0 <= v.write.jitter <= 1.0
    ensures var e := Visited(h, p, d, v);
      DeliveryOk(h, p, e) && e.(attempts := d.attempts) == d && d.attempts <= e.attempts
  {
    if IsDue(d, v.now) && NextAttempt(h, p, d, v.now, v.write).Some? &&
       NextAttempt(h, p, d, v.now, v.write).value.finishedAt >= v.now {
      NextMayAppend(h, p, d, v.now, v.write);
      AppendKeepsOk(h, p, d, NextAttempt(h, p, d, v.now, v.write).value);
    }
  }

  lemma {:induction false} OnlyLastIsTerminal(h: AttemptHash, p: Policy, d: Delivery, i: nat)
    requires DeliveryOk(h, p, d)
    ensures |d.attempts| <= p.maxAttempts
    ensures i < |d.attempts| && d.attempts[i].outcome.Terminal() ==> i == |d.attempts| - 1
  {
    if d.attempts != [] { assert AttemptOk(h, d, |d.attempts| - 1); }
    if i + 1 < |d.attempts| { assert AttemptOk(h, d, i + 1); }
  }

  /** Over every run: at most `maxAttempts` attempts, none after a terminal one,
      and what was stored is never changed. */
  lemma {:induction false} RunsStayBounded(h: AttemptHash, p: Policy, d: Delivery, vs: seq<Visit>, i: nat)
    requires p.Ok() && DeliveryOk(h, p, d) && d.attempts == []
    requires forall k | 0 <= k < |vs| :: 0.0 <= vs[k].write.jitter <= 1.0
    ensures var e := AfterVisits(h, p, d, vs);
      && DeliveryOk(h, p, e) && e.(attempts := []) == d && |e.attempts| <= p.maxAttempts
      && (i < |e.attempts| && e.attempts[i].outcome.Terminal() ==> i == |e.attempts| - 1)
    ensures vs != [] ==> AfterVisits(h, p, d, vs[..|vs| - 1]).attempts <= AfterVisits(h, p, d, vs).attempts
    decreases |vs|
  {
    if vs != [] {
      var front := vs[..|vs| - 1];
      RunsStayBounded(h, p, d, front, i);
      VisitKeepsOk(h, p, AfterVisits(h, p, d, front), vs[|vs| - 1]);
    }
    OnlyLastIsTerminal(h, p, AfterVisits(h, p, d, vs), i);
  }

  // ----- every delivery ends -----

  predicate Ended(d: Delivery) { d.attempts != [] && d.attempts[|d.attempts| - 1].outcome.Terminal() }

  /** The delivery is due, outside the safety margin, and the clock does not go
      back during the write. */
  predicate Effective(d: Delivery, v: Visit) {
    && IsDue(d, v.now) && (v.now >= d.expiresAt || d.expiresAt - v.now > SAFETY_MARGIN)
    && (v.now < d.expiresAt ==> v.now <= v.write.finishedAt)
  }

  function EffectiveVisits(h: AttemptHash, p: Policy, d: Delivery, vs: seq<Visit>): nat
    decreases |vs|
  {
    if vs == [] then 0
    else
      var front := vs[..|vs| - 1];
      EffectiveVisits(h, p, d, front) + if Effective(AfterVisits(h, p, d, front), vs[|vs| - 1]) then 1 else 0
  }

  lemma {:induction false} EffectiveVisitAppends(h: AttemptHash, p: Policy, d: Delivery, v: Visit)
    ensures Visited(h, p, d, v).expiresAt == d.expiresAt
    ensures |Visited(h, p, d, v).attempts| == |d.attempts| + if Effective(d, v) then 1 else 0
  {
  }

  /** Nothing is attempted twice or for nothing: there are exactly as many
      attempts as effective visits. */
  lemma {:induction false} AttemptsCountVisits(h: AttemptHash, p: Policy, d: Delivery, vs: seq<Visit>)
    ensures |AfterVisits(h, p, d, vs).attempts| == |d.attempts| + EffectiveVisits(h, p, d, vs)
    decreases |vs|
  {
    if vs != [] {
      var front := vs[..|vs| - 1];
      AttemptsCountVisits(h, p, d, front);
      EffectiveVisitAppends(h, p, AfterVisits(h, p, d, front), vs[|vs| - 1]);
    }
  }

  /** No later visit changes a delivery that has ended. */
  lemma {:induction false} EndedStays(h: AttemptHash, p: Policy, d: Delivery, vs: seq<Visit>)
    requires Ended(d)
    ensures AfterVisits(h, p, d, vs) == d && EffectiveVisits(h, p, d, vs) == 0
    decreases |vs|
  {
    if vs != [] { EndedStays(h, p, d, vs[..|vs| - 1]); }
  }

  /** The last allowed attempt is never a retry. */
  lemma {:induction false} FullIsEnded(h: AttemptHash, p: Policy, d: Delivery)
    requires p.Ok() && DeliveryOk(h, p, d) && |d.attempts| >= p.maxAttempts
    ensures Ended(d)
  {
    assert AttemptOk(h, d, |d.attempts| - 1);
  }

  /** A new delivery has ended after `maxAttempts` effective visits, whatever
      the writes do, and after any visit from its expiry on. */
  lemma {:induction false} DeliveriesEnd(h: AttemptHash, p: Policy, d: Delivery, vs: seq<Visit>, v: Visit)
    requires p.Ok() && DeliveryOk(h, p, d) && d.attempts == []
    requires forall k | 0 <= k < |vs| :: 0.0 <= vs[k].write.jitter <= 1.0
    ensures EffectiveVisits(h, p, d, vs) <= p.maxAttempts
    ensures EffectiveVisits(h, p, d, vs) == p.maxAttempts ==> Ended(AfterVisits(h, p, d, vs))
    ensures d.expiresAt <= v.now ==> Ended(AfterVisits(h, p, d, vs + [v]))
  {
    var e := AfterVisits(h, p, d, vs);
    RunsStayBounded(h, p, d, vs, 0);
    AttemptsCountVisits(h, p, d, vs);
    if |e.attempts| >= p.maxAttempts { FullIsEnded(h, p, e); }
    if d.expiresAt <= v.now {
      assert (vs + [v])[..|vs|] == vs;
      if e.attempts != [] { assert AttemptOk(h, e, |e.attempts| - 1); }
    }
  }

  predicate WasDelivered(d: Delivery) { exists i | 0 <= i < |d.attempts| :: d.attempts[i].outcome == Delivered }

  /** The visit wrote the alert in time. */
  predicate WritesInTime(d: Delivery, v: Visit) {
    Effective(d, v) && v.now < d.expiresAt && v.write.ok && v.write.finishedAt <= d.expiresAt
  }

  lemma {:induction false} VisitDelivers(h: AttemptHash, p: Policy, d: Delivery, v: Visit)
    ensures WasDelivered(Visited(h, p, d, v)) <==> WasDelivered(d) || WritesInTime(d, v)
  {
    var e := Visited(h, p, d, v);
    NextTellsWrite(h, p, d, v.now, v.write);
    if e != d {
      assert e.attempts[..|d.attempts|] == d.attempts;
      var a := e.attempts[|d.attempts|];
      assert a.outcome == Delivered <==> WritesInTime(d, v);
      if WasDelivered(d) {
        var i :| 0 <= i < |d.attempts| && d.attempts[i].outcome == Delivered;
        assert e.attempts[i].outcome == Delivered;
      }
    }
  }

  predicate WroteAt(h: AttemptHash, p: Policy, d: Delivery, vs: seq<Visit>, n: nat)
    requires n < |vs|
  {
    WritesInTime(AfterVisits(h, p, d, vs[..n]), vs[n])
  }

  lemma {:induction false} WroteInFront(h: AttemptHash, p: Policy, d: Delivery, vs: seq<Visit>, n: nat)
    requires n < |vs| - 1
    ensures WroteAt(h, p, d, vs[..|vs| - 1], n) == WroteAt(h, p, d, vs, n)
  {
    assert vs[..|vs| - 1][..n] == vs[..n];
  }

  lemma {:induction false} SomeWrote(h: AttemptHash, p: Policy, d: Delivery, front: seq<Visit>, vs: seq<Visit>)
    requires vs != [] && front == vs[..|vs| - 1]
    ensures (exists n: nat | n < |vs| :: WroteAt(h, p, d, vs, n)) <==>
            WroteAt(h, p, d, vs, |vs| - 1) || exists n: nat | n < |front| :: WroteAt(h, p, d, front, n)
  {
    forall n: nat | n < |front| ensures WroteAt(h, p, d, front, n) == WroteAt(h, p, d, vs, n) {
      WroteInFront(h, p, d, vs, n);
    }
    if n: nat :| n < |front| && WroteAt(h, p, d, front, n) { assert WroteAt(h, p, d, vs, n); }
  }

  /** Over every run an alert counts as delivered exactly if one of its visits
      wrote it in time. */
  lemma {:induction false} DeliveredExactly(h: AttemptHash, p: Policy, d: Delivery, vs: seq<Visit>)
    requires d.attempts == []
    ensures WasDelivered(AfterVisits(h, p, d, vs)) <==> exists n: nat | n < |vs| :: WroteAt(h, p, d, vs, n)
    decreases |vs|
  {
    if vs != [] {
      DeliveredExactly(h, p, d, vs[..|vs| - 1]);
      VisitDelivers(h, p, AfterVisits(h, p, d, vs[..|vs| - 1]), vs[|vs| - 1]);
      SomeWrote(h, p, d, vs[..|vs| - 1], vs);
    }
  }
}
