/** The keepalive timer of both kinds of session: one expiry, moved by every activity of the client, and the
    waits armed on it so far whose handlers have not run. */
module Keepalive {
  import opened Sequences

  const KEEPALIVE_SECONDS := 480

  /** A wait is still on the current expiry, has expired with its handler queued at a given time, or was
      cancelled by a later arming or by close. */
  datatype WaitStatus = Waiting | Expired(queuedAt: int) | Cancelled

  datatype Wait = Wait(armedAt: int, status: WaitStatus)

  /** A close by the timer: the wait, and when its handler was queued and run. */
  datatype Timeout = Timeout(armedAt: int, queuedAt: int, at: int)

  function CancelWaiting(w: Wait): Wait { if w.status.Waiting? then w.(status := Cancelled) else w }

  function CancelWaits(waits: seq<Wait>): (r: seq<Wait>)
    ensures |r| == |waits|
    ensures forall i :: 0 <= i < |r| ==> r[i] == CancelWaiting(waits[i])
  {
    seq(|waits|, i requires 0 <= i < |waits| => CancelWaiting(waits[i]))
  }

  /** `expires_from_now` cancels the wait on the old expiry; one whose handler is already queued with
      success is past cancelling.  `async_wait` then adds a wait on the new expiry. */
  function Rearmed(waits: seq<Wait>, now: int): seq<Wait> { CancelWaits(waits) + [Wait(now, Waiting)] }

  function ExpireWait(w: Wait, now: int): Wait { if w.status.Waiting? then w.(status := Expired(now)) else w }

  /** The clock has passed the expiry: the handler of the wait on it is queued with success. */
  function ExpireWaits(waits: seq<Wait>, now: int): seq<Wait> {
    seq(|waits|, i requires 0 <= i < |waits| => ExpireWait(waits[i], now))
  }

  function Without<T>(q: seq<T>, k: nat): seq<T>
    requires k < |q|
  {
    q[..k] + q[k + 1..]
  }

  predicate SomeWaiting(waits: seq<Wait>) { exists k :: 0 <= k < |waits| && waits[k].status.Waiting? }

  // ---- What every use of the timer keeps ------------------------------------------------------

  /** No activity of the client strictly between the two times. */
  ghost predicate Silent(activity: seq<int>, from: int, to: int) {
    forall k :: 0 <= k < |activity| ==> activity[k] <= from || to <= activity[k]
  }

  ghost predicate TimeoutSound(t: Timeout, activity: seq<int>, now: int) {
    t.armedAt + KEEPALIVE_SECONDS <= t.queuedAt <= t.at <= now && Silent(activity, t.armedAt, t.queuedAt)
  }

  /** An expired wait had run its full time without activity. */
  ghost predicate WaitSound(w: Wait, activity: seq<int>, now: int) {
    && w.armedAt <= now
    && (w.status.Expired? ==> TimeoutSound(Timeout(w.armedAt, w.status.queuedAt, now), activity, now))
  }

  /** The expiry is the last activity plus the keepalive time; only the newest wait may still be on it; and
      every older expired wait was overtaken by activity. */
  ghost predicate TimerSound(expiry: int, waits: seq<Wait>, activity: seq<int>, now: int) {
    && (activity == [] ==> waits == [])
    && (activity != [] ==> expiry == Last(activity) + KEEPALIVE_SECONDS)
    && (forall k :: 0 <= k < |activity| ==> activity[k] <= Last(activity) && activity[k] <= now)
    && (forall k :: 0 <= k < |waits| ==> WaitSound(waits[k], activity, now))
    && (forall k :: 0 <= k < |waits| && waits[k].status.Waiting? ==>
          k == |waits| - 1 && waits[k].armedAt == Last(activity))
    && (forall k :: 0 <= k < |waits| - 1 && waits[k].status.Expired? ==> waits[k].status.queuedAt <= Last(activity))
  }

  /** The newest wait was armed by the latest activity and is not cancelled: it keeps the session. */
  ghost predicate Owned(waits: seq<Wait>, activity: seq<int>) {
    waits != [] && activity != [] && Last(waits).armedAt == Last(activity) && !Last(waits).status.Cancelled?
  }

  lemma NeverArmed(expiry: int, now: int)
    ensures TimerSound(expiry, [], [], now)
  {}

  lemma ArmSound(expiry: int, waits: seq<Wait>, activity: seq<int>, now: int)
    requires TimerSound(expiry, waits, activity, now)
    ensures TimerSound(now + KEEPALIVE_SECONDS, Rearmed(waits, now), activity + [now], now)
    ensures Owned(Rearmed(waits, now), activity + [now])
  {
    forall k | 0 <= k < |waits|
      ensures WaitSound(Rearmed(waits, now)[k], activity + [now], now)
    {
      assert WaitSound(waits[k], activity, now);
    }
  }

  lemma CancelSound(expiry: int, waits: seq<Wait>, activity: seq<int>, now: int)
    requires TimerSound(expiry, waits, activity, now)
    ensures TimerSound(expiry, CancelWaits(waits), activity, now) && !SomeWaiting(CancelWaits(waits))
  {
    forall k | 0 <= k < |waits|
      ensures WaitSound(CancelWaits(waits)[k], activity, now)
    {
      assert WaitSound(waits[k], activity, now);
    }
  }

  lemma FireSound(expiry: int, waits: seq<Wait>, activity: seq<int>, now: int)
    requires TimerSound(expiry, waits, activity, now) && now >= expiry
    ensures TimerSound(expiry, ExpireWaits(waits, now), activity, now) && !SomeWaiting(ExpireWaits(waits, now))
    ensures Owned(waits, activity) ==> Owned(ExpireWaits(waits, now), activity)
  {
    forall k | 0 <= k < |waits|
      ensures WaitSound(ExpireWaits(waits, now)[k], activity, now)
    {
      assert WaitSound(waits[k], activity, now);
    }
  }

  lemma TakeSound(expiry: int, waits: seq<Wait>, activity: seq<int>, now: int, k: nat)
    requires TimerSound(expiry, waits, activity, now) && k < |waits| && !waits[k].status.Waiting?
    ensures TimerSound(expiry, Without(waits, k), activity, now)
    ensures SomeWaiting(Without(waits, k)) ==> SomeWaiting(waits)
    ensures waits[k].status.Cancelled? && Owned(waits, activity) ==> Owned(Without(waits, k), activity)
    ensures waits[k].status.Expired? ==>
              TimeoutSound(Timeout(waits[k].armedAt, waits[k].status.queuedAt, now), activity, now)
  {
    var rest := Without(waits, k);
    assert WaitSound(waits[k], activity, now);
    assert forall i :: 0 <= i < |rest| ==> rest[i] == if i < k then waits[i] else waits[i + 1];
    hide WaitSound, Without;
  }

  lemma TickSound(expiry: int, waits: seq<Wait>, activity: seq<int>, now: int, later: int)
    requires TimerSound(expiry, waits, activity, now) && now <= later
    ensures TimerSound(expiry, waits, activity, later)
  {
    forall k | 0 <= k < |waits|
      ensures WaitSound(waits[k], activity, later)
    {
      assert WaitSound(waits[k], activity, now);
    }
  }

  /** What an expired wait says about the client.  The newest one has seen the client silent for the whole
      keepalive time; an older one expired before the last activity, which could no longer cancel it.  So,
      if its handler runs before another keepalive time has passed, the client has been silent exactly when
      the wait is the newest. */
  lemma ExpiryMeans(expiry: int, waits: seq<Wait>, activity: seq<int>, now: int, k: nat)
    requires TimerSound(expiry, waits, activity, now) && Owned(waits, activity)
    requires k < |waits| && waits[k].status.Expired?
    ensures var newest := k == |waits| - 1;
            var queuedAt := waits[k].status.queuedAt;
            && waits[k].armedAt + KEEPALIVE_SECONDS <= queuedAt <= now
            && (newest ==> now >= Last(activity) + KEEPALIVE_SECONDS)
            && (!newest ==> queuedAt <= Last(activity))
            && (now < queuedAt + KEEPALIVE_SECONDS ==> (now >= Last(activity) + KEEPALIVE_SECONDS <==> newest))
  {
    assert WaitSound(waits[k], activity, now);
  }
}
