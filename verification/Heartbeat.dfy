/**
  The heartbeat of a session loop (`run_session_loop`, engine/src/core/socketio/handler.rs; section
  "Heartbeat" of the Engine.IO protocol, version 4). Ticks come on time, every `interval` from the
  session's creation at time zero; a pong counts at a tick if it was processed strictly before it.
*/
module Heartbeat {
  import opened Wrappers

  /** The latest pong before `now`; creation counts as one. */
  function LastPong(pongs: seq<nat>, now: nat): (last: nat)
    ensures last == 0 || (last < now && last in pongs)
    ensures forall p <- pongs :: p < now ==> p <= last
  {
    if pongs == [] then 0
    else
      var p, last := pongs[|pongs| - 1], LastPong(pongs[..|pongs| - 1], now);
      assert pongs == pongs[..|pongs| - 1] + [p];
      if p < now && p > last then p else last
  }

  /** The `n`-th tick ends the session; otherwise it sends a ping. */
  predicate TimesOut(interval: nat, timeout: nat, pongs: seq<nat>, n: nat) {
    n * interval - LastPong(pongs, n * interval) > interval + timeout
  }

  /** The session has been ended by one of the first `n` ticks. */
  predicate Ended(interval: nat, timeout: nat, pongs: seq<nat>, n: nat) {
    n > 0 && (Ended(interval, timeout, pongs, n - 1) || TimesOut(interval, timeout, pongs, n))
  }

  /** The loop over its first `horizon` ticks: it breaks at the tick that ends the session. */
  method Ticks(interval: nat, timeout: nat, pongs: seq<nat>, horizon: nat) returns (ended: Option<nat>)
    ensures ended.Some? <==> Ended(interval, timeout, pongs, horizon)
    ensures ended.Some? ==>
              && 0 < ended.value <= horizon
              && Ended(interval, timeout, pongs, ended.value) && !Ended(interval, timeout, pongs, ended.value - 1)
  {
    var n, now := 0, 0;
    while n < horizon
      invariant n <= horizon && now == n * interval && !Ended(interval, timeout, pongs, n)
    {
      Step(n, interval);
      n, now := n + 1, now + interval;
      if now - LastPong(pongs, now) > interval + timeout {
        StaysEnded(interval, timeout, pongs, n, horizon);
        return Some(n);
      }
    }
    ended := None;
  }

  lemma {:induction false} StaysEnded(interval: nat, timeout: nat, pongs: seq<nat>, n: nat, later: nat)
    requires n <= later && Ended(interval, timeout, pongs, n)
    ensures Ended(interval, timeout, pongs, later)
  {
    if n < later {
      StaysEnded(interval, timeout, pongs, n, later - 1);
    }
  }

  /** The ping of tick `m` is answered within the time-out. */
  ghost predicate Answered(interval: nat, timeout: nat, pongs: seq<nat>, m: nat) {
    exists p <- pongs :: m * interval <= p <= m * interval + timeout
  }

  /** Every ping whose time-out ran out before tick `n` was answered in time. */
  ghost predicate Prompt(interval: nat, timeout: nat, pongs: seq<nat>, n: nat) {
    forall m: nat | 1 <= m && m * interval + timeout < n * interval :: Answered(interval, timeout, pongs, m)
  }

  lemma Step(m: nat, interval: nat)
    ensures (m + 1) * interval == m * interval + interval
  {
  }

  lemma {:induction false} Monotone(m: nat, n: nat, interval: nat)
    requires m <= n
    ensures m * interval <= n * interval
  {
    if m < n {
      Monotone(m, n - 1, interval);
      Step(n - 1, interval);
    }
  }

  /** The latest tick whose time-out ran out before tick `n`, or none. */
  lemma {:induction false} LatestDue(n: nat, from: nat, interval: nat, timeout: nat) returns (m: nat)
    requires (from + 1) * interval + timeout >= n * interval
    ensures m == 0 || m * interval + timeout < n * interval
    ensures (m + 1) * interval + timeout >= n * interval
    decreases from
  {
    if from == 0 || from * interval + timeout < n * interval {
      m := from;
    } else {
      m := LatestDue(n, from - 1, interval, timeout);
    }
  }

  lemma PromptTick(interval: nat, timeout: nat, pongs: seq<nat>, n: nat)
    requires Prompt(interval, timeout, pongs, n)
    ensures !TimesOut(interval, timeout, pongs, n)
  {
    Monotone(n, n + 1, interval);
    var m := LatestDue(n, n, interval, timeout);
    Step(m, interval);
    if m > 0 {
      assert Answered(interval, timeout, pongs, m);
    }
  }

  /** Whatever the interval and the time-out, a client that answers every ping in time is never dropped. */
  lemma {:induction false} PromptClientStays(interval: nat, timeout: nat, pongs: seq<nat>, n: nat)
    requires forall k: nat | k <= n :: Prompt(interval, timeout, pongs, k)
    ensures !Ended(interval, timeout, pongs, n)
  {
    if n > 0 {
      PromptClientStays(interval, timeout, pongs, n - 1);
      PromptTick(interval, timeout, pongs, n);
    }
  }

  /** The client's last sign of life was at `p`: its last pong, or its creation. */
  ghost predicate SilentSince(pongs: seq<nat>, p: nat) {
    (p == 0 || p in pongs) && forall q <- pongs :: q <= p
  }

  lemma SilentTick(interval: nat, timeout: nat, pongs: seq<nat>, p: nat, n: nat)
    requires SilentSince(pongs, p) && p < n * interval
    ensures TimesOut(interval, timeout, pongs, n) <==> n * interval > p + interval + timeout
  {
  }

  /** The first tick later than `limit`. */
  lemma {:induction false} FirstTickAfter(limit: nat, interval: nat, from: nat) returns (n: nat)
    requires interval > 0 && (from == 0 || (from - 1) * interval <= limit)
    ensures limit < n * interval && n > 0 && (n - 1) * interval <= limit
    decreases limit + interval - from * interval
  {
    if from > 0 && from * interval > limit {
      n := from;
    } else {
      Step(from, interval);
      n := FirstTickAfter(limit, interval, from + 1);
    }
  }

  lemma {:induction false} NotEndedBefore(interval: nat, timeout: nat, pongs: seq<nat>, p: nat, k: nat, n: nat)
    requires SilentSince(pongs, p) && k <= n && p < (k + 1) * interval
    requires !Ended(interval, timeout, pongs, k) && n * interval <= p + interval + timeout
    ensures !Ended(interval, timeout, pongs, n)
    decreases n - k
  {
    if k < n {
      Monotone(k + 1, n, interval);
      Step(n - 1, interval);
      NotEndedBefore(interval, timeout, pongs, p, k, n - 1);
      SilentTick(interval, timeout, pongs, p, n);
    }
  }

  /**
    A client that is silent since `p`, alive up to the tick `k` before that, is dropped at the first
    tick after `p + interval + timeout`, not earlier, and so by `p + 2 * interval + timeout`.
  */
  lemma SilentClientIsDropped(interval: nat, timeout: nat, pongs: seq<nat>, p: nat, k: nat) returns (n: nat)
    requires interval > 0 && SilentSince(pongs, p)
    requires k * interval <= p < (k + 1) * interval && !Ended(interval, timeout, pongs, k)
    ensures n > 0 && (n - 1) * interval <= p + interval + timeout < n * interval
    ensures Ended(interval, timeout, pongs, n) && !Ended(interval, timeout, pongs, n - 1)
    ensures n * interval <= p + 2 * interval + timeout
  {
    n := FirstTickAfter(p + interval + timeout, interval, 0);
    SilentTick(interval, timeout, pongs, p, n);
    Step(n - 1, interval);
    if n - 1 < k { Monotone(n, k, interval); }
    NotEndedBefore(interval, timeout, pongs, p, k, n - 1);
  }
}
