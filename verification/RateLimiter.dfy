/**
  The in-memory rate limiter (engine/src/core/rate_limiter.rs). Times are seconds read from the
  clock before the lock is taken; the counter is a u32 that wraps, as in a release build.
*/
module RateLimiter {
  type Key(==, !new)

  const COUNTER_LIMIT: nat := 0x1_0000_0000
  const SWEEP_ABOVE: nat := 10_000

  datatype Entry = Entry(count: nat, since: nat)

  type Store = map<Key, Entry>

  /** `duration_since` saturates at zero. */
  function Since(now: nat, start: nat): nat {
    if now < start then 0 else now - start
  }

  predicate Expired(e: Entry, now: nat, window: nat) {
    Since(now, e.since) > window
  }

  function Live(store: Store, now: nat, window: nat): Store {
    map k | k in store && !Expired(store[k], now, window) :: store[k]
  }

  /** One check at one key, without the sweep: the key's new entry and the answer. */
  function Touch(store: Store, key: Key, now: nat, window: nat, max: nat): (Entry, bool) {
    var e := if key in store then store[key] else Entry(0, now);
    if Expired(e, now, window) then (Entry(1, now), true)
    else
      var count := (e.count + 1) % COUNTER_LIMIT;
      (Entry(count, e.since), count <= max)
  }

  /** A sweep follows only a check that did not reset an expired entry. */
  predicate Sweeps(store: Store, key: Key, now: nat, window: nat) {
    !(key in store && Expired(store[key], now, window)) && |store.Keys + {key}| > SWEEP_ABOVE
  }

  datatype Call = Call(key: Key, now: nat, max: nat)

  function Step(store: Store, c: Call, window: nat, sweeping: bool): (Store, bool) {
    var (e, allowed) := Touch(store, c.key, c.now, window, c.max);
    var touched := store[c.key := e];
    (if sweeping && Sweeps(store, c.key, c.now, window) then Live(touched, c.now, window) else touched, allowed)
  }

  class InMemoryRateLimiter {
    var store: Store

    constructor ()
      ensures store == map[]
    {
      store := map[];
    }

    method Check(key: Key, max: nat, window: nat, now: nat) returns (allowed: bool)
      requires max < COUNTER_LIMIT
      modifies this
      ensures (store, allowed) == Step(old(store), Call(key, now, max), window, true)
    {
      ghost var before := store;
      if key !in store {
        store := store[key := Entry(0, now)];
      }
      var entry := store[key];
      if Since(now, entry.since) > window {
        store := store[key := Entry(1, now)];
        assert store == before[key := Entry(1, now)];
        return true;
      }
      entry := entry.(count := (entry.count + 1) % COUNTER_LIMIT);
      store := store[key := entry];
      assert store == before[key := entry] && store.Keys == before.Keys + {key};
      allowed := entry.count <= max;
      if |store.Keys| > SWEEP_ABOVE {
        store := map k | k in store && Since(now, store[k].since) <= window :: store[k];
        assert store == Live(before[key := entry], now, window);
      }
    }
  }

  // ----- traces -----

  function Run(calls: seq<Call>, window: nat, sweeping: bool): Store {
    if calls == [] then map[]
    else Step(Run(calls[..|calls| - 1], window, sweeping), calls[|calls| - 1], window, sweeping).0
  }

  /** The answer to the last call of a trace. */
  function Answer(calls: seq<Call>, window: nat, sweeping: bool): bool
    requires calls != []
  {
    Step(Run(calls[..|calls| - 1], window, sweeping), calls[|calls| - 1], window, sweeping).1
  }

  predicate NonDecreasing(calls: seq<Call>) {
    forall i, j | 0 <= i < j < |calls| :: calls[i].now <= calls[j].now
  }

  // ----- the sweep cannot be observed -----

  ghost predicate SweptAt(swept: Store, full: Store, k: Key, now: nat, window: nat) {
    && (k in swept ==> k in full && swept[k] == full[k])
    && (k in full && k !in swept ==> Expired(full[k], now, window))
  }

  /** The sweeping store misses nothing but entries that have expired by now. */
  ghost predicate Swept(swept: Store, full: Store, now: nat, window: nat) {
    forall k :: SweptAt(swept, full, k, now, window)
  }

  lemma SweptTouch(swept: Store, full: Store, c: Call, window: nat)
    requires SweptAt(swept, full, c.key, c.now, window) && 1 <= c.max
    ensures Touch(swept, c.key, c.now, window, c.max) == Touch(full, c.key, c.now, window, c.max)
  {
  }

  lemma SweptStep(swept: Store, full: Store, before: nat, c: Call, window: nat)
    requires Swept(swept, full, before, window) && before <= c.now && 1 <= c.max
    ensures Step(swept, c, window, true).1 == Step(full, c, window, false).1
    ensures Swept(Step(swept, c, window, true).0, Step(full, c, window, false).0, c.now, window)
  {
    assert SweptAt(swept, full, c.key, before, window);
    SweptTouch(swept, full, c, window);
    forall k ensures SweptAt(Step(swept, c, window, true).0, Step(full, c, window, false).0, k, c.now, window) {
      assert SweptAt(swept, full, k, before, window);
    }
  }

  predicate PositiveLimits(calls: seq<Call>) {
    forall c <- calls :: 1 <= c.max
  }

  lemma {:induction false} RunIsSwept(calls: seq<Call>, window: nat, now: nat)
    requires NonDecreasing(calls) && PositiveLimits(calls)
    requires calls != [] ==> calls[|calls| - 1].now <= now
    ensures Swept(Run(calls, window, true), Run(calls, window, false), now, window)
  {
    if calls != [] {
      var init, last := calls[..|calls| - 1], calls[|calls| - 1];
      RunIsSwept(init, window, last.now);
      assert last in calls && forall c <- init :: c in calls;
      SweptStep(Run(init, window, true), Run(init, window, false), last.now, last, window);
      var swept, full := Run(calls, window, true), Run(calls, window, false);
      forall k ensures SweptAt(swept, full, k, now, window) {
        assert SweptAt(swept, full, k, last.now, window);
      }
    }
  }

  /** Whatever the keys and however many, the limiter answers every call as one that never evicts. */
  lemma SweepIsUnobservable(calls: seq<Call>, window: nat)
    requires calls != [] && NonDecreasing(calls) && PositiveLimits(calls)
    ensures Answer(calls, window, true) == Answer(calls, window, false)
  {
    var init, last := calls[..|calls| - 1], calls[|calls| - 1];
    assert last in calls && forall c <- init :: c in calls;
    RunIsSwept(init, window, last.now);
    SweptStep(Run(init, window, true), Run(init, window, false), last.now, last, window);
  }

  /**
    A check that resets no entry leaves at most 10000 entries, or none that has expired by then; and it
    drops none as long as there are no more than 10000.
  */
  lemma StoreIsBounded(store: Store, c: Call, window: nat)
    requires c.key in store ==> c.now <= store[c.key].since + window
    ensures var after := Step(store, c, window, true).0;
            && (|after| <= 10_000 || forall k <- after :: c.now <= after[k].since + window)
            && (forall k <- after :: k == c.key || (k in store && after[k] == store[k]))
            && (forall k <- store :: k !in after ==> |store.Keys + {c.key}| > 10_000 && c.now > store[k].since + window)
            && c.key in after
  {
    var touched := store[c.key := Touch(store, c.key, c.now, window, c.max).0];
    assert touched.Keys == store.Keys + {c.key};
    assert |touched| == |touched.Keys|;
  }

  /** One that does reset an entry replaces that one and no other. */
  lemma ResetReplaces(store: Store, c: Call, window: nat)
    requires c.key in store && c.now > store[c.key].since + window
    ensures Step(store, c, window, true) == (store[c.key := Entry(1, c.now)], true)
  {
  }

  /**
    Whether an expired entry was swept shows exactly at the limit zero: the reset admits the call,
    a new entry does not.
  */
  lemma SweptEntryShowsIff(full: Store, c: Call, window: nat)
    requires c.key in full && Expired(full[c.key], c.now, window)
    ensures Step(full, c, window, true).1 != Step(full - {c.key}, c, window, true).1 <==> c.max == 0
  {
  }

  // ----- how many calls an interval admits -----

  /** Some call's counter goes round past the u32 limit. */
  predicate Overflows(calls: seq<Call>, window: nat) {
    calls != [] &&
    (var init, last := calls[..|calls| - 1], calls[|calls| - 1];
     var store := Run(init, window, false);
     || Overflows(init, window)
     || (last.key in store && !Expired(store[last.key], last.now, window) && store[last.key].count + 1 >= COUNTER_LIMIT))
  }

  /** The calls on a key, in a closed interval, that the limiter lets through. */
  function Admitted(calls: seq<Call>, window: nat, sweeping: bool, key: Key, from: nat, to: nat): nat {
    if calls == [] then 0
    else
      var last := calls[|calls| - 1];
      Admitted(calls[..|calls| - 1], window, sweeping, key, from, to) +
      if last.key == key && from <= last.now <= to && Answer(calls, window, sweeping) then 1 else 0
  }

  lemma {:induction false} AdmittedAlike(calls: seq<Call>, window: nat, key: Key, from: nat, to: nat)
    requires NonDecreasing(calls) && PositiveLimits(calls)
    ensures Admitted(calls, window, true, key, from, to) == Admitted(calls, window, false, key, from, to)
  {
    if calls != [] {
      assert forall c <- calls[..|calls| - 1] :: c in calls;
      SweepIsUnobservable(calls, window);
      AdmittedAlike(calls[..|calls| - 1], window, key, from, to);
    }
  }

  function Least(a: nat, b: nat): nat {
    if a < b then a else b
  }

  /**
    What the key's entry says about the calls admitted since `from`: before the window it is in, at most
    `given` were, in windows that take at least `begun` ticks.
  */
  ghost predicate Budget(calls: seq<Call>, window: nat, key: Key, max: nat, from: nat, to: nat, begun: nat, given: nat) {
    var store, n := Run(calls, window, false), Admitted(calls, window, false, key, from, to);
    if key in store then EntryBudget(store[key], n, window, max, from, begun, given) else n == 0
  }

  predicate EntryBudget(e: Entry, n: nat, window: nat, max: nat, from: nat, begun: nat, given: nat) {
    && 1 <= e.count
    && (e.since < from ==> n <= Least(e.count, max) - 1 && (n > 0 ==> from <= e.since + window))
    && (e.since >= from ==> begun <= e.since - from && n <= given + Least(e.count, max))
  }

  /** That was `full` whole windows, and perhaps one from before the interval, at its very start. */
  ghost predicate Spent(window: nat, max: nat, begun: nat, given: nat) {
    exists full: nat, early: nat :: SpentOn(window, max, begun, given, full, early)
  }

  predicate SpentOn(window: nat, max: nat, begun: nat, given: nat, full: nat, early: nat) {
    early <= 1 <= max && begun == full * (window + 1) + early && given == full * max + early * (max - 1)
  }

  predicate SameLimit(calls: seq<Call>, key: Key, max: nat) {
    forall c <- calls :: c.key == key ==> c.max == max
  }

  predicate UpTo(calls: seq<Call>, to: nat) {
    forall c <- calls :: c.now <= to
  }

  lemma {:induction false} KeepBudget(calls: seq<Call>, window: nat, key: Key, max: nat, from: nat, to: nat) returns (begun: nat, given: nat)
    requires NonDecreasing(calls) && SameLimit(calls, key, max) && 1 <= max && UpTo(calls, to)
    requires !Overflows(calls, window)
    ensures Budget(calls, window, key, max, from, to, begun, given) && Spent(window, max, begun, given)
  {
    begun, given := 0, 0;
    if calls == [] {
      assert SpentOn(window, max, 0, 0, 0, 0);
    } else {
      var init, last := calls[..|calls| - 1], calls[|calls| - 1];
      assert calls == init + [last] && last in calls && forall c <- init :: c in calls;
      begun, given := KeepBudget(init, window, key, max, from, to);
      if last.key == key {
        EarlierThanLast(calls, window, key, from, to);
        var begun', given' := BudgetStep(init, last, window, key, max, from, to, begun, given);
        StaysSpent(window, max, begun, given, begun', given');
        begun, given := begun', given';
      } else {
        BudgetOther(init, last, window, key, max, from, to, begun, given);
      }
    }
  }

  lemma BudgetOther(init: seq<Call>, last: Call, window: nat, key: Key, max: nat, from: nat, to: nat, begun: nat, given: nat)
    requires Budget(init, window, key, max, from, to, begun, given) && last.key != key
    ensures Budget(init + [last], window, key, max, from, to, begun, given)
  {
    assert (init + [last])[..|init|] == init;
  }

  lemma EarlierThanLast(calls: seq<Call>, window: nat, key: Key, from: nat, to: nat)
    requires calls != [] && NonDecreasing(calls)
    ensures var init, last, store := calls[..|calls| - 1], calls[|calls| - 1], Run(calls[..|calls| - 1], window, false);
            && (last.now < from ==> Admitted(init, window, false, key, from, to) == 0)
            && (key in store ==> store[key].since <= last.now)
  {
    var init, last := calls[..|calls| - 1], calls[|calls| - 1];
    if last.now < from {
      NothingBefore(init, window, key, from, to);
    }
    SinceInPast(init, window, key, last.now);
  }

  lemma {:induction false} NothingBefore(calls: seq<Call>, window: nat, key: Key, from: nat, to: nat)
    requires forall c <- calls :: c.now < from
    ensures Admitted(calls, window, false, key, from, to) == 0
  {
    if calls != [] {
      var init, last := calls[..|calls| - 1], calls[|calls| - 1];
      assert last in calls && forall c <- init :: c in calls;
      NothingBefore(init, window, key, from, to);
    }
  }

  lemma {:induction false} SinceInPast(calls: seq<Call>, window: nat, key: Key, now: nat)
    requires UpTo(calls, now)
    ensures var store := Run(calls, window, false); key in store ==> store[key].since <= now
  {
    if calls != [] {
      var init, last := calls[..|calls| - 1], calls[|calls| - 1];
      assert last in calls && forall c <- init :: c in calls;
      SinceInPast(init, window, key, now);
    }
  }

  lemma NextWindow(full: nat, window: nat, gap: int, further: int, max: nat)
    requires full * (window + 1) <= gap && further > gap + window
    ensures (full + 1) * (window + 1) <= further
    ensures (full + 1) * max == full * max + max
  {
  }

  /** One call's effect on its key's entry and on what the interval has admitted. */
  lemma CallEffect(init: seq<Call>, last: Call, window: nat, from: nat, to: nat)
    ensures var store, after := Run(init, window, false), Run(init + [last], window, false);
            && last.key in after
            && after[last.key] == Touch(store, last.key, last.now, window, last.max).0
            && Admitted(init + [last], window, false, last.key, from, to) ==
               Admitted(init, window, false, last.key, from, to) +
               if from <= last.now <= to && Touch(store, last.key, last.now, window, last.max).1 then 1 else 0
  {
    assert (init + [last])[..|init|] == init;
  }

  lemma FreshBudget(now: nat, n: nat, window: nat, max: nat, from: nat)
    requires 1 <= max && n <= 1 && (now < from ==> n == 0)
    ensures EntryBudget(Entry(1, now), n, window, max, from, 0, 0)
  {
  }

  /** A call inside the window: the entry counts it, and it is let through only while there is room. */
  lemma CountedBudget(e: Entry, n: nat, n': nat, now: nat, window: nat, max: nat, from: nat, begun: nat, given: nat)
    requires EntryBudget(e, n, window, max, from, begun, given) && 1 <= max && e.since <= now <= e.since + window
    requires n' <= n + (if from <= now && e.count + 1 <= max then 1 else 0) && (now < from ==> n == 0)
    ensures EntryBudget(Entry(e.count + 1, e.since), n', window, max, from, begun, given)
  {
  }

  /** The ways in which a call changes what has been spent: not at all, from the start, or by one window more. */
  predicate SpendsOn(window: nat, max: nat, begun: nat, given: nat, begun': nat, given': nat)
    requires max >= 1
  {
    || (begun' == begun && given' == given)
    || (begun' == 0 && given' == 0)
    || (begun' == 1 && given' == max - 1)
    || (begun' == begun + window + 1 && given' == given + max)
  }

  lemma StaysSpent(window: nat, max: nat, begun: nat, given: nat, begun': nat, given': nat)
    requires Spent(window, max, begun, given) && max >= 1 && SpendsOn(window, max, begun, given, begun', given')
    ensures Spent(window, max, begun', given')
  {
    var full: nat, early: nat :| SpentOn(window, max, begun, given, full, early);
    assert SpentOn(window, max, 0, 0, 0, 0) && SpentOn(window, max, 1, max - 1, 0, 1);
    assert SpentOn(window, max, begun + window + 1, given + max, full + 1, early);
  }

  /** A call behind the window: the window is full, or was used from before the interval. */
  lemma NextBudget(e: Entry, n: nat, n': nat, now: nat, window: nat, max: nat, from: nat, begun: nat, given: nat)
    returns (begun': nat, given': nat)
    requires EntryBudget(e, n, window, max, from, begun, given) && 1 <= max && now > e.since + window
    requires n' <= n + (if from <= now then 1 else 0) && (now < from ==> n == 0)
    ensures EntryBudget(Entry(1, now), n', window, max, from, begun', given') && SpendsOn(window, max, begun, given, begun', given')
  {
    if e.since < from {
      begun', given' := if n > 0 then 1 else 0, if n > 0 then max - 1 else 0;
    } else {
      begun', given' := begun + window + 1, given + max;
    }
  }

  lemma BudgetStep(init: seq<Call>, last: Call, window: nat, key: Key, max: nat, from: nat, to: nat, begun: nat, given: nat)
    returns (begun': nat, given': nat)
    requires Budget(init, window, key, max, from, to, begun, given) && 1 <= max
    requires last.key == key && last.max == max && last.now <= to && !Overflows(init + [last], window)
    requires last.now < from ==> Admitted(init, window, false, key, from, to) == 0
    requires key in Run(init, window, false) ==> Run(init, window, false)[key].since <= last.now
    ensures Budget(init + [last], window, key, max, from, to, begun', given') && SpendsOn(window, max, begun, given, begun', given')
  {
    assert (init + [last])[..|init|] == init;
    var store, n, n' := Run(init, window, false), Admitted(init, window, false, key, from, to), Admitted(init + [last], window, false, key, from, to);
    CallEffect(init, last, window, from, to);
    begun', given' := begun, given;
    if key !in store {
      begun', given' := 0, 0;
      FreshBudget(last.now, n', window, max, from);
    } else if Expired(store[key], last.now, window) {
      begun', given' := NextBudget(store[key], n, n', last.now, window, max, from, begun, given);
    } else {
      CountedBudget(store[key], n, n', last.now, window, max, from, begun, given);
    }
  }

  lemma {:induction false} NothingAfter(calls: seq<Call>, window: nat, sweeping: bool, key: Key, from: nat, to: nat, n: nat)
    requires n <= |calls| && forall i | n <= i < |calls| :: calls[i].now > to
    ensures Admitted(calls, window, sweeping, key, from, to) == Admitted(calls[..n], window, sweeping, key, from, to)
  {
    if n == |calls| {
      assert calls[..n] == calls;
    } else {
      assert calls[..|calls| - 1][..n] == calls[..n];
      NothingAfter(calls[..|calls| - 1], window, sweeping, key, from, to, n);
    }
  }

  lemma {:induction false} PrefixOverflows(calls: seq<Call>, window: nat, n: nat)
    requires n <= |calls| && Overflows(calls[..n], window)
    ensures Overflows(calls, window)
  {
    if n == |calls| {
      assert calls[..n] == calls;
    } else {
      assert calls[..|calls| - 1][..n] == calls[..n];
      PrefixOverflows(calls[..|calls| - 1], window, n);
    }
  }

  /** The calls that are not too late for the interval. */
  function EndOf(calls: seq<Call>, to: nat): (n: nat)
    ensures n <= |calls|
    ensures n > 0 ==> calls[n - 1].now <= to
    ensures forall i | n <= i < |calls| :: calls[i].now > to
  {
    if calls == [] || calls[|calls| - 1].now <= to then |calls| else EndOf(calls[..|calls| - 1], to)
  }

  /** The most calls a key gets in a closed interval: its limit once per window that fits, and once more but for one call. */
  function Most(length: nat, window: nat, max: nat): nat
    requires max >= 1
  {
    (length / (window + 1) + 1) * max + if length % (window + 1) == 0 then 0 else max - 1
  }

  /** How many windows can begin `d` ticks or more from the start of an interval. */
  lemma Windows(full: nat, d: nat, window: nat, length: nat)
    requires full * (window + 1) + d <= length
    ensures full <= length / (window + 1)
    ensures d > 0 && length % (window + 1) == 0 ==> full + 1 <= length / (window + 1)
  {
    var q, r := length / (window + 1), length % (window + 1);
    assert length == q * (window + 1) + r;
    if full > q {
      Monotone(q + 1, full, window + 1);
    }
    if d > 0 && r == 0 && full == q {
      assert false;
    }
  }

  lemma Monotone(a: nat, b: nat, m: nat)
    requires a <= b
    ensures a * m <= b * m
  {
  }

  /** What windows that fit the interval can give, with one more on top. */
  lemma SpentIsMost(window: nat, max: nat, begun: nat, given: nat, length: nat)
    requires Spent(window, max, begun, given) && begun <= length && 1 <= max
    ensures given + max <= Most(length, window, max)
  {
    var full: nat, early: nat :| SpentOn(window, max, begun, given, full, early);
    var q := length / (window + 1);
    Windows(full, early, window, length);
    Monotone(full, q, max);
    if full < q { Monotone(full + 1, q, max); NextWindow(full, 0, full, full + 1, max); }
    NextWindow(q, 0, q, q + 1, max);
  }

  lemma BudgetBounds(calls: seq<Call>, window: nat, key: Key, max: nat, from: nat, to: nat, begun: nat, given: nat)
    requires max >= 1 && from <= to && UpTo(calls, to) && Spent(window, max, begun, given)
    requires Budget(calls, window, key, max, from, to, begun, given)
    ensures Admitted(calls, window, false, key, from, to) <= Most(to - from, window, max)
  {
    SinceInPast(calls, window, key, to);
    var store := Run(calls, window, false);
    assert SpentOn(window, max, 0, 0, 0, 0);
    SpentIsMost(window, max, 0, 0, to - from);
    if key in store && store[key].since >= from {
      SpentIsMost(window, max, begun, given, to - from);
    }
  }

  /** What holds of every call of a trace holds of its prefixes. */
  lemma Prefix(calls: seq<Call>, n: nat, key: Key, max: nat)
    requires n <= |calls| && NonDecreasing(calls) && SameLimit(calls, key, max)
    ensures NonDecreasing(calls[..n]) && SameLimit(calls[..n], key, max)
    ensures n > 0 ==> UpTo(calls[..n], calls[n - 1].now)
  {
    assert forall c <- calls[..n] :: c in calls;
  }

  lemma BoundInTime(calls: seq<Call>, window: nat, key: Key, max: nat, from: nat, to: nat)
    requires NonDecreasing(calls) && SameLimit(calls, key, max) && 1 <= max && from <= to
    requires !Overflows(calls, window) && UpTo(calls, to)
    ensures Admitted(calls, window, false, key, from, to) <= Most(to - from, window, max)
  {
    var begun, given := KeepBudget(calls, window, key, max, from, to);
    BudgetBounds(calls, window, key, max, from, to, begun, given);
  }

  /** No closed interval admits more calls on a key than `Most`, sweeps included, unless the key's counter overflows. */
  lemma IntervalBound(calls: seq<Call>, window: nat, key: Key, max: nat, from: nat, to: nat)
    requires NonDecreasing(calls) && PositiveLimits(calls) && SameLimit(calls, key, max) && 1 <= max && from <= to
    requires !Overflows(calls, window)
    ensures Admitted(calls, window, true, key, from, to) <= Most(to - from, window, max)
  {
    AdmittedAlike(calls, window, key, from, to);
    var n := EndOf(calls, to);
    Prefix(calls, n, key, max);
    if Overflows(calls[..n], window) { PrefixOverflows(calls, window, n); }
    NothingAfter(calls, window, false, key, from, to, n);
    BoundInTime(calls[..n], window, key, max, from, to);
  }

  /** For `k` window lengths that is less than `k + 1` times the limit, and just one less while `k` is at most the window in ticks. */
  lemma MostOfWindows(k: nat, window: nat, max: nat)
    requires k >= 1 && max >= 1
    ensures Most(k * window, window, max) <= (k + 1) * max - 1
    ensures k <= window ==> Most(k * window, window, max) == (k + 1) * max - 1
  {
    DividedWindows(k, window);
    var q, r := k * window / (window + 1), k * window % (window + 1);
    Monotone(q + 1, k, max);
    NextWindow(k, 0, k, k + 1, max);
  }

  lemma DividedWindows(k: nat, window: nat)
    requires k >= 1
    ensures k * window / (window + 1) <= k - 1
    ensures k <= window ==> k * window / (window + 1) == k - 1 && k * window % (window + 1) == window + 1 - k
  {
    assert k * window == k * (window + 1) - k;
    Quotients(k * window, window + 1, k);
    if k <= window {
      assert k * (window + 1) == (k - 1) * (window + 1) + (window + 1);
      Quotient(k * window, window + 1, k - 1, window + 1 - k);
    }
  }

  lemma Quotient(a: nat, m: nat, q: nat, r: nat)
    requires r < m && a == q * m + r
    ensures a / m == q && a % m == r
  {
    Quotients(a, m, q + 1);
    if a / m + 1 <= q {
      Monotone(a / m + 1, q, m);
    }
  }

  lemma Quotients(a: nat, m: nat, k: nat)
    requires m >= 1 && a < k * m
    ensures a / m < k
  {
    if k <= a / m {
      Monotone(k, a / m, m);
    }
  }

  /** Fewer than 2^32 calls cannot overflow a counter. */
  lemma {:induction false} FewCallsDoNotOverflow(calls: seq<Call>, window: nat)
    requires |calls| < 0x1_0000_0000
    ensures !Overflows(calls, window)
    ensures forall key <- Run(calls, window, false) :: Run(calls, window, false)[key].count <= |calls|
  {
    if calls != [] {
      FewCallsDoNotOverflow(calls[..|calls| - 1], window);
    }
  }

  // ----- the bound is reached -----

  /** About a trace: the entry it leaves, its last time, and how many calls it lets through. */
  type Usage = (seq<Call>, Entry, nat, nat) -> bool

  /** One more call, at a time in the interval, is let through when the window has expired or has room. */
  ghost predicate Grows(used: Usage, key: Key, window: nat, max: nat, from: nat, to: nat) {
    forall calls: seq<Call>, e: Entry, was: nat, n: nat, now: nat ::
      used(calls, e, was, n) && was <= now && from <= now <= to && (Expired(e, now, window) || e.count + 1 <= max) ==>
      used(calls + [Call(key, now, max)], if Expired(e, now, window) then Entry(1, now) else Entry(e.count + 1, e.since), now, n + 1)
  }

  function Burst(key: Key, now: nat, n: nat, max: nat): seq<Call> {
    seq(n, _ => Call(key, now, max))
  }

  /** A burst inside a window that still has room is admitted. */
  lemma {:induction false} BurstAdmitted(used: Usage, key: Key, window: nat, max: nat, from: nat, to: nat,
                                         calls: seq<Call>, e: Entry, was: nat, n: nat, now: nat, more: nat)
    requires Grows(used, key, window, max, from, to) && used(calls, e, was, n)
    requires was <= now && from <= now <= to && !Expired(e, now, window) && 1 <= more && e.count + more <= max
    ensures used(calls + Burst(key, now, more, max), Entry(e.count + more, e.since), now, n + more)
  {
    var before := calls + Burst(key, now, more - 1, max);
    if more == 1 {
      assert before == calls;
    } else {
      BurstAdmitted(used, key, window, max, from, to, calls, e, was, n, now, more - 1);
    }
    assert calls + Burst(key, now, more, max) == before + [Call(key, now, max)];
  }

  /** One window used up at once when it opens. */
  function WindowAt(key: Key, now: nat, max: nat): seq<Call>
    requires max >= 1
  {
    Burst(key, now, max, max)
  }

  lemma WindowUsed(used: Usage, key: Key, window: nat, max: nat, from: nat, to: nat, calls: seq<Call>, e: Entry, was: nat, n: nat, now: nat)
    requires Grows(used, key, window, max, from, to) && used(calls, e, was, n)
    requires 1 <= max && was <= now && from <= now <= to && Expired(e, now, window)
    ensures used(calls + WindowAt(key, now, max), Entry(max, now), now, n + max)
  {
    var begun := calls + [Call(key, now, max)];
    assert used(begun, Entry(1, now), now, n + 1);
    if max > 1 {
      BurstAdmitted(used, key, window, max, from, to, begun, Entry(1, now), now, n + 1, now, max - 1);
      assert begun + Burst(key, now, max - 1, max) == calls + WindowAt(key, now, max);
    } else {
      assert begun == calls + WindowAt(key, now, max);
    }
  }

  /** `more` further windows, each begun as soon as the one before it has expired and used up at once. */
  lemma {:induction false} WindowsUsed(used: Usage, key: Key, window: nat, max: nat, from: nat, to: nat,
                                       calls: seq<Call>, at: nat, n: nat, more: nat, span: nat, total: nat)
    returns (all: seq<Call>, now: nat)
    requires 1 <= max && Grows(used, key, window, max, from, to) && used(calls, Entry(max, at), at, n)
    requires from <= at && at + span <= to && span == more * (window + 1) && total == n + more * max
    ensures used(all, Entry(max, now), now, total)
    decreases more
  {
    all, now := calls, at;
    if more > 0 {
      NextWindow(more - 1, window, (more - 1) * (window + 1), span, max);
      now := at + window + 1;
      WindowUsed(used, key, window, max, from, to, calls, Entry(max, at), at, n, now);
      all := calls + WindowAt(key, now, max);
      all, now := WindowsUsed(used, key, window, max, from, to, all, now, n + max, more - 1, span - window - 1, total);
    }
  }

  /**
    When the length is a multiple of `window + 1`, the first window opens with the interval and the
    others follow at once; otherwise one opened `window` ticks before is used up at the start of the
    interval, and the next opens one tick later.
  */
  lemma MostUsed(used: Usage, key: Key, window: nat, max: nat, from: nat, to: nat, q: nat, r: nat, most: nat) returns (calls: seq<Call>, now: nat)
    requires 1 <= max && window <= from <= to && Grows(used, key, window, max, from, to)
    requires to == from + q * (window + 1) + r && most == max + q * max + if r == 0 then 0 else max - 1
    requires used([Call(key, from, max)], Entry(1, from), from, 1)
    requires r > 0 ==> window >= 1 && used([Call(key, from - window, max)], Entry(1, from - window), from - window, 0)
    ensures used(calls, Entry(max, now), now, most)
  {
    if r == 0 {
      calls := FilledUp(used, key, window, max, from, to, from, 1);
      calls, now := WindowsUsed(used, key, window, max, from, to, calls, from, max, q, q * (window + 1), most);
    } else {
      calls := FilledUp(used, key, window, max, from, to, from - window, 0);
      WindowUsed(used, key, window, max, from, to, calls, Entry(max, from - window), if max > 1 then from else from - window, max - 1, from + 1);
      calls := calls + WindowAt(key, from + 1, max);
      calls, now := WindowsUsed(used, key, window, max, from, to, calls, from + 1, max - 1 + max, q, q * (window + 1), most);
    }
  }

  lemma FilledUp(used: Usage, key: Key, window: nat, max: nat, from: nat, to: nat, open: nat, n: nat) returns (calls: seq<Call>)
    requires 1 <= max && Grows(used, key, window, max, from, to) && open <= from <= to && from <= open + window
    requires used([Call(key, open, max)], Entry(1, open), open, n)
    ensures max > 1 || open == from ==> used(calls, Entry(max, open), from, n + max - 1)
    ensures max == 1 ==> used(calls, Entry(max, open), open, n)
  {
    calls := [Call(key, open, max)];
    if max > 1 {
      BurstAdmitted(used, key, window, max, from, to, calls, Entry(1, open), open, n, from, max - 1);
      calls := calls + Burst(key, from, max - 1, max);
    }
  }

  /** A trace of calls on one key, none later than `now`, that leaves the entry `e` and lets `n` calls through in the interval. */
  ghost predicate Used(calls: seq<Call>, window: nat, key: Key, max: nat, e: Entry, now: nat, from: nat, to: nat, n: nat) {
    var store := Run(calls, window, false);
    && key in store && store[key] == e
    && Admitted(calls, window, false, key, from, to) == n
    && NonDecreasing(calls) && UpTo(calls, now)
    && (forall c <- calls :: c.key == key && c.max == max)
    && !Overflows(calls, window)
  }

  ghost function UsedIn(window: nat, key: Key, max: nat, from: nat, to: nat): Usage {
    (calls: seq<Call>, e: Entry, now: nat, n: nat) => Used(calls, window, key, max, e, now, from, to, n)
  }

  lemma UsedGrows(window: nat, key: Key, max: nat, from: nat, to: nat)
    requires 1 <= max < COUNTER_LIMIT
    ensures Grows(UsedIn(window, key, max, from, to), key, window, max, from, to)
  {
    var used := UsedIn(window, key, max, from, to);
    forall calls: seq<Call>, e: Entry, was: nat, n: nat, now: nat
      | used(calls, e, was, n) && was <= now && from <= now <= to && (Expired(e, now, window) || e.count + 1 <= max)
      ensures used(calls + [Call(key, now, max)], if Expired(e, now, window) then Entry(1, now) else Entry(e.count + 1, e.since), now, n + 1)
    {
      OneMore(calls, window, key, max, e, was, from, to, n, now);
    }
  }

  lemma OneMore(calls: seq<Call>, window: nat, key: Key, max: nat, e: Entry, was: nat, from: nat, to: nat, n: nat, now: nat)
    requires Used(calls, window, key, max, e, was, from, to, n) && was <= now && from <= now <= to && 1 <= max < COUNTER_LIMIT
    requires Expired(e, now, window) || e.count + 1 <= max
    ensures Used(calls + [Call(key, now, max)], window, key, max,
                 if Expired(e, now, window) then Entry(1, now) else Entry(e.count + 1, e.since), now, from, to, n + 1)
  {
    var after := calls + [Call(key, now, max)];
    assert after[..|calls|] == calls;
  }

  lemma FirstCall(key: Key, window: nat, max: nat, now: nat, from: nat, to: nat)
    requires 1 <= max && now <= to
    ensures Used([Call(key, now, max)], window, key, max, Entry(1, now), now, from, to, if from <= now then 1 else 0)
  {
    assert [Call(key, now, max)][..0] == [];
  }

  /**
    The bound is reached in every interval, by the sweeping limiter: windows are fixed from a key's
    first call, they do not slide.
  */
  lemma BoundIsReached(key: Key, window: nat, max: nat, from: nat, to: nat) returns (calls: seq<Call>)
    requires 1 <= max < COUNTER_LIMIT && window <= from <= to
    ensures NonDecreasing(calls) && PositiveLimits(calls) && SameLimit(calls, key, max) && !Overflows(calls, window)
    ensures Admitted(calls, window, true, key, from, to) == Most(to - from, window, max)
  {
    var now;
    var q, r := (to - from) / (window + 1), (to - from) % (window + 1);
    NextWindow(q, 0, q, q + 1, max);
    UsedGrows(window, key, max, from, to);
    FirstCall(key, window, max, from, from, to);
    FirstCall(key, window, max, from - window, from, to);
    calls, now := MostUsed(UsedIn(window, key, max, from, to), key, window, max, from, to, q, r, Most(to - from, window, max));
    UsedIsPlain(calls, window, key, max, Entry(max, now), now, from, to, Most(to - from, window, max));
  }

  lemma UsedIsPlain(calls: seq<Call>, window: nat, key: Key, max: nat, e: Entry, now: nat, from: nat, to: nat, n: nat)
    requires 1 <= max && Used(calls, window, key, max, e, now, from, to, n)
    ensures NonDecreasing(calls) && PositiveLimits(calls) && SameLimit(calls, key, max) && !Overflows(calls, window)
    ensures Admitted(calls, window, true, key, from, to) == n
  {
    AdmittedAlike(calls, window, key, from, to);
  }
}
