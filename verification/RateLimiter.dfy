/** The fixed-window rate limiter of `app/core/redis.py`.

    Redis is a map from keys to counters with a time to live. Times are in milliseconds, as Redis
    keeps them, and a key has expired once the time is past its deadline; `incr` followed by
    `expire` is one step. */
module RateLimiting {
  import opened Common

  datatype Counter = Counter(count: nat, expiresAt: int)

  type Store = map<string, Counter>

  /** One call `check(key, limit, window_seconds)` made at time `now`. */
  datatype Call = Call(key: string, limit: int, windowSeconds: int, now: int)

  function FullKey(key: string): string {
    "ratelimit:" + key
  }

  function Millis(windowSeconds: int): int {
    1000 * windowSeconds
  }

  /** The value `incr` returns: one more than the counter, if that one has not expired. */
  function Incremented(store: Store, fullKey: string, now: int): nat {
    if fullKey in store && now <= store[fullKey].expiresAt then store[fullKey].count + 1 else 1
  }

  /** The store after a check. `expire` with a time to live that is not positive deletes the key. */
  function AfterCheck(store: Store, call: Call): Store {
    var fullKey := FullKey(call.key);
    var current := Incremented(store, fullKey, call.now);
    if current > 1 then
      store[fullKey := store[fullKey].(count := current)]
    else if call.windowSeconds > 0 then
      store[fullKey := Counter(1, call.now + Millis(call.windowSeconds))]
    else
      store - {fullKey}
  }

  predicate Accepts(store: Store, call: Call) {
    Incremented(store, FullKey(call.key), call.now) <= call.limit
  }

  class RateLimiter {
    var store: Store

    constructor ()
      ensures store == map[]
    {
      store := map[];
    }

    /** False stands for the RateLimitError that the source raises. */
    method Check(key: string, limit: int, windowSeconds: int, now: int) returns (accepted: bool)
      modifies this
      ensures accepted == Accepts(old(store), Call(key, limit, windowSeconds, now))
      ensures store == AfterCheck(old(store), Call(key, limit, windowSeconds, now))
    {
      var fullKey := FullKey(key);
      var current := Incr(fullKey, now);
      if current == 1 {
        Expire(fullKey, Millis(windowSeconds), now);
      }
      return current <= limit;
    }

    /** Redis INCR: an expired counter starts again at 1, without a time to live of its own yet. */
    method Incr(fullKey: string, now: int) returns (current: nat)
      modifies this
      ensures current == Incremented(old(store), fullKey, now)
      ensures fullKey in store && store[fullKey].count == current
      ensures current > 1 ==> store == old(store)[fullKey := old(store)[fullKey].(count := current)]
      ensures forall k :: k != fullKey ==> (k in store <==> k in old(store))
      ensures forall k :: k != fullKey && k in store ==> store[k] == old(store)[k]
    {
      if fullKey in store && now <= store[fullKey].expiresAt {
        current := store[fullKey].count + 1;
        store := store[fullKey := store[fullKey].(count := current)];
      } else {
        current := 1;
        store := store[fullKey := Counter(1, now)];
      }
    }

    method Expire(fullKey: string, ttl: int, now: int)
      requires fullKey in store
      modifies this
      ensures store == if ttl > 0 then old(store)[fullKey := old(store)[fullKey].(expiresAt := now + ttl)]
                       else old(store) - {fullKey}
    {
      if ttl > 0 {
        store := store[fullKey := store[fullKey].(expiresAt := now + ttl)];
      } else {
        store := store - {fullKey};
      }
    }
  }

  // ----- Runs: any number of keys, any interleaving -----

  function StoreAfter(calls: seq<Call>): Store {
    if calls == [] then map[] else AfterCheck(StoreAfter(Init(calls)), Last(calls))
  }

  /** The clock never goes back, and one key is always checked with the same limit and window. */
  ghost predicate Regular(calls: seq<Call>, key: string, limit: int, windowSeconds: int) {
    && (forall i, j :: 0 <= i < j < |calls| ==> calls[i].now <= calls[j].now)
    && (forall i :: 0 <= i < |calls| && calls[i].key == key ==>
          calls[i].limit == limit && calls[i].windowSeconds == windowSeconds)
  }

  /** How many checks on `key` were accepted at a time in the half-open interval [from, to). */
  function AcceptedIn(calls: seq<Call>, key: string, from: int, to: int): nat {
    if calls == [] then 0 else
    var call := Last(calls);
    AcceptedIn(Init(calls), key, from, to)
    + (if call.key == key && from <= call.now < to && Accepts(StoreAfter(Init(calls)), call) then 1 else 0)
  }

  /** How many checks on `key` were made in [from, to), accepted or not. */
  function CheckedIn(calls: seq<Call>, key: string, from: int, to: int): nat {
    if calls == [] then 0 else
    CheckedIn(Init(calls), key, from, to) + (if Last(calls).key == key && from <= Last(calls).now < to then 1 else 0)
  }

  lemma RegularPrefix(calls: seq<Call>, key: string, limit: int, windowSeconds: int)
    requires calls != [] && Regular(calls, key, limit, windowSeconds)
    ensures Regular(Init(calls), key, limit, windowSeconds)
    ensures forall i :: 0 <= i < |calls| ==> calls[i].now <= Last(calls).now
  {
  }

  lemma {:induction false} NothingLater(calls: seq<Call>, key: string, from: int, to: int)
    requires forall i :: 0 <= i < |calls| ==> calls[i].now < from
    ensures AcceptedIn(calls, key, from, to) == CheckedIn(calls, key, from, to) == 0
  {
    if calls == [] {
    } else {
      NothingLater(Init(calls), key, from, to);
    }
  }

  lemma {:induction false} WiderIntervalCountsMore(calls: seq<Call>, key: string, from: int, to: int, from': int,
                                                   to': int)
    requires from' <= from && to <= to'
    ensures AcceptedIn(calls, key, from, to) <= AcceptedIn(calls, key, from', to')
    ensures CheckedIn(calls, key, from, to) <= CheckedIn(calls, key, from', to')
    ensures AcceptedIn(calls, key, from, to) <= CheckedIn(calls, key, from, to)
  {
    if calls == [] {
    } else {
      WiderIntervalCountsMore(Init(calls), key, from, to, from', to');
    }
  }

  /** What the counter of a key says about the checks accepted so far. The counter was opened at
      `start`; `from` is any time, `end` any time after the last call. */
  ghost predicate CounterExplainsLog(calls: seq<Call>, key: string, limit: int, windowSeconds: int, from: int,
                                     end: int)
  {
    var store := StoreAfter(calls);
    if FullKey(key) !in store then
      CheckedIn(calls, key, from, end) == 0
    else
      var counter := store[FullKey(key)];
      var start := counter.expiresAt - Millis(windowSeconds);
      var here := Min(counter.count, limit);
      && counter.count >= 1
      && (exists i :: 0 <= i < |calls| && calls[i].now == start)
      && CheckedIn(calls, key, start, end) == counter.count
      && AcceptedIn(calls, key, start, end) == here
      && CheckedIn(calls, key, counter.expiresAt + 1, end) == 0
      && (from > start ==> AcceptedIn(calls, key, from, end) <= here - 1)
      && (from > start - Millis(windowSeconds) ==> AcceptedIn(calls, key, from, end) <= here + limit - 1)
  }

  /** Different keys have different counters, under one prefix. */
  lemma FullKeysApart(a: string, b: string)
    ensures "ratelimit:" <= FullKey(a) && (FullKey(a) == FullKey(b) <==> a == b)
  {
    assert FullKey(a)[10..] == a && FullKey(b)[10..] == b;
  }

  lemma OtherKeysUntouched(store: Store, call: Call, key: string)
    requires call.key != key
    ensures FullKey(key) in AfterCheck(store, call) <==> FullKey(key) in store
    ensures FullKey(key) in store ==> AfterCheck(store, call)[FullKey(key)] == store[FullKey(key)]
  {
    FullKeysApart(key, call.key);
  }

  /** A check that joins an open window. */
  lemma WindowJoined(calls: seq<Call>, key: string, limit: int, windowSeconds: int, from: int, end: int)
    requires calls != [] && Regular(calls, key, limit, windowSeconds) && limit >= 1 && windowSeconds >= 1
    requires Last(calls).key == key && Last(calls).now < end
    requires CounterExplainsLog(Init(calls), key, limit, windowSeconds, from, end)
    requires FullKey(key) in StoreAfter(Init(calls))
               && Last(calls).now <= StoreAfter(Init(calls))[FullKey(key)].expiresAt
    ensures CounterExplainsLog(calls, key, limit, windowSeconds, from, end)
  {
    RegularPrefix(calls, key, limit, windowSeconds);
    var before, call := Init(calls), Last(calls);
    assert forall i :: 0 <= i < |before| ==> before[i] == calls[i];
    assert calls[|calls| - 1] == call;
    if from > call.now {
      NothingLater(before, key, from, end);
    }
  }

  /** A check that opens a window: nothing was checked any more since the last one closed. */
  lemma WindowOpened(calls: seq<Call>, key: string, limit: int, windowSeconds: int, from: int, end: int)
    requires calls != [] && Regular(calls, key, limit, windowSeconds) && limit >= 1 && windowSeconds >= 1
    requires Last(calls).key == key && Last(calls).now < end
    requires CounterExplainsLog(Init(calls), key, limit, windowSeconds, from, end)
    requires CheckedIn(Init(calls), key, Last(calls).now, end) == 0
    requires FullKey(key) in StoreAfter(Init(calls)) ==>
               StoreAfter(Init(calls))[FullKey(key)].expiresAt < Last(calls).now
    ensures CounterExplainsLog(calls, key, limit, windowSeconds, from, end)
  {
    RegularPrefix(calls, key, limit, windowSeconds);
    var before, call := Init(calls), Last(calls);
    assert calls[|calls| - 1] == call;
    if from > call.now {
      NothingLater(before, key, from, end);
    }
    NothingLater(before, key, call.now + Millis(windowSeconds) + 1, end);
    WiderIntervalCountsMore(before, key, call.now, end, call.now, end);
    WiderIntervalCountsMore(before, key, from, end, from, end);
  }

  lemma {:induction false} CounterInvariant(calls: seq<Call>, key: string, limit: int, windowSeconds: int, from: int,
                                            end: int)
    requires Regular(calls, key, limit, windowSeconds) && limit >= 1 && windowSeconds >= 1
    requires forall i :: 0 <= i < |calls| ==> calls[i].now < end
    ensures CounterExplainsLog(calls, key, limit, windowSeconds, from, end)
  {
    if calls == [] {
    } else {
      var before, call := Init(calls), Last(calls);
      RegularPrefix(calls, key, limit, windowSeconds);
      CounterInvariant(before, key, limit, windowSeconds, from, end);
      assert forall i :: 0 <= i < |before| ==> before[i] == calls[i];
      var store := StoreAfter(before);
      if call.key != key {
        OtherKeysUntouched(store, call, key);
      } else if FullKey(key) in store && call.now <= store[FullKey(key)].expiresAt {
        WindowJoined(calls, key, limit, windowSeconds, from, end);
      } else {
        CounterInvariant(before, key, limit, windowSeconds, call.now, end);
        if FullKey(key) in store {
          WiderIntervalCountsMore(before, key, call.now, end, store[FullKey(key)].expiresAt + 1, end);
        }
        WindowOpened(calls, key, limit, windowSeconds, from, end);
      }
    }
  }

  /** The window opened by the check at `first` is open, or over. */
  lemma {:induction false} WindowStaysOpen(calls: seq<Call>, key: string, limit: int, windowSeconds: int, first: nat)
    requires Regular(calls, key, limit, windowSeconds) && windowSeconds >= 1
    requires first < |calls| && Opens(calls, key, first)
    ensures Last(calls).now <= calls[first].now + Millis(windowSeconds) ==>
              && FullKey(key) in StoreAfter(calls) && StoreAfter(calls)[FullKey(key)].count >= 1
              && StoreAfter(calls)[FullKey(key)].expiresAt == calls[first].now + Millis(windowSeconds)
  {
    var before := Init(calls);
    RegularPrefix(calls, key, limit, windowSeconds);
    if first == |calls| - 1 {
      assert calls[..first] == before;
    } else {
      assert calls[..first] == before[..first] && before[first] == calls[first];
      WindowStaysOpen(before, key, limit, windowSeconds, first);
      assert before[|before| - 1].now <= Last(calls).now;
      if Last(calls).key != key {
        OtherKeysUntouched(StoreAfter(before), Last(calls), key);
      }
    }
  }

  /** The check at this place found no live counter, so its count is 1. */
  ghost predicate Opens(calls: seq<Call>, key: string, place: nat)
    requires place < |calls|
  {
    calls[place].key == key && Incremented(StoreAfter(calls[..place]), FullKey(key), calls[place].now) == 1
  }

  /** Each window by itself: of the checks made while it is open, the first `limit` are accepted and
      the others are not. */
  lemma {:induction false} WindowAcceptsUpToLimit(calls: seq<Call>, key: string, limit: int, windowSeconds: int,
                                                  first: nat)
    requires Regular(calls, key, limit, windowSeconds) && windowSeconds >= 1
    requires first < |calls| && Opens(calls, key, first)
    ensures var start, end := calls[first].now, calls[first].now + 1000 * windowSeconds + 1;
            AcceptedIn(calls, key, start, end) == Max(0, Min(limit, CheckedIn(calls, key, start, end)))
  {
    var start, end := calls[first].now, calls[first].now + Millis(windowSeconds) + 1;
    RegularPrefix(calls, key, limit, windowSeconds);
    if limit <= 0 {
      NoLimitNoAcceptance(calls, key, limit, windowSeconds, start, end);
    } else if Last(calls).now < end {
      WindowStaysOpen(calls, key, limit, windowSeconds, first);
      CounterInvariant(calls, key, limit, windowSeconds, start, end);
    } else {
      var before := Init(calls);
      assert calls[..first] == before[..first] && before[first] == calls[first];
      WindowAcceptsUpToLimit(before, key, limit, windowSeconds, first);
    }
  }

  lemma {:induction false} NoLimitNoAcceptance(calls: seq<Call>, key: string, limit: int, windowSeconds: int,
                                               from: int, to: int)
    requires Regular(calls, key, limit, windowSeconds) && limit <= 0
    ensures AcceptedIn(calls, key, from, to) == 0
  {
    if calls == [] {
    } else {
      RegularPrefix(calls, key, limit, windowSeconds);
      NoLimitNoAcceptance(Init(calls), key, limit, windowSeconds, from, to);
    }
  }

  /** Main result: whatever the callers do, no interval as long as the window contains more
      than 2*limit - 1 accepted checks. The window is fixed, not sliding, so `limit` alone is
      not a bound; `WorstCase` shows that this one is exact. */
  lemma {:induction false} SlidingBound(calls: seq<Call>, key: string, limit: int, windowSeconds: int, from: int)
    requires Regular(calls, key, limit, windowSeconds)
    ensures AcceptedIn(calls, key, from, from + 1000 * windowSeconds) <= Max(0, 2 * limit - 1)
  {
    var to := from + Millis(windowSeconds);
    if limit <= 0 {
      NoLimitNoAcceptance(calls, key, limit, windowSeconds, from, to);
    } else if calls == [] {
    } else {
      RegularPrefix(calls, key, limit, windowSeconds);
      SlidingBound(Init(calls), key, limit, windowSeconds, from);
      var call := Last(calls);
      if call.key == key && from <= call.now < to {
        CounterInvariant(calls, key, limit, windowSeconds, from, call.now + 1);
        CounterInvariant(calls, key, limit, windowSeconds, from, to);
      }
    }
  }

  /** No check is refused without cause: a refusal at `now` means that `limit` checks were
      accepted at most one window ago. */
  lemma RefusalIsJustified(calls: seq<Call>, call: Call)
    requires Regular(calls + [call], call.key, call.limit, call.windowSeconds)
    requires !Accepts(StoreAfter(calls), call)
    ensures AcceptedIn(calls, call.key, call.now - 1000 * call.windowSeconds, call.now + 1) >= call.limit
  {
    InitOfAppend(calls, call);
    RegularPrefix(calls + [call], call.key, call.limit, call.windowSeconds);
    if call.limit >= 1 {
      var from := call.now - Millis(call.windowSeconds);
      assert forall i :: 0 <= i < |calls| ==> calls[i] == (calls + [call])[i];
      if call.windowSeconds >= 1 {
        CounterInvariant(calls, call.key, call.limit, call.windowSeconds, from, call.now + 1);
        var start := StoreAfter(calls)[FullKey(call.key)].expiresAt - Millis(call.windowSeconds);
        WiderIntervalCountsMore(calls, call.key, start, call.now + 1, from, call.now + 1);
      } else {
        EmptyWindowStoresNothing(calls, call.key, call.limit, call.windowSeconds);
      }
    }
  }

  lemma {:induction false} EmptyWindowStoresNothing(calls: seq<Call>, key: string, limit: int, windowSeconds: int)
    requires Regular(calls, key, limit, windowSeconds) && windowSeconds <= 0
    ensures FullKey(key) !in StoreAfter(calls)
  {
    if calls == [] {
    } else {
      RegularPrefix(calls, key, limit, windowSeconds);
      EmptyWindowStoresNothing(Init(calls), key, limit, windowSeconds);
      if Last(calls).key != key {
        OtherKeysUntouched(StoreAfter(Init(calls)), Last(calls), key);
      }
    }
  }

  // ----- The bound is attained -----

  /** `n` calls with the same key and time, made after `calls`. */
  function Repeated(calls: seq<Call>, call: Call, n: nat): seq<Call> {
    if n == 0 then calls else Repeated(calls, call, n - 1) + [call]
  }

  lemma {:induction false} RepeatedShape(calls: seq<Call>, call: Call, n: nat)
    ensures |Repeated(calls, call, n)| == |calls| + n
    ensures forall i :: 0 <= i < |calls| + n ==> Repeated(calls, call, n)[i] == if i < |calls| then calls[i] else call
  {
    if n == 0 {
    } else {
      RepeatedShape(calls, call, n - 1);
    }
  }

  /** Repeating a call while its counter is live adds one to the counter each time, and every
      repetition is accepted as long as the limit is not reached. */
  lemma {:induction false} RepeatedInWindow(calls: seq<Call>, call: Call, n: nat, from: int, to: int)
    requires FullKey(call.key) in StoreAfter(calls)
    requires var counter := StoreAfter(calls)[FullKey(call.key)];
             call.now <= counter.expiresAt && 1 <= counter.count && counter.count + n <= call.limit
    requires from <= call.now < to
    ensures FullKey(call.key) in StoreAfter(Repeated(calls, call, n))
    ensures var counter := StoreAfter(calls)[FullKey(call.key)];
            StoreAfter(Repeated(calls, call, n))[FullKey(call.key)] == Counter(counter.count + n, counter.expiresAt)
    ensures AcceptedIn(Repeated(calls, call, n), call.key, from, to) == AcceptedIn(calls, call.key, from, to) + n
  {
    if n == 0 {
    } else {
      var before := Repeated(calls, call, n - 1);
      RepeatedInWindow(calls, call, n - 1, from, to);
      InitOfAppend(before, call);
      assert Repeated(calls, call, n) == before + [call];
      assert StoreAfter(before + [call]) == AfterCheck(StoreAfter(before), call);
    }
  }

  /** One check at time 0 and the others at the last instant of its window. */
  function FullWindow(key: string, limit: int, windowSeconds: int): seq<Call>
    requires limit >= 1
  {
    Repeated([Call(key, limit, windowSeconds, 0)], Call(key, limit, windowSeconds, Millis(windowSeconds)), limit - 1)
  }

  function WorstCase(key: string, limit: int, windowSeconds: int): seq<Call>
    requires limit >= 1
  {
    var next := Call(key, limit, windowSeconds, Millis(windowSeconds) + 1);
    Repeated(FullWindow(key, limit, windowSeconds) + [next], next, limit - 1)
  }

  lemma WorstCaseRegular(key: string, limit: int, windowSeconds: int)
    requires limit >= 1 && windowSeconds >= 1
    ensures Regular(WorstCase(key, limit, windowSeconds), key, limit, windowSeconds)
  {
    var opening := [Call(key, limit, windowSeconds, 0)];
    var late := Call(key, limit, windowSeconds, Millis(windowSeconds));
    var next := Call(key, limit, windowSeconds, Millis(windowSeconds) + 1);
    RepeatedShape(opening, late, limit - 1);
    RepeatedShape(FullWindow(key, limit, windowSeconds) + [next], next, limit - 1);
  }

  lemma FullWindowAccepted(key: string, limit: int, windowSeconds: int, from: int, to: int)
    requires limit >= 1 && windowSeconds >= 1
    requires 0 < from <= Millis(windowSeconds) < to
    ensures var calls := FullWindow(key, limit, windowSeconds);
            && FullKey(key) in StoreAfter(calls)
            && StoreAfter(calls)[FullKey(key)] == Counter(limit, Millis(windowSeconds))
            && AcceptedIn(calls, key, from, to) == limit - 1
  {
    var opening := [Call(key, limit, windowSeconds, 0)];
    assert Init(opening) == [];
    assert StoreAfter(opening) == map[FullKey(key) := Counter(1, Millis(windowSeconds))];
    assert AcceptedIn(opening, key, from, to) == 0;
    RepeatedInWindow(opening, Call(key, limit, windowSeconds, Millis(windowSeconds)), limit - 1, from, to);
  }

  /** For every limit and window there is a run with exactly 2*limit - 1 accepted checks within
      one window length, so the bound of `SlidingBound` cannot be lowered. */
  lemma WorstCaseAttained(key: string, limit: int, windowSeconds: int)
    requires limit >= 1 && windowSeconds >= 1
    ensures Regular(WorstCase(key, limit, windowSeconds), key, limit, windowSeconds)
    ensures var from := 1000 * windowSeconds;
            AcceptedIn(WorstCase(key, limit, windowSeconds), key, from, from + 1000 * windowSeconds) == 2 * limit - 1
  {
    WorstCaseRegular(key, limit, windowSeconds);
    WorstCaseAccepted(key, limit, windowSeconds, Millis(windowSeconds));
  }

  lemma WorstCaseAccepted(key: string, limit: int, windowSeconds: int, w: int)
    requires limit >= 1 && windowSeconds >= 1 && w == Millis(windowSeconds)
    ensures AcceptedIn(WorstCase(key, limit, windowSeconds), key, w, w + w) == 2 * limit - 1
  {
    var filled, next := FullWindow(key, limit, windowSeconds), Call(key, limit, windowSeconds, w + 1);
    FullWindowAccepted(key, limit, windowSeconds, w, w + w);
    NextWindowFull(filled, next, w, w + w);
    assert WorstCase(key, limit, windowSeconds) == Repeated(filled + [next], next, limit - 1);
  }

  lemma NextWindowFull(filled: seq<Call>, next: Call, from: int, to: int)
    requires FullKey(next.key) in StoreAfter(filled) && StoreAfter(filled)[FullKey(next.key)].expiresAt == next.now - 1
    requires next.limit >= 1 && next.windowSeconds >= 1 && from <= next.now < to
    ensures AcceptedIn(Repeated(filled + [next], next, next.limit - 1), next.key, from, to)
         == AcceptedIn(filled, next.key, from, to) + next.limit
  {
    SecondWindow(filled, next, from, to);
    WindowFilled(filled + [next], next, from, to);
  }

  /** The further calls of a window that has just been opened. */
  lemma WindowFilled(calls: seq<Call>, next: Call, from: int, to: int)
    requires FullKey(next.key) in StoreAfter(calls)
    requires StoreAfter(calls)[FullKey(next.key)] == Counter(1, next.now + Millis(next.windowSeconds))
    requires next.limit >= 1 && next.windowSeconds >= 1 && from <= next.now < to
    ensures AcceptedIn(Repeated(calls, next, next.limit - 1), next.key, from, to)
         == AcceptedIn(calls, next.key, from, to) + next.limit - 1
  {
    RepeatedInWindow(calls, next, next.limit - 1, from, to);
  }

  /** The first call made when the counter has just expired opens a new window. */
  lemma SecondWindow(filled: seq<Call>, next: Call, from: int, to: int)
    requires FullKey(next.key) in StoreAfter(filled) && StoreAfter(filled)[FullKey(next.key)].expiresAt == next.now - 1
    requires next.limit >= 1 && next.windowSeconds >= 1 && from <= next.now < to
    ensures FullKey(next.key) in StoreAfter(filled + [next])
    ensures StoreAfter(filled + [next])[FullKey(next.key)] == Counter(1, next.now + Millis(next.windowSeconds))
    ensures AcceptedIn(filled + [next], next.key, from, to) == AcceptedIn(filled, next.key, from, to) + 1
  {
    InitOfAppend(filled, next);
  }
}
