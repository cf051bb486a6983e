/**
 The login throttle of api/core/login_throttle.py over Redis.

 Times are milliseconds. A Redis key is live up to and including its expiry time, and the TTL command
 rounds to the nearest second, so a wait stops blocking half a second before it expires. Redis is up:
 the source lets every login through when it is not.
 */
module LoginThrottle {
  import opened Common

  const LOGIN_IP_FAIL_LIMIT := 20
  const LOGIN_IP_WINDOW_S := 300
  const LOGIN_IP_ATTEMPT_LIMIT := 100
  const LOGIN_FAIL_TTL_S := 900
  const LOGIN_FAIL_THRESHOLD := 5
  const LOGIN_WAIT_BASE_S := 30
  const LOGIN_WAIT_MAX_S := 900
  const LOGIN_GLOBAL_FAIL_THRESHOLD := 50
  const LOGIN_GLOBAL_WAIT_S := 300

  // ----- the wait

  function Pow2(n: nat): nat {
    if n == 0 then 1 else 2 * Pow2(n - 1)
  }

  /** `backoff_seconds`. */
  function BackoffSeconds(failures: int): int {
    var doublings := if failures > LOGIN_FAIL_THRESHOLD then failures - LOGIN_FAIL_THRESHOLD else 0;
    var wait := LOGIN_WAIT_BASE_S * Pow2(doublings);
    if wait <= LOGIN_WAIT_MAX_S then wait else LOGIN_WAIT_MAX_S
  }

  lemma {:induction false} Pow2Grows(m: nat, n: nat)
    requires m <= n
    ensures 1 <= Pow2(m) <= Pow2(n)
    decreases n
  {
    if m < n {
      Pow2Grows(m, n - 1);
    } else if m > 0 {
      Pow2Grows(m - 1, n - 1);
    }
  }

  /** Every wait lies between 30 and 900 seconds and never shrinks as failures grow. */
  lemma BackoffGrows(f: int, g: int)
    requires f <= g
    ensures LOGIN_WAIT_BASE_S <= BackoffSeconds(f) <= BackoffSeconds(g) <= LOGIN_WAIT_MAX_S
  {
    Pow2Grows(if f > LOGIN_FAIL_THRESHOLD then f - LOGIN_FAIL_THRESHOLD else 0,
              if g > LOGIN_FAIL_THRESHOLD then g - LOGIN_FAIL_THRESHOLD else 0);
  }

  lemma FirstWaits()
    ensures BackoffSeconds(5) == 30 && BackoffSeconds(6) == 60 && BackoffSeconds(7) == 120
    ensures BackoffSeconds(8) == 240 && BackoffSeconds(9) == 480
  {
    assert Pow2(1) == 2 && Pow2(2) == 4 && Pow2(3) == 8 && Pow2(4) == 16;
  }

  // ----- Redis

  datatype Key = FailIp(ip: string) | Rate(ip: string, window: int) | FailUser(h: string, ip: string)
               | WaitUser(h: string, ip: string) | FailGlobal(h: string) | WaitGlobal(h: string)
  datatype Entry = Entry(value: int, expires: int)
  type Store = map<Key, Entry>

  predicate Live(store: Store, k: Key, now: int) {
    k in store && now <= store[k].expires
  }

  function Value(store: Store, k: Key, now: int): int {
    if Live(store, k, now) then store[k].value else 0
  }

  /** TTL: seconds left, rounded; -2 for a missing key. */
  function Ttl(store: Store, k: Key, now: int): int {
    if Live(store, k, now) then (store[k].expires - now + 500) / 1000 else -2
  }

  /** `SET key 0 EX ttl NX` and then `INCR key`: only the first failure sets the expiry. */
  function Counted(store: Store, k: Key, now: int): Store {
    store[k := if Live(store, k, now) then store[k].(value := store[k].value + 1)
               else Entry(1, now + 1000 * LOGIN_FAIL_TTL_S)]
  }

  // ----- the three calls

  function RateKey(ip: string, now: int): Key {
    Rate(ip, now / (1000 * LOGIN_IP_WINDOW_S))
  }

  function AfterCheck(store: Store, ip: string, now: int): Store {
    var k := RateKey(ip, now);
    store[k := Entry(Value(store, k, now) + 1, now + 1000 * LOGIN_IP_WINDOW_S * 2)]
  }

  predicate Passes(store: Store, ip: string, h: Option<string>, now: int) {
    && Value(store, FailIp(ip), now) < LOGIN_IP_FAIL_LIMIT
    && Value(store, RateKey(ip, now), now) + 1 <= LOGIN_IP_ATTEMPT_LIMIT
    && (h.Some? ==> Ttl(store, WaitUser(h.value, ip), now) <= 0 && Ttl(store, WaitGlobal(h.value), now) <= 0)
  }

  /** The limits in the source's order: the seconds of the Retry-After header, None when the login goes on. */
  function RetryAfter(store: Store, ip: string, h: Option<string>, now: int): Option<int> {
    if Value(store, FailIp(ip), now) >= LOGIN_IP_FAIL_LIMIT then
      Some(if Ttl(store, FailIp(ip), now) > 0 then Ttl(store, FailIp(ip), now) else LOGIN_FAIL_TTL_S)
    else if Value(store, RateKey(ip, now), now) + 1 > LOGIN_IP_ATTEMPT_LIMIT then
      Some(((RateKey(ip, now).window + 1) * LOGIN_IP_WINDOW_S * 1000 - now) / 1000 + 1)
    else if h.Some? && Ttl(store, WaitUser(h.value, ip), now) > 0 then Some(Ttl(store, WaitUser(h.value, ip), now))
    else if h.Some? && Ttl(store, WaitGlobal(h.value), now) > 0 then Some(Ttl(store, WaitGlobal(h.value), now))
    else None
  }

  /** A wait is over when the seconds its TTL gave have passed. */
  lemma WaitIsOver(store: Store, k: Key, now: int)
    requires Ttl(store, k, now) > 0
    ensures Ttl(store, k, now + 1000 * Ttl(store, k, now)) <= 0
  {
  }

  /** The limit that refused does not refuse any more once the Retry-After seconds have passed; only the
      failure count of the IP may, exactly when its TTL had been rounded down. */
  lemma RetryAfterSuffices(store: Store, ip: string, h: Option<string>, now: int)
    requires RetryAfter(store, ip, h, now).Some?
    ensures var after := RetryAfter(store, ip, h, now).value;
            && 1 <= after
            && (if Value(store, FailIp(ip), now) >= LOGIN_IP_FAIL_LIMIT then
                  Ttl(store, FailIp(ip), now) > 0 ==>
                    (Live(store, FailIp(ip), now + 1000 * after) <==> (store[FailIp(ip)].expires - now) % 1000 < 500)
                else if Value(store, RateKey(ip, now), now) + 1 > LOGIN_IP_ATTEMPT_LIMIT then
                  RateKey(ip, now + 1000 * after) != RateKey(ip, now)
                else if Ttl(store, WaitUser(h.value, ip), now) > 0 then
                  Ttl(store, WaitUser(h.value, ip), now + 1000 * after) <= 0
                else
                  Ttl(store, WaitGlobal(h.value), now + 1000 * after) <= 0)
  {
    if h.Some? && Ttl(store, WaitUser(h.value, ip), now) > 0 {
      WaitIsOver(store, WaitUser(h.value, ip), now);
    }
    if h.Some? && Ttl(store, WaitGlobal(h.value), now) > 0 {
      WaitIsOver(store, WaitGlobal(h.value), now);
    }
  }

  function AfterFailure(store: Store, ip: string, h: Option<string>, now: int): Store {
    var counted := Counted(store, FailIp(ip), now);
    if h.None? then counted
    else
      var both := Counted(Counted(counted, FailUser(h.value, ip), now), FailGlobal(h.value), now);
      var fails, global := both[FailUser(h.value, ip)].value, both[FailGlobal(h.value)].value;
      var waits := if fails >= LOGIN_FAIL_THRESHOLD
                   then both[WaitUser(h.value, ip) := Entry(1, now + 1000 * BackoffSeconds(fails))] else both;
      if global >= LOGIN_GLOBAL_FAIL_THRESHOLD
      then waits[WaitGlobal(h.value) := Entry(1, now + 1000 * LOGIN_GLOBAL_WAIT_S)] else waits
  }

  function AfterSuccess(store: Store, ip: string, h: Option<string>): Store {
    if h.None? then store else store - {FailUser(h.value, ip), WaitUser(h.value, ip)}
  }

  class LoginThrottle {
    var store: Store

    constructor ()
      ensures store == map[]
    {
      store := map[];
    }

    /** `check`: one pipelined round trip, then the limits in the source's order. None lets the login on;
        else the seconds of the Retry-After header. */
    method Check(ip: string, h: Option<string>, now: int) returns (retryAfter: Option<int>)
      modifies this
      ensures store == AfterCheck(old(store), ip, now)
      ensures retryAfter == RetryAfter(old(store), ip, h, now)
      ensures retryAfter.None? <==> Passes(old(store), ip, h, now)
    {
      var rate := RateKey(ip, now);
      var fails, failsTtl := Value(store, FailIp(ip), now), Ttl(store, FailIp(ip), now);
      var attempts := Value(store, rate, now) + 1;
      var userWait := if h.Some? then Ttl(store, WaitUser(h.value, ip), now) else -2;
      var globalWait := if h.Some? then Ttl(store, WaitGlobal(h.value), now) else -2;
      store := store[rate := Entry(attempts, now + 1000 * LOGIN_IP_WINDOW_S * 2)];
      if fails >= LOGIN_IP_FAIL_LIMIT {
        return Some(if failsTtl > 0 then failsTtl else LOGIN_FAIL_TTL_S);
      }
      if attempts > LOGIN_IP_ATTEMPT_LIMIT {
        return Some(((rate.window + 1) * LOGIN_IP_WINDOW_S * 1000 - now) / 1000 + 1);
      }
      if userWait > 0 {
        return Some(userWait);
      }
      if globalWait > 0 {
        return Some(globalWait);
      }
      return None;
    }

    /** `record_failure`. */
    method RecordFailure(ip: string, h: Option<string>, now: int)
      modifies this
      ensures store == AfterFailure(old(store), ip, h, now)
    {
      store := Counted(store, FailIp(ip), now);
      if h.Some? {
        store := Counted(store, FailUser(h.value, ip), now);
        store := Counted(store, FailGlobal(h.value), now);
        var fails, global := store[FailUser(h.value, ip)].value, store[FailGlobal(h.value)].value;
        if fails >= LOGIN_FAIL_THRESHOLD {
          store := store[WaitUser(h.value, ip) := Entry(1, now + 1000 * BackoffSeconds(fails))];
        }
        if global >= LOGIN_GLOBAL_FAIL_THRESHOLD {
          store := store[WaitGlobal(h.value) := Entry(1, now + 1000 * LOGIN_GLOBAL_WAIT_S)];
        }
      }
    }

    /** `record_success`. */
    method RecordSuccess(ip: string, h: Option<string>)
      modifies this
      ensures store == AfterSuccess(old(store), ip, h)
    {
      if h.Some? {
        store := store - {FailUser(h.value, ip), WaitUser(h.value, ip)};
      }
    }
  }

  // ----- runs

  datatype Event =
    | Checked(ip: string, h: Option<string>, now: int)
    | Failed(ip: string, h: Option<string>, now: int)
    | Succeeded(ip: string, h: Option<string>, now: int)

  /** The store, the time, and when each (username, IP) last passed a check it has not used up yet. */
  datatype State = State(store: Store, clock: int, passed: map<(string, string), int>)

  function Step(s: State, e: Event): State {
    match e
    case Checked(ip, h, now) =>
      State(AfterCheck(s.store, ip, now), now,
            if h.Some? && Passes(s.store, ip, h, now) then s.passed[(h.value, ip) := now] else s.passed)
    case Failed(ip, h, now) =>
      State(AfterFailure(s.store, ip, h, now), now, if h.Some? then s.passed - {(h.value, ip)} else s.passed)
    case Succeeded(ip, h, now) =>
      State(AfterSuccess(s.store, ip, h), now, if h.Some? then s.passed - {(h.value, ip)} else s.passed)
  }

  /** The clock does not go back, and attempts on one (username, IP) are sequential: a failure is
      recorded only after a check that passed since the last outcome. Other pairs do as they like. */
  predicate Enabled(s: State, e: Event, h: string, ip: string) {
    && s.clock <= e.now
    && (e.Failed? && e.h == Some(h) && e.ip == ip ==> (h, ip) in s.passed)
  }

  ghost predicate IsRun(run: seq<State>, events: seq<Event>, h: string, ip: string) {
    && |run| == |events| + 1 && run[0].store == map[] && run[0].passed == map[]
    && forall i :: 0 <= i < |events| ==> Enabled(run[i], events[i], h, ip) && run[i + 1] == Step(run[i], events[i])
  }

  /** How long after the first failure of a window the v-th one is recorded at the earliest. */
  function Earliest(v: int): int {
    if v == 6 then 29501
    else if v == 7 then 89002
    else if v == 8 then 208503
    else if v == 9 then 448004
    else 0
  }

  /** With `last` the time of the pair's last failure: the counter is at most 9, its failures are spread
      over at least `Earliest`, and from the fifth on the wait runs from the last one. */
  predicate PairOk(s: State, h: string, ip: string, last: int) {
    var f, w := FailUser(h, ip), WaitUser(h, ip);
    f in s.store ==>
      var v, e := s.store[f].value, s.store[f].expires;
      && 1 <= v <= 9 && last <= s.clock && last >= e - 1000 * LOGIN_FAIL_TTL_S + Earliest(v)
      && (v >= LOGIN_FAIL_THRESHOLD ==> w in s.store && s.store[w].expires == last + 1000 * BackoffSeconds(v))
      && ((h, ip) in s.passed ==> last <= s.passed[(h, ip)] <= s.clock)
      && (v >= LOGIN_FAIL_THRESHOLD && (h, ip) in s.passed ==>
            s.passed[(h, ip)] > last + 1000 * BackoffSeconds(v) - 500)
  }

  lemma FailureKeepsPair(s: State, e: Event, h: string, ip: string, last: int)
    requires PairOk(s, h, ip, last) && Enabled(s, e, h, ip) && e == Failed(ip, Some(h), e.now)
    ensures PairOk(Step(s, e), h, ip, e.now)
  {
    FirstWaits();
  }

  lemma OtherKeepsPair(s: State, e: Event, h: string, ip: string, last: int)
    requires PairOk(s, h, ip, last) && Enabled(s, e, h, ip) && !(e == Failed(ip, Some(h), e.now))
    ensures PairOk(Step(s, e), h, ip, last)
  {
  }

  lemma {:induction false} RunKeepsPair(run: seq<State>, events: seq<Event>, h: string, ip: string, n: nat)
      returns (last: int)
    requires IsRun(run, events, h, ip) && n < |run|
    ensures PairOk(run[n], h, ip, last)
  {
    if n == 0 {
      last := 0;
    } else {
      var before := RunKeepsPair(run, events, h, ip, n - 1);
      var e := events[n - 1];
      if e == Failed(ip, Some(h), e.now) {
        FailureKeepsPair(run[n - 1], e, h, ip, before);
        last := e.now;
      } else {
        OtherKeepsPair(run[n - 1], e, h, ip, before);
        last := before;
      }
    }
  }

  lemma CounterAtMostNine(run: seq<State>, events: seq<Event>, h: string, ip: string, n: nat)
    requires IsRun(run, events, h, ip) && n < |run| && FailUser(h, ip) in run[n].store
    ensures 1 <= run[n].store[FailUser(h, ip)].value <= 9
  {
    var last := RunKeepsPair(run, events, h, ip, n);
  }

  // ----- failures in a window

  predicate IsFailure(e: Event, h: string, ip: string) {
    e.Failed? && e.h == Some(h) && e.ip == ip
  }

  /** How many failures of the pair are recorded from event `i` up to event `j`. */
  function Failures(events: seq<Event>, i: nat, j: nat, h: string, ip: string): nat
    requires i <= j <= |events|
  {
    if i == j then 0 else Failures(events, i, j - 1, h, ip) + if IsFailure(events[j - 1], h, ip) then 1 else 0
  }

  /** Event `i` opens a failure-count window of the pair, and the events up to `j` fall into it. */
  predicate InWindow(run: seq<State>, events: seq<Event>, i: nat, j: nat, h: string, ip: string)
    requires i < j <= |events| < |run|
  {
    && IsFailure(events[i], h, ip) && !Live(run[i].store, FailUser(h, ip), events[i].now)
    && forall k :: i < k < j ==>
         events[k].now <= events[i].now + 1000 * LOGIN_FAIL_TTL_S &&
         !(events[k].Succeeded? && events[k].h == Some(h) && events[k].ip == ip)
  }

  lemma StepCounts(s: State, e: Event, h: string, ip: string)
    requires Live(s.store, FailUser(h, ip), e.now) && !(e.Succeeded? && e.h == Some(h) && e.ip == ip)
    ensures FailUser(h, ip) in Step(s, e).store
    ensures var before, after := s.store[FailUser(h, ip)], Step(s, e).store[FailUser(h, ip)];
            after == before.(value := before.value + if IsFailure(e, h, ip) then 1 else 0)
  {
  }

  lemma {:induction false} CounterCounts(run: seq<State>, events: seq<Event>, h: string, ip: string, i: nat, j: nat)
    requires IsRun(run, events, h, ip) && i < j <= |events| && InWindow(run, events, i, j, h, ip)
    ensures FailUser(h, ip) in run[j].store
    ensures run[j].store[FailUser(h, ip)] ==
            Entry(Failures(events, i, j, h, ip), events[i].now + 1000 * LOGIN_FAIL_TTL_S)
    decreases j
  {
    if i + 1 < j {
      CounterCounts(run, events, h, ip, i, j - 1);
      assert events[j - 1].now <= events[i].now + 1000 * LOGIN_FAIL_TTL_S;
      StepCounts(run[j - 1], events[j - 1], h, ip);
    } else {
      assert Failures(events, i, i, h, ip) == 0;
    }
  }

  /** At most 9 failures of one (username, IP) are recorded in a 900 s failure-count window: the waits
      of 30, 60, 120, 240 and 480 s push the tenth past the window's end. */
  lemma AtMostNineFailures(run: seq<State>, events: seq<Event>, h: string, ip: string, i: nat, j: nat)
    requires IsRun(run, events, h, ip) && i < j <= |events| && InWindow(run, events, i, j, h, ip)
    ensures 1 <= Failures(events, i, j, h, ip) <= 9
  {
    CounterCounts(run, events, h, ip, i, j);
    CounterAtMostNine(run, events, h, ip, j);
  }
}
