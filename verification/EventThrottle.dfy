/**
 The per-process cap on log-line events of shared/sentry_init.py (`_throttled`): a sliding window per
 key that prunes its queues and forgets idle keys.

 A caller reads the clock before it takes the lock, so calls may reach the locked section out of the
 order of their times. A run lists the calls in the order of the lock, each with the time it read; `skew`
 bounds how far a call is behind the latest time seen. With no skew the limiter is proved to decide like
 the one that keeps every admission for ever; with any skew, to admit at most THROTTLE_MAX in any window
 that is shorter by twice the skew.
 */
module EventThrottle {

  const THROTTLE_MAX := 5
  const THROTTLE_WINDOW_S := 600.0
  const THROTTLE_KEYS_MAX := 2000

  /** A call that reached the locked section, with the time it had read. */
  datatype Call<!Key> = Call(key: Key, now: real)

  // ----- the limiter

  function Lookup<Key>(m: map<Key, seq<real>>, key: Key): seq<real> {
    if key in m then m[key] else []
  }

  function Idle<Key>(queues: map<Key, seq<real>>, now: real): set<Key> {
    set k | k in queues && (queues[k] == [] || now - queues[k][|queues[k]| - 1] >= THROTTLE_WINDOW_S)
  }

  /** Bounded memory: of too many keys, those whose last admission is a window old are forgotten. */
  function Evicted<Key>(queues: map<Key, seq<real>>, now: real): map<Key, seq<real>> {
    if |queues| > THROTTLE_KEYS_MAX then queues - Idle(queues, now) else queues
  }

  function Pruned(q: seq<real>, now: real): seq<real> {
    if q != [] && now - q[0] >= THROTTLE_WINDOW_S then Pruned(q[1..], now) else q
  }

  datatype Limiter<!Key> = Limiter(queues: map<Key, seq<real>>, throttled: nat)
  {
    /** The key's queue as the call finds it. */
    function Queue(key: Key, now: real): seq<real> {
      Pruned(Lookup(Evicted(queues, now), key), now)
    }

    predicate Refuses(key: Key, now: real) {
      |Queue(key, now)| >= THROTTLE_MAX
    }

    function After(key: Key, now: real): Limiter<Key> {
      var q := Queue(key, now);
      if Refuses(key, now) then Limiter(Evicted(queues, now)[key := q], throttled + 1)
      else Limiter(Evicted(queues, now)[key := q + [now]], throttled)
    }
  }

  class EventThrottle<Key(==)> {
    var queues: map<Key, seq<real>>
    var throttledEvents: nat

    function Value(): Limiter<Key>
      reads this
    {
      Limiter(queues, throttledEvents)
    }

    constructor ()
      ensures Value() == Limiter(map[], 0)
    {
      queues, throttledEvents := map[], 0;
    }

    /** The locked section of `_throttled`. */
    method Throttled(key: Key, now: real) returns (refused: bool)
      modifies this
      ensures refused == old(Value()).Refuses(key, now)
      ensures Value() == old(Value()).After(key, now)
    {
      if |queues| > THROTTLE_KEYS_MAX {
        var idle := set k | k in queues && (queues[k] == [] || now - queues[k][|queues[k]| - 1] >= THROTTLE_WINDOW_S);
        queues := queues - idle;
      }
      var q := if key in queues then queues[key] else [];
      while q != [] && now - q[0] >= THROTTLE_WINDOW_S
        invariant Pruned(q, now) == old(Value()).Queue(key, now)
        decreases |q|
      {
        q := q[1..];
      }
      if |q| >= THROTTLE_MAX {
        queues, throttledEvents := queues[key := q], throttledEvents + 1;
        return true;
      }
      queues := queues[key := q + [now]];
      return false;
    }
  }

  // ----- runs

  function Max(a: real, b: real): real {
    if a >= b then a else b
  }

  /** The limiter, the times at which each key was admitted, in the order of the lock, and the latest time a
      call has read. */
  datatype State<!Key> = State(limiter: Limiter<Key>, admitted: map<Key, seq<real>>, latest: real)

  function Step<Key>(s: State<Key>, c: Call<Key>): State<Key> {
    State(s.limiter.After(c.key, c.now),
          if s.limiter.Refuses(c.key, c.now) then s.admitted
          else s.admitted[c.key := Lookup(s.admitted, c.key) + [c.now]],
          Max(s.latest, c.now))
  }

  /** No call is more than `skew` behind the latest time seen before it. */
  ghost predicate IsRun<Key>(run: seq<State<Key>>, calls: seq<Call<Key>>, skew: real) {
    && |run| == |calls| + 1 && run[0].limiter == Limiter(map[], 0) && run[0].admitted == map[]
    && forall i :: 0 <= i < |calls| ==> calls[i].now >= run[i].latest - skew && run[i + 1] == Step(run[i], calls[i])
  }

  // ----- counting admissions

  /** How many of the times are later than `t`. */
  function CountSince(times: seq<real>, t: real): nat {
    if times == [] then 0
    else CountSince(times[..|times| - 1], t) + (if times[|times| - 1] > t then 1 else 0)
  }

  /** How many of the times are in the half-open window that starts at `x`. */
  function CountWindow(times: seq<real>, x: real, length: real): nat {
    if times == [] then 0
    else CountWindow(times[..|times| - 1], x, length)
         + (if x <= times[|times| - 1] < x + length then 1 else 0)
  }

  /** Time `i` was admitted: fewer than THROTTLE_MAX before it were less than `length` old. */
  predicate AdmittedAt(times: seq<real>, i: nat, length: real)
    requires i < |times|
  {
    CountSince(times[..i], times[i] - length) < THROTTLE_MAX
  }

  predicate Admitted(times: seq<real>, length: real) {
    forall i :: 0 <= i < |times| ==> AdmittedAt(times, i, length)
  }

  lemma {:induction false} WindowWithinSince(times: seq<real>, x: real, length: real, t: real)
    requires t < x
    ensures CountWindow(times, x, length) <= CountSince(times, t)
  {
    if times != [] {
      WindowWithinSince(times[..|times| - 1], x, length, t);
    }
  }

  /** No window of the length holds more than THROTTLE_MAX admissions, in whatever order they were made. */
  lemma {:induction false} WindowBound(times: seq<real>, x: real, length: real)
    requires Admitted(times, length)
    ensures CountWindow(times, x, length) <= THROTTLE_MAX
  {
    if times != [] {
      var rest, last := times[..|times| - 1], times[|times| - 1];
      if x <= last < x + length {
        WindowWithinSince(rest, x, length, last - length);
        assert AdmittedAt(times, |times| - 1, length);
      } else {
        AdmittedPrefix(times, length);
        WindowBound(rest, x, length);
      }
    }
  }

  lemma AdmittedPrefix(times: seq<real>, length: real)
    requires times != [] && Admitted(times, length)
    ensures Admitted(times[..|times| - 1], length)
  {
    var rest := times[..|times| - 1];
    forall i | 0 <= i < |rest| ensures AdmittedAt(rest, i, length) {
      assert AdmittedAt(times, i, length) && rest[..i] == times[..i];
    }
  }

  lemma AdmitOne(times: seq<real>, now: real, length: real)
    requires Admitted(times, length) && CountSince(times, now - length) < THROTTLE_MAX
    ensures Admitted(times + [now], length)
  {
    var h := times + [now];
    forall i | 0 <= i < |h| ensures AdmittedAt(h, i, length) {
      if i < |times| {
        assert AdmittedAt(times, i, length) && h[..i] == times[..i];
      } else {
        assert h[..i] == times;
      }
    }
  }

  /** Times after a prefix that is old do not outnumber the rest. */
  lemma {:induction false} CountAtMost(times: seq<real>, n: nat, t: real)
    requires n <= |times| && forall i :: 0 <= i < n ==> times[i] <= t
    ensures CountSince(times, t) <= |times| - n
  {
    if times != [] {
      if n == |times| {
        CountAtMost(times[..|times| - 1], n - 1, t);
      } else {
        CountAtMost(times[..|times| - 1], n, t);
      }
    }
  }

  lemma {:induction false} CountAll(times: seq<real>, n: nat, t: real)
    requires n <= |times| && forall i :: n <= i < |times| ==> times[i] > t
    ensures CountSince(times, t) >= |times| - n
  {
    if n < |times| {
      CountAll(times[..|times| - 1], n, t);
    }
  }

  // ----- the queue of a key

  /** An admission is at most `skew` behind an earlier one. */
  predicate Behind(h: seq<real>, i: nat, j: nat, skew: real)
    requires i < |h| && j < |h|
  {
    h[i] - skew <= h[j]
  }

  /** The queue `q` is the admissions `h` without a prefix that was nearly a window old by `clock`. */
  predicate QueueOk(q: seq<real>, h: seq<real>, clock: real, skew: real) {
    && |q| <= |h| && q == h[|h| - |q|..]
    && (forall i :: 0 <= i < |h| ==> h[i] <= clock)
    && (forall i, j :: 0 <= i <= j < |h| ==> Behind(h, i, j, skew))
    && (forall i :: 0 <= i < |h| - |q| ==> clock - h[i] >= THROTTLE_WINDOW_S - skew)
  }

  lemma EvictIsOk(q: seq<real>, h: seq<real>, clock: real, skew: real, now: real)
    requires QueueOk(q, h, clock, skew) && now <= clock && (q != [] ==> now - q[|q| - 1] >= THROTTLE_WINDOW_S)
    ensures QueueOk([], h, clock, skew)
  {
    forall i | 0 <= i < |h| ensures clock - h[i] >= THROTTLE_WINDOW_S - skew {
      if i >= |h| - |q| {
        assert h[|h| - 1] == q[|q| - 1] && Behind(h, i, |h| - 1, skew);
      }
    }
  }

  lemma {:induction false} PruneIsOk(q: seq<real>, h: seq<real>, clock: real, skew: real, now: real)
    requires QueueOk(q, h, clock, skew) && now <= clock && skew >= 0.0
    ensures QueueOk(Pruned(q, now), h, clock, skew)
    decreases |q|
  {
    if q != [] && now - q[0] >= THROTTLE_WINDOW_S {
      assert q[1..] == h[|h| - |q| + 1..] && q[0] == h[|h| - |q|];
      PruneIsOk(q[1..], h, clock, skew, now);
    }
  }

  lemma PushIsOk(q: seq<real>, h: seq<real>, clock: real, skew: real, now: real)
    requires QueueOk(q, h, clock, skew) && clock - skew <= now <= clock && skew >= 0.0
    ensures QueueOk(q + [now], h + [now], clock, skew)
  {
    var more := h + [now];
    assert more[|h| - |q|..] == h[|h| - |q|..] + [now];
    forall i, j | 0 <= i <= j < |more| ensures Behind(more, i, j, skew) {
      assert j < |h| ==> Behind(h, i, j, skew);
    }
  }

  /** The key's queue as the next call finds it. */
  lemma FoundIsOk<Key>(l: Limiter<Key>, key: Key, other: Key, h: seq<real>, clock: real, skew: real, now: real)
    requires QueueOk(Lookup(l.queues, other), h, clock, skew) && now <= clock && skew >= 0.0
    ensures QueueOk(Lookup(Evicted(l.queues, now), other), h, clock, skew)
    ensures other == key ==> QueueOk(l.Queue(key, now), h, clock, skew)
  {
    var q := Lookup(l.queues, other);
    if other in l.queues && |l.queues| > THROTTLE_KEYS_MAX && other in Idle(l.queues, now) {
      EvictIsOk(q, h, clock, skew, now);
    }
    PruneIsOk(Lookup(Evicted(l.queues, now), other), h, clock, skew, now);
  }

  lemma LaterIsOk(q: seq<real>, h: seq<real>, clock: real, later: real, skew: real)
    requires QueueOk(q, h, clock, skew) && clock <= later
    ensures QueueOk(q, h, later, skew)
  {
  }

  ghost predicate Inv<Key(!new)>(s: State<Key>, skew: real) {
    forall key :: KeyOk(s, key, skew)
  }

  /** Of one key: its queue, and how its admissions are spread. */
  predicate KeyOk<Key>(s: State<Key>, key: Key, skew: real) {
    && QueueOk(Lookup(s.limiter.queues, key), Lookup(s.admitted, key), s.latest, skew)
    && Admitted(Lookup(s.admitted, key), THROTTLE_WINDOW_S - 2.0 * skew)
  }

  /** What was dropped is too old to count, so an admission leaves fewer than THROTTLE_MAX before it. */
  lemma RecentAtMost(q: seq<real>, h: seq<real>, clock: real, skew: real, now: real)
    requires QueueOk(q, h, clock, skew) && now >= clock - skew
    ensures CountSince(h, now - (THROTTLE_WINDOW_S - 2.0 * skew)) <= |q|
  {
    CountAtMost(h, |h| - |q|, now - (THROTTLE_WINDOW_S - 2.0 * skew));
  }

  /** The queue the call finds, at the latest time, its own included. */
  lemma FoundAt<Key>(s: State<Key>, c: Call<Key>, skew: real)
    requires QueueOk(Lookup(s.limiter.queues, c.key), Lookup(s.admitted, c.key), s.latest, skew) && skew >= 0.0
    ensures QueueOk(s.limiter.Queue(c.key, c.now), Lookup(s.admitted, c.key), Max(s.latest, c.now), skew)
  {
    var h, clock := Lookup(s.admitted, c.key), Max(s.latest, c.now);
    LaterIsOk(Lookup(s.limiter.queues, c.key), h, s.latest, clock, skew);
    FoundIsOk(s.limiter, c.key, c.key, h, clock, skew, c.now);
  }

  lemma AdmitIsOk(q: seq<real>, h: seq<real>, clock: real, skew: real, now: real)
    requires QueueOk(q, h, clock, skew) && clock - skew <= now <= clock && skew >= 0.0 && |q| < THROTTLE_MAX
    requires Admitted(h, THROTTLE_WINDOW_S - 2.0 * skew)
    ensures QueueOk(q + [now], h + [now], clock, skew) && Admitted(h + [now], THROTTLE_WINDOW_S - 2.0 * skew)
  {
    PushIsOk(q, h, clock, skew, now);
    RecentAtMost(q, h, clock, skew, now);
    AdmitOne(h, now, THROTTLE_WINDOW_S - 2.0 * skew);
  }

  /** The caller's own key. */
  lemma OwnKey<Key>(s: State<Key>, c: Call<Key>, skew: real)
    requires KeyOk(s, c.key, skew) && c.now >= s.latest - skew && skew >= 0.0
    ensures KeyOk(Step(s, c), c.key, skew)
  {
    FoundAt(s, c, skew);
    if !s.limiter.Refuses(c.key, c.now) {
      AdmitIsOk(s.limiter.Queue(c.key, c.now), Lookup(s.admitted, c.key), Max(s.latest, c.now), skew, c.now);
    }
  }

  lemma OtherKey<Key>(s: State<Key>, c: Call<Key>, key: Key, skew: real)
    requires KeyOk(s, key, skew) && key != c.key && skew >= 0.0
    ensures KeyOk(Step(s, c), key, skew)
  {
    var h, clock := Lookup(s.admitted, key), Max(s.latest, c.now);
    LaterIsOk(Lookup(s.limiter.queues, key), h, s.latest, clock, skew);
    FoundIsOk(s.limiter, c.key, key, h, clock, skew, c.now);
    assert Lookup(Step(s, c).limiter.queues, key) == Lookup(Evicted(s.limiter.queues, c.now), key);
  }

  lemma {:induction false} RunKeepsInv<Key(!new)>(run: seq<State<Key>>, calls: seq<Call<Key>>, skew: real, n: nat)
    requires IsRun(run, calls, skew) && skew >= 0.0 && n < |run|
    ensures Inv(run[n], skew)
  {
    if n > 0 {
      RunKeepsInv(run, calls, skew, n - 1);
      var s, c := run[n - 1], calls[n - 1];
      forall key ensures KeyOk(Step(s, c), key, skew) {
        assert KeyOk(s, key, skew);
        if key == c.key {
          OwnKey(s, c, skew);
        } else {
          OtherKey(s, c, key, skew);
        }
      }
    }
  }

  /** For every run, every key and every window: calls at most `skew` behind admit at most THROTTLE_MAX in a
      window that is shorter than THROTTLE_WINDOW_S by twice the skew; in a full window without skew. */
  lemma RunBound<Key(!new)>(run: seq<State<Key>>, calls: seq<Call<Key>>, skew: real, n: nat, key: Key, x: real)
    requires IsRun(run, calls, skew) && skew >= 0.0 && n < |run|
    ensures CountWindow(Lookup(run[n].admitted, key), x, THROTTLE_WINDOW_S - 2.0 * skew) <= THROTTLE_MAX
  {
    RunKeepsInv(run, calls, skew, n);
    assert KeyOk(run[n], key, skew);
    WindowBound(Lookup(run[n].admitted, key), x, THROTTLE_WINDOW_S - 2.0 * skew);
  }

  // ----- without skew: the limiter that never forgets

  /** Every admission of every key, and how many calls were refused. */
  datatype Simple<!Key> = Simple(history: map<Key, seq<real>>, refused: nat)
  {
    /** THROTTLE_MAX admissions of the key are less than a window old. */
    predicate Refuses(key: Key, now: real) {
      CountSince(Lookup(history, key), now - THROTTLE_WINDOW_S) >= THROTTLE_MAX
    }

    function After(key: Key, now: real): Simple<Key> {
      if Refuses(key, now) then this.(refused := refused + 1)
      else this.(history := history[key := Lookup(history, key) + [now]])
    }
  }

  ghost predicate IsSimpleRun<Key>(run: seq<Simple<Key>>, calls: seq<Call<Key>>) {
    && |run| == |calls| + 1 && run[0] == Simple(map[], 0)
    && forall i :: 0 <= i < |calls| ==> run[i + 1] == run[i].After(calls[i].key, calls[i].now)
  }

  lemma {:induction false} PrunedHead(q: seq<real>, now: real)
    ensures Pruned(q, now) == [] || now - Pruned(q, now)[0] < THROTTLE_WINDOW_S
  {
    if q != [] && now - q[0] >= THROTTLE_WINDOW_S {
      PrunedHead(q[1..], now);
    }
  }

  /** The length of a pruned queue is the number of the key's admissions less than a window old. */
  lemma RecentCount(q: seq<real>, h: seq<real>, now: real)
    requires QueueOk(q, h, now, 0.0) && (q != [] ==> now - q[0] < THROTTLE_WINDOW_S)
    ensures CountSince(h, now - THROTTLE_WINDOW_S) == |q|
  {
    RecentAtMost(q, h, now, 0.0, now);
    var n, t := |h| - |q|, now - THROTTLE_WINDOW_S;
    forall i | n <= i < |h| ensures h[i] > t {
      assert h[n] == q[0] && Behind(h, n, i, 0.0);
    }
    CountAll(h, n, t);
  }

  /** A queue pruned at `now` is as long as the simple limiter's count. */
  lemma PrunedCount(q: seq<real>, h: seq<real>, now: real)
    requires QueueOk(q, h, now, 0.0)
    ensures |Pruned(q, now)| == CountSince(h, now - THROTTLE_WINDOW_S)
  {
    PruneIsOk(q, h, now, 0.0, now);
    PrunedHead(q, now);
    RecentCount(Pruned(q, now), h, now);
  }

  lemma FoundInOrder<Key>(s: State<Key>, c: Call<Key>)
    requires QueueOk(Lookup(s.limiter.queues, c.key), Lookup(s.admitted, c.key), s.latest, 0.0) && c.now >= s.latest
    ensures QueueOk(Lookup(Evicted(s.limiter.queues, c.now), c.key), Lookup(s.admitted, c.key), c.now, 0.0)
  {
    LaterIsOk(Lookup(s.limiter.queues, c.key), Lookup(s.admitted, c.key), s.latest, c.now, 0.0);
    FoundIsOk(s.limiter, c.key, c.key, Lookup(s.admitted, c.key), c.now, 0.0, c.now);
  }

  /** A call that is not behind finds its queue as long as the simple limiter's count. */
  lemma SameLength<Key>(s: State<Key>, c: Call<Key>)
    requires QueueOk(Lookup(s.limiter.queues, c.key), Lookup(s.admitted, c.key), s.latest, 0.0) && c.now >= s.latest
    ensures |s.limiter.Queue(c.key, c.now)| == CountSince(Lookup(s.admitted, c.key), c.now - THROTTLE_WINDOW_S)
  {
    FoundInOrder(s, c);
    PrunedCount(Lookup(Evicted(s.limiter.queues, c.now), c.key), Lookup(s.admitted, c.key), c.now);
  }

  /** A call that is not behind is decided alike by both limiters. */
  lemma SameDecision<Key>(s: State<Key>, c: Call<Key>)
    requires QueueOk(Lookup(s.limiter.queues, c.key), Lookup(s.admitted, c.key), s.latest, 0.0) && c.now >= s.latest
    ensures s.limiter.Refuses(c.key, c.now) <==> Simple(s.admitted, s.limiter.throttled).Refuses(c.key, c.now)
  {
    SameLength(s, c);
  }

  /** For every run whose calls reach the lock in the order of their times: the limiter that prunes queues and
      forgets idle keys has admitted and refused what the one that keeps every admission for ever has. */
  lemma {:induction false} RefinesSimple<Key(!new)>(run: seq<State<Key>>, simple: seq<Simple<Key>>,
                                                    calls: seq<Call<Key>>, n: nat)
    requires IsRun(run, calls, 0.0) && IsSimpleRun(simple, calls) && n < |run|
    ensures simple[n] == Simple(run[n].admitted, run[n].limiter.throttled)
  {
    if n > 0 {
      RefinesSimple(run, simple, calls, n - 1);
      RunKeepsInv(run, calls, 0.0, n - 1);
      assert KeyOk(run[n - 1], calls[n - 1].key, 0.0);
      SameDecision(run[n - 1], calls[n - 1]);
    }
  }

  /** And it decides every call alike. */
  lemma DecidesAlike<Key(!new)>(run: seq<State<Key>>, simple: seq<Simple<Key>>, calls: seq<Call<Key>>, n: nat)
    requires IsRun(run, calls, 0.0) && IsSimpleRun(simple, calls) && n < |calls|
    ensures run[n].limiter.Refuses(calls[n].key, calls[n].now) <==> simple[n].Refuses(calls[n].key, calls[n].now)
  {
    RefinesSimple(run, simple, calls, n);
    RunKeepsInv(run, calls, 0.0, n);
    assert KeyOk(run[n], calls[n].key, 0.0);
    SameDecision(run[n], calls[n]);
  }

  // ----- with skew: a late call

  /** One key with the queue `q` and the admissions `h`. */
  predicate Alone<Key>(s: State<Key>, key: Key, q: seq<real>, h: seq<real>) {
    && s.limiter.queues == (if q == [] then map[] else map[key := q])
    && Lookup(s.admitted, key) == h && |s.limiter.queues| <= 1
  }

  lemma AdmitAlone<Key>(s: State<Key>, key: Key, q: seq<real>, h: seq<real>, now: real)
    requires Alone(s, key, q, h) && |Pruned(q, now)| < THROTTLE_MAX
    ensures Alone(Step(s, Call(key, now)), key, Pruned(q, now) + [now], h + [now])
  {
    assert s.limiter.Queue(key, now) == Pruned(q, now);
  }

  lemma Extend<Key>(run: seq<State<Key>>, calls: seq<Call<Key>>, skew: real, c: Call<Key>)
    requires IsRun(run, calls, skew) && c.now >= run[|calls|].latest - skew
    ensures IsRun(run + [Step(run[|calls|], c)], calls + [c], skew)
  {
    var more, all := run + [Step(run[|calls|], c)], calls + [c];
    forall i | 0 <= i < |all| ensures all[i].now >= more[i].latest - skew && more[i + 1] == Step(more[i], all[i]) {
      assert i < |calls| ==> more[i] == run[i] && more[i + 1] == run[i + 1] && all[i] == calls[i];
    }
  }

  function Zeros(n: nat): (z: seq<real>)
    ensures |z| == n && forall i :: 0 <= i < n ==> z[i] == 0.0
  {
    seq(n, _ => 0.0)
  }

  lemma {:induction false} AtZero<Key>(key: Key, n: nat, skew: real)
      returns (run: seq<State<Key>>, calls: seq<Call<Key>>)
    requires n <= THROTTLE_MAX && skew >= 0.0
    ensures IsRun(run, calls, skew) && Alone(run[|calls|], key, Zeros(n), Zeros(n)) && run[|calls|].latest == 0.0
  {
    if n == 0 {
      run, calls := [State(Limiter(map[], 0), map[], 0.0)], [];
    } else {
      run, calls := AtZero(key, n - 1, skew);
      AdmitAlone(run[|calls|], key, Zeros(n - 1), Zeros(n - 1), 0.0);
      Extend(run, calls, skew, Call(key, 0.0));
      assert Zeros(n - 1) + [0.0] == Zeros(n);
      run, calls := run + [Step(run[|calls|], Call(key, 0.0))], calls + [Call(key, 0.0)];
    }
  }

  lemma {:induction false} AllPruned(n: nat, now: real)
    requires now >= THROTTLE_WINDOW_S
    ensures Pruned(Zeros(n), now) == []
  {
    if n > 0 {
      assert Zeros(n)[1..] == Zeros(n - 1);
      AllPruned(n - 1, now);
    }
  }

  lemma {:induction false} CountZeros(n: nat)
    ensures CountWindow(Zeros(n), 0.0, THROTTLE_WINDOW_S) == n
  {
    if n > 0 {
      assert Zeros(n)[..n - 1] == Zeros(n - 1);
      CountZeros(n - 1);
    }
  }

  /** Five calls at 0 and one at 600 fill two windows; a call that had read a little less than 600 and got the
      lock after them is admitted as the sixth of the window that starts at 0. */
  lemma LateCallFillsWindow<Key>(key: Key, skew: real) returns (run: seq<State<Key>>, calls: seq<Call<Key>>)
    requires skew > 0.0
    ensures IsRun(run, calls, skew)
    ensures CountWindow(Lookup(run[|calls|].admitted, key), 0.0, THROTTLE_WINDOW_S) == THROTTLE_MAX + 1
  {
    run, calls := AtZero(key, THROTTLE_MAX, skew);
    var late := if skew <= 1.0 then 600.0 - skew else 599.0;
    var z, c1, c2 := Zeros(THROTTLE_MAX), Call(key, 600.0), Call(key, late);
    AllPruned(THROTTLE_MAX, 600.0);
    AdmitAlone(run[|calls|], key, z, z, 600.0);
    var s1 := Step(run[|calls|], c1);
    Extend(run, calls, skew, c1);
    AdmitAlone(s1, key, [] + [600.0], z + [600.0], late);
    Extend(run + [s1], calls + [c1], skew, c2);
    run, calls := run + [s1] + [Step(s1, c2)], calls + [c1] + [c2];
    CountZeros(THROTTLE_MAX);
    var h, g := z + [600.0], z + [600.0] + [late];
    assert h[..|z|] == z && g[..|h|] == h;
  }

  /** At most THROTTLE_MAX admissions of a key in every full window, in a state of a run. */
  ghost predicate FullWindows<Key(!new)>(s: State<Key>) {
    forall key, x :: CountWindow(Lookup(s.admitted, key), x, THROTTLE_WINDOW_S) <= THROTTLE_MAX
  }

  /** The bound on full windows holds in every run exactly when calls reach the lock in the order of their
      times. */
  lemma FullWindowsIff<Key(!new)>(key: Key, skew: real)
    requires skew >= 0.0
    ensures (forall run: seq<State<Key>>, calls, n: nat :: IsRun(run, calls, skew) && n < |run| ==> FullWindows(run[n]))
            <==> skew == 0.0
  {
    if skew == 0.0 {
      forall run: seq<State<Key>>, calls, n: nat, k, x | IsRun(run, calls, skew) && n < |run|
        ensures CountWindow(Lookup(run[n].admitted, k), x, THROTTLE_WINDOW_S) <= THROTTLE_MAX
      {
        RunBound(run, calls, skew, n, k, x);
      }
    } else {
      var run, calls := LateCallFillsWindow(key, skew);
      assert CountWindow(Lookup(run[|calls|].admitted, key), 0.0, THROTTLE_WINDOW_S) > THROTTLE_MAX;
      assert !FullWindows(run[|calls|]);
    }
  }
}
