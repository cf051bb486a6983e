/**
 The key-set cache of one issuer in api/core/identity_verifier.py (`JwksCache`).

 The class holds the source's fields; each of its methods is one stretch of `key` or `refresh` that
 runs without giving up control. A run interleaves those stretches over any number of calls, and
 start-up prefetches that call `refresh` outside the lock.
 */
module JwksCache {
  import opened Common

  datatype Config = Config(ttl: real, unknownKidRefetch: real, coldRetry: real)

  /** The cached set (`Key` values per key id), when it was fetched, when a fetch was last started. */
  datatype Cache<!Kid, Key> =
    Cache(keys: Option<map<Kid, Key>>, fetchedAt: real, attemptedAt: Option<real>, locked: bool)
  {
    function Interval(cfg: Config): real {
      if keys.None? then cfg.coldRetry else cfg.unknownKidRefetch
    }

    /** `_may_fetch`. */
    predicate MayFetch(cfg: Config, now: real) {
      attemptedAt.None? || now - attemptedAt.value >= Interval(cfg)
    }

    predicate Stale(cfg: Config, now: real) {
      keys.None? || now - fetchedAt >= cfg.ttl
    }

    function Cached(kid: Kid): Option<Key> {
      if keys.None? then None else Get(keys.value, kid)
    }

    /** `_fresh_hit`. */
    function FreshHit(cfg: Config, kid: Kid, now: real): Option<Key> {
      if Stale(cfg, now) then None else Cached(kid)
    }

    /** `key` before the lock: a fresh hit, or a stale one while a refresh is under way or not due. */
    function FastHit(cfg: Config, kid: Kid, now: real): Option<Key> {
      if FreshHit(cfg, kid, now).Some? then FreshHit(cfg, kid, now)
      else if locked || !MayFetch(cfg, now) then Cached(kid)
      else None
    }

    /** `key` under the lock: whether it fetches before it answers. */
    predicate Fetches(cfg: Config, kid: Kid, now: real) {
      FreshHit(cfg, kid, now).None? && (Stale(cfg, now) || Cached(kid).None?) && MayFetch(cfg, now)
    }

    /** The end of `key`. */
    function Answer(kid: Kid): Reply<Key> {
      if keys.None? then Unavailable else if kid !in keys.value then Unknown else Found(keys.value[kid])
    }

    /** The end of `refresh`: a fetch that failed, or whose set is empty, keeps the last good set. */
    function Landed(set': Option<map<Kid, Key>>, now: real): Cache<Kid, Key> {
      if set'.None? || set'.value == map[] then this else this.(keys := set', fetchedAt := now)
    }
  }

  datatype Reply<Key> = Found(key: Key) | Unknown | Unavailable

  class JwksCache<Kid(==), Key> {
    const cfg: Config
    var keys: Option<map<Kid, Key>>
    var fetchedAt: real
    var attemptedAt: Option<real>
    var locked: bool

    function Value(): Cache<Kid, Key>
      reads this
    {
      Cache(keys, fetchedAt, attemptedAt, locked)
    }

    constructor (cfg: Config)
      ensures this.cfg == cfg && Value() == Cache(None, 0.0, None, false)
    {
      this.cfg := cfg;
      keys, fetchedAt, attemptedAt, locked := None, 0.0, None, false;
    }

    /** `key` up to the lock. */
    method KeyFast(kid: Kid, now: real) returns (hit: Option<Key>)
      ensures hit == Value().FastHit(cfg, kid, now)
    {
      if keys.Some? && now - fetchedAt < cfg.ttl && kid in keys.value {
        return Some(keys.value[kid]);
      }
      hit := if keys.Some? then Get(keys.value, kid) else None;
      if hit.Some? {
        var interval := if keys.None? then cfg.coldRetry else cfg.unknownKidRefetch;
        var due := attemptedAt.None? || now - attemptedAt.value >= interval;
        if !locked && due {
          hit := None;
        }
      }
    }

    /** `key` from the lock to its answer, or to the start of the fetch at `start`. */
    method KeyLocked(kid: Kid, now: real, start: real) returns (reply: Option<Reply<Key>>)
      requires !locked
      modifies this
      ensures reply == if old(Value()).Fetches(cfg, kid, now) then None else Some(old(Value()).Answer(kid))
      ensures Value() == if reply.None? then old(Value()).(locked := true, attemptedAt := Some(start)) else old(Value())
    {
      locked := true;
      if keys.Some? && now - fetchedAt < cfg.ttl && kid in keys.value {
        locked := false;
        return Some(Found(keys.value[kid]));
      }
      var stale := keys.None? || now - fetchedAt >= cfg.ttl;
      var interval := if keys.None? then cfg.coldRetry else cfg.unknownKidRefetch;
      var due := attemptedAt.None? || now - attemptedAt.value >= interval;
      if (stale || kid !in keys.value) && due {
        attemptedAt := Some(start);
        return None;
      }
      locked := false;
      if keys.None? {
        return Some(Unavailable);
      }
      reply := if kid !in keys.value then Some(Unknown) else Some(Found(keys.value[kid]));
    }

    /** The rest of `key` once its fetch has ended. */
    method KeyFetched(kid: Kid, fetched: Option<map<Kid, Key>>, now: real) returns (reply: Reply<Key>)
      requires locked
      modifies this
      ensures Value() == old(Value()).Landed(fetched, now).(locked := false)
      ensures reply == Value().Answer(kid)
    {
      if fetched.Some? && fetched.value != map[] {
        keys, fetchedAt := fetched, now;
      }
      locked := false;
      if keys.None? {
        return Unavailable;
      }
      reply := if kid !in keys.value then Unknown else Found(keys.value[kid]);
    }
  }

  // ----- runs

  datatype Phase<Kid> = Waiting(kid: Kid) | Fetching(kid: Kid)
  /** A fetch that `key` started: when, and whether no set was loaded then. */
  datatype Start = Start(at: real, cold: bool)
  /** A reply of `key`, with how many sets had been fetched by then. */
  datatype Replied<Kid, Key> = Replied(kid: Kid, reply: Reply<Key>, sets: nat)

  datatype State<!Kid, Key> =
    State(cache: Cache<Kid, Key>, calls: map<nat, Phase<Kid>>, holder: Option<nat>, clock: real,
          starts: seq<Start>, sets: seq<map<Kid, Key>>, replies: seq<Replied<Kid, Key>>)

  datatype Event<!Kid, Key> =
    | Begin(call: nat, kid: Kid, now: real)
    | Lock(call: nat, now: real, start: real)
    | Fetched(call: nat, result: Option<map<Kid, Key>>, now: real)
    | Cancelled(call: nat)
    | PrefetchStarted(now: real)
    | PrefetchDone(result: Option<map<Kid, Key>>, now: real)

  function Init<Kid, Key>(): State<Kid, Key> {
    State(Cache(None, 0.0, None, false), map[], None, 0.0, [], [], [])
  }

  function Reply'<Kid, Key>(s: State<Kid, Key>, kid: Kid, reply: Reply<Key>): State<Kid, Key> {
    s.(replies := s.replies + [Replied(kid, reply, |s.sets|)])
  }

  function Landed<Kid, Key>(s: State<Kid, Key>, result: Option<map<Kid, Key>>, now: real): State<Kid, Key> {
    s.(cache := s.cache.Landed(result, now),
       sets := if result.None? || result.value == map[] then s.sets else s.sets + [result.value])
  }

  /** An event may happen when its call is at that point and the clock has not passed it. */
  predicate Enabled<Kid, Key>(s: State<Kid, Key>, e: Event<Kid, Key>) {
    match e
    case Begin(c, _, now) => c !in s.calls && s.clock <= now
    case Lock(c, now, start) => c in s.calls && s.calls[c].Waiting? && !s.cache.locked && s.clock <= now <= start
    case Fetched(c, _, now) => c in s.calls && s.calls[c].Fetching? && s.clock <= now
    case Cancelled(c) => c in s.calls
    case PrefetchStarted(now) => s.clock <= now
    case PrefetchDone(_, now) => s.clock <= now
  }

  function Step<Kid, Key>(cfg: Config, s: State<Kid, Key>, e: Event<Kid, Key>): State<Kid, Key>
    requires Enabled(s, e)
  {
    match e
    case Begin(c, kid, now) =>
      var hit := s.cache.FastHit(cfg, kid, now);
      if hit.Some? then Reply'(s.(clock := now), kid, Found(hit.value))
      else s.(clock := now, calls := s.calls[c := Waiting(kid)])
    case Lock(c, now, start) =>
      var kid := s.calls[c].kid;
      if s.cache.Fetches(cfg, kid, now) then
        s.(cache := s.cache.(locked := true, attemptedAt := Some(start)), calls := s.calls[c := Fetching(kid)],
           holder := Some(c), clock := start, starts := s.starts + [Start(start, s.cache.keys.None?)])
      else Reply'(s.(clock := start, calls := s.calls - {c}), kid, s.cache.Answer(kid))
    case Fetched(c, result, now) =>
      var kid, s1 := s.calls[c].kid, Landed(s, result, now);
      var s2 := s1.(cache := s1.cache.(locked := false), holder := None, clock := now, calls := s.calls - {c});
      Reply'(s2, kid, s1.cache.Answer(kid))
    case Cancelled(c) =>
      if s.calls[c].Fetching? then s.(calls := s.calls - {c}, holder := None, cache := s.cache.(locked := false))
      else s.(calls := s.calls - {c})
    case PrefetchStarted(now) => s.(clock := now, cache := s.cache.(attemptedAt := Some(now)))
    case PrefetchDone(result, now) => Landed(s, result, now).(clock := now)
  }

  ghost predicate IsRun<Kid, Key>(cfg: Config, run: seq<State<Kid, Key>>, events: seq<Event<Kid, Key>>) {
    && |run| == |events| + 1 && run[0] == Init()
    && forall i :: 0 <= i < |events| ==> Enabled(run[i], events[i]) && run[i + 1] == Step(cfg, run[i], events[i])
  }

  // ----- the invariant

  /** The lock is held exactly by the one call that fetches. */
  ghost predicate LockOk<Kid, Key>(s: State<Kid, Key>) {
    && s.cache.locked == s.holder.Some?
    && (s.holder.Some? ==> s.holder.value in s.calls && s.calls[s.holder.value].Fetching?)
    && (forall c :: c in s.calls && s.calls[c].Fetching? ==> s.holder == Some(c))
  }

  function IntervalOf(cfg: Config, start: Start): real {
    if start.cold then cfg.coldRetry else cfg.unknownKidRefetch
  }

  predicate Apart(cfg: Config, a: Start, b: Start) {
    b.at - a.at >= IntervalOf(cfg, b)
  }

  predicate SpacedOk(cfg: Config, starts: seq<Start>) {
    forall i, j :: 0 <= i < j < |starts| ==> Apart(cfg, starts[i], starts[j])
  }

  /** The last attempt is no earlier than any start. */
  predicate StartedBy(starts: seq<Start>, attempted: Option<real>) {
    forall i :: 0 <= i < |starts| ==> attempted.Some? && starts[i].at <= attempted.value
  }

  ghost predicate StartsOk<Kid, Key>(cfg: Config, s: State<Kid, Key>) {
    && (s.cache.attemptedAt.Some? ==> s.cache.attemptedAt.value <= s.clock)
    && StartedBy(s.starts, s.cache.attemptedAt) && SpacedOk(cfg, s.starts)
  }

  /** The cached set is one that was fetched and is not empty; every answered key came from such a set. */
  ghost predicate SetsOk<Kid, Key>(s: State<Kid, Key>) {
    && (s.cache.keys.None? <==> s.sets == [])
    && (s.cache.keys.Some? ==> s.cache.keys.value in s.sets && s.cache.keys.value != map[])
  }

  ghost predicate ReplyOk<Kid, Key>(sets: seq<map<Kid, Key>>, r: Replied<Kid, Key>) {
    && r.sets <= |sets|
    && (r.reply.Found? ==> exists i :: 0 <= i < r.sets && r.kid in sets[i] && sets[i][r.kid] == r.reply.key)
    && (r.reply.Unavailable? ==> r.sets == 0)
  }

  ghost predicate RepliesOk<Kid, Key>(s: State<Kid, Key>) {
    forall r :: r in s.replies ==> ReplyOk(s.sets, r)
  }

  ghost predicate Inv<Kid, Key>(cfg: Config, s: State<Kid, Key>) {
    LockOk(s) && StartsOk(cfg, s) && SetsOk(s) && RepliesOk(s)
  }

  lemma StepKeepsLock<Kid, Key>(cfg: Config, s: State<Kid, Key>, e: Event<Kid, Key>)
    requires LockOk(s) && Enabled(s, e)
    ensures LockOk(Step(cfg, s, e))
  {
  }

  /** A fetch that starts when it is due is spaced from every earlier one. */
  lemma StartIsSpaced(cfg: Config, starts: seq<Start>, attempted: Option<real>, next: Start)
    requires SpacedOk(cfg, starts) && StartedBy(starts, attempted)
    requires attempted.Some? ==> next.at - attempted.value >= IntervalOf(cfg, next)
    ensures SpacedOk(cfg, starts + [next])
  {
    var more := starts + [next];
    forall i, j | 0 <= i < j < |more| ensures Apart(cfg, more[i], more[j]) {
      if j < |starts| {
        assert Apart(cfg, starts[i], starts[j]);
      } else {
        assert more[i] == starts[i] && attempted.Some? && starts[i].at <= attempted.value;
      }
    }
  }

  lemma StartedByNext(starts: seq<Start>, attempted: Option<real>, next: Start)
    requires StartedBy(starts, attempted) && (attempted.Some? ==> attempted.value <= next.at)
    ensures StartedBy(starts + [next], Some(next.at))
  {
    var more := starts + [next];
    forall i | 0 <= i < |more| ensures more[i].at <= next.at {
      if i < |starts| {
        assert more[i] == starts[i] && attempted.Some? && starts[i].at <= attempted.value;
      }
    }
  }

  lemma StepKeepsStarts<Kid, Key>(cfg: Config, s: State<Kid, Key>, e: Event<Kid, Key>)
    requires StartsOk(cfg, s) && Enabled(s, e)
    ensures StartsOk(cfg, Step(cfg, s, e))
  {
    if e.Lock? && s.cache.Fetches(cfg, s.calls[e.call].kid, e.now) {
      var next := Start(e.start, s.cache.keys.None?);
      StartIsSpaced(cfg, s.starts, s.cache.attemptedAt, next);
      StartedByNext(s.starts, s.cache.attemptedAt, next);
    }
  }

  lemma MoreSets<Kid, Key>(sets: seq<map<Kid, Key>>, more: seq<map<Kid, Key>>, r: Replied<Kid, Key>)
    requires ReplyOk(sets, r)
    ensures ReplyOk(sets + more, r)
  {
    if r.reply.Found? {
      var i :| 0 <= i < r.sets && r.kid in sets[i] && sets[i][r.kid] == r.reply.key;
      assert (sets + more)[i] == sets[i];
    }
  }

  lemma LandedOk<Kid, Key>(s: State<Kid, Key>, result: Option<map<Kid, Key>>, now: real)
    requires SetsOk(s) && RepliesOk(s)
    ensures SetsOk(Landed(s, result, now)) && RepliesOk(Landed(s, result, now))
  {
    if result.Some? && result.value != map[] {
      forall r | r in s.replies
        ensures ReplyOk(s.sets + [result.value], r)
      {
        MoreSets(s.sets, [result.value], r);
      }
    }
  }

  lemma AnswerOk<Kid, Key>(s: State<Kid, Key>, kid: Kid)
    requires SetsOk(s)
    ensures ReplyOk(s.sets, Replied(kid, s.cache.Answer(kid), |s.sets|))
    ensures s.cache.Cached(kid).Some? ==> s.cache.Answer(kid) == Found(s.cache.Cached(kid).value)
  {
    if s.cache.keys.Some? {
      var i :| 0 <= i < |s.sets| && s.sets[i] == s.cache.keys.value;
    }
  }

  lemma StepKeepsSets<Kid, Key>(cfg: Config, s: State<Kid, Key>, e: Event<Kid, Key>)
    requires SetsOk(s) && RepliesOk(s) && Enabled(s, e)
    ensures SetsOk(Step(cfg, s, e)) && RepliesOk(Step(cfg, s, e))
  {
    match e
    case Begin(c, kid, _) => AnswerOk(s, kid);
    case Lock(c, _, _) => AnswerOk(s, s.calls[c].kid);
    case Fetched(c, result, now) =>
      LandedOk(s, result, now);
      AnswerOk(Landed(s, result, now), s.calls[c].kid);
    case Cancelled(c) =>
    case PrefetchStarted(_) =>
    case PrefetchDone(result, now) => LandedOk(s, result, now);
  }

  lemma {:induction false} RunKeepsInv<Kid, Key>(cfg: Config, run: seq<State<Kid, Key>>,
                                                 events: seq<Event<Kid, Key>>, n: nat)
    requires IsRun(cfg, run, events) && n < |run|
    ensures Inv(cfg, run[n])
  {
    if n > 0 {
      RunKeepsInv(cfg, run, events, n - 1);
      StepKeepsLock(cfg, run[n - 1], events[n - 1]);
      StepKeepsStarts(cfg, run[n - 1], events[n - 1]);
      StepKeepsSets(cfg, run[n - 1], events[n - 1]);
    }
  }

  /** In every state of every run: the calls' fetches never overlap, each starts at least the cold or
      warm interval after every earlier one, and every key handed out was in a set fetched before. */
  lemma CacheIsSafe<Kid, Key>(cfg: Config, run: seq<State<Kid, Key>>, events: seq<Event<Kid, Key>>, n: nat)
    requires IsRun(cfg, run, events) && n < |run|
    ensures var s := run[n];
            && (forall c, d :: c in s.calls && d in s.calls && s.calls[c].Fetching? && s.calls[d].Fetching? ==> c == d)
            && (forall i, j :: 0 <= i < j < |s.starts| ==> Apart(cfg, s.starts[i], s.starts[j]))
            && (forall r :: r in s.replies ==> ReplyOk(s.sets, r))
  {
    RunKeepsInv(cfg, run, events, n);
  }

  /** A step adds at most one answer, and with a set loaded that is not "unavailable". */
  lemma StepAnswers<Kid, Key>(cfg: Config, s: State<Kid, Key>, e: Event<Kid, Key>)
    requires SetsOk(s) && Enabled(s, e) && s.sets != []
    ensures var t := Step(cfg, s, e);
            && s.replies <= t.replies && |t.replies| <= |s.replies| + 1 && |s.sets| <= |t.sets|
            && (|t.replies| == |s.replies| + 1 ==> !t.replies[|s.replies|].reply.Unavailable?)
  {
    match e
    case Begin(_, _, _) =>
    case Lock(_, _, _) =>
    case Fetched(_, _, _) =>
    case Cancelled(_) =>
    case PrefetchStarted(_) =>
    case PrefetchDone(_, _) =>
  }

  /** Once one fetch has succeeded, the set is never lost or empty, and no call says "unavailable". */
  lemma {:induction false} NeverLostAgain<Kid, Key>(cfg: Config, run: seq<State<Kid, Key>>,
                                                    events: seq<Event<Kid, Key>>, m: nat, n: nat)
    requires IsRun(cfg, run, events) && m <= n < |run| && run[m].sets != []
    ensures run[n].cache.keys.Some? && run[n].cache.keys.value != map[]
    ensures |run[m].replies| <= |run[n].replies| && |run[m].sets| <= |run[n].sets|
    ensures forall i :: |run[m].replies| <= i < |run[n].replies| ==> !run[n].replies[i].reply.Unavailable?
    decreases n
  {
    RunKeepsInv(cfg, run, events, n);
    if m < n {
      NeverLostAgain(cfg, run, events, m, n - 1);
      RunKeepsInv(cfg, run, events, n - 1);
      StepAnswers(cfg, run[n - 1], events[n - 1]);
    }
  }
}
