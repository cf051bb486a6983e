/**
 The alert protocol of shared/ops_checks.py (`raise_alert`): one advisory-locked transaction decides on
 the bell and the e-mail, the e-mail is published after it, and a failed publish deletes the bell.

 Each locked transaction, each publish outcome and each delete is one step; any number of tasks may be
 between their steps. Times are seconds; `now` is the clock a task read before its transaction and
 `created` is the time the database put on the bell.
 */
module OpsBells {
  import opened Common

  const HOUR := 3600
  const DAY := 24 * HOUR
  const BELL_EVERY := 6 * HOUR

  /** The fixed checks; all of them bell at the default interval. */
  const CHECKS: set<string> := {
    "jobs_starved", "jobs_overdue", "rds_role_connections", "rds_xid_age", "cis_app_too_many_connections",
    "llm_call_log_write_failed", "decision_log_write_failed", "llm_shadow_log_write_failed",
    "dfs_call_log_write_failed", "tenant_flag_read_failed", "tenant_flag_unrecognized",
    "tenant_pool_unavailable", "tenant_guc_not_applied", "tenant_route_admin_pool",
    "llm_spend_alert.tripplanner.near", "llm_spend_alert.tripplanner.cap"}

  predicate Named(prefix: string, name: string) {
    prefix < name
  }

  /** `check_for`, reduced to the bell interval; None is the source's KeyError. */
  function BellEvery(name: string): (every: Option<int>)
    ensures every.Some? ==> 0 < every.value <= DAY
  {
    if name in CHECKS then Some(BELL_EVERY)
    else if Named("llm_stage_coverage.", name) then Some(DAY)
    else if name == "route_digest" || name == "qf_digest" then Some(20 * HOUR)
    else if Named("route_fb.", name) || Named("route_last.", name) then Some(HOUR)
    else if Named("route_back.", name) then Some(60)
    else if Named("route_cost.", name) || Named("route_cut.", name) then Some(DAY)
    else if Named("qf_cut.", name) || Named("qf_fb.", name) || Named("qf_drift.", name) then Some(20 * HOUR)
    else None
  }

  /** The UTC day of a time. */
  function DayOf(t: int): int {
    t / DAY
  }

  datatype Bell = Bell(check: string, created: int)

  /** `Lost`: the task was cancelled while its publish thread runs, so the publish may still succeed. */
  datatype Phase = Publishing | Failed | Lost | Mailed
  /** A transaction that may mail, under the id of the bell it wrote. */
  datatype Claim = Claim(check: string, now: int, created: int, phase: Phase)
  datatype State = State(bells: map<nat, Bell>, claims: map<nat, Claim>, next: nat)

  const INIT := State(map[], map[], 0)

  datatype Event =
    | Transact(check: string, now: int, created: int, topicSet: bool)
    | PublishOk(bell: nat)
    | PublishFailed(bell: nat)
    | DeleteBell(bell: nat)
    | DeleteFailed(bell: nat)
    | TaskLost(bell: nat)

  /** LAST_BELL_SQL reads the bells of the check in the last 24 hours. */
  predicate BelledSince(s: State, check: string, now: int, since: int) {
    exists b :: b in s.bells && s.bells[b].check == check &&
                s.bells[b].created >= now - DAY && s.bells[b].created >= since
  }

  predicate InPhase(s: State, b: nat, phase: Phase) {
    b in s.claims && s.claims[b].phase == phase
  }

  function To(s: State, b: nat, phase: Phase): State
    requires b in s.claims
  {
    s.(claims := s.claims[b := s.claims[b].(phase := phase)])
  }

  function Step(every: string -> Option<int>, s: State, e: Event): State {
    match e
    case Transact(check, now, created, topicSet) =>
      if every(check).None? || BelledSince(s, check, now, now - every(check).value) then s
      else
        var mailedToday := BelledSince(s, check, now, DayOf(now) * DAY);
        State(s.bells[s.next := Bell(check, created)],
              if mailedToday || !topicSet then s.claims else s.claims[s.next := Claim(check, now, created, Publishing)],
              s.next + 1)
    case PublishOk(b) =>
      if InPhase(s, b, Publishing) || InPhase(s, b, Lost) then To(s, b, Mailed) else s
    case PublishFailed(b) =>
      if InPhase(s, b, Publishing) then To(s, b, Failed)
      else if InPhase(s, b, Lost) then s.(claims := s.claims - {b})
      else s
    case DeleteBell(b) =>
      if InPhase(s, b, Failed) then s.(bells := s.bells - {b}, claims := s.claims - {b}) else s
    case DeleteFailed(b) =>
      if InPhase(s, b, Failed) then s.(claims := s.claims - {b}) else s
    case TaskLost(b) =>
      if InPhase(s, b, Publishing) then To(s, b, Lost)
      else if InPhase(s, b, Failed) then s.(claims := s.claims - {b})
      else s
  }

  function Run(every: string -> Option<int>, events: seq<Event>): State {
    if events == [] then INIT else Step(every, Run(every, events[..|events| - 1]), events[|events| - 1])
  }

  /** One clock for the processes and the database: a task reads it before its transaction writes. */
  predicate OneClock(events: seq<Event>) {
    forall e :: e in events && e.Transact? ==> e.now <= e.created
  }

  ghost predicate AtMostADay(every: string -> Option<int>) {
    forall c :: every(c).Some? ==> every(c).value <= DAY
  }

  // ----- one mail per day

  /** Every claim's bell stands. */
  ghost predicate ClaimsOk(claims: map<nat, Claim>, bells: map<nat, Bell>) {
    forall b :: b in claims ==> b in bells && bells[b] == Bell(claims[b].check, claims[b].created)
  }

  /** When a claim read its clock, the day of every older bell of its check was over. */
  ghost predicate DaysOk(claims: map<nat, Claim>, bells: map<nat, Bell>) {
    forall a, b :: a in bells && b in claims && a < b && bells[a].check == claims[b].check ==>
      DayOf(bells[a].created) < DayOf(claims[b].now)
  }

  ghost predicate IdsOk(every: string -> Option<int>, bells: map<nat, Bell>, next: nat) {
    forall b :: b in bells ==> b < next && every(bells[b].check).Some?
  }

  ghost predicate Inv(every: string -> Option<int>, s: State) {
    IdsOk(every, s.bells, s.next) && ClaimsOk(s.claims, s.bells) && DaysOk(s.claims, s.bells)
  }

  /** A transaction that may mail finds every older bell of the check on an earlier day. */
  lemma FreshDay(s: State, check: string, now: int, b: nat)
    requires !BelledSince(s, check, now, DayOf(now) * DAY)
    requires b in s.bells && s.bells[b].check == check
    ensures DayOf(s.bells[b].created) < DayOf(now)
  {
    assert s.bells[b].created < DayOf(now) * DAY;
  }

  lemma TransactKeepsClaims(every: string -> Option<int>, s: State, e: Event)
    requires Inv(every, s) && e.Transact?
    ensures IdsOk(every, Step(every, s, e).bells, Step(every, s, e).next)
    ensures ClaimsOk(Step(every, s, e).claims, Step(every, s, e).bells)
  {
  }

  lemma TransactKeepsDays(every: string -> Option<int>, s: State, e: Event)
    requires Inv(every, s) && e.Transact?
    ensures DaysOk(Step(every, s, e).claims, Step(every, s, e).bells)
  {
    var claims, bells := Step(every, s, e).claims, Step(every, s, e).bells;
    forall a, b | a in bells && b in claims && a < b && bells[a].check == claims[b].check
      ensures DayOf(bells[a].created) < DayOf(claims[b].now)
    {
      if b == s.next {
        FreshDay(s, e.check, e.now, a);
      }
    }
  }

  /** `t` has only bells and claims of `s`, the claims perhaps in another phase. */
  ghost predicate Within(t: State, s: State) {
    && t.next == s.next
    && (forall b :: b in t.bells ==> b in s.bells && t.bells[b] == s.bells[b])
    && (forall b :: b in t.claims ==>
          b in s.claims && t.claims[b] == s.claims[b].(phase := t.claims[b].phase) && b in t.bells)
  }

  lemma OtherStepIsWithin(every: string -> Option<int>, s: State, e: Event)
    requires ClaimsOk(s.claims, s.bells) && !e.Transact?
    ensures Within(Step(every, s, e), s)
  {
  }

  lemma WithinKeepsInv(every: string -> Option<int>, s: State, t: State)
    requires Inv(every, s) && Within(t, s)
    ensures Inv(every, t)
  {
  }

  lemma {:induction false} RunKeepsInv(every: string -> Option<int>, events: seq<Event>)
    ensures Inv(every, Run(every, events))
  {
    if events != [] {
      var before, e := events[..|events| - 1], events[|events| - 1];
      RunKeepsInv(every, before);
      if e.Transact? {
        TransactKeepsClaims(every, Run(every, before), e);
        TransactKeepsDays(every, Run(every, before), e);
      } else {
        OtherStepIsWithin(every, Run(every, before), e);
        WithinKeepsInv(every, Run(every, before), Run(every, events));
      }
    }
  }

  predicate WasMailed(s: State, b: nat) {
    InPhase(s, b, Mailed)
  }

  /** For every interleaving and whatever the clocks: when a publish succeeds, its bell stays, and its
      transaction read a later day than that of every older bell of the check. */
  lemma MailsAreOnLaterDays(every: string -> Option<int>, events: seq<Event>, a: nat, b: nat)
    requires a < b && a in Run(every, events).bells && WasMailed(Run(every, events), b)
    requires Run(every, events).bells[a].check == Run(every, events).claims[b].check
    ensures var s := Run(every, events);
            b in s.bells && DayOf(s.bells[a].created) < DayOf(s.claims[b].now)
  {
    RunKeepsInv(every, events);
  }

  /** The database dated the bell on the day the caller read, or later. */
  predicate DatedInTime(c: Claim) {
    DayOf(c.now) <= DayOf(c.created)
  }

  /** For every interleaving, at most one publish of a check succeeds per UTC day, whether the day is read
      off the caller's clock or off the bell, unless a bell was dated before the day its caller read. */
  lemma OneMailPerCheckAndDay(every: string -> Option<int>, events: seq<Event>, a: nat, b: nat)
    requires a < b && WasMailed(Run(every, events), a) && WasMailed(Run(every, events), b)
    requires Run(every, events).claims[a].check == Run(every, events).claims[b].check
    ensures var x, y := Run(every, events).claims[a], Run(every, events).claims[b];
            && (DatedInTime(x) ==> DayOf(x.now) < DayOf(y.now))
            && (DatedInTime(y) ==> DayOf(x.created) < DayOf(y.created))
  {
    RunKeepsInv(every, events);
    MailsAreOnLaterDays(every, events, a, b);
  }

  // ----- bells are spaced

  ghost predicate SpacedOk(every: string -> Option<int>, bells: map<nat, Bell>) {
    forall a, b | a in bells && b in bells && a < b && bells[a].check == bells[b].check ::
      every(bells[a].check).Some? ==> bells[b].created - bells[a].created > every(bells[a].check).value
  }

  lemma TransactKeepsBells(every: string -> Option<int>, s: State, e: Event)
    requires AtMostADay(every) && IdsOk(every, s.bells, s.next) && SpacedOk(every, s.bells)
    requires e.Transact? && e.now <= e.created
    ensures SpacedOk(every, Step(every, s, e).bells)
  {
    if every(e.check).Some? && !BelledSince(s, e.check, e.now, e.now - every(e.check).value) {
      forall b | b in s.bells && s.bells[b].check == e.check
        ensures e.created - s.bells[b].created > every(e.check).value
      {
        assert s.bells[b].created < e.now - every(e.check).value;
      }
    }
  }

  lemma {:induction false} RunKeepsSpacing(every: string -> Option<int>, events: seq<Event>)
    requires AtMostADay(every) && OneClock(events)
    ensures SpacedOk(every, Run(every, events).bells)
  {
    if events != [] {
      var before, e := events[..|events| - 1], events[|events| - 1];
      assert e in events && forall f :: f in before ==> f in events;
      RunKeepsSpacing(every, before);
      RunKeepsInv(every, before);
      if e.Transact? {
        TransactKeepsBells(every, Run(every, before), e);
      } else {
        OtherStepIsWithin(every, Run(every, before), e);
      }
    }
  }

  /** The bells of a check that survive are more than its interval apart. */
  lemma BellsAreSpaced(every: string -> Option<int>, events: seq<Event>, a: nat, b: nat)
    requires AtMostADay(every) && OneClock(events) && a < b
    requires a in Run(every, events).bells && b in Run(every, events).bells
    requires Run(every, events).bells[a].check == Run(every, events).bells[b].check
    ensures var s := Run(every, events);
            every(s.bells[a].check).Some? && s.bells[b].created - s.bells[a].created > every(s.bells[a].check).value
  {
    RunKeepsSpacing(every, events);
    RunKeepsInv(every, events);
  }

  /** Every check of the source bells at least daily. */
  lemma SourceIntervals()
    ensures AtMostADay(BellEvery)
  {
  }

  /** Both theorems for the checks and intervals of the source, on one clock. */
  lemma SourceAlerts(events: seq<Event>, a: nat, b: nat)
    requires OneClock(events) && a < b && a in Run(BellEvery, events).bells && b in Run(BellEvery, events).bells
    requires Run(BellEvery, events).bells[a].check == Run(BellEvery, events).bells[b].check
    ensures var s := Run(BellEvery, events);
            && BellEvery(s.bells[a].check).Some?
            && s.bells[b].created - s.bells[a].created > BellEvery(s.bells[a].check).value
            && (WasMailed(s, b) ==> DayOf(s.bells[a].created) < DayOf(s.claims[b].now))
  {
    SourceIntervals();
    BellsAreSpaced(BellEvery, events, a, b);
    RunKeepsInv(BellEvery, events);
    if WasMailed(Run(BellEvery, events), b) {
      MailsAreOnLaterDays(BellEvery, events, a, b);
    }
  }

  /** A bell dated before the day its caller read is enough for two mails on one day. */
  lemma SlowDatabaseClock(every: string -> Option<int>, check: string)
    requires every(check) == Some(60)
    ensures var first, second := Transact(check, DAY, DAY - 1, true), Transact(check, DAY + 60, DAY + 60, true);
            var s := Run(every, [first, PublishOk(0), second, PublishOk(1)]);
            && WasMailed(s, 0) && WasMailed(s, 1) && !DatedInTime(s.claims[0])
            && DayOf(s.claims[0].now) == DayOf(s.claims[1].now)
  {
    var first, second := Transact(check, DAY, DAY - 1, true), Transact(check, DAY + 60, DAY + 60, true);
    var r1, r2, r3, r4 := [first], [first, PublishOk(0)], [first, PublishOk(0), second],
      [first, PublishOk(0), second, PublishOk(1)];
    assert r1[..0] == [] && r2[..1] == r1 && r3[..2] == r2 && r4[..3] == r3;
    var b, c := Bell(check, DAY - 1), Claim(check, DAY, DAY - 1, Publishing);
    assert Run(every, r1) == State(map[0 := b], map[0 := c], 1);
    assert Run(every, r2) == State(map[0 := b], map[0 := c.(phase := Mailed)], 1);
    assert Run(every, r3).claims == map[0 := c.(phase := Mailed), 1 := Claim(check, DAY + 60, DAY + 60, Publishing)];
  }
}
