/**
 The spend guard of shared/cost_guard.py: budgets loaded at the start of a run, checked before every
 paid call and charged after it. Money is exact, in whole micro-dollars.
 */
module CostGuard {
  import opened Common

  datatype BudgetRow = BudgetRow(perRun: Option<int>, perDay: Option<int>, hardStop: bool)
  datatype DayScope = ProviderDay | KindDay

  /** What a run is held to, without what it has spent. */
  datatype Caps = Caps(perRun: Option<int>, perDay: Option<int>, hardStop: bool, dayIsHard: bool, dayAtStart: int,
                       globalDay: Option<int>, globalAtStart: int, globalHard: bool)

  datatype Limit = PerRun | PerDay | PerDayGlobal

  function MinCap(a: Option<int>, b: Option<int>): Option<int> {
    if a.None? then b else if b.None? then a else if a.value <= b.value then a else b
  }

  function PerDay(row: Option<BudgetRow>): Option<int> {
    if row.None? then None else row.value.perDay
  }

  predicate HardDay(row: Option<BudgetRow>) {
    row.Some? && row.value.perDay.Some? && row.value.hardStop
  }

  /** `load_run_budget`: `spent` is the day's spend of the scope, `providerSpent` the provider's. */
  function LoadRunBudget(job: Option<BudgetRow>, global: Option<BudgetRow>, scope: DayScope,
                         spent: int, providerSpent: int): Caps
  {
    var glob := if scope.KindDay? then None else global;
    var runRow := if job.Some? && job.value.perRun.Some? then job else glob;
    var anyDay := PerDay(job).Some? || PerDay(glob).Some?;
    Caps(if runRow.Some? then runRow.value.perRun else None,
         MinCap(PerDay(job), PerDay(glob)),
         if runRow.Some? then runRow.value.hardStop else true,
         if anyDay then HardDay(job) || HardDay(glob) else true,
         spent,
         if scope.KindDay? then PerDay(global) else None,
         if scope.KindDay? && PerDay(global).Some? then providerSpent else 0,
         if scope.KindDay? && PerDay(global).Some? then global.value.hardStop else true)
  }

  predicate Over(cap: Option<int>, hard: bool, spent: int) {
    hard && cap.Some? && spent > cap.value
  }

  /** The first hard limit that spending `estimate` more would pass. */
  function Refusal(c: Caps, runSpent: int, estimate: int): Option<Limit> {
    if Over(c.perRun, c.hardStop, runSpent + estimate) then Some(PerRun)
    else if Over(c.perDay, c.dayIsHard, c.dayAtStart + runSpent + estimate) then Some(Limit.PerDay)
    else if Over(c.globalDay, c.globalHard, c.globalAtStart + runSpent + estimate) then Some(PerDayGlobal)
    else None
  }

  class RunBudget {
    const caps: Caps
    var runSpent: int

    constructor (caps: Caps)
      ensures this.caps == caps && runSpent == 0
    {
      this.caps, runSpent := caps, 0;
    }

    /** `check`: the limit it raises for, if any. */
    method Check(estimate: int) returns (refused: Option<Limit>)
      ensures refused == Refusal(caps, runSpent, estimate)
    {
      if caps.hardStop && caps.perRun.Some? && runSpent + estimate > caps.perRun.value {
        return Some(PerRun);
      }
      if caps.dayIsHard && caps.perDay.Some? && caps.dayAtStart + runSpent + estimate > caps.perDay.value {
        return Some(Limit.PerDay);
      }
      if caps.globalHard && caps.globalDay.Some? && caps.globalAtStart + runSpent + estimate > caps.globalDay.value {
        return Some(PerDayGlobal);
      }
      return None;
    }

    method Charge(usd: Option<int>)
      modifies this
      ensures runSpent == old(runSpent) + if usd.Some? then usd.value else 0
    {
      runSpent := runSpent + if usd.Some? then usd.value else 0;
    }

    /** `remaining_usd`: the most the run may still spend, None when nothing limits it. */
    method Remaining() returns (left: Option<int>)
      ensures left == RemainingOf(caps, runSpent)
    {
      var least: Option<int> := None;
      if caps.perRun.Some? && caps.hardStop {
        least := MinCap(least, Some(caps.perRun.value - runSpent));
      }
      if caps.perDay.Some? && caps.dayIsHard {
        least := MinCap(least, Some(caps.perDay.value - (caps.dayAtStart + runSpent)));
      }
      if caps.globalDay.Some? && caps.globalHard {
        least := MinCap(least, Some(caps.globalDay.value - (caps.globalAtStart + runSpent)));
      }
      left := if least.Some? && least.value < 0 then Some(0) else least;
    }
  }

  function Room(cap: Option<int>, hard: bool, spent: int): Option<int> {
    if hard && cap.Some? then Some(cap.value - spent) else None
  }

  function LeastRoom(c: Caps, runSpent: int): Option<int> {
    MinCap(MinCap(Room(c.perRun, c.hardStop, runSpent), Room(c.perDay, c.dayIsHard, c.dayAtStart + runSpent)),
           Room(c.globalDay, c.globalHard, c.globalAtStart + runSpent))
  }

  function RemainingOf(c: Caps, runSpent: int): Option<int> {
    var least := LeastRoom(c, runSpent);
    if least.Some? && least.value < 0 then Some(0) else least
  }

  /** `check` admits exactly what `remaining_usd` allows, except for a free call of an overspent run:
      that one is refused although 0 is reported as remaining. */
  lemma CheckAgreesWithRemaining(c: Caps, runSpent: int, estimate: int)
    requires estimate >= 0
    ensures Refusal(c, runSpent, estimate).None? <==>
              || RemainingOf(c, runSpent).None?
              || (estimate <= RemainingOf(c, runSpent).value && !(estimate == 0 && LeastRoom(c, runSpent).value < 0))
  {
  }

  // ----- many runs on one ledger

  /** One paid call of the provider, with the UTC day it was logged. */
  datatype Spend = Spend(day: int, usd: int)

  function DaySum(ledger: seq<Spend>, day: int): int {
    if ledger == [] then 0
    else DaySum(ledger[..|ledger| - 1], day)
         + (if ledger[|ledger| - 1].day == day then ledger[|ledger| - 1].usd else 0)
  }

  /** A run starts (ending the one before), or its current run makes a call. */
  datatype Event =
    | Load(day: int, job: Option<BudgetRow>, scope: DayScope, kindSpent: int)
    | Call(day: int, estimate: int, actual: int)

  datatype Run = NoRun | InRun(caps: Caps, spent: int, loaded: int)
  datatype State = State(ledger: seq<Spend>, run: Run, day: int)

  predicate Enabled(s: State, e: Event) {
    && s.day <= e.day
    && (e.Call? ==> s.run.InRun? && 0 <= e.estimate && 0 <= e.actual)
  }

  predicate Admitted(s: State, e: Event) {
    e.Call? && s.run.InRun? && Refusal(s.run.caps, s.run.spent, e.estimate).None?
  }

  /** `global` is the provider's budget row, read at every load. */
  function Step(global: Option<BudgetRow>, s: State, e: Event): State
    requires Enabled(s, e)
  {
    match e
    case Load(day, job, scope, kindSpent) =>
      var provider := DaySum(s.ledger, day);
      var spent := if scope.KindDay? then kindSpent else provider;
      State(s.ledger, InRun(LoadRunBudget(job, global, scope, spent, provider), 0, day), day)
    case Call(day, estimate, actual) =>
      if Admitted(s, e) then State(s.ledger + [Spend(day, actual)], s.run.(spent := s.run.spent + actual), day)
      else s.(day := day)
  }

  ghost predicate IsRun(global: Option<BudgetRow>, run: seq<State>, events: seq<Event>) {
    && |run| == |events| + 1 && run[0].run.NoRun?
    && (forall x :: x in run[0].ledger ==> 0 <= x.usd && x.day <= run[0].day)
    && forall i :: 0 <= i < |events| ==> Enabled(run[i], events[i]) && run[i + 1] == Step(global, run[i], events[i])
  }

  predicate HardCap(global: Option<BudgetRow>, cap: int) {
    global.Some? && global.value.perDay == Some(cap) && global.value.hardStop
  }

  /** What the run believes the provider has spent on the day it counts. */
  function Believed(r: Run): int
    requires r.InRun?
  {
    (if r.caps.globalDay.Some? then r.caps.globalAtStart else r.caps.dayAtStart) + r.spent
  }

  /** The run holds the provider's hard cap on one of its two axes. */
  predicate HoldsCap(r: Run, cap: int)
    requires r.InRun?
  {
    if r.caps.globalDay.Some? then r.caps.globalDay == Some(cap) && r.caps.globalHard
    else r.caps.perDay.Some? && r.caps.perDay.value <= cap && r.caps.dayIsHard
  }

  ghost predicate Inv(s: State, cap: int) {
    && (forall x :: x in s.ledger ==> 0 <= x.usd && x.day <= s.day)
    && (s.run.InRun? ==> HoldsCap(s.run, cap) && s.run.spent >= 0 && s.run.loaded <= s.day
                         && forall d :: d >= s.run.loaded ==> DaySum(s.ledger, d) <= Believed(s.run))
  }

  lemma {:induction false} FutureIsEmpty(ledger: seq<Spend>, day: int, d: int)
    requires d > day && forall x :: x in ledger ==> x.day <= day
    ensures DaySum(ledger, d) == 0
  {
    if ledger != [] {
      FutureIsEmpty(ledger[..|ledger| - 1], day, d);
    }
  }

  lemma {:induction false} SumIsNatural(ledger: seq<Spend>, d: int)
    requires forall x :: x in ledger ==> 0 <= x.usd
    ensures DaySum(ledger, d) >= 0
  {
    if ledger != [] {
      SumIsNatural(ledger[..|ledger| - 1], d);
    }
  }

  lemma AddOne(ledger: seq<Spend>, x: Spend, d: int)
    ensures DaySum(ledger + [x], d) == DaySum(ledger, d) + (if x.day == d then x.usd else 0)
  {
    assert (ledger + [x])[..|ledger|] == ledger;
  }

  lemma StepKeepsInv(global: Option<BudgetRow>, s: State, e: Event, cap: int)
    requires HardCap(global, cap) && Inv(s, cap) && Enabled(s, e)
    ensures Inv(Step(global, s, e), cap)
  {
    var t := Step(global, s, e);
    match e
    case Load(day, job, scope, kindSpent) =>
      forall d | d >= day
        ensures DaySum(t.ledger, d) <= Believed(t.run)
      {
        SumIsNatural(s.ledger, day);
        if d > day {
          FutureIsEmpty(s.ledger, day, d);
        }
      }
    case Call(day, estimate, actual) =>
      if Admitted(s, e) {
        forall d | d >= t.run.loaded
          ensures DaySum(t.ledger, d) <= Believed(t.run)
        {
          AddOne(s.ledger, Spend(day, actual), d);
        }
      }
  }

  lemma {:induction false} RunKeepsInv(global: Option<BudgetRow>, run: seq<State>, events: seq<Event>, cap: int, n: nat)
    requires IsRun(global, run, events) && HardCap(global, cap) && n < |run|
    ensures Inv(run[n], cap)
  {
    if n > 0 {
      RunKeepsInv(global, run, events, cap, n - 1);
      StepKeepsInv(global, run[n - 1], events[n - 1], cap);
    }
  }

  /** Over every sequence of runs of any job kinds and either day scope, also across midnight: a call is
      admitted only when the day still has room for its estimate under the provider's hard cap. */
  lemma AdmittedHasRoom(global: Option<BudgetRow>, run: seq<State>, events: seq<Event>, cap: int, n: nat)
    requires IsRun(global, run, events) && HardCap(global, cap) && n < |events| && Admitted(run[n], events[n])
    ensures DaySum(run[n].ledger, events[n].day) + events[n].estimate <= cap
  {
    RunKeepsInv(global, run, events, cap, n);
    assert DaySum(run[n].ledger, events[n].day) <= Believed(run[n].run);
  }

  /** The day's spend passes the cap by at most the excess of one call over its estimate, and from then
      on the day admits no call. */
  lemma OvershootIsOneCall(global: Option<BudgetRow>, run: seq<State>, events: seq<Event>, cap: int, n: nat)
    requires IsRun(global, run, events) && HardCap(global, cap) && n < |events|
    ensures var e, before, after := events[n], run[n].ledger, run[n + 1].ledger;
            && (Admitted(run[n], e) ==> DaySum(after, e.day) <= cap + (e.actual - e.estimate))
            && (!Admitted(run[n], e) ==> after == before)
            && (DaySum(before, e.day) > cap ==> !Admitted(run[n], e))
  {
    if Admitted(run[n], events[n]) {
      AdmittedHasRoom(global, run, events, cap, n);
      AddOne(run[n].ledger, Spend(events[n].day, events[n].actual), events[n].day);
    }
  }

  /** While charges stay within their estimates, no day of no run passes the cap. */
  lemma {:induction false} CapIsNeverPassed(global: Option<BudgetRow>, run: seq<State>, events: seq<Event>, cap: int,
                                            n: nat, d: int)
    requires IsRun(global, run, events) && HardCap(global, cap) && n < |run|
    requires forall i :: 0 <= i < |events| && events[i].Call? ==> events[i].actual <= events[i].estimate
    requires DaySum(run[0].ledger, d) <= cap
    ensures DaySum(run[n].ledger, d) <= cap
  {
    if n > 0 {
      CapIsNeverPassed(global, run, events, cap, n - 1, d);
      OvershootIsOneCall(global, run, events, cap, n - 1);
      if Admitted(run[n - 1], events[n - 1]) {
        AddOne(run[n - 1].ledger, Spend(events[n - 1].day, events[n - 1].actual), d);
      }
    }
  }
}
