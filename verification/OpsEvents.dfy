/**
 The log-event buffer of shared/ops_checks.py: `capture` counts matching log lines per check, a flush
 drains the buffer, raises one alert per check and puts back what failed. Flushes may overlap, fail or
 be cancelled.
 */
module OpsEvents {
  import opened Common
  import OpsBells

  // ----- which lines are counted

  datatype Value = Text(s: string) | Flag(b: bool) | Other
  type Line = map<string, Value>

  const EVENT_CHECKS: map<string, string> := map[
    "llm_call_log_write_failed" := "llm_call_log_write_failed",
    "llm_call_log_write_failed_sync" := "llm_call_log_write_failed",
    "decision_log_write_failed" := "decision_log_write_failed",
    "llm_shadow_log_write_failed" := "llm_shadow_log_write_failed",
    "dfs_call_log_write_failed" := "dfs_call_log_write_failed",
    "dfs_call_log_write_failed_sync" := "dfs_call_log_write_failed",
    "aa817_tenant_flag_read_failed" := "tenant_flag_read_failed",
    "aa817_tenant_flag_unrecognized" := "tenant_flag_unrecognized",
    "aa817_tenant_pool_unavailable" := "tenant_pool_unavailable",
    "aa817_tenant_guc_not_applied" := "tenant_guc_not_applied"]

  const KNOWN_ADMIN_POOL_ROLLBACKS: set<string> := {"publish_log_listed"}

  function FirstWord(s: string): string {
    if s == "" || s[0] == ' ' then "" else [s[0]] + FirstWord(s[1..])
  }

  predicate Contains(s: string, part: string) {
    part <= s || (s != "" && Contains(s[1..], part))
  }

  /** `match_event`: the check a log line counts for. */
  function MatchEvent(line: Line): Option<string> {
    var name := if "event" in line && line["event"].Text? then FirstWord(line["event"].s) else "";
    if name in EVENT_CHECKS then Some(EVENT_CHECKS[name])
    else if "used_tenant_pool" in line && line["used_tenant_pool"] == Flag(false) && name !in KNOWN_ADMIN_POOL_ROLLBACKS
    then Some("tenant_route_admin_pool")
    else if exists k :: k in line && line[k].Text? && Contains(line[k].s, "too many connections for role")
                        && Contains(line[k].s, "cis_app")
    then Some("cis_app_too_many_connections")
    else None
  }

  /** A counted line always counts for a check that has an alert, so the flush's filter drops nothing. */
  lemma MatchedIsCheck(line: Line)
    ensures MatchEvent(line).Some? ==> MatchEvent(line).value in OpsBells.CHECKS
  {
  }

  // ----- the buffer

  datatype Item = Item(count: nat, firstAt: int, lastAt: int)

  function Recorded(items: map<string, Item>, check: string, ts: int): map<string, Item> {
    items[check := if check in items then items[check].(count := items[check].count + 1, lastAt := ts)
                   else Item(1, ts, ts)]
  }

  function Min(a: int, b: int): int {
    if a <= b then a else b
  }

  function Merged(cur: Item, back: Item): Item {
    cur.(count := cur.count + back.count, firstAt := Min(cur.firstAt, back.firstAt))
  }

  function Restored(items: map<string, Item>, back: map<string, Item>): (r: map<string, Item>)
    ensures r.Keys == items.Keys + back.Keys
  {
    map c | c in items.Keys + back.Keys ::
      if c !in back then items[c] else if c !in items then back[c] else Merged(items[c], back[c])
  }

  class EventBuffer {
    var items: map<string, Item>

    constructor ()
      ensures items == map[]
    {
      items := map[];
    }

    method Record(check: string, ts: int)
      modifies this
      ensures items == Recorded(old(items), check, ts)
    {
      if check !in items {
        items := items[check := Item(1, ts, ts)];
      } else {
        items := items[check := items[check].(count := items[check].count + 1, lastAt := ts)];
      }
    }

    method Drain() returns (drained: map<string, Item>)
      modifies this
      ensures drained == old(items) && items == map[]
    {
      drained, items := items, map[];
    }

    method Restore(back: map<string, Item>)
      modifies this
      ensures items == Restored(old(items), back)
    {
      var todo := back.Keys;
      while todo != {}
        invariant todo <= back.Keys
        invariant items.Keys == old(items).Keys + (back.Keys - todo)
        invariant forall c :: c in items && (c in todo || c !in back) ==> c in old(items) && items[c] == old(items)[c]
        invariant forall c :: c in back && c !in todo ==>
                    items[c] == if c in old(items) then Merged(old(items)[c], back[c]) else back[c]
        decreases todo
      {
        var c :| c in todo;
        todo := todo - {c};
        if c !in items {
          items := items[c := back[c]];
        } else {
          items := items[c := Merged(items[c], back[c])];
        }
      }
    }
  }

  // ----- runs

  /** The drained items of a flush under way, and how often each check had been counted when it drained. */
  datatype Flight = Flight(items: map<string, Item>, counted: map<string, nat>)

  /** The buffer, the flushes under way, and the history of each check: how many lines were counted, when
      the last was, and how many a finished flush has alerted on. */
  datatype State = State(buffer: map<string, Item>, flights: seq<Flight>,
                         counted: map<string, nat>, lastCounted: map<string, int>, settled: map<string, nat>)

  const INIT := State(map[], [], map[], map[], map[])

  datatype Event =
    | Capture(line: Line, ts: int)
    | Drain
    | Finish(flush: nat, failed: set<string>)
    | Cancel(flush: nat)

  /** How lines are matched to checks, and the checks `event_findings` makes an alert for. */
  datatype Rules = Rules(checkOf: Line -> Option<string>, known: set<string>)

  function At(m: map<string, nat>, c: string): nat {
    if c in m then m[c] else 0
  }

  function CountIn(items: map<string, Item>, c: string): nat {
    if c in items then items[c].count else 0
  }

  function CountAll(flights: seq<Flight>, c: string): nat {
    if flights == [] then 0 else CountIn(flights[0].items, c) + CountAll(flights[1..], c)
  }

  function Without(flights: seq<Flight>, i: nat): seq<Flight>
    requires i < |flights|
  {
    flights[..i] + flights[i + 1..]
  }

  function Counted(s: State, c: string, ts: int): State {
    s.(buffer := Recorded(s.buffer, c, ts), counted := s.counted[c := At(s.counted, c) + 1],
       lastCounted := s.lastCounted[c := ts])
  }

  /** What a finished flush puts back: the items whose alert failed. */
  function Back(known: set<string>, items: map<string, Item>, failed: set<string>): map<string, Item> {
    map c | c in items && c in known && c in failed :: items[c]
  }

  function Step(rules: Rules, s: State, e: Event): State {
    match e
    case Capture(line, ts) =>
      var c := rules.checkOf(line);
      if c.None? then s else Counted(s, c.value, ts)
    case Drain =>
      if s.buffer == map[] then s else s.(buffer := map[], flights := s.flights + [Flight(s.buffer, s.counted)])
    case Finish(i, failed) =>
      if i >= |s.flights| then s
      else
        var items := s.flights[i].items;
        s.(buffer := Restored(s.buffer, Back(rules.known, items, failed)),
           flights := Without(s.flights, i),
           settled := Settled(s.settled, items, items.Keys * rules.known - failed))
    case Cancel(i) =>
      if i >= |s.flights| then s
      else s.(buffer := Restored(s.buffer, s.flights[i].items), flights := Without(s.flights, i))
  }

  function Settled(settled: map<string, nat>, items: map<string, Item>, done: set<string>): map<string, nat> {
    map c | c in settled.Keys + done :: At(settled, c) + (if c in done then CountIn(items, c) else 0)
  }

  function Run(rules: Rules, events: seq<Event>): State {
    if events == [] then INIT else Step(rules, Run(rules, events[..|events| - 1]), events[|events| - 1])
  }

  // ----- no counted line is lost

  lemma {:induction false} CountWithout(flights: seq<Flight>, i: nat, c: string)
    requires i < |flights|
    ensures CountAll(flights, c) == CountIn(flights[i].items, c) + CountAll(Without(flights, i), c)
  {
    if i == 0 {
      assert Without(flights, 0) == flights[1..];
    } else {
      CountWithout(flights[1..], i - 1, c);
      assert Without(flights, i)[0] == flights[0] && Without(flights, i)[1..] == Without(flights[1..], i - 1);
    }
  }

  lemma {:induction false} CountAppend(flights: seq<Flight>, f: Flight, c: string)
    ensures CountAll(flights + [f], c) == CountAll(flights, c) + CountIn(f.items, c)
  {
    if flights == [] {
      assert ([f])[1..] == [];
    } else {
      CountAppend(flights[1..], f, c);
      assert (flights + [f])[1..] == flights[1..] + [f];
    }
  }

  /** Every check a line counts for has an alert. */
  ghost predicate MatchesKnown(rules: Rules) {
    forall line :: rules.checkOf(line).Some? ==> rules.checkOf(line).value in rules.known
  }

  ghost predicate HoldsKnown(known: set<string>, s: State) {
    && s.buffer.Keys <= known
    && (forall f :: f in s.flights ==> f.items.Keys <= known)
  }

  predicate Balanced(s: State, c: string) {
    At(s.counted, c) == At(s.settled, c) + CountIn(s.buffer, c) + CountAll(s.flights, c)
  }

  /** A finished flush either alerts on an item or puts it back. */
  lemma FinishKeepsBalance(rules: Rules, s: State, i: nat, failed: set<string>, c: string)
    requires HoldsKnown(rules.known, s) && Balanced(s, c) && i < |s.flights|
    ensures Balanced(Step(rules, s, Finish(i, failed)), c)
  {
    CountWithout(s.flights, i, c);
    var items := s.flights[i].items;
    assert s.flights[i] in s.flights;
    assert CountIn(items, c) == CountIn(Back(rules.known, items, failed), c)
                                + if c in items.Keys * rules.known - failed then CountIn(items, c) else 0;
  }

  lemma StepKeepsBalance(rules: Rules, s: State, e: Event, c: string)
    requires HoldsKnown(rules.known, s) && Balanced(s, c)
    ensures Balanced(Step(rules, s, e), c)
  {
    match e
    case Capture(_, _) =>
    case Drain => CountAppend(s.flights, Flight(s.buffer, s.counted), c);
    case Finish(i, failed) =>
      if i < |s.flights| {
        FinishKeepsBalance(rules, s, i, failed, c);
      }
    case Cancel(i) =>
      if i < |s.flights| {
        CountWithout(s.flights, i, c);
      }
  }

  lemma StepHoldsKnown(rules: Rules, s: State, e: Event)
    requires HoldsKnown(rules.known, s) && MatchesKnown(rules)
    ensures HoldsKnown(rules.known, Step(rules, s, e))
  {
    if (e.Finish? || e.Cancel?) && e.flush < |s.flights| {
      assert s.flights[e.flush] in s.flights;
    }
  }

  /** No counted line is lost: for every interleaving and every check, what was counted is what finished
      flushes alerted on plus what is buffered or in flight. */
  lemma {:induction false} NothingIsLost(rules: Rules, events: seq<Event>, c: string)
    requires MatchesKnown(rules)
    ensures HoldsKnown(rules.known, Run(rules, events)) && Balanced(Run(rules, events), c)
  {
    if events != [] {
      var before, e := events[..|events| - 1], events[|events| - 1];
      NothingIsLost(rules, before, c);
      StepKeepsBalance(rules, Run(rules, before), e, c);
      StepHoldsKnown(rules, Run(rules, before), e);
    }
  }

  const SOURCE := Rules(MatchEvent, OpsBells.CHECKS)

  /** With the rules of the source, whatever lines are logged. */
  lemma SourceLosesNothing(events: seq<Event>, c: string)
    ensures HoldsKnown(OpsBells.CHECKS, Run(SOURCE, events)) && Balanced(Run(SOURCE, events), c)
  {
    forall line ensures MatchEvent(line).Some? ==> MatchEvent(line).value in OpsBells.CHECKS {
      MatchedIsCheck(line);
    }
    NothingIsLost(SOURCE, events, c);
  }

  /** A check no alert exists for would be drained and forgotten. */
  lemma UnknownCheckIsLost(rules: Rules, line: Line, c: string)
    requires rules.checkOf(line) == Some(c) && c !in rules.known
    ensures !Balanced(Run(rules, [Capture(line, 0), Drain, Finish(0, {})]), c)
  {
    var e := Capture(line, 0);
    var r1, r2, r3 := [e], [e, Drain], [e, Drain, Finish(0, {})];
    assert r1[..0] == [] && r2[..1] == r1 && r3[..2] == r2;
    assert Run(rules, r1).buffer == map[c := Item(1, 0, 0)] && Run(rules, r1).counted == map[c := 1];
    assert Run(rules, r2).flights == [Flight(map[c := Item(1, 0, 0)], map[c := 1])];
    assert Run(rules, r3).flights == [] && Run(rules, r3).buffer == map[] && Run(rules, r3).settled == map[];
  }

  // ----- the end of the time span an alert reports

  /** Every buffered item ends at the last line of its check. */
  ghost predicate EndsExact(s: State) {
    forall c :: c in s.buffer ==> c in s.lastCounted && s.buffer[c].lastAt == s.lastCounted[c]
  }

  /** No line of the check was counted since the flush drained. */
  predicate NoneSince(s: State, f: Flight, c: string) {
    At(s.counted, c) == At(f.counted, c)
  }

  /** The event puts `c` back into a buffer that does not hold it. */
  predicate Opens(rules: Rules, s: State, e: Event, c: string) {
    && (e.Finish? || e.Cancel?) && e.flush < |s.flights| && c in s.flights[e.flush].items && c !in s.buffer
    && (e.Finish? ==> c in rules.known && c in e.failed)
  }

  /** What an event puts into an empty slot is from a flush since which the check has had no line. */
  ghost predicate OpensInTime(rules: Rules, s: State, e: Event) {
    forall c :: Opens(rules, s, e, c) ==> NoneSince(s, s.flights[e.flush], c)
  }

  /** Of a flush under way: its item ends at the check's last line while none has come since. */
  predicate FlightOk(s: State, f: Flight, c: string) {
    && At(f.counted, c) <= At(s.counted, c)
    && (c in f.items && NoneSince(s, f, c) ==> c in s.lastCounted && f.items[c].lastAt == s.lastCounted[c])
  }

  ghost predicate FlightsOk(s: State) {
    forall f, c :: f in s.flights ==> FlightOk(s, f, c)
  }

  lemma OtherFlightsOk(s: State, i: nat)
    requires FlightsOk(s) && i < |s.flights|
    ensures FlightsOk(s.(flights := Without(s.flights, i)))
  {
    var t := s.(flights := Without(s.flights, i));
    forall f, c | f in t.flights ensures FlightOk(t, f, c) {
      assert f in s.flights && FlightOk(s, f, c);
    }
  }

  lemma CountedKeepsFlights(s: State, d: string, ts: int)
    requires FlightsOk(s)
    ensures FlightsOk(Counted(s, d, ts))
  {
    var t := Counted(s, d, ts);
    forall f, c | f in t.flights ensures FlightOk(t, f, c) {
      assert FlightOk(s, f, c);
    }
  }

  lemma DrainKeepsFlights(s: State)
    requires FlightsOk(s) && EndsExact(s)
    ensures FlightsOk(s.(buffer := map[], flights := s.flights + [Flight(s.buffer, s.counted)]))
  {
    var t := s.(buffer := map[], flights := s.flights + [Flight(s.buffer, s.counted)]);
    forall f, c | f in t.flights ensures FlightOk(t, f, c) {
      if f in s.flights {
        assert FlightOk(s, f, c);
      }
    }
  }

  /** What `e` puts back, if it ends a flush. */
  function PutBack(rules: Rules, s: State, e: Event): map<string, Item>
    requires (e.Finish? || e.Cancel?) && e.flush < |s.flights|
  {
    if e.Finish? then Back(rules.known, s.flights[e.flush].items, e.failed) else s.flights[e.flush].items
  }

  lemma RestoreKeepsEnds(rules: Rules, s: State, e: Event)
    requires EndsExact(s) && FlightsOk(s) && (e.Finish? || e.Cancel?) && e.flush < |s.flights|
    requires OpensInTime(rules, s, e)
    ensures EndsExact(Step(rules, s, e)) && FlightsOk(Step(rules, s, e))
  {
    var f, t := s.flights[e.flush], Step(rules, s, e);
    assert t.buffer == Restored(s.buffer, PutBack(rules, s, e));
    forall c | c in t.buffer ensures c in t.lastCounted && t.buffer[c].lastAt == t.lastCounted[c] {
      if c !in s.buffer {
        assert Opens(rules, s, e, c);
        assert FlightOk(s, f, c);
      }
    }
    OtherFlightsOk(s, e.flush);
    forall g, c | g in t.flights ensures FlightOk(t, g, c) {
      assert FlightOk(s.(flights := Without(s.flights, e.flush)), g, c);
    }
  }

  lemma StepKeepsEnds(rules: Rules, s: State, e: Event)
    requires EndsExact(s) && FlightsOk(s) && OpensInTime(rules, s, e)
    ensures EndsExact(Step(rules, s, e)) && FlightsOk(Step(rules, s, e))
  {
    match e
    case Capture(line, ts) =>
      if rules.checkOf(line).Some? {
        CountedKeepsFlights(s, rules.checkOf(line).value, ts);
      }
    case Drain => DrainKeepsFlights(s);
    case Finish(i, _) =>
      if i < |s.flights| {
        RestoreKeepsEnds(rules, s, e);
      }
    case Cancel(i) =>
      if i < |s.flights| {
        RestoreKeepsEnds(rules, s, e);
      }
  }

  /** What each event of the run puts into an empty slot is from a flush since which the check has had no
      line. */
  ghost predicate AllOpenInTime(rules: Rules, events: seq<Event>) {
    forall n :: 0 <= n < |events| ==> OpensInTime(rules, Run(rules, events[..n]), events[n])
  }

  lemma {:induction false} EndsExactIf(rules: Rules, events: seq<Event>, n: nat)
    requires AllOpenInTime(rules, events) && n <= |events|
    ensures EndsExact(Run(rules, events[..n])) && FlightsOk(Run(rules, events[..n]))
  {
    if n > 0 {
      EndsExactIf(rules, events, n - 1);
      assert events[..n][..n - 1] == events[..n - 1];
      assert OpensInTime(rules, Run(rules, events[..n - 1]), events[n - 1]);
      StepKeepsEnds(rules, Run(rules, events[..n - 1]), events[n - 1]);
    }
  }

  /** A line counted in this step is later than the check's last one. */
  predicate Later(rules: Rules, s: State, e: Event) {
    e.Capture? && rules.checkOf(e.line).Some? && rules.checkOf(e.line).value in s.lastCounted ==>
      s.lastCounted[rules.checkOf(e.line).value] < e.ts
  }

  ghost predicate AllLater(rules: Rules, events: seq<Event>) {
    forall n :: 0 <= n < |events| ==> Later(rules, Run(rules, events[..n]), events[n])
  }

  predicate EndsBy(s: State, items: map<string, Item>, c: string) {
    c in items ==> c in s.lastCounted && items[c].lastAt <= s.lastCounted[c]
  }

  /** No item ends after its check's last line, and before it if a line has come since the drain. */
  predicate FlightLate(s: State, f: Flight, c: string) {
    && EndsBy(s, f.items, c) && At(f.counted, c) <= At(s.counted, c)
    && (c in f.items && !NoneSince(s, f, c) ==> f.items[c].lastAt < s.lastCounted[c])
  }

  ghost predicate Lates(s: State) {
    && (forall c :: EndsBy(s, s.buffer, c))
    && (forall f, c :: f in s.flights ==> FlightLate(s, f, c))
  }

  lemma CountedKeepsLates(s: State, d: string, ts: int)
    requires Lates(s) && (d in s.lastCounted ==> s.lastCounted[d] < ts)
    ensures Lates(Counted(s, d, ts))
  {
    var t := Counted(s, d, ts);
    forall c ensures EndsBy(t, t.buffer, c) {
      assert EndsBy(s, s.buffer, c);
    }
    forall f, c | f in t.flights ensures FlightLate(t, f, c) {
      assert FlightLate(s, f, c);
    }
  }

  lemma EndKeepsLates(rules: Rules, s: State, e: Event)
    requires Lates(s) && (e.Finish? || e.Cancel?) && e.flush < |s.flights|
    ensures Lates(Step(rules, s, e))
  {
    var f, t := s.flights[e.flush], Step(rules, s, e);
    assert t.buffer == Restored(s.buffer, PutBack(rules, s, e));
    forall c ensures EndsBy(t, t.buffer, c) {
      assert EndsBy(s, s.buffer, c) && FlightLate(s, f, c);
    }
    forall g, c | g in t.flights ensures FlightLate(t, g, c) {
      assert g in s.flights && FlightLate(s, g, c);
    }
  }

  lemma StepKeepsLates(rules: Rules, s: State, e: Event)
    requires Lates(s) && Later(rules, s, e)
    ensures Lates(Step(rules, s, e))
  {
    match e
    case Capture(line, ts) =>
      if rules.checkOf(line).Some? {
        CountedKeepsLates(s, rules.checkOf(line).value, ts);
      }
    case Drain =>
      var t := Step(rules, s, e);
      forall f, c | f in t.flights ensures FlightLate(t, f, c) {
        assert EndsBy(s, s.buffer, c) && (f in s.flights ==> FlightLate(s, f, c));
      }
    case Finish(i, _) =>
      if i < |s.flights| {
        EndKeepsLates(rules, s, e);
      }
    case Cancel(i) =>
      if i < |s.flights| {
        EndKeepsLates(rules, s, e);
      }
  }

  lemma {:induction false} RunIsLate(rules: Rules, events: seq<Event>, n: nat)
    requires AllLater(rules, events) && n <= |events|
    ensures Lates(Run(rules, events[..n]))
  {
    if n > 0 {
      RunIsLate(rules, events, n - 1);
      assert events[..n][..n - 1] == events[..n - 1];
      assert Later(rules, Run(rules, events[..n - 1]), events[n - 1]);
      StepKeepsLates(rules, Run(rules, events[..n - 1]), events[n - 1]);
    }
  }

  lemma OpensInTimeIf(rules: Rules, s: State, e: Event)
    requires Lates(s) && EndsExact(Step(rules, s, e))
    ensures OpensInTime(rules, s, e)
  {
    forall c | Opens(rules, s, e, c) ensures NoneSince(s, s.flights[e.flush], c) {
      var f, t := s.flights[e.flush], Step(rules, s, e);
      assert FlightLate(s, f, c);
      assert t.buffer == Restored(s.buffer, PutBack(rules, s, e));
      assert c in t.buffer && t.buffer[c].lastAt == f.items[c].lastAt;
    }
  }

  /** When is every reported end exact? In a run whose lines have increasing times, exactly when no flush
      puts a check back into an empty slot after a line of the check has been counted. */
  lemma EndsExactIff(rules: Rules, events: seq<Event>)
    requires AllLater(rules, events)
    ensures (forall n :: 0 <= n <= |events| ==> EndsExact(Run(rules, events[..n]))) <==> AllOpenInTime(rules, events)
  {
    if AllOpenInTime(rules, events) {
      forall n | 0 <= n <= |events| ensures EndsExact(Run(rules, events[..n])) {
        EndsExactIf(rules, events, n);
      }
    }
    if forall n :: 0 <= n <= |events| ==> EndsExact(Run(rules, events[..n])) {
      forall n | 0 <= n < |events| ensures OpensInTime(rules, Run(rules, events[..n]), events[n]) {
        RunIsLate(rules, events, n);
        assert events[..n + 1][..n] == events[..n];
        assert EndsExact(Run(rules, events[..n + 1]));
        OpensInTimeIf(rules, Run(rules, events[..n]), events[n]);
      }
    }
  }

  // ----- flushes that do not overlap

  ghost predicate OneFlushAtATime(rules: Rules, events: seq<Event>) {
    forall n :: 0 <= n < |events| && events[n].Drain? ==> Run(rules, events[..n]).flights == []
  }

  /** With one flush under way, a check that has had a line since is in the buffer. */
  ghost predicate OneFlight(s: State) {
    |s.flights| <= 1 && forall f, c :: f in s.flights ==> NoneSince(s, f, c) || c in s.buffer
  }

  lemma StepKeepsOneFlight(rules: Rules, s: State, e: Event)
    requires OneFlight(s) && (e.Drain? ==> s.flights == [])
    ensures OneFlight(Step(rules, s, e)) && OpensInTime(rules, s, e)
  {
    var t := Step(rules, s, e);
    forall f, c | f in t.flights ensures NoneSince(t, f, c) || c in t.buffer {
      assert f in s.flights ==> NoneSince(s, f, c) || c in s.buffer;
    }
    forall c | Opens(rules, s, e, c) ensures NoneSince(s, s.flights[e.flush], c) {
      assert s.flights[e.flush] in s.flights;
    }
  }

  lemma {:induction false} FlushesStayApart(rules: Rules, events: seq<Event>, n: nat)
    requires OneFlushAtATime(rules, events) && n <= |events|
    ensures OneFlight(Run(rules, events[..n]))
  {
    if n > 0 {
      FlushesStayApart(rules, events, n - 1);
      assert events[..n][..n - 1] == events[..n - 1];
      StepKeepsOneFlight(rules, Run(rules, events[..n - 1]), events[n - 1]);
    }
  }

  /** While flushes do not overlap, a buffered item's `last_at` is the time of the check's last line. */
  lemma LastAtIsExact(rules: Rules, events: seq<Event>)
    requires OneFlushAtATime(rules, events)
    ensures AllOpenInTime(rules, events) && EndsExact(Run(rules, events))
  {
    forall n | 0 <= n < |events| ensures OpensInTime(rules, Run(rules, events[..n]), events[n]) {
      FlushesStayApart(rules, events, n);
      StepKeepsOneFlight(rules, Run(rules, events[..n]), events[n]);
    }
    EndsExactIf(rules, events, |events|);
    assert events[..|events|] == events;
  }

  // ----- flushes that do

  /** Two flushes of one check under way, the lines of the second later than those of the first. */
  lemma TwoFlights(rules: Rules, line: Line, c: string)
    requires rules.checkOf(line) == Some(c)
    ensures var s := Run(rules, [Capture(line, 1), Drain, Capture(line, 2), Drain]);
            && |s.flights| == 2 && s.flights[0].items == map[c := Item(1, 1, 1)]
            && s.flights[1].items == map[c := Item(1, 2, 2)]
            && s.buffer == map[] && s.lastCounted == map[c := 2]
  {
    var a, b := Capture(line, 1), Capture(line, 2);
    var i1, i2 := map[c := Item(1, 1, 1)], map[c := Item(1, 2, 2)];
    var r1, r2, r3, r4 := [a], [a, Drain], [a, Drain, b], [a, Drain, b, Drain];
    assert r1[..0] == [] && r2[..1] == r1 && r3[..2] == r2 && r4[..3] == r3;
    assert Run(rules, r1) == Step(rules, Run(rules, []), a);
    assert Run(rules, r2) == Step(rules, Run(rules, r1), Drain);
    assert Run(rules, r3) == Step(rules, Run(rules, r2), b);
    assert Run(rules, r4) == Step(rules, Run(rules, r3), Drain);
    assert Run(rules, r1).buffer == i1 && Run(rules, r1).flights == [] && Run(rules, r1).lastCounted == map[c := 1];
    assert Run(rules, r2).flights == [Flight(i1, Run(rules, r1).counted)] && Run(rules, r2).buffer == map[];
    assert Run(rules, r3).buffer == i2 && Run(rules, r3).flights == Run(rules, r2).flights;
    assert Run(rules, r3).lastCounted == map[c := 2];
  }

  /** Two overlapping flushes that fail in the order they started report an end before the last line. */
  lemma OverlapLosesLastAt(rules: Rules, line: Line, c: string)
    requires rules.checkOf(line) == Some(c)
    ensures var s := Run(rules, [Capture(line, 1), Drain, Capture(line, 2), Drain] + [Cancel(0)] + [Cancel(0)]);
            s.buffer == map[c := Item(2, 1, 1)] && s.lastCounted == map[c := 2]
  {
    var r4 := [Capture(line, 1), Drain, Capture(line, 2), Drain];
    var r5, r6 := r4 + [Cancel(0)], r4 + [Cancel(0)] + [Cancel(0)];
    TwoFlights(rules, line, c);
    assert r5[..|r5| - 1] == r4 && r6[..|r6| - 1] == r5;
    TwoCancels(rules, Run(rules, r4), c);
  }

  lemma TwoCancels(rules: Rules, s: State, c: string)
    requires |s.flights| == 2 && s.buffer == map[]
    requires s.flights[0].items == map[c := Item(1, 1, 1)] && s.flights[1].items == map[c := Item(1, 2, 2)]
    ensures var t := Step(rules, Step(rules, s, Cancel(0)), Cancel(0));
            t.buffer == map[c := Item(2, 1, 1)] && t.lastCounted == s.lastCounted
  {
    var one := Step(rules, s, Cancel(0));
    assert one.flights == [s.flights[1]] && one.buffer == map[c := Item(1, 1, 1)];
  }
}
