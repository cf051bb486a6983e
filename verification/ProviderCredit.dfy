/**
 The estimated credit of a provider connection (shared/provider_credit.py): the newest balance check
 anchors the estimate, later top-ups are added and the spend since the anchor is subtracted. The
 shortcut is compared with replaying the whole history, event by event.
 */
module ProviderCredit {
  import opened Common

  datatype Kind = Topup | Opening
  datatype Entry = Entry(kind: Kind, at: int, id: int, amount: real)

  /** A row of the call log; rows before the connection keys carry only the account. */
  datatype Spend = Spend(connection: Option<string>, account: Option<string>, at: int, cost: Option<real>)

  // ----- the estimate

  /** The newest opening balance, else the first entry. */
  function AnchorIndex(entries: seq<Entry>): (i: nat)
    ensures entries != [] ==> i < |entries|
  {
    if entries == [] then 0
    else if entries[|entries| - 1].kind.Opening? then |entries| - 1
    else AnchorIndex(entries[..|entries| - 1])
  }

  function TopupTotal(entries: seq<Entry>): real {
    if entries == [] then 0.0
    else
      var last := entries[|entries| - 1];
      TopupTotal(entries[..|entries| - 1]) + (if last.kind.Topup? then last.amount else 0.0)
  }

  function Recorded(entries: seq<Entry>): real
    requires entries != []
  {
    var i := AnchorIndex(entries);
    entries[i].amount + TopupTotal(entries[i + 1..])
  }

  /** The connection a call is charged to: coalesce(connection_key, account). */
  function ChargedTo(s: Spend): Option<string> {
    if s.connection.Some? then s.connection else s.account
  }

  function Cost(s: Spend): real {
    if s.cost.Some? then s.cost.value else 0.0
  }

  function SpentSince(rows: seq<Spend>, key: string, since: int): real {
    if rows == [] then 0.0
    else
      (if rows[0].at >= since && ChargedTo(rows[0]) == Some(key) then Cost(rows[0]) else 0.0)
      + SpentSince(rows[1..], key, since)
  }

  /** What is left, before rounding; nothing without an entry. */
  function Estimate(entries: seq<Entry>, rows: seq<Spend>, key: string): Option<real> {
    if entries == [] then None
    else Some(Recorded(entries) - SpentSince(rows, key, entries[AnchorIndex(entries)].at))
  }

  lemma {:induction false} AnchorIsNewestOpening(entries: seq<Entry>)
    requires entries != []
    ensures forall k :: AnchorIndex(entries) < k < |entries| ==> entries[k].kind.Topup?
    ensures entries[AnchorIndex(entries)].kind.Opening? ||
            (AnchorIndex(entries) == 0 && forall k :: 0 <= k < |entries| ==> entries[k].kind.Topup?)
  {
    var last := |entries| - 1;
    if entries[last].kind.Topup? && last > 0 {
      AnchorIsNewestOpening(entries[..last]);
    }
  }

  // ----- the history, replayed

  datatype Event = Entered(entry: Entry) | Charged(spend: Spend)

  function TimeOf(e: Event): int {
    match e
    case Entered(entry) => entry.at
    case Charged(spend) => spend.at
  }

  /** Time order; at equal times entries come before spends. */
  predicate Before(a: Event, b: Event) {
    TimeOf(a) < TimeOf(b) || (TimeOf(a) == TimeOf(b) && (a.Entered? || b.Charged?))
  }

  predicate InOrder(timeline: seq<Event>) {
    forall i, j :: 0 <= i < j < |timeline| ==> Before(timeline[i], timeline[j])
  }

  function EntriesOf(timeline: seq<Event>): seq<Entry> {
    if timeline == [] then []
    else
      var last := timeline[|timeline| - 1];
      EntriesOf(timeline[..|timeline| - 1]) + (if last.Entered? then [last.entry] else [])
  }

  function SpendsOf(timeline: seq<Event>): seq<Spend> {
    if timeline == [] then []
    else
      var last := timeline[|timeline| - 1];
      SpendsOf(timeline[..|timeline| - 1]) + (if last.Charged? then [last.spend] else [])
  }

  /** What the calls of the timeline cost since `since`. */
  function SpentIn(timeline: seq<Event>, since: int): real {
    if timeline == [] then 0.0
    else
      var last := timeline[|timeline| - 1];
      SpentIn(timeline[..|timeline| - 1], since)
      + (if last.Charged? && last.spend.at >= since then Cost(last.spend) else 0.0)
  }

  /** An opening balance sets, a top-up adds, a spend subtracts; nothing counts before the first entry. */
  function Replay(timeline: seq<Event>): Option<real> {
    if timeline == [] then None
    else
      var before := Replay(timeline[..|timeline| - 1]);
      match timeline[|timeline| - 1]
      case Entered(e) =>
        if e.kind.Opening? || before.None? then Some(e.amount) else Some(before.value + e.amount)
      case Charged(s) =>
        if before.None? then None else Some(before.value - Cost(s))
  }

  /** The rows charged to `key`. */
  function RowsOf(rows: seq<Spend>, key: string): seq<Spend> {
    if rows == [] then []
    else (if ChargedTo(rows[0]) == Some(key) then [rows[0]] else []) + RowsOf(rows[1..], key)
  }

  /** The calls of the timeline are the rows charged to `key`, each as often, in any order. */
  predicate SameSpends(timeline: seq<Event>, rows: seq<Spend>, key: string) {
    multiset(SpendsOf(timeline)) == multiset(RowsOf(rows, key))
  }

  /** A timeline of the ledger and the connection's calls: each entry and each call once, in order. */
  predicate IsTimeline(timeline: seq<Event>, entries: seq<Entry>, rows: seq<Spend>, key: string) {
    && InOrder(timeline)
    && EntriesOf(timeline) == entries
    && SameSpends(timeline, rows, key)
  }

  // ----- sums that do not depend on the order

  function SumSince(rows: seq<Spend>, since: int): real {
    if rows == [] then 0.0
    else (if rows[0].at >= since then Cost(rows[0]) else 0.0) + SumSince(rows[1..], since)
  }

  lemma {:induction false} SumSinceAppend(a: seq<Spend>, b: seq<Spend>, since: int)
    ensures SumSince(a + b, since) == SumSince(a, since) + SumSince(b, since)
  {
    if a == [] {
      assert a + b == b;
    } else {
      SumSinceAppend(a[1..], b, since);
      assert (a + b)[1..] == a[1..] + b;
    }
  }

  /** `b` holds `a[0]` and, besides, the same rows as the rest of `a`. */
  lemma TakeOut(a: seq<Spend>, b: seq<Spend>) returns (i: nat)
    requires multiset(a) == multiset(b) && a != []
    ensures i < |b| && b[i] == a[0] && multiset(b[..i] + b[i + 1..]) == multiset(a[1..])
  {
    assert a[0] in multiset(b);
    i :| 0 <= i < |b| && b[i] == a[0];
    assert b == b[..i] + [b[i]] + b[i + 1..];
    assert multiset(b[..i] + b[i + 1..]) == multiset(b) - multiset{b[i]};
    assert a == [a[0]] + a[1..];
  }

  lemma SumWithout(b: seq<Spend>, i: nat, since: int)
    requires i < |b|
    ensures SumSince(b, since) == SumSince(b[..i] + b[i + 1..], since) + (if b[i].at >= since then Cost(b[i]) else 0.0)
  {
    SumSinceAppend(b[..i], b[i..], since);
    SumSinceAppend(b[..i], b[i + 1..], since);
    assert b == b[..i] + b[i..];
    assert b[i..][1..] == b[i + 1..];
  }

  lemma {:induction false} SumSincePermutes(a: seq<Spend>, b: seq<Spend>, since: int)
    requires multiset(a) == multiset(b)
    ensures SumSince(a, since) == SumSince(b, since)
  {
    if a == [] {
      assert |multiset(b)| == 0;
    } else {
      var i := TakeOut(a, b);
      SumSincePermutes(a[1..], b[..i] + b[i + 1..], since);
      SumWithout(b, i, since);
    }
  }

  lemma {:induction false} SpentIsSum(rows: seq<Spend>, key: string, since: int)
    ensures SpentSince(rows, key, since) == SumSince(RowsOf(rows, key), since)
  {
    if rows != [] {
      SpentIsSum(rows[1..], key, since);
      var head := if ChargedTo(rows[0]) == Some(key) then [rows[0]] else [];
      SumSinceAppend(head, RowsOf(rows[1..], key), since);
    }
  }

  lemma {:induction false} SpentInIsSum(timeline: seq<Event>, since: int)
    ensures SpentIn(timeline, since) == SumSince(SpendsOf(timeline), since)
  {
    if timeline != [] {
      var last := timeline[|timeline| - 1];
      SpentInIsSum(timeline[..|timeline| - 1], since);
      SumSinceAppend(SpendsOf(timeline[..|timeline| - 1]), if last.Charged? then [last.spend] else [], since);
    }
  }

  lemma SpentAgrees(timeline: seq<Event>, rows: seq<Spend>, key: string, since: int)
    requires SameSpends(timeline, rows, key)
    ensures SpentSince(rows, key, since) == SpentIn(timeline, since)
  {
    SpentIsSum(rows, key, since);
    SpentInIsSum(timeline, since);
    SumSincePermutes(SpendsOf(timeline), RowsOf(rows, key), since);
  }

  // ----- the shortcut equals the replay

  lemma {:induction false} NothingSpentSince(timeline: seq<Event>, since: int)
    requires forall e :: e in timeline && e.Charged? ==> e.spend.at < since
    ensures SpentIn(timeline, since) == 0.0
  {
    if timeline != [] {
      NothingSpentSince(timeline[..|timeline| - 1], since);
      assert timeline[|timeline| - 1] in timeline;
    }
  }

  lemma {:induction false} EntryIsEvent(timeline: seq<Event>, e: Entry)
    ensures e in EntriesOf(timeline) <==> Entered(e) in timeline
  {
    if timeline != [] {
      EntryIsEvent(timeline[..|timeline| - 1], e);
      assert timeline == timeline[..|timeline| - 1] + [timeline[|timeline| - 1]];
    }
  }

  lemma AnchorExtends(entries: seq<Entry>, e: Entry)
    ensures AnchorIndex(entries + [e]) == if e.kind.Opening? || entries == [] then |entries| else AnchorIndex(entries)
  {
    assert (entries + [e])[..|entries|] == entries;
  }

  lemma TopupTotalExtends(entries: seq<Entry>, e: Entry)
    ensures TopupTotal(entries + [e]) == TopupTotal(entries) + (if e.kind.Topup? then e.amount else 0.0)
  {
    assert (entries + [e])[..|entries|] == entries;
  }

  lemma TailExtends(entries: seq<Entry>, e: Entry, k: nat)
    requires k <= |entries|
    ensures (entries + [e])[k..] == entries[k..] + [e]
  {
  }

  lemma RecordedExtends(entries: seq<Entry>, e: Entry)
    ensures Recorded(entries + [e]) ==
            if e.kind.Opening? || entries == [] then e.amount else Recorded(entries) + e.amount
  {
    AnchorExtends(entries, e);
    var i := AnchorIndex(entries);
    if e.kind.Opening? || entries == [] {
      assert (entries + [e])[|entries| + 1..] == [];
    } else {
      TailExtends(entries, e, i + 1);
      TopupTotalExtends(entries[i + 1..], e);
    }
  }

  /** The balance a ledger and a history give: the recorded amount less what was spent since the anchor. */
  function Balance(timeline: seq<Event>, entries: seq<Entry>): Option<real> {
    if entries == [] then None
    else Some(Recorded(entries) - SpentIn(timeline, entries[AnchorIndex(entries)].at))
  }

  lemma AfterEntry(timeline: seq<Event>, e: Entry)
    requires Replay(timeline) == Balance(timeline, EntriesOf(timeline))
    requires forall x :: x in timeline ==> Before(x, Entered(e))
    ensures Replay(timeline + [Entered(e)]) == Balance(timeline + [Entered(e)], EntriesOf(timeline) + [e])
  {
    var entries, all := EntriesOf(timeline), timeline + [Entered(e)];
    assert all[..|timeline|] == timeline;
    AnchorExtends(entries, e);
    RecordedExtends(entries, e);
    var since := (entries + [e])[AnchorIndex(entries + [e])].at;
    assert SpentIn(all, since) == SpentIn(timeline, since);
    if e.kind.Opening? || entries == [] {
      NothingSpentSince(timeline, e.at);
    }
  }

  lemma AfterSpend(timeline: seq<Event>, s: Spend)
    requires Replay(timeline) == Balance(timeline, EntriesOf(timeline))
    requires forall x :: x in timeline ==> Before(x, Charged(s))
    ensures Replay(timeline + [Charged(s)]) == Balance(timeline + [Charged(s)], EntriesOf(timeline))
  {
    var entries, all := EntriesOf(timeline), timeline + [Charged(s)];
    assert all[..|timeline|] == timeline;
    if entries != [] {
      var anchor := entries[AnchorIndex(entries)];
      EntryIsEvent(timeline, anchor);
      assert Before(Entered(anchor), Charged(s));
    }
  }

  lemma {:induction false} ReplayIsBalance(timeline: seq<Event>)
    requires InOrder(timeline)
    ensures Replay(timeline) == Balance(timeline, EntriesOf(timeline))
  {
    if timeline != [] {
      var last := |timeline| - 1;
      ReplayIsBalance(timeline[..last]);
      assert timeline == timeline[..last] + [timeline[last]];
      match timeline[last]
      case Entered(e) => AfterEntry(timeline[..last], e);
      case Charged(s) =>
        assert EntriesOf(timeline) == EntriesOf(timeline[..last]);
        AfterSpend(timeline[..last], s);
    }
  }

  lemma EstimateIsBalance(timeline: seq<Event>, entries: seq<Entry>, rows: seq<Spend>, key: string)
    requires SameSpends(timeline, rows, key)
    ensures Estimate(entries, rows, key) == Balance(timeline, entries)
  {
    if entries != [] {
      SpentAgrees(timeline, rows, key, entries[AnchorIndex(entries)].at);
    }
  }

  /** The anchored estimate equals the replay of every timeline of the same ledger and call log. */
  lemma EstimateIsReplay(timeline: seq<Event>, entries: seq<Entry>, rows: seq<Spend>, key: string)
    requires IsTimeline(timeline, entries, rows, key)
    ensures Estimate(entries, rows, key) == Replay(timeline)
  {
    ReplayIsBalance(timeline);
    EstimateIsBalance(timeline, entries, rows, key);
  }

  // ----- every ordered ledger has a timeline

  /** Ordered as the ledger query returns it: by time, then id. */
  predicate LedgerOrder(entries: seq<Entry>) {
    forall i, j :: 0 <= i < j < |entries| ==>
      entries[i].at < entries[j].at || (entries[i].at == entries[j].at && entries[i].id < entries[j].id)
  }

  function EntryEvents(entries: seq<Entry>): (r: seq<Event>)
    ensures |r| == |entries| && forall k :: 0 <= k < |r| ==> r[k] == Entered(entries[k])
  {
    seq(|entries|, k requires 0 <= k < |entries| => Entered(entries[k]))
  }

  /** Puts a spend after everything that happened no later. */
  function AddSpend(timeline: seq<Event>, s: Spend): seq<Event> {
    if timeline == [] || Before(timeline[|timeline| - 1], Charged(s)) then timeline + [Charged(s)]
    else AddSpend(timeline[..|timeline| - 1], s) + [timeline[|timeline| - 1]]
  }

  function Timeline(entries: seq<Entry>, rows: seq<Spend>): seq<Event> {
    if rows == [] then EntryEvents(entries) else AddSpend(Timeline(entries, rows[1..]), rows[0])
  }

  lemma {:induction false} AddSpendMember(timeline: seq<Event>, s: Spend, e: Event)
    ensures e in AddSpend(timeline, s) <==> e in timeline || e == Charged(s)
  {
    if !(timeline == [] || Before(timeline[|timeline| - 1], Charged(s))) {
      var last := |timeline| - 1;
      AddSpendMember(timeline[..last], s, e);
      assert timeline == timeline[..last] + [timeline[last]];
    }
  }

  lemma {:induction false} AddSpendOrder(timeline: seq<Event>, s: Spend)
    requires InOrder(timeline)
    ensures InOrder(AddSpend(timeline, s))
  {
    var last := |timeline| - 1;
    if timeline == [] {
    } else if Before(timeline[last], Charged(s)) {
      forall i | 0 <= i < |timeline| ensures Before(timeline[i], Charged(s)) {
        assert i < last ==> Before(timeline[i], timeline[last]);
      }
    } else {
      AddSpendOrder(timeline[..last], s);
      var front := AddSpend(timeline[..last], s);
      forall i | 0 <= i < |front| ensures Before(front[i], timeline[last]) {
        AddSpendMember(timeline[..last], s, front[i]);
        if front[i] != Charged(s) {
          var k :| 0 <= k < last && timeline[k] == front[i];
          assert Before(timeline[k], timeline[last]);
        }
      }
    }
  }

  lemma {:induction false} AddSpendContents(timeline: seq<Event>, s: Spend)
    ensures EntriesOf(AddSpend(timeline, s)) == EntriesOf(timeline)
    ensures multiset(SpendsOf(AddSpend(timeline, s))) == multiset(SpendsOf(timeline)) + multiset{s}
  {
    var last := |timeline| - 1;
    if timeline == [] || Before(timeline[last], Charged(s)) {
      assert (timeline + [Charged(s)])[..|timeline|] == timeline;
    } else {
      AddSpendContents(timeline[..last], s);
      var front := AddSpend(timeline[..last], s);
      assert (front + [timeline[last]])[..|front|] == front;
    }
  }

  lemma {:induction false} EntryEventsContents(entries: seq<Entry>)
    ensures EntriesOf(EntryEvents(entries)) == entries && SpendsOf(EntryEvents(entries)) == []
  {
    if entries != [] {
      var last := |entries| - 1;
      EntryEventsContents(entries[..last]);
      assert EntryEvents(entries)[..last] == EntryEvents(entries[..last]);
    }
  }

  lemma EntryEventsOrder(entries: seq<Entry>)
    requires LedgerOrder(entries)
    ensures InOrder(EntryEvents(entries))
  {
    var timeline := EntryEvents(entries);
    forall i, j | 0 <= i < j < |timeline| ensures Before(timeline[i], timeline[j]) {
      assert entries[i].at <= entries[j].at;
    }
  }

  lemma {:induction false} TimelineOrder(entries: seq<Entry>, rows: seq<Spend>)
    requires LedgerOrder(entries)
    ensures InOrder(Timeline(entries, rows))
  {
    if rows == [] {
      EntryEventsOrder(entries);
    } else {
      TimelineOrder(entries, rows[1..]);
      AddSpendOrder(Timeline(entries, rows[1..]), rows[0]);
    }
  }

  lemma {:induction false} TimelineContents(entries: seq<Entry>, rows: seq<Spend>)
    ensures EntriesOf(Timeline(entries, rows)) == entries
    ensures multiset(SpendsOf(Timeline(entries, rows))) == multiset(rows)
  {
    if rows == [] {
      EntryEventsContents(entries);
    } else {
      TimelineContents(entries, rows[1..]);
      AddSpendContents(Timeline(entries, rows[1..]), rows[0]);
      assert rows == [rows[0]] + rows[1..];
    }
  }

  /** For every ordered ledger and every call log, the shortcut is the replay of the merged timeline. */
  lemma ShortcutIsExact(entries: seq<Entry>, rows: seq<Spend>, key: string)
    requires LedgerOrder(entries)
    ensures var timeline := Timeline(entries, RowsOf(rows, key));
            IsTimeline(timeline, entries, rows, key) && Estimate(entries, rows, key) == Replay(timeline)
  {
    var timeline := Timeline(entries, RowsOf(rows, key));
    TimelineOrder(entries, RowsOf(rows, key));
    TimelineContents(entries, RowsOf(rows, key));
    EstimateIsReplay(timeline, entries, rows, key);
  }

  // ----- re-anchoring and rounding

  lemma {:induction false} AnchorAfterCheck(past: seq<Entry>, check: Entry, later: seq<Entry>)
    requires check.kind.Opening?
    ensures AnchorIndex(past + ([check] + later)) == |past| + AnchorIndex([check] + later)
  {
    var all, tail := past + ([check] + later), [check] + later;
    assert all[|all| - 1] == tail[|tail| - 1];
    if later != [] && tail[|tail| - 1].kind.Topup? {
      var last := |later| - 1;
      AnchorAfterCheck(past, check, later[..last]);
      assert tail[..|tail| - 1] == [check] + later[..last];
      assert all[..|all| - 1] == past + ([check] + later[..last]);
    }
  }

  /** A balance check drops the drift of everything recorded before it. */
  lemma CheckForgetsThePast(past: seq<Entry>, check: Entry, later: seq<Entry>, rows: seq<Spend>, key: string)
    requires check.kind.Opening?
    ensures Estimate(past + ([check] + later), rows, key) == Estimate([check] + later, rows, key)
  {
    AnchorAfterCheck(past, check, later);
    var all, tail := past + ([check] + later), [check] + later;
    var i := AnchorIndex(tail);
    assert all[|past| + i] == tail[i] && all[|past| + i + 1..] == tail[i + 1..];
  }

  /** `f` rounds to within `half`. */
  ghost predicate Rounds(f: real -> real, half: real) {
    forall x :: x - half <= f(x) <= x + half
  }

  /** The figure shown: recorded to 4 decimals, spent to 6, the difference to 4. */
  function Shown(entries: seq<Entry>, rows: seq<Spend>, key: string,
                 round4: real -> real, round6: real -> real): Option<real>
  {
    if entries == [] then None
    else
      Some(round4(round4(Recorded(entries)) - round6(SpentSince(rows, key, entries[AnchorIndex(entries)].at))))
  }

  /** The figure shown is within 0.0001005 of the replayed balance, whatever the rounding of ties. */
  lemma ShownIsClose(timeline: seq<Event>, entries: seq<Entry>, rows: seq<Spend>, key: string,
                     round4: real -> real, round6: real -> real)
    requires IsTimeline(timeline, entries, rows, key) && Rounds(round4, 0.00005) && Rounds(round6, 0.0000005)
    ensures Shown(entries, rows, key, round4, round6).Some? <==> Replay(timeline).Some?
    ensures Replay(timeline).Some? ==>
              var shown, exact := Shown(entries, rows, key, round4, round6).value, Replay(timeline).value;
              exact - 0.0001005 <= shown <= exact + 0.0001005
  {
    EstimateIsReplay(timeline, entries, rows, key);
  }
}
