/**
 The alert recipient reconcile of shared/alert_recipients.py: plan what the table must change to match
 the SNS subscriptions, apply it, and unsubscribe addresses that confirmed after an admin removed them.

 A removed row's reason and time are part of its status, which is the table's own check constraint.
 The lists of addresses that the source sorts are sets here.
 */
module AlertRecipients {
  import opened Common

  const PENDING_GRACE_S := 300
  const MAX_OPS_RECIPIENTS := 50

  datatype Cause = ByAdmin | Unsubscribed | Expired
  datatype Status = Pending | Confirmed | Removed(cause: Cause, at: int)
  datatype Row = Row(id: string, email: string, status: Status, arn: Option<string>, sentAt: Option<int>)
  {
    predicate Active() {
      !status.Removed?
    }
  }

  /** One e-mail subscription as SNS lists it: `arn` is an ARN, or "PendingConfirmation" / "Deleted". */
  datatype SnsSub = SnsSub(arn: string, endpoint: string)
  datatype Seen = SeenConfirmed | SeenPending | SeenMissing

  /** `sub_state`. */
  function SubState(arn: string): Seen {
    if arn == "PendingConfirmation" then SeenPending
    else if arn == "" || arn == "Deleted" || !("arn:" <= arn) then SeenMissing
    else SeenConfirmed
  }

  function Rank(s: SnsSub): nat {
    match SubState(s.arn)
    case SeenConfirmed => 2
    case SeenPending => 1
    case SeenMissing => 0
  }

  predicate Live(s: SnsSub) {
    !SubState(s.arn).SeenMissing?
  }

  // ----- the best subscription per endpoint

  function BestOf(subs: seq<SnsSub>, e: string): Option<SnsSub> {
    if subs == [] then None
    else
      var s, cur := subs[|subs| - 1], BestOf(subs[..|subs| - 1], e);
      if s.endpoint == e && Live(s) && (cur.None? || Rank(s) > Rank(cur.value)) then Some(s) else cur
  }

  /** `_best_subs`. */
  method BestSubs(subs: seq<SnsSub>) returns (best: map<string, SnsSub>)
    ensures forall e :: Get(best, e) == BestOf(subs, e)
  {
    best := map[];
    for i := 0 to |subs|
      invariant forall e :: Get(best, e) == BestOf(subs[..i], e)
    {
      assert subs[..i + 1][..i] == subs[..i];
      var s := subs[i];
      if SubState(s.arn).SeenMissing? {
        continue;
      }
      var cur := Get(best, s.endpoint);
      if cur.None? || Rank(s) > Rank(cur.value) {
        best := best[s.endpoint := s];
      }
    }
    assert subs[..|subs|] == subs;
  }

  /** The choice is a live subscription of that endpoint, and none is better. */
  lemma {:induction false} BestIsBest(subs: seq<SnsSub>, e: string)
    ensures var b := BestOf(subs, e);
            (b.Some? ==> b.value in subs && b.value.endpoint == e && Live(b.value))
            && (forall s :: s in subs && s.endpoint == e && Live(s) ==> b.Some? && Rank(s) <= Rank(b.value))
  {
    if subs != [] {
      BestIsBest(subs[..|subs| - 1], e);
      assert subs == subs[..|subs| - 1] + [subs[|subs| - 1]];
    }
  }

  // ----- the plan

  datatype RowUpdate = RowUpdate(id: string, email: string, from: Status, to: Status, seen: Seen, arn: Option<string>)
  {
    predicate Changed() {
      from != to
    }
  }

  /** An address an admin removed whose confirmation was clicked afterwards. */
  datatype Unsubscribe = Unsubscribe(rowId: string, arn: string)

  datatype Plan = Plan(updates: seq<RowUpdate>, unsubscribe: map<string, Unsubscribe>, leaving: set<string>,
                       unmanaged: set<string>, locked: Option<Seen>)

  predicate InGrace(row: Row, now: int) {
    row.sentAt.Some? && now - row.sentAt.value < PENDING_GRACE_S
  }

  function UpdateFor(row: Row, sub: Option<SnsSub>, now: int): RowUpdate {
    var e := Lower(row.email);
    if sub.Some? && SubState(sub.value.arn).SeenConfirmed? then
      RowUpdate(row.id, e, row.status, Confirmed, SeenConfirmed,
                if row.arn == Some(sub.value.arn) then None else Some(sub.value.arn))
    else if sub.Some? then
      RowUpdate(row.id, e, row.status, Pending, SeenPending, None)
    else if InGrace(row, now) then
      RowUpdate(row.id, e, row.status, row.status, SeenMissing, None)
    else
      RowUpdate(row.id, e, row.status,
                Removed(if row.status.Pending? then Expired else Unsubscribed, now), SeenMissing, None)
  }

  function UpdatesFor(rows: seq<Row>, subs: seq<SnsSub>, now: int): seq<RowUpdate> {
    if rows == [] then []
    else
      var row := rows[|rows| - 1];
      UpdatesFor(rows[..|rows| - 1], subs, now)
      + (if row.Active() then [UpdateFor(row, BestOf(subs, Lower(row.email)), now)] else [])
  }

  predicate HasActive(rows: seq<Row>, e: string) {
    exists r :: r in rows && r.Active() && Lower(r.email) == e
  }

  /** The first removed row listed for the address; the caller lists the latest one only. */
  function RemovedFor(rows: seq<Row>, e: string): Option<Row> {
    if rows == [] then None
    else if !rows[0].Active() && Lower(rows[0].email) == e then Some(rows[0])
    else RemovedFor(rows[1..], e)
  }

  predicate RemovedHere(rows: seq<Row>, e: string) {
    var r := RemovedFor(rows, e);
    r.Some? && r.value.status.Removed? && r.value.status.cause.ByAdmin?
  }

  datatype Place = Managed | Locked | ToUnsubscribe | Leaving | Unmanaged

  /** Where a subscribed address belongs. */
  function PlaceOf(rows: seq<Row>, sub: SnsSub, bootstrap: Option<string>, e: string): Place {
    if HasActive(rows, e) then Managed
    else if bootstrap == Some(e) then Locked
    else if RemovedHere(rows, e) && SubState(sub.arn).SeenConfirmed? && bootstrap.Some? then ToUnsubscribe
    else if RemovedHere(rows, e) && SubState(sub.arn).SeenPending? then Leaving
    else Unmanaged
  }

  function Endpoints(subs: seq<SnsSub>): set<string> {
    set s | s in subs :: s.endpoint
  }

  /** The subscribed addresses of one place. */
  function At(rows: seq<Row>, subs: seq<SnsSub>, bootstrap: Option<string>, place: Place): set<string> {
    set e | e in Endpoints(subs) && BestOf(subs, e).Some? && PlaceOf(rows, BestOf(subs, e).value, bootstrap, e) == place
  }

  function UnsubscribeFor(rows: seq<Row>, subs: seq<SnsSub>, e: string): Unsubscribe
    requires BestOf(subs, e).Some? && RemovedFor(rows, e).Some?
  {
    Unsubscribe(RemovedFor(rows, e).value.id, BestOf(subs, e).value.arn)
  }

  function PlanOf(rows: seq<Row>, subs: seq<SnsSub>, bootstrap: Option<string>, now: int): Plan {
    var boot := NormEmail(bootstrap);
    Plan(UpdatesFor(rows, subs, now),
         map e | e in At(rows, subs, boot, ToUnsubscribe) :: UnsubscribeFor(rows, subs, e),
         At(rows, subs, boot, Leaving),
         At(rows, subs, boot, Unmanaged),
         if boot.None? then None
         else
           var best := BestOf(subs, boot.value);
           Some(if best.Some? then SubState(best.value.arn) else SeenMissing))
  }

  /** `plan_reconcile`. */
  method PlanReconcile(rows: seq<Row>, subs: seq<SnsSub>, bootstrap: Option<string>, now: int) returns (plan: Plan)
    ensures plan == PlanOf(rows, subs, bootstrap, now)
  {
    var boot := NormEmail(bootstrap);
    var best := BestSubs(subs);
    var updates, active, removedBy := PlanRows(rows, subs, best, now);
    var unsubscribe, leaving, unmanaged := PlanAddresses(rows, boot, best, active, removedBy);
    PlannedParts(rows, subs, boot, best, unsubscribe, leaving, unmanaged);
    var locked := None;
    if boot.Some? {
      assert Get(best, boot.value) == BestOf(subs, boot.value);
      locked := Some(if boot.value in best then SubState(best[boot.value].arn) else SeenMissing);
    }
    plan := Plan(updates, unsubscribe, leaving, unmanaged, locked);
  }

  /** The loop over the subscribed addresses. */
  method PlanAddresses(rows: seq<Row>, boot: Option<string>, best: map<string, SnsSub>,
                       active: set<string>, removedBy: map<string, Row>)
      returns (unsubscribe: map<string, Unsubscribe>, leaving: set<string>, unmanaged: set<string>)
    requires forall e :: e in active <==> HasActive(rows, e)
    requires forall e :: Get(removedBy, e) == RemovedFor(rows, e)
    ensures forall e :: e in unsubscribe <==> e in best && PlaceOf(rows, best[e], boot, e) == ToUnsubscribe
    ensures forall e :: e in unsubscribe ==>
              RemovedFor(rows, e).Some? && unsubscribe[e] == Unsubscribe(RemovedFor(rows, e).value.id, best[e].arn)
    ensures forall e :: e in leaving <==> e in best && PlaceOf(rows, best[e], boot, e) == Leaving
    ensures forall e :: e in unmanaged <==> e in best && PlaceOf(rows, best[e], boot, e) == Unmanaged
  {
    unsubscribe, leaving, unmanaged := map[], {}, {};
    ghost var place := map e | e in best :: PlaceOf(rows, best[e], boot, e);
    var todo := best.Keys;
    while todo != {}
      invariant todo <= best.Keys
      invariant forall e :: e in unsubscribe <==> e in best && e !in todo && place[e] == ToUnsubscribe
      invariant forall e :: e in unsubscribe ==>
                  RemovedFor(rows, e).Some? && unsubscribe[e] == Unsubscribe(RemovedFor(rows, e).value.id, best[e].arn)
      invariant forall e :: e in leaving <==> e in best && e !in todo && place[e] == Leaving
      invariant forall e :: e in unmanaged <==> e in best && e !in todo && place[e] == Unmanaged
      decreases todo
    {
      var e :| e in todo;
      todo := todo - {e};
      var sub := best[e];
      if e in active || boot == Some(e) {
        continue;
      }
      var removed := Get(removedBy, e);
      var removedHere := removed.Some? && removed.value.status.Removed? && removed.value.status.cause.ByAdmin?;
      if removedHere && SubState(sub.arn).SeenConfirmed? && boot.Some? {
        unsubscribe := unsubscribe[e := Unsubscribe(removed.value.id, sub.arn)];
      } else if removedHere && SubState(sub.arn).SeenPending? {
        leaving := leaving + {e};
      } else {
        unmanaged := unmanaged + {e};
      }
    }
  }

  lemma AtFromBest(rows: seq<Row>, subs: seq<SnsSub>, boot: Option<string>, best: map<string, SnsSub>)
    requires forall e :: Get(best, e) == BestOf(subs, e)
    ensures forall p, e :: e in At(rows, subs, boot, p) <==> e in best && PlaceOf(rows, best[e], boot, e) == p
    ensures forall e :: e in best ==> BestOf(subs, e) == Some(best[e])
  {
    forall e | e in best
      ensures BestOf(subs, e) == Some(best[e]) && e in Endpoints(subs)
    {
      assert Get(best, e) == BestOf(subs, e);
      BestIsBest(subs, e);
    }
    forall e | e !in best
      ensures BestOf(subs, e).None?
    {
      assert Get(best, e) == BestOf(subs, e);
    }
  }

  lemma PlannedParts(rows: seq<Row>, subs: seq<SnsSub>, boot: Option<string>, best: map<string, SnsSub>,
                     unsubscribe: map<string, Unsubscribe>, leaving: set<string>, unmanaged: set<string>)
    requires forall e :: Get(best, e) == BestOf(subs, e)
    requires forall e :: e in unsubscribe <==> e in best && PlaceOf(rows, best[e], boot, e) == ToUnsubscribe
    requires forall e :: e in unsubscribe ==>
               RemovedFor(rows, e).Some? && unsubscribe[e] == Unsubscribe(RemovedFor(rows, e).value.id, best[e].arn)
    requires forall e :: e in leaving <==> e in best && PlaceOf(rows, best[e], boot, e) == Leaving
    requires forall e :: e in unmanaged <==> e in best && PlaceOf(rows, best[e], boot, e) == Unmanaged
    ensures unsubscribe == map e | e in At(rows, subs, boot, ToUnsubscribe) :: UnsubscribeFor(rows, subs, e)
    ensures leaving == At(rows, subs, boot, Leaving) && unmanaged == At(rows, subs, boot, Unmanaged)
  {
    AtFromBest(rows, subs, boot, best);
  }

  /** The loop over the rows: an update per active row, the active addresses, the removed rows. */
  method PlanRows(rows: seq<Row>, subs: seq<SnsSub>, best: map<string, SnsSub>, now: int)
      returns (updates: seq<RowUpdate>, active: set<string>, removedBy: map<string, Row>)
    requires forall e :: Get(best, e) == BestOf(subs, e)
    ensures updates == UpdatesFor(rows, subs, now)
    ensures forall e :: e in active <==> HasActive(rows, e)
    ensures forall e :: Get(removedBy, e) == RemovedFor(rows, e)
  {
    updates, active, removedBy := [], {}, map[];
    for i := 0 to |rows|
      invariant updates == UpdatesFor(rows[..i], subs, now)
      invariant forall e :: e in active <==> HasActive(rows[..i], e)
      invariant forall e :: Get(removedBy, e) == RemovedFor(rows[..i], e)
    {
      var row := rows[i];
      var email := Lower(row.email);
      assert rows[..i + 1][..i] == rows[..i] && rows[..i + 1] == rows[..i] + [row];
      RemovedAppend(rows[..i], row);
      if row.status.Removed? {
        if email !in removedBy {
          removedBy := removedBy[email := row];
        }
        continue;
      }
      active := active + {email};
      assert Get(best, email) == BestOf(subs, email);
      updates := updates + [UpdateFor(row, Get(best, email), now)];
    }
    assert rows[..|rows|] == rows;
  }

  lemma {:induction false} RemovedAppend(rows: seq<Row>, row: Row)
    ensures forall e :: RemovedFor(rows + [row], e) ==
              if RemovedFor(rows, e).Some? then RemovedFor(rows, e)
              else if !row.Active() && Lower(row.email) == e then Some(row) else None
  {
    if rows == [] {
      assert forall e :: RemovedFor([row][1..], e) == None;
    } else {
      RemovedAppend(rows[1..], row);
      assert (rows + [row])[1..] == rows[1..] + [row];
    }
  }

  /** Every live address is in exactly one place; one with no active row that is not the bootstrap is
      unsubscribed, leaving or unmanaged. The bootstrap is never unsubscribed. */
  lemma PlanIsTotal(rows: seq<Row>, subs: seq<SnsSub>, bootstrap: Option<string>, now: int, s: SnsSub)
    requires s in subs && Live(s)
    ensures var plan, e := PlanOf(rows, subs, bootstrap, now), s.endpoint;
            var places := [e in plan.unsubscribe, e in plan.leaving, e in plan.unmanaged];
            if HasActive(rows, e) || NormEmail(bootstrap) == Some(e)
            then places == [false, false, false]
            else places in [[true, false, false], [false, true, false], [false, false, true]]
  {
    BestIsBest(subs, s.endpoint);
    assert s.endpoint in Endpoints(subs);
  }

  /** Without a bootstrap address nothing is unsubscribed. */
  lemma NoBootstrapNoUnsubscribe(rows: seq<Row>, subs: seq<SnsSub>, now: int)
    ensures PlanOf(rows, subs, None, now).unsubscribe == map[]
  {
    assert At(rows, subs, None, ToUnsubscribe) == {};
  }

  // ----- applying the plan

  /** Row ids are unique and addresses lower case, as the table demands. */
  predicate TableOk(t: seq<Row>) {
    && (forall i, j :: 0 <= i < j < |t| ==> t[i].id != t[j].id)
    && (forall i :: 0 <= i < |t| ==> Lower(t[i].email) == t[i].email)
  }

  predicate Newer(a: Row, i: int, b: Row, j: int)
    requires a.status.Removed? && b.status.Removed?
  {
    a.status.at > b.status.at || (a.status.at == b.status.at && i > j)
  }

  /** `t[i]` is the latest removed row of its address. */
  predicate IsLatest(t: seq<Row>, i: nat)
    requires i < |t|
  {
    t[i].status.Removed?
    && forall j :: 0 <= j < |t| && j != i && t[j].status.Removed? && t[j].email == t[i].email ==>
         Newer(t[i], i, t[j], j)
  }

  function ActiveRows(t: seq<Row>, n: nat): seq<Row>
    requires n <= |t|
  {
    if n == 0 then [] else ActiveRows(t, n - 1) + (if t[n - 1].Active() then [t[n - 1]] else [])
  }

  function LatestRemoved(t: seq<Row>, n: nat): seq<Row>
    requires n <= |t|
  {
    if n == 0 then [] else LatestRemoved(t, n - 1) + (if IsLatest(t, n - 1) then [t[n - 1]] else [])
  }

  /** What the two queries of `reconcile` pass to the plan. */
  function Listing(t: seq<Row>): seq<Row> {
    ActiveRows(t, |t|) + LatestRemoved(t, |t|)
  }

  function Updated(row: Row, u: RowUpdate): Row {
    if u.Changed() || u.arn.Some? then row.(status := u.to, arn := if u.arn.Some? then u.arn else row.arn) else row
  }

  /** A row after its update. */
  function Settled(row: Row, subs: seq<SnsSub>, now: int): Row {
    if row.Active() then Updated(row, UpdateFor(row, BestOf(subs, Lower(row.email)), now)) else row
  }

  function Applied(t: seq<Row>, subs: seq<SnsSub>, now: int): (r: seq<Row>)
    ensures |r| == |t| && forall i :: 0 <= i < |t| ==> r[i] == Settled(t[i], subs, now)
  {
    seq(|t|, i requires 0 <= i < |t| => Settled(t[i], subs, now))
  }

  lemma {:induction false} ActiveRowsAre(t: seq<Row>, n: nat)
    requires n <= |t|
    ensures forall r :: r in ActiveRows(t, n) <==> r in t[..n] && r.Active()
  {
    if n > 0 {
      ActiveRowsAre(t, n - 1);
      assert t[..n] == t[..n - 1] + [t[n - 1]];
    }
  }

  lemma {:induction false} LatestRemovedAre(t: seq<Row>, n: nat)
    requires n <= |t|
    ensures forall r :: r in LatestRemoved(t, n) <==> exists i :: 0 <= i < n && IsLatest(t, i) && t[i] == r
  {
    if n > 0 {
      LatestRemovedAre(t, n - 1);
    }
  }

  lemma ListingIs(t: seq<Row>)
    ensures forall r :: r in Listing(t) && r.Active() <==> r in t && r.Active()
    ensures forall r :: r in Listing(t) && !r.Active() <==> exists i :: 0 <= i < |t| && IsLatest(t, i) && t[i] == r
  {
    ActiveRowsAre(t, |t|);
    LatestRemovedAre(t, |t|);
    assert t[..|t|] == t;
  }

  lemma ListedActive(t: seq<Row>, r: Row)
    requires r.Active()
    ensures r in Listing(t) <==> r in t
  {
    ListingIs(t);
  }

  lemma {:induction false} UpdatesAre(rows: seq<Row>, subs: seq<SnsSub>, now: int)
    ensures forall u :: u in UpdatesFor(rows, subs, now) <==>
              exists r :: r in rows && r.Active() && u == UpdateFor(r, BestOf(subs, Lower(r.email)), now)
  {
    if rows != [] {
      var rest, row := rows[..|rows| - 1], rows[|rows| - 1];
      UpdatesAre(rest, subs, now);
      assert rows == rest + [row];
      var last := UpdateFor(row, BestOf(subs, Lower(row.email)), now);
      assert UpdatesFor(rows, subs, now) == UpdatesFor(rest, subs, now) + (if row.Active() then [last] else []);
    }
  }

  /** Planned against the locked rows, then one UPDATE by id per planned row. */
  method PlanAndApply(t: seq<Row>, subs: seq<SnsSub>, bootstrap: Option<string>, now: int)
      returns (plan: Plan, after: seq<Row>)
    requires TableOk(t)
    ensures plan == PlanOf(Listing(t), subs, bootstrap, now)
    ensures after == Applied(t, subs, now)
  {
    plan := PlanReconcile(Listing(t), subs, bootstrap, now);
    PlannedById(t, subs, now);
    after := ApplyUpdates(t, subs, now, plan.updates);
  }

  lemma PlannedById(t: seq<Row>, subs: seq<SnsSub>, now: int)
    requires TableOk(t)
    ensures forall u, i :: u in UpdatesFor(Listing(t), subs, now) && 0 <= i < |t| && t[i].id == u.id ==>
              t[i].Active() && u == UpdateFor(t[i], BestOf(subs, Lower(t[i].email)), now)
    ensures forall i :: 0 <= i < |t| && t[i].Active() ==>
              exists u :: u in UpdatesFor(Listing(t), subs, now) && u.id == t[i].id
  {
    forall u, i | u in UpdatesFor(Listing(t), subs, now) && 0 <= i < |t| && t[i].id == u.id
      ensures t[i].Active() && u == UpdateFor(t[i], BestOf(subs, Lower(t[i].email)), now)
    {
      var p := PlannedFrom(t, subs, now, u);
      assert p == i;
    }
    forall i | 0 <= i < |t| && t[i].Active()
      ensures exists u :: u in UpdatesFor(Listing(t), subs, now) && u.id == t[i].id
    {
      ListedActive(t, t[i]);
      UpdatesAre(Listing(t), subs, now);
      assert UpdateFor(t[i], BestOf(subs, Lower(t[i].email)), now) in UpdatesFor(Listing(t), subs, now);
    }
  }

  lemma PlannedFrom(t: seq<Row>, subs: seq<SnsSub>, now: int, u: RowUpdate) returns (p: nat)
    requires u in UpdatesFor(Listing(t), subs, now)
    ensures p < |t| && t[p].Active() && u.id == t[p].id && u == UpdateFor(t[p], BestOf(subs, Lower(t[p].email)), now)
  {
    UpdatesAre(Listing(t), subs, now);
    var r :| r in Listing(t) && r.Active() && u == UpdateFor(r, BestOf(subs, Lower(r.email)), now);
    ListedActive(t, r);
    p :| 0 <= p < |t| && t[p] == r;
  }

  method ApplyUpdates(t: seq<Row>, ghost subs: seq<SnsSub>, ghost now: int, updates: seq<RowUpdate>)
      returns (cur: seq<Row>)
    requires forall u, i :: u in updates && 0 <= i < |t| && t[i].id == u.id ==>
               t[i].Active() && u == UpdateFor(t[i], BestOf(subs, Lower(t[i].email)), now)
    requires forall i :: 0 <= i < |t| && t[i].Active() ==> exists u :: u in updates && u.id == t[i].id
    ensures cur == Applied(t, subs, now)
  {
    cur := t;
    ghost var done: set<string> := {};
    for k := 0 to |updates|
      invariant |cur| == |t|
      invariant forall i :: 0 <= i < |t| ==> cur[i] == if t[i].id in done then Settled(t[i], subs, now) else t[i]
      invariant forall u :: u in updates[..k] ==> u.id in done
      invariant forall i :: 0 <= i < |t| && t[i].id in done ==> t[i].Active()
    {
      var u := updates[k];
      assert u in updates && updates[..k + 1] == updates[..k] + [u];
      cur := seq(|cur|, i requires 0 <= i < |cur| => if cur[i].id == u.id then Updated(cur[i], u) else cur[i]);
      done := done + {u.id};
    }
    assert updates[..|updates|] == updates;
  }

  function Keep(subs: seq<SnsSub>, drop: set<SnsSub>): (left: seq<SnsSub>)
    ensures forall s :: s in left <==> s in subs && s !in drop
  {
    if subs == [] then []
    else
      var rest, s := subs[..|subs| - 1], subs[|subs| - 1];
      assert subs == rest + [s];
      Keep(rest, drop) + (if s in drop then [] else [s])
  }

  /** The subscriptions left after the unsubscribe calls; those in `failed` did not go through. */
  function Remaining(subs: seq<SnsSub>, plan: Plan, bootstrap: Option<string>, failed: set<string>): (left: seq<SnsSub>)
    ensures forall s :: s in left <==> s in subs && !Dropped(s, plan, bootstrap, failed)
  {
    Keep(subs, set s | s in subs && Dropped(s, plan, bootstrap, failed))
  }

  predicate Dropped(s: SnsSub, plan: Plan, bootstrap: Option<string>, failed: set<string>) {
    bootstrap.Some? &&
    exists e :: e in plan.unsubscribe && e !in failed && bootstrap != Some(e) && plan.unsubscribe[e].arn == s.arn
  }

  // ----- convergence

  predicate IsConfirmed(s: SnsSub) {
    SubState(s.arn).SeenConfirmed?
  }

  /** What SNS guarantees: the ARN of a confirmed subscription names it. An endpoint may have several. */
  predicate ArnsOk(subs: seq<SnsSub>) {
    forall s, q :: s in subs && q in subs && IsConfirmed(s) && s.arn == q.arn ==> s == q
  }

  /** The endpoint has a confirmed subscription besides its best one. */
  predicate SecondConfirmed(subs: seq<SnsSub>, e: string) {
    exists s :: s in subs && s.endpoint == e && IsConfirmed(s) && BestOf(subs, e) != Some(s)
  }

  predicate Gone(plan: Plan, failed: set<string>, e: string) {
    e in plan.unsubscribe && e !in failed
  }

  /** An unsubscribe call that goes through drops the best subscription of its address, and no other. */
  lemma DroppedIs(t: seq<Row>, subs: seq<SnsSub>, bootstrap: string, now: int, failed: set<string>, s: SnsSub)
    requires ArnsOk(subs) && s in subs && NormEmail(Some(bootstrap)) == Some(bootstrap)
    ensures var plan := PlanOf(Listing(t), subs, Some(bootstrap), now);
            Dropped(s, plan, Some(bootstrap), failed)
            <==> Gone(plan, failed, s.endpoint) && BestOf(subs, s.endpoint) == Some(s)
  {
    var plan, boot := PlanOf(Listing(t), subs, Some(bootstrap), now), Some(bootstrap);
    forall e | e in plan.unsubscribe
      ensures e != bootstrap && BestOf(subs, e).Some? && BestOf(subs, e).value in subs
      ensures IsConfirmed(BestOf(subs, e).value) && plan.unsubscribe[e].arn == BestOf(subs, e).value.arn
      ensures BestOf(subs, e).value.endpoint == e
    {
      BestIsBest(subs, e);
    }
  }

  /** The choice after one more subscription, from the choice before. */
  lemma BestSnoc(one: seq<SnsSub>, other: seq<SnsSub>, s: SnsSub, e: string)
    requires BestOf(one, e) == BestOf(other, e)
    ensures BestOf(one + [s], e) == BestOf(other + [s], e)
    ensures s.endpoint != e ==> BestOf(one + [s], e) == BestOf(one, e)
  {
    assert (one + [s])[..|one|] == one && (other + [s])[..|other|] == other;
  }

  lemma KeepSnoc(rest: seq<SnsSub>, s: SnsSub, drop: set<SnsSub>)
    ensures Keep(rest + [s], drop) == if s in drop then Keep(rest, drop) else Keep(rest, drop) + [s]
  {
    assert (rest + [s])[..|rest|] == rest;
  }

  /** One more subscription, which is dropped only if it is of another endpoint, keeps the two choices equal. */
  lemma KeepsChoice(rest: seq<SnsSub>, s: SnsSub, drop: set<SnsSub>, e: string)
    requires BestOf(Keep(rest, drop), e) == BestOf(rest, e) && (s in drop ==> s.endpoint != e)
    ensures BestOf(Keep(rest + [s], drop), e) == BestOf(rest + [s], e)
  {
    var left, both := Keep(rest, drop), Keep(rest + [s], drop);
    KeepSnoc(rest, s, drop);
    BestSnoc(left, rest, s, e);
    BestSnoc(rest, rest, s, e);
    assert both == left || both == left + [s];
  }

  /** Dropping subscriptions of other endpoints leaves the choice for `e`. */
  lemma {:induction false} BestUntouched(subs: seq<SnsSub>, drop: set<SnsSub>, e: string)
    requires forall s :: s in subs && s.endpoint == e ==> s !in drop
    ensures BestOf(Keep(subs, drop), e) == BestOf(subs, e)
  {
    if subs != [] {
      var rest, s := subs[..|subs| - 1], subs[|subs| - 1];
      assert subs == rest + [s];
      BestUntouched(rest, drop, e);
      KeepsChoice(rest, s, drop, e);
    }
  }

  /** A kept address keeps its best subscription. */
  lemma BestKept(t: seq<Row>, subs: seq<SnsSub>, bootstrap: string, now: int, failed: set<string>, e: string)
    requires ArnsOk(subs) && NormEmail(Some(bootstrap)) == Some(bootstrap)
    requires !Gone(PlanOf(Listing(t), subs, Some(bootstrap), now), failed, e)
    ensures var plan := PlanOf(Listing(t), subs, Some(bootstrap), now);
            BestOf(Remaining(subs, plan, Some(bootstrap), failed), e) == BestOf(subs, e)
  {
    var plan := PlanOf(Listing(t), subs, Some(bootstrap), now);
    forall s | s in subs && s.endpoint == e ensures !Dropped(s, plan, Some(bootstrap), failed) {
      DroppedIs(t, subs, bootstrap, now, failed, s);
    }
    BestUntouched(subs, (set s | s in subs && Dropped(s, plan, Some(bootstrap), failed)), e);
  }

  /** An unsubscribed address keeps all its subscriptions but the best. */
  lemma LeftAtGone(t: seq<Row>, subs: seq<SnsSub>, bootstrap: string, now: int, failed: set<string>, e: string)
    requires ArnsOk(subs) && NormEmail(Some(bootstrap)) == Some(bootstrap)
    requires Gone(PlanOf(Listing(t), subs, Some(bootstrap), now), failed, e)
    ensures var left := Remaining(subs, PlanOf(Listing(t), subs, Some(bootstrap), now), Some(bootstrap), failed);
            && (forall s :: s in left ==> s in subs)
            && (forall s :: s in subs && s.endpoint == e ==> (s in left <==> BestOf(subs, e) != Some(s)))
  {
    var left := Remaining(subs, PlanOf(Listing(t), subs, Some(bootstrap), now), Some(bootstrap), failed);
    forall s | s in subs && s.endpoint == e ensures s in left <==> BestOf(subs, e) != Some(s) {
      DroppedIs(t, subs, bootstrap, now, failed, s);
    }
  }

  /** An unsubscribed address has a confirmed subscription left exactly when it had a second one. */
  lemma BestGone(t: seq<Row>, subs: seq<SnsSub>, bootstrap: string, now: int, failed: set<string>, e: string)
    requires ArnsOk(subs) && NormEmail(Some(bootstrap)) == Some(bootstrap)
    requires Gone(PlanOf(Listing(t), subs, Some(bootstrap), now), failed, e)
    ensures var plan := PlanOf(Listing(t), subs, Some(bootstrap), now);
            var best := BestOf(Remaining(subs, plan, Some(bootstrap), failed), e);
            best.Some? && IsConfirmed(best.value) <==> SecondConfirmed(subs, e)
  {
    LeftAtGone(t, subs, bootstrap, now, failed, e);
    var plan := PlanOf(Listing(t), subs, Some(bootstrap), now);
    ConfirmedIsBest(Remaining(subs, plan, Some(bootstrap), failed), e);
  }

  /** The choice is a confirmed subscription exactly when the endpoint has one. */
  lemma ConfirmedIsBest(subs: seq<SnsSub>, e: string)
    ensures BestOf(subs, e).Some? && IsConfirmed(BestOf(subs, e).value) <==>
            exists s :: s in subs && s.endpoint == e && IsConfirmed(s)
  {
    BestIsBest(subs, e);
  }

  /** The Terraform subscription survives every reconcile, whatever else is planned. */
  lemma BootstrapKept(t: seq<Row>, subs: seq<SnsSub>, bootstrap: string, now: int, failed: set<string>, s: SnsSub)
    requires ArnsOk(subs) && NormEmail(Some(bootstrap)) == Some(bootstrap)
    requires s in subs && s.endpoint == bootstrap
    ensures s in Remaining(subs, PlanOf(Listing(t), subs, Some(bootstrap), now), Some(bootstrap), failed)
  {
    DroppedIs(t, subs, bootstrap, now, failed, s);
  }

  /** Rows are only ever closed: a removed row stays as it is, and every other keeps its address. */
  lemma NoRowRevived(t: seq<Row>, subs: seq<SnsSub>, now: int, i: nat)
    requires i < |t|
    ensures !t[i].Active() ==> Applied(t, subs, now)[i] == t[i]
    ensures Applied(t, subs, now)[i].id == t[i].id && Applied(t, subs, now)[i].email == t[i].email
  {
  }

  /** Tables that agree on the rows of an address agree on its latest removed row. */
  lemma LatestAgrees(t: seq<Row>, a: seq<Row>, e: string)
    requires |t| == |a| && forall i :: 0 <= i < |t| ==> t[i].email == a[i].email && (t[i].email == e ==> t[i] == a[i])
    ensures forall i :: 0 <= i < |t| && t[i].email == e ==> (IsLatest(t, i) <==> IsLatest(a, i))
  {
  }

  lemma LatestKept(t: seq<Row>, subs: seq<SnsSub>, now: int, e: string)
    requires TableOk(t) && !HasActive(Listing(t), e)
    ensures !HasActive(Listing(Applied(t, subs, now)), e)
    ensures RemovedFor(Listing(t), e) == RemovedFor(Listing(Applied(t, subs, now)), e)
  {
    var a := Applied(t, subs, now);
    forall i | 0 <= i < |t| && t[i].email == e
      ensures a[i] == t[i]
    {
      if t[i].Active() {
        ListedActive(t, t[i]);
      }
    }
    forall r | r in Listing(a) && r.Active() ensures Lower(r.email) != e {
      ListedActive(a, r);
      var i :| 0 <= i < |a| && a[i] == r;
      assert t[i].email == r.email && t[i].Active();
      ListedActive(t, t[i]);
    }
    LatestAgrees(t, a, e);
    RemovedForIs(t, e);
    RemovedForIs(a, e);
  }

  lemma {:induction false} RemovedForFinds(rows: seq<Row>, e: string)
    ensures var f := RemovedFor(rows, e);
            (f.Some? ==> f.value in rows && !f.value.Active() && Lower(f.value.email) == e)
            && (f.None? ==> forall r :: r in rows && !r.Active() ==> Lower(r.email) != e)
  {
    if rows != [] {
      RemovedForFinds(rows[1..], e);
      assert rows == [rows[0]] + rows[1..];
    }
  }

  lemma RemovedForIs(t: seq<Row>, e: string)
    requires forall i :: 0 <= i < |t| ==> Lower(t[i].email) == t[i].email
    ensures forall i :: 0 <= i < |t| && t[i].email == e && IsLatest(t, i) ==> RemovedFor(Listing(t), e) == Some(t[i])
    ensures RemovedFor(Listing(t), e).Some? ==>
              exists i :: 0 <= i < |t| && t[i].email == e && IsLatest(t, i) && RemovedFor(Listing(t), e) == Some(t[i])
  {
    RemovedForFinds(Listing(t), e);
    ListingIs(t);
  }

  /** Planning again, at any later time: the only status that moves is that of a row SNS does not list
      whose grace has run out since, and an address is unsubscribed again exactly when its call failed or it
      has a second confirmed subscription. */
  lemma Converges(t: seq<Row>, subs: seq<SnsSub>, bootstrap: string, now: int, failed: set<string>, later: int)
    requires TableOk(t) && ArnsOk(subs) && NormEmail(Some(bootstrap)) == Some(bootstrap)
    ensures var plan := PlanOf(Listing(t), subs, Some(bootstrap), now);
            var t', subs' := Applied(t, subs, now), Remaining(subs, plan, Some(bootstrap), failed);
            var again := PlanOf(Listing(t'), subs', Some(bootstrap), later);
            && (forall u :: u in again.updates ==> u.arn.None?)
            && (forall u :: u in again.updates && u.Changed() ==>
                  exists r :: r in t' && r.id == u.id && r.Active() &&
                              BestOf(subs, r.email).None? && !InGrace(r, later))
            && (later == now ==> forall u :: u in again.updates ==> !u.Changed())
            && (forall e :: e in again.unsubscribe <==>
                  e in plan.unsubscribe && (e in failed || SecondConfirmed(subs, e)))
  {
    var plan := PlanOf(Listing(t), subs, Some(bootstrap), now);
    var t', subs' := Applied(t, subs, now), Remaining(subs, plan, Some(bootstrap), failed);
    var again := PlanOf(Listing(t'), subs', Some(bootstrap), later);
    UpdatesAre(Listing(t'), subs', later);
    ListingIs(t');
    forall u | u in again.updates
      ensures u.arn.None? && (later == now ==> !u.Changed())
      ensures u.Changed() ==>
                exists r :: r in t' && r.id == u.id && r.Active() && BestOf(subs, r.email).None? && !InGrace(r, later)
    {
      var r :| r in Listing(t') && r.Active() && u == UpdateFor(r, BestOf(subs', Lower(r.email)), later);
      RowSettled(t, subs, bootstrap, now, failed, later, r);
    }
    forall e
      ensures e in again.unsubscribe <==> e in plan.unsubscribe && (e in failed || SecondConfirmed(subs, e))
    {
      AddressSettled(t, subs, bootstrap, now, failed, later, e);
    }
  }

  /** A row updated against a subscription needs no further update against it, but for its grace. */
  lemma SettledOnce(row: Row, sub: Option<SnsSub>, now: int, later: int)
    requires row.Active() && (sub.Some? ==> Live(sub.value))
    ensures var r := Updated(row, UpdateFor(row, sub, now));
            var u := UpdateFor(r, sub, later);
            r.Active() ==>
              u.arn.None? && (u.Changed() <==> sub.None? && !InGrace(r, later)) && (later == now ==> !u.Changed())
  {
  }

  lemma ActiveBestKept(t: seq<Row>, subs: seq<SnsSub>, bootstrap: string, now: int, failed: set<string>, row: Row)
    requires TableOk(t) && ArnsOk(subs) && NormEmail(Some(bootstrap)) == Some(bootstrap)
    requires row in t && row.Active() && Lower(row.email) == row.email
    ensures var left := Remaining(subs, PlanOf(Listing(t), subs, Some(bootstrap), now), Some(bootstrap), failed);
            BestOf(left, row.email) == BestOf(subs, row.email)
  {
    ListedActive(t, row);
    assert HasActive(Listing(t), row.email);
    UnsubscribedIff(Listing(t), subs, bootstrap, now, row.email);
    BestKept(t, subs, bootstrap, now, failed, row.email);
  }

  lemma RowSettled(t: seq<Row>, subs: seq<SnsSub>, bootstrap: string, now: int, failed: set<string>, later: int, r: Row)
    requires TableOk(t) && ArnsOk(subs) && NormEmail(Some(bootstrap)) == Some(bootstrap)
    requires r in Applied(t, subs, now) && r.Active()
    ensures var left := Remaining(subs, PlanOf(Listing(t), subs, Some(bootstrap), now), Some(bootstrap), failed);
            var u := UpdateFor(r, BestOf(left, Lower(r.email)), later);
            && u.arn.None? && Lower(r.email) == r.email
            && (u.Changed() <==> BestOf(subs, r.email).None? && !InGrace(r, later))
            && (later == now ==> !u.Changed())
  {
    var i :| 0 <= i < |t| && Applied(t, subs, now)[i] == r;
    assert t[i].Active() && t[i].email == r.email;
    ActiveBestKept(t, subs, bootstrap, now, failed, t[i]);
    BestIsBest(subs, r.email);
    SettledOnce(t[i], BestOf(subs, r.email), now, later);
  }

  lemma UnsubscribedIff(rows: seq<Row>, subs: seq<SnsSub>, bootstrap: string, now: int, e: string)
    requires NormEmail(Some(bootstrap)) == Some(bootstrap)
    ensures e in PlanOf(rows, subs, Some(bootstrap), now).unsubscribe <==>
              && BestOf(subs, e).Some? && SubState(BestOf(subs, e).value.arn).SeenConfirmed?
              && !HasActive(rows, e) && e != bootstrap && RemovedHere(rows, e)
  {
    BestIsBest(subs, e);
  }

  lemma AddressSettled(t: seq<Row>, subs: seq<SnsSub>, bootstrap: string, now: int, failed: set<string>, later: int,
                       e: string)
    requires TableOk(t) && ArnsOk(subs) && NormEmail(Some(bootstrap)) == Some(bootstrap)
    ensures var plan := PlanOf(Listing(t), subs, Some(bootstrap), now);
            var t', subs' := Applied(t, subs, now), Remaining(subs, plan, Some(bootstrap), failed);
            e in PlanOf(Listing(t'), subs', Some(bootstrap), later).unsubscribe <==>
            e in plan.unsubscribe && (e in failed || SecondConfirmed(subs, e))
  {
    var plan := PlanOf(Listing(t), subs, Some(bootstrap), now);
    var t', subs' := Applied(t, subs, now), Remaining(subs, plan, Some(bootstrap), failed);
    UnsubscribedIff(Listing(t), subs, bootstrap, now, e);
    UnsubscribedIff(Listing(t'), subs', bootstrap, later, e);
    if Gone(plan, failed, e) {
      BestGone(t, subs, bootstrap, now, failed, e);
      LatestKept(t, subs, now, e);
    } else {
      BestKept(t, subs, bootstrap, now, failed, e);
      if !HasActive(Listing(t), e) {
        LatestKept(t, subs, now, e);
      } else if BestOf(subs, e).Some? {
        ActiveKept(t, subs, now, e);
      }
    }
  }

  lemma ActiveKept(t: seq<Row>, subs: seq<SnsSub>, now: int, e: string)
    requires HasActive(Listing(t), e) && BestOf(subs, e).Some?
    ensures HasActive(Listing(Applied(t, subs, now)), e)
  {
    var a := Applied(t, subs, now);
    var r :| r in Listing(t) && r.Active() && Lower(r.email) == e;
    ListedActive(t, r);
    var i :| 0 <= i < |t| && t[i] == r;
    assert a[i].Active() && Lower(a[i].email) == e && a[i] in a;
    ListedActive(a, a[i]);
  }

  // ----- repeated reconciles

  /** The confirmed subscriptions of an address. */
  function ConfirmedOf(subs: seq<SnsSub>, e: string): set<SnsSub> {
    set s | s in subs && s.endpoint == e && IsConfirmed(s)
  }

  /** Reconciles one after the other, at any times, with every unsubscribe call going through. */
  ghost predicate IsPasses(tables: seq<seq<Row>>, topics: seq<seq<SnsSub>>, bootstrap: string, nows: seq<int>) {
    && |tables| == |topics| == |nows| + 1
    && forall k :: 0 <= k < |nows| ==>
         && tables[k + 1] == Applied(tables[k], topics[k], nows[k])
         && topics[k + 1] == Remaining(topics[k], PlanAt(tables, topics, bootstrap, nows, k), Some(bootstrap), {})
  }

  function PlanAt(tables: seq<seq<Row>>, topics: seq<seq<SnsSub>>, bootstrap: string, nows: seq<int>, k: nat): Plan
    requires k < |nows| && k < |tables| && k < |topics|
  {
    PlanOf(Listing(tables[k]), topics[k], Some(bootstrap), nows[k])
  }

  lemma {:induction false} PassesKeep(tables: seq<seq<Row>>, topics: seq<seq<SnsSub>>, bootstrap: string,
                                      nows: seq<int>, k: nat)
    requires IsPasses(tables, topics, bootstrap, nows) && k <= |nows| && TableOk(tables[0]) && ArnsOk(topics[0])
    ensures TableOk(tables[k]) && ArnsOk(topics[k])
  {
    if k > 0 {
      PassesKeep(tables, topics, bootstrap, nows, k - 1);
    }
  }

  /** The confirmed subscriptions besides the best one. */
  lemma SecondIff(subs: seq<SnsSub>, e: string)
    requires BestOf(subs, e).Some? && IsConfirmed(BestOf(subs, e).value)
    ensures BestOf(subs, e).value in ConfirmedOf(subs, e)
    ensures SecondConfirmed(subs, e) <==> |ConfirmedOf(subs, e)| > 1
  {
    BestIsBest(subs, e);
    var best, all := BestOf(subs, e).value, ConfirmedOf(subs, e);
    assert |all - {best}| == |all| - 1;
    if SecondConfirmed(subs, e) {
      var s :| s in subs && s.endpoint == e && IsConfirmed(s) && BestOf(subs, e) != Some(s);
      assert s in all - {best};
    } else {
      assert all - {best} == {};
    }
  }

  lemma AllButBest(subs: seq<SnsSub>, left: seq<SnsSub>, e: string)
    requires BestOf(subs, e).Some? && BestOf(subs, e).value in ConfirmedOf(subs, e)
    requires forall s :: s in left ==> s in subs
    requires forall s :: s in subs && s.endpoint == e ==> (s in left <==> BestOf(subs, e) != Some(s))
    ensures |ConfirmedOf(left, e)| == |ConfirmedOf(subs, e)| - 1
  {
    assert ConfirmedOf(left, e) == ConfirmedOf(subs, e) - {BestOf(subs, e).value};
  }

  /** A pass takes one confirmed subscription from each address it unsubscribes. */
  lemma PassTakesOne(t: seq<Row>, subs: seq<SnsSub>, bootstrap: string, now: int, e: string)
    requires ArnsOk(subs) && NormEmail(Some(bootstrap)) == Some(bootstrap)
    requires e in PlanOf(Listing(t), subs, Some(bootstrap), now).unsubscribe
    requires BestOf(subs, e).Some? && BestOf(subs, e).value in ConfirmedOf(subs, e)
    ensures var plan := PlanOf(Listing(t), subs, Some(bootstrap), now);
            |ConfirmedOf(Remaining(subs, plan, Some(bootstrap), {}), e)| == |ConfirmedOf(subs, e)| - 1
  {
    LeftAtGone(t, subs, bootstrap, now, {}, e);
    var plan := PlanOf(Listing(t), subs, Some(bootstrap), now);
    AllButBest(subs, Remaining(subs, plan, Some(bootstrap), {}), e);
  }

  /** An address is unsubscribed by exactly as many passes in a row as it had confirmed subscriptions; then
      no plan names it any more. */
  lemma {:induction false} PassesEnd(tables: seq<seq<Row>>, topics: seq<seq<SnsSub>>, bootstrap: string,
                                     nows: seq<int>, k: nat, e: string)
    requires IsPasses(tables, topics, bootstrap, nows) && k < |nows| && TableOk(tables[0]) && ArnsOk(topics[0])
    requires NormEmail(Some(bootstrap)) == Some(bootstrap)
    ensures e in PlanAt(tables, topics, bootstrap, nows, k).unsubscribe <==>
            e in PlanAt(tables, topics, bootstrap, nows, 0).unsubscribe && k < |ConfirmedOf(topics[0], e)|
    ensures e in PlanAt(tables, topics, bootstrap, nows, k).unsubscribe ==>
              |ConfirmedOf(topics[k], e)| == |ConfirmedOf(topics[0], e)| - k
  {
    if k == 0 {
      UnsubscribedIff(Listing(tables[0]), topics[0], bootstrap, nows[0], e);
      if e in PlanAt(tables, topics, bootstrap, nows, 0).unsubscribe {
        SecondIff(topics[0], e);
      }
    } else {
      PassesEnd(tables, topics, bootstrap, nows, k - 1, e);
      PassesKeep(tables, topics, bootstrap, nows, k - 1);
      AddressSettled(tables[k - 1], topics[k - 1], bootstrap, nows[k - 1], {}, nows[k], e);
      UnsubscribedIff(Listing(tables[k - 1]), topics[k - 1], bootstrap, nows[k - 1], e);
      if e in PlanAt(tables, topics, bootstrap, nows, k - 1).unsubscribe {
        SecondIff(topics[k - 1], e);
        PassTakesOne(tables[k - 1], topics[k - 1], bootstrap, nows[k - 1], e);
      }
    }
  }

  // ----- who gets the ops e-mail

  /** The addresses in order, normalised, each once. */
  function Deduped(emails: seq<Option<string>>): seq<string> {
    if emails == [] then []
    else
      var rest, e := Deduped(emails[..|emails| - 1]), NormEmail(emails[|emails| - 1]);
      if e.Some? && e.value !in rest then rest + [e.value] else rest
  }

  /** `merge_recipients`. */
  method MergeRecipients(confirmed: seq<Option<string>>, fallback: Option<string>) returns (out: seq<string>)
    ensures out == MergedRecipients(confirmed, fallback)
  {
    var all := confirmed + [fallback];
    out := [];
    for i := 0 to |all|
      invariant out == Deduped(all[..i])
    {
      assert all[..i + 1][..i] == all[..i];
      var value := NormEmail(all[i]);
      if value.Some? && value.value !in out {
        out := out + [value.value];
      }
    }
    assert all[..|all|] == all;
    out := if |out| <= MAX_OPS_RECIPIENTS then out else out[..MAX_OPS_RECIPIENTS];
  }

  function MergedRecipients(confirmed: seq<Option<string>>, fallback: Option<string>): (r: seq<string>)
    ensures |r| <= MAX_OPS_RECIPIENTS
  {
    var all := Deduped(confirmed + [fallback]);
    if |all| <= MAX_OPS_RECIPIENTS then all else all[..MAX_OPS_RECIPIENTS]
  }

  lemma {:induction false} DedupedIs(emails: seq<Option<string>>)
    ensures Distinct(Deduped(emails))
    ensures forall v :: v in Deduped(emails) <==> exists e :: e in emails && NormEmail(e) == Some(v)
  {
    if emails != [] {
      DedupedIs(emails[..|emails| - 1]);
      assert emails == emails[..|emails| - 1] + [emails[|emails| - 1]];
    }
  }

  /** The fallback address is said to be always included. It is exactly when it is among the first 50
      distinct confirmed addresses or those are fewer than 50: the cut drops the end of the list. */
  lemma FallbackIncludedIff(confirmed: seq<Option<string>>, fallback: string)
    requires NormEmail(Some(fallback)) == Some(fallback)
    ensures var listed := Deduped(confirmed);
            fallback in MergedRecipients(confirmed, Some(fallback))
            <==> |listed| < MAX_OPS_RECIPIENTS || fallback in listed[..MAX_OPS_RECIPIENTS]
  {
    var all, listed := confirmed + [Some(fallback)], Deduped(confirmed);
    assert all[..|all| - 1] == confirmed;
    DedupedIs(confirmed);
    if fallback !in listed && |listed| >= MAX_OPS_RECIPIENTS {
      assert (listed + [fallback])[..MAX_OPS_RECIPIENTS] == listed[..MAX_OPS_RECIPIENTS];
    }
  }
}
