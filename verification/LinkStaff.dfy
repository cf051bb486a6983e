/**
 The staff link script of scripts/link_staff_identity.py: a mapping of usernames to work e-mails is
 checked against the directory rows, planned, and applied in one transaction.
 */
module LinkStaff {
  import opened Common

  const OWNER_ROLE := "admin"

  /** `bound` is whether `cognito_sub` is set. */
  datatype Row = Row(id: string, username: string, role: string, active: bool, email: Option<string>,
                     displayName: Option<string>, bound: bool, owner: bool)
  datatype MapEntry = MapEntry(username: string, email: string, displayName: Option<string>)

  // ----- the mapping

  predicate DistinctEntries(entries: seq<MapEntry>) {
    forall i, j :: 0 <= i < j < |entries| ==>
      entries[i].username != entries[j].username && entries[i].email != entries[j].email
  }

  datatype MapError = UsernameTwice(username: string) | EmailTwice(email: string)

  /** `parse_mapping` on parsed entries: accepted exactly when usernames and e-mails are distinct. */
  method CheckMapping(entries: seq<MapEntry>) returns (r: Result<seq<MapEntry>, MapError>)
    ensures r.Ok? <==> DistinctEntries(entries)
    ensures r.Ok? ==> r.value == entries
  {
    var users: set<string>, emails: set<string> := {}, {};
    for i := 0 to |entries|
      invariant users == set j | 0 <= j < i :: entries[j].username
      invariant emails == set j | 0 <= j < i :: entries[j].email
      invariant DistinctEntries(entries[..i])
    {
      var e := entries[i];
      if e.username in users {
        return Err(UsernameTwice(e.username));
      }
      if e.email in emails {
        return Err(EmailTwice(e.email));
      }
      users, emails := users + {e.username}, emails + {e.email};
    }
    assert entries[..|entries|] == entries;
    return Ok(entries);
  }

  // ----- the plan

  function ByUser(rows: seq<Row>, username: string): Option<Row> {
    if rows == [] then None
    else if rows[|rows| - 1].username == username then Some(rows[|rows| - 1])
    else ByUser(rows[..|rows| - 1], username)
  }

  /** The lower-case e-mail of a row, None when it has none. */
  function EmailOf(r: Row): Option<string> {
    if Present(r.email) then Some(Lower(r.email.value)) else None
  }

  function Holder(rows: seq<Row>, email: string): Option<string> {
    if rows == [] then None
    else if EmailOf(rows[|rows| - 1]) == Some(email) then Some(rows[|rows| - 1].username)
    else Holder(rows[..|rows| - 1], email)
  }

  function NewName(r: Row, e: MapEntry): Option<string> {
    if e.displayName.Some? then e.displayName else r.displayName
  }

  datatype Problem = NoRow | Taken | Linked | OwnerNoRow | OwnerInactive | OwnerNotAdmin
  datatype Change = SetIdentity(id: string, username: string, email: string, displayName: Option<string>)
                  | SetOwner(id: string, username: string)
  datatype Outcome = Same | Do(change: Change) | Bad(problem: Problem)

  function EntryOutcome(rows: seq<Row>, e: MapEntry): Outcome {
    var row, holder := ByUser(rows, e.username), Holder(rows, e.email);
    if row.None? then Bad(NoRow)
    else if holder.Some? && holder.value != e.username then Bad(Taken)
    else if row.value.bound && EmailOf(row.value) != Some(e.email) then Bad(Linked)
    else if row.value.email == Some(e.email) && row.value.displayName == NewName(row.value, e) then Same
    else Do(SetIdentity(row.value.id, e.username, e.email, NewName(row.value, e)))
  }

  function OwnerOutcome(rows: seq<Row>, owner: Option<string>): Outcome {
    if owner.None? then Same
    else
      var row := ByUser(rows, owner.value);
      if row.None? then Bad(OwnerNoRow)
      else if !row.value.active then Bad(OwnerInactive)
      else if row.value.role != OWNER_ROLE then Bad(OwnerNotAdmin)
      else if row.value.owner then Same
      else Do(SetOwner(row.value.id, owner.value))
  }

  datatype Plan = Plan(changes: seq<Change>, errors: seq<Problem>)

  function With(p: Plan, o: Outcome): Plan {
    match o
    case Same => p
    case Do(c) => p.(changes := p.changes + [c])
    case Bad(b) => p.(errors := p.errors + [b])
  }

  function PlanEntries(rows: seq<Row>, entries: seq<MapEntry>): Plan {
    if entries == [] then Plan([], [])
    else With(PlanEntries(rows, entries[..|entries| - 1]), EntryOutcome(rows, entries[|entries| - 1]))
  }

  function PlanOf(rows: seq<Row>, entries: seq<MapEntry>, owner: Option<string>): Plan {
    With(PlanEntries(rows, entries), OwnerOutcome(rows, owner))
  }

  /** `compute_plan`: the two dicts, then the loop over the mapping, then the owner. */
  method ComputePlan(rows: seq<Row>, entries: seq<MapEntry>, owner: Option<string>) returns (plan: Plan)
    ensures plan == PlanOf(rows, entries, owner)
  {
    var byUser, emailOwner := IndexRows(rows);
    plan := Plan([], []);
    for i := 0 to |entries|
      invariant plan == PlanEntries(rows, entries[..i])
    {
      assert entries[..i + 1][..i] == entries[..i];
      var e := entries[i];
      var row, holder := Get(byUser, e.username), Get(emailOwner, e.email);
      if row.None? {
        plan := plan.(errors := plan.errors + [NoRow]);
        continue;
      }
      if holder.Some? && holder.value != e.username {
        plan := plan.(errors := plan.errors + [Taken]);
        continue;
      }
      if row.value.bound && EmailOf(row.value) != Some(e.email) {
        plan := plan.(errors := plan.errors + [Linked]);
        continue;
      }
      var name := NewName(row.value, e);
      if row.value.email == Some(e.email) && row.value.displayName == name {
        continue;
      }
      plan := plan.(changes := plan.changes + [SetIdentity(row.value.id, e.username, e.email, name)]);
    }
    assert entries[..|entries|] == entries;
    if owner.Some? {
      var row := Get(byUser, owner.value);
      if row.None? {
        plan := plan.(errors := plan.errors + [OwnerNoRow]);
      } else if !row.value.active {
        plan := plan.(errors := plan.errors + [OwnerInactive]);
      } else if row.value.role != OWNER_ROLE {
        plan := plan.(errors := plan.errors + [OwnerNotAdmin]);
      } else if !row.value.owner {
        plan := plan.(changes := plan.changes + [SetOwner(row.value.id, owner.value)]);
      }
    }
  }

  method IndexRows(rows: seq<Row>) returns (byUser: map<string, Row>, emailOwner: map<string, string>)
    ensures forall u :: Get(byUser, u) == ByUser(rows, u)
    ensures forall m :: Get(emailOwner, m) == Holder(rows, m)
  {
    byUser, emailOwner := map[], map[];
    for i := 0 to |rows|
      invariant forall u :: Get(byUser, u) == ByUser(rows[..i], u)
      invariant forall m :: Get(emailOwner, m) == Holder(rows[..i], m)
    {
      assert rows[..i + 1][..i] == rows[..i];
      byUser := byUser[rows[i].username := rows[i]];
      if EmailOf(rows[i]).Some? {
        emailOwner := emailOwner[EmailOf(rows[i]).value := rows[i].username];
      }
    }
    assert rows[..|rows|] == rows;
  }

  // ----- the invariant and the effect

  /** Unique by id, by username and by lower-case e-mail. */
  predicate UniqueRows(rows: seq<Row>) {
    && (forall i, j :: 0 <= i < j < |rows| ==> rows[i].id != rows[j].id && rows[i].username != rows[j].username)
    && (forall i, j :: 0 <= i < j < |rows| && EmailOf(rows[i]).Some? ==> EmailOf(rows[i]) != EmailOf(rows[j]))
  }

  /** What the parser makes of the command line: distinct entries with a non-empty lower-case address. */
  predicate MappingOk(entries: seq<MapEntry>) {
    DistinctEntries(entries) && forall e :: e in entries ==> e.email != "" && Lower(e.email) == e.email
  }

  function EntryFor(entries: seq<MapEntry>, username: string): (f: Option<MapEntry>)
    ensures f.Some? ==> f.value in entries && f.value.username == username
    ensures f.None? ==> forall e :: e in entries ==> e.username != username
  {
    if entries == [] then None
    else if entries[0].username == username then Some(entries[0])
    else
      assert entries == [entries[0]] + entries[1..];
      EntryFor(entries[1..], username)
  }

  /** A row after the mapping: its entry's address and name, and the owner flag if it is the owner. */
  function LinkedRow(r: Row, entries: seq<MapEntry>, owner: Option<string>): Row {
    var e := EntryFor(entries, r.username);
    var named := if e.Some? then r.(email := Some(e.value.email), displayName := NewName(r, e.value)) else r;
    if owner == Some(r.username) then named.(owner := true) else named
  }

  function LinkedRows(rows: seq<Row>, entries: seq<MapEntry>, owner: Option<string>): (out: seq<Row>)
    ensures |out| == |rows| && forall i :: 0 <= i < |rows| ==> out[i] == LinkedRow(rows[i], entries, owner)
  {
    seq(|rows|, i requires 0 <= i < |rows| => LinkedRow(rows[i], entries, owner))
  }

  lemma {:induction false} ByUserFinds(rows: seq<Row>, i: nat)
    requires UniqueRows(rows) && i < |rows|
    ensures ByUser(rows, rows[i].username) == Some(rows[i])
  {
    if i < |rows| - 1 {
      ByUserFinds(rows[..|rows| - 1], i);
    }
  }

  lemma {:induction false} ByUserIsRow(rows: seq<Row>, username: string)
    ensures var f := ByUser(rows, username);
            (f.Some? ==> f.value in rows && f.value.username == username)
            && (f.None? ==> forall r :: r in rows ==> r.username != username)
  {
    if rows != [] {
      ByUserIsRow(rows[..|rows| - 1], username);
      assert rows == rows[..|rows| - 1] + [rows[|rows| - 1]];
    }
  }

  lemma {:induction false} HolderIs(rows: seq<Row>, email: string)
    ensures var f := Holder(rows, email);
            (f.Some? ==> exists r :: r in rows && r.username == f.value && EmailOf(r) == Some(email))
            && (f.None? ==> forall r :: r in rows ==> EmailOf(r) != Some(email))
  {
    if rows != [] {
      HolderIs(rows[..|rows| - 1], email);
      assert rows == rows[..|rows| - 1] + [rows[|rows| - 1]];
    }
  }

  lemma {:induction false} NoErrors(rows: seq<Row>, entries: seq<MapEntry>)
    ensures PlanEntries(rows, entries).errors == [] <==> forall e :: e in entries ==> !EntryOutcome(rows, e).Bad?
  {
    if entries != [] {
      NoErrors(rows, entries[..|entries| - 1]);
      assert entries == entries[..|entries| - 1] + [entries[|entries| - 1]];
    }
  }

  lemma {:induction false} NoChanges(rows: seq<Row>, entries: seq<MapEntry>)
    ensures PlanEntries(rows, entries).changes == [] <==> forall e :: e in entries ==> !EntryOutcome(rows, e).Do?
  {
    if entries != [] {
      NoChanges(rows, entries[..|entries| - 1]);
      assert entries == entries[..|entries| - 1] + [entries[|entries| - 1]];
    }
  }

  lemma {:induction false} ChangesAre(rows: seq<Row>, entries: seq<MapEntry>)
    ensures forall c :: c in PlanEntries(rows, entries).changes <==>
              exists e :: e in entries && EntryOutcome(rows, e) == Do(c)
  {
    if entries != [] {
      ChangesAre(rows, entries[..|entries| - 1]);
      assert entries == entries[..|entries| - 1] + [entries[|entries| - 1]];
    }
  }

  predicate Accepted(rows: seq<Row>, entries: seq<MapEntry>, owner: Option<string>) {
    PlanOf(rows, entries, owner).errors == []
  }

  lemma AcceptedMeans(rows: seq<Row>, entries: seq<MapEntry>, owner: Option<string>)
    requires Accepted(rows, entries, owner)
    ensures forall e :: e in entries ==> !EntryOutcome(rows, e).Bad?
    ensures !OwnerOutcome(rows, owner).Bad?
  {
    NoErrors(rows, entries);
  }

  /** An entry's address is free or already the row's own. */
  lemma EntryAddress(rows: seq<Row>, e: MapEntry, i: nat)
    requires UniqueRows(rows) && !EntryOutcome(rows, e).Bad? && i < |rows| && EmailOf(rows[i]) == Some(e.email)
    ensures rows[i].username == e.username
  {
    HolderIs(rows, e.email);
    assert rows[i] in rows;
    var r :| r in rows && r.username == Holder(rows, e.email).value && EmailOf(r) == Some(e.email);
    var j :| 0 <= j < |rows| && rows[j] == r;
    assert i == j;
  }

  lemma TwoRowsApart(rows: seq<Row>, entries: seq<MapEntry>, owner: Option<string>, i: nat, j: nat)
    requires UniqueRows(rows) && MappingOk(entries) && i < |rows| && j < |rows| && i != j
    requires forall e :: e in entries ==> !EntryOutcome(rows, e).Bad?
    requires EntryFor(entries, rows[i].username).Some?
    ensures EmailOf(LinkedRow(rows[i], entries, owner)) != EmailOf(LinkedRow(rows[j], entries, owner))
  {
    var e, f := EntryFor(entries, rows[i].username).value, EntryFor(entries, rows[j].username);
    assert rows[i].username != rows[j].username;
    assert EmailOf(LinkedRow(rows[i], entries, owner)) == Some(e.email);
    if f.Some? {
      assert e.email != f.value.email;
    } else if EmailOf(rows[j]) == Some(e.email) {
      EntryAddress(rows, e, j);
    }
  }

  /** An accepted mapping keeps ids, usernames and e-mails unique. */
  lemma KeepsUnique(rows: seq<Row>, entries: seq<MapEntry>, owner: Option<string>)
    requires UniqueRows(rows) && MappingOk(entries) && Accepted(rows, entries, owner)
    ensures UniqueRows(LinkedRows(rows, entries, owner))
  {
    AcceptedMeans(rows, entries, owner);
    var out := LinkedRows(rows, entries, owner);
    forall i, j | 0 <= i < j < |out| && EmailOf(out[i]).Some?
      ensures EmailOf(out[i]) != EmailOf(out[j])
    {
      if EntryFor(entries, rows[i].username).Some? {
        TwoRowsApart(rows, entries, owner, i, j);
      } else if EntryFor(entries, rows[j].username).Some? {
        TwoRowsApart(rows, entries, owner, j, i);
      }
    }
  }

  /** A row bound to Cognito keeps its lower-case address; no owner is cleared; nothing else moves. */
  lemma KeepsBoundAndOwners(rows: seq<Row>, entries: seq<MapEntry>, owner: Option<string>, i: nat)
    requires UniqueRows(rows) && MappingOk(entries) && Accepted(rows, entries, owner) && i < |rows|
    ensures var r, q := rows[i], LinkedRows(rows, entries, owner)[i];
            && (r.bound ==> EmailOf(q) == EmailOf(r))
            && (r.owner ==> q.owner)
            && (q.owner && !r.owner ==> owner == Some(r.username) && r.active && r.role == OWNER_ROLE)
            && q.id == r.id && q.username == r.username && q.role == r.role
            && q.active == r.active && q.bound == r.bound
  {
    AcceptedMeans(rows, entries, owner);
    ByUserFinds(rows, i);
  }

  /** Planning the same mapping on the result finds nothing to change and nothing wrong. */
  lemma PlanIsIdempotent(rows: seq<Row>, entries: seq<MapEntry>, owner: Option<string>)
    requires UniqueRows(rows) && MappingOk(entries) && Accepted(rows, entries, owner)
    ensures PlanOf(LinkedRows(rows, entries, owner), entries, owner) == Plan([], [])
  {
    AcceptedMeans(rows, entries, owner);
    KeepsUnique(rows, entries, owner);
    var out := LinkedRows(rows, entries, owner);
    forall e | e in entries
      ensures EntryOutcome(out, e) == Same
    {
      EntrySettled(rows, entries, owner, e);
    }
    NoErrors(out, entries);
    NoChanges(out, entries);
    if owner.Some? {
      ByUserIsRow(rows, owner.value);
      var i :| 0 <= i < |rows| && rows[i] == ByUser(rows, owner.value).value;
      ByUserFinds(out, i);
    }
  }

  lemma EntrySettled(rows: seq<Row>, entries: seq<MapEntry>, owner: Option<string>, e: MapEntry)
    requires UniqueRows(rows) && MappingOk(entries) && e in entries && !EntryOutcome(rows, e).Bad?
    requires UniqueRows(LinkedRows(rows, entries, owner))
    ensures EntryOutcome(LinkedRows(rows, entries, owner), e) == Same
  {
    var out := LinkedRows(rows, entries, owner);
    ByUserIsRow(rows, e.username);
    var i :| 0 <= i < |rows| && rows[i] == ByUser(rows, e.username).value;
    ByUserFinds(out, i);
    assert EntryFor(entries, e.username) == Some(e);
    assert EmailOf(out[i]) == Some(e.email) && out[i] in out;
    HolderIs(out, e.email);
    var r :| r in out && r.username == Holder(out, e.email).value && EmailOf(r) == Some(e.email);
    var j :| 0 <= j < |out| && out[j] == r;
    assert i == j;
  }

  // ----- applying

  /** One UPDATE by id. */
  function Changed(r: Row, c: Change): Row {
    if c.id != r.id then r
    else if c.SetOwner? then r.(owner := true)
    else r.(email := Some(c.email), displayName := c.displayName)
  }

  function ChangedBy(r: Row, changes: seq<Change>): Row {
    if changes == [] then r else Changed(ChangedBy(r, changes[..|changes| - 1]), changes[|changes| - 1])
  }

  /** The table after the changes. */
  function AfterChanges(rows: seq<Row>, changes: seq<Change>): (out: seq<Row>)
    ensures |out| == |rows| && forall i :: 0 <= i < |rows| ==> out[i] == ChangedBy(rows[i], changes)
  {
    seq(|rows|, i requires 0 <= i < |rows| => ChangedBy(rows[i], changes))
  }

  lemma ChangedByOneMore(r: Row, changes: seq<Change>, c: Change)
    ensures ChangedBy(r, changes + [c]) == Changed(ChangedBy(r, changes), c)
  {
    assert (changes + [c])[..|changes|] == changes;
  }

  lemma {:induction false} ChangedByKeeps(r: Row, changes: seq<Change>)
    ensures ChangedBy(r, changes).id == r.id
    ensures (forall c :: c in changes ==> c.SetIdentity?) ==> ChangedBy(r, changes).owner == r.owner
  {
    if changes != [] {
      var rest, last := changes[..|changes| - 1], changes[|changes| - 1];
      ChangedByKeeps(r, rest);
      assert last in changes && forall c :: c in rest ==> c in changes;
    }
  }

  lemma {:induction false} EntryForOneMore(entries: seq<MapEntry>, e: MapEntry, username: string)
    ensures EntryFor(entries + [e], username) ==
              (if EntryFor(entries, username).Some? then EntryFor(entries, username)
               else if e.username == username then Some(e) else None)
  {
    if entries == [] {
      assert ([] + [e])[1..] == [];
      assert [e][1..] == [];
    } else {
      EntryForOneMore(entries[1..], e, username);
      assert (entries + [e])[1..] == entries[1..] + [e];
    }
  }

  /** The identity changes of a mapping leave each row with its entry's values. */
  lemma {:induction false} EntriesApply(rows: seq<Row>, entries: seq<MapEntry>, i: nat)
    requires UniqueRows(rows) && DistinctEntries(entries) && i < |rows|
    requires forall e :: e in entries ==> !EntryOutcome(rows, e).Bad?
    ensures ChangedBy(rows[i], PlanEntries(rows, entries).changes) == LinkedRow(rows[i], entries, None)
  {
    if entries != [] {
      var rest, e, r := entries[..|entries| - 1], entries[|entries| - 1], rows[i];
      assert entries == rest + [e];
      EntriesApply(rows, rest, i);
      EntryForOneMore(rest, e, r.username);
      ByUserFinds(rows, i);
      ByUserIsRow(rows, e.username);
      var o := EntryOutcome(rows, e);
      if o.Do? {
        ChangedByOneMore(r, PlanEntries(rows, rest).changes, o.change);
        var j :| 0 <= j < |rows| && rows[j] == ByUser(rows, e.username).value;
        assert o.change.id == r.id <==> j == i;
        ChangedByKeeps(r, PlanEntries(rows, rest).changes);
      }
      if e.username == r.username {
        assert EntryFor(rest, r.username).None?;
      }
    }
  }

  lemma OwnerApplies(rows: seq<Row>, owner: string, i: nat)
    requires UniqueRows(rows) && i < |rows| && !OwnerOutcome(rows, Some(owner)).Bad?
    ensures var o := OwnerOutcome(rows, Some(owner));
            && (o.Do? ==> o.change.SetOwner? && (o.change.id == rows[i].id <==> rows[i].username == owner))
            && (o.Same? && rows[i].username == owner ==> rows[i].owner)
  {
    ByUserFinds(rows, i);
    ByUserIsRow(rows, owner);
    var j :| 0 <= j < |rows| && rows[j] == ByUser(rows, owner).value;
  }

  lemma ChangesApply(rows: seq<Row>, entries: seq<MapEntry>, owner: Option<string>, i: nat)
    requires UniqueRows(rows) && MappingOk(entries) && Accepted(rows, entries, owner) && i < |rows|
    ensures ChangedBy(rows[i], PlanOf(rows, entries, owner).changes) == LinkedRow(rows[i], entries, owner)
  {
    AcceptedMeans(rows, entries, owner);
    EntriesApply(rows, entries, i);
    if owner.Some? {
      OwnerApplies(rows, owner.value, i);
      var o, changes := OwnerOutcome(rows, owner), PlanEntries(rows, entries).changes;
      if o.Do? {
        ChangedByOneMore(rows[i], changes, o.change);
        ChangedByKeeps(rows[i], changes);
      }
    }
  }

  /** The first `m` identity changes are those of some prefix of the mapping. */
  lemma {:induction false} ChangesOfPrefix(rows: seq<Row>, entries: seq<MapEntry>, m: nat) returns (k: nat)
    requires m <= |PlanEntries(rows, entries).changes|
    ensures k <= |entries| && PlanEntries(rows, entries[..k]).changes == PlanEntries(rows, entries).changes[..m]
  {
    if m == |PlanEntries(rows, entries).changes| {
      k := |entries|;
      assert entries[..k] == entries;
    } else {
      var rest := entries[..|entries| - 1];
      k := ChangesOfPrefix(rows, rest, m);
      assert entries[..k] == rest[..k];
    }
  }

  lemma PrefixKeepsUnique(rows: seq<Row>, entries: seq<MapEntry>, k: nat)
    requires UniqueRows(rows) && MappingOk(entries) && k <= |entries|
    requires forall e :: e in entries ==> !EntryOutcome(rows, e).Bad?
    ensures UniqueRows(AfterChanges(rows, PlanEntries(rows, entries[..k]).changes))
  {
    var some := entries[..k];
    NoErrors(rows, some);
    KeepsUnique(rows, some, None);
    forall i | 0 <= i < |rows|
      ensures ChangedBy(rows[i], PlanEntries(rows, some).changes) == LinkedRow(rows[i], some, None)
    {
      EntriesApply(rows, some, i);
    }
    assert AfterChanges(rows, PlanEntries(rows, some).changes) == LinkedRows(rows, some, None);
  }

  /** The unique indexes hold after every single UPDATE of an accepted plan, not only at its end. */
  lemma EveryUpdateKeepsUnique(rows: seq<Row>, entries: seq<MapEntry>, owner: Option<string>, m: nat)
    requires UniqueRows(rows) && MappingOk(entries) && Accepted(rows, entries, owner)
    requires m <= |PlanOf(rows, entries, owner).changes|
    ensures UniqueRows(AfterChanges(rows, PlanOf(rows, entries, owner).changes[..m]))
  {
    AcceptedMeans(rows, entries, owner);
    var all, first := PlanOf(rows, entries, owner).changes, PlanEntries(rows, entries).changes;
    if m <= |first| {
      var k := ChangesOfPrefix(rows, entries, m);
      assert all[..m] == first[..m];
      PrefixKeepsUnique(rows, entries, k);
    } else {
      assert all[..m] == all;
      forall i | 0 <= i < |rows| ensures ChangedBy(rows[i], all) == LinkedRow(rows[i], entries, owner) {
        ChangesApply(rows, entries, owner, i);
      }
      KeepsUnique(rows, entries, owner);
      assert AfterChanges(rows, all) == LinkedRows(rows, entries, owner);
    }
  }

  /** The k-th change, if it grants ownership, finds its row without the flag. */
  predicate Hits(rows: seq<Row>, changes: seq<Change>, k: nat)
    requires k < |changes|
  {
    changes[k].SetOwner? ==>
      exists i :: 0 <= i < |rows| && rows[i].id == changes[k].id && !ChangedBy(rows[i], changes[..k]).owner
  }

  lemma OwnerHits(rows: seq<Row>, entries: seq<MapEntry>, owner: Option<string>, k: nat)
    requires UniqueRows(rows) && k < |PlanOf(rows, entries, owner).changes|
    ensures Hits(rows, PlanOf(rows, entries, owner).changes, k)
  {
    var changes, first := PlanOf(rows, entries, owner).changes, PlanEntries(rows, entries).changes;
    ChangesAre(rows, entries);
    forall n | 0 <= n < |first|
      ensures changes[n] == first[n] && first[n].SetIdentity?
    {
      assert first[n] in first;
      var e :| e in entries && EntryOutcome(rows, e) == Do(first[n]);
    }
    if changes[k].SetOwner? {
      assert changes[..k] == first;
      ByUserIsRow(rows, owner.value);
      var i :| 0 <= i < |rows| && rows[i] == ByUser(rows, owner.value).value;
      ChangedByKeeps(rows[i], first);
    }
  }

  /** The change loop of `_apply`: an UPDATE that a unique index refuses raises, and so does an owner UPDATE
      that does not hit one row. */
  method ApplyChanges(rows: seq<Row>, changes: seq<Change>) returns (cur: seq<Row>, raised: bool)
    requires forall k :: 0 <= k < |changes| ==> Hits(rows, changes, k)
    requires forall m :: 0 <= m <= |changes| ==> UniqueRows(AfterChanges(rows, changes[..m]))
    ensures !raised && cur == AfterChanges(rows, changes)
  {
    raised, cur := false, rows;
    assert AfterChanges(rows, changes[..0]) == rows;
    for k := 0 to |changes|
      invariant !raised && cur == AfterChanges(rows, changes[..k])
    {
      var c := changes[k];
      assert changes[..k + 1] == changes[..k] + [c] && Hits(rows, changes, k);
      forall i | 0 <= i < |rows|
        ensures ChangedBy(rows[i], changes[..k + 1]) == Changed(cur[i], c) && cur[i].id == rows[i].id
      {
        ChangedByOneMore(rows[i], changes[..k], c);
        ChangedByKeeps(rows[i], changes[..k]);
      }
      if c.SetOwner? && !(exists i :: 0 <= i < |cur| && cur[i].id == c.id && !cur[i].owner) {
        raised := true;
      }
      cur := seq(|cur|, i requires 0 <= i < |cur| => Changed(cur[i], c));
      assert cur == AfterChanges(rows, changes[..k + 1]);
      if !UniqueRows(cur) {
        raised := true;
      }
    }
    assert changes[..|changes|] == changes;
  }

  /** `_apply`: the plan is computed on the locked rows; with an error nothing is written. */
  method Apply(rows: seq<Row>, entries: seq<MapEntry>, owner: Option<string>)
      returns (plan: Plan, cur: seq<Row>, raised: bool)
    requires UniqueRows(rows) && MappingOk(entries)
    ensures plan == PlanOf(rows, entries, owner)
    ensures !raised && cur == if plan.errors == [] then LinkedRows(rows, entries, owner) else rows
  {
    plan := ComputePlan(rows, entries, owner);
    raised, cur := false, rows;
    if plan.errors == [] {
      forall k | 0 <= k < |plan.changes|
        ensures Hits(rows, plan.changes, k)
      {
        OwnerHits(rows, entries, owner, k);
      }
      forall m | 0 <= m <= |plan.changes|
        ensures UniqueRows(AfterChanges(rows, plan.changes[..m]))
      {
        EveryUpdateKeepsUnique(rows, entries, owner, m);
      }
      cur, raised := ApplyChanges(rows, plan.changes);
      forall i | 0 <= i < |rows|
        ensures cur[i] == LinkedRow(rows[i], entries, owner)
      {
        ChangesApply(rows, entries, owner, i);
      }
    }
  }
}
