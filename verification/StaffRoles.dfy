/** The WORKFORCE group tables of api/core/staff_identity.py and services/staff_reconcile.py. */
module StaffRoles {
  import opened Common

  datatype GroupRole = GroupRole(group: string, role: string)

  /** A table whose groups are named after their roles. */
  function Prefixed(prefix: string, roles: seq<string>): (table: seq<GroupRole>)
    ensures |table| == |roles|
    ensures forall i :: 0 <= i < |roles| ==> table[i].role == roles[i] && table[i].group == prefix + roles[i]
  {
    seq(|roles|, i requires 0 <= i < |roles| => GroupRole(prefix + roles[i], roles[i]))
  }

  /** Highest role first. */
  const CIS_ROLES: seq<GroupRole> := Prefixed("cis-",
    ["admin", "content_lead", "ai_ops", "customer_success", "finance", "tenant_qa", "support", "content"])

  const BOOKING_ROLES: seq<GroupRole> := Prefixed("booking-",
    ["admin", "sales", "contracting", "content_creator", "finance"])

  const CRM_ROLES: seq<GroupRole> := [
    GroupRole("crm-platform-admin", "platform_admin"),
    GroupRole("crm-ops", "ops"),
    GroupRole("crm-support", "support")]

  /** The roles of `table` whose group is held, in table order. */
  function HeldRoles(table: seq<GroupRole>, groups: set<string>): seq<string> {
    if table == [] then []
    else (if table[0].group in groups then [table[0].role] else []) + HeldRoles(table[1..], groups)
  }

  /** The groups of `table` that are held, in table order. */
  function HeldGroups(table: seq<GroupRole>, groups: set<string>): seq<string> {
    if table == [] then []
    else (if table[0].group in groups then [table[0].group] else []) + HeldGroups(table[1..], groups)
  }

  /** The roles of `table` that are in `roles`, in table order. */
  function ListedRoles(table: seq<GroupRole>, roles: set<string>): seq<string> {
    if table == [] then []
    else (if table[0].role in roles then [table[0].role] else []) + ListedRoles(table[1..], roles)
  }

  /** `role_from_groups`: the highest CIS role among the held groups. */
  function RoleFromGroups(groups: set<string>): Option<string> {
    var held := HeldRoles(CIS_ROLES, groups);
    if held == [] then None else Some(held[0])
  }

  /** The held groups of `table` are exactly those of `roles`. */
  predicate GroupsMatch(table: seq<GroupRole>, groups: set<string>, roles: set<string>) {
    forall i :: 0 <= i < |table| ==> (table[i].group in groups <==> table[i].role in roles)
  }

  predicate HasRole(table: seq<GroupRole>, role: string) {
    exists i :: 0 <= i < |table| && table[i].role == role
  }

  predicate DistinctRoles(table: seq<GroupRole>) {
    forall i, j :: 0 <= i < j < |table| ==> table[i].role != table[j].role
  }

  /** Comparing the two role lists compares the sets, whatever a role outside the table says. */
  lemma {:induction false} ListsMatch(table: seq<GroupRole>, groups: set<string>, roles: set<string>)
    requires DistinctRoles(table)
    ensures HeldRoles(table, groups) == ListedRoles(table, roles) <==> GroupsMatch(table, groups, roles)
  {
    if table != [] {
      var rest := table[1..];
      ListsMatch(rest, groups, roles);
      HeldFromTable(rest, groups);
      ListedFromTable(rest, roles);
      assert forall i :: 0 <= i < |rest| ==> rest[i] == table[i + 1];
      assert GroupsMatch(table, groups, roles) <==>
          (table[0].group in groups <==> table[0].role in roles) && GroupsMatch(rest, groups, roles);
      var r, a, b := table[0].role, HeldRoles(rest, groups), ListedRoles(rest, roles);
      assert r !in a && r !in b && [] + a == a && [] + b == b;
      assert [r] + a != b && a != [r] + b by {
        assert r in [r] + a && r in [r] + b;
      }
      assert [r] + a == [r] + b <==> a == b by {
        assert ([r] + a)[1..] == a && ([r] + b)[1..] == b;
      }
    }
  }

  lemma {:induction false} HeldFromTable(table: seq<GroupRole>, groups: set<string>)
    ensures forall r :: r in HeldRoles(table, groups) ==> HasRole(table, r)
  {
    if table != [] {
      HeldFromTable(table[1..], groups);
    }
  }

  lemma {:induction false} ListedFromTable(table: seq<GroupRole>, roles: set<string>)
    ensures forall r :: r in ListedRoles(table, roles) ==> HasRole(table, r)
  {
    if table != [] {
      ListedFromTable(table[1..], roles);
    }
  }

  lemma {:induction false} ListedOne(table: seq<GroupRole>, role: string)
    requires DistinctRoles(table)
    ensures ListedRoles(table, {role}) == if HasRole(table, role) then [role] else []
  {
    if table != [] {
      var rest := table[1..];
      ListedOne(rest, role);
      assert forall i :: 0 <= i < |rest| ==> rest[i] == table[i + 1];
      assert HasRole(table, role) <==> table[0].role == role || HasRole(rest, role);
    }
  }

  /** A list of one role is held exactly when that role's group is the only one held. */
  lemma HeldOne(table: seq<GroupRole>, groups: set<string>, role: string)
    requires DistinctRoles(table)
    ensures HeldRoles(table, groups) == [role] <==> HasRole(table, role) && GroupsMatch(table, groups, {role})
  {
    ListsMatch(table, groups, {role});
    ListedOne(table, role);
    HeldFromTable(table, groups);
  }

  lemma HeldNone(table: seq<GroupRole>, groups: set<string>)
    requires DistinctRoles(table)
    ensures HeldRoles(table, groups) == [] <==> GroupsMatch(table, groups, {})
  {
    ListsMatch(table, groups, {});
    ListedNone(table);
  }

  lemma {:induction false} ListedNone(table: seq<GroupRole>)
    ensures ListedRoles(table, {}) == []
  {
    if table != [] {
      ListedNone(table[1..]);
    }
  }

  lemma {:induction false} HeldSameShape(table: seq<GroupRole>, groups: set<string>, prefix: string)
    requires forall i :: 0 <= i < |table| ==> table[i].group == prefix + table[i].role
    ensures |HeldGroups(table, groups)| == |HeldRoles(table, groups)|
    ensures forall i :: 0 <= i < |HeldRoles(table, groups)| ==>
              HeldGroups(table, groups)[i] == prefix + HeldRoles(table, groups)[i]
  {
    if table != [] {
      HeldSameShape(table[1..], groups, prefix);
    }
  }

  /** The highest held role is `role`, and no group but its own is held: exactly its group is held. */
  lemma OneGroupHeld(table: seq<GroupRole>, prefix: string, groups: set<string>, role: string)
    requires DistinctRoles(table) && forall i :: 0 <= i < |table| ==> table[i].group == prefix + table[i].role
    ensures var held, own := HeldRoles(table, groups), HeldGroups(table, groups);
            (held != [] && held[0] == role && |own| <= 1 && (own == [] || own == [prefix + role]))
            <==> HasRole(table, role) && GroupsMatch(table, groups, {role})
  {
    HeldSameShape(table, groups, prefix);
    HeldOne(table, groups, role);
    var held, own := HeldRoles(table, groups), HeldGroups(table, groups);
    if |held| == 1 && held[0] == role {
      assert held == [role];
      assert own == [prefix + role];
    }
  }

  lemma TablesDistinct()
    ensures DistinctRoles(CIS_ROLES) && DistinctRoles(BOOKING_ROLES) && DistinctRoles(CRM_ROLES)
  {
  }
}
