/**
 The staff directory reconcile of services/staff_reconcile.py: the WORKFORCE pool against the
 directory rows. `ParseUsers` and `Reconcile` keep the source's loops; the theorems say what a clean
 report means.

 A user or row attribute the source reads with `.get` is an `Option`; an empty string counts as
 missing where Python's truth test makes it so (`Present`).
 */
module StaffReconcile {
  import opened Common
  import opened StaffRoles

  const CONFIRMED := "CONFIRMED"
  const PENDING_STATUS := "FORCE_CHANGE_PASSWORD"
  const BREAKGLASS_GROUPS: set<string> := {"cis-admin", "booking-admin"}

  // ----- the pool

  datatype RawUser = RawUser(username: string, sub: Option<string>, email: Option<string>,
                             status: Option<string>, enabled: bool)
  datatype Member = Member(username: string, sub: Option<string>)
  /** Per group its members, or None when the pool has no such group. */
  type RawGroups = map<string, Option<seq<Member>>>

  datatype CognitoUser = CognitoUser(username: string, sub: Option<string>, email: Option<string>,
                                     status: string, enabled: bool, groups: set<string>, emailAscii: bool)

  function KeyOf(username: string, sub: Option<string>): string {
    if Present(sub) then sub.value else username
  }

  function RawKey(r: RawUser): string {
    KeyOf(r.username, r.sub)
  }

  /** The last listed user with this key: a later entry of the dict replaces an earlier one. */
  function LastWithKey(raw: seq<RawUser>, key: string): (i: Option<nat>)
    ensures i.Some? ==> i.value < |raw| && RawKey(raw[i.value]) == key
    ensures i.None? ==> forall r :: r in raw ==> RawKey(r) != key
  {
    if raw == [] then None
    else if RawKey(raw[|raw| - 1]) == key then Some(|raw| - 1)
    else
      assert raw == raw[..|raw| - 1] + [raw[|raw| - 1]];
      LastWithKey(raw[..|raw| - 1], key)
  }

  function LastWithName(raw: seq<RawUser>, name: string): (i: Option<nat>)
    ensures i.Some? ==> i.value < |raw|
  {
    if raw == [] then None
    else if raw[|raw| - 1].username == name then Some(|raw| - 1)
    else LastWithName(raw[..|raw| - 1], name)
  }

  /** The listed user a group member is: by sub, else by username. */
  function Target(raw: seq<RawUser>, m: Member): Option<nat> {
    var bySub := if Present(m.sub) then LastWithKey(raw, m.sub.value) else None;
    if bySub.Some? then bySub else LastWithName(raw, m.username)
  }

  predicate Lists(raw: seq<RawUser>, members: seq<Member>, i: nat) {
    exists m :: m in members && Target(raw, m) == Some(i)
  }

  function GroupsOf(raw: seq<RawUser>, groups: RawGroups, i: nat): set<string> {
    set g | g in groups && groups[g].Some? && Lists(raw, groups[g].value, i)
  }

  predicate IsAscii(s: string) {
    forall c :: c in s ==> c as int < 128
  }

  function UserFrom(r: RawUser, groups: set<string>): CognitoUser {
    var attr := NormEmail(r.email);
    var email := if attr.Some? then attr else if '@' in r.username then NormEmail(Some(r.username)) else None;
    CognitoUser(r.username, r.sub, email, if Present(r.status) then r.status.value else "UNKNOWN",
                r.enabled, groups, r.email.Some? && IsAscii(r.email.value))
  }

  /** `parse_users`. A replaced entry of the dict is still reachable by username, so the source may add
      groups to an object that is no longer listed; users are therefore told apart by list position. */
  method ParseUsers(raw: seq<RawUser>, groups: RawGroups) returns (users: map<string, CognitoUser>, keys: seq<string>)
    ensures forall k :: k in users <==> LastWithKey(raw, k).Some?
    ensures forall k :: k in users ==>
              var i := LastWithKey(raw, k).value;
              users[k] == UserFrom(raw[i], GroupsOf(raw, groups, i))
    ensures Distinct(keys) && forall k :: k in keys <==> k in users
  {
    var byKey, byName;
    byKey, byName, keys := IndexUsers(raw);
    var held: seq<set<string>> := seq(|raw|, _ => {});
    var todo := groups.Keys;
    while todo != {}
      invariant todo <= groups.Keys && |held| == |raw|
      invariant forall i: nat, g :: i < |raw| ==> (g in held[i] <==> g !in todo && g in GroupsOf(raw, groups, i))
      decreases todo
    {
      var g :| g in todo;
      todo := todo - {g};
      if groups[g].Some? {
        held := AddGroup(raw, byKey, byName, held, g, groups[g].value);
      }
    }
    users := map k | k in byKey :: UserFrom(raw[byKey[k]], held[byKey[k]]);
    forall k | k in users
      ensures users[k] == UserFrom(raw[byKey[k]], GroupsOf(raw, groups, byKey[k]))
    {
      assert held[byKey[k]] == GroupsOf(raw, groups, byKey[k]);
    }
  }

  method IndexUsers(raw: seq<RawUser>) returns (byKey: map<string, nat>, byName: map<string, nat>, keys: seq<string>)
    ensures forall k :: Get(byKey, k) == LastWithKey(raw, k)
    ensures forall k :: k in byKey <==> LastWithKey(raw, k).Some?
    ensures forall k :: k in byKey ==> byKey[k] < |raw| && LastWithKey(raw, k) == Some(byKey[k])
    ensures forall n :: Get(byName, n) == LastWithName(raw, n)
    ensures Distinct(keys) && forall k :: k in keys <==> k in byKey
  {
    byKey, byName, keys := map[], map[], [];
    for i := 0 to |raw|
      invariant forall k :: Get(byKey, k) == LastWithKey(raw[..i], k)
      invariant forall n :: Get(byName, n) == LastWithName(raw[..i], n)
      invariant Distinct(keys) && forall k :: k in keys <==> k in byKey
    {
      assert raw[..i + 1][..i] == raw[..i];
      if RawKey(raw[i]) !in byKey {
        keys := keys + [RawKey(raw[i])];
      }
      byKey, byName := byKey[RawKey(raw[i]) := i], byName[raw[i].username := i];
    }
    assert raw[..|raw|] == raw;
    assert forall k :: k in byKey ==> Get(byKey, k) == LastWithKey(raw, k);
  }

  method AddGroup(raw: seq<RawUser>, byKey: map<string, nat>, byName: map<string, nat>,
                  before: seq<set<string>>, g: string, members: seq<Member>) returns (held: seq<set<string>>)
    requires |before| == |raw|
    requires forall k :: Get(byKey, k) == LastWithKey(raw, k)
    requires forall n :: Get(byName, n) == LastWithName(raw, n)
    ensures |held| == |raw|
    ensures forall i: nat, h :: i < |raw| ==> (h in held[i] <==> h in before[i] || (h == g && Lists(raw, members, i)))
  {
    held := before;
    for j := 0 to |members|
      invariant |held| == |raw|
      invariant forall i: nat, h :: i < |raw| ==>
                  (h in held[i] <==> h in before[i] || (h == g && Lists(raw, members[..j], i)))
    {
      var m := members[j];
      assert members[..j + 1] == members[..j] + [m];
      assert forall i: nat :: Lists(raw, members[..j + 1], i) <==>
                                Lists(raw, members[..j], i) || Target(raw, m) == Some(i);
      var u := if Present(m.sub) then Get(byKey, m.sub.value) else None;
      if u.None? {
        u := Get(byName, m.username);
      }
      assert u == Target(raw, m);
      if u.Some? {
        held := held[u.value := held[u.value] + {g}];
      }
    }
    assert members[..|members|] == members;
  }

  // ----- the directory and the run

  datatype Row = Row(id: string, username: string, role: string, active: bool, email: Option<string>,
                     iss: Option<string>, sub: Option<string>)
  datatype Grant = Grant(rowId: string, app: string, role: string)
  datatype Directory = Directory(rows: seq<Row>, grants: seq<Grant>)

  datatype KnownE2E = KnownE2E(groups: set<string>, directoryRole: Option<string>)
  datatype Config = Config(issuer: string, breakglass: string, knownOn: bool,
                           known: map<string, KnownE2E>, crmDirectory: bool)
  datatype Pool = Pool(users: map<string, CognitoUser>, keys: seq<string>, groupsMissing: set<string>)

  /** What `ParseUsers` makes: every user under its own key, and `keys` listing them once each. */
  ghost predicate PoolOk(p: Pool) {
    && Distinct(p.keys)
    && (forall k :: k in p.keys <==> k in p.users)
    && (forall k :: k in p.users ==> KeyOf(p.users[k].username, p.users[k].sub) == k)
  }

  /** The row bound to an identity; the last one wins, as in the source's dict. */
  function ByIdentity(rows: seq<Row>, iss: string, sub: string): Option<Row> {
    if rows == [] then None
    else
      var r := rows[|rows| - 1];
      if Present(r.sub) && r.iss == Some(iss) && r.sub == Some(sub) then Some(r)
      else ByIdentity(rows[..|rows| - 1], iss, sub)
  }

  function ByEmail(rows: seq<Row>, email: string): Option<Row> {
    if rows == [] then None
    else
      var r := rows[|rows| - 1];
      if NormEmail(r.email) == Some(email) then Some(r) else ByEmail(rows[..|rows| - 1], email)
  }

  function BookingGrant(grants: seq<Grant>, rowId: string): Option<string> {
    if grants == [] then None
    else
      var g := grants[|grants| - 1];
      if g.app == "booking" && g.rowId == rowId then Some(g.role) else BookingGrant(grants[..|grants| - 1], rowId)
  }

  function CrmGrants(grants: seq<Grant>, rowId: string): set<string> {
    set g | g in grants && g.app == "crm" && g.rowId == rowId :: g.role
  }

  predicate IsBreakglass(cfg: Config, u: CognitoUser) {
    u.email == Some(Lower(cfg.breakglass)) || Lower(u.username) == Lower(cfg.breakglass)
  }

  // ----- one user

  datatype Standing = NoRow | BoundToOther(row: Row) | Stands(row: Row)

  function Locate(cfg: Config, rows: seq<Row>, u: CognitoUser): Standing {
    var bound := if Present(u.sub) then ByIdentity(rows, cfg.issuer, u.sub.value) else None;
    if bound.Some? then Stands(bound.value)
    else
      var candidate := if u.email.Some? then ByEmail(rows, u.email.value) else None;
      if candidate.None? then NoRow
      else if Present(candidate.value.sub) then BoundToOther(candidate.value)
      else Stands(candidate.value)
  }

  datatype DriftKind = CisRole | BookingRole | CrmRole | EmailDiffers | CognitoDisabled
  datatype Drift = Drift(rowId: string, kind: DriftKind)
  datatype Reason = ReasonNoRow | ReasonOtherSub | ReasonInactive
  datatype Without = Without(key: string, reason: Reason)

  /** `_row_drift`. The source sorts the held groups by the same table before it filters them. */
  function RowDrift(cfg: Config, dir: Directory, row: Row, u: CognitoUser): seq<Drift> {
    var cis := HeldGroups(CIS_ROLES, u.groups);
    var wrongGroup := cis != [] && cis != ["cis-" + row.role];
    var grant := BookingGrant(dir.grants, row.id);
    var rowEmail := NormEmail(row.email);
    (if RoleFromGroups(u.groups) != Some(row.role) || |cis| > 1 || wrongGroup then [Drift(row.id, CisRole)] else [])
    + (if HeldRoles(BOOKING_ROLES, u.groups) != (if Present(grant) then [grant.value] else [])
       then [Drift(row.id, BookingRole)] else [])
    + (if cfg.crmDirectory
          && HeldRoles(CRM_ROLES, u.groups) != ListedRoles(CRM_ROLES, CrmGrants(dir.grants, row.id))
       then [Drift(row.id, CrmRole)] else [])
    + (if u.email.Some? && rowEmail.Some? && u.email != rowEmail then [Drift(row.id, EmailDiffers)] else [])
    + (if !u.enabled then [Drift(row.id, CognitoDisabled)] else [])
  }

  function KnownSpec(cfg: Config, u: CognitoUser): Option<KnownE2E> {
    if cfg.knownOn && u.emailAscii && u.email.Some? then Get(cfg.known, u.email.value) else None
  }

  /** What one user adds to the report. */
  datatype Tally = Tally(without: seq<Without>, drift: seq<Drift>, status: seq<string>, pending: seq<string>,
                         known: seq<string>)

  const NOTHING := Tally([], [], [], [], [])

  function Assess(cfg: Config, dir: Directory, key: string, u: CognitoUser): Tally {
    if IsBreakglass(cfg, u) then NOTHING
    else
      var spec := KnownSpec(cfg, u);
      match Locate(cfg, dir.rows, u)
      case NoRow =>
        if spec.Some? && spec.value.directoryRole.None? && u.groups == spec.value.groups
        then NOTHING.(known := [key])
        else NOTHING.(without := [Without(key, ReasonNoRow)])
      case BoundToOther(_) => NOTHING.(without := [Without(key, ReasonOtherSub)])
      case Stands(row) =>
        if !row.active then
          if u.enabled then NOTHING.(without := [Without(key, ReasonInactive)]) else NOTHING
        else
          var drift := RowDrift(cfg, dir, row, u);
          var open := u.enabled && u.status != CONFIRMED;
          Tally([], drift,
                if open && u.status != PENDING_STATUS then [key] else [],
                if open && u.status == PENDING_STATUS then [key] else [],
                if spec.Some? && spec.value.directoryRole == Some(row.role) && drift == []
                   && u.groups == spec.value.groups then [key] else [])
  }

  function Plus(a: Tally, b: Tally): Tally {
    Tally(a.without + b.without, a.drift + b.drift, a.status + b.status, a.pending + b.pending, a.known + b.known)
  }

  function TallyUsers(cfg: Config, dir: Directory, users: map<string, CognitoUser>, keys: seq<string>): Tally
    requires forall k :: k in keys ==> k in users
  {
    if keys == [] then NOTHING
    else
      var k := keys[|keys| - 1];
      Plus(TallyUsers(cfg, dir, users, keys[..|keys| - 1]), Assess(cfg, dir, k, users[k]))
  }

  // ----- rows, readiness, break-glass

  datatype Unknown = OtherIssuer(username: string) | UnknownSub(username: string)
  datatype RowTally = RowTally(unknown: seq<Unknown>, missingEmail: seq<string>, missingSub: seq<string>)

  function AssessRow(cfg: Config, users: map<string, CognitoUser>, r: Row): RowTally {
    if !r.active then RowTally([], [], [])
    else RowTally(
           if !Present(r.sub) then []
           else if r.iss != Some(cfg.issuer) then [OtherIssuer(r.username)]
           else if r.sub.value !in users then [UnknownSub(r.username)] else [],
           if NormEmail(r.email).None? then [r.username] else [],
           if !Present(r.sub) then [r.username] else [])
  }

  function TallyRows(cfg: Config, users: map<string, CognitoUser>, rows: seq<Row>): RowTally {
    if rows == [] then RowTally([], [], [])
    else
      var a, b := TallyRows(cfg, users, rows[..|rows| - 1]), AssessRow(cfg, users, rows[|rows| - 1]);
      RowTally(a.unknown + b.unknown, a.missingEmail + b.missingEmail, a.missingSub + b.missingSub)
  }

  datatype BreakglassIssue = NotFound | NotConfirmed | NotDisabled | MissingGroups(groups: set<string>)

  function FirstBreakglass(cfg: Config, users: map<string, CognitoUser>, keys: seq<string>): Option<CognitoUser>
    requires forall k :: k in keys ==> k in users
  {
    if keys == [] then None
    else if IsBreakglass(cfg, users[keys[0]]) then Some(users[keys[0]])
    else FirstBreakglass(cfg, users, keys[1..])
  }

  function BreakglassIssues(u: Option<CognitoUser>): seq<BreakglassIssue> {
    if u.None? then [NotFound]
    else
      (if u.value.status != CONFIRMED then [NotConfirmed] else [])
      + (if u.value.enabled then [NotDisabled] else [])
      + (if BREAKGLASS_GROUPS <= u.value.groups then [] else [MissingGroups(BREAKGLASS_GROUPS - u.value.groups)])
  }

  datatype Report = Report(users: Tally, rows: RowTally, breakglass: seq<BreakglassIssue>, groupsMissing: set<string>)
  {
    function DriftTotal(): nat {
      |users.without| + |rows.unknown| + |users.drift| + |users.status| + |breakglass| + |groupsMissing|
    }

    predicate Ready() {
      rows.missingEmail == [] && rows.missingSub == []
    }
  }

  ghost function ReportOf(cfg: Config, pool: Pool, dir: Directory): Report
    requires PoolOk(pool)
  {
    Report(TallyUsers(cfg, dir, pool.users, pool.keys), TallyRows(cfg, pool.users, dir.rows),
           BreakglassIssues(FirstBreakglass(cfg, pool.users, pool.keys)), pool.groupsMissing)
  }

  /** `reconcile`: the loops over the users and the active rows. */
  method Reconcile(cfg: Config, pool: Pool, dir: Directory) returns (report: Report)
    requires PoolOk(pool)
    ensures report == ReportOf(cfg, pool, dir)
  {
    var t := NOTHING;
    for i := 0 to |pool.keys|
      invariant t == TallyUsers(cfg, dir, pool.users, pool.keys[..i])
    {
      assert pool.keys[..i + 1][..i] == pool.keys[..i];
      t := Plus(t, Assess(cfg, dir, pool.keys[i], pool.users[pool.keys[i]]));
    }
    assert pool.keys[..|pool.keys|] == pool.keys;
    var unknown, missingEmail, missingSub := [], [], [];
    for i := 0 to |dir.rows|
      invariant RowTally(unknown, missingEmail, missingSub) == TallyRows(cfg, pool.users, dir.rows[..i])
    {
      assert dir.rows[..i + 1][..i] == dir.rows[..i];
      var a := AssessRow(cfg, pool.users, dir.rows[i]);
      unknown, missingEmail := unknown + a.unknown, missingEmail + a.missingEmail;
      missingSub := missingSub + a.missingSub;
    }
    assert dir.rows[..|dir.rows|] == dir.rows;
    report := Report(t, RowTally(unknown, missingEmail, missingSub),
                     BreakglassIssues(FirstBreakglass(cfg, pool.users, pool.keys)), pool.groupsMissing);
  }

  // ----- what agreement means, without the loops and the lookups

  /** The directory keys the source relies on: migration 247's two unique indexes. */
  predicate UniqueKeys(rows: seq<Row>) {
    && (forall i, j :: 0 <= i < j < |rows| && Present(rows[i].sub) && rows[i].sub == rows[j].sub ==>
          rows[i].iss != rows[j].iss)
    && (forall i, j :: 0 <= i < j < |rows| && NormEmail(rows[i].email).Some? ==>
          NormEmail(rows[i].email) != NormEmail(rows[j].email))
  }

  predicate BoundTo(cfg: Config, r: Row, u: CognitoUser) {
    Present(u.sub) && r.iss == Some(cfg.issuer) && r.sub == u.sub
  }

  predicate SameEmail(r: Row, u: CognitoUser) {
    u.email.Some? && NormEmail(r.email) == u.email
  }

  ghost predicate StandsFor(cfg: Config, rows: seq<Row>, r: Row, u: CognitoUser) {
    BoundTo(cfg, r, u) || ((forall q :: q in rows ==> !BoundTo(cfg, q, u)) && SameEmail(r, u) && !Present(r.sub))
  }

  ghost predicate Stranger(cfg: Config, rows: seq<Row>, u: CognitoUser) {
    forall q :: q in rows ==> !BoundTo(cfg, q, u) && !SameEmail(q, u)
  }

  /** The groups the person holds are exactly those the row's role and grants stand for. */
  predicate SameAccess(cfg: Config, dir: Directory, r: Row, u: CognitoUser) {
    var grant := BookingGrant(dir.grants, r.id);
    && HasRole(CIS_ROLES, r.role) && GroupsMatch(CIS_ROLES, u.groups, {r.role})
    && (Present(grant) ==> HasRole(BOOKING_ROLES, grant.value))
    && GroupsMatch(BOOKING_ROLES, u.groups, if Present(grant) then {grant.value} else {})
    && (cfg.crmDirectory ==> GroupsMatch(CRM_ROLES, u.groups, CrmGrants(dir.grants, r.id)))
    && (u.email.Some? && NormEmail(r.email).Some? ==> SameEmail(r, u))
  }

  predicate StatusFine(u: CognitoUser) {
    u.status == CONFIRMED || u.status == PENDING_STATUS
  }

  /** Not in the directory by design: a known E2E account with exactly its allowed groups. */
  ghost predicate Excused(cfg: Config, rows: seq<Row>, u: CognitoUser) {
    var spec := KnownSpec(cfg, u);
    spec.Some? && spec.value.directoryRole.None? && u.groups == spec.value.groups && Stranger(cfg, rows, u)
  }

  ghost predicate UserAgrees(cfg: Config, dir: Directory, u: CognitoUser) {
    || IsBreakglass(cfg, u)
    || Excused(cfg, dir.rows, u)
    || exists r :: r in dir.rows && StandsFor(cfg, dir.rows, r, u) && r.active == u.enabled
                   && (u.enabled ==> SameAccess(cfg, dir, r, u) && StatusFine(u))
  }

  predicate RowAgrees(cfg: Config, users: map<string, CognitoUser>, r: Row) {
    r.active ==> NormEmail(r.email).Some? && Present(r.sub) && r.iss == Some(cfg.issuer) && r.sub.value in users
  }

  predicate BreakglassFine(u: Option<CognitoUser>) {
    u.Some? && u.value.status == CONFIRMED && !u.value.enabled && BREAKGLASS_GROUPS <= u.value.groups
  }

  ghost predicate Agreement(cfg: Config, pool: Pool, dir: Directory)
    requires PoolOk(pool)
  {
    && (forall k :: k in pool.users ==> UserAgrees(cfg, dir, pool.users[k]))
    && (forall r :: r in dir.rows ==> RowAgrees(cfg, pool.users, r))
    && BreakglassFine(FirstBreakglass(cfg, pool.users, pool.keys))
    && pool.groupsMissing == {}
  }

  // ----- lookups find what they should

  lemma {:induction false} ByIdentityFinds(rows: seq<Row>, iss: string, sub: string)
    requires sub != ""
    ensures var f := ByIdentity(rows, iss, sub);
            (f.Some? ==> f.value in rows && f.value.iss == Some(iss) && f.value.sub == Some(sub))
            && (f.None? ==> forall r :: r in rows ==> !(r.iss == Some(iss) && r.sub == Some(sub)))
  {
    if rows != [] {
      ByIdentityFinds(rows[..|rows| - 1], iss, sub);
      assert rows == rows[..|rows| - 1] + [rows[|rows| - 1]];
    }
  }

  lemma {:induction false} ByEmailFinds(rows: seq<Row>, email: string)
    ensures var f := ByEmail(rows, email);
            (f.Some? ==> f.value in rows && NormEmail(f.value.email) == Some(email))
            && (f.None? ==> forall r :: r in rows ==> NormEmail(r.email) != Some(email))
  {
    if rows != [] {
      ByEmailFinds(rows[..|rows| - 1], email);
      assert rows == rows[..|rows| - 1] + [rows[|rows| - 1]];
    }
  }

  lemma LocateMeaning(cfg: Config, rows: seq<Row>, u: CognitoUser)
    requires UniqueKeys(rows)
    ensures Locate(cfg, rows, u).NoRow? <==> Stranger(cfg, rows, u)
    ensures forall r :: r in rows ==> (StandsFor(cfg, rows, r, u) <==> Locate(cfg, rows, u) == Stands(r))
    ensures Locate(cfg, rows, u).Stands? ==> Locate(cfg, rows, u).row in rows
  {
    if Present(u.sub) {
      ByIdentityFinds(rows, cfg.issuer, u.sub.value);
    }
    if u.email.Some? {
      ByEmailFinds(rows, u.email.value);
    }
  }

  lemma RowDriftMeaning(cfg: Config, dir: Directory, row: Row, u: CognitoUser)
    ensures RowDrift(cfg, dir, row, u) == [] <==> SameAccess(cfg, dir, row, u) && u.enabled
  {
    TablesDistinct();
    OneGroupHeld(CIS_ROLES, "cis-", u.groups, row.role);
    var grant := BookingGrant(dir.grants, row.id);
    if Present(grant) {
      HeldOne(BOOKING_ROLES, u.groups, grant.value);
    } else {
      HeldNone(BOOKING_ROLES, u.groups);
    }
    ListsMatch(CRM_ROLES, u.groups, CrmGrants(dir.grants, row.id));
  }

  lemma AssessMeaning(cfg: Config, dir: Directory, key: string, u: CognitoUser)
    requires UniqueKeys(dir.rows)
    ensures var a := Assess(cfg, dir, key, u);
            a.without == [] && a.drift == [] && a.status == [] <==> UserAgrees(cfg, dir, u)
  {
    LocateMeaning(cfg, dir.rows, u);
    match Locate(cfg, dir.rows, u)
    case NoRow =>
    case BoundToOther(_) =>
    case Stands(row) => RowDriftMeaning(cfg, dir, row, u);
  }

  lemma {:induction false} TallyUsersMeaning(cfg: Config, dir: Directory, users: map<string, CognitoUser>,
                                             keys: seq<string>)
    requires UniqueKeys(dir.rows) && forall k :: k in keys ==> k in users
    ensures var t := TallyUsers(cfg, dir, users, keys);
            t.without == [] && t.drift == [] && t.status == []
            <==> forall k :: k in keys ==> UserAgrees(cfg, dir, users[k])
  {
    if keys != [] {
      var k, rest := keys[|keys| - 1], keys[..|keys| - 1];
      TallyUsersMeaning(cfg, dir, users, rest);
      AssessMeaning(cfg, dir, k, users[k]);
      assert keys == rest + [k];
    }
  }

  lemma {:induction false} TallyRowsMeaning(cfg: Config, users: map<string, CognitoUser>, rows: seq<Row>)
    ensures var t := TallyRows(cfg, users, rows);
            t.unknown == [] && t.missingEmail == [] && t.missingSub == []
            <==> forall r :: r in rows ==> RowAgrees(cfg, users, r)
  {
    if rows != [] {
      var r, rest := rows[|rows| - 1], rows[..|rows| - 1];
      TallyRowsMeaning(cfg, users, rest);
      assert rows == rest + [r];
      var a := AssessRow(cfg, users, r);
      assert a.unknown == [] && a.missingEmail == [] && a.missingSub == [] <==> RowAgrees(cfg, users, r);
    }
  }

  /** A report with no drift and a ready directory says exactly that pool and directory agree. */
  lemma CleanReportIffAgreement(cfg: Config, pool: Pool, dir: Directory)
    requires PoolOk(pool) && UniqueKeys(dir.rows)
    ensures ReportOf(cfg, pool, dir).DriftTotal() == 0 && ReportOf(cfg, pool, dir).Ready()
            <==> Agreement(cfg, pool, dir)
  {
    TallyUsersMeaning(cfg, dir, pool.users, pool.keys);
    TallyRowsMeaning(cfg, pool.users, dir.rows);
  }

  // ----- the bijection

  /** The enabled pool users that should have a directory row. */
  ghost function People(cfg: Config, pool: Pool, dir: Directory): set<string> {
    set k | k in pool.users && pool.users[k].enabled && !IsBreakglass(cfg, pool.users[k])
            && !Excused(cfg, dir.rows, pool.users[k])
  }

  /** The positions of the active rows that are not the break-glass account's. */
  function StaffRows(cfg: Config, pool: Pool, dir: Directory): set<nat> {
    set i: nat | i < |dir.rows| && dir.rows[i].active
                 && !(exists k :: k in pool.users && IsBreakglass(cfg, pool.users[k]) &&
                                  BoundTo(cfg, dir.rows[i], pool.users[k]))
  }

  ghost predicate Matches(cfg: Config, pool: Pool, dir: Directory, k: string, i: nat)
    requires k in pool.users && i < |dir.rows|
  {
    BoundTo(cfg, dir.rows[i], pool.users[k])
  }

  lemma PersonHasRow(cfg: Config, pool: Pool, dir: Directory, k: string) returns (i: nat)
    requires PoolOk(pool) && UniqueKeys(dir.rows) && Agreement(cfg, pool, dir)
    requires k in People(cfg, pool, dir)
    ensures i in StaffRows(cfg, pool, dir) && Matches(cfg, pool, dir, k, i)
    ensures SameAccess(cfg, dir, dir.rows[i], pool.users[k]) && StatusFine(pool.users[k])
  {
    var u := pool.users[k];
    assert UserAgrees(cfg, dir, u);
    var r :| r in dir.rows && StandsFor(cfg, dir.rows, r, u) && r.active == u.enabled
             && (u.enabled ==> SameAccess(cfg, dir, r, u) && StatusFine(u));
    assert RowAgrees(cfg, pool.users, r);
    i :| 0 <= i < |dir.rows| && dir.rows[i] == r;
  }

  lemma RowHasPerson(cfg: Config, pool: Pool, dir: Directory, i: nat) returns (k: string)
    requires PoolOk(pool) && UniqueKeys(dir.rows) && Agreement(cfg, pool, dir)
    requires forall k :: k in pool.users ==> Present(pool.users[k].sub)
    requires i in StaffRows(cfg, pool, dir)
    ensures k in People(cfg, pool, dir) && Matches(cfg, pool, dir, k, i) && dir.rows[i].sub == Some(k)
  {
    var r := dir.rows[i];
    assert RowAgrees(cfg, pool.users, r);
    k := r.sub.value;
    var u := pool.users[k];
    assert BoundTo(cfg, r, u);
    assert UserAgrees(cfg, dir, u);
    LocateMeaning(cfg, dir.rows, u);
  }

  lemma MatchIsUnique(cfg: Config, pool: Pool, dir: Directory)
    requires PoolOk(pool) && UniqueKeys(dir.rows)
    ensures forall k, i: nat, j: nat | k in pool.users && i < |dir.rows| && j < |dir.rows| ::
              (Matches(cfg, pool, dir, k, i) && Matches(cfg, pool, dir, k, j) ==> i == j)
    ensures forall k, l, i: nat | k in pool.users && l in pool.users && i < |dir.rows| ::
              (Matches(cfg, pool, dir, k, i) && Matches(cfg, pool, dir, l, i) ==> k == l)
  {
  }

  function SubAt(dir: Directory, i: nat): string {
    if i < |dir.rows| && dir.rows[i].sub.Some? then dir.rows[i].sub.value else ""
  }

  function SubsOf(dir: Directory, rows: set<nat>): set<string> {
    set i | i in rows :: SubAt(dir, i)
  }

  lemma {:induction false} DistinctSubs(dir: Directory, rows: set<nat>)
    requires forall i, j :: i in rows && j in rows && SubAt(dir, i) == SubAt(dir, j) ==> i == j
    ensures |SubsOf(dir, rows)| == |rows|
    decreases |rows|
  {
    if rows != {} {
      var i :| i in rows;
      DistinctSubs(dir, rows - {i});
      assert SubsOf(dir, rows) == SubsOf(dir, rows - {i}) + {SubAt(dir, i)};
    }
  }

  lemma SameNumber(cfg: Config, pool: Pool, dir: Directory)
    requires PoolOk(pool) && UniqueKeys(dir.rows) && Agreement(cfg, pool, dir)
    requires forall k :: k in pool.users ==> Present(pool.users[k].sub)
    ensures |People(cfg, pool, dir)| == |StaffRows(cfg, pool, dir)|
  {
    var people, rows := People(cfg, pool, dir), StaffRows(cfg, pool, dir);
    forall i, j | i in rows && j in rows && SubAt(dir, i) == SubAt(dir, j)
      ensures i == j
    {
      var k := RowHasPerson(cfg, pool, dir, i);
      var l := RowHasPerson(cfg, pool, dir, j);
      MatchIsUnique(cfg, pool, dir);
    }
    forall i | i in rows
      ensures SubAt(dir, i) in people
    {
      var k := RowHasPerson(cfg, pool, dir, i);
    }
    forall k | k in people
      ensures k in SubsOf(dir, rows)
    {
      var i := PersonHasRow(cfg, pool, dir, k);
      assert SubAt(dir, i) == k;
    }
    DistinctSubs(dir, rows);
    assert SubsOf(dir, rows) == people;
  }

  /** A clean, ready report is a one-to-one match between people and active rows, with equal access. */
  lemma CleanReportIsBijection(cfg: Config, pool: Pool, dir: Directory)
    requires PoolOk(pool) && UniqueKeys(dir.rows)
    requires forall k :: k in pool.users ==> Present(pool.users[k].sub)
    requires ReportOf(cfg, pool, dir).DriftTotal() == 0 && ReportOf(cfg, pool, dir).Ready()
    ensures forall k :: k in People(cfg, pool, dir) ==>
              exists i :: i in StaffRows(cfg, pool, dir) && Matches(cfg, pool, dir, k, i)
                          && SameAccess(cfg, dir, dir.rows[i], pool.users[k])
    ensures forall i :: i in StaffRows(cfg, pool, dir) ==>
              exists k :: k in People(cfg, pool, dir) && Matches(cfg, pool, dir, k, i)
    ensures forall k, i: nat, j: nat | k in pool.users && i < |dir.rows| && j < |dir.rows| ::
              (Matches(cfg, pool, dir, k, i) && Matches(cfg, pool, dir, k, j) ==> i == j)
    ensures forall k, l, i: nat | k in pool.users && l in pool.users && i < |dir.rows| ::
              (Matches(cfg, pool, dir, k, i) && Matches(cfg, pool, dir, l, i) ==> k == l)
    ensures |People(cfg, pool, dir)| == |StaffRows(cfg, pool, dir)|
  {
    CleanReportIffAgreement(cfg, pool, dir);
    MatchIsUnique(cfg, pool, dir);
    SameNumber(cfg, pool, dir);
    forall k | k in People(cfg, pool, dir)
      ensures exists i :: i in StaffRows(cfg, pool, dir) && Matches(cfg, pool, dir, k, i)
                          && SameAccess(cfg, dir, dir.rows[i], pool.users[k])
    {
      var i := PersonHasRow(cfg, pool, dir, k);
    }
    forall i | i in StaffRows(cfg, pool, dir)
      ensures exists k :: k in People(cfg, pool, dir) && Matches(cfg, pool, dir, k, i)
    {
      var k := RowHasPerson(cfg, pool, dir, i);
    }
  }

  /** `reconcile` on the raw listings: what it parses is a proper pool, and its report is clean and ready
      exactly when that pool and the directory agree. */
  method ReconcileListings(cfg: Config, raw: seq<RawUser>, groups: RawGroups, dir: Directory)
      returns (report: Report, pool: Pool)
    ensures PoolOk(pool) && pool.groupsMissing == set g | g in groups && groups[g].None?
    ensures forall k :: k in pool.users <==> exists r :: r in raw && RawKey(r) == k
    ensures forall k :: k in pool.users ==>
              exists i: nat :: i < |raw| && RawKey(raw[i]) == k &&
                               pool.users[k] == UserFrom(raw[i], GroupsOf(raw, groups, i))
    ensures report == ReportOf(cfg, pool, dir)
    ensures UniqueKeys(dir.rows) ==> (report.DriftTotal() == 0 && report.Ready() <==> Agreement(cfg, pool, dir))
  {
    var users, keys := ParseUsers(raw, groups);
    pool := Pool(users, keys, set g | g in groups && groups[g].None?);
    forall k | k in users
      ensures exists i: nat :: i < |raw| && RawKey(raw[i]) == k &&
                               users[k] == UserFrom(raw[i], GroupsOf(raw, groups, i))
    {
      var i := LastWithKey(raw, k).value;
      assert RawKey(raw[i]) == k && users[k] == UserFrom(raw[i], GroupsOf(raw, groups, i));
    }
    report := Reconcile(cfg, pool, dir);
    if UniqueKeys(dir.rows) {
      CleanReportIffAgreement(cfg, pool, dir);
    }
  }
}
