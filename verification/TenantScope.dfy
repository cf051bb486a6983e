/**
 The tenant scope rule of api/core/tenant_scope.py in its three forms: a test of one tenant, the set a
 list route filters by, and a predicate put into larger SQL queries.

 The queries are syntax trees with SQL's three-valued meaning, so a NULL segment or column counts as
 it does in the database, and with SQL's name resolution, so a column name pasted into a sub-query means
 what the database makes of it there. Ids are canonical UUID strings.
 */
module TenantScope {
  import opened Common

  const AA_INTERNAL_TENANT := "00000000-0000-0000-0000-000000000001"

  datatype Scope = All | Book | BookPool | Internal | NoScope

  // ----- a fragment of SQL

  datatype Truth = T | F | U

  /** A column name as it is written: `name` or `qualifier.name`. */
  datatype Name = Name(qualifier: Option<string>, name: string)

  /** `Field` is a column of a sub-query's own row, `Column` the caller's column name pasted into the text. */
  datatype Expr = Literal(text: string) | Column(column: Name) | Field(alias: string, name: string)

  datatype Cond =
    | Constant(value: bool)
    | Eq(a: Expr, b: Expr)
    | In(e: Expr, values: seq<string>)
    | And(p: Cond, q: Cond)
    | Or(p: Cond, q: Cond)
    | Not(p: Cond)
    | Exists(table: Table, alias: string, cond: Cond)

  datatype Table = Assignments | Tenants
  type Row = map<string, Option<string>>
  datatype Db = Db(assignments: set<Row>, tenants: set<Row>)
  /** The column names of the two tables. */
  datatype Schema = Schema(assignments: set<string>, tenants: set<string>)
  datatype Frame = Frame(alias: string, table: Table, row: Row)
  /** The value of the outer query's column, and the sub-query rows around the text, innermost last. */
  datatype Env = Env(schema: Schema, column: Option<string>, frames: seq<Frame>)

  function RowsOf(db: Db, t: Table): set<Row> {
    if t.Assignments? then db.assignments else db.tenants
  }

  function ColumnsOf(schema: Schema, t: Table): set<string> {
    if t.Assignments? then schema.assignments else schema.tenants
  }

  function Read(row: Row, name: string): Option<string> {
    if name in row then row[name] else None
  }

  function Enter(env: Env, table: Table, alias: string, row: Row): Env {
    env.(frames := env.frames + [Frame(alias, table, row)])
  }

  /** The sub-query takes the name for a column of its own row. */
  predicate Captures(schema: Schema, table: Table, alias: string, n: Name) {
    n.qualifier == Some(alias) || (n.qualifier.None? && n.name in ColumnsOf(schema, table))
  }

  /** A name means the innermost sub-query that knows it, else the outer query's column. */
  function Resolve(schema: Schema, column: Option<string>, frames: seq<Frame>, n: Name): Option<string> {
    if frames == [] then column
    else
      var f := frames[|frames| - 1];
      if Captures(schema, f.table, f.alias, n) then Read(f.row, n.name)
      else Resolve(schema, column, frames[..|frames| - 1], n)
  }

  function FieldOf(frames: seq<Frame>, alias: string, name: string): Option<string> {
    if frames == [] then None
    else if frames[|frames| - 1].alias == alias then Read(frames[|frames| - 1].row, name)
    else FieldOf(frames[..|frames| - 1], alias, name)
  }

  function ValueOf(env: Env, e: Expr): Option<string> {
    match e
    case Literal(text) => Some(text)
    case Column(n) => Resolve(env.schema, env.column, env.frames, n)
    case Field(alias, name) => FieldOf(env.frames, alias, name)
  }

  lemma EnterMeans(env: Env, table: Table, alias: string, row: Row, e: Expr)
    ensures e.Literal? ==> ValueOf(Enter(env, table, alias, row), e) == Some(e.text)
    ensures e.Field? ==> ValueOf(Enter(env, table, alias, row), e)
                         == if e.alias == alias then Read(row, e.name) else ValueOf(env, e)
    ensures e.Column? ==> ValueOf(Enter(env, table, alias, row), e)
                          == if Captures(env.schema, table, alias, e.column) then Read(row, e.column.name)
                             else ValueOf(env, e)
  {
    assert Enter(env, table, alias, row).frames[..|env.frames|] == env.frames;
  }

  function Truly(b: bool): Truth {
    if b then T else F
  }

  ghost function Eval(db: Db, env: Env, c: Cond): Truth
    decreases c
  {
    match c
    case Constant(value) => Truly(value)
    case Eq(a, b) =>
      var x, y := ValueOf(env, a), ValueOf(env, b);
      if x.None? || y.None? then U else Truly(x == y)
    case In(e, values) =>
      var x := ValueOf(env, e);
      if x.None? then U else Truly(x.value in values)
    case And(p, q) =>
      var x, y := Eval(db, env, p), Eval(db, env, q);
      if x == F || y == F then F else if x == T && y == T then T else U
    case Or(p, q) =>
      var x, y := Eval(db, env, p), Eval(db, env, q);
      if x == T || y == T then T else if x == F && y == F then F else U
    case Not(p) =>
      var x := Eval(db, env, p);
      if x == U then U else if x == T then F else T
    case Exists(table, alias, cond) =>
      Truly(exists row :: row in RowsOf(db, table) && Eval(db, Enter(env, table, alias, row), cond) == T)
  }

  /** The sub-query at `alias` keeps this row. */
  ghost predicate Keeps(db: Db, env: Env, table: Table, alias: string, cond: Cond, row: Row) {
    Eval(db, Enter(env, table, alias, row), cond) == T
  }

  lemma ExistsMeans(db: Db, env: Env, table: Table, alias: string, cond: Cond)
    ensures Eval(db, env, Exists(table, alias, cond))
            == Truly(exists row :: row in RowsOf(db, table) && Keeps(db, env, table, alias, cond, row))
  {
    if row :| row in RowsOf(db, table) && Keeps(db, env, table, alias, cond, row) {
      assert Eval(db, Enter(env, table, alias, row), cond) == T;
    } else {
      assert forall row :: row in RowsOf(db, table) ==> !Keeps(db, env, table, alias, cond, row);
    }
  }

  lemma AndMeans(db: Db, env: Env, p: Cond, q: Cond)
    ensures Eval(db, env, And(p, q)) == T <==> Eval(db, env, p) == T && Eval(db, env, q) == T
  {
  }

  lemma EqMeans(db: Db, env: Env, a: Expr, b: Expr)
    ensures Eval(db, env, Eq(a, b)) == T <==> ValueOf(env, a).Some? && ValueOf(env, a) == ValueOf(env, b)
  {
  }

  /** A query without an outer one. */
  function Top(schema: Schema): Env {
    Env(schema, None, [])
  }

  /** The values of one field over the rows a WHERE clause keeps. */
  ghost function Select(db: Db, schema: Schema, table: Table, alias: string, name: string, cond: Cond)
    : set<Option<string>>
  {
    set row | row in RowsOf(db, table) && Keeps(db, Top(schema), table, alias, cond, row) :: Read(row, name)
  }

  // ----- the queries

  /** No owner is assigned to the tenant of the row at `alias`. */
  function Unowned(alias: string, inner: string): Cond {
    Not(Exists(Assignments, inner,
               And(Eq(Field(inner, "tenant_id"), Field(alias, "tenant_id")),
                   Eq(Field(inner, "kind"), Literal("owner")))))
  }

  function PoolRule(alias: string, inner: string): Cond {
    And(In(Field(alias, "kind"), ["agency", "demo"]),
        Or(Eq(Field(alias, "segment"), Literal("tech_touch")), Unowned(alias, inner)))
  }

  /** SQL_BOOK and SQL_POOL: the tenants of the book, and of the pool. */
  ghost function BookTenants(db: Db, schema: Schema, staff: string): set<Option<string>> {
    Select(db, schema, Assignments, "a", "tenant_id", Eq(Field("a", "admin_user_id"), Literal(staff)))
  }

  ghost function PoolTenants(db: Db, schema: Schema): set<Option<string>> {
    Select(db, schema, Tenants, "t", "tenant_id", PoolRule("t", "o"))
  }

  /** The staff member is assigned to the tenant `key` names. */
  function BookTest(alias: string, staff: string, key: Expr): Cond {
    Exists(Assignments, alias,
           And(Eq(Field(alias, "admin_user_id"), Literal(staff)), Eq(Field(alias, "tenant_id"), key)))
  }

  function PoolTest(alias: string, inner: string, key: Expr): Cond {
    Exists(Tenants, alias, And(Eq(Field(alias, "tenant_id"), key), PoolRule(alias, inner)))
  }

  ghost predicate Holds(db: Db, schema: Schema, c: Cond) {
    Eval(db, Top(schema), c) == T
  }

  // ----- the three forms

  /** `in_scope`, by SQL_IN_BOOK and SQL_IN_POOL. */
  ghost predicate InScope(db: Db, schema: Schema, scope: Scope, staff: Option<string>, tenant: string) {
    match scope
    case All => true
    case Internal => tenant == AA_INTERNAL_TENANT
    case NoScope => false
    case Book => staff.Some? && Holds(db, schema, BookTest("b", staff.value, Literal(tenant)))
    case BookPool =>
      staff.Some? && (Holds(db, schema, BookTest("b", staff.value, Literal(tenant))) ||
                      Holds(db, schema, PoolTest("t", "o", Literal(tenant))))
  }

  /** `tenant_scope_filter`: None is every tenant. */
  ghost function ScopeFilter(db: Db, schema: Schema, scope: Scope, staff: Option<string>): Option<set<Option<string>>> {
    match scope
    case All => None
    case Internal => Some({Some(AA_INTERNAL_TENANT)})
    case NoScope => Some({})
    case Book => Some(if staff.None? then {} else BookTenants(db, schema, staff.value))
    case BookPool =>
      Some(if staff.None? then {} else BookTenants(db, schema, staff.value) + PoolTenants(db, schema))
  }

  /** `tenant_scope_sql` for a column name: the predicate over the outer query's column. */
  function ScopeSql(scope: Scope, staff: Option<string>, column: Name): Cond {
    match scope
    case All => Constant(true)
    case Internal => Eq(Column(column), Literal(AA_INTERNAL_TENANT))
    case NoScope => Constant(false)
    case Book => if staff.None? then Constant(false) else BookTest("sa", staff.value, Column(column))
    case BookPool =>
      if staff.None? then Constant(false)
      else Or(BookTest("sa", staff.value, Column(column)), PoolTest("st", "so", Column(column)))
  }

  // ----- which column names are accepted

  predicate IsIdentifier(s: string) {
    && s != "" && !('0' <= s[0] <= '9')
    && forall i :: 0 <= i < |s| ==> 'a' <= s[i] <= 'z' || '0' <= s[i] <= '9' || s[i] == '_'
  }

  /** The position of the first dot, or the length. */
  function FirstDot(s: string): (i: nat)
    ensures i <= |s| && (i < |s| ==> s[i] == '.') && forall k :: 0 <= k < i ==> s[k] != '.'
  {
    if s == "" || s[0] == '.' then 0 else 1 + FirstDot(s[1..])
  }

  /** The name a column text stands for; None is the source's ValueError. */
  function ParseColumn(text: string): Option<Name> {
    var i := FirstDot(text);
    if i == |text| then if IsIdentifier(text) then Some(Name(None, text)) else None
    else if IsIdentifier(text[..i]) && IsIdentifier(text[i + 1..]) then Some(Name(Some(text[..i]), text[i + 1..]))
    else None
  }

  function TextOf(n: Name): string {
    if n.qualifier.Some? then n.qualifier.value + "." + n.name else n.name
  }

  predicate WellFormed(n: Name) {
    IsIdentifier(n.name) && (n.qualifier.Some? ==> IsIdentifier(n.qualifier.value))
  }

  /** Exactly the plain and the table-qualified identifiers are accepted, each as itself. */
  lemma ParseColumnIs(text: string, n: Name)
    ensures ParseColumn(text) == Some(n) <==> WellFormed(n) && text == TextOf(n)
  {
    if WellFormed(n) && text == TextOf(n) {
      ParseText(n);
    }
    var i := FirstDot(text);
    if i < |text| {
      assert text == text[..i] + "." + text[i + 1..];
    }
  }

  lemma ParseText(n: Name)
    requires WellFormed(n)
    ensures ParseColumn(TextOf(n)) == Some(n)
  {
    var text := TextOf(n);
    if n.qualifier.Some? {
      var q := n.qualifier.value;
      assert text[|q|] == '.' && text[..|q|] == q && text[|q| + 1..] == n.name;
      assert forall k :: 0 <= k < |q| ==> text[k] == q[k];
      assert FirstDot(text) == |q|;
    } else {
      assert FirstDot(text) == |text|;
    }
  }

  // ----- what each query says about the tables

  ghost predicate Assigned(db: Db, staff: string, tenant: string) {
    exists a :: a in db.assignments && Read(a, "admin_user_id") == Some(staff) && Read(a, "tenant_id") == Some(tenant)
  }

  ghost predicate Owned(db: Db, tenant: Option<string>) {
    tenant.Some? &&
    exists o :: o in db.assignments && Read(o, "tenant_id") == tenant && Read(o, "kind") == Some("owner")
  }

  /** An agency or demo tenant that is tech-touch or has no owner. */
  ghost predicate Pooled(db: Db, row: Row) {
    && Read(row, "kind") in {Some("agency"), Some("demo")}
    && (Read(row, "segment") == Some("tech_touch") || !Owned(db, Read(row, "tenant_id")))
  }

  ghost predicate InThePool(db: Db, tenant: string) {
    exists row :: row in db.tenants && Read(row, "tenant_id") == Some(tenant) && Pooled(db, row)
  }

  /** The row at `alias`, as a sub-query just entered it. */
  predicate At(env: Env, alias: string, row: Row) {
    env.frames != [] && env.frames[|env.frames| - 1].alias == alias && env.frames[|env.frames| - 1].row == row
  }

  lemma FieldAt(env: Env, alias: string, row: Row, name: string)
    requires At(env, alias, row)
    ensures ValueOf(env, Field(alias, name)) == Read(row, name)
  {
  }

  lemma UnownedMeans(db: Db, env: Env, alias: string, inner: string, row: Row)
    requires At(env, alias, row) && alias != inner
    ensures Eval(db, env, Unowned(alias, inner)) == Truly(!Owned(db, Read(row, "tenant_id")))
  {
    var cond := And(Eq(Field(inner, "tenant_id"), Field(alias, "tenant_id")),
                    Eq(Field(inner, "kind"), Literal("owner")));
    FieldAt(env, alias, row, "tenant_id");
    forall o | o in db.assignments
      ensures Keeps(db, env, Assignments, inner, cond, o)
              <==> Read(row, "tenant_id").Some? && Read(o, "tenant_id") == Read(row, "tenant_id") &&
                   Read(o, "kind") == Some("owner")
    {
      var env' := Enter(env, Assignments, inner, o);
      AndMeans(db, env', cond.p, cond.q);
      EqMeans(db, env', cond.p.a, cond.p.b);
      EqMeans(db, env', cond.q.a, cond.q.b);
      EnterMeans(env, Assignments, inner, o, Field(inner, "tenant_id"));
      EnterMeans(env, Assignments, inner, o, Field(alias, "tenant_id"));
      EnterMeans(env, Assignments, inner, o, Field(inner, "kind"));
    }
    ExistsMeans(db, env, Assignments, inner, cond);
    assert Eval(db, env, Exists(Assignments, inner, cond)) == Truly(Owned(db, Read(row, "tenant_id")));
  }

  lemma PoolRuleMeans(db: Db, env: Env, alias: string, inner: string, row: Row)
    requires At(env, alias, row) && alias != inner
    ensures Eval(db, env, PoolRule(alias, inner)) == T <==> Pooled(db, row)
  {
    UnownedMeans(db, env, alias, inner, row);
    FieldAt(env, alias, row, "segment");
    FieldAt(env, alias, row, "kind");
    var touch := Eq(Field(alias, "segment"), Literal("tech_touch"));
    assert Eval(db, env, touch) == T <==> Read(row, "segment") == Some("tech_touch");
    assert Eval(db, env, Or(touch, Unowned(alias, inner))) == T
           <==> Eval(db, env, touch) == T || Eval(db, env, Unowned(alias, inner)) == T;
    assert Eval(db, env, In(Field(alias, "kind"), ["agency", "demo"])) == T
           <==> Read(row, "kind") in {Some("agency"), Some("demo")};
  }

  /** The value `key` has at a row of the sub-query. */
  function KeyAt(env: Env, table: Table, alias: string, row: Row, key: Expr): Option<string> {
    ValueOf(Enter(env, table, alias, row), key)
  }

  /** What a test for one tenant says, whatever its key means at each row. */
  lemma BookTestMeans(db: Db, env: Env, alias: string, staff: string, key: Expr)
    ensures Eval(db, env, BookTest(alias, staff, key)) ==
            Truly(exists a :: a in db.assignments && Read(a, "admin_user_id") == Some(staff) &&
                              Read(a, "tenant_id").Some? &&
                              Read(a, "tenant_id") == KeyAt(env, Assignments, alias, a, key))
  {
    var cond := And(Eq(Field(alias, "admin_user_id"), Literal(staff)), Eq(Field(alias, "tenant_id"), key));
    forall a | a in db.assignments
      ensures Keeps(db, env, Assignments, alias, cond, a) <==>
              && Read(a, "admin_user_id") == Some(staff) && Read(a, "tenant_id").Some?
              && Read(a, "tenant_id") == KeyAt(env, Assignments, alias, a, key)
    {
      var env' := Enter(env, Assignments, alias, a);
      AndMeans(db, env', cond.p, cond.q);
      EqMeans(db, env', cond.p.a, cond.p.b);
      EqMeans(db, env', cond.q.a, cond.q.b);
      EnterMeans(env, Assignments, alias, a, Field(alias, "admin_user_id"));
      EnterMeans(env, Assignments, alias, a, Field(alias, "tenant_id"));
    }
    ExistsMeans(db, env, Assignments, alias, cond);
  }

  lemma PoolTestMeans(db: Db, env: Env, alias: string, inner: string, key: Expr)
    requires alias != inner
    ensures Eval(db, env, PoolTest(alias, inner, key)) ==
            Truly(exists row :: row in db.tenants && Read(row, "tenant_id").Some? && Pooled(db, row) &&
                                Read(row, "tenant_id") == KeyAt(env, Tenants, alias, row, key))
  {
    var cond := And(Eq(Field(alias, "tenant_id"), key), PoolRule(alias, inner));
    forall row | row in db.tenants
      ensures Keeps(db, env, Tenants, alias, cond, row) <==>
              && Read(row, "tenant_id").Some? && Pooled(db, row)
              && Read(row, "tenant_id") == KeyAt(env, Tenants, alias, row, key)
    {
      var env' := Enter(env, Tenants, alias, row);
      AndMeans(db, env', cond.p, cond.q);
      EqMeans(db, env', cond.p.a, cond.p.b);
      EnterMeans(env, Tenants, alias, row, Field(alias, "tenant_id"));
      PoolRuleMeans(db, env', alias, inner, row);
    }
    ExistsMeans(db, env, Tenants, alias, cond);
  }

  /** A key that means the tenant at every row tests the tenant. */
  lemma BookTestIs(db: Db, env: Env, alias: string, staff: string, key: Expr, tenant: string)
    requires forall a :: KeyAt(env, Assignments, alias, a, key) == Some(tenant)
    ensures Eval(db, env, BookTest(alias, staff, key)) == Truly(Assigned(db, staff, tenant))
  {
    BookTestMeans(db, env, alias, staff, key);
  }

  lemma PoolTestIs(db: Db, env: Env, alias: string, inner: string, key: Expr, tenant: string)
    requires alias != inner && forall row :: KeyAt(env, Tenants, alias, row, key) == Some(tenant)
    ensures Eval(db, env, PoolTest(alias, inner, key)) == Truly(InThePool(db, tenant))
  {
    PoolTestMeans(db, env, alias, inner, key);
  }

  lemma BookTenantsMeans(db: Db, schema: Schema, staff: string, tenant: string)
    ensures Some(tenant) in BookTenants(db, schema, staff) <==> Assigned(db, staff, tenant)
  {
    var cond := Eq(Field("a", "admin_user_id"), Literal(staff));
    forall a | a in db.assignments
      ensures Keeps(db, Top(schema), Assignments, "a", cond, a) <==> Read(a, "admin_user_id") == Some(staff)
    {
      EqMeans(db, Enter(Top(schema), Assignments, "a", a), cond.a, cond.b);
      EnterMeans(Top(schema), Assignments, "a", a, cond.a);
    }
  }

  lemma PoolTenantsMeans(db: Db, schema: Schema, tenant: string)
    ensures Some(tenant) in PoolTenants(db, schema) <==> InThePool(db, tenant)
  {
    forall row | row in db.tenants
      ensures Keeps(db, Top(schema), Tenants, "t", PoolRule("t", "o"), row) <==> Pooled(db, row)
    {
      PoolRuleMeans(db, Enter(Top(schema), Tenants, "t", row), "t", "o", row);
    }
  }

  /** What the point test says about the tables. */
  lemma InScopeMeans(db: Db, schema: Schema, scope: Scope, staff: Option<string>, tenant: string)
    requires staff.Some? && (scope.Book? || scope.BookPool?)
    ensures InScope(db, schema, scope, staff, tenant) <==>
            Assigned(db, staff.value, tenant) || (scope.BookPool? && InThePool(db, tenant))
  {
    forall row: Row
      ensures KeyAt(Top(schema), Assignments, "b", row, Literal(tenant)) == Some(tenant)
      ensures KeyAt(Top(schema), Tenants, "t", row, Literal(tenant)) == Some(tenant)
    {
    }
    BookTestIs(db, Top(schema), "b", staff.value, Literal(tenant), tenant);
    PoolTestIs(db, Top(schema), "t", "o", Literal(tenant), tenant);
  }

  /** For all tables, scopes, staff ids and tenants, the point test and the set agree. */
  lemma TestAndSetAgree(db: Db, schema: Schema, scope: Scope, staff: Option<string>, tenant: string)
    ensures var filter := ScopeFilter(db, schema, scope, staff);
            InScope(db, schema, scope, staff, tenant) <==> filter.None? || Some(tenant) in filter.value
  {
    if staff.Some? && (scope.Book? || scope.BookPool?) {
      InScopeMeans(db, schema, scope, staff, tenant);
      BookTenantsMeans(db, schema, staff.value, tenant);
      PoolTenantsMeans(db, schema, tenant);
    }
  }

  // ----- the generated predicate

  /** The predicate selects a row of the outer query that has `tenant` in its column. */
  ghost predicate Selects(db: Db, schema: Schema, scope: Scope, staff: Option<string>, column: Name,
                          tenant: Option<string>)
  {
    Eval(db, Env(schema, tenant, []), ScopeSql(scope, staff, column)) == T
  }

  /** A sub-query of the predicate takes the column name for one of its own. */
  predicate Captured(schema: Schema, scope: Scope, staff: Option<string>, column: Name) {
    && staff.Some? && (scope.Book? || scope.BookPool?)
    && (Captures(schema, Assignments, "sa", column) || (scope.BookPool? && Captures(schema, Tenants, "st", column)))
  }

  lemma SelectsMeans(db: Db, schema: Schema, scope: Scope, staff: Option<string>, column: Name,
                     tenant: Option<string>)
    requires staff.Some? && (scope.Book? || scope.BookPool?)
    ensures var env := Env(schema, tenant, []);
            Selects(db, schema, scope, staff, column, tenant) <==>
            || Eval(db, env, BookTest("sa", staff.value, Column(column))) == T
            || (scope.BookPool? && Eval(db, env, PoolTest("st", "so", Column(column))) == T)
  {
  }

  /** Where no sub-query captures the column name, the generated predicate agrees with the other two forms. */
  lemma FormsAgree(db: Db, schema: Schema, scope: Scope, staff: Option<string>, column: Name, tenant: string)
    requires !Captured(schema, scope, staff, column)
    ensures Selects(db, schema, scope, staff, column, Some(tenant)) <==> InScope(db, schema, scope, staff, tenant)
  {
    if staff.Some? && (scope.Book? || scope.BookPool?) {
      var env, key := Env(schema, Some(tenant), []), Column(column);
      forall row: Row
        ensures KeyAt(env, Assignments, "sa", row, key) == Some(tenant)
        ensures scope.BookPool? ==> KeyAt(env, Tenants, "st", row, key) == Some(tenant)
      {
        EnterMeans(env, Assignments, "sa", row, key);
        EnterMeans(env, Tenants, "st", row, key);
      }
      BookTestIs(db, env, "sa", staff.value, key, tenant);
      if scope.BookPool? {
        PoolTestIs(db, env, "st", "so", key, tenant);
      }
      SelectsMeans(db, schema, scope, staff, column, Some(tenant));
      InScopeMeans(db, schema, scope, staff, tenant);
    }
  }

  // ----- captured names

  /** A book of one tenant, and a pool of one tenant. */
  function OneBook(staff: string, tenant: string): Db {
    Db({map["admin_user_id" := Some(staff), "tenant_id" := Some(tenant), "kind" := Some("owner")]}, {})
  }

  function OnePool(tenant: string): Db {
    Db({}, {map["tenant_id" := Some(tenant), "kind" := Some("agency")]})
  }

  /** Two tenant ids that are no other value of those tables. */
  function FirstTenant(staff: string): string {
    staff + "-tenant"
  }

  function OtherTenant(staff: string): string {
    staff + "-tenant-2"
  }

  lemma CapturedBook(schema: Schema, scope: Scope, staff: string, column: Name)
    requires (scope.Book? || scope.BookPool?) && Captures(schema, Assignments, "sa", column)
    ensures var db, one, two := OneBook(staff, FirstTenant(staff)), FirstTenant(staff), OtherTenant(staff);
            if column.name == "tenant_id" then
              && Selects(db, schema, scope, Some(staff), column, Some(two))
              && !InScope(db, schema, scope, Some(staff), two)
            else
              && !Selects(db, schema, scope, Some(staff), column, Some(one))
              && InScope(db, schema, scope, Some(staff), one)
  {
    var one, two, key := FirstTenant(staff), OtherTenant(staff), Column(column);
    var db := OneBook(staff, one);
    var row: Row := map["admin_user_id" := Some(staff), "tenant_id" := Some(one), "kind" := Some("owner")];
    assert row in db.assignments && |one| > |staff| && |one| > |"owner"| && |two| > |one|;
    forall t | t == one || t == two
      ensures Selects(db, schema, scope, Some(staff), column, Some(t)) <==> Read(row, column.name) == Some(one)
      ensures InScope(db, schema, scope, Some(staff), t) <==> t == one
    {
      var env := Env(schema, Some(t), []);
      EnterMeans(env, Assignments, "sa", row, key);
      BookTestMeans(db, env, "sa", staff, key);
      PoolTestMeans(db, env, "st", "so", key);
      SelectsMeans(db, schema, scope, Some(staff), column, Some(t));
      InScopeMeans(db, schema, scope, Some(staff), t);
    }
  }

  lemma CapturedPool(schema: Schema, staff: string, column: Name)
    requires !Captures(schema, Assignments, "sa", column) && Captures(schema, Tenants, "st", column)
    ensures var db, one, two := OnePool(FirstTenant(staff)), FirstTenant(staff), OtherTenant(staff);
            if column.name == "tenant_id" then
              && Selects(db, schema, BookPool, Some(staff), column, Some(two))
              && !InScope(db, schema, BookPool, Some(staff), two)
            else
              && !Selects(db, schema, BookPool, Some(staff), column, Some(one))
              && InScope(db, schema, BookPool, Some(staff), one)
  {
    var one, two, key := FirstTenant(staff), OtherTenant(staff), Column(column);
    var db := OnePool(one);
    var row: Row := map["tenant_id" := Some(one), "kind" := Some("agency")];
    assert row in db.tenants && |one| > |"agency"| && |two| > |one|;
    assert Pooled(db, row);
    forall t | t == one || t == two
      ensures Selects(db, schema, BookPool, Some(staff), column, Some(t)) <==> Read(row, column.name) == Some(one)
      ensures InScope(db, schema, BookPool, Some(staff), t) <==> t == one
    {
      var env := Env(schema, Some(t), []);
      EnterMeans(env, Tenants, "st", row, key);
      BookTestMeans(db, env, "sa", staff, key);
      PoolTestMeans(db, env, "st", "so", key);
      SelectsMeans(db, schema, BookPool, Some(staff), column, Some(t));
      InScopeMeans(db, schema, BookPool, Some(staff), t);
    }
  }

  /** The generated predicate agrees with the rule for all tables and tenants exactly when none of its
      sub-queries takes the column name for a column of its own. */
  lemma FormsAgreeIff(schema: Schema, scope: Scope, staff: Option<string>, column: Name)
    ensures (forall db, tenant :: Selects(db, schema, scope, staff, column, Some(tenant)) <==>
                                  InScope(db, schema, scope, staff, tenant))
            <==> !Captured(schema, scope, staff, column)
  {
    if Captured(schema, scope, staff, column) {
      if Captures(schema, Assignments, "sa", column) {
        CapturedBook(schema, scope, staff.value, column);
      } else {
        CapturedPool(schema, staff.value, column);
      }
    } else {
      forall db, tenant
        ensures Selects(db, schema, scope, staff, column, Some(tenant)) <==> InScope(db, schema, scope, staff, tenant)
      {
        FormsAgree(db, schema, scope, staff, column, tenant);
      }
    }
  }

  /** A bare `tenant_id`, which is accepted, selects every row for a staff member with any assignment. */
  lemma BareNameSelectsAll(db: Db, schema: Schema, scope: Scope, staff: string, a: Row, tenant: Option<string>)
    requires (scope.Book? || scope.BookPool?) && "tenant_id" in schema.assignments
    requires a in db.assignments && Read(a, "admin_user_id") == Some(staff) && Read(a, "tenant_id").Some?
    ensures ParseColumn("tenant_id") == Some(Name(None, "tenant_id"))
    ensures Selects(db, schema, scope, Some(staff), Name(None, "tenant_id"), tenant)
  {
    var column, env := Name(None, "tenant_id"), Env(schema, tenant, []);
    ParseText(column);
    EnterMeans(env, Assignments, "sa", a, Column(column));
    BookTestMeans(db, env, "sa", staff, Column(column));
    SelectsMeans(db, schema, scope, Some(staff), column, tenant);
  }

  const BELL_COLUMN := Name(Some("notifications"), "tenant_id")

  lemma BellColumnParses()
    ensures ParseColumn("notifications.tenant_id") == Some(BELL_COLUMN)
  {
    ParseText(BELL_COLUMN);
    assert TextOf(BELL_COLUMN) == "notifications.tenant_id";
  }

  /** The one caller's column is never captured, so its predicate is the rule. */
  lemma BellScopeAgrees(db: Db, schema: Schema, scope: Scope, staff: Option<string>, tenant: string)
    ensures Selects(db, schema, scope, staff, BELL_COLUMN, Some(tenant)) <==> InScope(db, schema, scope, staff, tenant)
  {
    assert |"notifications"| != |"sa"| && |"notifications"| != |"st"|;
    assert !Captured(schema, scope, staff, BELL_COLUMN);
    FormsAgree(db, schema, scope, staff, BELL_COLUMN, tenant);
  }

  /** Under a name that is not captured, a row whose column is NULL is shown only to a scope that reaches
      every tenant. */
  lemma NullColumn(db: Db, schema: Schema, scope: Scope, staff: Option<string>, column: Name)
    requires !Captured(schema, scope, staff, column)
    ensures Selects(db, schema, scope, staff, column, None) <==> scope.All?
  {
    if staff.Some? && (scope.Book? || scope.BookPool?) {
      var env, key := Env(schema, None, []), Column(column);
      forall row: Row
        ensures KeyAt(env, Assignments, "sa", row, key).None?
        ensures scope.BookPool? ==> KeyAt(env, Tenants, "st", row, key).None?
      {
        EnterMeans(env, Assignments, "sa", row, key);
        EnterMeans(env, Tenants, "st", row, key);
      }
      BookTestMeans(db, env, "sa", staff.value, key);
      PoolTestMeans(db, env, "st", "so", key);
      SelectsMeans(db, schema, scope, staff, column, None);
    }
  }
}
