/**
 The two reads of a tenant's monthly AI budget in shared/cost_guard.py: the set of all budgeted tenants
 and the check of one. Each SQL statement is evaluated on the tables it joins; `None` is SQL NULL.
 Money is exact.
 */
module TenantBudget {
  import opened Common

  const AI_BUDGET_KEY := "ai.budget_usd_monthly"
  const PLAN_ALERT_PCT := 80
  const PLAN_APPROVAL_PCT := 100
  const MAX_PCT := 1000

  type Tenant = string

  datatype Override = Override(tenant: Tenant, key: string, enabled: bool, expires: Option<int>)
  datatype Resolved = Resolved(tenant: Tenant, key: string, limit: Option<int>)
  datatype BudgetRow = BudgetRow(tenant: Tenant, monthly: Option<int>, alertPct: int, approvalPct: int, hardStop: bool)
  datatype Subscription = Subscription(tenant: Tenant, product: string, plan: string, canceled: bool)
  datatype PlanFeature = PlanFeature(plan: string, key: string, limit: Option<int>)

  /** The tables; `resolver` is None before the resolver view exists. */
  datatype Db = Db(overrides: set<Override>, resolver: Option<set<Resolved>>, budgets: set<BudgetRow>,
                   subscriptions: set<Subscription>, features: set<PlanFeature>, now: int)

  /** The keys the queries rely on: one row per tenant in each join. */
  predicate UniqueRows(db: Db) {
    && (forall a, b :: a in db.budgets && b in db.budgets && a.tenant == b.tenant ==> a == b)
    && (db.resolver.Some? ==> forall a, b | a in db.resolver.value && b in db.resolver.value ::
          (a.tenant == b.tenant && a.key == b.key ==> a == b))
    && (forall a, b | a in db.subscriptions && b in db.subscriptions ::
          a.tenant == b.tenant && a.product == b.product ==> a == b)
    && (forall a, b :: a in db.features && b in db.features && a.plan == b.plan && a.key == b.key ==> a == b)
  }

  // ----- the shared sub-queries

  /** `_DISABLED_OVERRIDE`. */
  function Disabled(db: Db): set<Tenant> {
    set o | o in db.overrides && o.key == AI_BUDGET_KEY && !o.enabled &&
            (o.expires.None? || o.expires.value > db.now) :: o.tenant
  }

  datatype PlanRow = PlanRow(tenant: Tenant, limit: Option<int>)

  /** `_PLAN_FALLBACK`. */
  function PlanFallback(db: Db): set<PlanRow> {
    set s, f | s in db.subscriptions && f in db.features && f.plan == s.plan && f.key == AI_BUDGET_KEY
               && s.product == "content" && !s.canceled :: PlanRow(s.tenant, f.limit)
  }

  predicate Resolves(view: set<Resolved>, t: Tenant) {
    exists e :: e in view && e.tenant == t && e.key == AI_BUDGET_KEY
  }

  predicate HasRow(db: Db, t: Tenant) {
    exists b :: b in db.budgets && b.tenant == t
  }

  // ----- budgeted_tenants

  /** The four branches of `TENANT_BUDGET_TENANTS_SQL`, or the older read without the view. */
  function BudgetedTenants(db: Db): set<Tenant> {
    if db.resolver.None? then set b | b in db.budgets && b.monthly.Some? :: b.tenant
    else
      var view := db.resolver.value;
      Disabled(db)
      + (set e | e in view && e.key == AI_BUDGET_KEY && e.limit.Some? :: e.tenant)
      + (set b | b in db.budgets && b.monthly.Some? && !Resolves(view, b.tenant) :: b.tenant)
      + (set p | p in PlanFallback(db) && p.limit.Some? &&
                 !HasRow(db, p.tenant) && !Resolves(view, p.tenant) :: p.tenant)
  }

  // ----- tenant_budget_check

  datatype Budget = Budget(monthly: int, spent: int, alertPct: int, approvalPct: int, hardStop: bool)
  {
    /** `used_pct >= pct`; a budget of 0 counts as 1000 % used from the start. */
    predicate UsedAtLeast(pct: int) {
      if monthly <= 0 then MAX_PCT >= pct else 100 * spent >= pct * monthly
    }

    predicate Stops() {
      hardStop || monthly <= 0
    }

    predicate NeedsApproval() {
      Stops() && UsedAtLeast(approvalPct)
    }
  }

  /** A LEFT JOIN on a unique key: the one row, or None. */
  ghost function JoinResolved(view: set<Resolved>, t: Tenant): (f: Option<Resolved>)
    ensures f.Some? ==> f.value in view && f.value.tenant == t && f.value.key == AI_BUDGET_KEY
    ensures f.None? ==> !Resolves(view, t)
  {
    if e :| e in view && e.tenant == t && e.key == AI_BUDGET_KEY then Some(e) else None
  }

  ghost function JoinRow(db: Db, t: Tenant): (f: Option<BudgetRow>)
    ensures f.Some? ==> f.value in db.budgets && f.value.tenant == t
    ensures f.None? ==> !HasRow(db, t)
  {
    if b :| b in db.budgets && b.tenant == t then Some(b) else None
  }

  ghost function JoinPlan(db: Db, t: Tenant): (f: Option<PlanRow>)
    ensures f.Some? ==> f.value in PlanFallback(db) && f.value.tenant == t
    ensures f.None? ==> forall p :: p in PlanFallback(db) ==> p.tenant != t
  {
    if p :| p in PlanFallback(db) && p.tenant == t then Some(p) else None
  }

  /** `_TENANT_BUDGET_SQL` (or the older read) and the row's meaning; None when there is no budget. */
  ghost function BudgetCheck(db: Db, t: Tenant, spent: int): Option<Budget> {
    var b := JoinRow(db, t);
    if db.resolver.None? then
      if b.Some? && b.value.monthly.Some?
      then Some(Budget(b.value.monthly.value, spent, b.value.alertPct, b.value.approvalPct, b.value.hardStop)) else None
    else
      var d, e, p := t in Disabled(db), JoinResolved(db.resolver.value, t), JoinPlan(db, t);
      var monthly := if d then Some(0)
                     else if e.Some? then e.value.limit
                     else if b.Some? then b.value.monthly
                     else if p.Some? then p.value.limit else None;
      if monthly.None? then None
      else Some(Budget(monthly.value, spent,
                       if b.Some? then b.value.alertPct else PLAN_ALERT_PCT,
                       if b.Some? then b.value.approvalPct else PLAN_APPROVAL_PCT,
                       d || monthly.value == 0 || (if b.Some? then b.value.hardStop else true)))
  }

  lemma PlanIsUnique(db: Db, p: PlanRow, q: PlanRow)
    requires UniqueRows(db) && p in PlanFallback(db) && q in PlanFallback(db) && p.tenant == q.tenant
    ensures p == q
  {
    var s, f :| s in db.subscriptions && f in db.features && f.plan == s.plan && f.key == AI_BUDGET_KEY
                && s.product == "content" && !s.canceled && p == PlanRow(s.tenant, f.limit);
    var s', f' :| s' in db.subscriptions && f' in db.features && f'.plan == s'.plan && f'.key == AI_BUDGET_KEY
                  && s'.product == "content" && !s'.canceled && q == PlanRow(s'.tenant, f'.limit);
    assert s == s' && f == f';
  }

  /** For all table contents: a tenant is in the set exactly when the check finds a budget for it. */
  lemma QueriesAgree(db: Db, t: Tenant, spent: int)
    requires UniqueRows(db)
    ensures t in BudgetedTenants(db) <==> BudgetCheck(db, t, spent).Some?
  {
    if db.resolver.Some? {
      var view := db.resolver.value;
      var e, b, p := JoinResolved(view, t), JoinRow(db, t), JoinPlan(db, t);
      if p.Some? {
        forall q | q in PlanFallback(db) && q.tenant == t
          ensures q == p.value
        {
          PlanIsUnique(db, p.value, q);
        }
      }
    }
  }

  /** "0 = no AI": a resolved amount of 0 always waits for approval, exactly when its threshold is one
      the tables allow (at most 1000 %). */
  lemma ZeroNeedsApprovalIff(db: Db, t: Tenant, spent: int)
    requires BudgetCheck(db, t, spent).Some? && BudgetCheck(db, t, spent).value.monthly == 0
    ensures BudgetCheck(db, t, spent).value.NeedsApproval() <==> BudgetCheck(db, t, spent).value.approvalPct <= MAX_PCT
  {
  }

  /** A switched-off override stops all AI of the tenant whatever the other tables say. */
  lemma DisabledStops(db: Db, t: Tenant, spent: int)
    requires UniqueRows(db) && db.resolver.Some? && t in Disabled(db)
    requires forall b :: b in db.budgets ==> b.approvalPct <= MAX_PCT
    ensures BudgetCheck(db, t, spent).Some? && BudgetCheck(db, t, spent).value.NeedsApproval()
  {
  }
}
