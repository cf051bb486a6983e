/**
 Sign-in of api/core/staff_identity.py: the directory row behind a verified token, bound on the first
 sign-in and cached per identity for STAFF_STATE_TTL_S.

 Every SQL statement, every cache read and every cache write is one step. Any number of calls may be
 between their steps, each with the result it read earlier, while an admin edits the directory.
 */
module StaffIdentity {
  import opened Common

  const STAFF_STATE_TTL_S := 60.0
  const STAFF_STATE_MAX := 2048

  type RowId = nat
  datatype Identity = Identity(iss: string, sub: string)
  /** `email` is `lower(email)`, which is how every statement reads it. */
  datatype Row = Row(email: Option<string>, active: bool, identity: Option<Identity>)
  /** `email` is the token's address after strip and lower, None when nothing is left. */
  datatype Principal = Principal(identity: Identity, email: Option<string>, emailVerified: Option<bool>)

  datatype Entry = Entry(expires: real, row: Option<RowId>)

  /** Where a call is; `start` is the clock it read first, which dates its cache entry. */
  datatype Phase =
    | ReadIdentity(p: Principal, start: real)
    | Link(p: Principal, start: real, email: string)
    | ReadAgain(p: Principal, start: real)
    | Loaded(p: Principal, start: real, row: Option<RowId>)
    | Touch(p: Principal, start: real, entry: Entry)

  /** A call that resolved to a row, by when it started. */
  datatype Resolved = Resolved(identity: Identity, row: RowId, start: real)

  /** `off` dates the deactivation of every inactive row. */
  datatype State = State(rows: map<RowId, Row>, off: map<RowId, real>, cache: map<Identity, Entry>,
                         calls: map<nat, Phase>, clock: real, resolved: seq<Resolved>)

  /** `touch` of a call: it is to write `last_login_at` and the entry it hits was not touched yet. */
  datatype Event =
    | Begin(call: nat, p: Principal, now: real, touch: bool)
    | Statement(call: nat)
    | Store(call: nat)
    | Touched(call: nat)
    | TouchFailed(call: nat)
    | Fail(call: nat)
    | Deactivate(row: RowId, now: real)
    | Reactivate(row: RowId)
    | SetEmail(row: RowId, email: Option<string>)

  // ----- the table

  /** Migration 247's unique index on `(cognito_iss, cognito_sub)`. */
  predicate Unique(rows: map<RowId, Row>) {
    forall r, q :: r in rows && q in rows && rows[r].identity.Some? && rows[r].identity == rows[q].identity ==> r == q
  }

  /** SQL_BY_IDENTITY. */
  ghost function ByIdentity(rows: map<RowId, Row>, id: Identity): (f: Option<RowId>)
    ensures f.Some? ==> f.value in rows && rows[f.value].identity == Some(id)
    ensures f.None? ==> forall r :: r in rows ==> rows[r].identity != Some(id)
  {
    if r :| r in rows && rows[r].identity == Some(id) then Some(r) else None
  }

  predicate Linkable(row: Row, email: string) {
    row.email == Some(email) && row.identity.None? && row.active
  }

  /** SQL_FIRST_LINK: the row it binds, or None when no row qualifies or the identity index refuses,
      which it also does when several rows share the address. */
  ghost function FirstLink(rows: map<RowId, Row>, id: Identity, email: string): (f: Option<RowId>)
    ensures f.Some? ==> f.value in rows && Linkable(rows[f.value], email)
    ensures f.Some? ==> forall r :: r in rows ==> rows[r].identity != Some(id)
  {
    if ByIdentity(rows, id).Some? || SeveralLinkable(rows, email) then None
    else if r :| r in rows && Linkable(rows[r], email) then Some(r) else None
  }

  predicate SeveralLinkable(rows: map<RowId, Row>, email: string) {
    exists r, q :: r in rows && q in rows && r != q && Linkable(rows[r], email) && Linkable(rows[q], email)
  }

  /** The row of a read, when it is active: what `_load` returns for a bound row. */
  function IfActive(rows: map<RowId, Row>, r: RowId): Option<RowId>
    requires r in rows
  {
    if rows[r].active then Some(r) else None
  }

  // ----- steps

  predicate Enabled(s: State, e: Event) {
    match e
    case Begin(c, _, now, _) => c !in s.calls && s.clock <= now
    case Statement(c) => c in s.calls && !s.calls[c].Loaded? && !s.calls[c].Touch?
    case Store(c) => c in s.calls && s.calls[c].Loaded?
    case Touched(c) => c in s.calls && s.calls[c].Touch?
    case TouchFailed(c) => c in s.calls && s.calls[c].Touch?
    case Fail(c) => c in s.calls
    case Deactivate(r, now) => r in s.rows && s.rows[r].active && s.clock <= now
    case Reactivate(r) => r in s.rows && !s.rows[r].active
    case SetEmail(r, _) => r in s.rows
  }

  function Answered(s: State, id: Identity, row: Option<RowId>, start: real): State {
    if row.None? then s else s.(resolved := s.resolved + [Resolved(id, row.value, start)])
  }

  /** `_load`, one statement at a time: where the call is after its next statement. */
  ghost function NextPhase(rows: map<RowId, Row>, ph: Phase): Phase {
    match ph
    case ReadIdentity(p, start) =>
      var r := ByIdentity(rows, p.identity);
      if r.Some? then Loaded(p, start, IfActive(rows, r.value))
      else if p.email.None? || p.emailVerified == Some(false) then Loaded(p, start, None)
      else Link(p, start, p.email.value)
    case Link(p, start, email) =>
      var r := FirstLink(rows, p.identity, email);
      if r.None? then ReadAgain(p, start) else Loaded(p, start, r)
    case ReadAgain(p, start) =>
      var r := ByIdentity(rows, p.identity);
      Loaded(p, start, if r.Some? then IfActive(rows, r.value) else None)
    case _ => ph
  }

  /** The directory after the statement: the first link binds its row. */
  ghost function NextRows(rows: map<RowId, Row>, ph: Phase): map<RowId, Row> {
    if ph.Link? && FirstLink(rows, ph.p.identity, ph.email).Some? then
      var r := FirstLink(rows, ph.p.identity, ph.email).value;
      rows[r := rows[r].(identity := Some(ph.p.identity))]
    else rows
  }

  ghost function AfterStatement(s: State, c: nat): State
    requires Enabled(s, Statement(c))
  {
    s.(rows := NextRows(s.rows, s.calls[c]), calls := s.calls[c := NextPhase(s.rows, s.calls[c])])
  }

  /** A cache hit answers at once, or when its touch of the row has ended; a miss loads. */
  function AfterBegin(s: State, c: nat, p: Principal, now: real, touch: bool): State {
    if p.identity in s.cache && s.cache[p.identity].expires > now then
      var entry := s.cache[p.identity];
      if touch && entry.row.Some? then s.(clock := now, calls := s.calls[c := Touch(p, now, entry)])
      else Answered(s.(clock := now), p.identity, entry.row, now)
    else s.(clock := now, calls := s.calls[c := ReadIdentity(p, now)])
  }

  /** The cache with room for one more entry: a full one is cleared. */
  function WithRoom(cache: map<Identity, Entry>): (kept: map<Identity, Entry>)
    ensures forall id :: id in kept ==> id in cache && kept[id] == cache[id]
  {
    if |cache| >= STAFF_STATE_MAX then map[] else cache
  }

  /** The cache after the load of a call has stored its row. */
  function Stored(cache: map<Identity, Entry>, ph: Phase): map<Identity, Entry>
    requires ph.Loaded?
  {
    WithRoom(cache)[ph.p.identity := Entry(ph.start + STAFF_STATE_TTL_S, ph.row)]
  }

  function AfterStore(s: State, c: nat): State
    requires Enabled(s, Store(c))
  {
    var ph := s.calls[c];
    Answered(s.(cache := Stored(s.cache, ph), calls := s.calls - {c}), ph.p.identity, ph.row, ph.start)
  }

  /** The end of a touch: the call answers with its entry's row, and rewrites the entry if the touch worked. */
  function AfterTouch(s: State, c: nat, worked: bool): State
    requires Enabled(s, Touched(c))
  {
    var Touch(p, start, entry) := s.calls[c];
    Answered(s.(cache := if worked then s.cache[p.identity := entry] else s.cache, calls := s.calls - {c}),
             p.identity, entry.row, start)
  }

  ghost function Step(s: State, e: Event): State
    requires Enabled(s, e)
  {
    match e
    case Begin(c, p, now, touch) => AfterBegin(s, c, p, now, touch)
    case Statement(c) => AfterStatement(s, c)
    case Store(c) => AfterStore(s, c)
    case Touched(c) => AfterTouch(s, c, true)
    case TouchFailed(c) => AfterTouch(s, c, false)
    case Fail(c) => s.(calls := s.calls - {c})
    case Deactivate(r, now) =>
      s.(rows := s.rows[r := s.rows[r].(active := false)], off := s.off[r := now], clock := now)
    case Reactivate(r) =>
      s.(rows := s.rows[r := s.rows[r].(active := true)], off := s.off - {r})
    case SetEmail(r, email) => s.(rows := s.rows[r := s.rows[r].(email := email)])
  }

  ghost predicate Starts(s: State) {
    && Unique(s.rows) && s.cache == map[] && s.calls == map[] && s.resolved == []
    && OffOk(s.rows, s.off, s.clock)
  }

  ghost predicate IsRun(run: seq<State>, events: seq<Event>) {
    && |run| == |events| + 1 && Starts(run[0])
    && forall i :: 0 <= i < |events| ==> Enabled(run[i], events[i]) && run[i + 1] == Step(run[i], events[i])
  }

  // ----- binding

  /** Whoever holds a row, in the cache or in a call under way, holds the row bound to that identity. */
  predicate Bound(rows: map<RowId, Row>, id: Identity, row: Option<RowId>) {
    row.Some? ==> row.value in rows && rows[row.value].identity == Some(id)
  }

  predicate PhaseBound(rows: map<RowId, Row>, ph: Phase) {
    match ph
    case Loaded(p, _, row) => Bound(rows, p.identity, row)
    case Touch(p, _, entry) => Bound(rows, p.identity, entry.row)
    case _ => true
  }

  predicate CacheBound(rows: map<RowId, Row>, cache: map<Identity, Entry>) {
    forall id :: id in cache ==> Bound(rows, id, cache[id].row)
  }

  predicate CallsBound(rows: map<RowId, Row>, calls: map<nat, Phase>) {
    forall c :: c in calls ==> PhaseBound(rows, calls[c])
  }

  predicate ResolvedBound(rows: map<RowId, Row>, resolved: seq<Resolved>) {
    forall x :: x in resolved ==> Bound(rows, x.identity, Some(x.row))
  }

  predicate BindingOk(s: State) {
    Unique(s.rows) && CacheBound(s.rows, s.cache) && CallsBound(s.rows, s.calls) && ResolvedBound(s.rows, s.resolved)
  }

  /** A step never takes a row away or changes an identity that is set. */
  predicate Grows(rows: map<RowId, Row>, rows': map<RowId, Row>) {
    forall r :: r in rows ==> r in rows' && (rows[r].identity.Some? ==> rows'[r].identity == rows[r].identity)
  }

  lemma StepGrows(s: State, e: Event)
    requires Enabled(s, e)
    ensures Grows(s.rows, Step(s, e).rows)
  {
    match e
    case Statement(c) =>
    case Begin(_, _, _, _) =>
    case Store(_) =>
    case Touched(_) =>
    case TouchFailed(_) =>
    case _ =>
  }

  lemma GrowsKeepsBound(rows: map<RowId, Row>, rows': map<RowId, Row>, s: State)
    requires Grows(rows, rows')
    requires CacheBound(rows, s.cache) && CallsBound(rows, s.calls) && ResolvedBound(rows, s.resolved)
    ensures CacheBound(rows', s.cache) && CallsBound(rows', s.calls) && ResolvedBound(rows', s.resolved)
  {
    forall c | c in s.calls
      ensures PhaseBound(rows', s.calls[c])
    {
      assert PhaseBound(rows, s.calls[c]);
    }
  }

  lemma EditKeepsBound(s: State, r: RowId, row: Row)
    requires BindingOk(s) && r in s.rows && row.identity == s.rows[r].identity
    ensures BindingOk(s.(rows := s.rows[r := row]))
  {
    GrowsKeepsBound(s.rows, s.rows[r := row], s);
  }

  /** The first sign-in binds a row that was free, to an identity no row had. */
  lemma LinkKeepsBinding(s: State, c: nat, p: Principal, start: real, r: RowId)
    requires BindingOk(s) && r in s.rows && s.rows[r].identity.None?
    requires forall q :: q in s.rows ==> s.rows[q].identity != Some(p.identity)
    ensures BindingOk(s.(rows := s.rows[r := s.rows[r].(identity := Some(p.identity))],
                         calls := s.calls[c := Loaded(p, start, Some(r))]))
  {
    var rows := s.rows[r := s.rows[r].(identity := Some(p.identity))];
    GrowsKeepsBound(s.rows, rows, s);
  }

  lemma StatementKeepsBinding(s: State, c: nat)
    requires BindingOk(s) && Enabled(s, Statement(c))
    ensures BindingOk(AfterStatement(s, c))
  {
    if s.calls[c].Link? && FirstLink(s.rows, s.calls[c].p.identity, s.calls[c].email).Some? {
      var Link(p, start, email) := s.calls[c];
      LinkKeepsBinding(s, c, p, start, FirstLink(s.rows, p.identity, email).value);
    } else {
      assert PhaseBound(s.rows, AfterStatement(s, c).calls[c]);
    }
  }

  lemma BeginKeepsBinding(s: State, c: nat, p: Principal, now: real, touch: bool)
    requires BindingOk(s)
    ensures BindingOk(AfterBegin(s, c, p, now, touch))
  {
  }

  lemma StoreKeepsBinding(s: State, c: nat)
    requires BindingOk(s) && Enabled(s, Store(c))
    ensures BindingOk(AfterStore(s, c))
  {
    assert PhaseBound(s.rows, s.calls[c]);
  }

  lemma TouchKeepsBinding(s: State, c: nat, worked: bool)
    requires BindingOk(s) && Enabled(s, Touched(c))
    ensures BindingOk(AfterTouch(s, c, worked))
  {
    assert PhaseBound(s.rows, s.calls[c]);
  }

  lemma StepKeepsBinding(s: State, e: Event)
    requires BindingOk(s) && Enabled(s, e)
    ensures BindingOk(Step(s, e))
  {
    match e
    case Begin(c, p, now, touch) => BeginKeepsBinding(s, c, p, now, touch);
    case Statement(c) => StatementKeepsBinding(s, c);
    case Store(c) => StoreKeepsBinding(s, c);
    case Touched(c) => TouchKeepsBinding(s, c, true);
    case TouchFailed(c) => TouchKeepsBinding(s, c, false);
    case Fail(_) =>
    case Deactivate(r, _) => EditKeepsBound(s, r, s.rows[r].(active := false));
    case Reactivate(r) => EditKeepsBound(s, r, s.rows[r].(active := true));
    case SetEmail(r, email) => EditKeepsBound(s, r, s.rows[r].(email := email));
  }

  // ----- deactivation

  /** An entry that names a deactivated row is dead a TTL after the deactivation. */
  predicate Dies(off: map<RowId, real>, entry: Entry) {
    entry.row.Some? && entry.row.value in off ==> entry.expires <= off[entry.row.value] + STAFF_STATE_TTL_S
  }

  /** The cache entry a call may still write. */
  function Writes(ph: Phase): Entry {
    match ph
    case Loaded(_, start, row) => Entry(start + STAFF_STATE_TTL_S, row)
    case Touch(_, _, entry) => entry
    case _ => Entry(ph.start + STAFF_STATE_TTL_S, None)
  }

  ghost predicate OffOk(rows: map<RowId, Row>, off: map<RowId, real>, clock: real) {
    && (forall r :: r in off <==> r in rows && !rows[r].active)
    && (forall r :: r in off ==> off[r] <= clock)
  }

  predicate EntryOk(off: map<RowId, real>, clock: real, entry: Entry) {
    Dies(off, entry) && entry.expires <= clock + STAFF_STATE_TTL_S
  }

  predicate CacheOk(off: map<RowId, real>, clock: real, cache: map<Identity, Entry>) {
    forall id :: id in cache ==> EntryOk(off, clock, cache[id])
  }

  /** The call has started, and if it touches an inactive row, within a TTL of the deactivation. */
  predicate StartOk(off: map<RowId, real>, clock: real, ph: Phase) {
    && ph.start <= clock
    && (ph.Touch? && ph.entry.row.Some? && ph.entry.row.value in off ==>
          ph.start < off[ph.entry.row.value] + STAFF_STATE_TTL_S)
  }

  predicate CallsOk(off: map<RowId, real>, clock: real, calls: map<nat, Phase>) {
    forall c :: c in calls ==> EntryOk(off, clock, Writes(calls[c])) && StartOk(off, clock, calls[c])
  }

  predicate ResolvedOk(off: map<RowId, real>, clock: real, resolved: seq<Resolved>) {
    forall x :: x in resolved ==> x.start <= clock && (x.row in off ==> x.start < off[x.row] + STAFF_STATE_TTL_S)
  }

  ghost predicate ExpiryOk(s: State) {
    && OffOk(s.rows, s.off, s.clock) && CacheOk(s.off, s.clock, s.cache)
    && CallsOk(s.off, s.clock, s.calls) && ResolvedOk(s.off, s.clock, s.resolved)
  }

  /** What holds of the entries and answers keeps holding as the clock moves and rows go off later. */
  lemma LaterOk(off: map<RowId, real>, clock: real, off': map<RowId, real>, clock': real, s: State)
    requires clock <= clock'
    requires forall r :: r in off' ==> (r in off && off'[r] == off[r]) || off'[r] >= clock
    requires CacheOk(off, clock, s.cache) && CallsOk(off, clock, s.calls) && ResolvedOk(off, clock, s.resolved)
    ensures CacheOk(off', clock', s.cache) && CallsOk(off', clock', s.calls) && ResolvedOk(off', clock', s.resolved)
  {
    forall c | c in s.calls
      ensures EntryOk(off', clock', Writes(s.calls[c])) && StartOk(off', clock', s.calls[c])
    {
      assert EntryOk(off, clock, Writes(s.calls[c])) && StartOk(off, clock, s.calls[c]);
    }
  }

  /** The next statement keeps the call's start, and reads a row only while the row is active. */
  lemma NextPhaseReads(rows: map<RowId, Row>, ph: Phase, r: RowId)
    requires !ph.Loaded? && !ph.Touch?
    ensures var next := NextPhase(rows, ph);
            && !next.Touch? && next.start == ph.start
            && (next.Loaded? && next.row == Some(r) ==> r in rows && rows[r].active)
  {
  }

  lemma StatementKeepsExpiry(s: State, c: nat)
    requires ExpiryOk(s) && Enabled(s, Statement(c))
    ensures ExpiryOk(AfterStatement(s, c))
  {
    var ph := s.calls[c];
    var next := NextPhase(s.rows, ph);
    NextPhaseReads(s.rows, ph, if next.Loaded? && next.row.Some? then next.row.value else 0);
    assert EntryOk(s.off, s.clock, Writes(ph)) && StartOk(s.off, s.clock, ph);
    assert EntryOk(s.off, s.clock, Writes(next)) && StartOk(s.off, s.clock, next);
    assert OffOk(NextRows(s.rows, ph), s.off, s.clock);
  }

  lemma BeginKeepsExpiry(s: State, c: nat, p: Principal, now: real, touch: bool)
    requires ExpiryOk(s) && s.clock <= now
    ensures ExpiryOk(AfterBegin(s, c, p, now, touch))
  {
    LaterOk(s.off, s.clock, s.off, now, s);
  }

  /** An answer whose call started in time keeps the answers in order. */
  lemma AnsweredKeepsExpiry(s: State, id: Identity, row: Option<RowId>, start: real)
    requires ExpiryOk(s) && start <= s.clock
    requires row.Some? && row.value in s.off ==> start < s.off[row.value] + STAFF_STATE_TTL_S
    ensures ExpiryOk(Answered(s, id, row, start))
  {
  }

  /** A call that ends leaves, and may write the cache entry it may write. */
  lemma EndKeepsExpiry(s: State, c: nat, cache: map<Identity, Entry>)
    requires ExpiryOk(s) && c in s.calls
    requires forall id :: id in cache ==> (id in s.cache && cache[id] == s.cache[id]) || cache[id] == Writes(s.calls[c])
    ensures ExpiryOk(s.(cache := cache, calls := s.calls - {c}))
  {
    assert EntryOk(s.off, s.clock, Writes(s.calls[c]));
  }

  lemma StoreKeepsExpiry(s: State, c: nat)
    requires ExpiryOk(s) && Enabled(s, Store(c))
    ensures ExpiryOk(AfterStore(s, c))
  {
    var ph := s.calls[c];
    assert EntryOk(s.off, s.clock, Writes(ph)) && StartOk(s.off, s.clock, ph);
    StoredEntries(s.cache, ph);
    EndKeepsExpiry(s, c, Stored(s.cache, ph));
    AnsweredKeepsExpiry(s.(cache := Stored(s.cache, ph), calls := s.calls - {c}), ph.p.identity, ph.row, ph.start);
  }

  lemma StoredEntries(cache: map<Identity, Entry>, ph: Phase)
    requires ph.Loaded?
    ensures forall id :: id in Stored(cache, ph) ==>
              (id in cache && Stored(cache, ph)[id] == cache[id]) || Stored(cache, ph)[id] == Writes(ph)
  {
  }

  lemma TouchKeepsExpiry(s: State, c: nat, worked: bool)
    requires ExpiryOk(s) && Enabled(s, Touched(c))
    ensures ExpiryOk(AfterTouch(s, c, worked))
  {
    var Touch(p, start, entry) := s.calls[c];
    var cache := if worked then s.cache[p.identity := entry] else s.cache;
    assert StartOk(s.off, s.clock, s.calls[c]);
    EndKeepsExpiry(s, c, cache);
    AnsweredKeepsExpiry(s.(cache := cache, calls := s.calls - {c}), p.identity, entry.row, start);
  }

  lemma StepKeepsExpiry(s: State, e: Event)
    requires ExpiryOk(s) && Enabled(s, e)
    ensures ExpiryOk(Step(s, e))
  {
    match e
    case Begin(c, p, now, touch) => BeginKeepsExpiry(s, c, p, now, touch);
    case Statement(c) => StatementKeepsExpiry(s, c);
    case Store(c) => StoreKeepsExpiry(s, c);
    case Touched(c) => TouchKeepsExpiry(s, c, true);
    case TouchFailed(c) => TouchKeepsExpiry(s, c, false);
    case Fail(_) =>
    case Deactivate(r, now) => LaterOk(s.off, s.clock, s.off[r := now], now, s);
    case Reactivate(r) => LaterOk(s.off, s.clock, s.off - {r}, s.clock, s);
    case SetEmail(_, _) =>
  }

  // ----- theorems

  lemma {:induction false} RunKeepsInv(run: seq<State>, events: seq<Event>, n: nat)
    requires IsRun(run, events) && n < |run|
    ensures BindingOk(run[n]) && ExpiryOk(run[n])
  {
    if n > 0 {
      RunKeepsInv(run, events, n - 1);
      StepKeepsBinding(run[n - 1], events[n - 1]);
      StepKeepsExpiry(run[n - 1], events[n - 1]);
    }
  }

  lemma GrowsTransitive(a: map<RowId, Row>, b: map<RowId, Row>, c: map<RowId, Row>)
    requires Grows(a, b) && Grows(b, c)
    ensures Grows(a, c)
  {
  }

  /** No sign-in re-binds a row: from any point of a run on, a set identity stays. */
  lemma {:induction false} NeverRebound(run: seq<State>, events: seq<Event>, m: nat, n: nat)
    requires IsRun(run, events) && m <= n < |run|
    ensures Grows(run[m].rows, run[n].rows)
    decreases n
  {
    if m < n {
      NeverRebound(run, events, m, n - 1);
      StepGrows(run[n - 1], events[n - 1]);
      GrowsTransitive(run[m].rows, run[n - 1].rows, run[n].rows);
    }
  }

  /** In every state an identity is bound to at most one row, and that row is the only one any call has
      ever resolved it to. */
  lemma OneRowPerIdentity(run: seq<State>, events: seq<Event>, n: nat, x: Resolved, y: Resolved)
    requires IsRun(run, events) && n < |run| && x in run[n].resolved && y in run[n].resolved
    ensures Unique(run[n].rows) && x.row in run[n].rows && run[n].rows[x.row].identity == Some(x.identity)
    ensures x.identity == y.identity <==> x.row == y.row
  {
    RunKeepsInv(run, events, n);
    assert Bound(run[n].rows, x.identity, Some(x.row)) && Bound(run[n].rows, y.identity, Some(y.row));
  }

  /** A call that starts STAFF_STATE_TTL_S or more after a deactivation never resolves to the inactive row,
      even when an older slow load or an older touch writes the cache late. */
  lemma DeactivationTakesEffect(run: seq<State>, events: seq<Event>, n: nat, r: RowId, x: Resolved)
    requires IsRun(run, events) && n < |run|
    requires r in run[n].off && x in run[n].resolved && x.row == r
    ensures x.start < run[n].off[r] + STAFF_STATE_TTL_S
  {
    RunKeepsInv(run, events, n);
  }

  // ----- what may still resolve to an inactive row

  /** The row the event answers a call with. */
  function AnswerOf(s: State, e: Event): Option<RowId>
    requires Enabled(s, e)
  {
    match e
    case Begin(_, p, now, touch) =>
      if p.identity in s.cache && s.cache[p.identity].expires > now && !touch then s.cache[p.identity].row else None
    case Store(c) => s.calls[c].row
    case Touched(c) => s.calls[c].entry.row
    case TouchFailed(c) => s.calls[c].entry.row
    case _ => None
  }

  /** The event answers a call with row `r`. */
  ghost predicate Resolves(s: State, e: Event, r: RowId) {
    && Enabled(s, e) && |Step(s, e).resolved| == |s.resolved| + 1
    && Step(s, e).resolved[|s.resolved|].row == r
  }

  /** `t` has one more answer than `s`, or none more. */
  predicate Answers(s: State, t: State, row: Option<RowId>) {
    if row.None? then t.resolved == s.resolved
    else |t.resolved| == |s.resolved| + 1 && t.resolved[|s.resolved|].row == row.value
  }

  lemma BeginAnswers(s: State, e: Event)
    requires Enabled(s, e) && e.Begin?
    ensures Answers(s, AfterBegin(s, e.call, e.p, e.now, e.touch), AnswerOf(s, e))
  {
  }

  lemma EndAnswers(s: State, e: Event)
    requires Enabled(s, e) && (e.Store? || e.Touched? || e.TouchFailed?)
    ensures e.Store? ==> Answers(s, AfterStore(s, e.call), AnswerOf(s, e))
    ensures !e.Store? ==> forall worked :: Answers(s, AfterTouch(s, e.call, worked), AnswerOf(s, e))
  {
  }

  /** The call has row `r`, from its load or from the cache, and has not answered yet. */
  predicate Holds(ph: Phase, r: RowId) {
    (ph.Loaded? && ph.row == Some(r)) || (ph.Touch? && ph.entry.row == Some(r))
  }

  /** A cache hit that answers at once. */
  predicate Hit(s: State, e: Event, r: RowId) {
    && e.Begin? && !e.touch && e.p.identity in s.cache
    && s.cache[e.p.identity].expires > e.now && s.cache[e.p.identity].row == Some(r)
  }

  /** A call ends. */
  predicate Ends(e: Event) {
    e.Store? || e.Touched? || e.TouchFailed?
  }

  lemma StepAnswers(s: State, e: Event)
    requires Enabled(s, e)
    ensures Answers(s, Step(s, e), AnswerOf(s, e))
  {
    if e.Begin? {
      BeginAnswers(s, e);
    } else if Ends(e) {
      EndAnswers(s, e);
    }
  }

  lemma ResolvesIff(s: State, e: Event, r: RowId)
    requires Enabled(s, e)
    ensures Resolves(s, e, r) <==> Hit(s, e, r) || (Ends(e) && Holds(s.calls[e.call], r))
  {
    StepAnswers(s, e);
  }

  /** From STAFF_STATE_TTL_S after a deactivation, some next step resolves to the row exactly when a call
      that already has the row is still under way. */
  lemma LateResolveIff(run: seq<State>, events: seq<Event>, n: nat, r: RowId)
    requires IsRun(run, events) && n < |run| && r in run[n].off
    requires run[n].clock >= run[n].off[r] + STAFF_STATE_TTL_S
    ensures (exists e :: Resolves(run[n], e, r)) <==>
            exists c :: c in run[n].calls && Holds(run[n].calls[c], r)
  {
    RunKeepsInv(run, events, n);
    var s := run[n];
    forall e | Resolves(s, e, r) ensures Ends(e) && e.call in s.calls && Holds(s.calls[e.call], r) {
      ResolvesIff(s, e, r);
    }
    forall c | c in s.calls && Holds(s.calls[c], r) ensures exists e :: Resolves(s, e, r) {
      var e := if s.calls[c].Loaded? then Store(c) else Touched(c);
      ResolvesIff(s, e, r);
    }
  }

  predicate OwnEvent(e: Event, c: nat) {
    (e.Begin? && e.call == c) || e == Statement(c)
  }

  /** A step of another call, or of the directory, leaves the call as it is. */
  lemma CallUntouched(s: State, e: Event, c: nat)
    requires Enabled(s, e) && !OwnEvent(e, c) && c in Step(s, e).calls
    ensures c in s.calls && Step(s, e).calls[c] == s.calls[c]
  {
    if e.Begin? {
      BeginLeaves(s, e, c);
    } else if Ends(e) {
      EndLeaves(s, e, c);
    }
  }

  lemma BeginLeaves(s: State, e: Event, c: nat)
    requires e.Begin? && e.call != c
    ensures var calls := AfterBegin(s, e.call, e.p, e.now, e.touch).calls;
            (c in calls <==> c in s.calls) && (c in calls ==> calls[c] == s.calls[c])
  {
  }

  lemma EndLeaves(s: State, e: Event, c: nat)
    requires Enabled(s, e) && Ends(e)
    ensures e.Store? ==> AfterStore(s, e.call).calls == s.calls - {e.call}
    ensures !e.Store? ==> forall worked :: AfterTouch(s, e.call, worked).calls == s.calls - {e.call}
  {
  }

  /** A call that has loaded a row read it while the row was active. */
  lemma {:induction false} ReadWhileActive(run: seq<State>, events: seq<Event>, n: nat, c: nat, r: RowId)
      returns (j: nat)
    requires IsRun(run, events) && n < |run| && c in run[n].calls
    requires run[n].calls[c].Loaded? && Holds(run[n].calls[c], r)
    ensures j < n && events[j] == Statement(c) && r in run[j].rows && run[j].rows[r].active
    ensures c in run[j].calls && run[j].calls[c].start == run[n].calls[c].start
  {
    if n == 0 {
      assert false;
    } else {
      if events[n - 1] == Statement(c) {
        NextPhaseReads(run[n - 1].rows, run[n - 1].calls[c], r);
        j := n - 1;
      } else {
        CallUntouched(run[n - 1], events[n - 1], c);
        j := ReadWhileActive(run, events, n - 1, c, r);
      }
    }
  }

  /** A call began at the time it starts by. */
  lemma {:induction false} BeganAt(run: seq<State>, events: seq<Event>, n: nat, c: nat) returns (b: nat)
    requires IsRun(run, events) && n < |run| && c in run[n].calls
    ensures b < n && events[b].Begin? && events[b].call == c && events[b].now == run[n].calls[c].start
  {
    if n == 0 {
      assert false;
    } else {
      if events[n - 1].Begin? && events[n - 1].call == c {
        b := n - 1;
      } else {
        if events[n - 1] == Statement(c) {
          NextPhaseReads(run[n - 1].rows, run[n - 1].calls[c], 0);
        } else {
          CallUntouched(run[n - 1], events[n - 1], c);
        }
        b := BeganAt(run, events, n - 1, c);
      }
    }
  }

  /** How event `n` can resolve to a row that is inactive since state `d`: by a cache hit less than
      STAFF_STATE_TTL_S after the deactivation, by the end of a touch whose call hit the cache in that time,
      or by a call that began and read the row before the deactivation. So a call that begins after the
      deactivation and loads never resolves to the row. */
  lemma HowInactiveResolves(run: seq<State>, events: seq<Event>, d: nat, n: nat, r: RowId) returns (b: nat, j: nat)
    requires IsRun(run, events) && d <= n < |events| && Resolves(run[n], events[n], r)
    requires forall i :: d <= i <= n ==> r in run[i].off
    ensures events[n].Begin? || Ends(events[n])
    ensures events[n].Begin? ==> events[n].now < run[n].off[r] + STAFF_STATE_TTL_S
    ensures Ends(events[n]) ==> b < n && events[b].Begin? && events[b].call == events[n].call
    ensures Ends(events[n]) && !events[n].Store? ==> events[b].now < run[n].off[r] + STAFF_STATE_TTL_S
    ensures events[n].Store? ==> b < j < d && events[j] == Statement(events[n].call)
  {
    b, j := 0, 0;
    ResolvesIff(run[n], events[n], r);
    RunKeepsInv(run, events, n);
    if events[n].Store? {
      j := ReadWhileActive(run, events, n, events[n].call, r);
      RunKeepsInv(run, events, j);
      b := BeganAt(run, events, j, events[n].call);
    } else if Ends(events[n]) {
      b := BeganAt(run, events, n, events[n].call);
      assert StartOk(run[n].off, run[n].clock, run[n].calls[events[n].call]);
    }
  }

  /** One row, bound to `id`. */
  function OneRow(id: Identity, active: bool): map<RowId, Row> {
    map[0 := Row(None, active, Some(id))]
  }

  /** The call under way after it has read the row. */
  lemma ReadsRow(s: State, p: Principal)
    requires s.rows == OneRow(p.identity, true) && s.calls == map[0 := ReadIdentity(p, 0.0)]
    ensures Step(s, Statement(0)) == s.(calls := map[0 := Loaded(p, 0.0, Some(0))])
  {
    assert s.rows[0].identity == Some(p.identity);
    assert ByIdentity(s.rows, p.identity) == Some(0);
  }

  lemma SlowLoadSteps(p: Principal, q: Principal, s: State)
    requires s == State(OneRow(p.identity, true), map[], map[], map[0 := Loaded(p, 0.0, Some(0))], 0.0, [])
    ensures var off := Step(s, Deactivate(0, 1.0));
            && off == State(OneRow(p.identity, false), map[0 := 1.0], map[], s.calls, 1.0, [])
            && Step(off, Begin(1, q, 100.0, false)) ==
               off.(clock := 100.0, calls := map[0 := Loaded(p, 0.0, Some(0)), 1 := ReadIdentity(q, 100.0)])
  {
  }

  lemma Extend(run: seq<State>, events: seq<Event>, e: Event)
    requires IsRun(run, events) && Enabled(run[|events|], e)
    ensures IsRun(run + [Step(run[|events|], e)], events + [e])
  {
    var more, all := run + [Step(run[|events|], e)], events + [e];
    forall i | 0 <= i < |all| ensures Enabled(more[i], all[i]) && more[i + 1] == Step(more[i], all[i]) {
      if i < |events| {
        assert more[i] == run[i] && more[i + 1] == run[i + 1] && all[i] == events[i];
      }
    }
  }

  /** A call has read the one row there is. */
  lemma LoadUnderWay(p: Principal) returns (run: seq<State>, events: seq<Event>)
    ensures IsRun(run, events)
    ensures run[|events|] ==
            State(OneRow(p.identity, true), map[], map[], map[0 := Loaded(p, 0.0, Some(0))], 0.0, [])
  {
    run, events := [State(OneRow(p.identity, true), map[], map[], map[], 0.0, [])], [];
    Extend(run, events, Begin(0, p, 0.0, false));
    run, events := run + [Step(run[0], Begin(0, p, 0.0, false))], [Begin(0, p, 0.0, false)];
    ReadsRow(run[1], p);
    Extend(run, events, Statement(0));
    run, events := run + [Step(run[1], Statement(0))], events + [Statement(0)];
  }

  /** A load that read the row before its deactivation may still answer with it when the cache time has
      long passed. */
  lemma SlowLoadResolvesLate(p: Principal, q: Principal) returns (run: seq<State>, events: seq<Event>)
    ensures IsRun(run, events) && 0 in run[|events|].off
    ensures run[|events|].clock >= run[|events|].off[0] + STAFF_STATE_TTL_S
    ensures Resolves(run[|events|], Store(0), 0)
  {
    run, events := LoadUnderWay(p);
    var s2, e2, e3 := run[|events|], Deactivate(0, 1.0), Begin(1, q, 100.0, false);
    SlowLoadSteps(p, q, s2);
    var s3 := Step(s2, e2);
    Extend(run, events, e2);
    Extend(run + [s3], events + [e2], e3);
    run, events := run + [s3] + [Step(s3, e3)], events + [e2] + [e3];
    ResolvesIff(run[|events|], Store(0), 0);
  }

  /** The load has stored its row, and an admin deactivates the row a second later. */
  lemma StoredThenOff(p: Principal) returns (run: seq<State>, events: seq<Event>)
    ensures IsRun(run, events)
    ensures run[|events|].rows == OneRow(p.identity, false) && run[|events|].off == map[0 := 1.0]
    ensures run[|events|].cache == map[p.identity := Entry(60.0, Some(0))]
    ensures run[|events|].calls == map[] && run[|events|].clock == 1.0
  {
    run, events := LoadUnderWay(p);
    var s2, e2, e3 := run[|events|], Store(0), Deactivate(0, 1.0);
    var s3 := Step(s2, e2);
    assert s3.cache == map[p.identity := Entry(60.0, Some(0))] && s3.calls == map[];
    Extend(run, events, e2);
    Extend(run + [s3], events + [e2], e3);
    run, events := run + [s3] + [Step(s3, e3)], events + [e2] + [e3];
  }

  /** A call that begins after the deactivation, hits the cache and touches the row may answer with it when
      the cache time has long passed. */
  lemma SlowTouchResolvesLate(p: Principal, q: Principal) returns (run: seq<State>, events: seq<Event>)
    requires p.identity != q.identity
    ensures IsRun(run, events) && 0 in run[|events|].off
    ensures run[|events|].clock >= run[|events|].off[0] + STAFF_STATE_TTL_S
    ensures 1 in run[|events|].calls && run[|events|].calls[1].start > run[|events|].off[0]
    ensures Resolves(run[|events|], Touched(1), 0) && Resolves(run[|events|], TouchFailed(1), 0)
  {
    run, events := StoredThenOff(p);
    var s2, e2, e3 := run[|events|], Begin(1, p, 59.0, true), Begin(2, q, 100.0, false);
    var s3 := Step(s2, e2);
    assert s3.calls == map[1 := Touch(p, 59.0, Entry(60.0, Some(0)))] && s3.off == s2.off && s3.cache == s2.cache;
    Extend(run, events, e2);
    var s4 := Step(s3, e3);
    assert s4.calls[1] == s3.calls[1] && s4.off == s3.off && s4.clock == 100.0;
    Extend(run + [s3], events + [e2], e3);
    run, events := run + [s3] + [s4], events + [e2] + [e3];
    ResolvesIff(s4, Touched(1), 0);
    ResolvesIff(s4, TouchFailed(1), 0);
  }
}
