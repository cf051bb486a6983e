/**
 The job queue of shared/jobs/queue.py. Each operation is one UPDATE guarded by the expected status
 and, for a running job, by the worker in `locked_by`; operations of any number of workers, the reaper
 and the admins interleave freely. A run is a sequence of such statements, each at its own database time.

 `claims`, `requeues`, `starts` and `givenBack` of a row and the set of grants are history kept for the
 theorems below: no guard reads them.
 */
module JobQueue {
  import opened Common

  datatype Status = Queued | Running | Succeeded | Failed | StoppedBudget | Cancelled

  datatype Job = Job(kind: string, status: Status, attempt: nat, maxAttempts: int, lockedBy: Option<string>,
                     lockedUntil: Option<int>, runAfter: int, cancelRequested: bool, releases: nat,
                     cost: int, progress: map<string, string>,
                     claims: nat, requeues: nat, starts: nat, givenBack: nat)

  /** What a worker holds after a claim: the row as the claim returned it. */
  datatype Grant = Grant(id: nat, worker: string, claim: nat, attempt: nat, maxAttempts: int)

  /** What a worker writes about a job it believes it holds. */
  datatype Report =
    | Heartbeat(now: int, lease: int)
    | Finish(status: Status, cost: Option<int>)
    | Fail(retryable: bool, now: int, delay: int, cost: Option<int>)
    | Release(counted: bool, now: int, delay: int, cost: Option<int>)
    | Progress(fields: map<string, string>, cost: Option<int>)

  datatype Event =
    | Enqueue(id: nat, kind: string, maxAttempts: int, runAfter: int)
    | Claim(id: nat, worker: string, caps: map<string, int>, now: int, lease: int)
    | Write(grant: Grant, report: Report)
    | ReapRequeue(now: int)
    | ReapFail(now: int)
    | RequestCancel(id: nat)
    | CancelRetired(kinds: set<string>)
    | Retry(id: nat, now: int)

  datatype State = State(jobs: map<nat, Job>, grants: set<Grant>)

  const MAX_RELEASES := 3

  // ----- the statements, row by row

  predicate Expired(j: Job, now: int) {
    j.status.Running? && j.lockedUntil.Some? && j.lockedUntil.value < now
  }

  function NewRow(kind: string, maxAttempts: int, runAfter: int): Job {
    Job(kind, Queued, 0, maxAttempts, None, None, runAfter, false, 0, 0, map[], 0, 0, 0, 0)
  }

  function Unlocked(j: Job, status: Status): Job {
    j.(status := status, lockedBy := None, lockedUntil := None)
  }

  function Claimed(j: Job, worker: string, until: int): Job {
    j.(status := Running, attempt := j.attempt + 1, lockedBy := Some(worker), lockedUntil := Some(until),
       claims := j.claims + 1, starts := j.starts + 1)
  }

  /** The guard of every write by a worker. */
  predicate HeldBy(j: Job, worker: string) {
    j.status.Running? && j.lockedBy == Some(worker)
  }

  function Released(j: Job, counted: bool, runAfter: int): Job {
    var releases := j.releases + if counted then 1 else 0;
    var status :=
      if j.cancelRequested then Cancelled else if counted && releases >= MAX_RELEASES then Failed else Queued;
    Unlocked(j, status).(attempt := if j.attempt > 0 then j.attempt - 1 else 0,
                         runAfter := runAfter, releases := releases,
                         requeues := if counted && status.Queued? then j.requeues + 1 else j.requeues,
                         givenBack := j.givenBack + 1)
  }

  /** coalesce(cost, cost_usd). */
  function Charged(j: Job, cost: Option<int>): Job {
    if cost.Some? then j.(cost := cost.value) else j
  }

  /** `set_progress`: an UPDATE by id alone, whoever holds the job. */
  function Progressed(j: Job, fields: map<string, string>, cost: Option<int>): Job {
    Charged(j.(progress := j.progress + fields), cost)
  }

  function Reported(j: Job, g: Grant, r: Report): Job {
    if r.Progress? then Progressed(j, r.fields, r.cost)
    else if !HeldBy(j, g.worker) then j
    else
      match r
      case Heartbeat(now, lease) => j.(lockedUntil := Some(now + lease))
      case Finish(status, cost) => Charged(Unlocked(j, status), cost)
      case Fail(retryable, now, delay, cost) =>
        if retryable && g.attempt < g.maxAttempts then Charged(Unlocked(j, Queued).(runAfter := now + delay), cost)
        else Charged(Unlocked(j, Failed), cost)
      case Release(counted, now, delay, cost) =>
        Charged(Released(j, counted, now + if delay > 0 then delay else 0), cost)
      case Progress(_, _) => j
  }

  /** The row without the two columns that progress writes. */
  function Core(j: Job): Job {
    j.(cost := 0, progress := map[])
  }

  function ReapRequeued(j: Job, now: int): Job {
    if Expired(j, now) && j.attempt < j.maxAttempts && !j.cancelRequested
    then Unlocked(j, Queued).(runAfter := now) else j
  }

  function ReapFailed(j: Job, now: int): Job {
    if Expired(j, now) then Unlocked(j, if j.cancelRequested then Cancelled else Failed) else j
  }

  function CancelAsked(j: Job): Job {
    if j.status in {Queued, StoppedBudget} then j.(status := Cancelled, cancelRequested := true)
    else if j.status.Running? then j.(cancelRequested := true)
    else j
  }

  function Retried(j: Job, now: int): Job {
    if j.status in {Failed, StoppedBudget, Cancelled} then
      j.(status := Queued, attempt := 0, runAfter := now, cancelRequested := false, starts := 0, givenBack := 0)
    else j
  }

  /** Row `id` after `e`; `room` says that the claim of `e` found its job eligible. */
  function RowAfter(j: Job, id: nat, e: Event, room: bool): Job {
    match e
    case Enqueue(_, _, _, _) => j
    case Claim(i, worker, _, now, lease) => if i == id && room then Claimed(j, worker, now + lease) else j
    case Write(g, r) => if g.id == id then Reported(j, g, r) else j
    case ReapRequeue(now) => ReapRequeued(j, now)
    case ReapFail(now) => ReapFailed(j, now)
    case RequestCancel(i) => if i == id then CancelAsked(j) else j
    case CancelRetired(kinds) => if j.kind in kinds && j.status in {Queued, Running} then Unlocked(j, Cancelled) else j
    case Retry(i, now) => if i == id then Retried(j, now) else j
  }

  // ----- the table

  function RunningOf(jobs: map<nat, Job>, kind: string): set<nat> {
    set id | id in jobs && jobs[id].status.Running? && jobs[id].kind == kind
  }

  /** The claim's guard: due, not flagged, and fewer of its kind running than the cap given. */
  predicate Eligible(jobs: map<nat, Job>, e: Event) {
    && e.Claim? && e.id in jobs
    && var j := jobs[e.id];
    && j.status.Queued? && j.runAfter <= e.now && !j.cancelRequested
    && j.kind in e.caps && |RunningOf(jobs, j.kind)| < e.caps[j.kind]
  }

  predicate Enabled(s: State, e: Event) {
    match e
    case Enqueue(id, _, maxAttempts, _) => id !in s.jobs
    case Write(g, r) => g in s.grants && (r.Finish? ==> r.status !in {Queued, Running})
    case _ => true
  }

  function Rows(jobs: map<nat, Job>, e: Event): map<nat, Job> {
    map id | id in jobs :: RowAfter(jobs[id], id, e, Eligible(jobs, e))
  }

  function Step(s: State, e: Event): State {
    if e.Enqueue? then
      s.(jobs := s.jobs[e.id := NewRow(e.kind, e.maxAttempts, e.runAfter)])
    else if Eligible(s.jobs, e) then
      var j := s.jobs[e.id];
      State(Rows(s.jobs, e), s.grants + {Grant(e.id, e.worker, j.claims + 1, j.attempt + 1, j.maxAttempts)})
    else
      s.(jobs := Rows(s.jobs, e))
  }

  ghost predicate IsRun(run: seq<State>, events: seq<Event>) {
    && |run| == |events| + 1 && run[0] == State(map[], {})
    && forall i :: 0 <= i < |events| ==> Enabled(run[i], events[i]) && run[i + 1] == Step(run[i], events[i])
  }

  // ----- what every row keeps

  predicate RowOk(j: Job) {
    && (j.status.Running? <==> j.lockedBy.Some?) && (j.status.Running? <==> j.lockedUntil.Some?)
    && j.requeues <= j.releases && j.requeues < MAX_RELEASES
    && j.starts == j.attempt + j.givenBack && (j.status.Running? ==> j.attempt >= 1)
  }

  /** A report ends a job or leaves it with its worker; what it does to the history adds up. */
  lemma ReportStaysOk(j: Job, g: Grant, r: Report)
    requires RowOk(j) && (r.Finish? ==> r.status !in {Queued, Running})
    ensures RowOk(Reported(j, g, r))
  {
    match r
    case Heartbeat(_, _) =>
    case Finish(_, _) =>
    case Fail(_, _, _, _) =>
    case Release(_, _, _, _) =>
    case Progress(_, _) =>
  }

  lemma RowStaysOk(j: Job, id: nat, e: Event, room: bool)
    requires RowOk(j) && (e.Write? && e.report.Finish? ==> e.report.status !in {Queued, Running})
    ensures RowOk(RowAfter(j, id, e, room))
  {
    if e.Write? {
      ReportStaysOk(j, e.grant, e.report);
    }
  }

  ghost predicate RowsOk(jobs: map<nat, Job>) {
    forall id :: id in jobs ==> RowOk(jobs[id])
  }

  lemma StepKeepsRows(s: State, e: Event)
    requires RowsOk(s.jobs) && Enabled(s, e)
    ensures RowsOk(Step(s, e).jobs)
  {
    forall id | id in s.jobs ensures RowOk(RowAfter(s.jobs[id], id, e, Eligible(s.jobs, e))) {
      RowStaysOk(s.jobs[id], id, e, Eligible(s.jobs, e));
    }
  }

  predicate SameHolder(j: Job, k: Job) {
    && k.kind == j.kind && k.claims == j.claims && k.maxAttempts == j.maxAttempts
    && (k.status.Running? ==> j.status.Running? && k.lockedBy == j.lockedBy && k.attempt == j.attempt)
  }

  lemma ReportKeepsHolder(j: Job, g: Grant, r: Report)
    requires r.Finish? ==> r.status !in {Queued, Running}
    ensures SameHolder(j, Reported(j, g, r))
  {
    match r
    case Heartbeat(_, _) =>
    case Finish(_, _) =>
    case Fail(_, _, _, _) =>
    case Release(_, _, _, _) =>
    case Progress(_, _) =>
  }

  /** Only a claim starts a job or changes who holds it. */
  lemma NoNewHolder(j: Job, id: nat, e: Event, room: bool)
    requires !(e.Claim? && e.id == id && room)
    requires e.Write? && e.report.Finish? ==> e.report.status !in {Queued, Running}
    ensures SameHolder(j, RowAfter(j, id, e, room))
  {
    if e.Write? {
      ReportKeepsHolder(j, e.grant, e.report);
    }
  }

  // ----- the cap per kind

  lemma {:induction false} SubsetSize<T>(a: set<T>, b: set<T>)
    requires a <= b
    ensures |a| <= |b|
  {
    if a != {} {
      var x :| x in a;
      SubsetSize(a - {x}, b - {x});
    }
  }

  lemma StepKeepsCap(s: State, e: Event, kind: string, cap: nat)
    requires Enabled(s, e) && |RunningOf(s.jobs, kind)| <= cap
    requires e.Claim? && kind in e.caps ==> e.caps[kind] <= cap
    ensures |RunningOf(Step(s, e).jobs, kind)| <= cap
  {
    var before, after := RunningOf(s.jobs, kind), RunningOf(Step(s, e).jobs, kind);
    forall id | id in s.jobs && !(e.Claim? && e.id == id && Eligible(s.jobs, e))
      ensures SameHolder(s.jobs[id], RowAfter(s.jobs[id], id, e, Eligible(s.jobs, e)))
    {
      NoNewHolder(s.jobs[id], id, e, Eligible(s.jobs, e));
    }
    if Eligible(s.jobs, e) && s.jobs[e.id].kind == kind {
      assert after <= before + {e.id};
      SubsetSize(after, before + {e.id});
    } else {
      assert after <= before;
      SubsetSize(after, before);
    }
  }

  /** Claims cap each kind exactly: with caps of at most `cap`, no state of any run has more of the kind running. */
  lemma {:induction false} CapHolds(run: seq<State>, events: seq<Event>, kind: string, cap: nat, k: nat)
    requires IsRun(run, events) && k < |run|
    requires forall i :: 0 <= i < |events| && events[i].Claim? && kind in events[i].caps ==> events[i].caps[kind] <= cap
    ensures |RunningOf(run[k].jobs, kind)| <= cap
  {
    if k == 0 {
      assert RunningOf(run[0].jobs, kind) == {};
    } else {
      CapHolds(run, events, kind, cap, k - 1);
      StepKeepsCap(run[k - 1], events[k - 1], kind, cap);
    }
  }

  // ----- who holds a job

  /** What the table says about the grants handed out for one row. */
  predicate GrantOk(j: Job, g: Grant) {
    && g.claim <= j.claims && g.maxAttempts == j.maxAttempts
    && (g.claim == j.claims && j.status.Running? ==> j.lockedBy == Some(g.worker) && j.attempt == g.attempt)
  }

  /** The grant of the claim a running row is under. */
  function Current(j: Job, id: nat): Grant
    requires j.lockedBy.Some?
  {
    Grant(id, j.lockedBy.value, j.claims, j.attempt, j.maxAttempts)
  }

  ghost predicate GrantsOk(jobs: map<nat, Job>, grants: set<Grant>) {
    && (forall g :: g in grants ==> g.id in jobs && GrantOk(jobs[g.id], g))
    && (forall id :: id in jobs && jobs[id].status.Running? ==>
          jobs[id].lockedBy.Some? && Current(jobs[id], id) in grants)
  }

  ghost predicate Inv(s: State) {
    RowsOk(s.jobs) && GrantsOk(s.jobs, s.grants)
  }

  lemma OtherStepKeepsGrants(s: State, e: Event)
    requires Inv(s) && Enabled(s, e) && !Eligible(s.jobs, e)
    ensures GrantsOk(Step(s, e).jobs, Step(s, e).grants)
  {
    var room, after := Eligible(s.jobs, e), Step(s, e).jobs;
    forall id | id in s.jobs && (e.Enqueue? ==> id != e.id)
      ensures after[id] == RowAfter(s.jobs[id], id, e, room)
      ensures after[id].status.Running? ==> after[id].lockedBy.Some? && Current(after[id], id) in s.grants
    {
      NoNewHolder(s.jobs[id], id, e, room);
    }
    forall g | g in s.grants ensures g.id in after && GrantOk(after[g.id], g) {
      NoNewHolder(s.jobs[g.id], g.id, e, room);
    }
  }

  lemma ClaimKeepsGrants(s: State, e: Event)
    requires Inv(s) && Eligible(s.jobs, e)
    ensures GrantsOk(Step(s, e).jobs, Step(s, e).grants)
  {
    var after, j := Step(s, e).jobs, s.jobs[e.id];
    var grant := Grant(e.id, e.worker, j.claims + 1, j.attempt + 1, j.maxAttempts);
    assert Current(after[e.id], e.id) == grant;
    forall g | g in s.grants + {grant} ensures g.id in after && GrantOk(after[g.id], g) {
      assert g != grant ==> g.id in s.jobs && GrantOk(s.jobs[g.id], g);
    }
  }

  lemma {:induction false} RunKeepsInv(run: seq<State>, events: seq<Event>, k: nat)
    requires IsRun(run, events) && k < |run|
    ensures Inv(run[k])
  {
    if k > 0 {
      var s, e := run[k - 1], events[k - 1];
      RunKeepsInv(run, events, k - 1);
      StepKeepsRows(s, e);
      if Eligible(s.jobs, e) {
        ClaimKeepsGrants(s, e);
      } else {
        OtherStepKeepsGrants(s, e);
      }
    }
  }

  /** The holder of a stale grant `g` has itself claimed the job again, and that claim is the one running. */
  predicate ReclaimedBySelf(s: State, g: Grant)
    requires g.id in s.jobs
  {
    var j := s.jobs[g.id];
    g.claim < j.claims && j.status.Running? && Grant(g.id, g.worker, j.claims, j.attempt, j.maxAttempts) in s.grants
  }

  /**
   When does a write reach a claim that is not its own? A guarded write exactly when the same worker id
   holds a later claim of the job; in every other case a guarded write of a grant that lost the job changes
   nothing. A progress write always does, but only the cost and progress of the row.
   */
  lemma StaleWriteLandsIff(run: seq<State>, events: seq<Event>, k: nat, g: Grant, r: Report)
    requires IsRun(run, events) && k < |run| && g in run[k].grants
    ensures g.id in run[k].jobs
    ensures HeldBy(run[k].jobs[g.id], g.worker) && g.claim != run[k].jobs[g.id].claims <==> ReclaimedBySelf(run[k], g)
    ensures !r.Progress? && !HeldBy(run[k].jobs[g.id], g.worker) ==> Step(run[k], Write(g, r)) == run[k]
    ensures !r.Progress? && g.claim != run[k].jobs[g.id].claims && !ReclaimedBySelf(run[k], g) ==>
              Step(run[k], Write(g, r)) == run[k]
    ensures r.Progress? ==>
              var j := run[k].jobs[g.id];
              && Step(run[k], Write(g, r)) == run[k].(jobs := run[k].jobs[g.id := Progressed(j, r.fields, r.cost)])
              && Core(Progressed(j, r.fields, r.cost)) == Core(j)
  {
    RunKeepsInv(run, events, k);
    var s, e := run[k], Write(g, r);
    if r.Progress? {
      assert Rows(s.jobs, e) == s.jobs[g.id := Progressed(s.jobs[g.id], r.fields, r.cost)];
    } else if !HeldBy(s.jobs[g.id], g.worker) {
      assert Rows(s.jobs, e) == s.jobs;
    }
  }

  /** If no worker claims a job twice, every guarded write that lands is by the claim the job is under. */
  lemma FencedWithoutReclaim(run: seq<State>, events: seq<Event>, k: nat, g: Grant)
    requires IsRun(run, events) && k < |run| && g in run[k].grants
    requires forall h :: h in run[k].grants && h.id == g.id && h.worker == g.worker ==> h == g
    ensures g.id in run[k].jobs && (HeldBy(run[k].jobs[g.id], g.worker) ==> g == Current(run[k].jobs[g.id], g.id))
  {
    RunKeepsInv(run, events, k);
  }

  // ----- attempts

  predicate AttemptsOk(j: Job) {
    1 <= j.maxAttempts && j.attempt <= j.maxAttempts && (j.status.Queued? ==> j.attempt < j.maxAttempts)
  }

  /** A write keeps the attempts within bounds exactly when it does not re-queue a row that has none left. */
  lemma WriteKeepsAttemptsIff(j: Job, g: Grant, r: Report)
    requires AttemptsOk(j)
    ensures AttemptsOk(Reported(j, g, r)) <==>
            !(HeldBy(j, g.worker) && j.attempt == j.maxAttempts &&
              ((r.Fail? && r.retryable && g.attempt < g.maxAttempts) || (r.Finish? && r.status.Queued?)))
  {
  }

  lemma RowKeepsAttempts(j: Job, id: nat, e: Event, room: bool)
    requires AttemptsOk(j) && (e.Claim? && e.id == id && room ==> j.status.Queued?)
    requires e.Write? && e.report.Finish? ==> e.report.status !in {Queued, Running}
    requires e.Write? && !e.report.Progress? && e.grant.id == id && HeldBy(j, e.grant.worker) ==>
               e.grant.attempt == j.attempt && e.grant.maxAttempts == j.maxAttempts
    ensures AttemptsOk(RowAfter(j, id, e, room))
  {
    if e.Write? && e.grant.id == id {
      WriteKeepsAttemptsIff(j, e.grant, e.report);
    }
  }

  /** Every guarded write that lands is by the claim the job is under. */
  ghost predicate Fenced(run: seq<State>, events: seq<Event>)
    requires |run| == |events| + 1
  {
    forall i :: 0 <= i < |events| && events[i].Write? && !events[i].report.Progress? ==>
      Own(run[i].jobs, events[i].grant)
  }

  predicate Own(jobs: map<nat, Job>, g: Grant) {
    g.id in jobs && (HeldBy(jobs[g.id], g.worker) ==> g.claim == jobs[g.id].claims)
  }

  /** In a fenced run the attempt column never passes `max_attempts`. */
  lemma {:induction false} AttemptsBounded(run: seq<State>, events: seq<Event>, k: nat, id: nat)
    requires IsRun(run, events) && k < |run| && Fenced(run, events) && id in run[k].jobs
    requires forall i :: 0 <= i < |events| && events[i].Enqueue? ==> 1 <= events[i].maxAttempts
    ensures AttemptsOk(run[k].jobs[id])
  {
    if k > 0 {
      var s, e := run[k - 1], events[k - 1];
      if id in s.jobs && !(e.Enqueue? && e.id == id) {
        AttemptsBounded(run, events, k - 1, id);
        RunKeepsInv(run, events, k - 1);
        assert e.Write? && !e.report.Progress? ==> Own(s.jobs, e.grant);
        RowKeepsAttempts(s.jobs[id], id, e, Eligible(s.jobs, e));
      } else {
        assert e.Enqueue?;
      }
    }
  }

  /** In every run the starts since the last retry are the attempt column plus the attempts that releases
      gave back, and a running job is in its first attempt at least. */
  lemma StartsAreCounted(run: seq<State>, events: seq<Event>, k: nat, id: nat)
    requires IsRun(run, events) && k < |run| && id in run[k].jobs
    ensures run[k].jobs[id].starts == run[k].jobs[id].attempt + run[k].jobs[id].givenBack
    ensures run[k].jobs[id].status.Running? ==> run[k].jobs[id].attempt >= 1
  {
    RunKeepsInv(run, events, k);
  }

  /** In a fenced run a job starts between retries at most as often as it has attempts, and once more for
      every release: only a release gives an attempt back. */
  lemma StartsBounded(run: seq<State>, events: seq<Event>, k: nat, id: nat)
    requires IsRun(run, events) && k < |run| && Fenced(run, events) && id in run[k].jobs
    requires forall i :: 0 <= i < |events| && events[i].Enqueue? ==> 1 <= events[i].maxAttempts
    ensures run[k].jobs[id].starts <= run[k].jobs[id].maxAttempts + run[k].jobs[id].givenBack
  {
    AttemptsBounded(run, events, k, id);
    StartsAreCounted(run, events, k, id);
  }

  // ----- runs with one job

  function Last(run: seq<State>): State
    requires run != []
  {
    run[|run| - 1]
  }

  lemma Extend(run: seq<State>, events: seq<Event>, e: Event)
    requires IsRun(run, events) && Enabled(Last(run), e)
    ensures IsRun(run + [Step(Last(run), e)], events + [e])
  {
    var more, all := run + [Step(Last(run), e)], events + [e];
    forall i | 0 <= i < |all| ensures Enabled(more[i], all[i]) && more[i + 1] == Step(more[i], all[i]) {
      if i < |events| {
        assert more[i] == run[i] && more[i + 1] == run[i + 1] && all[i] == events[i];
      }
    }
  }

  function NewJob(kind: string): Job {
    NewRow(kind, 2, 0)
  }

  lemma ClaimOne(j: Job, grants: set<Grant>, worker: string, now: int, lease: int)
    requires j.status.Queued? && j.runAfter <= now && !j.cancelRequested
    ensures Step(State(map[0 := j], grants), Claim(0, worker, map[j.kind := 1], now, lease)) ==
            State(map[0 := Claimed(j, worker, now + lease)],
                  grants + {Grant(0, worker, j.claims + 1, j.attempt + 1, j.maxAttempts)})
  {
    var jobs, e := map[0 := j], Claim(0, worker, map[j.kind := 1], now, lease);
    assert RunningOf(jobs, j.kind) == {};
    assert Eligible(jobs, e);
    assert Rows(jobs, e) == map[0 := Claimed(j, worker, now + lease)];
  }

  lemma OtherOne(j: Job, grants: set<Grant>, e: Event)
    requires !e.Enqueue? && !e.Claim?
    ensures Step(State(map[0 := j], grants), e) == State(map[0 := RowAfter(j, 0, e, false)], grants)
  {
    assert Rows(map[0 := j], e) == map[0 := RowAfter(j, 0, e, false)];
  }

  /** One job of two attempts, enqueued and claimed by `worker`. */
  lemma StartOne(kind: string, worker: string) returns (run: seq<State>, events: seq<Event>)
    ensures IsRun(run, events) && Fenced(run, events) && (forall e :: e in events ==> !e.Retry?)
    ensures Last(run) == State(map[0 := Claimed(NewJob(kind), worker, 5)], {Grant(0, worker, 1, 1, 2)})
  {
    var e0, e1 := Enqueue(0, kind, 2, 0), Claim(0, worker, map[kind := 1], 0, 5);
    run, events := [State(map[], {})], [];
    assert Step(Last(run), e0) == State(map[0 := NewJob(kind)], {});
    Extend(run, events, e0);
    run, events := run + [Step(Last(run), e0)], events + [e0];
    ClaimOne(NewJob(kind), {}, worker, 0, 5);
    Extend(run, events, e1);
    run, events := run + [Step(Last(run), e1)], events + [e1];
  }

  /** The worker loses its lease to the reaper and claims the job again: its first grant now passes the guard. */
  lemma ReclaimOne(kind: string, worker: string) returns (run: seq<State>, events: seq<Event>, j: Job)
    ensures IsRun(run, events) && HeldBy(j, worker) && j.kind == kind && j.attempt == j.maxAttempts == 2
    ensures j.claims == 2 && !j.cancelRequested && j.runAfter == 10
    ensures Last(run) == State(map[0 := j], {Grant(0, worker, 1, 1, 2), Grant(0, worker, 2, 2, 2)})
    ensures ReclaimedBySelf(Last(run), Grant(0, worker, 1, 1, 2))
  {
    run, events := StartOne(kind, worker);
    var e2, e3 := ReapRequeue(10), Claim(0, worker, map[kind := 1], 10, 60);
    var g := Grant(0, worker, 1, 1, 2);
    var back := ReapRequeued(Claimed(NewJob(kind), worker, 5), 10);
    OtherOne(Claimed(NewJob(kind), worker, 5), {g}, e2);
    Extend(run, events, e2);
    run, events := run + [Step(Last(run), e2)], events + [e2];
    ClaimOne(back, {g}, worker, 10, 60);
    Extend(run, events, e3);
    run, events := run + [Step(Last(run), e3)], events + [e3];
    j := Claimed(back, worker, 70);
    assert {g} + {Grant(0, worker, 2, 2, 2)} == {g, Grant(0, worker, 2, 2, 2)};
  }

  /** It then reports the failure of its first attempt, which re-queues a job out of attempts; a third starts. */
  lemma ReclaimOverrunsAttempts(kind: string, worker: string) returns (run: seq<State>, events: seq<Event>)
    ensures IsRun(run, events) && 0 in Last(run).jobs
    ensures Last(run).jobs[0].attempt == 3 && Last(run).jobs[0].maxAttempts == 2
  {
    var j: Job;
    run, events, j := ReclaimOne(kind, worker);
    var g, grants := Grant(0, worker, 1, 1, 2), Last(run).grants;
    var e4, e5 := Write(g, Fail(true, 10, 0, None)), Claim(0, worker, map[kind := 1], 10, 60);
    OtherOne(j, grants, e4);
    Extend(run, events, e4);
    run, events := run + [Step(Last(run), e4)], events + [e4];
    ClaimOne(Reported(j, g, Fail(true, 10, 0, None)), grants, worker, 10, 60);
    Extend(run, events, e5);
    run, events := run + [Step(Last(run), e5)], events + [e5];
  }

  lemma ExtendFenced(run: seq<State>, events: seq<Event>, e: Event)
    requires |run| == |events| + 1 && Fenced(run, events)
    requires e.Write? && !e.report.Progress? ==> Own(Last(run).jobs, e.grant)
    ensures Fenced(run + [Step(Last(run), e)], events + [e])
  {
    var more, all := run + [Step(Last(run), e)], events + [e];
    forall i | 0 <= i < |all| && all[i].Write? && !all[i].report.Progress? ensures Own(more[i].jobs, all[i].grant) {
      assert i < |events| ==> more[i] == run[i] && all[i] == events[i];
    }
  }

  /** The worker is replaced by a deploy and releases the job, which is claimed again. */
  lemma ReleaseAndClaim(run: seq<State>, events: seq<Event>, j: Job, worker: string)
      returns (more: seq<State>, all: seq<Event>)
    requires IsRun(run, events) && Fenced(run, events) && HeldBy(j, worker) && !j.cancelRequested && j.attempt == 1
    requires Last(run).jobs == map[0 := j] && Current(j, 0) in Last(run).grants
    ensures IsRun(more, all) && Fenced(more, all) && |all| == |events| + 2
    ensures forall e :: e in all ==> e in events || !e.Retry?
    ensures var after := Claimed(Released(j, false, 3), worker, 8);
            Last(more).jobs == map[0 := after] && Current(after, 0) in Last(more).grants
  {
    var g, grants := Current(j, 0), Last(run).grants;
    var e1, e2 := Write(g, Release(false, 3, 0, None)), Claim(0, worker, map[j.kind := 1], 3, 5);
    OtherOne(j, grants, e1);
    Extend(run, events, e1);
    ExtendFenced(run, events, e1);
    more, all := run + [Step(Last(run), e1)], events + [e1];
    ClaimOne(Released(j, false, 3), grants, worker, 3, 5);
    Extend(more, all, e2);
    ExtendFenced(more, all, e2);
    more, all := more + [Step(Last(more), e2)], all + [e2];
  }

  /** Two deploys in a row: a fenced run without a retry that starts a job of two attempts three times. */
  lemma ReleasesAllowMoreStarts(kind: string, worker: string) returns (run: seq<State>, events: seq<Event>)
    ensures IsRun(run, events) && Fenced(run, events) && (forall e :: e in events ==> !e.Retry?)
    ensures 0 in Last(run).jobs && Last(run).jobs[0].starts == 3 && Last(run).jobs[0].maxAttempts == 2
  {
    run, events := StartOne(kind, worker);
    var j := Claimed(NewJob(kind), worker, 5);
    run, events := ReleaseAndClaim(run, events, j, worker);
    run, events := ReleaseAndClaim(run, events, Claimed(Released(j, false, 3), worker, 8), worker);
  }

  /** A job is flagged for cancelling while it runs and then fails retryably: it is left in the queue, flagged. */
  lemma CancelIsLost(kind: string, worker: string) returns (run: seq<State>, events: seq<Event>)
    ensures IsRun(run, events) && RequestCancel(0) in events
    ensures 0 in Last(run).jobs && Stuck(Last(run).jobs[0])
  {
    run, events := StartOne(kind, worker);
    var g, j := Grant(0, worker, 1, 1, 2), Claimed(NewJob(kind), worker, 5);
    var e2, e3 := RequestCancel(0), Write(g, Fail(true, 3, 30, None));
    OtherOne(j, {g}, e2);
    Extend(run, events, e2);
    run, events := run + [Step(Last(run), e2)], events + [e2];
    OtherOne(CancelAsked(j), {g}, e3);
    Extend(run, events, e3);
    run, events := run + [Step(Last(run), e3)], events + [e3];
  }

  /** A worker loses its lease, another finishes the job, and the progress of the first still lands: the
      finished row has its cost. */
  lemma LateProgressLands(kind: string, first: string, second: string)
      returns (run: seq<State>, events: seq<Event>, i: nat)
    requires first != second
    ensures IsRun(run, events) && i < |run| && 0 in run[i].jobs && 0 in Last(run).jobs
    ensures run[i].jobs[0].status.Succeeded? && run[i].jobs[0].cost == 20
    ensures Last(run).jobs[0].status.Succeeded? && Last(run).jobs[0].cost == 9
  {
    run, events := StartOne(kind, first);
    var j1, g1, g2 := Claimed(NewJob(kind), first, 5), Grant(0, first, 1, 1, 2), Grant(0, second, 2, 2, 2);
    var j2, j3 := ReapRequeued(j1, 10), Claimed(ReapRequeued(j1, 10), second, 70);
    var e2, e3 := ReapRequeue(10), Claim(0, second, map[kind := 1], 10, 60);
    var e4, e5 := Write(g2, Finish(Succeeded, Some(20))), Write(g1, Progress(map[], Some(9)));
    OtherOne(j1, {g1}, e2);
    Extend(run, events, e2);
    run, events := run + [Step(Last(run), e2)], events + [e2];
    ClaimOne(j2, {g1}, second, 10, 60);
    Extend(run, events, e3);
    run, events := run + [Step(Last(run), e3)], events + [e3];
    OtherOne(j3, {g1} + {g2}, e4);
    Extend(run, events, e4);
    run, events := run + [Step(Last(run), e4)], events + [e4];
    i := |run| - 1;
    OtherOne(Reported(j3, g2, e4.report), {g1} + {g2}, e5);
    Extend(run, events, e5);
    run, events := run + [Step(Last(run), e5)], events + [e5];
  }

  // ----- terminal rows

  /** A finished row changes only by a retry or, when stopped by its budget, by a cancel; but for its cost and
      progress, which a progress write changes at any time. */
  lemma TerminalRow(jobs: map<nat, Job>, id: nat, e: Event)
    requires id in jobs && jobs[id].status !in {Queued, Running}
    ensures var j := RowAfter(jobs[id], id, e, Eligible(jobs, e));
            && (Core(j) != Core(jobs[id]) ==> (e.Retry? && e.id == id && !jobs[id].status.Succeeded?) ||
                                              (e.RequestCancel? && e.id == id && jobs[id].status.StoppedBudget?))
            && (Core(j) == Core(jobs[id]) && j != jobs[id] ==> e.Write? && e.grant.id == id && e.report.Progress?)
  {
  }

  /** A success is final: no later statement of any run changes the row, but for its cost and progress. */
  lemma {:induction false} SuccessIsFinal(run: seq<State>, events: seq<Event>, i: nat, k: nat, id: nat)
    requires IsRun(run, events) && i <= k < |run| && id in run[i].jobs && run[i].jobs[id].status.Succeeded?
    ensures id in run[k].jobs && Core(run[k].jobs[id]) == Core(run[i].jobs[id])
    decreases k
  {
    if i < k {
      SuccessIsFinal(run, events, i, k - 1, id);
      assert run[k - 1].jobs[id].status == Core(run[k - 1].jobs[id]).status;
      TerminalRow(run[k - 1].jobs, id, events[k - 1]);
    }
  }

  // ----- a cancel that meets a retryable failure

  /** Flagged for cancelling, but back in the queue: no claim takes it. */
  predicate Stuck(j: Job) {
    j.status.Queued? && j.cancelRequested
  }

  /** The only way there is a retryable failure of a flagged job that has attempts left. */
  lemma BecomesStuckIff(jobs: map<nat, Job>, id: nat, e: Event)
    requires id in jobs && !Stuck(jobs[id]) && (e.Write? && e.report.Finish? ==> e.report.status !in {Queued, Running})
    ensures Stuck(RowAfter(jobs[id], id, e, Eligible(jobs, e))) <==>
            e.Write? && e.grant.id == id && HeldBy(jobs[id], e.grant.worker) && jobs[id].cancelRequested &&
            e.report.Fail? && e.report.retryable && e.grant.attempt < e.grant.maxAttempts
  {
  }

  /** Such a row stays as it is in every run, but for its cost and progress, until an admin cancels it again
      or its kind is retired. */
  lemma {:induction false} StuckUntilCancelledAgain(run: seq<State>, events: seq<Event>, i: nat, k: nat, id: nat)
    requires IsRun(run, events) && i <= k < |run| && id in run[i].jobs && Stuck(run[i].jobs[id])
    requires forall n :: i <= n < k ==> events[n] != RequestCancel(id)
    requires forall n :: i <= n < k && events[n].CancelRetired? ==> run[i].jobs[id].kind !in events[n].kinds
    ensures id in run[k].jobs && Core(run[k].jobs[id]) == Core(run[i].jobs[id])
    decreases k
  {
    if i < k {
      StuckUntilCancelledAgain(run, events, i, k - 1, id);
      assert events[k - 1] != RequestCancel(id);
      var before, core := run[k - 1].jobs[id], Core(run[k - 1].jobs[id]);
      assert before.status == core.status && before.cancelRequested == core.cancelRequested && before.kind == core.kind;
    }
  }

  // ----- the reaper's two statements

  /**
   The reaper fails a job that has attempts left and is not flagged exactly when its lease ends between
   the times of the reaper's two statements.
   */
  lemma ReaperFailsEarlyIff(jobs: map<nat, Job>, id: nat, t1: int, t2: int)
    requires id in jobs && RowOk(jobs[id]) && !jobs[id].status.Failed? && t1 <= t2
    ensures var after := Rows(Rows(jobs, ReapRequeue(t1)), ReapFail(t2));
            id in after && (after[id].status.Failed? && after[id].attempt < after[id].maxAttempts <==>
                            jobs[id].status.Running? && jobs[id].attempt < jobs[id].maxAttempts &&
                            !jobs[id].cancelRequested && t1 <= jobs[id].lockedUntil.value < t2)
  {
    var between := Rows(jobs, ReapRequeue(t1));
    assert between[id] == ReapRequeued(jobs[id], t1);
    assert Rows(between, ReapFail(t2))[id] == ReapFailed(between[id], t2);
  }

  /** A job goes back to the queue by counted releases at most MAX_RELEASES - 1 times, over all its retries. */
  lemma ReleasesEnd(run: seq<State>, events: seq<Event>, k: nat, id: nat)
    requires IsRun(run, events) && k < |run| && id in run[k].jobs
    ensures run[k].jobs[id].requeues <= MAX_RELEASES - 1
  {
    RunKeepsInv(run, events, k);
  }
}
