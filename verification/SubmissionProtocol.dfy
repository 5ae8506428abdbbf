/** Create-once submission as a step system: any number of workers run the
    service's methods on one draft, each repository call is one transaction,
    and between any two of them a worker may be overtaken or die. Jira is an
    adversary: it may apply a request at any time after it was sent, and reply
    or not as it likes. */
module SubmissionProtocol {
  import opened Fsm
  import opened WorkflowTables
  import opened Wrappers
  import opened Sums

  datatype Mutation = CreateIssue | UpdateIssue

  /** What happened outside to the request of one claimed attempt. `epoch` is the
      revision of the draft the claim was made at. `malformed`: answered with a
      2xx reply the gateway could not read. `writtenOff`: a negative
      reconciliation was recorded for it. */
  datatype Request = Request(mutation: Mutation, epoch: int, sent: bool, applied: bool, closed: bool,
                             malformed: bool, writtenOff: bool)

  datatype Operation = Submit | ConfirmUpdate | Recover | Reconcile | AllowRetry | ReconcileUpdate

  /** The writes a worker still has to make after it knows the outcome: the
      attempt's status, perhaps the published issue, then the draft's state. */
  datatype Plan = Plan(attempt: Attempt, writeOff: bool, attemptDone: bool, issue: Option<Issue>,
                       revision: int, target: DraftState, note: Option<string>)

  datatype Worker =
    | Idle
    | Loaded(op: Operation, row: WorkflowRow, published: Option<Issue>)
    | Dispatching(mutation: Mutation, revision: int, template: Template)
    | Numbered(mutation: Mutation, revision: int, template: Template, attempt: Attempt)
    | Claimed(mutation: Mutation, revision: int, attempt: Attempt)
    | Sent(mutation: Mutation, revision: int, attempt: Attempt)
    | Searching(op: Operation, revision: int, attempt: Attempt)
    | Writing(plan: Plan)
    | Analyzing(revision: int)
    | Analyzed(revision: int, draft: Draft)

  /** `requests` runs parallel to the attempt table. */
  datatype System = System(tables: Tables, requests: seq<Request>, workers: seq<Worker>)

  datatype Outcome = Accepted(issue: Issue) | Malformed | Rejected | InDoubt

  datatype Step =
    | LoadDraft(w: nat, op: Operation)
    | BeginDispatch(w: nat, now: Instant)
    | NumberAttempt(w: nat, attemptId: string, now: Instant)
    | Claim(w: nat)
    | Send(w: nat)
    | ApplyRequest(k: nat)
    | Reply(w: nat, outcome: Outcome, now: Instant, code: Option<string>)
    | ReadAttempt(w: nat, now: Instant)
    | Match(w: nat, issue: Issue, now: Instant)
    | WriteAttempt(w: nat)
    | WriteIssue(w: nat, takenKeys: set<string>)
    | WriteState(w: nat, now: Instant)
    | Crash(w: nat)
    | StartAnalysis(w: nat, now: Instant)
    | RereadForAnalysis(w: nat, template: Template, now: Instant)
    | SaveAnalysis(w: nat, takenKeys: set<string>)
    | OtherSave(draft: Draft, expiresAt: Option<Instant>, takenKeys: set<string>)
    | OtherSwap(target: DraftState, note: Option<string>, now: Instant)
    | ExpireDraft(before: Instant, now: Instant)

  function Init(workers: nat): System {
    System(NO_TABLES, [], seq(workers, _ => Idle))
  }

  // ---- What each operation requires and aims at ----------------------------

  /** The state checks made on the freshly loaded draft. */
  predicate Admits(op: Operation, row: WorkflowRow, published: Option<Issue>) {
    match op
    case Submit => row.state in {Review, SubmissionRetryable} && row.template.Some?
    case ConfirmUpdate => row.state == UpdateReview && row.template.Some? && published.Some?
    case Recover => row.state == Submitting
    case Reconcile => row.state == SubmissionUnknown && row.template.Some?
    case AllowRetry => row.state == SubmissionUnknown
    case ReconcileUpdate => row.state == UpdateUnknown && row.template.Some? && published.Some?
  }

  function DispatchState(m: Mutation): DraftState { if m == CreateIssue then Submitting else Updating }
  function SuccessState(m: Mutation): DraftState { if m == CreateIssue then Created else Complete }
  function FailureState(m: Mutation): DraftState { if m == CreateIssue then SubmissionRetryable else UpdateRetryable }
  function DoubtState(m: Mutation): DraftState { if m == CreateIssue then SubmissionUnknown else UpdateUnknown }

  const OUTCOME_UNKNOWN: Option<string> := Some("outcome_unknown")
  const RECONCILED_NOT_CREATED: Option<string> := Some("reconciled_not_created")

  function Ended(a: Attempt, status: AttemptStatus, now: Instant, code: Option<string>): Attempt {
    a.(status := status, completedAt := Some(now), errorSummary := code)
  }

  /** `submit` and `confirm_published_update` after the gateway call. A malformed
      2xx reply is classified NOT_APPLICABLE, hence ends as a failure. */
  function ReplyPlan(m: Mutation, revision: int, a: Attempt, outcome: Outcome, now: Instant, code: Option<string>): Plan {
    match outcome
    case Accepted(issue) =>
      Plan(Ended(a, Succeeded, now, a.errorSummary), false, false, if m == CreateIssue then Some(issue) else None, revision, SuccessState(m), None)
    case Malformed => Plan(Ended(a, FailedAttempt, now, code), false, false, None, revision, FailureState(m), code)
    case Rejected => Plan(Ended(a, FailedAttempt, now, code), false, false, None, revision, FailureState(m), code)
    case InDoubt => Plan(Ended(a, Unknown, now, OUTCOME_UNKNOWN), false, false, None, revision, DoubtState(m), OUTCOME_UNKNOWN)
  }

  /** The recovery methods after they have read the latest attempt. */
  function AfterAttemptRead(op: Operation, row: WorkflowRow, published: Option<Issue>, latest: Option<Attempt>, now: Instant): Worker {
    if latest.None? then Idle else
      var a := latest.value;
      match op
      case Recover =>
        if published.Some? then
          Writing(Plan(if a.status == Succeeded then a else Ended(a, Succeeded, now, None), false, a.status == Succeeded, None,
                       row.revision, Created, None))
        else if a.status == InProgress then
          Writing(Plan(Ended(a, Unknown, now, OUTCOME_UNKNOWN), false, false, None, row.revision, SubmissionUnknown, OUTCOME_UNKNOWN))
        else Idle
      case AllowRetry =>
        if a.status == Unknown then
          Writing(Plan(Ended(a, FailedAttempt, now, RECONCILED_NOT_CREATED), true, false, None,
                       row.revision, SubmissionRetryable, RECONCILED_NOT_CREATED))
        else Idle
      case Reconcile => if a.status == Unknown then Searching(op, row.revision, a) else Idle
      case ReconcileUpdate => if a.status == Unknown then Searching(op, row.revision, a) else Idle
      case _ => Idle
  }

  // ---- Steps -----------------------------------------------------------------

  /** The index of a worker, and the form it must be in for a step. */
  predicate At(s: System, w: nat) { w < |s.workers| }

  /** States only the submission service moves a draft to. */
  const SUBMISSION_TARGETS: set<DraftState> := {Submitting, Created, SubmissionRetryable, SubmissionUnknown, Updating}

  /** States other services save a draft in. */
  predicate OtherSaveFits(t: Tables, d: Draft) {
    && d.state in {Collecting, Review, UpdateReview}
    && (t.row.None? ==> d.revision == 1 && d.state != UpdateReview && d.published.None?)
    && (d.published.Some? ==> t.published.Some?)   // a loaded draft carries only a stored issue
  }

  predicate Enabled(s: System, step: Step) {
    match step
    case LoadDraft(w, op) => At(s, w) && s.workers[w].Idle? && s.tables.row.Some? && Admits(op, s.tables.row.value, s.tables.published)
    case BeginDispatch(w, _) => At(s, w) && s.workers[w].Loaded? && s.workers[w].op in {Submit, ConfirmUpdate} && s.workers[w].row.template.Some?
    case NumberAttempt(w, _, _) => At(s, w) && s.workers[w].Dispatching?
    case Claim(w) => At(s, w) && s.workers[w].Numbered?
    case Send(w) => At(s, w) && s.workers[w].Claimed? && RequestIndex(s, s.workers[w].attempt)
    case ApplyRequest(k) => k < |s.requests| && s.requests[k].sent && !s.requests[k].closed && !s.requests[k].applied
    case Reply(w, outcome, _, _) =>
      && At(s, w) && s.workers[w].Sent? && RequestIndex(s, s.workers[w].attempt)
      && (outcome.Accepted? ==> s.requests[s.workers[w].attempt.number - 1].applied)
      && (outcome.Rejected? ==> !s.requests[s.workers[w].attempt.number - 1].applied)
    case ReadAttempt(w, _) => At(s, w) && s.workers[w].Loaded? && s.workers[w].op !in {Submit, ConfirmUpdate}
    case Match(w, _, _) => At(s, w) && s.workers[w].Searching?
    case WriteAttempt(w) => At(s, w) && s.workers[w].Writing? && !s.workers[w].plan.attemptDone && RequestIndex(s, s.workers[w].plan.attempt)
    case WriteIssue(w, _) => At(s, w) && s.workers[w].Writing? && s.workers[w].plan.attemptDone && s.workers[w].plan.issue.Some?
    case WriteState(w, _) => At(s, w) && s.workers[w].Writing? && s.workers[w].plan.attemptDone && s.workers[w].plan.issue.None?
    case Crash(w) => At(s, w)
    case StartAnalysis(w, now) => At(s, w) && s.workers[w].Idle? && s.tables.row.Some?
                                  && CompareAndSwap(s.tables, s.tables.row.value.revision, DraftState.Analyzing, None, now).Ok?
    case RereadForAnalysis(w, _, _) => At(s, w) && s.workers[w].Analyzing? && s.tables.row.Some?
                                       && s.tables.row.value.state == DraftState.Analyzing && s.tables.row.value.revision == s.workers[w].revision
    case SaveAnalysis(w, _) => At(s, w) && s.workers[w].Analyzed?
    case OtherSave(d, expiresAt, takenKeys) => OtherSaveFits(s.tables, d) && Save(s.tables, d, expiresAt, takenKeys).Ok?
    case OtherSwap(target, note, now) => s.tables.row.Some? && target !in SUBMISSION_TARGETS
                                         && CompareAndSwap(s.tables, s.tables.row.value.revision, target, note, now).Ok?
    case ExpireDraft(before, _) => Due(s.tables, before)
  }

  /** The request that belongs to an attempt, by the attempt's number. */
  predicate RequestIndex(s: System, a: Attempt) { 1 <= a.number <= |s.requests| }

  function SetWorker(s: System, w: nat, worker: Worker): System
    requires w < |s.workers|
  {
    s.(workers := s.workers[w := worker])
  }

  function SetRequest(s: System, k: nat, r: Request): System
    requires k < |s.requests|
  {
    s.(requests := s.requests[k := r])
  }

  function BeginDispatchStep(s: System, w: nat, now: Instant): System
    requires Enabled(s, BeginDispatch(w, now))
  {
    var worker := s.workers[w];
    var m := if worker.op == Submit then CreateIssue else UpdateIssue;
    match CompareAndSwap(s.tables, worker.row.revision, DispatchState(m), None, now)
    case Ok(tables) => SetWorker(s, w, Dispatching(m, worker.row.revision + 1, worker.row.template.value)).(tables := tables)
    case Err(_) => SetWorker(s, w, Idle)
  }

  function NumberStep(s: System, w: nat, attemptId: string, now: Instant): System
    requires Enabled(s, NumberAttempt(w, attemptId, now))
  {
    var worker := s.workers[w];
    var latest := LatestAttempt(s.tables.attempts);
    var number := if latest.None? then 1 else latest.value.number + 1;
    SetWorker(s, w, Numbered(worker.mutation, worker.revision, worker.template,
                             Attempt(attemptId, CanonicalHash(worker.template), number, now, None, InProgress, None)))
  }

  function ClaimStep(s: System, w: nat): System
    requires Enabled(s, Claim(w))
  {
    var worker := s.workers[w];
    match ClaimAttempt(s.tables, worker.attempt)
    case Ok((true, tables)) =>
      SetWorker(s, w, Claimed(worker.mutation, worker.revision, worker.attempt))
        .(tables := tables, requests := s.requests + [Request(worker.mutation, worker.revision, false, false, false, false, false)])
    case _ => SetWorker(s, w, Idle)
  }

  function ReplyStep(s: System, w: nat, outcome: Outcome, now: Instant, code: Option<string>): System
    requires Enabled(s, Reply(w, outcome, now, code))
  {
    var worker := s.workers[w];
    var k := worker.attempt.number - 1;
    var r := s.requests[k];
    var answered := r.(closed := r.closed || !outcome.InDoubt?, malformed := r.malformed || outcome.Malformed?);
    SetWorker(SetRequest(s, k, answered), w, Writing(ReplyPlan(worker.mutation, worker.revision, worker.attempt, outcome, now, code)))
  }

  function MatchStep(s: System, w: nat, issue: Issue, now: Instant): System
    requires Enabled(s, Match(w, issue, now))
  {
    var worker := s.workers[w];
    var success := Ended(worker.attempt, Succeeded, now, None);
    SetWorker(s, w, Writing(if worker.op == Reconcile
                            then Plan(success, false, false, Some(issue), worker.revision, Created, None)
                            else Plan(success, false, false, None, worker.revision, Complete, None)))
  }

  function WriteAttemptStep(s: System, w: nat): System
    requires Enabled(s, WriteAttempt(w))
  {
    var plan := s.workers[w].plan;
    var k := plan.attempt.number - 1;
    match UpdateAttempt(s.tables, plan.attempt)
    case Ok(tables) =>
      var r := s.requests[k].(writtenOff := s.requests[k].writtenOff || plan.writeOff);
      SetWorker(SetRequest(s, k, r), w, Writing(plan.(attemptDone := true))).(tables := tables)
    case Err(_) => SetWorker(s, w, Idle)
  }

  function WriteIssueStep(s: System, w: nat, takenKeys: set<string>): System
    requires Enabled(s, WriteIssue(w, takenKeys))
  {
    var plan := s.workers[w].plan;
    match StorePublished(s.tables, plan.issue.value, takenKeys)
    case Ok(tables) => SetWorker(s, w, Writing(plan.(issue := None))).(tables := tables)
    case Err(_) => SetWorker(s, w, Idle)
  }

  function WriteStateStep(s: System, w: nat, now: Instant): System
    requires Enabled(s, WriteState(w, now))
  {
    var plan := s.workers[w].plan;
    match CompareAndSwap(s.tables, plan.revision, plan.target, plan.note, now)
    case Ok(tables) => SetWorker(s, w, Idle).(tables := tables)
    case Err(_) => SetWorker(s, w, Idle)
  }

  function SaveAnalysisStep(s: System, w: nat, takenKeys: set<string>): System
    requires Enabled(s, SaveAnalysis(w, takenKeys))
  {
    match Save(s.tables, s.workers[w].draft, None, takenKeys)
    case Ok(tables) => SetWorker(s, w, Idle).(tables := tables)
    case Err(_) => SetWorker(s, w, Idle)
  }

  function Apply(s: System, step: Step): System
    requires Enabled(s, step)
  {
    match step
    case LoadDraft(w, op) => SetWorker(s, w, Loaded(op, s.tables.row.value, s.tables.published))
    case BeginDispatch(w, now) => BeginDispatchStep(s, w, now)
    case NumberAttempt(w, attemptId, now) => NumberStep(s, w, attemptId, now)
    case Claim(w) => ClaimStep(s, w)
    case Send(w) =>
      var worker := s.workers[w];
      var k := worker.attempt.number - 1;
      SetWorker(SetRequest(s, k, s.requests[k].(sent := true)), w, Sent(worker.mutation, worker.revision, worker.attempt))
    case ApplyRequest(k) => SetRequest(s, k, s.requests[k].(applied := true))
    case Reply(w, outcome, now, code) => ReplyStep(s, w, outcome, now, code)
    case ReadAttempt(w, now) =>
      var worker := s.workers[w];
      SetWorker(s, w, AfterAttemptRead(worker.op, worker.row, worker.published, LatestAttempt(s.tables.attempts), now))
    case Match(w, issue, now) => MatchStep(s, w, issue, now)
    case WriteAttempt(w) => WriteAttemptStep(s, w)
    case WriteIssue(w, takenKeys) => WriteIssueStep(s, w, takenKeys)
    case WriteState(w, now) => WriteStateStep(s, w, now)
    case Crash(w) => SetWorker(s, w, Idle)
    case StartAnalysis(w, now) =>
      var revision := s.tables.row.value.revision;
      SetWorker(s, w, Worker.Analyzing(revision + 1)).(tables := CompareAndSwap(s.tables, revision, DraftState.Analyzing, None, now).value)
    case RereadForAnalysis(w, template, now) =>
      var d := Load(s.tables, "").value;
      SetWorker(s, w, Analyzed(s.workers[w].revision,
                               d.(state := Review, revision := d.revision + 1, template := Some(template), updatedAt := now, lastError := None)))
    case SaveAnalysis(w, takenKeys) => SaveAnalysisStep(s, w, takenKeys)
    case OtherSave(d, expiresAt, takenKeys) => s.(tables := Save(s.tables, d, expiresAt, takenKeys).value)
    case OtherSwap(target, note, now) => s.(tables := CompareAndSwap(s.tables, s.tables.row.value.revision, target, note, now).value)
    case ExpireDraft(_, now) => s.(tables := Expire(s.tables, now))
  }

  // ---- Invariant ---------------------------------------------------------------

  /** A create request that may still be, or has been, applied, and that nobody
      has taken for not applied. */
  predicate Unaccounted(r: Request) {
    r.mutation == CreateIssue && (r.applied || !r.closed) && !r.malformed && !r.writtenOff
  }

  /** Create attempt k is the one the draft's state is about. */
  ghost predicate Current(t: Tables, rs: seq<Request>, k: nat)
    requires t.row.Some? && k < |rs|
  {
    var row := t.row.value;
    || (row.state == Submitting && k == |rs| - 1 && rs[k].epoch == row.revision)
    || (row.state == SubmissionUnknown && k == |rs| - 1)
    || (row.state in POST_CREATE_STATES && forall j {:trigger rs[j]} :: k < j < |rs| ==> rs[j].mutation == UpdateIssue)
  }

  ghost predicate AttemptOk(t: Tables, rs: seq<Request>, k: nat)
    requires t.row.Some? && k < |t.attempts| == |rs|
  {
    var row, a, r := t.row.value, t.attempts[k], rs[k];
    && a.number == k + 1
    && r.epoch <= row.revision
    && (a.status == InProgress ==> k == |rs| - 1)
    && (r.mutation == UpdateIssue ==> row.state in POST_CREATE_STATES)
    && (r.mutation == CreateIssue ==>
          && (r.epoch == row.revision ==> row.state == Submitting && k == |rs| - 1)
          && (if a.status == FailedAttempt then !Unaccounted(r) else Current(t, rs, k))
          && (k == |rs| - 1 && (row.state == SubmissionUnknown || (row.state == Submitting && r.epoch == row.revision)) ==>
                row.template.Some? && a.requestHash == CanonicalHash(row.template.value)))
  }

  /** The published issue exists from creation on, and not before the attempt
      that produced it has succeeded. */
  ghost predicate PublishedOk(t: Tables, rs: seq<Request>)
    requires t.row.Some? && |t.attempts| == |rs|
  {
    var state, n := t.row.value.state, |rs|;
    && (state in POST_CREATE_STATES && state != AbandonedUnknown ==> t.published.Some?)
    && (t.published.Some? && state !in POST_CREATE_STATES ==>
          state in {Submitting, SubmissionUnknown} && n > 0 && rs[n - 1].mutation == CreateIssue && t.attempts[n - 1].status == Succeeded)
  }

  ghost predicate LedgerOk(t: Tables, rs: seq<Request>) {
    && |t.attempts| == |rs|
    && (t.row.None? ==> t == NO_TABLES)
    && (t.row.Some? ==> PublishedOk(t, rs) && forall k: nat {:trigger AttemptOk(t, rs, k)} :: k < |rs| ==> AttemptOk(t, rs, k))
    && (forall i, j :: 0 <= i < j < |t.attempts| ==> t.attempts[i].attemptId != t.attempts[j].attemptId)
  }

  /** The attempt in a worker's hands is the stored one, apart from its status. */
  ghost predicate Held(t: Tables, a: Attempt) {
    1 <= a.number <= |t.attempts| && SameIdentity(t.attempts[a.number - 1], a)
  }

  /** If the draft is still at the given revision and not past creation, the
      attempt is the last one and belongs to this submission. */
  ghost predicate Tracks(t: Tables, rs: seq<Request>, revision: int, a: Attempt)
    requires t.row.Some?
  {
    var row, n := t.row.value, |rs|;
    && revision <= row.revision
    && (revision == row.revision && row.state == SubmissionUnknown ==> a.number == n)
    && (revision == row.revision && row.state == Submitting ==>
          n > 0 && a.number == n && rs[n - 1].mutation == CreateIssue && rs[n - 1].epoch == row.revision)
  }

  ghost predicate PlanOk(t: Tables, rs: seq<Request>, plan: Plan)
    requires t.row.Some? && |t.attempts| == |rs|
  {
    && Held(t, plan.attempt)
    && Tracks(t, rs, plan.revision, plan.attempt)
    && plan.target !in {Submitting, Updating, AbandonedUnknown}
    && var k := plan.attempt.number - 1;
       var status := if plan.attemptDone then t.attempts[k].status else plan.attempt.status;
       && status != InProgress
       && (plan.target == SubmissionRetryable ==> status == FailedAttempt)
       && (plan.target == Created ==> status == Succeeded && (plan.issue.Some? || t.published.Some?))
       && (plan.issue.Some? ==> status == Succeeded)
       && (!plan.attemptDone && plan.attempt.status == FailedAttempt && !plan.writeOff ==> !Unaccounted(rs[k]))
  }

  predicate BeforeClaim(worker: Worker, m: Mutation) {
    (worker.Dispatching? || worker.Numbered?) && worker.mutation == m
  }

  ghost predicate WorkerOk(t: Tables, rs: seq<Request>, worker: Worker)
    requires |t.attempts| == |rs|
  {
    match worker
    case Idle => true
    case Loaded(op, row, published) =>
      && t.row.Some? && Admits(op, row, published)
      && row.revision <= t.row.value.revision
      && (row.revision == t.row.value.revision ==> row.state == t.row.value.state && row.template == t.row.value.template)
      && (published.Some? ==> t.published.Some?)
      && (op in {ConfirmUpdate, ReconcileUpdate} ==> t.row.value.state in POST_CREATE_STATES)
    case Dispatching(m, revision, template) =>
      && t.row.Some?
      && (m == CreateIssue ==> SubmissionOpen(t, rs, revision, template))
      && (m == UpdateIssue ==> t.row.value.state in POST_CREATE_STATES && revision <= t.row.value.revision)
    case Numbered(m, revision, template, a) =>
      && t.row.Some?
      && (m == CreateIssue ==> SubmissionOpen(t, rs, revision, template))
      && (m == UpdateIssue ==> t.row.value.state in POST_CREATE_STATES && revision <= t.row.value.revision)
      && 1 <= a.number <= |t.attempts| + 1 && a.requestHash == CanonicalHash(template)
    case Claimed(m, revision, a) => InFlight(t, rs, m, revision, a)
    case Sent(m, revision, a) => InFlight(t, rs, m, revision, a)
    case Searching(op, revision, a) => t.row.Some? && Held(t, a) && Tracks(t, rs, revision, a)
    case Writing(plan) => t.row.Some? && PlanOk(t, rs, plan)
    case Analyzing(revision) => AnalysisOk(t, revision)
    case Analyzed(revision, d) => AnalysisOk(t, revision) && d.revision == revision + 1 && d.state == Review
                                  && (d.published.Some? ==> t.published.Some?)
  }

  /** The draft entered SUBMITTING at this revision and nobody has claimed since. */
  ghost predicate SubmissionOpen(t: Tables, rs: seq<Request>, revision: int, template: Template)
    requires t.row.Some?
  {
    && t.row.value.revision == revision && t.row.value.state == Submitting && t.row.value.template == Some(template)
    && forall k {:trigger rs[k]} :: 0 <= k < |rs| ==> rs[k].epoch != revision
  }

  ghost predicate InFlight(t: Tables, rs: seq<Request>, m: Mutation, revision: int, a: Attempt)
    requires |t.attempts| == |rs|
  {
    t.row.Some? && Held(t, a) && rs[a.number - 1].mutation == m && rs[a.number - 1].epoch == revision <= t.row.value.revision
  }

  ghost predicate AnalysisOk(t: Tables, revision: int) {
    && t.row.Some? && revision <= t.row.value.revision
    && (revision == t.row.value.revision ==> t.row.value.state == DraftState.Analyzing)
  }

  ghost predicate Inv(s: System) {
    && LedgerOk(s.tables, s.requests)
    && (forall w {:trigger s.workers[w]} :: 0 <= w < |s.workers| ==> WorkerOk(s.tables, s.requests, s.workers[w]))
    && (forall v, w :: 0 <= v < |s.workers| && 0 <= w < |s.workers|
          ==> BeforeClaim(s.workers[v], CreateIssue) && BeforeClaim(s.workers[w], CreateIssue) ==> v == w)
  }

  // ---- How the rows may move under a worker's feet -------------------------------

  ghost predicate EntryAdvances(a: Attempt, r: Request, a': Attempt, r': Request) {
    && SameIdentity(a, a')
    && r'.mutation == r.mutation && r'.epoch == r.epoch
    && (a.status in {Succeeded, FailedAttempt} ==> a'.status == a.status)
    && (a.status != InProgress ==> a'.status != InProgress)
    && (!Unaccounted(r) ==> !Unaccounted(r'))
  }

  ghost predicate EntriesAdvance(t: Tables, rs: seq<Request>, t': Tables, rs': seq<Request>)
    requires |t.attempts| == |rs| && |t'.attempts| == |rs'|
  {
    && |rs| <= |rs'|
    && forall k: nat {:trigger EntryAdvances(t.attempts[k], rs[k], t'.attempts[k], rs'[k])} ::
         k < |rs| ==> EntryAdvances(t.attempts[k], rs[k], t'.attempts[k], rs'[k])
  }

  /** What every step respects: revisions only grow, one revision means one state
      and template, creation is not undone, attempts keep their identity and
      their final status, and nothing is claimed while a submission is in doubt. */
  ghost predicate Advance(t: Tables, rs: seq<Request>, t': Tables, rs': seq<Request>)
    requires |t.attempts| == |rs| && |t'.attempts| == |rs'|
  {
    && t.row.Some? && t'.row.Some?
    && var row, row' := t.row.value, t'.row.value;
       && row.revision <= row'.revision <= row.revision + 1
       && (row.revision == row'.revision ==> row'.state == row.state && row'.template == row.template)
       && (row.revision < row'.revision ==> Revises(row.state, row'.state))
       && (row.state in POST_CREATE_STATES ==> row'.state in POST_CREATE_STATES)
       && EntriesAdvance(t, rs, t', rs')
       && (|rs| < |rs'| ==> row.state != SubmissionUnknown && row'.revision == row.revision
                            && (row.state == Submitting ==> forall k {:trigger rs[k]} :: 0 <= k < |rs| ==> rs[k].epoch != row.revision))
       && (t.published.Some? ==> t'.published.Some?)
  }

  /** One step's change, as the rows see it. */
  ghost predicate Progress(s: System, s': System) {
    && |s.tables.attempts| == |s.requests| && |s'.tables.attempts| == |s'.requests|
    && (s.tables.row.Some? ==> Advance(s.tables, s.requests, s'.tables, s'.requests))
  }

  lemma HeldKept(t: Tables, rs: seq<Request>, t': Tables, rs': seq<Request>, a: Attempt)
    requires |t.attempts| == |rs| && |t'.attempts| == |rs'| && EntriesAdvance(t, rs, t', rs') && Held(t, a)
    ensures Held(t', a) && EntryAdvances(t.attempts[a.number - 1], rs[a.number - 1], t'.attempts[a.number - 1], rs'[a.number - 1])
  {
    assert EntryAdvances(t.attempts[a.number - 1], rs[a.number - 1], t'.attempts[a.number - 1], rs'[a.number - 1]);
  }

  lemma TracksKept(t: Tables, rs: seq<Request>, t': Tables, rs': seq<Request>, revision: int, a: Attempt)
    requires |t.attempts| == |rs| && |t'.attempts| == |rs'| && Advance(t, rs, t', rs') && Tracks(t, rs, revision, a)
    ensures Tracks(t', rs', revision, a)
  {
    var n := |rs|;
    if revision == t'.row.value.revision && t'.row.value.state == Submitting {
      assert rs[n - 1].epoch == t.row.value.revision;
      assert EntryAdvances(t.attempts[n - 1], rs[n - 1], t'.attempts[n - 1], rs'[n - 1]);
    }
  }

  lemma PlanKept(t: Tables, rs: seq<Request>, t': Tables, rs': seq<Request>, plan: Plan)
    requires |t.attempts| == |rs| && |t'.attempts| == |rs'| && Advance(t, rs, t', rs') && PlanOk(t, rs, plan)
    ensures PlanOk(t', rs', plan)
  {
    HeldKept(t, rs, t', rs', plan.attempt);
    TracksKept(t, rs, t', rs', plan.revision, plan.attempt);
  }

  /** Whatever the others do, a worker's picture stays good enough. */
  lemma WorkerKept(t: Tables, rs: seq<Request>, t': Tables, rs': seq<Request>, worker: Worker)
    requires |t.attempts| == |rs| && |t'.attempts| == |rs'| && Advance(t, rs, t', rs')
    requires WorkerOk(t, rs, worker)
    requires BeforeClaim(worker, CreateIssue) ==> t'.row.value.revision == t.row.value.revision && |rs'| == |rs|
    ensures WorkerOk(t', rs', worker)
  {
    match worker
    case Idle =>
    case Loaded(_, _, _) =>
    case Dispatching(m, revision, template) => if m == CreateIssue { OpenKept(t, rs, t', rs', revision, template); }
    case Numbered(m, revision, template, _) => if m == CreateIssue { OpenKept(t, rs, t', rs', revision, template); }
    case Claimed(_, _, a) => HeldKept(t, rs, t', rs', a);
    case Sent(_, _, a) => HeldKept(t, rs, t', rs', a);
    case Searching(_, revision, a) =>
      HeldKept(t, rs, t', rs', a);
      TracksKept(t, rs, t', rs', revision, a);
    case Writing(plan) => PlanKept(t, rs, t', rs', plan);
    case Analyzing(_) =>
    case Analyzed(_, _) =>
  }

  lemma OpenKept(t: Tables, rs: seq<Request>, t': Tables, rs': seq<Request>, revision: int, template: Template)
    requires |t.attempts| == |rs| && |t'.attempts| == |rs'| && Advance(t, rs, t', rs') && SubmissionOpen(t, rs, revision, template)
    requires t'.row.value.revision == t.row.value.revision && |rs'| == |rs|
    ensures SubmissionOpen(t', rs', revision, template)
  {
    forall k | 0 <= k < |rs'| ensures rs'[k].epoch != revision {
      assert EntryAdvances(t.attempts[k], rs[k], t'.attempts[k], rs'[k]);
    }
  }

  /** The workers of a step: one of them replaced, the rest carried over. */
  lemma WorkersKept(s: System, s': System, w: nat)
    requires Inv(s) && |s'.tables.attempts| == |s'.requests| && w < |s.workers| && |s'.workers| == |s.workers|
    requires s'.workers == s.workers[w := s'.workers[w]]
    requires Advance(s.tables, s.requests, s'.tables, s'.requests)
    requires WorkerOk(s'.tables, s'.requests, s'.workers[w])
    requires BeforeClaim(s'.workers[w], CreateIssue) ==> BeforeClaim(s.workers[w], CreateIssue)
                                                         || forall v :: 0 <= v < |s.workers| ==> !BeforeClaim(s.workers[v], CreateIssue)
    requires (s'.tables.row.value.revision == s.tables.row.value.revision && |s'.requests| == |s.requests|)
             || forall v :: 0 <= v < |s.workers| && v != w ==> !BeforeClaim(s.workers[v], CreateIssue)
    ensures forall v {:trigger s'.workers[v]} :: 0 <= v < |s'.workers| ==> WorkerOk(s'.tables, s'.requests, s'.workers[v])
    ensures forall u, v :: 0 <= u < |s'.workers| && 0 <= v < |s'.workers|
              ==> BeforeClaim(s'.workers[u], CreateIssue) && BeforeClaim(s'.workers[v], CreateIssue) ==> u == v
  {
    forall v | 0 <= v < |s'.workers| ensures WorkerOk(s'.tables, s'.requests, s'.workers[v]) {
      if v != w {
        assert s'.workers[v] == s.workers[v];
        WorkerKept(s.tables, s.requests, s'.tables, s'.requests, s.workers[v]);
      }
    }
  }

  /** Nobody waits between entering SUBMITTING and claiming, unless the draft is
      in SUBMITTING and its present revision has no attempt. */
  lemma NobodyBeforeClaim(s: System)
    requires Inv(s) && s.tables.row.Some?
    requires s.tables.row.value.state != Submitting
             || (|s.requests| > 0 && s.requests[|s.requests| - 1].epoch == s.tables.row.value.revision)
    ensures forall v :: 0 <= v < |s.workers| ==> !BeforeClaim(s.workers[v], CreateIssue)
  {
    forall v | 0 <= v < |s.workers| ensures !BeforeClaim(s.workers[v], CreateIssue) {
      assert WorkerOk(s.tables, s.requests, s.workers[v]);
    }
  }

  predicate RequestKept(r: Request, r': Request) {
    r'.mutation == r.mutation && r'.epoch == r.epoch && (Unaccounted(r') ==> Unaccounted(r))
  }

  lemma SameRows(t: Tables, rs: seq<Request>, rs': seq<Request>)
    requires |t.attempts| == |rs| == |rs'| && t.row.Some?
    requires forall k: nat {:trigger rs[k]}{:trigger rs'[k]} :: k < |rs| ==> RequestKept(rs[k], rs'[k])
    ensures Advance(t, rs, t, rs')
  {}

  /** A change of the requests alone keeps the ledger if nothing becomes unaccounted. */
  lemma LedgerRequests(t: Tables, rs: seq<Request>, rs': seq<Request>)
    requires LedgerOk(t, rs) && |rs'| == |rs| && t.row.Some?
    requires forall k: nat {:trigger rs[k]}{:trigger rs'[k]} :: k < |rs| ==> RequestKept(rs[k], rs'[k])
    ensures LedgerOk(t, rs')
  {
    forall k: nat | k < |rs'| ensures AttemptOk(t, rs', k) { assert AttemptOk(t, rs, k); }
  }

  // ---- Preservation ---------------------------------------------------------------

  /** Steps that only move a worker: the rows and requests stay as they are. */
  lemma WorkerStepInv(s: System, w: nat, worker: Worker)
    requires Inv(s) && w < |s.workers| && s.tables.row.Some?
    requires WorkerOk(s.tables, s.requests, worker)
    requires BeforeClaim(worker, CreateIssue) ==> BeforeClaim(s.workers[w], CreateIssue)
    ensures Inv(SetWorker(s, w, worker)) && Progress(s, SetWorker(s, w, worker))
  {
    SameRows(s.tables, s.requests, s.requests);
    WorkersKept(s, SetWorker(s, w, worker), w);
  }

  lemma CrashInv(s: System, w: nat)
    requires Inv(s) && Enabled(s, Crash(w))
    ensures Inv(Apply(s, Crash(w))) && Progress(s, Apply(s, Crash(w)))
  {
    if s.tables.row.Some? {
      WorkerStepInv(s, w, Idle);
    } else {
      var s' := SetWorker(s, w, Idle);
      forall v | 0 <= v < |s'.workers| ensures WorkerOk(s'.tables, s'.requests, s'.workers[v]) {
        assert WorkerOk(s.tables, s.requests, s.workers[v]);
      }
    }
  }

  lemma LoadInv(s: System, w: nat, op: Operation)
    requires Inv(s) && Enabled(s, LoadDraft(w, op))
    ensures Inv(Apply(s, LoadDraft(w, op))) && Progress(s, Apply(s, LoadDraft(w, op)))
  {
    WorkerStepInv(s, w, Loaded(op, s.tables.row.value, s.tables.published));
  }

  /** Numbers run 1, 2, 3, ... so the latest attempt is the last one. */
  lemma LatestIsLast(t: Tables, rs: seq<Request>)
    requires LedgerOk(t, rs) && |rs| > 0
    ensures LatestAttempt(t.attempts) == Some(t.attempts[|rs| - 1])
    ensures t.attempts[|rs| - 1].number == |rs|
  {
    var latest := LatestAttempt(t.attempts).value;
    var i: nat :| i < |t.attempts| && t.attempts[i] == latest;
    assert AttemptOk(t, rs, i) && AttemptOk(t, rs, |rs| - 1);
  }

  lemma NumberInv(s: System, w: nat, attemptId: string, now: Instant)
    requires Inv(s) && Enabled(s, NumberAttempt(w, attemptId, now))
    ensures Inv(Apply(s, NumberAttempt(w, attemptId, now))) && Progress(s, Apply(s, NumberAttempt(w, attemptId, now)))
  {
    assert WorkerOk(s.tables, s.requests, s.workers[w]);
    if |s.requests| > 0 { LatestIsLast(s.tables, s.requests); }
    WorkerStepInv(s, w, NumberStep(s, w, attemptId, now).workers[w]);
  }

  /** A plan made from the latest attempt tracks the draft it was made for. */
  lemma LatestTracks(t: Tables, rs: seq<Request>, row: WorkflowRow)
    requires LedgerOk(t, rs) && t.row.Some? && |rs| > 0
    requires row.revision <= t.row.value.revision
    requires row.revision == t.row.value.revision ==> row.state == t.row.value.state
    requires row.state != Submitting || t.published.Some? || t.attempts[|rs| - 1].status == InProgress
    ensures var a := t.attempts[|rs| - 1]; Held(t, a) && Tracks(t, rs, row.revision, a)
  {
    assert AttemptOk(t, rs, |rs| - 1);
  }

  lemma AttemptReadOk(t: Tables, rs: seq<Request>, op: Operation, row: WorkflowRow, published: Option<Issue>, a: Attempt, now: Instant)
    requires |t.attempts| == |rs| && t.row.Some? && |rs| > 0 && a == t.attempts[|rs| - 1]
    requires Held(t, a) && a.number == |rs|
    requires row.state != Submitting || t.published.Some? || a.status == InProgress ==> Tracks(t, rs, row.revision, a)
    requires Admits(op, row, published) && (published.Some? ==> t.published.Some?)
    ensures WorkerOk(t, rs, AfterAttemptRead(op, row, published, Some(a), now))
  {}

  lemma ReadAttemptInv(s: System, w: nat, now: Instant)
    requires Inv(s) && Enabled(s, ReadAttempt(w, now))
    ensures Inv(Apply(s, ReadAttempt(w, now))) && Progress(s, Apply(s, ReadAttempt(w, now)))
  {
    var worker := s.workers[w];
    var t, rs := s.tables, s.requests;
    assert WorkerOk(t, rs, worker);
    var next := AfterAttemptRead(worker.op, worker.row, worker.published, LatestAttempt(t.attempts), now);
    if |rs| > 0 {
      LatestIsLast(t, rs);
      var a := t.attempts[|rs| - 1];
      assert AttemptOk(t, rs, |rs| - 1);
      if worker.row.state != Submitting || t.published.Some? || a.status == InProgress { LatestTracks(t, rs, worker.row); }
      AttemptReadOk(t, rs, worker.op, worker.row, worker.published, a, now);
    }
    WorkerStepInv(s, w, next);
  }

  lemma MatchInv(s: System, w: nat, issue: Issue, now: Instant)
    requires Inv(s) && Enabled(s, Match(w, issue, now))
    ensures Inv(Apply(s, Match(w, issue, now))) && Progress(s, Apply(s, Match(w, issue, now)))
  {
    assert WorkerOk(s.tables, s.requests, s.workers[w]);
    WorkerStepInv(s, w, MatchStep(s, w, issue, now).workers[w]);
  }

  lemma RereadInv(s: System, w: nat, template: Template, now: Instant)
    requires Inv(s) && Enabled(s, RereadForAnalysis(w, template, now))
    ensures Inv(Apply(s, RereadForAnalysis(w, template, now))) && Progress(s, Apply(s, RereadForAnalysis(w, template, now)))
  {
    assert WorkerOk(s.tables, s.requests, s.workers[w]);
    WorkerStepInv(s, w, Apply(s, RereadForAnalysis(w, template, now)).workers[w]);
  }

  /** Steps on one request that leave the rows alone. */
  lemma RequestStepInv(s: System, w: nat, worker: Worker, k: nat, r: Request)
    requires Inv(s) && w < |s.workers| && k < |s.requests| && s.tables.row.Some?
    requires RequestKept(s.requests[k], r)
    requires WorkerOk(s.tables, s.requests[k := r], worker) && !BeforeClaim(worker, CreateIssue)
    ensures Inv(SetWorker(SetRequest(s, k, r), w, worker)) && Progress(s, SetWorker(SetRequest(s, k, r), w, worker))
  {
    var s' := SetWorker(SetRequest(s, k, r), w, worker);
    SameRows(s.tables, s.requests, s'.requests);
    LedgerRequests(s.tables, s.requests, s'.requests);
    WorkersKept(s, s', w);
  }

  lemma SendInv(s: System, w: nat)
    requires Inv(s) && Enabled(s, Send(w))
    ensures Inv(Apply(s, Send(w))) && Progress(s, Apply(s, Send(w)))
  {
    var worker := s.workers[w];
    assert WorkerOk(s.tables, s.requests, worker);
    var k := worker.attempt.number - 1;
    RequestStepInv(s, w, Sent(worker.mutation, worker.revision, worker.attempt), k, s.requests[k].(sent := true));
  }

  lemma ApplyRequestInv(s: System, k: nat)
    requires Inv(s) && Enabled(s, ApplyRequest(k))
    ensures Inv(Apply(s, ApplyRequest(k))) && Progress(s, Apply(s, ApplyRequest(k)))
  {
    var s' := Apply(s, ApplyRequest(k));
    SameRows(s.tables, s.requests, s'.requests);
    LedgerRequests(s.tables, s.requests, s'.requests);
    forall v | 0 <= v < |s'.workers| ensures WorkerOk(s'.tables, s'.requests, s'.workers[v]) {
      WorkerKept(s.tables, s.requests, s'.tables, s'.requests, s.workers[v]);
    }
  }

  lemma ReplyPlanOk(t: Tables, rs: seq<Request>, m: Mutation, revision: int, a: Attempt, outcome: Outcome, now: Instant, code: Option<string>)
    requires |t.attempts| == |rs| && t.row.Some? && InFlight(t, rs, m, revision, a) && AttemptOk(t, rs, a.number - 1)
    requires outcome.Malformed? ==> rs[a.number - 1].malformed
    requires outcome.Rejected? ==> rs[a.number - 1].closed && !rs[a.number - 1].applied
    ensures PlanOk(t, rs, ReplyPlan(m, revision, a, outcome, now, code))
  {
    var plan := ReplyPlan(m, revision, a, outcome, now, code);
    assert Held(t, plan.attempt);
    assert Tracks(t, rs, plan.revision, plan.attempt);
  }

  lemma ReplyInv(s: System, w: nat, outcome: Outcome, now: Instant, code: Option<string>)
    requires Inv(s) && Enabled(s, Reply(w, outcome, now, code))
    ensures Inv(Apply(s, Reply(w, outcome, now, code))) && Progress(s, Apply(s, Reply(w, outcome, now, code)))
  {
    var worker := s.workers[w];
    assert WorkerOk(s.tables, s.requests, worker);
    var k := worker.attempt.number - 1;
    var s' := ReplyStep(s, w, outcome, now, code);
    LedgerRequests(s.tables, s.requests, s'.requests);
    assert AttemptOk(s'.tables, s'.requests, k);
    ReplyPlanOk(s'.tables, s'.requests, worker.mutation, worker.revision, worker.attempt, outcome, now, code);
    RequestStepInv(s, w, s'.workers[w], k, s'.requests[k]);
  }

  // Steps that write rows.

  lemma BeginDispatchInv(s: System, w: nat, now: Instant)
    requires Inv(s) && Enabled(s, BeginDispatch(w, now))
    ensures Inv(Apply(s, BeginDispatch(w, now))) && Progress(s, Apply(s, BeginDispatch(w, now)))
  {
    var worker := s.workers[w];
    var t, rs := s.tables, s.requests;
    assert WorkerOk(t, rs, worker);
    var s' := BeginDispatchStep(s, w, now);
    if s'.workers[w].Idle? {
      WorkerStepInv(s, w, Idle);
    } else {
      LifecycleLedger(t, rs, s'.tables);
      NobodyBeforeClaim(s);
      if s'.workers[w].mutation == CreateIssue {
        forall k | 0 <= k < |rs| ensures rs[k].epoch != s'.tables.row.value.revision { assert AttemptOk(t, rs, k); }
      }
      WorkersKept(s, s', w);
    }
  }

  /** The rows after one lifecycle write that changes nothing but the draft row.
      A submission may be left for a retry only over a failed last attempt, and
      the created state may be entered only with an issue on record. */
  ghost predicate LifecycleWrite(t: Tables, rs: seq<Request>, t': Tables)
    requires |t.attempts| == |rs|
  {
    && t.row.Some? && t'.row.Some?
    && t'.attempts == t.attempts
    && (t'.published == t.published || (t.published.Some? && t'.published.Some?))
    && var row, row' := t.row.value, t'.row.value;
       && row'.revision == row.revision + 1
       && Revises(row.state, row'.state)
       && (row.state in {Submitting, SubmissionUnknown} && row'.state != AbandonedUnknown ==>
             && row'.template == row.template
             && |rs| > 0 && row'.state != Submitting
             && (row.state == Submitting ==> rs[|rs| - 1].mutation == CreateIssue && rs[|rs| - 1].epoch == row.revision)
             && (row'.state == SubmissionRetryable ==> t.attempts[|rs| - 1].status == FailedAttempt)
             && (row'.state == Created ==> t.published.Some? && t.attempts[|rs| - 1].status == Succeeded))
  }

  lemma LifecycleLedger(t: Tables, rs: seq<Request>, t': Tables)
    requires LedgerOk(t, rs) && t.row.Some? && LifecycleWrite(t, rs, t')
    ensures LedgerOk(t', rs) && Advance(t, rs, t', rs)
  {
    forall k: nat | k < |rs| ensures AttemptOk(t', rs, k) {
      assert AttemptOk(t, rs, k);
      assert AttemptOk(t, rs, |rs| - 1);
    }
  }

  /** A lifecycle write by worker w, which is idle or done afterwards. */
  lemma LifecycleStepInv(s: System, s': System, w: nat)
    requires Inv(s) && s.tables.row.Some? && LifecycleWrite(s.tables, s.requests, s'.tables)
    requires w < |s.workers| == |s'.workers| && s' == s.(tables := s'.tables, workers := s.workers[w := s'.workers[w]])
    requires WorkerOk(s'.tables, s'.requests, s'.workers[w]) && !BeforeClaim(s'.workers[w], CreateIssue)
    ensures Inv(s') && Progress(s, s')
  {
    LifecycleLedger(s.tables, s.requests, s'.tables);
    NobodyBeforeClaim(s);
    WorkersKept(s, s', w);
  }

  /** A lifecycle write by another service, outside the modelled workers. */
  lemma ForeignWriteInv(s: System, s': System)
    requires Inv(s) && s.tables.row.Some? && LifecycleWrite(s.tables, s.requests, s'.tables)
    requires s' == s.(tables := s'.tables)
    ensures Inv(s') && Progress(s, s')
  {
    LifecycleLedger(s.tables, s.requests, s'.tables);
    NobodyBeforeClaim(s);
    forall v | 0 <= v < |s'.workers| ensures WorkerOk(s'.tables, s'.requests, s'.workers[v]) {
      WorkerKept(s.tables, s.requests, s'.tables, s'.requests, s.workers[v]);
    }
  }

  /** The state write that ends a plan is such a lifecycle write. */
  lemma PlanSwaps(t: Tables, rs: seq<Request>, plan: Plan, now: Instant)
    requires LedgerOk(t, rs) && t.row.Some? && PlanOk(t, rs, plan) && plan.attemptDone && plan.issue.None?
    requires CompareAndSwap(t, plan.revision, plan.target, plan.note, now).Ok?
    ensures LifecycleWrite(t, rs, CompareAndSwap(t, plan.revision, plan.target, plan.note, now).value)
  {
    SwapRevises(t, plan.revision, plan.target, plan.note, now);
    var row := t.row.value;
    assert Tracks(t, rs, plan.revision, plan.attempt) && Held(t, plan.attempt);
    if row.state in {Submitting, SubmissionUnknown} {
      assert plan.attempt.number == |rs|;
    }
  }

  lemma WriteStateInv(s: System, w: nat, now: Instant)
    requires Inv(s) && Enabled(s, WriteState(w, now))
    ensures Inv(Apply(s, WriteState(w, now))) && Progress(s, Apply(s, WriteState(w, now)))
  {
    var plan := s.workers[w].plan;
    assert WorkerOk(s.tables, s.requests, s.workers[w]);
    if CompareAndSwap(s.tables, plan.revision, plan.target, plan.note, now).Err? {
      WorkerStepInv(s, w, Idle);
    } else {
      PlanSwaps(s.tables, s.requests, plan, now);
      LifecycleStepInv(s, WriteStateStep(s, w, now), w);
    }
  }

  lemma StartAnalysisInv(s: System, w: nat, now: Instant)
    requires Inv(s) && Enabled(s, StartAnalysis(w, now))
    ensures Inv(Apply(s, StartAnalysis(w, now))) && Progress(s, Apply(s, StartAnalysis(w, now)))
  {
    LifecycleStepInv(s, Apply(s, StartAnalysis(w, now)), w);
  }

  lemma SaveAnalysisInv(s: System, w: nat, takenKeys: set<string>)
    requires Inv(s) && Enabled(s, SaveAnalysis(w, takenKeys))
    ensures Inv(Apply(s, SaveAnalysis(w, takenKeys))) && Progress(s, Apply(s, SaveAnalysis(w, takenKeys)))
  {
    assert WorkerOk(s.tables, s.requests, s.workers[w]);
    match Save(s.tables, s.workers[w].draft, None, takenKeys)
    case Err(_) => WorkerStepInv(s, w, Idle);
    case Ok(tables) => LifecycleStepInv(s, SaveAnalysisStep(s, w, takenKeys), w);
  }

  lemma OtherSaveInv(s: System, d: Draft, expiresAt: Option<Instant>, takenKeys: set<string>)
    requires Inv(s) && Enabled(s, OtherSave(d, expiresAt, takenKeys))
    ensures Inv(Apply(s, OtherSave(d, expiresAt, takenKeys))) && Progress(s, Apply(s, OtherSave(d, expiresAt, takenKeys)))
  {
    var s' := Apply(s, OtherSave(d, expiresAt, takenKeys));
    if s.tables.row.Some? {
      ForeignWriteInv(s, s');
    } else {
      forall v | 0 <= v < |s'.workers| ensures s'.workers[v].Idle? {
        assert WorkerOk(s.tables, s.requests, s.workers[v]);
      }
    }
  }

  lemma OtherSwapInv(s: System, target: DraftState, note: Option<string>, now: Instant)
    requires Inv(s) && Enabled(s, OtherSwap(target, note, now))
    ensures Inv(Apply(s, OtherSwap(target, note, now))) && Progress(s, Apply(s, OtherSwap(target, note, now)))
  {
    ForeignWriteInv(s, Apply(s, OtherSwap(target, note, now)));
  }

  lemma ExpireInv(s: System, before: Instant, now: Instant)
    requires Inv(s) && Enabled(s, ExpireDraft(before, now))
    ensures Inv(Apply(s, ExpireDraft(before, now))) && Progress(s, Apply(s, ExpireDraft(before, now)))
  {
    ForeignWriteInv(s, Apply(s, ExpireDraft(before, now)));
  }

  /** A claim in SUBMITTING: every earlier create attempt has failed by now. */
  lemma ClaimLedger(t: Tables, rs: seq<Request>, a: Attempt, t': Tables, r: Request)
    requires LedgerOk(t, rs) && ClaimAttempt(t, a) == Ok((true, t'))
    requires 1 <= a.number <= |rs| + 1
    requires r.epoch <= t.row.value.revision
    requires r.mutation == UpdateIssue ==> t.row.value.state in POST_CREATE_STATES
    requires r.mutation == CreateIssue ==>
               t.row.value.template.Some? && a.requestHash == CanonicalHash(t.row.value.template.value)
               && SubmissionOpen(t, rs, r.epoch, t.row.value.template.value)
    ensures LedgerOk(t', rs + [r]) && Advance(t, rs, t', rs + [r])
    ensures a.number == |rs| + 1
  {
    var rs' := rs + [r];
    if |rs| > 0 {
      var taken := if a.number <= |rs| then a.number - 1 else |rs| - 1;
      assert AttemptOk(t, rs, taken) && AttemptOk(t, rs, |rs| - 1);
    }
    forall k: nat | k < |rs'| ensures AttemptOk(t', rs', k) {
      if k < |rs| { assert AttemptOk(t, rs, k); }
    }
  }

  lemma ClaimInv(s: System, w: nat)
    requires Inv(s) && Enabled(s, Claim(w))
    ensures Inv(Apply(s, Claim(w))) && Progress(s, Apply(s, Claim(w)))
  {
    var s' := ClaimStep(s, w);
    assert Apply(s, Claim(w)) == s';
    if s'.workers[w].Idle? {
      WorkerStepInv(s, w, Idle);
    } else {
      ClaimStored(s, w, s');
    }
  }

  lemma ClaimStored(s: System, w: nat, s': System)
    requires Inv(s) && Enabled(s, Claim(w)) && s' == ClaimStep(s, w) && !s'.workers[w].Idle?
    ensures Inv(s') && Progress(s, s')
  {
    var worker := s.workers[w];
    assert WorkerOk(s.tables, s.requests, worker);
    ClaimLedger(s.tables, s.requests, worker.attempt, s'.tables, s'.requests[|s.requests|]);
    WorkersKept(s, s', w);
  }

  /** The row an update finds by id is the one the attempt's number points at. */
  lemma UpdateHitsNumber(t: Tables, a: Attempt, t': Tables)
    requires Held(t, a) && UpdateAttempt(t, a) == Ok(t')
    requires forall i, j :: 0 <= i < j < |t.attempts| ==> t.attempts[i].attemptId != t.attempts[j].attemptId
    ensures t' == t.(attempts := t.attempts[a.number - 1 := a])
    ensures a.status == t.attempts[a.number - 1].status || StatusMoveAllowed(t.attempts[a.number - 1].status, a.status)
  {
    var k, found := a.number - 1, FindAttempt(t.attempts, a.attemptId).value;
    assert t.attempts[k].attemptId == t.attempts[found].attemptId;
    assert !(k < found) && !(found < k);
  }

  /** Writing an attempt's outcome. A create attempt can only turn failed when its
      request is accounted for, or becomes so by this very write. */
  lemma AttemptLedger(t: Tables, rs: seq<Request>, a: Attempt, t': Tables, r: Request)
    requires LedgerOk(t, rs) && t.row.Some? && Held(t, a) && a.status != InProgress
    requires t' == t.(attempts := t.attempts[a.number - 1 := a])
    requires a.status == t.attempts[a.number - 1].status || StatusMoveAllowed(t.attempts[a.number - 1].status, a.status)
    requires RequestKept(rs[a.number - 1], r)
    requires a.status == FailedAttempt ==> !Unaccounted(r)
    ensures LedgerOk(t', rs[a.number - 1 := r]) && Advance(t, rs, t', rs[a.number - 1 := r])
  {
    var rs' := rs[a.number - 1 := r];
    forall j: nat | j < |rs'| ensures AttemptOk(t', rs', j) { assert AttemptOk(t, rs, j); }
    assert AttemptOk(t, rs, |rs| - 1);
  }

  lemma AttemptWritten(t: Tables, rs: seq<Request>, plan: Plan, t': Tables, r: Request)
    requires LedgerOk(t, rs) && t.row.Some? && PlanOk(t, rs, plan) && !plan.attemptDone
    requires UpdateAttempt(t, plan.attempt) == Ok(t')
    requires var k := plan.attempt.number - 1; r == rs[k].(writtenOff := rs[k].writtenOff || plan.writeOff)
    ensures |t'.attempts| == |rs|
    ensures var rs' := rs[plan.attempt.number - 1 := r];
            LedgerOk(t', rs') && Advance(t, rs, t', rs') && PlanOk(t', rs', plan.(attemptDone := true))
  {
    UpdateHitsNumber(t, plan.attempt, t');
    AttemptLedger(t, rs, plan.attempt, t', r);
    TracksKept(t, rs, t', rs[plan.attempt.number - 1 := r], plan.revision, plan.attempt);
  }

  lemma WriteAttemptInv(s: System, w: nat)
    requires Inv(s) && Enabled(s, WriteAttempt(w))
    ensures Inv(Apply(s, WriteAttempt(w))) && Progress(s, Apply(s, WriteAttempt(w)))
  {
    var s' := WriteAttemptStep(s, w);
    assert Apply(s, WriteAttempt(w)) == s';
    if UpdateAttempt(s.tables, s.workers[w].plan.attempt).Err? {
      WorkerStepInv(s, w, Idle);
    } else {
      AttemptStored(s, w, s');
    }
  }

  lemma AttemptStored(s: System, w: nat, s': System)
    requires Inv(s) && Enabled(s, WriteAttempt(w)) && UpdateAttempt(s.tables, s.workers[w].plan.attempt).Ok?
    requires s' == WriteAttemptStep(s, w)
    ensures Inv(s') && Progress(s, s')
  {
    var plan := s.workers[w].plan;
    assert WorkerOk(s.tables, s.requests, s.workers[w]);
    AttemptWritten(s.tables, s.requests, plan, s'.tables, s'.requests[plan.attempt.number - 1]);
    WorkersKept(s, s', w);
  }

  lemma WriteIssueInv(s: System, w: nat, takenKeys: set<string>)
    requires Inv(s) && Enabled(s, WriteIssue(w, takenKeys))
    ensures Inv(Apply(s, WriteIssue(w, takenKeys))) && Progress(s, Apply(s, WriteIssue(w, takenKeys)))
  {
    var plan := s.workers[w].plan;
    var t, rs := s.tables, s.requests;
    assert WorkerOk(t, rs, s.workers[w]);
    var s' := WriteIssueStep(s, w, takenKeys);
    if StorePublished(t, plan.issue.value, takenKeys).Err? {
      WorkerStepInv(s, w, Idle);
    } else {
      IssueWritten(t, rs, plan.attempt.number - 1, s'.tables);
      TracksKept(t, rs, s'.tables, rs, plan.revision, plan.attempt);
      WorkersKept(s, s', w);
    }
  }

  lemma IssueWritten(t: Tables, rs: seq<Request>, k: nat, t': Tables)
    requires LedgerOk(t, rs) && t.row.Some? && k < |rs| && t.attempts[k].status == Succeeded
    requires t'.published.Some? && t' == t.(published := t'.published)
    ensures LedgerOk(t', rs) && Advance(t, rs, t', rs)
  {
    assert AttemptOk(t, rs, k);
    forall j: nat | j < |rs| ensures AttemptOk(t', rs, j) { assert AttemptOk(t, rs, j); }
  }

  lemma StepInv(s: System, step: Step)
    requires Inv(s) && Enabled(s, step)
    ensures Inv(Apply(s, step)) && Progress(s, Apply(s, step))
  {
    match step
    case LoadDraft(w, op) => LoadInv(s, w, op);
    case BeginDispatch(w, now) => BeginDispatchInv(s, w, now);
    case NumberAttempt(w, attemptId, now) => NumberInv(s, w, attemptId, now);
    case Claim(w) => ClaimInv(s, w);
    case Send(w) => SendInv(s, w);
    case ApplyRequest(k) => ApplyRequestInv(s, k);
    case Reply(w, outcome, now, code) => ReplyInv(s, w, outcome, now, code);
    case ReadAttempt(w, now) => ReadAttemptInv(s, w, now);
    case Match(w, issue, now) => MatchInv(s, w, issue, now);
    case WriteAttempt(w) => WriteAttemptInv(s, w);
    case WriteIssue(w, takenKeys) => WriteIssueInv(s, w, takenKeys);
    case WriteState(w, now) => WriteStateInv(s, w, now);
    case Crash(w) => CrashInv(s, w);
    case StartAnalysis(w, now) => StartAnalysisInv(s, w, now);
    case RereadForAnalysis(w, template, now) => RereadInv(s, w, template, now);
    case SaveAnalysis(w, takenKeys) => SaveAnalysisInv(s, w, takenKeys);
    case OtherSave(d, expiresAt, takenKeys) => OtherSaveInv(s, d, expiresAt, takenKeys);
    case OtherSwap(target, note, now) => OtherSwapInv(s, target, note, now);
    case ExpireDraft(before, now) => ExpireInv(s, before, now);
  }
}
