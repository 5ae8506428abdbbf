/** What the submission protocol guarantees over every run. */
module SubmissionTheorems {
  import opened Fsm
  import opened WorkflowTables
  import opened Wrappers
  import opened SubmissionProtocol
  import opened Sums

  predicate Follows(s: System, step: Step, s': System) {
    Enabled(s, step) && s' == Apply(s, step)
  }

  ghost predicate IsRun(run: seq<System>, steps: seq<Step>) {
    && |run| == |steps| + 1
    && forall n {:trigger steps[n]} :: 0 <= n < |steps| ==> Follows(run[n], steps[n], run[n + 1])
  }

  /** A run of any number of workers from an empty database. */
  ghost predicate FullRun(run: seq<System>, steps: seq<Step>, workers: nat) {
    IsRun(run, steps) && run[0] == Init(workers)
  }

  lemma {:induction false} RunInv(run: seq<System>, steps: seq<Step>, workers: nat, n: nat)
    requires FullRun(run, steps, workers) && n < |run|
    ensures Inv(run[n])
    ensures n > 0 ==> Progress(run[n - 1], run[n])
  {
    if n > 0 {
      RunInv(run, steps, workers, n - 1);
      assert Follows(run[n - 1], steps[n - 1], run[n]);
      StepInv(run[n - 1], steps[n - 1]);
    }
  }

  // ---- Create once ---------------------------------------------------------------

  function AppliedCreate(r: Request): int { if r.mutation == CreateIssue && r.applied then 1 else 0 }
  function AppliedMalformed(r: Request): int { if r.mutation == CreateIssue && r.applied && r.malformed then 1 else 0 }
  function AppliedWrittenOff(r: Request): int { if r.mutation == CreateIssue && r.applied && r.writtenOff then 1 else 0 }
  function AppliedUnexplained(r: Request): int { if Unaccounted(r) && r.applied then 1 else 0 }
  function AppliedExplained(r: Request): int { AppliedCreate(r) - AppliedUnexplained(r) }

  /** The issues Jira holds because of this draft. */
  function IssuesCreated(s: System): int { Sum(s.requests, AppliedCreate) }

  lemma {:induction false} AtMostOne(rs: seq<Request>)
    requires forall i, j :: 0 <= i < |rs| && 0 <= j < |rs| && Unaccounted(rs[i]) && Unaccounted(rs[j]) ==> i == j
    ensures Sum(rs, AppliedUnexplained) <= 1
  {
    if rs != [] {
      var n := |rs| - 1;
      if AppliedUnexplained(rs[n]) == 1 {
        SumZero(rs[..n], AppliedUnexplained);
      } else {
        AtMostOne(rs[..n]);
      }
    }
  }

  /** At any moment at most one create request can be in play unexplained. */
  lemma OneInPlay(s: System, i: nat, j: nat)
    requires Inv(s) && i < |s.requests| && j < |s.requests| && Unaccounted(s.requests[i]) && Unaccounted(s.requests[j])
    ensures i == j
  {
    assert AttemptOk(s.tables, s.requests, i) && AttemptOk(s.tables, s.requests, j);
  }

  lemma InvBoundsIssues(s: System)
    requires Inv(s)
    ensures IssuesCreated(s) <= 1 + Sum(s.requests, AppliedMalformed) + Sum(s.requests, AppliedWrittenOff)
  {
    var rs := s.requests;
    forall i, j | 0 <= i < |rs| && 0 <= j < |rs| && Unaccounted(rs[i]) && Unaccounted(rs[j]) ensures i == j {
      OneInPlay(s, i, j);
    }
    AtMostOne(rs);
    var explained: Request -> int := (r: Request) => AppliedMalformed(r) + AppliedWrittenOff(r);
    SumAdd(rs, AppliedUnexplained, AppliedExplained, AppliedCreate);
    SumAdd(rs, AppliedMalformed, AppliedWrittenOff, explained);
    SumMonotone(rs, AppliedExplained, explained);
  }

  /** Create-once: through every interleaving of submits, retries, crashes,
      recoveries, reconciliations and edits by any number of workers, the issues
      Jira ends up with are at most one, plus one for each creation answered by a
      2xx reply the gateway could not read, plus one for each creation somebody
      recorded as not having happened. */
  lemma CreateOnce(run: seq<System>, steps: seq<Step>, workers: nat, n: nat)
    requires FullRun(run, steps, workers) && n < |run|
    ensures IssuesCreated(run[n]) <= 1 + Sum(run[n].requests, AppliedMalformed) + Sum(run[n].requests, AppliedWrittenOff)
  {
    RunInv(run, steps, workers, n);
    InvBoundsIssues(run[n]);
  }

  // ---- Ledger ----------------------------------------------------------------------

  /** In every reachable state: one attempt in progress at most, numbers 1, 2, 3, ...,
      and an attempt in progress while SUBMITTING, or unknown while in doubt,
      carries the hash of the template stored on the draft. */
  lemma LedgerShape(run: seq<System>, steps: seq<Step>, workers: nat, n: nat)
    requires FullRun(run, steps, workers) && n < |run|
    ensures var t := run[n].tables;
            && (forall i: nat {:trigger t.attempts[i]} :: i < |t.attempts| ==>
                  t.attempts[i].number == i + 1 && (t.attempts[i].status == InProgress ==> i == |t.attempts| - 1))
            && (t.attempts != [] && t.row.Some? ==>
                  var row, last := t.row.value, t.attempts[|t.attempts| - 1];
                  (row.state == Submitting && last.status == InProgress) || row.state == SubmissionUnknown ==>
                    row.template.Some? && last.requestHash == CanonicalHash(row.template.value))
  {
    RunInv(run, steps, workers, n);
    var t, rs := run[n].tables, run[n].requests;
    forall i: nat | i < |t.attempts|
      ensures t.attempts[i].number == i + 1 && (t.attempts[i].status == InProgress ==> i == |t.attempts| - 1)
    {
      assert AttemptOk(t, rs, i);
    }
    if t.attempts != [] { assert AttemptOk(t, rs, |rs| - 1); }
  }

  /** From one state of a run to any later one: attempts are only added, none
      changes its identity, and success and failure are final. */
  lemma {:induction false} LedgerGrows(run: seq<System>, steps: seq<Step>, workers: nat, m: nat, n: nat, k: nat)
    requires FullRun(run, steps, workers) && m <= n < |run| && k < |run[m].tables.attempts|
    ensures k < |run[n].tables.attempts|
    ensures var a, b := run[m].tables.attempts[k], run[n].tables.attempts[k];
            && SameIdentity(a, b)
            && (a.status in {Succeeded, FailedAttempt} ==> b.status == a.status)
            && (a.status != InProgress ==> b.status != InProgress)
    decreases n
  {
    if m < n {
      LedgerGrows(run, steps, workers, m, n - 1, k);
      RunInv(run, steps, workers, n);
      var s, s' := run[n - 1], run[n];
      assert k < |s.requests| && s.tables.row.Some? by { RunInv(run, steps, workers, n - 1); }
      assert EntryAdvances(s.tables.attempts[k], s.requests[k], s'.tables.attempts[k], s'.requests[k]);
    }
  }

  // ---- Lifecycle ---------------------------------------------------------------------

  /** Between any two states of a run the draft's revision grows by one per step
      of a legal path, same-state saves included; equal revisions mean the same
      state and template. */
  lemma {:induction false} LifecyclePath(run: seq<System>, steps: seq<Step>, workers: nat, m: nat, n: nat) returns (path: seq<DraftState>)
    requires FullRun(run, steps, workers) && m <= n < |run| && run[m].tables.row.Some?
    ensures run[n].tables.row.Some?
    ensures var before, after := run[m].tables.row.value, run[n].tables.row.value;
            && IsPath(path) && path[0] == before.state && path[|path| - 1] == after.state
            && |path| == after.revision - before.revision + 1
            && (before.revision == after.revision ==> before.template == after.template)
    decreases n
  {
    if m == n {
      path := [run[m].tables.row.value.state];
    } else {
      path := LifecyclePath(run, steps, workers, m, n - 1);
      RunInv(run, steps, workers, n);
      var row, row' := run[n - 1].tables.row.value, run[n].tables.row.value;
      if row'.revision > row.revision {
        path := path + [row'.state];
      }
    }
  }

  /** After creation: the draft stays in the created family, can neither expire
      nor be cancelled nor be submitted again, and keeps an issue on record. */
  lemma PostCreateClosure(run: seq<System>, steps: seq<Step>, workers: nat, m: nat, n: nat)
    requires FullRun(run, steps, workers) && m <= n < |run|
    requires run[m].tables.row.Some? && run[m].tables.row.value.state in POST_CREATE_STATES
    ensures run[n].tables.row.Some? && run[n].tables.row.value.state in POST_CREATE_STATES
    ensures forall before :: !Due(run[n].tables, before)
    ensures run[m].tables.row.value.state != AbandonedUnknown ==> run[m].tables.published.Some? && run[n].tables.published.Some?
  {
    var path := LifecyclePath(run, steps, workers, m, n);
    PostCreateClosed(path, 0, |path| - 1);
    RunInv(run, steps, workers, m);
    if run[m].tables.published.Some? { PublishedKept(run, steps, workers, m, n); }
  }

  lemma {:induction false} PublishedKept(run: seq<System>, steps: seq<Step>, workers: nat, m: nat, n: nat)
    requires FullRun(run, steps, workers) && m <= n < |run| && run[m].tables.row.Some? && run[m].tables.published.Some?
    ensures run[n].tables.row.Some? && run[n].tables.published.Some?
    decreases n
  {
    if m < n {
      PublishedKept(run, steps, workers, m, n - 1);
      RunInv(run, steps, workers, n);
    }
  }

  /** No step creates a draft whose issue is not on record already. */
  lemma IssueBeforeCreation(run: seq<System>, steps: seq<Step>, workers: nat, n: nat)
    requires FullRun(run, steps, workers) && n < |steps| && run[n + 1].tables.row.Some?
    requires run[n].tables.row.None? || run[n].tables.row.value.state !in POST_CREATE_STATES
    requires run[n + 1].tables.row.value.state in POST_CREATE_STATES - {AbandonedUnknown}
    ensures run[n + 1].tables.row.value.state == Created && run[n].tables.published.Some? && steps[n].WriteState?
  {
    RunInv(run, steps, workers, n);
    RunInv(run, steps, workers, n + 1);
    assert Follows(run[n], steps[n], run[n + 1]);
    EntersCreated(run[n], steps[n]);
  }

  /** Not created, and not going to be looked at as such. */
  predicate Outside(t: Tables) { t.row.Some? ==> t.row.value.state !in POST_CREATE_STATES - {AbandonedUnknown} }

  predicate MovesTheRow(step: Step) {
    step.BeginDispatch? || step.WriteState? || step.StartAnalysis? || step.SaveAnalysis? || step.OtherSave? || step.OtherSwap? || step.ExpireDraft?
  }

  lemma OtherStepsKeepTheRow(s: System, step: Step)
    requires Enabled(s, step) && !MovesTheRow(step)
    ensures Apply(s, step).tables.row == s.tables.row
  {}

  /** From outside the created family a swap enters it only to be created. */
  lemma SwapStaysOutside(t: Tables, revision: int, target: DraftState, note: Option<string>, now: Instant)
    requires t.row.Some? && t.row.value.state !in POST_CREATE_STATES && CompareAndSwap(t, revision, target, note, now).Ok?
    ensures target != Created ==> Outside(CompareAndSwap(t, revision, target, note, now).value)
    ensures CompareAndSwap(t, revision, target, note, now).value.published == t.published
  {}

  lemma SaveStaysOutside(t: Tables, d: Draft, expiresAt: Option<Instant>, takenKeys: set<string>)
    requires t.row.None? || t.row.value.state !in POST_CREATE_STATES
    requires d.state in {Collecting, Review, UpdateReview} && (t.row.None? ==> d.state != UpdateReview) && Save(t, d, expiresAt, takenKeys).Ok?
    ensures Outside(Save(t, d, expiresAt, takenKeys).value)
  {}

  lemma AnalysisStaysOutside(s: System, w: nat, takenKeys: set<string>)
    requires Inv(s) && Enabled(s, SaveAnalysis(w, takenKeys))
    requires s.tables.row.None? || s.tables.row.value.state !in POST_CREATE_STATES
    ensures Outside(Apply(s, SaveAnalysis(w, takenKeys)).tables)
  {
    assert WorkerOk(s.tables, s.requests, s.workers[w]);
    if Save(s.tables, s.workers[w].draft, None, takenKeys).Ok? { SaveStaysOutside(s.tables, s.workers[w].draft, None, takenKeys); }
  }

  lemma OthersStayOutside(s: System, step: Step)
    requires Inv(s) && Enabled(s, step) && MovesTheRow(step) && !step.WriteState?
    requires s.tables.row.None? || s.tables.row.value.state !in POST_CREATE_STATES
    ensures Outside(Apply(s, step).tables)
  {
    match step
    case BeginDispatch(w, now) =>
      var worker := s.workers[w];
      assert WorkerOk(s.tables, s.requests, worker);
      var target := DispatchState(if worker.op == Submit then CreateIssue else UpdateIssue);
      if CompareAndSwap(s.tables, worker.row.revision, target, None, now).Ok? {
        SwapStaysOutside(s.tables, worker.row.revision, target, None, now);
      }
    case StartAnalysis(_, now) => SwapStaysOutside(s.tables, s.tables.row.value.revision, DraftState.Analyzing, None, now);
    case SaveAnalysis(w, takenKeys) => AnalysisStaysOutside(s, w, takenKeys);
    case OtherSave(d, expiresAt, takenKeys) => SaveStaysOutside(s.tables, d, expiresAt, takenKeys);
    case OtherSwap(target, note, now) => SwapStaysOutside(s.tables, s.tables.row.value.revision, target, note, now);
    case _ =>
  }

  /** Only the last write of a submission enters the created family, and it leaves the
      issue alone. */
  lemma EntersCreated(s: System, step: Step)
    requires Inv(s) && Enabled(s, step)
    requires s.tables.row.None? || s.tables.row.value.state !in POST_CREATE_STATES
    requires !Outside(Apply(s, step).tables)
    ensures step.WriteState? && Apply(s, step).tables.row.value.state == Created && Apply(s, step).tables.published == s.tables.published
  {
    if !MovesTheRow(step) { OtherStepsKeepTheRow(s, step); }
    if MovesTheRow(step) && !step.WriteState? { OthersStayOutside(s, step); }
    if step.WriteState? { WriteStateEnters(s, step.w, step.now); }
  }

  lemma WriteStateEnters(s: System, w: nat, now: Instant)
    requires Inv(s) && Enabled(s, WriteState(w, now))
    requires s.tables.row.None? || s.tables.row.value.state !in POST_CREATE_STATES
    ensures var t := Apply(s, WriteState(w, now)).tables; t.published == s.tables.published && (!Outside(t) ==> t.row.value.state == Created)
  {
    var plan := s.workers[w].plan;
    assert WorkerOk(s.tables, s.requests, s.workers[w]);
    if CompareAndSwap(s.tables, plan.revision, plan.target, plan.note, now).Ok? {
      SwapStaysOutside(s.tables, plan.revision, plan.target, plan.note, now);
    }
  }

  /** What is to be written: the draft as it was read again, with the template the
      analysis gave, in review at the next revision. */
  lemma AnalysisDraft(s: System, w: nat, template: Template, now: Instant)
    requires Enabled(s, RereadForAnalysis(w, template, now))
    ensures var worker, row := Apply(s, RereadForAnalysis(w, template, now)).workers[w], s.tables.row.value;
            && worker.Analyzed? && worker.revision == row.revision
            && worker.draft.template == Some(template) && worker.draft.state == Review && worker.draft.revision == row.revision + 1
            && worker.draft.messages == s.tables.messages && |worker.draft.attachments| == |s.tables.attachments|
            && worker.draft.ownerId == row.ownerId && worker.draft.chatId == row.chatId && worker.draft.threadId == row.threadId
            && worker.draft.createdAt == row.createdAt && worker.draft.updatedAt == now && worker.draft.lastError.None?
            && worker.draft.published == s.tables.published
  {}

  /** A late analysis is written only if the draft is still being analyzed, at
      the very revision the analysis started from. */
  lemma LateAnalysis(run: seq<System>, steps: seq<Step>, workers: nat, n: nat)
    requires FullRun(run, steps, workers) && n < |steps| && steps[n].SaveAnalysis?
    ensures steps[n].w < |run[n].workers| && run[n].workers[steps[n].w].Analyzed?
    ensures run[n + 1].tables == run[n].tables
            || (&& run[n].tables.row.Some?
                && run[n].tables.row.value.state == DraftState.Analyzing
                && run[n].tables.row.value.revision == run[n].workers[steps[n].w].revision
                && run[n + 1].tables.row.Some?
                && run[n + 1].tables.row.value.template == run[n].workers[steps[n].w].draft.template
                && run[n + 1].tables.row.value.state == run[n].workers[steps[n].w].draft.state == Review)
  {
    RunInv(run, steps, workers, n);
    assert Follows(run[n], steps[n], run[n + 1]);
    assert WorkerOk(run[n].tables, run[n].requests, run[n].workers[steps[n].w]);
  }

  // ---- The bound is attained ---------------------------------------------------------

  ghost predicate Reaches(s: System, s': System) {
    exists run, steps :: IsRun(run, steps) && run[0] == s && run[|run| - 1] == s'
  }

  lemma ReachesItself(s: System)
    ensures Reaches(s, s)
  {
    assert IsRun([s], []);
  }

  lemma Extend(s: System, s': System, step: Step)
    requires Reaches(s, s') && Enabled(s', step)
    ensures Reaches(s, Apply(s', step))
  {
    var run, steps :| IsRun(run, steps) && run[0] == s && run[|run| - 1] == s';
    var run', steps' := run + [Apply(s', step)], steps + [step];
    forall n | 0 <= n < |steps'| ensures Follows(run'[n], steps'[n], run'[n + 1]) {
      if n < |steps| { assert Follows(run[n], steps[n], run[n + 1]); }
    }
    assert IsRun(run', steps');
  }

  /** One more step of a run from s. */
  lemma Go(s: System, s': System, step: Step) returns (s'': System)
    requires Inv(s') && Reaches(s, s') && Enabled(s', step)
    ensures s'' == Apply(s', step) && Inv(s'') && Reaches(s, s'')
  {
    Extend(s, s', step);
    StepInv(s', step);
    s'' := Apply(s', step);
  }

  /** One worker, idle; a draft that can be submitted; nothing in progress. */
  ghost predicate Ready(s: System, template: Template, attempts: nat) {
    && Inv(s) && |s.workers| == 1 && s.workers[0].Idle? && s.tables.row.Some?
    && s.tables.row.value.state in {Review, SubmissionRetryable} && s.tables.row.value.template == Some(template)
    && |s.requests| == attempts
    && forall i {:trigger s.tables.attempts[i]} :: 0 <= i < attempts ==>
         |s.tables.attempts[i].attemptId| < attempts && s.tables.attempts[i].status != InProgress
  }

  function Name(n: nat): string { seq(n, _ => 'x') }

  /** From a ready draft to a claimed attempt, sent and applied, with its worker
      waiting for the reply. */
  ghost predicate Applied(s: System, before: System, template: Template) {
    var n := |before.requests|;
    && Inv(s) && s.tables.row.Some? && |s.workers| == 1 && |s.requests| == n + 1
    && var row := s.tables.row.value;
       && row.state == Submitting && row.template == Some(template)
       && s.tables.attempts[..n] == before.tables.attempts && s.requests[..n] == before.requests
       && s.requests[n] == Request(CreateIssue, row.revision, true, true, false, false, false)
       && s.tables.attempts[n].status == InProgress && s.tables.attempts[n].attemptId == Name(n)
       && s.workers[0] == Sent(CreateIssue, row.revision, s.tables.attempts[n])
  }

  lemma Dispatch(s: System, template: Template) returns (s': System)
    requires Ready(s, template, |s.requests|)
    ensures Reaches(s, s') && Dispatched(s', s, template)
  {
    ReachesItself(s);
    var s1 := Go(s, s, LoadDraft(0, Submit));
    s' := Go(s, s1, BeginDispatch(0, 0));
  }

  ghost predicate Dispatched(s: System, before: System, template: Template) {
    && Inv(s) && |s.workers| == 1
    && s.requests == before.requests && s.tables.attempts == before.tables.attempts && s.tables.row.Some?
    && var row := s.tables.row.value;
       row.state == Submitting && row.template == Some(template) && s.workers[0] == Dispatching(CreateIssue, row.revision, template)
  }

  /** The next number, under a longer name, collides with nothing. */
  lemma FreshAttempt(s: System, template: Template, a: Attempt)
    requires Ready(s, template, |s.requests|) && a.number == |s.requests| + 1 && |a.attemptId| == |s.requests|
    ensures Insertable(s.tables.attempts, a)
  {
    forall i | 0 <= i < |s.tables.attempts|
      ensures s.tables.attempts[i].number != a.number && s.tables.attempts[i].attemptId != a.attemptId
    {
      assert AttemptOk(s.tables, s.requests, i);
    }
  }

  lemma NumberAndClaim(s: System, before: System, template: Template) returns (s': System)
    requires Ready(before, template, |before.requests|) && Reaches(before, s) && Dispatched(s, before, template)
    ensures var n := |before.requests|;
            && Reaches(before, s') && Inv(s') && |s'.workers| == 1 && |s'.requests| == n + 1
            && s'.tables.row == s.tables.row && s'.tables.attempts[..n] == before.tables.attempts && s'.requests[..n] == before.requests
            && s'.requests[n] == Request(CreateIssue, s.tables.row.value.revision, false, false, false, false, false)
            && s'.tables.attempts[n].status == InProgress && s'.tables.attempts[n].attemptId == Name(n)
            && s'.workers[0] == Claimed(CreateIssue, s.tables.row.value.revision, s'.tables.attempts[n])
  {
    var n := |before.requests|;
    var number := NumberAttempt(0, Name(n), 0);
    var s3 := Go(before, s, number);
    if n > 0 { LatestIsLast(s.tables, s.requests); }
    var a := s3.workers[0].attempt;
    assert a.number == n + 1 && a.attemptId == Name(n);
    FreshAttempt(before, template, a);
    assert Insertable(s3.tables.attempts, a);
    s' := Go(before, s3, Claim(0));
  }

  lemma ClaimSendApply(s: System, template: Template) returns (s': System)
    requires Ready(s, template, |s.requests|)
    ensures Reaches(s, s') && Applied(s', s, template)
  {
    var n := |s.requests|;
    var s2 := Dispatch(s, template);
    var s4 := NumberAndClaim(s2, s, template);
    assert AttemptOk(s4.tables, s4.requests, n);
    var s5 := Go(s, s4, Send(0));
    s' := Go(s, s5, ApplyRequest(n));
  }

  /** What one more applied request adds to the three counts. */
  lemma RoundCounts(s: System, s': System)
    requires |s'.requests| == |s.requests| + 1 && s'.requests[..|s.requests|] == s.requests
    ensures var r := s'.requests[|s.requests|];
            && IssuesCreated(s') == IssuesCreated(s) + AppliedCreate(r)
            && Sum(s'.requests, AppliedMalformed) == Sum(s.requests, AppliedMalformed) + AppliedMalformed(r)
            && Sum(s'.requests, AppliedWrittenOff) == Sum(s.requests, AppliedWrittenOff) + AppliedWrittenOff(r)
  {
    var r := s'.requests[|s.requests|];
    assert s'.requests == s.requests + [r];
    SumAppend(s.requests, r, AppliedCreate);
    SumAppend(s.requests, r, AppliedMalformed);
    SumAppend(s.requests, r, AppliedWrittenOff);
  }

  /** A worker with an outcome to record writes the attempt, then the state. */
  lemma WriteOutcome(s: System, n: nat) returns (s': System)
    requires Inv(s) && |s.workers| == 1 && s.workers[0].Writing? && |s.requests| == n + 1 && s.tables.row.Some?
    requires var plan := s.workers[0].plan;
             && !plan.attemptDone && plan.issue.None? && plan.attempt.number == n + 1
             && plan.revision == s.tables.row.value.revision && TransitionAllowed(s.tables.row.value.state, plan.target)
             && plan.attempt.completedAt.Some? && SafeCode(plan.attempt.errorSummary) && SafeCode(plan.note)
             && StatusMoveAllowed(s.tables.attempts[n].status, plan.attempt.status)
    ensures var plan := s.workers[0].plan;
            && Reaches(s, s') && Inv(s') && |s'.workers| == 1 && s'.workers[0].Idle? && s'.tables.row.Some?
            && s'.tables.row.value.state == plan.target && s'.tables.row.value.template == s.tables.row.value.template
            && s'.tables.attempts == s.tables.attempts[n := plan.attempt]
            && s'.requests == s.requests[n := s.requests[n].(writtenOff := s.requests[n].writtenOff || plan.writeOff)]
  {
    var plan := s.workers[0].plan;
    assert WorkerOk(s.tables, s.requests, s.workers[0]);
    UpdateHitsNumberExists(s.tables, plan.attempt, n);
    ReachesItself(s);
    var mid := Go(s, s, WriteAttempt(0));
    s' := Go(s, mid, WriteState(0, 0));
  }

  /** One more round: an issue created, its 2xx reply unreadable, and the draft
      offered for a retry. */
  lemma MalformedRound(s: System, template: Template) returns (s': System)
    requires Ready(s, template, |s.requests|)
    ensures Reaches(s, s') && Ready(s', template, |s.requests| + 1)
    ensures IssuesCreated(s') == IssuesCreated(s) + 1
    ensures Sum(s'.requests, AppliedMalformed) == Sum(s.requests, AppliedMalformed) + 1
    ensures Sum(s'.requests, AppliedWrittenOff) == Sum(s.requests, AppliedWrittenOff)
  {
    var n := |s.requests|;
    var s6 := ClaimSendApply(s, template);
    var code := Some("contract");
    var reply := Reply(0, Malformed, 0, code);
    assert AttemptOk(s6.tables, s6.requests, n);
    var s7 := Go(s, s6, reply);
    assert SafeCode(code);
    s' := WriteOutcome(s7, n);
    Join2(s, s7, s');
    RoundCounts(s, s');
    ReadyAgain(s, s', template);
  }

  lemma ReadyAgain(s: System, s': System, template: Template)
    requires Ready(s, template, |s.requests|)
    requires var n := |s.requests|;
             && Inv(s') && |s'.workers| == 1 && s'.workers[0].Idle? && s'.tables.row.Some? && |s'.requests| == n + 1
             && s'.tables.row.value.state == SubmissionRetryable && s'.tables.row.value.template == Some(template)
             && s'.tables.attempts[..n] == s.tables.attempts && |s'.tables.attempts[n].attemptId| <= n && s'.tables.attempts[n].status != InProgress
    ensures Ready(s', template, |s.requests| + 1)
  {
    var n := |s.requests|;
    forall i | 0 <= i < n + 1
      ensures |s'.tables.attempts[i].attemptId| < n + 1 && s'.tables.attempts[i].status != InProgress
    {
      if i < n { assert s'.tables.attempts[i] == s.tables.attempts[i]; }
    }
  }

  lemma UpdateHitsNumberExists(t: Tables, a: Attempt, n: nat)
    requires n < |t.attempts| && SameIdentity(t.attempts[n], a) && a.completedAt.Some? && SafeCode(a.errorSummary)
    requires forall i, j :: 0 <= i < j < |t.attempts| ==> t.attempts[i].attemptId != t.attempts[j].attemptId
    requires StatusMoveAllowed(t.attempts[n].status, a.status)
    ensures UpdateAttempt(t, a) == Ok(t.(attempts := t.attempts[n := a]))
  {
    var found := FindAttempt(t.attempts, a.attemptId).value;
    assert !(n < found) && !(found < n);
  }

  /** The draft of an applied request in doubt, up to SUBMISSION_UNKNOWN. */
  lemma LeftInDoubt(s: System, template: Template) returns (s': System)
    requires Ready(s, template, |s.requests|)
    ensures Reaches(s, s') && Inv(s') && |s'.workers| == 1 && s'.workers[0].Idle?
    ensures |s'.requests| == |s.requests| + 1 && s'.tables.row.Some?
    ensures s'.tables.row.value.state == SubmissionUnknown && s'.tables.row.value.template == Some(template)
    ensures var n := |s.requests|;
            && s'.requests[..n] == s.requests && s'.tables.attempts[..n] == s.tables.attempts
            && s'.tables.attempts[n].attemptId == Name(n) && s'.tables.attempts[n].status == Unknown
            && s'.requests[n].mutation == CreateIssue && s'.requests[n].applied && !s'.requests[n].malformed && !s'.requests[n].writtenOff
  {
    var n := |s.requests|;
    var s6 := ClaimSendApply(s, template);
    var reply := Reply(0, InDoubt, 0, None);
    assert AttemptOk(s6.tables, s6.requests, n);
    var s7 := Go(s, s6, reply);
    assert SafeCode(OUTCOME_UNKNOWN);
    s' := WriteOutcome(s7, n);
    Join2(s, s7, s');
  }

  lemma Join2(s: System, s': System, s'': System)
    requires Reaches(s, s') && Reaches(s', s'')
    ensures Reaches(s, s'')
  {
    var r1, t1 :| IsRun(r1, t1) && r1[0] == s && r1[|r1| - 1] == s';
    var r2, t2 :| IsRun(r2, t2) && r2[0] == s' && r2[|r2| - 1] == s'';
    var run, steps := r1 + r2[1..], t1 + t2;
    forall n | 0 <= n < |steps| ensures Follows(run[n], steps[n], run[n + 1]) {
      if n < |t1| {
        assert Follows(r1[n], t1[n], r1[n + 1]);
      } else {
        assert Follows(r2[n - |t1|], t2[n - |t1|], r2[n - |t1| + 1]);
      }
    }
    assert IsRun(run, steps);
  }

  lemma LoadForRetry(s: System) returns (s': System)
    requires Inv(s) && |s.workers| == 1 && s.workers[0].Idle? && s.tables.row.Some? && s.tables.row.value.state == SubmissionUnknown
    ensures Reaches(s, s') && Inv(s') && s'.tables == s.tables && s'.requests == s.requests
    ensures s'.workers == [Loaded(AllowRetry, s.tables.row.value, s.tables.published)]
  {
    ReachesItself(s);
    s' := Go(s, s, LoadDraft(0, AllowRetry));
  }

  /** The two reads of `allow_retry_after_negative_reconciliation`. */
  lemma ReadUnknownAttempt(s: System, template: Template, n: nat) returns (s': System)
    requires Inv(s) && |s.workers| == 1 && s.workers[0].Idle? && |s.requests| == n + 1 && s.tables.row.Some?
    requires s.tables.row.value.state == SubmissionUnknown && s.tables.row.value.template == Some(template)
    requires s.tables.attempts[n].status == Unknown
    ensures Reaches(s, s') && Inv(s') && s'.tables == s.tables && s'.requests == s.requests && |s'.workers| == 1
    ensures s'.workers[0].Writing?
    ensures var plan := s'.workers[0].plan;
            && !plan.attemptDone && plan.issue.None? && plan.writeOff && plan.attempt.number == n + 1
            && plan.revision == s.tables.row.value.revision && plan.target == SubmissionRetryable
            && plan.attempt.attemptId == s.tables.attempts[n].attemptId && plan.attempt.status == FailedAttempt
            && plan.attempt.completedAt.Some? && SafeCode(plan.attempt.errorSummary) && SafeCode(plan.note)
  {
    var s1 := LoadForRetry(s);
    LatestIsLast(s1.tables, s1.requests);
    assert AttemptOk(s1.tables, s1.requests, n);
    RetryPlan(s.tables.row.value, s.tables.published, s.tables.attempts[n]);
    s' := Go(s, s1, ReadAttempt(0, 0));
  }

  lemma RetryPlan(row: WorkflowRow, published: Option<Issue>, a: Attempt)
    requires a.status == Unknown
    ensures var worker := AfterAttemptRead(AllowRetry, row, published, Some(a), 0);
            && worker == Writing(Plan(Ended(a, FailedAttempt, 0, RECONCILED_NOT_CREATED), true, false, None, row.revision,
                                      SubmissionRetryable, RECONCILED_NOT_CREATED))
            && SafeCode(RECONCILED_NOT_CREATED)
  {}

  /** `allow_retry_after_negative_reconciliation`, uninterrupted. */
  lemma RecordNotCreated(s: System, template: Template, n: nat) returns (s': System)
    requires Inv(s) && |s.workers| == 1 && s.workers[0].Idle? && |s.requests| == n + 1 && s.tables.row.Some?
    requires s.tables.row.value.state == SubmissionUnknown && s.tables.row.value.template == Some(template)
    requires s.tables.attempts[n].status == Unknown
    ensures Reaches(s, s') && Inv(s') && |s'.workers| == 1 && s'.workers[0].Idle? && s'.tables.row.Some?
    ensures s'.tables.row.value.state == SubmissionRetryable && s'.tables.row.value.template == Some(template)
    ensures s'.requests == s.requests[n := s.requests[n].(writtenOff := true)]
    ensures |s'.tables.attempts| == n + 1 && s'.tables.attempts[..n] == s.tables.attempts[..n]
    ensures s'.tables.attempts[n].attemptId == s.tables.attempts[n].attemptId && s'.tables.attempts[n].status == FailedAttempt
  {
    var s2 := ReadUnknownAttempt(s, template, n);
    assert SafeCode(RECONCILED_NOT_CREATED);
    s' := WriteOutcome(s2, n);
    Join2(s, s2, s');
  }

  /** One more round the other way: a creation in doubt, recorded as not created. */
  lemma WrittenOffRound(s: System, template: Template) returns (s': System)
    requires Ready(s, template, |s.requests|)
    ensures Reaches(s, s') && Ready(s', template, |s.requests| + 1)
    ensures IssuesCreated(s') == IssuesCreated(s) + 1
    ensures Sum(s'.requests, AppliedMalformed) == Sum(s.requests, AppliedMalformed)
    ensures Sum(s'.requests, AppliedWrittenOff) == Sum(s.requests, AppliedWrittenOff) + 1
  {
    var n := |s.requests|;
    var mid := LeftInDoubt(s, template);
    s' := RecordNotCreated(mid, template, n);
    Join2(s, mid, s');
    RoundCounts(s, s');
    assert s'.tables.attempts[..n] == mid.tables.attempts[..n];
    ReadyAgain(s, s', template);
  }

  /** Any numbers of rounds of the two kinds, from a first saved draft. */
  lemma {:induction false} Rounds(template: Template, malformed: nat, writtenOff: nat) returns (s: System)
    ensures Reaches(Init(1), s) && Ready(s, template, malformed + writtenOff)
    ensures IssuesCreated(s) == malformed + writtenOff
    ensures Sum(s.requests, AppliedMalformed) == malformed && Sum(s.requests, AppliedWrittenOff) == writtenOff
  {
    if malformed > 0 {
      var before := Rounds(template, malformed - 1, writtenOff);
      s := MalformedRound(before, template);
      Join2(Init(1), before, s);
    } else if writtenOff > 0 {
      var before := Rounds(template, malformed, writtenOff - 1);
      s := WrittenOffRound(before, template);
      Join2(Init(1), before, s);
    } else {
      var step := OtherSave(Draft("d", 1, 1, None, Review, 1, Some(template), [], [], 0, 0, None, None), None, {});
      ReachesItself(Init(1));
      s := Go(Init(1), Init(1), step);
    }
  }

  /** The bound of CreateOnce is exact: for any numbers of unreadable replies and
      of creations written off there is a run that creates one issue for each of
      them and one more. Already one unreadable reply makes two issues. */
  lemma BoundIsAttained(template: Template, malformed: nat, writtenOff: nat) returns (run: seq<System>, steps: seq<Step>)
    ensures FullRun(run, steps, 1)
    ensures var last := run[|run| - 1];
            && Sum(last.requests, AppliedMalformed) == malformed && Sum(last.requests, AppliedWrittenOff) == writtenOff
            && IssuesCreated(last) == 1 + malformed + writtenOff
  {
    var s := Rounds(template, malformed, writtenOff);
    var last := ClaimSendApply(s, template);
    Join2(Init(1), s, last);
    run, steps :| IsRun(run, steps) && run[0] == Init(1) && run[|run| - 1] == last;
    RoundCounts(s, last);
  }
}
