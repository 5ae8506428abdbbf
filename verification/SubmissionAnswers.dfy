/** What a call of the submission service leaves in the rows, from the first write to
    the last, written out for each answer of the gateway. */
module SubmissionAnswers {
  import opened Fsm
  import opened Wrappers
  import opened WorkflowTables
  import opened SubmissionProtocol

  // ---- The writes, as changes of the rows ------------------------------------------------

  /** The state a dispatch begins with. */
  function Entered(t: Tables, m: Mutation, now: Instant): Tables
    requires t.row.Some?
  {
    t.(row := Some(t.row.value.(state := DispatchState(m), revision := t.row.value.revision + 1, updatedAt := now, lastError := None,
                                expiresAt := None)))
  }

  function NewAttempt(t: Tables, template: Template, attemptId: string, now: Instant): Attempt {
    Attempt(attemptId, CanonicalHash(template), |t.attempts| + 1, now, None, InProgress, None)
  }

  function Begun(t: Tables, m: Mutation, a: Attempt, now: Instant): Tables
    requires t.row.Some?
  {
    Entered(t, m, now).(attempts := t.attempts + [a])
  }

  /** No attempt is in progress, and none has the identifier. */
  predicate Claimable(attempts: seq<Attempt>, attemptId: string) {
    forall i :: 0 <= i < |attempts| ==> attempts[i].status != InProgress && attempts[i].attemptId != attemptId
  }

  lemma PendingBlocks(attempts: seq<Attempt>, attemptId: string)
    ensures HasPending(attempts) ==> !Claimable(attempts, attemptId)
  {}

  predicate CountedUp(attempts: seq<Attempt>) { forall i :: 0 <= i < |attempts| ==> attempts[i].number == i + 1 }

  /** A plan for the last attempt, made at the revision the draft has. */
  predicate Outstanding(t: Tables, plan: Plan) {
    && t.row.Some? && t.attempts != [] && plan.revision == t.row.value.revision
    && (!plan.attemptDone ==>
          var last := t.attempts[|t.attempts| - 1];
          SameIdentity(last, plan.attempt) && StatusMoveAllowed(last.status, plan.attempt.status) && plan.attempt.completedAt.Some?)
  }

  /** Whether its writes succeed. */
  predicate Finishes(t: Tables, plan: Plan, taken: set<string>)
    requires Outstanding(t, plan)
  {
    && (!plan.attemptDone ==> SafeCode(plan.attempt.errorSummary)) && SafeCode(plan.note)
    && TransitionAllowed(t.row.value.state, plan.target) && (plan.issue.Some? ==> plan.issue.value.key !in taken)
  }

  function WithAttempt(t: Tables, plan: Plan): Tables
    requires Outstanding(t, plan)
  {
    if plan.attemptDone then t else t.(attempts := t.attempts[|t.attempts| - 1 := plan.attempt])
  }

  /** The rows when they have. */
  function Finished(t: Tables, plan: Plan, now: Instant): Tables
    requires Outstanding(t, plan)
  {
    WithAttempt(t, plan).(
      row := Some(t.row.value.(state := plan.target, revision := plan.revision + 1, updatedAt := now, lastError := plan.note,
                               expiresAt := if plan.target in EXPIRABLE_STATES then t.row.value.expiresAt else None)),
      published := if plan.issue.Some? then plan.issue else t.published)
  }

  // ---- They are the repository's transactions ----------------------------------------------

  lemma MoveMeans(t: Tables, m: Mutation, now: Instant)
    requires t.row.Some? && TransitionAllowed(t.row.value.state, DispatchState(m))
    ensures CompareAndSwap(t, t.row.value.revision, DispatchState(m), None, now) == Ok(Entered(t, m, now))
  {}

  lemma ClaimMeans(t: Tables, m: Mutation, a: Attempt, now: Instant)
    requires t.row.Some? && CountedUp(t.attempts) && a.number == |t.attempts| + 1 && a.status == InProgress && a.completedAt.None?
    ensures ClaimAttempt(Entered(t, m, now), a)
            == if Claimable(t.attempts, a.attemptId) then Ok((true, Begun(t, m, a, now)))
               else if HasPending(t.attempts) then Ok((false, Entered(t, m, now)))
               else Err(Integrity)
  {
    assert Insertable(t.attempts, a) <==> Claimable(t.attempts, a.attemptId);
  }

  /** The attempt's write. */
  lemma AttemptMeans(t: Tables, plan: Plan)
    requires Outstanding(t, plan) && !plan.attemptDone
    ensures var r := UpdateAttempt(t, plan.attempt);
            (r.Ok? <==> SafeCode(plan.attempt.errorSummary)) && (r.Ok? ==> r.value == WithAttempt(t, plan))
  {}

  /** The issue's, and the state's. */
  lemma StateMeans(t: Tables, plan: Plan, now: Instant, taken: set<string>)
    requires t.row.Some? && plan.attemptDone && plan.issue.None? && plan.revision == t.row.value.revision && t.attempts != []
    ensures var r := CompareAndSwap(t, plan.revision, plan.target, plan.note, now);
            (r.Ok? <==> Finishes(t, plan, taken)) && (r.Ok? ==> r.value == Finished(t, plan, now))
  {}

  /** Done with the attempt, the rest goes on from the rows it left. */
  lemma AttemptThenRest(t: Tables, plan: Plan, now: Instant, taken: set<string>)
    requires Outstanding(t, plan) && !plan.attemptDone
    ensures var t', rest := WithAttempt(t, plan), plan.(attemptDone := true);
            && Outstanding(t', rest) && Finished(t', rest, now) == Finished(t, plan, now)
            && (Finishes(t, plan, taken) <==> SafeCode(plan.attempt.errorSummary) && Finishes(t', rest, taken))
  {}

  /** Done with the issue, too. */
  lemma IssueThenState(t: Tables, plan: Plan, now: Instant, taken: set<string>)
    requires Outstanding(t, plan) && plan.attemptDone && plan.issue.Some?
    ensures var t', rest := t.(published := plan.issue), plan.(issue := None);
            && Outstanding(t', rest) && Finished(t', rest, now) == Finished(t, plan, now)
            && (Finishes(t, plan, taken) <==> plan.issue.value.key !in taken && Finishes(t', rest, taken))
  {}

  // ---- The rows an answer leaves -------------------------------------------------------

  /** Two revisions on, in the given state with the given note, and one attempt more,
      which has ended. */
  function Settled(t: Tables, template: Template, attemptId: string, now: Instant, state: DraftState, note: Option<string>,
                   status: AttemptStatus, summary: Option<string>): Tables
    requires t.row.Some?
  {
    t.(row := Some(t.row.value.(state := state, revision := t.row.value.revision + 2, updatedAt := now, lastError := note, expiresAt := None)),
       attempts := t.attempts + [Attempt(attemptId, CanonicalHash(template), |t.attempts| + 1, now, Some(now), status, summary)])
  }

  /** One revision on, in the given state with the given note, the last attempt ended. */
  function Resolved(t: Tables, now: Instant, state: DraftState, note: Option<string>, expiresAt: Option<Instant>,
                    status: AttemptStatus, summary: Option<string>): Tables
    requires t.row.Some? && t.attempts != []
  {
    var n := |t.attempts| - 1;
    t.(row := Some(t.row.value.(state := state, revision := t.row.value.revision + 1, updatedAt := now, lastError := note, expiresAt := expiresAt)),
       attempts := t.attempts[n := t.attempts[n].(status := status, completedAt := Some(now), errorSummary := summary)])
  }

  /** The answers to a creation. */
  lemma CreationAnswered(t: Tables, template: Template, attemptId: string, outcome: Outcome, code: Option<string>, now: Instant, taken: set<string>)
    requires t.row.Some?
    ensures var a := NewAttempt(t, template, attemptId, now);
            var begun, plan := Begun(t, CreateIssue, a, now), ReplyPlan(CreateIssue, t.row.value.revision + 1, a, outcome, now, code);
            && Outstanding(begun, plan)
            && (Finishes(begun, plan, taken) <==>
                  (outcome.Accepted? ==> outcome.issue.key !in taken) && (outcome.Malformed? || outcome.Rejected? ==> SafeCode(code)))
            && Finished(begun, plan, now) == match outcome
                 case Accepted(issue) => Settled(t, template, attemptId, now, Created, None, Succeeded, None).(published := Some(issue))
                 case InDoubt => Settled(t, template, attemptId, now, SubmissionUnknown, Some("outcome_unknown"), Unknown, Some("outcome_unknown"))
                 case _ => Settled(t, template, attemptId, now, SubmissionRetryable, code, FailedAttempt, code)
  {
    SameAttempts(t, CreateIssue, template, attemptId, outcome, code, now);
    NotesAreSafe();
  }

  lemma UpdateAnswered(t: Tables, template: Template, attemptId: string, outcome: Outcome, code: Option<string>, now: Instant, taken: set<string>)
    requires t.row.Some?
    ensures var a := NewAttempt(t, template, attemptId, now);
            var begun, plan := Begun(t, UpdateIssue, a, now), ReplyPlan(UpdateIssue, t.row.value.revision + 1, a, outcome, now, code);
            && Outstanding(begun, plan)
            && (Finishes(begun, plan, taken) <==> (outcome.Malformed? || outcome.Rejected? ==> SafeCode(code)))
            && Finished(begun, plan, now) == match outcome
                 case Accepted(_) => Settled(t, template, attemptId, now, Complete, None, Succeeded, None)
                 case InDoubt => Settled(t, template, attemptId, now, UpdateUnknown, Some("outcome_unknown"), Unknown, Some("outcome_unknown"))
                 case _ => Settled(t, template, attemptId, now, UpdateRetryable, code, FailedAttempt, code)
  {
    SameAttempts(t, UpdateIssue, template, attemptId, outcome, code, now);
    NotesAreSafe();
  }

  lemma SameAttempts(t: Tables, m: Mutation, template: Template, attemptId: string, outcome: Outcome, code: Option<string>, now: Instant)
    requires t.row.Some?
    ensures var a := NewAttempt(t, template, attemptId, now);
            var plan := ReplyPlan(m, t.row.value.revision + 1, a, outcome, now, code);
            (t.attempts + [a])[|t.attempts| := plan.attempt] == t.attempts + [plan.attempt]
  {}

  /** The writes that resolve the last attempt. */
  lemma ResolutionMeans(t: Tables, status: AttemptStatus, summary: Option<string>, writeOff: bool, issue: Option<Issue>, target: DraftState,
                        now: Instant, taken: set<string>)
    requires t.row.Some? && t.attempts != [] && StatusMoveAllowed(t.attempts[|t.attempts| - 1].status, status)
    requires TransitionAllowed(t.row.value.state, target) && SafeCode(summary)
    ensures var plan := Plan(Ended(t.attempts[|t.attempts| - 1], status, now, summary), writeOff, false, issue, t.row.value.revision, target, summary);
            && Outstanding(t, plan)
            && (Finishes(t, plan, taken) <==> (issue.Some? ==> issue.value.key !in taken))
            && Finished(t, plan, now) == Resolved(t, now, target, summary, if target in EXPIRABLE_STATES then t.row.value.expiresAt else None,
                                                  status, summary).(published := if issue.Some? then issue else t.published)
  {}

  /** Nothing is left but the state. */
  lemma OnlyTheState(t: Tables, now: Instant, taken: set<string>)
    requires t.row.Some? && t.attempts != [] && t.row.value.state == Submitting
    ensures var plan := Plan(t.attempts[|t.attempts| - 1], false, true, None, t.row.value.revision, Created, None);
            && Outstanding(t, plan) && Finishes(t, plan, taken)
            && Finished(t, plan, now) == t.(row := Some(t.row.value.(state := Created, revision := t.row.value.revision + 1, updatedAt := now,
                                                                     lastError := None, expiresAt := None)))
  {}

  lemma NotesAreSafe()
    ensures SafeCode(Some("outcome_unknown")) && SafeCode(Some("reconciled_not_created"))
  {}
}