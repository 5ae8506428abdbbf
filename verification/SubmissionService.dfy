/** `SubmissionService` over the repository, one method call without interruption.
    Every write is accompanied by the protocol step it is, so that a call is shown
    to be a run of the protocol of one worker, and all that holds over every run
    of the protocol holds of the code. `requests` is what the outside has seen of
    this draft so far. */
module SubmissionService {
  import opened Fsm
  import opened Wrappers
  import opened WorkflowTables
  import opened WorkflowRepository
  import opened SubmissionProtocol
  import opened SubmissionTheorems
  import opened SubmissionAnswers

  datatype ServiceError = Missing | WrongState | RevisionMismatch | AttemptLost | NotStored(failure: Failure)

  class Service {
    const repository: Repository

    constructor (repository: Repository)
      ensures this.repository == repository
    {
      this.repository := repository;
    }

    /** The protocol's view of a draft with nobody at work on it. */
    ghost function Quiet(draftId: string, requests: seq<Request>): System
      reads repository
    {
      System(repository.Rows(draftId), requests, [Idle])
    }

    /** After the call the draft is as the protocol left it, and no other has changed. */
    twostate predicate RunsTo(draftId: string, start: System, end: System)
      reads repository
    {
      && Reaches(start, end) && Inv(end) && end.tables == repository.Rows(draftId) && end.workers == [Idle]
      && (repository.drafts == old(repository.drafts)
          || (draftId in repository.drafts && repository.drafts == old(repository.drafts)[draftId := repository.drafts[draftId]]))
    }

    /** A write succeeded exactly if it should, with these rows. */
    predicate Wrote(draftId: string, succeeds: bool, t: Tables, problem: Option<ServiceError>)
      reads repository
    {
      (problem.None? <==> succeeds) && (succeeds ==> repository.Rows(draftId) == t)
    }

    /** A call succeeds exactly if it should, with these rows, and returns the draft as
        stored. */
    predicate Leaves(draftId: string, succeeds: bool, t: Tables, r: Fallible<Draft, ServiceError>)
      reads repository
    {
      && (r.Ok? <==> succeeds)
      && (r.Ok? ==> repository.Rows(draftId) == t && Load(t, draftId) == Some(r.value))
    }

    /** The keys of the others are the same whatever becomes of this draft. */
    lemma SameOthers(before: map<string, Tables>, after: map<string, Tables>, draftId: string)
      requires draftId in after && after == before[draftId := after[draftId]]
      ensures TakenKeys(after, draftId) == TakenKeys(before, draftId)
    {
      forall d | d in before && d != draftId ensures d in after && after[d] == before[d] {}
    }

    /** The writes after an outcome is known: the attempt, the issue if there is one,
        and the state, in this order. */
    method RecordOutcome(draftId: string, plan: Plan, now: Instant, ghost start: System, ghost s: System)
      returns (r: Fallible<Draft, ServiceError>, ghost end: System)
      requires repository.Valid() && draftId in repository.drafts
      requires Reaches(start, s) && Inv(s) && s.tables == repository.Rows(draftId) && s.workers == [Writing(plan)]
      requires Outstanding(repository.Rows(draftId), plan)
      modifies repository
      ensures repository.Valid() && RunsTo(draftId, start, end)
      ensures Leaves(draftId, Finishes(old(repository.Rows(draftId)), plan, old(repository.KeysOfOthers(draftId))),
                     Finished(old(repository.Rows(draftId)), plan, now), r)
      ensures r.Err? ==> r.failure.NotStored?
    {
      if plan.attemptDone {
        r, end := RecordRest(draftId, plan, now, start, s);
      } else {
        var problem;
        AttemptThenRest(s.tables, plan, now, repository.KeysOfOthers(draftId));
        problem, end := RecordAttempt(draftId, plan, start, s);
        SameOthers(old(repository.drafts), repository.drafts, draftId);
        if problem.Some? { return Err(problem.value), end; }
        r, end := RecordRest(draftId, plan.(attemptDone := true), now, start, end);
      }
    }

    method RecordRest(draftId: string, plan: Plan, now: Instant, ghost start: System, ghost s: System)
      returns (r: Fallible<Draft, ServiceError>, ghost end: System)
      requires repository.Valid() && draftId in repository.drafts && plan.attemptDone
      requires Reaches(start, s) && Inv(s) && s.tables == repository.Rows(draftId) && s.workers == [Writing(plan)]
      requires Outstanding(repository.Rows(draftId), plan)
      modifies repository
      ensures repository.Valid() && RunsTo(draftId, start, end)
      ensures Leaves(draftId, Finishes(old(repository.Rows(draftId)), plan, old(repository.KeysOfOthers(draftId))),
                     Finished(old(repository.Rows(draftId)), plan, now), r)
      ensures r.Err? ==> r.failure.NotStored?
    {
      if plan.issue.None? {
        r, end := MoveOn(draftId, plan, now, start, s);
      } else {
        var problem;
        IssueThenState(s.tables, plan, now, repository.KeysOfOthers(draftId));
        problem, end := RecordIssue(draftId, plan, start, s);
        SameOthers(old(repository.drafts), repository.drafts, draftId);
        if problem.Some? { return Err(problem.value), end; }
        r, end := MoveOn(draftId, plan.(issue := None), now, start, end);
      }
    }

    /** Where the worker is after one of the writes. */
    twostate predicate WrittenTo(draftId: string, start: System, s: System, plan: Plan, new problem: Option<ServiceError>)
      reads repository
    {
      && Reaches(start, s) && Inv(s) && s.tables == repository.Rows(draftId) && draftId in repository.drafts
      && repository.drafts == old(repository.drafts)[draftId := repository.drafts[draftId]]
      && s.workers == [if problem.Some? then Idle else Writing(plan)]
      && (problem.Some? ==> problem.value.NotStored?)
    }

    method RecordAttempt(draftId: string, plan: Plan, ghost start: System, ghost s: System)
      returns (problem: Option<ServiceError>, ghost s': System)
      requires repository.Valid() && draftId in repository.drafts && !plan.attemptDone
      requires Reaches(start, s) && Inv(s) && s.tables == repository.Rows(draftId) && s.workers == [Writing(plan)]
      requires Outstanding(repository.Rows(draftId), plan)
      modifies repository
      ensures repository.Valid() && WrittenTo(draftId, start, s', plan.(attemptDone := true), problem)
      ensures Wrote(draftId, SafeCode(plan.attempt.errorSummary), WithAttempt(old(repository.Rows(draftId)), plan), problem)
    {
      AttemptMeans(s.tables, plan);
      assert WorkerOk(s.tables, s.requests, s.workers[0]);
      s' := Go(start, s, WriteAttempt(0));
      var updated := repository.UpdateAttempt(draftId, plan.attempt);
      problem := if updated.Err? then Some(NotStored(updated.failure)) else None;
      assert repository.drafts == old(repository.drafts)[draftId := repository.drafts[draftId]];
    }

    method RecordIssue(draftId: string, plan: Plan, ghost start: System, ghost s: System)
      returns (problem: Option<ServiceError>, ghost s': System)
      requires repository.Valid() && draftId in repository.drafts && plan.attemptDone && plan.issue.Some?
      requires Reaches(start, s) && Inv(s) && s.tables == repository.Rows(draftId) && s.workers == [Writing(plan)]
      modifies repository
      ensures repository.Valid() && WrittenTo(draftId, start, s', plan.(issue := None), problem)
      ensures Wrote(draftId, plan.issue.value.key !in old(repository.KeysOfOthers(draftId)),
                    old(repository.Rows(draftId)).(published := plan.issue), problem)
    {
      s' := Go(start, s, WriteIssue(0, repository.KeysOfOthers(draftId)));
      var stored := repository.StorePublishedIssue(draftId, plan.issue.value);
      problem := if stored.Err? then Some(NotStored(stored.failure)) else None;
      assert repository.drafts == old(repository.drafts)[draftId := repository.drafts[draftId]];
    }

    method MoveOn(draftId: string, plan: Plan, now: Instant, ghost start: System, ghost s: System)
      returns (r: Fallible<Draft, ServiceError>, ghost end: System)
      requires repository.Valid() && draftId in repository.drafts && plan.attemptDone && plan.issue.None?
      requires Reaches(start, s) && Inv(s) && s.tables == repository.Rows(draftId) && s.workers == [Writing(plan)]
      requires Outstanding(repository.Rows(draftId), plan)
      modifies repository
      ensures repository.Valid() && RunsTo(draftId, start, end)
      ensures Leaves(draftId, Finishes(old(repository.Rows(draftId)), plan, old(repository.KeysOfOthers(draftId))),
                     Finished(old(repository.Rows(draftId)), plan, now), r)
      ensures r.Err? ==> r.failure.NotStored?
    {
      StateMeans(s.tables, plan, now, repository.KeysOfOthers(draftId));
      end := Go(start, s, WriteState(0, now));
      var moved := repository.CompareAndSwapState(draftId, plan.revision, plan.target, plan.note, now);
      r := if moved.Ok? then Ok(moved.value) else Err(NotStored(moved.failure));
    }

    // ---- Dispatching -------------------------------------------------------------------

    /** `submit` from the state change to the claim, and the same part of
        `confirm_published_update`. */
    method BeginAndClaim(draftId: string, draft: Draft, op: Operation, attemptId: string, now: Instant, ghost start: System)
      returns (r: Fallible<Attempt, ServiceError>, ghost end: System)
      requires repository.Valid() && draftId in repository.drafts && op in {Submit, ConfirmUpdate}
      requires Inv(start) && start.tables == repository.Rows(draftId) && start.workers == [Idle]
      requires Load(start.tables, draftId) == Some(draft) && Admits(op, start.tables.row.value, start.tables.published)
      modifies repository
      ensures repository.Valid() && draftId in repository.drafts && Reaches(start, end) && Inv(end)
      ensures end.tables == repository.Rows(draftId)
      ensures repository.drafts == old(repository.drafts)[draftId := repository.drafts[draftId]]
      ensures end.workers == [if r.Ok? then Claimed(MutationOf(op), draft.revision + 1, r.value) else Idle]
      ensures r.Ok? ==> NotSentYet(end, r.value, MutationOf(op), draft.revision + 1)
      ensures r.Err? ==> r.failure.NotStored? || r.failure.AttemptLost?
      ensures var t := old(repository.Rows(draftId));
              && t.row.Some? && draft.template.Some?
              && (r.Ok? <==> Claimable(t.attempts, attemptId)) && (r == Err(AttemptLost) <==> HasPending(t.attempts))
              && (r.Ok? ==> r.value == NewAttempt(t, draft.template.value, attemptId, now)
                            && repository.Rows(draftId) == Begun(t, MutationOf(op), r.value, now))
    {
      end := ChangeState(draftId, draft, op, now, start);
      var attempt;
      attempt, end := NumberAttempt(draftId, draft, op, attemptId, now, start, end);
      LedgerCountsUp(start);
      ClaimMeans(start.tables, MutationOf(op), attempt, now);
      r, end := Claim(draftId, draft, op, attempt, start, end);
    }

    method ChangeState(draftId: string, draft: Draft, op: Operation, now: Instant, ghost start: System)
      returns (ghost end: System)
      requires repository.Valid() && draftId in repository.drafts && op in {Submit, ConfirmUpdate}
      requires Inv(start) && start.tables == repository.Rows(draftId) && start.workers == [Idle]
      requires Load(start.tables, draftId) == Some(draft) && Admits(op, start.tables.row.value, start.tables.published)
      modifies repository
      ensures repository.Valid() && draftId in repository.drafts && Reaches(start, end) && Inv(end)
      ensures end.tables == repository.Rows(draftId) && draft.template.Some?
      ensures repository.drafts == old(repository.drafts)[draftId := repository.drafts[draftId]]
      ensures end.workers == [Dispatching(MutationOf(op), draft.revision + 1, draft.template.value)]
      ensures old(repository.Rows(draftId)).row.Some? && repository.Rows(draftId) == Entered(old(repository.Rows(draftId)), MutationOf(op), now)
    {
      MoveMeans(start.tables, MutationOf(op), now);
      end := BeginRun(start, draft, draftId, op, now);
      var begun := repository.CompareAndSwapState(draftId, draft.revision, DispatchState(MutationOf(op)), None, now);
      assert repository.drafts == old(repository.drafts)[draftId := repository.drafts[draftId]];
    }

    /** The first two protocol steps of a dispatch; from an admitted state the swap
        cannot fail. */
    lemma BeginRun(start: System, draft: Draft, draftId: string, op: Operation, now: Instant) returns (end: System)
      requires Inv(start) && start.workers == [Idle] && op in {Submit, ConfirmUpdate} && start.tables.row.Some?
      requires Load(start.tables, draftId) == Some(draft) && Admits(op, start.tables.row.value, start.tables.published)
      ensures Reaches(start, end) && Inv(end) && draft.template.Some?
      ensures var swapped := CompareAndSwap(start.tables, draft.revision, DispatchState(MutationOf(op)), None, now);
              swapped.Ok? && end.tables == swapped.value
      ensures end.workers == [Dispatching(MutationOf(op), draft.revision + 1, draft.template.value)]
    {
      ReachesItself(start);
      end := Go(start, start, LoadDraft(0, op));
      end := Go(start, end, BeginDispatch(0, now));
    }

    /** `_new_attempt`. */
    method NumberAttempt(draftId: string, draft: Draft, op: Operation, attemptId: string, now: Instant, ghost start: System, ghost s: System)
      returns (attempt: Attempt, ghost end: System)
      requires Reaches(start, s) && Inv(s) && draft.template.Some?
      requires s.tables == repository.Rows(draftId) && s.workers == [Dispatching(MutationOf(op), draft.revision + 1, draft.template.value)]
      ensures Reaches(start, end) && Inv(end) && end.tables == s.tables
      ensures end.workers == [Numbered(MutationOf(op), draft.revision + 1, draft.template.value, attempt)]
      ensures attempt == NewAttempt(repository.Rows(draftId), draft.template.value, attemptId, now)
    {
      LatestCounts(s);
      end := Go(start, s, SubmissionProtocol.NumberAttempt(0, attemptId, now));
      var previous := repository.GetLatestAttempt(draftId);
      var number := if previous.None? then 1 else previous.value.number + 1;
      attempt := Attempt(attemptId, CanonicalHash(draft.template.value), number, now, None, InProgress, None);
    }

    method Claim(draftId: string, draft: Draft, op: Operation, attempt: Attempt, ghost start: System, ghost s: System)
      returns (r: Fallible<Attempt, ServiceError>, ghost end: System)
      requires repository.Valid() && draftId in repository.drafts && Reaches(start, s) && Inv(s) && draft.template.Some?
      requires s.tables == repository.Rows(draftId)
      requires s.workers == [Numbered(MutationOf(op), draft.revision + 1, draft.template.value, attempt)]
      modifies repository
      ensures repository.Valid() && draftId in repository.drafts && Reaches(start, end) && Inv(end)
      ensures end.tables == repository.Rows(draftId)
      ensures repository.drafts == old(repository.drafts)[draftId := repository.drafts[draftId]]
      ensures end.workers == [if r.Ok? then Claimed(MutationOf(op), draft.revision + 1, r.value) else Idle]
      ensures r.Ok? ==> NotSentYet(end, r.value, MutationOf(op), draft.revision + 1)
      ensures r.Err? ==> r.failure.NotStored? || r.failure.AttemptLost?
      ensures var spec := WorkflowTables.ClaimAttempt(old(repository.Rows(draftId)), attempt);
              && (r.Ok? <==> spec.Ok? && spec.value.0)
              && (r == Err(AttemptLost) <==> spec.Ok? && !spec.value.0)
              && (r.Ok? ==> r.value == attempt && repository.Rows(draftId) == spec.value.1)
    {
      end := ClaimRun(start, s, MutationOf(op), draft.revision + 1, draft.template.value, attempt);
      var won := repository.ClaimAttempt(draftId, attempt);
      assert repository.drafts == old(repository.drafts)[draftId := repository.drafts[draftId]];
      r := if won.Err? then Err(NotStored(won.failure)) else if won.value then Ok(attempt) else Err(AttemptLost);
    }

    /** The protocol's claim. */
    lemma ClaimRun(start: System, s: System, m: Mutation, revision: int, template: Template, attempt: Attempt) returns (end: System)
      requires Reaches(start, s) && Inv(s) && s.workers == [Numbered(m, revision, template, attempt)]
      ensures Reaches(start, end) && Inv(end)
      ensures var spec := WorkflowTables.ClaimAttempt(s.tables, attempt);
              var won := spec.Ok? && spec.value.0;
              && end.tables == (if won then spec.value.1 else s.tables)
              && end.workers == [if won then Claimed(m, revision, attempt) else Idle]
              && (won ==> NotSentYet(end, attempt, m, revision))
    {
      end := Go(start, s, SubmissionProtocol.Claim(0));
      if end.workers[0].Claimed? { assert AttemptOk(end.tables, end.requests, |s.requests|); }
    }

    /** The request goes out, Jira does with it what it does, and an outcome comes back. */
    method Exchange(draftId: string, m: Mutation, revision: int, attempt: Attempt, outcome: Outcome, applied: bool, code: Option<string>,
                    now: Instant, ghost start: System, ghost s: System)
      returns (plan: Plan, ghost end: System)
      requires Reaches(start, s) && Inv(s) && s.workers == [Claimed(m, revision, attempt)] && NotSentYet(s, attempt, m, revision)
      requires (outcome.Accepted? ==> applied) && (outcome.Rejected? ==> !applied)
      ensures Reaches(start, end) && Inv(end) && end.tables == s.tables && end.workers == [Writing(plan)]
      ensures plan == ReplyPlan(m, revision, attempt, outcome, now, code)
    {
      plan := ReplyPlan(m, revision, attempt, outcome, now, code);
      end := Go(start, s, Send(0));
      if applied {
        end := Go(start, end, ApplyRequest(attempt.number - 1));
      }
      end := Go(start, end, Reply(0, outcome, now, code));
    }

    // ---- The service's methods ----------------------------------------------------------

    /** `submit`: `outcome` is what the gateway makes of the creation, `applied`
        whether Jira carried it out. */
    method SubmitDraft(draftId: string, expectedRevision: Option<int>, attemptId: string, outcome: Outcome, applied: bool,
                       code: Option<string>, now: Instant, ghost requests: seq<Request>)
      returns (r: Fallible<Draft, ServiceError>, ghost end: System)
      requires repository.Valid() && Inv(Quiet(draftId, requests))
      requires (outcome.Accepted? ==> applied) && (outcome.Rejected? ==> !applied)
      modifies repository
      ensures repository.Valid() && RunsTo(draftId, old(Quiet(draftId, requests)), end)
      ensures var t := old(repository.Rows(draftId));
              && (r == Err(Missing) <==> t.row.None?)
              && (r == Err(RevisionMismatch) <==> t.row.Some? && expectedRevision.Some? && t.row.value.revision != expectedRevision.value)
              && (r == Err(WrongState) <==> t.row.Some? && (expectedRevision.None? || t.row.value.revision == expectedRevision.value)
                                            && (t.row.value.state !in {Review, SubmissionRetryable} || t.row.value.template.None?))
      ensures r.Ok? <==>
                var t := old(repository.Rows(draftId));
                && t.row.Some? && (expectedRevision.Some? ==> t.row.value.revision == expectedRevision.value)
                && t.row.value.state in {Review, SubmissionRetryable} && t.row.value.template.Some? && Claimable(t.attempts, attemptId)
                && (outcome.Accepted? ==> outcome.issue.key !in old(repository.KeysOfOthers(draftId)))
                && (outcome.Malformed? || outcome.Rejected? ==> SafeCode(code))
      ensures r.Ok? ==>
                var t := old(repository.Rows(draftId));
                var template := t.row.value.template.value;
                && Load(repository.Rows(draftId), draftId) == Some(r.value)
                && repository.Rows(draftId) == match outcome
                     case Accepted(issue) => Settled(t, template, attemptId, now, Created, None, Succeeded, None).(published := Some(issue))
                     case InDoubt => Settled(t, template, attemptId, now, SubmissionUnknown, Some("outcome_unknown"), Unknown, Some("outcome_unknown"))
                     case _ => Settled(t, template, attemptId, now, SubmissionRetryable, code, FailedAttempt, code)
      ensures r.Err? && !r.failure.NotStored? && !r.failure.AttemptLost? ==> repository.drafts == old(repository.drafts)
    {
      ghost var start := Quiet(draftId, requests);
      end := start;
      ReachesItself(start);
      var draft := repository.GetById(draftId);
      if draft.None? { return Err(Missing), end; }
      if expectedRevision.Some? && draft.value.revision != expectedRevision.value { return Err(RevisionMismatch), end; }
      if draft.value.state !in {Review, SubmissionRetryable} || draft.value.template.None? { return Err(WrongState), end; }
      CreationAnswered(start.tables, draft.value.template.value, attemptId, outcome, code, now, repository.KeysOfOthers(draftId));
      ghost var a := NewAttempt(start.tables, draft.value.template.value, attemptId, now);
      ghost var plan := ReplyPlan(CreateIssue, draft.value.revision + 1, a, outcome, now, code);
      r, end := Dispatch(draftId, draft.value, Submit, attemptId, outcome, applied, code, now, start, Begun(start.tables, CreateIssue, a, now), plan);
    }

    /** `confirm_published_update`. */
    method ConfirmPublishedUpdate(draftId: string, expectedRevision: int, attemptId: string, outcome: Outcome, applied: bool,
                                  code: Option<string>, now: Instant, ghost requests: seq<Request>)
      returns (r: Fallible<Draft, ServiceError>, ghost end: System)
      requires repository.Valid() && Inv(Quiet(draftId, requests))
      requires (outcome.Accepted? ==> applied) && (outcome.Rejected? ==> !applied)
      modifies repository
      ensures repository.Valid() && RunsTo(draftId, old(Quiet(draftId, requests)), end)
      ensures r.Ok? <==>
                var t := old(repository.Rows(draftId));
                && t.row.Some? && t.row.value.revision == expectedRevision && t.row.value.state == UpdateReview
                && t.row.value.template.Some? && t.published.Some? && Claimable(t.attempts, attemptId)
                && (outcome.Malformed? || outcome.Rejected? ==> SafeCode(code))
      ensures r.Ok? ==>
                var t := old(repository.Rows(draftId));
                var template := t.row.value.template.value;
                && Load(repository.Rows(draftId), draftId) == Some(r.value)
                && repository.Rows(draftId) == match outcome
                     case Accepted(_) => Settled(t, template, attemptId, now, Complete, None, Succeeded, None)
                     case InDoubt => Settled(t, template, attemptId, now, UpdateUnknown, Some("outcome_unknown"), Unknown, Some("outcome_unknown"))
                     case _ => Settled(t, template, attemptId, now, UpdateRetryable, code, FailedAttempt, code)
      ensures r.Err? && !r.failure.NotStored? && !r.failure.AttemptLost? ==> repository.drafts == old(repository.drafts)
    {
      ghost var start := Quiet(draftId, requests);
      end := start;
      ReachesItself(start);
      var draft := repository.GetById(draftId);
      if draft.None? { return Err(Missing), end; }
      if draft.value.revision != expectedRevision { return Err(RevisionMismatch), end; }
      if draft.value.state != UpdateReview || draft.value.template.None? || draft.value.published.None? { return Err(WrongState), end; }
      UpdateAnswered(start.tables, draft.value.template.value, attemptId, outcome, code, now, repository.KeysOfOthers(draftId));
      ghost var a := NewAttempt(start.tables, draft.value.template.value, attemptId, now);
      ghost var plan := ReplyPlan(UpdateIssue, draft.value.revision + 1, a, outcome, now, code);
      r, end := Dispatch(draftId, draft.value, ConfirmUpdate, attemptId, outcome, applied, code, now, start, Begun(start.tables, UpdateIssue, a, now), plan);
    }

    /** `begun` and `plan` are the rows with the claim and what the answer makes of it. */
    method Dispatch(draftId: string, draft: Draft, op: Operation, attemptId: string, outcome: Outcome, applied: bool,
                    code: Option<string>, now: Instant, ghost start: System, ghost begun: Tables, ghost plan: Plan)
      returns (r: Fallible<Draft, ServiceError>, ghost end: System)
      requires repository.Valid() && draftId in repository.drafts && op in {Submit, ConfirmUpdate}
      requires Inv(start) && start.tables == repository.Rows(draftId) && start.workers == [Idle]
      requires Load(start.tables, draftId) == Some(draft) && Admits(op, start.tables.row.value, start.tables.published)
      requires (outcome.Accepted? ==> applied) && (outcome.Rejected? ==> !applied)
      requires start.tables.row.Some? && draft.template.Some?
      requires var a := NewAttempt(start.tables, draft.template.value, attemptId, now);
               && begun == Begun(start.tables, MutationOf(op), a, now)
               && plan == ReplyPlan(MutationOf(op), draft.revision + 1, a, outcome, now, code)
      requires Outstanding(begun, plan)
      modifies repository
      ensures repository.Valid() && RunsTo(draftId, start, end)
      ensures r == Err(AttemptLost) <==> HasPending(start.tables.attempts)
      ensures Leaves(draftId, Claimable(start.tables.attempts, attemptId) && Finishes(begun, plan, old(repository.KeysOfOthers(draftId))),
                     Finished(begun, plan, now), r)
      ensures r.Err? ==> r.failure.NotStored? || r.failure.AttemptLost?
    {
      var claimed;
      claimed, end := BeginAndClaim(draftId, draft, op, attemptId, now, start);
      SameOthers(old(repository.drafts), repository.drafts, draftId);
      if claimed.Err? { return Err(claimed.failure), end; }
      PendingBlocks(start.tables.attempts, attemptId);
      r, end := AnswerClaim(draftId, MutationOf(op), draft.revision + 1, claimed.value, outcome, applied, code, now, start, end, plan);
    }

    /** From the claim on. */
    method AnswerClaim(draftId: string, m: Mutation, revision: int, attempt: Attempt, outcome: Outcome, applied: bool, code: Option<string>,
                       now: Instant, ghost start: System, ghost s: System, ghost answer: Plan)
      returns (r: Fallible<Draft, ServiceError>, ghost end: System)
      requires repository.Valid() && draftId in repository.drafts
      requires Reaches(start, s) && Inv(s) && s.tables == repository.Rows(draftId)
      requires s.workers == [Claimed(m, revision, attempt)] && NotSentYet(s, attempt, m, revision)
      requires (outcome.Accepted? ==> applied) && (outcome.Rejected? ==> !applied)
      requires answer == ReplyPlan(m, revision, attempt, outcome, now, code) && Outstanding(s.tables, answer)
      modifies repository
      ensures repository.Valid() && RunsTo(draftId, start, end)
      ensures Leaves(draftId, Finishes(s.tables, answer, old(repository.KeysOfOthers(draftId))), Finished(s.tables, answer, now), r)
      ensures r.Err? ==> r.failure.NotStored?
    {
      var plan;
      plan, end := Exchange(draftId, m, revision, attempt, outcome, applied, code, now, start, s);
      r, end := RecordOutcome(draftId, plan, now, start, end);
    }

    /** `recover_stalled`: no request goes out. */
    method RecoverStalled(draftId: string, now: Instant, ghost requests: seq<Request>)
      returns (r: Fallible<Draft, ServiceError>, ghost end: System)
      requires repository.Valid() && Inv(Quiet(draftId, requests))
      modifies repository
      ensures repository.Valid() && RunsTo(draftId, old(Quiet(draftId, requests)), end)
      ensures r.Ok? <==>
                var t := old(repository.Rows(draftId));
                && t.row.Some? && t.row.value.state == Submitting && t.attempts != []
                && (t.published.Some? || t.attempts[|t.attempts| - 1].status == InProgress)
      ensures r.Ok? ==>
                var t := old(repository.Rows(draftId));
                && Load(repository.Rows(draftId), draftId) == Some(r.value)
                && repository.Rows(draftId)
                   == if t.published.Some?
                      then t.(row := Some(t.row.value.(state := Created, revision := t.row.value.revision + 1, updatedAt := now,
                                                       lastError := None, expiresAt := None)))
                      else Resolved(t, now, SubmissionUnknown, Some("outcome_unknown"), None, Unknown, Some("outcome_unknown"))
    {
      ghost var start := Quiet(draftId, requests);
      end := start;
      ReachesItself(start);
      var draft := repository.GetById(draftId);
      if draft.None? { return Err(Missing), end; }
      var latest := repository.GetLatestAttempt(draftId);
      LatestInQuiet(start);
      if draft.value.state != Submitting || latest.None? { return Err(WrongState), end; }
      if draft.value.published.Some? {
        r, end := RecoverStored(draftId, latest.value, draft.value.revision, now, start);
      } else if latest.value.status == InProgress {
        r, end := GiveUpWaiting(draftId, latest.value, draft.value.revision, now, start);
      } else {
        return Err(WrongState), end;
      }
    }

    /** The issue is on record: only the state is missing. */
    method RecoverStored(draftId: string, attempt: Attempt, revision: int, now: Instant, ghost start: System)
      returns (r: Fallible<Draft, ServiceError>, ghost end: System)
      requires AtWork(draftId, attempt, revision, start) && start.tables.row.value.state == Submitting && start.tables.published.Some?
      modifies repository
      ensures repository.Valid() && RunsTo(draftId, start, end)
      ensures Leaves(draftId, true, start.tables.(row := Some(start.tables.row.value.(
                       state := Created, revision := revision + 1, updatedAt := now, lastError := None, expiresAt := None))), r)
    {
      StoredSucceeded(start);
      OnlyTheState(start.tables, now, repository.KeysOfOthers(draftId));
      var success := if attempt.status == Succeeded then attempt else Ended(attempt, Succeeded, now, None);
      var plan := Plan(success, false, attempt.status == Succeeded, None, revision, Created, None);
      r, end := Resolve(draftId, Recover, None, plan, now, start);
    }

    /** Nothing is known of the attempt. */
    method GiveUpWaiting(draftId: string, attempt: Attempt, revision: int, now: Instant, ghost start: System)
      returns (r: Fallible<Draft, ServiceError>, ghost end: System)
      requires AtWork(draftId, attempt, revision, start) && start.tables.row.value.state == Submitting && start.tables.published.None?
      requires attempt.status == InProgress
      modifies repository
      ensures repository.Valid() && RunsTo(draftId, start, end)
      ensures Leaves(draftId, true,
                     Resolved(start.tables, now, SubmissionUnknown, Some("outcome_unknown"), None, Unknown, Some("outcome_unknown")), r)
    {
      NotesAreSafe();
      ResolutionMeans(start.tables, Unknown, OUTCOME_UNKNOWN, false, None, SubmissionUnknown, now, repository.KeysOfOthers(draftId));
      var plan := Plan(Ended(attempt, Unknown, now, OUTCOME_UNKNOWN), false, false, None, revision, SubmissionUnknown, OUTCOME_UNKNOWN);
      r, end := Resolve(draftId, Recover, None, plan, now, start);
    }

    /** What a recovery has read: the draft's revision and its last attempt. */
    ghost predicate AtWork(draftId: string, attempt: Attempt, revision: int, start: System)
      reads this, repository
    {
      && repository.Valid() && draftId in repository.drafts && Inv(start) && start.tables == repository.Rows(draftId)
      && start.workers == [Idle] && start.tables.row.Some? && start.tables.row.value.revision == revision
      && start.tables.attempts != [] && attempt == start.tables.attempts[|start.tables.attempts| - 1]
      && LatestAttempt(start.tables.attempts) == Some(attempt)
    }

    /** The writes of a recovery that has read the draft and its latest attempt, and
        for a reconciliation has found a match. */
    method Resolve(draftId: string, op: Operation, ghost found: Option<Issue>, plan: Plan, now: Instant, ghost start: System)
      returns (r: Fallible<Draft, ServiceError>, ghost end: System)
      requires repository.Valid() && draftId in repository.drafts && Inv(start) && start.tables == repository.Rows(draftId)
      requires start.workers == [Idle] && op !in {Submit, ConfirmUpdate} && Outstanding(start.tables, plan)
      requires start.tables.row.Some? && Admits(op, start.tables.row.value, start.tables.published)
      requires Plans(start.tables, op, found, plan, now)
      modifies repository
      ensures repository.Valid() && RunsTo(draftId, start, end)
      ensures Leaves(draftId, Finishes(old(repository.Rows(draftId)), plan, old(repository.KeysOfOthers(draftId))),
                     Finished(old(repository.Rows(draftId)), plan, now), r)
      ensures r.Err? ==> r.failure.NotStored?
    {
      end := ReadForRecovery(draftId, op, now, start);
      if op in {Reconcile, ReconcileUpdate} {
        end := Go(start, end, Match(0, found.value, now));
      }
      r, end := RecordOutcome(draftId, plan, now, start, end);
    }

    /** The two reads that every recovery begins with. */
    ghost method ReadForRecovery(draftId: string, op: Operation, now: Instant, start: System) returns (end: System)
      requires Inv(start) && start.workers == [Idle] && start.tables.row.Some?
      requires op !in {Submit, ConfirmUpdate} && Admits(op, start.tables.row.value, start.tables.published)
      ensures Reaches(start, end) && Inv(end) && end.tables == start.tables && end.requests == start.requests
      ensures end.workers == [AfterAttemptRead(op, start.tables.row.value, start.tables.published, LatestAttempt(start.tables.attempts), now)]
    {
      ReachesItself(start);
      end := Go(start, start, LoadDraft(0, op));
      end := Go(start, end, ReadAttempt(0, now));
    }

    /** `reconcile_create`: exactly one match settles the doubt, anything else leaves
        everything alone. */
    method ReconcileCreate(draftId: string, matches: seq<Issue>, now: Instant, ghost requests: seq<Request>)
      returns (r: Fallible<Draft, ServiceError>, ghost end: System)
      requires repository.Valid() && Inv(Quiet(draftId, requests))
      modifies repository
      ensures repository.Valid() && RunsTo(draftId, old(Quiet(draftId, requests)), end)
      ensures |matches| != 1 ==> repository.drafts == old(repository.drafts)
      ensures r.Ok? <==>
                var t := old(repository.Rows(draftId));
                && t.row.Some? && t.row.value.state == SubmissionUnknown && t.row.value.template.Some?
                && t.attempts != [] && t.attempts[|t.attempts| - 1].status == Unknown
                && (|matches| == 1 ==> matches[0].key !in old(repository.KeysOfOthers(draftId)))
      ensures r.Ok? ==>
                var t := old(repository.Rows(draftId));
                && Load(repository.Rows(draftId), draftId) == Some(r.value)
                && (|matches| == 1 ==> repository.Rows(draftId) == Resolved(t, now, Created, None, None, Succeeded, None).(published := Some(matches[0])))
    {
      ghost var start := Quiet(draftId, requests);
      end := start;
      ReachesItself(start);
      var draft := repository.GetById(draftId);
      if draft.None? { return Err(Missing), end; }
      var latest := repository.GetLatestAttempt(draftId);
      LatestInQuiet(start);
      if draft.value.state != SubmissionUnknown || latest.None? || latest.value.status != Unknown || draft.value.template.None? {
        return Err(WrongState), end;
      }
      if |matches| != 1 { return Ok(draft.value), end; }
      r, end := Adopt(draftId, latest.value, matches[0], draft.value.revision, now, start);
    }

    /** The issue that was found is the draft's. */
    method Adopt(draftId: string, attempt: Attempt, issue: Issue, revision: int, now: Instant, ghost start: System)
      returns (r: Fallible<Draft, ServiceError>, ghost end: System)
      requires AtWork(draftId, attempt, revision, start) && start.tables.row.value.state == SubmissionUnknown
      requires start.tables.row.value.template.Some? && attempt.status == Unknown
      modifies repository
      ensures repository.Valid() && RunsTo(draftId, start, end)
      ensures Leaves(draftId, issue.key !in old(repository.KeysOfOthers(draftId)),
                     Resolved(start.tables, now, Created, None, None, Succeeded, None).(published := Some(issue)), r)
    {
      ResolutionMeans(start.tables, Succeeded, None, false, Some(issue), Created, now, repository.KeysOfOthers(draftId));
      var plan := Plan(Ended(attempt, Succeeded, now, None), false, false, Some(issue), revision, Created, None);
      r, end := Resolve(draftId, Reconcile, Some(issue), plan, now, start);
    }

    /** `allow_retry_after_negative_reconciliation`. */
    method AllowRetryAfterNegativeReconciliation(draftId: string, now: Instant, ghost requests: seq<Request>)
      returns (r: Fallible<Draft, ServiceError>, ghost end: System)
      requires repository.Valid() && Inv(Quiet(draftId, requests))
      modifies repository
      ensures repository.Valid() && RunsTo(draftId, old(Quiet(draftId, requests)), end)
      ensures r.Ok? <==>
                var t := old(repository.Rows(draftId));
                t.row.Some? && t.row.value.state == SubmissionUnknown && t.attempts != [] && t.attempts[|t.attempts| - 1].status == Unknown
      ensures r.Ok? ==>
                var t := old(repository.Rows(draftId));
                && Load(repository.Rows(draftId), draftId) == Some(r.value)
                && repository.Rows(draftId) == Resolved(t, now, SubmissionRetryable, Some("reconciled_not_created"), t.row.value.expiresAt,
                                                        FailedAttempt, Some("reconciled_not_created"))
    {
      ghost var start := Quiet(draftId, requests);
      end := start;
      ReachesItself(start);
      var draft := repository.GetById(draftId);
      if draft.None? { return Err(Missing), end; }
      var latest := repository.GetLatestAttempt(draftId);
      LatestInQuiet(start);
      if draft.value.state != SubmissionUnknown || latest.None? || latest.value.status != Unknown { return Err(WrongState), end; }
      NotesAreSafe();
      ResolutionMeans(start.tables, FailedAttempt, RECONCILED_NOT_CREATED, true, None, SubmissionRetryable, now, repository.KeysOfOthers(draftId));
      var plan := Plan(Ended(latest.value, FailedAttempt, now, RECONCILED_NOT_CREATED), true, false, None,
                       draft.value.revision, SubmissionRetryable, RECONCILED_NOT_CREATED);
      r, end := Resolve(draftId, AllowRetry, None, plan, now, start);
    }

    /** `reconcile_update`: `agrees` says whether Jira's fields are the draft's. */
    method ReconcileUpdateOf(draftId: string, agrees: bool, now: Instant, ghost requests: seq<Request>)
      returns (r: Fallible<Draft, ServiceError>, ghost end: System)
      requires repository.Valid() && Inv(Quiet(draftId, requests))
      modifies repository
      ensures repository.Valid() && RunsTo(draftId, old(Quiet(draftId, requests)), end)
      ensures !agrees ==> repository.drafts == old(repository.drafts)
      ensures r.Ok? <==>
                var t := old(repository.Rows(draftId));
                && t.row.Some? && t.row.value.state == UpdateUnknown && t.row.value.template.Some? && t.published.Some?
                && t.attempts != [] && t.attempts[|t.attempts| - 1].status == Unknown
      ensures r.Ok? ==>
                var t := old(repository.Rows(draftId));
                && Load(repository.Rows(draftId), draftId) == Some(r.value)
                && (agrees ==> repository.Rows(draftId) == Resolved(t, now, Complete, None, None, Succeeded, None))
    {
      ghost var start := Quiet(draftId, requests);
      end := start;
      ReachesItself(start);
      var draft := repository.GetById(draftId);
      if draft.None? { return Err(Missing), end; }
      var latest := repository.GetLatestAttempt(draftId);
      LatestInQuiet(start);
      if draft.value.state != UpdateUnknown || latest.None? || latest.value.status != Unknown || draft.value.template.None?
         || draft.value.published.None? {
        return Err(WrongState), end;
      }
      if !agrees { return Ok(draft.value), end; }
      ResolutionMeans(start.tables, Succeeded, None, false, None, Complete, now, repository.KeysOfOthers(draftId));
      var plan := Plan(Ended(latest.value, Succeeded, now, None), false, false, None, draft.value.revision, Complete, None);
      r, end := Resolve(draftId, ReconcileUpdate, Some(Issue("", "", "", 0)), plan, now, start);
    }
  }

  /** The methods' precondition holds of a draft whenever nobody is at work on it,
      whatever workers did and however they died before. */
  lemma QuietAfterAnyRun(run: seq<System>, steps: seq<Step>, workers: nat, n: nat)
    requires FullRun(run, steps, workers) && n < |run|
    ensures Inv(System(run[n].tables, run[n].requests, [Idle]))
  {
    RunInv(run, steps, workers, n);
  }

  /** Attempts are numbered from one without gaps, so the latest number counts them. */
  lemma LatestCounts(s: System)
    requires Inv(s)
    ensures var latest := LatestAttempt(s.tables.attempts);
            (if latest.None? then 0 else latest.value.number) == |s.tables.attempts|
  {
    if s.requests != [] { LatestIsLast(s.tables, s.requests); }
  }

  /** What the protocol's worker would write. */
  predicate Plans(t: Tables, op: Operation, found: Option<Issue>, plan: Plan, now: Instant)
    requires t.row.Some?
  {
    var worker := AfterAttemptRead(op, t.row.value, t.published, LatestAttempt(t.attempts), now);
    if op in {Reconcile, ReconcileUpdate} then
      && found.Some? && worker.Searching?
      && plan == (if op == Reconcile
                  then Plan(Ended(worker.attempt, Succeeded, now, None), false, false, found, worker.revision, Created, None)
                  else Plan(Ended(worker.attempt, Succeeded, now, None), false, false, None, worker.revision, Complete, None))
      && worker.op == op
    else worker == Writing(plan)
  }

  lemma LatestInQuiet(s: System)
    requires Inv(s)
    ensures LatestAttempt(s.tables.attempts)
            == if s.tables.attempts == [] then None else Some(s.tables.attempts[|s.tables.attempts| - 1])
  {
    if s.requests != [] { LatestIsLast(s.tables, s.requests); }
  }

  /** An issue on record while SUBMITTING is that of an attempt that succeeded. */
  lemma StoredSucceeded(s: System)
    requires Inv(s) && s.tables.row.Some? && s.tables.row.value.state == Submitting && s.tables.published.Some?
    ensures s.tables.attempts != [] && s.tables.attempts[|s.tables.attempts| - 1].status == Succeeded
  {}

  lemma LedgerCountsUp(s: System)
    requires Inv(s)
    ensures CountedUp(s.tables.attempts)
  {
    forall i: nat | i < |s.tables.attempts| ensures s.tables.attempts[i].number == i + 1 { assert AttemptOk(s.tables, s.requests, i); }
  }

  /** The attempt's request has been claimed and nothing else. */
  predicate NotSentYet(s: System, a: Attempt, m: Mutation, revision: int) {
    1 <= a.number <= |s.requests| && s.requests[a.number - 1] == Request(m, revision, false, false, false, false, false)
  }

  function MutationOf(op: Operation): Mutation { if op == Submit then CreateIssue else UpdateIssue }
}
