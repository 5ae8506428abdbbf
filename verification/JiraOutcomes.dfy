/** What a creation request can come to, from the exchange with Jira to what the
    submission service does about it. */
module JiraOutcomes {
  import opened Wrappers
  import opened WorkflowTables
  import opened Sums
  import P = SubmissionProtocol
  import Theorems = SubmissionTheorems

  datatype ErrorKind =
    | Validation | Authentication | Permission | RateLimit | Connectivity | Timeout | ProviderRejection
    | ProviderContract | ConflictKind | StaleAction | Storage | Internal

  datatype Operation =
    | WorkflowTransition | CallbackOperation | Persistence | Analysis | AuthenticationCheck
    | JiraCreate | JiraUpdate | JiraAttachment | Vpn | Telegram

  datatype Retryability = Never | Automatic | Explicit
  datatype Certainty = NotApplicable | NotDispatched | DefinitelyNotApplied | OutcomeUnknown | Applied

  datatype Classification = Classification(kind: ErrorKind, operation: Operation, retryability: Retryability, certainty: Certainty)

  const MUTATIONS: set<Operation> := {JiraCreate, JiraUpdate, JiraAttachment}

  /** The checks of the constructor; a classification that fails them cannot exist. */
  predicate Constructible(c: Classification) {
    && (c.certainty != NotApplicable ==> c.operation in MUTATIONS)
    && (c.certainty in {OutcomeUnknown, Applied} ==> c.retryability == Never)
    && (c.retryability != Never ==> c.certainty in {NotApplicable, NotDispatched, DefinitelyNotApplied})
  }

  datatype Body = IssueBody(id: string, key: string) | OtherBody

  /** One exchange: no reply at all, or a status and a body. */
  datatype Exchange = NoReply(timedOut: bool) | Reply(status: nat, body: Body)

  function UnknownMutation(op: Operation, kind: ErrorKind): Classification { Classification(kind, op, Never, OutcomeUnknown) }

  function DefiniteFailure(op: Operation, kind: ErrorKind, retryability: Retryability): Classification {
    Classification(kind, op, retryability, DefinitelyNotApplied)
  }

  /** `_status_error` for a mutation. */
  function StatusError(op: Operation, status: nat): Classification {
    var (kind, retryability) :=
      if status == 401 then (Authentication, Never)
      else if status == 403 then (Permission, Never)
      else if status == 409 then (ConflictKind, Explicit)
      else if status == 429 then (RateLimit, Automatic)
      else if status >= 500 then (Connectivity, Automatic)
      else (ProviderRejection, Never);
    if status >= 500 then UnknownMutation(op, kind)
    else DefiniteFailure(op, kind, if retryability != Never then Explicit else Never)
  }

  function ContractError(op: Operation): Classification { Classification(ProviderContract, op, Never, NotApplicable) }

  /** `create_issue`: the issue named in the reply, or the error raised. */
  function CreateIssue(e: Exchange): Fallible<(string, string), Classification> {
    match e
    case NoReply(timedOut) => Err(UnknownMutation(JiraCreate, if timedOut then Timeout else Connectivity))
    case Reply(status, body) =>
      if status >= 400 then Err(StatusError(JiraCreate, status))
      else match body
        case IssueBody(id, key) => Ok((id, key))
        case OtherBody => Err(ContractError(JiraCreate))
  }

  datatype Step = Record(id: string, key: string) | OfferRetry | Reconcile

  /** `submit` after the call, with `_finish_failure` and `_finish_unknown`. */
  function Follow(r: Fallible<(string, string), Classification>): Step {
    match r
    case Ok((id, key)) => Record(id, key)
    case Err(c) => if c.certainty == OutcomeUnknown then Reconcile else OfferRetry
  }

  /** Every error the gateway raises for a mutation passes the constructor's checks. */
  lemma ErrorsAreConstructible(op: Operation, status: nat, kind: ErrorKind)
    requires op in MUTATIONS
    ensures Constructible(StatusError(op, status)) && Constructible(UnknownMutation(op, kind)) && Constructible(ContractError(op))
  {}

  /** The assumption about Jira: a refusal has no effect, an issue is named only if
      there is one. Anything else may or may not have been applied. */
  predicate Honest(e: Exchange, applied: bool) {
    e.Reply? ==> (400 <= e.status < 500 ==> !applied) && (e.status < 400 && e.body.IssueBody? ==> applied)
  }

  /** The outcome of the protocol that an exchange amounts to. */
  function ProtocolOutcome(e: Exchange, url: string, at: Instant): P.Outcome {
    match Follow(CreateIssue(e))
    case Record(id, key) => P.Accepted(Issue(key, id, url, at))
    case Reconcile => P.InDoubt
    case OfferRetry => if e.status < 400 then P.Malformed else P.Rejected
  }

  /** Which exchange comes to what: no reply or a server error leaves a doubt, an error
      status below is a refusal, and below 400 all depends on whether an issue is named. */
  lemma OutcomeExactly(e: Exchange, url: string, at: Instant)
    ensures var o := ProtocolOutcome(e, url, at);
            && (o.InDoubt? <==> e.NoReply? || e.status >= 500)
            && (o.Rejected? <==> e.Reply? && 400 <= e.status < 500)
            && (o.Malformed? <==> e.Reply? && e.status < 400 && e.body.OtherBody?)
            && (o.Accepted? ==> e.Reply? && e.body.IssueBody? && o.issue == Issue(e.body.key, e.body.id, url, at))
  {}

  /** The error of a refused mutation: what kind it is of, that nothing was applied, and
      that another try is offered after a conflict or a rate limit only. */
  lemma RefusalMeans(op: Operation, status: nat)
    requires 400 <= status < 500
    ensures var c := StatusError(op, status);
            && c.operation == op && c.certainty == DefinitelyNotApplied
            && (c.retryability == Explicit <==> status in {409, 429}) && (c.retryability == Never <==> status !in {409, 429})
            && (c.kind == Authentication <==> status == 401) && (c.kind == Permission <==> status == 403)
            && (c.kind == ConflictKind <==> status == 409) && (c.kind == RateLimit <==> status == 429)
            && (c.kind == ProviderRejection <==> status !in {401, 403, 409, 429})
  {}

  /** The protocol's reply steps are exactly the honest exchanges: each is allowed,
      whatever became of the request, and every allowed outcome comes from one. */
  lemma RepliesAreExchanges(s: P.System, w: nat, e: Exchange, url: string, at: Instant, now: Instant, code: Option<string>)
    requires P.At(s, w) && s.workers[w].Sent? && P.RequestIndex(s, s.workers[w].attempt)
    requires Honest(e, s.requests[s.workers[w].attempt.number - 1].applied)
    ensures P.Enabled(s, P.Reply(w, ProtocolOutcome(e, url, at), now, code))
  {}

  lemma ExchangesAreReplies(s: P.System, w: nat, outcome: P.Outcome, now: Instant, code: Option<string>) returns (e: Exchange)
    requires P.At(s, w) && P.Enabled(s, P.Reply(w, outcome, now, code))
    ensures Honest(e, s.requests[s.workers[w].attempt.number - 1].applied)
    ensures outcome == if outcome.Accepted? then ProtocolOutcome(e, outcome.issue.url, outcome.issue.publishedAt) else ProtocolOutcome(e, "", 0)
  {
    match outcome
    case Accepted(issue) => e := Reply(201, IssueBody(issue.id, issue.key));
    case Malformed => e := Reply(201, OtherBody);
    case Rejected => e := Reply(400, OtherBody);
    case InDoubt => e := NoReply(true);
  }

  // ---- Where a second issue comes from ---------------------------------------------------

  /** A reply the gateway took for neither an issue nor an error status. */
  predicate Unreadable(e: Exchange) { e.Reply? && e.status < 400 && e.body.OtherBody? }

  /** The step that takes the answer to a creation. */
  predicate Answers(s: P.System, step: P.Step) {
    step.Reply? && P.At(s, step.w) && s.workers[step.w].Sent? && s.workers[step.w].mutation == P.CreateIssue
  }

  /** The step that records a creation as not having happened. */
  predicate WritesOff(s: P.System, step: P.Step) {
    step.WriteAttempt? && P.At(s, step.w) && s.workers[step.w].Writing? && s.workers[step.w].plan.writeOff
  }

  /** The exchanges behind the answers of a run. */
  ghost predicate Exchanged(run: seq<P.System>, steps: seq<P.Step>, exchanges: seq<Exchange>) {
    && |exchanges| == |steps| == |run| - 1
    && forall m {:trigger exchanges[m]} :: 0 <= m < |steps| && Answers(run[m], steps[m]) ==>
         steps[m].outcome.Malformed? == ProtocolOutcome(exchanges[m], "", 0).Malformed?
  }

  /** The unreadable answers to creations among the first n steps. */
  ghost function UnreadableAnswers(run: seq<P.System>, steps: seq<P.Step>, exchanges: seq<Exchange>, n: nat): nat
    requires n <= |steps| == |exchanges| && |run| == |steps| + 1
  {
    if n == 0 then 0
    else UnreadableAnswers(run, steps, exchanges, n - 1) + if Answers(run[n - 1], steps[n - 1]) && Unreadable(exchanges[n - 1]) then 1 else 0
  }

  ghost function WriteOffs(run: seq<P.System>, steps: seq<P.Step>, n: nat): nat
    requires n <= |steps| && |run| == |steps| + 1
  {
    if n == 0 then 0 else WriteOffs(run, steps, n - 1) + if WritesOff(run[n - 1], steps[n - 1]) then 1 else 0
  }

  function MarkedMalformed(r: P.Request): int { if r.mutation == P.CreateIssue && r.malformed then 1 else 0 }
  function MarkedWrittenOff(r: P.Request): int { if r.writtenOff then 1 else 0 }

  /** No step marks more than one request, and only these two steps mark any. */
  lemma StepMarks(s: P.System, step: P.Step)
    requires P.Inv(s) && P.Enabled(s, step)
    ensures var rs, rs' := s.requests, P.Apply(s, step).requests;
            && Sum(rs', MarkedMalformed) <= Sum(rs, MarkedMalformed) + (if Answers(s, step) && step.outcome.Malformed? then 1 else 0)
            && Sum(rs', MarkedWrittenOff) <= Sum(rs, MarkedWrittenOff) + if WritesOff(s, step) then 1 else 0
  {
    if step.Claim? {
      ClaimMarks(s, step.w);
    } else if step.Reply? {
      ReplyMarks(s, step);
    } else if step.Send? || step.ApplyRequest? {
      RequestMarks(s, step);
    } else if step.WriteAttempt? {
      AttemptMarks(s, step.w);
    } else {
      RequestsKept(s, step);
    }
  }

  lemma RequestMarks(s: P.System, step: P.Step)
    requires P.Enabled(s, step) && (step.Send? || step.ApplyRequest?)
    ensures var rs, rs' := s.requests, P.Apply(s, step).requests;
            Sum(rs', MarkedMalformed) == Sum(rs, MarkedMalformed) && Sum(rs', MarkedWrittenOff) == Sum(rs, MarkedWrittenOff)
  {
    var rs, rs' := s.requests, P.Apply(s, step).requests;
    match step
    case Send(w) => UpdateMarks(rs, s.workers[w].attempt.number - 1, rs'[s.workers[w].attempt.number - 1]);
    case ApplyRequest(k) => UpdateMarks(rs, k, rs'[k]);
  }

  lemma AttemptMarks(s: P.System, w: nat)
    requires P.Enabled(s, P.WriteAttempt(w))
    ensures var rs, rs' := s.requests, P.WriteAttemptStep(s, w).requests;
            && Sum(rs', MarkedMalformed) == Sum(rs, MarkedMalformed)
            && Sum(rs', MarkedWrittenOff) <= Sum(rs, MarkedWrittenOff) + if WritesOff(s, P.WriteAttempt(w)) then 1 else 0
  {
    var k := s.workers[w].plan.attempt.number - 1;
    UpdateMarks(s.requests, k, P.WriteAttemptStep(s, w).requests[k]);
  }

  lemma RequestsKept(s: P.System, step: P.Step)
    requires P.Enabled(s, step) && !step.Claim? && !step.Reply? && !step.Send? && !step.ApplyRequest? && !step.WriteAttempt?
    ensures P.Apply(s, step).requests == s.requests
  {}

  lemma UpdateMarks(rs: seq<P.Request>, k: nat, r: P.Request)
    requires k < |rs|
    ensures Sum(rs[k := r], MarkedMalformed) == Sum(rs, MarkedMalformed) - MarkedMalformed(rs[k]) + MarkedMalformed(r)
    ensures Sum(rs[k := r], MarkedWrittenOff) == Sum(rs, MarkedWrittenOff) - MarkedWrittenOff(rs[k]) + MarkedWrittenOff(r)
  {
    SumUpdate(rs, k, r, MarkedMalformed);
    SumUpdate(rs, k, r, MarkedWrittenOff);
  }

  lemma ReplyMarks(s: P.System, step: P.Step)
    requires P.Inv(s) && P.Enabled(s, step) && step.Reply?
    ensures var rs, rs' := s.requests, P.Apply(s, step).requests;
            && Sum(rs', MarkedMalformed) <= Sum(rs, MarkedMalformed) + (if Answers(s, step) && step.outcome.Malformed? then 1 else 0)
            && Sum(rs', MarkedWrittenOff) == Sum(rs, MarkedWrittenOff)
  {
    var k := s.workers[step.w].attempt.number - 1;
    assert P.WorkerOk(s.tables, s.requests, s.workers[step.w]);
    UpdateMarks(s.requests, k, P.Apply(s, step).requests[k]);
  }

  lemma ClaimMarks(s: P.System, w: nat)
    requires P.Enabled(s, P.Claim(w))
    ensures var rs' := P.Apply(s, P.Claim(w)).requests;
            Sum(rs', MarkedMalformed) == Sum(s.requests, MarkedMalformed) && Sum(rs', MarkedWrittenOff) == Sum(s.requests, MarkedWrittenOff)
  {
    var r := P.Request(s.workers[w].mutation, s.workers[w].revision, false, false, false, false, false);
    SumAppend(s.requests, r, MarkedMalformed);
    SumAppend(s.requests, r, MarkedWrittenOff);
  }

  lemma MalformedExactly(e: Exchange)
    ensures ProtocolOutcome(e, "", 0).Malformed? <==> Unreadable(e)
  {}

  /** The n-th step marks a creation only if it is such an event. */
  lemma StepEvents(run: seq<P.System>, steps: seq<P.Step>, exchanges: seq<Exchange>, workers: nat, n: nat)
    requires Theorems.FullRun(run, steps, workers) && Exchanged(run, steps, exchanges) && n < |steps|
    ensures Sum(run[n + 1].requests, MarkedMalformed)
            <= Sum(run[n].requests, MarkedMalformed) + if Answers(run[n], steps[n]) && Unreadable(exchanges[n]) then 1 else 0
    ensures Sum(run[n + 1].requests, MarkedWrittenOff)
            <= Sum(run[n].requests, MarkedWrittenOff) + if WritesOff(run[n], steps[n]) then 1 else 0
  {
    Theorems.RunInv(run, steps, workers, n);
    assert Theorems.Follows(run[n], steps[n], run[n + 1]);
    MalformedExactly(exchanges[n]);
    StepMarks(run[n], steps[n]);
  }

  lemma {:induction false} MarksAreEvents(run: seq<P.System>, steps: seq<P.Step>, exchanges: seq<Exchange>, workers: nat, n: nat)
    requires Theorems.FullRun(run, steps, workers) && Exchanged(run, steps, exchanges) && n < |run|
    ensures Sum(run[n].requests, MarkedMalformed) <= UnreadableAnswers(run, steps, exchanges, n)
    ensures Sum(run[n].requests, MarkedWrittenOff) <= WriteOffs(run, steps, n)
  {
    if n > 0 {
      MarksAreEvents(run, steps, exchanges, workers, n - 1);
      StepEvents(run, steps, exchanges, workers, n - 1);
    }
  }

  /** Over every run the issues created are at most one, plus one for each creation
      answered by a reply below 400 that names no issue, plus one for each recorded
      as not created. So a second issue arises only after such an exchange or such a
      record. */
  lemma EventsBoundIssues(run: seq<P.System>, steps: seq<P.Step>, exchanges: seq<Exchange>, workers: nat, n: nat)
    requires Theorems.FullRun(run, steps, workers) && Exchanged(run, steps, exchanges) && n < |run|
    ensures Theorems.IssuesCreated(run[n]) <= 1 + UnreadableAnswers(run, steps, exchanges, n) + WriteOffs(run, steps, n)
    ensures Theorems.IssuesCreated(run[n]) >= 2 ==>
              exists m :: 0 <= m < n && ((Answers(run[m], steps[m]) && Unreadable(exchanges[m])) || WritesOff(run[m], steps[m]))
  {
    Theorems.CreateOnce(run, steps, workers, n);
    MarksAreEvents(run, steps, exchanges, workers, n);
    SumMonotone(run[n].requests, Theorems.AppliedMalformed, MarkedMalformed);
    SumMonotone(run[n].requests, Theorems.AppliedWrittenOff, MarkedWrittenOff);
    if UnreadableAnswers(run, steps, exchanges, n) + WriteOffs(run, steps, n) > 0 { var m := SomeEvent(run, steps, exchanges, n); }
  }

  lemma {:induction false} SomeEvent(run: seq<P.System>, steps: seq<P.Step>, exchanges: seq<Exchange>, n: nat) returns (m: nat)
    requires n <= |steps| == |exchanges| && |run| == |steps| + 1
    requires UnreadableAnswers(run, steps, exchanges, n) + WriteOffs(run, steps, n) > 0
    ensures m < n && ((Answers(run[m], steps[m]) && Unreadable(exchanges[m])) || WritesOff(run[m], steps[m]))
  {
    if (Answers(run[n - 1], steps[n - 1]) && Unreadable(exchanges[n - 1])) || WritesOff(run[n - 1], steps[n - 1]) {
      m := n - 1;
    } else {
      m := SomeEvent(run, steps, exchanges, n - 1);
    }
  }

  // ---- Differences of templates ---------------------------------------------------------

  /** `complete_template_diff`. */
  function Diff(before: Template, after: Template): map<string, Field> {
    var previous, current := CanonicalDocument(before), CanonicalDocument(after);
    map key | key in current && (key !in previous || previous[key] != current[key]) :: current[key]
  }

  /** No difference is reported exactly if the same request would be sent, or if the
      only change is that the assignee was removed. */
  lemma DiffEmptyExactly(before: Template, after: Template)
    ensures Diff(before, after) == map[] <==>
            || CanonicalDocument(after) == CanonicalDocument(before)
            || (before.assignee != "" && after.assignee == "" && CanonicalDocument(after) == CanonicalDocument(before) - {"assignee"})
  {
    var previous, current := CanonicalDocument(before), CanonicalDocument(after);
    var keys := {"project", "issuetype", "summary", "description", "priority", "labels", "components"};
    KeysOf(before);
    KeysOf(after);
    NothingDiffers(previous, current, keys, before.assignee != "", after.assignee != "");
  }

  lemma NothingDiffers(previous: map<string, Field>, current: map<string, Field>, keys: set<string>, had: bool, has: bool)
    requires "assignee" !in keys
    requires previous.Keys == (if had then keys + {"assignee"} else keys) && current.Keys == if has then keys + {"assignee"} else keys
    ensures (map key | key in current && (key !in previous || previous[key] != current[key]) :: current[key]) == map[] <==>
            current == previous || (had && !has && current == previous - {"assignee"})
  {
    var diff := map key | key in current && (key !in previous || previous[key] != current[key]) :: current[key];
    assert forall key :: key in current && key !in diff ==> key in previous && previous[key] == current[key];
    if diff == map[] {
      if had == has {
        assert current == previous;
      } else {
        assert !has ==> current == previous - {"assignee"};
        assert has ==> "assignee" in current && "assignee" !in previous;
      }
    }
  }

  lemma KeysOf(t: Template)
    ensures var keys := {"project", "issuetype", "summary", "description", "priority", "labels", "components"};
            CanonicalDocument(t).Keys == if t.assignee == "" then keys else keys + {"assignee"}
  {}
}
