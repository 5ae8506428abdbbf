/** The draft lifecycle: its states, its legal transitions, and what every path
    through it keeps. */
module Fsm {

  datatype DraftState =
    | Collecting | Analyzing | AnalysisFailed | Review | Editing
    | Submitting | SubmissionRetryable | SubmissionUnknown
    | Created | Attaching | AttachmentPartial | Complete
    | UpdateReview | Updating | UpdateRetryable | UpdateUnknown
    | Cancelled | Expired | AbandonedUnknown

  function AllowedTargets(state: DraftState): set<DraftState> {
    match state
    case Collecting => {Analyzing, Review, Cancelled, Expired}
    case Analyzing => {Review, AnalysisFailed, Cancelled}
    case AnalysisFailed => {Analyzing, Cancelled, Expired}
    case Review => {Editing, Submitting, Cancelled, Expired}
    case Editing => {Review, Cancelled, Expired}
    case Submitting => {Created, SubmissionRetryable, SubmissionUnknown}
    case SubmissionRetryable => {Submitting, Editing, Cancelled, Expired}
    case SubmissionUnknown => {Created, SubmissionRetryable, AbandonedUnknown}
    case Created => {Attaching, Complete}
    case Attaching => {Complete, AttachmentPartial}
    case AttachmentPartial => {Attaching, Complete, UpdateReview}
    case Complete => {UpdateReview}
    case UpdateReview => {Updating, Complete}
    case Updating => {Complete, UpdateRetryable, UpdateUnknown}
    case UpdateRetryable => {Updating, UpdateReview, Complete}
    case UpdateUnknown => {Complete, UpdateRetryable, AbandonedUnknown}
    case Cancelled => {}
    case Expired => {}
    case AbandonedUnknown => {}
  }

  predicate TransitionAllowed(current: DraftState, target: DraftState) {
    target in AllowedTargets(current)
  }

  const EXPIRABLE_STATES: set<DraftState> := {Collecting, AnalysisFailed, Review, Editing, SubmissionRetryable}
  const UNKNOWN_OUTCOME_STATES: set<DraftState> := {SubmissionUnknown, UpdateUnknown, AbandonedUnknown}
  const TERMINAL_STATES: set<DraftState> := {Cancelled, Expired, AbandonedUnknown}
  const ATTEMPT_CLAIM_STATES: set<DraftState> := {Submitting, Updating, Attaching}

  datatype TransitionError = RevisionConflict(expected: int, actual: int)
                           | StateConflict(expectedState: DraftState, actualState: DraftState)
                           | InvalidTransition(from: DraftState, to: DraftState)

  datatype TransitionResult = Moved(previous: DraftState, current: DraftState, revision: int)
                            | Refused(error: TransitionError)

  /** Revision first, then state, then legality. */
  function EvaluateTransition(expectedRevision: int, expectedState: DraftState, target: DraftState,
                              actualState: DraftState, actualRevision: int): (r: TransitionResult)
    ensures r.Moved? <==> expectedRevision == actualRevision && expectedState == actualState && TransitionAllowed(actualState, target)
    ensures r.Moved? ==> r == Moved(actualState, target, actualRevision + 1)
  {
    if actualRevision != expectedRevision then Refused(RevisionConflict(expectedRevision, actualRevision))
    else if actualState != expectedState then Refused(StateConflict(expectedState, actualState))
    else if !TransitionAllowed(actualState, target) then Refused(InvalidTransition(actualState, target))
    else Moved(actualState, target, actualRevision + 1)
  }

  // ---- Paths -------------------------------------------------------------

  /** One revision: a legal transition, or a save that keeps the state. */
  predicate Revises(from: DraftState, to: DraftState) {
    from == to || TransitionAllowed(from, to)
  }

  ghost predicate IsPath(path: seq<DraftState>) {
    && path != []
    && forall i {:trigger path[i]} :: 0 < i < |path| ==> Revises(path[i - 1], path[i])
  }

  const POST_CREATE_STATES: set<DraftState> :=
    {Created, Attaching, AttachmentPartial, Complete, UpdateReview, Updating, UpdateRetryable, UpdateUnknown, AbandonedUnknown}

  /** Once created, always created: no path leaves the post-create family, none
      of its states can expire, and from none of them is there a way to a
      cancelled, expired or submitting draft. */
  lemma {:induction false} PostCreateClosed(path: seq<DraftState>, i: nat, j: nat)
    requires IsPath(path) && i <= j < |path| && path[i] in POST_CREATE_STATES
    ensures path[j] in POST_CREATE_STATES
    ensures path[j] !in EXPIRABLE_STATES && path[j] !in {Cancelled, Expired, Submitting, SubmissionRetryable, SubmissionUnknown}
    decreases j
  {
    if i < j { PostCreateClosed(path, i, j - 1); }
  }

  /** Before creation the only ways out of an in-doubt submission are creation,
      a recorded negative reconciliation, and abandonment. */
  lemma {:induction false} UnknownIsLeftDeliberately(path: seq<DraftState>, i: nat, j: nat)
    requires IsPath(path) && i <= j < |path| && path[i] == SubmissionUnknown
    requires forall k {:trigger path[k]} :: i < k <= j ==> path[k] !in {Created, SubmissionRetryable, AbandonedUnknown}
    ensures path[j] == SubmissionUnknown
    decreases j
  {
    if i < j { UnknownIsLeftDeliberately(path, i, j - 1); }
  }

  /** The life cycle read backwards: from where each state can be entered. */
  lemma EnteredFrom(state: DraftState, target: DraftState)
    ensures TransitionAllowed(state, target) <==>
      match target
      case Collecting => false
      case Analyzing => state in {Collecting, AnalysisFailed}
      case AnalysisFailed => state == Analyzing
      case Review => state in {Collecting, Analyzing, Editing}
      case Editing => state in {Review, SubmissionRetryable}
      case Submitting => state in {Review, SubmissionRetryable}
      case SubmissionRetryable => state in {Submitting, SubmissionUnknown}
      case SubmissionUnknown => state == Submitting
      case Created => state in {Submitting, SubmissionUnknown}
      case Attaching => state in {Created, AttachmentPartial}
      case AttachmentPartial => state == Attaching
      case Complete => state in {Created, Attaching, AttachmentPartial, UpdateReview, Updating, UpdateRetryable, UpdateUnknown}
      case UpdateReview => state in {AttachmentPartial, Complete, UpdateRetryable}
      case Updating => state in {UpdateReview, UpdateRetryable}
      case UpdateRetryable => state in {Updating, UpdateUnknown}
      case UpdateUnknown => state == Updating
      case Cancelled => state in {Collecting, Analyzing, AnalysisFailed, Review, Editing, SubmissionRetryable}
      case Expired => state in EXPIRABLE_STATES
      case AbandonedUnknown => state in {SubmissionUnknown, UpdateUnknown}
  {}

  /** From every state there is a way to an end: to completion, if there is an issue,
      else to cancellation. Only a draft that has ended cannot move on. */
  lemma WayOut(state: DraftState) returns (path: seq<DraftState>)
    ensures IsPath(path) && |path| <= 5 && path[0] == state
    ensures path[|path| - 1] == if state in TERMINAL_STATES then state else if state in POST_CREATE_STATES then Complete else Cancelled
    ensures AllowedTargets(state) == {} <==> state in TERMINAL_STATES
  {
    var toComplete, toCancelled := [state, Complete], [state, Cancelled];
    path := if state in TERMINAL_STATES then [state]
            else if state in {SubmissionUnknown, Submitting} then [state, SubmissionRetryable, Cancelled]
            else if state in POST_CREATE_STATES then (if state == Complete then [state] else toComplete)
            else toCancelled;
  }
}
