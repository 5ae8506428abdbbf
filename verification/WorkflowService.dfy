/** `WorkflowService` over the repository: manual drafts, template edits and
    cancellation. Every write is one of the protocol's writes by other services. */
module WorkflowService {
  import opened Fsm
  import opened Wrappers
  import opened WorkflowTables
  import opened WorkflowRepository
  import T = WorkflowTables
  import P = SubmissionProtocol

  datatype ServiceError = DraftMissing | AccessDenied | RevisionChanged | NotAllowed | NotStored(failure: Failure)

  /** What an edit makes of a draft. */
  function Edited(d: Draft, template: Template, now: Instant): Draft {
    d.(state := Review, revision := d.revision + 1, template := Some(template), updatedAt := now, lastError := None)
  }

  /** The states the service lets an edit start from. */
  predicate Editable(state: DraftState) {
    state in {Review, Editing, SubmissionRetryable} || TransitionAllowed(state, Review)
  }

  /** Where an edit may really start. */
  predicate LeadsToReview(state: DraftState) { state == Review || TransitionAllowed(state, Review) }

  lemma LoadedIsDistinct(t: Tables, draftId: string)
    requires SchemaOk(t) && t.row.Some?
    ensures var d := Load(t, draftId).value; DistinctMessages(d.messages) && DistinctAttachments(d.attachments)
  {
    var d := Load(t, draftId).value;
    forall i, j | 0 <= i < j < |d.attachments| ensures d.attachments[i].uniqueId != d.attachments[j].uniqueId {
      assert OtherFile(t.attachments[i], t.attachments[j]);
    }
  }

  /** No constraint of the schema refuses the edit of a stored draft: its own messages,
      attachments and issue key are as they were. Only the life cycle can. */
  lemma EditIsSaved(drafts: map<string, Tables>, draftId: string, template: Template, now: Instant)
    requires SchemaHolds(drafts) && draftId in drafts
    ensures var t := drafts[draftId];
            var saved := T.Save(t, Edited(Load(t, draftId).value, template, now), None, TakenKeys(drafts, draftId));
            if LeadsToReview(t.row.value.state) then saved.Ok? else saved == Err(Illegal)
  {
    LoadedIsDistinct(drafts[draftId], draftId);
    if drafts[draftId].published.Some? { OwnKeyIsFree(drafts, draftId); }
  }

  /** Past creation, or with a creation under way or in doubt. */
  predicate Protected(state: DraftState) { state in POST_CREATE_STATES || state in {Submitting, SubmissionUnknown} }

  lemma CancelSwaps(t: Tables, revision: int, now: Instant)
    requires t.row.Some? && TransitionAllowed(t.row.value.state, Cancelled)
    ensures !Protected(t.row.value.state)
    ensures CompareAndSwap(t, revision, Cancelled, None, now).Ok? <==> t.row.value.revision == revision
    ensures t.row.value.revision == revision ==>
              var d := Load(CompareAndSwap(t, revision, Cancelled, None, now).value, "").value;
              d.state == Cancelled && d.revision == revision + 1
  {}

  class Service {
    const repository: Repository

    constructor (repository: Repository)
      ensures this.repository == repository
    {
      this.repository := repository;
    }

    /** An actor or a chat that is not given is not checked. */
    method GetDraft(draftId: string, actor: Option<int>, chat: Option<int>) returns (r: Fallible<Draft, ServiceError>)
      ensures var d := Load(repository.Rows(draftId), draftId);
              && (r == Err(DraftMissing) <==> d.None?)
              && (r.Ok? <==> d.Some? && (actor.Some? ==> d.value.ownerId == actor.value) && (chat.Some? ==> d.value.chatId == chat.value))
              && (r.Ok? ==> r.value == d.value) && (r.Err? ==> r.failure in {DraftMissing, AccessDenied})
    {
      var found := repository.GetById(draftId);
      if found.None? { return Err(DraftMissing); }
      if actor.Some? && found.value.ownerId != actor.value { return Err(AccessDenied); }
      if chat.Some? && found.value.chatId != chat.value { return Err(AccessDenied); }
      return Ok(found.value);
    }

    /** An edit succeeds exactly at the expected revision of the actor's own draft and
        where the life cycle has an edge to review; then the edited draft is stored.
        A draft waiting for a retry passes the service's own check and is refused by
        the repository. */
    method UpdateTemplate(draftId: string, actor: int, chat: int, template: Template, expectedRevision: int, now: Instant)
      returns (r: Fallible<Draft, ServiceError>)
      requires repository.Valid()
      modifies repository
      ensures repository.Valid()
      ensures r.Err? ==> repository.drafts == old(repository.drafts)
      ensures old(repository.Rows(draftId)).row.None? <==> r == Err(DraftMissing)
      ensures r.Ok? <==>
                var t := old(repository.Rows(draftId));
                && t.row.Some? && t.row.value.ownerId == actor && t.row.value.chatId == chat
                && t.row.value.revision == expectedRevision && LeadsToReview(t.row.value.state)
      ensures r.Ok? ==>
                var t, taken := old(repository.Rows(draftId)), old(repository.KeysOfOthers(draftId));
                && r.value == Edited(Load(t, draftId).value, template, now)
                && r.value.state == Review && r.value.revision == expectedRevision + 1 && r.value.template == Some(template)
                && r.value.updatedAt == now && r.value.lastError.None?
                && T.Save(t, r.value, None, taken).Ok?
                && repository.drafts == old(repository.drafts)[draftId := T.Save(t, r.value, None, taken).value]
                && P.OtherSaveFits(t, r.value)
      ensures var t := old(repository.Rows(draftId));
              t.row.Some? && t.row.value.ownerId == actor && t.row.value.chatId == chat && t.row.value.revision == expectedRevision ==>
                && (r == Err(NotAllowed) <==> !Editable(t.row.value.state))
                && (r == Err(NotStored(Illegal)) <==> t.row.value.state == SubmissionRetryable)
    {
      var got := GetDraft(draftId, Some(actor), Some(chat));
      if got.Err? { return Err(got.failure); }
      var draft := got.value;
      if draft.revision != expectedRevision { return Err(RevisionChanged); }
      if draft.state !in {Review, Editing, SubmissionRetryable} && !TransitionAllowed(draft.state, Review) { return Err(NotAllowed); }
      var updated := Edited(draft, template, now);
      EditIsSaved(repository.drafts, draftId, template, now);
      var saved := repository.Save(updated, None);
      r := if saved.Ok? then Ok(updated) else Err(NotStored(saved.failure));
    }

    /** Cancelling is one compare-and-swap, along a legal edge: never from a state
        after creation, nor while an outcome is open. */
    method CancelDraft(draftId: string, actor: int, chat: int, expectedRevision: int, now: Instant)
      returns (r: Fallible<Draft, ServiceError>)
      requires repository.Valid()
      modifies repository
      ensures repository.Valid()
      ensures r.Err? ==> repository.drafts == old(repository.drafts)
      ensures r.Ok? <==>
                var t := old(repository.Rows(draftId));
                && t.row.Some? && t.row.value.ownerId == actor && t.row.value.chatId == chat
                && t.row.value.revision == expectedRevision && TransitionAllowed(t.row.value.state, Cancelled)
      ensures r.Ok? ==>
                var t := old(repository.Rows(draftId));
                && repository.drafts == old(repository.drafts)[draftId := CompareAndSwap(t, expectedRevision, Cancelled, None, now).value]
                && r.value.state == Cancelled && r.value.revision == expectedRevision + 1 && !Protected(t.row.value.state)
    {
      var got := GetDraft(draftId, Some(actor), Some(chat));
      if got.Err? { return Err(got.failure); }
      if !TransitionAllowed(got.value.state, Cancelled) { return Err(NotAllowed); }
      CancelSwaps(repository.Rows(draftId), expectedRevision, now);
      var swapped := repository.CompareAndSwapState(draftId, expectedRevision, Cancelled, None, now);
      r := if swapped.Ok? then Ok(swapped.value) else Err(NotStored(swapped.failure));
    }
  }
}
