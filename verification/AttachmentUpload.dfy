/** `AttachmentService` over the repository, as its only writer. */
module AttachmentUpload {
  import opened Fsm
  import opened Wrappers
  import opened WorkflowTables
  import opened WorkflowRepository
  import opened WorkflowAnswers
  import Spec = AttachmentSpec
  import opened AttachmentSpec

  datatype BatchResult = BatchResult(draft: Draft, uploaded: int, failed: int, skipped: int)

  datatype UploadError = Unavailable | WrongState | Stopped(failure: Failure)

  const PARTIAL_NOTE: Option<string> := Some("attachment_partial")

  lemma CodesAreSafe()
    ensures SafeCode(Some("attachment_duplicate")) && SafeCode(Some("attachment_count_limit"))
    ensures SafeCode(Some("attachment_size_limit")) && SafeCode(Some("attachment_type_limit"))
  {}

  lemma NoteIsSafe()
    ensures SafeCode(PARTIAL_NOTE)
  {}

  /** Claiming a row that is already being uploaded is an illegal move: the loop ends
      there with an error. */
  predicate StopsAt(policy: Policy, p: Progress, k: nat)
    requires k < |p.rows|
  {
    p.rows[k].status == Uploading && ToBeClaimed(policy, p, k)
  }

  /** The state and the note a call that is not stopped leaves. */
  predicate Concluded(t: Tables)
    requires t.row.Some?
  {
    var failed := exists i :: 0 <= i < |t.attachments| && t.attachments[i].status == Failed;
    && t.row.value.state == (if failed then AttachmentPartial else Complete)
    && t.row.value.lastError == (if failed then PARTIAL_NOTE else None)
  }

  lemma {:induction false} NotYetReached(policy: Policy, rows: seq<AttachmentRow>, transfers: seq<Spec.Transfer>, at: Instant, n: nat)
    requires n <= |rows| == |transfers|
    ensures forall i :: n <= i < |rows| ==> HandleAll(policy, rows, transfers, at, n).rows[i] == rows[i]
  {
    if n > 0 { NotYetReached(policy, rows, transfers, at, n - 1); }
  }

  /** Nothing changed but the rows of one draft, which are these now. */
  predicate OnlyRows(before: map<string, Tables>, after: map<string, Tables>, draftId: string, rows: seq<AttachmentRow>) {
    draftId in before && after == before[draftId := before[draftId].(attachments := rows)]
  }

  lemma OnlyRowsTwice(a: map<string, Tables>, b: map<string, Tables>, c: map<string, Tables>, draftId: string,
                      rows: seq<AttachmentRow>, rows': seq<AttachmentRow>)
    requires OnlyRows(a, b, draftId, rows) && OnlyRows(b, c, draftId, rows')
    ensures OnlyRows(a, c, draftId, rows')
  {}

  lemma OnlyRowsSame(drafts: map<string, Tables>, draftId: string)
    requires draftId in drafts
    ensures OnlyRows(drafts, drafts, draftId, drafts[draftId].attachments)
  {
    var t := drafts[draftId];
    assert t.(attachments := t.attachments) == t;
  }

  /** The loop's counters, as the method holds them. */
  predicate Counters(p: Progress, uploaded: int, failed: int, skipped: int, totalBytes: int, seen: set<string>, sent: seq<nat>) {
    && p.uploaded == uploaded && p.failed == failed && p.skipped == skipped && p.totalBytes == totalBytes
    && p.seen == seen && p.sent == sent
  }

  class AttachmentService {
    const repository: Repository
    const policy: Policy

    constructor (repository: Repository, policy: Policy)
      requires PolicyOk(policy)
      ensures this.repository == repository && this.policy == policy
    {
      this.repository, this.policy := repository, policy;
    }

    /** One conditional status write; with a single writer it always finds its row. */
    method SetStatus(draftId: string, k: nat, target: AttachmentStatus, at: Instant, uploadedId: Option<string>, code: Option<string>)
      requires repository.Valid() && draftId in repository.drafts && k < |repository.drafts[draftId].attachments|
      requires AttachmentMoveAllowed(repository.drafts[draftId].attachments[k].status, target) && SafeCode(code)
      requires target == Uploaded ==> CarriesId(uploadedId)
      modifies repository
      ensures repository.Valid()
      ensures var t := old(repository.drafts[draftId]);
              repository.drafts == old(repository.drafts)[draftId := t.(attachments := t.attachments[k :=
                t.attachments[k].(status := target, uploadedId := uploadedId, errorCode := code, updatedAt := at)])]
    {
      var row := repository.drafts[draftId].attachments[k];
      RowIndexIs(repository.drafts[draftId].attachments, k);
      var changed := repository.SetAttachmentStatus(draftId, row.uniqueId, row.status, target, at, uploadedId, code);
    }

    /** One row of the loop, from the claim on. */
    method Transfer(draftId: string, k: nat, t: Spec.Transfer, ghost p: Progress, at: Instant, total: int)
      returns (uploaded: bool, bytes: nat, asked: bool)
      requires repository.Valid() && draftId in repository.drafts && repository.drafts[draftId].attachments == p.rows
      requires k < |p.rows| && p.rows[k].status in {Pending, Failed} && TransferOk(t) && total == p.totalBytes
      modifies repository
      ensures repository.Valid()
      ensures var p' := Transferred(policy, p, k, t, at);
              && OnlyRows(old(repository.drafts), repository.drafts, draftId, p'.rows)
              && Counters(p', p.uploaded + if uploaded then 1 else 0, p.failed + if uploaded then 0 else 1, p.skipped, p.totalBytes + bytes,
                          p.seen, if asked then p.sent + [k] else p.sent)
    {
      CodesAreSafe();
      SetStatus(draftId, k, Uploading, at, None, None);
      uploaded, bytes, asked := false, 0, false;
      var code: Option<string> := None;
      match t {
        case NotLoaded(c) => code := Some(c);
        case Loaded(size, mimeType, reply) =>
          if mimeType !in policy.mimeTypes {
            code := Some("attachment_type_limit");
          } else if size > policy.maxFileBytes || total + size > policy.maxTotalBytes {
            code := Some("attachment_size_limit");
          } else {
            asked := true;
            match reply {
              case Declined(c) => code := Some(c);
              case Accepted(id) =>
                SetStatus(draftId, k, Uploaded, at, Some(id), None);
                uploaded, bytes := true, size;
            }
          }
      }
      if !uploaded {
        SetStatus(draftId, k, Failed, at, None, code);
      }
      ghost var p' := Transferred(policy, p, k, t, at);
      assert repository.drafts[draftId].attachments == p'.rows;
    }

    method Skip(draftId: string, k: nat, code: string, ghost p: Progress, at: Instant) returns (skipped: bool)
      requires repository.Valid() && draftId in repository.drafts && repository.drafts[draftId].attachments == p.rows
      requires k < |p.rows| && p.rows[k].status !in {Uploaded, Skipped} && SafeCode(Some(code))
      modifies repository
      ensures repository.Valid()
      ensures var p' := Spec.Skip(p, k, code, at);
              && OnlyRows(old(repository.drafts), repository.drafts, draftId, p'.rows)
              && p' == p.(rows := p'.rows, skipped := p.skipped + if skipped then 1 else 0)
    {
      OnlyRowsSame(repository.drafts, draftId);
      if repository.drafts[draftId].attachments[k].status == Uploading { return false; }
      SetStatus(draftId, k, Skipped, at, None, Some(code));
      return true;
    }

    /** A round from the check of the declared size on. */
    method Attempt(draftId: string, k: nat, t: Spec.Transfer, ghost p: Progress, total: int, at: Instant)
      returns (stop: bool, uploaded: nat, failed: nat, skipped: nat, bytes: nat, asked: bool)
      requires repository.Valid() && draftId in repository.drafts && repository.drafts[draftId].attachments == p.rows
      requires k < |p.rows| && TransferOk(t) && total == p.totalBytes && p.rows[k].status !in {Uploaded, Skipped}
      modifies repository
      ensures repository.Valid()
      ensures stop <==> p.rows[k].status == Uploading && !DeclaredTooBig(policy, p, p.rows[k])
      ensures stop ==> repository.drafts == old(repository.drafts)
      ensures !stop ==>
                var p' := Attempted(policy, p, k, t, at);
                && OnlyRows(old(repository.drafts), repository.drafts, draftId, p'.rows)
                && Counters(p', p.uploaded + uploaded, p.failed + failed, p.skipped + skipped, p.totalBytes + bytes, p.seen,
                            if asked then p.sent + [k] else p.sent)
    {
      var record := repository.drafts[draftId].attachments[k];
      stop, uploaded, failed, skipped, bytes, asked := false, 0, 0, 0, 0, false;
      if record.fileSize.Some?
         && (record.fileSize.value > policy.maxFileBytes || total + record.fileSize.value > policy.maxTotalBytes) {
        assert SafeCode(Some("attachment_size_limit")) by { CodesAreSafe(); }
        var done := Skip(draftId, k, "attachment_size_limit", p, at);
        if done { skipped := 1; }
        return;
      }
      if record.status == Uploading {
        // the repository refuses the claim, and its error ends the call
        stop := true;
        return;
      }
      var ok;
      ok, bytes, asked := Transfer(draftId, k, t, p, at, total);
      if ok { uploaded := 1; } else { failed := 1; }
    }

    /** What one round adds to the loop's counters. */
    method Round(draftId: string, k: nat, t: Spec.Transfer, ghost p: Progress, seen: set<string>, total: int, at: Instant)
      returns (stop: bool, uploaded: nat, failed: nat, skipped: nat, bytes: nat, asked: bool, seen': set<string>)
      requires repository.Valid() && draftId in repository.drafts && repository.drafts[draftId].attachments == p.rows
      requires k < |p.rows| && TransferOk(t) && total == p.totalBytes && seen == p.seen
      modifies repository
      ensures repository.Valid()
      ensures stop <==> StopsAt(policy, p, k)
      ensures stop ==> repository.drafts == old(repository.drafts)
      ensures !stop ==>
                var p' := Handle(policy, p, k, t, at);
                && OnlyRows(old(repository.drafts), repository.drafts, draftId, p'.rows)
                && Counters(p', p.uploaded + uploaded, p.failed + failed, p.skipped + skipped, p.totalBytes + bytes, seen',
                            if asked then p.sent + [k] else p.sent)
    {
      var record := repository.drafts[draftId].attachments[k];
      OnlyRowsSame(repository.drafts, draftId);
      stop, uploaded, failed, skipped, bytes, asked, seen' := false, 0, 0, 0, 0, false, seen;
      if record.status in {Uploaded, Skipped} {
        seen' := seen + {record.uniqueId};
        return;
      }
      if record.uniqueId in seen || k >= policy.maxCount {
        var code := if record.uniqueId in seen then "attachment_duplicate" else "attachment_count_limit";
        assert SafeCode(Some(code)) by { CodesAreSafe(); }
        var done := Skip(draftId, k, code, p, at);
        if done { skipped := 1; }
        return;
      }
      seen' := seen + {record.uniqueId};
      stop, uploaded, failed, skipped, bytes, asked := Attempt(draftId, k, t, p.(seen := seen'), total, at);
    }

    /** The loop. `transfers` is what the outside world does with each file; `sent`
        lists the rows handed to Jira. */
    method UploadRows(draftId: string, transfers: seq<Spec.Transfer>, at: Instant)
      returns (stopped: bool, uploaded: int, failed: int, skipped: int, sent: seq<nat>)
      requires repository.Valid() && draftId in repository.drafts && |transfers| == |repository.drafts[draftId].attachments|
      requires forall i {:trigger transfers[i]} :: 0 <= i < |transfers| ==> TransferOk(transfers[i])
      modifies repository
      ensures repository.Valid()
      ensures var t := old(repository.drafts[draftId]);
              if stopped then
                exists k :: FirstStop(t, transfers, at, k)
                  && repository.drafts == old(repository.drafts)[draftId :=
                       t.(attachments := HandleAll(policy, t.attachments, transfers, at, k).rows)]
              else
                var p := HandleAll(policy, t.attachments, transfers, at, |t.attachments|);
                && Unstopped(t, transfers, at, |t.attachments|)
                && repository.drafts == old(repository.drafts)[draftId := t.(attachments := p.rows)]
                && uploaded == p.uploaded && failed == p.failed && skipped == p.skipped && sent == p.sent
    {
      ghost var before, t := repository.drafts, repository.drafts[draftId];
      var n := |repository.drafts[draftId].attachments|;
      uploaded, failed, skipped, sent, stopped := 0, 0, 0, [], false;
      var totalBytes: nat := 0;
      var seen: set<string> := {};
      var k := 0;
      ghost var p := Start(t.attachments);
      OnlyRowsSame(before, draftId);
      while k < n
        invariant 0 <= k <= n && repository.Valid() && !stopped
        invariant p == HandleAll(policy, t.attachments, transfers, at, k)
        invariant OnlyRows(before, repository.drafts, draftId, p.rows)
        invariant Counters(p, uploaded, failed, skipped, totalBytes, seen, sent)
        invariant Unstopped(t, transfers, at, k)
      {
        ghost var mid := repository.drafts;
        var stop, u, f, s, bytes, asked, seen' := Round(draftId, k, transfers[k], p, seen, totalBytes, at);
        if stop {
          assert FirstStop(t, transfers, at, k);
          stopped := true;
          return;
        }
        UnstoppedNext(t, transfers, at, k);
        ghost var next := HandleAll(policy, t.attachments, transfers, at, k + 1);
        assert next == Handle(policy, p, k, transfers[k], at);
        OnlyRowsTwice(before, mid, repository.drafts, draftId, p.rows, next.rows);
        p := next;
        seen := seen';
        uploaded, failed, skipped, totalBytes := uploaded + u, failed + f, skipped + s, totalBytes + bytes;
        if asked { sent := sent + [k]; }
        k := k + 1;
      }
    }

    /** `upload_pending`. The loop ends with an error exactly if it stops at some row
        (`StopsExactly` says at which); the rows before it are settled and the draft
        is left ATTACHING. */
    method UploadPending(draftId: string, transfers: seq<Spec.Transfer>, at: Instant)
      returns (r: Fallible<BatchResult, UploadError>, sent: seq<nat>)
      requires repository.Valid() && PolicyOk(policy) && |transfers| == |repository.Rows(draftId).attachments|
      requires forall i {:trigger transfers[i]} :: 0 <= i < |transfers| ==> TransferOk(transfers[i])
      modifies repository
      ensures repository.Valid()
      ensures var t := old(repository.Rows(draftId));
              && (r == Err(Unavailable) <==> t.row.None? || t.published.None?)
              && (r == Err(WrongState) <==>
                    t.row.Some? && t.published.Some? && t.row.value.state !in {Created, AttachmentPartial})
              && (r.Err? && !r.failure.Stopped? ==> repository.drafts == old(repository.drafts) && sent == [])
              && (r.Err? && r.failure.Stopped? <==>
                    t.row.Some? && t.published.Some? && t.row.value.state in {Created, AttachmentPartial}
                    && !Unstopped(t, transfers, at, |t.attachments|))
      ensures r.Err? && r.failure.Stopped? ==>
                var t, t' := old(repository.Rows(draftId)), repository.Rows(draftId);
                && t'.row.Some? && t'.row.value.state == Attaching
                && exists k :: FirstStop(t, transfers, at, k) && t'.attachments == HandleAll(policy, t.attachments, transfers, at, k).rows
      ensures r.Ok? ==>
                var t := old(repository.Rows(draftId));
                var p := HandleAll(policy, t.attachments, transfers, at, |t.attachments|);
                && r.value.uploaded == p.uploaded && r.value.failed == p.failed && r.value.skipped == p.skipped && sent == p.sent
                && repository.drafts == old(repository.drafts)[draftId := repository.Rows(draftId)]
                && repository.Rows(draftId).attachments == p.rows && repository.Rows(draftId).row.Some?
                && repository.Rows(draftId).row.value.state
                   == (if exists i :: 0 <= i < |p.rows| && p.rows[i].status == Failed then AttachmentPartial else Complete)
                && repository.Rows(draftId).row.value.lastError
                   == (if repository.Rows(draftId).row.value.state == AttachmentPartial then Some("attachment_partial") else None)
                && Load(repository.Rows(draftId), draftId) == Some(r.value.draft)
    {
      var draft := Eligible(draftId);
      if draft.Err? { return Err(draft.failure), []; }
      if draft.value.attachments == [] {
        var complete := repository.CompareAndSwapState(draftId, draft.value.revision, Complete, None, at);
        return Ok(BatchResult(complete.value, 0, 0, 0)), [];
      }
      r, sent := Attach(draftId, draft.value.revision, transfers, at);
    }

    method Eligible(draftId: string) returns (r: Fallible<Draft, UploadError>)
      requires repository.Valid()
      ensures var t := repository.Rows(draftId);
              if t.row.None? || t.published.None? then r == Err(Unavailable)
              else if t.row.value.state !in {Created, AttachmentPartial} then r == Err(WrongState)
              else r.Ok? && Load(t, draftId) == Some(r.value) && |r.value.attachments| == |t.attachments|
    {
      var loaded := repository.GetById(draftId);
      if loaded.None? || loaded.value.published.None? { return Err(Unavailable); }
      if loaded.value.state !in {Created, AttachmentPartial} { return Err(WrongState); }
      return Ok(loaded.value);
    }

    method BeginAttaching(draftId: string, revision: int, at: Instant) returns (attaching: int)
      requires repository.Valid() && draftId in repository.drafts
      requires var t := repository.drafts[draftId];
               t.row.value.state in {Created, AttachmentPartial} && t.row.value.revision == revision
      modifies repository
      ensures repository.Valid() && draftId in repository.drafts
      ensures repository.drafts == old(repository.drafts)[draftId := repository.drafts[draftId]]
      ensures var t := repository.drafts[draftId];
              && t.row.Some? && t.row.value.state == Attaching && t.row.value.revision == attaching
              && t.attachments == old(repository.drafts[draftId]).attachments
    {
      var r := repository.CompareAndSwapState(draftId, revision, Attaching, None, at);
      return r.value.revision;
    }

    /** The draft is ATTACHING while the loop runs over its rows. */
    method BeginAndUpload(draftId: string, revision: int, transfers: seq<Spec.Transfer>, at: Instant)
      returns (attaching: int, stopped: bool, uploaded: int, failed: int, skipped: int, sent: seq<nat>)
      requires repository.Valid() && draftId in repository.drafts
      requires forall i {:trigger transfers[i]} :: 0 <= i < |transfers| ==> TransferOk(transfers[i])
      requires var t := repository.drafts[draftId];
               && |transfers| == |t.attachments| && t.row.value.state in {Created, AttachmentPartial} && t.row.value.revision == revision
      modifies repository
      ensures repository.Valid() && draftId in repository.drafts
      ensures repository.drafts == old(repository.drafts)[draftId := repository.drafts[draftId]]
      ensures var t, t' := old(repository.drafts[draftId]), repository.drafts[draftId];
              && t'.row.Some? && t'.row.value.state == Attaching && t'.row.value.revision == attaching
              && (stopped <==> !Unstopped(t, transfers, at, |t.attachments|))
              && (stopped ==> exists k :: FirstStop(t, transfers, at, k)
                                && t'.attachments == HandleAll(policy, t.attachments, transfers, at, k).rows)
              && (!stopped ==> var p := HandleAll(policy, t.attachments, transfers, at, |t.attachments|);
                               && uploaded == p.uploaded && failed == p.failed && skipped == p.skipped
                               && sent == p.sent && t'.attachments == p.rows)
    {
      ghost var t := repository.drafts[draftId];
      attaching := BeginAttaching(draftId, revision, at);
      ghost var mid := repository.drafts[draftId];
      stopped, uploaded, failed, skipped, sent := UploadRows(draftId, transfers, at);
      OnlyTheRows(t, mid, transfers, at);
    }

    method Attach(draftId: string, revision: int, transfers: seq<Spec.Transfer>, at: Instant)
      returns (r: Fallible<BatchResult, UploadError>, sent: seq<nat>)
      requires repository.Valid() && draftId in repository.drafts
      requires forall i {:trigger transfers[i]} :: 0 <= i < |transfers| ==> TransferOk(transfers[i])
      requires var t := repository.drafts[draftId];
               && |transfers| == |t.attachments| && t.row.value.state in {Created, AttachmentPartial} && t.row.value.revision == revision
      modifies repository
      ensures repository.Valid() && draftId in repository.drafts
      ensures repository.drafts == old(repository.drafts)[draftId := repository.drafts[draftId]]
      ensures var t := old(repository.drafts[draftId]);
              var t' := repository.drafts[draftId];
              && t'.row.Some?
              && (r.Err? <==> !Unstopped(t, transfers, at, |t.attachments|))
              && (r.Err? ==> r == Err(Stopped(Illegal)) && t'.row.value.state == Attaching
                             && exists k :: FirstStop(t, transfers, at, k)
                                  && t'.attachments == HandleAll(policy, t.attachments, transfers, at, k).rows)
              && (r.Ok? ==> var p := HandleAll(policy, t.attachments, transfers, at, |t.attachments|);
                            && r.value.uploaded == p.uploaded && r.value.failed == p.failed && r.value.skipped == p.skipped
                            && sent == p.sent && t'.attachments == p.rows && Concluded(t')
                            && Load(t', draftId) == Some(r.value.draft))
    {
      var attaching, stopped, uploaded, failed, skipped;
      attaching, stopped, uploaded, failed, skipped, sent := BeginAndUpload(draftId, revision, transfers, at);
      if stopped {
        return Err(Stopped(Illegal)), sent;
      }
      var final := Conclude(draftId, attaching, at);
      r := Ok(BatchResult(final, uploaded, failed, skipped));
    }

    /** The final state: partial exactly if some row is FAILED. */
    method Conclude(draftId: string, revision: int, at: Instant) returns (final: Draft)
      requires repository.Valid() && draftId in repository.drafts
      requires repository.drafts[draftId].row.value.state == Attaching && repository.drafts[draftId].row.value.revision == revision
      modifies repository
      ensures repository.Valid() && draftId in repository.drafts
      ensures repository.drafts == old(repository.drafts)[draftId := repository.drafts[draftId]]
      ensures var t := repository.drafts[draftId];
              && t.attachments == old(repository.drafts[draftId]).attachments && t.row.Some?
              && Concluded(t) && Load(t, draftId) == Some(final)
    {
      var rows := repository.drafts[draftId].attachments;
      var partial := exists i :: 0 <= i < |rows| && rows[i].status == Failed;
      NoteIsSafe();
      var r := repository.CompareAndSwapState(draftId, revision,
        if partial then AttachmentPartial else Complete, if partial then PARTIAL_NOTE else None, at);
      return r.value;
    }

    /** Where the loop stops, in terms of what is stored and what has been sent: at a
        row left in the middle of an upload, unless the count limit or its declared
        size has it passed over. */
    lemma StopsExactly(t: Tables, transfers: seq<Spec.Transfer>, at: Instant, k: nat)
      requires k < |t.attachments| == |transfers| && DistinctRows(t.attachments)
      ensures StoppedHere(t, transfers, at, k) <==>
                && t.attachments[k].status == Uploading && k < policy.maxCount
                && !DeclaredTooBig(policy, HandleAll(policy, t.attachments, transfers, at, k), t.attachments[k])
    {
      NotYetReached(policy, t.attachments, transfers, at, k);
      NeverADuplicate(policy, t.attachments, transfers, at, k, k);
    }

    /** Without such a row the loop does not stop. */
    lemma NoneUploadingGoesOn(t: Tables, transfers: seq<Spec.Transfer>, at: Instant)
      requires |t.attachments| == |transfers| && NoneUploading(t.attachments) && DistinctRows(t.attachments)
      ensures Unstopped(t, transfers, at, |t.attachments|)
    {
      forall k | 0 <= k < |t.attachments| ensures !StoppedHere(t, transfers, at, k) { StopsExactly(t, transfers, at, k); }
    }

    /** Only the rows count. */
    lemma OnlyTheRows(t: Tables, u: Tables, transfers: seq<Spec.Transfer>, at: Instant)
      requires |t.attachments| == |transfers| && u.attachments == t.attachments
      ensures Unstopped(t, transfers, at, |t.attachments|) <==> Unstopped(u, transfers, at, |u.attachments|)
      ensures forall k :: FirstStop(t, transfers, at, k) <==> FirstStop(u, transfers, at, k)
    {
      forall k | 0 <= k < |t.attachments| ensures StoppedHere(t, transfers, at, k) <==> StoppedHere(u, transfers, at, k) {}
      forall k: nat | k <= |t.attachments| ensures Unstopped(t, transfers, at, k) <==> Unstopped(u, transfers, at, k) {}
    }

    ghost predicate FirstStop(t: Tables, transfers: seq<Spec.Transfer>, at: Instant, k: int)
      requires |t.attachments| == |transfers|
    {
      0 <= k < |t.attachments| && StoppedHere(t, transfers, at, k) && Unstopped(t, transfers, at, k)
    }

    ghost predicate Unstopped(t: Tables, transfers: seq<Spec.Transfer>, at: Instant, n: nat)
      requires n <= |t.attachments| == |transfers|
    {
      forall k {:trigger StoppedHere(t, transfers, at, k)} :: 0 <= k < n ==> !StoppedHere(t, transfers, at, k)
    }

    lemma UnstoppedNext(t: Tables, transfers: seq<Spec.Transfer>, at: Instant, k: nat)
      requires k < |t.attachments| == |transfers| && Unstopped(t, transfers, at, k) && !StoppedHere(t, transfers, at, k)
      ensures Unstopped(t, transfers, at, k + 1)
    {}

    /** The loop ends with an error at row k. */
    ghost predicate StoppedHere(t: Tables, transfers: seq<Spec.Transfer>, at: Instant, k: nat)
      requires k < |t.attachments| == |transfers|
    {
      StopsAt(policy, HandleAll(policy, t.attachments, transfers, at, k), k)
    }
  }
}
