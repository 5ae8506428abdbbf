/** The repository: one map of draft rows, changed by one transaction at a time. */
module WorkflowRepository {
  import opened Fsm
  import opened TextOrder
  import T = WorkflowTables
  import opened WorkflowTables
  import opened Wrappers

  const EXPIRY_NOTE: Option<string> := Some("Draft expired due to inactivity")

  lemma NoteIsUnsafe()
    ensures !SafeCode(EXPIRY_NOTE)
  {
    assert !SafeCodeChar(EXPIRY_NOTE.value[0]);
  }

  /** No issue key is on record for two drafts. */
  ghost predicate KeysApart(drafts: map<string, Tables>) {
    forall d, e {:trigger DifferentKeys(drafts[d], drafts[e])} :: d in drafts && e in drafts && d != e ==> DifferentKeys(drafts[d], drafts[e])
  }

  predicate DifferentKeys(t: Tables, u: Tables) {
    t.published.Some? && u.published.Some? ==> t.published.value.key != u.published.value.key
  }

  /** The issue keys on record for other drafts. */
  function TakenKeys(drafts: map<string, Tables>, draftId: string): set<string> {
    set d | d in drafts && d != draftId && drafts[d].published.Some? :: drafts[d].published.value.key
  }

  ghost predicate SchemaHolds(drafts: map<string, Tables>) {
    && (forall d {:trigger drafts[d]} :: d in drafts ==> SchemaOk(drafts[d]) && drafts[d].row.Some?)
    && KeysApart(drafts)
  }

  /** Replacing one draft's rows keeps the whole schema, if its own rows do and its
      issue, unless it is the one that was there, has a key nobody else has. */
  lemma ReplaceKeepsSchema(drafts: map<string, Tables>, draftId: string, t: Tables)
    requires SchemaHolds(drafts) && SchemaOk(t) && t.row.Some?
    requires || (draftId in drafts && t.published == drafts[draftId].published)
             || t.published.None? || t.published.value.key !in TakenKeys(drafts, draftId)
    ensures SchemaHolds(drafts[draftId := t])
  {
    forall d | d in drafts && d != draftId ensures DifferentKeys(t, drafts[d]) && DifferentKeys(drafts[d], t) {
      if draftId in drafts { assert DifferentKeys(drafts[draftId], drafts[d]); }
      if drafts[d].published.Some? { assert drafts[d].published.value.key in TakenKeys(drafts, draftId); }
    }
  }

  /** A lifecycle write changes only the row. */
  lemma RowKeepsSchema(drafts: map<string, Tables>, draftId: string, row: WorkflowRow)
    requires SchemaHolds(drafts) && draftId in drafts
    ensures SchemaHolds(drafts[draftId := drafts[draftId].(row := Some(row))])
  {
    ReplaceKeepsSchema(drafts, draftId, drafts[draftId].(row := Some(row)));
  }

  /** The stored issue of a draft is nobody else's. */
  lemma OwnKeyIsFree(drafts: map<string, Tables>, draftId: string)
    requires SchemaHolds(drafts) && draftId in drafts && drafts[draftId].published.Some?
    ensures drafts[draftId].published.value.key !in TakenKeys(drafts, draftId)
  {
    forall d | d in drafts && d != draftId ensures DifferentKeys(drafts[draftId], drafts[d]) {}
  }

  /** The listed drafts have expired, and only those. */
  ghost predicate ExpiredSoFar(was: map<string, Tables>, drafts: map<string, Tables>, ids: seq<string>, now: Instant) {
    && drafts.Keys == was.Keys && (forall d {:trigger drafts[d]} :: d in drafts ==> d in was && was[d].row.Some?)
    && forall d {:trigger drafts[d]} :: d in drafts ==> drafts[d] == if d in ids then Expire(was[d], now) else was[d]
  }

  lemma OneMoreExpired(was: map<string, Tables>, drafts: map<string, Tables>, ids: seq<string>, d: string, now: Instant)
    requires ExpiredSoFar(was, drafts, ids, now) && d in drafts && d !in ids
    ensures drafts[d] == was[d] && ExpiredSoFar(was, drafts[d := Expire(was[d], now)], ids + [d], now)
  {}

  /** Expiring some drafts keeps the schema. */
  lemma ExpiredKeepsSchema(was: map<string, Tables>, drafts: map<string, Tables>, ids: seq<string>, now: Instant)
    requires SchemaHolds(was) && ExpiredSoFar(was, drafts, ids, now)
    ensures SchemaHolds(drafts)
  {
    forall d, e | d in drafts && e in drafts && d != e ensures DifferentKeys(drafts[d], drafts[e]) {
      assert DifferentKeys(was[d], was[e]);
    }
  }

  /** A draft that was due, and what expiring makes of it. */
  predicate HasExpired(t: Tables, t': Tables, before: Instant, now: Instant) {
    && t.row.Some? && t.row.value.expiresAt.Some? && t.row.value.expiresAt.value <= before
    && t.row.value.state in {Collecting, AnalysisFailed, Review, Editing, SubmissionRetryable}
    && t' == t.(row := Some(t.row.value.(state := Expired, revision := t.row.value.revision + 1, updatedAt := now, expiresAt := None)))
  }

  /** What is not due has no expiry, or a later one, or is in none of the five states. */
  lemma NotDue(t: Tables, before: Instant)
    requires t.row.Some? && !Due(t, before)
    ensures || t.row.value.expiresAt.None? || before < t.row.value.expiresAt.value
            || t.row.value.state !in {Collecting, AnalysisFailed, Review, Editing, SubmissionRetryable}
  {}

  class Repository {
    var drafts: map<string, Tables>

    constructor ()
      ensures drafts == map[]
    {
      drafts := map[];
    }

    function Rows(draftId: string): Tables
      reads this
    {
      if draftId in drafts then drafts[draftId] else NO_TABLES
    }

    function KeysOfOthers(draftId: string): set<string>
      reads this
    {
      TakenKeys(drafts, draftId)
    }

    ghost predicate Valid()
      reads this
    {
      SchemaHolds(drafts)
    }

    method Save(d: Draft, expiresAt: Option<Instant>) returns (r: Result<()>)
      requires Valid()
      modifies this
      ensures Valid()
      ensures r.Ok? <==> T.Save(old(Rows(d.draftId)), d, expiresAt, old(KeysOfOthers(d.draftId))).Ok?
      ensures r.Err? ==> drafts == old(drafts) && r.failure == T.Save(old(Rows(d.draftId)), d, expiresAt, old(KeysOfOthers(d.draftId))).failure
      ensures r.Ok? ==> drafts == old(drafts)[d.draftId := T.Save(old(Rows(d.draftId)), d, expiresAt, old(KeysOfOthers(d.draftId))).value]
    {
      var t := Rows(d.draftId);
      if !SafeCode(d.lastError) { return Err(BadCode); }
      if t.row.Some? {
        if t.row.value.revision != d.revision - 1 { return Err(Conflict); }
        if t.row.value.state != d.state && !TransitionAllowed(t.row.value.state, d.state) { return Err(Illegal); }
      }
      if !DistinctMessages(d.messages) || !DistinctAttachments(d.attachments) { return Err(Integrity); }
      if d.published.Some? && d.published.value.key in KeysOfOthers(d.draftId) { return Err(Integrity); }

      var rows: seq<AttachmentRow> := [];
      for position := 0 to |d.attachments|
        invariant rows == MergeAttachments(t.attachments, d.attachments[..position], d.updatedAt)
      {
        var a := d.attachments[position];
        var existing := FindRow(t.attachments, a.uniqueId);
        var status, uploadedId, errorCode, updatedAt := Pending, None, None, d.updatedAt;
        if CarriesId(a.uploadedId) {
          status, uploadedId := Uploaded, a.uploadedId;
        } else if existing.Some? {
          status, uploadedId, errorCode, updatedAt :=
            existing.value.status, existing.value.uploadedId, existing.value.errorCode, existing.value.updatedAt;
        }
        assert d.attachments[..position + 1] == d.attachments[..position] + [a];
        rows := rows + [AttachmentRow(a.fileId, a.uniqueId, a.kind, a.fileName, a.fileSize, status, uploadedId, errorCode, updatedAt)];
      }
      assert d.attachments[..|d.attachments|] == d.attachments;

      var expiry := if expiresAt.Some? then expiresAt else if t.row.Some? then t.row.value.expiresAt else None;
      var row := WorkflowRow(d.ownerId, d.chatId, d.threadId, d.state, d.revision, d.template, d.createdAt, d.updatedAt, expiry, d.lastError);
      var published := t.published;
      if d.published.None? && t.row.None? {
        published := None;
      } else if d.published.Some? {
        published := d.published;
      }
      SaveKeepsSchema(t, d, expiresAt, KeysOfOthers(d.draftId));
      ReplaceKeepsSchema(drafts, d.draftId, t.(row := Some(row), messages := d.messages, attachments := rows, published := published));
      drafts := drafts[d.draftId := t.(row := Some(row), messages := d.messages, attachments := rows, published := published)];
      return Ok(());
    }

    method GetById(draftId: string) returns (r: Option<Draft>)
      ensures r == Load(Rows(draftId), draftId)
    {
      r := Load(Rows(draftId), draftId);
    }

    /** A draft saved and read back, whatever the repository held before. */
    method SaveAndReload(d: Draft, expiresAt: Option<Instant>) returns (saved: Result<()>, r: Option<Draft>)
      requires Valid()
      modifies this
      ensures Valid()
      ensures saved.Ok? ==> r == Some(Reloaded(old(Rows(d.draftId)), d))
    {
      ghost var t, taken := Rows(d.draftId), KeysOfOthers(d.draftId);
      saved := Save(d, expiresAt);
      r := GetById(d.draftId);
      if saved.Ok? { LoadAfterSave(t, d, expiresAt, taken); }
    }

    method CompareAndSwapState(draftId: string, expectedRevision: int, target: DraftState, lastError: Option<string>, now: Instant)
      returns (r: Result<Draft>)
      requires Valid()
      modifies this
      ensures Valid()
      ensures var spec := CompareAndSwap(old(Rows(draftId)), expectedRevision, target, lastError, now);
              && (r.Ok? <==> spec.Ok?)
              && (r.Err? ==> drafts == old(drafts) && r.failure == spec.failure)
              && (r.Ok? ==> drafts == old(drafts)[draftId := spec.value] && Some(r.value) == Load(spec.value, draftId))
    {
      if !SafeCode(lastError) { return Err(BadCode); }
      if draftId !in drafts { return Err(NotFound); }
      var t := drafts[draftId];
      var row := t.row.value;
      var result := EvaluateTransition(expectedRevision, row.state, target, row.state, row.revision);
      match result {
        case Refused(RevisionConflict(_, _)) => return Err(Conflict);
        case Refused(_) => return Err(Illegal);
        case Moved(_, state, revision) =>
          var expiry := None;
          if target in EXPIRABLE_STATES {
            expiry := row.expiresAt;
          }
          var moved := row.(state := state, revision := revision, updatedAt := now, expiresAt := expiry, lastError := lastError);
          var after := t.(row := Some(moved));
          assert CompareAndSwap(t, expectedRevision, target, lastError, now) == Ok(after);
          RowKeepsSchema(drafts, draftId, moved);
          drafts := drafts[draftId := after];
          return Ok(Load(after, draftId).value);
      }
    }

    method ClaimAttempt(draftId: string, a: Attempt) returns (r: Result<bool>)
      requires Valid()
      modifies this
      ensures Valid()
      ensures var spec := T.ClaimAttempt(old(Rows(draftId)), a);
              && (r.Ok? <==> spec.Ok?)
              && (r.Err? ==> drafts == old(drafts) && r.failure == spec.failure)
              && (r.Ok? ==> r.value == spec.value.0
                            && drafts == if r.value then old(drafts)[draftId := spec.value.1] else old(drafts))
    {
      if a.status != InProgress || a.completedAt.Some? { return Err(BadStatus); }
      if draftId !in drafts { return Err(NotFound); }
      var t := drafts[draftId];
      if t.row.value.state !in ATTEMPT_CLAIM_STATES { return Ok(false); }
      if !Insertable(t.attempts, a) {
        if HasPending(t.attempts) { return Ok(false); }
        return Err(Integrity);
      }
      ClaimKeepsSchema(t, a);
      ReplaceKeepsSchema(drafts, draftId, t.(attempts := t.attempts + [a]));
      drafts := drafts[draftId := t.(attempts := t.attempts + [a])];
      return Ok(true);
    }

    method UpdateAttempt(draftId: string, a: Attempt) returns (r: Result<()>)
      requires Valid()
      modifies this
      ensures Valid()
      ensures var spec := T.UpdateAttempt(old(Rows(draftId)), a);
              && (r.Ok? <==> spec.Ok?)
              && (r.Err? ==> drafts == old(drafts) && r.failure == spec.failure)
              && (r.Ok? ==> drafts == old(drafts)[draftId := spec.value])
    {
      if a.status != InProgress && a.completedAt.None? { return Err(BadStatus); }
      if !SafeCode(a.errorSummary) { return Err(BadCode); }
      var t := Rows(draftId);
      var found := FindAttempt(t.attempts, a.attemptId);
      if found.None? { return Err(NotFound); }
      var stored := t.attempts[found.value];
      if !SameIdentity(stored, a) { return Err(BadIdentity); }
      if a.status != stored.status && !StatusMoveAllowed(stored.status, a.status) { return Err(BadStatus); }
      UpdateKeepsLedger(t, a);
      ReplaceKeepsSchema(drafts, draftId, t.(attempts := t.attempts[found.value := a]));
      drafts := drafts[draftId := t.(attempts := t.attempts[found.value := a])];
      return Ok(());
    }

    method GetLatestAttempt(draftId: string) returns (r: Option<Attempt>)
      ensures r == LatestAttempt(Rows(draftId).attempts)
    {
      r := LatestAttempt(Rows(draftId).attempts);
    }

    method StorePublishedIssue(draftId: string, issue: Issue) returns (r: Result<()>)
      requires Valid()
      modifies this
      ensures Valid()
      ensures var spec := StorePublished(old(Rows(draftId)), issue, old(KeysOfOthers(draftId)));
              && (r.Ok? <==> spec.Ok?)
              && (r.Err? ==> drafts == old(drafts) && r.failure == spec.failure)
              && (r.Ok? ==> drafts == old(drafts)[draftId := spec.value])
    {
      if draftId !in drafts { return Err(NotFound); }
      if issue.key in KeysOfOthers(draftId) { return Err(Integrity); }
      ReplaceKeepsSchema(drafts, draftId, drafts[draftId].(published := Some(issue)));
      drafts := drafts[draftId := drafts[draftId].(published := Some(issue))];
      return Ok(());
    }

    method SetAttachmentStatus(draftId: string, uniqueId: string, expected: AttachmentStatus, target: AttachmentStatus,
                               updatedAt: Instant, uploadedId: Option<string>, code: Option<string>) returns (r: Result<bool>)
      requires Valid()
      modifies this
      ensures Valid()
      ensures var spec := T.SetAttachmentStatus(old(Rows(draftId)), uniqueId, expected, target, updatedAt, uploadedId, code);
              && (r.Ok? <==> spec.Ok?)
              && (r.Err? ==> drafts == old(drafts) && r.failure == spec.failure)
              && (r.Ok? ==> r.value == spec.value.0
                            && drafts == if r.value then old(drafts)[draftId := spec.value.1] else old(drafts))
    {
      if !SafeCode(code) { return Err(BadCode); }
      if !AttachmentMoveAllowed(expected, target) { return Err(Illegal); }
      if target == Uploaded && !CarriesId(uploadedId) { return Err(BadIdentity); }
      var t := Rows(draftId);
      var k := RowIndex(t.attachments, uniqueId);
      if k.None? || t.attachments[k.value].status != expected { return Ok(false); }
      var row := t.attachments[k.value].(status := target, uploadedId := uploadedId, errorCode := code, updatedAt := updatedAt);
      StatusKeepsSchema(t, k.value, row);
      ReplaceKeepsSchema(drafts, draftId, t.(attachments := t.attachments[k.value := row]));
      drafts := drafts[draftId := t.(attachments := t.attachments[k.value := row])];
      return Ok(true);
    }

    // ---- Expiry ------------------------------------------------------------

    function DueDrafts(before: Instant): set<string>
      reads this
    {
      set d | d in drafts && Due(drafts[d], before)
    }

    function ExpiryOf(draftId: string): Instant
      reads this
    {
      if draftId in drafts && drafts[draftId].row.Some? && drafts[draftId].row.value.expiresAt.Some?
      then drafts[draftId].row.value.expiresAt.value else 0
    }

    predicate Distinct(ids: seq<string>) {
      forall i, j :: 0 <= i < j < |ids| ==> ids[i] != ids[j]
    }

    /** `ORDER BY expires_at, draft_id`. */
    predicate Sooner(d: string, e: string)
      reads this
    {
      ExpiryOf(d) < ExpiryOf(e) || (ExpiryOf(d) == ExpiryOf(e) && TextLess(d, e))
    }

    lemma SoonerIsTransitive(d: string, e: string, f: string)
      requires Sooner(d, e) && Sooner(e, f)
      ensures Sooner(d, f)
    {
      if ExpiryOf(d) == ExpiryOf(e) == ExpiryOf(f) { LessIsTransitive(d, e, f); }
    }

    /** The due drafts, in that order, up to the limit. */
    method ListExpired(before: Instant, limit: nat) returns (ids: seq<string>)
      ensures Distinct(ids) && forall i :: 0 <= i < |ids| ==> ids[i] in DueDrafts(before)
      ensures |ids| == if |DueDrafts(before)| <= limit then |DueDrafts(before)| else limit
      ensures forall i, j :: 0 <= i < j < |ids| ==> Sooner(ids[i], ids[j])
      ensures forall i, d :: 0 <= i < |ids| && d in DueDrafts(before) && d !in ids ==> Sooner(ids[i], d)
    {
      ids := [];
      var due := DueDrafts(before);
      var left := due;
      while left != {} && |ids| < limit
        invariant left <= due
        invariant forall i :: 0 <= i < |ids| ==> ids[i] in due && ids[i] !in left
        invariant forall d :: d in due ==> d in left || d in ids
        invariant Distinct(ids)
        invariant |ids| + |left| == |due| && |ids| <= limit
        invariant forall i, j :: 0 <= i < j < |ids| ==> Sooner(ids[i], ids[j])
        invariant forall i, d :: 0 <= i < |ids| && d in left ==> Sooner(ids[i], d)
      {
        var next := Earliest(left);
        left := left - {next};
        ids := ids + [next];
      }
    }

    method Earliest(ids: set<string>) returns (first: string)
      requires ids != {}
      ensures first in ids
      ensures forall d :: d in ids && d != first ==> Sooner(first, d)
    {
      first :| first in ids;
      var left := ids - {first};
      while left != {}
        invariant left <= ids && first in ids && first !in left
        invariant forall d :: d in ids && d !in left && d != first ==> Sooner(first, d)
        decreases left
      {
        var d :| d in left;
        LessIsTotal(d, first);
        if Sooner(d, first) {
          forall e | e in ids && e !in left && e != first ensures Sooner(d, e) { SoonerIsTransitive(d, first, e); }
          first := d;
        }
        left := left - {d};
      }
    }

    /** One row of the selection. */
    method ExpireRow(draftId: string, now: Instant)
      requires draftId in drafts && drafts[draftId].row.Some? && drafts[draftId].row.value.state in EXPIRABLE_STATES
      modifies this
      ensures drafts == old(drafts)[draftId := Expire(old(drafts)[draftId], now)]
    {
      var t := drafts[draftId];
      var result := EvaluateTransition(t.row.value.revision, t.row.value.state, Expired, t.row.value.state, t.row.value.revision);
      drafts := drafts[draftId := t.(row := Some(t.row.value.(
        state := result.current, revision := result.revision, updatedAt := now, expiresAt := None)))];
    }

    /** One transaction expires the due drafts that were selected, and only those. */
    method ExpireEligible(before: Instant, limit: nat, now: Instant) returns (changed: nat, ghost ids: seq<string>)
      requires Valid()
      modifies this
      ensures Valid()
      ensures changed == |ids| && Distinct(ids)
      ensures changed == if |old(DueDrafts(before))| <= limit then |old(DueDrafts(before))| else limit
      ensures drafts.Keys == old(drafts).Keys
      ensures forall i :: 0 <= i < |ids| ==> ids[i] in old(DueDrafts(before))
      ensures forall i {:trigger ids[i]} :: 0 <= i < |ids| ==> ids[i] in drafts && HasExpired(old(drafts)[ids[i]], drafts[ids[i]], before, now)
      ensures forall d :: d in drafts ==> drafts[d] == if d in ids then Expire(old(drafts)[d], now) else old(drafts)[d]
      ensures |old(DueDrafts(before))| <= limit ==> forall d :: d in old(DueDrafts(before)) ==> d in ids
    {
      var rows := ListExpired(before, limit);
      ids := rows;
      ghost var was := drafts;
      changed := 0;
      while changed < |rows|
        invariant changed <= |rows|
        invariant ExpiredSoFar(was, drafts, rows[..changed], now)
      {
        var d := rows[changed];
        assert d !in rows[..changed];
        OneMoreExpired(was, drafts, rows[..changed], d, now);
        ExpireRow(d, now);
        assert rows[..changed + 1] == rows[..changed] + [d];
        changed := changed + 1;
      }
      assert rows[..changed] == rows;
      ExpiredKeepsSchema(was, drafts, rows, now);
      if |old(DueDrafts(before))| <= limit {
        AllListed(rows, old(DueDrafts(before)));
      }
    }

    lemma AllListed(ids: seq<string>, due: set<string>)
      requires forall i :: 0 <= i < |ids| ==> ids[i] in due
      requires forall i, j :: 0 <= i < j < |ids| ==> ids[i] != ids[j]
      requires |ids| == |due|
      ensures forall d :: d in due ==> d in ids
      decreases |ids|
    {
      if ids != [] {
        var n := |ids| - 1;
        forall i | 0 <= i < n ensures ids[..n][i] in due - {ids[n]} {}
        AllListed(ids[..n], due - {ids[n]});
        forall d | d in due ensures d in ids {
          if d != ids[n] { assert d in ids[..n]; }
        }
      } else {
        assert due == {};
      }
    }

    /** The service method that expires drafts one by one. Its error note is not a
        safe code, so it fails as soon as a single draft is due, whatever the
        draft; nothing is ever expired or counted. */
    method ExpireEligibleDrafts(before: Instant, now: Instant) returns (r: Result<nat>)
      requires Valid()
      modifies this
      ensures drafts == old(drafts)
      ensures DueDrafts(before) == {} ==> r == Ok(0)
      ensures DueDrafts(before) != {} ==> r == Err(BadCode)
    {
      var ids := ListExpired(before, 100);
      var count, i, failure := 0, 0, None;
      while i < |ids| && failure.None?
        invariant 0 <= i <= |ids| && drafts == old(drafts) && Valid()
        invariant count == 0
        invariant failure.None? ==> i == 0
        invariant failure.Some? ==> failure.value == BadCode && i > 0
      {
        var swapped := CompareAndSwapState(ids[i], drafts[ids[i]].row.value.revision, Expired, EXPIRY_NOTE, now);
        NoteIsUnsafe();
        if swapped.Ok? {
          count := count + 1;
        } else if swapped.failure != Conflict && swapped.failure != Illegal {
          failure := Some(swapped.failure);
        }
        i := i + 1;
      }
      r := if failure.Some? then Err(failure.value) else Ok(count);
    }
  }
}
