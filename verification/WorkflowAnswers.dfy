/** What each repository transaction answers and what it leaves, in terms of the rows
    and the arguments alone. */
module WorkflowAnswers {
  import opened Fsm
  import opened Wrappers
  import opened WorkflowTables

  // ---- Saving ------------------------------------------------------------------------

  /** When a save succeeds, and what each refusal says. */
  lemma SaveExactly(t: Tables, d: Draft, expiresAt: Option<Instant>, takenKeys: set<string>)
    ensures var r := Save(t, d, expiresAt, takenKeys);
            var stale := t.row.Some? && d.revision != t.row.value.revision + 1;
            var illegal := t.row.Some? && d.state != t.row.value.state && d.state !in AllowedTargets(t.row.value.state);
            var clash := !DistinctMessages(d.messages) || !DistinctAttachments(d.attachments)
                         || (d.published.Some? && d.published.value.key in takenKeys);
            && (r.Ok? <==> SafeCode(d.lastError) && !stale && !illegal && !clash)
            && (r == Err(BadCode) <==> !SafeCode(d.lastError))
            && (r == Err(Conflict) <==> SafeCode(d.lastError) && stale)
            && (r == Err(Illegal) <==> SafeCode(d.lastError) && !stale && illegal)
            && (r == Err(Integrity) <==> SafeCode(d.lastError) && !stale && !illegal && clash)
  {}

  /** The stored row of a saved attachment: as uploaded, if the draft knows its id; else
      with the transfer state a stored row of the same file has; else pending. */
  predicate MergedFrom(rows: seq<AttachmentRow>, a: Attachment, at: Instant, row: AttachmentRow) {
    && LoadAttachment(row) == a.(uploadedId := row.uploadedId)
    && (CarriesId(a.uploadedId) ==> row.status == Uploaded && row.uploadedId == a.uploadedId && row.errorCode.None? && row.updatedAt == at)
    && (!CarriesId(a.uploadedId) ==>
          forall k {:trigger rows[k]} :: 0 <= k < |rows| && rows[k].uniqueId == a.uniqueId ==>
            && row.status == rows[k].status && row.uploadedId == rows[k].uploadedId
            && row.errorCode == rows[k].errorCode && row.updatedAt == rows[k].updatedAt)
    && (!CarriesId(a.uploadedId) && (forall k {:trigger rows[k]} :: 0 <= k < |rows| ==> rows[k].uniqueId != a.uniqueId) ==>
          row.status == Pending && row.uploadedId.None? && row.errorCode.None? && row.updatedAt == at)
  }

  lemma MergeMeans(rows: seq<AttachmentRow>, a: Attachment, at: Instant)
    requires DistinctRows(rows)
    ensures MergedFrom(rows, a, at, MergeAttachment(rows, a, at))
  {
    forall k | 0 <= k < |rows| && rows[k].uniqueId == a.uniqueId ensures FindRow(rows, a.uniqueId) == Some(rows[k]) {
      UniqueRow(rows, rows[k]);
    }
  }

  lemma SavedAttachments(t: Tables, d: Draft, expiresAt: Option<Instant>, takenKeys: set<string>)
    requires SchemaOk(t) && Save(t, d, expiresAt, takenKeys).Ok?
    ensures var rows := Save(t, d, expiresAt, takenKeys).value.attachments;
            && |rows| == |d.attachments|
            && forall i {:trigger rows[i]} :: 0 <= i < |rows| ==> MergedFrom(t.attachments, d.attachments[i], d.updatedAt, rows[i])
  {
    forall i | 0 <= i < |d.attachments| ensures MergedFrom(t.attachments, d.attachments[i], d.updatedAt, MergeAttachment(t.attachments, d.attachments[i], d.updatedAt)) {
      MergeMeans(t.attachments, d.attachments[i], d.updatedAt);
    }
  }

  // ---- States and attempts --------------------------------------------------------------

  lemma SwapExactly(t: Tables, expectedRevision: int, target: DraftState, lastError: Option<string>, now: Instant)
    ensures var r := CompareAndSwap(t, expectedRevision, target, lastError, now);
            && (r == Err(BadCode) <==> !SafeCode(lastError))
            && (r == Err(NotFound) <==> SafeCode(lastError) && t.row.None?)
            && (r == Err(Conflict) <==> SafeCode(lastError) && t.row.Some? && t.row.value.revision != expectedRevision)
            && (r == Err(Illegal) <==> && SafeCode(lastError) && t.row.Some? && t.row.value.revision == expectedRevision
                                       && target !in AllowedTargets(t.row.value.state))
            && (r.Ok? <==> && SafeCode(lastError) && t.row.Some? && t.row.value.revision == expectedRevision
                           && target in AllowedTargets(t.row.value.state))
  {}

  /** When a claim is won, what it then stores, and when it is lost. */
  lemma ClaimExactly(t: Tables, a: Attempt)
    ensures var r := ClaimAttempt(t, a);
            var fits := a.status == InProgress && a.completedAt.None? && t.row.Some?;
            var open := t.row.Some? && t.row.value.state in {Submitting, Updating, Attaching};
            var busy := exists i :: 0 <= i < |t.attempts| && t.attempts[i].status == InProgress;
            var taken := exists i :: 0 <= i < |t.attempts| && (t.attempts[i].number == a.number || t.attempts[i].attemptId == a.attemptId);
            && (r.Ok? && r.value.0 <==> fits && open && !busy && !taken)
            && (r.Ok? && r.value.0 ==> r.value.1 == t.(attempts := t.attempts + [a]))
            && (r.Ok? && !r.value.0 <==> fits && (!open || busy))
            && (r.Ok? && !r.value.0 ==> r.value.1 == t)
            && (r == Err(Integrity) <==> fits && open && !busy && taken)
  {}

  /** The status of a stored attempt may stay, be settled, or be settled after a doubt. */
  predicate MayBecome(from: AttemptStatus, to: AttemptStatus) {
    from == to || from == InProgress || (from == Unknown && to in {Succeeded, FailedAttempt})
  }

  lemma FoundIs(attempts: seq<Attempt>, k: nat)
    requires k < |attempts| && forall i, j :: 0 <= i < j < |attempts| ==> attempts[i].attemptId != attempts[j].attemptId
    ensures FindAttempt(attempts, attempts[k].attemptId) == Some(k)
  {}

  /** Attempt identifiers are the primary key. The attempt with the identifier is
      updated exactly if nothing else of its identity differs and its status may
      become the new one. */
  lemma UpdateExactly(t: Tables, a: Attempt, k: nat)
    requires forall i, j :: 0 <= i < j < |t.attempts| ==> t.attempts[i].attemptId != t.attempts[j].attemptId
    requires k < |t.attempts| && t.attempts[k].attemptId == a.attemptId
    ensures var r := UpdateAttempt(t, a);
            && (r.Ok? <==> && (a.status == InProgress || a.completedAt.Some?) && SafeCode(a.errorSummary)
                           && SameIdentity(t.attempts[k], a) && MayBecome(t.attempts[k].status, a.status))
            && (r.Ok? ==> r.value == t.(attempts := t.attempts[k := a]))
  {
    FoundIs(t.attempts, k);
  }

  // ---- Attachment status ----------------------------------------------------------------

  /** The identifier finds the row. */
  lemma {:induction false} RowIndexIs(rows: seq<AttachmentRow>, k: nat)
    requires k < |rows| && DistinctRows(rows)
    ensures RowIndex(rows, rows[k].uniqueId) == Some(k)
  {
    var n := |rows| - 1;
    if k < n {
      assert OtherFile(rows[k], rows[n]);
      forall i, j | 0 <= i < j < n ensures OtherFile(rows[..n][i], rows[..n][j]) { assert OtherFile(rows[i], rows[j]); }
      RowIndexIs(rows[..n], k);
    }
  }

  const MOVES: set<(AttachmentStatus, AttachmentStatus)> :=
    {(Pending, Uploading), (Pending, Skipped), (Uploading, Uploaded), (Uploading, Failed), (Failed, Uploading), (Failed, Skipped)}

  /** The conditional update of one row: a move of the six, with an id if it is to
      `Uploaded`, from the status the row has. */
  lemma StatusExactly(t: Tables, k: nat, expected: AttachmentStatus, target: AttachmentStatus,
                      at: Instant, uploadedId: Option<string>, code: Option<string>)
    requires k < |t.attachments| && DistinctRows(t.attachments)
    ensures var r := SetAttachmentStatus(t, t.attachments[k].uniqueId, expected, target, at, uploadedId, code);
            var row := t.attachments[k];
            && (r.Ok? <==> SafeCode(code) && (expected, target) in MOVES && (target == Uploaded ==> CarriesId(uploadedId)))
            && (r.Ok? ==> (r.value.0 <==> row.status == expected))
            && (r.Ok? && !r.value.0 ==> r.value.1 == t)
            && (r.Ok? && r.value.0 ==>
                  r.value.1 == t.(attachments := t.attachments[k :=
                    AttachmentRow(row.fileId, row.uniqueId, row.kind, row.fileName, row.fileSize, target, uploadedId, code, at)]))
  {
    RowIndexIs(t.attachments, k);
  }

  // ---- The request hash -------------------------------------------------------------------

  /** Two templates have one hash exactly if they agree in everything but how their
      description and criteria make up the text that is sent. */
  lemma SameHashExactly(t: Template, u: Template)
    ensures CanonicalHash(t) == CanonicalHash(u) <==>
            && t.projectKey == u.projectKey && t.issueType == u.issueType && t.summary == u.summary && t.priority == u.priority
            && t.labels == u.labels && t.components == u.components && t.assignee == u.assignee
            && FullDescription(t) == FullDescription(u)
  {
    var a, b := CanonicalDocument(t), CanonicalDocument(u);
    if a == b {
      assert ("assignee" in a) == ("assignee" in b);
      assert a["project"] == b["project"] && a["issuetype"] == b["issuetype"] && a["summary"] == b["summary"];
      assert a["description"] == b["description"] && a["priority"] == b["priority"];
      assert a["labels"] == b["labels"] && a["components"] == b["components"];
      if t.assignee != "" { assert a["assignee"] == b["assignee"]; }
    }
  }

  lemma {:induction false} JoinAppend(separator: string, parts: seq<string>, last: string)
    requires parts != []
    ensures Join(separator, parts + [last]) == Join(separator, parts) + separator + last
  {
    if |parts| == 1 {
      assert (parts + [last])[1..] == [last];
    } else {
      assert (parts + [last])[1..] == parts[1..] + [last];
      JoinAppend(separator, parts[1..], last);
    }
  }

  /** The text that is sent: a heading before the first criterion, a bullet for each. */
  lemma CriterionAdded(t: Template, criterion: string)
    ensures FullDescription(t.(criteria := [])) == t.description
    ensures FullDescription(t.(criteria := t.criteria + [criterion]))
         == FullDescription(t) + (if t.criteria == [] then "\n\nAcceptance Criteria:" else "") + "\n* " + criterion
  {
    var before, after := Bulleted(t.criteria), Bulleted(t.criteria + [criterion]);
    assert after == before + ["* " + criterion];
    if t.criteria != [] {
      JoinAppend("\n", before, "* " + criterion);
      assert "\n" + ("* " + criterion) == "\n* " + criterion;
      var heading := t.description + "\n\nAcceptance Criteria:\n";
      assert heading + (Join("\n", before) + "\n" + ("* " + criterion)) == heading + Join("\n", before) + "\n* " + criterion;
    } else {
      assert after == ["* " + criterion];
      assert t.description + "\n\nAcceptance Criteria:\n" + ("* " + criterion) == t.description + "\n\nAcceptance Criteria:" + "\n* " + criterion;
    }
  }

  /** So criteria moved into the description leave the hash as it was. */
  lemma FoldedCriteria(t: Template)
    ensures CanonicalHash(t.(description := FullDescription(t), criteria := [])) == CanonicalHash(t)
  {}
}
