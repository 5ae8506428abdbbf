/** The durable rows of one draft and the repository's transactions on them.
    Every transaction is a function from the rows before to the rows after or
    a failure that leaves them alone. */
module WorkflowTables {
  import opened Fsm
  import opened Wrappers

  type Result<+T> = Fallible<T, Failure>

  datatype Failure = NotFound | Conflict | Illegal | Integrity | BadIdentity | BadStatus | BadCode

  type Instant = int

  datatype MediaKind = TextMessage | Photo | Document | Video | Voice

  datatype Template = Template(
    projectKey: string, issueType: string, summary: string, description: string, priority: string,
    labels: seq<string>, components: seq<string>, assignee: string, criteria: seq<string>)

  datatype SourceMessage = SourceMessage(messageId: int, chatId: int, senderId: int, text: string, kind: MediaKind, receivedAt: Instant)

  datatype Attachment = Attachment(
    fileId: string, uniqueId: string, kind: MediaKind, fileName: Option<string>, fileSize: Option<int>, uploadedId: Option<string>)

  datatype Issue = Issue(key: string, id: string, url: string, publishedAt: Instant)

  datatype Draft = Draft(
    draftId: string, ownerId: int, chatId: int, threadId: Option<int>, state: DraftState, revision: int,
    template: Option<Template>, messages: seq<SourceMessage>, attachments: seq<Attachment>,
    createdAt: Instant, updatedAt: Instant, published: Option<Issue>, lastError: Option<string>)

  datatype WorkflowRow = WorkflowRow(
    ownerId: int, chatId: int, threadId: Option<int>, state: DraftState, revision: int, template: Option<Template>,
    createdAt: Instant, updatedAt: Instant, expiresAt: Option<Instant>, lastError: Option<string>)

  datatype AttachmentStatus = Pending | Uploading | Uploaded | Failed | Skipped

  datatype AttachmentRow = AttachmentRow(
    fileId: string, uniqueId: string, kind: MediaKind, fileName: Option<string>, fileSize: Option<int>,
    status: AttachmentStatus, uploadedId: Option<string>, errorCode: Option<string>, updatedAt: Instant)

  datatype AttemptStatus = InProgress | Succeeded | FailedAttempt | Unknown

  /** The request hash stands for the canonical document it digests. */
  datatype RequestHash = RequestHash(document: map<string, Field>)
  datatype Field = Text(text: string) | Texts(texts: seq<string>)

  datatype Attempt = Attempt(
    attemptId: string, requestHash: RequestHash, number: int, startedAt: Instant,
    completedAt: Option<Instant>, status: AttemptStatus, errorSummary: Option<string>)

  datatype Tables = Tables(
    row: Option<WorkflowRow>, messages: seq<SourceMessage>, attachments: seq<AttachmentRow>,
    published: Option<Issue>, attempts: seq<Attempt>)

  const NO_TABLES := Tables(None, [], [], None, [])

  // ---- Codes -------------------------------------------------------------

  /** Lower-case letters, digits, `_`, `.` and `-`. */
  predicate SafeCodeChar(c: char) {
    'a' <= c <= 'z' || '0' <= c <= '9' || c == '_' || c == '.' || c == '-'
  }

  predicate SafeCode(code: Option<string>) {
    code.None? || (0 < |code.value| <= 128 && forall i :: 0 <= i < |code.value| ==> SafeCodeChar(code.value[i]))
  }

  // ---- Request hash ------------------------------------------------------

  function Join(separator: string, parts: seq<string>): string {
    if parts == [] then "" else if |parts| == 1 then parts[0] else parts[0] + separator + Join(separator, parts[1..])
  }

  function Bulleted(criteria: seq<string>): seq<string> {
    seq(|criteria|, i requires 0 <= i < |criteria| => "* " + criteria[i])
  }

  /** The description with the criteria listed at its end. */
  function FullDescription(t: Template): string {
    if t.criteria == [] then t.description
    else t.description + "\n\nAcceptance Criteria:\n" + Join("\n", Bulleted(t.criteria))
  }

  function CanonicalDocument(t: Template): map<string, Field> {
    var fields := map[
      "project" := Text(t.projectKey), "issuetype" := Text(t.issueType), "summary" := Text(t.summary),
      "description" := Text(FullDescription(t)), "priority" := Text(t.priority),
      "labels" := Texts(t.labels), "components" := Texts(t.components)];
    if t.assignee == "" then fields else fields["assignee" := Text(t.assignee)]
  }

  function CanonicalHash(t: Template): RequestHash { RequestHash(CanonicalDocument(t)) }

  // ---- Save and load -----------------------------------------------------

  predicate DistinctMessages(messages: seq<SourceMessage>) {
    forall i, j :: 0 <= i < j < |messages| ==>
      messages[i].chatId != messages[j].chatId || messages[i].messageId != messages[j].messageId
  }

  predicate DistinctAttachments(attachments: seq<Attachment>) {
    forall i, j :: 0 <= i < j < |attachments| ==> attachments[i].uniqueId != attachments[j].uniqueId
  }

  /** An id a save takes over as proof of upload: present and not empty. */
  predicate CarriesId(id: Option<string>) { id.Some? && id.value != "" }

  /** The stored row for a file, if there is one. */
  function FindRow(rows: seq<AttachmentRow>, uniqueId: string): (r: Option<AttachmentRow>)
    ensures r.Some? <==> exists i :: 0 <= i < |rows| && rows[i].uniqueId == uniqueId
    ensures r.Some? ==> r.value in rows && r.value.uniqueId == uniqueId
  {
    if rows == [] then None
    else if rows[0].uniqueId == uniqueId then Some(rows[0])
    else FindRow(rows[1..], uniqueId)
  }

  function MergeAttachment(rows: seq<AttachmentRow>, a: Attachment, updatedAt: Instant): AttachmentRow {
    var found := FindRow(rows, a.uniqueId);
    var row := AttachmentRow(a.fileId, a.uniqueId, a.kind, a.fileName, a.fileSize, Pending, None, None, updatedAt);
    if CarriesId(a.uploadedId) then row.(status := Uploaded, uploadedId := a.uploadedId)
    else if found.Some? then
      row.(status := found.value.status, uploadedId := found.value.uploadedId,
             errorCode := found.value.errorCode, updatedAt := found.value.updatedAt)
    else row
  }

  function MergeAttachments(rows: seq<AttachmentRow>, attachments: seq<Attachment>, updatedAt: Instant): seq<AttachmentRow> {
    seq(|attachments|, i requires 0 <= i < |attachments| => MergeAttachment(rows, attachments[i], updatedAt))
  }

  /** `_save_sync`. `takenKeys` are the issue keys published for other drafts. */
  function Save(t: Tables, d: Draft, expiresAt: Option<Instant>, takenKeys: set<string>): Result<Tables> {
    if !SafeCode(d.lastError) then Err(BadCode)
    else if t.row.Some? && t.row.value.revision != d.revision - 1 then Err(Conflict)
    else if t.row.Some? && t.row.value.state != d.state && !TransitionAllowed(t.row.value.state, d.state) then Err(Illegal)
    else if !DistinctMessages(d.messages) || !DistinctAttachments(d.attachments) then Err(Integrity)
    else if d.published.Some? && d.published.value.key in takenKeys then Err(Integrity)
    else
      var expiry := if expiresAt.Some? then expiresAt else if t.row.Some? then t.row.value.expiresAt else None;
      Ok(t.(row := Some(WorkflowRow(d.ownerId, d.chatId, d.threadId, d.state, d.revision, d.template,
                                    d.createdAt, d.updatedAt, expiry, d.lastError)),
            messages := d.messages,
            attachments := MergeAttachments(t.attachments, d.attachments, d.updatedAt),
            published := if d.published.Some? then d.published else if t.row.Some? then t.published else None))
  }

  function LoadAttachment(r: AttachmentRow): Attachment {
    Attachment(r.fileId, r.uniqueId, r.kind, r.fileName, r.fileSize, r.uploadedId)
  }

  /** `_load_draft`. */
  function Load(t: Tables, draftId: string): Option<Draft> {
    if t.row.None? then None else
      var row := t.row.value;
      Some(Draft(draftId, row.ownerId, row.chatId, row.threadId, row.state, row.revision, row.template, t.messages,
                 seq(|t.attachments|, i requires 0 <= i < |t.attachments| => LoadAttachment(t.attachments[i])),
                 row.createdAt, row.updatedAt, t.published, row.lastError))
  }

  // ---- State changes -----------------------------------------------------

  /** `_compare_and_swap_state_sync`. */
  function CompareAndSwap(t: Tables, expectedRevision: int, target: DraftState, lastError: Option<string>, now: Instant): Result<Tables> {
    if !SafeCode(lastError) then Err(BadCode)
    else if t.row.None? then Err(NotFound)
    else
      var row := t.row.value;
      match EvaluateTransition(expectedRevision, row.state, target, row.state, row.revision)
      case Refused(RevisionConflict(_, _)) => Err(Conflict)
      case Refused(_) => Err(Illegal)
      case Moved(_, state, revision) =>
        Ok(t.(row := Some(row.(state := state, revision := revision, updatedAt := now, lastError := lastError,
                               expiresAt := if target in EXPIRABLE_STATES then row.expiresAt else None))))
  }

  /** The rows `_expire_eligible_sync` selects. */
  predicate Due(t: Tables, before: Instant) {
    && t.row.Some? && t.row.value.expiresAt.Some? && t.row.value.expiresAt.value <= before
    && t.row.value.state in EXPIRABLE_STATES
  }

  function Expire(t: Tables, now: Instant): Tables
    requires t.row.Some?
  {
    var row := t.row.value;
    t.(row := Some(row.(state := Expired, revision := row.revision + 1, updatedAt := now, expiresAt := None)))
  }

  // ---- Attempts ----------------------------------------------------------

  predicate HasPending(attempts: seq<Attempt>) {
    exists i :: 0 <= i < |attempts| && attempts[i].status == InProgress
  }

  /** The unique constraints of the attempt table, for one more row. */
  predicate Insertable(attempts: seq<Attempt>, a: Attempt) {
    && !HasPending(attempts)
    && forall i :: 0 <= i < |attempts| ==> attempts[i].number != a.number && attempts[i].attemptId != a.attemptId
  }

  /** `_claim_attempt_sync`: the value says whether the claim was won. */
  function ClaimAttempt(t: Tables, a: Attempt): Result<(bool, Tables)> {
    if a.status != InProgress || a.completedAt.Some? then Err(BadStatus)
    else if t.row.None? then Err(NotFound)
    else if t.row.value.state !in ATTEMPT_CLAIM_STATES then Ok((false, t))
    else if Insertable(t.attempts, a) then Ok((true, t.(attempts := t.attempts + [a])))
    else if HasPending(t.attempts) then Ok((false, t))
    else Err(Integrity)
  }

  predicate StatusMoveAllowed(from: AttemptStatus, to: AttemptStatus) {
    match from
    case InProgress => to in {Succeeded, FailedAttempt, Unknown}
    case Unknown => to in {Succeeded, FailedAttempt}
    case Succeeded => false
    case FailedAttempt => false
  }

  predicate SameIdentity(a: Attempt, b: Attempt) {
    a.attemptId == b.attemptId && a.requestHash == b.requestHash && a.number == b.number && a.startedAt == b.startedAt
  }

  function FindAttempt(attempts: seq<Attempt>, attemptId: string): (r: Option<nat>)
    ensures r.Some? ==> r.value < |attempts| && attempts[r.value].attemptId == attemptId
    ensures r.None? ==> forall i :: 0 <= i < |attempts| ==> attempts[i].attemptId != attemptId
  {
    if attempts == [] then None
    else if attempts[|attempts| - 1].attemptId == attemptId then Some(|attempts| - 1)
    else FindAttempt(attempts[..|attempts| - 1], attemptId)
  }

  /** `_update_attempt_sync`. */
  function UpdateAttempt(t: Tables, a: Attempt): Result<Tables> {
    if a.status != InProgress && a.completedAt.None? then Err(BadStatus)
    else if !SafeCode(a.errorSummary) then Err(BadCode)
    else
      var found := FindAttempt(t.attempts, a.attemptId);
      if found.None? then Err(NotFound)
      else
        var stored := t.attempts[found.value];
        if !SameIdentity(stored, a) then Err(BadIdentity)
        else if a.status != stored.status && !StatusMoveAllowed(stored.status, a.status) then Err(BadStatus)
        else Ok(t.(attempts := t.attempts[found.value := a]))
  }

  /** `ORDER BY attempt_number DESC LIMIT 1`. */
  function LatestAttempt(attempts: seq<Attempt>): (r: Option<Attempt>)
    ensures r.None? <==> attempts == []
    ensures r.Some? ==> r.value in attempts && forall i :: 0 <= i < |attempts| ==> attempts[i].number <= r.value.number
  {
    if attempts == [] then None else
      var n := |attempts| - 1;
      var rest := LatestAttempt(attempts[..n]);
      if rest.Some? && rest.value.number > attempts[n].number then rest else Some(attempts[n])
  }

  // ---- Published issue ---------------------------------------------------

  function StorePublished(t: Tables, issue: Issue, takenKeys: set<string>): Result<Tables> {
    if t.row.None? then Err(NotFound)
    else if issue.key in takenKeys then Err(Integrity)
    else Ok(t.(published := Some(issue)))
  }

  // ---- Attachment status -------------------------------------------------

  predicate AttachmentMoveAllowed(from: AttachmentStatus, to: AttachmentStatus) {
    match from
    case Pending => to in {Uploading, Skipped}
    case Uploading => to in {Uploaded, Failed}
    case Failed => to in {Uploading, Skipped}
    case Uploaded => false
    case Skipped => false
  }

  /** `set_attachment_status`: the value says whether a row was changed. */
  function SetAttachmentStatus(t: Tables, uniqueId: string, expected: AttachmentStatus, target: AttachmentStatus,
                               updatedAt: Instant, uploadedId: Option<string>, code: Option<string>): Result<(bool, Tables)> {
    if !SafeCode(code) then Err(BadCode)
    else if !AttachmentMoveAllowed(expected, target) then Err(Illegal)
    else if target == Uploaded && !CarriesId(uploadedId) then Err(BadIdentity)
    else
      var k := RowIndex(t.attachments, uniqueId);
      if k.None? || t.attachments[k.value].status != expected then Ok((false, t))
      else Ok((true, t.(attachments := t.attachments[k.value :=
        t.attachments[k.value].(status := target, uploadedId := uploadedId, errorCode := code, updatedAt := updatedAt)])))
  }

  function RowIndex(rows: seq<AttachmentRow>, uniqueId: string): (r: Option<nat>)
    ensures r.Some? ==> r.value < |rows| && rows[r.value].uniqueId == uniqueId
    ensures r.None? ==> forall i :: 0 <= i < |rows| ==> rows[i].uniqueId != uniqueId
  {
    if rows == [] then None
    else if rows[|rows| - 1].uniqueId == uniqueId then Some(|rows| - 1)
    else RowIndex(rows[..|rows| - 1], uniqueId)
  }

  // ---- What the transactions keep ----------------------------------------

  /** What the foreign keys and unique constraints of the schema enforce. */
  ghost predicate SchemaOk(t: Tables) {
    && (t.row.None? ==> t == NO_TABLES)
    && DistinctMessages(t.messages)
    && DistinctRows(t.attachments)
    && (forall i, j {:trigger TwoAttempts(t.attempts[i], t.attempts[j])} :: 0 <= i < j < |t.attempts| ==>
          TwoAttempts(t.attempts[i], t.attempts[j]))
  }

  predicate OtherFile(a: AttachmentRow, b: AttachmentRow) { a.uniqueId != b.uniqueId }

  predicate DistinctRows(rows: seq<AttachmentRow>) {
    forall i, j {:trigger OtherFile(rows[i], rows[j])} :: 0 <= i < j < |rows| ==> OtherFile(rows[i], rows[j])
  }

  /** Not both in progress, and numbered differently. */
  predicate TwoAttempts(a: Attempt, b: Attempt) { (a.status != InProgress || b.status != InProgress) && a.number != b.number }

  /** One lifecycle write, seen from the row. */
  predicate RowRevised(before: Tables, after: Tables) {
    && before.row.Some? && after.row.Some?
    && after.row.value.revision == before.row.value.revision + 1
    && Revises(before.row.value.state, after.row.value.state)
  }

  /** A save succeeds only on the revision it was made from, raises it by exactly
      one along a legal edge or in place, and never loses a published issue. */
  lemma SaveRevises(t: Tables, d: Draft, expiresAt: Option<Instant>, takenKeys: set<string>)
    requires t.row.Some? && Save(t, d, expiresAt, takenKeys).Ok?
    ensures var t' := Save(t, d, expiresAt, takenKeys).value;
            && RowRevised(t, t') && t.row.value.revision == d.revision - 1
            && (t.published.Some? ==> t'.published.Some?)
            && t'.attempts == t.attempts
            && t'.row.value.lastError == d.lastError && t'.row.value.updatedAt == d.updatedAt
            && t'.row.value.expiresAt == if expiresAt.Some? then expiresAt else t.row.value.expiresAt
  {}

  lemma SwapRevises(t: Tables, expectedRevision: int, target: DraftState, lastError: Option<string>, now: Instant)
    requires CompareAndSwap(t, expectedRevision, target, lastError, now).Ok?
    ensures var t' := CompareAndSwap(t, expectedRevision, target, lastError, now).value;
            && RowRevised(t, t') && t.row.value.revision == expectedRevision && t'.row.value.state == target
            && TransitionAllowed(t.row.value.state, target)
            && t'.(row := None) == t.(row := None)
            && t'.row.value.template == t.row.value.template
            && t'.row.value.lastError == lastError && t'.row.value.updatedAt == now
            && t'.row.value.expiresAt == (if target in {Collecting, AnalysisFailed, Review, Editing, SubmissionRetryable}
                                          then t.row.value.expiresAt else None)
            && t'.row.value.ownerId == t.row.value.ownerId && t'.row.value.chatId == t.row.value.chatId
            && t'.row.value.threadId == t.row.value.threadId && t'.row.value.createdAt == t.row.value.createdAt
  {}

  /** What loading gives back after a successful save. */
  function Reloaded(t: Tables, d: Draft): Draft {
    d.(attachments := seq(|d.attachments|, i requires 0 <= i < |d.attachments| =>
                            d.attachments[i].(uploadedId := ReloadedId(t, d.attachments[i]))),
       published := if d.published.Some? then d.published else if t.row.Some? then t.published else None)
  }

  function ReloadedId(t: Tables, a: Attachment): Option<string> {
    if CarriesId(a.uploadedId) then a.uploadedId
    else if FindRow(t.attachments, a.uniqueId).Some? then FindRow(t.attachments, a.uniqueId).value.uploadedId
    else None
  }

  /** Save then load: the draft itself, messages and attachments in order, except
      that a stored issue and stored upload ids survive a draft that lacks them. */
  lemma LoadAfterSave(t: Tables, d: Draft, expiresAt: Option<Instant>, takenKeys: set<string>)
    requires Save(t, d, expiresAt, takenKeys).Ok?
    ensures Load(Save(t, d, expiresAt, takenKeys).value, d.draftId) == Some(Reloaded(t, d))
  {
    var loaded := Load(Save(t, d, expiresAt, takenKeys).value, d.draftId).value;
    assert loaded.attachments == Reloaded(t, d).attachments;
  }

  /** Exactly when a save and a load give back the very same draft. */
  lemma ExactRoundTrip(t: Tables, d: Draft, expiresAt: Option<Instant>, takenKeys: set<string>)
    requires Save(t, d, expiresAt, takenKeys).Ok?
    ensures Load(Save(t, d, expiresAt, takenKeys).value, d.draftId) == Some(d) <==>
            && (d.published.None? && t.row.Some? ==> t.published.None?)
            && (forall i {:trigger d.attachments[i]} :: 0 <= i < |d.attachments| && !CarriesId(d.attachments[i].uploadedId) ==>
                  var found := FindRow(t.attachments, d.attachments[i].uniqueId);
                  d.attachments[i].uploadedId == if found.Some? then found.value.uploadedId else None)
  {
    LoadAfterSave(t, d, expiresAt, takenKeys);
    var r := Reloaded(t, d);
    if r == d {
      forall i | 0 <= i < |d.attachments| ensures r.attachments[i] == d.attachments[i] {}
    }
    if forall i {:trigger d.attachments[i]} :: 0 <= i < |d.attachments| ==> ReloadedId(t, d.attachments[i]) == d.attachments[i].uploadedId {
      assert r.attachments == d.attachments;
    }
  }

  ghost predicate Saved(t: Tables, d: Draft, t': Tables) {
    exists expiresAt, takenKeys :: Save(t, d, expiresAt, takenKeys) == Ok(t')
  }

  /** The draft lists the file but does not know that it was uploaded. */
  ghost predicate ListsStale(d: Draft, uniqueId: string) {
    exists i :: 0 <= i < |d.attachments| && d.attachments[i].uniqueId == uniqueId && !CarriesId(d.attachments[i].uploadedId)
  }

  /** A file recorded as uploaded keeps its status and its Jira id across a whole
      series of saves made from drafts that do not know about the upload. */
  lemma {:induction false} UploadSurvivesStaleSaves(ts: seq<Tables>, ds: seq<Draft>, row: AttachmentRow, n: nat) returns (kept: AttachmentRow)
    requires |ts| == |ds| + 1 && n <= |ds| && SchemaOk(ts[0])
    requires forall m {:trigger ds[m]} :: 0 <= m < |ds| ==> Saved(ts[m], ds[m], ts[m + 1]) && ListsStale(ds[m], row.uniqueId)
    requires row in ts[0].attachments && row.status == Uploaded
    ensures SchemaOk(ts[n])
    ensures kept in ts[n].attachments && kept.uniqueId == row.uniqueId
    ensures kept.status == Uploaded && kept.uploadedId == row.uploadedId
  {
    if n == 0 {
      kept := row;
    } else {
      var before := UploadSurvivesStaleSaves(ts, ds, row, n - 1);
      var t, d := ts[n - 1], ds[n - 1];
      assert Saved(t, d, ts[n]) && ListsStale(d, row.uniqueId);
      var e, k :| Save(t, d, e, k) == Ok(ts[n]);
      SaveKeepsSchema(t, d, e, k);
      var i :| 0 <= i < |d.attachments| && d.attachments[i].uniqueId == row.uniqueId && !CarriesId(d.attachments[i].uploadedId);
      UniqueRow(t.attachments, before);
      kept := ts[n].attachments[i];
      assert kept == MergeAttachment(t.attachments, d.attachments[i], d.updatedAt);
    }
  }

  lemma {:induction false} UniqueRow(rows: seq<AttachmentRow>, row: AttachmentRow)
    requires row in rows
    requires DistinctRows(rows)
    ensures FindRow(rows, row.uniqueId) == Some(row)
  {
    var k :| 0 <= k < |rows| && rows[k] == row;
    if k > 0 {
      assert OtherFile(rows[0], rows[k]);
      assert row == rows[1..][k - 1];
      forall i, j | 0 <= i < j < |rows[1..]| ensures OtherFile(rows[1..][i], rows[1..][j]) { assert OtherFile(rows[i + 1], rows[j + 1]); }
      UniqueRow(rows[1..], row);
    }
  }

  lemma SaveKeepsSchema(t: Tables, d: Draft, expiresAt: Option<Instant>, takenKeys: set<string>)
    requires SchemaOk(t) && Save(t, d, expiresAt, takenKeys).Ok?
    ensures SchemaOk(Save(t, d, expiresAt, takenKeys).value)
  {
    var t' := Save(t, d, expiresAt, takenKeys).value;
    forall i, j | 0 <= i < j < |t'.attachments| ensures OtherFile(t'.attachments[i], t'.attachments[j]) {
      assert t'.attachments[i] == MergeAttachment(t.attachments, d.attachments[i], d.updatedAt);
      assert t'.attachments[j] == MergeAttachment(t.attachments, d.attachments[j], d.updatedAt);
    }
  }

  /** Claims keep the ledger's constraints: one attempt in progress, numbers unique. */
  lemma ClaimKeepsSchema(t: Tables, a: Attempt)
    requires SchemaOk(t) && ClaimAttempt(t, a).Ok?
    ensures SchemaOk(ClaimAttempt(t, a).value.1)
  {
    var after := ClaimAttempt(t, a).value.1.attempts;
    forall i, j | 0 <= i < j < |after| ensures TwoAttempts(after[i], after[j]) {
      if j < |t.attempts| { assert TwoAttempts(t.attempts[i], t.attempts[j]); }
    }
  }

  /** Updates keep them too, never touch an attempt's identity, and leave success
      and failure final. */
  lemma UpdateKeepsLedger(t: Tables, a: Attempt)
    requires SchemaOk(t) && UpdateAttempt(t, a).Ok?
    ensures var t' := UpdateAttempt(t, a).value;
            && SchemaOk(t') && |t'.attempts| == |t.attempts|
            && (exists k :: 0 <= k < |t.attempts| && t.attempts[k].attemptId == a.attemptId && t' == t.(attempts := t.attempts[k := a]))
            && forall i {:trigger t.attempts[i]} :: 0 <= i < |t.attempts| ==>
                 && SameIdentity(t.attempts[i], t'.attempts[i])
                 && (t.attempts[i].status in {Succeeded, FailedAttempt} ==> t'.attempts[i].status == t.attempts[i].status)
  {
    var after := UpdateAttempt(t, a).value.attempts;
    forall i, j | 0 <= i < j < |after| ensures TwoAttempts(after[i], after[j]) { assert TwoAttempts(t.attempts[i], t.attempts[j]); }
  }

  lemma StatusKeepsSchema(t: Tables, k: nat, row: AttachmentRow)
    requires SchemaOk(t) && t.row.Some? && k < |t.attachments| && row.uniqueId == t.attachments[k].uniqueId
    ensures SchemaOk(t.(attachments := t.attachments[k := row]))
  {
    var after := t.attachments[k := row];
    forall i, j | 0 <= i < j < |after| ensures OtherFile(after[i], after[j]) { assert OtherFile(t.attachments[i], t.attachments[j]); }
  }
}
