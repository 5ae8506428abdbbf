/** The upload loop over the attachment rows of one draft, row by row. */
module AttachmentSpec {
  import opened Wrappers
  import opened WorkflowTables
  import opened Sums

  datatype Policy = Policy(maxCount: int, maxFileBytes: int, maxTotalBytes: int, mimeTypes: set<string>)

  predicate PolicyOk(p: Policy) { p.maxCount > 0 && p.maxFileBytes > 0 && p.maxTotalBytes > 0 && p.mimeTypes != {} }

  const DEFAULT_POLICY := Policy(10, 10 * 1024 * 1024, 25 * 1024 * 1024, {"image/jpeg", "image/png", "image/webp"})

  /** What loading one file and sending it to Jira come to. */
  datatype Transfer =
    | NotLoaded(code: string)
    | Loaded(size: nat, mimeType: string, reply: Reply)
  datatype Reply = Accepted(attachmentId: string) | Declined(code: string)

  predicate TransferOk(t: Transfer) {
    match t
    case NotLoaded(code) => SafeCode(Some(code))
    case Loaded(size, _, Accepted(id)) => size > 0 && id != ""
    case Loaded(size, _, Declined(code)) => size > 0 && SafeCode(Some(code))
  }

  /** The loop's variables, the rows as they are stored by now, and which rows have
      been sent to Jira, in order. */
  datatype Progress = Progress(
    rows: seq<AttachmentRow>, uploaded: nat, failed: nat, skipped: nat, totalBytes: nat, seen: set<string>, sent: seq<nat>)

  function Start(rows: seq<AttachmentRow>): Progress { Progress(rows, 0, 0, 0, 0, {}, []) }

  function Skip(p: Progress, k: nat, code: string, at: Instant): Progress
    requires k < |p.rows|
  {
    if p.rows[k].status == Uploading then p else
      p.(rows := p.rows[k := p.rows[k].(status := Skipped, uploadedId := None, errorCode := Some(code), updatedAt := at)],
         skipped := p.skipped + 1)
  }

  function Fail(p: Progress, k: nat, code: string, at: Instant): Progress
    requires k < |p.rows|
  {
    p.(rows := p.rows[k := p.rows[k].(status := Failed, uploadedId := None, errorCode := Some(code), updatedAt := at)],
       failed := p.failed + 1)
  }

  predicate DeclaredTooBig(policy: Policy, p: Progress, row: AttachmentRow) {
    row.fileSize.Some? && (row.fileSize.value > policy.maxFileBytes || p.totalBytes + row.fileSize.value > policy.maxTotalBytes)
  }

  /** The row is due for the claim. */
  predicate ToBeClaimed(policy: Policy, p: Progress, k: nat)
    requires k < |p.rows|
  {
    && p.rows[k].status !in {Uploaded, Skipped} && p.rows[k].uniqueId !in p.seen && k < policy.maxCount
    && !DeclaredTooBig(policy, p, p.rows[k])
  }

  function Transferred(policy: Policy, p: Progress, k: nat, t: Transfer, at: Instant): Progress
    requires k < |p.rows|
  {
    match t
    case NotLoaded(code) => Fail(p, k, code, at)
    case Loaded(size, mimeType, reply) =>
      if mimeType !in policy.mimeTypes then Fail(p, k, "attachment_type_limit", at)
      else if size > policy.maxFileBytes || p.totalBytes + size > policy.maxTotalBytes then Fail(p, k, "attachment_size_limit", at)
      else
        var asked := p.(sent := p.sent + [k]);
        match reply
        case Declined(code) => Fail(asked, k, code, at)
        case Accepted(id) =>
          asked.(rows := p.rows[k := p.rows[k].(status := Uploaded, uploadedId := Some(id), errorCode := None, updatedAt := at)],
                 uploaded := p.uploaded + 1, totalBytes := p.totalBytes + size)
  }

  /** A row that is new to the loop and within the count. */
  function Attempted(policy: Policy, p: Progress, k: nat, t: Transfer, at: Instant): Progress
    requires k < |p.rows|
  {
    if DeclaredTooBig(policy, p, p.rows[k]) then Skip(p, k, "attachment_size_limit", at) else Transferred(policy, p, k, t, at)
  }

  function Handle(policy: Policy, p: Progress, k: nat, t: Transfer, at: Instant): Progress
    requires k < |p.rows|
  {
    var row := p.rows[k];
    var seen := p.(seen := p.seen + {row.uniqueId});
    if row.status in {Uploaded, Skipped} then seen
    else if row.uniqueId in p.seen then Skip(p, k, "attachment_duplicate", at)
    else if k >= policy.maxCount then Skip(p, k, "attachment_count_limit", at)
    else Attempted(policy, seen, k, t, at)
  }

  /** The first n rows handled. */
  function HandleAll(policy: Policy, rows: seq<AttachmentRow>, transfers: seq<Transfer>, at: Instant, n: nat): (p: Progress)
    requires n <= |rows| == |transfers|
    ensures |p.rows| == |rows|
  {
    if n == 0 then Start(rows) else Handle(policy, HandleAll(policy, rows, transfers, at, n - 1), n - 1, transfers[n - 1], at)
  }

  // ---- What the loop keeps ----------------------------------------------------------

  predicate NoneUploading(rows: seq<AttachmentRow>) { forall i {:trigger rows[i]} :: 0 <= i < |rows| ==> rows[i].status != Uploading }

  function IsOpen(row: AttachmentRow): int { if row.status in {Pending, Failed} then 1 else 0 }
  function IsFailed(row: AttachmentRow): int { if row.status == Failed then 1 else 0 }

  /** Everything but the transfer state. */
  predicate SameFile(row: AttachmentRow, row': AttachmentRow) {
    row' == row.(status := row'.status, uploadedId := row'.uploadedId, errorCode := row'.errorCode, updatedAt := row'.updatedAt)
  }

  /** What became of a row the loop has passed. */
  predicate Passed(row: AttachmentRow, row': AttachmentRow) {
    && SameFile(row, row')
    && row'.status in {Uploaded, Failed, Skipped}
    && (row.status in {Uploaded, Skipped} ==> row' == row)
    && (row'.status == Uploaded && row.status != Uploaded ==> CarriesId(row'.uploadedId))
  }

  function BytesOf(transfers: seq<Transfer>): nat -> int {
    (k: nat) => if k < |transfers| && transfers[k].Loaded? && transfers[k].reply.Accepted? then transfers[k].size else 0
  }

  function AcceptedOf(transfers: seq<Transfer>): nat -> int {
    (k: nat) => if k < |transfers| && transfers[k].Loaded? && transfers[k].reply.Accepted? then 1 else 0
  }

  ghost predicate RowsInv(rows: seq<AttachmentRow>, p: Progress, n: nat) {
    && n <= |rows| == |p.rows|
    && (forall i {:trigger p.rows[i]} :: 0 <= i < n ==> Passed(rows[i], p.rows[i]))
    && (forall i {:trigger p.rows[i]} :: n <= i < |rows| ==> p.rows[i] == rows[i])
    && p.uploaded + p.failed + p.skipped == Sum(rows[..n], IsOpen)
    && p.failed == Sum(p.rows[..n], IsFailed)
  }

  predicate SentInv(policy: Policy, rows: seq<AttachmentRow>, sent: seq<nat>, n: nat)
    requires n <= |rows|
  {
    && |sent| <= policy.maxCount && |sent| <= n
    && (forall i {:trigger sent[i]} :: 0 <= i < |sent| ==> sent[i] < n && IsOpen(rows[sent[i]]) == 1)
    && (forall i, j :: 0 <= i < j < |sent| ==> sent[i] < sent[j])
  }

  ghost predicate BytesInv(policy: Policy, transfers: seq<Transfer>, p: Progress) {
    && p.totalBytes == Sum(p.sent, BytesOf(transfers)) && p.totalBytes <= policy.maxTotalBytes
    && p.uploaded == Sum(p.sent, AcceptedOf(transfers))
  }

  /** Row k is the only one concerned. */
  predicate OneRow(p: Progress, p': Progress, k: nat)
    requires k < |p.rows|
  {
    |p'.rows| == |p.rows| && p'.rows == p.rows[k := p'.rows[k]]
  }

  lemma HandleRow(policy: Policy, p: Progress, k: nat, t: Transfer, at: Instant)
    requires k < |p.rows| && p.rows[k].status != Uploading && TransferOk(t)
    ensures var p' := Handle(policy, p, k, t, at);
            && OneRow(p, p', k) && Passed(p.rows[k], p'.rows[k])
            && p'.uploaded + p'.failed + p'.skipped == p.uploaded + p.failed + p.skipped + IsOpen(p.rows[k])
            && p'.failed == p.failed + IsFailed(p'.rows[k])
            && p.seen <= p'.seen <= p.seen + {p.rows[k].uniqueId}
            && (p'.sent == p.sent || (p'.sent == p.sent + [k] && k < policy.maxCount && IsOpen(p.rows[k]) == 1))
  {}

  lemma HandleBytes(policy: Policy, p: Progress, k: nat, transfers: seq<Transfer>, at: Instant)
    requires k < |p.rows| == |transfers| && BytesInv(policy, transfers, p)
    ensures BytesInv(policy, transfers, Handle(policy, p, k, transfers[k], at))
  {
    SumAppend(p.sent, k, BytesOf(transfers));
    SumAppend(p.sent, k, AcceptedOf(transfers));
  }

  lemma RowsStep(rows: seq<AttachmentRow>, p: Progress, p': Progress, k: nat)
    requires RowsInv(rows, p, k) && k < |rows| && OneRow(p, p', k) && Passed(rows[k], p'.rows[k])
    requires p'.uploaded + p'.failed + p'.skipped == p.uploaded + p.failed + p.skipped + IsOpen(rows[k])
    requires p'.failed == p.failed + IsFailed(p'.rows[k])
    ensures RowsInv(rows, p', k + 1)
  {
    assert rows[..k + 1] == rows[..k] + [rows[k]] && p'.rows[..k + 1] == p.rows[..k] + [p'.rows[k]];
    SumAppend(rows[..k], rows[k], IsOpen);
    SumAppend(p.rows[..k], p'.rows[k], IsFailed);
  }

  lemma SentStep(policy: Policy, rows: seq<AttachmentRow>, sent: seq<nat>, sent': seq<nat>, k: nat)
    requires k < |rows| && SentInv(policy, rows, sent, k)
    requires sent' == sent || (sent' == sent + [k] && k < policy.maxCount && IsOpen(rows[k]) == 1)
    ensures SentInv(policy, rows, sent', k + 1)
  {
    forall i | 0 <= i < |sent'| ensures sent'[i] < k + 1 && IsOpen(rows[sent'[i]]) == 1 {
      if i < |sent| { assert sent'[i] == sent[i]; }
    }
  }

  lemma {:induction false} LoopKeeps(policy: Policy, rows: seq<AttachmentRow>, transfers: seq<Transfer>, at: Instant, n: nat)
    requires PolicyOk(policy) && n <= |rows| == |transfers| && NoneUploading(rows)
    requires forall i {:trigger transfers[i]} :: 0 <= i < |transfers| ==> TransferOk(transfers[i])
    ensures var p := HandleAll(policy, rows, transfers, at, n);
            RowsInv(rows, p, n) && SentInv(policy, rows, p.sent, n) && BytesInv(policy, transfers, p)
  {
    if n > 0 {
      var k := n - 1;
      LoopKeeps(policy, rows, transfers, at, k);
      var p := HandleAll(policy, rows, transfers, at, k);
      assert p.rows[k] == rows[k];
      HandleRow(policy, p, k, transfers[k], at);
      HandleBytes(policy, p, k, transfers, at);
      RowsStep(rows, p, Handle(policy, p, k, transfers[k], at), k);
      SentStep(policy, rows, p.sent, Handle(policy, p, k, transfers[k], at).sent, k);
    }
  }

  lemma HandleIds(policy: Policy, p: Progress, k: nat, t: Transfer, at: Instant)
    requires k < |p.rows|
    ensures var p' := Handle(policy, p, k, t, at);
            && (forall i :: 0 <= i < |p.rows| ==> p'.rows[i].uniqueId == p.rows[i].uniqueId)
            && p'.seen <= p.seen + {p.rows[k].uniqueId}
  {}

  /** The test for a repeated identifier never fires: the loop has seen only earlier
      rows, and the schema keeps the identifiers of one draft apart. */
  lemma {:induction false} NeverADuplicate(policy: Policy, rows: seq<AttachmentRow>, transfers: seq<Transfer>, at: Instant, n: nat, k: nat)
    requires n <= k < |rows| == |transfers| && DistinctRows(rows)
    ensures var p := HandleAll(policy, rows, transfers, at, n);
            (forall i :: 0 <= i < |rows| ==> p.rows[i].uniqueId == rows[i].uniqueId) && rows[k].uniqueId !in p.seen
  {
    if n > 0 {
      NeverADuplicate(policy, rows, transfers, at, n - 1, k);
      HandleIds(policy, HandleAll(policy, rows, transfers, at, n - 1), n - 1, transfers[n - 1], at);
      assert OtherFile(rows[n - 1], rows[k]);
    }
  }

  /** What one call of the loop comes to, for every list of rows none of which is
      in the middle of an upload. */
  lemma LoopResult(policy: Policy, rows: seq<AttachmentRow>, transfers: seq<Transfer>, at: Instant)
    requires PolicyOk(policy) && |rows| == |transfers| && NoneUploading(rows)
    requires forall i {:trigger transfers[i]} :: 0 <= i < |transfers| ==> TransferOk(transfers[i])
    ensures var p := HandleAll(policy, rows, transfers, at, |rows|);
            && p.uploaded + p.failed + p.skipped == Sum(rows, IsOpen)
            && p.failed == Sum(p.rows, IsFailed)
            && (p.failed == 0 <==> forall i :: 0 <= i < |rows| ==> p.rows[i].status != Failed)
            && p.totalBytes == Sum(p.sent, BytesOf(transfers)) && p.totalBytes <= policy.maxTotalBytes
            && p.uploaded == Sum(p.sent, AcceptedOf(transfers)) && |p.sent| <= policy.maxCount
            && (forall i, j :: 0 <= i < j < |p.sent| ==> p.sent[i] < p.sent[j])
            && (forall i {:trigger p.sent[i]} :: 0 <= i < |p.sent| ==> p.sent[i] < |rows| && rows[p.sent[i]].status in {Pending, Failed})
            && (forall i {:trigger p.sent[i]} :: 0 <= i < |p.sent| ==>
                  var t := transfers[p.sent[i]]; t.Loaded? && t.mimeType in policy.mimeTypes && t.size <= policy.maxFileBytes)
            && (forall i {:trigger p.rows[i]} :: 0 <= i < |rows| ==> Passed(rows[i], p.rows[i]))
  {
    SentWasAllowed(policy, rows, transfers, at, |rows|);
    var p := HandleAll(policy, rows, transfers, at, |rows|);
    LoopKeeps(policy, rows, transfers, at, |rows|);
    assert rows[..|rows|] == rows && p.rows[..|rows|] == p.rows;
    SumNonNegative(p.rows, IsFailed);
    if p.failed > 0 {
      var i := SumWitness(p.rows, IsFailed);
    } else {
      forall i | 0 <= i < |rows| ensures p.rows[i].status != Failed { assert IsFailed(p.rows[i]) <= 0; }
    }
  }

  // ---- Row by row ------------------------------------------------------------------------

  /** A row as it is left, apart from the instant. */
  predicate LeftAs(row: AttachmentRow, status: AttachmentStatus, uploadedId: Option<string>, code: Option<string>) {
    row.status == status && row.uploadedId == uploadedId && row.errorCode == code
  }

  /** A file that may go to Jira after so many bytes: loaded, of an allowed type, and
      within both limits by its real size. */
  predicate Sendable(policy: Policy, t: Transfer, bytes: int) {
    && t.Loaded? && t.mimeType in policy.mimeTypes
    && t.size <= policy.maxFileBytes && bytes + t.size <= policy.maxTotalBytes
  }

  /** The declared size already shows that it may not. */
  predicate Oversized(policy: Policy, declared: Option<int>, bytes: int) {
    declared.Some? && (declared.value > policy.maxFileBytes || bytes + declared.value > policy.maxTotalBytes)
  }

  /** What becomes of an open row in its turn, after so many bytes. */
  predicate Fared(policy: Policy, row: AttachmentRow, k: nat, t: Transfer, bytes: int, row': AttachmentRow) {
    if k >= policy.maxCount then LeftAs(row', Skipped, None, Some("attachment_count_limit"))
    else if Oversized(policy, row.fileSize, bytes) then LeftAs(row', Skipped, None, Some("attachment_size_limit"))
    else if t.NotLoaded? then LeftAs(row', Failed, None, Some(t.code))
    else if t.mimeType !in policy.mimeTypes then LeftAs(row', Failed, None, Some("attachment_type_limit"))
    else if !Sendable(policy, t, bytes) then LeftAs(row', Failed, None, Some("attachment_size_limit"))
    else match t.reply
      case Accepted(id) => LeftAs(row', Uploaded, Some(id), None)
      case Declined(code) => LeftAs(row', Failed, None, Some(code))
  }

  lemma TurnOfRow(policy: Policy, p: Progress, k: nat, t: Transfer, at: Instant)
    requires k < |p.rows| && p.rows[k].status in {Pending, Failed} && p.rows[k].uniqueId !in p.seen
    ensures var p' := Handle(policy, p, k, t, at);
            && |p'.rows| == |p.rows| && Fared(policy, p.rows[k], k, t, p.totalBytes, p'.rows[k])
            && p'.sent == (if k < policy.maxCount && !Oversized(policy, p.rows[k].fileSize, p.totalBytes) && Sendable(policy, t, p.totalBytes)
                           then p.sent + [k] else p.sent)
            && p'.totalBytes == p.totalBytes + if p'.sent != p.sent && t.reply.Accepted? then t.size else 0
  {}

  /** A later turn leaves the row alone, and sends no row twice. */
  lemma {:induction false} LaterTurns(policy: Policy, rows: seq<AttachmentRow>, transfers: seq<Transfer>, at: Instant, k: nat, n: nat)
    requires k < n <= |rows| == |transfers|
    ensures var turn, later := HandleAll(policy, rows, transfers, at, k + 1), HandleAll(policy, rows, transfers, at, n);
            later.rows[k] == turn.rows[k] && (k in later.sent <==> k in turn.sent)
    decreases n
  {
    if k + 1 < n { LaterTurns(policy, rows, transfers, at, k, n - 1); }
  }

  lemma {:induction false} SentEarlier(policy: Policy, rows: seq<AttachmentRow>, transfers: seq<Transfer>, at: Instant, n: nat)
    requires n <= |rows| == |transfers|
    ensures forall k :: k in HandleAll(policy, rows, transfers, at, n).sent ==> k < n
  {
    if n > 0 { SentEarlier(policy, rows, transfers, at, n - 1); }
  }

  /** Every open row, for every list of rows none of which is in the middle of an
      upload: how it ends, and that it was sent exactly if it is within the count, not
      declared too big, loaded, of an allowed type, and within both limits after the
      bytes that Jira took before it. */
  lemma RowResult(policy: Policy, rows: seq<AttachmentRow>, transfers: seq<Transfer>, at: Instant, k: nat)
    requires PolicyOk(policy) && k < |rows| == |transfers| && NoneUploading(rows) && DistinctRows(rows)
    requires forall i {:trigger transfers[i]} :: 0 <= i < |transfers| ==> TransferOk(transfers[i])
    requires rows[k].status in {Pending, Failed}
    ensures var before, end := HandleAll(policy, rows, transfers, at, k), HandleAll(policy, rows, transfers, at, |rows|);
            && Fared(policy, rows[k], k, transfers[k], before.totalBytes, end.rows[k])
            && (k in end.sent <==>
                  k < policy.maxCount && !Oversized(policy, rows[k].fileSize, before.totalBytes) && Sendable(policy, transfers[k], before.totalBytes))
            && before.totalBytes == Sum(before.sent, BytesOf(transfers)) && forall i :: i in before.sent ==> i < k
  {
    LoopKeeps(policy, rows, transfers, at, k);
    NeverADuplicate(policy, rows, transfers, at, k, k);
    SentEarlier(policy, rows, transfers, at, k);
    var before := HandleAll(policy, rows, transfers, at, k);
    TurnOfRow(policy, before, k, transfers[k], at);
    LaterTurns(policy, rows, transfers, at, k, |rows|);
  }

  lemma TurnSends(policy: Policy, p: Progress, k: nat, t: Transfer, at: Instant)
    requires k < |p.rows|
    ensures var p' := Handle(policy, p, k, t, at);
            p'.sent == p.sent || (p'.sent == p.sent + [k] && Sendable(policy, t, p.totalBytes))
  {}

  /** Whatever was sent was loaded, of an allowed type and within the size limit. */
  lemma {:induction false} SentWasAllowed(policy: Policy, rows: seq<AttachmentRow>, transfers: seq<Transfer>, at: Instant, n: nat)
    requires n <= |rows| == |transfers|
    ensures forall k :: k in HandleAll(policy, rows, transfers, at, n).sent ==>
              k < |transfers| && transfers[k].Loaded? && transfers[k].mimeType in policy.mimeTypes && transfers[k].size <= policy.maxFileBytes
  {
    if n > 0 {
      SentWasAllowed(policy, rows, transfers, at, n - 1);
      TurnSends(policy, HandleAll(policy, rows, transfers, at, n - 1), n - 1, transfers[n - 1], at);
    }
  }
}
