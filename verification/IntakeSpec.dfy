/** Collecting messages into batches, one batch at a time for each owner, chat
    and thread, as a transition system. Every operation holds one lock that is
    never held across a suspension, so each is one step. The scheduler is free to
    run any deadline callback at any time, and any number of times. */
module IntakeSpec {
  import opened Wrappers
  import opened WorkflowTables

  datatype Scope = Scope(ownerId: int, chatId: int, threadId: Option<int>)

  predicate ScopeOk(scope: Scope) {
    scope.ownerId > 0 && scope.chatId != 0 && (scope.threadId.Some? ==> scope.threadId.value > 0)
  }

  datatype Config = Config(maxBatch: int, maxCharacters: int, maxBytes: int, recentLimit: int, windowMillis: int)

  predicate ConfigOk(c: Config) {
    0 < c.maxBatch <= c.recentLimit && c.maxCharacters > 0 && c.maxBytes > 0 && c.windowMillis > 0
  }

  const DEFAULTS := Config(20, 32_000, 20 * 1024 * 1024, 2_048, 2_500)

  datatype Key = Key(scope: Scope, chatId: int, messageId: int)

  /** The job name `intake:<draft>:<generation>`. */
  datatype Job = Job(draftId: string, generation: nat)

  datatype Batch = Batch(
    draftId: string, messages: seq<SourceMessage>, attachments: seq<Attachment>, messageKeys: set<(int, int)>,
    attachmentIds: set<string>, characters: int, generation: nat, job: Option<Job>)

  datatype Sealed = Sealed(scope: Scope, draftId: string, messages: seq<SourceMessage>, attachments: seq<Attachment>)

  /** One accepted message and the draft it went to. */
  datatype Acceptance = Acceptance(scope: Scope, draftId: string, message: SourceMessage, attachment: Option<Attachment>)

  datatype Fate = Open(scope: Scope) | SealedAs(index: nat) | Discarded

  /** `history`, `sealed` and `fate` only record what happened: all acceptances in
      order, all batches handed on, and what became of each draft. */
  datatype State = State(
    config: Config,
    pending: map<Scope, Batch>,
    recent: seq<Key>,          // the ordered dictionary of recent messages, oldest first
    timers: map<Job, int>,     // scheduled and not cancelled, with their delays
    history: seq<Acceptance>, sealed: seq<Sealed>, fate: map<string, Fate>)

  datatype Rejection =
    | InvalidScope | ChatMismatch | DuplicateMessage | BatchLimit | PromptBudget
    | PhotoAttachmentMissing | AttachmentIneligible | AttachmentSize | DuplicateAttachment

  datatype Step =
    | Collect(scope: Scope, message: SourceMessage, attachment: Option<Attachment>, newId: string)
    | Fire(scope: Scope, job: Job)   // a deadline callback runs
    | Flush(scope: Scope)
    | Cancel(scope: Scope)
    | CancelAll

  function Init(config: Config): State { State(config, map[], [], map[], [], [], map[]) }

  // ---- Operations ---------------------------------------------------------------

  function KeyOf(a: Acceptance): Key { Key(a.scope, a.message.chatId, a.message.messageId) }

  function AttachmentVerdict(c: Config, m: SourceMessage, attachment: Option<Attachment>, taken: set<string>): Option<Rejection> {
    if attachment.None? then
      if m.kind == Photo then Some(PhotoAttachmentMissing) else None
    else
      var a := attachment.value;
      if m.kind != Photo || a.kind != Photo then Some(AttachmentIneligible)
      else if a.fileSize.Some? && (a.fileSize.value < 0 || a.fileSize.value > c.maxBytes) then Some(AttachmentSize)
      else if a.uniqueId in taken then Some(DuplicateAttachment)
      else None
  }

  function EmptyBatch(draftId: string): Batch { Batch(draftId, [], [], {}, {}, 0, 0, None) }

  function BatchOf(s: State, scope: Scope, newId: string): Batch {
    if scope in s.pending then s.pending[scope] else EmptyBatch(newId)
  }

  /** Why a message is refused, in the order of the checks; None if it is not. */
  function Verdict(s: State, scope: Scope, m: SourceMessage, attachment: Option<Attachment>): Option<Rejection> {
    var b := BatchOf(s, scope, "");
    if !ScopeOk(scope) then Some(InvalidScope)
    else if m.chatId != scope.chatId then Some(ChatMismatch)
    else if Key(scope, m.chatId, m.messageId) in s.recent then Some(DuplicateMessage)
    else if |b.messages| >= s.config.maxBatch then Some(BatchLimit)
    else if b.characters + |m.text| > s.config.maxCharacters then Some(PromptBudget)
    else AttachmentVerdict(s.config, m, attachment, b.attachmentIds)
  }

  function LastOf<T>(items: seq<T>, limit: nat): (r: seq<T>)
    ensures |r| <= limit
  {
    if |items| <= limit then items else items[|items| - limit..]
  }

  function Extended(b: Batch, m: SourceMessage, attachment: Option<Attachment>): Batch {
    var b' := b.(messages := b.messages + [m], messageKeys := b.messageKeys + {(m.chatId, m.messageId)},
                 characters := b.characters + |m.text|,
                 generation := b.generation + 1, job := Some(Job(b.draftId, b.generation + 1)));
    if attachment.None? then b' else
      b'.(attachments := b.attachments + [attachment.value], attachmentIds := b.attachmentIds + {attachment.value.uniqueId})
  }

  function JobsOf(b: Batch): set<Job> { if b.job.Some? then {b.job.value} else {} }

  function Delay(c: Config, b: Batch): int { if |b.messages| >= c.maxBatch then 0 else c.windowMillis }

  function CollectStep(s: State, scope: Scope, m: SourceMessage, attachment: Option<Attachment>, newId: string): State
    requires s.config.recentLimit >= 0
  {
    if Verdict(s, scope, m, attachment).Some? then s else
      var b := BatchOf(s, scope, newId);
      var b' := Extended(b, m, attachment);
      s.(pending := s.pending[scope := b'],
         recent := LastOf(s.recent + [Key(scope, m.chatId, m.messageId)], s.config.recentLimit),
         timers := (s.timers - JobsOf(b))[b'.job.value := Delay(s.config, b')],
         history := s.history + [Acceptance(scope, b.draftId, m, attachment)],
         fate := s.fate[b.draftId := Open(scope)])
  }

  /** The job is the deadline of the batch its scope has now. */
  predicate IsCurrent(s: State, scope: Scope, job: Job) {
    && scope in s.pending && s.pending[scope].draftId == job.draftId
    && s.pending[scope].generation == job.generation && s.pending[scope].job == Some(job)
  }

  function SealedBatch(scope: Scope, b: Batch): Sealed { Sealed(scope, b.draftId, b.messages, b.attachments) }

  /** `_detach_batch_locked`; a timer that has run is no longer scheduled either way. */
  function Detach(s: State, scope: Scope): State
    requires scope in s.pending
  {
    var b := s.pending[scope];
    s.(pending := s.pending - {scope}, timers := s.timers - JobsOf(b),
       sealed := s.sealed + [SealedBatch(scope, b)], fate := s.fate[b.draftId := SealedAs(|s.sealed|)])
  }

  function Discard(s: State, scope: Scope): State
    requires scope in s.pending
  {
    var b := s.pending[scope];
    s.(pending := s.pending - {scope}, timers := s.timers - JobsOf(b), fate := s.fate[b.draftId := Discarded])
  }

  function AllJobs(pending: map<Scope, Batch>): set<Job> {
    set scope | scope in pending && pending[scope].job.Some? :: pending[scope].job.value
  }

  function DiscardAll(s: State): State {
    s.(pending := map[], timers := s.timers - AllJobs(s.pending),
       fate := map d | d in s.fate :: if s.fate[d].Open? then Discarded else s.fate[d])
  }

  /** A generated identifier is new. */
  predicate Enabled(s: State, step: Step) {
    s.config.recentLimit >= 0 && (step.Collect? ==> step.newId !in s.fate)
  }

  function Apply(s: State, step: Step): State
    requires Enabled(s, step)
  {
    match step
    case Collect(scope, m, attachment, newId) => CollectStep(s, scope, m, attachment, newId)
    case Fire(scope, job) => if IsCurrent(s, scope, job) then Detach(s, scope) else s
    case Flush(scope) => if scope in s.pending then Detach(s, scope) else s
    case Cancel(scope) => if scope in s.pending then Discard(s, scope) else s
    case CancelAll => DiscardAll(s)
  }

  // ---- What a draft was given -------------------------------------------------------

  /** The messages accepted for a draft, in order of acceptance. */
  function MessagesOf(history: seq<Acceptance>, d: string): seq<SourceMessage> {
    if history == [] then [] else
      var last := history[|history| - 1];
      MessagesOf(history[..|history| - 1], d) + if last.draftId == d then [last.message] else []
  }

  function AttachmentsOf(history: seq<Acceptance>, d: string): seq<Attachment> {
    if history == [] then [] else
      var last := history[|history| - 1];
      AttachmentsOf(history[..|history| - 1], d)
      + if last.draftId == d && last.attachment.Some? then [last.attachment.value] else []
  }

  function Ids(attachments: seq<Attachment>): set<string> { set i | 0 <= i < |attachments| :: attachments[i].uniqueId }

  function TextSize(messages: seq<SourceMessage>): nat {
    if messages == [] then 0 else TextSize(messages[..|messages| - 1]) + |messages[|messages| - 1].text|
  }

  function Keys(history: seq<Acceptance>): seq<Key> { seq(|history|, i requires 0 <= i < |history| => KeyOf(history[i])) }

  lemma HistoryGrows(history: seq<Acceptance>, a: Acceptance, d: string)
    ensures MessagesOf(history + [a], d) == MessagesOf(history, d) + if a.draftId == d then [a.message] else []
    ensures AttachmentsOf(history + [a], d)
         == AttachmentsOf(history, d) + if a.draftId == d && a.attachment.Some? then [a.attachment.value] else []
  {
    assert (history + [a])[..|history|] == history;
  }

  /** A draft nobody has heard of has been given nothing. */
  lemma {:induction false} Unheard(history: seq<Acceptance>, d: string)
    requires forall i :: 0 <= i < |history| ==> history[i].draftId != d
    ensures MessagesOf(history, d) == [] && AttachmentsOf(history, d) == []
  {
    if history != [] {
      var front := history[..|history| - 1];
      assert forall i :: 0 <= i < |front| ==> front[i] == history[i];
      Unheard(front, d);
    }
  }

  lemma TextSizeGrows(messages: seq<SourceMessage>, m: SourceMessage)
    ensures TextSize(messages + [m]) == TextSize(messages) + |m.text|
  {
    assert (messages + [m])[..|messages|] == messages;
  }

  // ---- Invariant ----------------------------------------------------------------------

  predicate AttachmentOk(c: Config, a: Attachment) {
    a.kind == Photo && (a.fileSize.Some? ==> 0 <= a.fileSize.value <= c.maxBytes)
  }

  predicate AcceptanceOk(c: Config, fate: map<string, Fate>, a: Acceptance) {
    && ScopeOk(a.scope) && a.message.chatId == a.scope.chatId
    && (a.message.kind == Photo <==> a.attachment.Some?)
    && (a.attachment.Some? ==> AttachmentOk(c, a.attachment.value))
    && a.draftId in fate
    && (fate[a.draftId].Open? ==> fate[a.draftId].scope == a.scope)
  }

  predicate HistoryOk(c: Config, fate: map<string, Fate>, history: seq<Acceptance>) {
    forall i {:trigger history[i]} :: 0 <= i < |history| ==> AcceptanceOk(c, fate, history[i])
  }

  /** What a batch may hold, and that it is what was accepted for its draft. */
  predicate ContentOk(c: Config, history: seq<Acceptance>, d: string, messages: seq<SourceMessage>, attachments: seq<Attachment>) {
    && messages == MessagesOf(history, d) && attachments == AttachmentsOf(history, d)
    && 0 < |messages| <= c.maxBatch && TextSize(messages) <= c.maxCharacters
    && DistinctAttachments(attachments)
  }

  predicate BatchOk(c: Config, history: seq<Acceptance>, fate: map<string, Fate>, timers: map<Job, int>, scope: Scope, b: Batch) {
    && ContentOk(c, history, b.draftId, b.messages, b.attachments)
    && b.characters == TextSize(b.messages)
    && b.attachmentIds == Ids(b.attachments)
    && b.generation == |b.messages| && b.job == Some(Job(b.draftId, b.generation))
    && b.draftId in fate && fate[b.draftId] == Open(scope)
    && b.job.value in timers && timers[b.job.value] == Delay(c, b)
  }

  predicate SealedOk(c: Config, history: seq<Acceptance>, fate: map<string, Fate>, sealed: seq<Sealed>, i: nat)
    requires i < |sealed|
  {
    var b := sealed[i];
    && ContentOk(c, history, b.draftId, b.messages, b.attachments)
    && b.draftId in fate && fate[b.draftId] == SealedAs(i)
  }

  predicate FateOk(pending: map<Scope, Batch>, sealed: seq<Sealed>, fate: map<string, Fate>, d: string)
    requires d in fate
  {
    match fate[d]
    case Open(scope) => scope in pending && pending[scope].draftId == d
    case SealedAs(i) => i < |sealed| && sealed[i].draftId == d
    case Discarded => true
  }

  /** A scheduled timer belongs to a pending batch, and is its latest. */
  predicate TimerOk(pending: map<Scope, Batch>, fate: map<string, Fate>, job: Job) {
    && job.draftId in fate && fate[job.draftId].Open?
    && var scope := fate[job.draftId].scope;
       scope in pending && pending[scope].job == Some(job)
  }

  /** The same message is accepted again only after `limit` others. */
  predicate Spaced(history: seq<Acceptance>, limit: int) {
    forall i, j :: 0 <= i < j < |history| && KeyOf(history[i]) == KeyOf(history[j]) ==> j - i > limit
  }

  predicate Inv(s: State) {
    && ConfigOk(s.config)
    && HistoryOk(s.config, s.fate, s.history)
    && Spaced(s.history, s.config.recentLimit)
    && s.recent == LastOf(Keys(s.history), s.config.recentLimit)
    && (forall scope {:trigger s.pending[scope]} :: scope in s.pending ==>
          BatchOk(s.config, s.history, s.fate, s.timers, scope, s.pending[scope]))
    && (forall i: nat {:trigger SealedOk(s.config, s.history, s.fate, s.sealed, i)} :: i < |s.sealed| ==>
          SealedOk(s.config, s.history, s.fate, s.sealed, i))
    && (forall d {:trigger FateOk(s.pending, s.sealed, s.fate, d)} :: d in s.fate ==> FateOk(s.pending, s.sealed, s.fate, d))
    && (forall job {:trigger TimerOk(s.pending, s.fate, job)} :: job in s.timers ==> TimerOk(s.pending, s.fate, job))
  }

  /** The messages of the pending batch, and the files attached to it. */
  function Gathered(pending: map<Scope, Batch>, scope: Scope): seq<SourceMessage> {
    if scope in pending then pending[scope].messages else []
  }

  function FilesOf(pending: map<Scope, Batch>, scope: Scope): set<string> {
    if scope in pending then Ids(pending[scope].attachments) else {}
  }

  /** Exactly what is accepted, and what each refusal says about the message. */
  lemma VerdictMeans(s: State, scope: Scope, m: SourceMessage, attachment: Option<Attachment>)
    requires Inv(s)
    ensures var v := Verdict(s, scope, m, attachment);
            var messages, files := Gathered(s.pending, scope), FilesOf(s.pending, scope);
            && (v.None? <==>
                  && scope.ownerId > 0 && scope.chatId != 0 && (scope.threadId.Some? ==> scope.threadId.value > 0)
                  && m.chatId == scope.chatId && Key(scope, m.chatId, m.messageId) !in s.recent
                  && |messages| < s.config.maxBatch && TextSize(messages) + |m.text| <= s.config.maxCharacters
                  && (m.kind == Photo <==> attachment.Some?)
                  && (attachment.Some? ==>
                        && attachment.value.kind == Photo && attachment.value.uniqueId !in files
                        && (attachment.value.fileSize.Some? ==> 0 <= attachment.value.fileSize.value <= s.config.maxBytes)))
            && (v == Some(InvalidScope) ==>
                  scope.ownerId <= 0 || scope.chatId == 0 || (scope.threadId.Some? && scope.threadId.value <= 0))
            && (v == Some(ChatMismatch) ==> m.chatId != scope.chatId)
            && (v == Some(DuplicateMessage) ==> Key(scope, m.chatId, m.messageId) in s.recent)
            && (v == Some(BatchLimit) ==> |messages| == s.config.maxBatch)
            && (v == Some(PromptBudget) ==> |messages| < s.config.maxBatch && TextSize(messages) + |m.text| > s.config.maxCharacters)
            && (v == Some(PhotoAttachmentMissing) ==> m.kind == Photo && attachment.None?)
            && (v == Some(AttachmentIneligible) ==> attachment.Some? && (m.kind != Photo || attachment.value.kind != Photo))
            && (v == Some(AttachmentSize) ==>
                  attachment.Some? && attachment.value.fileSize.Some?
                  && (attachment.value.fileSize.value < 0 || attachment.value.fileSize.value > s.config.maxBytes))
            && (v == Some(DuplicateAttachment) ==> attachment.Some? && attachment.value.uniqueId in files)
  {
    if scope in s.pending { assert BatchOk(s.config, s.history, s.fate, s.timers, scope, s.pending[scope]); }
  }

  // ---- Preservation ---------------------------------------------------------------------

  lemma InitInv(config: Config)
    requires ConfigOk(config)
    ensures Inv(Init(config))
  {}

  /** What an acceptance does to the draft it goes to. */
  lemma ExtendContent(c: Config, history: seq<Acceptance>, b: Batch, a: Acceptance)
    requires b.messages == MessagesOf(history, b.draftId) && b.attachments == AttachmentsOf(history, b.draftId)
    requires b.characters == TextSize(b.messages) && b.characters + |a.message.text| <= c.maxCharacters && |b.messages| < c.maxBatch
    requires DistinctAttachments(b.attachments)
    requires b.attachmentIds == Ids(b.attachments)
    requires a.draftId == b.draftId && (a.attachment.Some? ==> a.attachment.value.uniqueId !in b.attachmentIds)
    ensures var b' := Extended(b, a.message, a.attachment);
            && ContentOk(c, history + [a], b.draftId, b'.messages, b'.attachments)
            && b'.characters == TextSize(b'.messages)
            && b'.attachmentIds == Ids(b'.attachments)
  {
    var b' := Extended(b, a.message, a.attachment);
    HistoryGrows(history, a, b.draftId);
    TextSizeGrows(b.messages, a.message);
    if a.attachment.Some? { IdsGrow(b.attachments, a.attachment.value); }
  }

  lemma IdsGrow(attachments: seq<Attachment>, a: Attachment)
    ensures Ids(attachments + [a]) == Ids(attachments) + {a.uniqueId}
  {
    var more := attachments + [a];
    forall x | x in Ids(attachments) + {a.uniqueId} ensures x in Ids(more) {
      var i := if x == a.uniqueId then |attachments| else var j :| 0 <= j < |attachments| && attachments[j].uniqueId == x; j;
      assert more[i].uniqueId == x;
    }
  }

  /** An acceptance for one draft leaves what the others were given alone. */
  lemma OtherContent(c: Config, history: seq<Acceptance>, d: string, a: Acceptance)
    requires a.draftId != d
    ensures MessagesOf(history + [a], d) == MessagesOf(history, d) && AttachmentsOf(history + [a], d) == AttachmentsOf(history, d)
  {
    HistoryGrows(history, a, d);
  }

  lemma LastKeysGrow(history: seq<Acceptance>, a: Acceptance, limit: nat)
    ensures LastOf(LastOf(Keys(history), limit) + [KeyOf(a)], limit) == LastOf(Keys(history + [a]), limit)
  {
    assert Keys(history + [a]) == Keys(history) + [KeyOf(a)];
    LastOfAppended(Keys(history), KeyOf(a), limit);
  }

  lemma LastOfAppended<T>(items: seq<T>, x: T, limit: nat)
    ensures LastOf(LastOf(items, limit) + [x], limit) == LastOf(items + [x], limit)
  {
    if |items| >= limit {
      var last, n := LastOf(items, limit), |items| - limit;
      assert last == items[n..];
      assert last + [x] == (items + [x])[n..];
      assert (last + [x])[1..] == (items + [x])[n + 1..];
    }
  }

  lemma KeyAmongLast(history: seq<Acceptance>, i: nat, limit: nat)
    requires i < |history| <= i + limit
    ensures KeyOf(history[i]) in LastOf(Keys(history), limit)
  {
    var start := if |history| <= limit then 0 else |history| - limit;
    assert LastOf(Keys(history), limit)[i - start] == KeyOf(history[i]);
  }

  /** A key that is not among the recent ones is far from its last acceptance. */
  lemma SpacedGrows(history: seq<Acceptance>, a: Acceptance, limit: nat)
    requires Spaced(history, limit) && KeyOf(a) !in LastOf(Keys(history), limit)
    ensures Spaced(history + [a], limit)
  {
    forall i | 0 <= i < |history| && KeyOf(history[i]) == KeyOf(a) ensures |history| - i > limit {
      if |history| - i <= limit { KeyAmongLast(history, i, limit); }
    }
  }

  lemma AcceptedInv(s: State, scope: Scope, m: SourceMessage, attachment: Option<Attachment>, newId: string)
    requires Inv(s) && newId !in s.fate && Verdict(s, scope, m, attachment).None?
    ensures Inv(CollectStep(s, scope, m, attachment, newId))
  {
    var s' := CollectStep(s, scope, m, attachment, newId);
    var b := BatchOf(s, scope, newId);
    var a := Acceptance(scope, b.draftId, m, attachment);
    AcceptedHistory(s, scope, a, newId);
    AcceptedBatch(s, scope, a, newId);
    AcceptedElsewhere(s, scope, a, newId);
    AcceptedTables(s, scope, a, newId);
  }

  lemma AcceptedHistory(s: State, scope: Scope, a: Acceptance, newId: string)
    requires Inv(s) && newId !in s.fate && Verdict(s, scope, a.message, a.attachment).None?
    requires a.scope == scope && a.draftId == BatchOf(s, scope, newId).draftId
    ensures var s' := CollectStep(s, scope, a.message, a.attachment, newId);
            && HistoryOk(s'.config, s'.fate, s'.history) && Spaced(s'.history, s'.config.recentLimit)
            && s'.recent == LastOf(Keys(s'.history), s'.config.recentLimit)
  {
    var s' := CollectStep(s, scope, a.message, a.attachment, newId);
    LastKeysGrow(s.history, a, s.config.recentLimit);
    SpacedGrows(s.history, a, s.config.recentLimit);
    forall i | 0 <= i < |s'.history| ensures AcceptanceOk(s'.config, s'.fate, s'.history[i]) {
      if i < |s.history| {
        assert AcceptanceOk(s.config, s.fate, s.history[i]);
        if s.history[i].draftId == a.draftId { assert BatchOk(s.config, s.history, s.fate, s.timers, scope, s.pending[scope]); }
      }
    }
  }

  /** What holds of the batch a message goes to, an old one or a new one. */
  predicate Growing(c: Config, history: seq<Acceptance>, b: Batch) {
    && b.messages == MessagesOf(history, b.draftId) && b.attachments == AttachmentsOf(history, b.draftId)
    && b.characters == TextSize(b.messages) && DistinctAttachments(b.attachments) && b.attachmentIds == Ids(b.attachments)
    && b.generation == |b.messages| && (b.job.Some? ==> b.job == Some(Job(b.draftId, b.generation)))
  }

  lemma BatchBefore(s: State, scope: Scope, newId: string)
    requires Inv(s) && newId !in s.fate
    ensures Growing(s.config, s.history, BatchOf(s, scope, newId))
  {
    if scope !in s.pending {
      forall i | 0 <= i < |s.history| ensures s.history[i].draftId != newId { assert AcceptanceOk(s.config, s.fate, s.history[i]); }
      Unheard(s.history, newId);
    } else {
      assert BatchOk(s.config, s.history, s.fate, s.timers, scope, s.pending[scope]);
    }
  }

  lemma BatchAfter(c: Config, history: seq<Acceptance>, b: Batch, a: Acceptance, fate: map<string, Fate>, timers: map<Job, int>)
    requires Growing(c, history, b) && a.draftId == b.draftId
    requires b.characters + |a.message.text| <= c.maxCharacters && |b.messages| < c.maxBatch
    requires a.attachment.Some? ==> a.attachment.value.uniqueId !in b.attachmentIds
    requires a.draftId in fate && fate[a.draftId] == Open(a.scope)
    requires var b' := Extended(b, a.message, a.attachment); b'.job.value in timers && timers[b'.job.value] == Delay(c, b')
    ensures BatchOk(c, history + [a], fate, timers, a.scope, Extended(b, a.message, a.attachment))
  {
    ExtendContent(c, history, b, a);
  }

  /** The batch that took the message. */
  lemma AcceptedBatch(s: State, scope: Scope, a: Acceptance, newId: string)
    requires Inv(s) && newId !in s.fate && Verdict(s, scope, a.message, a.attachment).None?
    requires a.scope == scope && a.draftId == BatchOf(s, scope, newId).draftId
    ensures var s' := CollectStep(s, scope, a.message, a.attachment, newId);
            BatchOk(s'.config, s'.history, s'.fate, s'.timers, scope, s'.pending[scope])
  {
    BatchBefore(s, scope, newId);
    var s' := CollectStep(s, scope, a.message, a.attachment, newId);
    BatchAfter(s.config, s.history, BatchOf(s, scope, newId), a, s'.fate, s'.timers);
  }

  lemma OtherBatchStays(c: Config, history: seq<Acceptance>, fate: map<string, Fate>, timers: map<Job, int>, scope: Scope, b: Batch,
                        a: Acceptance, fate': map<string, Fate>, timers': map<Job, int>)
    requires BatchOk(c, history, fate, timers, scope, b) && a.draftId != b.draftId
    requires b.draftId in fate' && fate'[b.draftId] == fate[b.draftId]
    requires b.job.value in timers' && timers'[b.job.value] == timers[b.job.value]
    ensures BatchOk(c, history + [a], fate', timers', scope, b)
  {
    OtherContent(c, history, b.draftId, a);
  }

  /** The other batches, pending and sealed. */
  lemma AcceptedElsewhere(s: State, scope: Scope, a: Acceptance, newId: string)
    requires Inv(s) && newId !in s.fate && Verdict(s, scope, a.message, a.attachment).None?
    requires a.scope == scope && a.draftId == BatchOf(s, scope, newId).draftId
    ensures var s' := CollectStep(s, scope, a.message, a.attachment, newId);
            forall other {:trigger s'.pending[other]} :: other in s.pending && other != scope ==>
              BatchOk(s'.config, s'.history, s'.fate, s'.timers, other, s'.pending[other])
    ensures var s' := CollectStep(s, scope, a.message, a.attachment, newId);
            forall i: nat {:trigger SealedOk(s'.config, s'.history, s'.fate, s'.sealed, i)} :: i < |s'.sealed| ==>
              SealedOk(s'.config, s'.history, s'.fate, s'.sealed, i)
  {
    var s' := CollectStep(s, scope, a.message, a.attachment, newId);
    if scope in s.pending { assert BatchOk(s.config, s.history, s.fate, s.timers, scope, s.pending[scope]); }
    forall other | other in s.pending && other != scope
      ensures BatchOk(s'.config, s'.history, s'.fate, s'.timers, other, s'.pending[other])
    {
      AcceptedForOther(s, scope, a, newId, other);
    }
    forall i: nat | i < |s'.sealed| ensures SealedOk(s'.config, s'.history, s'.fate, s'.sealed, i) {
      assert SealedOk(s.config, s.history, s.fate, s.sealed, i);
      OtherContent(s.config, s.history, s.sealed[i].draftId, a);
    }
  }

  lemma AcceptedForOther(s: State, scope: Scope, a: Acceptance, newId: string, other: Scope)
    requires Inv(s) && newId !in s.fate && Verdict(s, scope, a.message, a.attachment).None?
    requires a.scope == scope && a.draftId == BatchOf(s, scope, newId).draftId && other in s.pending && other != scope
    ensures var s' := CollectStep(s, scope, a.message, a.attachment, newId);
            BatchOk(s'.config, s'.history, s'.fate, s'.timers, other, s'.pending[other])
  {
    var s' := CollectStep(s, scope, a.message, a.attachment, newId);
    var b := s.pending[other];
    assert BatchOk(s.config, s.history, s.fate, s.timers, other, b);
    if scope in s.pending { assert BatchOk(s.config, s.history, s.fate, s.timers, scope, s.pending[scope]); }
    OtherBatchStays(s.config, s.history, s.fate, s.timers, other, b, a, s'.fate, s'.timers);
  }

  lemma AcceptedTables(s: State, scope: Scope, a: Acceptance, newId: string)
    requires Inv(s) && newId !in s.fate && Verdict(s, scope, a.message, a.attachment).None?
    requires a.scope == scope && a.draftId == BatchOf(s, scope, newId).draftId
    ensures var s' := CollectStep(s, scope, a.message, a.attachment, newId);
            && (forall d {:trigger FateOk(s'.pending, s'.sealed, s'.fate, d)} :: d in s'.fate ==> FateOk(s'.pending, s'.sealed, s'.fate, d))
            && (forall job {:trigger TimerOk(s'.pending, s'.fate, job)} :: job in s'.timers ==> TimerOk(s'.pending, s'.fate, job))
  {
    var s' := CollectStep(s, scope, a.message, a.attachment, newId);
    if scope in s.pending { assert BatchOk(s.config, s.history, s.fate, s.timers, scope, s.pending[scope]); }
    forall d | d in s'.fate ensures FateOk(s'.pending, s'.sealed, s'.fate, d) {
      if d != a.draftId { assert FateOk(s.pending, s.sealed, s.fate, d); }
    }
    forall job | job in s'.timers ensures TimerOk(s'.pending, s'.fate, job) {
      if job != s'.pending[scope].job.value { assert TimerOk(s.pending, s.fate, job); }
    }
  }

  /** One batch taken out of the table, whatever becomes of it. */
  lemma RemovedInv(s: State, scope: Scope, s': State, end: Fate)
    requires Inv(s) && scope in s.pending && !end.Open?
    requires s' == s.(pending := s.pending - {scope}, timers := s.timers - JobsOf(s.pending[scope]),
                      fate := s.fate[s.pending[scope].draftId := end], sealed := s'.sealed)
    requires s'.sealed == s.sealed || (s'.sealed == s.sealed + [SealedBatch(scope, s.pending[scope])] && end == SealedAs(|s.sealed|))
    requires end.SealedAs? ==> s'.sealed != s.sealed
    ensures Inv(s')
  {
    var b := s.pending[scope];
    assert BatchOk(s.config, s.history, s.fate, s.timers, scope, b);
    forall i | 0 <= i < |s'.history| ensures AcceptanceOk(s'.config, s'.fate, s'.history[i]) {
      assert AcceptanceOk(s.config, s.fate, s.history[i]);
    }
    forall other | other in s'.pending ensures BatchOk(s'.config, s'.history, s'.fate, s'.timers, other, s'.pending[other]) {
      assert BatchOk(s.config, s.history, s.fate, s.timers, other, s.pending[other]);
    }
    forall i: nat | i < |s'.sealed| ensures SealedOk(s'.config, s'.history, s'.fate, s'.sealed, i) {
      if i < |s.sealed| { assert SealedOk(s.config, s.history, s.fate, s.sealed, i); }
    }
    forall d | d in s'.fate ensures FateOk(s'.pending, s'.sealed, s'.fate, d) {
      assert FateOk(s.pending, s.sealed, s.fate, d);
    }
    forall job | job in s'.timers ensures TimerOk(s'.pending, s'.fate, job) {
      assert TimerOk(s.pending, s.fate, job);
    }
  }

  lemma DiscardAllInv(s: State)
    requires Inv(s)
    ensures Inv(DiscardAll(s)) && DiscardAll(s).timers == map[]
  {
    var s' := DiscardAll(s);
    forall job | job in s.timers ensures job in AllJobs(s.pending) { assert TimerOk(s.pending, s.fate, job); }
    forall i | 0 <= i < |s'.history| ensures AcceptanceOk(s'.config, s'.fate, s'.history[i]) {
      assert AcceptanceOk(s.config, s.fate, s.history[i]);
    }
    forall i: nat | i < |s'.sealed| ensures SealedOk(s'.config, s'.history, s'.fate, s'.sealed, i) {
      assert SealedOk(s.config, s.history, s.fate, s.sealed, i);
    }
    forall d | d in s'.fate ensures FateOk(s'.pending, s'.sealed, s'.fate, d) {
      assert FateOk(s.pending, s.sealed, s.fate, d);
    }
  }

  lemma StepInv(s: State, step: Step)
    requires Inv(s) && Enabled(s, step)
    ensures Inv(Apply(s, step))
  {
    match step
    case Collect(scope, m, attachment, newId) =>
      if Verdict(s, scope, m, attachment).None? { AcceptedInv(s, scope, m, attachment, newId); }
    case Fire(scope, job) => if IsCurrent(s, scope, job) { RemovedInv(s, scope, Detach(s, scope), SealedAs(|s.sealed|)); }
    case Flush(scope) => if scope in s.pending { RemovedInv(s, scope, Detach(s, scope), SealedAs(|s.sealed|)); }
    case Cancel(scope) => if scope in s.pending { RemovedInv(s, scope, Discard(s, scope), Discarded); }
    case CancelAll => DiscardAllInv(s);
  }
}
