/** The collecting half of the intake service: pending batches, the bounded table
    of recent messages and the deadlines, updated in place. */
module Intake {
  import opened Wrappers
  import opened WorkflowTables
  import opened IntakeSpec

  datatype Receipt = Receipt(draftId: string, batchSize: int, promptCharacters: int, deadlineJob: Job)

  class IntakeService {
    const config: Config
    var pending: map<Scope, Batch>
    var recent: seq<Key>
    var timers: map<Job, int>
    ghost var history: seq<Acceptance>
    ghost var sealed: seq<Sealed>
    ghost var fate: map<string, Fate>

    ghost function View(): State
      reads this
    {
      State(config, pending, recent, timers, history, sealed, fate)
    }

    ghost predicate Valid()
      reads this
    {
      Inv(View())
    }

    constructor (config: Config)
      requires ConfigOk(config)
      ensures Valid() && View() == Init(config)
    {
      this.config := config;
      pending, recent, timers := map[], [], map[];
      history, sealed, fate := [], [], map[];
      new;
      InitInv(config);
    }

    method ValidateAttachment(m: SourceMessage, attachment: Option<Attachment>, taken: set<string>) returns (r: Option<Rejection>)
      ensures r == AttachmentVerdict(config, m, attachment, taken)
      ensures r.None? <==> (m.kind == Photo <==> attachment.Some?)
                           && (attachment.Some? ==> AttachmentOk(config, attachment.value) && attachment.value.uniqueId !in taken)
    {
      if m.kind == Photo && attachment.None? { return Some(PhotoAttachmentMissing); }
      if attachment.None? { return None; }
      var a := attachment.value;
      if m.kind != Photo || a.kind != Photo { return Some(AttachmentIneligible); }
      if a.fileSize.Some? && (a.fileSize.value < 0 || a.fileSize.value > config.maxBytes) { return Some(AttachmentSize); }
      if a.uniqueId in taken { return Some(DuplicateAttachment); }
      return None;
    }

    /** `newId` is the identifier generated if a batch has to be started. */
    method CollectMessage(scope: Scope, m: SourceMessage, attachment: Option<Attachment>, newId: string)
      returns (r: Fallible<Receipt, Rejection>)
      requires Valid() && newId !in fate
      modifies this
      ensures Valid() && View() == Apply(old(View()), Collect(scope, m, attachment, newId))
      ensures match Verdict(old(View()), scope, m, attachment)
              case Some(rejection) => r == Err(rejection) && View() == old(View())
              case None =>
                && r.Ok? && IsCurrent(View(), scope, r.value.deadlineJob)
                && r.value.draftId == pending[scope].draftId && r.value.batchSize == |pending[scope].messages|
                && r.value.promptCharacters == TextSize(pending[scope].messages)
                && timers[r.value.deadlineJob] == if r.value.batchSize == config.maxBatch then 0 else config.windowMillis
      ensures r.Ok? ==> Gathered(pending, scope) == Gathered(old(pending), scope) + [m]
    {
      ghost var before := View();
      var problem := Refusal(scope, m, attachment);
      if problem.Some? { return Err(problem.value); }
      var batch := Accept(scope, m, attachment, if scope in pending then pending[scope] else EmptyBatch(newId));
      assert View() == CollectStep(before, scope, m, attachment, newId);
      AcceptedBatch(before, scope, Acceptance(scope, batch.draftId, m, attachment), newId);
      AcceptedInv(before, scope, m, attachment, newId);
      return Ok(Receipt(batch.draftId, |batch.messages|, batch.characters, batch.job.value));
    }

    /** The checks, in their order; `VerdictMeans` says what passes them. */
    method Refusal(scope: Scope, m: SourceMessage, attachment: Option<Attachment>) returns (problem: Option<Rejection>)
      ensures problem == Verdict(View(), scope, m, attachment)
    {
      if !ScopeOk(scope) { return Some(InvalidScope); }
      if m.chatId != scope.chatId { return Some(ChatMismatch); }
      if Key(scope, m.chatId, m.messageId) in recent { return Some(DuplicateMessage); }
      var batch := if scope in pending then pending[scope] else EmptyBatch("");
      if |batch.messages| >= config.maxBatch { return Some(BatchLimit); }
      if batch.characters + |m.text| > config.maxCharacters { return Some(PromptBudget); }
      problem := ValidateAttachment(m, attachment, batch.attachmentIds);
    }

    method Accept(scope: Scope, m: SourceMessage, attachment: Option<Attachment>, batch: Batch) returns (b: Batch)
      requires Key(scope, m.chatId, m.messageId) !in recent && config.recentLimit >= 0
      modifies this
      ensures b == Extended(batch, m, attachment) && pending == old(pending)[scope := b]
      ensures recent == LastOf(old(recent) + [Key(scope, m.chatId, m.messageId)], config.recentLimit)
      ensures timers == (old(timers) - JobsOf(batch))[b.job.value := Delay(config, b)]
      ensures history == old(history) + [Acceptance(scope, batch.draftId, m, attachment)]
      ensures fate == old(fate)[batch.draftId := Open(scope)] && sealed == old(sealed)
    {
      b := batch.(messages := batch.messages + [m], messageKeys := batch.messageKeys + {(m.chatId, m.messageId)},
                  characters := batch.characters + |m.text|);
      if attachment.Some? {
        b := b.(attachments := b.attachments + [attachment.value], attachmentIds := b.attachmentIds + {attachment.value.uniqueId});
      }
      RememberMessage(Key(scope, m.chatId, m.messageId));
      b := RescheduleDeadline(b);
      pending := pending[scope := b];
      history := history + [Acceptance(scope, batch.draftId, m, attachment)];
      fate := fate[batch.draftId := Open(scope)];
    }

    /** The new key goes to the end; the oldest go until the limit is met. */
    method RememberMessage(key: Key)
      requires key !in recent && config.recentLimit >= 0
      modifies `recent
      ensures recent == LastOf(old(recent) + [key], config.recentLimit)
    {
      ghost var all := recent + [key];
      recent := recent + [key];
      ghost var dropped := 0;
      while |recent| > config.recentLimit
        invariant 0 <= dropped <= |all| && recent == all[dropped..]
        invariant dropped > 0 ==> |recent| >= config.recentLimit
        decreases |recent|
      {
        recent := recent[1..];
        dropped := dropped + 1;
      }
    }

    /** Cancel the deadline set before, and set the next generation's: at once if
        the batch is full. */
    method RescheduleDeadline(batch: Batch) returns (b: Batch)
      modifies `timers
      ensures b == batch.(generation := batch.generation + 1, job := Some(Job(batch.draftId, batch.generation + 1)))
      ensures timers == (old(timers) - JobsOf(batch))[b.job.value := if |b.messages| >= config.maxBatch then 0 else config.windowMillis]
    {
      if batch.job.Some? {
        timers := timers - {batch.job.value};
      }
      b := batch.(generation := batch.generation + 1);
      b := b.(job := Some(Job(b.draftId, b.generation)));
      timers := timers[b.job.value := if |b.messages| >= config.maxBatch then 0 else config.windowMillis];
    }

    method PendingCount(scope: Scope) returns (n: nat)
      requires Valid()
      ensures n == if scope in pending then |MessagesOf(history, pending[scope].draftId)| else 0
    {
      if scope !in pending { return 0; }
      assert BatchOk(config, history, fate, timers, scope, pending[scope]);
      n := |pending[scope].messages|;
    }

    method CancelPending(scope: Scope) returns (cancelled: bool)
      requires Valid()
      modifies this
      ensures Valid() && View() == Apply(old(View()), Cancel(scope))
      ensures cancelled <==> scope in old(pending)
    {
      StepInv(View(), Cancel(scope));
      if scope !in pending { return false; }
      var batch := pending[scope];
      pending := pending - {scope};
      if batch.job.Some? {
        timers := timers - {batch.job.value};
      }
      fate := fate[batch.draftId := Discarded];
      return true;
    }

    method CancelAllPending() returns (count: nat)
      requires Valid()
      modifies this
      ensures Valid() && View() == Apply(old(View()), CancelAll)
      ensures count == |old(pending)| && timers == map[]
    {
      DiscardAllInv(View());
      count := DropAll();
    }

    /** The batches are gone at once; then every deadline is cancelled in turn. */
    method DropAll() returns (count: nat)
      modifies `pending, `timers, `fate
      ensures View() == DiscardAll(old(View())) && count == |old(pending)|
    {
      var batches := pending;
      pending := map[];
      fate := map d | d in fate :: if fate[d].Open? then Discarded else fate[d];
      CancelTimers(batches);
      count := |batches|;
    }

    method CancelTimers(batches: map<Scope, Batch>)
      modifies `timers
      ensures timers == old(timers) - AllJobs(batches)
    {
      var rest := batches;
      while rest.Keys != {}
        invariant timers - AllJobs(rest) == old(timers) - AllJobs(batches)
        decreases |rest|
      {
        var scope :| scope in rest.Keys;
        var b := rest[scope];
        AllJobsSplit(rest, scope);
        if b.job.Some? {
          timers := timers - {b.job.value};
        }
        rest := rest - {scope};
      }
      assert AllJobs(rest) == {};
    }

    lemma AllJobsSplit(batches: map<Scope, Batch>, scope: Scope)
      requires scope in batches
      ensures AllJobs(batches) == AllJobs(batches - {scope}) + JobsOf(batches[scope])
      ensures |batches - {scope}| < |batches|
    {
      var rest := batches - {scope};
      assert batches.Keys == rest.Keys + {scope};
      forall job | job in AllJobs(batches) ensures job in AllJobs(rest) + JobsOf(batches[scope]) {
        var other :| other in batches && batches[other].job == Some(job);
        if other != scope { assert rest[other].job == Some(job); }
      }
      forall job | job in AllJobs(rest) + JobsOf(batches[scope]) ensures job in AllJobs(batches) {
        if job in JobsOf(batches[scope]) {
          assert batches[scope].job == Some(job);
        } else {
          var other :| other in rest && rest[other].job == Some(job);
          assert batches[other].job == Some(job);
        }
      }
    }

    method DetachBatch(scope: Scope, cancelDeadline: bool) returns (batch: Option<Sealed>)
      modifies `pending, `timers
      ensures batch.None? <==> scope !in old(pending)
      ensures batch.None? ==> pending == old(pending) && timers == old(timers)
      ensures batch.Some? ==> batch.value == SealedBatch(scope, old(pending)[scope])
      ensures batch.Some? ==> pending == old(pending) - {scope}
      ensures batch.Some? ==> timers == if cancelDeadline then old(timers) - JobsOf(old(pending)[scope]) else old(timers)
    {
      if scope !in pending { return None; }
      var b := pending[scope];
      pending := pending - {scope};
      if cancelDeadline && b.job.Some? {
        timers := timers - {b.job.value};
      }
      return Some(Sealed(scope, b.draftId, b.messages, b.attachments));
    }

    /** What is returned goes on to be stored and analysed. */
    method FlushScope(scope: Scope) returns (batch: Option<Sealed>)
      requires Valid()
      modifies this
      ensures Valid() && View() == Apply(old(View()), Flush(scope))
      ensures sealed == if batch.Some? then old(sealed) + [batch.value] else old(sealed)
    {
      StepInv(View(), Flush(scope));
      ghost var before := View();
      batch := DetachBatch(scope, true);
      if batch.Some? {
        sealed, fate := sealed + [batch.value], fate[batch.value.draftId := SealedAs(|before.sealed|)];
      }
    }

    /** A deadline callback. The scheduler has already dropped the timer it runs. */
    method DeadlineElapsed(scope: Scope, job: Job) returns (batch: Option<Sealed>)
      requires Valid()
      modifies this
      ensures Valid() && View() == Apply(old(View()), Fire(scope, job))
      ensures batch.Some? <==> IsCurrent(old(View()), scope, job)
      ensures sealed == if batch.Some? then old(sealed) + [batch.value] else old(sealed)
    {
      StepInv(View(), Fire(scope, job));
      ghost var before := View();
      if scope !in pending { return None; }
      var b := pending[scope];
      if b.draftId != job.draftId || b.generation != job.generation || b.job != Some(job) { return None; }
      batch := DetachBatch(scope, false);
      timers := timers - {job};
      sealed, fate := sealed + [batch.value], fate[b.draftId := SealedAs(|before.sealed|)];
    }
  }
}
