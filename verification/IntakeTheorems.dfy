/** What intake promises over whole runs, whatever the scheduler does. */
module IntakeTheorems {
  import opened Wrappers
  import opened WorkflowTables
  import opened IntakeSpec

  ghost predicate Follows(s: State, step: Step, s': State) { Enabled(s, step) && s' == Apply(s, step) }

  ghost predicate IsRun(run: seq<State>, steps: seq<Step>) {
    && |run| == |steps| + 1
    && forall n {:trigger Follows(run[n], steps[n], run[n + 1])} :: 0 <= n < |steps| ==> Follows(run[n], steps[n], run[n + 1])
  }

  ghost predicate FullRun(run: seq<State>, steps: seq<Step>, config: Config) {
    ConfigOk(config) && IsRun(run, steps) && run[0] == Init(config)
  }

  lemma StepOf(run: seq<State>, steps: seq<Step>, n: nat)
    requires IsRun(run, steps) && n < |steps|
    ensures Enabled(run[n], steps[n]) && run[n + 1] == Apply(run[n], steps[n])
  {
    assert Follows(run[n], steps[n], run[n + 1]);
  }

  lemma {:induction false} RunInv(run: seq<State>, steps: seq<Step>, config: Config, n: nat)
    requires FullRun(run, steps, config) && n < |run|
    ensures Inv(run[n]) && run[n].config == config
  {
    if n > 0 {
      RunInv(run, steps, config, n - 1);
      StepOf(run, steps, n - 1);
      StepInv(run[n - 1], steps[n - 1]);
    }
  }

  // ---- Conservation -------------------------------------------------------------------

  predicate InPending(s: State, a: Acceptance) {
    && a.scope in s.pending && s.pending[a.scope].draftId == a.draftId
    && s.pending[a.scope].messages == MessagesOf(s.history, a.draftId)
  }

  /** The k-th batch handed on is this message's. */
  predicate InSealed(s: State, a: Acceptance, k: nat) {
    && k < |s.sealed| && s.sealed[k].draftId == a.draftId
    && s.sealed[k].messages == MessagesOf(s.history, a.draftId)
  }

  predicate InDiscarded(s: State, a: Acceptance) { a.draftId in s.fate && s.fate[a.draftId].Discarded? }

  lemma {:induction false} GivenToItsDraft(history: seq<Acceptance>, i: nat)
    requires i < |history|
    ensures history[i].message in MessagesOf(history, history[i].draftId)
  {
    var n := |history| - 1;
    if i < n {
      GivenToItsDraft(history[..n], i);
    } else {
      var d := history[i].draftId;
      assert MessagesOf(history, d)[|MessagesOf(history[..n], d)|] == history[i].message;
    }
  }

  /** Every accepted message is in exactly one of: the pending batch of its scope,
      one batch handed on, a discarded batch; and a batch is exactly the messages
      accepted for its draft, in their order. */
  lemma Conservation(run: seq<State>, steps: seq<Step>, config: Config, n: nat, i: nat)
    requires FullRun(run, steps, config) && n < |run| && i < |run[n].history|
    ensures var s, a := run[n], run[n].history[i];
            && a.message in MessagesOf(s.history, a.draftId)
            && (InPending(s, a) || InDiscarded(s, a) || exists k :: InSealed(s, a, k))
            && (InPending(s, a) ==> !InDiscarded(s, a) && forall k :: !InSealed(s, a, k))
            && (InDiscarded(s, a) ==> forall k :: !InSealed(s, a, k))
            && (forall j, k :: InSealed(s, a, j) && InSealed(s, a, k) ==> j == k)
  {
    RunInv(run, steps, config, n);
    var s, a := run[n], run[n].history[i];
    GivenToItsDraft(s.history, i);
    assert AcceptanceOk(s.config, s.fate, a) && FateOk(s.pending, s.sealed, s.fate, a.draftId);
    forall k | InSealed(s, a, k) ensures s.fate[a.draftId] == SealedAs(k) {
      assert SealedOk(s.config, s.history, s.fate, s.sealed, k);
    }
    if InPending(s, a) { PendingFate(s, a); }
    match s.fate[a.draftId]
    case Open(scope) => assert BatchOk(s.config, s.history, s.fate, s.timers, scope, s.pending[scope]);
    case SealedAs(k) => assert SealedOk(s.config, s.history, s.fate, s.sealed, k) && InSealed(s, a, k);
    case Discarded =>
  }

  lemma PendingFate(s: State, a: Acceptance)
    requires Inv(s) && InPending(s, a)
    ensures a.draftId in s.fate && s.fate[a.draftId] == Open(a.scope)
  {
    assert BatchOk(s.config, s.history, s.fate, s.timers, a.scope, s.pending[a.scope]);
  }

  lemma StepAppends(s: State, step: Step)
    requires Enabled(s, step)
    ensures s.sealed <= Apply(s, step).sealed && s.history <= Apply(s, step).history
  {}

  lemma {:induction false} NothingTakenBack(run: seq<State>, steps: seq<Step>, m: nat, n: nat)
    requires IsRun(run, steps) && m <= n < |run|
    ensures run[m].sealed <= run[n].sealed && run[m].history <= run[n].history
    decreases n
  {
    if m < n {
      NothingTakenBack(run, steps, m, n - 1);
      StepOf(run, steps, n - 1);
      StepAppends(run[n - 1], steps[n - 1]);
    }
  }

  /** What is handed on keeps to the limits, and no draft is handed on twice. */
  lemma SealedOnce(run: seq<State>, steps: seq<Step>, config: Config, n: nat, i: nat)
    requires FullRun(run, steps, config) && n < |run| && i < |run[n].sealed|
    ensures var b := run[n].sealed[i];
            && b.messages == MessagesOf(run[n].history, b.draftId) && 0 < |b.messages| <= config.maxBatch
            && TextSize(b.messages) <= config.maxCharacters && DistinctAttachments(b.attachments)
            && forall j :: 0 <= j < |run[n].sealed| && run[n].sealed[j].draftId == b.draftId ==> j == i
  {
    RunInv(run, steps, config, n);
    var s := run[n];
    assert SealedOk(s.config, s.history, s.fate, s.sealed, i);
    forall j | 0 <= j < |s.sealed| && s.sealed[j].draftId == s.sealed[i].draftId ensures j == i {
      assert SealedOk(s.config, s.history, s.fate, s.sealed, j);
    }
  }

  function Photos(messages: seq<SourceMessage>): nat {
    if messages == [] then 0 else Photos(messages[..|messages| - 1]) + if messages[|messages| - 1].kind == Photo then 1 else 0
  }

  /** What was accepted for one draft: as many attachments as photos, each of them a
      photo within the size limit. */
  lemma {:induction false} OneEachPhoto(c: Config, fate: map<string, Fate>, history: seq<Acceptance>, d: string)
    requires HistoryOk(c, fate, history)
    ensures |AttachmentsOf(history, d)| == Photos(MessagesOf(history, d))
    ensures forall k :: 0 <= k < |AttachmentsOf(history, d)| ==> AttachmentOk(c, AttachmentsOf(history, d)[k])
  {
    if history != [] {
      var n := |history| - 1;
      var front, last := history[..n], history[n];
      assert HistoryOk(c, fate, front) by { assert forall i :: 0 <= i < n ==> front[i] == history[i]; }
      assert AcceptanceOk(c, fate, last);
      OneEachPhoto(c, fate, front, d);
      PhotosGrow(MessagesOf(front, d), last.message);
      assert history == front + [last] && MessagesOf(front, d) + [] == MessagesOf(front, d);
      HistoryGrows(front, last, d);
    }
  }

  lemma PhotosGrow(messages: seq<SourceMessage>, m: SourceMessage)
    ensures Photos(messages + [m]) == Photos(messages) + if m.kind == Photo then 1 else 0
  {
    assert (messages + [m])[..|messages|] == messages;
  }

  /** Over every run, a batch handed on has exactly one attachment for each of its
      photos and none besides, each within the size limit and no file twice: that is
      what the checks on attachments are for. */
  lemma EveryPhotoAttached(run: seq<State>, steps: seq<Step>, config: Config, n: nat, i: nat)
    requires FullRun(run, steps, config) && n < |run| && i < |run[n].sealed|
    ensures var b := run[n].sealed[i];
            && |b.attachments| == Photos(b.messages) && DistinctAttachments(b.attachments)
            && forall k :: 0 <= k < |b.attachments| ==> AttachmentOk(config, b.attachments[k])
  {
    RunInv(run, steps, config, n);
    var s := run[n];
    assert SealedOk(s.config, s.history, s.fate, s.sealed, i);
    OneEachPhoto(s.config, s.fate, s.history, s.sealed[i].draftId);
  }

  // ---- Timers -----------------------------------------------------------------------------

  /** A job name this service has used. */
  predicate Issued(s: State, job: Job) {
    job.draftId in s.fate && 0 < job.generation <= |MessagesOf(s.history, job.draftId)|
  }

  predicate Superseded(s: State, scope: Scope, job: Job) { Issued(s, job) && !IsCurrent(s, scope, job) }

  /** A callback that is current hands on exactly its batch; any other changes
      nothing. */
  lemma CallbackEffect(s: State, scope: Scope, job: Job)
    requires Inv(s)
    ensures !IsCurrent(s, scope, job) ==> Apply(s, Fire(scope, job)) == s
    ensures IsCurrent(s, scope, job) ==>
              var s' := Apply(s, Fire(scope, job));
              var d := job.draftId;
              && s'.sealed == s.sealed + [Sealed(scope, d, MessagesOf(s.history, d), AttachmentsOf(s.history, d))]
              && s'.pending == s.pending - {scope} && s'.history == s.history && s'.recent == s.recent
              && Superseded(s', scope, job)
  {
    if IsCurrent(s, scope, job) {
      assert BatchOk(s.config, s.history, s.fate, s.timers, scope, s.pending[scope]);
    }
  }

  /** Every pending batch has a timer, its own, due at once when it is full and after
      the quiet window otherwise, and nothing else has one. */
  lemma TimersServeBatches(s: State, job: Job)
    requires Inv(s)
    ensures job in s.timers <==> exists scope :: IsCurrent(s, scope, job)
    ensures job in s.timers ==>
              s.timers[job] == if |MessagesOf(s.history, job.draftId)| == s.config.maxBatch then 0 else s.config.windowMillis
  {
    if job in s.timers {
      assert TimerOk(s.pending, s.fate, job);
      var scope := s.fate[job.draftId].scope;
      assert BatchOk(s.config, s.history, s.fate, s.timers, scope, s.pending[scope]);
      assert IsCurrent(s, scope, job);
    }
    if scope :| IsCurrent(s, scope, job) {
      assert BatchOk(s.config, s.history, s.fate, s.timers, scope, s.pending[scope]);
    }
  }

  /** What ends a pending batch, and how: its own deadline or a flush hands it on as it
      is, a cancellation drops it, and nothing else takes it away. */
  lemma Departures(s: State, step: Step, scope: Scope)
    requires Inv(s) && Enabled(s, step) && scope in s.pending && s.pending[scope].job.Some?
    ensures var s', b := Apply(s, step), s.pending[scope];
            var handsOn := step in {Flush(scope), Fire(scope, b.job.value)};
            && (scope !in s'.pending <==> handsOn || step in {Cancel(scope), CancelAll})
            && (handsOn ==> s'.sealed == s.sealed + [Sealed(scope, b.draftId, b.messages, b.attachments)])
            && (scope in s'.pending && !(step.Collect? && step.scope == scope) ==> s'.pending[scope] == b)
            && (step.Cancel? || step.CancelAll? || step.Collect? ==> s'.sealed == s.sealed)
  {
    assert BatchOk(s.config, s.history, s.fate, s.timers, scope, s.pending[scope]);
  }

  lemma SupersededStep(s: State, step: Step, scope: Scope, job: Job)
    requires Inv(s) && Enabled(s, step) && Superseded(s, scope, job)
    ensures Superseded(Apply(s, step), scope, job)
  {
    var s' := Apply(s, step);
    if step.Collect? && Verdict(s, step.scope, step.message, step.attachment).None? {
      var a := s'.history[|s.history|];
      HistoryGrows(s.history, a, job.draftId);
      if scope in s.pending { assert BatchOk(s.config, s.history, s.fate, s.timers, scope, s.pending[scope]); }
    } else if scope in s.pending {
      assert BatchOk(s.config, s.history, s.fate, s.timers, scope, s.pending[scope]);
    }
  }

  /** Another acceptance, a flush, a cancellation, or the callback itself, and the
      deadline set before is superseded. */
  lemma Supersedes(s: State, step: Step, scope: Scope, job: Job)
    requires Inv(s) && Enabled(s, step) && IsCurrent(s, scope, job)
    requires || (step.Collect? && step.scope == scope && Verdict(s, scope, step.message, step.attachment).None?)
             || step in {Flush(scope), Cancel(scope), CancelAll, Fire(scope, job)}
    ensures Superseded(Apply(s, step), scope, job)
  {
    assert BatchOk(s.config, s.history, s.fate, s.timers, scope, s.pending[scope]);
    if step.Collect? {
      HistoryGrows(s.history, Apply(s, step).history[|s.history|], job.draftId);
    }
  }

  /** A superseded deadline changes nothing ever after, cancelled or not, however
      often it runs. */
  lemma {:induction false} StaleForever(run: seq<State>, steps: seq<Step>, config: Config, m: nat, n: nat, scope: Scope, job: Job)
    requires FullRun(run, steps, config) && m <= n < |run| && Superseded(run[m], scope, job)
    ensures Superseded(run[n], scope, job) && Enabled(run[n], Fire(scope, job)) && Apply(run[n], Fire(scope, job)) == run[n]
    decreases n
  {
    RunInv(run, steps, config, n);
    if m < n {
      StaleForever(run, steps, config, m, n - 1, scope, job);
      RunInv(run, steps, config, n - 1);
      StepOf(run, steps, n - 1);
      SupersededStep(run[n - 1], steps[n - 1], scope, job);
    }
    CallbackEffect(run[n], scope, job);
  }

  // ---- Duplicates ----------------------------------------------------------------------------

  /** A message is a duplicate exactly when it is one of the last `recentLimit`
      accepted ones. */
  lemma DuplicateExactly(s: State, scope: Scope, m: SourceMessage, attachment: Option<Attachment>)
    requires Inv(s) && ScopeOk(scope) && m.chatId == scope.chatId
    ensures Verdict(s, scope, m, attachment) == Some(DuplicateMessage) <==>
            exists i :: 0 <= i < |s.history| && |s.history| - i <= s.config.recentLimit && KeyOf(s.history[i]) == Key(scope, m.chatId, m.messageId)
  {
    var key := Key(scope, m.chatId, m.messageId);
    AmongLastExactly(s.history, s.config.recentLimit, key);
    assert Verdict(s, scope, m, attachment) == Some(DuplicateMessage) <==> key in s.recent;
  }

  lemma AmongLastExactly(history: seq<Acceptance>, limit: nat, key: Key)
    ensures key in LastOf(Keys(history), limit) <==>
            exists i :: 0 <= i < |history| && |history| - i <= limit && KeyOf(history[i]) == key
  {
    var recent := LastOf(Keys(history), limit);
    if key in recent {
      var start := if |history| <= limit then 0 else |history| - limit;
      var k :| 0 <= k < |recent| && recent[k] == key;
      assert Keys(history)[start + k] == KeyOf(history[start + k]);
    }
    if i :| 0 <= i < |history| && |history| - i <= limit && KeyOf(history[i]) == key {
      KeyAmongLast(history, i, limit);
    }
  }

  /** So two acceptances of one message have more than `recentLimit` acceptances,
      of whatever scopes, from one to the other. */
  lemma RepeatsAreFar(run: seq<State>, steps: seq<Step>, config: Config, n: nat, i: nat, j: nat)
    requires FullRun(run, steps, config) && n < |run| && i < j < |run[n].history|
    requires KeyOf(run[n].history[i]) == KeyOf(run[n].history[j])
    ensures j - i > config.recentLimit
  {
    RunInv(run, steps, config, n);
  }

  function ScopeNo(n: nat): Scope { Scope(1, n + 1, None) }
  function MessageNo(n: nat): SourceMessage { SourceMessage(1, n + 1, 1, "", TextMessage, 0) }
  function IdNo(n: nat): string { seq(n, _ => 'x') }

  /** One empty text in each of the scopes 0 to n. */
  ghost predicate Scattered(s: State, config: Config, n: nat) {
    Inv(s) && s.config == config && Layout(s.pending, s.history, s.fate, n)
  }

  ghost predicate Layout(pending: map<Scope, Batch>, history: seq<Acceptance>, fate: map<string, Fate>, n: nat) {
    && |history| == n + 1
    && (forall i {:trigger history[i]} :: 0 <= i <= n ==> history[i] == Acceptance(ScopeNo(i), IdNo(i), MessageNo(i), None))
    && (forall scope :: scope in pending ==> scope.chatId <= n + 1)
    && (forall d :: d in fate ==> |d| <= n)
    && ScopeNo(0) in pending && pending[ScopeNo(0)].messages == [MessageNo(0)]
  }

  lemma Grow(run: seq<State>, steps: seq<Step>, config: Config, step: Step) returns (run': seq<State>, steps': seq<Step>)
    requires FullRun(run, steps, config) && Enabled(run[|steps|], step)
    ensures FullRun(run', steps', config) && run'[|steps'|] == Apply(run[|steps|], step)
  {
    run', steps' := run + [Apply(run[|steps|], step)], steps + [step];
    forall n | 0 <= n < |steps'| ensures Follows(run'[n], steps'[n], run'[n + 1]) {
      if n < |steps| { assert Follows(run[n], steps[n], run[n + 1]); }
    }
  }

  function ScatterNo(n: nat): Step { Collect(ScopeNo(n), MessageNo(n), None, IdNo(n)) }

  lemma {:induction false} Scatter(config: Config, n: nat) returns (run: seq<State>, steps: seq<Step>)
    requires ConfigOk(config)
    ensures FullRun(run, steps, config) && Scattered(run[|steps|], config, n)
  {
    if n == 0 {
      ScatterFirst(config);
      run, steps := Grow([Init(config)], [], config, ScatterNo(0));
    } else {
      run, steps := Scatter(config, n - 1);
      ScatterStep(run[|steps|], config, n);
      run, steps := Grow(run, steps, config, ScatterNo(n));
    }
  }

  /** An empty text into a scope without a batch. */
  lemma ScatterEffect(s: State, n: nat)
    requires Enabled(s, ScatterNo(n)) && ScopeNo(n) !in s.pending && Verdict(s, ScopeNo(n), MessageNo(n), None).None?
    ensures var s' := Apply(s, ScatterNo(n));
            && s'.pending == s.pending[ScopeNo(n) := Extended(EmptyBatch(IdNo(n)), MessageNo(n), None)]
            && s'.fate == s.fate[IdNo(n) := Open(ScopeNo(n))] && s'.config == s.config
            && s'.history == s.history + [Acceptance(ScopeNo(n), IdNo(n), MessageNo(n), None)]
  {}

  lemma ScatterFirst(config: Config)
    requires ConfigOk(config)
    ensures Enabled(Init(config), ScatterNo(0)) && Scattered(Apply(Init(config), ScatterNo(0)), config, 0)
  {
    StepInv(Init(config), ScatterNo(0));
    ScatterEffect(Init(config), 0);
  }

  lemma ScatterStep(s: State, config: Config, n: nat)
    requires n > 0 && Scattered(s, config, n - 1)
    ensures Enabled(s, ScatterNo(n)) && Scattered(Apply(s, ScatterNo(n)), config, n)
  {
    assert |IdNo(n)| == n;
    ScatteredFresh(s, config, n);
    StepInv(s, ScatterNo(n));
    ScatterEffect(s, n);
    LayoutGrows(s.pending, s.history, s.fate, n, Extended(EmptyBatch(IdNo(n)), MessageNo(n), None));
  }

  lemma LayoutGrows(pending: map<Scope, Batch>, history: seq<Acceptance>, fate: map<string, Fate>, n: nat, b: Batch)
    requires n > 0 && Layout(pending, history, fate, n - 1)
    ensures Layout(pending[ScopeNo(n) := b], history + [Acceptance(ScopeNo(n), IdNo(n), MessageNo(n), None)],
                   fate[IdNo(n) := Open(ScopeNo(n))], n)
  {}

  /** Where in the history a recent key comes from. */
  lemma RecentAt(s: State, k: nat)
    requires Inv(s) && k < |s.recent|
    ensures |s.recent| <= |s.history| && s.recent[k] == KeyOf(s.history[|s.history| - |s.recent| + k])
  {}

  lemma ScatteredFresh(s: State, config: Config, n: nat)
    requires n > 0 && Scattered(s, config, n - 1)
    ensures Verdict(s, ScopeNo(n), MessageNo(n), None).None? && ScopeNo(n) !in s.pending
  {
    forall k | 0 <= k < |s.recent| ensures s.recent[k] != Key(ScopeNo(n), n + 1, 1) { RecentAt(s, k); }
  }

  /** Within one batch nothing else looks for repeats (`message_keys` is filled and
      never read): whenever a batch may hold two messages, it may hold one message
      twice, once `recentLimit` messages of other scopes have come in between. */
  lemma RepeatInOneBatch(config: Config) returns (run: seq<State>, steps: seq<Step>)
    requires ConfigOk(config) && config.maxBatch >= 2
    ensures FullRun(run, steps, config)
    ensures ScopeNo(0) in run[|steps|].pending && run[|steps|].pending[ScopeNo(0)].messages == [MessageNo(0), MessageNo(0)]
  {
    var limit := config.recentLimit;
    run, steps := Scatter(config, limit);
    var s := run[|steps|];
    assert BatchOk(s.config, s.history, s.fate, s.timers, ScopeNo(0), s.pending[ScopeNo(0)]);
    forall k | 0 <= k < |s.recent| ensures s.recent[k] != Key(ScopeNo(0), 1, 1) { RecentAt(s, k); }
    var step := Collect(ScopeNo(0), MessageNo(0), None, IdNo(limit + 1));
    assert TextSize([MessageNo(0)]) == 0 by { TextSizeGrows([], MessageNo(0)); assert [] + [MessageNo(0)] == [MessageNo(0)]; }
    assert |IdNo(limit + 1)| == limit + 1;
    run, steps := Grow(run, steps, config, step);
  }

  predicate RepeatAt(s: State, scope: Scope, i: nat, j: nat) {
    scope in s.pending && i < j < |s.pending[scope].messages| && s.pending[scope].messages[i] == s.pending[scope].messages[j]
  }

  /** A run that ends with some message twice in a pending batch. */
  ghost predicate Repeats(run: seq<State>, steps: seq<Step>, config: Config) {
    FullRun(run, steps, config) && exists scope, i, j :: RepeatAt(run[|steps|], scope, i, j)
  }

  /** Repeats are possible exactly in the configurations with batches of two or more. */
  lemma RepeatsExactly(config: Config)
    requires ConfigOk(config)
    ensures (exists run, steps :: Repeats(run, steps, config)) <==> config.maxBatch >= 2
  {
    if config.maxBatch >= 2 {
      var run, steps := RepeatInOneBatch(config);
      assert RepeatAt(run[|steps|], ScopeNo(0), 0, 1);
      assert Repeats(run, steps, config);
    }
    forall run: seq<State>, steps: seq<Step> | Repeats(run, steps, config) ensures config.maxBatch >= 2 {
      RunInv(run, steps, config, |steps|);
      var s := run[|steps|];
      var scope, i, j :| RepeatAt(s, scope, i, j);
      assert BatchOk(s.config, s.history, s.fate, s.timers, scope, s.pending[scope]);
    }
  }
}
