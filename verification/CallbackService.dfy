/** The callback service over its token store, with no other activity in between:
    issuing the buttons of a preview, and authorizing one press. */
module CallbackService {
  import opened Wrappers
  import opened Fsm
  import opened CallbackGrammar
  import opened CallbackSpec

  datatype Authorization = Allowed(action: Action, draft: Row) | Denied(denial: Denial)

  datatype Button = Button(action: Action, data: string, record: Record)

  datatype IssueError = BadMessageId | NoActions | Refused(error: StoreError)

  /** What a press comes to, and what it leaves of the tokens. */
  function Verdict(rows: Rows, tokens: Tokens, req: Request, now: Instant): Authorization {
    if !req.privateChat then Denied(NotPrivateChat)
    else if Parse(req.data).Err? then Denied(MalformedCallback)
    else
      var pressed := Parse(req.data).value;
      var h := TokenHash(pressed.token);
      if h !in tokens then Denied(UnknownToken)
      else
        var r := tokens[h];
        var row := if r.draftId in rows then Some(rows[r.draftId]) else None;
        var denial := Decide(req, pressed, r, row, now);
        if denial.Some? then Denied(denial.value)
        else if row.None? then Denied(UnknownToken)
        else if SingleUse(r) && !r.oneShot then Denied(TokenConsumed)
        else Allowed(pressed.action, row.value)
  }

  function Spent(tokens: Tokens, req: Request, verdict: Authorization, now: Instant): Tokens {
    if verdict.Allowed? && Parse(req.data).Ok? then Consumed(tokens, TokenHash(Parse(req.data).value.token), now) else tokens
  }

  predicate KeyedByHash(tokens: Tokens) { forall h :: h in tokens ==> tokens[h].hash == h }

  class Service {
    var rows: Rows
    var tokens: Tokens

    constructor (rows: Rows)
      ensures this.rows == rows && tokens == map[]
    {
      this.rows, tokens := rows, map[];
    }

    method StoreCallback(r: Record) returns (problem: Option<StoreError>)
      modifies `tokens
      ensures problem == StoreProblem(rows, old(tokens), r)
      ensures tokens == if problem.None? then old(tokens)[r.hash := r] else old(tokens)
      ensures OneEach(old(tokens)) ==> OneEach(tokens)
    {
      if r.draftId !in rows { return Some(WorkflowNotFound); }
      var row := rows[r.draftId];
      if row.owner != r.owner || row.chat != r.chat || row.thread != r.thread || row.revision != r.revision || row.state != r.state {
        return Some(BindingConflict);
      }
      if r.hash in tokens || !ColumnsOk(r) || Taken(tokens, r) { return Some(RecordConflict); }
      if OneEach(tokens) { NewRecordAlone(tokens, r); }
      tokens := tokens[r.hash := r];
      return None;
    }

    method ConsumeCallback(h: TokenHash, at: Instant) returns (done: bool)
      modifies `tokens
      ensures done <==> Consumable(old(tokens), h, at)
      ensures tokens == Consumed(old(tokens), h, at)
    {
      done := h in tokens && tokens[h].oneShot && tokens[h].consumedAt.None? && tokens[h].expiresAt > at;
      if done {
        tokens := tokens[h := tokens[h].(consumedAt := Some(at))];
      }
    }

    method InvalidatePreviewTokens(draftId: string, at: Instant)
      modifies `tokens
      ensures tokens == Invalidated(old(tokens), draftId, at)
    {
      tokens := map h | h in tokens :: if StillActive(tokens[h], draftId, at) then tokens[h].(expiresAt := at) else tokens[h];
    }

    /** One press; `now` is the clock when it is decided. */
    method Authorize(req: Request, now: Instant) returns (r: Authorization)
      requires req.actor > 0 && req.chat != 0 && KeyedByHash(tokens)
      modifies `tokens
      ensures KeyedByHash(tokens)
      ensures r == Verdict(rows, old(tokens), req, now)
      ensures tokens == Spent(old(tokens), req, r, now)
    {
      if !req.privateChat { return Denied(NotPrivateChat); }
      var parsed := Parse(req.data);
      if parsed.Err? { return Denied(MalformedCallback); }
      var pressed := parsed.value;
      var h := TokenHash(pressed.token);
      if h !in tokens { return Denied(UnknownToken); }
      var record := tokens[h];
      var row := if record.draftId in rows then Some(rows[record.draftId]) else None;
      var denial := Decide(req, pressed, record, row, now);
      if denial.Some? { return Denied(denial.value); }
      if row.None? { return Denied(UnknownToken); }
      if record.oneShot || DefaultOneShot(pressed.action) {
        var consumed := ConsumeCallback(h, now);
        if !consumed { return Denied(TokenConsumed); }
      }
      return Allowed(pressed.action, row.value);
    }

    /** `generated` are the fresh tokens the loop draws, one for each action. The
        draft is one that could be constructed. Each button is stored by itself, so
        the ones before the first that cannot be stored remain. */
    method IssuePreviewButtons(draftId: string, draft: Row, actions: seq<Action>, messageId: int, thread: Option<int>, ttl: int,
                               invalidatePrevious: bool, generated: seq<string>, now: Instant)
      returns (r: Fallible<seq<Button>, IssueError>)
      requires draft.owner > 0 && draft.chat != 0 && draft.revision >= 1
      requires Drawn(tokens, generated) && |generated| == |actions|
      requires KeyedByHash(tokens)
      modifies `tokens
      ensures KeyedByHash(tokens)
      ensures messageId <= 0 ==> r == Err(BadMessageId) && tokens == old(tokens)
      ensures messageId > 0 && actions == [] ==> r == Err(NoActions) && tokens == old(tokens)
      ensures messageId > 0 && actions != [] ==>
                var bound := if thread.Some? then thread else draft.thread;
                var p := Preview(draftId, draft.(thread := bound), messageId, now + ttl);
                var before := if invalidatePrevious then Invalidated(old(tokens), draftId, now) else old(tokens);
                && (r.Ok? <==> IsStored(rows, p) && forall k :: 0 <= k < |actions| ==> Renders(before, p, actions, k))
                && (r.Ok? ==> tokens == WithButtons(before, p, actions, generated, |actions|) && AllIssued(tokens, r.value, actions, generated, p))
                && (!IsStored(rows, p) ==> r == Err(IssueError.Refused(BindingProblem(rows, p))) && tokens == before)
                && (forall h {:trigger tokens[h]} :: h in tokens && h !in before ==> BoundTo(tokens[h], draftId, draft, bound, messageId, now + ttl, actions))
                && (r.Err? && IsStored(rows, p) ==>
                      r == Err(IssueError.Refused(RecordConflict))
                      && exists k :: FirstRefused(before, p, actions, k) && tokens == WithButtons(before, p, actions, generated, k))
    {
      if messageId <= 0 { return Err(BadMessageId); }
      if actions == [] { return Err(NoActions); }
      if invalidatePrevious {
        InvalidatePreviewTokens(draftId, now);
      }
      var bound := if thread.Some? then thread else draft.thread;
      r := StoreButtons(draftId, draft, actions, messageId, bound, now + ttl, generated);
    }

    /** The loop: every button in its own transaction, up to the first that cannot be
        stored. */
    method StoreButtons(draftId: string, draft: Row, actions: seq<Action>, messageId: int, bound: Option<int>, expiresAt: int,
                        generated: seq<string>)
      returns (r: Fallible<seq<Button>, IssueError>)
      requires draft.owner > 0 && draft.chat != 0 && draft.revision >= 1 && messageId > 0 && actions != []
      requires Drawn(tokens, generated) && |generated| == |actions|
      requires KeyedByHash(tokens)
      modifies `tokens
      ensures KeyedByHash(tokens)
      ensures var p := Preview(draftId, draft.(thread := bound), messageId, expiresAt);
              && (r.Ok? <==> IsStored(rows, p) && forall k :: 0 <= k < |actions| ==> Renders(old(tokens), p, actions, k))
              && (r.Ok? ==> tokens == WithButtons(old(tokens), p, actions, generated, |actions|) && AllIssued(tokens, r.value, actions, generated, p))
              && (!IsStored(rows, p) ==> r == Err(IssueError.Refused(BindingProblem(rows, p))) && tokens == old(tokens))
              && (forall h {:trigger tokens[h]} :: h in tokens && h !in old(tokens) ==>
                    BoundTo(tokens[h], draftId, draft, bound, messageId, expiresAt, actions))
              && (r.Err? && IsStored(rows, p) ==>
                    r == Err(IssueError.Refused(RecordConflict))
                    && exists k :: FirstRefused(old(tokens), p, actions, k) && tokens == WithButtons(old(tokens), p, actions, generated, k))
    {
      ghost var p, before := Preview(draftId, draft.(thread := bound), messageId, expiresAt), tokens;
      var issued: seq<Button> := [];
      var i := 0;
      while i < |actions|
        invariant 0 <= i <= |actions|
        invariant Progress(rows, before, tokens, p, actions, generated, issued, i)
      {
        RoundStores(rows, before, p, actions, generated, i);
        var one := IssueButton(draftId, draft, actions[i], messageId, bound, expiresAt, generated[i]);
        if one.Err? {
          RoundRefused(rows, before, tokens, p, actions, generated, issued, i);
          NewRecordsBound(before, p, actions, generated, i);
          return Err(IssueError.Refused(one.failure));
        }
        RoundDone(rows, before, p, actions, generated, issued, i, one.value);
        issued := issued + [one.value];
        i := i + 1;
      }
      AllDone(rows, before, tokens, p, actions, generated, issued);
      NewRecordsBound(before, p, actions, generated, i);
      return Ok(issued);
    }

    /** One round of the loop. */
    method IssueButton(draftId: string, draft: Row, action: Action, messageId: int, thread: Option<int>, expiresAt: int, token: string)
      returns (r: Fallible<Button, StoreError>)
      requires TokenPattern(token)
      modifies `tokens
      ensures var p := Preview(draftId, draft.(thread := thread), messageId, expiresAt);
              var problem := StoreProblem(rows, old(tokens), ButtonRecord(p, action, token));
              && r.Ok? == problem.None?
              && (r.Ok? ==> Printed(r.value, action, token, p) && tokens == old(tokens)[TokenHash(token) := r.value.record])
              && (r.Err? ==> Some(r.failure) == problem && tokens == old(tokens))
    {
      var record := Record(TokenHash(token), draftId, draft.owner, draft.chat, thread, Some(messageId), draft.revision,
                           draft.state, action, expiresAt, DefaultOneShot(action), None);
      var problem := StoreCallback(record);
      if problem.Some? { return Err(problem.value); }
      ActionNames(action);
      EncodeExactly(Code(action), token);
      return Ok(Button(action, Encode(Code(action), token).value, record));
    }
  }

  // ---- The buttons of one preview ----------------------------------------------------

  /** The draft the buttons are for, with the thread they are bound to. */
  datatype Preview = Preview(draftId: string, draft: Row, messageId: int, expiresAt: Instant)

  predicate IsStored(rows: Rows, p: Preview) { p.draftId in rows && rows[p.draftId] == p.draft }

  function BindingProblem(rows: Rows, p: Preview): StoreError { if p.draftId in rows then BindingConflict else WorkflowNotFound }

  predicate Drawn(tokens: Tokens, generated: seq<string>) {
    && (forall i :: 0 <= i < |generated| ==> TokenPattern(generated[i]) && TokenHash(generated[i]) !in tokens)
    && forall i, j :: 0 <= i < j < |generated| ==> generated[i] != generated[j]
  }

  function ButtonRecord(p: Preview, action: Action, token: string): Record {
    Record(TokenHash(token), p.draftId, p.draft.owner, p.draft.chat, p.draft.thread, Some(p.messageId), p.draft.revision,
           p.draft.state, action, p.expiresAt, DefaultOneShot(action), None)
  }

  /** A record, alive or dead, stands for this action on this message already. */
  predicate Standing(tokens: Tokens, p: Preview, action: Action) {
    exists h {:trigger tokens[h]} :: h in tokens && tokens[h].draftId == p.draftId && tokens[h].revision == p.draft.revision
                                     && tokens[h].action == action && tokens[h].message == Some(p.messageId)
  }

  /** The k-th action can have a button: the table knows it, it is not listed before,
      and nothing stands for it. */
  predicate Renders(before: Tokens, p: Preview, actions: seq<Action>, k: nat)
    requires k < |actions|
  {
    Storable(actions[k]) && actions[k] !in actions[..k] && !Standing(before, p, actions[k])
  }

  ghost predicate FirstRefused(before: Tokens, p: Preview, actions: seq<Action>, k: nat) {
    && k < |actions| && !Renders(before, p, actions, k)
    && forall j :: 0 <= j < k ==> Renders(before, p, actions, j)
  }

  /** The table with the first n buttons. */
  function WithButtons(tokens: Tokens, p: Preview, actions: seq<Action>, generated: seq<string>, n: nat): Tokens
    requires n <= |actions| == |generated|
  {
    if n == 0 then tokens
    else WithButtons(tokens, p, actions, generated, n - 1)[TokenHash(generated[n - 1]) := ButtonRecord(p, actions[n - 1], generated[n - 1])]
  }

  /** Nothing stored before changes. */
  lemma {:induction false} BeforeStays(tokens: Tokens, p: Preview, actions: seq<Action>, generated: seq<string>, n: nat, h: TokenHash)
    requires n <= |actions| == |generated| && Drawn(tokens, generated) && h in tokens
    ensures h in WithButtons(tokens, p, actions, generated, n) && WithButtons(tokens, p, actions, generated, n)[h] == tokens[h]
  {
    if n > 0 { BeforeStays(tokens, p, actions, generated, n - 1, h); }
  }

  /** The first n buttons are there. */
  lemma {:induction false} ButtonThere(tokens: Tokens, p: Preview, actions: seq<Action>, generated: seq<string>, n: nat, k: nat)
    requires k < n <= |actions| == |generated| && Drawn(tokens, generated)
    ensures TokenHash(generated[k]) in WithButtons(tokens, p, actions, generated, n)
    ensures WithButtons(tokens, p, actions, generated, n)[TokenHash(generated[k])] == ButtonRecord(p, actions[k], generated[k])
  {
    if k < n - 1 { ButtonThere(tokens, p, actions, generated, n - 1, k); }
  }

  /** And nothing else is. */
  lemma {:induction false} NothingElse(tokens: Tokens, p: Preview, actions: seq<Action>, generated: seq<string>, n: nat, h: TokenHash)
    requires n <= |actions| == |generated| && h in WithButtons(tokens, p, actions, generated, n) && h !in tokens
    ensures exists k :: 0 <= k < n && h == TokenHash(generated[k])
  {
    if n > 0 && h != TokenHash(generated[n - 1]) { NothingElse(tokens, p, actions, generated, n - 1, h); }
  }

  /** Exactly the first n buttons are new, and nothing stored before changes. */
  lemma WithButtonsMeans(tokens: Tokens, p: Preview, actions: seq<Action>, generated: seq<string>, n: nat)
    requires n <= |actions| == |generated| && Drawn(tokens, generated)
    ensures var after := WithButtons(tokens, p, actions, generated, n);
            && (forall h {:trigger h in after} :: h in after && h !in tokens ==> exists k :: 0 <= k < n && h == TokenHash(generated[k]))
            && (forall h {:trigger after[h]} :: h in tokens ==> h in after && after[h] == tokens[h])
            && forall k {:trigger generated[k]} :: 0 <= k < n ==>
                 TokenHash(generated[k]) in after && after[TokenHash(generated[k])] == ButtonRecord(p, actions[k], generated[k])
  {
    var after := WithButtons(tokens, p, actions, generated, n);
    forall h | h in after && h !in tokens ensures exists k :: 0 <= k < n && h == TokenHash(generated[k]) {
      NothingElse(tokens, p, actions, generated, n, h);
    }
    forall h | h in tokens ensures h in after && after[h] == tokens[h] { BeforeStays(tokens, p, actions, generated, n, h); }
    forall k | 0 <= k < n ensures TokenHash(generated[k]) in after && after[TokenHash(generated[k])] == ButtonRecord(p, actions[k], generated[k]) {
      ButtonThere(tokens, p, actions, generated, n, k);
    }
  }

  lemma {:induction false} NotYet(tokens: Tokens, p: Preview, actions: seq<Action>, generated: seq<string>, n: nat, k: nat)
    requires n <= k < |actions| == |generated| && Drawn(tokens, generated)
    ensures TokenHash(generated[k]) !in WithButtons(tokens, p, actions, generated, n)
  {
    if n > 0 { NotYet(tokens, p, actions, generated, n - 1, k); }
  }

  /** One more record stands for its own button and no other. */
  lemma StandingAdded(tokens: Tokens, h: TokenHash, r: Record, p: Preview, action: Action)
    requires h !in tokens
    ensures Standing(tokens[h := r], p, action) <==>
            || Standing(tokens, p, action)
            || (r.draftId == p.draftId && r.revision == p.draft.revision && r.action == action && r.message == Some(p.messageId))
  {
    var after := tokens[h := r];
    assert after[h] == r;
    forall g | g in tokens ensures g in after && after[g] == tokens[g] {}
  }

  /** After n buttons, those n actions are taken and the others are as before. */
  lemma {:induction false} StandingAfter(tokens: Tokens, p: Preview, actions: seq<Action>, generated: seq<string>, n: nat, action: Action)
    requires n <= |actions| == |generated| && Drawn(tokens, generated)
    ensures Standing(WithButtons(tokens, p, actions, generated, n), p, action) <==> Standing(tokens, p, action) || action in actions[..n]
  {
    if n > 0 {
      var before := WithButtons(tokens, p, actions, generated, n - 1);
      StandingAfter(tokens, p, actions, generated, n - 1, action);
      NotYet(tokens, p, actions, generated, n - 1, n - 1);
      StandingAdded(before, TokenHash(generated[n - 1]), ButtonRecord(p, actions[n - 1], generated[n - 1]), p, action);
      assert actions[..n] == actions[..n - 1] + [actions[n - 1]];
    }
  }

  lemma {:induction false} WithButtonsKeyed(tokens: Tokens, p: Preview, actions: seq<Action>, generated: seq<string>, n: nat)
    requires n <= |actions| == |generated| && KeyedByHash(tokens)
    ensures KeyedByHash(WithButtons(tokens, p, actions, generated, n))
  {
    if n > 0 { WithButtonsKeyed(tokens, p, actions, generated, n - 1); }
  }

  /** A round stores its button exactly if the action can have one. */
  lemma RoundStores(rows: Rows, before: Tokens, p: Preview, actions: seq<Action>, generated: seq<string>, i: nat)
    requires i < |actions| == |generated| && Drawn(before, generated)
    requires p.draft.owner > 0 && p.draft.chat != 0 && p.draft.revision >= 1 && p.messageId > 0
    ensures StoreProblem(rows, WithButtons(before, p, actions, generated, i), ButtonRecord(p, actions[i], generated[i]))
            == if p.draftId !in rows then Some(WorkflowNotFound)
               else if rows[p.draftId] != p.draft then Some(BindingConflict)
               else if Renders(before, p, actions, i) then None else Some(RecordConflict)
  {
    var now, r := WithButtons(before, p, actions, generated, i), ButtonRecord(p, actions[i], generated[i]);
    NotYet(before, p, actions, generated, i, i);
    StandingAfter(before, p, actions, generated, i, actions[i]);
    TakenIsStanding(now, p, actions[i], generated[i]);
  }

  /** How far the loop has come after i rounds. */
  predicate Progress(rows: Rows, before: Tokens, tokens: Tokens, p: Preview, actions: seq<Action>, generated: seq<string>,
                     issued: seq<Button>, i: nat)
    requires |generated| == |actions|
  {
    && i <= |actions| && |issued| == i && (i > 0 ==> IsStored(rows, p))
    && (forall k {:trigger Renders(before, p, actions, k)} :: 0 <= k < i ==> Renders(before, p, actions, k))
    && tokens == WithButtons(before, p, actions, generated, i)
    && forall k {:trigger issued[k]} :: 0 <= k < i ==> Printed(issued[k], actions[k], generated[k], p)
  }

  lemma RoundDone(rows: Rows, before: Tokens, p: Preview, actions: seq<Action>, generated: seq<string>, issued: seq<Button>, i: nat, b: Button)
    requires |generated| == |actions| && i < |actions| && IsStored(rows, p) && Renders(before, p, actions, i)
    requires Progress(rows, before, WithButtons(before, p, actions, generated, i), p, actions, generated, issued, i)
    requires Printed(b, actions[i], generated[i], p)
    ensures Progress(rows, before, WithButtons(before, p, actions, generated, i)[TokenHash(generated[i]) := b.record], p, actions, generated,
                     issued + [b], i + 1)
  {}

  lemma RoundRefused(rows: Rows, before: Tokens, tokens: Tokens, p: Preview, actions: seq<Action>, generated: seq<string>, issued: seq<Button>,
                     i: nat)
    requires |generated| == |actions| && i < |actions| && Progress(rows, before, tokens, p, actions, generated, issued, i)
    requires KeyedByHash(before)
    ensures KeyedByHash(tokens)
    ensures !IsStored(rows, p) ==> tokens == before
    ensures !Renders(before, p, actions, i) ==>
              exists k :: FirstRefused(before, p, actions, k) && tokens == WithButtons(before, p, actions, generated, k)
  {
    WithButtonsKeyed(before, p, actions, generated, i);
    assert !Renders(before, p, actions, i) ==> FirstRefused(before, p, actions, i);
  }

  lemma AllDone(rows: Rows, before: Tokens, tokens: Tokens, p: Preview, actions: seq<Action>, generated: seq<string>, issued: seq<Button>)
    requires |generated| == |actions| && Progress(rows, before, tokens, p, actions, generated, issued, |actions|)
    requires KeyedByHash(before) && Drawn(before, generated)
    ensures KeyedByHash(tokens)
    ensures AllIssued(tokens, issued, actions, generated, p)
  {
    WithButtonsKeyed(before, p, actions, generated, |actions|);
    forall k | 0 <= k < |actions| ensures Issued(tokens, issued[k], actions[k], generated[k], p) {
      ButtonThere(before, p, actions, generated, |actions|, k);
    }
  }

  lemma TakenIsStanding(tokens: Tokens, p: Preview, action: Action, token: string)
    requires p.messageId > 0
    ensures Taken(tokens, ButtonRecord(p, action, token)) <==> Standing(tokens, p, action)
  {}

  /** The text of a button parses back to its action and token. */
  predicate Printed(b: Button, action: Action, token: string, p: Preview) {
    && Parse(Some(b.data)) == Ok(Parsed(action, token)) && |b.data| <= MAX_LENGTH
    && b.action == action && b.record == ButtonRecord(p, action, token)
  }

  /** A button as it leaves the service. */
  predicate Issued(tokens: Tokens, b: Button, action: Action, token: string, p: Preview) {
    Printed(b, action, token, p) && TokenHash(token) in tokens && tokens[TokenHash(token)] == b.record
  }

  /** What a record of a new button says, field by field: whose it is, where and for
      which revision it may be pressed, and how long. */
  predicate BoundTo(r: Record, draftId: string, draft: Row, bound: Option<int>, messageId: int, expiresAt: Instant, actions: seq<Action>) {
    && r.draftId == draftId && r.owner == draft.owner && r.chat == draft.chat && r.thread == bound && r.message == Some(messageId)
    && r.revision == draft.revision && r.state == draft.state && r.action in actions && r.expiresAt == expiresAt && r.consumedAt.None?
    && (r.oneShot <==> r.action in {Confirm, Cancel, Retry, Reconcile, EditPublished, SelectTransition, BlockIssue, UnblockIssue, AssignMe})
  }

  lemma NewRecordsBound(before: Tokens, p: Preview, actions: seq<Action>, generated: seq<string>, n: nat)
    requires n <= |actions| == |generated| && Drawn(before, generated)
    ensures var after := WithButtons(before, p, actions, generated, n);
            forall h {:trigger after[h]} :: h in after && h !in before ==>
              BoundTo(after[h], p.draftId, p.draft, p.draft.thread, p.messageId, p.expiresAt, actions)
  {
    var after := WithButtons(before, p, actions, generated, n);
    forall h | h in after && h !in before ensures BoundTo(after[h], p.draftId, p.draft, p.draft.thread, p.messageId, p.expiresAt, actions) {
      NothingElse(before, p, actions, generated, n, h);
      var k :| 0 <= k < n && h == TokenHash(generated[k]);
      ButtonThere(before, p, actions, generated, n, k);
    }
  }

  /** One button for each action, in their order. */
  predicate AllIssued(tokens: Tokens, buttons: seq<Button>, actions: seq<Action>, generated: seq<string>, p: Preview)
    requires |generated| == |actions|
  {
    && |buttons| == |actions|
    && forall k {:trigger buttons[k]} :: 0 <= k < |actions| ==> Issued(tokens, buttons[k], actions[k], generated[k], p)
  }

  /** What was issued once cannot be issued again for the same revision and message,
      although the first button was invalidated or used up in between. */
  lemma NotIssuedAgain(tokens: Tokens, later: Tokens, b: Button, token: string, p: Preview, actions: seq<Action>, k: nat)
    requires k < |actions| && Issued(tokens, b, actions[k], token, p)
    requires TokenHash(token) in later && SameBinding(later[TokenHash(token)], b.record)
    ensures !Renders(later, p, actions, k)
  {
    assert later[TokenHash(token)].action == actions[k];
  }

  /** Pressed by the owner, on its own message, before it expires and while the
      draft is where it was, an issued button is allowed; pressed again, it is
      allowed exactly if its action is not a single-use one. */
  lemma IssuedButtonWorks(rows: Rows, tokens: Tokens, b: Button, token: string, p: Preview, now: Instant, later: Instant)
    requires Issued(tokens, b, b.action, token, p) && IsStored(rows, p) && now <= later < p.expiresAt
    ensures var draft := p.draft;
            var req := Request(Some(b.data), draft.owner, draft.chat, true, draft.thread, Some(p.messageId));
            var first := Verdict(rows, tokens, req, now);
            && first == Allowed(b.action, draft)
            && var again := Verdict(rows, Spent(tokens, req, first, now), req, later);
               again == if b.action in {Confirm, Cancel, Retry, Reconcile, EditPublished, SelectTransition, BlockIssue, UnblockIssue, AssignMe}
                        then Denied(TokenConsumed) else Allowed(b.action, draft)
  {}

  /** Pressed when its time is over, it is not: the time counts from its issue. */
  lemma IssuedButtonExpires(rows: Rows, tokens: Tokens, b: Button, token: string, p: Preview, later: Instant)
    requires Issued(tokens, b, b.action, token, p) && IsStored(rows, p) && later >= p.expiresAt
    ensures Verdict(rows, tokens, Request(Some(b.data), p.draft.owner, p.draft.chat, true, p.draft.thread, Some(p.messageId)), later)
            == Denied(TokenExpired)
  {}

  /** What each denial tells: the test it names failed, and those before it did not. */
  lemma DenialMeans(rows: Rows, tokens: Tokens, req: Request, now: Instant)
    requires KeyedByHash(tokens)
    ensures var v := Verdict(rows, tokens, req, now);
            && (v == Denied(NotPrivateChat) <==> !req.privateChat)
            && (v == Denied(MalformedCallback) <==> req.privateChat && Parse(req.data).Err?)
            && (req.privateChat && Parse(req.data).Ok? ==>
                  var p := Parse(req.data).value;
                  var h := TokenHash(p.token);
                  && (h !in tokens ==> v == Denied(UnknownToken))
                  && (h in tokens ==> DenialOf(v, tokens[h], req, p, now, if tokens[h].draftId in rows then Some(rows[tokens[h].draftId]) else None)))
  {}

  predicate DenialOf(v: Authorization, r: Record, req: Request, p: Parsed, now: Instant, row: Option<Row>) {
    if p.action != r.action then v == Denied(ActionMismatch)
    else if req.actor != r.owner then v == Denied(ForeignActor)
    else if req.chat != r.chat then v == Denied(WrongChat)
    else if r.thread.Some? && req.thread != r.thread then v == Denied(WrongThread)
    else if r.message.Some? && req.message != r.message then v == Denied(WrongMessage)
    else if r.expiresAt <= now then v == Denied(TokenExpired)
    else if r.consumedAt.Some? then v == Denied(TokenConsumed)
    else if row.None? then v == Denied(UnknownToken)
    else if row.value.revision != r.revision then v == Denied(StaleRevision)
    else if row.value.state != r.state then v in {Denied(AlreadyProcessing), Denied(IllegalState)}
    else if DefaultOneShot(r.action) && !r.oneShot then v == Denied(TokenConsumed)
    else v == Allowed(r.action, row.value)
  }

  /** A press is allowed exactly when every binding holds: the one place where all
      conditions stand side by side. */
  lemma AllowedExactly(rows: Rows, tokens: Tokens, req: Request, now: Instant)
    requires KeyedByHash(tokens)
    ensures Verdict(rows, tokens, req, now).Allowed? <==>
            && req.privateChat && Parse(req.data).Ok?
            && var p := Parse(req.data).value;
               exists h {:trigger h in tokens} :: h in tokens && h == TokenHash(p.token)
                 && GoodPress(tokens[h], req, p, now) && tokens[h].draftId in rows
                 && rows[tokens[h].draftId].revision == tokens[h].revision && rows[tokens[h].draftId].state == tokens[h].state
  {}

  predicate GoodPress(r: Record, req: Request, p: Parsed, now: Instant) {
    && p.action == r.action && req.actor == r.owner && req.chat == r.chat
    && (r.thread.Some? ==> req.thread == r.thread) && (r.message.Some? ==> req.message == r.message)
    && now < r.expiresAt && r.consumedAt.None? && (DefaultOneShot(r.action) ==> r.oneShot)
  }
}
