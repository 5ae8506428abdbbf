/** Authorizing the press of a button, as a transition system: the token read, the
    draft read, the decision and the consumption are separate steps, and anything
    may happen to the rows in between. */
module CallbackSpec {
  import opened Wrappers
  import opened Fsm
  import opened CallbackGrammar

  type Instant = int

  /** Stands for the SHA-256 digest of a token. */
  datatype TokenHash = TokenHash(token: string)

  datatype Record = Record(
    hash: TokenHash, draftId: string, owner: int, chat: int, thread: Option<int>, message: Option<int>,
    revision: int, state: DraftState, action: Action, expiresAt: Instant, oneShot: bool, consumedAt: Option<Instant>)

  /** What the draft's row has to do with buttons. */
  datatype Row = Row(owner: int, chat: int, thread: Option<int>, state: DraftState, revision: int)

  datatype Request = Request(data: Option<string>, actor: int, chat: int, privateChat: bool, thread: Option<int>, message: Option<int>)

  datatype Denial =
    | NotPrivateChat | MalformedCallback | UnknownToken | ActionMismatch | ForeignActor | WrongChat | WrongThread
    | WrongMessage | TokenExpired | TokenConsumed | StaleRevision | AlreadyProcessing | IllegalState

  /** `authorize_callback`: None allows; the first failing test names the denial. */
  function Decide(req: Request, pressed: Parsed, record: Record, row: Option<Row>, now: Instant): Option<Denial> {
    if !req.privateChat then Some(NotPrivateChat)
    else if TokenHash(pressed.token) != record.hash then Some(UnknownToken)
    else if pressed.action != record.action then Some(ActionMismatch)
    else if req.actor != record.owner then Some(ForeignActor)
    else if req.chat != record.chat then Some(WrongChat)
    else if record.thread.Some? && req.thread != record.thread then Some(WrongThread)
    else if record.message.Some? && req.message != record.message then Some(WrongMessage)
    else if now >= record.expiresAt then Some(TokenExpired)
    else if record.consumedAt.Some? then Some(TokenConsumed)
    else if row.Some? && row.value.revision != record.revision then Some(StaleRevision)
    else if row.Some? && row.value.state != record.state then
      if row.value.state == Submitting && pressed.action == Confirm then Some(AlreadyProcessing) else Some(IllegalState)
    else None
  }

  // ---- The token table -------------------------------------------------------------

  type Rows = map<string, Row>
  type Tokens = map<TokenHash, Record>

  datatype StoreError = WorkflowNotFound | BindingConflict | RecordConflict

  /** The values the table admits; of the actions, the ten that existed when it was
      made. */
  predicate ColumnsOk(r: Record) {
    && r.owner > 0 && r.chat != 0 && (r.message.Some? ==> r.message.value > 0) && r.revision >= 1
    && Storable(r.action)
  }

  predicate Storable(action: Action) {
    action in {Confirm, Edit, Cancel, CopyLink, CopySummary, EditPublished, ToggleType, TogglePriority, Retry, Reconcile}
  }

  /** The unique index over rendered buttons; a missing message counts as -1. */
  predicate SameButton(r: Record, other: Record) {
    && r.draftId == other.draftId && r.revision == other.revision && r.action == other.action
    && MessageKey(r.message) == MessageKey(other.message)
  }

  function MessageKey(message: Option<int>): int { if message.Some? then message.value else -1 }

  /** Some record, used up or expired included, stands for the same button. */
  predicate Taken(tokens: Tokens, r: Record) { exists h {:trigger tokens[h]} :: h in tokens && SameButton(tokens[h], r) }

  function StoreProblem(rows: Rows, tokens: Tokens, r: Record): Option<StoreError> {
    if r.draftId !in rows then Some(WorkflowNotFound)
    else
      var row := rows[r.draftId];
      if row.owner != r.owner || row.chat != r.chat || row.thread != r.thread || row.revision != r.revision || row.state != r.state
      then Some(BindingConflict)
      else if r.hash in tokens || !ColumnsOk(r) || Taken(tokens, r) then Some(RecordConflict)
      else None
  }

  /** What can be stored: a record made for the draft as it stands now, with a new token
      and one of ten actions, for a button that has none yet. */
  lemma StoredExactly(rows: Rows, tokens: Tokens, r: Record)
    ensures StoreProblem(rows, tokens, r).None? <==>
            && r.draftId in rows && rows[r.draftId] == Row(r.owner, r.chat, r.thread, r.state, r.revision)
            && r.hash !in tokens && r.owner > 0 && r.chat != 0 && (r.message.Some? ==> r.message.value > 0) && r.revision >= 1
            && r.action in {Confirm, Edit, Cancel, CopyLink, CopySummary, EditPublished, ToggleType, TogglePriority, Retry, Reconcile}
            && !exists h :: && h in tokens && tokens[h].draftId == r.draftId && tokens[h].revision == r.revision && tokens[h].action == r.action
                            && (tokens[h].message == r.message || (tokens[h].message == Some(-1) && r.message.None?))
  {
    if r.message.Some? ==> r.message.value > 0 {
      forall h | h in tokens
        ensures SameButton(tokens[h], r) <==>
          && tokens[h].draftId == r.draftId && tokens[h].revision == r.revision && tokens[h].action == r.action
          && (tokens[h].message == r.message || (tokens[h].message == Some(-1) && r.message.None?)) {}
    }
  }

  predicate OneEach(tokens: Tokens) {
    forall h, g {:trigger tokens[h], tokens[g]} :: h in tokens && g in tokens && SameButton(tokens[h], tokens[g]) ==> h == g
  }

  lemma NewRecordAlone(tokens: Tokens, r: Record)
    requires OneEach(tokens) && !Taken(tokens, r)
    ensures OneEach(tokens[r.hash := r])
  {}

  predicate Consumable(tokens: Tokens, h: TokenHash, at: Instant) {
    h in tokens && tokens[h].oneShot && tokens[h].consumedAt.None? && tokens[h].expiresAt > at
  }

  function Consumed(tokens: Tokens, h: TokenHash, at: Instant): Tokens {
    if Consumable(tokens, h, at) then tokens[h := tokens[h].(consumedAt := Some(at))] else tokens
  }

  predicate StillActive(r: Record, draftId: string, at: Instant) {
    r.draftId == draftId && r.consumedAt.None? && r.expiresAt > at
  }

  function Invalidated(tokens: Tokens, draftId: string, at: Instant): Tokens {
    map h | h in tokens :: if StillActive(tokens[h], draftId, at) then tokens[h].(expiresAt := at) else tokens[h]
  }

  function WithoutDraft(tokens: Tokens, draftId: string): Tokens {
    map h | h in tokens && tokens[h].draftId != draftId :: tokens[h]
  }

  /** A token that is used up when it is allowed. */
  predicate SingleUse(r: Record) { r.oneShot || DefaultOneShot(r.action) }

  // ---- Authorizations in progress ------------------------------------------------------

  /** `doomed` records whether the button was already dead when this authorization
      began. */
  datatype Auth =
    | Idle
    | Asked(req: Request, pressed: Parsed, doomed: bool)
    | Holding(req: Request, pressed: Parsed, record: Record, doomed: bool)
    | Informed(req: Request, pressed: Parsed, record: Record, row: Option<Row>, doomed: bool)
    | Consuming(req: Request, pressed: Parsed, record: Record, seen: Row, now: Instant, doomed: bool)

  datatype Grant = Grant(req: Request, pressed: Parsed, row: Row, now: Instant, doomed: bool)

  /** `issued` holds every record as it was stored, `known` every draft there ever
      was, and `grants` every press that was allowed. */
  datatype State = State(
    rows: Rows, tokens: Tokens, clock: Instant, auths: seq<Auth>,
    issued: Tokens, known: set<string>, grants: seq<Grant>)

  datatype Step =
    | Begin(w: nat, req: Request)
    | ReadToken(w: nat)
    | ReadRow(w: nat)
    | Judge(w: nat)
    | Consume(w: nat)
    | Abandon(w: nat)
    | Tick(now: Instant)
    | Create(draftId: string, row: Row)
    | Advance(draftId: string, state: DraftState)   // any successful write of the draft
    | Delete(draftId: string)                       // retention; the tokens go with it
    | Store(record: Record)
    | Invalidate(draftId: string, at: Instant)
    | Prune(before: Instant, hashes: set<TokenHash>)  // delete_expired_callbacks

  function Init(auths: nat, clock: Instant): State { State(map[], map[], clock, seq(auths, _ => Idle), map[], {}, []) }

  predicate At(s: State, w: nat) { w < |s.auths| }

  /** Draft identifiers and tokens are generated, and never come up twice. */
  predicate Enabled(s: State, step: Step) {
    match step
    case Begin(w, req) => At(s, w) && s.auths[w].Idle? && req.actor > 0 && req.chat != 0 && req.privateChat && Parse(req.data).Ok?
    case ReadToken(w) => At(s, w) && s.auths[w].Asked?
    case ReadRow(w) => At(s, w) && s.auths[w].Holding?
    case Judge(w) => At(s, w) && s.auths[w].Informed?
    case Consume(w) => At(s, w) && s.auths[w].Consuming?
    case Abandon(w) => At(s, w)
    case Tick(now) => s.clock <= now
    case Create(d, row) => d !in s.known && row.revision >= 1
    case Advance(d, _) => d in s.rows
    case Delete(d) => d in s.rows
    case Store(r) => StoreProblem(s.rows, s.tokens, r).None? && r.hash !in s.issued
    case Invalidate(_, at) => at <= s.clock
    case Prune(before, hashes) => forall h :: h in hashes && h in s.tokens ==> s.tokens[h].expiresAt <= before
  }

  /** The button cannot be used any more: its draft has moved on or gone, or its
      token is deleted, expired or used up. */
  predicate Doomed(s: State, h: TokenHash) {
    h in s.issued &&
    var r := s.issued[h];
    || r.draftId !in s.rows || s.rows[r.draftId].revision > r.revision
    || h !in s.tokens || s.tokens[h].expiresAt <= s.clock || s.tokens[h].consumedAt.Some?
  }

  function SetAuth(s: State, w: nat, a: Auth): State
    requires At(s, w)
  {
    s.(auths := s.auths[w := a])
  }

  function Granted(s: State, w: nat, g: Grant): State
    requires At(s, w)
  {
    SetAuth(s, w, Idle).(grants := s.grants + [g])
  }

  function JudgeStep(s: State, w: nat): State
    requires Enabled(s, Judge(w))
  {
    var a := s.auths[w];
    if Decide(a.req, a.pressed, a.record, a.row, s.clock).Some? || a.row.None? then SetAuth(s, w, Idle)
    else if SingleUse(a.record) then SetAuth(s, w, Consuming(a.req, a.pressed, a.record, a.row.value, s.clock, a.doomed))
    else Granted(s, w, Grant(a.req, a.pressed, a.row.value, s.clock, a.doomed))
  }

  function ConsumeStep(s: State, w: nat): State
    requires Enabled(s, Consume(w))
  {
    var a := s.auths[w];
    if Consumable(s.tokens, a.record.hash, a.now) then
      Granted(s, w, Grant(a.req, a.pressed, a.seen, a.now, a.doomed)).(tokens := Consumed(s.tokens, a.record.hash, a.now))
    else SetAuth(s, w, Idle)
  }

  function Apply(s: State, step: Step): State
    requires Enabled(s, step)
  {
    match step
    case Begin(w, req) => var pressed := Parse(req.data).value; SetAuth(s, w, Asked(req, pressed, Doomed(s, TokenHash(pressed.token))))
    case ReadToken(w) =>
      var a := s.auths[w];
      var h := TokenHash(a.pressed.token);
      SetAuth(s, w, if h in s.tokens then Holding(a.req, a.pressed, s.tokens[h], a.doomed) else Idle)
    case ReadRow(w) =>
      var a := s.auths[w];
      var d := a.record.draftId;
      SetAuth(s, w, Informed(a.req, a.pressed, a.record, if d in s.rows then Some(s.rows[d]) else None, a.doomed))
    case Judge(w) => JudgeStep(s, w)
    case Consume(w) => ConsumeStep(s, w)
    case Abandon(w) => SetAuth(s, w, Idle)
    case Tick(now) => s.(clock := now)
    case Create(d, row) => s.(rows := s.rows[d := row], known := s.known + {d})
    case Advance(d, state) => s.(rows := s.rows[d := s.rows[d].(state := state, revision := s.rows[d].revision + 1)])
    case Delete(d) => s.(rows := s.rows - {d}, tokens := WithoutDraft(s.tokens, d))
    case Store(r) => s.(tokens := s.tokens[r.hash := r], issued := s.issued[r.hash := r])
    case Invalidate(d, at) => s.(tokens := Invalidated(s.tokens, d, at))
    case Prune(_, hashes) => s.(tokens := s.tokens - hashes)
  }

  // ---- Invariant -------------------------------------------------------------------------

  /** Equal in everything that never changes. */
  predicate SameBinding(r: Record, stored: Record) {
    r == stored.(expiresAt := r.expiresAt, consumedAt := r.consumedAt)
  }

  predicate TokenOk(s: State, h: TokenHash)
    requires h in s.tokens
  {
    && h in s.issued && SameBinding(s.tokens[h], s.issued[h]) && s.tokens[h].expiresAt <= s.issued[h].expiresAt
    && s.tokens[h].draftId in s.rows
  }

  /** A stored record was made for what the row was then; owner, chat and thread
      stay, and a revision has one state. */
  predicate IssuedOk(s: State, h: TokenHash)
    requires h in s.issued
  {
    var r := s.issued[h];
    && r.hash == h && r.draftId in s.known
    && (r.draftId in s.rows ==> RowMatches(s.rows[r.draftId], r))
  }

  predicate RowMatches(row: Row, r: Record) {
    && row.owner == r.owner && row.chat == r.chat && row.thread == r.thread
    && row.revision >= r.revision && (row.revision == r.revision ==> row.state == r.state)
  }

  predicate HeldOk(s: State, pressed: Parsed, r: Record) {
    r.hash == TokenHash(pressed.token) && r.hash in s.issued && SameBinding(r, s.issued[r.hash]) && r.expiresAt <= s.issued[r.hash].expiresAt
  }

  /** What a dead button looks like to somebody who has read its record. */
  predicate DeadRecord(s: State, r: Record) {
    || r.draftId !in s.rows || s.rows[r.draftId].revision > r.revision
    || r.expiresAt <= s.clock || r.consumedAt.Some?
  }

  predicate RowFits(row: Option<Row>, r: Record) { row.Some? ==> RowMatches(row.value, r) }

  predicate AuthOk(s: State, a: Auth) {
    match a
    case Idle => true
    case Asked(req, pressed, doomed) => req.privateChat && (doomed ==> Doomed(s, TokenHash(pressed.token)))
    case Holding(req, pressed, r, doomed) => req.privateChat && HeldOk(s, pressed, r) && (doomed ==> DeadRecord(s, r))
    case Informed(req, pressed, r, row, doomed) =>
      && req.privateChat && HeldOk(s, pressed, r) && RowFits(row, r)
      && (doomed ==> row.None? || row.value.revision > r.revision || r.expiresAt <= s.clock || r.consumedAt.Some?)
    case Consuming(req, pressed, r, row, now, doomed) =>
      && HeldOk(s, pressed, r) && SingleUse(r) && now <= s.clock
      && GrantFits(Grant(req, pressed, row, now, doomed), s.issued[r.hash])
  }

  /** Everything an allowed press has in common with the record it was allowed by. */
  predicate GrantFits(g: Grant, r: Record) {
    && !g.doomed && g.req.privateChat
    && TokenHash(g.pressed.token) == r.hash && g.pressed.action == r.action
    && g.req.actor == r.owner && g.req.chat == r.chat
    && (r.thread.Some? ==> g.req.thread == r.thread)
    && (r.message.Some? ==> g.req.message == r.message)
    && g.now < r.expiresAt
    && g.row.revision == r.revision && g.row.state == r.state
  }

  /** The k-th grant; a single-use one has used its token up, and is the only one. */
  predicate GrantOk(s: State, k: nat)
    requires k < |s.grants|
  {
    var g := s.grants[k];
    var h := TokenHash(g.pressed.token);
    && h in s.issued && GrantFits(g, s.issued[h])
    && (DefaultOneShot(s.issued[h].action) ==> s.issued[h].oneShot)
    && (SingleUse(s.issued[h]) ==>
          && (h in s.tokens ==> s.tokens[h].consumedAt.Some?)
          && forall j {:trigger s.grants[j]} :: 0 <= j < |s.grants| && s.grants[j].pressed.token == g.pressed.token ==> j == k)
  }

  predicate Inv(s: State) {
    && (forall d {:trigger s.rows[d]} :: d in s.rows ==> d in s.known)
    && (forall h {:trigger TokenOk(s, h)} :: h in s.tokens ==> TokenOk(s, h))
    && (forall h {:trigger IssuedOk(s, h)} :: h in s.issued ==> IssuedOk(s, h))
    && (forall w {:trigger s.auths[w]} :: 0 <= w < |s.auths| ==> AuthOk(s, s.auths[w]))
    && (forall k: nat {:trigger GrantOk(s, k)} :: k < |s.grants| ==> GrantOk(s, k))
  }

  // ---- Preservation -------------------------------------------------------------------------

  lemma InitInv(auths: nat, clock: Instant)
    ensures Inv(Init(auths, clock))
  {}

  /** How the rows and tokens may change under an authorization. */
  ghost predicate Moves(s: State, s': State) {
    && s.clock <= s'.clock && s.known <= s'.known
    && (forall h {:trigger h in s'.issued} :: h in s.issued ==> h in s'.issued && s'.issued[h] == s.issued[h])
    && (forall d {:trigger d in s'.rows} :: d in s.known && d in s'.rows ==> d in s.rows && RowGrows(s.rows[d], s'.rows[d]))
    && (forall h {:trigger h in s'.tokens} :: h in s.issued && h in s'.tokens ==> h in s.tokens && TokenShrinks(s.tokens[h], s'.tokens[h]))
  }

  predicate RowGrows(row: Row, row': Row) {
    && row'.owner == row.owner && row'.chat == row.chat && row'.thread == row.thread && row'.revision >= row.revision
    && (row'.revision == row.revision ==> row'.state == row.state)
  }

  predicate TokenShrinks(r: Record, r': Record) {
    SameBinding(r', r) && r'.expiresAt <= r.expiresAt && (r.consumedAt.Some? ==> r'.consumedAt == r.consumedAt)
  }

  lemma TokensMove(s: State, step: Step, h: TokenHash)
    requires Inv(s) && Enabled(s, step) && h in s.issued && h in Apply(s, step).tokens
    ensures h in s.tokens && TokenShrinks(s.tokens[h], Apply(s, step).tokens[h])
  {}

  lemma RowsMove(s: State, step: Step, d: string)
    requires Inv(s) && Enabled(s, step) && d in s.known && d in Apply(s, step).rows
    ensures d in s.rows && RowGrows(s.rows[d], Apply(s, step).rows[d])
  {}

  lemma StepMoves(s: State, step: Step)
    requires Inv(s) && Enabled(s, step)
    ensures Moves(s, Apply(s, step))
  {
    forall h | h in s.issued && h in Apply(s, step).tokens
      ensures h in s.tokens && TokenShrinks(s.tokens[h], Apply(s, step).tokens[h])
    {
      TokensMove(s, step, h);
    }
    forall d | d in s.known && d in Apply(s, step).rows ensures d in s.rows && RowGrows(s.rows[d], Apply(s, step).rows[d]) {
      RowsMove(s, step, d);
    }
  }

  lemma DoomedStays(s: State, s': State, h: TokenHash)
    requires Inv(s) && Moves(s, s') && Doomed(s, h)
    ensures Doomed(s', h)
  {
    assert IssuedOk(s, h);
  }

  lemma AuthStays(s: State, s': State, a: Auth)
    requires Inv(s) && Moves(s, s') && AuthOk(s, a)
    ensures AuthOk(s', a)
  {
    match a
    case Idle =>
    case Asked(req, pressed, doomed) => if doomed { DoomedStays(s, s', TokenHash(pressed.token)); }
    case Holding(req, pressed, r, doomed) => assert IssuedOk(s, r.hash);
    case Informed(_, _, _, _, _) =>
    case Consuming(_, _, _, _, _, _) =>
  }

  /** An authorization's own step. */
  lemma OwnStep(s: State, step: Step)
    requires Inv(s) && Enabled(s, step) && (step.Begin? || step.ReadToken? || step.ReadRow? || step.Judge? || step.Consume?)
    ensures var s' := Apply(s, step); AuthOk(s', s'.auths[step.w])
  {
    var a := s.auths[step.w];
    assert AuthOk(s, a);
    if step.ReadToken? && TokenHash(a.pressed.token) in s.tokens {
      assert TokenOk(s, TokenHash(a.pressed.token)) && IssuedOk(s, TokenHash(a.pressed.token));
    } else if step.ReadRow? {
      assert IssuedOk(s, a.record.hash);
    }
  }

  /** A row that moves on still fits the records made for it. */
  lemma RowStillMatches(row: Row, row': Row, r: Record)
    requires RowMatches(row, r) && RowGrows(row, row')
    ensures RowMatches(row', r)
  {}

  lemma IssuedStays(s: State, step: Step, h: TokenHash)
    requires Inv(s) && Enabled(s, step) && h in Apply(s, step).issued
    ensures IssuedOk(Apply(s, step), h)
  {
    if h in s.issued {
      var d := s.issued[h].draftId;
      assert IssuedOk(s, h);
      if d in Apply(s, step).rows {
        RowsMove(s, step, d);
        RowStillMatches(s.rows[d], Apply(s, step).rows[d], s.issued[h]);
      }
    }
  }

  lemma TokenStays(s: State, step: Step, h: TokenHash)
    requires Inv(s) && Enabled(s, step) && h in Apply(s, step).tokens
    ensures TokenOk(Apply(s, step), h)
  {
    if h in s.tokens { assert TokenOk(s, h); }
    if h in s.issued { TokensMove(s, step, h); }
  }

  lemma GrantStays(s: State, s': State, k: nat)
    requires Inv(s) && Moves(s, s') && s'.grants == s.grants && k < |s.grants|
    ensures GrantOk(s', k)
  {
    assert GrantOk(s, k);
  }

  /** A further grant: of a token not yet used up, or of one that is not used up. */
  lemma GrantAdded(s: State, s': State, g: Grant, k: nat)
    requires Inv(s) && Moves(s, s') && s'.grants == s.grants + [g] && k < |s'.grants|
    requires var h := TokenHash(g.pressed.token);
             && h in s.issued && GrantFits(g, s.issued[h])
             && (SingleUse(s.issued[h]) ==> h in s.tokens && s.tokens[h].oneShot && s.tokens[h].consumedAt.None?
                                            && h in s'.tokens && s'.tokens[h].consumedAt.Some?)
    ensures GrantOk(s', k)
  {
    var h := TokenHash(g.pressed.token);
    if h in s.tokens { assert TokenOk(s, h); }
    if k < |s.grants| { assert GrantOk(s, k); }
    forall j | 0 <= j < |s.grants| && SingleUse(s.issued[h]) ensures s.grants[j].pressed.token != g.pressed.token {
      assert GrantOk(s, j);
    }
  }

  lemma JudgeGrants(s: State, w: nat)
    requires Inv(s) && Enabled(s, Judge(w))
    ensures forall k: nat {:trigger GrantOk(JudgeStep(s, w), k)} :: k < |JudgeStep(s, w).grants| ==> GrantOk(JudgeStep(s, w), k)
  {
    var s' := JudgeStep(s, w);
    StepMoves(s, Judge(w));
    assert AuthOk(s, s.auths[w]);
    forall k: nat | k < |s'.grants| ensures GrantOk(s', k) {
      if s'.grants == s.grants {
        GrantStays(s, s', k);
      } else {
        GrantAdded(s, s', s'.grants[|s.grants|], k);
      }
    }
  }

  lemma ConsumeGrants(s: State, w: nat)
    requires Inv(s) && Enabled(s, Consume(w))
    ensures forall k: nat {:trigger GrantOk(ConsumeStep(s, w), k)} :: k < |ConsumeStep(s, w).grants| ==> GrantOk(ConsumeStep(s, w), k)
  {
    var s' := ConsumeStep(s, w);
    StepMoves(s, Consume(w));
    assert AuthOk(s, s.auths[w]);
    forall k: nat | k < |s'.grants| ensures GrantOk(s', k) {
      if s'.grants == s.grants {
        GrantStays(s, s', k);
      } else {
        GrantAdded(s, s', s'.grants[|s.grants|], k);
      }
    }
  }

  lemma GrantsStay(s: State, step: Step)
    requires Inv(s) && Enabled(s, step)
    ensures forall k: nat {:trigger GrantOk(Apply(s, step), k)} :: k < |Apply(s, step).grants| ==> GrantOk(Apply(s, step), k)
  {
    match step
    case Judge(w) => JudgeGrants(s, w);
    case Consume(w) => ConsumeGrants(s, w);
    case _ =>
      StepMoves(s, step);
      forall k: nat | k < |s.grants| ensures GrantOk(Apply(s, step), k) { GrantStays(s, Apply(s, step), k); }
  }

  lemma AuthsStay(s: State, step: Step, w: nat)
    requires Inv(s) && Enabled(s, step) && w < |Apply(s, step).auths|
    ensures AuthOk(Apply(s, step), Apply(s, step).auths[w])
  {
    StepMoves(s, step);
    assert AuthOk(s, s.auths[w]);
    if (step.Begin? || step.ReadToken? || step.ReadRow? || step.Judge? || step.Consume?) && step.w == w {
      OwnStep(s, step);
    } else if Apply(s, step).auths[w] == s.auths[w] {
      AuthStays(s, Apply(s, step), s.auths[w]);
    }
  }

  lemma StepInv(s: State, step: Step)
    requires Inv(s) && Enabled(s, step)
    ensures Inv(Apply(s, step))
  {
    var s' := Apply(s, step);
    forall d | d in s'.rows ensures d in s'.known { if d in s.rows { assert d in s.known; } }
    forall h | h in s'.tokens ensures TokenOk(s', h) { TokenStays(s, step, h); }
    forall h | h in s'.issued ensures IssuedOk(s', h) { IssuedStays(s, step, h); }
    forall w | 0 <= w < |s'.auths| ensures AuthOk(s', s'.auths[w]) { AuthsStay(s, step, w); }
    GrantsStay(s, step);
  }
}
