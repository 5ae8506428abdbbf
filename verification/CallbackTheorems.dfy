/** What the buttons promise, over whole runs. */
module CallbackTheorems {
  import opened Wrappers
  import opened Fsm
  import opened CallbackGrammar
  import opened CallbackSpec

  ghost predicate Follows(s: State, step: Step, s': State) { Enabled(s, step) && s' == Apply(s, step) }

  ghost predicate IsRun(run: seq<State>, steps: seq<Step>) {
    && |run| == |steps| + 1
    && forall n {:trigger Follows(run[n], steps[n], run[n + 1])} :: 0 <= n < |steps| ==> Follows(run[n], steps[n], run[n + 1])
  }

  ghost predicate FullRun(run: seq<State>, steps: seq<Step>, auths: nat, clock: Instant) {
    IsRun(run, steps) && run[0] == Init(auths, clock)
  }

  lemma StepOf(run: seq<State>, steps: seq<Step>, n: nat)
    requires IsRun(run, steps) && n < |steps|
    ensures Enabled(run[n], steps[n]) && run[n + 1] == Apply(run[n], steps[n])
  {
    assert Follows(run[n], steps[n], run[n + 1]);
  }

  lemma {:induction false} RunInv(run: seq<State>, steps: seq<Step>, auths: nat, clock: Instant, n: nat)
    requires FullRun(run, steps, auths, clock) && n < |run|
    ensures Inv(run[n])
  {
    if n > 0 {
      RunInv(run, steps, auths, clock, n - 1);
      StepOf(run, steps, n - 1);
      StepInv(run[n - 1], steps[n - 1]);
    }
  }

  // ---- One use ----------------------------------------------------------------------------

  /** However reads, decisions and consumptions interleave, a single-use token is
      allowed at most once; and every allowed press agrees in all bindings with
      the record stored for its token, which the draft matched when it was read. */
  lemma GrantMeans(run: seq<State>, steps: seq<Step>, auths: nat, clock: Instant, n: nat, k: nat)
    requires FullRun(run, steps, auths, clock) && n < |run| && k < |run[n].grants|
    ensures var s, g := run[n], run[n].grants[k];
            var h := TokenHash(g.pressed.token);
            && h in s.issued && GrantFits(g, s.issued[h])
            && (s.issued[h].oneShot || g.pressed.action in {Confirm, Cancel, Retry, Reconcile, EditPublished, SelectTransition,
                                                            BlockIssue, UnblockIssue, AssignMe} ==>
                  s.issued[h].oneShot
                  && forall j :: 0 <= j < |s.grants| && s.grants[j].pressed.token == g.pressed.token ==> j == k)
  {
    RunInv(run, steps, auths, clock, n);
    assert GrantOk(run[n], k);
  }

  /** A record stored as reusable for an action that is used up by default can
      never be allowed: consuming it fails every time. */
  lemma ReusableDefaultNeverAllowed(run: seq<State>, steps: seq<Step>, auths: nat, clock: Instant, n: nat, h: TokenHash)
    requires FullRun(run, steps, auths, clock) && n < |run| && h in run[n].issued
    requires DefaultOneShot(run[n].issued[h].action) && !run[n].issued[h].oneShot
    ensures forall k :: 0 <= k < |run[n].grants| ==> TokenHash(run[n].grants[k].pressed.token) != h
  {
    RunInv(run, steps, auths, clock, n);
    forall k | 0 <= k < |run[n].grants| ensures TokenHash(run[n].grants[k].pressed.token) != h {
      assert GrantOk(run[n], k);
    }
  }

  /** Used up, or gone altogether. */
  predicate Spoken(s: State, h: TokenHash) { h in s.issued && (h !in s.tokens || s.tokens[h].consumedAt.Some?) }

  /** A token is consumed once: after a consumption that succeeded, none does again,
      whatever its date and whatever happened in between. */
  lemma {:induction false} ConsumedOnce(run: seq<State>, steps: seq<Step>, auths: nat, clock: Instant, m: nat, n: nat, h: TokenHash)
    requires FullRun(run, steps, auths, clock) && m <= n < |run| && Spoken(run[m], h)
    ensures Spoken(run[n], h) && forall at :: !Consumable(run[n].tokens, h, at)
    decreases n
  {
    if m < n {
      ConsumedOnce(run, steps, auths, clock, m, n - 1, h);
      RunInv(run, steps, auths, clock, n - 1);
      StepOf(run, steps, n - 1);
      StepMoves(run[n - 1], steps[n - 1]);
      SpokenStays(run[n - 1], run[n], h);
    }
  }

  lemma SpokenStays(s: State, s': State, h: TokenHash)
    requires Moves(s, s') && Spoken(s, h)
    ensures Spoken(s', h)
  {}

  /** What a single consumption does: it succeeds exactly once in a row, and no other
      token notices. */
  lemma ConsumptionMeans(tokens: Tokens, h: TokenHash, at: Instant)
    ensures var after := Consumed(tokens, h, at);
            && after.Keys == tokens.Keys && (forall g :: g in tokens && g != h ==> after[g] == tokens[g])
            && (Consumable(tokens, h, at) <==> after != tokens)
            && forall later :: at <= later ==> !Consumable(after, h, later)
  {
    if Consumable(tokens, h, at) { assert Consumed(tokens, h, at)[h] != tokens[h]; }
  }

  // ---- One record for a button -------------------------------------------------------------

  lemma StepOneEach(s: State, step: Step)
    requires Inv(s) && Enabled(s, step) && OneEach(s.tokens)
    ensures OneEach(Apply(s, step).tokens)
  {
    if step.Store? {
      NewRecordAlone(s.tokens, step.record);
    } else {
      FewerTokens(s, step);
    }
  }

  lemma FewerTokens(s: State, step: Step)
    requires Inv(s) && Enabled(s, step) && OneEach(s.tokens) && !step.Store?
    ensures OneEach(Apply(s, step).tokens)
  {
    var after := Apply(s, step).tokens;
    forall h | h in after ensures h in s.tokens && SameBinding(after[h], s.tokens[h]) {}
  }

  /** However the buttons were issued, one draft, revision, message and action never
      have two records at a time, alive or dead. */
  lemma {:induction false} OneRecordPerButton(run: seq<State>, steps: seq<Step>, auths: nat, clock: Instant, n: nat)
    requires FullRun(run, steps, auths, clock) && n < |run|
    ensures OneEach(run[n].tokens)
  {
    if n > 0 {
      OneRecordPerButton(run, steps, auths, clock, n - 1);
      RunInv(run, steps, auths, clock, n - 1);
      StepOf(run, steps, n - 1);
      StepOneEach(run[n - 1], steps[n - 1]);
    }
  }

  // ---- Dead buttons --------------------------------------------------------------------------

  /** A new revision, an invalidation, or the deletion of the draft kills every
      button stored for it so far. */
  lemma Kills(s: State, step: Step, h: TokenHash)
    requires Inv(s) && Enabled(s, step) && h in s.issued
    requires var d := s.issued[h].draftId;
             || (step.Advance? && step.draftId == d)
             || (step.Invalidate? && step.draftId == d)
             || (step.Delete? && step.draftId == d)
    ensures Doomed(Apply(s, step), h)
  {
    assert IssuedOk(s, h);
    if h in s.tokens { assert TokenOk(s, h); }
  }

  lemma {:induction false} DeadForever(run: seq<State>, steps: seq<Step>, auths: nat, clock: Instant, m: nat, n: nat, h: TokenHash)
    requires FullRun(run, steps, auths, clock) && m <= n < |run| && Doomed(run[m], h)
    ensures Doomed(run[n], h)
    decreases n
  {
    if m < n {
      DeadForever(run, steps, auths, clock, m, n - 1, h);
      RunInv(run, steps, auths, clock, n - 1);
      StepOf(run, steps, n - 1);
      StepMoves(run[n - 1], steps[n - 1]);
      DoomedStays(run[n - 1], run[n], h);
    }
  }

  /** Once a draft's buttons were invalidated, none of those stored so far is active
      again at any later time. */
  lemma {:induction false} InvalidatedForever(run: seq<State>, steps: seq<Step>, auths: nat, clock: Instant, m: nat, n: nat, h: TokenHash)
    requires FullRun(run, steps, auths, clock) && m < n < |run| && steps[m].Invalidate? && h in run[m].issued
    ensures h in run[n].issued && Inactive(run[n].tokens, h, steps[m].draftId, steps[m].at)
    decreases n
  {
    RunInv(run, steps, auths, clock, n - 1);
    StepOf(run, steps, n - 1);
    if m < n - 1 {
      InvalidatedForever(run, steps, auths, clock, m, n - 1, h);
      StepMoves(run[n - 1], steps[n - 1]);
      InactiveStays(run[n - 1], run[n], h, steps[m].draftId, steps[m].at);
    } else if h in run[n].tokens {
      InvalidationMeans(run[m].tokens, steps[m].draftId, steps[m].at);
    }
  }

  ghost predicate Inactive(tokens: Tokens, h: TokenHash, draftId: string, since: Instant) {
    forall t {:trigger StillActive(tokens[h], draftId, t)} :: since <= t && h in tokens ==> !StillActive(tokens[h], draftId, t)
  }

  lemma InactiveStays(s: State, s': State, h: TokenHash, draftId: string, since: Instant)
    requires Moves(s, s') && h in s.issued && Inactive(s.tokens, h, draftId, since)
    ensures Inactive(s'.tokens, h, draftId, since)
  {
    if h in s'.tokens {
      forall t | since <= t ensures !StillActive(s'.tokens[h], draftId, t) {
        assert !StillActive(s.tokens[h], draftId, t);
      }
    }
  }

  /** What an invalidation does: afterwards nothing of the draft is active, only its
      active tokens were touched, and of those only the end of their life. */
  lemma InvalidationMeans(tokens: Tokens, draftId: string, at: Instant)
    ensures var after := Invalidated(tokens, draftId, at);
            && after.Keys == tokens.Keys
            && (forall h, t :: h in after && at <= t ==> !StillActive(after[h], draftId, t))
            && (forall h :: h in tokens ==> (after[h] != tokens[h] <==> StillActive(tokens[h], draftId, at)))
            && forall h :: h in tokens ==> SameBinding(after[h], tokens[h]) && after[h].consumedAt == tokens[h].consumedAt
  {}

  predicate BegunDead(a: Auth) { a.Idle? || a.doomed }

  lemma {:induction false} StaysDead(run: seq<State>, steps: seq<Step>, m: nat, n: nat, w: nat)
    requires IsRun(run, steps) && m < n < |run| && steps[m].Begin? && steps[m].w == w
    requires Parse(steps[m].req.data).Ok? && w < |run[m].auths|
    requires Doomed(run[m], TokenHash(Parse(steps[m].req.data).value.token))
    requires forall i :: m < i < n ==> !(steps[i].Begin? && steps[i].w == w)
    ensures w < |run[n].auths| && BegunDead(run[n].auths[w])
    decreases n
  {
    StepOf(run, steps, n - 1);
    if m < n - 1 {
      StaysDead(run, steps, m, n - 1, w);
      OneStepDead(run[n - 1], steps[n - 1], w);
    }
  }

  lemma OneStepDead(s: State, step: Step, w: nat)
    requires Enabled(s, step) && w < |s.auths| && BegunDead(s.auths[w]) && !(step.Begin? && step.w == w)
    ensures w < |Apply(s, step).auths| && BegunDead(Apply(s, step).auths[w])
  {}

  /** A press whose authorization begins when the button is dead (its draft at a
      later revision or gone, its token invalidated, expired, deleted or used up)
      is never allowed, whatever happens meanwhile. */
  lemma DeadButtonDenied(run: seq<State>, steps: seq<Step>, auths: nat, clock: Instant, m: nat, n: nat, w: nat)
    requires FullRun(run, steps, auths, clock) && m < n < |steps| && steps[m].Begin? && steps[m].w == w
    requires Parse(steps[m].req.data).Ok? && Doomed(run[m], TokenHash(Parse(steps[m].req.data).value.token))
    requires forall i :: m < i <= n ==> !(steps[i].Begin? && steps[i].w == w)
    requires steps[n] in {Judge(w), Consume(w)}
    ensures run[n + 1].grants == run[n].grants
  {
    StepOf(run, steps, m);
    StaysDead(run, steps, m, n, w);
    RunInv(run, steps, auths, clock, n);
    StepOf(run, steps, n);
    assert AuthOk(run[n], run[n].auths[w]);
  }

  /** The code does not exclude an invalidation between decision and consumption;
      the consumption then fails exactly if it was dated no later than the
      decision. */
  lemma InvalidatedInBetween(tokens: Tokens, h: TokenHash, at: Instant, now: Instant)
    requires h in tokens
    ensures Consumable(Invalidated(tokens, tokens[h].draftId, at), h, now) <==> Consumable(tokens, h, now) && at > now
  {}

  /** The two denials about the draft's state are never given: a revision has one
      state, so whoever has the wrong state has the wrong revision too, and is told
      that first. */
  lemma StateDenialsUnreachable(run: seq<State>, steps: seq<Step>, auths: nat, clock: Instant, n: nat, w: nat)
    requires FullRun(run, steps, auths, clock) && n < |run| && w < |run[n].auths| && run[n].auths[w].Informed?
    ensures var a := run[n].auths[w];
            Decide(a.req, a.pressed, a.record, a.row, run[n].clock) !in {Some(AlreadyProcessing), Some(IllegalState)}
  {
    RunInv(run, steps, auths, clock, n);
    assert AuthOk(run[n], run[n].auths[w]);
  }
}
