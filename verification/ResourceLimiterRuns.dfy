/** The limiter as a whole: one resource of each kind, refusal once closed, and
    the event that tells `close` that nothing is admitted any more. */
module ResourceLimiterRuns {
  import opened ResourceLimiterSpec
  import opened Sums

  datatype Kind = Gemini | Jira | AttachmentUpload

  datatype State = State(resources: map<Kind, Resource>, closed: bool, drained: bool)

  datatype Step = On(kind: Kind, move: Move) | Close

  function Assemble(gemini: Resource, jira: Resource, attachment: Resource): (m: map<Kind, Resource>)
    ensures forall kind: Kind :: kind in m
    ensures m[Gemini] == gemini && m[Jira] == jira && m[AttachmentUpload] == attachment
  {
    var m := map[Gemini := gemini, Jira := jira, AttachmentUpload := attachment];
    forall kind: Kind ensures kind in m { assert kind == Gemini || kind == Jira || kind == AttachmentUpload; }
    m
  }

  predicate Total(s: State) { forall kind: Kind :: kind in s.resources }

  predicate Empty(s: State)
    requires Total(s)
  {
    forall kind: Kind :: s.resources[kind].admitted == 0
  }

  predicate Enabled(s: State, step: Step) {
    Total(s) && (step.On? ==> CanMove(s.resources[step.kind], step.move))
  }

  /** One resource changed: an admission clears the event, and a departure sets it
      if nobody is left anywhere. */
  function Settled(s: State, kind: Kind, r: Resource): State
    requires Total(s)
  {
    var before, s' := s.resources[kind].admitted, s.(resources := s.resources[kind := r]);
    if r.admitted > before then s'.(drained := false)
    else if r.admitted < before then s'.(drained := s.drained || Empty(s'))
    else s'
  }

  function Next(s: State, step: Step): State
    requires Enabled(s, step)
  {
    match step
    case Close => s.(closed := true, drained := s.drained || Empty(s))
    case On(kind, move) =>
      if move.Admit? && s.closed then s else
        Settled(s, kind, Apply(s.resources[kind], move))
  }

  ghost predicate SystemInv(s: State) {
    && Total(s)
    && (forall kind: Kind :: Inv(s.resources[kind]))
    && (s.drained <==> Empty(s))
  }

  lemma SettledDrained(s: State, kind: Kind, r: Resource)
    requires Total(s) && (s.drained <==> Empty(s)) && r.admitted >= 0 && forall k: Kind :: s.resources[k].admitted >= 0
    ensures var s' := Settled(s, kind, r); Total(s') && (s'.drained <==> Empty(s'))
  {
    var s' := Settled(s, kind, r);
    assert s'.resources[kind] == r;
    assert forall k: Kind :: k != kind ==> s'.resources[k] == s.resources[k];
    if r.admitted == s.resources[kind].admitted {
      assert forall k: Kind :: s'.resources[k].admitted == s.resources[k].admitted;
    } else if r.admitted < s.resources[kind].admitted {
      assert !Empty(s);
    }
  }

  lemma SettledInv(s: State, kind: Kind, r: Resource)
    requires SystemInv(s) && Inv(r)
    ensures SystemInv(Settled(s, kind, r))
  {
    NonNegative(r);
    forall k: Kind ensures s.resources[k].admitted >= 0 { NonNegative(s.resources[k]); }
    SettledDrained(s, kind, r);
    forall k: Kind ensures Inv(Settled(s, kind, r).resources[k]) { assert Inv(s.resources[k]); }
  }

  lemma NonNegative(r: Resource)
    requires Inv(r)
    ensures r.admitted >= 0
  {
    NobodyAdmitted(r);
  }

  lemma StepInv(s: State, step: Step)
    requires SystemInv(s) && Enabled(s, step)
    ensures SystemInv(Next(s, step))
  {
    if step.On? && !(step.move.Admit? && s.closed) {
      MoveInv(s.resources[step.kind], step.move);
      SettledInv(s, step.kind, Apply(s.resources[step.kind], step.move));
    }
  }

  /** What a move means for the event. */
  lemma AfterAdmit(s: State, kind: Kind, actor: nat, budget: nat, now: int)
    requires Enabled(s, On(kind, Admit(actor, budget, now)))
    ensures var r := s.resources[kind];
            Next(s, On(kind, Admit(actor, budget, now)))
            == if s.closed then s else
                 State(s.resources[kind := AdmitMove(r, actor, budget, now)], false, s.drained && AdmissionOf(r, now) != Accepted)
  {}

  lemma AfterMove(s: State, kind: Kind, move: Move)
    requires Enabled(s, On(kind, move)) && !move.Admit?
    ensures var r := s.resources[kind];
            var s' := Next(s, On(kind, move));
            && s'.resources == s.resources[kind := Apply(r, move)] && s'.closed == s.closed
            && (move.Interrupt? || (move.End? && AfterEnd(r.calls[move.c], move.outcome) == Finished) ==>
                  s'.drained == (s.drained || forall k: Kind :: s'.resources[k].admitted == 0))
            && (move.End? && AfterEnd(r.calls[move.c], move.outcome) == Ready ==> s'.drained == s.drained)
  {}

  ghost predicate Follows(s: State, step: Step, s': State) { Enabled(s, step) && s' == Next(s, step) }

  ghost predicate IsRun(run: seq<State>, steps: seq<Step>) {
    && |run| == |steps| + 1
    && forall n {:trigger Follows(run[n], steps[n], run[n + 1])} :: 0 <= n < |steps| ==> Follows(run[n], steps[n], run[n + 1])
  }

  lemma StepOf(run: seq<State>, steps: seq<Step>, n: nat)
    requires IsRun(run, steps) && n < |steps|
    ensures Enabled(run[n], steps[n]) && run[n + 1] == Next(run[n], steps[n])
  {
    assert Follows(run[n], steps[n], run[n + 1]);
  }

  ghost predicate Started(s: State) {
    Total(s) && !s.closed && s.drained && forall kind: Kind :: LimitsOk(s.resources[kind].limits) && s.resources[kind] == Init(s.resources[kind].limits)
  }

  lemma {:induction false} RunInv(run: seq<State>, steps: seq<Step>, n: nat)
    requires IsRun(run, steps) && SystemInv(run[0]) && n < |run|
    ensures SystemInv(run[n])
  {
    if n > 0 {
      RunInv(run, steps, n - 1);
      StepOf(run, steps, n - 1);
      StepInv(run[n - 1], steps[n - 1]);
    }
  }

  /** The bounds the limiter promises, at every moment of every run: in all, and
      for each actor, though its gate may have been dropped and made anew; and no
      call dispatches more often than its budget and once more. */
  lemma LimitsHold(run: seq<State>, steps: seq<Step>, n: nat, kind: Kind, actor: nat)
    requires IsRun(run, steps) && Started(run[0]) && n < |run|
    ensures Total(run[n])
    ensures var r := run[n].resources[kind];
            && 0 <= Sum(r.calls, IsRunning) <= r.limits.globalLimit
            && Sum(r.calls, RunningFor(actor)) <= r.limits.perActorLimit
            && Sum(r.calls, IsUnfinished) <= r.limits.globalLimit + r.limits.queueLimit
            && forall c {:trigger r.calls[c]} :: 0 <= c < |r.calls| ==>
                 r.calls[c].dispatched <= r.calls[c].attempts <= r.calls[c].budget + 1 <= r.limits.retryBudget + 1
  {
    StartedInv(run[0]);
    RunInv(run, steps, n);
    var r := run[n].resources[kind];
    GlobalBound(r);
    ActorBound(r, actor);
    forall c | 0 <= c < |r.calls| ensures AttemptsOk(r.limits, r.calls[c]) {}
  }

  lemma StartedInv(s: State)
    requires Started(s)
    ensures SystemInv(s)
  {
    forall kind: Kind ensures Inv(s.resources[kind]) { InitInv(s.resources[kind].limits); }
  }

  /** While a cooldown lasts, and no call of that kind succeeds, nobody is let in. */
  lemma {:induction false} CooldownRefuses(run: seq<State>, steps: seq<Step>, kind: Kind, n: nat)
    requires IsRun(run, steps) && SystemInv(run[0]) && n < |steps| && run[0].resources[kind].cooldownUntil > 0
    requires forall i {:trigger steps[i]} :: 0 <= i < n ==> !(steps[i].On? && steps[i].kind == kind && IsSuccess(steps[i].move))
    requires steps[n].On? && steps[n].kind == kind && steps[n].move.Admit?
    requires steps[n].move.now < run[0].resources[kind].cooldownUntil
    ensures Total(run[n]) && Total(run[n + 1])
    ensures run[n + 1].resources[kind].calls == run[n].resources[kind].calls
    ensures run[n + 1].resources[kind].admitted == run[n].resources[kind].admitted
  {
    var until := run[0].resources[kind].cooldownUntil;
    CooldownLasts(run, steps, kind, n, until);
    RunInv(run, steps, n);
    StepOf(run, steps, n);
    CooldownHolds(run[n].resources[kind], steps[n].move, until);
  }

  predicate StillCooling(s: State, kind: Kind, until: int) {
    Total(s) && (s.resources[kind].clock < until ==> s.resources[kind].cooldownUntil >= until)
  }

  lemma CooldownStep(s: State, step: Step, kind: Kind, until: int)
    requires SystemInv(s) && Enabled(s, step) && StillCooling(s, kind, until) && until > 0
    requires !(step.On? && step.kind == kind && IsSuccess(step.move))
    ensures StillCooling(Next(s, step), kind, until)
  {
    if step.On? && step.kind == kind {
      CooldownHolds(s.resources[kind], step.move, until);
    }
  }

  lemma {:induction false} CooldownLasts(run: seq<State>, steps: seq<Step>, kind: Kind, n: nat, until: int)
    requires IsRun(run, steps) && SystemInv(run[0]) && n < |run| && run[0].resources[kind].cooldownUntil == until > 0
    requires forall i {:trigger steps[i]} :: 0 <= i < n ==> !(steps[i].On? && steps[i].kind == kind && IsSuccess(steps[i].move))
    ensures StillCooling(run[n], kind, until)
  {
    if n > 0 {
      CooldownLasts(run, steps, kind, n - 1, until);
      RunInv(run, steps, n - 1);
      StepOf(run, steps, n - 1);
      CooldownStep(run[n - 1], steps[n - 1], kind, until);
    }
  }

  // ---- From the failure to the end of the cooldown ------------------------------------------

  /** The step by which a retryable failure of a kind meets its threshold. */
  predicate Trips(s: State, step: Step, kind: Kind) {
    && Enabled(s, step) && step.On? && step.kind == kind && IsFailure(step.move)
    && s.resources[kind].failures + 1 >= s.resources[kind].limits.threshold
  }

  predicate Succeeds(step: Step, kind: Kind) { step.On? && step.kind == kind && IsSuccess(step.move) }
  predicate Fails(step: Step, kind: Kind) { step.On? && step.kind == kind && IsFailure(step.move) }

  lemma {:induction false} LastsFrom(run: seq<State>, steps: seq<Step>, kind: Kind, m: nat, n: nat, until: int)
    requires IsRun(run, steps) && SystemInv(run[0]) && m < n < |run| && until > 0 && StillCooling(run[m + 1], kind, until)
    requires forall i {:trigger steps[i]} :: m < i < n ==> !Succeeds(steps[i], kind)
    ensures StillCooling(run[n], kind, until)
    decreases n
  {
    if m + 1 < n {
      LastsFrom(run, steps, kind, m, n - 1, until);
      RunInv(run, steps, n - 1);
      StepOf(run, steps, n - 1);
      CooldownStep(run[n - 1], steps[n - 1], kind, until);
    }
  }

  /** What a step makes of one kind. */
  lemma ResourceAfter(s: State, step: Step, kind: Kind)
    requires Enabled(s, step)
    ensures Total(Next(s, step))
    ensures Next(s, step).resources[kind]
            == if step.On? && step.kind == kind && !(step.move.Admit? && s.closed) then Apply(s.resources[kind], step.move) else s.resources[kind]
  {}

  lemma Tripped(s: State, step: Step, kind: Kind)
    requires SystemInv(s) && Trips(s, step, kind)
    ensures Total(Next(s, step))
    ensures Next(s, step).resources[kind].cooldownUntil == step.move.now + s.resources[kind].limits.cooldown > 0
  {
    assert Inv(s.resources[kind]);
    CooldownStarts(s.resources[kind], step.move.c, step.move.now);
    ResourceAfter(s, step, kind);
  }

  /** Once a failure has met the threshold, every admission of that kind is refused
      until the configured time has passed or a call of that kind succeeds, whatever
      else happens. */
  lemma RefusedAfterFailures(run: seq<State>, steps: seq<Step>, kind: Kind, m: nat, n: nat)
    requires IsRun(run, steps) && SystemInv(run[0]) && m < n < |steps| && Total(run[m]) && Trips(run[m], steps[m], kind)
    requires forall i {:trigger steps[i]} :: m < i < n ==> !Succeeds(steps[i], kind)
    requires steps[n].On? && steps[n].kind == kind && steps[n].move.Admit?
    requires steps[n].move.now < steps[m].move.now + run[m].resources[kind].limits.cooldown
    ensures Total(run[n]) && Total(run[n + 1])
    ensures AdmissionOf(run[n].resources[kind], steps[n].move.now) == CoolingDown
    ensures run[n + 1].resources[kind].calls == run[n].resources[kind].calls
  {
    RunInv(run, steps, m);
    StepOf(run, steps, m);
    Tripped(run[m], steps[m], kind);
    LastsFrom(run, steps, kind, m, n, steps[m].move.now + run[m].resources[kind].limits.cooldown);
    RunInv(run, steps, n);
    StepOf(run, steps, n);
    RefusedWhileCooling(run[n], steps[n], kind, steps[m].move.now + run[m].resources[kind].limits.cooldown);
  }

  lemma RefusedWhileCooling(s: State, step: Step, kind: Kind, until: int)
    requires SystemInv(s) && Enabled(s, step) && step.On? && step.kind == kind && step.move.Admit?
    requires StillCooling(s, kind, until) && step.move.now < until
    ensures AdmissionOf(s.resources[kind], step.move.now) == CoolingDown
    ensures Total(Next(s, step)) && Next(s, step).resources[kind].calls == s.resources[kind].calls
  {
    assert Inv(s.resources[kind]);
    AdmissionExactly(s.resources[kind], step.move.now);
    ResourceAfter(s, step, kind);
  }

  /** And from then on, unless there was another failure, nobody is told to wait for
      the cooldown any more. */
  lemma AnsweredAfterCooldown(run: seq<State>, steps: seq<Step>, kind: Kind, m: nat, n: nat)
    requires IsRun(run, steps) && SystemInv(run[0]) && m < n < |steps| && Total(run[m]) && Trips(run[m], steps[m], kind)
    requires forall i {:trigger steps[i]} :: m < i < n ==> !Fails(steps[i], kind)
    requires steps[n].On? && steps[n].kind == kind && steps[n].move.Admit?
    requires steps[n].move.now >= steps[m].move.now + run[m].resources[kind].limits.cooldown
    ensures Total(run[n]) && AdmissionOf(run[n].resources[kind], steps[n].move.now) != CoolingDown
  {
    RunInv(run, steps, m);
    StepOf(run, steps, m);
    Tripped(run[m], steps[m], kind);
    NotExtended(run, steps, kind, m, n, steps[m].move.now + run[m].resources[kind].limits.cooldown);
    RunInv(run, steps, n);
    StepOf(run, steps, n);
    AdmissionExactly(run[n].resources[kind], steps[n].move.now);
  }

  lemma {:induction false} NotExtended(run: seq<State>, steps: seq<Step>, kind: Kind, m: nat, n: nat, until: int)
    requires IsRun(run, steps) && SystemInv(run[0]) && m < n < |run| && until >= 0
    requires Total(run[m + 1]) && run[m + 1].resources[kind].cooldownUntil <= until
    requires forall i {:trigger steps[i]} :: m < i < n ==> !Fails(steps[i], kind)
    ensures Total(run[n]) && run[n].resources[kind].cooldownUntil <= until
    decreases n
  {
    if m + 1 < n {
      NotExtended(run, steps, kind, m, n - 1, until);
      StepOf(run, steps, n - 1);
      StepNotExtended(run[n - 1], steps[n - 1], kind, until);
    }
  }

  lemma StepNotExtended(s: State, step: Step, kind: Kind, until: int)
    requires Enabled(s, step) && !Fails(step, kind) && s.resources[kind].cooldownUntil <= until && until >= 0
    ensures Total(Next(s, step)) && Next(s, step).resources[kind].cooldownUntil <= until
  {
    ResourceAfter(s, step, kind);
    if step.On? && step.kind == kind { CooldownNotExtended(s.resources[kind], step.move, until); }
  }

  /** The retryable failures of a kind since its last success. */
  function FailuresInARow(steps: seq<Step>, kind: Kind, n: nat): nat
    requires n <= |steps|
  {
    if n == 0 || Succeeds(steps[n - 1], kind) then 0
    else FailuresInARow(steps, kind, n - 1) + if Fails(steps[n - 1], kind) then 1 else 0
  }

  /** A cooldown has to be earned: over every run there is one only after as many
      retryable failures in a row as the threshold. */
  lemma {:induction false} CooldownEarned(run: seq<State>, steps: seq<Step>, kind: Kind, n: nat)
    requires IsRun(run, steps) && Started(run[0]) && n < |run|
    ensures Total(run[n])
    ensures var r := run[n].resources[kind];
            && r.failures <= FailuresInARow(steps, kind, n)
            && (r.cooldownUntil > 0 ==> FailuresInARow(steps, kind, n) >= r.limits.threshold)
  {
    StartedInv(run[0]);
    RunInv(run, steps, n);
    if n > 0 {
      CooldownEarned(run, steps, kind, n - 1);
      RunInv(run, steps, n - 1);
      StepOf(run, steps, n - 1);
      StepCounts(run[n - 1], steps[n - 1], kind);
    }
  }

  lemma StepCounts(s: State, step: Step, kind: Kind)
    requires SystemInv(s) && Enabled(s, step)
    ensures Total(Next(s, step))
    ensures Next(s, step).resources[kind].failures
            <= if Succeeds(step, kind) then 0 else s.resources[kind].failures + if Fails(step, kind) then 1 else 0
  {
    assert Inv(s.resources[kind]);
    ResourceAfter(s, step, kind);
    if step.On? && step.kind == kind { FailuresCounted(s.resources[kind], step.move); }
  }

  // ---- Drain -----------------------------------------------------------------------------

  function RemainingWork(s: State): int
    requires Total(s)
  {
    Remaining(s.resources[Gemini]) + Remaining(s.resources[Jira]) + Remaining(s.resources[AttachmentUpload])
  }

  lemma SettledWork(s: State, kind: Kind, r: Resource)
    requires Total(s)
    ensures var s' := Settled(s, kind, r);
            Total(s') && RemainingWork(s') == RemainingWork(s) - Remaining(s.resources[kind]) + Remaining(r)
  {
    var s' := Settled(s, kind, r);
    assert forall k: Kind :: s'.resources[k] == if k == kind then r else s.resources[k];
    match kind
    case Gemini =>
    case Jira =>
    case AttachmentUpload =>
  }

  lemma WorkNonNegative(s: State)
    requires SystemInv(s)
    ensures RemainingWork(s) >= 0
  {
    forall kind: Kind ensures Remaining(s.resources[kind]) >= 0 {
      assert Inv(s.resources[kind]);
      RemainingNonNegative(s.resources[kind]);
    }
  }

  predicate MovesACall(step: Step) { step.On? && !step.move.Admit? && !step.move.Observe? }

  lemma ClosedStepDescends(s: State, step: Step)
    requires SystemInv(s) && Enabled(s, step) && s.closed
    ensures Next(s, step).closed && Total(Next(s, step)) && RemainingWork(Next(s, step)) <= RemainingWork(s)
    ensures MovesACall(step) ==> RemainingWork(Next(s, step)) < RemainingWork(s)
  {
    if step.On? && !step.move.Admit? {
      MoveDescends(s.resources[step.kind], step.move);
      SettledWork(s, step.kind, Apply(s.resources[step.kind], step.move));
    }
  }

  /** The number of steps of a run that move an admitted call along. */
  function Work(steps: seq<Step>): nat {
    if steps == [] then 0 else
      var last := steps[|steps| - 1];
      Work(steps[..|steps| - 1]) + if MovesACall(last) then 1 else 0
  }

  /** Drain: once closed, the calls still inside have a bounded number of steps to
      take, retries included; when none can be taken the limiter is empty, and it
      says so exactly when it is, with every permit and every gate given back. */
  lemma ClosedRunsDrain(run: seq<State>, steps: seq<Step>)
    requires IsRun(run, steps) && SystemInv(run[0]) && run[0].closed
    ensures var last := run[|steps|];
            && SystemInv(last) && last.closed
            && 0 <= RemainingWork(last) && Work(steps) + RemainingWork(last) <= RemainingWork(run[0])
            && (last.drained <==> Empty(last))
            && ((forall kind, move :: Internal(move) ==> !Enabled(last, On(kind, move))) ==> last.drained)
            && (last.drained ==> forall kind: Kind :: last.resources[kind].table == map[] && last.resources[kind].active == 0)
  {
    ClosedUpTo(run, steps, |steps|);
    assert steps[..|steps|] == steps;
    WorkNonNegative(run[|steps|]);
    DrainedOrMoving(run[|steps|]);
  }

  lemma {:induction false} ClosedUpTo(run: seq<State>, steps: seq<Step>, n: nat)
    requires IsRun(run, steps) && SystemInv(run[0]) && run[0].closed && n <= |steps|
    ensures SystemInv(run[n]) && run[n].closed && Work(steps[..n]) + RemainingWork(run[n]) <= RemainingWork(run[0])
  {
    RunInv(run, steps, n);
    if n > 0 {
      ClosedUpTo(run, steps, n - 1);
      StepOf(run, steps, n - 1);
      ClosedStepDescends(run[n - 1], steps[n - 1]);
      WorkGrows(steps, n - 1);
    } else {
      assert steps[..0] == [];
    }
  }

  lemma WorkGrows(steps: seq<Step>, n: nat)
    requires n < |steps|
    ensures Work(steps[..n + 1]) == Work(steps[..n]) + if MovesACall(steps[n]) then 1 else 0
  {
    assert steps[..n + 1][..n] == steps[..n];
  }

  lemma DrainedOrMoving(last: State)
    requires SystemInv(last)
    ensures (forall kind, move :: Internal(move) ==> !Enabled(last, On(kind, move))) ==> last.drained
    ensures last.drained ==> forall kind: Kind :: last.resources[kind].table == map[] && last.resources[kind].active == 0
  {
    forall kind: Kind ensures last.resources[kind].admitted >= 0 { NonNegative(last.resources[kind]); }
    if kind: Kind :| last.resources[kind].admitted > 0 {
      var move := SomeMove(last.resources[kind]);
      assert Enabled(last, On(kind, move));
    } else {
      forall kind: Kind ensures last.resources[kind].table == map[] && last.resources[kind].active == 0 {
        NobodyAdmitted(last.resources[kind]);
      }
    }
  }

  lemma CallsListed(r: Resource, move: Move)
    requires CanMove(r, move) && !move.Admit?
    ensures |Apply(r, move).calls| == |r.calls|
  {}

  /** After a `close`, for the rest of every run, no call of any kind is let in. */
  lemma {:induction false} ClosedForever(run: seq<State>, steps: seq<Step>, m: nat, n: nat)
    requires IsRun(run, steps) && m < n < |run| && steps[m].Close?
    ensures run[n].closed && Total(run[m]) && Total(run[n])
    ensures forall kind: Kind :: |run[n].resources[kind].calls| == |run[m].resources[kind].calls|
    decreases n
  {
    if m + 1 < n { ClosedForever(run, steps, m, n - 1); }
    StepOf(run, steps, n - 1);
    var step := steps[n - 1];
    if step.On? && !step.move.Admit? { CallsListed(run[n - 1].resources[step.kind], step.move); }
  }
}
