/** The limiter itself: one object for each resource, whose fields are updated in
    place, and the limiter that owns them. A coroutine's locals (its gate, its
    attempt count, what it has acquired) are the fields of its call. */
module ResourceLimiter {
  import opened ResourceLimiterSpec
  import Runs = ResourceLimiterRuns

  datatype ResourceSnapshot = ResourceSnapshot(admitted: int, active: int, actorGateCount: nat, failures: int, coolingDown: bool)

  class ResourceState {
    const limits: Limits
    var globalFree: int
    var admitted: int
    var active: int
    var failures: int
    var cooldownUntil: int
    ghost var clock: int
    var table: Table
    var gates: seq<Gate>
    var calls: seq<Call>

    ghost function View(): Resource
      reads this
    {
      Resource(limits, globalFree, admitted, active, failures, cooldownUntil, clock, table, gates, calls)
    }

    ghost predicate Valid()
      reads this
    {
      Inv(View())
    }

    constructor (limits: Limits)
      requires LimitsOk(limits)
      ensures Valid() && View() == Init(limits)
    {
      this.limits := limits;
      globalFree, admitted, active, failures, cooldownUntil, clock := limits.globalLimit, 0, 0, 0, 0, 0;
      table, gates, calls := map[], [], [];
      new;
      InitInv(limits);
    }

    /** `_reset_expired_cooldown_locked`. */
    method ResetExpiredCooldown(now: int)
      requires Ticks(View(), now)
      modifies `cooldownUntil, `failures, `clock
      ensures View() == ResetExpired(old(View()), now)
      ensures (cooldownUntil, failures) == if old(cooldownUntil) != 0 && old(cooldownUntil) <= now then (0, 0) else (old(cooldownUntil), old(failures))
    {
      clock := now;
      if cooldownUntil != 0 && cooldownUntil <= now {
        cooldownUntil := 0;
        failures := 0;
      }
    }

    method Admit(actor: nat, budget: nat, now: int) returns (admission: Admission)
      requires Valid() && CanMove(View(), Move.Admit(actor, budget, now))
      modifies this
      ensures Valid() && View() == Apply(old(View()), Move.Admit(actor, budget, now))
      ensures admission == AdmissionOf(old(View()), now)
    {
      AdmitInv(View(), actor, budget, now);
      admission := TryAdmit(actor, budget, now);
    }

    /** `_admit`, apart from the closed limiter. */
    method TryAdmit(actor: nat, budget: nat, now: int) returns (admission: Admission)
      requires CanMove(View(), Move.Admit(actor, budget, now))
      modifies this
      ensures View() == AdmitMove(old(View()), actor, budget, now)
      ensures admission == AdmissionOf(old(View()), now)
    {
      ResetExpiredCooldown(now);
      if cooldownUntil > now { return CoolingDown; }
      if admitted >= limits.globalLimit + limits.queueLimit { return Overloaded; }
      admitted := admitted + 1;
      calls := calls + [Call(actor, budget, Ready, 0, 0, 0)];
      return Accepted;
    }

    /** The next round of the retry loop, up to the wait for the actor's semaphore. */
    method BeginAttempt(c: nat)
      requires Valid() && CanMove(View(), Move.BeginAttempt(c))
      modifies this
      ensures Valid() && View() == Apply(old(View()), Move.BeginAttempt(c))
    {
      ghost var after := BeginMove(View(), c);
      BeginInv(View(), c);
      var k := calls[c];
      if k.actor !in table {
        table := table[k.actor := |gates|];
        gates := gates + [Gate(0, limits.perActorLimit)];
      }
      var g := table[k.actor];
      gates := gates[g := gates[g].(references := gates[g].references + 1)];
      calls := calls[c := k.(phase := Waiting, gate := g, attempts := k.attempts + 1)];
      assert table == after.table && gates == after.gates && calls == after.calls;
    }

    method TakeActor(c: nat)
      requires Valid() && CanMove(View(), Move.TakeActor(c))
      modifies this
      ensures Valid() && View() == Apply(old(View()), Move.TakeActor(c))
    {
      TakeInv(View(), Move.TakeActor(c));
      var g := calls[c].gate;
      gates := gates[g := gates[g].(free := gates[g].free - 1)];
      calls := calls[c := calls[c].(phase := ActorHeld)];
    }

    method TakeGlobal(c: nat)
      requires Valid() && CanMove(View(), Move.TakeGlobal(c))
      modifies this
      ensures Valid() && View() == Apply(old(View()), Move.TakeGlobal(c))
    {
      TakeInv(View(), Move.TakeGlobal(c));
      globalFree := globalFree - 1;
      calls := calls[c := calls[c].(phase := GlobalHeld)];
    }

    method Start(c: nat)
      requires Valid() && CanMove(View(), Move.Start(c))
      modifies this
      ensures Valid() && View() == Apply(old(View()), Move.Start(c))
    {
      TakeInv(View(), Move.Start(c));
      active := active + 1;
      calls := calls[c := calls[c].(phase := Running, dispatched := calls[c].dispatched + 1)];
    }

    method RecordCompletion(outcome: Outcome, now: int)
      requires Valid() && Ticks(View(), now)
      modifies `failures, `cooldownUntil, `clock
      ensures Valid() && View() == Recorded(old(View()), outcome, now)
      ensures failures == if outcome.Success? then 0 else if outcome.retryable then old(failures) + 1 else old(failures)
      ensures cooldownUntil == if outcome.Success? then 0
                               else if outcome.retryable && old(failures) + 1 >= limits.threshold then now + limits.cooldown
                               else old(cooldownUntil)
    {
      clock := now;
      if outcome.Success? {
        failures := 0;
        cooldownUntil := 0;
      } else if outcome.retryable {
        failures := failures + 1;
        if failures >= limits.threshold {
          cooldownUntil := now + limits.cooldown;
        }
      }
    }

    /** `_release`, or the cleanup of a cancelled `_acquire`: permits first, then
        the reference, and with the last reference the gate. */
    method Release(c: nat)
      requires c < |calls| && (HasReference(calls[c]) ==> calls[c].gate < |gates|)
      modifies `active, `globalFree, `gates, `table
      ensures View() == ReleaseMove(old(View()), c, Ready).(calls := old(calls), admitted := old(admitted))
    {
      ghost var after := ReleaseMove(View(), c, Ready);
      var k := calls[c];
      if k.phase == Running {
        active := active - 1;
      }
      if k.phase == GlobalHeld || k.phase == Running {
        globalFree := globalFree + 1;
      }
      if HasReference(k) {
        var g := k.gate;
        if k.phase != Waiting {
          gates := gates[g := gates[g].(free := gates[g].free + 1)];
        }
        gates := gates[g := gates[g].(references := gates[g].references - 1)];
        if gates[g].references == 0 && k.actor in table && table[k.actor] == g {
          table := table - {k.actor};
        }
        assert gates == after.gates;
      }
    }

    /** The operation ends: record it, give everything back, and go round the
        retry loop or leave. */
    method End(c: nat, outcome: Outcome, now: int) returns (again: bool)
      requires Valid() && CanMove(View(), Move.End(c, outcome, now))
      modifies this
      ensures Valid() && View() == Apply(old(View()), Move.End(c, outcome, now))
      ensures again <==> outcome == Failure(true) && old(calls)[c].attempts <= old(calls)[c].budget
    {
      MoveInv(View(), Move.End(c, outcome, now));
      RecordCompletion(outcome, now);
      Release(c);
      again := outcome.Failure? && outcome.retryable && calls[c].attempts <= calls[c].budget;
      if again {
        calls := calls[c := calls[c].(phase := Ready)];
      } else {
        calls := calls[c := calls[c].(phase := Finished)];
        admitted := admitted - 1;
      }
    }

    /** The deadline or a cancellation. */
    method Interrupt(c: nat)
      requires Valid() && CanMove(View(), Move.Interrupt(c))
      modifies this
      ensures Valid() && View() == Apply(old(View()), Move.Interrupt(c))
    {
      ReleaseInv(View(), c, Finished);
      Release(c);
      calls := calls[c := calls[c].(phase := Finished)];
      admitted := admitted - 1;
    }
  }

  /** How the retry loop goes for the outcomes the operation would have: the number
      of dispatches. */
  function Dispatches(outcomes: seq<Outcome>, budget: nat, from: nat): (n: nat)
    requires from < |outcomes| && budget < |outcomes|
    ensures from < n <= |outcomes| && (n <= budget ==> outcomes[n - 1] != Failure(true))
    ensures from <= budget ==> n <= budget + 1
    ensures forall i :: from <= i < n - 1 ==> outcomes[i] == Failure(true)
    decreases |outcomes| - from
  {
    if outcomes[from] == Failure(true) && from < budget then Dispatches(outcomes, budget, from + 1) else from + 1
  }

  /** `run` with nobody else inside: admission, the retry loop, and the way out. The
      operation is dispatched until it does not fail retryably or the budget is
      spent, and nothing stays behind. */
  method Run(state: ResourceState, actor: nat, budget: nat, outcomes: seq<Outcome>, now: int)
    returns (admission: Admission, attempts: nat, succeeded: bool)
    requires state.Valid() && state.admitted == 0 && CanMove(state.View(), Move.Admit(actor, budget, now)) && |outcomes| > budget
    modifies state
    ensures state.Valid() && admission == AdmissionOf(old(state.View()), now)
    ensures state.admitted == 0 && state.active == 0 && state.table == map[] && state.globalFree == state.limits.globalLimit
    ensures admission != Accepted ==> attempts == 0 && state.calls == old(state.calls)
    ensures admission == Accepted ==>
              && attempts == Dispatches(outcomes, budget, 0) && succeeded == outcomes[attempts - 1].Success?
              && |state.calls| == |old(state.calls)| + 1
              && state.calls[|old(state.calls)|].dispatched == attempts <= budget + 1
  {
    attempts, succeeded := 0, false;
    ghost var before := state.View();
    admission := state.Admit(actor, budget, now);
    if admission != Accepted {
      NobodyAdmitted(state.View());
      return;
    }
    AloneWhenAdmitted(before, actor, budget, now);
    var c := |state.calls| - 1;
    attempts, succeeded := Retry(state, c, outcomes, now);
    AloneDone(state.View(), c);
    NobodyAdmitted(state.View());
    assert AttemptsOk(state.limits, state.calls[c]);
  }

  /** The loop. */
  method Retry(state: ResourceState, c: nat, outcomes: seq<Outcome>, now: int) returns (attempts: nat, succeeded: bool)
    requires state.Valid() && Alone(state.View(), c) && state.calls[c].phase == Ready && state.clock <= now && now > 0
    requires state.calls[c].attempts == state.calls[c].dispatched == 0 && state.calls[c].budget < |outcomes|
    modifies state
    ensures state.Valid() && Alone(state.View(), c) && |state.calls| == |old(state.calls)| && state.calls[c].phase == Finished
    ensures attempts == Dispatches(outcomes, old(state.calls)[c].budget, 0) && succeeded == outcomes[attempts - 1].Success?
    ensures state.calls[c].dispatched == attempts && state.calls[c].budget == old(state.calls)[c].budget
  {
    var budget := state.calls[c].budget;
    attempts, succeeded := 0, false;
    var again := true;
    while again
      invariant state.Valid() && Alone(state.View(), c) && |state.calls| == |old(state.calls)| && state.clock <= now
      invariant state.calls[c].budget == budget && state.calls[c].dispatched == state.calls[c].attempts == attempts
      invariant again ==> state.calls[c].phase == Ready && attempts <= budget
                          && Dispatches(outcomes, budget, attempts) == Dispatches(outcomes, budget, 0)
      invariant !again ==> state.calls[c].phase == Finished && attempts == Dispatches(outcomes, budget, 0)
                           && succeeded == outcomes[attempts - 1].Success?
      decreases budget + 1 - attempts, again
    {
      again, succeeded := Attempt(state, c, outcomes[attempts], now);
      attempts := attempts + 1;
    }
  }

  /** One round of the loop. */
  method Attempt(state: ResourceState, c: nat, outcome: Outcome, now: int) returns (again: bool, succeeded: bool)
    requires state.Valid() && Alone(state.View(), c) && state.calls[c].phase == Ready && state.clock <= now && now > 0
    modifies state
    ensures state.Valid() && Alone(state.View(), c) && |state.calls| == |old(state.calls)| && state.clock <= now
    ensures var k, k' := old(state.calls)[c], state.calls[c];
            && k'.budget == k.budget && k'.attempts == k.attempts + 1 && k'.dispatched == k.dispatched + 1
            && (again <==> outcome == Failure(true) && k.attempts + 1 <= k.budget)
            && k'.phase == if again then Ready else Finished
    ensures succeeded == outcome.Success?
  {
    Acquire(state, c);
    AloneMove(state.View(), c, Move.Start(c));
    state.Start(c);
    assert HolderOk(state.table, state.gates, state.calls[c]);
    AloneMove(state.View(), c, Move.End(c, outcome, now));
    again := state.End(c, outcome, now);
    succeeded := outcome.Success?;
  }

  /** `_acquire`, without anybody to wait for. */
  method Acquire(state: ResourceState, c: nat)
    requires state.Valid() && Alone(state.View(), c) && state.calls[c].phase == Ready
    modifies state
    ensures state.Valid() && Alone(state.View(), c) && |state.calls| == |old(state.calls)| && state.clock == old(state.clock)
    ensures var k, k' := old(state.calls)[c], state.calls[c];
            k'.budget == k.budget && k'.attempts == k.attempts + 1 && k'.dispatched == k.dispatched && k'.phase == GlobalHeld
  {
    AloneNeverWaits(state.View(), c);
    AloneMove(state.View(), c, Move.BeginAttempt(c));
    state.BeginAttempt(c);
    AloneNeverWaits(state.View(), c);
    AloneMove(state.View(), c, Move.TakeActor(c));
    state.TakeActor(c);
    AloneNeverWaits(state.View(), c);
    AloneMove(state.View(), c, Move.TakeGlobal(c));
    state.TakeGlobal(c);
  }

  class Limiter {
    const gemini: ResourceState
    const jira: ResourceState
    const attachment: ResourceState
    var closed: bool
    var drained: bool

    function Of(kind: Runs.Kind): ResourceState {
      match kind
      case Gemini => gemini
      case Jira => jira
      case AttachmentUpload => attachment
    }

    ghost function View(): Runs.State
      reads this, gemini, jira, attachment
    {
      Runs.State(Runs.Assemble(gemini.View(), jira.View(), attachment.View()), closed, drained)
    }

    predicate Distinct() { gemini != jira && jira != attachment && gemini != attachment }

    ghost predicate Valid()
      reads this, gemini, jira, attachment
    {
      Distinct() && Runs.SystemInv(View())
    }

    constructor (gemini: Limits, jira: Limits, attachment: Limits)
      requires LimitsOk(gemini) && LimitsOk(jira) && LimitsOk(attachment)
      ensures Valid() && Runs.Started(View())
      ensures this.gemini.limits == gemini && this.jira.limits == jira && this.attachment.limits == attachment
    {
      this.gemini := new ResourceState(gemini);
      this.jira := new ResourceState(jira);
      this.attachment := new ResourceState(attachment);
      closed, drained := false, true;
    }

    /** Only one resource was touched. */
    twostate lemma OneChanged(kind: Runs.Kind)
      requires Distinct()
      requires forall k: Runs.Kind {:trigger Of(k)} :: k != kind ==> Of(k).View() == old(Of(k).View())
      ensures View().resources == old(View()).resources[kind := Of(kind).View()]
    {
      forall k: Runs.Kind ensures View().resources[k] == Of(k).View() && old(View()).resources[k] == old(Of(k).View()) {
        match k
        case Gemini =>
        case Jira =>
        case AttachmentUpload =>
      }
      assert Of(Runs.Gemini) == gemini && Of(Runs.Jira) == jira && Of(Runs.AttachmentUpload) == attachment;
    }

    /** The drain check of `_finish` and `close`. */
    method SignalIfEmpty() returns (empty: bool)
      modifies `drained
      ensures empty <==> Runs.Empty(View())
      ensures drained == (old(drained) || empty)
    {
      empty := gemini.admitted == 0 && jira.admitted == 0 && attachment.admitted == 0;
      assert forall kind: Runs.Kind :: View().resources[kind].admitted == Of(kind).admitted;
      if empty {
        drained := true;
      }
    }

    method Admit(kind: Runs.Kind, actor: nat, budget: nat, now: int) returns (admission: Admission)
      requires Valid() && CanMove(Of(kind).View(), Move.Admit(actor, budget, now))
      modifies this, Of(kind)
      ensures Valid() && View() == Runs.Next(old(View()), Runs.On(kind, Move.Admit(actor, budget, now)))
      ensures admission == if old(closed) then Closed else AdmissionOf(old(Of(kind).View()), now)
    {
      Runs.StepInv(View(), Runs.On(kind, Move.Admit(actor, budget, now)));
      Runs.AfterAdmit(View(), kind, actor, budget, now);
      if closed { return Closed; }
      admission := Enter(kind, actor, budget, now);
    }

    method Enter(kind: Runs.Kind, actor: nat, budget: nat, now: int) returns (admission: Admission)
      requires Distinct() && CanMove(Of(kind).View(), Move.Admit(actor, budget, now))
      modifies `drained, Of(kind)
      ensures View().resources == old(View()).resources[kind := AdmitMove(old(Of(kind).View()), actor, budget, now)]
      ensures admission == AdmissionOf(old(Of(kind).View()), now)
      ensures drained == (old(drained) && admission != Accepted)
    {
      admission := Of(kind).TryAdmit(actor, budget, now);
      OneChanged(kind);
      if admission == Accepted {
        drained := false;
      }
    }

    /** The end of an operation, and `_finish` when the call does not go round again. */
    method End(kind: Runs.Kind, c: nat, outcome: Outcome, now: int) returns (again: bool)
      requires Valid() && CanMove(Of(kind).View(), Move.End(c, outcome, now))
      modifies this, Of(kind)
      ensures Valid() && View() == Runs.Next(old(View()), Runs.On(kind, Move.End(c, outcome, now)))
    {
      Runs.StepInv(View(), Runs.On(kind, Move.End(c, outcome, now)));
      assert Inv(View().resources[kind]);
      again := Complete(kind, c, outcome, now);
    }

    method Complete(kind: Runs.Kind, c: nat, outcome: Outcome, now: int) returns (again: bool)
      requires Distinct() && Of(kind).Valid() && CanMove(Of(kind).View(), Move.End(c, outcome, now))
      modifies this, Of(kind)
      ensures View() == Runs.Next(old(View()), Runs.On(kind, Move.End(c, outcome, now)))
    {
      Runs.AfterMove(View(), kind, Move.End(c, outcome, now));
      again := Of(kind).End(c, outcome, now);
      OneChanged(kind);
      if !again {
        var _ := SignalIfEmpty();
      }
    }

    method Interrupt(kind: Runs.Kind, c: nat)
      requires Valid() && CanMove(Of(kind).View(), Move.Interrupt(c))
      modifies this, Of(kind)
      ensures Valid() && View() == Runs.Next(old(View()), Runs.On(kind, Move.Interrupt(c)))
    {
      Runs.StepInv(View(), Runs.On(kind, Move.Interrupt(c)));
      assert Inv(View().resources[kind]);
      Abandon(kind, c);
    }

    method Abandon(kind: Runs.Kind, c: nat)
      requires Distinct() && Of(kind).Valid() && CanMove(Of(kind).View(), Move.Interrupt(c))
      modifies this, Of(kind)
      ensures View() == Runs.Next(old(View()), Runs.On(kind, Move.Interrupt(c)))
    {
      Runs.AfterMove(View(), kind, Move.Interrupt(c));
      Of(kind).Interrupt(c);
      OneChanged(kind);
      var _ := SignalIfEmpty();
    }

    method Close() returns (empty: bool)
      requires Valid()
      modifies `closed, `drained
      ensures Valid() && View() == Runs.Next(old(View()), Runs.Close)
      ensures closed && (empty <==> Runs.Empty(View())) && (drained <==> empty)
    {
      Runs.StepInv(View(), Runs.Close);
      closed := true;
      empty := SignalIfEmpty();
    }
  }
}
