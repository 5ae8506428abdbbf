/** The provider limits of one resource as a transition system: a semaphore for
    everybody, one semaphore for each actor that lives only as long as somebody
    refers to it, retries inside one admission, and a cooldown. One move is one
    stretch of a caller's coroutine between two suspension points. */
module ResourceLimiterSpec {
  import opened Sums

  /** A `ResourceLimitSpec`; durations and instants are counted in clock ticks. */
  datatype Limits = Limits(globalLimit: int, perActorLimit: int, queueLimit: int, retryBudget: int, threshold: int, cooldown: int)

  predicate LimitsOk(l: Limits) {
    0 < l.perActorLimit <= l.globalLimit && l.queueLimit >= 0 && l.retryBudget >= 0 && l.threshold > 0 && l.cooldown >= 0
  }

  /** Where an admitted call is: between attempts (before the first, or in a
      backoff); queued for its actor's semaphore; queued for the global one; in
      possession of both but not resumed; running its operation; gone. */
  datatype Phase = Ready | Waiting | ActorHeld | GlobalHeld | Running | Finished

  /** `gate` names the gate of the current attempt; `dispatched` counts the
      operations begun. */
  datatype Call = Call(actor: nat, budget: nat, phase: Phase, gate: nat, attempts: nat, dispatched: nat)

  datatype Gate = Gate(references: int, free: int)

  type Table = map<nat, nat>

  datatype Resource = Resource(
    limits: Limits, globalFree: int, admitted: int, active: int, failures: int,
    cooldownUntil: int,      // zero when no cooldown is set
    clock: int,              // the latest instant read so far
    table: Table,            // actor to gate identity
    gates: seq<Gate>,        // every gate ever created
    calls: seq<Call>)        // every call ever admitted

  datatype Outcome = Success | Failure(retryable: bool)

  datatype Move =
    | Admit(actor: nat, budget: nat, now: int)
    | BeginAttempt(c: nat)             // find or create the actor's gate and refer to it
    | TakeActor(c: nat)                // the actor's semaphore serves this call
    | TakeGlobal(c: nat)               // the global semaphore serves this call
    | Start(c: nat)                    // active is raised and the operation begins
    | End(c: nat, outcome: Outcome, now: int)
    | Interrupt(c: nat)                // the deadline or a cancellation, at any suspension
    | Observe(now: int)                // a snapshot is taken

  datatype Admission = Accepted | Overloaded | CoolingDown | Closed

  function Init(limits: Limits): Resource {
    Resource(limits, limits.globalLimit, 0, 0, 0, 0, 0, map[], [], [])
  }

  predicate Ticks(r: Resource, now: int) { r.clock <= now && now > 0 }

  predicate CanMove(r: Resource, move: Move) {
    match move
    case Admit(actor, budget, now) => actor > 0 && budget <= r.limits.retryBudget && Ticks(r, now)
    case BeginAttempt(c) => c < |r.calls| && r.calls[c].phase == Ready
                            && (r.calls[c].actor in r.table ==> r.table[r.calls[c].actor] < |r.gates|)
    case TakeActor(c) => c < |r.calls| && r.calls[c].phase == Waiting && r.calls[c].gate < |r.gates| && r.gates[r.calls[c].gate].free > 0
    case TakeGlobal(c) => c < |r.calls| && r.calls[c].phase == ActorHeld && r.globalFree > 0
    case Start(c) => c < |r.calls| && r.calls[c].phase == GlobalHeld
    case End(c, _, now) => c < |r.calls| && r.calls[c].phase == Running && r.calls[c].gate < |r.gates| && Ticks(r, now)
    case Interrupt(c) => c < |r.calls| && r.calls[c].phase != Finished && (r.calls[c].phase == Ready || r.calls[c].gate < |r.gates|)
    case Observe(now) => Ticks(r, now)
  }

  function ResetExpired(r: Resource, now: int): Resource {
    if r.cooldownUntil != 0 && r.cooldownUntil <= now then r.(cooldownUntil := 0, failures := 0, clock := now) else r.(clock := now)
  }

  function AdmissionOf(r: Resource, now: int): Admission {
    if ResetExpired(r, now).cooldownUntil > now then CoolingDown
    else if r.admitted >= r.limits.globalLimit + r.limits.queueLimit then Overloaded
    else Accepted
  }

  function AdmitMove(r: Resource, actor: nat, budget: nat, now: int): Resource {
    var reset := ResetExpired(r, now);
    if AdmissionOf(r, now) != Accepted then reset else
      reset.(admitted := r.admitted + 1, calls := r.calls + [Call(actor, budget, Ready, 0, 0, 0)])
  }

  function BeginMove(r: Resource, c: nat): Resource
    requires CanMove(r, BeginAttempt(c))
  {
    var k := r.calls[c];
    var g := if k.actor in r.table then r.table[k.actor] else |r.gates|;
    var gates := if k.actor in r.table then r.gates else r.gates + [Gate(0, r.limits.perActorLimit)];
    r.(table := r.table[k.actor := g],
       gates := gates[g := gates[g].(references := gates[g].references + 1)],
       calls := r.calls[c := k.(phase := Waiting, gate := g, attempts := k.attempts + 1)])
  }

  /** Give back all that the call holds, and go on to the next phase. */
  function ReleaseMove(r: Resource, c: nat, next: Phase): Resource
    requires c < |r.calls| && (HasReference(r.calls[c]) ==> r.calls[c].gate < |r.gates|)
  {
    var k := r.calls[c];
    var released := r.(globalFree := r.globalFree + GlobalPermit(k),
                       active := r.active - IsRunning(k),
                       admitted := r.admitted - if next == Finished then 1 else 0,
                       calls := r.calls[c := k.(phase := next)]);
    if !HasReference(k) then released else
      var gate := Gate(r.gates[k.gate].references - 1, r.gates[k.gate].free + ActorPermit(k));
      released.(gates := r.gates[k.gate := gate],
                table := if gate.references == 0 && k.actor in r.table && r.table[k.actor] == k.gate then r.table - {k.actor} else r.table)
  }

  function Recorded(r: Resource, outcome: Outcome, now: int): Resource {
    match outcome
    case Success => r.(failures := 0, cooldownUntil := 0, clock := now)
    case Failure(retryable) =>
      if !retryable then r.(clock := now) else
        r.(failures := r.failures + 1, clock := now,
           cooldownUntil := if r.failures + 1 >= r.limits.threshold then now + r.limits.cooldown else r.cooldownUntil)
  }

  /** Another attempt follows exactly a retryable failure within the budget. */
  function AfterEnd(k: Call, outcome: Outcome): Phase {
    if outcome == Failure(true) && k.attempts <= k.budget then Ready else Finished
  }

  function Apply(r: Resource, move: Move): Resource
    requires CanMove(r, move)
  {
    match move
    case Admit(actor, budget, now) => AdmitMove(r, actor, budget, now)
    case BeginAttempt(c) => BeginMove(r, c)
    case TakeActor(c) =>
      var k := r.calls[c];
      r.(gates := r.gates[k.gate := r.gates[k.gate].(free := r.gates[k.gate].free - 1)], calls := r.calls[c := k.(phase := ActorHeld)])
    case TakeGlobal(c) => r.(globalFree := r.globalFree - 1, calls := r.calls[c := r.calls[c].(phase := GlobalHeld)])
    case Start(c) =>
      r.(active := r.active + 1, calls := r.calls[c := r.calls[c].(phase := Running, dispatched := r.calls[c].dispatched + 1)])
    case End(c, outcome, now) => ReleaseMove(Recorded(r, outcome, now), c, AfterEnd(r.calls[c], outcome))
    case Interrupt(c) => ReleaseMove(r, c, Finished)
    case Observe(now) => ResetExpired(r, now)
  }

  // ---- Weights -----------------------------------------------------------------

  predicate HasReference(k: Call) { k.phase != Ready && k.phase != Finished }
  function IsRunning(k: Call): int { if k.phase == Running then 1 else 0 }
  function GlobalPermit(k: Call): int { if k.phase == GlobalHeld || k.phase == Running then 1 else 0 }
  function ActorPermit(k: Call): int { if HasReference(k) && k.phase != Waiting then 1 else 0 }
  function IsUnfinished(k: Call): int { if k.phase != Finished then 1 else 0 }
  function References(g: nat): Call -> int { (k: Call) => if HasReference(k) && k.gate == g then 1 else 0 }
  function Permits(g: nat): Call -> int { (k: Call) => if k.gate == g then ActorPermit(k) else 0 }
  function RunningFor(actor: nat): Call -> int { (k: Call) => if k.actor == actor then IsRunning(k) else 0 }

  // ---- Invariant -----------------------------------------------------------------

  /** A gate counts its references and its permits exactly. */
  ghost predicate GateOk(limit: int, gates: seq<Gate>, calls: seq<Call>, g: nat)
    requires g < |gates|
  {
    && gates[g].references == Sum(calls, References(g))
    && gates[g].free == limit - Sum(calls, Permits(g))
    && gates[g].free >= 0
  }

  ghost predicate GatesOk(limit: int, gates: seq<Gate>, calls: seq<Call>) {
    forall g: nat {:trigger GateOk(limit, gates, calls, g)} :: g < |gates| ==> GateOk(limit, gates, calls, g)
  }

  predicate Listed(table: Table, gates: seq<Gate>, actor: nat)
    requires actor in table
  {
    table[actor] < |gates| && gates[table[actor]].references > 0
  }

  ghost predicate TableOk(table: Table, gates: seq<Gate>) {
    && (forall a {:trigger Listed(table, gates, a)} :: a in table ==> Listed(table, gates, a))
    && (forall a, b :: a in table && b in table && table[a] == table[b] ==> a == b)
  }

  /** Who refers to a gate refers to the gate its actor has now. */
  predicate HolderOk(table: Table, gates: seq<Gate>, k: Call) {
    HasReference(k) ==> k.gate < |gates| && k.actor in table && table[k.actor] == k.gate
  }

  predicate AttemptsOk(limits: Limits, k: Call) {
    && k.budget <= limits.retryBudget
    && (k.phase == Ready ==> k.dispatched == k.attempts <= k.budget)
    && (k.phase == Running ==> k.dispatched == k.attempts)
    && (HasReference(k) && k.phase != Running ==> k.dispatched + 1 == k.attempts)
    && k.dispatched <= k.attempts <= k.budget + 1
  }

  ghost predicate CallsOk(limits: Limits, table: Table, gates: seq<Gate>, calls: seq<Call>) {
    forall c {:trigger calls[c]} :: 0 <= c < |calls| ==> HolderOk(table, gates, calls[c]) && AttemptsOk(limits, calls[c])
  }

  ghost predicate Counted(r: Resource) {
    && r.admitted == Sum(r.calls, IsUnfinished) <= r.limits.globalLimit + r.limits.queueLimit
    && r.active == Sum(r.calls, IsRunning)
    && r.globalFree == r.limits.globalLimit - Sum(r.calls, GlobalPermit)
    && r.globalFree >= 0
  }

  /** A cooldown is set exactly while the threshold is met, and never reaches
      further than the configured time from the latest clock reading. */
  predicate CooldownOk(r: Resource) {
    && r.failures >= 0 && r.clock >= 0
    && (r.cooldownUntil > 0 <==> r.failures >= r.limits.threshold)
    && 0 <= r.cooldownUntil <= r.clock + r.limits.cooldown
  }

  ghost predicate Inv(r: Resource) {
    && LimitsOk(r.limits)
    && GatesOk(r.limits.perActorLimit, r.gates, r.calls)
    && TableOk(r.table, r.gates)
    && CallsOk(r.limits, r.table, r.gates, r.calls)
    && Counted(r)
    && CooldownOk(r)
  }

  // ---- Preservation ---------------------------------------------------------------

  lemma InitInv(limits: Limits)
    requires LimitsOk(limits)
    ensures Inv(Init(limits))
  {}

  lemma ReplaceCounts(calls: seq<Call>, c: nat, k: Call)
    requires c < |calls|
    ensures var after := calls[c := k];
            && Sum(after, IsUnfinished) == Sum(calls, IsUnfinished) - IsUnfinished(calls[c]) + IsUnfinished(k)
            && Sum(after, IsRunning) == Sum(calls, IsRunning) - IsRunning(calls[c]) + IsRunning(k)
            && Sum(after, GlobalPermit) == Sum(calls, GlobalPermit) - GlobalPermit(calls[c]) + GlobalPermit(k)
  {
    SumUpdate(calls, c, k, IsUnfinished);
    SumUpdate(calls, c, k, IsRunning);
    SumUpdate(calls, c, k, GlobalPermit);
  }

  lemma AppendCounts(calls: seq<Call>, k: Call)
    ensures var after := calls + [k];
            && Sum(after, IsUnfinished) == Sum(calls, IsUnfinished) + IsUnfinished(k)
            && Sum(after, IsRunning) == Sum(calls, IsRunning) + IsRunning(k)
            && Sum(after, GlobalPermit) == Sum(calls, GlobalPermit) + GlobalPermit(k)
  {
    SumAppend(calls, k, IsUnfinished);
    SumAppend(calls, k, IsRunning);
    SumAppend(calls, k, GlobalPermit);
  }

  /** One call replaced, and the one gate it is concerned with adjusted by what
      the call takes or gives back. */
  lemma GatesAfterReplace(limit: int, gates: seq<Gate>, calls: seq<Call>, c: nat, k: Call, g: nat, gate: Gate)
    requires GatesOk(limit, gates, calls) && c < |calls| && g < |gates|
    requires HasReference(calls[c]) ==> calls[c].gate == g
    requires HasReference(k) ==> k.gate == g
    requires gate.references == gates[g].references - References(g)(calls[c]) + References(g)(k)
    requires gate.free == gates[g].free + Permits(g)(calls[c]) - Permits(g)(k) && gate.free >= 0
    ensures GatesOk(limit, gates[g := gate], calls[c := k])
  {
    var gates', calls' := gates[g := gate], calls[c := k];
    forall h: nat | h < |gates'| ensures GateOk(limit, gates', calls', h) {
      assert GateOk(limit, gates, calls, h);
      SumUpdate(calls, c, k, References(h));
      SumUpdate(calls, c, k, Permits(h));
    }
  }

  /** Nobody refers to a gate without references. */
  lemma NoReferences(calls: seq<Call>, g: nat)
    requires Sum(calls, References(g)) <= 0
    ensures forall c {:trigger calls[c]} :: 0 <= c < |calls| && HasReference(calls[c]) ==> calls[c].gate != g
  {
    forall c | 0 <= c < |calls| && HasReference(calls[c]) ensures calls[c].gate != g {
      SumNonNegative(calls, References(g));
      assert References(g)(calls[c]) <= 0;
    }
  }

  lemma AdmitInv(r: Resource, actor: nat, budget: nat, now: int)
    requires Inv(r) && CanMove(r, Admit(actor, budget, now))
    ensures Inv(AdmitMove(r, actor, budget, now))
  {
    var r' := AdmitMove(r, actor, budget, now);
    if AdmissionOf(r, now) == Accepted {
      var k := Call(actor, budget, Ready, 0, 0, 0);
      AppendCounts(r.calls, k);
      AppendGates(r.limits.perActorLimit, r.gates, r.calls, k);
    }
  }

  lemma AppendGates(limit: int, gates: seq<Gate>, calls: seq<Call>, k: Call)
    requires GatesOk(limit, gates, calls) && !HasReference(k)
    ensures GatesOk(limit, gates, calls + [k])
  {
    var calls' := calls + [k];
    forall g: nat | g < |gates| ensures GateOk(limit, gates, calls', g) {
      assert GateOk(limit, gates, calls, g);
      SumAppend(calls, k, References(g));
      SumAppend(calls, k, Permits(g));
    }
  }

  /** A new gate starts with no references and all its permits. */
  lemma NewGate(r: Resource)
    requires Inv(r)
    ensures GatesOk(r.limits.perActorLimit, r.gates + [Gate(0, r.limits.perActorLimit)], r.calls)
  {
    var n := |r.gates|;
    var gates := r.gates + [Gate(0, r.limits.perActorLimit)];
    forall c | 0 <= c < |r.calls| ensures References(n)(r.calls[c]) == 0 && Permits(n)(r.calls[c]) == 0 {
      assert HolderOk(r.table, r.gates, r.calls[c]);
    }
    SumZero(r.calls, References(n));
    SumZero(r.calls, Permits(n));
    forall g: nat | g < |gates| ensures GateOk(r.limits.perActorLimit, gates, r.calls, g) {
      if g < n { assert GateOk(r.limits.perActorLimit, r.gates, r.calls, g); }
    }
  }

  /** The gate the attempt refers to, and the gates with it. */
  lemma BeginGates(r: Resource, c: nat)
    requires Inv(r) && CanMove(r, BeginAttempt(c))
    ensures GatesOk(r.limits.perActorLimit, BeginMove(r, c).gates, BeginMove(r, c).calls)
    ensures BeginMove(r, c).gates[BeginMove(r, c).calls[c].gate].references > 0
  {
    var r', k := BeginMove(r, c), r.calls[c];
    var g := r'.calls[c].gate;
    var gates := if k.actor in r.table then r.gates else r.gates + [Gate(0, r.limits.perActorLimit)];
    if k.actor in r.table { assert Listed(r.table, r.gates, k.actor); } else { NewGate(r); }
    assert GateOk(r.limits.perActorLimit, gates, r.calls, g);
    SumNonNegative(r.calls, References(g));
    GatesAfterReplace(r.limits.perActorLimit, gates, r.calls, c, r'.calls[c], g, r'.gates[g]);
  }

  lemma BeginTable(r: Resource, c: nat)
    requires Inv(r) && CanMove(r, BeginAttempt(c))
    ensures TableOk(BeginMove(r, c).table, BeginMove(r, c).gates)
    ensures CallsOk(r.limits, BeginMove(r, c).table, BeginMove(r, c).gates, BeginMove(r, c).calls)
  {
    var r', k := BeginMove(r, c), r.calls[c];
    BeginGates(r, c);
    forall a | a in r'.table ensures Listed(r'.table, r'.gates, a) {
      if a != k.actor { assert Listed(r.table, r.gates, a); }
    }
    forall a, b | a in r'.table && b in r'.table && r'.table[a] == r'.table[b] ensures a == b {
      if a != k.actor { assert Listed(r.table, r.gates, a); }
      if b != k.actor { assert Listed(r.table, r.gates, b); }
    }
    CallsAfterReplace(r.limits, r.table, r.gates, r.calls, c, r'.calls[c], r'.table, r'.gates);
  }

  lemma BeginInv(r: Resource, c: nat)
    requires Inv(r) && CanMove(r, BeginAttempt(c))
    ensures Inv(BeginMove(r, c))
  {
    BeginGates(r, c);
    BeginTable(r, c);
    ReplaceCounts(r.calls, c, BeginMove(r, c).calls[c]);
  }

  lemma CallsAfterReplace(limits: Limits, table: Table, gates: seq<Gate>, calls: seq<Call>, c: nat, k: Call, table': Table, gates': seq<Gate>)
    requires CallsOk(limits, table, gates, calls) && c < |calls| && |gates| <= |gates'|
    requires HolderOk(table', gates', k) && AttemptsOk(limits, k)
    requires forall d {:trigger calls[d]} :: 0 <= d < |calls| && d != c && HasReference(calls[d]) ==>
               calls[d].actor in table && calls[d].actor in table' && table'[calls[d].actor] == table[calls[d].actor]
    ensures CallsOk(limits, table', gates', calls[c := k])
  {
    var calls' := calls[c := k];
    forall d | 0 <= d < |calls'| ensures HolderOk(table', gates', calls'[d]) && AttemptsOk(limits, calls'[d]) {
      assert HolderOk(table, gates, calls[d]) && AttemptsOk(limits, calls[d]);
    }
  }

  lemma TakeInv(r: Resource, move: Move)
    requires Inv(r) && CanMove(r, move) && (move.TakeActor? || move.TakeGlobal? || move.Start?)
    ensures Inv(Apply(r, move))
  {
    var r', c := Apply(r, move), move.c;
    var k, k' := r.calls[c], r'.calls[c];
    assert HolderOk(r.table, r.gates, k) && AttemptsOk(r.limits, k);
    var g := k.gate;
    assert Listed(r.table, r.gates, k.actor) && GateOk(r.limits.perActorLimit, r.gates, r.calls, g);
    GatesAfterReplace(r.limits.perActorLimit, r.gates, r.calls, c, k', g, r'.gates[g]);
    assert r'.gates == r.gates[g := r'.gates[g]];
    ReplaceCounts(r.calls, c, k');
    forall a | a in r.table ensures Listed(r.table, r'.gates, a) { assert Listed(r.table, r.gates, a); }
    CallsAfterReplace(r.limits, r.table, r.gates, r.calls, c, k', r.table, r'.gates);
  }

  /** Giving up a reference: the gate leaves the table exactly when it was the last. */
  lemma ReleaseInv(r: Resource, c: nat, next: Phase)
    requires Inv(r) && c < |r.calls| && r.calls[c].phase != Finished
    requires next == Finished || (next == Ready && r.calls[c].phase == Running && r.calls[c].attempts <= r.calls[c].budget)
    requires HasReference(r.calls[c]) ==> r.calls[c].gate < |r.gates|
    ensures Inv(ReleaseMove(r, c, next))
  {
    var r' := ReleaseMove(r, c, next);
    var k, k' := r.calls[c], r'.calls[c];
    assert HolderOk(r.table, r.gates, k) && AttemptsOk(r.limits, k);
    ReplaceCounts(r.calls, c, k');
    if HasReference(k) {
      assert GateOk(r.limits.perActorLimit, r.gates, r.calls, k.gate);
      GatesAfterReplace(r.limits.perActorLimit, r.gates, r.calls, c, k', k.gate, r'.gates[k.gate]);
      ReleaseTable(r, c, next);
    } else {
      GatesUntouched(r.limits.perActorLimit, r.gates, r.calls, c, k');
      CallsAfterReplace(r.limits, r.table, r.gates, r.calls, c, k', r.table, r.gates);
    }
  }

  lemma GatesUntouched(limit: int, gates: seq<Gate>, calls: seq<Call>, c: nat, k: Call)
    requires GatesOk(limit, gates, calls) && c < |calls| && !HasReference(calls[c]) && !HasReference(k)
    ensures GatesOk(limit, gates, calls[c := k])
  {
    var calls' := calls[c := k];
    forall g: nat | g < |gates| ensures GateOk(limit, gates, calls', g) {
      assert GateOk(limit, gates, calls, g);
      SumUpdate(calls, c, k, References(g));
      SumUpdate(calls, c, k, Permits(g));
    }
  }

  lemma ReleaseTable(r: Resource, c: nat, next: Phase)
    requires Inv(r) && c < |r.calls| && HasReference(r.calls[c]) && r.calls[c].gate < |r.gates|
    requires next == Finished || (next == Ready && r.calls[c].phase == Running && r.calls[c].attempts <= r.calls[c].budget)
    requires var r' := ReleaseMove(r, c, next); GatesOk(r.limits.perActorLimit, r'.gates, r'.calls)
    ensures var r' := ReleaseMove(r, c, next);
            TableOk(r'.table, r'.gates) && CallsOk(r.limits, r'.table, r'.gates, r'.calls)
  {
    var r' := ReleaseMove(r, c, next);
    var k, k', g := r.calls[c], r'.calls[c], r.calls[c].gate;
    assert HolderOk(r.table, r.gates, k) && AttemptsOk(r.limits, k);
    assert GateOk(r.limits.perActorLimit, r'.gates, r'.calls, g);
    SumNonNegative(r'.calls, References(g));
    forall a | a in r'.table ensures Listed(r'.table, r'.gates, a) { assert Listed(r.table, r.gates, a); }
    if r'.gates[g].references == 0 { NoReferences(r'.calls, g); }
    forall d | 0 <= d < |r.calls| && d != c && HasReference(r.calls[d])
      ensures r.calls[d].actor in r.table && r.calls[d].actor in r'.table && r'.table[r.calls[d].actor] == r.table[r.calls[d].actor]
    {
      assert HolderOk(r.table, r.gates, r.calls[d]);
      assert r'.calls[d] == r.calls[d];
    }
    CallsAfterReplace(r.limits, r.table, r.gates, r.calls, c, k', r'.table, r'.gates);
  }

  lemma MoveInv(r: Resource, move: Move)
    requires Inv(r) && CanMove(r, move)
    ensures Inv(Apply(r, move))
  {
    match move
    case Admit(actor, budget, now) => AdmitInv(r, actor, budget, now);
    case BeginAttempt(c) => BeginInv(r, c);
    case TakeActor(c) => TakeInv(r, move);
    case TakeGlobal(c) => TakeInv(r, move);
    case Start(c) => TakeInv(r, move);
    case End(c, outcome, now) => ReleaseInv(Recorded(r, outcome, now), c, AfterEnd(r.calls[c], outcome));
    case Interrupt(c) => ReleaseInv(r, c, Finished);
    case Observe(now) =>
  }

  // ---- What the invariant means ------------------------------------------------------

  lemma GlobalBound(r: Resource)
    requires Inv(r)
    ensures 0 <= Sum(r.calls, IsRunning) == r.active <= r.limits.globalLimit
    ensures r.active <= r.admitted <= r.limits.globalLimit + r.limits.queueLimit
    ensures 0 <= r.globalFree <= r.limits.globalLimit
  {
    SumNonNegative(r.calls, IsRunning);
    SumNonNegative(r.calls, GlobalPermit);
    SumMonotone(r.calls, IsRunning, GlobalPermit);
    SumMonotone(r.calls, IsRunning, IsUnfinished);
  }

  /** Whatever happened to an actor's gates before, its running calls are all on
      the gate it has now, and that gate let no more than the limit through. */
  lemma ActorBound(r: Resource, actor: nat)
    requires Inv(r)
    ensures 0 <= Sum(r.calls, RunningFor(actor)) <= r.limits.perActorLimit
    ensures actor !in r.table ==> Sum(r.calls, RunningFor(actor)) == 0
  {
    SumNonNegative(r.calls, RunningFor(actor));
    if actor in r.table {
      var g := r.table[actor];
      assert Listed(r.table, r.gates, actor) && GateOk(r.limits.perActorLimit, r.gates, r.calls, g);
      forall c | 0 <= c < |r.calls| ensures RunningFor(actor)(r.calls[c]) <= Permits(g)(r.calls[c]) {
        assert HolderOk(r.table, r.gates, r.calls[c]);
      }
      SumMonotone(r.calls, RunningFor(actor), Permits(g));
    } else {
      forall c | 0 <= c < |r.calls| ensures RunningFor(actor)(r.calls[c]) == 0 {
        assert HolderOk(r.table, r.gates, r.calls[c]);
      }
      SumZero(r.calls, RunningFor(actor));
    }
  }

  /** No release ever lifts a semaphore above its bound. */
  lemma PermitsBounded(r: Resource, g: nat)
    requires Inv(r) && g < |r.gates|
    ensures 0 <= r.gates[g].free <= r.limits.perActorLimit && r.gates[g].references >= 0
  {
    assert GateOk(r.limits.perActorLimit, r.gates, r.calls, g);
    SumNonNegative(r.calls, Permits(g));
    SumNonNegative(r.calls, References(g));
  }

  /** Every way out gave back exactly what was taken: when no call is at work, no
      gate is left and every permit is back. */
  lemma NothingLeaks(r: Resource)
    requires Inv(r) && forall c :: 0 <= c < |r.calls| ==> !HasReference(r.calls[c])
    ensures r.table == map[] && r.globalFree == r.limits.globalLimit && r.active == 0
  {
    SumZero(r.calls, GlobalPermit);
    SumZero(r.calls, IsRunning);
    if actor :| actor in r.table {
      var g := r.table[actor];
      assert Listed(r.table, r.gates, actor) && GateOk(r.limits.perActorLimit, r.gates, r.calls, g);
      SumZero(r.calls, References(g));
      assert false;
    }
  }

  lemma NobodyAdmitted(r: Resource)
    requires Inv(r)
    ensures r.admitted >= 0
    ensures r.admitted == 0 ==> r.table == map[] && r.globalFree == r.limits.globalLimit && r.active == 0
  {
    SumNonNegative(r.calls, IsUnfinished);
    if r.admitted == 0 {
      forall c | 0 <= c < |r.calls| ensures !HasReference(r.calls[c]) { assert IsUnfinished(r.calls[c]) <= 0; }
      NothingLeaks(r);
    }
  }

  predicate IsSuccess(move: Move) { move.End? && move.outcome.Success? }

  /** A cooldown ends only by a success or by the clock. */
  lemma CooldownHolds(r: Resource, move: Move, until: int)
    requires Inv(r) && CanMove(r, move) && !IsSuccess(move) && until > 0
    requires r.clock < until ==> r.cooldownUntil >= until
    ensures r.clock <= Apply(r, move).clock
    ensures Apply(r, move).clock < until ==> Apply(r, move).cooldownUntil >= until
    ensures move.Admit? && move.now < until ==> Apply(r, move).calls == r.calls
  {
    var r' := Apply(r, move);
    if move.End? && move.outcome == Failure(true) && move.now < until {
      assert r.cooldownUntil <= move.now + r.limits.cooldown;
    }
  }

  predicate IsFailure(move: Move) { move.End? && move.outcome == Failure(true) }

  /** The failure that meets the threshold starts a cooldown of the configured length;
      one that does not starts none. */
  lemma CooldownStarts(r: Resource, c: nat, now: int)
    requires Inv(r) && CanMove(r, End(c, Failure(true), now))
    ensures var r' := Apply(r, End(c, Failure(true), now));
            && r'.failures == r.failures + 1 && r'.limits == r.limits && r'.clock == now
            && r'.cooldownUntil == if r.failures + 1 >= r.limits.threshold then now + r.limits.cooldown else 0
  {}

  /** Nothing but such a failure makes a cooldown last longer. */
  lemma CooldownNotExtended(r: Resource, move: Move, until: int)
    requires CanMove(r, move) && !IsFailure(move) && r.cooldownUntil <= until && until >= 0
    ensures Apply(r, move).cooldownUntil <= until
  {}

  /** How failures are counted: one for each retryable failure, none left by a
      success or once a cooldown is over. */
  lemma FailuresCounted(r: Resource, move: Move)
    requires Inv(r) && CanMove(r, move)
    ensures var r' := Apply(r, move);
            && (IsSuccess(move) ==> r'.failures == 0)
            && (IsFailure(move) ==> r'.failures == r.failures + 1)
            && (!IsSuccess(move) && !IsFailure(move) ==>
                  r'.failures == if (move.Admit? || move.Observe?) && 0 < r.cooldownUntil <= move.now then 0 else r.failures)
  {}

  /** What an admission is told, from the fields. */
  lemma AdmissionExactly(r: Resource, now: int)
    requires Inv(r) && Ticks(r, now)
    ensures AdmissionOf(r, now) == CoolingDown <==> now < r.cooldownUntil
    ensures AdmissionOf(r, now) == Overloaded <==> r.cooldownUntil <= now && r.admitted == r.limits.globalLimit + r.limits.queueLimit
    ensures AdmissionOf(r, now) in {Accepted, Overloaded, CoolingDown}
  {}

  // ---- Progress ------------------------------------------------------------------------

  predicate Internal(move: Move) { !move.Admit? && !move.Observe? && !move.Interrupt? }

  /** No deadlock: while a call is admitted, some call can go on by itself. */
  lemma SomeMove(r: Resource) returns (move: Move)
    requires Inv(r) && r.admitted > 0
    ensures CanMove(r, move) && Internal(move)
  {
    var c := SumWitness(r.calls, IsUnfinished);
    var k := r.calls[c];
    assert HolderOk(r.table, r.gates, k);
    if k.phase == Ready {
      if k.actor in r.table { assert Listed(r.table, r.gates, k.actor); }
      move := BeginAttempt(c);
    } else if k.phase == Waiting {
      assert GateOk(r.limits.perActorLimit, r.gates, r.calls, k.gate);
      if r.gates[k.gate].free > 0 {
        move := TakeActor(c);
      } else {
        var h := SumWitness(r.calls, Permits(k.gate));
        move := PermitHolderMoves(r, h);
      }
    } else {
      move := PermitHolderMoves(r, c);
    }
  }

  lemma PermitHolderMoves(r: Resource, c: nat) returns (move: Move)
    requires Inv(r) && c < |r.calls| && ActorPermit(r.calls[c]) == 1
    ensures CanMove(r, move) && Internal(move)
  {
    assert HolderOk(r.table, r.gates, r.calls[c]);
    match r.calls[c].phase
    case GlobalHeld => move := Start(c);
    case Running => move := End(c, Failure(false), r.clock + 1);
    case ActorHeld =>
      if r.globalFree > 0 {
        move := TakeGlobal(c);
      } else {
        var h := SumWitness(r.calls, GlobalPermit);
        assert HolderOk(r.table, r.gates, r.calls[h]);
        move := if r.calls[h].phase == Running then End(h, Failure(false), r.clock + 1) else Start(h);
      }
  }

  /** Steps a call may still take: four to each attempt it has left, and one for
      each attempt to leave it. */
  function Distance(k: Call): int {
    var left := k.budget + 1 - k.attempts;
    match k.phase
    case Ready => 5 * left
    case Waiting => 5 * left + 4
    case ActorHeld => 5 * left + 3
    case GlobalHeld => 5 * left + 2
    case Running => 5 * left + 1
    case Finished => 0
  }

  function Remaining(r: Resource): int { Sum(r.calls, Distance) }

  lemma RemainingNonNegative(r: Resource)
    requires Inv(r)
    ensures Remaining(r) >= 0
  {
    forall c | 0 <= c < |r.calls| ensures Distance(r.calls[c]) >= 0 {
      assert AttemptsOk(r.limits, r.calls[c]);
    }
    SumNonNegative(r.calls, Distance);
  }

  /** Whatever a call does, it uses up what remains. */
  lemma MoveDescends(r: Resource, move: Move)
    requires Inv(r) && CanMove(r, move) && !move.Admit?
    ensures Remaining(Apply(r, move)) <= Remaining(r)
    ensures !move.Observe? ==> Remaining(Apply(r, move)) < Remaining(r)
  {
    if !move.Observe? {
      var r', c := Apply(r, move), move.c;
      assert AttemptsOk(r.limits, r.calls[c]);
      SumUpdate(r.calls, c, r'.calls[c], Distance);
      assert r'.calls == r.calls[c := r'.calls[c]];
    }
  }

  // ---- A call by itself ------------------------------------------------------------------

  /** Every call but c is gone. */
  predicate Alone(r: Resource, c: nat) {
    c < |r.calls| && forall d {:trigger r.calls[d]} :: 0 <= d < |r.calls| && d != c ==> r.calls[d].phase == Finished
  }

  lemma AloneMove(r: Resource, c: nat, move: Move)
    requires Alone(r, c) && CanMove(r, move) && !move.Admit? && !move.Observe? && move.c == c
    ensures Alone(Apply(r, move), c)
  {}

  lemma AloneWhenAdmitted(r: Resource, actor: nat, budget: nat, now: int)
    requires Inv(r) && r.admitted == 0 && CanMove(r, Admit(actor, budget, now)) && AdmissionOf(r, now) == Accepted
    ensures Alone(AdmitMove(r, actor, budget, now), |r.calls|)
  {
    SumNonNegative(r.calls, IsUnfinished);
    forall d | 0 <= d < |r.calls| ensures r.calls[d].phase == Finished { assert IsUnfinished(r.calls[d]) <= 0; }
  }

  lemma {:induction false} SumAlone(calls: seq<Call>, c: nat, f: Call -> int)
    requires c < |calls| && forall d {:trigger calls[d]} :: 0 <= d < |calls| && d != c ==> f(calls[d]) == 0
    ensures Sum(calls, f) == f(calls[c])
  {
    var n := |calls| - 1;
    var front := calls[..n];
    assert forall d :: 0 <= d < n ==> front[d] == calls[d];
    if c == n { SumZero(front, f); } else { SumAlone(front, c, f); }
  }

  /** A call by itself never has to wait. */
  lemma AloneNeverWaits(r: Resource, c: nat)
    requires Inv(r) && Alone(r, c)
    ensures r.calls[c].phase == Ready ==> CanMove(r, BeginAttempt(c))
    ensures r.calls[c].phase == Waiting ==> CanMove(r, TakeActor(c))
    ensures r.calls[c].phase == ActorHeld ==> CanMove(r, TakeGlobal(c))
  {
    var k := r.calls[c];
    assert HolderOk(r.table, r.gates, k);
    if k.actor in r.table { assert Listed(r.table, r.gates, k.actor); }
    SumAlone(r.calls, c, GlobalPermit);
    if k.phase == Waiting {
      assert GateOk(r.limits.perActorLimit, r.gates, r.calls, k.gate);
      SumAlone(r.calls, c, Permits(k.gate));
    }
  }

  lemma AloneDone(r: Resource, c: nat)
    requires Inv(r) && Alone(r, c) && r.calls[c].phase == Finished
    ensures r.admitted == 0
  {
    SumZero(r.calls, IsUnfinished);
  }
}
