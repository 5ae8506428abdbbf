/** The keyed serializer as a transition system. One step is one stretch of the
    caller's coroutine between two suspension points of the event loop. */
module KeyedProcessorSpec {
  import opened Sums
  import opened Wrappers

  datatype WorkKey = Collection(digest: nat) | Workflow(digest: nat)

  /** Where an admitted caller is: queued behind its predecessor's completion
      future; at the head of its key but without an execution slot; handed a slot
      but not resumed; running its operation; or out of the cleanup block. */
  datatype Phase = Waiting | HasTurn | Granted | Running | Finished

  /** One admitted caller. Its completion future is named by its own index.
      `predecessor` is the future it waits for; None is the already completed
      future an entry is created with. */
  datatype Ticket = Ticket(key: WorkKey, entry: nat, predecessor: Option<nat>, phase: Phase, signalled: bool)

  /** A `_KeyEntry`; `tail` None is the initial, completed future. */
  datatype KeyEntry = KeyEntry(tail: Option<nat>, references: int)

  datatype State = State(
    maxConcurrency: nat, capacity: nat, freeSlots: int, closed: bool, drained: bool,
    admitted: int, active: int,
    table: map<WorkKey, nat>,   // key to entry identity
    entries: seq<KeyEntry>,     // every entry ever created
    tickets: seq<Ticket>,       // every caller ever admitted, in admission order
    started: seq<nat>)          // tickets in the order their operations began

  datatype Step =
    | Admit(key: WorkKey)
    | TakeTurn(t: nat)      // the shielded predecessor completed
    | GrantSlot(t: nat)     // the slot semaphore serves this caller
    | Begin(t: nat)         // active is raised and the operation starts
    | Leave(t: nat)         // the operation ends, or a deadline or cancellation strikes
    | Propagate(t: nat)     // done-callback of an abandoned caller's predecessor
    | Close

  function Init(maxConcurrency: nat, maxQueueSize: nat): State {
    State(maxConcurrency, maxConcurrency + maxQueueSize, maxConcurrency, false, true, 0, 0, map[], [], [], [])
  }

  predicate FutureDone(s: State, future: Option<nat>) {
    future.None? || (future.value < |s.tickets| && s.tickets[future.value].signalled)
  }

  predicate Enabled(s: State, step: Step) {
    match step
    case Admit(key) => !s.closed && s.admitted < s.capacity && (key in s.table ==> s.table[key] < |s.entries|)
    case TakeTurn(t) => t < |s.tickets| && s.tickets[t].phase == Waiting && FutureDone(s, s.tickets[t].predecessor)
    case GrantSlot(t) => t < |s.tickets| && s.tickets[t].phase == HasTurn && s.freeSlots > 0
    case Begin(t) => t < |s.tickets| && s.tickets[t].phase == Granted
    case Leave(t) => t < |s.tickets| && s.tickets[t].phase != Finished && s.tickets[t].entry < |s.entries|
    case Propagate(t) => t < |s.tickets| && s.tickets[t].phase == Finished && !s.tickets[t].signalled
                         && FutureDone(s, s.tickets[t].predecessor)
    case Close => true
  }

  function SetPhase(s: State, t: nat, phase: Phase): State
    requires t < |s.tickets|
  {
    s.(tickets := s.tickets[t := s.tickets[t].(phase := phase)])
  }

  function AdmitEntry(s: State, key: WorkKey): nat {
    if key in s.table then s.table[key] else |s.entries|
  }

  function AdmitStep(s: State, key: WorkKey): State
    requires Enabled(s, Admit(key))
  {
    var e := AdmitEntry(s, key);
    var entries := if key in s.table then s.entries else s.entries + [KeyEntry(None, 0)];
    var n := |s.tickets|;
    s.(table := s.table[key := e],
       entries := entries[e := KeyEntry(Some(n), entries[e].references + 1)],
       tickets := s.tickets + [Ticket(key, e, entries[e].tail, Waiting, false)],
       admitted := s.admitted + 1,
       drained := false)
  }

  /** What the cleanup block leaves of the caller itself. */
  function Departed(s: State, t: nat): Ticket
    requires t < |s.tickets|
  {
    var k := s.tickets[t];
    k.(phase := Finished, signalled := k.signalled || k.phase != Waiting || FutureDone(s, k.predecessor))
  }

  function LeaveStep(s: State, t: nat): State
    requires Enabled(s, Leave(t))
  {
    var k := s.tickets[t];
    var entry := s.entries[k.entry].(references := s.entries[k.entry].references - 1);
    s.(tickets := s.tickets[t := Departed(s, t)],
       active := s.active - IsRunning(k),
       freeSlots := s.freeSlots + HoldsSlot(k),
       entries := s.entries[k.entry := entry],
       table := if entry.references == 0 && k.key in s.table && s.table[k.key] == k.entry
                then s.table - {k.key} else s.table,
       admitted := s.admitted - 1,
       drained := s.drained || s.admitted == 1)
  }

  function Apply(s: State, step: Step): State
    requires Enabled(s, step)
  {
    match step
    case Admit(key) => AdmitStep(s, key)
    case TakeTurn(t) => SetPhase(s, t, HasTurn)
    case GrantSlot(t) => SetPhase(s, t, Granted).(freeSlots := s.freeSlots - 1)
    case Begin(t) => SetPhase(s, t, Running).(active := s.active + 1, started := s.started + [t])
    case Leave(t) => LeaveStep(s, t)
    case Propagate(t) => s.(tickets := s.tickets[t := s.tickets[t].(signalled := true)])
    case Close => s.(closed := true, drained := s.drained || s.admitted == 0)
  }

  // ---- Weights -----------------------------------------------------------

  function IsRunning(k: Ticket): int { if k.phase == Running then 1 else 0 }
  function HoldsSlot(k: Ticket): int { if k.phase == Running || k.phase == Granted then 1 else 0 }
  function IsUnfinished(k: Ticket): int { if k.phase != Finished then 1 else 0 }
  function References(e: nat): Ticket -> int {
    (k: Ticket) => if k.phase != Finished && k.entry == e then 1 else 0
  }

  // ---- Invariant ---------------------------------------------------------

  predicate PastTurn(k: Ticket) { k.phase != Waiting }
  predicate Over(k: Ticket) { k.phase == Finished }

  /** Every caller admitted before j for j's key has left its operation. */
  ghost predicate EarlierOver(ts: seq<Ticket>, j: nat)
    requires j < |ts|
  {
    forall i {:trigger ts[i]} :: 0 <= i < j && ts[i].key == ts[j].key ==> Over(ts[i])
  }

  /** p is the last caller of j's key before j. */
  ghost predicate DirectlyBefore(ts: seq<Ticket>, p: nat, j: nat)
    requires j < |ts|
  {
    p < j && ts[p].key == ts[j].key && forall i {:trigger ts[i]} :: p < i < j ==> ts[i].key != ts[j].key
  }

  /** The chain invariant of one caller. A done completion future, and a turn
      that is not over, both mean that everything earlier for the key is over. */
  ghost predicate ChainOk(ts: seq<Ticket>, j: nat)
    requires j < |ts|
  {
    var k := ts[j];
    && (k.signalled ==> Over(k))
    && (k.predecessor.Some? ==> DirectlyBefore(ts, k.predecessor.value, j))
    && (k.predecessor.None? || k.signalled || (PastTurn(k) && !Over(k)) ==> EarlierOver(ts, j))
  }

  ghost predicate ChainOrdered(ts: seq<Ticket>) {
    forall j: nat {:trigger ChainOk(ts, j)} :: j < |ts| ==> ChainOk(ts, j)
  }

  type Table = map<WorkKey, nat>

  /** The entry a key has in the table: referenced, and its tail is the
      completion future of the key's last caller. */
  ghost predicate EntryOk(table: Table, entries: seq<KeyEntry>, ts: seq<Ticket>, key: WorkKey)
    requires key in table
  {
    var e := table[key];
    && e < |entries|
    && entries[e].references > 0
    && entries[e].tail.Some?
    && var last := entries[e].tail.value;
       last < |ts| && ts[last].key == key && forall i {:trigger ts[i]} :: last < i < |ts| ==> ts[i].key != key
  }

  ghost predicate TableOk(table: Table, entries: seq<KeyEntry>, ts: seq<Ticket>) {
    && (forall k {:trigger EntryOk(table, entries, ts, k)} :: k in table ==> EntryOk(table, entries, ts, k))
    && (forall k, l :: k in table && l in table && table[k] == table[l] ==> k == l)
  }

  /** An unfinished caller holds a reference to the entry its key has now. */
  ghost predicate HolderOk(table: Table, entries: seq<KeyEntry>, k: Ticket) {
    k.entry < |entries| && (!Over(k) ==> k.key in table && table[k.key] == k.entry)
  }

  ghost predicate HoldersOk(table: Table, entries: seq<KeyEntry>, ts: seq<Ticket>) {
    forall t {:trigger ts[t]} :: 0 <= t < |ts| ==> HolderOk(table, entries, ts[t])
  }

  ghost predicate ReferencesOk(entries: seq<KeyEntry>, ts: seq<Ticket>) {
    forall e: nat {:trigger References(e)} :: e < |entries| ==> entries[e].references == Sum(ts, References(e))
  }

  ghost predicate Counted(s: State) {
    && s.admitted == Sum(s.tickets, IsUnfinished)
    && s.active == Sum(s.tickets, IsRunning)
    && s.freeSlots == s.maxConcurrency - Sum(s.tickets, HoldsSlot)
    && s.freeSlots >= 0
    && s.admitted <= s.capacity
    && (s.drained <==> s.admitted == 0)
  }

  /** The a-th start: that caller is running or over, everything earlier for its
      key is over, and every earlier start of its key was an earlier caller. */
  ghost predicate StartOk(ts: seq<Ticket>, started: seq<nat>, a: nat)
    requires a < |started|
  {
    var t := started[a];
    && t < |ts|
    && (ts[t].phase == Running || Over(ts[t]))
    && EarlierOver(ts, t)
    && forall b {:trigger started[b]} :: 0 <= b < a ==>
         started[b] < |ts| && (ts[started[b]].key == ts[t].key ==> started[b] < t)
  }

  ghost predicate StartsOrdered(ts: seq<Ticket>, started: seq<nat>) {
    && (forall a: nat {:trigger StartOk(ts, started, a)} :: a < |started| ==> StartOk(ts, started, a))
    && (forall t: nat {:trigger t in started} :: t < |ts| && ts[t].phase == Running ==> t in started)
  }

  ghost predicate Inv(s: State) {
    && ChainOrdered(s.tickets)
    && TableOk(s.table, s.entries, s.tickets)
    && HoldersOk(s.table, s.entries, s.tickets)
    && ReferencesOk(s.entries, s.tickets)
    && Counted(s)
    && StartsOrdered(s.tickets, s.started)
  }

  // ---- Preservation ------------------------------------------------------

  lemma InitInv(maxConcurrency: nat, maxQueueSize: nat)
    ensures Inv(Init(maxConcurrency, maxQueueSize))
  {}

  /** Replacing one ticket moves every counter by the ticket's own change. */
  lemma ReplaceCounts(ts: seq<Ticket>, t: nat, k: Ticket)
    requires t < |ts|
    ensures var after := ts[t := k];
            && Sum(after, IsUnfinished) == Sum(ts, IsUnfinished) - IsUnfinished(ts[t]) + IsUnfinished(k)
            && Sum(after, IsRunning) == Sum(ts, IsRunning) - IsRunning(ts[t]) + IsRunning(k)
            && Sum(after, HoldsSlot) == Sum(ts, HoldsSlot) - HoldsSlot(ts[t]) + HoldsSlot(k)
  {
    SumUpdate(ts, t, k, IsUnfinished);
    SumUpdate(ts, t, k, IsRunning);
    SumUpdate(ts, t, k, HoldsSlot);
  }

  lemma AppendCounts(ts: seq<Ticket>, k: Ticket)
    ensures var after := ts + [k];
            && Sum(after, IsUnfinished) == Sum(ts, IsUnfinished) + IsUnfinished(k)
            && Sum(after, IsRunning) == Sum(ts, IsRunning) + IsRunning(k)
            && Sum(after, HoldsSlot) == Sum(ts, HoldsSlot) + HoldsSlot(k)
  {
    SumAppend(ts, k, IsUnfinished);
    SumAppend(ts, k, IsRunning);
    SumAppend(ts, k, HoldsSlot);
  }

  /** An entry has no references exactly when no unfinished caller holds it. */
  lemma ReferencesZero(ts: seq<Ticket>, e: nat)
    ensures Sum(ts, References(e)) >= 0
    ensures Sum(ts, References(e)) == 0 <==>
            forall t :: 0 <= t < |ts| ==> Over(ts[t]) || ts[t].entry != e
  {
    SumNonNegative(ts, References(e));
    if Sum(ts, References(e)) > 0 {
      var t := SumWitness(ts, References(e));
    } else {
      forall t | 0 <= t < |ts| ensures Over(ts[t]) || ts[t].entry != e {
        assert References(e)(ts[t]) <= 0;
      }
    }
  }

  /** One ticket replaced by a later stage of itself. */
  ghost predicate Later(k: Ticket, k': Ticket) {
    k'.key == k.key && k'.entry == k.entry && k'.predecessor == k.predecessor && (Over(k) ==> Over(k'))
  }

  lemma ChainAfterReplace(ts: seq<Ticket>, t: nat, k: Ticket)
    requires t < |ts| && Later(ts[t], k) && ChainOrdered(ts)
    requires ChainOk(ts[t := k], t)
    ensures ChainOrdered(ts[t := k])
  {
    var ts' := ts[t := k];
    forall j: nat | j < |ts| ensures ChainOk(ts', j) {
      if j != t { assert ChainOk(ts, j); }
    }
  }

  /** Once a caller's predecessor future is done, everything earlier for its key
      is over. This is where the chain of futures does its work. */
  lemma DonePredecessor(s: State, t: nat)
    requires ChainOrdered(s.tickets) && t < |s.tickets| && FutureDone(s, s.tickets[t].predecessor)
    ensures EarlierOver(s.tickets, t)
  {
    assert ChainOk(s.tickets, t);
    var pred := s.tickets[t].predecessor;
    if pred.Some? {
      assert ChainOk(s.tickets, pred.value);
    }
  }

  lemma StartsAfterReplace(ts: seq<Ticket>, started: seq<nat>, t: nat, k: Ticket)
    requires t < |ts| && Later(ts[t], k) && StartsOrdered(ts, started)
    requires ts[t].phase == Running ==> k.phase == Running || Over(k)
    requires k.phase == Running ==> ts[t].phase == Running
    ensures StartsOrdered(ts[t := k], started)
  {
    var ts' := ts[t := k];
    forall a: nat | a < |started| ensures StartOk(ts', started, a) {
      assert StartOk(ts, started, a);
    }
  }

  lemma TableAfterReplace(table: Table, entries: seq<KeyEntry>, ts: seq<Ticket>, t: nat, k: Ticket)
    requires t < |ts| && Later(ts[t], k) && TableOk(table, entries, ts)
    ensures TableOk(table, entries, ts[t := k])
  {
    forall key | key in table ensures EntryOk(table, entries, ts[t := k], key) {
      assert EntryOk(table, entries, ts, key);
    }
  }

  lemma ReferencesAfterReplace(entries: seq<KeyEntry>, ts: seq<Ticket>, t: nat, k: Ticket)
    requires t < |ts| && Later(ts[t], k) && Over(ts[t]) == Over(k) && ReferencesOk(entries, ts)
    ensures ReferencesOk(entries, ts[t := k])
  {
    forall e: nat | e < |entries| ensures entries[e].references == Sum(ts[t := k], References(e)) {
      SumUpdate(ts, t, k, References(e));
    }
  }

  lemma BeginStarts(ts: seq<Ticket>, started: seq<nat>, t: nat, k: Ticket)
    requires t < |ts| && ts[t].phase == Granted && k == ts[t].(phase := Running)
    requires ChainOrdered(ts) && StartsOrdered(ts, started)
    ensures StartsOrdered(ts[t := k], started + [t])
  {
    var ts', started' := ts[t := k], started + [t];
    assert ChainOk(ts, t);
    forall a: nat | a < |started'| ensures StartOk(ts', started', a) {
      if a < |started| {
        assert StartOk(ts, started, a);
      } else {
        forall b | 0 <= b < a ensures started'[b] < |ts'| && (ts'[started'[b]].key == ts'[t].key ==> started'[b] < t) {
          assert StartOk(ts, started, b);
        }
      }
    }
    forall u: nat | u < |ts'| && ts'[u].phase == Running ensures u in started' {
      if u == t { assert started'[|started|] == t; } else { assert u in started; }
    }
  }

  /** Steps that move one unfinished or abandoned caller along, in place. */
  lemma MoveInv(s: State, step: Step)
    requires Inv(s) && Enabled(s, step)
    requires step.TakeTurn? || step.GrantSlot? || step.Begin? || step.Propagate?
    ensures Inv(Apply(s, step))
  {
    var s' := Apply(s, step);
    var t := step.t;
    var k := s'.tickets[t];
    assert s'.tickets == s.tickets[t := k];
    assert ChainOk(s.tickets, t);
    if step.TakeTurn? || step.Propagate? { DonePredecessor(s, t); }
    ChainAfterReplace(s.tickets, t, k);
    TableAfterReplace(s.table, s.entries, s.tickets, t, k);
    ReferencesAfterReplace(s.entries, s.tickets, t, k);
    ReplaceCounts(s.tickets, t, k);
    if step.Begin? {
      BeginStarts(s.tickets, s.started, t, k);
    } else {
      StartsAfterReplace(s.tickets, s.started, t, k);
    }
  }

  lemma AdmitChain(s: State, key: WorkKey)
    requires Inv(s) && Enabled(s, Admit(key))
    ensures ChainOrdered(AdmitStep(s, key).tickets)
    ensures TableOk(AdmitStep(s, key).table, AdmitStep(s, key).entries, AdmitStep(s, key).tickets)
  {
    var s' := AdmitStep(s, key);
    var n := |s.tickets|;
    if key in s.table { assert EntryOk(s.table, s.entries, s.tickets, key); }
    forall j: nat | j < |s'.tickets| ensures ChainOk(s'.tickets, j) {
      if j < n { assert ChainOk(s.tickets, j); }
    }
    assert s'.tickets[n].key == key;
    forall k | k in s'.table ensures EntryOk(s'.table, s'.entries, s'.tickets, k) {
      if k != key { assert EntryOk(s.table, s.entries, s.tickets, k); }
    }
  }

  lemma AdmitHolders(s: State, key: WorkKey)
    requires Inv(s) && Enabled(s, Admit(key))
    ensures HoldersOk(AdmitStep(s, key).table, AdmitStep(s, key).entries, AdmitStep(s, key).tickets)
    ensures StartsOrdered(AdmitStep(s, key).tickets, s.started)
  {
    var s' := AdmitStep(s, key);
    if key in s.table { assert EntryOk(s.table, s.entries, s.tickets, key); }
    forall a: nat | a < |s.started| ensures StartOk(s'.tickets, s.started, a) {
      assert StartOk(s.tickets, s.started, a);
    }
    forall t | 0 <= t < |s.tickets| ensures HolderOk(s'.table, s'.entries, s.tickets[t]) {
      assert HolderOk(s.table, s.entries, s.tickets[t]);
    }
  }

  lemma AdmitInv(s: State, key: WorkKey)
    requires Inv(s) && Enabled(s, Admit(key))
    ensures Inv(Apply(s, Admit(key)))
  {
    var s' := AdmitStep(s, key);
    var k := s'.tickets[|s.tickets|];
    AdmitChain(s, key);
    AdmitHolders(s, key);
    assert s'.tickets == s.tickets + [k];
    AppendCounts(s.tickets, k);
    SumNonNegative(s.tickets, IsUnfinished);
    forall e: nat | e < |s'.entries| ensures s'.entries[e].references == Sum(s'.tickets, References(e)) {
      SumAppend(s.tickets, k, References(e));
      if e == |s.entries| { ReferencesZero(s.tickets, e); }
    }
  }

  lemma LeaveEntries(s: State, t: nat)
    requires Inv(s) && Enabled(s, Leave(t))
    ensures var s' := LeaveStep(s, t);
            && TableOk(s'.table, s'.entries, s'.tickets)
            && HoldersOk(s'.table, s'.entries, s'.tickets)
            && ReferencesOk(s'.entries, s'.tickets)
  {
    var s' := LeaveStep(s, t);
    var k, k' := s.tickets[t], s'.tickets[t];
    forall e: nat | e < |s'.entries| ensures s'.entries[e].references == Sum(s'.tickets, References(e)) {
      SumUpdate(s.tickets, t, k', References(e));
    }
    assert HolderOk(s.table, s.entries, k);
    assert EntryOk(s.table, s.entries, s.tickets, k.key);
    ReferencesZero(s'.tickets, k.entry);
    forall key | key in s'.table ensures EntryOk(s'.table, s'.entries, s'.tickets, key) {
      assert EntryOk(s.table, s.entries, s.tickets, key);
    }
    forall u | 0 <= u < |s'.tickets| ensures HolderOk(s'.table, s'.entries, s'.tickets[u]) {
      assert HolderOk(s.table, s.entries, s.tickets[u]);
      assert s'.entries[k.entry].references == Sum(s'.tickets, References(k.entry));
    }
  }

  lemma LeaveInv(s: State, t: nat)
    requires Inv(s) && Enabled(s, Leave(t))
    ensures Inv(Apply(s, Leave(t)))
  {
    var s' := LeaveStep(s, t);
    var k := s'.tickets[t];
    assert ChainOk(s.tickets, t);
    if FutureDone(s, k.predecessor) { DonePredecessor(s, t); }
    ChainAfterReplace(s.tickets, t, k);
    StartsAfterReplace(s.tickets, s.started, t, k);
    ReplaceCounts(s.tickets, t, k);
    SumNonNegative(s.tickets, IsUnfinished);
    assert IsUnfinished(s.tickets[t]) == 1;
    LeaveEntries(s, t);
  }

  lemma StepInv(s: State, step: Step)
    requires Inv(s) && Enabled(s, step)
    ensures Inv(Apply(s, step))
  {
    match step
    case Admit(key) => AdmitInv(s, key);
    case TakeTurn(_) => MoveInv(s, step);
    case GrantSlot(_) => MoveInv(s, step);
    case Begin(_) => MoveInv(s, step);
    case Leave(t) => LeaveInv(s, t);
    case Propagate(_) => MoveInv(s, step);
    case Close =>
  }

  // ---- Every run ---------------------------------------------------------

  predicate Follows(s: State, step: Step, s': State) {
    Enabled(s, step) && s' == Apply(s, step)
  }

  /** The states a run passes through, given the steps taken. */
  ghost predicate IsRun(run: seq<State>, steps: seq<Step>) {
    && |run| == |steps| + 1
    && forall n {:trigger steps[n]} :: 0 <= n < |steps| ==> Follows(run[n], steps[n], run[n + 1])
  }

  lemma {:induction false} RunInv(run: seq<State>, steps: seq<Step>, n: nat)
    requires IsRun(run, steps) && Inv(run[0]) && n < |run|
    ensures Inv(run[n])
  {
    if n > 0 {
      RunInv(run, steps, n - 1);
      assert Follows(run[n - 1], steps[n - 1], run[n]);
      StepInv(run[n - 1], steps[n - 1]);
    }
  }

  /** Mutual exclusion: in every state a processor can reach, through any mix of
      admissions, deadlines, cancellations, and deletions and recreations of a
      key's entry, two callers of one key never both hold the key's turn. */
  lemma MutualExclusion(maxConcurrency: nat, maxQueueSize: nat, run: seq<State>, steps: seq<Step>, n: nat, i: nat, j: nat)
    requires IsRun(run, steps) && run[0] == Init(maxConcurrency, maxQueueSize) && n < |run|
    requires i < |run[n].tickets| && j < |run[n].tickets| && run[n].tickets[i].key == run[n].tickets[j].key
    requires run[n].tickets[i].phase in {HasTurn, Granted, Running} && run[n].tickets[j].phase in {HasTurn, Granted, Running}
    ensures i == j
  {
    InitInv(maxConcurrency, maxQueueSize);
    RunInv(run, steps, n);
    assert ChainOk(run[n].tickets, i) && ChainOk(run[n].tickets, j);
  }

  /** Operations of one key begin in the order their callers were admitted. */
  lemma StartsInAdmissionOrder(maxConcurrency: nat, maxQueueSize: nat, run: seq<State>, steps: seq<Step>, n: nat, a: nat, b: nat)
    requires IsRun(run, steps) && run[0] == Init(maxConcurrency, maxQueueSize) && n < |run|
    requires a < b < |run[n].started|
    ensures var ts, started := run[n].tickets, run[n].started;
            && started[a] < |ts| && started[b] < |ts|
            && (ts[started[a]].key == ts[started[b]].key ==> started[a] < started[b] && Over(ts[started[a]]))
  {
    InitInv(maxConcurrency, maxQueueSize);
    RunInv(run, steps, n);
    assert StartOk(run[n].tickets, run[n].started, a);
    assert StartOk(run[n].tickets, run[n].started, b);
  }

  // ---- Accounting --------------------------------------------------------

  function KeyWeight(keys: set<WorkKey>): Ticket -> int {
    (k: Ticket) => if k.phase != Finished && k.key in keys then 1 else 0
  }

  /** The references of the table entries of the given keys, added up. */
  ghost function TotalReferences(s: State, keys: set<WorkKey>): int
    requires forall k :: k in keys ==> k in s.table && s.table[k] < |s.entries|
  {
    if keys == {} then 0 else
      var key :| key in keys;
      s.entries[s.table[key]].references + TotalReferences(s, keys - {key})
  }

  lemma {:induction false} TotalReferencesCount(s: State, keys: set<WorkKey>)
    requires Inv(s) && keys <= s.table.Keys
    requires forall k :: k in keys ==> k in s.table && s.table[k] < |s.entries|
    ensures TotalReferences(s, keys) == Sum(s.tickets, KeyWeight(keys))
  {
    if keys == {} {
      SumZero(s.tickets, KeyWeight(keys));
    } else {
      var key :| key in keys && TotalReferences(s, keys)
        == s.entries[s.table[key]].references + TotalReferences(s, keys - {key});
      TotalReferencesCount(s, keys - {key});
      var e := s.table[key];
      forall t | 0 <= t < |s.tickets|
        ensures KeyWeight(keys)(s.tickets[t]) == References(e)(s.tickets[t]) + KeyWeight(keys - {key})(s.tickets[t])
      {
        assert HolderOk(s.table, s.entries, s.tickets[t]);
      }
      SumAdd(s.tickets, References(e), KeyWeight(keys - {key}), KeyWeight(keys));
      assert s.entries[e].references == Sum(s.tickets, References(e));
    }
  }

  /** Every admitted caller is counted by exactly one table entry, every table
      entry is referenced, and the bounds on slots and admissions hold. */
  lemma Accounting(s: State)
    requires Inv(s)
    ensures forall k :: k in s.table ==> s.table[k] < |s.entries| && s.entries[s.table[k]].references > 0
    ensures TotalReferences(s, s.table.Keys) == s.admitted
    ensures forall e: nat :: e < |s.entries| ==>
              (s.entries[e].references > 0 <==> exists k :: k in s.table && s.table[k] == e)
    ensures 0 <= s.active <= s.maxConcurrency - s.freeSlots <= s.maxConcurrency
    ensures s.active <= s.admitted <= s.capacity
    ensures s.active == s.maxConcurrency ==> s.admitted - s.active <= s.capacity - s.maxConcurrency
    ensures s.drained <==> s.admitted == 0
  {
    forall k | k in s.table ensures s.table[k] < |s.entries| && s.entries[s.table[k]].references > 0 {
      assert EntryOk(s.table, s.entries, s.tickets, k);
    }
    TotalReferencesCount(s, s.table.Keys);
    forall t | 0 <= t < |s.tickets|
      ensures KeyWeight(s.table.Keys)(s.tickets[t]) <= IsUnfinished(s.tickets[t]) <= KeyWeight(s.table.Keys)(s.tickets[t])
    {
      assert HolderOk(s.table, s.entries, s.tickets[t]);
    }
    SumMonotone(s.tickets, KeyWeight(s.table.Keys), IsUnfinished);
    SumMonotone(s.tickets, IsUnfinished, KeyWeight(s.table.Keys));
    SumNonNegative(s.tickets, IsRunning);
    SumMonotone(s.tickets, IsRunning, HoldsSlot);
    SumMonotone(s.tickets, IsRunning, IsUnfinished);
    forall e: nat | e < |s.entries|
      ensures s.entries[e].references > 0 <==> exists k :: k in s.table && s.table[k] == e
    {
      assert s.entries[e].references == Sum(s.tickets, References(e));
      ReferencesZero(s.tickets, e);
      if s.entries[e].references > 0 {
        var t := SumWitness(s.tickets, References(e));
        assert HolderOk(s.table, s.entries, s.tickets[t]);
        assert s.tickets[t].key in s.table;
      }
    }
  }

  // ---- Progress and drain ------------------------------------------------

  /** Steps nobody outside has to request: only a running operation's own end
      counts as a departure here, not a deadline or a cancellation. */
  predicate Internal(s: State, step: Step) {
    match step
    case Admit(_) => false
    case Close => false
    case Leave(t) => t < |s.tickets| && s.tickets[t].phase == Running
    case _ => true
  }

  predicate Settled(k: Ticket) { Over(k) && k.signalled }

  /** The first caller that is not settled, if any, waits for a done future. */
  lemma {:induction false} FirstUnsettled(ts: seq<Ticket>, n: nat) returns (m: nat)
    requires n < |ts| && !Settled(ts[n])
    ensures m <= n && !Settled(ts[m]) && forall i :: 0 <= i < m ==> Settled(ts[i])
    decreases n
  {
    if i: nat :| i < n && !Settled(ts[i]) {
      m := FirstUnsettled(ts, i);
    } else {
      m := n;
    }
  }

  /** No deadlock: while any caller is admitted, some internal step is enabled. */
  lemma SomeStepEnabled(s: State) returns (step: Step)
    requires Inv(s) && s.admitted > 0 && s.maxConcurrency > 0
    ensures Enabled(s, step) && Internal(s, step)
  {
    var u := SumWitness(s.tickets, IsUnfinished);
    var m := FirstUnsettled(s.tickets, u);
    var k := s.tickets[m];
    assert ChainOk(s.tickets, m) && HolderOk(s.table, s.entries, k);
    assert FutureDone(s, k.predecessor);
    match k.phase
    case Waiting => step := TakeTurn(m);
    case Granted => step := Begin(m);
    case Running => step := Leave(m);
    case Finished => step := Propagate(m);
    case HasTurn =>
      if s.freeSlots > 0 {
        step := GrantSlot(m);
      } else {
        var h := SumWitness(s.tickets, HoldsSlot);
        assert HolderOk(s.table, s.entries, s.tickets[h]);
        step := if s.tickets[h].phase == Running then Leave(h) else Begin(h);
      }
  }

  function Distance(k: Ticket): int {
    match k.phase
    case Waiting => 5
    case HasTurn => 4
    case Granted => 3
    case Running => 2
    case Finished => if k.signalled then 0 else 1
  }

  function Remaining(s: State): int { Sum(s.tickets, Distance) }

  lemma StepDescends(s: State, step: Step)
    requires Inv(s) && Enabled(s, step) && !step.Admit? && !step.Close?
    ensures 0 <= Remaining(Apply(s, step)) < Remaining(s)
  {
    var s' := Apply(s, step);
    assert ChainOk(s.tickets, step.t);
    SumUpdate(s.tickets, step.t, s'.tickets[step.t], Distance);
    SumNonNegative(s'.tickets, Distance);
  }

  /** Drain: from a closed processor no run admits anybody, none is longer than
      what remains to be done, and one that cannot go on has drained. */
  lemma {:induction false} ClosedRunsDrain(run: seq<State>, steps: seq<Step>)
    requires IsRun(run, steps) && Inv(run[0]) && run[0].closed && run[0].maxConcurrency > 0
    requires forall n :: 0 <= n < |steps| ==> steps[n] != Close
    ensures |steps| + Remaining(run[|steps|]) <= Remaining(run[0])
    ensures Remaining(run[|steps|]) >= 0
    ensures var last := run[|steps|];
            && last.closed && Inv(last)
            && (last.drained <==> last.admitted == 0)
            && ((forall step :: Internal(last, step) ==> !Enabled(last, step)) ==> last.drained)
    decreases |steps|
  {
    if |steps| == 0 {
      SumNonNegative(run[0].tickets, Distance);
    } else {
      var n := |steps| - 1;
      assert forall i :: 0 <= i < n ==> steps[..n][i] == steps[i];
      ClosedRunsDrain(run[..n + 1], steps[..n]);
      assert Follows(run[n], steps[n], run[n + 1]);
      StepDescends(run[n], steps[n]);
      StepInv(run[n], steps[n]);
    }
    RunInv(run, steps, |steps|);
    var last := run[|steps|];
    assert last.maxConcurrency > 0 by { ConstantsKept(run, steps, |steps|); }
    SumNonNegative(last.tickets, IsUnfinished);
    if last.admitted > 0 {
      var step := SomeStepEnabled(last);
    }
  }

  /** After a `close`, for the rest of every run, nobody is let in. */
  lemma {:induction false} ClosedForever(run: seq<State>, steps: seq<Step>, m: nat, n: nat)
    requires IsRun(run, steps) && m < n < |run| && steps[m] == Close
    ensures run[n].closed && |run[n].tickets| == |run[m].tickets|
    ensures n < |steps| ==> !steps[n].Admit?
    decreases n
  {
    if m + 1 < n { ClosedForever(run, steps, m, n - 1); }
    assert Follows(run[n - 1], steps[n - 1], run[n]);
    if n < |steps| { assert Follows(run[n], steps[n], run[n + 1]); }
  }

  lemma {:induction false} ConstantsKept(run: seq<State>, steps: seq<Step>, n: nat)
    requires IsRun(run, steps) && n < |run|
    ensures run[n].maxConcurrency == run[0].maxConcurrency && run[n].capacity == run[0].capacity
  {
    if n > 0 {
      ConstantsKept(run, steps, n - 1);
      assert Follows(run[n - 1], steps[n - 1], run[n]);
    }
  }
}
