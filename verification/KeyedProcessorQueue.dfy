/** What `max_queue_size` bounds. It bounds the callers that wait while every slot is
    busy; callers of one hot key may wait in greater number, because they leave
    slots idle. */
module KeyedProcessorQueue {
  import opened Sums
  import opened Wrappers
  import opened KeyedProcessorSpec

  /** The number the snapshot reports as queued. */
  function Queued(s: State): int { s.admitted - s.active }

  /** Nothing goes on by itself any more except that running operations end. */
  ghost predicate Quiet(s: State) {
    forall step {:trigger Enabled(s, step)} :: Enabled(s, step) && Internal(s, step) ==> step.Leave?
  }

  /** The bound, in every state of every run. */
  lemma QueueBound(run: seq<State>, steps: seq<Step>, maxConcurrency: nat, maxQueueSize: nat, n: nat)
    requires maxConcurrency > 0 && IsRun(run, steps) && run[0] == Init(maxConcurrency, maxQueueSize) && n < |run|
    ensures Queued(run[n]) <= maxQueueSize + (maxConcurrency - run[n].active)
    ensures Quiet(run[n]) && run[n].admitted > 0 ==> run[n].active >= 1
  {
    InitInv(maxConcurrency, maxQueueSize);
    RunInv(run, steps, n);
    ConstantsKept(run, steps, n);
    if run[n].admitted > 0 {
      var step := SomeStepEnabled(run[n]);
      if step.Leave? { SomebodyRuns(run[n], step.t); }
    }
  }

  lemma SomebodyRuns(s: State, t: nat)
    requires Inv(s) && t < |s.tickets| && s.tickets[t].phase == Running
    ensures s.active >= 1
  {
    var rest := s.tickets[t := s.tickets[t].(phase := Waiting)];
    SumUpdate(s.tickets, t, rest[t], IsRunning);
    SumNonNegative(rest, IsRunning);
  }

  // ---- The bound is attained ---------------------------------------------------------

  /** The first `a` callers have keys of their own, the others share the first key. */
  function HotKey(a: nat, t: nat): WorkKey { Workflow(if t < a then t else 0) }

  /** The first `running` callers run, those of a shared key wait for another. */
  predicate Lined(s: State, a: nat, running: nat) {
    && running <= |s.tickets| && running <= a
    && !s.closed && s.admitted == |s.tickets| && s.active == running && s.freeSlots == s.maxConcurrency - running
    && forall t {:trigger s.tickets[t]} :: 0 <= t < |s.tickets| ==> InLine(s.tickets[t], t, a, running)
  }

  predicate InLine(k: Ticket, t: nat, a: nat, running: nat) {
    && k.key == HotKey(a, t) && k.phase == (if t < running then Running else Waiting)
    && (k.predecessor.None? <==> t < a)
  }

  ghost predicate Reaches(run: seq<State>, steps: seq<Step>, maxConcurrency: nat, maxQueueSize: nat, s: State) {
    IsRun(run, steps) && run[0] == Init(maxConcurrency, maxQueueSize) && run[|steps|] == s
  }

  lemma Extend(run: seq<State>, steps: seq<Step>, maxConcurrency: nat, maxQueueSize: nat, s: State, step: Step)
    requires Reaches(run, steps, maxConcurrency, maxQueueSize, s) && Enabled(s, step)
    ensures Reaches(run + [Apply(s, step)], steps + [step], maxConcurrency, maxQueueSize, Apply(s, step))
  {
    var run', steps' := run + [Apply(s, step)], steps + [step];
    forall n | 0 <= n < |steps'| ensures Follows(run'[n], steps'[n], run'[n + 1]) {
      if n < |steps| { assert Follows(run[n], steps[n], run[n + 1]); }
    }
  }

  lemma CallerOf(s: State, key: WorkKey) returns (t: nat)
    requires Inv(s) && key in s.table
    ensures t < |s.tickets| && s.tickets[t].key == key
  {
    assert EntryOk(s.table, s.entries, s.tickets, key);
    t := s.entries[s.table[key]].tail.value;
  }

  /** A key is in the table exactly while somebody of it is admitted; here, nobody
      has left. */
  lemma KeyKnown(s: State, a: nat)
    requires Inv(s) && Lined(s, a, 0) && 0 < a
    ensures var key := HotKey(a, |s.tickets|);
            key in s.table <==> |s.tickets| >= a
    ensures forall key :: key in s.table ==> s.table[key] < |s.entries| && s.entries[s.table[key]].tail.Some?
  {
    forall key | key in s.table ensures s.table[key] < |s.entries| && s.entries[s.table[key]].tail.Some? {
      assert EntryOk(s.table, s.entries, s.tickets, key);
    }
    var n := |s.tickets|;
    if n >= a { assert HolderOk(s.table, s.entries, s.tickets[0]); }
    if HotKey(a, n) in s.table { var t := CallerOf(s, HotKey(a, n)); }
  }

  lemma OneMore(s: State, a: nat)
    requires Inv(s) && Lined(s, a, 0) && 0 < a && s.admitted < s.capacity
    ensures var step := Admit(HotKey(a, |s.tickets|));
            Enabled(s, step) && Lined(Apply(s, step), a, 0) && |Apply(s, step).tickets| == |s.tickets| + 1
  {
    KeyKnown(s, a);
  }

  lemma {:induction false} Crowd(maxConcurrency: nat, maxQueueSize: nat, a: nat, n: nat)
    returns (run: seq<State>, steps: seq<Step>, s: State)
    requires 0 < a && n <= maxConcurrency + maxQueueSize
    ensures Reaches(run, steps, maxConcurrency, maxQueueSize, s) && Lined(s, a, 0) && |s.tickets| == n
  {
    if n == 0 {
      run, steps, s := [Init(maxConcurrency, maxQueueSize)], [], Init(maxConcurrency, maxQueueSize);
    } else {
      run, steps, s := Crowd(maxConcurrency, maxQueueSize, a, n - 1);
      Reached(run, steps, maxConcurrency, maxQueueSize, s);
      OneMore(s, a);
      var step := Admit(HotKey(a, |s.tickets|));
      Extend(run, steps, maxConcurrency, maxQueueSize, s, step);
      run, steps, s := run + [Apply(s, step)], steps + [step], Apply(s, step);
    }
  }

  lemma Reached(run: seq<State>, steps: seq<Step>, maxConcurrency: nat, maxQueueSize: nat, s: State)
    requires Reaches(run, steps, maxConcurrency, maxQueueSize, s)
    ensures Inv(s) && s.maxConcurrency == maxConcurrency && s.capacity == maxConcurrency + maxQueueSize
  {
    InitInv(maxConcurrency, maxQueueSize);
    RunInv(run, steps, |steps|);
    ConstantsKept(run, steps, |steps|);
  }

  /** The next caller with a key of its own goes to work. */
  lemma {:induction false} AtWork(maxConcurrency: nat, maxQueueSize: nat, a: nat, b: nat)
    returns (run: seq<State>, steps: seq<Step>, s: State)
    requires b <= a <= maxConcurrency && 0 < a
    ensures Reaches(run, steps, maxConcurrency, maxQueueSize, s) && Lined(s, a, b) && |s.tickets| == maxConcurrency + maxQueueSize
  {
    if b == 0 {
      run, steps, s := Crowd(maxConcurrency, maxQueueSize, a, maxConcurrency + maxQueueSize);
    } else {
      run, steps, s := AtWork(maxConcurrency, maxQueueSize, a, b - 1);
      Reached(run, steps, maxConcurrency, maxQueueSize, s);
      var t := b - 1;
      assert InLine(s.tickets[t], t, a, b - 1);
      var s1 := Apply(s, TakeTurn(t));
      Extend(run, steps, maxConcurrency, maxQueueSize, s, TakeTurn(t));
      var s2 := Apply(s1, GrantSlot(t));
      Extend(run + [s1], steps + [TakeTurn(t)], maxConcurrency, maxQueueSize, s1, GrantSlot(t));
      var s3 := Apply(s2, Begin(t));
      Extend(run + [s1] + [s2], steps + [TakeTurn(t)] + [GrantSlot(t)], maxConcurrency, maxQueueSize, s2, Begin(t));
      run, steps, s := run + [s1] + [s2] + [s3], steps + [TakeTurn(t)] + [GrantSlot(t)] + [Begin(t)], s3;
    }
  }

  /** Whoever waits for somebody waits for one who has not finished. */
  lemma LinedIsQuiet(s: State, a: nat)
    requires Inv(s) && Lined(s, a, a)
    ensures Quiet(s)
  {
    forall step | Enabled(s, step) && Internal(s, step) ensures step.Leave? {
      if !step.Leave? { NotEnabled(s, a, step.t); }
    }
  }

  lemma NotEnabled(s: State, a: nat, t: nat)
    requires Inv(s) && Lined(s, a, a) && t < |s.tickets|
    ensures s.tickets[t].phase == Running || (s.tickets[t].phase == Waiting && !FutureDone(s, s.tickets[t].predecessor))
  {
    assert InLine(s.tickets[t], t, a, a) && ChainOk(s.tickets, t);
    var p := s.tickets[t].predecessor;
    if p.Some? {
      assert InLine(s.tickets[p.value], p.value, a, a) && ChainOk(s.tickets, p.value);
    }
  }

  /** For every configuration and every number of busy slots, a quiet state with as
      many callers queued as the bound allows. */
  lemma BoundIsAttained(maxConcurrency: nat, maxQueueSize: nat, a: nat)
    returns (run: seq<State>, steps: seq<Step>, s: State)
    requires 1 <= a <= maxConcurrency
    ensures Reaches(run, steps, maxConcurrency, maxQueueSize, s) && Quiet(s)
    ensures s.active == a && Queued(s) == maxQueueSize + (maxConcurrency - a)
  {
    run, steps, s := AtWork(maxConcurrency, maxQueueSize, a, a);
    Reached(run, steps, maxConcurrency, maxQueueSize, s);
    LinedIsQuiet(s, a);
  }

  /** The configurations in which the queue keeps to its size once nothing can start. */
  ghost predicate QueueKeepsToItsSize(maxConcurrency: nat, maxQueueSize: nat) {
    forall run, steps, s {:trigger Reaches(run, steps, maxConcurrency, maxQueueSize, s)} ::
      Reaches(run, steps, maxConcurrency, maxQueueSize, s) && Quiet(s) ==> Queued(s) <= maxQueueSize
  }

  /** Exactly those with a single slot. */
  lemma QueueSizeHoldsExactly(maxConcurrency: nat, maxQueueSize: nat)
    requires maxConcurrency > 0
    ensures QueueKeepsToItsSize(maxConcurrency, maxQueueSize) <==> maxConcurrency == 1
  {
    if maxConcurrency == 1 {
      forall run, steps, s | Reaches(run, steps, maxConcurrency, maxQueueSize, s) && Quiet(s) ensures Queued(s) <= maxQueueSize {
        Reached(run, steps, maxConcurrency, maxQueueSize, s);
        QueueBound(run, steps, maxConcurrency, maxQueueSize, |steps|);
        SumNonNegative(s.tickets, IsRunning);
      }
    } else {
      var run, steps, s := BoundIsAttained(maxConcurrency, maxQueueSize, 1);
    }
  }
}
