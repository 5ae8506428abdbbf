/** The keyed serializer itself: the fields of the Python class, updated step by
    step. A coroutine's locals (its turn, its slot, whether it runs) are the
    phase of its ticket; futures are named by the ticket that completes them. */
module KeyedProcessor {
  import opened KeyedProcessorSpec
  import opened Sums
  import opened Wrappers

  datatype Admission = Admitted(ticket: nat) | Closed | Overloaded

  datatype Snapshot = Snapshot(admitted: int, queued: int, active: int, keyCount: nat, closed: bool)

  class Processor {
    const maxConcurrency: nat
    const capacity: nat
    var freeSlots: int
    var closed: bool
    var drained: bool
    var admitted: int
    var active: int
    var table: map<WorkKey, nat>
    var entries: seq<KeyEntry>
    var tickets: seq<Ticket>
    ghost var started: seq<nat>

    ghost function View(): State
      reads this
    {
      State(maxConcurrency, capacity, freeSlots, closed, drained, admitted, active, table, entries, tickets, started)
    }

    ghost predicate Valid()
      reads this
    {
      maxConcurrency > 0 && Inv(View())
    }

    /** `max_concurrency` must be positive and `max_queue_size` not negative. */
    constructor (maxConcurrency: nat, maxQueueSize: nat)
      requires maxConcurrency > 0
      ensures Valid() && View() == Init(maxConcurrency, maxQueueSize)
    {
      this.maxConcurrency := maxConcurrency;
      capacity := maxConcurrency + maxQueueSize;
      freeSlots := maxConcurrency;
      closed, drained, admitted, active := false, true, 0, 0;
      table, entries, tickets, started := map[], [], [], [];
      new;
      InitInv(maxConcurrency, maxQueueSize);
    }

    method Admit(key: WorkKey) returns (r: Admission)
      requires Valid()
      modifies this
      ensures Valid()
      ensures r.Closed? <==> old(closed)
      ensures r.Overloaded? <==> !old(closed) && old(admitted) >= capacity
      ensures !r.Admitted? ==> View() == old(View())
      ensures r.Admitted? ==> r.ticket == |old(tickets)|
                              && Enabled(old(View()), KeyedProcessorSpec.Admit(key))
                              && View() == Apply(old(View()), KeyedProcessorSpec.Admit(key))
    {
      if closed { return Closed; }
      if admitted >= capacity { return Overloaded; }
      assert key in table ==> EntryOk(table, entries, tickets, key);
      AdmitInv(View(), key);
      var ticket := Enlist(key);
      return Admitted(ticket);
    }

    /** The entry found or made, and the caller queued behind its tail. */
    method Enlist(key: WorkKey) returns (ticket: nat)
      requires Enabled(View(), KeyedProcessorSpec.Admit(key))
      modifies this
      ensures ticket == |old(tickets)| && View() == AdmitStep(old(View()), key)
    {
      ghost var before := View();
      if key !in table {
        table := table[key := |entries|];
        entries := entries + [KeyEntry(None, 0)];
      }
      var e := table[key];
      assert before.table[key := e] == table;
      var predecessor := entries[e].tail;
      ticket := |tickets|;
      tickets := tickets + [Ticket(key, e, predecessor, Waiting, false)];
      entries := entries[e := KeyEntry(Some(ticket), entries[e].references + 1)];
      admitted := admitted + 1;
      drained := false;
    }

    method Done(future: Option<nat>) returns (done: bool)
      ensures done <==> FutureDone(View(), future)
    {
      done := future.None? || (future.value < |tickets| && tickets[future.value].signalled);
    }

    /** `await asyncio.shield(predecessor)` returns. */
    method TakeTurn(t: nat)
      requires Valid() && Enabled(View(), KeyedProcessorSpec.TakeTurn(t))
      modifies this
      ensures Valid() && View() == Apply(old(View()), KeyedProcessorSpec.TakeTurn(t))
    {
      MoveInv(View(), KeyedProcessorSpec.TakeTurn(t));
      tickets := tickets[t := tickets[t].(phase := HasTurn)];
    }

    /** The slot semaphore serves a caller at the head of its key. */
    method GrantSlot(t: nat)
      requires Valid() && Enabled(View(), KeyedProcessorSpec.GrantSlot(t))
      modifies this
      ensures Valid() && View() == Apply(old(View()), KeyedProcessorSpec.GrantSlot(t))
    {
      MoveInv(View(), KeyedProcessorSpec.GrantSlot(t));
      freeSlots := freeSlots - 1;
      tickets := tickets[t := tickets[t].(phase := Granted)];
    }

    method Begin(t: nat)
      requires Valid() && Enabled(View(), KeyedProcessorSpec.Begin(t))
      modifies this
      ensures Valid() && View() == Apply(old(View()), KeyedProcessorSpec.Begin(t))
    {
      MoveInv(View(), KeyedProcessorSpec.Begin(t));
      active := active + 1;
      tickets := tickets[t := tickets[t].(phase := Running)];
      started := started + [t];
    }

    /** The whole cleanup block, which suspends nowhere: give back what the caller
        holds, complete its turn or leave that to its predecessor, drop its
        reference, and report an empty processor. */
    method Leave(t: nat)
      requires Valid() && Enabled(View(), KeyedProcessorSpec.Leave(t))
      modifies this
      ensures Valid() && View() == Apply(old(View()), KeyedProcessorSpec.Leave(t))
      ensures tickets[t].phase == Finished
      ensures tickets[t].signalled <==> old(tickets)[t].phase != Waiting || FutureDone(old(View()), old(tickets)[t].predecessor)
      ensures freeSlots == old(freeSlots) + if old(tickets)[t].phase in {Granted, Running} then 1 else 0
    {
      LeaveInv(View(), t);
      assert ChainOk(tickets, t);
      Depart(t);
    }

    method Depart(t: nat)
      requires Enabled(View(), KeyedProcessorSpec.Leave(t))
      modifies this
      ensures View() == LeaveStep(old(View()), t)
    {
      ghost var after := LeaveStep(View(), t);
      var ticket := tickets[t];
      if ticket.phase == Running {
        active := active - 1;
      }
      if ticket.phase == Running || ticket.phase == Granted {
        freeSlots := freeSlots + 1;
      }
      var signalled := ticket.signalled;
      if !signalled {
        if ticket.phase != Waiting {
          signalled := true;
        } else {
          signalled := Done(ticket.predecessor);
        }
      }
      tickets := tickets[t := ticket.(phase := Finished, signalled := signalled)];
      Finish(ticket.key, ticket.entry);
      assert tickets == after.tickets && entries == after.entries && table == after.table;
    }

    method Finish(key: WorkKey, e: nat)
      requires e < |entries|
      modifies `entries, `admitted, `table, `drained
      ensures entries == old(entries)[e := old(entries)[e].(references := old(entries)[e].references - 1)]
      ensures admitted == old(admitted) - 1
      ensures table == if entries[e].references == 0 && key in old(table) && old(table)[key] == e
                       then old(table) - {key} else old(table)
      ensures drained == (old(drained) || old(admitted) == 1)
    {
      entries := entries[e := entries[e].(references := entries[e].references - 1)];
      admitted := admitted - 1;
      if entries[e].references == 0 && key in table && table[key] == e {
        table := table - {key};
      }
      if admitted == 0 {
        drained := true;
      }
    }

    /** The done-callback left behind by a caller abandoned while queued. */
    method Propagate(t: nat)
      requires Valid() && Enabled(View(), KeyedProcessorSpec.Propagate(t))
      modifies this
      ensures Valid() && View() == Apply(old(View()), KeyedProcessorSpec.Propagate(t))
    {
      MoveInv(View(), KeyedProcessorSpec.Propagate(t));
      tickets := tickets[t := tickets[t].(signalled := true)];
    }

    /** `close` up to the wait; the wait ends when `drained` is set. */
    method Close() returns (empty: bool)
      requires Valid()
      modifies this
      ensures Valid() && View() == Apply(old(View()), KeyedProcessorSpec.Close)
      ensures closed && (empty <==> admitted == 0) && (drained <==> empty)
    {
      closed := true;
      if admitted == 0 {
        drained := true;
      }
      empty := drained;
    }

    method TakeSnapshot() returns (r: Snapshot)
      requires Valid()
      ensures r == Snapshot(admitted, admitted - active, active, |table|, closed)
      ensures 0 <= r.queued && r.active <= maxConcurrency && r.queued + r.active <= capacity
    {
      Accounting(View());
      return Snapshot(admitted, admitted - active, active, |table|, closed);
    }
  }
}
