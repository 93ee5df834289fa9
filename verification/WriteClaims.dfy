/** What holds in every reachable state of the write pipeline. */
module WriteClaims {
  import opened Base
  import opened WriteState
  import opened WriteProtocol
  import opened WriteInvariants
  import opened WriteSafety

  ghost predicate Reaches(s: Sys, actions: seq<Action>, t: Sys)
    decreases |actions|
  {
    if actions == [] then s == t
    else Enabled(s, actions[0]) && Reaches(Apply(s, actions[0]), actions[1..], t)
  }

  ghost predicate Reachable(s: Sys) {
    exists actions :: Reaches(Init(s.capacity), actions, s)
  }

  lemma {:induction false} RunKeepsInv(s: Sys, actions: seq<Action>, t: Sys)
    requires Inv(s) && Reaches(s, actions, t)
    ensures Inv(t)
    decreases |actions|
  {
    hide Inv, Apply, Enabled;
    if actions != [] {
      StepKeepsInv(s, actions[0]);
      RunKeepsInv(Apply(s, actions[0]), actions[1..], t);
    }
  }

  lemma ReachableInv(s: Sys)
    requires Reachable(s)
    ensures Inv(s)
  {
    hide Inv;
    var actions :| Reaches(Init(s.capacity), actions, s);
    InitInv(s.capacity);
    RunKeepsInv(Init(s.capacity), actions, s);
  }

  // ---------- The claims ----------

  /** A writer that sleeps although there is something to do has a thread about
      to notify it. Before `ready` the loop looks at nothing, not even at a
      terminal result, and so it never exits then. */
  lemma WriterNeverSleepsOnWork(s: Sys)
    requires Reachable(s)
    ensures s.writer.Awaiting? && !Enabled(s, PollNotified) && s.sync.ready && WorkForWriter(s.w) ==> NotifyDue(s.sync)
    ensures s.writer.Exited? ==> s.sync.ready
  {
    hide Consistent, LogInv, HandInv, FlightInv, OrderInv, EosInv, WaiterInv, BarrierInv, ProducerInv;
    ReachableInv(s);
  }

  /** A producer that was told to wait and has not been woken is registered, and
      either the buffers are full or a thread is about to wake it. */
  lemma ProducerNeverLosesItsWakeup(s: Sys)
    requires Reachable(s) && s.task.at.Parked? && !s.task.woken
    ensures s.task.waker
    ensures Buffered(s) >= s.capacity || WakeDue(s.sync)
  {
    hide Consistent, LogInv, HandInv, FlightInv, OrderInv, EosInv, WaiterInv, BarrierInv, WriterInv;
    ReachableInv(s);
  }

  lemma BufferingBound(s: Sys)
    requires Reachable(s)
    ensures |DataOf(s.w.queue)| + |Held(s.writer)| + s.w.inFlightCount <= s.capacity + 1
  {
    hide Consistent, LogInv, HandInv, FlightInv, OrderInv, EosInv, WaiterInv, BarrierInv, WriterInv, ProducerInv;
    ReachableInv(s);
  }

  /** The in-flight count is the total length of the per-pointer queues. */
  lemma CountIsExact(s: Sys)
    requires Reachable(s)
    ensures s.w.inFlightCount == Total(s.w.inFlight) == |s.flight.current|
    ensures forall p :: p in s.w.inFlight ==> s.w.inFlight[p] != []
  {
    hide LogInv, HandInv, OrderInv, EosInv, WaiterInv, BarrierInv, WriterInv, ProducerInv;
    ReachableInv(s);
  }

  /** A flush answered Ok by the writer or by a completion: every data item
      accepted before it has been submitted to native code and completed. */
  lemma FlushIsABarrier(s: Sys, i: nat, j: nat)
    requires Reachable(s) && i < |s.answers| && s.answers[i].how.Barrier?
    requires j < s.answers[i].waiter
    ensures s.answers[i].waiter < |s.log.commands| && s.log.commands[s.answers[i].waiter] == Flush(s.answers[i].waiter)
    ensures s.log.commands[j].Data? ==> j in s.flight.submitted && j in s.flight.completed
  {
    hide Consistent, HandInv, FlightInv, EosInv, WriterInv, ProducerInv;
    ReachableInv(s);
    assert CompletedBefore(s.log.commands, s.flight.completed, s.answers[i].waiter);
  }

  lemma {:induction false} DataOfPrefix(a: seq<Command>, n: nat)
    requires n <= |a|
    ensures DataOf(a[..n]) <= DataOf(a)
    ensures DataOf(a) == DataOf(a[..n]) + DataOf(a[n..])
  {
    DataOfConcat(a[..n], a[n..]);
    assert a == a[..n] + a[n..];
  }

  /** Data goes in flight in the order in which it was accepted; until a
      terminal result nothing is lost. */
  lemma SubmissionOrder(s: Sys)
    requires Reachable(s)
    ensures s.flight.inserted <= DataOf(s.log.commands)
    ensures s.w.terminal.None? ==> s.flight.inserted + Held(s.writer) + DataOf(s.w.queue) == DataOf(s.log.commands)
  {
    hide Consistent, FlightInv, EosInv, WriterInv, ProducerInv, WaiterInv, BarrierInv, DataOf;
    ReachableInv(s);
    LogBounds(s);
    DataOfPrefix(s.log.commands, |Taken(s.log, s.writer)|);
    DataOfPrefix(s.log.commands, s.log.popped);
    HeldData(s);
  }

  lemma HeldData(s: Sys)
    requires Inv(s)
    ensures s.log.popped <= |s.log.commands|
    ensures DataOf(s.log.commands[..s.log.popped]) == DataOf(Taken(s.log, s.writer)) + Held(s.writer)
  {
    hide Consistent, FlightInv, EosInv, WriterInv, ProducerInv, WaiterInv, BarrierInv, OrderInv;
    if s.writer.Holding? {
      TakenWhole(s);
      DataOfConcat(Taken(s.log, s.writer), [s.writer.command]);
    }
  }

  /** At most one end-of-stream item is ever accepted, and no data after it. */
  lemma EndOfStreamIsLast(s: Sys, i: nat, j: nat)
    requires Reachable(s) && i < |s.log.commands| && j < |s.log.commands| && i != j
    requires s.log.commands[i].Data? && s.log.commands[i].eos && s.log.commands[j].Data?
    ensures j < i && !s.log.commands[j].eos && s.w.localClosed
  {
    hide Consistent, LogInv, HandInv, FlightInv, OrderInv, WaiterInv, BarrierInv, WriterInv, ProducerInv;
    ReachableInv(s);
  }

  /** In how many places flush waiter `k` is. */
  ghost function Places(s: Sys, k: nat): nat {
    (if Flush(k) in s.w.queue then 1 else 0)
    + (if InHand(s.writer) == Some(k) then 1 else 0)
    + (if k in s.w.flushWaiters then 1 else 0)
    + (if Answered(s.answers, k) then 1 else 0)
  }

  /** Each accepted flush waiter is in exactly one of the queue, the writer's
      hand, the waiting list and the answers, and is answered at most once. */
  lemma WaiterConservation(s: Sys, k: nat)
    requires Reachable(s) && k < |s.log.commands| && s.log.commands[k].Flush?
    ensures Places(s, k) == 1
    ensures k >= s.log.base <==> Flush(k) in s.w.queue
    ensures |s.w.flushWaiters| <= 1 && (s.w.flushWaiters != [] ==> s.w.flushBlocked)
    ensures forall i, j :: 0 <= i < j < |s.answers| ==> s.answers[i].waiter != s.answers[j].waiter
  {
    hide HandInv, FlightInv, OrderInv, EosInv, BarrierInv, WriterInv, ProducerInv, Total;
    ReachableInv(s);
    if InHand(s.writer) == Some(k) {
      HandIsTaken(s, k);
    }
    if k >= s.log.base {
      assert s.w.queue[k - s.log.base] == Flush(k);
    } else {
      assert Left(s.log)[k] == s.log.commands[k];
    }
  }
}
