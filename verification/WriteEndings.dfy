/**
 The write pipeline after the terminal result: who is woken and answered in the
 continuations of a run, and who is not.
 */
module WriteEndings {
  import opened Base
  import opened WriteState
  import opened WriteProtocol
  import opened WriteInvariants
  import opened WriteSafety
  import opened WriteClaims

  // ---------- What else every step keeps ----------

  predicate AllSubmitted(f: Flights) {
    forall c :: c in f.current ==> c.Data? && c.serial in f.submitted
  }

  /** The terminal callback leaves a result. */
  predicate OverInv(over: bool, terminal: Option<Outcome>) {
    over ==> terminal.Some?
  }

  /** A failed result leaves nothing queued. */
  predicate FailedInv(terminal: Option<Outcome>, queue: seq<Command>) {
    terminal.Some? && terminal.value.Failed? ==> queue == []
  }

  /** Behind a raised barrier native code holds every write in flight. */
  predicate BlockedInv(blocked: bool, writer: Writer, f: Flights) {
    blocked ==> !writer.Inserted? && !writer.Failing? && AllSubmitted(f)
  }

  predicate EndInv(s: Sys) {
    OverInv(s.over, s.w.terminal) && FailedInv(s.w.terminal, s.w.queue) && BlockedInv(s.w.flushBlocked, s.writer, s.flight)
  }

  lemma RestSubmitted(f: Flights, p: nat)
    requires AllSubmitted(f)
    ensures AllSubmitted(f.(current := RemoveFirst(f.current, p)))
  {
    RemoveFirstMembers(f.current, p);
  }

  lemma {:induction false} RemoveFirstMembers(flight: seq<Command>, p: nat)
    ensures forall c :: c in RemoveFirst(flight, p) ==> c in flight
  {
    if flight != [] && !(flight[0].Data? && flight[0].pointer == p) {
      RemoveFirstMembers(flight[1..], p);
    }
  }

  /** With no write still on its way to native code, all are there. */
  lemma TailClosed(s: Sys)
    requires Inv(s) && !TailOpen(s.writer)
    ensures AllSubmitted(s.flight)
  {
    hide Consistent, LogInv, HandInv, OrderInv, EosInv, WaiterInv, BarrierInv, WriterInv, ProducerInv, Groups;
    forall c | c in s.flight.current ensures c.Data? && c.serial in s.flight.submitted {
      var i :| 0 <= i < |s.flight.current| && s.flight.current[i] == c;
    }
  }

  /** What the sections that accept a command or pop one leave alone. */
  predicate SameBut(s: Sys, t: Sys) {
    && t.w == s.w.(queue := t.w.queue, localClosed := t.w.localClosed)
    && t.flight == s.flight && t.answers == s.answers && t.over == s.over
    && s.log.commands <= t.log.commands
  }

  lemma EnqueueFrame(s: Sys)
    requires s.task.at.Trying?
    ensures SameBut(s, TryEnqueueSys(s)) && TryEnqueueSys(s).writer == s.writer
    ensures TryEnqueueSys(s).log.base == s.log.base && TryEnqueueSys(s).log.popped == s.log.popped
    ensures s.w.terminal.Some? && s.w.terminal.value.Failed? ==> TryEnqueueSys(s).w.queue == s.w.queue
  {
    hide Occupied;
  }

  lemma SubmitFrame(s: Sys)
    ensures SameBut(s, SubmitFlushSys(s)) && SubmitFlushSys(s).writer == s.writer
    ensures SubmitFlushSys(s).log.base == s.log.base && SubmitFlushSys(s).log.popped == s.log.popped
    ensures s.w.terminal.Some? && s.w.terminal.value.Failed? ==> SubmitFlushSys(s).w.queue == s.w.queue
  {
  }

  lemma PopFrame(s: Sys)
    requires s.writer.AtPop?
    ensures SameBut(s, PopSys(s)) && (s.w.flushBlocked || s.w.terminal.Some? ==> PopSys(s).writer.AtTerminalCheck?)
    ensures s.w.terminal.Some? ==> PopSys(s).w == s.w && PopSys(s).log == s.log
    ensures !PopSys(s).writer.Inserted? && !PopSys(s).writer.Failing?
  {
  }

  lemma DischargeFrame(s: Sys, d: Duty)
    ensures DischargeSys(s, d) == s.(sync := DischargeSys(s, d).sync, task := DischargeSys(s, d).task)
  {
    hide DischargeSync;
  }

  lemma FinishFrame(s: Sys, result: Outcome)
    ensures FinishSys(s, result).w.terminal == Some(result) && FinishSys(s, result).w.queue == []
    ensures FinishSys(s, result).w.flushBlocked == s.w.flushBlocked && FinishSys(s, result).writer == s.writer
    ensures FinishSys(s, result).flight == s.flight && FinishSys(s, result).over == s.over
    ensures FinishSys(s, result).log.popped == s.log.popped
  {
    hide AnswerAll, FinishAnswers;
  }

  lemma InsertFrame(s: Sys)
    requires s.writer.Holding? && s.writer.command.Data?
    ensures InsertSys(s).w.terminal == s.w.terminal && InsertSys(s).w.queue == s.w.queue
    ensures InsertSys(s).w.flushBlocked == s.w.flushBlocked && InsertSys(s).over == s.over
    ensures InsertSys(s).log == s.log
  {
  }

  lemma CompleteFrame(s: Sys, p: nat)
    ensures CompleteSys(s, p).w.terminal == s.w.terminal && CompleteSys(s, p).w.queue == s.w.queue
    ensures CompleteSys(s, p).over == s.over && CompleteSys(s, p).log == s.log && CompleteSys(s, p).writer == s.writer
  {
    hide RemoveFirst, AnswerAll, CompletedSerial;
  }

  lemma SettleFrame(s: Sys)
    requires s.writer.FlushIssued?
    ensures SettleSys(s).w.terminal == s.w.terminal && SettleSys(s).w.queue == s.w.queue
    ensures SettleSys(s).over == s.over && SettleSys(s).log == s.log
  {
  }

  lemma ResultKept(s: Sys, a: Action)
    requires OverInv(s.over, s.w.terminal) && FailedInv(s.w.terminal, s.w.queue) && Enabled(s, a)
    ensures OverInv(Apply(s, a).over, Apply(s, a).w.terminal)
    ensures FailedInv(Apply(s, a).w.terminal, Apply(s, a).w.queue)
  {
    hide TryEnqueueSys, SubmitFlushSys, PopSys, InsertSys, SettleSys, CompleteSys, DischargeSys, FinishSys,
      AwaitsCompletion;
    match a {
      case TryEnqueueData => EnqueueFrame(s);
      case SubmitFlush => SubmitFrame(s);
      case PopCommand => PopFrame(s);
      case InsertData => InsertFrame(s);
      case Settle => SettleFrame(s);
      case WriteCompleted(p) => CompleteFrame(s, p);
      case Discharge(d) => DischargeFrame(s, d);
      case FinishFailed => FinishFrame(s, Failed(s.writer.error));
      case Terminal(result) => FinishFrame(s, result);
      case _ =>
    }
  }

  lemma SettleBlocked(s: Sys)
    requires Inv(s) && s.writer.FlushIssued? && BlockedInv(s.w.flushBlocked, s.writer, s.flight)
    ensures BlockedInv(SettleSys(s).w.flushBlocked, SettleSys(s).writer, SettleSys(s).flight)
  {
    TailClosed(s);
    hide Inv, AllSubmitted;
  }

  lemma CompleteBlocked(s: Sys, p: nat)
    requires BlockedInv(s.w.flushBlocked, s.writer, s.flight)
    ensures BlockedInv(CompleteSys(s, p).w.flushBlocked, s.writer, CompleteSys(s, p).flight)
  {
    if s.w.flushBlocked {
      RestSubmitted(s.flight, p);
    }
    hide RemoveFirst, CompletedSerial;
  }

  /** A writer with a command in hand has no barrier before it. */
  lemma HandIsFree(s: Sys)
    requires Inv(s) && (s.writer.Holding? || s.writer.FlushIssued?)
    ensures !s.w.flushBlocked
  {
    hide Consistent, LogInv, HandInv, FlightInv, OrderInv, EosInv, WaiterInv, BarrierInv, WriterInv, ProducerInv;
  }

  lemma BlockedKept(s: Sys, a: Action)
    requires Inv(s) && BlockedInv(s.w.flushBlocked, s.writer, s.flight) && Enabled(s, a)
    ensures BlockedInv(Apply(s, a).w.flushBlocked, Apply(s, a).writer, Apply(s, a).flight)
  {
    if s.writer.Holding? || s.writer.FlushIssued? {
      HandIsFree(s);
    }
    hide Inv, AllSubmitted, TryEnqueueSys, SubmitFlushSys, PopSys, InsertSys, SettleSys, CompleteSys, DischargeSys,
      FinishSys, AwaitsCompletion;
    match a {
      case TryEnqueueData => EnqueueFrame(s);
      case SubmitFlush => SubmitFrame(s);
      case PopCommand => PopFrame(s);
      case InsertData => InsertFrame(s);
      case Settle => SettleBlocked(s);
      case WriteCompleted(p) => CompleteBlocked(s, p); CompleteFrame(s, p);
      case Discharge(d) => DischargeFrame(s, d);
      case FinishFailed => FinishFrame(s, Failed(s.writer.error));
      case Terminal(result) => FinishFrame(s, result);
      case _ =>
    }
  }

  lemma EndKept(s: Sys, a: Action)
    requires Inv(s) && EndInv(s) && Enabled(s, a)
    ensures EndInv(Apply(s, a))
  {
    hide Inv, Apply, Enabled, OverInv, FailedInv, BlockedInv;
    ResultKept(s, a);
    BlockedKept(s, a);
  }

  /** Both invariants together. */
  ghost predicate Good(s: Sys) {
    Inv(s) && EndInv(s)
  }

  lemma GoodKept(s: Sys, a: Action)
    requires Good(s) && Enabled(s, a)
    ensures Good(Apply(s, a))
  {
    hide Inv, EndInv, Apply, Enabled;
    StepKeepsInv(s, a);
    EndKept(s, a);
  }

  lemma {:induction false} RunKeepsGood(s: Sys, actions: seq<Action>, t: Sys)
    requires Good(s) && Reaches(s, actions, t)
    ensures Good(t)
    decreases |actions|
  {
    hide Good, Apply, Enabled;
    if actions != [] {
      GoodKept(s, actions[0]);
      RunKeepsGood(Apply(s, actions[0]), actions[1..], t);
    }
  }

  lemma ReachableGood(s: Sys)
    requires Reachable(s)
    ensures Good(s)
  {
    var actions :| Reaches(Init(s.capacity), actions, s);
    InitInv(s.capacity);
    assert EndInv(Init(s.capacity));
    hide Inv, EndInv;
    RunKeepsGood(Init(s.capacity), actions, s);
  }

  // ---------- A producer that meets the end ----------

  /** After the end the recheck of a producer parks it if and only if the data
      queued since the last `finish` and the writes in flight fill the capacity;
      after a failure nothing is queued, so that the writes in flight decide. */
  lemma RecheckAfterTheEnd(s: Sys)
    requires Reachable(s) && s.task.at.Registered? && s.w.terminal.Some?
    ensures s.log.base <= |s.log.commands|
    ensures Apply(s, Recheck).task.at.Parked?
       <==> |DataOf(s.log.commands[s.log.base..])| + s.w.inFlightCount >= s.capacity
    ensures s.w.terminal.value.Failed? ==> s.log.base == |s.log.commands|
  {
    hide Consistent, HandInv, FlightInv, OrderInv, EosInv, WaiterInv, BarrierInv, WriterInv, ProducerInv;
    ReachableGood(s);
  }

  /** A failed result lets no command in, and none is queued. */
  lemma FailureAcceptsNothing(s: Sys, a: Action)
    requires Reachable(s) && s.w.terminal.Some? && s.w.terminal.value.Failed?
    requires a == TryEnqueueData || a == SubmitFlush
    requires Enabled(s, a)
    ensures s.w.queue == [] && Apply(s, a).w == s.w && Apply(s, a).log == s.log
  {
    ReachableGood(s);
    hide Inv, Occupied;
  }

  /** The writer may still end in `finish`. */
  predicate MayFail(writer: Writer) {
    writer.Holding? || writer.Inserted? || writer.Failing?
  }

  predicate Asleep(s: Sys) {
    s.task.at.Parked? && !s.task.woken
  }

  /** The task is not polled of its own accord. */
  ghost predicate Unpolled(actions: seq<Action>) {
    forall a :: a in actions ==> !a.BeginPoll? && !a.SubmitFlush?
  }

  /** Nobody is left to wake the producer, native completions apart. */
  predicate Deserted(s: Sys) {
    s.over && !WakeDue(s.sync) && !MayFail(s.writer)
  }

  /** And native code holds no write that it could complete. */
  ghost predicate Forgotten(s: Sys) {
    Deserted(s) && forall p :: !AwaitsCompletion(s.flight, p)
  }

  lemma DesertedStep(s: Sys, a: Action)
    requires Good(s) && Enabled(s, a) && Asleep(s) && Deserted(s)
    requires !a.BeginPoll? && !a.SubmitFlush? && !a.WriteCompleted?
    ensures Asleep(Apply(s, a)) && Deserted(Apply(s, a)) && Apply(s, a).flight == s.flight
  {
    hide Inv, Consistent, Insert, Complete;
  }

  /** A deserted producer sleeps through every continuation in which native code
      completes no write. */
  lemma {:induction false} DesertedSleepsOn(s: Sys, actions: seq<Action>, t: Sys)
    requires Good(s) && Reaches(s, actions, t) && Asleep(s) && Deserted(s) && Unpolled(actions)
    requires forall a :: a in actions ==> !a.WriteCompleted?
    ensures Asleep(t) && Deserted(t)
    decreases |actions|
  {
    hide Good, Apply, Enabled, Asleep, Deserted;
    if actions != [] {
      var a := actions[0];
      assert a in actions && forall b :: b in actions[1..] ==> b in actions;
      GoodKept(s, a);
      DesertedStep(s, a);
      DesertedSleepsOn(Apply(s, a), actions[1..], t);
    }
  }

  /** A forgotten producer sleeps through every continuation. */
  lemma {:induction false} ForgottenSleepsOn(s: Sys, actions: seq<Action>, t: Sys)
    requires Good(s) && Reaches(s, actions, t) && Asleep(s) && Forgotten(s) && Unpolled(actions)
    ensures Asleep(t) && Forgotten(t)
    decreases |actions|
  {
    hide Good, Apply, Asleep, Deserted;
    if actions != [] {
      var a := actions[0];
      assert a in actions && forall b :: b in actions[1..] ==> b in actions;
      GoodKept(s, a);
      DesertedStep(s, a);
      ForgottenSleepsOn(Apply(s, a), actions[1..], t);
    }
  }

  // ---------- A producer that can still be woken ----------

  /** An unpolled continuation of `s` in which the task is woken. */
  ghost predicate Wakes(s: Sys, actions: seq<Action>, t: Sys) {
    Reaches(s, actions, t) && Unpolled(actions) && t.task.woken
  }

  lemma Prepend(s: Sys, a: Action, actions: seq<Action>, t: Sys)
    requires Enabled(s, a) && !a.BeginPoll? && !a.SubmitFlush? && Wakes(Apply(s, a), actions, t)
    ensures Wakes(s, [a] + actions, t)
  {
    hide Enabled, Apply;
    assert ([a] + actions)[1..] == actions;
  }

  lemma Registered(s: Sys)
    requires Inv(s) && Asleep(s)
    ensures s.task.waker
  {
    hide Consistent, LogInv, HandInv, FlightInv, OrderInv, EosInv, WaiterInv, BarrierInv, WriterInv, Buffered;
  }

  /** A duty that wakes at once. */
  lemma WakesAtOnce(s: Sys, d: Duty) returns (actions: seq<Action>, t: Sys)
    requires d in s.sync.duties && (d.Wake? || d.WakeThenNotifyAll?) && s.task.waker
    ensures Wakes(s, actions, t)
  {
    actions, t := [], Apply(s, Discharge(d));
    Prepend(s, Discharge(d), [], t);
    actions := [Discharge(d)] + [];
  }

  lemma WakesByDuty(s: Sys) returns (actions: seq<Action>, t: Sys)
    requires WakeDue(s.sync) && s.task.waker
    ensures Wakes(s, actions, t)
  {
    hide Wakes;
    if Wake in s.sync.duties {
      actions, t := WakesAtOnce(s, Wake);
    } else if WakeThenNotifyAll in s.sync.duties {
      actions, t := WakesAtOnce(s, WakeThenNotifyAll);
    } else {
      var a := Discharge(NotifyThenWake);
      actions, t := WakesAtOnce(Apply(s, a), Wake);
      Prepend(s, a, actions, t);
      actions := [a] + actions;
    }
  }

  /** One step that leaves a wake owed. */
  lemma WakesAfter(s: Sys, a: Action) returns (actions: seq<Action>, t: Sys)
    requires Enabled(s, a) && !a.BeginPoll? && !a.SubmitFlush?
    requires WakeDue(Apply(s, a).sync) && Apply(s, a).task.waker
    ensures Wakes(s, actions, t)
  {
    hide Wakes, Enabled, Apply, WakeDue;
    actions, t := WakesByDuty(Apply(s, a));
    Prepend(s, a, actions, t);
    actions := [a] + actions;
  }

  lemma WakesByFailure(s: Sys) returns (actions: seq<Action>, t: Sys)
    requires Inv(s) && MayFail(s.writer) && s.task.waker
    ensures Wakes(s, actions, t)
    decreases if s.writer.Holding? then 2 else if s.writer.Inserted? then 1 else 0
  {
    hide Wakes, Inv;
    if s.writer.Failing? {
      actions, t := WakesAfter(s, FinishFailed);
    } else {
      var a := if s.writer.Inserted? then NativeWrite(Failed(Canceled))
               else if s.writer.command.Data? then InsertData
               else NativeFlush(Failed(Canceled));
      StepKeepsInv(s, a);
      actions, t := WakesByFailure(Apply(s, a));
      Prepend(s, a, actions, t);
      actions := [a] + actions;
    }
  }

  lemma TerminalOwes(s: Sys)
    requires !s.over && s.task.waker
    ensures Enabled(s, Terminal(Done)) && WakeDue(Apply(s, Terminal(Done)).sync) && Apply(s, Terminal(Done)).task.waker
  {
  }

  lemma CompletionOwes(s: Sys, p: nat)
    requires AwaitsCompletion(s.flight, p) && s.task.waker
    ensures Enabled(s, WriteCompleted(p))
    ensures WakeDue(Apply(s, WriteCompleted(p)).sync) && Apply(s, WriteCompleted(p)).task.waker
  {
    hide Complete;
  }

  /** A sleeping producer that is not forgotten is woken in some continuation. */
  lemma CanBeWoken(s: Sys) returns (actions: seq<Action>, t: Sys)
    requires Good(s) && Asleep(s) && !Forgotten(s)
    ensures Wakes(s, actions, t)
  {
    Registered(s);
    hide Inv, EndInv, Wakes, Apply, Enabled, WakeDue, MayFail, AwaitsCompletion;
    if WakeDue(s.sync) {
      actions, t := WakesByDuty(s);
    } else if !s.over {
      TerminalOwes(s);
      actions, t := WakesAfter(s, Terminal(Done));
    } else if MayFail(s.writer) {
      actions, t := WakesByFailure(s);
    } else {
      var p :| AwaitsCompletion(s.flight, p);
      CompletionOwes(s, p);
      actions, t := WakesAfter(s, WriteCompleted(p));
    }
  }

  /** Exactly when a sleeping producer sleeps for ever, unless it is polled of its
      own accord: the terminal callback is through, no wake is owed, the writer
      holds nothing, and native code has no write left to complete. */
  lemma SleepsForEverIff(s: Sys)
    requires Reachable(s) && Asleep(s)
    ensures (forall actions, t :: !Wakes(s, actions, t)) <==> Forgotten(s)
  {
    ReachableGood(s);
    hide Reachable, Forgotten, Good;
    if Forgotten(s) {
      forall actions, t ensures !Wakes(s, actions, t) {
        if Wakes(s, actions, t) {
          ForgottenSleepsOn(s, actions, t);
        }
      }
    } else {
      hide Wakes, Asleep;
      var actions, t := CanBeWoken(s);
    }
  }

  // ---------- Flushes that meet the end ----------

  /** The terminal callback is through, and the writer has nothing in hand; it may
      have exited or not. */
  predicate Closed(s: Sys) {
    s.over && Hand(s.writer).None? && !s.writer.Failing?
  }

  predicate FlushAt(s: Sys, k: nat) {
    k < |s.log.commands| && s.log.commands[k].Flush?
  }

  lemma {:induction false} AnsweredPrefix(a: seq<Answer>, b: seq<Answer>, k: nat)
    requires a <= b && Answered(a, k)
    ensures Answered(b, k)
  {
    var i :| 0 <= i < |a| && a[i].waiter == k;
    assert b[i] == a[i];
  }

  /** A completion answers every listed flush or none of the others. */
  lemma CompletionAnswers(s: Sys, p: nat, k: nat)
    requires Good(s) && AwaitsCompletion(s.flight, p)
    ensures var t := CompleteSys(s, p);
            && s.answers <= t.answers && t.w.inFlightCount == s.w.inFlightCount - 1
            && (if k in s.w.flushWaiters && t.w.inFlightCount == 0
                then Answer(k, Barrier) in t.answers
                else (Answered(t.answers, k) <==> Answered(s.answers, k))
                     && (k in t.w.flushWaiters <==> k in s.w.flushWaiters))
  {
    var t := CompleteSys(s, p);
    assert p in s.w.inFlight by { HoldingIsMapped(s, p); }
    CompleteIsExact(s.w, p);
    hide LogInv, HandInv, FlightInv, OrderInv, EosInv, WaiterInv, BarrierInv, WriterInv, ProducerInv, Total, Left, EndInv,
      RemoveFirst, AwaitsCompletion;
    if Releases(s.w, p) {
      assert forall i :: 0 <= i < |t.answers| ==>
        t.answers[i] == if i < |s.answers| then s.answers[i] else Answer(s.w.flushWaiters[i - |s.answers|], Barrier);
      if k in s.w.flushWaiters {
        var i :| 0 <= i < |s.w.flushWaiters| && s.w.flushWaiters[i] == k;
        assert t.answers[|s.answers| + i] == Answer(k, Barrier);
      } else if Answered(s.answers, k) {
        AnsweredPrefix(s.answers, t.answers, k);
      }
    }
  }

  /** A write that native code holds is in the map. */
  lemma HoldingIsMapped(s: Sys, p: nat)
    requires Inv(s) && AwaitsCompletion(s.flight, p)
    ensures p in s.w.inFlight
  {
    hide LogInv, HandInv, OrderInv, EosInv, WaiterInv, BarrierInv, WriterInv, ProducerInv;
    var c := RetireFlight(s.w, s.flight, TailOpen(s.writer), p);
    assert CompletedSerial(s.w, p) == {c.serial};
    CompleteIsExact(s.w, p);
  }

  lemma ClosedStep(s: Sys, a: Action, k: nat)
    requires Good(s) && Closed(s) && Enabled(s, a) && FlushAt(s, k)
    ensures var t := Apply(s, a);
            && Closed(t) && FlushAt(t, k) && t.log.base == s.log.base && s.answers <= t.answers
            && t.w.inFlightCount <= s.w.inFlightCount
            && (!a.WriteCompleted? ==> t.w.inFlightCount == s.w.inFlightCount)
            && (if k in s.w.flushWaiters && t.w.inFlightCount == 0 && a.WriteCompleted?
                then Answer(k, Barrier) in t.answers
                else (Answered(t.answers, k) <==> Answered(s.answers, k))
                     && (k in t.w.flushWaiters <==> k in s.w.flushWaiters))
  {
    assert s.w.terminal.Some?;
    hide Good, TryEnqueueSys, SubmitFlushSys, PopSys, CompleteSys, DischargeSys, FinishSys, AwaitsCompletion, Answered;
    match a {
      case TryEnqueueData => EnqueueFrame(s);
      case SubmitFlush => SubmitFrame(s);
      case PopCommand => PopFrame(s);
      case WriteCompleted(p) => CompletionAnswers(s, p, k); CompleteFrame(s, p);
      case Discharge(d) => DischargeFrame(s, d);
      case _ =>
    }
  }

  lemma ListedIsBehindBarrier(s: Sys, k: nat)
    requires Inv(s) && k in s.w.flushWaiters
    ensures s.w.inFlightCount > 0 && s.w.flushBlocked && !Answered(s.answers, k)
  {
    hide LogInv, HandInv, FlightInv, OrderInv, EosInv, BarrierInv, WriterInv, ProducerInv, Total, Left;
  }

  /** In every continuation after the end, a flush not answered so far is answered
      if and only if it is on the waiting list and native code has completed
      every write in flight, and then it is answered Ok. */
  lemma {:induction false} AnsweredIffDrained(s: Sys, actions: seq<Action>, t: Sys, k: nat)
    requires Good(s) && Closed(s) && FlushAt(s, k) && !Answered(s.answers, k) && Reaches(s, actions, t)
    ensures Answered(t.answers, k) <==> k in s.w.flushWaiters && t.w.inFlightCount == 0
    ensures Answered(t.answers, k) ==> Answer(k, Barrier) in t.answers
    ensures (forall a :: a in actions ==> !a.WriteCompleted?) ==> t.w.inFlightCount == s.w.inFlightCount
    decreases |actions|
  {
    if k in s.w.flushWaiters {
      ListedIsBehindBarrier(s, k);
    }
    hide Good, Apply, Enabled, Closed, FlushAt;
    if actions != [] {
      var a, u := actions[0], Apply(s, actions[0]);
      assert a in actions && forall b :: b in actions[1..] ==> b in actions;
      GoodKept(s, a);
      ClosedStep(s, a, k);
      if Answered(u.answers, k) {
        AnsweredStays(u, actions[1..], t, k);
      } else {
        assert Answer(k, Barrier) !in u.answers;
        AnsweredIffDrained(u, actions[1..], t, k);
      }
    }
  }

  lemma {:induction false} AnsweredStays(s: Sys, actions: seq<Action>, t: Sys, k: nat)
    requires Good(s) && Closed(s) && FlushAt(s, k) && Answer(k, Barrier) in s.answers && Reaches(s, actions, t)
    ensures Answered(t.answers, k) && Answer(k, Barrier) in t.answers && t.w.inFlightCount <= s.w.inFlightCount
    ensures (forall a :: a in actions ==> !a.WriteCompleted?) ==> t.w.inFlightCount == s.w.inFlightCount
    decreases |actions|
  {
    hide Good, Apply, Enabled, Closed, FlushAt;
    if actions == [] {
      var i :| 0 <= i < |s.answers| && s.answers[i] == Answer(k, Barrier);
      assert s.answers[i].waiter == k;
    } else {
      var a, u := actions[0], Apply(s, actions[0]);
      assert a in actions && forall b :: b in actions[1..] ==> b in actions;
      GoodKept(s, a);
      ClosedStep(s, a, k);
      AnsweredStays(u, actions[1..], t, k);
    }
  }

  lemma FirstInFlight(s: Sys) returns (p: nat)
    requires Inv(s) && AllSubmitted(s.flight) && s.w.inFlightCount > 0
    ensures AwaitsCompletion(s.flight, p)
  {
    NoneInFlight(s);
    hide Inv;
    var c := s.flight.current[0];
    assert c in s.flight.current;
    p := c.pointer;
  }

  lemma NoneInFlight(s: Sys)
    requires Inv(s)
    ensures s.w.inFlightCount == |s.flight.current|
  {
    hide Consistent, LogInv, HandInv, OrderInv, EosInv, WaiterInv, BarrierInv, WriterInv, ProducerInv, Groups;
  }

  lemma Steps(s: Sys, a: Action, actions: seq<Action>, t: Sys)
    requires Enabled(s, a) && Reaches(Apply(s, a), actions, t)
    ensures Reaches(s, [a] + actions, t)
  {
    hide Enabled, Apply;
    assert ([a] + actions)[1..] == actions;
  }

  /** A continuation of `s` in which flush `k` is answered. */
  ghost predicate Answers(s: Sys, actions: seq<Action>, t: Sys, k: nat) {
    Reaches(s, actions, t) && Answered(t.answers, k)
  }

  lemma AnswersLater(s: Sys, a: Action, actions: seq<Action>, t: Sys, k: nat)
    requires Enabled(s, a) && Answers(Apply(s, a), actions, t, k)
    ensures Answers(s, [a] + actions, t, k)
  {
    hide Enabled, Apply, Answered;
    Steps(s, a, actions, t);
  }

  lemma AnswersNow(s: Sys, a: Action, k: nat) returns (actions: seq<Action>, t: Sys)
    requires Enabled(s, a) && Answered(Apply(s, a).answers, k)
    ensures Answers(s, actions, t, k)
  {
    hide Enabled, Apply, Answered;
    t := Apply(s, a);
    assert Reaches(t, [], t);
    AnswersLater(s, a, [], t, k);
    actions := [a] + [];
  }

  lemma AnswerCounts(answers: seq<Answer>, k: nat, how: How)
    requires Answer(k, how) in answers
    ensures Answered(answers, k)
  {
    var i :| 0 <= i < |answers| && answers[i] == Answer(k, how);
    assert answers[i].waiter == k;
  }

  lemma ListedIsSubmitted(s: Sys, k: nat)
    requires Good(s) && k in s.w.flushWaiters
    ensures s.w.inFlightCount > 0 && AllSubmitted(s.flight)
  {
    ListedIsBehindBarrier(s, k);
    hide Inv, AllSubmitted;
  }

  lemma AppliesComplete(s: Sys, p: nat)
    requires AwaitsCompletion(s.flight, p)
    ensures Enabled(s, WriteCompleted(p)) && Apply(s, WriteCompleted(p)) == CompleteSys(s, p)
  {
    hide CompleteSys;
  }

  /** One completion answers a listed flush or brings its answer nearer. */
  lemma ListedStep(s: Sys, k: nat) returns (a: Action)
    requires Good(s) && k in s.w.flushWaiters
    ensures Enabled(s, a) && Good(Apply(s, a)) && Apply(s, a).w.inFlightCount < s.w.inFlightCount
    ensures Answered(Apply(s, a).answers, k) || k in Apply(s, a).w.flushWaiters
  {
    ListedIsSubmitted(s, k);
    var p := FirstInFlight(s);
    a := WriteCompleted(p);
    AppliesComplete(s, p);
    hide Good, Apply, Enabled, AwaitsCompletion, AllSubmitted, CompleteSys, Answered;
    GoodKept(s, a);
    CompletionAnswers(s, p, k);
    if CompleteSys(s, p).w.inFlightCount == 0 {
      AnswerCounts(CompleteSys(s, p).answers, k, Barrier);
    }
  }

  /** A listed flush is answered as soon as native code has completed what it holds. */
  lemma {:induction false} ListedCanBeAnswered(s: Sys, k: nat) returns (actions: seq<Action>, t: Sys)
    requires Good(s) && k in s.w.flushWaiters
    ensures Answers(s, actions, t, k)
    decreases s.w.inFlightCount
  {
    hide Good, Apply, Enabled, Answers, Answered;
    var a := ListedStep(s, k);
    if Answered(Apply(s, a).answers, k) {
      actions, t := AnswersNow(s, a, k);
    } else {
      actions, t := ListedCanBeAnswered(Apply(s, a), k);
      AnswersLater(s, a, actions, t, k);
      actions := [a] + actions;
    }
  }

  /** `finish` answers what is queued. */
  lemma FinishAnswersQueued(s: Sys, result: Outcome, k: nat)
    requires Inv(s) && FlushAt(s, k) && k >= s.log.base
    ensures Answered(FinishSys(s, result).answers, k)
  {
    hide Consistent, HandInv, FlightInv, OrderInv, EosInv, WaiterInv, BarrierInv, WriterInv, ProducerInv;
    WaitersOfLog(s.log.commands, s.log.base);
    var due := FinishAnswers(s.w);
    assert k in WaitersOf(s.w.queue);
    var j :| 0 <= j < |WaitersOf(s.w.queue)| && WaitersOf(s.w.queue)[j] == k;
    var i := |s.w.flushWaiters| + j;
    assert due[i] == k;
    assert FinishSys(s, result).answers[|s.answers| + i].waiter == k;
  }

  /** A writer that may fail may still answer what is queued. */
  lemma FailureAnswersQueued(s: Sys, k: nat) returns (actions: seq<Action>, t: Sys)
    requires Inv(s) && MayFail(s.writer) && FlushAt(s, k) && k >= s.log.base
    ensures Answers(s, actions, t, k)
    decreases if s.writer.Holding? then 2 else if s.writer.Inserted? then 1 else 0
  {
    hide Answers, Inv, Answered;
    if s.writer.Failing? {
      FinishAnswersQueued(s, Failed(s.writer.error), k);
      actions, t := AnswersNow(s, FinishFailed, k);
    } else {
      var a := if s.writer.Inserted? then NativeWrite(Failed(Canceled))
               else if s.writer.command.Data? then InsertData
               else NativeFlush(Failed(Canceled));
      StepKeepsInv(s, a);
      actions, t := FailureAnswersQueued(Apply(s, a), k);
      AnswersLater(s, a, actions, t, k);
      actions := [a] + actions;
    }
  }

  /** A flush in the writer's hand can be answered. */
  lemma HandCanBeAnswered(s: Sys, k: nat) returns (actions: seq<Action>, t: Sys)
    requires Good(s) && InHand(s.writer) == Some(k)
    ensures Answers(s, actions, t, k)
  {
    hide Answers, Inv, EndInv, Answered;
    if s.writer.Holding? {
      var a := NativeFlush(Failed(Canceled));
      AnswerCounts(Apply(s, a).answers, k, ByFlushError(Canceled));
      actions, t := AnswersNow(s, a, k);
    } else if s.w.inFlightCount == 0 {
      AnswerCounts(Apply(s, Settle).answers, k, Barrier);
      actions, t := AnswersNow(s, Settle, k);
    } else {
      GoodKept(s, Settle);
      assert k in Apply(s, Settle).w.flushWaiters;
      actions, t := ListedCanBeAnswered(Apply(s, Settle), k);
      AnswersLater(s, Settle, actions, t, k);
      actions := [Settle] + actions;
    }
  }

  /** Whatever is still queued when the writer cannot fail any more stays there. */
  predicate Settled(s: Sys, k: nat) {
    s.over && !MayFail(s.writer) && k >= s.log.base
  }

  lemma SettledStep(s: Sys, a: Action, k: nat)
    requires Good(s) && Enabled(s, a) && Settled(s, k)
    ensures Settled(Apply(s, a), k)
  {
    assert s.w.terminal.Some?;
    hide Good, TryEnqueueSys, SubmitFlushSys, PopSys, InsertSys, SettleSys, CompleteSys, DischargeSys, FinishSys,
      AwaitsCompletion;
    match a {
      case TryEnqueueData => EnqueueFrame(s);
      case SubmitFlush => SubmitFrame(s);
      case PopCommand => PopFrame(s);
      case Settle => SettleFrame(s); SettleGoesOn(s);
      case WriteCompleted(p) => CompleteFrame(s, p);
      case Discharge(d) => DischargeFrame(s, d);
      case _ =>
    }
  }

  lemma SettleGoesOn(s: Sys)
    requires s.writer.FlushIssued?
    ensures SettleSys(s).writer.Top?
  {
  }

  lemma {:induction false} SettledStays(s: Sys, actions: seq<Action>, t: Sys, k: nat)
    requires Good(s) && Reaches(s, actions, t) && Settled(s, k)
    ensures Good(t) && Settled(t, k)
    decreases |actions|
  {
    hide Good, Apply, Enabled, Settled;
    if actions != [] {
      GoodKept(s, actions[0]);
      SettledStep(s, actions[0], k);
      SettledStays(Apply(s, actions[0]), actions[1..], t, k);
    }
  }

  lemma QueuedIsUnanswered(s: Sys, k: nat)
    requires Inv(s) && k >= s.log.base
    ensures !Answered(s.answers, k)
  {
    hide Consistent, HandInv, FlightInv, OrderInv, EosInv, BarrierInv, WriterInv, ProducerInv;
  }

  lemma TerminalAnswersQueued(s: Sys, k: nat) returns (actions: seq<Action>, t: Sys)
    requires Inv(s) && !s.over && FlushAt(s, k) && k >= s.log.base
    ensures Answers(s, actions, t, k)
  {
    FinishAnswersQueued(s, Done, k);
    AppliesTerminal(s);
    hide Inv, Answers, Answered, FinishSys, Apply, Enabled;
    actions, t := AnswersNow(s, Terminal(Done), k);
  }

  lemma AppliesTerminal(s: Sys)
    requires !s.over
    ensures Enabled(s, Terminal(Done)) && Apply(s, Terminal(Done)) == FinishSys(s, Done).(over := true)
  {
    hide FinishSys;
  }

  /** Exactly when a flush not answered so far is answered in no continuation: the
      terminal callback is through, the flush is still queued, and the writer
      holds nothing that could fail. */
  lemma UnansweredForEverIff(s: Sys, k: nat)
    requires Reachable(s) && FlushAt(s, k) && !Answered(s.answers, k)
    ensures (forall actions, t :: !Answers(s, actions, t, k)) <==> Settled(s, k)
  {
    WaiterConservation(s, k);
    ReachableGood(s);
    hide Reachable, Inv, EndInv, FlushAt, Answered;
    if Settled(s, k) {
      forall actions, t ensures !Answers(s, actions, t, k) {
        if Answers(s, actions, t, k) {
          SettledStays(s, actions, t, k);
          QueuedIsUnanswered(t, k);
        }
      }
    } else {
      hide Answers;
      if k >= s.log.base && s.over {
        var actions, t := FailureAnswersQueued(s, k);
      } else if k >= s.log.base {
        var actions, t := TerminalAnswersQueued(s, k);
      } else if k in s.w.flushWaiters {
        var actions, t := ListedCanBeAnswered(s, k);
      } else {
        var actions, t := HandCanBeAnswered(s, k);
      }
    }
  }

  // ---------- Data that meets the end ----------

  lemma EndedStep(s: Sys, a: Action)
    requires Enabled(s, a) && s.w.terminal.Some?
    ensures Apply(s, a).w.terminal.Some? && Apply(s, a).log.popped == s.log.popped
  {
    hide TryEnqueueSys, SubmitFlushSys, PopSys, InsertSys, SettleSys, CompleteSys, DischargeSys, FinishSys,
      AwaitsCompletion;
    match a {
      case TryEnqueueData => EnqueueFrame(s);
      case SubmitFlush => SubmitFrame(s);
      case PopCommand => PopFrame(s);
      case InsertData => InsertFrame(s);
      case Settle => SettleFrame(s);
      case WriteCompleted(p) => CompleteFrame(s, p);
      case Discharge(d) => DischargeFrame(s, d);
      case FinishFailed => FinishFrame(s, Failed(s.writer.error));
      case Terminal(result) => FinishFrame(s, result);
      case _ =>
    }
  }

  /** After a terminal result nothing more is popped, in any continuation. */
  lemma {:induction false} PoppedStays(s: Sys, actions: seq<Action>, t: Sys)
    requires Good(s) && s.w.terminal.Some? && Reaches(s, actions, t)
    ensures Good(t) && t.log.popped == s.log.popped
    decreases |actions|
  {
    hide Good, Apply, Enabled;
    if actions != [] {
      GoodKept(s, actions[0]);
      EndedStep(s, actions[0]);
      PoppedStays(Apply(s, actions[0]), actions[1..], t);
    }
  }

  /** Data that has been popped is in flight, or one step away from it. */
  lemma PoppedGoesInFlight(s: Sys, k: nat) returns (actions: seq<Action>, t: Sys)
    requires Inv(s) && k < s.log.popped && k < |s.log.commands| && s.log.commands[k].Data?
    ensures Reaches(s, actions, t) && s.log.commands[k] in t.flight.inserted
  {
    hide Consistent, FlightInv, EosInv, WaiterInv, BarrierInv, WriterInv, ProducerInv;
    var taken, c := Taken(s.log, s.writer), s.log.commands[k];
    if k < |taken| {
      assert taken[k] == c;
      DataMembers(taken);
      DataIsKept(taken, k);
      actions, t := [], s;
    } else {
      assert s.writer == Holding(c);
      t := Apply(s, InsertData);
      assert t.flight.inserted == s.flight.inserted + [c];
      hide Inv, Apply, Enabled;
      assert Reaches(t, [], t);
      Steps(s, InsertData, [], t);
      actions := [InsertData] + [];
    }
  }

  lemma {:induction false} DataIsKept(commands: seq<Command>, k: nat)
    requires k < |commands| && commands[k].Data?
    ensures commands[k] in DataOf(commands)
  {
    if k == 0 {
      assert IfData(commands[0])[0] == commands[0];
    } else {
      DataIsKept(commands[1..], k - 1);
    }
  }

  lemma SerialIsPlace(s: Sys, k: nat)
    requires Inv(s) && k < |s.log.commands| && s.log.commands[k].Data?
    ensures s.log.commands[k].serial == k
  {
    hide Consistent, HandInv, FlightInv, OrderInv, EosInv, WaiterInv, BarrierInv, WriterInv, ProducerInv;
    assert Token(s.log.commands[k]) == k;
  }

  /** Exactly which data goes in flight once there is a terminal result: what the
      writer has popped. What was queued is dropped, and what a successful end
      still lets in is never taken, although its producer was told Ok(true). */
  lemma GoesInFlightIff(s: Sys, k: nat)
    requires Reachable(s) && s.w.terminal.Some? && k < |s.log.commands| && s.log.commands[k].Data?
    ensures (exists actions, t :: Reaches(s, actions, t) && s.log.commands[k] in t.flight.inserted) <==> k < s.log.popped
  {
    ReachableGood(s);
    SerialIsPlace(s, k);
    hide Reachable, Inv, EndInv, Reaches;
    if k < s.log.popped {
      var actions, t := PoppedGoesInFlight(s, k);
    } else {
      forall actions, t | Reaches(s, actions, t) ensures s.log.commands[k] !in t.flight.inserted {
        PoppedStays(s, actions, t);
        InsertedWasPopped(t);
      }
    }
  }

  lemma InsertedWasPopped(s: Sys)
    requires Good(s)
    ensures s.log.popped <= |s.log.commands|
    ensures forall c :: c in s.flight.inserted ==> c.Data? && c.serial < s.log.popped
  {
    hide Consistent, HandInv, FlightInv, EosInv, WaiterInv, BarrierInv, WriterInv, ProducerInv, EndInv;
    var taken := Taken(s.log, s.writer);
    DataMembers(taken);
    forall c | c in s.flight.inserted ensures c.Data? && c.serial < s.log.popped {
      var j :| 0 <= j < |taken| && taken[j] == c;
    }
  }

  lemma {:induction false} DataMembers(commands: seq<Command>)
    ensures forall c :: c in DataOf(commands) ==> c.Data? && c in commands
  {
    if commands != [] {
      DataMembers(commands[1..]);
    }
  }

  // ---------- Before the end ----------

  /** A ready stream in which the writer sleeps, the producer sleeps and no thread
      owes anything waits for native code, which holds a write. */
  lemma StalledMeansNativeOwes(s: Sys) returns (p: nat)
    requires Reachable(s) && s.capacity > 0 && s.sync.ready && s.w.terminal.None?
    requires s.sync.duties == multiset{} && Asleep(s) && s.writer.Awaiting? && !Enabled(s, PollNotified)
    ensures AwaitsCompletion(s.flight, p)
  {
    WriterNeverSleepsOnWork(s);
    ProducerNeverLosesItsWakeup(s);
    ReachableGood(s);
    NoneInFlight(s);
    assert s.w.inFlightCount > 0 by {
      hide LogInv, HandInv, FlightInv, OrderInv, EosInv, WaiterInv, BarrierInv, WriterInv, ProducerInv, Total;
    }
    TailClosed(s);
    var c := s.flight.current[0];
    assert c in s.flight.current;
    p := c.pointer;
  }
}
