/** Whether the writer task ends once the stream has. */
module WriteExits {
  import opened Base
  import opened WriteState
  import opened WriteProtocol
  import opened WriteInvariants
  import opened WriteSafety
  import opened WriteClaims
  import opened WriteEndings

  /** A run in which `on_stream_ready` is not called and at whose end the writer
      has returned. */
  ghost predicate Exits(s: Sys, actions: seq<Action>, t: Sys) {
    Reaches(s, actions, t) && (forall a :: a in actions ==> !a.StreamReady?) && t.writer.Exited?
  }

  lemma ExitsLater(s: Sys, a: Action, actions: seq<Action>, t: Sys)
    requires Enabled(s, a) && !a.StreamReady? && Exits(Apply(s, a), actions, t)
    ensures Exits(s, [a] + actions, t)
  {
    hide Enabled, Apply;
    Steps(s, a, actions, t);
  }

  /** How far a writer that finds the stream ready is from its return. */
  function Distance(writer: Writer): nat {
    match writer
    case Exited => 0
    case Failing(_) => 1
    case AtTerminalCheck(_) => 1
    case AtPop(_) => 2
    case AtReady(_) => 3
    case Top => 4
    case Inserted(_) => 5
    case FlushIssued(_) => 5
    case Awaiting(_) => 5
    case Holding(_) => 6
  }

  /** The ended and ready stream, whatever else is going on. */
  predicate Ending(s: Sys) {
    s.w.terminal.Some? && s.sync.ready
  }

  lemma EndingStays(s: Sys, a: Action)
    requires Enabled(s, a) && Ending(s)
    ensures Ending(Apply(s, a))
  {
    EndedStep(s, a);
    hide TryEnqueueSys, PopSys, InsertSys, SettleSys, CompleteSys, FinishSys, AwaitsCompletion;
    match a {
      case TryEnqueueData => EnqueueSync(s);
      case SubmitFlush =>
      case PopCommand => PopSync(s);
      case InsertData => RestSync(s);
      case Settle => SettleSync(s);
      case WriteCompleted(p) => CompleteSync(s, p);
      case FinishFailed => FinishSync(s, Failed(s.writer.error));
      case Terminal(result) => FinishSync(s, result);
      case _ =>
    }
  }

  lemma EnqueueSync(s: Sys)
    requires s.task.at.Trying?
    ensures TryEnqueueSys(s).sync.ready == s.sync.ready
  {
    hide TryEnqueue;
  }

  lemma PopSync(s: Sys)
    requires s.writer.AtPop?
    ensures PopSys(s).sync == s.sync
  {
    hide Pop;
  }

  lemma RestSync(s: Sys)
    requires s.writer.Holding? && s.writer.command.Data?
    ensures InsertSys(s).sync == s.sync
  {
    hide Insert;
  }

  lemma SettleSync(s: Sys)
    requires s.writer.FlushIssued?
    ensures SettleSys(s).sync == s.sync
  {
  }

  lemma CompleteSync(s: Sys, p: nat)
    ensures CompleteSys(s, p).sync.ready == s.sync.ready
  {
    hide Complete, RemoveFirst, AnswerAll, CompletedSerial;
  }

  lemma FinishSync(s: Sys, result: Outcome)
    ensures FinishSys(s, result).sync.ready == s.sync.ready
  {
    hide AnswerAll, FinishAnswers;
  }

  // ---------- A writer that is awake ----------

  /** The writer's next step on its way out, native calls succeeding. */
  function WayOut(writer: Writer): Action
    requires !writer.Exited? && !writer.Awaiting?
  {
    match writer
    case Top => CreateNotified
    case AtReady(_) => LoadReady
    case AtPop(_) => PopCommand
    case AtTerminalCheck(_) => CheckTerminal
    case Holding(command) => if command.Data? then InsertData else NativeFlush(Done)
    case Inserted(_) => NativeWrite(Done)
    case FlushIssued(_) => Settle
    case Failing(_) => FinishFailed
  }

  lemma OneStepOut(s: Sys)
    requires Ending(s) && !s.writer.Exited? && !s.writer.Awaiting?
    ensures var a := WayOut(s.writer);
            Enabled(s, a) && !a.StreamReady? && Ending(Apply(s, a)) && Distance(Apply(s, a).writer) < Distance(s.writer)
  {
    var a := WayOut(s.writer);
    assert Enabled(s, a);
    EndingStays(s, a);
    hide Ending, FinishSys, InsertSys, SettleSys, PopSys;
    match s.writer {
      case AtPop(_) => PopEnds(s);
      case Holding(_) => InsertPlace(s);
      case FlushIssued(_) => SettleGoesOn(s);
      case _ =>
    }
  }

  lemma PopEnds(s: Sys)
    requires Ending(s) && s.writer.AtPop?
    ensures PopSys(s).writer.AtTerminalCheck?
  {
  }

  lemma InsertPlace(s: Sys)
    ensures s.writer.Holding? && s.writer.command.Data? ==> InsertSys(s).writer.Inserted?
  {
    hide Insert;
  }

  // ---------- A writer that sleeps ----------

  lemma {:induction false} AwakeExits(s: Sys) returns (actions: seq<Action>, t: Sys)
    requires Good(s) && Ending(s) && !s.writer.Awaiting?
    ensures Exits(s, actions, t)
    decreases Distance(s.writer)
  {
    hide Good, Apply, Enabled, Ending;
    if s.writer.Exited? {
      actions, t := [], s;
    } else {
      var a := WayOut(s.writer);
      OneStepOut(s);
      GoodKept(s, a);
      assert !Apply(s, a).writer.Awaiting? by { OutIsAwake(s); }
      actions, t := AwakeExits(Apply(s, a));
      ExitsLater(s, a, actions, t);
      actions := [a] + actions;
    }
  }

  lemma OutIsAwake(s: Sys)
    requires Ending(s) && !s.writer.Exited? && !s.writer.Awaiting?
    ensures Enabled(s, WayOut(s.writer)) && !Apply(s, WayOut(s.writer)).writer.Awaiting?
  {
    hide FinishSys, InsertSys, SettleSys, PopSys;
    match s.writer {
      case AtPop(_) => PopEnds(s);
      case Holding(_) => InsertPlace(s);
      case FlushIssued(_) => SettleGoesOn(s);
      case _ =>
    }
  }

  /** One step of another thread, or the wakeup, on the way. */
  lemma Meanwhile(s: Sys, a: Action)
    requires Good(s) && Ending(s) && Enabled(s, a)
    ensures Good(Apply(s, a)) && Ending(Apply(s, a))
  {
    hide Good, Ending, Enabled, Apply;
    GoodKept(s, a);
    EndingStays(s, a);
  }

  lemma PollWakes(s: Sys)
    requires Enabled(s, PollNotified)
    ensures Apply(s, PollNotified).writer.Top?
  {
    hide AwaitsCompletion;
  }

  /** A writer that has been notified wakes and goes its way. */
  lemma NotifiedExits(s: Sys) returns (actions: seq<Action>, t: Sys)
    requires Good(s) && Ending(s) && Enabled(s, PollNotified)
    ensures Exits(s, actions, t)
  {
    hide Good, Apply, Enabled, Ending, Exits;
    Meanwhile(s, PollNotified);
    PollWakes(s);
    actions, t := AwakeExits(Apply(s, PollNotified));
    ExitsLater(s, PollNotified, actions, t);
    actions := [PollNotified] + actions;
  }

  /** A sleeping writer that a thread is about to notify. */
  predicate Noticed(s: Sys, d: Duty) {
    s.writer.Awaiting? && s.writer.gen <= s.sync.gen && d in s.sync.duties
  }

  lemma Notifies(s: Sys, d: Duty)
    requires Noticed(s, d) && (d.NotifyOne? || d.NotifyThenWake? || d.NotifyAll?)
    ensures Enabled(s, Discharge(d)) && Enabled(Apply(s, Discharge(d)), PollNotified)
  {
  }

  lemma NotifyingExits(s: Sys, d: Duty) returns (actions: seq<Action>, t: Sys)
    requires Good(s) && Ending(s) && Noticed(s, d) && (d.NotifyOne? || d.NotifyThenWake? || d.NotifyAll?)
    ensures Exits(s, actions, t)
  {
    hide Good, Apply, Enabled, Ending, Exits, Noticed;
    var a := Discharge(d);
    Notifies(s, d);
    Meanwhile(s, a);
    actions, t := NotifiedExits(Apply(s, a));
    ExitsLater(s, a, actions, t);
    actions := [a] + actions;
  }

  lemma FinishingGoesOn(s: Sys)
    requires Noticed(s, WakeThenNotifyAll)
    ensures Enabled(s, Discharge(WakeThenNotifyAll)) && Noticed(Apply(s, Discharge(WakeThenNotifyAll)), NotifyAll)
  {
  }

  /** The rest of a `finish`: it wakes the producer first and notifies then. */
  lemma FinishingExits(s: Sys) returns (actions: seq<Action>, t: Sys)
    requires Good(s) && Ending(s) && Noticed(s, WakeThenNotifyAll)
    ensures Exits(s, actions, t)
  {
    hide Good, Apply, Enabled, Ending, Exits, Noticed;
    var a := Discharge(WakeThenNotifyAll);
    FinishingGoesOn(s);
    Meanwhile(s, a);
    actions, t := NotifyingExits(Apply(s, a), NotifyAll);
    ExitsLater(s, a, actions, t);
    actions := [a] + actions;
  }

  /** What the invariant says of a writer that sleeps through the end. */
  lemma SleeperIsNotified(s: Sys)
    requires Good(s) && Ending(s) && s.writer.Awaiting?
    ensures s.writer.gen <= s.sync.gen && Signalled(s.sync, s.writer.gen)
  {
    hide Consistent, LogInv, HandInv, FlightInv, OrderInv, EosInv, WaiterInv, BarrierInv, ProducerInv, EndInv, Signalled;
  }

  lemma SleeperIsNoticed(s: Sys)
    requires Good(s) && Ending(s) && s.writer.Awaiting?
    ensures || Enabled(s, PollNotified) || Noticed(s, NotifyOne) || Noticed(s, NotifyThenWake)
            || Noticed(s, NotifyAll) || Noticed(s, WakeThenNotifyAll)
  {
    SleeperIsNotified(s);
    PollIsEnabled(s);
    hide Good, Ending, Enabled;
  }

  lemma PollIsEnabled(s: Sys)
    ensures Enabled(s, PollNotified)
       <==> s.writer.Awaiting? && (s.sync.permit || s.sync.gen != s.writer.gen)
  {
    hide AwaitsCompletion;
  }

  lemma SleeperExits(s: Sys) returns (actions: seq<Action>, t: Sys)
    requires Good(s) && Ending(s) && s.writer.Awaiting?
    ensures Exits(s, actions, t)
  {
    SleeperIsNoticed(s);
    hide Good, Ending, Exits, Enabled, Noticed;
    if Enabled(s, PollNotified) {
      actions, t := NotifiedExits(s);
    } else if Noticed(s, NotifyOne) {
      actions, t := NotifyingExits(s, NotifyOne);
    } else if Noticed(s, NotifyThenWake) {
      actions, t := NotifyingExits(s, NotifyThenWake);
    } else if Noticed(s, NotifyAll) {
      actions, t := NotifyingExits(s, NotifyAll);
    } else {
      actions, t := FinishingExits(s);
    }
  }

  // ---------- A stream that never became ready ----------

  lemma UnreadyStep(s: Sys, a: Action)
    requires Enabled(s, a) && !a.StreamReady?
    ensures Apply(s, a).sync.ready == s.sync.ready
  {
    hide TryEnqueueSys, PopSys, InsertSys, SettleSys, CompleteSys, FinishSys, AwaitsCompletion;
    match a {
      case TryEnqueueData => EnqueueSync(s);
      case PopCommand => PopSync(s);
      case InsertData => RestSync(s);
      case Settle => SettleSync(s);
      case WriteCompleted(p) => CompleteSync(s, p);
      case FinishFailed => FinishSync(s, Failed(s.writer.error));
      case Terminal(result) => FinishSync(s, result);
      case _ =>
    }
  }

  lemma {:induction false} UnreadyStays(s: Sys, actions: seq<Action>, t: Sys)
    requires Good(s) && Reaches(s, actions, t) && !s.sync.ready && forall a :: a in actions ==> !a.StreamReady?
    ensures !t.sync.ready && Good(t)
    decreases |actions|
  {
    hide Good, Apply, Enabled;
    if actions != [] {
      assert actions[0] in actions && forall a :: a in actions[1..] ==> a in actions;
      GoodKept(s, actions[0]);
      UnreadyStep(s, actions[0]);
      UnreadyStays(Apply(s, actions[0]), actions[1..], t);
    }
  }

  lemma UnreadyIsThere(s: Sys)
    requires Inv(s) && !s.sync.ready
    ensures !s.writer.Exited?
  {
    hide Consistent, LogInv, HandInv, FlightInv, OrderInv, EosInv, WaiterInv, BarrierInv, ProducerInv;
  }

  /** Exactly when the writer task can end after the stream has, if the stream
      does not become ready any more: when it was ready. */
  lemma ExitsIffReady(s: Sys)
    requires Reachable(s) && s.w.terminal.Some?
    ensures (exists actions, t :: Exits(s, actions, t)) <==> s.sync.ready
  {
    ReachableGood(s);
    hide Reachable, Inv, EndInv;
    if s.sync.ready {
      hide Exits;
      if s.writer.Awaiting? {
        var actions, t := SleeperExits(s);
      } else {
        var actions, t := AwakeExits(s);
      }
    } else {
      forall actions, t ensures !Exits(s, actions, t) {
        if Exits(s, actions, t) {
          UnreadyStays(s, actions, t);
          UnreadyIsThere(t);
        }
      }
    }
  }
}
