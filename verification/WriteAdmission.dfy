/** What the write side answers to its producer and to flushes, in terms of what
    was accepted so far and of the results of `finish`. */
module WriteAdmission {
  import opened Base
  import opened WriteState
  import opened WriteProtocol
  import opened WriteInvariants
  import opened WriteSafety
  import opened WriteClaims
  import opened WriteEndings

  /** An end-of-stream item was accepted. */
  ghost predicate EndAccepted(commands: seq<Command>) {
    exists i :: 0 <= i < |commands| && commands[i].Data? && commands[i].eos
  }

  /** The write side is closed locally only by an end-of-stream item. */
  ghost predicate ClosedInv(s: Sys) {
    s.w.localClosed ==> EndAccepted(s.log.commands)
  }

  lemma {:induction false} EntryComesFrom(flight: seq<Command>, p: nat)
    requires Entries(flight, p) != []
    ensures exists c :: c in flight && c.Data? && Entries(flight, p)[0] == Write(c.serial, c.eos)
  {
    if Entry(flight[0], p) == [] {
      EntryComesFrom(flight[1..], p);
      var c :| c in flight[1..] && c.Data? && Entries(flight[1..], p)[0] == Write(c.serial, c.eos);
      assert c in flight;
    } else {
      assert flight[0] in flight;
    }
  }

  /** A completed end-of-stream write was accepted as such. */
  lemma CompletedWasAccepted(s: Sys, p: nat)
    requires Inv(s) && Head(s.w, p).Some? && Head(s.w, p).value.eos
    ensures EndAccepted(s.log.commands)
  {
    hide Consistent, HandInv, EosInv, WaiterInv, BarrierInv, WriterInv, ProducerInv, Entries;
    assert Entries(s.flight.current, p) == s.w.inFlight[p];
    EntryComesFrom(s.flight.current, p);
    var c :| c in s.flight.current && c.Data? && Entries(s.flight.current, p)[0] == Write(c.serial, c.eos);
    assert Taken(s.log, s.writer)[c.serial] == c;
    assert s.log.commands[c.serial] == c;
  }

  lemma MoreAccepted(commands: seq<Command>, c: Command)
    ensures EndAccepted(commands) ==> EndAccepted(commands + [c])
    ensures c.Data? && c.eos ==> EndAccepted(commands + [c])
  {
    if EndAccepted(commands) {
      var i :| 0 <= i < |commands| && commands[i].Data? && commands[i].eos;
      assert (commands + [c])[i] == commands[i];
    }
    assert (commands + [c])[|commands|] == c;
  }

  lemma CompleteCloses(s: Sys, p: nat)
    ensures CompleteSys(s, p).log == s.log
    ensures CompleteSys(s, p).w.localClosed ==>
      s.w.localClosed || (Head(s.w, p).Some? && Head(s.w, p).value.eos)
  {
  }

  lemma EnqueueCloses(s: Sys)
    requires s.task.at.Trying?
    ensures var t := TryEnqueueSys(s);
            || (t.log == s.log && t.w == s.w)
            || (t.log.commands == s.log.commands + [Data(|s.log.commands|, s.task.at.pointer, s.task.at.eos)]
                && t.w.localClosed == (s.w.localClosed || s.task.at.eos))
  {
  }

  lemma OthersClose(s: Sys, a: Action)
    requires Enabled(s, a) && !a.WriteCompleted? && !a.TryEnqueueData? && !a.SubmitFlush?
    ensures Apply(s, a).w.localClosed == s.w.localClosed && Apply(s, a).log.commands == s.log.commands
  {
    hide AwaitsCompletion, AnswerAll, DischargeSys, SettleSys, InsertSys, FinishSys, PopSys;
    WriterCloses(s);
    match a {
      case Discharge(d) => DischargeFrame(s, d);
      case FinishFailed => FinishCloses(s, Failed(s.writer.error));
      case Terminal(result) => FinishCloses(s, result);
      case _ =>
    }
  }

  lemma WriterCloses(s: Sys)
    ensures s.writer.AtPop? ==>
      PopSys(s).w.localClosed == s.w.localClosed && PopSys(s).log.commands == s.log.commands
    ensures s.writer.Holding? && s.writer.command.Data? ==>
      InsertSys(s).w.localClosed == s.w.localClosed && InsertSys(s).log == s.log
    ensures s.writer.FlushIssued? ==> SettleSys(s).w.localClosed == s.w.localClosed && SettleSys(s).log == s.log
  {
  }

  lemma FinishCloses(s: Sys, result: Outcome)
    ensures FinishSys(s, result).w.localClosed == s.w.localClosed && FinishSys(s, result).log.commands == s.log.commands
  {
    hide AnswerAll, FinishAnswers;
  }

  lemma ClosedKept(s: Sys, a: Action)
    requires Inv(s) && ClosedInv(s) && Enabled(s, a)
    ensures ClosedInv(Apply(s, a))
  {
    hide Inv, EndAccepted, AwaitsCompletion, CompleteSys, TryEnqueueSys;
    match a {
      case TryEnqueueData =>
        EnqueueCloses(s);
        MoreAccepted(s.log.commands, Data(|s.log.commands|, s.task.at.pointer, s.task.at.eos));
      case SubmitFlush =>
        MoreAccepted(s.log.commands, Flush(|s.log.commands|));
      case WriteCompleted(p) =>
        CompleteCloses(s, p);
        if Head(s.w, p).Some? && Head(s.w, p).value.eos {
          CompletedWasAccepted(s, p);
        }
      case _ => OthersClose(s, a);
    }
  }

  lemma {:induction false} RunKeepsClosed(s: Sys, actions: seq<Action>, t: Sys)
    requires Inv(s) && ClosedInv(s) && Reaches(s, actions, t)
    ensures ClosedInv(t)
    decreases |actions|
  {
    hide Inv, ClosedInv, Apply, Enabled;
    if actions != [] {
      StepKeepsInv(s, actions[0]);
      ClosedKept(s, actions[0]);
      RunKeepsClosed(Apply(s, actions[0]), actions[1..], t);
    }
  }

  /** The write side is closed locally if and only if an end-of-stream item was
      accepted. */
  lemma ClosedIffEndAccepted(s: Sys)
    requires Reachable(s)
    ensures s.w.localClosed <==> EndAccepted(s.log.commands)
  {
    ReachableInv(s);
    hide Consistent, LogInv, HandInv, FlightInv, OrderInv, WaiterInv, BarrierInv, WriterInv, ProducerInv;
    InitInv(s.capacity);
    var actions :| Reaches(Init(s.capacity), actions, s);
    RunKeepsClosed(Init(s.capacity), actions, s);
  }

  // ---------- The answers ----------

  function Result(terminal: Option<Outcome>): Option<Error> {
    if terminal.Some? && terminal.value.Failed? then Some(terminal.value.error) else None
  }

  /** Data accepted and still queued, or in flight. */
  function Pending(s: Sys): nat
    requires s.log.base <= |s.log.commands|
  {
    |DataOf(s.log.commands[s.log.base..])| + |s.flight.current|
  }

  /** What `enqueue_data` answers in every reachable state: the error of a failed
      stream, else that of a closed write side, else that the buffers are full,
      and it accepts the item in all other cases and only then. */
  lemma DataAnswer(s: Sys)
    requires Reachable(s) && s.task.at.Trying?
    ensures s.log.base <= |s.log.commands|
    ensures var item := Data(|s.log.commands|, s.task.at.pointer, s.task.at.eos);
            var (w, answer) := TryEnqueue(s.w, s.capacity, item.serial, item.pointer, item.eos);
            var t := Apply(s, TryEnqueueData);
            && (answer.Accepted? <==>
                  Result(s.w.terminal).None? && !EndAccepted(s.log.commands) && Pending(s) < s.capacity)
            && (answer == Full <==>
                  Result(s.w.terminal).None? && !EndAccepted(s.log.commands) && Pending(s) >= s.capacity)
            && (answer.Rejected? ==>
                  answer.error == if Result(s.w.terminal).Some? then Result(s.w.terminal).value else Canceled)
            && (answer.Accepted? ==>
                  t.log.commands == s.log.commands + [item] && t.w.queue == s.w.queue + [item] && t.task.at.Idle?)
            && (!answer.Accepted? ==>
                  t.log == s.log && t.w == s.w && t.sync == s.sync
                  && t.task.at == if answer.Full? then SeenFull(item.pointer, item.eos) else Idle)
            && t.flight == s.flight && t.answers == s.answers && t.writer == s.writer
  {
    ClosedIffEndAccepted(s);
    ReachableInv(s);
    hide Consistent, HandInv, EosInv, OrderInv, WaiterInv, BarrierInv, WriterInv, ProducerInv, DataOf, EndAccepted, Groups;
  }

  /** The second look of a producer that found the buffers full: it tries again with
      the same item if and only if there is room now. */
  lemma RecheckAnswer(s: Sys)
    requires Reachable(s) && s.task.at.Registered?
    ensures s.log.base <= |s.log.commands|
    ensures Apply(s, Recheck) == s.(task := s.task.(at :=
      if Pending(s) >= s.capacity then Parked else Trying(s.task.at.pointer, s.task.at.eos)))
  {
    ReachableInv(s);
    hide Consistent, HandInv, EosInv, OrderInv, WaiterInv, BarrierInv, WriterInv, ProducerInv, DataOf, Groups;
  }

  /** What `flush` answers: the error of a failed stream; else it is queued, also
      after a local close or a successful end. */
  lemma FlushAnswer(s: Sys)
    requires s.task.at.Idle? || s.task.at.Parked?
    ensures var (w, answer) := EnqueueFlush(s.w, |s.log.commands|);
            var t := Apply(s, SubmitFlush);
            if Result(s.w.terminal).Some? then answer == Rejected(Result(s.w.terminal).value) && t == s
            else
              && answer.Accepted? && t.log.commands == s.log.commands + [Flush(|s.log.commands|)]
              && t.w == s.w.(queue := s.w.queue + [Flush(|s.log.commands|)])
              && t.answers == s.answers && t.sync == Owe(s.sync, NotifyOne)
  {
  }

  // ---------- The results of `finish` ----------

  /** The results that a run gives to `finish`: those of terminal callbacks, and the
      errors of native calls that the writer meets; `pending` is such an error from
      before. */
  function Results(pending: Error, actions: seq<Action>): seq<Outcome>
    decreases |actions|
  {
    if actions == [] then []
    else if actions[0].Terminal? then [actions[0].result] + Results(pending, actions[1..])
    else if actions[0].FinishFailed? then [Failed(pending)] + Results(pending, actions[1..])
    else Results(if NativeError(actions[0]).Some? then NativeError(actions[0]).value else pending, actions[1..])
  }

  function NativeError(a: Action): Option<Error> {
    if (a.NativeWrite? || a.NativeFlush?) && a.result.Failed? then Some(a.result.error) else None
  }

  /** The error in the writer's hand is the one that native code gave it last. */
  predicate Expects(s: Sys, pending: Error) {
    s.writer.Failing? ==> s.writer.error == pending
  }

  function Finishes(pending: Error, a: Action): Option<Outcome> {
    if a.Terminal? then Some(a.result) else if a.FinishFailed? then Some(Failed(pending)) else None
  }

  /** The answer is one that `a` may give. */
  predicate GivenBy(answer: Answer, pending: Error, a: Action) {
    match answer.how
    case Barrier => a.Settle? || a.WriteCompleted?
    case ByFinish(outcome) => Finishes(pending, a) == Some(outcome)
    case ByFlushError(error) => a == NativeFlush(Failed(error))
  }

  /** What a step adds to the answers is what it may give. */
  predicate Gives(before: seq<Answer>, after: seq<Answer>, pending: Error, a: Action) {
    |before| <= |after| && after[..|before|] == before
    && forall i :: |before| <= i < |after| ==> GivenBy(after[i], pending, a)
  }

  lemma SectionsQuiet(s: Sys)
    ensures s.task.at.Trying? ==> TryEnqueueSys(s).answers == s.answers && TryEnqueueSys(s).writer == s.writer
    ensures SubmitFlushSys(s).answers == s.answers && SubmitFlushSys(s).writer == s.writer
    ensures s.writer.AtPop? ==> PopSys(s).answers == s.answers && !PopSys(s).writer.Failing?
    ensures s.writer.Holding? && s.writer.command.Data? ==>
      InsertSys(s).answers == s.answers && InsertSys(s).writer.Inserted?
    ensures s.writer.FlushIssued? ==> SettleSys(s).writer.Top?
  {
    hide TryEnqueue, EnqueueFlush, Pop, Insert, SettleFlush;
  }

  lemma SettleGives(s: Sys, pending: Error)
    requires s.writer.FlushIssued?
    ensures Gives(s.answers, SettleSys(s).answers, pending, Settle)
  {
    hide SettleFlush;
  }

  lemma CompleteGives(s: Sys, p: nat, pending: Error)
    ensures Gives(s.answers, CompleteSys(s, p).answers, pending, WriteCompleted(p))
  {
    hide Complete, Releases, RemoveFirst, CompletedSerial;
  }

  lemma FinishGives(s: Sys, result: Outcome, pending: Error, a: Action)
    requires Finishes(pending, a) == Some(result)
    ensures Gives(s.answers, FinishSys(s, result).answers, pending, a)
  {
    hide FinishAnswers, Finish, Finishes;
  }

  /** One step: the result it leaves behind, and the answers that it gives. */
  lemma StepGives(s: Sys, a: Action, pending: Error)
    requires Enabled(s, a) && Expects(s, pending)
    ensures Gives(s.answers, Apply(s, a).answers, pending, a)
  {
    hide AwaitsCompletion, TryEnqueueSys, SubmitFlushSys, PopSys, InsertSys, SettleSys, CompleteSys, FinishSys, DischargeSync;
    SectionsQuiet(s);
    match a {
      case Settle => SettleGives(s, pending);
      case WriteCompleted(p) => CompleteGives(s, p, pending);
      case FinishFailed => FinishGives(s, Failed(pending), pending, a);
      case Terminal(result) => FinishGives(s, result, pending, a);
      case _ =>
    }
  }

  lemma StepResult(s: Sys, a: Action, pending: Error)
    requires Enabled(s, a) && Expects(s, pending)
    ensures Apply(s, a).w.terminal == if Finishes(pending, a).Some? then Finishes(pending, a) else s.w.terminal
  {
    hide AwaitsCompletion, TryEnqueueSys, SubmitFlushSys, PopSys, InsertSys, SettleSys, CompleteSys, FinishSys, DischargeSys;
    match a {
      case TryEnqueueData => EnqueueFrame(s);
      case SubmitFlush => SubmitFrame(s);
      case PopCommand => PopFrame(s);
      case InsertData => InsertFrame(s);
      case Settle => SettleFrame(s);
      case WriteCompleted(p) => CompleteFrame(s, p);
      case Discharge(d) => DischargeFrame(s, d);
      case FinishFailed => FinishFrame(s, Failed(s.writer.error));
      case Terminal(result) => FinishFrame(s, result);
      case _ =>
    }
  }

  lemma StepExpects(s: Sys, a: Action, pending: Error)
    requires Enabled(s, a) && Expects(s, pending)
    ensures Expects(Apply(s, a), if NativeError(a).Some? then NativeError(a).value else pending)
  {
    hide AwaitsCompletion, TryEnqueueSys, SubmitFlushSys, PopSys, InsertSys, SettleSys, CompleteSys, FinishSys, DischargeSync;
    SectionsQuiet(s);
    match a {
      case WriteCompleted(p) => CompleteFrame(s, p);
      case FinishFailed => FinishFrame(s, Failed(s.writer.error));
      case Terminal(result) => FinishFrame(s, result);
      case _ =>
    }
  }

  /** An answer that some step of a run gave. */
  ghost predicate Given(answer: Answer, pending: Error, actions: seq<Action>) {
    match answer.how
    case Barrier => true
    case ByFinish(outcome) => outcome in Results(pending, actions)
    case ByFlushError(error) => NativeFlush(Failed(error)) in actions
  }

  lemma ResultsFirst(pending: Error, actions: seq<Action>)
    requires actions != []
    ensures var a, rest := actions[0], actions[1..];
            Results(pending, actions)
            == (if Finishes(pending, a).Some? then [Finishes(pending, a).value] else [])
               + Results(if NativeError(a).Some? then NativeError(a).value else pending, rest)
  {
  }

  lemma GivenFirst(answer: Answer, pending: Error, actions: seq<Action>)
    requires actions != [] && GivenBy(answer, pending, actions[0])
    ensures Given(answer, pending, actions)
  {
    ResultsFirst(pending, actions);
    hide Results, Finishes;
  }

  lemma GivenLater(answer: Answer, pending: Error, actions: seq<Action>)
    requires actions != []
    requires Given(answer, if NativeError(actions[0]).Some? then NativeError(actions[0]).value else pending, actions[1..])
    ensures Given(answer, pending, actions)
  {
    ResultsFirst(pending, actions);
    assert forall a :: a in actions[1..] ==> a in actions;
    hide Results, Finishes;
  }

  /** The result that everybody sees is the last one given to `finish`. */
  lemma {:induction false} TerminalOfRun(s: Sys, actions: seq<Action>, t: Sys, pending: Error)
    requires Expects(s, pending) && Reaches(s, actions, t)
    ensures var results := Results(pending, actions);
            t.w.terminal == if results == [] then s.w.terminal else Some(results[|results| - 1])
    decreases |actions|
  {
    if actions != [] {
      var a := actions[0];
      StepResult(s, a, pending);
      StepExpects(s, a, pending);
      ResultsFirst(pending, actions);
      hide Expects, Enabled, Apply, Results, Finishes, NativeError;
      TerminalOfRun(Apply(s, a), actions[1..], t, if NativeError(a).Some? then NativeError(a).value else pending);
    }
  }

  lemma {:induction false} AnswersOfRun(s: Sys, actions: seq<Action>, t: Sys, pending: Error)
    requires Expects(s, pending) && Reaches(s, actions, t)
    ensures |s.answers| <= |t.answers| && t.answers[..|s.answers|] == s.answers
    ensures forall i :: |s.answers| <= i < |t.answers| ==> Given(t.answers[i], pending, actions)
    decreases |actions|
  {
    if actions != [] {
      var a, u := actions[0], Apply(s, actions[0]);
      var next := if NativeError(a).Some? then NativeError(a).value else pending;
      StepGives(s, a, pending);
      StepExpects(s, a, pending);
      hide Expects, Enabled, Apply, Given, GivenBy, Results;
      AnswersOfRun(u, actions[1..], t, next);
      assert t.answers[..|s.answers|] == t.answers[..|u.answers|][..|s.answers|];
      forall i | |s.answers| <= i < |t.answers| ensures Given(t.answers[i], pending, actions) {
        if i < |u.answers| {
          assert t.answers[i] == t.answers[..|u.answers|][i] == u.answers[i];
          GivenFirst(t.answers[i], pending, actions);
        } else {
          GivenLater(t.answers[i], pending, actions);
        }
      }
    }
  }

  /** In every run, the terminal result is the last one given to `finish`, that is
      the outcome of the terminal callback or the error that native code gave the
      writer last. Every answer that is not Ok by the barrier is one of these
      results, or the error of the native flush itself. */
  lemma ResultsAreNative(capacity: nat, actions: seq<Action>, t: Sys)
    requires Reaches(Init(capacity), actions, t)
    ensures var results := Results(Canceled, actions);
            t.w.terminal == if results == [] then None else Some(results[|results| - 1])
    ensures forall i :: 0 <= i < |t.answers| && t.answers[i].how.ByFinish? ==>
      t.answers[i].how.outcome in Results(Canceled, actions)
    ensures forall i :: 0 <= i < |t.answers| && t.answers[i].how.ByFlushError? ==>
      NativeFlush(Failed(t.answers[i].how.error)) in actions
  {
    TerminalOfRun(Init(capacity), actions, t, Canceled);
    AnswersOfRun(Init(capacity), actions, t, Canceled);
    hide Results, Reaches;
    assert forall i :: 0 <= i < |t.answers| ==> Given(t.answers[i], Canceled, actions);
  }

  /** A flush that is queued or waits when `finish` runs gets its result there. */
  lemma FinishTellsAll(s: Sys, a: Action, k: nat)
    requires Reachable(s) && Enabled(s, a) && (a.Terminal? || a.FinishFailed?)
    requires k in s.w.flushWaiters || (FlushAt(s, k) && k >= s.log.base)
    ensures Answer(k, ByFinish(if a.Terminal? then a.result else Failed(s.writer.error))) in Apply(s, a).answers
    ensures Apply(s, a).w.queue == [] && Apply(s, a).w.flushWaiters == []
  {
    ReachableInv(s);
    var result := if a.Terminal? then a.result else Failed(s.writer.error);
    if FlushAt(s, k) && k >= s.log.base {
      QueuedIsDue(s, k);
    }
    assert k in FinishAnswers(s.w);
    DueIsAnswered(s, result, k);
    hide Inv, FinishSys, FinishAnswers;
  }

  lemma DueIsAnswered(s: Sys, result: Outcome, k: nat)
    requires k in FinishAnswers(s.w)
    ensures Answer(k, ByFinish(result)) in FinishSys(s, result).answers
    ensures FinishSys(s, result).w.queue == [] && FinishSys(s, result).w.flushWaiters == []
  {
    hide FinishAnswers;
    var due := FinishAnswers(s.w);
    var i :| 0 <= i < |due| && due[i] == k;
    assert FinishSys(s, result).answers[|s.answers| + i] == Answer(k, ByFinish(result));
  }

  lemma QueuedIsDue(s: Sys, k: nat)
    requires Inv(s) && FlushAt(s, k) && k >= s.log.base
    ensures k in FinishAnswers(s.w)
  {
    hide Consistent, HandInv, FlightInv, OrderInv, EosInv, WaiterInv, BarrierInv, WriterInv, ProducerInv;
    WaitersOfLog(s.log.commands, s.log.base);
    assert k in WaitersOf(s.w.queue);
  }

  // ---------- The item offered ----------

  datatype Item = Item(pointer: nat, eos: bool)

  function Offered(s: Sys): Option<Item> {
    match s.task.at
    case Trying(p, eos) => Some(Item(p, eos))
    case SeenFull(p, eos) => Some(Item(p, eos))
    case Registered(p, eos) => Some(Item(p, eos))
    case _ => None
  }

  /** The item of the last poll. */
  function LastOffer(item: Item, actions: seq<Action>): Item
    decreases |actions|
  {
    if actions == [] then item
    else LastOffer(if actions[0].BeginPoll? then Item(actions[0].pointer, actions[0].eos) else item, actions[1..])
  }

  lemma StepOffers(s: Sys, a: Action)
    requires Enabled(s, a)
    ensures a.BeginPoll? ==> Offered(Apply(s, a)) == Some(Item(a.pointer, a.eos))
    ensures !a.BeginPoll? ==> Offered(Apply(s, a)) == Offered(s) || Offered(Apply(s, a)).None?
    ensures a.TryEnqueueData? && Apply(s, a).log.commands != s.log.commands ==>
      Apply(s, a).log.commands == s.log.commands + [Data(|s.log.commands|, Offered(s).value.pointer, Offered(s).value.eos)]
  {
    TaskKept(s);
    hide AwaitsCompletion, CompleteSys, SubmitFlushSys, PopSys, InsertSys, SettleSys, FinishSys, DischargeSync, Occupied;
  }

  /** The sections of the other threads leave the producer where it is. */
  lemma TaskKept(s: Sys)
    ensures SubmitFlushSys(s).task == s.task
    ensures s.writer.AtPop? ==> PopSys(s).task == s.task
    ensures s.writer.Holding? && s.writer.command.Data? ==> InsertSys(s).task == s.task
    ensures s.writer.FlushIssued? ==> SettleSys(s).task == s.task
    ensures forall p :: CompleteSys(s, p).task == s.task
    ensures forall result :: FinishSys(s, result).task == s.task
  {
    hide EnqueueFlush, Pop, Insert, SettleFlush, Complete, Releases, RemoveFirst, CompletedSerial, AnswerAll, Finish,
      FinishAnswers;
  }

  /** What `enqueue_data` is at work on, and accepts, is the item of the last poll. */
  lemma {:induction false} OfferIsLastPolled(s: Sys, actions: seq<Action>, t: Sys, item: Item)
    requires Reaches(s, actions, t) && (Offered(s).Some? ==> Offered(s).value == item)
    ensures Offered(t).Some? ==> Offered(t).value == LastOffer(item, actions)
    decreases |actions|
  {
    hide Apply, Enabled, Offered;
    if actions != [] {
      var a := actions[0];
      StepOffers(s, a);
      OfferIsLastPolled(Apply(s, a), actions[1..], t, if a.BeginPoll? then Item(a.pointer, a.eos) else item);
    }
  }

  // ---------- Wakers ----------

  /** The step wakes the producer's task by its registered waker. */
  predicate Wakens(s: Sys, a: Action) {
    a.Discharge? && (a.duty.Wake? || a.duty.WakeThenNotifyAll?) && s.task.waker
  }

  ghost function Wakenings(s: Sys, actions: seq<Action>): nat
    decreases |actions|
  {
    if actions == [] || !Enabled(s, actions[0]) then 0
    else (if Wakens(s, actions[0]) then 1 else 0) + Wakenings(Apply(s, actions[0]), actions[1..])
  }

  function Stores(actions: seq<Action>): nat {
    if actions == [] then 0 else (if actions[0].StoreWaker? then 1 else 0) + Stores(actions[1..])
  }

  function Stored(s: Sys): nat {
    if s.task.waker then 1 else 0
  }

  lemma StepUsesWaker(s: Sys, a: Action)
    requires Enabled(s, a)
    ensures Stored(Apply(s, a)) + (if Wakens(s, a) then 1 else 0) <= Stored(s) + (if a.StoreWaker? then 1 else 0)
    ensures Wakens(s, a) ==> Apply(s, a).task.woken
  {
    TaskKept(s);
    hide AwaitsCompletion, CompleteSys, SubmitFlushSys, PopSys, InsertSys, SettleSys, FinishSys, DischargeSync, TryEnqueue;
  }

  /** A registered waker is taken by the wakeup that uses it: no run wakes the producer
      more often than it registers. */
  lemma {:induction false} WakerIsUsedOnce(s: Sys, actions: seq<Action>, t: Sys)
    requires Reaches(s, actions, t)
    ensures Wakenings(s, actions) + Stored(t) <= Stores(actions) + Stored(s)
    decreases |actions|
  {
    hide Apply, Enabled, Wakens, Stored;
    if actions != [] {
      StepUsesWaker(s, actions[0]);
      WakerIsUsedOnce(Apply(s, actions[0]), actions[1..], t);
    }
  }

  // ---------- Permits ----------

  /** The writer wakes by the stored permit: nobody called `notify_waiters` since it
      made its future. */
  predicate WakesByPermit(s: Sys, a: Action) {
    a.PollNotified? && s.writer.Awaiting? && s.sync.gen == s.writer.gen
  }

  ghost function PermitWakes(s: Sys, actions: seq<Action>): nat
    decreases |actions|
  {
    if actions == [] || !Enabled(s, actions[0]) then 0
    else (if WakesByPermit(s, actions[0]) then 1 else 0) + PermitWakes(Apply(s, actions[0]), actions[1..])
  }

  function Notifies(a: Action): nat {
    if a.Discharge? && (a.duty.NotifyOne? || a.duty.NotifyThenWake?) then 1 else 0
  }

  function Notified(actions: seq<Action>): nat {
    if actions == [] then 0 else Notifies(actions[0]) + Notified(actions[1..])
  }

  function Permit(s: Sys): nat {
    if s.sync.permit then 1 else 0
  }

  lemma SyncKept(s: Sys)
    ensures s.task.at.Trying? ==> TryEnqueueSys(s).sync.permit == s.sync.permit
    ensures SubmitFlushSys(s).sync.permit == s.sync.permit
    ensures s.writer.AtPop? ==> PopSys(s).sync == s.sync
    ensures s.writer.Holding? && s.writer.command.Data? ==> InsertSys(s).sync == s.sync
    ensures s.writer.FlushIssued? ==> SettleSys(s).sync == s.sync
    ensures forall p :: CompleteSys(s, p).sync.permit == s.sync.permit
    ensures forall result :: FinishSys(s, result).sync.permit == s.sync.permit
  {
    hide TryEnqueue, EnqueueFlush, Pop, Insert, SettleFlush, Complete, Releases, RemoveFirst, CompletedSerial, AnswerAll,
      Finish, FinishAnswers;
  }

  lemma StepUsesPermit(s: Sys, a: Action)
    requires Enabled(s, a)
    ensures Permit(Apply(s, a)) + (if WakesByPermit(s, a) then 1 else 0) <= Permit(s) + Notifies(a)
  {
    SyncKept(s);
    hide AwaitsCompletion, TryEnqueueSys, CompleteSys, SubmitFlushSys, PopSys, InsertSys, SettleSys, FinishSys;
  }

  /** A permit wakes the writer once: no run wakes it that way more often than
      `notify_one` is called. */
  lemma {:induction false} PermitIsUsedOnce(s: Sys, actions: seq<Action>, t: Sys)
    requires Reaches(s, actions, t)
    ensures PermitWakes(s, actions) + Permit(t) <= Notified(actions) + Permit(s)
    decreases |actions|
  {
    hide Apply, Enabled, WakesByPermit, Permit, Notifies;
    if actions != [] {
      StepUsesPermit(s, actions[0]);
      PermitIsUsedOnce(Apply(s, actions[0]), actions[1..], t);
    }
  }
}
