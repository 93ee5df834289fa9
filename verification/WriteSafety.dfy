/**
 Every step of the write pipeline keeps the invariant.

 The step lemmas hide the definitions that a step does not touch; what a step
 does to one concern is a small lemma of its own.
 */
module WriteSafety {
  import opened Base
  import opened WriteState
  import opened WriteProtocol
  import opened WriteInvariants

  // ---------- Accepting a command ----------

  lemma AppendLog(queue: seq<Command>, open: bool, log: Log, c: Command)
    requires LogInv(queue, open, log) && Token(c) == |log.commands|
    ensures LogInv(queue + [c], open, log.(commands := log.commands + [c]))
    ensures Left(log.(commands := log.commands + [c])) == Left(log)
  {
  }

  lemma AppendHand(log: Log, writer: Writer, c: Command)
    requires HandInv(log, Hand(writer)) && log.popped <= |log.commands|
    ensures HandInv(log.(commands := log.commands + [c]), Hand(writer))
    ensures Taken(log.(commands := log.commands + [c]), writer) == Taken(log, writer)
  {
  }

  lemma AppendEos(commands: seq<Command>, closed: bool, c: Command)
    requires EosInv(commands, closed) && (c.Data? ==> !closed)
    ensures EosInv(commands + [c], closed || (c.Data? && c.eos))
  {
  }

  lemma AppendBarrier(commands: seq<Command>, completed: set<nat>, answers: seq<Answer>, c: Command)
    requires BarrierInv(commands, completed, answers)
    ensures BarrierInv(commands + [c], completed, answers)
  {
    forall i | 0 <= i < |answers| && answers[i].how.Barrier?
      ensures CompletedBefore(commands + [c], completed, answers[i].waiter)
    {
      assert CompletedBefore(commands, completed, answers[i].waiter);
    }
  }

  /** `s` with one more command accepted, apart from the producer's own place. */
  function Appended(s: Sys, c: Command, closed: bool): Sys {
    s.(w := s.w.(queue := s.w.queue + [c], localClosed := closed),
       log := s.log.(commands := s.log.commands + [c]), sync := Owe(s.sync, NotifyOne))
  }

  lemma AppendBuffered(s: Sys, c: Command, closed: bool)
    requires Buffered(s) <= s.capacity + 1 && (c.Data? ==> Occupied(s.w) < s.capacity)
    ensures Buffered(s) <= Buffered(Appended(s, c, closed)) <= s.capacity + 1
  {
    AppendData(s.w.queue, c);
    hide DataOf;
    assert |Held(s.writer)| <= 1;
  }

  /** The rest of the invariant, with nothing that the new command touches in it. */
  lemma AppendKept(s: Sys, c: Command, closed: bool)
    requires Inv(s) && Token(c) == |s.log.commands| && (c.Data? ==> !s.w.localClosed && Occupied(s.w) < s.capacity)
    requires closed == (s.w.localClosed || (c.Data? && c.eos))
    ensures Inv(Appended(s, c, closed))
  {
    hide Consistent, LogInv, HandInv, FlightInv, OrderInv, EosInv, WaiterInv, BarrierInv, WriterInv, ProducerInv, Left,
      Taken, DataOf, Owe, InHand, Hand, TailOpen, Buffered, Occupied;
    assert s.log.popped <= |s.log.commands| by { LogBounds(s); }
    SameFlight(s.w, s.w.queue + [c], closed);
    AppendLog(s.w.queue, s.w.terminal.None?, s.log, c);
    AppendHand(s.log, s.writer, c);
    AppendEos(s.log.commands, s.w.localClosed, c);
    AppendBarrier(s.log.commands, s.flight.completed, s.answers, c);
    AppendBuffered(s, c, closed);
    AppendSync(s.writer, s.task, s.sync, WorkForWriter(s.w), s.w.terminal.None?, Buffered(s), s.capacity);
  }

  /** A thread that owes `notify_one` covers the writer; more data never hurts a
      parked producer. */
  lemma AppendSync(writer: Writer, task: Task, y: Sync, work: bool, open: bool, buffered: nat, capacity: nat)
    requires WriterInv(writer, y, work, open) && ProducerInv(task, buffered, capacity, y)
    ensures forall more :: WriterInv(writer, Owe(y, NotifyOne), more, open)
    ensures forall n :: buffered <= n ==> ProducerInv(task, n, capacity, Owe(y, NotifyOne))
  {
    assert NotifyOne in Owe(y, NotifyOne).duties;
  }

  lemma AppendData(queue: seq<Command>, c: Command)
    ensures DataOf(queue + [c]) == DataOf(queue) + (if c.Data? then [c] else [])
  {
    DataOfConcat(queue, [c]);
  }

  lemma EnqueueKept(s: Sys)
    requires Inv(s) && s.task.at.Trying?
    ensures Inv(TryEnqueueSys(s))
  {
    hide Consistent, LogInv, HandInv, FlightInv, OrderInv, EosInv, WaiterInv, BarrierInv, WriterInv, Left, Taken, DataOf;
    if TryEnqueueSys(s).log != s.log {
      AppendKept(s, Data(|s.log.commands|, s.task.at.pointer, s.task.at.eos), s.w.localClosed || s.task.at.eos);
    }
  }

  lemma LogBounds(s: Sys)
    requires Inv(s)
    ensures s.log.popped <= s.log.base <= |s.log.commands|
  {
    hide HandInv, FlightInv, OrderInv, EosInv, WaiterInv, BarrierInv, Consistent;
  }

  lemma SubmitFlushKept(s: Sys)
    requires Inv(s)
    ensures Inv(SubmitFlushSys(s))
  {
    hide Inv;
    if SubmitFlushSys(s).log != s.log {
      AppendKept(s, Flush(|s.log.commands|), s.w.localClosed);
    }
  }

  // ---------- The writer ----------

  lemma PopLog(queue: seq<Command>, log: Log)
    requires LogInv(queue, true, log) && queue != []
    ensures log.popped == log.base < |log.commands| && queue[0] == log.commands[log.base]
    ensures LogInv(queue[1..], true, log.(base := log.base + 1, popped := log.popped + 1))
    ensures Left(log.(base := log.base + 1, popped := log.popped + 1)) == Left(log) + [queue[0]]
    ensures Token(queue[0]) == |Left(log)|
    ensures forall w :: Taken(log.(base := log.base + 1, popped := log.popped + 1), Holding(w)) == log.commands[..log.popped]
  {
  }

  lemma PopWaiters(left: seq<Command>, waiting: seq<nat>, answers: seq<Answer>, c: Command)
    requires WaiterInv(left, waiting, answers, None) && Token(c) == |left|
    ensures WaiterInv(left + [c], waiting, answers, InHand(Holding(c)))
  {
  }

  lemma PopKept(s: Sys)
    requires Inv(s) && s.writer.AtPop?
    ensures Inv(PopSys(s))
  {
    hide Consistent, LogInv, FlightInv, OrderInv, EosInv, WaiterInv, BarrierInv, Left;
    if Pop(s.w).1.Some? {
      PopLog(s.w.queue, s.log);
      LogBounds(s);
      PopWaiters(Left(s.log), s.w.flushWaiters, s.answers, s.w.queue[0]);
      assert Consistent(s.w.(queue := s.w.queue[1..])) by { SameFlight(s.w, s.w.queue[1..], s.w.localClosed); }
    }
  }

  lemma SameFlight(w: State, queue: seq<Command>, closed: bool)
    requires Consistent(w)
    ensures Consistent(w.(queue := queue, localClosed := closed))
  {
  }

  lemma InsertFlight(w: State, f: Flights, c: Command)
    requires c.Data? && FlightInv(w.inFlight, w.inFlightCount, f, false)
    ensures var t := Insert(w, c);
            FlightInv(t.inFlight, t.inFlightCount, f.(current := f.current + [c], inserted := f.inserted + [c]), true)
    ensures forall d :: d in f.current ==> d.serial in f.submitted
  {
    var t, current := Insert(w, c), f.current + [c];
    forall p ensures Entries(current, p) == if p in t.inFlight then t.inFlight[p] else [] {
      EntriesConcat(f.current, [c], p);
    }
    forall d | d in f.current ensures d.serial in f.submitted {
      var i :| 0 <= i < |f.current| && f.current[i] == d;
    }
  }

  lemma InsertOrder(taken: seq<Command>, f: Flights, c: Command)
    requires OrderInv(taken, f) && c.Data? && c.serial == |taken|
    ensures OrderInv(taken + [c], f.(current := f.current + [c], inserted := f.inserted + [c]))
  {
    DataOfConcat(taken, [c]);
    forall j | 0 <= j < |taken| + 1 && (taken + [c])[j].Data?
      ensures j in f.completed || (taken + [c])[j] in f.current + [c]
    {
      if j < |taken| && j !in f.completed {
        assert taken[j] in f.current;
      }
    }
  }

  lemma TakenWhole(s: Sys)
    requires Inv(s) && s.writer.Holding?
    ensures Token(s.writer.command) == |Taken(s.log, s.writer)|
    ensures s.log.popped <= |s.log.commands|
    ensures s.log.commands[..s.log.popped] == Taken(s.log, s.writer) + [s.writer.command]
  {
    hide Consistent, FlightInv, OrderInv, EosInv, WaiterInv, BarrierInv;
  }

  lemma InsertKept(s: Sys)
    requires Inv(s) && s.writer.Holding? && s.writer.command.Data?
    ensures Inv(InsertSys(s))
  {
    hide Consistent, LogInv, HandInv, FlightInv, OrderInv, EosInv, WaiterInv, BarrierInv;
    var c := s.writer.command;
    TakenWhole(s);
    InsertKeepsConsistent(s.w, c);
    InsertFlight(s.w, s.flight, c);
    InsertOrder(Taken(s.log, s.writer), s.flight, c);
  }

  lemma SubmitLast(s: Sys)
    requires Inv(s) && s.writer.Inserted?
    ensures FlightInv(s.w.inFlight, s.w.inFlightCount,
                      s.flight.(submitted := s.flight.submitted + {s.writer.command.serial}), false)
    ensures OrderInv(Taken(s.log, s.writer), s.flight.(submitted := s.flight.submitted + {s.writer.command.serial}))
  {
    hide Consistent, LogInv, HandInv, EosInv, WaiterInv, BarrierInv, ProducerInv, WriterInv, Entries;
  }

  lemma NativeWriteKept(s: Sys, a: Action)
    requires Inv(s) && Enabled(s, a) && a.NativeWrite?
    ensures Inv(Apply(s, a))
  {
    hide Consistent, LogInv, FlightInv, OrderInv, EosInv, WaiterInv, BarrierInv;
    SubmitLast(s);
  }

  // ---------- Answering flushes ----------

  lemma AnswerFromHand(left: seq<Command>, waiting: seq<nat>, answers: seq<Answer>, k: nat, how: How)
    requires WaiterInv(left, waiting, answers, Some(k)) && k < |left| && left[k].Flush?
    ensures WaiterInv(left, waiting, answers + [Answer(k, how)], None)
  {
    var more := answers + [Answer(k, how)];
    assert more[|answers|].waiter == k;
    forall j | Answered(answers, j) ensures Answered(more, j) {
      var i :| 0 <= i < |answers| && answers[i].waiter == j;
      assert more[i].waiter == j;
    }
  }

  lemma WaitFromHand(left: seq<Command>, answers: seq<Answer>, k: nat)
    requires WaiterInv(left, [], answers, Some(k)) && k < |left| && left[k].Flush?
    ensures WaiterInv(left, [k], answers, None)
  {
  }

  lemma AddAnswer(commands: seq<Command>, completed: set<nat>, answers: seq<Answer>, answer: Answer)
    requires BarrierInv(commands, completed, answers)
    requires answer.how.Barrier? ==> answer.waiter < |commands| && CompletedBefore(commands, completed, answer.waiter)
    ensures BarrierInv(commands, completed, answers + [answer])
  {
  }

  lemma HandIsTaken(s: Sys, k: nat)
    requires Inv(s) && InHand(s.writer) == Some(k)
    ensures k + 1 == s.log.popped <= |Left(s.log)| && Left(s.log)[k] == Flush(k)
    ensures s.log.popped <= |s.log.commands| && s.log.commands[..k] <= Taken(s.log, s.writer)
  {
    hide Consistent, FlightInv, OrderInv, EosInv, WaiterInv, BarrierInv;
  }

  /** With nothing in flight, all data that went through is completed. */
  lemma NothingInFlight(s: Sys, k: nat)
    requires OrderInv(Taken(s.log, s.writer), s.flight) && s.flight.current == []
    requires k <= |s.log.commands| && s.log.commands[..k] <= Taken(s.log, s.writer)
    ensures CompletedBefore(s.log.commands, s.flight.completed, k)
  {
  }

  lemma FlushOrder(taken: seq<Command>, f: Flights, k: nat)
    requires OrderInv(taken, f) && k == |taken|
    ensures OrderInv(taken + [Flush(k)], f)
  {
    DataOfConcat(taken, [Flush(k)]);
  }

  lemma LooseTail(m: map<nat, seq<Write>>, count: nat, f: Flights)
    requires FlightInv(m, count, f, false)
    ensures FlightInv(m, count, f, true)
  {
  }

  lemma NativeFlushKept(s: Sys, a: Action)
    requires Inv(s) && Enabled(s, a) && a.NativeFlush?
    ensures Inv(Apply(s, a))
  {
    hide Consistent, LogInv, FlightInv, OrderInv, EosInv, WaiterInv, BarrierInv, Left;
    var k := s.writer.command.waiter;
    HandIsTaken(s, k);
    TakenWhole(s);
    FlushOrder(Taken(s.log, s.writer), s.flight, k);
    if a.result.Failed? {
      LooseTail(s.w.inFlight, s.w.inFlightCount, s.flight);
      AnswerFromHand(Left(s.log), s.w.flushWaiters, s.answers, k, ByFlushError(a.result.error));
      AddAnswer(s.log.commands, s.flight.completed, s.answers, Answer(k, ByFlushError(a.result.error)));
    }
  }

  lemma SettleKept(s: Sys)
    requires Inv(s) && s.writer.FlushIssued?
    ensures Inv(SettleSys(s))
  {
    hide LogInv, OrderInv, EosInv, WaiterInv, BarrierInv, Left, Total, Groups;
    var k := s.writer.waiter;
    HandIsTaken(s, k);
    if s.w.inFlightCount == 0 {
      NothingInFlight(s, k);
      AnswerFromHand(Left(s.log), s.w.flushWaiters, s.answers, k, Barrier);
      AddAnswer(s.log.commands, s.flight.completed, s.answers, Answer(k, Barrier));
    } else {
      assert s.w.flushWaiters == [] && s.w.flushWaiters + [k] == [k];
      WaitFromHand(Left(s.log), s.answers, k);
    }
  }

  // ---------- Completions ----------

  lemma RetireGroups(w: State, current: seq<Command>, j: nat)
    requires Groups(w.inFlight, current) && j < |current| && current[j].Data?
    requires forall i :: 0 <= i < j ==> !(current[i].Data? && current[i].pointer == current[j].pointer)
    ensures Head(w, current[j].pointer) == Some(Write(current[j].serial, current[j].eos))
    ensures Groups(Complete(w, current[j].pointer).inFlight, current[..j] + current[j + 1..])
  {
    var p, rest := current[j].pointer, current[..j] + current[j + 1..];
    assert Entry(current[j], p) == [Write(current[j].serial, current[j].eos)];
    EntriesRemoved(current, j, p);
    hide Entries, Entry;
    assert w.inFlight[p][1..] == Entries(rest, p);
    RetireMap(w, p);
    hide Complete;
    forall q ensures Entries(rest, q) == if q in Complete(w, p).inFlight then Complete(w, p).inFlight[q] else [] {
      if q != p {
        EntriesElsewhere(current, j, q);
      }
    }
  }

  lemma EntriesElsewhere(current: seq<Command>, j: nat, q: nat)
    requires j < |current| && current[j].Data? && q != current[j].pointer
    requires forall i :: 0 <= i < j ==> !(current[i].Data? && current[i].pointer == current[j].pointer)
    ensures Entries(current, q) == Entries(current[..j] + current[j + 1..], q)
  {
    hide Entries;
    EntriesRemoved(current, j, q);
    assert Entry(current[j], q) == [];
  }

  lemma RetireMap(w: State, p: nat)
    requires p in w.inFlight
    ensures Complete(w, p).inFlight
         == if |w.inFlight[p]| <= 1 then w.inFlight - {p} else w.inFlight[p := w.inFlight[p][1..]]
  {
  }

  /** A completion retires the first write at its pointer, one that native code
      had accepted, from the map and from the flight alike. */
  lemma RetireFlight(w: State, f: Flights, tailOpen: bool, p: nat) returns (c: Command)
    requires Consistent(w) && FlightInv(w.inFlight, w.inFlightCount, f, tailOpen) && AwaitsCompletion(f, p)
    ensures c in f.current && c.Data? && c.serial in f.submitted && CompletedSerial(w, p) == {c.serial}
    ensures var t, rest := Complete(w, p), RemoveFirst(f.current, p);
            FlightInv(t.inFlight, t.inFlightCount, f.(current := rest, completed := f.completed + {c.serial}), tailOpen)
    ensures forall d :: d in f.current ==> d == c || d in RemoveFirst(f.current, p)
    ensures forall d :: d in RemoveFirst(f.current, p) ==> d in f.current
  {
    hide Consistent, Groups, Entries, RemoveFirst, Complete;
    var at :| 0 <= at < |f.current| && f.current[at].Data? && f.current[at].pointer == p && f.current[at].serial in f.submitted;
    var j := RemoveFirstAt(f.current, p, at);
    c := f.current[j];
    RetireGroups(w, f.current, j);
    CompleteIsExact(w, p);
  }

  lemma RetireOrder(taken: seq<Command>, f: Flights, c: Command, rest: seq<Command>)
    requires OrderInv(taken, f) && c in f.current && c.serial in f.submitted
    requires forall d :: d in f.current ==> d == c || d in rest
    requires forall d :: d in rest ==> d in f.current
    ensures OrderInv(taken, f.(current := rest, completed := f.completed + {c.serial}))
  {
  }

  lemma MoreCompleted(commands: seq<Command>, completed: set<nat>, more: set<nat>, answers: seq<Answer>)
    requires BarrierInv(commands, completed, answers) && completed <= more
    ensures BarrierInv(commands, more, answers)
  {
    forall i | 0 <= i < |answers| && answers[i].how.Barrier?
      ensures CompletedBefore(commands, more, answers[i].waiter)
    {
      assert CompletedBefore(commands, completed, answers[i].waiter);
    }
  }

  lemma ReleaseWaiters(left: seq<Command>, waiting: seq<nat>, answers: seq<Answer>, hand: Option<nat>)
    requires WaiterInv(left, waiting, answers, hand) && |waiting| <= 1
    ensures WaiterInv(left, [], answers + AnswerAll(waiting, Barrier), hand)
  {
    var more := answers + AnswerAll(waiting, Barrier);
    forall i | 0 <= i < |more| ensures (i < |answers| && more[i] == answers[i]) || more[i].waiter in waiting {
    }
    forall j | Answered(answers, j) ensures Answered(more, j) {
      var i :| 0 <= i < |answers| && answers[i].waiter == j;
      assert more[i].waiter == j;
    }
    forall j | j in waiting ensures Answered(more, j) {
      assert more[|answers|].waiter == j;
    }
  }

  lemma CompleteKept(s: Sys, p: nat)
    requires Inv(s) && AwaitsCompletion(s.flight, p)
    ensures Inv(CompleteSys(s, p))
  {
    hide Consistent, LogInv, HandInv, FlightInv, OrderInv, EosInv, WaiterInv, BarrierInv, Left, Groups, AwaitsCompletion;
    var t := CompleteSys(s, p);
    CompleteIsExact(s.w, p);
    var c := RetireFlight(s.w, s.flight, TailOpen(s.writer), p);
    RetireOrder(Taken(s.log, s.writer), s.flight, c, t.flight.current);
    MoreCompleted(s.log.commands, s.flight.completed, t.flight.completed, s.answers);
    ClosedEos(s.log.commands, s.w.localClosed, t.w.localClosed);
    if Releases(s.w, p) {
      OneWaiter(s.w);
      ReleaseWaiters(Left(s.log), s.w.flushWaiters, s.answers, InHand(s.writer));
      ReleaseBarrier(s, t);
    }
  }

  lemma ClosedEos(commands: seq<Command>, closed: bool, more: bool)
    requires EosInv(commands, closed) && (closed ==> more)
    ensures EosInv(commands, more)
  {
  }

  lemma OneWaiter(w: State)
    requires Consistent(w)
    ensures |w.flushWaiters| <= 1 && (w.flushWaiters != [] ==> w.flushBlocked)
  {
  }

  lemma ReleaseBarrier(s: Sys, t: Sys)
    requires Inv(s) && t.log == s.log && t.writer == s.writer && OrderInv(Taken(s.log, s.writer), t.flight)
    requires FlightInv(t.w.inFlight, t.w.inFlightCount, t.flight, TailOpen(s.writer)) && t.w.inFlightCount == 0
    requires s.w.flushBlocked && BarrierInv(s.log.commands, t.flight.completed, s.answers)
    ensures BarrierInv(s.log.commands, t.flight.completed, s.answers + AnswerAll(s.w.flushWaiters, Barrier))
  {
    hide HandInv, OrderInv, EosInv, WaiterInv, BarrierInv, Groups, Total;
    if s.w.flushWaiters == [] {
      assert s.answers + AnswerAll(s.w.flushWaiters, Barrier) == s.answers;
    } else {
      var k := s.w.flushWaiters[0];
      assert k in s.w.flushWaiters;
      NothingInFlight(t, k);
      AddAnswer(s.log.commands, t.flight.completed, s.answers, Answer(k, Barrier));
      assert AnswerAll(s.w.flushWaiters, Barrier) == [Answer(k, Barrier)];
    }
  }

  // ---------- Finish ----------

  lemma FinishWaiters(log: Log, queue: seq<Command>, open: bool, waiting: seq<nat>, answers: seq<Answer>,
                      hand: Option<nat>, how: How)
    requires LogInv(queue, open, log) && WaiterInv(Left(log), waiting, answers, hand) && |waiting| <= 1
    requires hand.Some? ==> hand.value < log.base
    ensures WaiterInv(log.commands, [], answers + AnswerAll(waiting + WaitersOf(queue), how), hand)
  {
    hide WaitersOf;
    WaitersOfLog(log.commands, log.base);
    var more, due := answers + AnswerAll(waiting + WaitersOf(queue), how), waiting + WaitersOf(queue);
    forall i | 0 <= i < |more|
      ensures if i < |answers| then more[i] == answers[i] else more[i].waiter == due[i - |answers|]
    {
    }
    forall i | 0 <= i < |due| ensures due[i] in due && Answered(more, due[i]) {
      assert more[|answers| + i].waiter == due[i];
    }
    forall j | Answered(answers, j) ensures Answered(more, j) {
      var i :| 0 <= i < |answers| && answers[i].waiter == j;
      assert more[i].waiter == j;
    }
    FinishWaitersPlaced(log, waiting, answers, hand, WaitersOf(queue), more);
  }

  lemma FinishWaitersPlaced(log: Log, waiting: seq<nat>, answers: seq<Answer>, hand: Option<nat>,
                            queued: seq<nat>, more: seq<Answer>)
    requires log.base <= |log.commands| && WaiterInv(Left(log), waiting, answers, hand) && |waiting| <= 1
    requires hand.Some? ==> hand.value < log.base
    requires forall x :: x in queued <==> log.base <= x < |log.commands| && log.commands[x].Flush?
    requires Distinct(queued) && |more| == |answers| + |waiting + queued|
    requires forall i :: 0 <= i < |more| ==>
               if i < |answers| then more[i] == answers[i] else more[i].waiter == (waiting + queued)[i - |answers|]
    requires forall j :: Answered(answers, j) ==> Answered(more, j)
    requires forall i :: 0 <= i < |waiting + queued| ==> Answered(more, (waiting + queued)[i])
    ensures WaiterInv(log.commands, [], more, hand)
  {
    forall i | |answers| <= i < |more|
      ensures if i < |answers| + |waiting| then more[i].waiter in waiting
              else more[i].waiter in queued && more[i].waiter == queued[i - |answers| - |waiting|]
    {
    }
    forall i, j | 0 <= i < j < |more| ensures more[i].waiter != more[j].waiter {
      if i < |answers| <= j {
        assert Answered(answers, answers[i].waiter);
      }
    }
    forall k | 0 <= k < |log.commands| && log.commands[k].Flush?
      ensures hand == Some(k) || Answered(more, k)
    {
      if k < log.base {
        assert Left(log)[k] == log.commands[k];
        if k in waiting {
          assert (waiting + queued)[0] == k;
        }
      } else {
        var i :| 0 <= i < |queued| && queued[i] == k;
        assert (waiting + queued)[|waiting| + i] == k;
      }
    }
  }

  lemma AddAnswers(commands: seq<Command>, completed: set<nat>, answers: seq<Answer>, waiters: seq<nat>, how: How)
    requires BarrierInv(commands, completed, answers) && !how.Barrier?
    ensures BarrierInv(commands, completed, answers + AnswerAll(waiters, how))
  {
  }

  lemma FinishKept(s: Sys, result: Outcome)
    requires Inv(s)
    ensures Inv(FinishSys(s, result))
  {
    hide FlightInv, OrderInv, EosInv, WaiterInv, BarrierInv, Total;
    var t := FinishSys(s, result);
    assert Left(t.log) == s.log.commands;
    FinishWaiters(s.log, s.w.queue, s.w.terminal.None?, s.w.flushWaiters, s.answers, InHand(s.writer), ByFinish(result));
    AddAnswers(s.log.commands, s.flight.completed, s.answers, FinishAnswers(s.w), ByFinish(result));
  }

  lemma OverKept(s: Sys)
    requires Inv(s)
    ensures Inv(s.(over := true))
  {
    hide Consistent, LogInv, HandInv, FlightInv, OrderInv, EosInv, WaiterInv, BarrierInv, WriterInv, ProducerInv;
  }

  lemma ExitKept(s: Sys)
    requires Inv(s) && s.writer.Failing?
    ensures Inv(s.(writer := Exited))
  {
    hide Consistent, LogInv, FlightInv, OrderInv, EosInv, WaiterInv, BarrierInv;
  }

  // ---------- The other steps ----------

  lemma DischargeKept(s: Sys, d: Duty)
    requires Inv(s) && d in s.sync.duties
    ensures Inv(DischargeSys(s, d))
  {
    hide Consistent, LogInv, HandInv, FlightInv, OrderInv, EosInv, WaiterInv, BarrierInv;
  }

  /** Steps that leave write state and history alone. */
  lemma QuietKept(s: Sys, a: Action)
    requires Inv(s) && Enabled(s, a)
    requires a.BeginPoll? || a.StoreWaker? || a.Recheck? || a.CreateNotified? || a.LoadReady? || a.CheckTerminal?
          || a.PollNotified? || a.StreamReady?
    ensures Inv(Apply(s, a))
  {
    hide Consistent, LogInv, HandInv, OrderInv, EosInv, WaiterInv, BarrierInv;
  }

  lemma StepKeepsInv(s: Sys, a: Action)
    requires Inv(s) && Enabled(s, a)
    ensures Inv(Apply(s, a))
  {
    hide Inv;
    match a
    case TryEnqueueData => EnqueueKept(s);
    case SubmitFlush => SubmitFlushKept(s);
    case PopCommand => PopKept(s);
    case InsertData => InsertKept(s);
    case Settle => SettleKept(s);
    case WriteCompleted(p) => CompleteKept(s, p);
    case FinishFailed =>
      FinishKept(s, Failed(s.writer.error));
      ExitKept(FinishSys(s, Failed(s.writer.error)));
    case Terminal(result) =>
      FinishKept(s, result);
      OverKept(FinishSys(s, result));
    case Discharge(d) => DischargeKept(s, d);
    case NativeWrite(_) => NativeWriteKept(s, a);
    case NativeFlush(_) => NativeFlushKept(s, a);
    case _ => QuietKept(s, a);
  }

  lemma InitInv(capacity: nat)
    ensures Inv(Init(capacity))
  {
  }
}
