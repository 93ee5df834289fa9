/** Runs of the write pipeline that reach the corners the claims leave open. */
module WriteWitnesses {
  import opened Base
  import opened WriteState
  import opened WriteProtocol
  import opened WriteInvariants
  import opened WriteSafety
  import opened WriteClaims
  import opened WriteEndings
  import opened WriteExits

  lemma {:induction false} Extend(s: Sys, actions: seq<Action>, t: Sys, a: Action)
    requires Reaches(s, actions, t) && Enabled(t, a)
    ensures Reaches(s, actions + [a], Apply(t, a))
    decreases |actions|
  {
    hide Enabled, Apply;
    if actions == [] {
      assert ([a])[1..] == [];
    } else {
      Extend(Apply(s, actions[0]), actions[1..], t, a);
      assert (actions + [a])[1..] == actions[1..] + [a];
    }
  }

  lemma KeepsCapacity(s: Sys, a: Action)
    requires Enabled(s, a)
    ensures Apply(s, a).capacity == s.capacity
  {
  }

  /** One more step of a run. */
  lemma Then(s: Sys, a: Action) returns (t: Sys)
    requires Reachable(s) && Enabled(s, a)
    ensures t == Apply(s, a) && Reachable(t)
  {
    hide Enabled, Apply;
    t := Apply(s, a);
    var actions :| Reaches(Init(s.capacity), actions, s);
    KeepsCapacity(s, a);
    Extend(Init(s.capacity), actions, s, a);
  }

  lemma Start(capacity: nat) returns (s: Sys)
    ensures s == Init(capacity) && Reachable(s)
  {
    s := Init(capacity);
    assert Reaches(Init(s.capacity), [], s);
  }

  /** A stream that is ready, its writer about to look at the queue. */
  lemma ReadyWriter(capacity: nat) returns (s: Sys)
    ensures Reachable(s) && s == Init(capacity).(sync := Sync(true, false, 1, multiset{}), writer := AtPop(1))
  {
    s := Start(capacity);
    s := Then(s, StreamReady);
    s := Then(s, Discharge(NotifyAll));
    s := Then(s, CreateNotified);
    s := Then(s, LoadReady);
  }

  predicate Lets(w: State) {
    !(w.terminal.Some? && w.terminal.value.Failed?) && !w.localClosed
  }

  /** The producer gets one more data item accepted. */
  lemma AcceptOne(s: Sys, pointer: nat) returns (t: Sys)
    requires Reachable(s) && s.task.at.Idle? && Lets(s.w) && Occupied(s.w) < s.capacity
    ensures Reachable(t) && t.task.at.Idle? && t.writer == s.writer && t.capacity == s.capacity && t.over == s.over
    ensures t.w == s.w.(queue := s.w.queue + [Data(|s.log.commands|, pointer, false)])
    ensures t.sync == s.sync.(permit := true) && t.flight == s.flight && t.answers == s.answers
    ensures t.task == s.task.(at := Idle, woken := false)
    ensures t.log == s.log.(commands := s.log.commands + [Data(|s.log.commands|, pointer, false)])
    ensures Occupied(t.w) == Occupied(s.w) + 1
  {
    hide Reachable, DataOf;
    t := Then(s, BeginPoll(pointer, false));
    t := Then(t, TryEnqueueData);
    t := Then(t, Discharge(NotifyOne));
    assert t.sync.duties == s.sync.duties;
    AppendData(s.w.queue, Data(|s.log.commands|, pointer, false));
  }

  lemma {:induction false} Fill(s: Sys, n: nat) returns (t: Sys)
    requires Reachable(s) && s.task.at.Idle? && Lets(s.w) && Occupied(s.w) + n <= s.capacity
    ensures Reachable(t) && t.task.at.Idle? && t.task.waker == s.task.waker && t.writer == s.writer
    ensures t.capacity == s.capacity && t.over == s.over && t.flight == s.flight && t.sync.duties == s.sync.duties
    ensures Occupied(t.w) == Occupied(s.w) + n && t.w == s.w.(queue := t.w.queue)
    ensures forall c :: c in t.w.queue ==> c in s.w.queue || c.Data?
    decreases n
  {
    hide Reachable;
    t := s;
    if n > 0 {
      t := AcceptOne(s, 0);
      t := Fill(t, n - 1);
    }
  }

  /** The bound `capacity + 1` is reached for every capacity, because the writer
      pops and inserts in two critical sections. */
  lemma BufferingBoundIsReached(capacity: nat) returns (s: Sys)
    requires capacity > 0
    ensures s.capacity == capacity && Reachable(s) && Buffered(s) == capacity + 1
  {
    hide Reachable;
    s := ReadyWriter(capacity);
    s := Fill(s, capacity);
    assert s.w.queue != [] && s.w.queue[0] in s.w.queue;
    s := Then(s, PopCommand);
    s := AcceptOne(s, 0);
  }

  /** A free writer goes round its loop up to the pop. */
  lemma Loop(s: Sys) returns (t: Sys)
    requires Reachable(s) && s.writer.Top? && s.sync.ready
    ensures Reachable(t) && t == PopSys(s.(writer := AtPop(s.sync.gen)))
  {
    hide Reachable;
    t := Then(s, CreateNotified);
    t := Then(t, LoadReady);
    t := Then(t, PopCommand);
  }

  /** Native code reports its terminal result while no other thread moves. */
  lemma End(s: Sys, result: Outcome) returns (t: Sys)
    requires Reachable(s) && s.sync.duties == multiset{} && !s.task.waker && !s.over
    ensures Reachable(t) && t.w == Finish(s.w, result) && t.task == s.task && t.writer == s.writer && t.capacity == s.capacity
    ensures t.sync == s.sync.(gen := s.sync.gen + 1) && t.over && t.flight == s.flight
    ensures t.log == s.log.(base := |s.log.commands|)
    ensures t.answers == s.answers + AnswerAll(FinishAnswers(s.w), ByFinish(result))
  {
    hide Reachable;
    t := Then(s, Terminal(result));
    t := Then(t, Discharge(WakeThenNotifyAll));
    t := Then(t, Discharge(NotifyAll));
  }

  const ONE_IN_FLIGHT := Insert(INITIAL, Data(0, 7, false))

  /** The writer has taken the first data item. */
  lemma OneInHand() returns (s: Sys)
    ensures Reachable(s) && s.capacity == 1 && s.task == Task(Idle, false, false) && !s.over
    ensures s.w == INITIAL && s.writer == Holding(Data(0, 7, false)) && s.sync == Sync(true, true, 1, multiset{})
    ensures |s.log.commands| == 1 && s.answers == []
  {
    hide Reachable;
    s := ReadyWriter(1);
    s := AcceptOne(s, 7);
    assert s.w.queue == [Data(0, 7, false)];
    s := Then(s, PopCommand);
    assert s.w.queue == [];
  }

  /** One write accepted, submitted and still in flight; the writer is free. */
  lemma OneInFlight() returns (s: Sys)
    ensures Reachable(s) && s.capacity == 1 && s.task == Task(Idle, false, false) && s.writer.Top?
    ensures s.w == ONE_IN_FLIGHT && s.sync == Sync(true, true, 1, multiset{}) && !s.over
    ensures |s.log.commands| == 1 && s.answers == []
  {
    hide Reachable;
    s := OneInHand();
    s := Then(s, InsertData);
    s := Then(s, NativeWrite(Done));
  }

  /** `finish` running between the producer's two capacity checks is missed by
      both its wake and the recheck: the stream is over, the task sleeps, and
      only a late completion of the write in flight could wake it. */
  lemma ParkedAfterTerminal(result: Outcome) returns (s: Sys)
    ensures Reachable(s) && Asleep(s) && Deserted(s) && s.w.terminal == Some(result)
  {
    hide Reachable;
    s := OneInFlight();
    s := Then(s, BeginPoll(8, false));
    s := Then(s, TryEnqueueData);
    s := End(s, result);
    s := Then(s, StoreWaker);
    s := Then(s, Recheck);
  }

  /** A stream that ends before it is ready, whatever its result: the writer sleeps
      and never ends. */
  lemma WriterOutlivesTheStream(capacity: nat, result: Outcome) returns (s: Sys)
    ensures Reachable(s) && s.capacity == capacity && s.over && s.w.terminal == Some(result)
    ensures s.writer.Awaiting? && !Enabled(s, PollNotified) && s.sync.duties == multiset{}
    ensures forall actions, t :: !Exits(s, actions, t)
  {
    hide Reachable, Exits;
    s := Start(capacity);
    s := End(s, result);
    s := Then(s, CreateNotified);
    s := Then(s, LoadReady);
    ExitsIffReady(s);
  }

  /** A successful end, met by a writer with nothing to do: it exits. */
  lemma QuietEnd(capacity: nat) returns (s: Sys)
    ensures Reachable(s) && s.capacity == capacity && Closed(s) && s.w == Finish(INITIAL, Done)
    ensures s.sync.duties == multiset{} && s.task == Task(Idle, false, false) && s.answers == []
    ensures s.flight == Flights([], [], {}, {}) && s.log == Log([], 0, 0)
  {
    hide Reachable;
    s := ReadyWriter(capacity);
    s := End(s, Done);
    s := Then(s, PopCommand);
    s := Then(s, CheckTerminal);
  }

  /** After a successful end the queue still takes data until it is full; the
      producer that meets the full queue sleeps for ever. */
  lemma ForgottenProducer(capacity: nat) returns (s: Sys)
    requires capacity > 0
    ensures Reachable(s) && s.capacity == capacity && Asleep(s) && Forgotten(s) && s.w.inFlightCount == 0
  {
    hide Reachable;
    s := QuietEnd(capacity);
    s := Fill(s, capacity);
    var full := s.w;
    assert full.terminal == Some(Done) && !full.localClosed;
    s := Then(s, BeginPoll(0, false));
    s := Then(s, TryEnqueueData);
    s := Then(s, StoreWaker);
    s := Then(s, Recheck);
  }

  /** A flush accepted after a successful end is answered in no continuation. */
  lemma ForgottenFlush(capacity: nat) returns (s: Sys)
    ensures Reachable(s) && s.capacity == capacity && Closed(s) && FlushAt(s, 0)
    ensures forall actions, t :: !Answers(s, actions, t, 0)
  {
    hide Reachable, Answers;
    s := QuietEnd(capacity);
    s := Then(s, SubmitFlush);
    UnansweredForEverIff(s, 0);
  }

  /** A flush is accepted behind the write in flight and issued by the writer. */
  lemma FlushInHand() returns (s: Sys)
    ensures Reachable(s) && s.writer == FlushIssued(1) && s.w == ONE_IN_FLIGHT && !s.task.waker
    ensures s.sync == Sync(true, true, 1, multiset{}) && s.answers == [] && !s.over
    ensures |s.log.commands| == 2 && s.log.commands[1] == Flush(1)
  {
    hide Reachable;
    s := OneInFlight();
    s := Then(s, SubmitFlush);
    s := Then(s, Discharge(NotifyOne));
    s := Loop(s);
    assert s.w == ONE_IN_FLIGHT;
    s := Then(s, NativeFlush(Done));
  }

  /** A flush in the writer's hand while `finish` runs is put on the waiting
      list afterwards. */
  lemma ListedAfterEnd(result: Outcome) returns (s: Sys)
    ensures Reachable(s) && s.w.terminal == Some(result) && Closed(s) && FlushAt(s, 1)
    ensures s.w.flushWaiters == [1] && s.w.inFlightCount == 1 && s.answers == []
  {
    hide Reachable;
    s := FlushInHand();
    s := End(s, result);
    s := Then(s, Settle);
    s := Loop(s);
    s := Then(s, CheckTerminal);
  }

  /** In every continuation such a flush is answered if and only if native code
      completes the write in flight after the end. */
  lemma StrandedFlush(result: Outcome) returns (s: Sys)
    ensures Reachable(s) && s.w.terminal == Some(result) && Closed(s) && s.w.flushWaiters == [1] && s.w.inFlightCount == 1
    ensures forall actions, t :: Reaches(s, actions, t) ==> (Answered(t.answers, 1) <==> t.w.inFlightCount == 0)
  {
    s := ListedAfterEnd(result);
    assert !Answered(s.answers, 1) && 1 in s.w.flushWaiters;
    ReachableGood(s);
    hide Reachable, Reaches, Good, FlushAt, Closed, Answered;
    forall actions, t | Reaches(s, actions, t) ensures Answered(t.answers, 1) <==> t.w.inFlightCount == 0 {
      AnsweredIffDrained(s, actions, t, 1);
    }
  }
}
