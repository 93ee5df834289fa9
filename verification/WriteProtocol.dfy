/**
 The write pipeline of a bidirectional stream as a step relation.

 One producer task, one writer task (`write_loop`) and any number of native
 callback threads interleave. Every critical section, every `Notify` operation
 and every await is a step of its own; in particular the writer's pop, its
 in-flight insert and its native call are three steps.

 Tokio's `Notify` is one stored permit (`notify_one`) and a generation counter
 (`notify_waiters`) that a `notified()` future captures when it is created.
 Threads that still have to notify or wake after a critical section are
 counted in the multiset of duties.
 */
module WriteProtocol {
  import opened Base
  import opened WriteState

  /** What a thread that left a critical section still has to do. */
  datatype Duty =
    | NotifyOne            // enqueue: notify_one
    | NotifyThenWake       // complete that opened the barrier: notify_one, then wake_producer
    | Wake                 // complete: wake_producer
    | WakeThenNotifyAll    // finish: wake_producer, then notify_waiters
    | NotifyAll            // on_stream_ready, or the rest of finish: notify_waiters

  /** The producer inside `enqueue_data`. */
  datatype Producer =
    | Idle
    | Trying(pointer: nat, eos: bool)        // before the first critical section
    | SeenFull(pointer: nat, eos: bool)      // before it stores its waker
    | Registered(pointer: nat, eos: bool)    // before the second critical section
    | Parked                                 // returned Ok(false), task not polled again

  /** The program counter of `write_loop`. */
  datatype Writer =
    | Top
    | AtReady(gen: nat)
    | AtPop(gen: nat)
    | AtTerminalCheck(gen: nat)
    | Awaiting(gen: nat)
    | Holding(command: Command)
    | Inserted(command: Command)
    | FlushIssued(waiter: nat)
    | Failing(error: Error)
    | Exited

  datatype How = Barrier | ByFinish(outcome: Outcome) | ByFlushError(error: Error)

  datatype Answer = Answer(waiter: nat, how: How)

  /** Tokio's `Notify`, the `ready` flag and the outstanding duties. */
  datatype Sync = Sync(ready: bool, permit: bool, gen: nat, duties: multiset<Duty>)

  /** The producer task: its place, the registered waker, and whether it was
      woken since it was last polled. */
  datatype Task = Task(at: Producer, waker: bool, woken: bool)

  /** History: all accepted commands, how many of them have left the queue, and
      how many of those the writer took. */
  datatype Log = Log(commands: seq<Command>, base: nat, popped: nat)

  /** History: the data put in flight, the data in flight now, the data accepted
      by native code, and the data it has completed. */
  datatype Flights = Flights(inserted: seq<Command>, current: seq<Command>, submitted: set<nat>, completed: set<nat>)

  /** `over`: the terminal callback has taken effect. */
  datatype Sys = Sys(
    capacity: nat, w: State, sync: Sync, task: Task, writer: Writer, log: Log, flight: Flights, answers: seq<Answer>,
    over: bool)

  datatype Action =
    | BeginPoll(pointer: nat, eos: bool)
    | TryEnqueueData
    | StoreWaker
    | Recheck
    | SubmitFlush
    | CreateNotified
    | LoadReady
    | PopCommand
    | CheckTerminal
    | PollNotified
    | InsertData
    | NativeWrite(result: Outcome)
    | NativeFlush(result: Outcome)
    | Settle
    | FinishFailed
    | StreamReady
    | WriteCompleted(pointer: nat)
    | Terminal(result: Outcome)
    | Discharge(duty: Duty)

  function Init(capacity: nat): Sys {
    Sys(capacity, INITIAL, Sync(false, false, 0, multiset{}), Task(Idle, false, false), Top,
        Log([], 0, 0), Flights([], [], {}, {}), [], false)
  }

  function Token(c: Command): nat {
    if c.Data? then c.serial else c.waiter
  }

  /** The earliest write in flight at `pointer` is removed. */
  function RemoveFirst(flight: seq<Command>, pointer: nat): seq<Command> {
    if flight == [] then []
    else if flight[0].Data? && flight[0].pointer == pointer then flight[1..]
    else [flight[0]] + RemoveFirst(flight[1..], pointer)
  }

  function AnswerAll(waiters: seq<nat>, how: How): seq<Answer> {
    seq(|waiters|, i requires 0 <= i < |waiters| => Answer(waiters[i], how))
  }

  /** Native code completes only a write that it has accepted and not yet
      completed, be it before or after the terminal callback, and one terminal
      callback takes effect. Everything else may happen whenever its thread is
      there. */
  ghost predicate Enabled(s: Sys, a: Action) {
    match a
    case BeginPoll(_, _) => s.task.at.Idle? || s.task.at.Parked?
    case TryEnqueueData => s.task.at.Trying?
    case StoreWaker => s.task.at.SeenFull?
    case Recheck => s.task.at.Registered?
    case SubmitFlush => s.task.at.Idle? || s.task.at.Parked?
    case CreateNotified => s.writer.Top?
    case LoadReady => s.writer.AtReady?
    case PopCommand => s.writer.AtPop?
    case CheckTerminal => s.writer.AtTerminalCheck?
    case PollNotified => s.writer.Awaiting? && (s.sync.permit || s.sync.gen != s.writer.gen)
    case InsertData => s.writer.Holding? && s.writer.command.Data?
    case NativeWrite(_) => s.writer.Inserted?
    case NativeFlush(_) => s.writer.Holding? && s.writer.command.Flush?
    case Settle => s.writer.FlushIssued?
    case FinishFailed => s.writer.Failing?
    case StreamReady => true
    case WriteCompleted(p) => AwaitsCompletion(s.flight, p)
    case Terminal(_) => !s.over
    case Discharge(d) => d in s.sync.duties
  }

  ghost predicate AwaitsCompletion(f: Flights, p: nat) {
    exists i :: 0 <= i < |f.current| && f.current[i].Data? && f.current[i].pointer == p && f.current[i].serial in f.submitted
  }

  function Owe(y: Sync, d: Duty): Sync {
    y.(duties := y.duties + multiset{d})
  }

  function WakeProducer(t: Task): Task {
    t.(waker := false, woken := t.woken || t.waker)
  }

  /** The effect of a duty on `Notify`, and what remains to be done after it. */
  function DischargeSync(y: Sync, d: Duty): Sync {
    var z := y.(duties := y.duties - multiset{d});
    match d
    case NotifyOne => z.(permit := true)
    case NotifyThenWake => Owe(z.(permit := true), Wake)
    case Wake => z
    case WakeThenNotifyAll => Owe(z, NotifyAll)
    case NotifyAll => z.(gen := z.gen + 1)
  }

  function DischargeSys(s: Sys, d: Duty): Sys {
    s.(sync := DischargeSync(s.sync, d),
       task := if d.Wake? || d.WakeThenNotifyAll? then WakeProducer(s.task) else s.task)
  }

  function FinishSys(s: Sys, result: Outcome): Sys {
    s.(w := Finish(s.w, result), log := s.log.(base := |s.log.commands|), sync := Owe(s.sync, WakeThenNotifyAll),
       answers := s.answers + AnswerAll(FinishAnswers(s.w), ByFinish(result)))
  }

  /** The serial of the write that a completion of `p` retires. */
  function CompletedSerial(w: State, p: nat): set<nat> {
    match Head(w, p)
    case None => {}
    case Some(write) => {write.serial}
  }

  function CompleteSys(s: Sys, p: nat): Sys {
    var released := Releases(s.w, p);
    s.(w := Complete(s.w, p),
       flight := s.flight.(current := RemoveFirst(s.flight.current, p),
                           completed := s.flight.completed + CompletedSerial(s.w, p)),
       sync := Owe(s.sync, if released then NotifyThenWake else Wake),
       answers := if released then s.answers + AnswerAll(s.w.flushWaiters, Barrier) else s.answers)
  }

  function TryEnqueueSys(s: Sys): Sys
    requires s.task.at.Trying?
  {
    var serial := |s.log.commands|;
    var p := s.task.at;
    var (w, admission) := TryEnqueue(s.w, s.capacity, serial, p.pointer, p.eos);
    match admission
    case Accepted =>
      s.(w := w, log := s.log.(commands := s.log.commands + [Data(serial, p.pointer, p.eos)]),
         task := s.task.(at := Idle), sync := Owe(s.sync, NotifyOne))
    case Full => s.(task := s.task.(at := SeenFull(p.pointer, p.eos)))
    case Rejected(_) => s.(task := s.task.(at := Idle))
  }

  function SubmitFlushSys(s: Sys): Sys {
    var waiter := |s.log.commands|;
    var (w, admission) := EnqueueFlush(s.w, waiter);
    if admission.Accepted? then
      s.(w := w, log := s.log.(commands := s.log.commands + [Flush(waiter)]), sync := Owe(s.sync, NotifyOne))
    else s
  }

  function PopSys(s: Sys): Sys
    requires s.writer.AtPop?
  {
    var (w, command) := Pop(s.w);
    match command
    case None => s.(writer := AtTerminalCheck(s.writer.gen))
    case Some(c) =>
      s.(w := w, writer := Holding(c), log := s.log.(base := s.log.base + 1, popped := s.log.popped + 1))
  }

  function InsertSys(s: Sys): Sys
    requires s.writer.Holding? && s.writer.command.Data?
  {
    var c := s.writer.command;
    s.(w := Insert(s.w, c), writer := Inserted(c),
       flight := s.flight.(current := s.flight.current + [c], inserted := s.flight.inserted + [c]))
  }

  function SettleSys(s: Sys): Sys
    requires s.writer.FlushIssued?
  {
    var (w, answered) := SettleFlush(s.w, s.writer.waiter);
    s.(w := w, writer := Top,
       answers := if answered then s.answers + [Answer(s.writer.waiter, Barrier)] else s.answers)
  }

  ghost function Apply(s: Sys, a: Action): Sys
    requires Enabled(s, a)
  {
    match a
    case BeginPoll(p, eos) => s.(task := s.task.(at := Trying(p, eos), woken := false))
    case TryEnqueueData => TryEnqueueSys(s)
    case StoreWaker => s.(task := s.task.(waker := true, at := Registered(s.task.at.pointer, s.task.at.eos)))
    case Recheck =>
      s.(task := s.task.(at := if Occupied(s.w) >= s.capacity then Parked else Trying(s.task.at.pointer, s.task.at.eos)))
    case SubmitFlush => SubmitFlushSys(s)
    case CreateNotified => s.(writer := AtReady(s.sync.gen))
    case LoadReady => s.(writer := if s.sync.ready then AtPop(s.writer.gen) else Awaiting(s.writer.gen))
    case PopCommand => PopSys(s)
    case CheckTerminal => s.(writer := if s.w.terminal.Some? then Exited else Awaiting(s.writer.gen))
    case PollNotified => s.(sync := s.sync.(permit := false), writer := Top)
    case InsertData => InsertSys(s)
    case NativeWrite(Done) =>
      s.(flight := s.flight.(submitted := s.flight.submitted + {Token(s.writer.command)}), writer := Top)
    case NativeWrite(Failed(e)) => s.(writer := Failing(e))
    case NativeFlush(Done) => s.(writer := FlushIssued(s.writer.command.waiter))
    case NativeFlush(Failed(e)) =>
      s.(writer := Failing(e), answers := s.answers + [Answer(s.writer.command.waiter, ByFlushError(e))])
    case Settle => SettleSys(s)
    case FinishFailed => FinishSys(s, Failed(s.writer.error)).(writer := Exited)
    case StreamReady => s.(sync := Owe(s.sync.(ready := true), NotifyAll))
    case WriteCompleted(p) => CompleteSys(s, p)
    case Terminal(result) => FinishSys(s, result).(over := true)
    case Discharge(d) => DischargeSys(s, d)
  }
}
