/**
 The mutex-protected write state of a bidirectional stream.

 Each function below is one critical section of the source on a value, and
 each method of `WriteShared` is the same critical section on fields that it
 updates in place, proved equal to the function.
 */
module WriteState {
  import opened Base

  /** A queued command: a buffer (its identity and its address) or a flush. */
  datatype Command =
    | Data(serial: nat, pointer: nat, eos: bool)
    | Flush(waiter: nat)

  datatype Write = Write(serial: nat, eos: bool)

  datatype State = State(
    queue: seq<Command>,
    inFlight: map<nat, seq<Write>>,
    inFlightCount: nat,
    flushWaiters: seq<nat>,
    flushBlocked: bool,
    localClosed: bool,
    terminal: Option<Outcome>)

  datatype Admission = Accepted | Full | Rejected(error: Error)

  const INITIAL := State([], map[], 0, [], false, false, None)

  function IfData(c: Command): seq<Command> {
    if c.Data? then [c] else []
  }

  function DataOf(commands: seq<Command>): seq<Command> {
    if commands == [] then [] else IfData(commands[0]) + DataOf(commands[1..])
  }

  function WaitersOf(commands: seq<Command>): seq<nat> {
    if commands == [] then []
    else (if commands[0].Flush? then [commands[0].waiter] else []) + WaitersOf(commands[1..])
  }

  /** What the capacity check compares with the capacity. */
  function Occupied(s: State): nat {
    |DataOf(s.queue)| + s.inFlightCount
  }

  /** The first critical section of `enqueue_data`. */
  function TryEnqueue(s: State, capacity: nat, serial: nat, pointer: nat, eos: bool): (State, Admission) {
    if s.terminal.Some? && s.terminal.value.Failed? then (s, Rejected(s.terminal.value.error))
    else if s.localClosed then (s, Rejected(Canceled))
    else if Occupied(s) >= capacity then (s, Full)
    else (s.(localClosed := s.localClosed || eos, queue := s.queue + [Data(serial, pointer, eos)]), Accepted)
  }

  function EnqueueFlush(s: State, waiter: nat): (State, Admission) {
    if s.terminal.Some? && s.terminal.value.Failed? then (s, Rejected(s.terminal.value.error))
    else (s.(queue := s.queue + [Flush(waiter)]), Accepted)
  }

  function SaturatingPred(n: nat): nat {
    if n == 0 then 0 else n - 1
  }

  /** The completed write of `pointer`, if one is in flight there. */
  function Head(s: State, pointer: nat): Option<Write> {
    if pointer in s.inFlight && s.inFlight[pointer] != [] then Some(s.inFlight[pointer][0]) else None
  }

  /** `s` after the write at the head of `pointer` has left the in-flight map. */
  function Retire(s: State, pointer: nat): State {
    if pointer !in s.inFlight then s
    else
      var writes := s.inFlight[pointer];
      s.(inFlight := if |writes| <= 1 then s.inFlight - {pointer} else s.inFlight[pointer := writes[1..]],
         inFlightCount := if writes == [] then s.inFlightCount else SaturatingPred(s.inFlightCount),
         localClosed := s.localClosed || (writes != [] && writes[0].eos))
  }

  /** Whether completing `pointer` opens the flush barrier. */
  predicate Releases(s: State, pointer: nat) {
    Retire(s, pointer).inFlightCount == 0 && s.flushBlocked
  }

  function Complete(s: State, pointer: nat): State {
    var t := Retire(s, pointer);
    if Releases(s, pointer) then t.(flushBlocked := false, flushWaiters := []) else t
  }

  function Finish(s: State, result: Outcome): State {
    s.(terminal := Some(result), flushWaiters := [], queue := [])
  }

  /** The waiters that `finish` answers, in order. */
  function FinishAnswers(s: State): seq<nat> {
    s.flushWaiters + WaitersOf(s.queue)
  }

  function Pop(s: State): (State, Option<Command>) {
    if s.terminal.Some? || s.flushBlocked || s.queue == [] then (s, None)
    else (s.(queue := s.queue[1..]), Some(s.queue[0]))
  }

  function Insert(s: State, data: Command): State
    requires data.Data?
  {
    var prior := if data.pointer in s.inFlight then s.inFlight[data.pointer] else [];
    s.(inFlight := s.inFlight[data.pointer := prior + [Write(data.serial, data.eos)]],
       inFlightCount := s.inFlightCount + 1)
  }

  /** After a native flush: answer at once (true) or raise the barrier. */
  function SettleFlush(s: State, waiter: nat): (State, bool) {
    if s.inFlightCount == 0 then (s, true)
    else (s.(flushBlocked := true, flushWaiters := s.flushWaiters + [waiter]), false)
  }

  // ---------- The in-flight count ----------

  /** The number of writes in all per-pointer queues. */
  ghost function Total(m: map<nat, seq<Write>>): nat
    decreases m.Keys
  {
    if m == map[] then 0 else var k :| k in m; |m[k]| + Total(m - {k})
  }

  lemma {:induction false} TotalSplit(m: map<nat, seq<Write>>, k: nat)
    requires k in m
    ensures Total(m) == |m[k]| + Total(m - {k})
    decreases m.Keys
  {
    var j :| j in m && Total(m) == |m[j]| + Total(m - {j});
    if j != k {
      TotalSplit(m - {j}, k);
      TotalSplit(m - {k}, j);
      assert m - {j} - {k} == m - {k} - {j};
    }
  }

  lemma TotalUpdate(m: map<nat, seq<Write>>, k: nat, writes: seq<Write>)
    ensures Total(m[k := writes]) == Total(m) + |writes| - (if k in m then |m[k]| else 0)
  {
    TotalSplit(m[k := writes], k);
    if k in m {
      TotalSplit(m, k);
      assert m[k := writes] - {k} == m - {k};
    } else {
      assert m[k := writes] - {k} == m;
    }
  }

  /** The invariant of the write state: the count is exact, no per-pointer
      queue is empty, and the barrier is up only while writes are in flight. */
  ghost predicate Consistent(s: State) {
    && s.inFlightCount == Total(s.inFlight)
    && (forall p :: p in s.inFlight ==> s.inFlight[p] != [])
    && (s.flushBlocked ==> s.inFlightCount > 0)
    && (s.flushWaiters != [] ==> s.flushBlocked)
    && |s.flushWaiters| <= 1
  }

  /** `saturating_sub` never saturates: a completion that finds a write lowers
      the count by exactly one, and one that finds none changes nothing. */
  lemma CompleteIsExact(s: State, pointer: nat)
    requires Consistent(s)
    ensures Consistent(Complete(s, pointer))
    ensures Head(s, pointer).Some? <==> pointer in s.inFlight
    ensures Head(s, pointer).Some? ==> Complete(s, pointer).inFlightCount == s.inFlightCount - 1
    ensures Head(s, pointer).None? ==> Complete(s, pointer) == s
    ensures var t := Complete(s, pointer);
            && (forall p :: p != pointer ==> (p in t.inFlight <==> p in s.inFlight))
            && (forall p :: p != pointer && p in s.inFlight ==> t.inFlight[p] == s.inFlight[p])
            && (pointer in s.inFlight ==>
                  if |s.inFlight[pointer]| == 1 then pointer !in t.inFlight
                  else pointer in t.inFlight && t.inFlight[pointer] == s.inFlight[pointer][1..])
            && t.queue == s.queue && t.terminal == s.terminal
            && (t.localClosed <==> s.localClosed || (Head(s, pointer).Some? && s.inFlight[pointer][0].eos))
            && (t.inFlightCount == 0 ==> !t.flushBlocked && t.flushWaiters == [])
            && (t.inFlightCount > 0 ==> t.flushBlocked == s.flushBlocked && t.flushWaiters == s.flushWaiters)
  {
    if pointer in s.inFlight {
      var writes := s.inFlight[pointer];
      TotalSplit(s.inFlight, pointer);
      TotalUpdate(s.inFlight, pointer, writes[1..]);
    }
  }

  lemma InsertKeepsConsistent(s: State, data: Command)
    requires data.Data? && Consistent(s)
    ensures Consistent(Insert(s, data))
  {
    var prior := if data.pointer in s.inFlight then s.inFlight[data.pointer] else [];
    TotalUpdate(s.inFlight, data.pointer, prior + [Write(data.serial, data.eos)]);
  }

  /** An exact count of zero means that nothing at all is in flight. */
  lemma ZeroMeansEmpty(s: State)
    requires Consistent(s)
    ensures s.inFlightCount == 0 <==> s.inFlight == map[]
  {
    if s.inFlight != map[] {
      var k :| k in s.inFlight;
      TotalSplit(s.inFlight, k);
    }
  }

  // ---------- Sequences of commands ----------

  lemma {:induction false} DataOfConcat(a: seq<Command>, b: seq<Command>)
    ensures DataOf(a + b) == DataOf(a) + DataOf(b)
  {
    hide IfData;
    if a == [] {
      assert a + b == b;
    } else {
      DataOfConcat(a[1..], b);
      assert (a + b)[1..] == a[1..] + b;
      assert DataOf(a + b) == IfData(a[0]) + DataOf(a[1..] + b);
    }
  }

  lemma {:induction false} WaitersOfMembers(a: seq<Command>, w: nat)
    ensures w in WaitersOf(a) <==> Flush(w) in a
  {
    if a != [] {
      WaitersOfMembers(a[1..], w);
      assert a == [a[0]] + a[1..];
    }
  }

  lemma FinishKeepsConsistent(s: State, result: Outcome)
    requires Consistent(s)
    ensures Consistent(Finish(s, result))
  {
  }

  lemma NoWaiters()
    ensures WaitersOf([]) == []
  {
  }

  /** One turn of the loop in `finish`. */
  lemma AnswerFirst(answered: seq<nat>, queue: seq<Command>)
    requires queue != []
    ensures answered + WaitersOf(queue)
         == (if queue[0].Flush? then answered + [queue[0].waiter] else answered) + WaitersOf(queue[1..])
  {
    if queue[0].Data? {
      assert [] + WaitersOf(queue[1..]) == WaitersOf(queue[1..]);
    }
  }

  /** The critical sections of `WriteShared`, on fields updated in place. */
  class WriteShared {
    const capacity: nat
    var queue: seq<Command>
    var inFlight: map<nat, seq<Write>>
    var inFlightCount: nat
    var flushWaiters: seq<nat>
    var flushBlocked: bool
    var localClosed: bool
    var terminal: Option<Outcome>

    ghost function Value(): State
      reads this
    {
      State(queue, inFlight, inFlightCount, flushWaiters, flushBlocked, localClosed, terminal)
    }

    constructor (capacity: nat)
      ensures this.capacity == capacity && Value() == INITIAL && Consistent(Value())
    {
      this.capacity := capacity;
      queue, inFlight, inFlightCount, flushWaiters := [], map[], 0, [];
      flushBlocked, localClosed, terminal := false, false, None;
    }

    method QueueDataCount() returns (count: nat)
      ensures count == |DataOf(queue)|
    {
      count := 0;
      for i := 0 to |queue|
        invariant count == |DataOf(queue[..i])|
      {
        assert queue[..i + 1] == queue[..i] + [queue[i]];
        DataOfConcat(queue[..i], [queue[i]]);
        if queue[i].Data? {
          count := count + 1;
        }
      }
      assert queue[..|queue|] == queue;
    }

    method EnqueueData(serial: nat, pointer: nat, eos: bool) returns (admission: Admission)
      requires Consistent(Value())
      modifies this
      ensures (Value(), admission) == TryEnqueue(old(Value()), capacity, serial, pointer, eos)
      ensures Consistent(Value())
      ensures admission.Accepted? ==> Occupied(Value()) == old(Occupied(Value())) + 1 <= capacity
    {
      if terminal.Some? && terminal.value.Failed? {
        return Rejected(terminal.value.error);
      }
      if localClosed {
        return Rejected(Canceled);
      }
      var queued := QueueDataCount();
      if queued + inFlightCount >= capacity {
        return Full;
      }
      if eos {
        localClosed := true;
      }
      DataOfConcat(queue, [Data(serial, pointer, eos)]);
      queue := queue + [Data(serial, pointer, eos)];
      admission := Accepted;
    }

    method EnqueueControl(waiter: nat) returns (admission: Admission)
      requires Consistent(Value())
      modifies this
      ensures (Value(), admission) == EnqueueFlush(old(Value()), waiter)
      ensures Consistent(Value())
    {
      if terminal.Some? && terminal.value.Failed? {
        return Rejected(terminal.value.error);
      }
      queue := queue + [Flush(waiter)];
      admission := Accepted;
    }

    /** Retires the oldest write of `pointer`; `released` are the flush
        waiters answered Ok. */
    method CompleteWrite(pointer: nat) returns (released: seq<nat>, notify: bool)
      requires Consistent(Value())
      modifies this
      ensures Value() == Complete(old(Value()), pointer) && Consistent(Value())
      ensures notify == Releases(old(Value()), pointer)
      ensures released == if notify then old(flushWaiters) else []
      ensures inFlightCount == old(inFlightCount) - (if pointer in old(inFlight) then 1 else 0)
    {
      CompleteIsExact(Value(), pointer);
      released, notify := [], false;
      if pointer in inFlight {
        var writes := inFlight[pointer];
        if writes != [] {
          inFlightCount := SaturatingPred(inFlightCount);
          if writes[0].eos {
            localClosed := true;
          }
          writes := writes[1..];
        }
        if writes == [] {
          inFlight := inFlight - {pointer};
        } else {
          inFlight := inFlight[pointer := writes];
        }
      }
      if inFlightCount == 0 && flushBlocked {
        flushBlocked := false;
        released, flushWaiters := flushWaiters, [];
        notify := true;
      }
    }

    /** Publishes the terminal result and empties queue and waiters. */
    method FinishWith(result: Outcome) returns (answered: seq<nat>)
      requires Consistent(Value())
      modifies this
      ensures Value() == Finish(old(Value()), result) && Consistent(Value())
      ensures answered == FinishAnswers(old(Value()))
    {
      hide Consistent, WaitersOf;
      assert Consistent(Finish(Value(), result)) by { FinishKeepsConsistent(Value(), result); }
      terminal := Some(result);
      answered, flushWaiters := flushWaiters, [];
      while queue != []
        invariant answered + WaitersOf(queue) == FinishAnswers(old(Value()))
        invariant Value() == Finish(old(Value()), result).(queue := queue)
        decreases |queue|
      {
        AnswerFirst(answered, queue);
        if queue[0].Flush? {
          answered := answered + [queue[0].waiter];
        }
        queue := queue[1..];
      }
      assert WaitersOf([]) == [] by { NoWaiters(); }
    }

    method PopCommand() returns (command: Option<Command>)
      requires Consistent(Value())
      modifies this`queue
      ensures (Value(), command) == Pop(old(Value())) && Consistent(Value())
    {
      if terminal.Some? || flushBlocked || queue == [] {
        return None;
      }
      command := Some(queue[0]);
      queue := queue[1..];
    }

    method InsertInFlight(data: Command)
      requires Consistent(Value()) && data.Data?
      modifies this
      ensures Value() == Insert(old(Value()), data) && Consistent(Value())
    {
      InsertKeepsConsistent(Value(), data);
      var prior := if data.pointer in inFlight then inFlight[data.pointer] else [];
      inFlight := inFlight[data.pointer := prior + [Write(data.serial, data.eos)]];
      inFlightCount := inFlightCount + 1;
    }

    method AnswerOrBlock(waiter: nat) returns (answered: bool)
      requires Consistent(Value()) && !flushBlocked
      modifies this
      ensures (Value(), answered) == SettleFlush(old(Value()), waiter) && Consistent(Value())
    {
      if inFlightCount == 0 {
        answered := true;
      } else {
        flushBlocked := true;
        flushWaiters := flushWaiters + [waiter];
        answered := false;
      }
    }
  }
}
