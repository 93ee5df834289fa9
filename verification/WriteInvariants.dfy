/** What every step of the write pipeline keeps. */
module WriteInvariants {
  import opened Base
  import opened WriteState
  import opened WriteProtocol

  /** Data the writer has popped and not yet put in flight. */
  function Held(writer: Writer): seq<Command> {
    if writer.Holding? && writer.command.Data? then [writer.command] else []
  }

  /** How much of the log has gone through the writer's hand. */
  function Through(log: Log, writer: Writer): int {
    log.popped - (if writer.Holding? then 1 else 0)
  }

  /** The commands the writer has dealt with, the held one excepted. */
  function Taken(log: Log, writer: Writer): seq<Command> {
    var n := Through(log, writer);
    if 0 <= n <= |log.commands| then log.commands[..n] else []
  }

  /** The commands that have left the queue. */
  function Left(log: Log): seq<Command> {
    if log.base <= |log.commands| then log.commands[..log.base] else []
  }

  /** The flush waiter in the writer's hand. */
  function InHand(writer: Writer): Option<nat> {
    match writer
    case Holding(Flush(k)) => Some(k)
    case FlushIssued(k) => Some(k)
    case _ => None
  }

  /** The command the writer popped last, while it still works on it. */
  function Hand(writer: Writer): Option<Command> {
    match writer
    case Holding(c) => Some(c)
    case Inserted(c) => Some(c)
    case FlushIssued(k) => Some(Flush(k))
    case _ => None
  }

  /** The last write in flight may be one that native code never accepted. */
  predicate TailOpen(writer: Writer) {
    writer.Inserted? || writer.Failing? || writer.Exited?
  }

  ghost predicate Answered(answers: seq<Answer>, k: nat) {
    exists i :: 0 <= i < |answers| && answers[i].waiter == k
  }

  predicate NotifyDue(y: Sync) {
    NotifyOne in y.duties || NotifyThenWake in y.duties || WakeThenNotifyAll in y.duties || NotifyAll in y.duties
  }

  predicate WakeDue(y: Sync) {
    NotifyThenWake in y.duties || Wake in y.duties || WakeThenNotifyAll in y.duties
  }

  /** A writer that captured generation `g` will wake. */
  predicate Signalled(y: Sync, g: nat) {
    y.permit || y.gen != g || NotifyDue(y)
  }

  /** Something `write_loop` would act on, once the stream is ready. */
  predicate WorkForWriter(w: State) {
    w.terminal.Some? || (!w.flushBlocked && w.queue != [])
  }

  /** Data items queued, in the writer's hand or in flight. */
  function Buffered(s: Sys): nat {
    Occupied(s.w) + |Held(s.writer)|
  }

  // ---------- The invariant, by concern ----------

  ghost predicate LogInv(queue: seq<Command>, open: bool, log: Log) {
    && log.popped <= log.base <= |log.commands|
    && (forall k :: 0 <= k < |log.commands| ==> Token(log.commands[k]) == k)
    && queue == log.commands[log.base..]
    && (open ==> log.popped == log.base)
  }

  ghost predicate HandInv(log: Log, hand: Option<Command>) {
    hand.Some? ==> 0 < log.popped <= |log.commands| && hand.value == log.commands[log.popped - 1]
  }

  function Entry(c: Command, p: nat): seq<Write> {
    if c.Data? && c.pointer == p then [Write(c.serial, c.eos)] else []
  }

  function Entries(flight: seq<Command>, p: nat): seq<Write> {
    if flight == [] then [] else Entry(flight[0], p) + Entries(flight[1..], p)
  }

  /** The per-pointer map holds exactly `flight`, grouped by pointer. */
  ghost predicate Groups(m: map<nat, seq<Write>>, flight: seq<Command>) {
    forall p :: Entries(flight, p) == if p in m then m[p] else []
  }

  /** Only the last write in flight may still be unknown to native code. */
  ghost predicate FlightInv(m: map<nat, seq<Write>>, count: nat, f: Flights, tailOpen: bool) {
    && Groups(m, f.current)
    && |f.current| == count
    && (forall c :: c in f.current ==> c.Data?)
    && (forall i :: 0 <= i < |f.current| ==>
          (f.current[i].serial in f.submitted
              || (tailOpen && i == |f.current| - 1)))
  }

  ghost predicate OrderInv(taken: seq<Command>, f: Flights) {
    && (forall j :: 0 <= j < |taken| ==> Token(taken[j]) == j)
    && f.inserted == DataOf(taken)
    && (forall c :: c in f.current ==> c.Data? && c.serial < |taken| && taken[c.serial] == c)
    && (forall j :: 0 <= j < |taken| && taken[j].Data? ==> j in f.completed || taken[j] in f.current)
    && f.completed <= f.submitted
  }

  ghost predicate EosInv(commands: seq<Command>, closed: bool) {
    && (forall i, j :: 0 <= i < j < |commands| && commands[i].Data? && commands[i].eos ==> commands[j].Flush?)
    && (forall i :: 0 <= i < |commands| && commands[i].Data? && commands[i].eos ==> closed)
  }

  ghost predicate ProducerInv(t: Task, buffered: nat, capacity: nat, y: Sync) {
    && (t.at.Registered? && !t.woken ==> t.waker)
    && (t.at.Parked? && !t.woken ==> t.waker && (buffered >= capacity || WakeDue(y)))
  }

  ghost predicate WriterInv(writer: Writer, y: Sync, work: bool, open: bool) {
    && (writer.AtReady? || writer.AtPop? || writer.AtTerminalCheck? || writer.Awaiting? ==> writer.gen <= y.gen)
    && (writer.Awaiting? && y.ready && work ==> Signalled(y, writer.gen))
    && (writer.AtTerminalCheck? && open && work ==> Signalled(y, writer.gen))
    && (!y.ready ==> writer.Top? || writer.AtReady? || writer.Awaiting?)
  }

  /** Each flush that left the queue is in exactly one place. */
  ghost predicate WaiterInv(left: seq<Command>, waiting: seq<nat>, answers: seq<Answer>, hand: Option<nat>) {
    && (forall x :: x in waiting ==>
          x < |left| && left[x].Flush? && hand != Some(x) && !Answered(answers, x))
    && (forall i :: 0 <= i < |answers| ==>
          answers[i].waiter < |left| && left[answers[i].waiter].Flush? && hand != Some(answers[i].waiter))
    && (forall i, j :: 0 <= i < j < |answers| ==> answers[i].waiter != answers[j].waiter)
    && (forall k :: 0 <= k < |left| && left[k].Flush? ==> hand == Some(k) || k in waiting || Answered(answers, k))
  }

  /** Every data item accepted before command `k` has been completed. */
  ghost predicate CompletedBefore(commands: seq<Command>, completed: set<nat>, k: nat) {
    forall j :: 0 <= j < k && j < |commands| && commands[j].Data? ==> j in completed
  }

  ghost predicate BarrierInv(commands: seq<Command>, completed: set<nat>, answers: seq<Answer>) {
    forall i :: 0 <= i < |answers| && answers[i].how.Barrier? ==>
      answers[i].waiter < |commands| && CompletedBefore(commands, completed, answers[i].waiter)
  }

  ghost predicate Inv(s: Sys) {
    && Consistent(s.w)
    && (s.writer.Holding? || s.writer.FlushIssued? ==> !s.w.flushBlocked)
    && LogInv(s.w.queue, s.w.terminal.None?, s.log)
    && HandInv(s.log, Hand(s.writer))
    && FlightInv(s.w.inFlight, s.w.inFlightCount, s.flight, TailOpen(s.writer))
    && (s.writer.Inserted? ==> s.writer.command.Data?)
    && (s.writer.Inserted? ==>
          forall c :: c in s.flight.current ==> c.serial in s.flight.submitted || c == s.writer.command)
    && OrderInv(Taken(s.log, s.writer), s.flight)
    && EosInv(s.log.commands, s.w.localClosed)
    && Buffered(s) <= s.capacity + 1
    && ProducerInv(s.task, Buffered(s), s.capacity, s.sync)
    && WriterInv(s.writer, s.sync, WorkForWriter(s.w), s.w.terminal.None?)
    && WaiterInv(Left(s.log), s.w.flushWaiters, s.answers, InHand(s.writer))
    && (forall x :: x in s.w.flushWaiters ==> x < s.log.popped)
    && BarrierInv(s.log.commands, s.flight.completed, s.answers)
  }

  // ---------- Sequence facts ----------

  lemma {:induction false} EntriesConcat(a: seq<Command>, b: seq<Command>, p: nat)
    ensures Entries(a + b, p) == Entries(a, p) + Entries(b, p)
  {
    hide Entry;
    if a == [] {
      assert a + b == b;
    } else {
      EntriesConcat(a[1..], b, p);
      assert (a + b)[1..] == a[1..] + b;
      assert Entries(a + b, p) == Entry(a[0], p) + Entries(a[1..] + b, p);
    }
  }

  lemma {:induction false} EntriesNone(flight: seq<Command>, p: nat)
    requires forall i :: 0 <= i < |flight| ==> !(flight[i].Data? && flight[i].pointer == p)
    ensures Entries(flight, p) == []
  {
    if flight != [] {
      EntriesNone(flight[1..], p);
    }
  }

  lemma Shifted(s: seq<Command>, k: nat)
    requires k + 1 < |s|
    ensures s[..k + 1] == [s[0]] + s[1..][..k] && s[k + 2..] == s[1..][k + 1..]
  {
    var u, v := s[k + 2..], s[1..][k + 1..];
    assert |u| == |v| && forall i :: 0 <= i < |u| ==> u[i] == v[i];
  }

  /** `RemoveFirst` drops one element, the first one at `p`. */
  lemma {:induction false} RemoveFirstAt(flight: seq<Command>, p: nat, at: nat) returns (j: nat)
    requires at < |flight| && flight[at].Data? && flight[at].pointer == p
    ensures j <= at && flight[j].Data? && flight[j].pointer == p
    ensures forall i :: 0 <= i < j ==> !(flight[i].Data? && flight[i].pointer == p)
    ensures RemoveFirst(flight, p) == flight[..j] + flight[j + 1..]
  {
    if flight[0].Data? && flight[0].pointer == p {
      j := 0;
    } else {
      var rest := flight[1..];
      var k := RemoveFirstAt(rest, p, at - 1);
      j := k + 1;
      Shifted(flight, k);
      assert [flight[0]] + (rest[..k] + rest[k + 1..]) == flight[..j] + flight[j + 1..];
    }
  }

  lemma EntriesSplit(flight: seq<Command>, j: nat, q: nat)
    requires j < |flight|
    ensures Entries(flight, q) == Entries(flight[..j], q) + Entry(flight[j], q) + Entries(flight[j + 1..], q)
  {
    hide Entry;
    assert flight == flight[..j] + flight[j..];
    assert flight[j..][1..] == flight[j + 1..];
    EntriesConcat(flight[..j], flight[j..], q);
  }

  lemma EntriesRemoved(flight: seq<Command>, j: nat, q: nat)
    requires j < |flight| && flight[j].Data?
    requires forall i :: 0 <= i < j ==> !(flight[i].Data? && flight[i].pointer == flight[j].pointer)
    ensures Entries(flight, q) == Entry(flight[j], q) + Entries(flight[..j] + flight[j + 1..], q)
  {
    hide Entries;
    EntriesSplit(flight, j, q);
    EntriesConcat(flight[..j], flight[j + 1..], q);
    if q == flight[j].pointer {
      EntriesNone(flight[..j], q);
    } else {
      assert Entry(flight[j], q) == [];
    }
  }

  /** The waiters of a suffix of the log are its flush positions, each once. */
  lemma {:induction false} WaitersOfLog(log: seq<Command>, from: nat)
    requires from <= |log| && forall k :: 0 <= k < |log| ==> Token(log[k]) == k
    ensures forall x :: x in WaitersOf(log[from..]) <==> from <= x < |log| && log[x].Flush?
    ensures Distinct(WaitersOf(log[from..]))
    decreases |log| - from
  {
    if from < |log| {
      WaitersOfLog(log, from + 1);
      assert log[from..][1..] == log[from + 1..];
      if log[from].Flush? {
        assert WaitersOf(log[from..]) == [from] + WaitersOf(log[from + 1..]);
        assert from !in WaitersOf(log[from + 1..]);
      } else {
        assert WaitersOf(log[from..]) == WaitersOf(log[from + 1..]);
      }
    }
  }

  ghost predicate Distinct(s: seq<nat>) {
    forall i, j :: 0 <= i < j < |s| ==> s[i] != s[j]
  }
}
