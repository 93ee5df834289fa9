/**
 The read half of a bidirectional stream: `start_read`, native reads, the tasks
 that forward chunks, the end-of-stream events of a zero-length read and of a
 terminal callback, and the application's polls.

 Native code is assumed to report response headers once, to complete each
 accepted read at most once, and to call nothing after a terminal callback.
 */
module StreamReads {
  import opened Base

  datatype Event = Chunk(bytes: Bytes) | Fault(error: Error) | Eof

  /** The application's side: buffered chunk, channel, whether every sender is
      gone, and whether an end has been met. */
  datatype Reader = Reader(current: Bytes, channel: seq<Event>, closed: bool, readEof: bool)

  datatype Poll = Filled(bytes: Bytes) | PollFailed(error: Error) | End | Pending

  /** A spawned forwarder: about to send, or about to call `start_read`. */
  datatype Task = Sending(chunk: Bytes) | Resuming

  /** Whether a native read is in flight and whether one came back empty. */
  datatype ReadState = ReadState(inFlight: bool, eof: bool, size: nat)

  /** Tasks about to call `start_read` for the headers, reads that native code
      holds, forwarders, and spawned senders of a last event. */
  datatype Io = Io(starters: nat, outstanding: nat, tasks: seq<Task>, enders: seq<Event>)

  datatype Status = Status(headered: bool, done: bool, pendingError: Option<Error>)

  /** History: chunks accepted, bytes taken, and whether native code reported
      success while a forwarder had a chunk in hand; the errors handed to the
      application, and with what error, if any, the stream ended. */
  datatype Log = Log(accepted: Bytes, taken: Bytes, early: bool, told: seq<Error>, outcome: Option<Option<Error>>)

  datatype Sys = Sys(capacity: nat, status: Status, read: ReadState, io: Io, app: Reader, alive: bool, log: Log)

  datatype Action =
    | Headers
    | Starter(rejected: Option<nat>)
    | ReadCompleted(count: int, data: Option<Bytes>)
    | Send(task: nat)
    | SendRefused(task: nat)
    | Resume(task: nat, rejected: Option<nat>)
    | Terminal(fallback: Option<Error>)
    | SendLast(index: nat)
    | CloseSenders
    | AppReads(room: nat)
    | AppNext
    | AppDrops

  function Init(capacity: nat, size: nat): Sys {
    Sys(capacity, Status(false, false, None), ReadState(false, false, size), Io(0, 0, [], []),
        Reader([], [], false, false), true, Log([], [], false, [], None))
  }

  // ---------- The application's polls ----------

  function PollRead(r: Reader, room: nat): (Reader, Poll)
    decreases |r.channel|
  {
    if r.current != [] then
      var count := Min(|r.current|, room);
      (r.(current := r.current[count..]), Filled(r.current[..count]))
    else if r.readEof then (r, End)
    else if r.channel == [] then if r.closed then (r.(readEof := true), End) else (r, Pending)
    else
      var rest := r.(channel := r.channel[1..]);
      match r.channel[0]
      case Chunk(bytes) => PollRead(rest.(current := bytes), room)
      case Fault(error) => (rest, PollFailed(error))
      case Eof => (rest.(readEof := true), End)
  }

  function PollNext(r: Reader): (Reader, Poll) {
    if r.current != [] then (r.(current := []), Filled(r.current))
    else if r.readEof then (r, End)
    else if r.channel == [] then if r.closed then (r.(readEof := true), End) else (r, Pending)
    else
      var rest := r.(channel := r.channel[1..]);
      match r.channel[0]
      case Chunk(bytes) => (rest, Filled(bytes))
      case Fault(error) => (rest, PollFailed(error))
      case Eof => (rest.(readEof := true), End)
  }

  function Given(p: Poll): Bytes {
    if p.Filled? then p.bytes else []
  }

  function PolledErrors(p: Poll): seq<Error> {
    if p.PollFailed? then [p.error] else []
  }

  function ChunkBytes(e: Event): Bytes {
    if e.Chunk? then e.bytes else []
  }

  function ChunksOf(channel: seq<Event>): Bytes {
    if channel == [] then [] else ChunkBytes(channel[0]) + ChunksOf(channel[1..])
  }

  function Rest(r: Reader): Bytes {
    r.current + ChunksOf(r.channel)
  }

  /** No chunk stands behind an end of the stream. */
  predicate EndsLast(channel: seq<Event>) {
    forall i, j :: 0 <= i < j < |channel| && channel[i].Eof? ==> !channel[j].Chunk?
  }

  lemma {:induction false} ChunksOfConcat(a: seq<Event>, b: seq<Event>)
    ensures ChunksOf(a + b) == ChunksOf(a) + ChunksOf(b)
  {
    hide ChunkBytes;
    if a == [] {
      assert a + b == b;
    } else {
      ChunksOfConcat(a[1..], b);
      assert (a + b)[1..] == a[1..] + b;
      assert ChunksOf(a + b) == ChunkBytes(a[0]) + ChunksOf(a[1..] + b);
    }
  }

  lemma {:induction false} NoChunks(channel: seq<Event>)
    requires forall e :: e in channel ==> !e.Chunk?
    ensures ChunksOf(channel) == []
  {
    if channel != [] {
      assert forall e :: e in channel[1..] ==> e in channel;
      NoChunks(channel[1..]);
    }
  }

  /** Bytes are handed out in order and none is lost. */
  lemma {:induction false} PollReadConserves(r: Reader, room: nat)
    ensures Given(PollRead(r, room).1) + Rest(PollRead(r, room).0) == Rest(r)
    ensures |Given(PollRead(r, room).1)| <= room
    decreases |r.channel|
  {
    if r.current != [] {
      var count := Min(|r.current|, room);
      assert r.current == r.current[..count] + r.current[count..];
    } else if !r.readEof && r.channel != [] && r.channel[0].Chunk? {
      PollReadConserves(r.(channel := r.channel[1..], current := r.channel[0].bytes), room);
    }
  }

  lemma PollNextConserves(r: Reader)
    ensures Given(PollNext(r).1) + Rest(PollNext(r).0) == Rest(r)
  {
  }

  /** What a poll leaves alone. */
  predicate Kept(r: Reader, t: Reader) {
    && t.closed == r.closed && |t.channel| <= |r.channel| && (EndsLast(r.channel) ==> EndsLast(t.channel))
    && (forall e :: e in t.channel ==> e in r.channel)
    && (r.readEof ==> t.readEof && t.channel == r.channel && (r.current == [] ==> t.current == []))
  }

  /** A poll that meets the end meets one that was there, and nothing is left. */
  predicate Met(r: Reader, t: Reader) {
    t.readEof && !r.readEof && EndsLast(r.channel) ==>
      t.current == [] && ChunksOf(t.channel) == [] && (Eof in r.channel || r.closed)
  }

  lemma Shorter(channel: seq<Event>)
    requires channel != []
    ensures EndsLast(channel) ==> EndsLast(channel[1..])
    ensures forall e :: e in channel[1..] ==> e in channel
    ensures EndsLast(channel) && channel[0].Eof? ==> ChunksOf(channel[1..]) == []
  {
    if EndsLast(channel) && channel[0].Eof? {
      NoChunks(channel[1..]);
    }
  }

  lemma {:induction false} PollReadMeets(r: Reader, room: nat)
    ensures Kept(r, PollRead(r, room).0) && Met(r, PollRead(r, room).0)
    decreases |r.channel|
  {
    hide EndsLast, ChunksOf;
    if r.current == [] && !r.readEof {
      if r.channel != [] {
        Shorter(r.channel);
        if r.channel[0].Chunk? {
          PollReadMeets(r.(channel := r.channel[1..], current := r.channel[0].bytes), room);
        }
      } else {
        assert ChunksOf(r.channel) == [] by { NoChunks(r.channel); }
      }
    }
  }

  lemma PollNextMeets(r: Reader)
    ensures Kept(r, PollNext(r).0) && Met(r, PollNext(r).0)
  {
    hide EndsLast, ChunksOf;
    if r.current == [] && !r.readEof {
      if r.channel != [] {
        Shorter(r.channel);
      } else {
        assert ChunksOf(r.channel) == [] by { NoChunks(r.channel); }
      }
    }
  }

  class BidirectionalStream {
    var current: Bytes
    var channel: seq<Event>
    var closed: bool
    var readEof: bool

    ghost function Value(): Reader
      reads this
    {
      Reader(current, channel, closed, readEof)
    }

    constructor ()
      ensures Value() == Reader([], [], false, false)
    {
      current, channel, closed, readEof := [], [], false, false;
    }

    method PollReadInto(room: nat) returns (poll: Poll)
      modifies this
      ensures (Value(), poll) == PollRead(old(Value()), room)
      ensures Given(poll) + Rest(Value()) == old(Rest(Value()))
    {
      PollReadConserves(Value(), room);
      while true
        invariant PollRead(Value(), room) == PollRead(old(Value()), room)
        decreases |channel|
      {
        if current != [] {
          var count := Min(|current|, room);
          poll := Filled(current[..count]);
          current := current[count..];
          return;
        }
        if readEof {
          return End;
        }
        if channel == [] {
          if !closed {
            return Pending;
          }
          readEof := true;
          return End;
        }
        var event := channel[0];
        channel := channel[1..];
        match event {
          case Chunk(bytes) =>
            current := bytes;
          case Fault(error) =>
            return PollFailed(error);
          case Eof =>
            readEof := true;
            return End;
        }
      }
    }

    method PollNextChunk() returns (poll: Poll)
      modifies this
      ensures (Value(), poll) == PollNext(old(Value()))
      ensures Given(poll) + Rest(Value()) == old(Rest(Value()))
    {
      PollNextConserves(Value());
      if current != [] {
        poll := Filled(current);
        current := [];
        return;
      }
      if readEof {
        return End;
      }
      if channel == [] {
        if !closed {
          return Pending;
        }
        readEof := true;
        return End;
      }
      var event := channel[0];
      channel := channel[1..];
      match event {
        case Chunk(bytes) =>
          poll := Filled(bytes);
        case Fault(error) =>
          poll := PollFailed(error);
        case Eof =>
          readEof := true;
          poll := End;
      }
    }
  }

  // ---------- Steps ----------

  function Record(pending: Option<Error>, error: Error): Option<Error> {
    if pending.Some? then pending else Some(error)
  }

  /** `start_read`: nothing after the end, and never a second read. The result says
      whether native code now holds a read. */
  function Issue(read: ReadState, done: bool, pending: Option<Error>, rejected: Option<nat>): (ReadState, Option<Error>, bool) {
    if done || read.inFlight || read.eof then (read, pending, false)
    else
      match rejected
      case None => (read.(inFlight := true), pending, true)
      case Some(code) => (read, Record(pending, Other(code)), false)
  }

  /** A completed read: the event that a task is to send, unless it is an error. */
  function Digest(read: ReadState, pending: Option<Error>, count: int, data: Option<Bytes>): (ReadState, Option<Error>, Option<Event>)
    requires data.Some? ==> |data.value| == read.size
  {
    var landed := read.(inFlight := false);
    if count < 0 || count > read.size || (count != 0 && data.None?) then (landed, Record(pending, Other(0)), None)
    else if count == 0 then (landed.(eof := true), pending, Some(Eof))
    else (landed, pending, Some(Chunk(data.value[..count])))
  }

  predicate Enabled(s: Sys, a: Action) {
    match a
    case Headers => !s.status.headered && !s.status.done
    case Starter(_) => s.io.starters > 0
    case ReadCompleted(_, data) => s.io.outstanding > 0 && (data.Some? ==> |data.value| == s.read.size)
    case Send(i) => i < |s.io.tasks| && s.io.tasks[i].Sending? && s.alive && |s.app.channel| < s.capacity
    case SendRefused(i) => i < |s.io.tasks| && s.io.tasks[i].Sending? && !s.alive
    case Resume(i, _) => i < |s.io.tasks| && s.io.tasks[i].Resuming?
    case Terminal(_) => true
    case SendLast(i) => i < |s.io.enders| && (s.alive ==> |s.app.channel| < s.capacity)
    case CloseSenders => s.status.done && s.io.tasks == [] && s.io.enders == [] && s.io.starters == 0
    case AppReads(_) => s.alive
    case AppNext => s.alive
    case AppDrops => s.alive
  }

  function StartRead(s: Sys, rejected: Option<nat>): Sys {
    var (read, pending, issued) := Issue(s.read, s.status.done, s.status.pendingError, rejected);
    s.(read := read, status := s.status.(pendingError := pending),
       io := if issued then s.io.(outstanding := s.io.outstanding + 1) else s.io)
  }

  function Completed(s: Sys, count: int, data: Option<Bytes>): Sys
    requires s.io.outstanding > 0 && (data.Some? ==> |data.value| == s.read.size)
  {
    var (read, pending, event) := Digest(s.read, s.status.pendingError, count, data);
    var t := s.(read := read, status := s.status.(pendingError := pending),
                io := s.io.(outstanding := s.io.outstanding - 1));
    match event
    case Some(Chunk(chunk)) =>
      t.(io := t.io.(tasks := t.io.tasks + [Sending(chunk)]), log := t.log.(accepted := t.log.accepted + chunk))
    case Some(last) => t.(io := t.io.(enders := t.io.enders + [last]))
    case None => t
  }

  /** The chunk being forwarded; there is never more than one. */
  function InHand(tasks: seq<Task>): Bytes {
    if tasks != [] && tasks[0].Sending? then tasks[0].chunk else []
  }

  function Ended(s: Sys, fallback: Option<Error>): Sys {
    if s.status.done then s
    else
      var error := if s.status.pendingError.Some? then s.status.pendingError else fallback;
      var last := if error.Some? then Fault(error.value) else Eof;
      s.(status := s.status.(done := true, pendingError := None),
         io := s.io.(outstanding := 0, enders := s.io.enders + [last]),
         log := s.log.(early := s.log.early || (last.Eof? && InHand(s.io.tasks) != []), outcome := Some(error)))
  }

  function Push(s: Sys, e: Event): Sys {
    s.(app := s.app.(channel := s.app.channel + [e]))
  }

  function Apply(s: Sys, a: Action): Sys
    requires Enabled(s, a)
  {
    match a
    case Headers => s.(status := s.status.(headered := true), io := s.io.(starters := s.io.starters + 1))
    case Starter(rejected) => StartRead(s.(io := s.io.(starters := s.io.starters - 1)), rejected)
    case ReadCompleted(count, data) => Completed(s, count, data)
    case Send(i) => Push(s, Chunk(s.io.tasks[i].chunk)).(io := s.io.(tasks := s.io.tasks[i := Resuming]))
    case SendRefused(i) =>
      s.(status := s.status.(pendingError := Record(s.status.pendingError, Canceled)), io := s.io.(tasks := RemoveAt(s.io.tasks, i)))
    case Resume(i, rejected) => StartRead(s.(io := s.io.(tasks := RemoveAt(s.io.tasks, i))), rejected)
    case Terminal(fallback) => Ended(s, fallback)
    case SendLast(i) =>
      var t := s.(io := s.io.(enders := RemoveAt(s.io.enders, i)));
      if s.alive then Push(t, s.io.enders[i]) else t
    case CloseSenders => s.(app := s.app.(closed := true))
    case AppReads(room) =>
      var (app, poll) := PollRead(s.app, room);
      s.(app := app, log := s.log.(taken := s.log.taken + Given(poll), told := s.log.told + PolledErrors(poll)))
    case AppNext =>
      var (app, poll) := PollNext(s.app);
      s.(app := app, log := s.log.(taken := s.log.taken + Given(poll), told := s.log.told + PolledErrors(poll)))
    case AppDrops => s.(alive := false, app := s.app.(current := [], channel := []))
  }

  /** What `start_read` and a completed read do to the locked read state. */
  class ReadSide {
    const size: nat
    var inFlight: bool
    var eof: bool
    var pendingError: Option<Error>

    constructor (size: nat)
      ensures this.size == size && !inFlight && !eof && pendingError.None?
    {
      this.size := size;
      inFlight, eof, pendingError := false, false, None;
    }

    ghost function Value(): ReadState
      reads this
    {
      ReadState(inFlight, eof, size)
    }

    method RecordFirst(error: Error)
      modifies this`pendingError
      ensures pendingError == Record(old(pendingError), error)
    {
      if pendingError.None? {
        pendingError := Some(error);
      }
    }

    method Start(done: bool, rejected: Option<nat>) returns (issued: bool)
      modifies this`inFlight, this`pendingError
      ensures (Value(), pendingError, issued) == Issue(old(Value()), done, old(pendingError), rejected)
      ensures issued <==> !done && !old(inFlight) && !eof && rejected.None?
    {
      issued := false;
      if done {
        return;
      }
      if inFlight || eof {
        return;
      }
      inFlight := true;
      match rejected {
        case None =>
          issued := true;
        case Some(code) =>
          inFlight := false;
          RecordFirst(Other(code));
      }
    }

    method Complete(count: int, data: Option<Bytes>) returns (event: Option<Event>)
      requires data.Some? ==> |data.value| == size
      modifies this
      ensures (Value(), pendingError, event) == Digest(old(Value()), old(pendingError), count, data)
      ensures event.None? <==> count < 0 || count > size || (count != 0 && data.None?)
      ensures event == Some(Eof) <==> count == 0
      ensures event.Some? && count > 0 ==>
        event.value.Chunk? && |event.value.bytes| == count <= size
        && forall i :: 0 <= i < count ==> event.value.bytes[i] == data.value[i]
    {
      inFlight := false;
      if count < 0 || count > size || (count != 0 && data.None?) {
        RecordFirst(Other(0));
        return None;
      }
      if count == 0 {
        eof := true;
        return Some(Eof);
      }
      event := Some(Chunk(data.value[..count]));
    }
  }

  // ---------- The invariant ----------

  predicate PumpInv(status: Status, read: ReadState, io: Io) {
    && io.starters + io.outstanding + |io.tasks| <= 1
    && (!status.headered || read.eof ==> io.starters + io.outstanding + |io.tasks| == 0)
    && (read.eof ==> status.headered)
    && (io.outstanding > 0 ==> read.inFlight && !status.done)
    && (read.inFlight && !status.done ==> io.outstanding > 0)
    && (forall e :: e in io.enders ==> !e.Chunk?)
    && (forall k :: k in io.tasks && k.Sending? ==> k.chunk != [])
  }

  predicate FlowInv(io: Io, app: Reader, alive: bool, log: Log) {
    alive ==> log.taken + Rest(app) + InHand(io.tasks) == log.accepted
  }

  predicate ChannelInv(capacity: nat, status: Status, io: Io, app: Reader) {
    && |app.channel| <= capacity
    && (app.closed ==> status.done && io.starters == 0 && io.tasks == [] && io.enders == [])
  }

  /** No further chunk can come: a read came back empty, or the stream is done and
      no forwarder has a chunk. */
  predicate Over(eof: bool, done: bool, tasks: seq<Task>) {
    eof || (done && InHand(tasks) == [])
  }

  /** Unless a success overtook a chunk, an end event means that no chunk is to come. */
  predicate EndInv(over: bool, done: bool, enders: seq<Event>, app: Reader, early: bool) {
    if early then done
    else
      && EndsLast(app.channel)
      && (Eof in app.channel || Eof in enders ==> over)
      && (app.readEof ==> app.current == [] && ChunksOf(app.channel) == [] && (over || app.closed))
  }

  predicate Inv(s: Sys) {
    && PumpInv(s.status, s.read, s.io)
    && FlowInv(s.io, s.app, s.alive, s.log)
    && ChannelInv(s.capacity, s.status, s.io, s.app)
    && EndInv(Over(s.read.eof, s.status.done, s.io.tasks), s.status.done, s.io.enders, s.app, s.log.early)
  }

  lemma PumpKept(s: Sys, a: Action)
    requires Inv(s) && Enabled(s, a)
    ensures PumpInv(Apply(s, a).status, Apply(s, a).read, Apply(s, a).io)
  {
    hide FlowInv, ChannelInv, EndInv, PollRead, PollNext;
  }

  lemma ChannelKept(s: Sys, a: Action)
    requires Inv(s) && Enabled(s, a)
    ensures ChannelInv(s.capacity, Apply(s, a).status, Apply(s, a).io, Apply(s, a).app)
  {
    hide FlowInv, EndInv, PollRead, PollNext, EndsLast;
    if a.AppReads? {
      PollReadMeets(s.app, a.room);
    } else if a.AppNext? {
      PollNextMeets(s.app);
    }
  }

  lemma OneEvent(e: Event)
    ensures ChunksOf([e]) == ChunkBytes(e)
  {
    assert ChunksOf([]) == [];
  }

  lemma PushRest(app: Reader, e: Event)
    ensures Rest(app.(channel := app.channel + [e])) == Rest(app) + ChunkBytes(e)
  {
    ChunksOfConcat(app.channel, [e]);
    OneEvent(e);
  }

  lemma RestClosed(app: Reader)
    ensures Rest(app.(closed := true)) == Rest(app)
  {
  }

  lemma FlowKept(s: Sys, a: Action)
    requires Inv(s) && Enabled(s, a)
    ensures FlowInv(Apply(s, a).io, Apply(s, a).app, Apply(s, a).alive, Apply(s, a).log)
  {
    hide ChannelInv, EndInv, PollRead, PollNext, Rest;
    var t := Apply(s, a);
    match a {
      case Send(i) =>
        PushRest(s.app, Chunk(s.io.tasks[i].chunk));
        assert s.log.taken + (Rest(s.app) + s.io.tasks[i].chunk) + [] == s.log.taken + Rest(s.app) + s.io.tasks[i].chunk;
      case SendLast(i) => PushRest(s.app, s.io.enders[i]);
      case CloseSenders => RestClosed(s.app);
      case AppReads(room) =>
        PollReadConserves(s.app, room);
        assert s.log.taken + Given(PollRead(s.app, room).1) + Rest(t.app) == s.log.taken + Rest(s.app);
      case AppNext =>
        PollNextConserves(s.app);
        assert s.log.taken + Given(PollNext(s.app).1) + Rest(t.app) == s.log.taken + Rest(s.app);
      case _ =>
    }
  }

  lemma PushEnds(channel: seq<Event>, e: Event)
    requires EndsLast(channel) && (e.Chunk? ==> Eof !in channel)
    ensures EndsLast(channel + [e])
    ensures ChunksOf(channel + [e]) == ChunksOf(channel) + ChunkBytes(e)
  {
    ChunksOfConcat(channel, [e]);
    OneEvent(e);
  }

  lemma NoBytes(e: Event)
    requires !e.Chunk?
    ensures ChunkBytes(e) == []
  {
  }

  /** Once no chunk is to come, none ever is. */
  lemma OverKept(s: Sys, a: Action)
    requires Inv(s) && Enabled(s, a) && Over(s.read.eof, s.status.done, s.io.tasks)
    ensures Over(Apply(s, a).read.eof, Apply(s, a).status.done, Apply(s, a).io.tasks)
    ensures !a.Send?
  {
    hide FlowInv, ChannelInv, EndInv, PollRead, PollNext;
  }

  lemma EndKept(s: Sys, a: Action)
    requires Inv(s) && Enabled(s, a)
    ensures EndInv(Over(Apply(s, a).read.eof, Apply(s, a).status.done, Apply(s, a).io.tasks),
                   Apply(s, a).status.done, Apply(s, a).io.enders, Apply(s, a).app, Apply(s, a).log.early)
  {
    hide FlowInv, PollRead, PollNext, EndsLast, ChunksOf, ChunkBytes;
    if Over(s.read.eof, s.status.done, s.io.tasks) {
      OverKept(s, a);
    }
    match a {
      case Send(i) =>
        if !s.log.early {
          PushEnds(s.app.channel, Chunk(s.io.tasks[i].chunk));
        }
      case SendLast(i) =>
        if !s.log.early {
          var e := s.io.enders[i];
          assert e in s.io.enders;
          PushEnds(s.app.channel, e);
          NoBytes(e);
          assert ChunksOf(s.app.channel) + [] == ChunksOf(s.app.channel);
        }
      case AppReads(room) => PollReadMeets(s.app, room);
      case AppNext => PollNextMeets(s.app);
      case AppDrops => NoEnds();
      case _ =>
    }
  }

  lemma NoEnds()
    ensures EndsLast([]) && ChunksOf([]) == []
  {
  }

  lemma StepKeepsInv(s: Sys, a: Action)
    requires Inv(s) && Enabled(s, a)
    ensures Inv(Apply(s, a))
    ensures Apply(s, a).capacity == s.capacity && Apply(s, a).read.size == s.read.size
  {
    PumpKept(s, a);
    ChannelKept(s, a);
    FlowKept(s, a);
    EndKept(s, a);
    hide PumpInv, ChannelInv, FlowInv, EndInv, PollRead, PollNext;
  }

  // ---------- Runs ----------

  ghost predicate Reaches(s: Sys, actions: seq<Action>, t: Sys)
    decreases |actions|
  {
    if actions == [] then s == t
    else Enabled(s, actions[0]) && Reaches(Apply(s, actions[0]), actions[1..], t)
  }

  ghost predicate Reachable(s: Sys) {
    exists actions :: Reaches(Init(s.capacity, s.read.size), actions, s)
  }

  lemma {:induction false} RunKeepsInv(s: Sys, actions: seq<Action>, t: Sys)
    requires Inv(s) && Reaches(s, actions, t)
    ensures Inv(t)
    decreases |actions|
  {
    hide Inv, Apply, Enabled;
    if actions != [] {
      StepKeepsInv(s, actions[0]);
      RunKeepsInv(Apply(s, actions[0]), actions[1..], t);
    }
  }

  lemma ReachableInv(s: Sys)
    requires Reachable(s)
    ensures Inv(s)
  {
    hide Inv;
    var actions :| Reaches(Init(s.capacity, s.read.size), actions, s);
    assert Inv(Init(s.capacity, s.read.size)) by { InitInv(s.capacity, s.read.size); }
    RunKeepsInv(Init(s.capacity, s.read.size), actions, s);
  }

  lemma InitInv(capacity: nat, size: nat)
    ensures Inv(Init(capacity, size))
  {
  }

  /** There is at most one native read, the flag says so, and none while a chunk
      is being forwarded or after a read came back empty. */
  lemma OneReadInFlight(s: Sys)
    requires Reachable(s)
    ensures s.io.outstanding <= 1 && |s.io.tasks| <= 1
    ensures s.io.outstanding > 0 ==> s.read.inFlight && !s.read.eof && s.io.tasks == []
  {
    hide FlowInv, ChannelInv, EndInv;
    ReachableInv(s);
  }

  /** While the receiver lives, what was taken, then what is buffered, then what
      is being forwarded, are the accepted reads in order. */
  lemma BytesAreConserved(s: Sys)
    requires Reachable(s) && s.alive
    ensures s.log.taken + s.app.current + ChunksOf(s.app.channel) + InHand(s.io.tasks) == s.log.accepted
  {
    hide PumpInv, ChannelInv, EndInv;
    ReachableInv(s);
    assert s.log.taken + s.app.current + ChunksOf(s.app.channel) == s.log.taken + Rest(s.app);
  }

  /** An application that has met the end of the stream has taken every accepted
      byte, unless native code reported success while a forwarder had a chunk in
      hand. */
  lemma EndMeansEverything(s: Sys)
    requires Reachable(s) && s.alive && s.app.readEof && !s.log.early
    ensures s.log.taken == s.log.accepted
  {
    ReachableInv(s);
    assert InHand(s.io.tasks) == [];
  }

  // ---------- The proviso is exact ----------

  lemma Steps(s: Sys, a: Action, actions: seq<Action>, t: Sys)
    requires Enabled(s, a) && Reaches(Apply(s, a), actions, t)
    ensures Reaches(s, [a] + actions, t)
  {
    hide Enabled, Apply;
    assert ([a] + actions)[1..] == actions;
  }

  /** The end is on its way, or met, while a forwarder has a chunk in hand. */
  predicate Overtaking(s: Sys) {
    s.alive && s.status.done && InHand(s.io.tasks) != [] && (Eof in s.io.enders || s.app.readEof)
    && (s.app.readEof ==> s.app.current == [])
  }

  function Backlog(r: Reader): nat {
    |r.channel| + (if r.current != [] then 1 else 0)
  }

  /** The application takes one more item of its backlog. */
  lemma TakeOne(s: Sys)
    requires Inv(s) && Overtaking(s) && !s.app.readEof && Backlog(s.app) > 0
    ensures Inv(Apply(s, AppNext)) && Overtaking(Apply(s, AppNext))
    ensures Backlog(Apply(s, AppNext).app) < Backlog(s.app) && Apply(s, AppNext).capacity == s.capacity
  {
    StepKeepsInv(s, AppNext);
    hide Inv;
  }

  /** With no backlog the end goes straight through. */
  lemma MeetTheEnd(s: Sys) returns (actions: seq<Action>, t: Sys)
    requires Inv(s) && Overtaking(s) && !s.app.readEof && Backlog(s.app) == 0 && s.capacity > 0
    ensures Reaches(s, actions, t) && Inv(t) && Overtaking(t) && t.app.readEof
  {
    var i :| 0 <= i < |s.io.enders| && s.io.enders[i] == Eof;
    var u := Apply(s, SendLast(i));
    assert u.app.channel == [Eof];
    t := Apply(u, AppNext);
    StepKeepsInv(s, SendLast(i));
    StepKeepsInv(u, AppNext);
    hide Inv;
    assert Reaches(t, [], t);
    Steps(u, AppNext, [], t);
    Steps(s, SendLast(i), [AppNext] + [], t);
    actions := [SendLast(i)] + ([AppNext] + []);
  }

  lemma {:induction false} Overtakes(s: Sys) returns (actions: seq<Action>, t: Sys)
    requires Inv(s) && Overtaking(s) && s.capacity > 0
    ensures Reaches(s, actions, t) && Inv(t) && Overtaking(t) && t.app.readEof
    decreases Backlog(s.app)
  {
    hide Inv, Apply, Overtaking;
    if s.app.readEof {
      actions, t := [], s;
    } else if Backlog(s.app) == 0 {
      actions, t := MeetTheEnd(s);
    } else {
      TakeOne(s);
      assert s.alive by { OvertakingIsAlive(s); }
      actions, t := Overtakes(Apply(s, AppNext));
      Steps(s, AppNext, actions, t);
      actions := [AppNext] + actions;
    }
  }

  lemma OvertakingIsAlive(s: Sys)
    requires Overtaking(s)
    ensures s.alive
  {
  }

  /** The application has met the end and lacks accepted bytes. */
  predicate Truncated(s: Sys) {
    s.app.readEof && s.app.current == [] && |s.log.taken| < |s.log.accepted|
  }

  lemma TruncatedStep(s: Sys, a: Action)
    requires Truncated(s) && Enabled(s, a)
    ensures Truncated(Apply(s, a))
  {
  }

  /** What is lost then is lost for good. */
  lemma {:induction false} TruncatedStays(s: Sys, actions: seq<Action>, t: Sys)
    requires Truncated(s) && Reaches(s, actions, t)
    ensures Truncated(t)
    decreases |actions|
  {
    hide Truncated, Apply, Enabled;
    if actions != [] {
      TruncatedStep(s, actions[0]);
      TruncatedStays(Apply(s, actions[0]), actions[1..], t);
    }
  }

  /** Whenever native code reports success while a forwarder has a chunk in hand,
      and no error was recorded, some continuation loses bytes, for ever. */
  lemma EarlySuccessTruncates(s: Sys) returns (actions: seq<Action>, t: Sys)
    requires Reachable(s) && s.alive && s.capacity > 0
    requires !s.status.done && s.status.pendingError.None? && InHand(s.io.tasks) != []
    ensures Apply(s, Terminal(None)).log.early
    ensures Reaches(Apply(s, Terminal(None)), actions, t) && t.alive && Truncated(t)
  {
    ReachableInv(s);
    StepKeepsInv(s, Terminal(None));
    var u := Apply(s, Terminal(None));
    assert u.io.enders == s.io.enders + [Eof] && Eof in u.io.enders;
    assert !s.app.readEof by {
      hide FlowInv;
    }
    hide Inv;
    actions, t := Overtakes(u);
    assert |t.log.taken| < |t.log.accepted| by { ShortOfHand(t); }
  }

  lemma ShortOfHand(s: Sys)
    requires Inv(s) && Overtaking(s)
    ensures |s.log.taken| < |s.log.accepted|
  {
    hide PumpInv, ChannelInv, EndInv, Rest;
  }

  lemma {:induction false} Extend(s: Sys, actions: seq<Action>, t: Sys, a: Action)
    requires Reaches(s, actions, t) && Enabled(t, a)
    ensures Reaches(s, actions + [a], Apply(t, a))
    decreases |actions|
  {
    hide Enabled, Apply;
    if actions == [] {
      assert [a][1..] == [];
    } else {
      Extend(Apply(s, actions[0]), actions[1..], t, a);
      assert (actions + [a])[1..] == actions[1..] + [a];
    }
  }

  lemma Then(s: Sys, a: Action) returns (t: Sys)
    requires Reachable(s) && Enabled(s, a)
    ensures t == Apply(s, a) && Reachable(t)
  {
    t := Apply(s, a);
    assert t.capacity == s.capacity && t.read.size == s.read.size;
    hide Enabled, Apply;
    var actions :| Reaches(Init(s.capacity, s.read.size), actions, s);
    Extend(Init(s.capacity, s.read.size), actions, s, a);
  }

  lemma InitReachable(capacity: nat, size: nat)
    ensures Reachable(Init(capacity, size))
  {
    var s := Init(capacity, size);
    assert Reaches(Init(s.capacity, s.read.size), [], s);
  }

  /** Any chunk that fits the read buffer can be in a forwarder's hand. */
  lemma ChunkInHand(capacity: nat, data: Bytes) returns (s: Sys)
    requires data != []
    ensures Reachable(s) && s.capacity == capacity && s.alive && !s.status.done && s.status.pendingError.None?
    ensures InHand(s.io.tasks) == data
  {
    s := Init(capacity, |data|);
    InitReachable(capacity, |data|);
    hide Reachable;
    s := Then(s, Headers);
    s := Then(s, Starter(None));
    s := Then(s, ReadCompleted(|data|, Some(data)));
    assert data[..|data|] == data;
  }
}
