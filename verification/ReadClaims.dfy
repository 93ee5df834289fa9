/** What the read half of a stream accepts, and which error it hands out. */
module ReadClaims {
  import opened Base
  import opened StreamReads

  // ---------- Bytes, errors and ends in one order ----------

  datatype Token = Octet(value: byte) | Told(error: Error) | Ended

  function Octets(s: Bytes): seq<Token> {
    if s == [] then [] else [Octet(s[0])] + Octets(s[1..])
  }

  function EventTokens(e: Event): seq<Token> {
    match e
    case Chunk(bytes) => Octets(bytes)
    case Fault(error) => [Told(error)]
    case Eof => [Ended]
  }

  function TokensOf(channel: seq<Event>): seq<Token> {
    if channel == [] then [] else EventTokens(channel[0]) + TokensOf(channel[1..])
  }

  function Tokens(r: Reader): seq<Token> {
    Octets(r.current) + TokensOf(r.channel)
  }

  lemma {:induction false} OctetsConcat(a: Bytes, b: Bytes)
    ensures Octets(a + b) == Octets(a) + Octets(b)
  {
    if a == [] {
      assert a + b == b;
    } else {
      OctetsConcat(a[1..], b);
      assert (a + b)[1..] == a[1..] + b;
    }
  }

  /** A poll hands out what comes next: bytes, which fill the buffer or use up a
      chunk, an error, or an end; it waits only when there is nothing. A reader
      that has met the end and has no byte left stays at the end. */
  predicate Serves(r: Reader, t: Reader, poll: Poll) {
    if r.readEof && r.current == [] then t == r && poll == End
    else
      match poll
      case Filled(bytes) => Octets(bytes) + Tokens(t) == Tokens(r)
      case PollFailed(error) => [Told(error)] + Tokens(t) == Tokens(r)
      case End =>
        t.readEof && ([Ended] + Tokens(t) == Tokens(r) || (Tokens(r) == [] && Tokens(t) == [] && r.closed))
      case Pending => Tokens(r) == [] && Tokens(t) == [] && !r.closed
  }

  lemma FrontTokens(r: Reader)
    requires r.current == []
    ensures r.channel != [] ==> Tokens(r) == EventTokens(r.channel[0]) + Tokens(r.(channel := r.channel[1..]))
    ensures r.channel == [] ==> Tokens(r) == []
  {
    hide EventTokens;
  }

  lemma ServedFront(r: Reader, count: nat)
    requires count <= |r.current|
    ensures Octets(r.current[..count]) + Tokens(r.(current := r.current[count..])) == Tokens(r)
  {
    hide Octets, TokensOf;
    OctetsConcat(r.current[..count], r.current[count..]);
    assert r.current == r.current[..count] + r.current[count..];
  }

  lemma {:induction false} PollReadServes(r: Reader, room: nat)
    ensures Serves(r, PollRead(r, room).0, PollRead(r, room).1)
    ensures PollRead(r, room).1.Filled? ==> |PollRead(r, room).1.bytes| == room || PollRead(r, room).0.current == []
    decreases |r.channel|
  {
    if r.current != [] {
      hide Tokens, Octets;
      ServedFront(r, Min(|r.current|, room));
    } else if !r.readEof && r.channel != [] && r.channel[0].Chunk? {
      ChunkTurn(r, room);
      PollReadServes(r.(channel := r.channel[1..], current := r.channel[0].bytes), room);
      hide PollRead, Tokens, Octets;
    } else {
      hide Tokens, Octets;
      FrontTokens(r);
    }
  }

  lemma ChunkTurn(r: Reader, room: nat)
    requires r.current == [] && !r.readEof && r.channel != [] && r.channel[0].Chunk?
    ensures var u := r.(channel := r.channel[1..], current := r.channel[0].bytes);
            PollRead(r, room) == PollRead(u, room) && Tokens(r) == Tokens(u)
  {
  }

  lemma PollNextServes(r: Reader)
    ensures Serves(r, PollNext(r).0, PollNext(r).1)
    ensures PollNext(r).1.Filled? ==> PollNext(r).0.current == []
  {
    if r.current != [] {
      ServedFront(r, |r.current|);
      hide Tokens, Octets;
      assert r.current[..|r.current|] == r.current && r.current[|r.current|..] == [];
    } else {
      FrontTokens(r);
      hide Tokens, Octets;
    }
  }

  // ---------- What is accepted ----------

  /** What a completed read of a buffer of `size` bytes adds to the stream. */
  function Front(size: nat, a: Action): Bytes {
    if a.ReadCompleted? && 0 < a.count <= size && a.data.Some? && a.count <= |a.data.value|
    then a.data.value[..a.count] else []
  }

  function ReadBy(size: nat, actions: seq<Action>): Bytes {
    if actions == [] then [] else Front(size, actions[0]) + ReadBy(size, actions[1..])
  }

  lemma StepReads(s: Sys, a: Action)
    requires Enabled(s, a)
    ensures Apply(s, a).log.accepted == s.log.accepted + Front(s.read.size, a) && Apply(s, a).read.size == s.read.size
  {
    hide PollRead, PollNext, RemoveAt;
    assert s.log.accepted + [] == s.log.accepted;
  }

  lemma {:induction false} AcceptedInRun(s: Sys, actions: seq<Action>, t: Sys)
    requires Reaches(s, actions, t)
    ensures t.log.accepted == s.log.accepted + ReadBy(s.read.size, actions)
    decreases |actions|
  {
    if actions == [] {
      assert s.log.accepted + [] == s.log.accepted;
    } else {
      StepReads(s, actions[0]);
      assert ReadBy(s.read.size, actions) == Front(s.read.size, actions[0]) + ReadBy(s.read.size, actions[1..]);
      assert Reaches(Apply(s, actions[0]), actions[1..], t);
      hide Enabled, Apply, Reaches, ReadBy, Front;
      AcceptedInRun(Apply(s, actions[0]), actions[1..], t);
      Associative(s.log.accepted, Front(s.read.size, actions[0]), ReadBy(s.read.size, actions[1..]));
    }
  }

  lemma Associative(a: Bytes, b: Bytes, c: Bytes)
    ensures a + b + c == a + (b + c)
  {
  }

  lemma {:induction false} RunKeepsSizes(s: Sys, actions: seq<Action>, t: Sys)
    requires Inv(s) && Reaches(s, actions, t)
    ensures t.capacity == s.capacity && t.read.size == s.read.size
    decreases |actions|
  {
    hide Inv, Apply, Enabled;
    if actions != [] {
      StepKeepsInv(s, actions[0]);
      RunKeepsSizes(Apply(s, actions[0]), actions[1..], t);
    }
  }

  /** While the receiver lives, what the application took and what is on its way is
      what native code wrote at the front of the buffer in its plausible reads. */
  lemma StreamIsWhatWasRead(capacity: nat, size: nat, actions: seq<Action>, t: Sys)
    requires Reaches(Init(capacity, size), actions, t)
    ensures t.log.accepted == ReadBy(size, actions)
    ensures t.alive ==>
      t.log.taken + t.app.current + ChunksOf(t.app.channel) + InHand(t.io.tasks) == ReadBy(size, actions)
  {
    InitInv(capacity, size);
    AcceptedInRun(Init(capacity, size), actions, t);
    RunKeepsSizes(Init(capacity, size), actions, t);
    hide Inv, ReadBy, ChunksOf, InHand;
    assert [] + ReadBy(size, actions) == ReadBy(size, actions);
    assert Reachable(t);
    if t.alive {
      BytesAreConserved(t);
    }
  }

  // ---------- Errors ----------

  function EventErrors(e: Event): seq<Error> {
    if e.Fault? then [e.error] else []
  }

  function ErrorsOf(events: seq<Event>): seq<Error> {
    if events == [] then [] else EventErrors(events[0]) + ErrorsOf(events[1..])
  }

  lemma {:induction false} ErrorsOfConcat(a: seq<Event>, b: seq<Event>)
    ensures ErrorsOf(a + b) == ErrorsOf(a) + ErrorsOf(b)
  {
    hide EventErrors;
    if a == [] {
      assert a + b == b;
    } else {
      ErrorsOfConcat(a[1..], b);
      assert (a + b)[1..] == a[1..] + b;
      assert ErrorsOf(a + b) == EventErrors(a[0]) + ErrorsOf(a[1..] + b);
    }
  }

  lemma OneError(e: Event)
    ensures ErrorsOf([e]) == EventErrors(e)
  {
    assert ErrorsOf([]) == [];
  }

  lemma {:induction false} PollReadErrors(r: Reader, room: nat)
    ensures PolledErrors(PollRead(r, room).1) + ErrorsOf(PollRead(r, room).0.channel) == ErrorsOf(r.channel)
    decreases |r.channel|
  {
    if r.current == [] && !r.readEof && r.channel != [] && r.channel[0].Chunk? {
      PollReadErrors(r.(channel := r.channel[1..], current := r.channel[0].bytes), room);
    }
  }

  lemma PollNextErrors(r: Reader)
    ensures PolledErrors(PollNext(r).1) + ErrorsOf(PollNext(r).0.channel) == ErrorsOf(r.channel)
  {
  }

  /** The error that a stream ended with. */
  function Failure(log: Log): seq<Error> {
    if log.outcome.Some? && log.outcome.value.Some? then [log.outcome.value.value] else []
  }

  /** The errors handed out, in the channel and about to be sent are that one. */
  predicate ToldInv(s: Sys) {
    && (s.alive ==> s.log.told + ErrorsOf(s.app.channel) + ErrorsOf(s.io.enders) == Failure(s.log))
    && (s.log.outcome.Some? <==> s.status.done)
  }

  lemma {:induction false} ErrorsRemoved(events: seq<Event>, i: nat)
    requires i < |events|
    ensures |ErrorsOf(events)| == |EventErrors(events[i])| + |ErrorsOf(RemoveAt(events, i))|
    ensures |ErrorsOf(events)| == 1 && events[i].Fault? ==>
      ErrorsOf(events) == [events[i].error] && ErrorsOf(RemoveAt(events, i)) == []
    ensures |ErrorsOf(events)| <= 1 && !events[i].Fault? ==> ErrorsOf(RemoveAt(events, i)) == ErrorsOf(events)
  {
    assert events == events[..i] + ([events[i]] + events[i + 1..]);
    ErrorsOfConcat(events[..i], [events[i]] + events[i + 1..]);
    ErrorsOfConcat([events[i]], events[i + 1..]);
    OneError(events[i]);
    ErrorsOfConcat(events[..i], events[i + 1..]);
    hide ErrorsOf;
  }

  lemma SendLastTells(s: Sys, i: nat)
    requires ToldInv(s) && Enabled(s, SendLast(i))
    ensures ToldInv(Apply(s, SendLast(i)))
  {
    if s.alive {
      var e := s.io.enders[i];
      ErrorsRemoved(s.io.enders, i);
      ErrorsOfConcat(s.app.channel, [e]);
      OneError(e);
      hide ErrorsOf, RemoveAt;
      assert s.log.told + ErrorsOf(s.app.channel) + ErrorsOf(s.io.enders) == Failure(s.log);
      assert |ErrorsOf(s.io.enders)| <= 1;
      if e.Fault? {
        assert s.log.told == [] && ErrorsOf(s.app.channel) == [];
      }
    }
  }

  lemma Regroup(a: seq<Error>, b: seq<Error>, c: seq<Error>, d: seq<Error>)
    ensures a + (b + c) + d == a + b + c + d
  {
  }

  lemma TerminalTells(s: Sys, a: Action)
    requires ToldInv(s) && Enabled(s, a) && a.Terminal?
    ensures ToldInv(Apply(s, a))
  {
    if s.alive && !s.status.done {
      var error := if s.status.pendingError.Some? then s.status.pendingError else a.fallback;
      var last := if error.Some? then Fault(error.value) else Eof;
      ErrorsOfConcat(s.io.enders, [last]);
      OneError(last);
      hide ErrorsOf;
      assert s.log.told + ErrorsOf(s.app.channel) + ErrorsOf(s.io.enders) == [];
    }
  }

  lemma ReadTells(s: Sys, a: Action)
    requires ToldInv(s) && Enabled(s, a) && a.ReadCompleted?
    ensures ToldInv(Apply(s, a))
  {
    ErrorsOfConcat(s.io.enders, [Eof]);
    OneError(Eof);
    hide ErrorsOf;
    assert ErrorsOf(s.io.enders) + [] == ErrorsOf(s.io.enders);
  }

  lemma ToldKept(s: Sys, a: Action)
    requires ToldInv(s) && Enabled(s, a)
    ensures ToldInv(Apply(s, a))
  {
    match a {
      case Send(i) =>
        ErrorsOfConcat(s.app.channel, [Chunk(s.io.tasks[i].chunk)]);
        OneError(Chunk(s.io.tasks[i].chunk));
        hide ErrorsOf;
        assert ErrorsOf(s.app.channel) + [] == ErrorsOf(s.app.channel);
      case SendLast(i) => SendLastTells(s, i);
      case Terminal(_) => TerminalTells(s, a);
      case ReadCompleted(_, _) => ReadTells(s, a);
      case AppReads(room) =>
        PollReadErrors(s.app, room);
        PolledTells(s, a, PollRead(s.app, room).0, PollRead(s.app, room).1);
      case AppNext =>
        PollNextErrors(s.app);
        PolledTells(s, a, PollNext(s.app).0, PollNext(s.app).1);
      case _ =>
        hide PollRead, PollNext, ErrorsOf, Completed;
    }
  }

  lemma PolledTells(s: Sys, a: Action, app: Reader, poll: Poll)
    requires ToldInv(s) && Enabled(s, a) && s.alive
    requires PolledErrors(poll) + ErrorsOf(app.channel) == ErrorsOf(s.app.channel)
    requires Apply(s, a) == s.(app := app, log := s.log.(taken := s.log.taken + Given(poll), told := s.log.told + PolledErrors(poll)))
    ensures ToldInv(Apply(s, a))
  {
    hide ErrorsOf, PolledErrors, Given, PollRead, PollNext;
    Regroup(s.log.told, PolledErrors(poll), ErrorsOf(app.channel), ErrorsOf(s.io.enders));
  }

  lemma {:induction false} RunTells(s: Sys, actions: seq<Action>, t: Sys)
    requires ToldInv(s) && Reaches(s, actions, t)
    ensures ToldInv(t)
    decreases |actions|
  {
    hide ToldInv, Apply, Enabled;
    if actions != [] {
      ToldKept(s, actions[0]);
      RunTells(Apply(s, actions[0]), actions[1..], t);
    }
  }

  lemma ReachableTells(s: Sys)
    requires Reachable(s)
    ensures ToldInv(s)
  {
    var actions :| Reaches(Init(s.capacity, s.read.size), actions, s);
    assert ToldInv(Init(s.capacity, s.read.size)) by { assert ErrorsOf([]) == []; }
    RunTells(Init(s.capacity, s.read.size), actions, s);
  }

  /** A stream ends with the error recorded for it, else with that of its terminal
      callback, and sends exactly that to the application, or an end if none. */
  lemma TerminalSends(s: Sys, fallback: Option<Error>)
    requires !s.status.done
    ensures var t := Apply(s, Terminal(fallback));
            && t.status.done && t.io.outstanding == 0 && |t.io.enders| == |s.io.enders| + 1
            && t.io.enders[..|s.io.enders|] == s.io.enders
            && t.io.enders[|s.io.enders|]
               == (if s.status.pendingError.Some? then Fault(s.status.pendingError.value)
                   else if fallback.Some? then Fault(fallback.value) else Eof)
            && t.log.outcome == Some(if s.status.pendingError.Some? then s.status.pendingError else fallback)
  {
  }

  /** The error that a completed read, or a rejected one, leaves behind: the first
      one stays. */
  lemma ReadRecords(s: Sys, a: Action)
    requires Enabled(s, a) && (a.ReadCompleted? || a.SendRefused?)
    ensures Apply(s, a).status.pendingError ==
      if s.status.pendingError.Some? then s.status.pendingError
      else if a.SendRefused? then Some(Canceled)
      else if 0 <= a.count <= s.read.size && (a.count == 0 || a.data.Some?) then None
      else Some(Other(0))
  {
    hide RemoveAt;
  }

  /** Headers, and each forwarded chunk, are followed by a read, unless the stream is
      over or native code rejects it. */
  lemma ReadsGoOn(s: Sys, a: Action)
    requires Reachable(s) && Enabled(s, a) && (a.Starter? || a.Resume?)
    ensures var goes := !s.status.done && a.rejected.None?;
            Apply(s, a).io.outstanding == (if goes then 1 else 0)
            && (!s.status.done ==> Apply(s, a).read.inFlight == goes)
    ensures !s.status.done && a.rejected.Some? && s.status.pendingError.None? ==>
      Apply(s, a).status.pendingError == Some(Other(a.rejected.value))
  {
    ReachableInv(s);
    hide FlowInv, ChannelInv, EndInv;
  }

  lemma OnlyReadsEnd(s: Sys, a: Action)
    requires Inv(s) && Enabled(s, a) && s.status.done
    ensures Apply(s, a).read.eof == s.read.eof && Apply(s, a).status.done && Apply(s, a).log.outcome == s.log.outcome
  {
    hide FlowInv, ChannelInv, EndInv, PollRead, PollNext, RemoveAt;
  }

  /** An end that stands or has been met comes from an empty read or from the
      closing of all senders, as long as the stream has not ended well. */
  predicate EofInv(s: Sys) {
    s.alive && !s.read.eof && !(s.log.outcome == Some(None)) ==>
      Eof !in s.app.channel && Eof !in s.io.enders
      && (s.app.readEof ==> s.app.closed && s.app.current == [] && s.app.channel == [])
  }

  lemma {:induction false} PollReadEof(r: Reader, room: nat)
    requires Eof !in r.channel && (r.readEof ==> r.closed && r.current == [] && r.channel == [])
    ensures var t := PollRead(r, room).0;
            Eof !in t.channel && t.closed == r.closed && (t.readEof ==> t.closed && t.current == [] && t.channel == [])
    decreases |r.channel|
  {
    if r.current == [] && !r.readEof && r.channel != [] {
      assert forall e :: e in r.channel[1..] ==> e in r.channel;
      assert r.channel[0] in r.channel;
      if r.channel[0].Chunk? {
        PollReadEof(r.(channel := r.channel[1..], current := r.channel[0].bytes), room);
      }
    }
  }

  lemma PollNextEof(r: Reader)
    requires Eof !in r.channel && (r.readEof ==> r.closed && r.current == [] && r.channel == [])
    ensures var t := PollNext(r).0;
            Eof !in t.channel && t.closed == r.closed && (t.readEof ==> t.closed && t.current == [] && t.channel == [])
  {
    if r.current == [] && r.channel != [] {
      assert forall e :: e in r.channel[1..] ==> e in r.channel;
      assert r.channel[0] in r.channel;
    }
  }

  lemma EofKept(s: Sys, a: Action)
    requires Inv(s) && EofInv(s) && ToldInv(s) && Enabled(s, a)
    ensures EofInv(Apply(s, a))
  {
    hide FlowInv, EndInv, ErrorsOf, PollRead, PollNext;
    var t := Apply(s, a);
    if t.alive && !t.read.eof && t.log.outcome != Some(None) {
      match a {
        case SendLast(i) => assert s.io.enders[i] in s.io.enders;
        case AppReads(room) => PollReadEof(s.app, room);
        case AppNext => PollNextEof(s.app);
        case _ =>
      }
    }
  }

  lemma {:induction false} RunKeepsEof(s: Sys, actions: seq<Action>, t: Sys)
    requires Inv(s) && EofInv(s) && ToldInv(s) && Reaches(s, actions, t)
    ensures EofInv(t)
    decreases |actions|
  {
    hide Inv, EofInv, ToldInv, Apply, Enabled;
    if actions != [] {
      StepKeepsInv(s, actions[0]);
      EofKept(s, actions[0]);
      ToldKept(s, actions[0]);
      RunKeepsEof(Apply(s, actions[0]), actions[1..], t);
    }
  }

  /** Who meets the end of a failed stream has been told of the error, once, unless
      a read came back empty before the failure. */
  lemma EndTellsTheError(s: Sys)
    requires Reachable(s) && s.alive && s.app.readEof && !s.read.eof
    requires s.log.outcome.Some? && s.log.outcome.value.Some?
    ensures s.log.told == [s.log.outcome.value.value]
  {
    EndOfRun(s);
    ToldAtTheEnd(s);
  }

  // ---------- An end that hides the error ----------

  /** Once a read has come back empty, its end is on its way, or it was met. */
  predicate EndInvoked(s: Sys) {
    s.alive && s.read.eof ==> Eof in s.io.enders || Eof in s.app.channel || s.app.readEof
  }

  lemma {:induction false} PollReadKeepsEof(r: Reader, room: nat)
    requires Eof in r.channel || r.readEof
    ensures Eof in PollRead(r, room).0.channel || PollRead(r, room).0.readEof
    decreases |r.channel|
  {
    if r.current == [] && !r.readEof && r.channel[0].Chunk? {
      var i :| 0 <= i < |r.channel| && r.channel[i] == Eof;
      assert r.channel[1..][i - 1] == Eof;
      PollReadKeepsEof(r.(channel := r.channel[1..], current := r.channel[0].bytes), room);
    } else if r.current == [] && !r.readEof {
      var i :| 0 <= i < |r.channel| && r.channel[i] == Eof;
      assert i > 0 ==> r.channel[1..][i - 1] == Eof;
    }
  }

  lemma PollNextKeepsEof(r: Reader)
    requires Eof in r.channel || r.readEof
    ensures Eof in PollNext(r).0.channel || PollNext(r).0.readEof
  {
    if r.current == [] && !r.readEof {
      var i :| 0 <= i < |r.channel| && r.channel[i] == Eof;
      assert i > 0 ==> r.channel[1..][i - 1] == Eof;
    }
  }

  lemma PollsKeepReadEof(r: Reader, room: nat)
    ensures r.readEof ==> PollRead(r, room).0.readEof && PollNext(r).0.readEof
  {
    PollReadMeets(r, room);
    PollNextMeets(r);
  }

  lemma RemovedEof(events: seq<Event>, i: nat)
    requires i < |events| && Eof in events
    ensures events[i] == Eof || Eof in RemoveAt(events, i)
  {
    var j :| 0 <= j < |events| && events[j] == Eof;
    if j < i {
      assert RemoveAt(events, i)[j] == Eof;
    } else if j > i {
      assert RemoveAt(events, i)[j - 1] == Eof;
    }
  }

  lemma EndInvokedKept(s: Sys, a: Action)
    requires EndInvoked(s) && Enabled(s, a)
    ensures EndInvoked(Apply(s, a))
  {
    hide PollRead, PollNext, RemoveAt;
    if s.alive && s.read.eof {
      match a {
        case SendLast(i) =>
          if Eof in s.io.enders {
            RemovedEof(s.io.enders, i);
          }
        case AppReads(room) =>
          PollsKeepReadEof(s.app, room);
          if Eof in s.app.channel || s.app.readEof {
            PollReadKeepsEof(s.app, room);
          }
        case AppNext =>
          PollsKeepReadEof(s.app, 0);
          if Eof in s.app.channel || s.app.readEof {
            PollNextKeepsEof(s.app);
          }
        case _ =>
      }
    }
  }

  lemma {:induction false} RunInvokesEnd(s: Sys, actions: seq<Action>, t: Sys)
    requires EndInvoked(s) && Reaches(s, actions, t)
    ensures EndInvoked(t)
    decreases |actions|
  {
    hide EndInvoked, Apply, Enabled;
    if actions != [] {
      EndInvokedKept(s, actions[0]);
      RunInvokesEnd(Apply(s, actions[0]), actions[1..], t);
    }
  }

  /** An end is within reach and no error stands in front of it. */
  predicate Heading(s: Sys) {
    s.alive && s.capacity > 0 && s.log.told == [] && ErrorsOf(s.app.channel) == []
    && (Eof in s.app.channel || Eof in s.io.enders || s.app.readEof)
  }

  lemma FrontErrors(channel: seq<Event>)
    requires channel != [] && ErrorsOf(channel) == []
    ensures !channel[0].Fault? && ErrorsOf(channel[1..]) == []
  {
  }

  lemma TakesOne(s: Sys)
    requires Heading(s) && !s.app.readEof && Backlog(s.app) > 0
    ensures Heading(Apply(s, AppNext)) && Backlog(Apply(s, AppNext).app) < Backlog(s.app)
  {
    if s.app.current == [] {
      FrontErrors(s.app.channel);
    }
    if Eof in s.app.channel {
      PollNextKeepsEof(s.app);
    }
    hide ErrorsOf;
  }

  /** With no backlog the end goes straight through. */
  lemma MeetsTheEnd(s: Sys) returns (actions: seq<Action>, t: Sys)
    requires Heading(s) && !s.app.readEof && Backlog(s.app) == 0
    ensures Reaches(s, actions, t) && Heading(t) && t.app.readEof
  {
    var i :| 0 <= i < |s.io.enders| && s.io.enders[i] == Eof;
    var u := Apply(s, SendLast(i));
    assert u.app.channel == [Eof];
    t := Apply(u, AppNext);
    assert Reaches(t, [], t);
    Steps(u, AppNext, [], t);
    Steps(s, SendLast(i), [AppNext] + [], t);
    actions := [SendLast(i)] + ([AppNext] + []);
  }

  lemma {:induction false} GetsThere(s: Sys) returns (actions: seq<Action>, t: Sys)
    requires Heading(s)
    ensures Reaches(s, actions, t) && Heading(t) && t.app.readEof
    decreases Backlog(s.app)
  {
    if s.app.readEof {
      actions, t := [], s;
    } else if Backlog(s.app) == 0 {
      actions, t := MeetsTheEnd(s);
    } else {
      TakesOne(s);
      assert Enabled(s, AppNext);
      hide Heading, Apply, Enabled;
      actions, t := GetsThere(Apply(s, AppNext));
      Steps(s, AppNext, actions, t);
      actions := [AppNext] + actions;
    }
  }

  /** The application meets the end of `t`'s stream without having been told of an
      error. */
  ghost predicate Misses(s: Sys, actions: seq<Action>, t: Sys) {
    Reaches(s, actions, t) && t.alive && t.app.readEof && t.log.told == []
  }

  lemma {:induction false} DoneStays(s: Sys, actions: seq<Action>, t: Sys)
    requires Inv(s) && s.status.done && Reaches(s, actions, t)
    ensures t.read.eof == s.read.eof && t.log.outcome == s.log.outcome
    decreases |actions|
  {
    hide Inv, Apply, Enabled;
    if actions != [] {
      StepKeepsInv(s, actions[0]);
      OnlyReadsEnd(s, actions[0]);
      DoneStays(Apply(s, actions[0]), actions[1..], t);
    }
  }

  lemma ToldAtTheEnd(s: Sys)
    requires Inv(s) && EofInv(s) && ToldInv(s) && s.alive && s.app.readEof && !s.read.eof
    requires s.log.outcome.Some? && s.log.outcome.value.Some?
    ensures s.log.told == [s.log.outcome.value.value]
  {
    assert ErrorsOf([]) == [];
    hide FlowInv, EndInv, PumpInv;
  }

  /** Exactly when an error can be missed: a stream that fails while the application
      is there can be read to its end without that error if and only if one of its
      reads came back empty before. */
  lemma ErrorCanBeMissedIff(s: Sys, fallback: Option<Error>)
    requires Reachable(s) && s.alive && !s.status.done && s.capacity > 0
    requires s.status.pendingError.Some? || fallback.Some?
    ensures (exists actions, t :: Misses(Apply(s, Terminal(fallback)), actions, t)) <==> s.read.eof
  {
    var u := Apply(s, Terminal(fallback));
    EndOfRun(s);
    TerminalSends(s, fallback);
    StepKeepsInv(s, Terminal(fallback));
    ToldKept(s, Terminal(fallback));
    EofKept(s, Terminal(fallback));
    assert u.read == s.read && u.app == s.app && u.alive && u.capacity == s.capacity && u.log.told == s.log.told;
    if s.read.eof {
      HeadsForTheEnd(s, u);
      var actions, t := GetsThere(u);
      assert Misses(u, actions, t);
    } else {
      forall actions, t ensures !Misses(u, actions, t) {
        if Misses(u, actions, t) {
          hide Inv, EofInv, ToldInv, Apply, Enabled;
          DoneStays(u, actions, t);
          RunKeepsInv(u, actions, t);
          RunKeepsEof(u, actions, t);
          RunTells(u, actions, t);
          ToldAtTheEnd(t);
        }
      }
    }
  }

  lemma EndOfRun(s: Sys)
    requires Reachable(s)
    ensures Inv(s) && EofInv(s) && ToldInv(s) && EndInvoked(s)
  {
    hide Inv;
    var actions :| Reaches(Init(s.capacity, s.read.size), actions, s);
    assert ErrorsOf([]) == [];
    InitInv(s.capacity, s.read.size);
    RunKeepsEof(Init(s.capacity, s.read.size), actions, s);
    RunInvokesEnd(Init(s.capacity, s.read.size), actions, s);
    ReachableTells(s);
    ReachableInv(s);
  }

  lemma HeadsForTheEnd(s: Sys, u: Sys)
    requires EndInvoked(s) && ToldInv(s) && s.alive && s.read.eof && !s.status.done && s.capacity > 0
    requires u.app == s.app && u.alive && u.capacity == s.capacity && u.log.told == s.log.told
    requires |u.io.enders| == |s.io.enders| + 1 && u.io.enders[..|s.io.enders|] == s.io.enders
    ensures Heading(u)
  {
    hide ErrorsOf;
    assert s.log.told + ErrorsOf(s.app.channel) + ErrorsOf(s.io.enders) == [];
    if Eof in s.io.enders {
      var i :| 0 <= i < |s.io.enders| && s.io.enders[i] == Eof;
      assert u.io.enders[i] == u.io.enders[..|s.io.enders|][i] == Eof;
    }
  }

  // ---------- The end can be met ----------

  function TaskRank(tasks: seq<Task>): nat {
    if tasks == [] then 0 else (if tasks[0].Sending? then 4 else 2) + TaskRank(tasks[1..])
  }

  function Rank(s: Sys): nat {
    Backlog(s.app) + TaskRank(s.io.tasks) + 2 * |s.io.enders| + s.io.starters + (if s.app.closed then 0 else 1)
    + (if s.app.readEof then 0 else 1)
  }

  predicate Closing(s: Sys) {
    s.alive && s.status.done && s.capacity > 0
  }

  /** The next thing on the way to the end. */
  function Onward(s: Sys): Action {
    if Backlog(s.app) > 0 || s.app.closed then AppNext
    else if s.io.starters > 0 then Starter(None)
    else if s.io.tasks != [] then if s.io.tasks[0].Sending? then Send(0) else Resume(0, None)
    else if s.io.enders != [] then SendLast(0)
    else CloseSenders
  }

  lemma OneStepOnward(s: Sys)
    requires Inv(s) && Closing(s) && !s.app.readEof
    ensures Enabled(s, Onward(s)) && Closing(Apply(s, Onward(s))) && Rank(Apply(s, Onward(s))) < Rank(s)
  {
    hide FlowInv, EndInv;
    if Backlog(s.app) == 0 && s.io.tasks != [] {
      assert |s.io.tasks| == 1;
      assert TaskRank(s.io.tasks) == if s.io.tasks[0].Sending? then 4 else 2;
      assert s.io.tasks[0].Sending? ==> TaskRank(s.io.tasks[0 := Resuming]) == 2;
    }
  }

  lemma {:induction false} DrainsToTheEnd(s: Sys) returns (actions: seq<Action>, t: Sys)
    requires Inv(s) && Closing(s)
    ensures Reaches(s, actions, t) && t.alive && t.app.readEof
    decreases Rank(s)
  {
    if s.app.readEof {
      actions, t := [], s;
    } else {
      var a := Onward(s);
      OneStepOnward(s);
      StepKeepsInv(s, a);
      hide Inv, Apply, Enabled, Closing, Onward, Rank;
      actions, t := DrainsToTheEnd(Apply(s, a));
      Steps(s, a, actions, t);
      actions := [a] + actions;
    }
  }

  /** From every state of a stream that is over the application can get to its end. */
  lemma EndCanBeMet(s: Sys) returns (actions: seq<Action>, t: Sys)
    requires Reachable(s) && s.alive && s.status.done && s.capacity > 0
    ensures Reaches(s, actions, t) && t.alive && t.app.readEof
  {
    ReachableInv(s);
    actions, t := DrainsToTheEnd(s);
  }
}
