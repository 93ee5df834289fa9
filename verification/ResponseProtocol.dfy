/**
 The response pump of a URL request as steps: native reads and their
 completions, the tasks that forward chunks into the bounded channel, the
 terminal callback, and the application's polls in any mix and with any buffer
 sizes.

 Native code is assumed to complete each accepted read at most once, to start
 the response at most once, and to call nothing after a terminal callback.
 */
module ResponseProtocol {
  import opened Base
  import opened ResponseState

  datatype Config = Config(limit: nat, wordMax: nat, capacity: nat)

  /** A spawned forwarder. */
  datatype Task = Sending(chunk: Bytes) | Resuming

  /** `published` is what the terminal callback told the application. */
  datatype Callback = Callback(
    responded: bool, received: nat, requestError: Option<Fault>, done: bool, published: Option<Option<Fault>>)

  /** Reads that native code has accepted and not completed, forwarders, and
      spawned senders of a terminal error. */
  datatype Io = Io(outstanding: nat, tasks: seq<Task>, errors: seq<Fault>)

  /** History: the chunks accepted and the bytes the application took, in order,
      whether some completed read was refused, and how many bytes were counted
      for reads whose data pointer was null; the errors that the application
      took, those recorded before the terminal callback, and the latter's own. */
  datatype Log = Log(
    accepted: Bytes, taken: Bytes, refused: bool, phantom: nat,
    told: seq<Fault>, recorded: seq<Fault>, fallback: Option<Fault>)

  datatype Sys = Sys(config: Config, cb: Callback, io: Io, body: Body, alive: bool, log: Log)

  /** How the first callback of a response ends. */
  datatype Start = HeadersRefused | AllocationFailed | FirstRead(rejected: Option<nat>)

  datatype Action =
    | ResponseStarted(start: Start)
    | ReadCompleted(capacity: nat, reported: nat, memory: Option<Bytes>, rejected: Option<nat>)
    | Send(task: nat)
    | SendRefused(task: nat)
    | Resume(task: nat, rejected: Option<nat>)
    | Terminal(fallback: Option<Fault>)
    | SendError(index: nat)
    | CloseSenders
    | AppReads(room: nat)
    | AppNext
    | AppDrops

  function Init(config: Config): Sys {
    Sys(config, Callback(false, 0, None, false, None), Io(0, [], []), Body([], [], false), true, Log([], [], false, 0, [], [], None))
  }

  function Record(s: Sys, fault: Fault): Sys {
    s.(cb := s.cb.(requestError := FirstOf(s.cb.requestError, Some(fault))),
       log := if s.cb.done then s.log else s.log.(recorded := s.log.recorded + [fault]))
  }

  /** `read`: native code accepts the read, or the error is recorded. */
  function Read(s: Sys, rejected: Option<nat>): Sys {
    match rejected
    case None => s.(io := s.io.(outstanding := s.io.outstanding + 1))
    case Some(code) => Record(s, Rejected(code))
  }

  predicate Enabled(s: Sys, a: Action) {
    match a
    case ResponseStarted(_) => !s.cb.responded && !s.cb.done
    case ReadCompleted(capacity, _, memory, _) =>
      s.io.outstanding > 0 && !s.cb.done && (memory.Some? ==> |memory.value| == capacity)
    case Send(i) => i < |s.io.tasks| && s.io.tasks[i].Sending? && s.alive && |s.body.channel| < s.config.capacity
    case SendRefused(i) => i < |s.io.tasks| && s.io.tasks[i].Sending? && !s.alive
    case Resume(i, _) => i < |s.io.tasks| && s.io.tasks[i].Resuming?
    case Terminal(_) => true
    case SendError(i) => i < |s.io.errors| && (s.alive ==> |s.body.channel| < s.config.capacity)
    case CloseSenders => s.cb.done && s.io.tasks == [] && s.io.errors == []
    case AppReads(_) => s.alive
    case AppNext => s.alive
    case AppDrops => s.alive
  }

  function Push(s: Sys, item: Item): Sys {
    s.(body := s.body.(channel := s.body.channel + [item]))
  }

  function Judged(s: Sys, capacity: nat, reported: nat, memory: Option<Bytes>, rejected: Option<nat>): Sys
    requires memory.Some? ==> |memory.value| == capacity
    requires s.io.outstanding > 0
  {
    var (verdict, total) := Judge(s.cb.received, s.config.limit, s.config.wordMax, capacity, reported, memory);
    var t := s.(cb := s.cb.(received := total), io := s.io.(outstanding := s.io.outstanding - 1));
    match verdict
    case Fail(fault) =>
      Record(t.(log := t.log.(refused := true, phantom := t.log.phantom + (total - s.cb.received))), fault)
    case ReadAgain => Read(t, rejected)
    case Forward(chunk) =>
      t.(io := t.io.(tasks := t.io.tasks + [Sending(chunk)]), log := t.log.(accepted := t.log.accepted + chunk))
  }

  function Ended(s: Sys, fallback: Option<Fault>): Sys {
    if s.cb.done then s
    else
      var published := FirstOf(s.cb.requestError, fallback);
      s.(cb := s.cb.(done := true, requestError := None, published := Some(published)),
         io := s.io.(outstanding := 0, errors := if published.Some? then s.io.errors + [published.value] else s.io.errors),
         log := s.log.(fallback := fallback))
  }

  function Apply(s: Sys, a: Action): Sys
    requires Enabled(s, a)
  {
    match a
    case ResponseStarted(start) =>
      var t := s.(cb := s.cb.(responded := true));
      (match start
       case HeadersRefused => Record(t, NoReceiver)
       case AllocationFailed => Record(t, NoBuffer)
       case FirstRead(rejected) => Read(t, rejected))
    case ReadCompleted(capacity, reported, memory, rejected) => Judged(s, capacity, reported, memory, rejected)
    case Send(i) =>
      Push(s, Chunk(s.io.tasks[i].chunk)).(io := s.io.(tasks := s.io.tasks[i := Resuming]))
    case SendRefused(i) =>
      Record(s.(io := s.io.(tasks := RemoveAt(s.io.tasks, i))), NoReceiver)
    case Resume(i, rejected) =>
      var t := s.(io := s.io.(tasks := RemoveAt(s.io.tasks, i)));
      if s.cb.done then t else Read(t, rejected)
    case Terminal(fallback) => Ended(s, fallback)
    case SendError(i) =>
      var t := s.(io := s.io.(errors := RemoveAt(s.io.errors, i)));
      if s.alive then Push(t, Failure(s.io.errors[i])) else t
    case CloseSenders => s.(body := s.body.(closed := true))
    case AppReads(room) =>
      var (body, poll) := PollRead(s.body, room);
      s.(body := body, log := s.log.(taken := s.log.taken + ReadBytes(poll), told := s.log.told + ReadFaults(poll)))
    case AppNext =>
      var (body, poll) := PollNext(s.body);
      s.(body := body, log := s.log.(taken := s.log.taken + NextBytes(poll), told := s.log.told + NextFaults(poll)))
    case AppDrops => s.(alive := false, body := s.body.(current := [], channel := []))
  }

  // ---------- The invariant ----------

  /** The chunks being forwarded. */
  function InHand(tasks: seq<Task>): Bytes {
    if tasks == [] then []
    else (if tasks[0].Sending? then tasks[0].chunk else []) + InHand(tasks[1..])
  }

  predicate SizeInv(config: Config, cb: Callback, log: Log) {
    config.limit <= config.wordMax && cb.received == |log.accepted| + log.phantom <= config.limit
  }

  /** At most one of: a read outstanding, a forwarder. */
  predicate PumpInv(cb: Callback, io: Io) {
    && |io.tasks| + io.outstanding <= 1
    && (!cb.responded ==> |io.tasks| + io.outstanding == 0)
    && (cb.done ==> io.outstanding == 0)
  }

  predicate FlowInv(io: Io, body: Body, alive: bool, log: Log) {
    alive ==> log.taken + Rest(body) + InHand(io.tasks) == log.accepted
  }

  /** A refused read is never passed over in silence. */
  predicate ErrorInv(cb: Callback, log: Log) {
    && (cb.published.Some? <==> cb.done)
    && (log.refused ==> cb.requestError.Some? || cb.published.Some?)
    && (log.refused && cb.published.Some? ==> cb.published.value.Some?)
  }

  predicate ChannelInv(config: Config, cb: Callback, io: Io, body: Body) {
    && |body.channel| <= config.capacity
    && (body.closed ==> cb.done && io.tasks == [] && io.errors == [])
  }

  predicate Inv(s: Sys) {
    && SizeInv(s.config, s.cb, s.log)
    && PumpInv(s.cb, s.io)
    && FlowInv(s.io, s.body, s.alive, s.log)
    && ErrorInv(s.cb, s.log)
    && ChannelInv(s.config, s.cb, s.io, s.body)
  }

  lemma SizeKept(s: Sys, a: Action)
    requires Inv(s) && Enabled(s, a)
    ensures SizeInv(s.config, Apply(s, a).cb, Apply(s, a).log) && Apply(s, a).config == s.config
  {
    hide FlowInv, ErrorInv, ChannelInv, PollRead, PollNext, RemoveAt;
  }

  lemma PumpKept(s: Sys, a: Action)
    requires Inv(s) && Enabled(s, a)
    ensures PumpInv(Apply(s, a).cb, Apply(s, a).io)
  {
    hide FlowInv, ErrorInv, ChannelInv, SizeInv, PollRead, PollNext;
  }

  lemma ErrorKept(s: Sys, a: Action)
    requires Inv(s) && Enabled(s, a)
    ensures ErrorInv(Apply(s, a).cb, Apply(s, a).log)
  {
    hide FlowInv, ChannelInv, SizeInv, PumpInv, PollRead, PollNext, RemoveAt;
  }

  lemma ChannelKept(s: Sys, a: Action)
    requires Inv(s) && Enabled(s, a)
    ensures ChannelInv(s.config, Apply(s, a).cb, Apply(s, a).io, Apply(s, a).body)
  {
    hide FlowInv, ErrorInv, SizeInv;
    if a.AppReads? {
      PollReadConserves(s.body, a.room);
      hide PollRead;
    } else if a.AppNext? {
      PollNextConserves(s.body);
      hide PollNext;
    } else {
      assert ChannelInv(s.config, Apply(s, a).cb, Apply(s, a).io, Apply(s, a).body);
    }
  }

  lemma HandOf(tasks: seq<Task>)
    requires |tasks| <= 1
    ensures InHand(tasks) == if tasks != [] && tasks[0].Sending? then tasks[0].chunk else []
  {
  }

  lemma SendKeepsFlow(s: Sys, i: nat)
    requires Inv(s) && Enabled(s, Send(i))
    ensures FlowInv(Apply(s, Send(i)).io, Apply(s, Send(i)).body, true, s.log)
  {
    hide ErrorInv, SizeInv, ChannelInv, ChunksOf, InHand;
    var chunk := s.io.tasks[i].chunk;
    HandOf(s.io.tasks);
    HandOf(s.io.tasks[i := Resuming]);
    ChunksOfConcat(s.body.channel, [Chunk(chunk)]);
    OneItem(Chunk(chunk));
    var before := Rest(s.body);
    assert s.body.current + (ChunksOf(s.body.channel) + chunk) == before + chunk;
    assert s.log.taken + (before + chunk) + [] == s.log.taken + before + chunk;
  }

  lemma OneItem(item: Item)
    ensures ChunksOf([item]) == if item.Chunk? then item.bytes else []
  {
  }

  lemma PollsKeepFlow(s: Sys, a: Action)
    requires FlowInv(s.io, s.body, s.alive, s.log) && Enabled(s, a) && (a.AppReads? || a.AppNext?)
    ensures FlowInv(s.io, Apply(s, a).body, true, Apply(s, a).log)
  {
    hide InHand, ChunksOf, PollRead, PollNext, Rest;
    if a.AppReads? {
      PollReadConserves(s.body, a.room);
    } else {
      PollNextConserves(s.body);
    }
    var t := Apply(s, a);
    var given := t.log.taken[|s.log.taken|..];
    assert t.log.taken == s.log.taken + given;
    assert given + Rest(t.body) == Rest(s.body);
    assert s.log.taken + given + Rest(t.body) == s.log.taken + (given + Rest(t.body));
  }

  lemma ReadKeepsFlow(s: Sys, a: Action)
    requires Inv(s) && Enabled(s, a) && a.ReadCompleted?
    ensures FlowInv(Apply(s, a).io, s.body, s.alive, Apply(s, a).log)
    ensures Apply(s, a).body == s.body && Apply(s, a).alive == s.alive
  {
    hide ErrorInv, SizeInv, ChannelInv, Judge, InHand, ChunksOf, Rest;
    HandOf(s.io.tasks);
    HandOf(Apply(s, a).io.tasks);
  }

  lemma FlowKept(s: Sys, a: Action)
    requires Inv(s) && Enabled(s, a)
    ensures FlowInv(Apply(s, a).io, Apply(s, a).body, Apply(s, a).alive, Apply(s, a).log)
  {
    hide ErrorInv, SizeInv, ChannelInv, Judge, InHand, ChunksOf, PollRead, PollNext, Judged;
    match a {
      case ReadCompleted(_, _, _, _) => ReadKeepsFlow(s, a);
      case Send(i) => SendKeepsFlow(s, i);
      case SendRefused(i) =>
      case Resume(i, _) =>
        HandOf(s.io.tasks);
        HandOf(RemoveAt(s.io.tasks, i));
      case SendError(i) =>
        ChunksOfConcat(s.body.channel, [Failure(s.io.errors[i])]);
        OneItem(Failure(s.io.errors[i]));
      case AppReads(_) => PollsKeepFlow(s, a);
      case AppNext => PollsKeepFlow(s, a);
      case _ =>
    }
  }

  lemma InitInv(config: Config)
    requires config.limit <= config.wordMax
    ensures Inv(Init(config))
  {
  }

  lemma StepKeepsInv(s: Sys, a: Action)
    requires Inv(s) && Enabled(s, a)
    ensures Inv(Apply(s, a)) && Apply(s, a).config == s.config
  {
    SizeKept(s, a);
    PumpKept(s, a);
    ErrorKept(s, a);
    ChannelKept(s, a);
    FlowKept(s, a);
    hide Enabled, Apply, SizeInv, PumpInv, ErrorInv, ChannelInv, FlowInv;
  }

  // ---------- Runs ----------

  ghost predicate Reaches(s: Sys, actions: seq<Action>, t: Sys)
    decreases |actions|
  {
    if actions == [] then s == t
    else Enabled(s, actions[0]) && Reaches(Apply(s, actions[0]), actions[1..], t)
  }

  ghost predicate Reachable(s: Sys) {
    s.config.limit <= s.config.wordMax && exists actions :: Reaches(Init(s.config), actions, s)
  }

  lemma {:induction false} RunKeepsInv(s: Sys, actions: seq<Action>, t: Sys)
    requires Inv(s) && Reaches(s, actions, t)
    ensures Inv(t)
    decreases |actions|
  {
    hide Inv, Apply, Enabled;
    if actions != [] {
      StepKeepsInv(s, actions[0]);
      RunKeepsInv(Apply(s, actions[0]), actions[1..], t);
    }
  }

  lemma ReachableInv(s: Sys)
    requires Reachable(s)
    ensures Inv(s)
  {
    hide Inv;
    var actions :| Reaches(Init(s.config), actions, s);
    InitInv(s.config);
    RunKeepsInv(Init(s.config), actions, s);
  }

  /** While the receiver lives: what the application took, then the buffered
      chunk, then the channel's chunks, then the chunk being forwarded, are the
      accepted reads in order. The count compared with the limit is the number of
      accepted bytes plus those of fitting reads without a data pointer. */
  lemma BytesAreConserved(s: Sys)
    requires Reachable(s)
    ensures s.alive ==> s.log.taken + s.body.current + ChunksOf(s.body.channel) + InHand(s.io.tasks) == s.log.accepted
    ensures s.cb.received == |s.log.accepted| + s.log.phantom <= s.config.limit
  {
    hide PumpInv, ErrorInv, ChannelInv;
    ReachableInv(s);
    assert s.log.taken + s.body.current + ChunksOf(s.body.channel) == s.log.taken + Rest(s.body);
  }

  /** Bytes are counted and not forwarded exactly for a read that fits buffer and
      limit and has no data; an error is recorded then. */
  lemma PhantomIffNoData(s: Sys, a: Action)
    requires Reachable(s) && Enabled(s, a)
    ensures Apply(s, a).log.phantom > s.log.phantom <==>
      a.ReadCompleted? && a.memory.None? && 0 < a.reported <= a.capacity && s.cb.received + a.reported <= s.config.limit
    ensures Apply(s, a).log.phantom > s.log.phantom ==>
      Apply(s, a).log.phantom == s.log.phantom + a.reported && Apply(s, a).cb.requestError.Some?
    ensures Apply(s, a).log.phantom >= s.log.phantom
  {
    ReachableInv(s);
    if a.ReadCompleted? {
      JudgeIsExact(s.cb.received, s.config.limit, s.config.wordMax, a.capacity, a.reported, a.memory);
    } else {
      hide Judged, PollRead, PollNext, RemoveAt;
      assert Apply(s, a).log.phantom == s.log.phantom;
    }
  }

  lemma {:induction false} Extend(s: Sys, actions: seq<Action>, t: Sys, a: Action)
    requires Reaches(s, actions, t) && Enabled(t, a)
    ensures Reaches(s, actions + [a], Apply(t, a))
    decreases |actions|
  {
    hide Enabled, Apply;
    if actions == [] {
      assert [a][1..] == [];
    } else {
      Extend(Apply(s, actions[0]), actions[1..], t, a);
      assert (actions + [a])[1..] == actions[1..] + [a];
    }
  }

  lemma Then(s: Sys, a: Action) returns (t: Sys)
    requires Reachable(s) && Enabled(s, a)
    ensures t == Apply(s, a) && Reachable(t)
  {
    t := Apply(s, a);
    assert t.config == s.config by {
      ReachableInv(s);
      StepKeepsInv(s, a);
    }
    hide Enabled, Apply;
    var actions :| Reaches(Init(s.config), actions, s);
    Extend(Init(s.config), actions, s, a);
  }

  /** For every limit there is a run that counts all of it and accepts nothing. */
  lemma PhantomFillsTheLimit(config: Config) returns (s: Sys)
    requires 0 < config.limit <= config.wordMax
    ensures Reachable(s) && s.config == config && s.cb.received == config.limit && s.log.accepted == []
  {
    s := Init(config);
    assert Reaches(Init(s.config), [], s);
    hide Reachable;
    s := Then(s, ResponseStarted(FirstRead(None)));
    s := Then(s, ReadCompleted(config.limit, config.limit, None, None));
  }

  /** No native read is outstanding while a chunk is being forwarded, and there
      is never more than one of either. */
  lemma OneReadAtATime(s: Sys)
    requires Reachable(s)
    ensures s.io.outstanding > 0 ==> s.io.tasks == []
    ensures s.io.outstanding <= 1 && |s.io.tasks| <= 1
    ensures |s.body.channel| <= s.config.capacity
  {
    hide SizeInv, FlowInv, ErrorInv;
    ReachableInv(s);
  }

  /** An application that meets the end of the body, by whichever adapter, has
      taken every accepted byte; if no error was published, no completed read
      was refused either. */
  lemma EndMeansEverything(s: Sys, room: nat)
    requires Reachable(s) && s.alive
    requires PollRead(s.body, room).1.EndOfBody? || PollNext(s.body).1.NoMore?
    ensures s.log.taken == s.log.accepted
    ensures s.cb.published.Some? && (s.cb.published == Some(None) ==> !s.log.refused)
  {
    hide SizeInv, PumpInv;
    ReachableInv(s);
    PollReadConserves(s.body, room);
    PollNextConserves(s.body);
  }
}
