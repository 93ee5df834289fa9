/** What a run of the response pump accepts, and which error it reports. */
module ResponseClaims {
  import opened Base
  import opened ResponseState
  import opened ResponseProtocol

  // ---------- What is accepted ----------

  /** The bytes that count towards the limit in `a`, `received` of them having
      been counted before. */
  function Counted(config: Config, received: nat, a: Action): nat {
    if a.ReadCompleted? && a.reported <= a.capacity && received + a.reported <= config.limit then a.reported else 0
  }

  /** The first bytes of the buffers of the reads in `actions` that fit buffer and
      limit and have data, in order. */
  function ReadBy(config: Config, received: nat, actions: seq<Action>): Bytes
    decreases |actions|
  {
    if actions == [] then []
    else
      var n := Counted(config, received, actions[0]);
      Front(actions[0], n) + ReadBy(config, received + n, actions[1..])
  }

  function Front(a: Action, n: nat): Bytes {
    if a.ReadCompleted? && a.memory.Some? && n <= |a.memory.value| then a.memory.value[..n] else []
  }

  lemma StepReads(s: Sys, a: Action)
    requires Inv(s) && Enabled(s, a)
    ensures Apply(s, a).log.accepted == s.log.accepted + Front(a, Counted(s.config, s.cb.received, a))
    ensures Apply(s, a).cb.received == s.cb.received + Counted(s.config, s.cb.received, a)
  {
    if a.ReadCompleted? {
      JudgeIsExact(s.cb.received, s.config.limit, s.config.wordMax, a.capacity, a.reported, a.memory);
      JudgedReads(s, a);
    } else {
      hide Judged, PollRead, PollNext, RemoveAt, Inv;
      assert s.log.accepted + [] == s.log.accepted;
    }
  }

  lemma JudgedReads(s: Sys, a: Action)
    requires Inv(s) && Enabled(s, a) && a.ReadCompleted?
    ensures var verdict := Judge(s.cb.received, s.config.limit, s.config.wordMax, a.capacity, a.reported, a.memory).0;
            var total := Judge(s.cb.received, s.config.limit, s.config.wordMax, a.capacity, a.reported, a.memory).1;
            && Apply(s, a).cb.received == total
            && Apply(s, a).log.accepted == s.log.accepted + (if verdict.Forward? then verdict.chunk else [])
  {
    hide Judge, Inv;
    assert s.log.accepted + [] == s.log.accepted;
  }

  lemma {:induction false} AcceptedInRun(s: Sys, actions: seq<Action>, t: Sys)
    requires Inv(s) && Reaches(s, actions, t)
    ensures t.log.accepted == s.log.accepted + ReadBy(s.config, s.cb.received, actions)
    decreases |actions|
  {
    if actions == [] {
      assert s.log.accepted + [] == s.log.accepted;
    } else {
      var u := Apply(s, actions[0]);
      var n := Counted(s.config, s.cb.received, actions[0]);
      StepReads(s, actions[0]);
      StepKeepsInv(s, actions[0]);
      ReadFirst(s.config, s.cb.received, actions);
      assert Reaches(u, actions[1..], t) && u.config == s.config && u.cb.received == s.cb.received + n;
      hide Inv, Apply, Enabled, Front, Counted, Reaches, ReadBy;
      AcceptedInRun(u, actions[1..], t);
      Compose(s.log.accepted, Front(actions[0], n), u.log.accepted, ReadBy(u.config, u.cb.received, actions[1..]), t.log.accepted,
              ReadBy(s.config, s.cb.received, actions));
    }
  }

  lemma Compose(a: Bytes, front: Bytes, b: Bytes, rest: Bytes, c: Bytes, all: Bytes)
    requires b == a + front && c == b + rest && all == front + rest
    ensures c == a + all
  {
  }

  lemma ReadFirst(config: Config, received: nat, actions: seq<Action>)
    requires actions != []
    ensures var n := Counted(config, received, actions[0]);
            ReadBy(config, received, actions) == Front(actions[0], n) + ReadBy(config, received + n, actions[1..])
  {
    hide Counted, Front;
  }

  /** While the receiver lives, what the application took and what is on its way to
      it is what native code wrote at the front of its buffers in the reads that
      fit buffer and limit, whatever else went on. */
  lemma BodyIsWhatWasRead(config: Config, actions: seq<Action>, t: Sys)
    requires config.limit <= config.wordMax && Reaches(Init(config), actions, t)
    ensures t.log.accepted == ReadBy(config, 0, actions)
    ensures t.alive ==>
      t.log.taken + t.body.current + ChunksOf(t.body.channel) + InHand(t.io.tasks) == ReadBy(config, 0, actions)
  {
    InitInv(config);
    AcceptedInRun(Init(config), actions, t);
    RunKeepsConfig(Init(config), actions, t);
    assert [] + ReadBy(config, 0, actions) == ReadBy(config, 0, actions);
    hide ReadBy, Inv, ChunksOf, InHand;
    assert Reachable(t);
    BytesAreConserved(t);
  }

  lemma {:induction false} RunKeepsConfig(s: Sys, actions: seq<Action>, t: Sys)
    requires Inv(s) && Reaches(s, actions, t)
    ensures t.config == s.config
    decreases |actions|
  {
    hide Inv, Apply, Enabled;
    if actions != [] {
      StepKeepsInv(s, actions[0]);
      RunKeepsConfig(Apply(s, actions[0]), actions[1..], t);
    }
  }

  // ---------- Which error is reported ----------

  function First(recorded: seq<Fault>): Option<Fault> {
    if recorded == [] then None else Some(recorded[0])
  }

  /** The error of a request that is over, if any. */
  function Errors(published: Option<Option<Fault>>): seq<Fault> {
    if published.Some? && published.value.Some? then [published.value.value] else []
  }

  predicate PublishedInv(cb: Callback, log: Log) {
    if cb.done then cb.published == Some(if log.recorded != [] then First(log.recorded) else log.fallback)
    else cb.published.None? && cb.requestError == First(log.recorded)
  }

  predicate ToldInv(cb: Callback, io: Io, body: Body, alive: bool, log: Log) {
    alive ==> log.told + FaultsOf(body.channel) + io.errors == Errors(cb.published)
  }

  predicate ReportInv(s: Sys) {
    PublishedInv(s.cb, s.log) && ToldInv(s.cb, s.io, s.body, s.alive, s.log)
  }

  lemma PublishedKept(s: Sys, a: Action)
    requires PublishedInv(s.cb, s.log) && Enabled(s, a)
    ensures PublishedInv(Apply(s, a).cb, Apply(s, a).log)
  {
    hide PollRead, PollNext, RemoveAt, Judge;
  }

  lemma OneFault(item: Item)
    ensures FaultsOf([item]) == ItemFaults(item)
  {
    assert FaultsOf([]) == [];
  }

  lemma ChannelSame(s: Sys, a: Action)
    requires Enabled(s, a) && !a.Send? && !a.SendError? && !a.Terminal? && !a.AppReads? && !a.AppNext? && !a.AppDrops?
    ensures var t := Apply(s, a);
            t.body.channel == s.body.channel && t.io.errors == s.io.errors && t.log.told == s.log.told
            && t.cb.published == s.cb.published && t.alive == s.alive
  {
    hide RemoveAt, Judge;
  }

  lemma ToldKept(s: Sys, a: Action)
    requires ReportInv(s) && Enabled(s, a)
    ensures ToldInv(Apply(s, a).cb, Apply(s, a).io, Apply(s, a).body, Apply(s, a).alive, Apply(s, a).log)
  {
    hide PollRead, PollNext, FaultsOf, Judged, Read;
    match a {
      case Send(i) =>
        FaultsOfConcat(s.body.channel, [Chunk(s.io.tasks[i].chunk)]);
        OneFault(Chunk(s.io.tasks[i].chunk));
      case SendError(i) =>
        SendTells(s, i);
      case Terminal(_) => TerminalTells(s, a);
      case AppReads(room) =>
        PollReadFaults(s.body, room);
        Regroup(s.log.told, ReadFaults(PollRead(s.body, room).1), FaultsOf(PollRead(s.body, room).0.channel), s.io.errors);
      case AppNext =>
        PollNextFaults(s.body);
        Regroup(s.log.told, NextFaults(PollNext(s.body).1), FaultsOf(PollNext(s.body).0.channel), s.io.errors);
      case AppDrops =>
      case _ => ChannelSame(s, a);
    }
  }

  lemma Regroup(a: seq<Fault>, b: seq<Fault>, c: seq<Fault>, d: seq<Fault>)
    ensures a + (b + c) + d == a + b + c + d
  {
  }

  lemma SendTells(s: Sys, i: nat)
    requires ReportInv(s) && Enabled(s, SendError(i))
    ensures var t := Apply(s, SendError(i)); ToldInv(t.cb, t.io, t.body, t.alive, t.log)
  {
    if s.alive {
      var fault := s.io.errors[i];
      FaultsOfConcat(s.body.channel, [Failure(fault)]);
      OneFault(Failure(fault));
      hide FaultsOf;
      assert |s.io.errors| == 1 && s.io.errors == [fault];
      assert RemoveAt(s.io.errors, i) == [];
    }
  }

  lemma TerminalTells(s: Sys, a: Action)
    requires ReportInv(s) && Enabled(s, a) && a.Terminal?
    ensures var t := Apply(s, a); ToldInv(t.cb, t.io, t.body, t.alive, t.log)
  {
    hide FaultsOf;
    if s.alive && !s.cb.done {
      assert s.log.told + FaultsOf(s.body.channel) + s.io.errors == [];
      assert s.io.errors == [];
    }
  }

  lemma {:induction false} RunKeepsReports(s: Sys, actions: seq<Action>, t: Sys)
    requires ReportInv(s) && Reaches(s, actions, t)
    ensures ReportInv(t)
    decreases |actions|
  {
    hide PublishedInv, ToldInv, Apply, Enabled;
    if actions != [] {
      PublishedKept(s, actions[0]);
      ToldKept(s, actions[0]);
      RunKeepsReports(Apply(s, actions[0]), actions[1..], t);
    }
  }

  lemma ReachableReports(s: Sys)
    requires Reachable(s)
    ensures ReportInv(s)
  {
    var actions :| Reaches(Init(s.config), actions, s);
    assert ReportInv(Init(s.config)) by { assert FaultsOf([]) == []; }
    RunKeepsReports(Init(s.config), actions, s);
  }

  /** A request that is over publishes the first error recorded before its terminal
      callback, and that callback's own outcome if there was none. */
  lemma FirstErrorIsPublished(s: Sys)
    requires Reachable(s)
    ensures s.cb.published.Some? <==> s.cb.done
    ensures s.cb.done ==>
      s.cb.published == Some(if s.log.recorded != [] then Some(s.log.recorded[0]) else s.log.fallback)
  {
    ReachableReports(s);
    hide ToldInv;
  }

  /** The published error, and no other, is on its way to the application or was
      handed out, once; who meets the end of the body has been told of it. */
  lemma ErrorIsToldOnce(s: Sys, room: nat)
    requires Reachable(s) && s.alive
    ensures s.log.told + FaultsOf(s.body.channel) + s.io.errors
         == if s.cb.published.Some? && s.cb.published.value.Some? then [s.cb.published.value.value] else []
    ensures PollRead(s.body, room).1.EndOfBody? || PollNext(s.body).1.NoMore? ==>
      s.cb.published.Some?
      && s.log.told == if s.cb.published.value.Some? then [s.cb.published.value.value] else []
  {
    ReachableReports(s);
    ReachableInv(s);
    if PollRead(s.body, room).1.EndOfBody? || PollNext(s.body).1.NoMore? {
      PollReadFaults(s.body, room);
      PollNextFaults(s.body);
      EndIsEmpty(s.body, room);
      hide PollRead, PollNext;
      assert FaultsOf(s.body.channel) == [];
    }
  }

  lemma {:induction false} EndIsEmpty(b: Body, room: nat)
    requires PollRead(b, room).1.EndOfBody? || PollNext(b).1.NoMore?
    ensures b.closed && FaultsOf(b.channel) == []
    decreases |b.channel|
  {
    if b.current == [] && b.channel != [] && b.channel[0].Chunk? && PollRead(b, room).1.EndOfBody? {
      EndIsEmpty(b.(channel := b.channel[1..], current := b.channel[0].bytes), room);
    }
  }

  /** Which error a completed read records: that of its size, of the limit, of the
      missing data, or of the next read that native code rejects. */
  lemma ReadRecords(s: Sys, a: Action)
    requires Reachable(s) && Enabled(s, a) && a.ReadCompleted?
    ensures Apply(s, a).log.recorded == s.log.recorded +
      if a.reported > a.capacity then [InvalidReadSize(a.reported, a.capacity)]
      else if s.cb.received + a.reported > s.config.limit then [ResponseTooLarge(s.config.limit)]
      else if a.reported > 0 then if a.memory.None? then [NoBuffer] else []
      else if a.rejected.Some? then [Rejected(a.rejected.value)] else []
  {
    ReachableInv(s);
    hide FlowInv, ErrorInv, ChannelInv, PumpInv;
  }

  /** A read that comes back empty, or whose chunk has been forwarded, is followed
      by the next read, unless the request is over or native code rejects it. */
  lemma ReadsGoOn(s: Sys, a: Action)
    requires Reachable(s) && Enabled(s, a)
    requires a.Resume? || (a.ReadCompleted? && a.reported == 0)
    ensures Apply(s, a).io.outstanding == if s.cb.done || a.rejected.Some? then 0 else 1
  {
    ReachableInv(s);
    hide FlowInv, ErrorInv, ChannelInv;
  }

  /** What the other callbacks record: a response that its owner no longer wants, a
      buffer that cannot be had, a rejected first read, a chunk that nobody takes. */
  lemma OthersRecord(s: Sys, a: Action)
    requires Enabled(s, a) && !s.cb.done && (a.ResponseStarted? || a.SendRefused? || a.Resume?)
    ensures Apply(s, a).log.recorded == s.log.recorded +
      if a.SendRefused? || (a.ResponseStarted? && a.start.HeadersRefused?) then [NoReceiver]
      else if a.ResponseStarted? && a.start.AllocationFailed? then [NoBuffer]
      else if a.ResponseStarted? && a.start.rejected.Some? then [Rejected(a.start.rejected.value)]
      else if a.Resume? && a.rejected.Some? then [Rejected(a.rejected.value)]
      else []
    ensures a.ResponseStarted? && a.start.FirstRead? && a.start.rejected.None? ==>
      Apply(s, a).io.outstanding == s.io.outstanding + 1
  {
    hide RemoveAt;
  }

  // ---------- The end can be met ----------

  function Backlog(b: Body): nat {
    |b.channel| + (if b.current != [] then 1 else 0)
  }

  function TaskRank(tasks: seq<Task>): nat {
    if tasks == [] then 0 else (if tasks[0].Sending? then 4 else 2) + TaskRank(tasks[1..])
  }

  function Rank(s: Sys): nat {
    Backlog(s.body) + TaskRank(s.io.tasks) + 2 * |s.io.errors| + (if s.body.closed then 0 else 1)
  }

  /** The request is over and its receiver there. */
  predicate Closing(s: Sys) {
    s.alive && s.cb.done && s.config.capacity > 0
  }

  /** The next thing on the way to the end. */
  function Onward(s: Sys): Action {
    if Backlog(s.body) > 0 then AppNext
    else if s.io.tasks != [] then if s.io.tasks[0].Sending? then Send(0) else Resume(0, None)
    else if s.io.errors != [] then SendError(0)
    else CloseSenders
  }

  lemma OneStepOnward(s: Sys)
    requires Inv(s) && Closing(s) && (Backlog(s.body) > 0 || !s.body.closed)
    ensures Enabled(s, Onward(s)) && Closing(Apply(s, Onward(s))) && Rank(Apply(s, Onward(s))) < Rank(s)
  {
    hide SizeInv, FlowInv, ErrorInv;
    if Backlog(s.body) == 0 && s.io.tasks != [] {
      assert |s.io.tasks| == 1;
      assert TaskRank(s.io.tasks) == if s.io.tasks[0].Sending? then 4 else 2;
      assert s.io.tasks[0].Sending? ==> TaskRank(s.io.tasks[0 := Resuming]) == 2;
    }
  }

  lemma Steps(s: Sys, a: Action, actions: seq<Action>, t: Sys)
    requires Enabled(s, a) && Reaches(Apply(s, a), actions, t)
    ensures Reaches(s, [a] + actions, t)
  {
    hide Enabled, Apply;
    assert ([a] + actions)[1..] == actions;
  }

  lemma {:induction false} DrainsToTheEnd(s: Sys) returns (actions: seq<Action>, t: Sys)
    requires Inv(s) && Closing(s)
    ensures Reaches(s, actions, t) && t.alive && PollNext(t.body).1.NoMore?
    decreases Rank(s)
  {
    if Backlog(s.body) == 0 && s.body.closed {
      actions, t := [], s;
    } else {
      var a := Onward(s);
      OneStepOnward(s);
      StepKeepsInv(s, a);
      hide Inv, Apply, Enabled, Closing, Onward, Rank, Backlog;
      actions, t := DrainsToTheEnd(Apply(s, a));
      Steps(s, a, actions, t);
      actions := [a] + actions;
    }
  }

  /** From every state of a request that is over the application can get to the end of
      its body. */
  lemma EndCanBeMet(s: Sys) returns (actions: seq<Action>, t: Sys)
    requires Reachable(s) && s.alive && s.cb.done && s.config.capacity > 0
    ensures Reaches(s, actions, t) && t.alive && PollNext(t.body).1.NoMore?
  {
    ReachableInv(s);
    actions, t := DrainsToTheEnd(s);
  }
}
