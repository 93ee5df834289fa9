/**
 The terminal callback of a bidirectional stream: any number of `terminal`
 calls, each a sequence of small sections, interleaved with errors recorded by
 other threads and with the other native callbacks.
 */
module StreamTerminal {
  import opened Base

  /** Response headers or trailers; those that a success makes up are empty. */
  type Fields = seq<nat>

  datatype Delivery = Fields(fields: Fields) | Broken(error: Error)

  /** The next section of a `terminal` call. */
  datatype At =
    | Called
    | Lost               // somebody else was first
    | Taking             // about to take the recorded error
    | AnsweringReady
    | CheckingHeaders
    | SettingHeaders
    | CheckingTrailers
    | SettingTrailers
    | Publishing
    | FinishingWrites
    | Spawning
    | SignallingCleanup
    | Finished

  datatype Call = Call(fallback: Option<Error>, at: At)

  /** What other threads see. `ready` holds the answers sent to the opener. */
  datatype Shared = Shared(
    done: bool, pendingError: Option<Error>, readySender: bool, ready: seq<Outcome>,
    headers: Option<Delivery>, trailers: Option<Delivery>, terminal: Option<Outcome>,
    writes: Option<Outcome>, events: seq<Outcome>, cleanup: bool)

  /** History of headers or trailers: those that native code delivered, and how
      many these were when the winner looked and when it made some up. */
  datatype Slot = Slot(delivered: seq<Fields>, checked: Option<nat>, made: Option<nat>)

  /** History: errors recorded so far, how many when the winner took, who won and
      with what result; headers and trailers; whether `on_stream_ready` answered
      the opener; and the errors of the writer task. */
  datatype Log = Log(
    recorded: seq<Error>, taken: Option<nat>, winner: Option<nat>, result: Outcome,
    headers: Slot, trailers: Slot, readied: bool, writer: seq<Error>)

  datatype Sys = Sys(shared: Shared, calls: seq<Call>, log: Log)

  datatype Action =
    | Invoke(fallback: Option<Error>)
    | Step(call: nat)
    | RecordError(error: Error)
    | StreamReady
    | ResponseHeaders(fields: Fields)
    | ResponseTrailers(fields: Fields)
    | WriterFails(error: Error)

  const INITIAL := Sys(
    Shared(false, None, true, [], None, None, None, None, [], false), [],
    Log([], None, None, Done, Slot([], None, None), Slot([], None, None), false, []))

  function Result(error: Option<Error>): Outcome {
    if error.Some? then Failed(error.value) else Done
  }

  /** What is made up for headers or trailers that never came. */
  function MadeUp(result: Outcome): Delivery {
    match result
    case Done => Fields([])
    case Failed(error) => Broken(error)
  }

  predicate Enabled(s: Sys, a: Action) {
    match a
    case Step(i) => i < |s.calls| && !s.calls[i].at.Lost? && !s.calls[i].at.Finished?
    case _ => true
  }

  function NextAt(at: At, shared: Shared): At {
    match at
    case Called => if shared.done then Lost else Taking
    case Lost => Lost
    case Taking => AnsweringReady
    case AnsweringReady => CheckingHeaders
    case CheckingHeaders => if shared.headers.None? then SettingHeaders else CheckingTrailers
    case SettingHeaders => CheckingTrailers
    case CheckingTrailers => if shared.trailers.None? then SettingTrailers else Publishing
    case SettingTrailers => Publishing
    case Publishing => FinishingWrites
    case FinishingWrites => Spawning
    case Spawning => SignallingCleanup
    case SignallingCleanup => Finished
    case Finished => Finished
  }

  function Section(at: At, shared: Shared, result: Outcome): Shared {
    match at
    case Called => shared.(done := true)
    case Taking => shared.(pendingError := None)
    case AnsweringReady =>
      if shared.readySender then shared.(readySender := false, ready := shared.ready + [result]) else shared
    case SettingHeaders => shared.(headers := Some(MadeUp(result)))
    case SettingTrailers => shared.(trailers := Some(MadeUp(result)))
    case Publishing => shared.(terminal := Some(result))
    case FinishingWrites => shared.(writes := Some(result))
    case Spawning => shared.(events := shared.events + [result])
    case SignallingCleanup => shared.(cleanup := true)
    case _ => shared
  }

  function Note(log: Log, i: nat, call: Call, shared: Shared): Log {
    match call.at
    case Called => if shared.done then log else log.(winner := Some(i))
    case Taking =>
      log.(taken := Some(|log.recorded|),
           result := Result(if shared.pendingError.Some? then shared.pendingError else call.fallback))
    case CheckingHeaders => log.(headers := log.headers.(checked := Some(|log.headers.delivered|)))
    case SettingHeaders => log.(headers := log.headers.(made := Some(|log.headers.delivered|)))
    case CheckingTrailers => log.(trailers := log.trailers.(checked := Some(|log.trailers.delivered|)))
    case SettingTrailers => log.(trailers := log.trailers.(made := Some(|log.trailers.delivered|)))
    case _ => log
  }

  function Apply(s: Sys, a: Action): Sys
    requires Enabled(s, a)
  {
    match a
    case Invoke(fallback) => s.(calls := s.calls + [Call(fallback, Called)])
    case Step(i) =>
      var call := s.calls[i];
      Sys(Section(call.at, s.shared, s.log.result), s.calls[i := call.(at := NextAt(call.at, s.shared))],
          Note(s.log, i, call, s.shared))
    case RecordError(error) =>
      s.(shared := if s.shared.pendingError.Some? then s.shared else s.shared.(pendingError := Some(error)),
         log := s.log.(recorded := s.log.recorded + [error]))
    case StreamReady =>
      if s.shared.readySender then
        s.(shared := s.shared.(readySender := false, ready := s.shared.ready + [Done]), log := s.log.(readied := true))
      else s
    case ResponseHeaders(fields) =>
      s.(shared := s.shared.(headers := Some(Fields(fields))), log := s.log.(headers := Deliver(s.log.headers, fields)))
    case ResponseTrailers(fields) =>
      s.(shared := s.shared.(trailers := Some(Fields(fields))), log := s.log.(trailers := Deliver(s.log.trailers, fields)))
    case WriterFails(error) =>
      s.(shared := s.shared.(writes := Some(Failed(error))), log := s.log.(writer := s.log.writer + [error]))
  }

  function Deliver(slot: Slot, fields: Fields): Slot {
    slot.(delivered := slot.delivered + [fields])
  }

  // ---------- The invariant ----------

  /** How far a call has got; zero for one that has not won. */
  function Rank(at: At): nat {
    match at
    case Called => 0
    case Lost => 0
    case Taking => 1
    case AnsweringReady => 2
    case CheckingHeaders => 3
    case SettingHeaders => 4
    case CheckingTrailers => 5
    case SettingTrailers => 6
    case Publishing => 7
    case FinishingWrites => 8
    case Spawning => 9
    case SignallingCleanup => 10
    case Finished => 11
  }

  /** How far the winner has got. */
  function Progress(s: Sys): nat {
    if s.log.winner.Some? && s.log.winner.value < |s.calls| then Rank(s.calls[s.log.winner.value].at) else 0
  }

  predicate WinnerInv(shared: Shared, calls: seq<Call>, log: Log) {
    && (shared.done <==> log.winner.Some?)
    && (log.winner.Some? ==> log.winner.value < |calls| && Rank(calls[log.winner.value].at) > 0)
    && (forall i :: 0 <= i < |calls| && log.winner != Some(i) ==> Rank(calls[i].at) == 0)
  }

  /** What the winner has published by the time it has got to `progress`. */
  predicate PublishedInv(shared: Shared, result: Outcome, progress: nat) {
    && |shared.ready| + (if shared.readySender then 1 else 0) == 1
    && (progress >= 3 ==> !shared.readySender)
    && (progress >= 5 ==> shared.headers.Some?)
    && (progress >= 7 ==> shared.trailers.Some?)
    && shared.terminal == (if progress >= 8 then Some(result) else None)
    && (progress >= 9 ==> shared.writes.Some?)
    && shared.events == (if progress >= 10 then [result] else [])
    && (shared.cleanup <==> progress >= 11)
  }

  predicate ErrorInv(shared: Shared, calls: seq<Call>, log: Log, progress: nat) {
    && (log.taken.Some? <==> progress >= 2)
    && (log.taken.None? ==>
          shared.pendingError == if log.recorded == [] then None else Some(log.recorded[0]))
    && (log.taken.Some? && log.winner.Some? && log.winner.value < |calls| ==>
          && log.taken.value <= |log.recorded|
          && log.result == if log.taken.value > 0 then Failed(log.recorded[0]) else Result(calls[log.winner.value].fallback))
  }

  /** The winner found nothing, made something up, and nothing came after that. */
  predicate Overwritten(slot: Slot) {
    slot.checked == Some(0) && slot.made == Some(|slot.delivered|)
  }

  /** What a watch channel holds that the winner looks at in section `look`. */
  predicate SlotInv(value: Option<Delivery>, slot: Slot, result: Outcome, progress: nat, look: nat) {
    && (slot.checked.Some? <==> progress > look)
    && (slot.made.Some? <==> progress > look + 1 && slot.checked == Some(0))
    && (progress == look + 1 ==> slot.checked == Some(0))
    && (slot.checked.Some? ==> slot.checked.value <= |slot.delivered|)
    && (slot.made.Some? ==> slot.made.value <= |slot.delivered|)
    && value ==
         if slot.made.Some? && slot.made.value == |slot.delivered| then Some(MadeUp(result))
         else if slot.delivered != [] then Some(Fields(slot.delivered[|slot.delivered| - 1]))
         else None
  }

  /** The answers to the opener and to those who wait for the writes. */
  predicate AnswerInv(shared: Shared, log: Log, progress: nat) {
    && (shared.readySender ==> !log.readied && progress < 3)
    && (!shared.readySender ==> shared.ready == [if log.readied then Done else log.result])
    && (!log.readied && !shared.readySender ==> progress >= 3)
    && (log.writer == [] ==> shared.writes == if progress >= 9 then Some(log.result) else None)
    && (shared.writes.Some? ==>
          (progress >= 9 && shared.writes == Some(log.result)) || (shared.writes.value.Failed? && shared.writes.value.error in log.writer))
  }

  predicate Inv(s: Sys) {
    && WinnerInv(s.shared, s.calls, s.log)
    && PublishedInv(s.shared, s.log.result, Progress(s))
    && ErrorInv(s.shared, s.calls, s.log, Progress(s))
    && SlotInv(s.shared.headers, s.log.headers, s.log.result, Progress(s), 3)
    && SlotInv(s.shared.trailers, s.log.trailers, s.log.result, Progress(s), 5)
    && AnswerInv(s.shared, s.log, Progress(s))
  }

  lemma WinnerKept(s: Sys, a: Action)
    requires Inv(s) && Enabled(s, a)
    ensures WinnerInv(Apply(s, a).shared, Apply(s, a).calls, Apply(s, a).log)
    ensures !a.Step? ==> Progress(Apply(s, a)) == Progress(s)
    ensures a.Step? ==>
      if s.log.winner == Some(a.call) then Progress(Apply(s, a)) == Rank(NextAt(s.calls[a.call].at, s.shared))
      else Progress(Apply(s, a)) == if s.shared.done then Progress(s) else 1
    ensures a.Step? && s.log.winner != Some(a.call) ==> s.calls[a.call].at.Called?
  {
    hide PublishedInv, ErrorInv, SlotInv, AnswerInv;
  }

  /** The section of a winner, or of the call that wins. */
  predicate Effective(shared: Shared, call: Call) {
    (call.at.Called? ==> !shared.done) && !call.at.Lost? && !call.at.Finished?
  }

  lemma SectionPublishes(shared: Shared, log: Log, i: nat, call: Call)
    requires Effective(shared, call) && PublishedInv(shared, log.result, Rank(call.at))
    ensures PublishedInv(Section(call.at, shared, log.result), Note(log, i, call, shared).result, Rank(NextAt(call.at, shared)))
  {
    hide MadeUp;
  }

  lemma SectionTakes(shared: Shared, calls: seq<Call>, log: Log, i: nat)
    requires i < |calls| && Effective(shared, calls[i]) && ErrorInv(shared, calls, log, Rank(calls[i].at))
    requires calls[i].at.Called? || log.winner == Some(i)
    ensures var call := calls[i];
            ErrorInv(Section(call.at, shared, log.result), calls[i := call.(at := NextAt(call.at, shared))],
                     Note(log, i, call, shared), Rank(NextAt(call.at, shared)))
  {
    hide MadeUp;
  }

  lemma SectionSetsHeaders(shared: Shared, log: Log, i: nat, call: Call)
    requires Effective(shared, call) && SlotInv(shared.headers, log.headers, log.result, Rank(call.at), 3)
    ensures var next := Note(log, i, call, shared);
            SlotInv(Section(call.at, shared, log.result).headers, next.headers, next.result, Rank(NextAt(call.at, shared)), 3)
  {
    var section, next := Section(call.at, shared, log.result), Note(log, i, call, shared);
    hide MadeUp;
    assert section.headers == if call.at.SettingHeaders? then Some(MadeUp(log.result)) else shared.headers;
    assert !call.at.CheckingHeaders? && !call.at.SettingHeaders? ==> next.headers == log.headers;
    assert !call.at.Taking? ==> next.result == log.result;
    hide Section;
  }

  lemma SectionSetsTrailers(shared: Shared, log: Log, i: nat, call: Call)
    requires Effective(shared, call) && SlotInv(shared.trailers, log.trailers, log.result, Rank(call.at), 5)
    ensures var next := Note(log, i, call, shared);
            SlotInv(Section(call.at, shared, log.result).trailers, next.trailers, next.result,
                    Rank(NextAt(call.at, shared)), 5)
  {
    var section, next := Section(call.at, shared, log.result), Note(log, i, call, shared);
    hide MadeUp;
    assert section.trailers == if call.at.SettingTrailers? then Some(MadeUp(log.result)) else shared.trailers;
    assert !call.at.CheckingTrailers? && !call.at.SettingTrailers? ==> next.trailers == log.trailers;
    assert !call.at.Taking? ==> next.result == log.result;
    hide Section;
  }

  lemma SectionAnswers(shared: Shared, log: Log, i: nat, call: Call)
    requires Effective(shared, call) && AnswerInv(shared, log, Rank(call.at))
    requires PublishedInv(shared, log.result, Rank(call.at))
    ensures var next := Note(log, i, call, shared);
            AnswerInv(Section(call.at, shared, log.result), next, Rank(NextAt(call.at, shared)))
  {
    hide MadeUp;
  }

  lemma StepKeeps(s: Sys, i: nat)
    requires Inv(s) && Enabled(s, Step(i))
    ensures Inv(Apply(s, Step(i)))
  {
    WinnerKept(s, Step(i));
    var call := s.calls[i];
    if call.at.Called? && s.shared.done {
      LosingKeeps(s, i);
    } else {
      hide PublishedInv, ErrorInv, SlotInv, AnswerInv;
      assert Effective(s.shared, call) && Progress(s) == Rank(call.at);
      SectionPublishes(s.shared, s.log, i, call);
      SectionTakes(s.shared, s.calls, s.log, i);
      SectionSetsHeaders(s.shared, s.log, i, call);
      SectionSetsTrailers(s.shared, s.log, i, call);
      SectionAnswers(s.shared, s.log, i, call);
      hide WinnerInv, Progress, Rank, Section, NextAt, Note;
    }
  }

  lemma LosingKeeps(s: Sys, i: nat)
    requires Inv(s) && Enabled(s, Step(i)) && s.calls[i].at.Called? && s.shared.done
    ensures Inv(Apply(s, Step(i)))
  {
    WinnerKept(s, Step(i));
    var t := Apply(s, Step(i));
    assert t.shared == s.shared && t.log == s.log;
    hide PublishedInv, SlotInv, AnswerInv;
  }

  lemma OthersKeep(s: Sys, a: Action)
    requires Inv(s) && Enabled(s, a) && !a.Step?
    ensures Inv(Apply(s, a))
  {
    WinnerKept(s, a);
    hide WinnerInv, Section, NextAt, Note;
  }

  lemma StepKeepsInv(s: Sys, a: Action)
    requires Inv(s) && Enabled(s, a)
    ensures Inv(Apply(s, a))
  {
    hide Inv, Apply;
    if a.Step? {
      StepKeeps(s, a.call);
    } else {
      OthersKeep(s, a);
    }
  }

  // ---------- Runs ----------

  ghost predicate Reaches(s: Sys, actions: seq<Action>, t: Sys)
    decreases |actions|
  {
    if actions == [] then s == t
    else Enabled(s, actions[0]) && Reaches(Apply(s, actions[0]), actions[1..], t)
  }

  ghost predicate Reachable(s: Sys) {
    exists actions :: Reaches(INITIAL, actions, s)
  }

  lemma {:induction false} RunKeepsInv(s: Sys, actions: seq<Action>, t: Sys)
    requires Inv(s) && Reaches(s, actions, t)
    ensures Inv(t)
    decreases |actions|
  {
    hide Inv, Apply, Enabled;
    if actions != [] {
      StepKeepsInv(s, actions[0]);
      RunKeepsInv(Apply(s, actions[0]), actions[1..], t);
    }
  }

  lemma ReachableInv(s: Sys)
    requires Reachable(s)
    ensures Inv(s)
  {
    var actions :| Reaches(INITIAL, actions, s);
    RunKeepsInv(INITIAL, actions, s);
  }

  /** The headers that native code delivers in a run, first ones first. */
  function HeadersOf(actions: seq<Action>): seq<Fields> {
    if actions == [] then [] else HeadersIn(actions[0]) + HeadersOf(actions[1..])
  }

  function HeadersIn(a: Action): seq<Fields> {
    if a.ResponseHeaders? then [a.fields] else []
  }

  function TrailersOf(actions: seq<Action>): seq<Fields> {
    if actions == [] then [] else TrailersIn(actions[0]) + TrailersOf(actions[1..])
  }

  function TrailersIn(a: Action): seq<Fields> {
    if a.ResponseTrailers? then [a.fields] else []
  }

  function WriterErrors(actions: seq<Action>): seq<Error> {
    if actions == [] then [] else WriterErrorsIn(actions[0]) + WriterErrors(actions[1..])
  }

  function WriterErrorsIn(a: Action): seq<Error> {
    if a.WriterFails? then [a.error] else []
  }

  lemma {:induction false} HeadersOfRun(s: Sys, actions: seq<Action>, t: Sys)
    requires Reaches(s, actions, t)
    ensures t.log.headers.delivered == s.log.headers.delivered + HeadersOf(actions)
    decreases |actions|
  {
    if actions != [] {
      StepHistory(s, actions[0]);
      hide Apply, Enabled, HeadersIn;
      HeadersOfRun(Apply(s, actions[0]), actions[1..], t);
    }
  }

  lemma {:induction false} TrailersOfRun(s: Sys, actions: seq<Action>, t: Sys)
    requires Reaches(s, actions, t)
    ensures t.log.trailers.delivered == s.log.trailers.delivered + TrailersOf(actions)
    decreases |actions|
  {
    if actions != [] {
      StepHistory(s, actions[0]);
      hide Apply, Enabled, TrailersIn;
      TrailersOfRun(Apply(s, actions[0]), actions[1..], t);
    }
  }

  lemma {:induction false} WriterErrorsOfRun(s: Sys, actions: seq<Action>, t: Sys)
    requires Reaches(s, actions, t)
    ensures t.log.writer == s.log.writer + WriterErrors(actions)
    decreases |actions|
  {
    if actions != [] {
      StepHistory(s, actions[0]);
      hide Apply, Enabled, WriterErrorsIn;
      WriterErrorsOfRun(Apply(s, actions[0]), actions[1..], t);
    }
  }

  lemma {:induction false} ReadiedInRun(s: Sys, actions: seq<Action>, t: Sys)
    requires Reaches(s, actions, t)
    ensures t.log.readied ==> s.log.readied || StreamReady in actions
    decreases |actions|
  {
    if actions != [] {
      StepHistory(s, actions[0]);
      hide Apply, Enabled;
      ReadiedInRun(Apply(s, actions[0]), actions[1..], t);
      assert forall a :: a in actions[1..] ==> a in actions;
    }
  }

  /** The history is that of the actions. */
  lemma HistoryOfRun(actions: seq<Action>, t: Sys)
    requires Reaches(INITIAL, actions, t)
    ensures t.log.headers.delivered == HeadersOf(actions) && t.log.trailers.delivered == TrailersOf(actions)
    ensures t.log.writer == WriterErrors(actions) && (t.log.readied ==> StreamReady in actions)
  {
    HeadersOfRun(INITIAL, actions, t);
    TrailersOfRun(INITIAL, actions, t);
    WriterErrorsOfRun(INITIAL, actions, t);
    ReadiedInRun(INITIAL, actions, t);
    hide HeadersOf, TrailersOf, WriterErrors, Reaches;
    assert [] + HeadersOf(actions) == HeadersOf(actions) && [] + TrailersOf(actions) == TrailersOf(actions);
    assert [] + WriterErrors(actions) == WriterErrors(actions);
  }

  lemma StepHistory(s: Sys, a: Action)
    requires Enabled(s, a)
    ensures var t := Apply(s, a);
            && t.log.headers.delivered == s.log.headers.delivered + HeadersIn(a)
            && t.log.trailers.delivered == s.log.trailers.delivered + TrailersIn(a)
            && t.log.writer == s.log.writer + WriterErrorsIn(a)
            && (t.log.readied ==> s.log.readied || a == StreamReady)
  {
    hide Section, NextAt;
  }

  /** At most one `terminal` call gets past the exchange of `done`. */
  lemma OneTerminalTakesEffect(s: Sys, i: nat, j: nat)
    requires Reachable(s) && i < |s.calls| && j < |s.calls|
    requires Rank(s.calls[i].at) > 0 && Rank(s.calls[j].at) > 0
    ensures i == j
  {
    hide PublishedInv, ErrorInv;
    ReachableInv(s);
  }

  /** Once a call is through, the opener has been answered exactly once, and
      headers, trailers, terminal result and write result all hold a value;
      nothing of that is missing when the cleanup task is told. */
  lemma TerminalPublishesEverything(s: Sys, i: nat)
    requires Reachable(s) && i < |s.calls|
    requires s.calls[i].at.Finished? || s.shared.cleanup
    ensures |s.shared.ready| == 1
    ensures s.shared.headers.Some? && s.shared.trailers.Some? && s.shared.writes.Some?
    ensures s.shared.terminal == Some(s.log.result) && s.shared.events == [s.log.result]
  {
    hide ErrorInv, SlotInv, AnswerInv;
    ReachableInv(s);
  }

  /** What a failed or successful stream puts in place of fields that never came:
      its error, or no fields. */
  predicate StandsIn(value: Option<Delivery>, result: Outcome) {
    value == Some(if result.Failed? then Broken(result.error) else Fields([]))
  }

  predicate IsLast(value: Option<Delivery>, delivered: seq<Fields>) {
    delivered != [] && value == Some(Fields(delivered[|delivered| - 1]))
  }

  /** Which values these are. Headers are the last ones that native code delivered,
      unless all of them came between the winner's look and its own, or there were
      none: then they are the stream's error, or empty after a success. The same
      holds of trailers. The opener got `Done` if `on_stream_ready` was first, and
      the published result otherwise; the write side was told the same result,
      unless an error of the writer task came later. */
  lemma TerminalPublishesWhat(s: Sys, i: nat)
    requires Reachable(s) && i < |s.calls|
    requires s.calls[i].at.Finished? || s.shared.cleanup
    ensures s.shared.terminal.Some?
    ensures var result := s.shared.terminal.value;
            && (Overwritten(s.log.headers) ==> StandsIn(s.shared.headers, result))
            && (!Overwritten(s.log.headers) ==> IsLast(s.shared.headers, s.log.headers.delivered))
            && (Overwritten(s.log.trailers) ==> StandsIn(s.shared.trailers, result))
            && (!Overwritten(s.log.trailers) ==> IsLast(s.shared.trailers, s.log.trailers.delivered))
            && s.shared.ready == [if s.log.readied then Done else result]
            && (s.log.writer == [] ==> s.shared.writes == Some(result))
  {
    hide ErrorInv;
    ReachableInv(s);
  }

  lemma {:induction false} Extend(s: Sys, actions: seq<Action>, t: Sys, a: Action)
    requires Reaches(s, actions, t) && Enabled(t, a)
    ensures Reaches(s, actions + [a], Apply(t, a))
    decreases |actions|
  {
    hide Enabled, Apply;
    if actions == [] {
      assert [a][1..] == [];
    } else {
      Extend(Apply(s, actions[0]), actions[1..], t, a);
      assert (actions + [a])[1..] == actions[1..] + [a];
    }
  }

  lemma Then(s: Sys, a: Action) returns (t: Sys)
    requires Reachable(s) && Enabled(s, a)
    ensures t == Apply(s, a) && Reachable(t)
  {
    t := Apply(s, a);
    hide Enabled, Apply;
    var actions :| Reaches(INITIAL, actions, s);
    Extend(INITIAL, actions, s, a);
  }

  /** Headers that native code delivers between the look and the setting are lost
      for good: a stream that succeeds shows none, whatever they were. */
  lemma HeadersAreOverwritten(fields: Fields) returns (s: Sys)
    ensures Reachable(s) && |s.calls| == 1 && s.calls[0].at.CheckingTrailers?
    ensures s.log.headers.delivered == [fields] && Overwritten(s.log.headers)
    ensures s.shared.headers == Some(Fields([]))
  {
    s := INITIAL;
    assert Reaches(INITIAL, [], s);
    hide Reachable;
    s := Then(s, Invoke(None));
    s := Then(s, Step(0));
    s := Then(s, Step(0));
    s := Then(s, Step(0));
    s := Then(s, Step(0));
    s := Then(s, ResponseHeaders(fields));
    s := Then(s, Step(0));
  }

  lemma ReadyIsAnsweredOnce(s: Sys)
    requires Reachable(s)
    ensures |s.shared.ready| <= 1
  {
    hide ErrorInv, WinnerInv, SlotInv, AnswerInv;
    ReachableInv(s);
  }

  /** The published result is the first error recorded, if any was recorded before
      the winner took it, and the winner's native outcome otherwise. */
  lemma ResultIsFirstErrorOrOutcome(s: Sys)
    requires Reachable(s) && s.shared.terminal.Some?
    ensures s.log.winner.Some? && s.log.winner.value < |s.calls|
    ensures s.log.taken.Some? && s.log.taken.value <= |s.log.recorded|
    ensures s.shared.terminal.value
         == if s.log.taken.value > 0 then Failed(s.log.recorded[0]) else Result(s.calls[s.log.winner.value].fallback)
  {
    ReachableInv(s);
  }

  lemma ShownStays(s: Sys, a: Action)
    requires Inv(s) && Enabled(s, a) && s.shared.terminal.Some?
    ensures Apply(s, a).shared.terminal == s.shared.terminal
  {
    StepKeepsInv(s, a);
    WinnerKept(s, a);
    hide WinnerInv, ErrorInv;
  }

  /** A terminal result once visible never changes. */
  lemma {:induction false} TerminalIsStable(s: Sys, actions: seq<Action>, t: Sys)
    requires Inv(s) && Reaches(s, actions, t) && s.shared.terminal.Some?
    ensures t.shared.terminal == s.shared.terminal
    decreases |actions|
  {
    hide Inv, Apply, Enabled;
    if actions != [] {
      StepKeepsInv(s, actions[0]);
      ShownStays(s, actions[0]);
      TerminalIsStable(Apply(s, actions[0]), actions[1..], t);
    }
  }

  // ---------- A call on its own ----------

  /** The sections of a call from `at` on, with nobody else stepping in. */
  function Alone(shared: Shared, at: At, fallback: Option<Error>, result: Outcome): Shared
    decreases 12 - Rank(at), if at.Called? then 1 else 0
  {
    if at.Lost? || at.Finished? then shared
    else
      var decided := if at.Taking? then Result(if shared.pendingError.Some? then shared.pendingError else fallback) else result;
      Alone(Section(at, shared, decided), NextAt(at, shared), fallback, decided)
  }

  /** All that a call does when nobody else steps in. */
  function Whole(shared: Shared, fallback: Option<Error>): Shared {
    if shared.done then shared
    else
      var result := Result(if shared.pendingError.Some? then shared.pendingError else fallback);
      Shared(true, None, false, if shared.readySender then shared.ready + [result] else shared.ready,
             if shared.headers.None? then Some(MadeUp(result)) else shared.headers,
             if shared.trailers.None? then Some(MadeUp(result)) else shared.trailers,
             Some(result), Some(result), shared.events + [result], true)
  }

  lemma PublishingAlone(shared: Shared, fallback: Option<Error>, result: Outcome)
    ensures Alone(shared, Publishing, fallback, result)
         == shared.(terminal := Some(result), writes := Some(result), events := shared.events + [result], cleanup := true)
  {
    var a := shared.(terminal := Some(result));
    var b := a.(writes := Some(result));
    var c := b.(events := b.events + [result]);
    assert Alone(b, Spawning, fallback, result) == Alone(c, SignallingCleanup, fallback, result);
    assert Alone(a, FinishingWrites, fallback, result) == Alone(b, Spawning, fallback, result);
  }

  lemma FieldsAlone(shared: Shared, fallback: Option<Error>, result: Outcome)
    ensures Alone(shared, CheckingHeaders, fallback, result)
         == Alone(shared.(headers := if shared.headers.None? then Some(MadeUp(result)) else shared.headers,
                          trailers := if shared.trailers.None? then Some(MadeUp(result)) else shared.trailers),
                  Publishing, fallback, result)
  {
    hide MadeUp;
    var h := shared.(headers := if shared.headers.None? then Some(MadeUp(result)) else shared.headers);
    assert Alone(shared, CheckingHeaders, fallback, result) == Alone(h, CheckingTrailers, fallback, result);
    assert h.trailers == shared.trailers;
  }

  lemma AloneIsWhole(shared: Shared, fallback: Option<Error>)
    ensures Alone(shared, Called, fallback, Done) == Whole(shared, fallback)
  {
    hide MadeUp;
    if !shared.done {
      var result := Result(if shared.pendingError.Some? then shared.pendingError else fallback);
      var taken := shared.(done := true, pendingError := None);
      var answered :=
        if taken.readySender then taken.(readySender := false, ready := taken.ready + [result]) else taken;
      assert Alone(shared.(done := true), Taking, fallback, Done) == Alone(taken, AnsweringReady, fallback, result);
      assert Alone(taken, AnsweringReady, fallback, result) == Alone(answered, CheckingHeaders, fallback, result);
      FieldsAlone(answered, fallback, result);
      PublishingAlone(
        answered.(headers := if shared.headers.None? then Some(MadeUp(result)) else shared.headers,
                  trailers := if shared.trailers.None? then Some(MadeUp(result)) else shared.trailers),
        fallback, result);
    }
  }

  /** `terminal` and its companions on the fields of the callback context. */
  class BidirectionalContext {
    var done: bool
    var pendingError: Option<Error>
    var readySender: bool
    var ready: seq<Outcome>
    var headers: Option<Delivery>
    var trailers: Option<Delivery>
    var terminal: Option<Outcome>
    var writes: Option<Outcome>
    var events: seq<Outcome>
    var cleanup: bool

    ghost function Value(): Shared
      reads this
    {
      Shared(done, pendingError, readySender, ready, headers, trailers, terminal, writes, events, cleanup)
    }

    constructor ()
      ensures Value() == INITIAL.shared
    {
      done, pendingError, readySender, ready := false, None, true, [];
      headers, trailers, terminal, writes, events, cleanup := None, None, None, None, [], false;
    }

    method Terminal(fallback: Option<Error>)
      modifies this
      ensures Value() == Alone(old(Value()), Called, fallback, Done)
      ensures old(done) ==> Value() == old(Value()).(done := true)
      ensures !old(done) ==>
        && terminal == Some(Result(if old(pendingError).Some? then old(pendingError) else fallback))
        && (headers.Some? && trailers.Some? && !readySender && cleanup)
        && (if old(headers).Some? then headers == old(headers) else StandsIn(headers, terminal.value))
        && (if old(trailers).Some? then trailers == old(trailers) else StandsIn(trailers, terminal.value))
        && ready == old(ready) + (if old(readySender) then [terminal.value] else [])
        && writes == terminal && events == old(events) + [terminal.value]
    {
      AloneIsWhole(Value(), fallback);
      hide Alone;
      if done {
        return;
      }
      done := true;
      var error := pendingError;
      pendingError := None;
      if error.None? {
        error := fallback;
      }
      var result := Result(error);
      if readySender {
        readySender, ready := false, ready + [result];
      }
      if headers.None? {
        headers := Some(MadeUp(result));
      }
      if trailers.None? {
        trailers := Some(MadeUp(result));
      }
      terminal := Some(result);
      writes := Some(result);
      events := events + [result];
      cleanup := true;
    }

    /** The recording half of `fail_then_cancel`. */
    method RecordFirst(error: Error)
      modifies this`pendingError
      ensures pendingError == if old(pendingError).Some? then old(pendingError) else Some(error)
    {
      if pendingError.None? {
        pendingError := Some(error);
      }
    }
  }
}
