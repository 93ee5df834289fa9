/**
 An engine and any number of requests and streams, as steps. A step of a
 request is a step of `NativeLifetime` together with what that step does to the
 engine; the other steps are those of `shutdown` callers, of the one
 initializer of the shutdown result, and of the engine's drop.
 */
module EngineProtocol {
  import opened EngineState
  import L = NativeLifetime

  /** A call of `shutdown` that has set `closing`. */
  datatype Caller =
    | Closed                      // about to copy the list of controls
    | Sweeping(owed: set<nat>)    // cancelling the controls of its copy
    | Waiting                     // in `get_or_init`

  /** The initializer's position in its two wait loops. */
  datatype At =
    | Loading                     // loop head: about to load `active`
    | Noting                      // loaded non-zero: about to create `notified`
    | Rechecking(generation: nat)
    | AwaitingActive(generation: nat)
    | NotingPending               // in `wait_idle`: about to create `notified`
    | CheckingPending(generation: nat)
    | AwaitingPending(generation: nat)
    | Ready                       // about to take the native engine
    | Joining                     // native shutdown spawned, or there was nothing to take

  datatype Phase = Unasked | Initialising(caller: nat, at: At) | Answered

  /** The native engine: owned by the engine, owned by the drop's thread which
      waits for the pending count, or being shut down. */
  datatype Native = Present | Detached | ShuttingDown

  datatype Shut = Shut(
    closing: bool, dropped: bool, native: Native, takes: nat, callers: map<nat, Caller>, phase: Phase, swept: bool)

  /** Operations held, finished callbacks pending, operations that belong to no
      request. */
  datatype Counts = Counts(active: nat, pending: nat, others: nat)

  /** Calls of `notify_waiters` on each `idle`, and operation drops that took the
      count to zero and have yet to notify. */
  datatype Idle = Idle(active: nat, pending: nat, due: nat)

  datatype Sys = Sys(shut: Shut, counts: Counts, idle: Idle, controls: set<nat>, reqs: map<nat, L.Req>)

  datatype Action =
    | Begin(request: nat, kind: L.Kind)
    | Request(request: nat, step: L.Action)
    | Forget(request: nat)
    | BeginOther
    | EndOther
    | NotifyIdle
    | StartShutdown(caller: nat)
    | Snapshot(caller: nat)
    | CancelOne(caller: nat, request: nat)
    | Swept(caller: nat)
    | Initialise(caller: nat)
    | Advance
    | Take
    | Answer
    | Leave(caller: nat)
    | DropEngine
    | DropShutdown

  function Init(): Sys {
    Sys(Shut(false, false, Present, 0, map[], Unasked, false), Counts(0, 0, 0), Idle(0, 0, 0), {}, map[])
  }

  // ---------- Requests ----------

  predicate Releases(a: L.Action) {
    a == L.ByOwner(L.DropOperation) || a == L.ByOwner(L.CreateFail)
  }

  predicate Uncounts(a: L.Action) {
    a == L.ByOwner(L.AbortFinish) || a == L.OnToken(L.TokenFinish)
  }

  function RequestCounts(c: Counts, a: L.Action): Counts {
    c.(active := if Releases(a) then Pred(c.active) else c.active,
       pending := if a == L.ByOwner(L.Count) then c.pending + 1 else if Uncounts(a) then Pred(c.pending) else c.pending)
  }

  /** `finish_one` notifies inside its section, an operation's drop later. */
  function RequestIdle(i: Idle, c: Counts, a: L.Action): Idle {
    i.(pending := if Uncounts(a) && c.pending == 1 then i.pending + 1 else i.pending,
       due := if Releases(a) && c.active == 1 then i.due + 1 else i.due)
  }

  predicate RequestEnabled(s: Sys, r: nat, a: L.Action) {
    && r in s.reqs && L.Enabled(s.reqs[r], a)
    && (a.ByOwner? && a.own.Register? ==> a.own.closing == s.shut.closing)
  }

  // ---------- The initializer ----------

  predicate Sleeping(at: At, idle: Idle) {
    || (at.AwaitingActive? && at.generation == idle.active)
    || (at.AwaitingPending? && at.generation == idle.pending)
  }

  function Next(at: At, c: Counts, idle: Idle): At {
    match at
    case Loading => if c.active == 0 then NotingPending else Noting
    case Noting => Rechecking(idle.active)
    case Rechecking(g) => if c.active == 0 then Loading else AwaitingActive(g)
    case AwaitingActive(_) => Loading
    case NotingPending => CheckingPending(idle.pending)
    case CheckingPending(g) => if c.pending == 0 then Ready else AwaitingPending(g)
    case AwaitingPending(_) => NotingPending
    case Ready => Ready
    case Joining => Joining
  }

  // ---------- Steps ----------

  predicate Enabled(s: Sys, a: Action) {
    match a
    case Begin(r, _) => r !in s.reqs && Admits(s.shut.closing, s.shut.native.Present?)
    case Request(r, step) => RequestEnabled(s, r, step)
    case Forget(r) => r in s.reqs && s.reqs[r].own.stage.Gone?
    case BeginOther => Admits(s.shut.closing, s.shut.native.Present?)
    case EndOther => s.counts.others > 0
    case NotifyIdle => s.idle.due > 0
    case StartShutdown(c) => c !in s.shut.callers && !s.shut.dropped
    case Snapshot(c) => c in s.shut.callers && s.shut.callers[c].Closed?
    case CancelOne(c, r) => c in s.shut.callers && s.shut.callers[c].Sweeping? && r in s.shut.callers[c].owed
    case Swept(c) => c in s.shut.callers && s.shut.callers[c] == Sweeping({})
    case Initialise(c) => c in s.shut.callers && s.shut.callers[c].Waiting? && s.shut.phase.Unasked?
    case Advance => s.shut.phase.Initialising? && !Sleeping(s.shut.phase.at, s.idle)
    case Take => s.shut.phase.Initialising? && s.shut.phase.at.Ready?
    case Answer => s.shut.phase.Initialising? && s.shut.phase.at.Joining?
    case Leave(c) => c in s.shut.callers && s.shut.callers[c].Waiting?
    case DropEngine => s.shut.callers == map[] && s.counts.active == 0 && !s.shut.dropped
    case DropShutdown => s.shut.native.Detached? && s.counts.pending == 0
  }

  function ShutStep(s: Shut, a: Action, c: Counts, idle: Idle, controls: set<nat>): Shut {
    match a
    case StartShutdown(k) => s.(closing := true, callers := s.callers[k := Closed])
    case Snapshot(k) => s.(callers := s.callers[k := Sweeping(controls)])
    case CancelOne(k, r) =>
      if k in s.callers && s.callers[k].Sweeping? then s.(callers := s.callers[k := Sweeping(s.callers[k].owed - {r})]) else s
    case Swept(k) => s.(callers := s.callers[k := Waiting], swept := true)
    case Initialise(k) => s.(phase := Initialising(k, Loading))
    case Advance => if s.phase.Initialising? then s.(phase := s.phase.(at := Next(s.phase.at, c, idle))) else s
    case Take =>
      if s.phase.Initialising? then
        var t := s.(phase := s.phase.(at := Joining));
        if s.native.Present? then t.(native := ShuttingDown, takes := s.takes + 1) else t
      else s
    case Answer => s.(phase := Answered)
    // A caller leaves with the answer, or its future is dropped.
    case Leave(k) =>
      s.(callers := s.callers - {k}, phase := if s.phase.Initialising? && s.phase.caller == k then Unasked else s.phase)
    case DropEngine =>
      var t := s.(dropped := true);
      if s.native.Present? then t.(native := Detached, takes := s.takes + 1) else t
    case DropShutdown => s.(native := ShuttingDown)
    case _ => s
  }

  function CountsStep(c: Counts, a: Action): Counts {
    match a
    case Begin(_, _) => c.(active := c.active + 1)
    case Request(_, step) => RequestCounts(c, step)
    case BeginOther => c.(active := c.active + 1, others := c.others + 1)
    case EndOther => c.(active := Pred(c.active), others := Pred(c.others))
    case _ => c
  }

  function IdleStep(i: Idle, c: Counts, a: Action): Idle {
    match a
    case Request(_, step) => RequestIdle(i, c, step)
    case EndOther => if c.active == 1 then i.(due := i.due + 1) else i
    case NotifyIdle => i.(due := Pred(i.due), active := i.active + 1)
    case _ => i
  }

  function ControlsStep(controls: set<nat>, a: Action): set<nat> {
    match a
    case Request(r, step) => if step.ByOwner? && step.own.Register? then controls + {r} else controls
    case Forget(r) => controls - {r}
    case _ => controls
  }

  function ReqsStep(reqs: map<nat, L.Req>, a: Action): map<nat, L.Req>
    requires a.Request? ==> a.request in reqs && L.Enabled(reqs[a.request], a.step)
  {
    match a
    case Begin(r, kind) => reqs[r := L.New(kind)]
    case Request(r, step) => reqs[r := L.Apply(reqs[r], step)]
    case CancelOne(_, r) => if r in reqs then reqs[r := L.Apply(reqs[r], L.AtGate(L.RequestCancel))] else reqs
    case _ => reqs
  }

  function Apply(s: Sys, a: Action): Sys
    requires Enabled(s, a)
  {
    Sys(ShutStep(s.shut, a, s.counts, s.idle, s.controls), CountsStep(s.counts, a), IdleStep(s.idle, s.counts, a),
        ControlsStep(s.controls, a), ReqsStep(s.reqs, a))
  }

  // ---------- The invariant ----------

  /** The request still holds its engine operation. */
  predicate Holds(q: L.Req) {
    !q.own.stage.Gone?
  }

  /** The request's finished callback is counted as pending. */
  predicate Counted(q: L.Req) {
    q.tok.counted
  }

  function Where(reqs: map<nat, L.Req>, f: L.Req -> bool): set<nat> {
    set r | r in reqs && f(reqs[r])
  }

  ghost predicate RequestsInv(reqs: map<nat, L.Req>) {
    forall r :: r in reqs ==> L.Inv(reqs[r])
  }

  predicate CountsInv(c: Counts, reqs: map<nat, L.Req>) {
    && c.active == |Where(reqs, Holds)| + c.others
    && c.pending == |Where(reqs, Counted)|
  }

  /** The initializer has seen `active` at zero. */
  predicate PastActive(at: At) {
    at.NotingPending? || at.CheckingPending? || at.AwaitingPending? || at.Ready? || at.Joining?
  }

  predicate PhaseInv(s: Shut, c: Counts, idle: Idle) {
    s.phase.Initialising? ==>
      && s.phase.caller in s.callers && s.callers[s.phase.caller].Waiting?
      && (PastActive(s.phase.at) ==> c.active == 0)
      && (s.phase.at.Ready? ==> c.pending == 0)
      && (s.phase.at.AwaitingActive? && s.phase.at.generation == idle.active ==> c.active > 0 || idle.due > 0)
      && (s.phase.at.Rechecking? || s.phase.at.AwaitingActive? ==> s.phase.at.generation <= idle.active)
      && (s.phase.at.CheckingPending? || s.phase.at.AwaitingPending? ==> s.phase.at.generation <= idle.pending)
      && (s.phase.at.AwaitingPending? && s.phase.at.generation == idle.pending ==> c.pending > 0)
  }

  predicate NativeInv(s: Shut, c: Counts) {
    && (s.native.Present? <==> s.takes == 0) && s.takes <= 1
    && (!s.native.Present? ==> (s.closing || s.dropped) && c.active == 0)
    && (s.native.ShuttingDown? ==> c.pending == 0)
    && (s.dropped ==> !s.native.Present? && s.callers == map[] && c.active == 0)
    && (s.callers != map[] || s.phase.Initialising? || s.swept ==> s.closing)
  }

  /** Its cancel flag is set, or its opening call is about to cancel it. */
  predicate Asked(q: L.Req) {
    q.ctl.cancelRequested || q.own.stage.Refusing?
  }

  predicate Spared(s: Shut, k: nat, r: nat)
    requires k in s.callers
  {
    match s.callers[k]
    case Closed => true
    case Sweeping(owed) => r in owed
    case Waiting => false
  }

  predicate SweepInv(s: Shut, controls: set<nat>, reqs: map<nat, L.Req>) {
    && controls <= reqs.Keys
    && (forall r :: r in reqs && L.Alive(reqs[r].own) && !reqs[r].own.stage.Created? ==> r in controls)
    && (forall k, r :: k in s.callers && r in controls ==> Asked(reqs[r]) || Spared(s, k, r))
    && (s.swept ==> forall r :: r in controls ==> Asked(reqs[r]))
  }

  ghost predicate Inv(s: Sys) {
    && RequestsInv(s.reqs)
    && CountsInv(s.counts, s.reqs)
    && PhaseInv(s.shut, s.counts, s.idle)
    && NativeInv(s.shut, s.counts)
    && SweepInv(s.shut, s.controls, s.reqs)
  }

  // ---------- Counting requests ----------

  lemma WhereUpdated(reqs: map<nat, L.Req>, r: nat, q: L.Req, f: L.Req -> bool)
    ensures |Where(reqs[r := q], f)|
         == |Where(reqs, f)| - (if r in reqs && f(reqs[r]) then 1 else 0) + (if f(q) then 1 else 0)
  {
    var rest := Where(reqs, f) - {r};
    assert Where(reqs[r := q], f) == if f(q) then rest + {r} else rest;
    assert Where(reqs, f) == if r in reqs && f(reqs[r]) then rest + {r} else rest;
  }

  /** With no operation held, every request is gone. */
  lemma NoneHeld(c: Counts, reqs: map<nat, L.Req>, r: nat)
    requires CountsInv(c, reqs) && r in reqs && Holds(reqs[r])
    ensures c.active > 0
  {
    assert r in Where(reqs, Holds);
  }

  lemma NoneCounted(c: Counts, reqs: map<nat, L.Req>, r: nat)
    requires CountsInv(c, reqs) && r in reqs && Counted(reqs[r])
    ensures c.pending > 0
  {
    assert r in Where(reqs, Counted);
  }
}
