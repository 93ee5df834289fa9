/** What holds in every reachable state of an engine, its requests and streams. */
module EngineClaims {
  import opened EngineState
  import L = NativeLifetime
  import opened EngineProtocol
  import opened EngineSafety

  ghost predicate Reaches(s: Sys, actions: seq<Action>, t: Sys)
    decreases |actions|
  {
    if actions == [] then s == t
    else Enabled(s, actions[0]) && Reaches(Apply(s, actions[0]), actions[1..], t)
  }

  ghost predicate Reachable(s: Sys) {
    exists actions :: Reaches(Init(), actions, s)
  }

  lemma {:induction false} RunKeepsInv(s: Sys, actions: seq<Action>, t: Sys)
    requires Inv(s) && Reaches(s, actions, t)
    ensures Inv(t)
    decreases |actions|
  {
    hide Inv, Apply, Enabled;
    if actions != [] {
      StepKeepsInv(s, actions[0]);
      RunKeepsInv(Apply(s, actions[0]), actions[1..], t);
    }
  }

  lemma ReachableInv(s: Sys)
    requires Reachable(s)
    ensures Inv(s)
  {
    hide Inv;
    var actions :| Reaches(Init(), actions, s);
    InitInv();
    RunKeepsInv(Init(), actions, s);
  }

  // ---------- Shutdown ----------

  /** While any request or stream still holds its operation, and in particular
      while its native object is alive, the native engine is still owned. */
  lemma EngineOutlivesObjects(s: Sys, r: nat)
    requires Reachable(s) && r in s.reqs
    ensures Holds(s.reqs[r]) ==> s.shut.native.Present?
    ensures L.Alive(s.reqs[r].own) ==> Holds(s.reqs[r])
  {
    hide CountsInv, PhaseInv, SweepInv, L.PointerInv, L.CallbackInv, L.TokenInv, L.CancelInv;
    ReachableInv(s);
    assert L.Inv(s.reqs[r]);
    if Holds(s.reqs[r]) {
      NoneHeld(s.counts, s.reqs, r);
    }
  }

  /** Every native call on an object, in every reachable state, finds the object
      alive and the engine not shut down. */
  lemma CallsAreSafe(s: Sys, r: nat, a: L.Action)
    requires Reachable(s) && Enabled(s, Request(r, a)) && L.CallsObject(a)
    ensures L.Alive(s.reqs[r].own) && s.shut.native.Present?
  {
    hide L.Inv, L.Enabled, CountsInv, PhaseInv, NativeInv, SweepInv, L.Alive, L.CallsObject;
    ReachableInv(s);
    L.CallsAreSafe(s.reqs[r], a);
    EngineOutlivesObjects(s, r);
  }

  /** An object dies only in its owner's hands; if it was started, only after
      its callbacks have all run and no other can come. */
  lemma DestroyedOnlyWhenQuiet(s: Sys, r: nat, a: L.Action)
    requires Reachable(s) && Enabled(s, Request(r, a))
    requires L.Alive(s.reqs[r].own) && !L.Alive(Apply(s, Request(r, a)).reqs[r].own)
    ensures a == L.ByOwner(L.DestroyNative)
    ensures s.reqs[r].own.started ==> L.Quiet(s.reqs[r].kind, s.reqs[r].cb) && L.Over(s.reqs[r].kind, s.reqs[r].cb)
  {
    hide CountsInv, PhaseInv, NativeInv, SweepInv, L.Inv, L.Enabled, L.Quiet, L.Over;
    ReachableInv(s);
    OnlyFreeingKills(s.reqs[r], a);
    L.DestroyedOnlyWhenQuiet(s.reqs[r], a);
  }

  lemma OnlyFreeingKills(q: L.Req, a: L.Action)
    requires L.Inv(q) && L.Enabled(q, a) && L.Alive(q.own) && !L.Alive(L.Apply(q, a).own)
    ensures !q.own.native.Freed? && L.Apply(q, a).own.native.Freed?
  {
    hide L.CallbackInv, L.TokenInv, L.CancelInv, L.PointerInv, L.OwnerControl, L.OwnerToken, L.NextControl,
      L.NextCallbacks, L.NextToken;
  }

  /** The steps that use an object: native calls, and callbacks that start. */
  predicate Uses(a: L.Action) {
    L.CallsObject(a) || a == L.InCallback(L.CallbackStart) || a == L.InCallback(L.TerminalStart)
    || a == L.InCallback(L.FinishedStart)
  }

  lemma FreedStep(q: L.Req, a: L.Action)
    requires L.Inv(q) && L.Enabled(q, a) && q.own.native.Freed?
    ensures !Uses(a) && L.Apply(q, a).own.native.Freed?
  {
    L.FreedForEver(q, a);
    hide L.TokenInv, L.CancelInv, L.OwnerControl, L.OwnerToken, L.NextControl, L.NextToken;
  }

  lemma FreedKept(s: Sys, a: Action, r: nat)
    requires Inv(s) && Enabled(s, a) && r in s.reqs && s.reqs[r].own.native.Freed?
    ensures r in Apply(s, a).reqs && Apply(s, a).reqs[r].own.native.Freed?
    ensures a.Request? && a.request == r ==> !Uses(a.step)
  {
    hide CountsInv, PhaseInv, NativeInv, SweepInv, L.Inv, L.Enabled, L.Apply, Uses, ShutStep, CountsStep, IdleStep,
      ControlsStep;
    match a {
      case Request(k, step) =>
        if k == r {
          FreedStep(s.reqs[r], step);
        }
      case CancelOne(_, k) =>
        if k == r {
          CancelEnabled(s.reqs[r]);
          FreedStep(s.reqs[r], L.AtGate(L.RequestCancel));
        }
      case _ =>
    }
  }

  /** Once an object is destroyed, no continuation of the run, whatever the other
      requests and the engine do, calls it or starts a callback of it. */
  lemma {:induction false} NothingAfterDestruction(s: Sys, actions: seq<Action>, t: Sys, r: nat, i: nat)
    requires Inv(s) && Reaches(s, actions, t) && r in s.reqs && s.reqs[r].own.native.Freed? && i < |actions|
    ensures actions[i].Request? && actions[i].request == r ==> !Uses(actions[i].step)
    ensures r in t.reqs && t.reqs[r].own.native.Freed?
    decreases |actions|
  {
    hide Inv, Apply, Enabled, Uses;
    StepKeepsInv(s, actions[0]);
    FreedKept(s, actions[0], r);
    if |actions| > 1 {
      NothingAfterDestruction(Apply(s, actions[0]), actions[1..], t, r, if i == 0 then 0 else i - 1);
    }
  }

  /** Native shutdown begins only with no operation and no finished callback
      outstanding. */
  lemma ShutdownOnlyWhenIdle(s: Sys, a: Action, r: nat)
    requires Reachable(s) && Enabled(s, a) && !s.shut.native.ShuttingDown? && Apply(s, a).shut.native.ShuttingDown?
    ensures s.counts.active == 0 && s.counts.pending == 0
    ensures r in s.reqs ==> !Holds(s.reqs[r]) && !Counted(s.reqs[r])
  {
    hide RequestsInv, CountsInv, SweepInv, CountsStep, IdleStep, ControlsStep, ReqsStep, RequestEnabled, Next;
    ReachableInv(s);
    if r in s.reqs && Holds(s.reqs[r]) {
      NoneHeld(s.counts, s.reqs, r);
    }
    if r in s.reqs && Counted(s.reqs[r]) {
      NoneCounted(s.counts, s.reqs, r);
    }
  }

  lemma LeakedStep(q: L.Req, a: L.Action)
    requires L.Enabled(q, a) && q.own.stage.Leaked? && L.Inv(q)
    ensures L.Apply(q, a).own == q.own
  {
    hide L.TokenInv, L.CancelInv, L.CallbackInv, L.OwnerControl, L.OwnerToken, L.NextControl, L.NextToken, L.NextCallbacks;
  }

  lemma LeakedKept(s: Sys, a: Action, r: nat)
    requires Inv(s) && Enabled(s, a) && r in s.reqs && s.reqs[r].own.stage.Leaked?
    ensures r in Apply(s, a).reqs && Apply(s, a).reqs[r].own.stage.Leaked?
  {
    hide CountsInv, PhaseInv, NativeInv, SweepInv, L.Inv, L.Enabled, L.Apply, ShutStep, CountsStep, IdleStep,
      ControlsStep;
    match a {
      case Request(k, step) =>
        if k == r {
          LeakedStep(s.reqs[r], step);
        }
      case CancelOne(_, k) =>
        if k == r {
          CancelEnabled(s.reqs[r]);
          LeakedStep(s.reqs[r], L.AtGate(L.RequestCancel));
        }
      case _ =>
    }
  }

  /** A request whose runtime was torn down before its terminal callback keeps
      its operation for ever, and with it the native engine: no call of
      `shutdown` gets through in any continuation. */
  lemma {:induction false} LeakedHoldsTheEngine(s: Sys, actions: seq<Action>, t: Sys, r: nat)
    requires Inv(s) && Reaches(s, actions, t) && r in s.reqs && s.reqs[r].own.stage.Leaked?
    ensures r in t.reqs && Holds(t.reqs[r]) && t.counts.active > 0 && t.shut.native.Present?
    decreases |actions|
  {
    hide Apply, Enabled;
    if actions == [] {
      hide PhaseInv, SweepInv, L.PointerInv, L.CallbackInv, L.TokenInv, L.CancelInv;
      assert L.Inv(s.reqs[r]);
      NoneHeld(s.counts, s.reqs, r);
    } else {
      hide Inv;
      StepKeepsInv(s, actions[0]);
      LeakedKept(s, actions[0], r);
      LeakedHoldsTheEngine(Apply(s, actions[0]), actions[1..], t, r);
    }
  }

  lemma ShutSteps(s: Sys, a: Action)
    requires Inv(s) && Enabled(s, a)
    ensures s.shut.native.ShuttingDown? ==> Apply(s, a).shut.native.ShuttingDown?
    ensures s.shut.closing ==> Apply(s, a).shut.closing && !a.Begin? && !a.BeginOther?
    ensures s.shut.takes <= Apply(s, a).shut.takes
    ensures Apply(s, a).shut.takes != s.shut.takes ==> a.Take? || a.DropEngine?
  {
    hide RequestsInv, CountsInv, SweepInv, PhaseInv, CountsStep, IdleStep, ControlsStep, ReqsStep, RequestEnabled, Next;
  }

  /** Once native shutdown has begun, both counts are zero for ever. */
  lemma {:induction false} IdleForEver(s: Sys, actions: seq<Action>, t: Sys)
    requires Inv(s) && s.shut.native.ShuttingDown? && Reaches(s, actions, t)
    ensures t.shut.native.ShuttingDown? && t.counts.active == 0 && t.counts.pending == 0 && t.shut.takes == 1
    decreases |actions|
  {
    hide RequestsInv, CountsInv, SweepInv, PhaseInv, Apply, Enabled;
    if actions != [] {
      StepKeepsInv(s, actions[0]);
      ShutSteps(s, actions[0]);
      IdleForEver(Apply(s, actions[0]), actions[1..], t);
    }
  }

  /** Once `closing` is set, no operation begins in any continuation of the run. */
  lemma {:induction false} NothingBeginsAfterClosing(s: Sys, actions: seq<Action>, t: Sys, i: nat)
    requires Inv(s) && s.shut.closing && Reaches(s, actions, t) && i < |actions|
    ensures !actions[i].Begin? && !actions[i].BeginOther? && t.shut.closing
    decreases |actions|
  {
    hide Inv, Apply, Enabled;
    StepKeepsInv(s, actions[0]);
    ShutSteps(s, actions[0]);
    if |actions| > 1 {
      NothingBeginsAfterClosing(Apply(s, actions[0]), actions[1..], t, if i == 0 then 0 else i - 1);
    }
  }

  /** The native engine is taken at most once by all `shutdown` callers and the
      drop of the engine together. */
  lemma TakenAtMostOnce(s: Sys)
    requires Reachable(s)
    ensures s.shut.takes <= 1 && (s.shut.takes == 1 <==> !s.shut.native.Present?)
  {
    hide RequestsInv, CountsInv, SweepInv, PhaseInv;
    ReachableInv(s);
  }

  /** An initializer asleep on `idle` with no notification on its way has
      something to wait for. */
  lemma InitializerNeverSleepsThroughIdle(s: Sys)
    requires Reachable(s) && s.shut.phase.Initialising? && Sleeping(s.shut.phase.at, s.idle)
    ensures s.shut.phase.at.AwaitingActive? ==> s.counts.active > 0 || s.idle.due > 0
    ensures s.shut.phase.at.AwaitingPending? ==> s.counts.pending > 0
  {
    hide RequestsInv, CountsInv, SweepInv, NativeInv;
    ReachableInv(s);
  }

  // ---------- Cancelling ----------

  /** Once some call of `shutdown` has been through its copy of the controls,
      every registered live request has its cancel flag set, or its opening call
      is about to cancel it; one not yet registered will be told to. */
  lemma EveryControlIsAsked(s: Sys, r: nat)
    requires Reachable(s) && s.shut.swept && r in s.reqs && L.Alive(s.reqs[r].own)
    ensures s.reqs[r].own.stage.Created? || Asked(s.reqs[r])
    ensures forall closing :: RequestEnabled(s, r, L.ByOwner(L.Register(closing))) ==> closing
  {
    hide RequestsInv, CountsInv, PhaseInv, L.Alive, Asked;
    ReachableInv(s);
  }

  /** No cancel is lost: a started request or stream for which a cancel was
      requested, by a handle or by the engine, and with no `cancel` still under
      way, has been reached by a native cancel, or it was done anyway. */
  lemma NoCancelIsLost(s: Sys, r: nat)
    requires Reachable(s) && r in s.reqs && s.reqs[r].ctl.cancelRequested && !L.CancelPending(s.reqs[r].ctl)
    requires s.reqs[r].own.stage.Running? || s.reqs[r].own.stage.Leaked?
    ensures s.reqs[r].ctl.reached || s.reqs[r].cb.done
  {
    hide CountsInv, PhaseInv, NativeInv, SweepInv, L.CancelPending, L.TokenInv, L.CallbackInv, L.PointerInv, L.CancelInv;
    ReachableInv(s);
    assert L.Inv(s.reqs[r]);
    L.CancelIsNotLost(s.reqs[r]);
  }

  /** After one full sweep of some `shutdown` call that is so for every running
      request and stream. */
  lemma ShutdownReachesAll(s: Sys, r: nat)
    requires Reachable(s) && s.shut.swept && r in s.reqs
    requires (s.reqs[r].own.stage.Running? || s.reqs[r].own.stage.Leaked?) && !L.CancelPending(s.reqs[r].ctl)
    ensures s.reqs[r].ctl.reached || s.reqs[r].cb.done
  {
    hide CountsInv, PhaseInv, NativeInv, SweepInv, L.CancelPending, L.TokenInv, L.CallbackInv, L.PointerInv, L.CancelInv;
    ReachableInv(s);
    assert L.Inv(s.reqs[r]);
    EveryControlIsAsked(s, r);
    NoCancelIsLost(s, r);
  }

  // ---------- Finished callbacks ----------

  function Annotated(q: L.Req): bool {
    q.tok.annotated
  }

  function Settling(q: L.Req): bool {
    q.tok.settling
  }

  function BetweenSections(q: L.Req): bool {
    q.own.stage.Inserted?
  }

  lemma DisjointSizes(a: set<nat>, b: set<nat>)
    requires a !! b
    ensures |a + b| == |a| + |b|
  {
    assert a + b - b == a;
  }

  /** The pending count is the number of tokens registered, plus the callbacks
      that have taken a token out and not yet counted down, less the requests
      that have registered a token and not yet counted up. */
  lemma PendingIsAccounted(s: Sys)
    requires Reachable(s)
    ensures s.counts.pending + |Where(s.reqs, BetweenSections)|
         == |Where(s.reqs, Annotated)| + |Where(s.reqs, Settling)|
  {
    hide PhaseInv, NativeInv, SweepInv, L.OwnerInv, L.PointerInv, L.CallbackInv, L.CancelInv;
    ReachableInv(s);
    forall r | r in s.reqs
      ensures Counted(s.reqs[r]) || BetweenSections(s.reqs[r]) <==> Annotated(s.reqs[r]) || Settling(s.reqs[r])
      ensures !(Counted(s.reqs[r]) && BetweenSections(s.reqs[r])) && !(Annotated(s.reqs[r]) && Settling(s.reqs[r]))
    {
      assert L.Inv(s.reqs[r]);
    }
    hide RequestsInv, Counted, BetweenSections, Annotated, Settling;
    DisjointSizes(Where(s.reqs, Counted), Where(s.reqs, BetweenSections));
    DisjointSizes(Where(s.reqs, Annotated), Where(s.reqs, Settling));
    assert Where(s.reqs, Counted) + Where(s.reqs, BetweenSections)
        == Where(s.reqs, Annotated) + Where(s.reqs, Settling);
  }

  /** The zero guard of `finish_one` is never taken, and a finished callback that
      finds no token changes nothing at all. */
  lemma FinishOneNeverSaturates(s: Sys, r: nat, a: L.Action)
    requires Reachable(s) && Enabled(s, Request(r, a))
    ensures Uncounts(a) ==> s.counts.pending > 0 && Apply(s, Request(r, a)).counts.pending == s.counts.pending - 1
    ensures a == L.OnToken(L.TokenRemove) && !s.reqs[r].tok.annotated ==> Apply(s, Request(r, a)) == s
    ensures !Uncounts(a) ==> Apply(s, Request(r, a)).counts.pending >= s.counts.pending
  {
    hide PhaseInv, NativeInv, SweepInv, CountsInv, L.Inv;
    ReachableInv(s);
    RequestCountsKept(s, r, a);
    if a == L.OnToken(L.TokenRemove) && !s.reqs[r].tok.annotated {
      assert L.Apply(s.reqs[r], a) == s.reqs[r];
      assert s.reqs[r := s.reqs[r]] == s.reqs;
    }
  }

  /** A request whose start failed, or that never got that far, leaves no token
      and nothing pending behind. */
  lemma FailedStartLeavesNothing(s: Sys, r: nat)
    requires Reachable(s) && r in s.reqs && !s.reqs[r].own.started
    requires s.reqs[r].own.stage.Dropping? || s.reqs[r].own.stage.Destroyed? || s.reqs[r].own.stage.Gone?
    ensures s.reqs[r].tok == L.Token(false, false, false)
    ensures r !in Where(s.reqs, Counted) && r !in Where(s.reqs, Annotated)
  {
    hide PhaseInv, NativeInv, SweepInv, CountsInv, L.OwnerInv, L.PointerInv, L.CallbackInv, L.CancelInv;
    ReachableInv(s);
    assert L.Inv(s.reqs[r]);
  }
}
