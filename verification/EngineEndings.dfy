/** How shutdown and the engine's drop come to their ends. */
module EngineEndings {
  import opened EngineState
  import L = NativeLifetime
  import opened EngineProtocol
  import opened EngineSafety
  import opened EngineClaims
  import opened EngineWitnesses

  // ---------- The answer ----------

  /** The initializer joins, and answers, only when the native engine was taken. */
  predicate DownInv(s: Shut) {
    s.phase.Answered? || (s.phase.Initialising? && s.phase.at.Joining?) ==> !s.native.Present?
  }

  lemma DownKept(s: Sys, a: Action)
    requires DownInv(s.shut) && Enabled(s, a)
    ensures DownInv(Apply(s, a).shut)
  {
    hide CountsStep, IdleStep, ControlsStep, ReqsStep, RequestEnabled;
  }

  lemma {:induction false} RunKeepsDown(s: Sys, actions: seq<Action>, t: Sys)
    requires DownInv(s.shut) && Reaches(s, actions, t)
    ensures DownInv(t.shut)
    decreases |actions|
  {
    hide DownInv, Apply, Enabled;
    if actions != [] {
      DownKept(s, actions[0]);
      RunKeepsDown(Apply(s, actions[0]), actions[1..], t);
    }
  }

  /** Whoever is answered finds the native engine taken, and no operation left. */
  lemma AnswerMeansDown(s: Sys)
    requires Reachable(s) && s.shut.phase.Answered?
    ensures !s.shut.native.Present? && s.counts.active == 0 && s.shut.takes == 1
  {
    var actions :| Reaches(Init(), actions, s);
    RunKeepsDown(Init(), actions, s);
    ReachableInv(s);
    hide RequestsInv, CountsInv, SweepInv, PhaseInv;
  }

  /** How far the initializer of an idle engine is from its answer. */
  function Way(at: At): nat {
    match at
    case Joining => 0
    case Ready => 1
    case CheckingPending(_) => 2
    case NotingPending => 3
    case AwaitingPending(_) => 4
    case Loading => 4
    case Rechecking(_) => 5
    case AwaitingActive(_) => 5
    case Noting => 6
  }

  /** An engine without operation and without pending callback whose shutdown result
      is being made. */
  predicate IdleInit(s: Sys) {
    s.shut.phase.Initialising? && s.counts.active == 0 && s.counts.pending == 0
  }

  function Onward(s: Sys): Action
    requires s.shut.phase.Initialising?
  {
    match s.shut.phase.at
    case Ready => Take
    case Joining => Answer
    case _ => if Sleeping(s.shut.phase.at, s.idle) then NotifyIdle else Advance
  }

  lemma OneStepOnward(s: Sys)
    requires Inv(s) && IdleInit(s) && !s.shut.phase.at.Joining?
    ensures var t := Apply(s, Onward(s));
            Enabled(s, Onward(s)) && IdleInit(t)
            && (Way(t.shut.phase.at) < Way(s.shut.phase.at)
                || (t.shut.phase == s.shut.phase && Sleeping(s.shut.phase.at, s.idle) && !Sleeping(t.shut.phase.at, t.idle)))
  {
    hide RequestsInv, CountsInv, SweepInv, ControlsStep, ReqsStep, RequestEnabled, RequestCounts, RequestIdle;
  }

  lemma Steps(s: Sys, a: Action, actions: seq<Action>, t: Sys)
    requires Enabled(s, a) && Reaches(Apply(s, a), actions, t)
    ensures Reaches(s, [a] + actions, t)
  {
    hide Enabled, Apply;
    assert ([a] + actions)[1..] == actions;
  }

  lemma Answers(s: Sys)
    requires IdleInit(s) && s.shut.phase.at.Joining?
    ensures Enabled(s, Answer) && Apply(s, Answer).shut.phase.Answered?
  {
    hide CountsStep, IdleStep, ControlsStep, ReqsStep;
  }

  lemma {:induction false} IdleInitAnswers(s: Sys) returns (actions: seq<Action>, t: Sys)
    requires Inv(s) && IdleInit(s)
    ensures Reaches(s, actions, t) && t.shut.phase.Answered?
    decreases Way(s.shut.phase.at), if Sleeping(s.shut.phase.at, s.idle) then 1 else 0
  {
    hide Inv, Apply, Enabled;
    if s.shut.phase.at.Joining? {
      Answers(s);
      t := Apply(s, Answer);
      assert Reaches(t, [], t);
      Steps(s, Answer, [], t);
      actions := [Answer] + [];
    } else {
      var a := Onward(s);
      OneStepOnward(s);
      StepKeepsInv(s, a);
      hide Way, Sleeping, Onward;
      actions, t := IdleInitAnswers(Apply(s, a));
      Steps(s, a, actions, t);
      actions := [a] + actions;
    }
  }

  /** Wherever the initializer is, once nothing is outstanding it can get through both
      wait loops, take the native engine, and answer. */
  lemma InitializerCanAnswer(s: Sys) returns (actions: seq<Action>, t: Sys)
    requires Reachable(s) && s.shut.phase.Initialising? && s.counts.active == 0 && s.counts.pending == 0
    ensures Reaches(s, actions, t) && t.shut.phase.Answered? && !t.shut.native.Present?
  {
    ReachableInv(s);
    hide Inv;
    actions, t := IdleInitAnswers(s);
    var before :| Reaches(Init(), before, s);
    RunKeepsDown(Init(), before, s);
    RunKeepsDown(s, actions, t);
  }

  /** A caller that goes away while it makes the result leaves that to another. */
  lemma InitializerHandsOver(s: Sys, k: nat, other: nat)
    requires Reachable(s) && s.shut.phase.Initialising? && s.shut.phase.caller == k && other != k
    requires other in s.shut.callers && s.shut.callers[other].Waiting?
    ensures Enabled(s, Leave(k)) && Enabled(Apply(s, Leave(k)), Initialise(other))
    ensures Apply(Apply(s, Leave(k)), Initialise(other)).shut.phase == Initialising(other, Loading)
    ensures Apply(s, Leave(other)).shut.phase == s.shut.phase
  {
    ReachableInv(s);
    hide RequestsInv, CountsInv, SweepInv, NativeInv, CountsStep, IdleStep, ControlsStep, ReqsStep;
  }

  // ---------- Waiting and dropping ----------

  /** With an operation outstanding the initializer goes to sleep. */
  lemma InitializerSleeps() returns (s: Sys)
    ensures Reachable(s) && s.counts.active == 1 && s.shut.phase.Initialising?
    ensures s.shut.phase.at.AwaitingActive? && Sleeping(s.shut.phase.at, s.idle)
  {
    hide Reachable;
    InitIsReachable();
    s := Then(Init(), BeginOther);
    s := Then(s, StartShutdown(0));
    s := Then(s, Snapshot(0));
    assert s.shut.callers[0] == Sweeping({});
    s := Then(s, Swept(0));
    s := Then(s, Initialise(0));
    s := Then(s, Advance);
    s := Then(s, Advance);
    s := Then(s, Advance);
  }

  /** From wherever it is about to make its future, the initializer goes to sleep if
      there is something to wait for, in either loop. */
  lemma InitializerGoesToSleep(s: Sys)
    requires Reachable(s) && s.shut.phase.Initialising?
    ensures s.shut.phase.at.Noting? && s.counts.active > 0 ==>
      Enabled(s, Advance) && Enabled(Apply(s, Advance), Advance)
      && Sleeping(Apply(Apply(s, Advance), Advance).shut.phase.at, s.idle)
    ensures s.shut.phase.at.NotingPending? && s.counts.pending > 0 ==>
      Enabled(s, Advance) && Enabled(Apply(s, Advance), Advance)
      && Sleeping(Apply(Apply(s, Advance), Advance).shut.phase.at, s.idle)
  {
    hide ControlsStep, ReqsStep;
  }

  /** Who waits for the shutdown result, or makes it, has been through its copy of the
      controls. */
  predicate SweptInv(s: Shut) {
    && (forall k :: k in s.callers && s.callers[k].Waiting? ==> s.swept)
    && (!s.phase.Unasked? ==> s.swept)
  }

  lemma SweptKept(s: Sys, a: Action)
    requires SweptInv(s.shut) && Enabled(s, a)
    ensures SweptInv(Apply(s, a).shut)
  {
    hide CountsStep, IdleStep, ControlsStep, ReqsStep, RequestEnabled, Next;
  }

  lemma {:induction false} RunKeepsSwept(s: Sys, actions: seq<Action>, t: Sys)
    requires SweptInv(s.shut) && Reaches(s, actions, t)
    ensures SweptInv(t.shut)
    decreases |actions|
  {
    hide SweptInv, Apply, Enabled;
    if actions != [] {
      SweptKept(s, actions[0]);
      RunKeepsSwept(Apply(s, actions[0]), actions[1..], t);
    }
  }

  /** Before anybody waits for the end, every registered live request has been asked to
      cancel. */
  lemma SweptBeforeWaiting(s: Sys, k: nat, r: nat)
    requires Reachable(s) && k in s.shut.callers && s.shut.callers[k].Waiting?
    ensures s.shut.swept
    ensures r in s.reqs && L.Alive(s.reqs[r].own) ==> s.reqs[r].own.stage.Created? || Asked(s.reqs[r])
  {
    var actions :| Reaches(Init(), actions, s);
    RunKeepsSwept(Init(), actions, s);
    if r in s.reqs && L.Alive(s.reqs[r].own) {
      hide L.Alive, Asked;
      EveryControlIsAsked(s, r);
    }
  }

  /** An engine that is dropped waits for its finished callbacks and then shuts down. */
  lemma DropShutsDown(s: Sys)
    requires Reachable(s) && s.shut.native.Detached?
    ensures Enabled(s, DropShutdown) <==> s.counts.pending == 0
    ensures Enabled(s, DropShutdown) ==> Apply(s, DropShutdown).shut.native.ShuttingDown?
  {
    hide CountsStep, IdleStep, ControlsStep, ReqsStep;
  }

  lemma DropRunsItsCourse() returns (s: Sys)
    ensures Reachable(s) && s.shut.dropped && s.shut.native.ShuttingDown? && s.shut.takes == 1
  {
    hide Reachable;
    InitIsReachable();
    s := Then(Init(), DropEngine);
    s := Then(s, DropShutdown);
  }

  /** A control leaves the list only when its request is gone, and then it can. */
  lemma OnlyTheGoneAreForgotten(s: Sys, a: Action, r: nat)
    requires Enabled(s, a)
    ensures r in s.controls && r !in Apply(s, a).controls ==> r in s.reqs && s.reqs[r].own.stage.Gone?
    ensures r in s.reqs && s.reqs[r].own.stage.Gone? ==>
      Enabled(s, Forget(r)) && Apply(s, Forget(r)).controls == s.controls - {r}
  {
    hide ShutStep, CountsStep, IdleStep, ReqsStep, RequestEnabled;
  }

  // ---------- An opening call that gives up ----------

  lemma GivenUpKept(s: Sys, a: Action, r: nat)
    requires Inv(s) && Enabled(s, a) && r in s.reqs && L.GivenUp(s.reqs[r].own)
    ensures r in Apply(s, a).reqs && L.GivenUp(Apply(s, a).reqs[r].own)
    ensures a.Request? && a.request == r ==> a.step != L.InCallback(L.CallbackStart) && a.step != L.InCallback(L.TerminalStart)
  {
    hide CountsInv, PhaseInv, NativeInv, SweepInv, L.Inv, L.Enabled, L.Apply, L.GivenUp, ShutStep, CountsStep, IdleStep,
      ControlsStep;
    match a {
      case Request(k, step) =>
        if k == r {
          L.GivenUpStays(s.reqs[r], step);
        }
      case CancelOne(_, k) =>
        if k == r {
          CancelEnabled(s.reqs[r]);
          L.GivenUpStays(s.reqs[r], L.AtGate(L.RequestCancel));
        }
      case _ =>
    }
  }

  /** An object whose opening call was refused or failed is never started, and calls
      nothing back, in any continuation. */
  lemma {:induction false} GivenUpNeverStarts(s: Sys, actions: seq<Action>, t: Sys, r: nat, i: nat)
    requires Inv(s) && Reaches(s, actions, t) && r in s.reqs && L.GivenUp(s.reqs[r].own) && i < |actions|
    ensures r in t.reqs && !t.reqs[r].own.started
    ensures actions[i].Request? && actions[i].request == r ==> actions[i].step != L.InCallback(L.CallbackStart)
    decreases |actions|
  {
    hide Inv, Apply, Enabled;
    StepKeepsInv(s, actions[0]);
    GivenUpKept(s, actions[0], r);
    if |actions| > 1 {
      hide L.GivenUp;
      GivenUpNeverStarts(Apply(s, actions[0]), actions[1..], t, r, if i == 0 then 0 else i - 1);
    }
  }
}
