/** Runs that go all the way: a cancelled request from its creation to the drop
    of its operation, and a shutdown of the native engine. */
module EngineWitnesses {
  import opened EngineState
  import L = NativeLifetime
  import opened EngineProtocol
  import opened EngineClaims

  // ---------- One request ----------

  ghost predicate Leads(q: L.Req, actions: seq<L.Action>, t: L.Req)
    decreases |actions|
  {
    if actions == [] then q == t
    else L.Enabled(q, actions[0]) && Leads(L.Apply(q, actions[0]), actions[1..], t)
  }

  ghost predicate Attainable(q: L.Req) {
    exists actions :: Leads(L.New(q.kind), actions, q)
  }

  lemma {:induction false} Extend(q: L.Req, actions: seq<L.Action>, t: L.Req, a: L.Action)
    requires Leads(q, actions, t) && L.Enabled(t, a)
    ensures Leads(q, actions + [a], L.Apply(t, a))
    decreases |actions|
  {
    hide L.Enabled, L.Apply;
    if actions == [] {
      assert [a][1..] == [];
    } else {
      Extend(L.Apply(q, actions[0]), actions[1..], t, a);
      assert (actions + [a])[1..] == actions[1..] + [a];
    }
  }

  /** One more step of a request. */
  lemma Goes(q: L.Req, a: L.Action) returns (t: L.Req)
    requires Attainable(q) && L.Enabled(q, a)
    ensures t == L.Apply(q, a) && Attainable(t)
  {
    t := L.Apply(q, a);
    assert t.kind == q.kind;
    hide L.Enabled, L.Apply, L.New;
    var actions :| Leads(L.New(q.kind), actions, q);
    Extend(L.New(q.kind), actions, q, a);
  }

  const RUNNING := L.Req(L.Url, L.Owner(L.Running, L.Live, true), L.Control(true, true, false, 0, false, L.Free),
    L.Callbacks(0, false, false, false, false, false), L.Token(true, true, false))

  const CANCELLED := RUNNING.(ctl := L.Control(true, true, true, 0, true, L.Free))

  const QUIET := CANCELLED.(cb := L.Callbacks(0, true, true, true, true, true), tok := L.Token(false, false, false))

  const GONE := QUIET.(own := L.Owner(L.Gone, L.Freed, true), ctl := L.Control(false, true, true, 0, true, L.Free))

  const COUNTED := L.Req(L.Url, L.Owner(L.Counted, L.Idle, false), L.Control(true, false, false, 0, false, L.Free),
    L.Callbacks(0, false, false, false, false, false), L.Token(true, true, false))

  lemma Prepares()
    ensures Attainable(COUNTED)
  {
    hide Attainable;
    var q := L.New(L.Url);
    assert Attainable(q) by { NewIsAttainable(); }
    q := Goes(q, L.ByOwner(L.Create));
    q := Goes(q, L.ByOwner(L.Register(false)));
    q := Goes(q, L.ByOwner(L.Insert));
    q := Goes(q, L.ByOwner(L.Count));
  }

  lemma Starts()
    requires Attainable(COUNTED)
    ensures Attainable(RUNNING)
  {
    hide Attainable;
    var q := Goes(COUNTED, L.ByOwner(L.StartOk));
    q := Goes(q, L.ByOwner(L.StoreStarted));
    q := Goes(q, L.ByOwner(L.Reread));
  }

  lemma NewIsAttainable()
    ensures Attainable(L.New(L.Url))
  {
    assert Leads(L.New(L.Url), [], L.New(L.Url));
  }

  lemma Cancels()
    requires Attainable(RUNNING)
    ensures Attainable(CANCELLED)
  {
    hide Attainable;
    var q := Goes(RUNNING, L.AtGate(L.RequestCancel));
    q := Goes(q, L.AtGate(L.Enter(L.Cancel)));
    q := Goes(q, L.AtGate(L.Check));
    q := Goes(q, L.AtGate(L.CallNative));
    q := Goes(q, L.AtGate(L.Release));
  }

  lemma Quietens()
    requires Attainable(CANCELLED)
    ensures Attainable(QUIET)
  {
    hide Attainable;
    var q := Goes(CANCELLED, L.InCallback(L.TerminalStart));
    q := Goes(q, L.InCallback(L.SetDone));
    q := Goes(q, L.InCallback(L.SendTerminal));
    q := Goes(q, L.InCallback(L.CallbackEnd));
    q := Goes(q, L.InCallback(L.FinishedStart));
    q := Goes(q, L.InCallback(L.SendFinished));
    q := Goes(q, L.InCallback(L.CallbackEnd));
    q := Goes(q, L.OnToken(L.TokenRemove));
    q := Goes(q, L.OnToken(L.TokenFinish));
  }

  /** A URL request can be opened, cancelled, finished, destroyed and forgotten. */
  lemma RequestRunsItsCourse()
    ensures Attainable(GONE) && GONE.own.native.Freed? && GONE.ctl.reached
  {
    hide Attainable;
    Prepares();
    Starts();
    Cancels();
    Quietens();
    var q := Goes(QUIET, L.ByOwner(L.Cleanup));
    q := Goes(q, L.ByOwner(L.DestroyEnter));
    q := Goes(q, L.ByOwner(L.DestroyNative));
    q := Goes(q, L.ByOwner(L.DropOperation));
  }

  // ---------- The engine ----------

  lemma {:induction false} ExtendRun(s: Sys, actions: seq<Action>, t: Sys, a: Action)
    requires Reaches(s, actions, t) && Enabled(t, a)
    ensures Reaches(s, actions + [a], Apply(t, a))
    decreases |actions|
  {
    hide Enabled, Apply;
    if actions == [] {
      assert [a][1..] == [];
    } else {
      ExtendRun(Apply(s, actions[0]), actions[1..], t, a);
      assert (actions + [a])[1..] == actions[1..] + [a];
    }
  }

  lemma Then(s: Sys, a: Action) returns (t: Sys)
    requires Reachable(s) && Enabled(s, a)
    ensures t == Apply(s, a) && Reachable(t)
  {
    hide Enabled, Apply;
    t := Apply(s, a);
    var actions :| Reaches(Init(), actions, s);
    ExtendRun(Init(), actions, s, a);
  }

  lemma InitIsReachable()
    ensures Reachable(Init())
  {
    assert Reaches(Init(), [], Init());
  }

  /** The first caller of `shutdown`, in front of the wait loops. */
  lemma Asks() returns (s: Sys)
    ensures Reachable(s) && s.counts == Counts(0, 0, 0)
    ensures s.shut.native.Present? && s.shut.takes == 0 && s.shut.phase == Initialising(0, Loading)
  {
    hide Reachable;
    InitIsReachable();
    s := Then(Init(), StartShutdown(0));
    s := Then(s, Snapshot(0));
    assert s.shut.callers[0] == Sweeping({});
    s := Then(s, Swept(0));
    s := Then(s, Initialise(0));
  }

  /** A call of `shutdown` on an idle engine gets to the native shutdown. */
  lemma ShutdownRunsItsCourse() returns (s: Sys)
    ensures Reachable(s) && s.shut.native.ShuttingDown? && s.shut.takes == 1
  {
    hide Reachable;
    s := Asks();
    s := Then(s, Advance);
    s := Then(s, Advance);
    s := Then(s, Advance);
    s := Then(s, Take);
  }
}
