/** Every step of the engine keeps the invariant. */
module EngineSafety {
  import opened EngineState
  import L = NativeLifetime
  import opened EngineProtocol

  lemma InitInv()
    ensures Inv(Init())
  {
    assert Where(map[], Holds) == {} && Where(map[], Counted) == {};
  }

  // ---------- What a step of one request does to the counts ----------

  lemma StepHolds(q: L.Req, a: L.Action)
    requires L.Inv(q) && L.Enabled(q, a)
    ensures Releases(a) ==> Holds(q)
    ensures Holds(L.Apply(q, a)) <==> Holds(q) && !Releases(a)
  {
    hide L.CallbackInv, L.TokenInv, L.CancelInv, L.OwnerControl, L.OwnerToken, L.NextControl, L.NextCallbacks,
      L.NextToken;
  }

  lemma StepCounted(q: L.Req, a: L.Action)
    requires L.Inv(q) && L.Enabled(q, a)
    ensures a == L.ByOwner(L.Count) ==> !Counted(q) && Counted(L.Apply(q, a)) && Holds(q)
    ensures Uncounts(a) ==> Counted(q) && !Counted(L.Apply(q, a))
    ensures a != L.ByOwner(L.Count) && !Uncounts(a) ==> Counted(L.Apply(q, a)) == Counted(q)
  {
    hide L.OwnerInv, L.PointerInv, L.CallbackInv, L.CancelInv, L.OwnerControl, L.NextOwner, L.NextControl,
      L.NextCallbacks, L.GateEnabled, L.CallbackEnabled;
  }

  lemma StepAsked(q: L.Req, a: L.Action)
    requires L.Inv(q) && L.Enabled(q, a)
    ensures Asked(q) ==> Asked(L.Apply(q, a))
    ensures a == L.AtGate(L.RequestCancel) ==> Asked(L.Apply(q, a))
    ensures a.ByOwner? && a.own.Register? && a.own.closing ==> Asked(L.Apply(q, a))
  {
    hide L.OwnerInv, L.CallbackInv, L.TokenInv, L.CancelInv, L.OwnerToken, L.NextCallbacks, L.NextToken,
      L.CallbackEnabled;
  }

  /** Only the opening call makes an object alive, and it registers it next. */
  lemma StepAlive(q: L.Req, a: L.Action)
    requires L.Inv(q) && L.Enabled(q, a)
    requires L.Alive(L.Apply(q, a).own) && !L.Apply(q, a).own.stage.Created?
    ensures (L.Alive(q.own) && !q.own.stage.Created?) || (a.ByOwner? && a.own.Register?)
  {
    hide L.PointerInv, L.CallbackInv, L.TokenInv, L.CancelInv, L.OwnerControl, L.OwnerToken, L.NextControl,
      L.NextCallbacks, L.NextToken, L.GateEnabled, L.CallbackEnabled;
  }

  // ---------- Requests ----------

  lemma RequestsKept(s: Sys, a: Action)
    requires RequestsInv(s.reqs) && Enabled(s, a)
    ensures RequestsInv(Apply(s, a).reqs)
  {
    hide L.Inv, L.Apply, L.Enabled;
    match a {
      case Begin(_, kind) => L.NewInv(kind);
      case Request(r, step) => L.StepKeepsInv(s.reqs[r], step);
      case CancelOne(_, r) =>
        if r in s.reqs {
          CancelEnabled(s.reqs[r]);
          L.StepKeepsInv(s.reqs[r], L.AtGate(L.RequestCancel));
        }
      case _ =>
    }
  }

  lemma CancelEnabled(q: L.Req)
    ensures L.Enabled(q, L.AtGate(L.RequestCancel))
  {
  }

  // ---------- Counts ----------

  lemma RequestCountsKept(s: Sys, r: nat, step: L.Action)
    requires RequestsInv(s.reqs) && CountsInv(s.counts, s.reqs) && Enabled(s, Request(r, step))
    ensures CountsInv(RequestCounts(s.counts, step), s.reqs[r := L.Apply(s.reqs[r], step)])
    ensures Releases(step) ==> s.counts.active > 0
    ensures Uncounts(step) ==> s.counts.pending > 0
    ensures step == L.ByOwner(L.Count) ==> s.counts.active > 0
  {
    hide L.Inv, L.Apply, L.Enabled, Holds, Counted, Where;
    var q := s.reqs[r];
    StepHolds(q, step);
    StepCounted(q, step);
    WhereUpdated(s.reqs, r, L.Apply(q, step), Holds);
    WhereUpdated(s.reqs, r, L.Apply(q, step), Counted);
    if Holds(q) {
      NoneHeld(s.counts, s.reqs, r);
    }
    if Counted(q) {
      NoneCounted(s.counts, s.reqs, r);
    }
  }

  lemma CountsKept(s: Sys, a: Action)
    requires RequestsInv(s.reqs) && CountsInv(s.counts, s.reqs) && Enabled(s, a)
    ensures CountsInv(Apply(s, a).counts, Apply(s, a).reqs)
  {
    hide L.Inv, L.Apply, L.Enabled, Where, RequestCounts;
    match a {
      case Begin(r, kind) =>
        WhereUpdated(s.reqs, r, L.New(kind), Holds);
        WhereUpdated(s.reqs, r, L.New(kind), Counted);
      case Request(r, step) => RequestCountsKept(s, r, step);
      case CancelOne(_, r) =>
        if r in s.reqs {
          CancelCounts(s, r);
        }
      case _ =>
    }
  }

  lemma CancelCounts(s: Sys, r: nat)
    requires RequestsInv(s.reqs) && CountsInv(s.counts, s.reqs) && r in s.reqs
    ensures L.Enabled(s.reqs[r], L.AtGate(L.RequestCancel))
    ensures CountsInv(s.counts, s.reqs[r := L.Apply(s.reqs[r], L.AtGate(L.RequestCancel))])
  {
    hide L.Inv;
    var step := L.AtGate(L.RequestCancel);
    assert Enabled(s, Request(r, step));
    RequestCountsKept(s, r, step);
  }

  // ---------- The initializer and the native engine ----------

  /** What the other records may do in one step, as far as the shutdown side
      is concerned. */
  lemma CountsMove(s: Sys, a: Action)
    requires RequestsInv(s.reqs) && CountsInv(s.counts, s.reqs) && Enabled(s, a)
    ensures Apply(s, a).counts.active > s.counts.active ==>
      (a.Begin? || a.BeginOther?) && Admits(s.shut.closing, s.shut.native.Present?)
    ensures Apply(s, a).counts.pending > s.counts.pending ==> s.counts.active > 0
    ensures Apply(s, a).counts.active == 0 < s.counts.active ==> Apply(s, a).idle.due > 0
    ensures Apply(s, a).counts.pending == 0 < s.counts.pending ==> Apply(s, a).idle.pending > s.idle.pending
    ensures s.idle.active <= Apply(s, a).idle.active && s.idle.pending <= Apply(s, a).idle.pending
    ensures a.Advance? ==> Apply(s, a).counts == s.counts && Apply(s, a).idle == s.idle
    ensures Apply(s, a).idle.due < s.idle.due ==> Apply(s, a).idle.active > s.idle.active
  {
    hide L.Inv, L.Apply, L.Enabled, Where, ShutStep, ControlsStep, CountsInv;
    if a.Request? {
      RequestCountsKept(s, a.request, a.step);
    }
  }

  lemma AdvanceKept(s: Shut, c: Counts, idle: Idle)
    requires PhaseInv(s, c, idle) && s.phase.Initialising?
    ensures PhaseInv(s.(phase := s.phase.(at := Next(s.phase.at, c, idle))), c, idle)
  {
  }

  lemma PhaseKept(s: Sys, a: Action)
    requires Inv(s) && Enabled(s, a)
    ensures PhaseInv(Apply(s, a).shut, Apply(s, a).counts, Apply(s, a).idle)
  {
    CountsMove(s, a);
    hide RequestsInv, CountsInv, SweepInv, CountsStep, IdleStep, ControlsStep, ReqsStep, RequestEnabled, Next;
    if a.Advance? {
      AdvanceKept(s.shut, s.counts, s.idle);
    } else {
      assert PhaseInv(Apply(s, a).shut, Apply(s, a).counts, Apply(s, a).idle);
    }
  }

  lemma NativeKept(s: Sys, a: Action)
    requires Inv(s) && Enabled(s, a)
    ensures NativeInv(Apply(s, a).shut, Apply(s, a).counts)
  {
    CountsMove(s, a);
    hide RequestsInv, CountsInv, SweepInv, CountsStep, IdleStep, ControlsStep, ReqsStep, RequestEnabled, Next;
  }

  // ---------- Cancelling every control ----------

  /** One request moves on and is registered perhaps. */
  lemma UpdateSweep(s: Shut, controls: set<nat>, more: set<nat>, reqs: map<nat, L.Req>, r: nat, q: L.Req)
    requires SweepInv(s, controls, reqs) && r in reqs
    requires s.callers != map[] || s.swept ==> s.closing
    requires Asked(reqs[r]) ==> Asked(q)
    requires more == controls || (more == controls + {r} && (s.closing ==> Asked(q)))
    requires L.Alive(q.own) && !q.own.stage.Created? ==> r in more
    ensures SweepInv(s, more, reqs[r := q])
  {
    hide Asked, L.Alive;
  }

  lemma RequestSweepKept(s: Sys, r: nat, step: L.Action)
    requires Enabled(s, Request(r, step)) && L.Inv(s.reqs[r])
    requires NativeInv(s.shut, s.counts) && SweepInv(s.shut, s.controls, s.reqs)
    ensures SweepInv(s.shut, ControlsStep(s.controls, Request(r, step)), s.reqs[r := L.Apply(s.reqs[r], step)])
  {
    var q := L.Apply(s.reqs[r], step);
    StepAsked(s.reqs[r], step);
    if L.Alive(q.own) && !q.own.stage.Created? {
      StepAlive(s.reqs[r], step);
    }
    hide L.Inv, L.Apply, L.Enabled, Asked, L.Alive, Spared;
    UpdateSweep(s.shut, s.controls, ControlsStep(s.controls, Request(r, step)), s.reqs, r, q);
  }

  lemma SweepKept(s: Sys, a: Action)
    requires Inv(s) && Enabled(s, a)
    ensures SweepInv(Apply(s, a).shut, Apply(s, a).controls, Apply(s, a).reqs)
  {
    hide L.Inv, L.Apply, L.Enabled, CountsInv, PhaseInv, Next;
    match a {
      case Begin(r, kind) => BeginSweepKept(s, r, kind);
      case Request(r, step) => RequestSweepKept(s, r, step);
      case CancelOne(k, r) => CancelSweepKept(s, k, r);
      case Forget(r) => assert !L.Alive(s.reqs[r].own) by { GoneIsNotAlive(s.reqs[r]); }
      case _ =>
    }
  }

  lemma GoneIsNotAlive(q: L.Req)
    requires L.Inv(q) && q.own.stage.Gone?
    ensures !L.Alive(q.own)
  {
  }

  lemma BeginSweepKept(s: Sys, r: nat, kind: L.Kind)
    requires SweepInv(s.shut, s.controls, s.reqs) && r !in s.reqs
    ensures SweepInv(s.shut, s.controls, s.reqs[r := L.New(kind)])
  {
    hide Asked;
    assert r !in s.controls;
  }

  lemma CancelSweepKept(s: Sys, k: nat, r: nat)
    requires RequestsInv(s.reqs) && NativeInv(s.shut, s.counts) && SweepInv(s.shut, s.controls, s.reqs)
    requires Enabled(s, CancelOne(k, r))
    ensures SweepInv(Apply(s, CancelOne(k, r)).shut, s.controls, Apply(s, CancelOne(k, r)).reqs)
  {
    var step := L.AtGate(L.RequestCancel);
    if r in s.reqs {
      assert Enabled(s, Request(r, step));
      StepAsked(s.reqs[r], step);
      RequestSweepKept(s, r, step);
    }
    hide L.Inv, L.Apply, L.Enabled, NativeInv, Asked, L.Alive;
    Strike(s.shut, s.controls, Apply(s, CancelOne(k, r)).reqs, k, r);
  }

  /** A control that has been asked can be struck off a caller's copy. */
  lemma Strike(s: Shut, controls: set<nat>, reqs: map<nat, L.Req>, k: nat, r: nat)
    requires SweepInv(s, controls, reqs) && k in s.callers && s.callers[k].Sweeping?
    requires r in controls ==> Asked(reqs[r])
    ensures SweepInv(s.(callers := s.callers[k := Sweeping(s.callers[k].owed - {r})]), controls, reqs)
  {
    hide Asked, L.Alive;
  }

  lemma StepKeepsInv(s: Sys, a: Action)
    requires Inv(s) && Enabled(s, a)
    ensures Inv(Apply(s, a))
  {
    hide RequestsInv, CountsInv, PhaseInv, NativeInv, SweepInv, Enabled, Apply;
    RequestsKept(s, a);
    CountsKept(s, a);
    PhaseKept(s, a);
    NativeKept(s, a);
    SweepKept(s, a);
  }
}
