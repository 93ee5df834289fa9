/**
 The life of one native request or stream, from `begin_operation` to the drop
 of its engine operation, as a machine whose steps are the critical sections
 and atomic accesses of the source.

 One opening thread, one cleanup task, any number of threads that cancel or
 call under the gate, and the native callbacks interleave. Native code is
 assumed to run its callbacks only after a successful start, at most one
 terminal callback, for URL requests at most one finished callback, and no
 further callback once those have started.
 */
module NativeLifetime {
  datatype Kind = Url | Stream

  /** Where the owner of the native object is: the opening call, then the
      cleanup task. */
  datatype Stage =
    | Begun           // holds an engine operation, no native object yet
    | Created         // native object exists, raw pointer published
    | Refusing        // register saw `closing`: about to cancel
    | Refused         // about to drop after that
    | Registered      // on the engine's list
    | Inserted        // URL: tracking token registered, not yet counted
    | Counted         // URL: counted as pending, about to start
    | StartFailed     // URL: about to take the token back
    | AbortRemoved    // URL: token taken back, not yet uncounted
    | NativeStarted   // native start succeeded
    | FlagStored      // control knows that; about to reread `cancel_requested`
    | Running         // owned by the cleanup task
    | Dropping        // about to destroy the native object
    | Destroyed       // native object destroyed, operation still held
    | Gone            // operation dropped
    | Leaked          // runtime gone before the terminal callback: all is leaked

  datatype Native = Absent | Idle | Live | Freed

  datatype Owner = Owner(stage: Stage, native: Native, started: bool)

  datatype Call = Cancel | Other

  /** The control's gate and what its holder has established. */
  datatype Gate =
    | Free
    | Entered(call: Call)   // locked, nothing checked yet
    | Armed(call: Call)     // found the pointer set and the request not done
    | Passed                // about to unlock
    | Destroying            // the owner has cleared the pointer

  /** The control shared with handles: pointer, start flag, cancel flag, calls of
      `cancel` before the gate, whether one reached the started object. */
  datatype Control = Control(
    raw: bool, startedFlag: bool, cancelRequested: bool, cancelers: nat, reached: bool, gate: Gate)

  /** Callback leases, and how far terminal and finished callback have got. */
  datatype Callbacks = Callbacks(
    leases: nat, terminalBegun: bool, done: bool, terminalSent: bool, finishedBegun: bool, finishedSent: bool)

  /** The finished-callback token of a URL request: registered with the engine,
      counted as pending, taken out and about to be uncounted. */
  datatype Token = Token(annotated: bool, counted: bool, settling: bool)

  datatype Req = Req(kind: Kind, own: Owner, ctl: Control, cb: Callbacks, tok: Token)

  datatype OwnerStep =
    | Create | CreateFail | Register(closing: bool) | RefuseCancel | RefuseDrop | ConfigFail
    | Insert | Count | StartOk | StartFail | AbortRemove | AbortFinish | StoreStarted | Reread
    | Cleanup | DestroyEnter | DestroyNative | DropOperation | RuntimeDrop

  datatype GateStep = RequestCancel | Enter(call: Call) | Check | CallNative | Release

  datatype CallbackStep =
    CallbackStart | CallbackEnd | LeaseCall | TerminalStart | SetDone | SendTerminal | FinishedStart | SendFinished

  datatype TokenStep = TokenRemove | TokenFinish

  datatype Action =
    | ByOwner(own: OwnerStep)
    | AtGate(at: GateStep)
    | InCallback(cb: CallbackStep)
    | OnToken(tok: TokenStep)

  function New(kind: Kind): Req {
    Req(kind, Owner(Begun, Absent, false), Control(false, false, false, 0, false, Free),
        Callbacks(0, false, false, false, false, false), Token(false, false, false))
  }

  /** No callback starts any more. */
  predicate Over(kind: Kind, cb: Callbacks) {
    cb.terminalBegun && (kind.Stream? || cb.finishedBegun)
  }

  /** All callbacks that will ever run have run, and the cleanup task knows. */
  predicate Quiet(kind: Kind, cb: Callbacks) {
    cb.terminalBegun && cb.done && cb.terminalSent && cb.leases == 0
    && (kind.Stream? || (cb.finishedBegun && cb.finishedSent))
  }

  // ---------- The owner ----------

  predicate OwnerEnabled(q: Req, a: OwnerStep) {
    var stage, url := q.own.stage, q.kind.Url?;
    match a
    case Create => stage.Begun?
    case CreateFail => stage.Begun?
    case Register(_) => stage.Created?
    case RefuseCancel => stage.Refusing?
    case RefuseDrop => stage.Refused?
    case ConfigFail => stage.Registered?
    case Insert => stage.Registered? && url
    case Count => stage.Inserted?
    case StartOk => if url then stage.Counted? else stage.Registered?
    case StartFail => if url then stage.Counted? else stage.Registered?
    case AbortRemove => stage.StartFailed?
    case AbortFinish => stage.AbortRemoved?
    case StoreStarted => stage.NativeStarted?
    case Reread => stage.FlagStored?
    case Cleanup => stage.Running? && q.cb.terminalSent && (!url || q.cb.finishedSent) && q.cb.leases == 0
    case DestroyEnter => stage.Dropping? && q.ctl.gate.Free?
    case DestroyNative => q.ctl.gate.Destroying?
    case DropOperation => stage.Destroyed?
    case RuntimeDrop => stage.Running? && !q.cb.done
  }

  function AskCancel(c: Control): Control {
    c.(cancelRequested := true, cancelers := c.cancelers + 1)
  }

  function NextOwner(o: Owner, a: OwnerStep, url: bool): Owner {
    match a
    case Create => o.(stage := Created, native := Idle)
    case CreateFail => o.(stage := Gone)
    case Register(closing) => o.(stage := if closing then Refusing else Registered)
    case RefuseCancel => o.(stage := Refused)
    case RefuseDrop => o.(stage := Dropping)
    case ConfigFail => o.(stage := Dropping)
    case Insert => o.(stage := Inserted)
    case Count => o.(stage := Counted)
    case StartOk => Owner(NativeStarted, Live, true)
    case StartFail => o.(stage := if url then StartFailed else Dropping)
    case AbortRemove => o.(stage := AbortRemoved)
    case AbortFinish => o.(stage := Dropping)
    case StoreStarted => o.(stage := FlagStored)
    case Reread => o.(stage := Running)
    case Cleanup => o.(stage := Dropping)
    case DestroyEnter => o
    case DestroyNative => o.(stage := Destroyed, native := Freed)
    case DropOperation => o.(stage := Gone)
    case RuntimeDrop => o.(stage := Leaked)
  }

  function OwnerControl(c: Control, a: OwnerStep): Control {
    match a
    case Create => c.(raw := true)
    case RefuseCancel => AskCancel(c)
    case StoreStarted => c.(startedFlag := true)
    case Reread => if c.cancelRequested then AskCancel(c) else c
    case DestroyEnter => c.(raw := false, gate := Destroying)
    case DestroyNative => c.(gate := Free)
    case RuntimeDrop => AskCancel(c)
    case _ => c
  }

  function OwnerToken(t: Token, a: OwnerStep): Token {
    match a
    case Insert => t.(annotated := true)
    case Count => t.(counted := true)
    case AbortRemove => t.(annotated := false, settling := t.annotated)
    case AbortFinish => t.(counted := false, settling := false)
    case _ => t
  }

  // ---------- The gate ----------

  predicate GateEnabled(c: Control, a: GateStep) {
    match a
    case RequestCancel => true
    case Enter(call) => c.gate.Free? && (call.Cancel? ==> c.cancelers > 0)
    case Check => c.gate.Entered?
    case CallNative => c.gate.Armed?
    case Release => c.gate.Passed?
  }

  /** A stream's `cancel` also waits for the start flag; a URL request's does not. */
  function NextControl(c: Control, a: GateStep, url: bool, live: bool, done: bool): Control
    requires GateEnabled(c, a)
  {
    match a
    case RequestCancel => AskCancel(c)
    case Enter(call) => c.(gate := Entered(call), cancelers := if call.Cancel? then c.cancelers - 1 else c.cancelers)
    case Check =>
      c.(gate := if c.raw && !done && (url || c.startedFlag || c.gate.call.Other?) then Armed(c.gate.call) else Passed)
    case CallNative => c.(gate := Passed, reached := c.reached || (c.gate.call.Cancel? && live))
    case Release => c.(gate := Free)
  }

  // ---------- Callbacks and tokens ----------

  predicate CallbackEnabled(q: Req, a: CallbackStep) {
    match a
    case CallbackStart => q.own.native.Live? && !Over(q.kind, q.cb)
    case CallbackEnd => q.cb.leases > 0
    case LeaseCall => q.cb.leases > 0
    case TerminalStart => q.own.native.Live? && !q.cb.terminalBegun
    case SetDone => q.cb.terminalBegun
    case SendTerminal => q.cb.done
    case FinishedStart => q.own.native.Live? && q.kind.Url? && !q.cb.finishedBegun
    case SendFinished => q.cb.finishedBegun
  }

  function NextCallbacks(c: Callbacks, a: CallbackStep): Callbacks
    requires a.CallbackEnd? ==> c.leases > 0
  {
    match a
    case CallbackStart => c.(leases := c.leases + 1)
    case CallbackEnd => c.(leases := c.leases - 1)
    case LeaseCall => c
    case TerminalStart => c.(terminalBegun := true, leases := c.leases + 1)
    case SetDone => c.(done := true)
    case SendTerminal => c.(terminalSent := true)
    case FinishedStart => c.(finishedBegun := true, leases := c.leases + 1)
    case SendFinished => c.(finishedSent := true)
  }

  /** The engine's finished callback: it takes the token out, if it is there;
      later it uncounts. Duplicate and foreign callbacks find no token. */
  predicate TokenEnabled(q: Req, a: TokenStep) {
    match a
    case TokenRemove => q.own.started
    case TokenFinish => q.tok.settling && !q.own.stage.AbortRemoved?
  }

  function NextToken(t: Token, a: TokenStep): Token {
    match a
    case TokenRemove => if t.annotated then t.(annotated := false, settling := true) else t
    case TokenFinish => t.(settling := false, counted := false)
  }

  predicate Enabled(q: Req, a: Action) {
    match a
    case ByOwner(own) => OwnerEnabled(q, own)
    case AtGate(at) => GateEnabled(q.ctl, at)
    case InCallback(cb) => CallbackEnabled(q, cb)
    case OnToken(tok) => TokenEnabled(q, tok)
  }

  function Apply(q: Req, a: Action): Req
    requires Enabled(q, a)
  {
    match a
    case ByOwner(own) =>
      q.(own := NextOwner(q.own, own, q.kind.Url?), ctl := OwnerControl(q.ctl, own), tok := OwnerToken(q.tok, own))
    case AtGate(at) => q.(ctl := NextControl(q.ctl, at, q.kind.Url?, q.own.native.Live?, q.cb.done))
    case InCallback(cb) => q.(cb := NextCallbacks(q.cb, cb))
    case OnToken(tok) => q.(tok := NextToken(q.tok, tok))
  }

  // ---------- The invariant ----------

  predicate Opening(stage: Stage) {
    stage.Created? || stage.Refusing? || stage.Refused? || stage.Registered? || stage.Inserted?
    || stage.Counted? || stage.StartFailed? || stage.AbortRemoved?
  }

  predicate UpAndRunning(stage: Stage) {
    stage.NativeStarted? || stage.FlagStored? || stage.Running? || stage.Leaked?
  }

  predicate Alive(o: Owner) {
    o.native.Idle? || o.native.Live?
  }

  predicate OwnerInv(o: Owner, quiet: bool) {
    && (o.stage.Begun? ==> o.native.Absent?)
    && (Opening(o.stage) ==> o.native.Idle?)
    && (UpAndRunning(o.stage) ==> o.native.Live?)
    && (o.stage.Dropping? ==> Alive(o))
    && (o.stage.Destroyed? || o.stage.Gone? ==> o.native.Freed? || o.native.Absent?)
    && (o.started <==> o.native.Live? || (o.native.Freed? && o.started))
    && (o.started && !UpAndRunning(o.stage) ==> quiet)
  }

  predicate PointerInv(o: Owner, c: Control) {
    && (c.raw <==> Alive(o) && !c.gate.Destroying?)
    && (c.gate.Destroying? ==> o.stage.Dropping?)
    && (c.gate.Armed? ==> c.raw)
  }

  predicate CallbackInv(o: Owner, c: Callbacks) {
    && (c.leases > 0 ==> UpAndRunning(o.stage))
    && (c.terminalSent ==> c.done)
    && (c.done ==> c.terminalBegun)
    && (c.terminalBegun || c.finishedBegun ==> o.started)
    && (c.finishedSent ==> c.finishedBegun)
  }

  predicate TokenInv(kind: Kind, stage: Stage, started: bool, t: Token) {
    && (kind.Stream? || stage.Begun? || stage.Created? || stage.Refusing? || stage.Refused? || stage.Registered? ==>
          t == Token(false, false, false))
    && (stage.Inserted? || stage.Counted? || stage.StartFailed? || stage.AbortRemoved? ==> kind.Url? && !started)
    && (stage.Inserted? ==> t == Token(true, false, false))
    && (stage.Counted? || stage.StartFailed? ==> t == Token(true, true, false))
    && (stage.AbortRemoved? ==> t == Token(false, true, true))
    && (!started && (stage.Dropping? || stage.Destroyed? || stage.Gone?) ==> t == Token(false, false, false))
    && (!stage.Inserted? ==> (t.counted <==> t.annotated || t.settling))
    && !(t.annotated && t.settling)
  }

  /** A `cancel` call that has stored its flag and has yet to decide. */
  predicate CancelPending(c: Control) {
    c.cancelers > 0 || c.gate == Entered(Cancel) || c.gate == Armed(Cancel)
  }

  predicate CancelInv(o: Owner, c: Control, done: bool) {
    && (o.stage.FlagStored? || o.stage.Running? || o.stage.Leaked? ==> c.startedFlag)
    && (o.stage.Leaked? ==> c.cancelRequested)
    && (o.started && !o.stage.NativeStarted? && !o.stage.FlagStored? && c.cancelRequested ==>
          CancelPending(c) || c.reached || done)
  }

  predicate Inv(q: Req) {
    && OwnerInv(q.own, Quiet(q.kind, q.cb))
    && PointerInv(q.own, q.ctl)
    && CallbackInv(q.own, q.cb)
    && TokenInv(q.kind, q.own.stage, q.own.started, q.tok)
    && CancelInv(q.own, q.ctl, q.cb.done)
  }

  lemma NewInv(kind: Kind)
    ensures Inv(New(kind))
  {
  }

  lemma OwnerStageKept(q: Req, a: OwnerStep)
    requires Inv(q) && OwnerEnabled(q, a)
    ensures OwnerInv(NextOwner(q.own, a, q.kind.Url?), Quiet(q.kind, q.cb))
    ensures CallbackInv(NextOwner(q.own, a, q.kind.Url?), q.cb)
  {
    hide TokenInv, CancelInv;
  }

  lemma OwnerPointerKept(q: Req, a: OwnerStep)
    requires Inv(q) && OwnerEnabled(q, a)
    ensures PointerInv(NextOwner(q.own, a, q.kind.Url?), OwnerControl(q.ctl, a))
  {
    hide TokenInv, CancelInv, CallbackInv, Quiet;
  }

  lemma OwnerTokenKept(q: Req, a: OwnerStep)
    requires Inv(q) && OwnerEnabled(q, a)
    ensures var own := NextOwner(q.own, a, q.kind.Url?);
            TokenInv(q.kind, own.stage, own.started, OwnerToken(q.tok, a))
  {
    hide CancelInv, CallbackInv, Quiet;
  }

  lemma OwnerCancelKept(q: Req, a: OwnerStep)
    requires Inv(q) && OwnerEnabled(q, a)
    ensures CancelInv(NextOwner(q.own, a, q.kind.Url?), OwnerControl(q.ctl, a), q.cb.done)
  {
    hide TokenInv;
  }

  lemma OwnerKept(q: Req, a: OwnerStep)
    requires Inv(q) && OwnerEnabled(q, a)
    ensures Inv(Apply(q, ByOwner(a)))
  {
    hide OwnerInv, PointerInv, CallbackInv, TokenInv, CancelInv, OwnerEnabled, NextOwner, OwnerControl, OwnerToken;
    OwnerStageKept(q, a);
    OwnerPointerKept(q, a);
    OwnerTokenKept(q, a);
    OwnerCancelKept(q, a);
  }

  lemma GateKept(q: Req, a: GateStep)
    requires Inv(q) && GateEnabled(q.ctl, a)
    ensures Inv(Apply(q, AtGate(a)))
  {
    hide CallbackInv, TokenInv;
  }

  lemma CallbackKept(q: Req, a: CallbackStep)
    requires Inv(q) && CallbackEnabled(q, a)
    ensures Inv(Apply(q, InCallback(a)))
  {
    hide TokenInv, PointerInv;
  }

  lemma TokenKept(q: Req, a: TokenStep)
    requires Inv(q) && TokenEnabled(q, a)
    ensures Inv(Apply(q, OnToken(a)))
  {
    hide OwnerInv, PointerInv, CallbackInv, CancelInv;
  }

  lemma StepKeepsInv(q: Req, a: Action)
    requires Inv(q) && Enabled(q, a)
    ensures Inv(Apply(q, a))
  {
    hide Inv, Apply;
    match a
    case ByOwner(own) => OwnerKept(q, own);
    case AtGate(at) => GateKept(q, at);
    case InCallback(cb) => CallbackKept(q, cb);
    case OnToken(tok) => TokenKept(q, tok);
  }

  // ---------- What the invariant says ----------

  /** The steps that call native code on the object. */
  predicate CallsObject(a: Action) {
    || a == AtGate(CallNative) || a == InCallback(LeaseCall)
    || (a.ByOwner? && (a.own.StartOk? || a.own.StartFail? || a.own.ConfigFail? || a.own.DestroyNative?))
  }

  /** Every native call is made on a live object: under the gate after the
      check, under a callback lease, or by the opening call. */
  lemma CallsAreSafe(q: Req, a: Action)
    requires Inv(q) && Enabled(q, a) && CallsObject(a)
    ensures Alive(q.own)
  {
  }

  /** A started object is destroyed only after its terminal callback, for URL
      requests its finished callback as well, with no callback running or yet to
      come. */
  lemma DestroyedOnlyWhenQuiet(q: Req, a: Action)
    requires Inv(q) && Enabled(q, a) && !q.own.native.Freed? && Apply(q, a).own.native.Freed?
    ensures a == ByOwner(DestroyNative) && (q.own.started ==> Quiet(q.kind, q.cb) && Over(q.kind, q.cb))
  {
  }

  /** A destroyed object stays destroyed and no native call is made on it. */
  lemma FreedForEver(q: Req, a: Action)
    requires Inv(q) && Enabled(q, a) && q.own.native.Freed?
    ensures Apply(q, a).own.native.Freed? && !CallsObject(a) && a != InCallback(CallbackStart)
  {
  }

  /** No cancel is lost: once the opening call is over and no `cancel` is still
      under way, a requested cancel has reached the started object, or the
      object was done anyway. */
  lemma CancelIsNotLost(q: Req)
    requires Inv(q) && (q.own.stage.Running? || q.own.stage.Leaked?) && q.ctl.cancelRequested && !CancelPending(q.ctl)
    ensures q.ctl.reached || q.cb.done
  {
  }

  /** The holder of the gate calls native code if and only if it finds the pointer
      set and the object not done; a stream's cancel waits for the start as well. */
  lemma GateArmsIff(q: Req)
    requires Inv(q) && q.ctl.gate.Entered?
    ensures Apply(q, AtGate(Check)).ctl.gate.Armed? <==>
      Alive(q.own) && !q.cb.done && !(q.kind.Stream? && q.ctl.gate.call.Cancel? && !q.ctl.startedFlag)
    ensures !Apply(q, AtGate(Check)).ctl.gate.Armed? ==> Apply(q, AtGate(Check)).ctl.gate.Passed?
  {
  }

  /** A request or stream that its runtime leaves behind was asked to cancel. */
  lemma LeakedWasAsked(q: Req)
    requires Inv(q) && q.own.stage.Leaked?
    ensures q.ctl.cancelRequested && (CancelPending(q.ctl) || q.ctl.reached || q.cb.done)
  {
  }

  /** The started object is reached only by a native cancel, called under the gate. */
  lemma ReachedByCancel(q: Req, a: Action)
    requires Enabled(q, a) && !q.ctl.reached
    ensures Apply(q, a).ctl.reached <==>
      a == AtGate(CallNative) && q.ctl.gate == Armed(Cancel) && q.own.native.Live?
  {
  }

  /** The opening call has given up before the object was started. */
  predicate GivenUp(o: Owner) {
    !o.started
    && (o.stage.Refusing? || o.stage.Refused? || o.stage.StartFailed? || o.stage.AbortRemoved? || o.stage.Dropping?
        || o.stage.Destroyed? || o.stage.Gone?)
  }

  lemma GivenUpStays(q: Req, a: Action)
    requires Inv(q) && Enabled(q, a) && GivenUp(q.own)
    ensures GivenUp(Apply(q, a).own) && a != InCallback(CallbackStart) && a != InCallback(TerminalStart)
  {
    hide PointerInv, TokenInv, CancelInv, OwnerControl, OwnerToken, NextControl, NextToken, NextCallbacks;
  }
}
