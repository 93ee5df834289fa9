/**
 The cleanup task's wait for callback leases.

 `callback_count` goes up and down in any number of callback threads. The thread
 that takes it to zero owes a `notify_waiters` until it gets to it. Each load of
 the waiter, its `notified()` and its await are steps of their own.
 */
module LeaseWait {
  import L = NativeLifetime

  datatype Waiter =
    | Top                   // before the load in the loop's condition
    | Noting                // saw a lease, before `notified()`
    | Rechecking(gen: nat)  // before the second load
    | Awaiting(gen: nat)
    | Returned

  /** Leases held, generation of `callbacks_idle`, threads that have yet to notify. */
  datatype Sys = Sys(leases: nat, gen: nat, due: nat, waiter: Waiter)

  datatype Action = LeaseBegin | LeaseEnd | NotifyWaiters | Load | CreateNotified | Reload | Resume

  /** Any number of callbacks may be under way when the wait begins. */
  predicate Initial(s: Sys) {
    s.waiter.Top?
  }

  predicate Enabled(s: Sys, a: Action) {
    match a
    case LeaseBegin => true
    case LeaseEnd => s.leases > 0
    case NotifyWaiters => s.due > 0
    case Load => s.waiter.Top?
    case CreateNotified => s.waiter.Noting?
    case Reload => s.waiter.Rechecking?
    case Resume => s.waiter.Awaiting? && s.waiter.gen != s.gen
  }

  function Apply(s: Sys, a: Action): Sys
    requires Enabled(s, a)
  {
    match a
    case LeaseBegin => s.(leases := s.leases + 1)
    case LeaseEnd => s.(leases := s.leases - 1, due := if s.leases == 1 then s.due + 1 else s.due)
    case NotifyWaiters => s.(gen := s.gen + 1, due := s.due - 1)
    case Load => s.(waiter := if s.leases != 0 then Noting else Returned)
    case CreateNotified => s.(waiter := Rechecking(s.gen))
    case Reload => s.(waiter := if s.leases != 0 then Awaiting(s.waiter.gen) else Top)
    case Resume => s.(waiter := Top)
  }

  ghost predicate Reaches(s: Sys, actions: seq<Action>, t: Sys)
    decreases |actions|
  {
    if actions == [] then s == t
    else Enabled(s, actions[0]) && Reaches(Apply(s, actions[0]), actions[1..], t)
  }

  ghost predicate Reachable(s: Sys) {
    exists start, actions :: Initial(start) && Reaches(start, actions, s)
  }

  predicate Asleep(s: Sys) {
    s.waiter == Awaiting(s.gen)
  }

  predicate Inv(s: Sys) {
    && (s.waiter.Rechecking? || s.waiter.Awaiting? ==> s.waiter.gen <= s.gen)
    && (Asleep(s) ==> s.leases > 0 || s.due > 0)
  }

  lemma {:induction false} RunKeepsInv(s: Sys, actions: seq<Action>, t: Sys)
    requires Inv(s) && Reaches(s, actions, t)
    ensures Inv(t)
    decreases |actions|
  {
    if actions != [] {
      RunKeepsInv(Apply(s, actions[0]), actions[1..], t);
    }
  }

  /** A waiter asleep has a lease to wait for, or a thread that owes it the
      notification for the last one: it never sleeps through that. */
  lemma NeverSleepsThroughTheLastLease(s: Sys)
    requires Reachable(s) && Asleep(s)
    ensures s.leases > 0 || s.due > 0
  {
    var start, actions :| Initial(start) && Reaches(start, actions, s);
    RunKeepsInv(start, actions, s);
  }

  /** A run in which no callback begins and at whose end the wait is over. */
  ghost predicate Returns(s: Sys, actions: seq<Action>, t: Sys) {
    Reaches(s, actions, t) && LeaseBegin !in actions && t.waiter.Returned?
  }

  function Place(waiter: Waiter): nat {
    match waiter
    case Returned => 0
    case Top => 1
    case Rechecking(_) => 2
    case Awaiting(_) => 2
    case Noting => 3
  }

  /** What takes the wait nearer to its end: callbacks end and notify first. */
  function WayOut(s: Sys): Action {
    if s.leases > 0 then LeaseEnd
    else if s.due > 0 then NotifyWaiters
    else
      match s.waiter
      case Noting => CreateNotified
      case Rechecking(_) => Reload
      case Awaiting(_) => Resume
      case _ => Load
  }

  lemma OneStepOut(s: Sys)
    requires Inv(s) && !s.waiter.Returned?
    ensures Enabled(s, WayOut(s)) && Inv(Apply(s, WayOut(s)))
    ensures var t := Apply(s, WayOut(s));
            2 * t.leases + t.due < 2 * s.leases + s.due
            || (2 * t.leases + t.due == 2 * s.leases + s.due && Place(t.waiter) < Place(s.waiter))
  {
  }

  lemma {:induction false} ReturnsFrom(s: Sys)
    requires Inv(s)
    ensures exists actions, t :: Returns(s, actions, t)
    decreases 2 * s.leases + s.due, Place(s.waiter)
  {
    if s.waiter.Returned? {
      assert Returns(s, [], s);
    } else {
      OneStepOut(s);
      var u := Apply(s, WayOut(s));
      ReturnsFrom(u);
      var actions, t :| Returns(u, actions, t);
      assert ([WayOut(s)] + actions)[1..] == actions;
      assert Returns(s, [WayOut(s)] + actions, t);
    }
  }

  /** Wherever the wait is, it comes to its end once the callbacks under way do. */
  lemma CanAlwaysReturn(s: Sys)
    requires Reachable(s)
    ensures exists actions, t :: Returns(s, actions, t)
  {
    var start, actions :| Initial(start) && Reaches(start, actions, s);
    RunKeepsInv(start, actions, s);
    ReturnsFrom(s);
  }

  /** Without a callback that ends, the wait does not: in every continuation in
      which a lease is held throughout, it has not returned. */
  lemma {:induction false} WaitsForEveryLease(s: Sys, actions: seq<Action>, t: Sys)
    requires !s.waiter.Returned? && s.leases > 0 && Reaches(s, actions, t) && LeaseEnd !in actions
    ensures !t.waiter.Returned? && t.leases >= s.leases
    decreases |actions|
  {
    if actions != [] {
      assert actions[0] in actions && (forall a :: a in actions[1..] ==> a in actions);
      WaitsForEveryLease(Apply(s, actions[0]), actions[1..], t);
    }
  }

  /** Behind the terminal signal, for URL requests also the finished one, no
      lease begins: `Cleanup` may take the three awaits for one, as the wait for
      leases is the last of them. */
  lemma SignalsEndTheLeases(q: L.Req, a: L.Action)
    requires L.Inv(q) && L.Enabled(q, a) && q.cb.terminalSent && (q.kind.Url? ==> q.cb.finishedSent)
    ensures var cb := L.Apply(q, a).cb;
            cb.terminalSent && (q.kind.Url? ==> cb.finishedSent) && cb.leases <= q.cb.leases
  {
    hide L.OwnerInv, L.PointerInv, L.TokenInv, L.CancelInv, L.OwnerControl, L.OwnerToken, L.NextControl, L.NextToken;
  }
}
