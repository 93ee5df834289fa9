/**
 The engine's shared state: the admission boundary, the list of registered
 cancelers, and the accounting of finished callbacks. The critical sections are
 methods that update the fields in place.
 */
module EngineState {
  import opened Base

  /** A guarded decrement. */
  function Pred(n: nat): nat {
    if n == 0 then 0 else n - 1
  }

  // ---------- Admission ----------

  /** Whether `begin_operation` succeeds. */
  predicate Admits(closing: bool, present: bool) {
    !closing && present
  }

  /** The controls still alive, in order. */
  function Retain(controls: seq<nat>, dead: set<nat>): seq<nat> {
    if controls == [] then []
    else
      var n := |controls| - 1;
      Retain(controls[..n], dead) + (if controls[n] in dead then [] else [controls[n]])
  }

  lemma {:induction false} RetainMembers(controls: seq<nat>, dead: set<nat>)
    ensures forall c :: c in Retain(controls, dead) <==> c in controls && c !in dead
  {
    if controls != [] {
      var n := |controls| - 1;
      RetainMembers(controls[..n], dead);
      assert controls == controls[..n] + [controls[n]];
    }
  }

  /** `native` is the engine's pointer while the engine owns it, and `generation`
      counts the calls of `notify_waiters` on `idle`. */
  class EngineInner {
    var native: Option<nat>
    var closing: bool
    var active: nat
    var generation: nat
    var controls: seq<nat>

    constructor (raw: nat)
      ensures native == Some(raw) && !closing && active == 0 && controls == []
    {
      native, closing, active, generation, controls := Some(raw), false, 0, 0, [];
    }

    method BeginOperation() returns (raw: Option<nat>, error: Option<Error>)
      modifies this`active
      ensures raw.Some? <==> Admits(closing, native.Some?)
      ensures raw.Some? ==> raw == native && active == old(active) + 1
      ensures raw.None? ==> active == old(active) && error == Some(EngineShutdown)
    {
      raw, error := None, Some(EngineShutdown);
      if closing {
        return;
      }
      match native {
        case None =>
        case Some(pointer) =>
          active := active + 1;
          raw, error := Some(pointer), None;
      }
    }

    /** The drop of an operation; the waiters are notified by the last one. */
    method DropOperation()
      requires active > 0
      modifies this`active, this`generation
      ensures active == Pred(old(active)) == old(active) - 1
      ensures generation == old(generation) + (if active == 0 then 1 else 0)
    {
      active := active - 1;
      if active == 0 {
        generation := generation + 1;
      }
    }

    /** `refused` tells the caller to cancel the control it has just registered. */
    method Register(control: nat, dead: set<nat>) returns (refused: bool)
      requires control !in dead
      modifies this`controls
      ensures controls == Retain(old(controls), dead) + [control]
      ensures forall c :: c in controls <==> c == control || (c in old(controls) && c !in dead)
      ensures refused <==> closing
    {
      RetainMembers(controls, dead);
      var kept := [];
      for i := 0 to |controls|
        invariant controls == old(controls)
        invariant kept == Retain(controls[..i], dead)
      {
        assert controls[..i + 1][..i] == controls[..i];
        if controls[i] !in dead {
          kept := kept + [controls[i]];
        }
      }
      assert controls[..|controls|] == controls;
      controls := kept + [control];
      refused := closing;
    }

    method SetClosing()
      modifies this`closing
      ensures closing && forall raw: nat :: !Admits(closing, native == Some(raw))
    {
      closing := true;
    }

    /** The controls that this call of `shutdown` cancels. */
    method Snapshot(dead: set<nat>) returns (owed: seq<nat>)
      ensures owed == Retain(controls, dead)
      ensures forall c :: c in owed <==> c in controls && c !in dead
    {
      RetainMembers(controls, dead);
      owed := Retain(controls, dead);
    }

    /** Whoever gets the native engine is the only one who ever does. */
    method TakeNative() returns (taken: Option<nat>)
      modifies this`native
      ensures taken == old(native) && native.None?
    {
      taken, native := native, None;
    }
  }

  // ---------- Finished callbacks ----------

  /** An annotation: its address and, unless it is the tracking one, its text. */
  datatype Annotation = Annotation(pointer: nat, text: Option<nat>)

  /** The registered annotations, by address; the text is absent for tokens. */
  type Registry = map<nat, Option<nat>>

  function Insert(registry: Registry, annotations: seq<Annotation>): (r: Registry)
    ensures r.Keys == registry.Keys + set a | a in annotations :: a.pointer
  {
    if annotations == [] then registry
    else
      var last := annotations[|annotations| - 1];
      Insert(registry, annotations[..|annotations| - 1])[last.pointer := last.text]
  }

  /** Whether a finished callback with these annotations is one the engine is
      waiting for. */
  predicate Tracked(registry: Registry, pointers: seq<nat>) {
    exists p :: p in pointers && p in registry && registry[p].None?
  }

  /** The texts handed to the application, in the order of the callback. */
  function Texts(registry: Registry, pointers: seq<nat>): seq<(nat, nat)>
    decreases |pointers|
  {
    if pointers == [] then []
    else
      var n := |pointers| - 1;
      var p := pointers[n];
      Texts(registry, pointers[..n])
      + (if p in registry && registry[p].Some? && p !in pointers[..n] then [(p, registry[p].value)] else [])
  }

  class EngineFinishedContext {
    var annotations: Registry
    var pending: nat
    var generation: nat

    constructor ()
      ensures annotations == map[] && pending == 0
    {
      annotations, pending, generation := map[], 0, 0;
    }

    /** The first section of `begin_request`. */
    method InsertAnnotations(added: seq<Annotation>)
      modifies this`annotations
      ensures annotations == Insert(old(annotations), added)
    {
      for i := 0 to |added|
        invariant annotations == Insert(old(annotations), added[..i])
      {
        annotations := annotations[added[i].pointer := added[i].text];
        assert added[..i + 1][..i] == added[..i];
      }
      assert added[..|added|] == added;
    }

    /** The second section of `begin_request`. */
    method CountRequest()
      modifies this`pending
      ensures pending == old(pending) + 1
    {
      pending := pending + 1;
    }

    /** The first section of `abort_request`. */
    method RemoveAnnotations(removed: seq<Annotation>)
      modifies this`annotations
      ensures annotations == old(annotations) - set a | a in removed :: a.pointer
    {
      for i := 0 to |removed|
        invariant annotations == old(annotations) - set a | a in removed[..i] :: a.pointer
      {
        annotations := annotations - {removed[i].pointer};
        assert removed[..i + 1] == removed[..i] + [removed[i]];
      }
      assert removed[..|removed|] == removed;
    }

    method FinishOne()
      modifies this`pending, this`generation
      ensures pending == Pred(old(pending))
      ensures generation == old(generation) + (if old(pending) == 1 then 1 else 0)
    {
      if pending == 0 {
        return;
      }
      pending := pending - 1;
      if pending == 0 {
        generation := generation + 1;
      }
    }

    /** A finished callback with these annotation addresses. */
    method OnFinished(pointers: seq<nat>) returns (texts: seq<(nat, nat)>, tracked: bool)
      modifies this
      ensures tracked <==> Tracked(old(annotations), pointers)
      ensures texts == Texts(old(annotations), pointers)
      ensures annotations == old(annotations) - set p | p in pointers
      ensures pending == if tracked then Pred(old(pending)) else old(pending)
      ensures !tracked ==> generation == old(generation)
    {
      texts, tracked := [], false;
      for i := 0 to |pointers|
        invariant annotations == old(annotations) - set p | p in pointers[..i]
        invariant tracked <==> Tracked(old(annotations), pointers[..i])
        invariant texts == Texts(old(annotations), pointers[..i])
        invariant pending == old(pending) && generation == old(generation)
      {
        var p := pointers[i];
        assert pointers[..i + 1] == pointers[..i] + [p];
        assert pointers[..i + 1][..i] == pointers[..i];
        if p in annotations {
          match annotations[p] {
            case Some(text) => texts := texts + [(p, text)];
            case None => tracked := true;
          }
          annotations := annotations - {p};
        }
      }
      assert pointers[..|pointers|] == pointers;
      if tracked {
        FinishOne();
      }
    }
  }

  lemma {:induction false} InsertedText(registry: Registry, annotations: seq<Annotation>, k: nat)
    requires k < |annotations|
    requires forall i :: k < i < |annotations| ==> annotations[i].pointer != annotations[k].pointer
    ensures annotations[k].pointer in Insert(registry, annotations)
    ensures Insert(registry, annotations)[annotations[k].pointer] == annotations[k].text
  {
    if k < |annotations| - 1 {
      InsertedText(registry, annotations[..|annotations| - 1], k);
    }
  }

  /** A token inserted by `begin_request` is still there after any callback that
      does not carry it, is found by the callback that does, and then never
      again. */
  lemma TokenIsFoundOnce(registry: Registry, begun: seq<Annotation>, k: nat, foreign: seq<nat>, pointers: seq<nat>)
    requires k < |begun| && begun[k].text.None?
    requires forall i :: k < i < |begun| ==> begun[i].pointer != begun[k].pointer
    requires begun[k].pointer !in foreign && begun[k].pointer in pointers
    ensures Tracked(Insert(registry, begun) - (set p | p in foreign), pointers)
    ensures !Tracked(Insert(registry, begun) - (set p | p in pointers), pointers)
  {
    InsertedText(registry, begun, k);
  }

  lemma {:induction false} InsertKeepsOthers(registry: Registry, annotations: seq<Annotation>, p: nat)
    requires p in registry && forall a :: a in annotations ==> a.pointer != p
    ensures p in Insert(registry, annotations) && Insert(registry, annotations)[p] == registry[p]
  {
    if annotations != [] {
      var n := |annotations| - 1;
      assert annotations[n] in annotations && forall a :: a in annotations[..n] ==> a in annotations;
      InsertKeepsOthers(registry, annotations[..n], p);
    }
  }

  /** The first place of `p`, or the length. */
  function Place(pointers: seq<nat>, p: nat): (i: nat)
    ensures i <= |pointers| && (i < |pointers| ==> pointers[i] == p) && forall k :: 0 <= k < i ==> pointers[k] != p
  {
    if pointers == [] || pointers[0] == p then 0 else 1 + Place(pointers[1..], p)
  }

  lemma PlaceUnique(pointers: seq<nat>, p: nat, i: nat)
    requires i < |pointers| && pointers[i] == p && forall k :: 0 <= k < i ==> pointers[k] != p
    ensures Place(pointers, p) == i
  {
  }

  /** A finished callback hands out the text of every registered annotation that it
      carries, each once, in the order in which it names them first. */
  lemma {:induction false} TextsAreListed(registry: Registry, pointers: seq<nat>)
    ensures forall p, t :: (p, t) in Texts(registry, pointers) <==> p in pointers && p in registry && registry[p] == Some(t)
    ensures forall i, j :: 0 <= i < j < |Texts(registry, pointers)| ==>
      Place(pointers, Texts(registry, pointers)[i].0) < Place(pointers, Texts(registry, pointers)[j].0)
    decreases |pointers|
  {
    if pointers != [] {
      var n := |pointers| - 1;
      var p, front := pointers[n], Texts(registry, pointers[..n]);
      TextsAreListed(registry, pointers[..n]);
      assert pointers == pointers[..n] + [p];
      forall i | 0 <= i < |front| ensures Place(pointers, front[i].0) == Place(pointers[..n], front[i].0) < n {
        assert front[i] in front && (front[i].0, front[i].1) == front[i];
        var k := Place(pointers[..n], front[i].0);
        assert forall m :: 0 <= m < k ==> pointers[m] == pointers[..n][m];
        PlaceUnique(pointers, front[i].0, k);
      }
      if p !in pointers[..n] {
        assert forall m :: 0 <= m < n ==> pointers[m] == pointers[..n][m] && pointers[m] != p;
        PlaceUnique(pointers, p, n);
      }
      hide Texts, Place;
      TextsGrow(registry, pointers);
    }
  }

  lemma TextsGrow(registry: Registry, pointers: seq<nat>)
    requires pointers != []
    ensures var n := |pointers| - 1;
            var p := pointers[n];
            Texts(registry, pointers)
            == Texts(registry, pointers[..n])
               + (if p in registry && registry[p].Some? && p !in pointers[..n] then [(p, registry[p].value)] else [])
  {
  }

  lemma RetainNext(s: seq<nat>, c: nat, dead: set<nat>)
    ensures Retain(s + [c], dead) == Retain(s, dead) + (if c in dead then [] else [c])
  {
    assert (s + [c])[..|s|] == s;
  }

  /** Pruning keeps the live controls in order and drops nothing else. */
  lemma {:induction false} RetainConcat(a: seq<nat>, b: seq<nat>, dead: set<nat>)
    ensures Retain(a + b, dead) == Retain(a, dead) + Retain(b, dead)
    decreases |b|
  {
    if b == [] {
      assert a + b == a;
    } else {
      var n := |b| - 1;
      RetainNext(a + b[..n], b[n], dead);
      RetainNext(b[..n], b[n], dead);
      hide Retain;
      RetainConcat(a, b[..n], dead);
      assert a + b == a + b[..n] + [b[n]] && b == b[..n] + [b[n]];
    }
  }

  lemma RetainOne(c: nat, dead: set<nat>)
    ensures Retain([c], dead) == if c in dead then [] else [c]
  {
  }
}
