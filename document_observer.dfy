/**
  The document observer of the custom-element polyfill (src/native/document-observer.js).

  One process-wide singleton owns at most one mutation observer watching the
  whole document. Each batch of mutation records the host delivers is turned
  into lifecycle work: `init` for the added nodes of a record (unless they sit
  in an ignored subtree) and the `detached` callback for every registered
  element in the subtree of each removed node.

  The collaborators the handler calls (the parent link, the ignored-subtree
  lookup, the tree walk and the registry lookup) are parameters, and the work
  the handler fires is recorded as a trace of effects.
*/
module Native {
  import opened Wrappers

  // ---------------------------------------------------------------------------
  // Data model
  // ---------------------------------------------------------------------------

  /** A DOM node, known only by its identity. */
  datatype Node = Node(id: nat)

  /** A registered element definition, as far as the observer looks at it:
      whether its prototype declares a `detachedCallback`. */
  datatype Component = Component(hasDetachedCallback: bool)

  /** The DOM and the registry as the handler sees them during one batch.
      `closestIgnoredElement(p)` is meant as the nearest ignored ancestor of
      `p`, or `None`; `walkTree(n)` is meant as the nodes the walk from `n`
      visits, in visiting order. The model places no constraint on either:
      every proof holds for any functions of these types. */
  datatype Dom = Dom(
    parentNode: Node -> Option<Node>,
    closestIgnoredElement: Option<Node> -> Option<Node>,
    walkTree: Node -> seq<Node>,
    findElementInRegistry: Node -> Option<Component>)

  /** One mutation record of a delivered batch. */
  datatype MutationRecord = MutationRecord(addedNodes: seq<Node>, removedNodes: seq<Node>)

  /** Work the handler fires, in the order it fires it. */
  datatype Effect =
    | Init(node: Node, checkIfIsInDom: bool)   // init(node, { checkIfIsInDom })
    | Detached(node: Node)                     // component.prototype.detachedCallback.call(node)

  // ---------------------------------------------------------------------------
  // Specification of the handler
  // ---------------------------------------------------------------------------

  /** `node` has a registered component whose prototype declares `detachedCallback`. */
  predicate FiresDetached(dom: Dom, node: Node) {
    var component := dom.findElementInRegistry(node);
    component.Some? && component.value.hasDetachedCallback
  }

  /** The added nodes of a record are initialised: the list is non-empty and
      the parent of its FIRST node is not inside an ignored subtree. */
  predicate InitsAdded(dom: Dom, addedNodes: seq<Node>) {
    |addedNodes| > 0 && dom.closestIgnoredElement(dom.parentNode(addedNodes[0])).None?
  }

  /** The `detached` calls for a walk that visits `walked`, in visiting order. */
  function DetachedEffects(dom: Dom, walked: seq<Node>): seq<Effect> {
    if walked == [] then []
    else
      var last := walked[|walked| - 1];
      DetachedEffects(dom, walked[..|walked| - 1]) + (if FiresDetached(dom, last) then [Detached(last)] else [])
  }

  /** The effects of removing the nodes `removedNodes`, one subtree after the other. */
  function RemovedEffects(dom: Dom, removedNodes: seq<Node>): seq<Effect> {
    if removedNodes == [] then []
    else
      RemovedEffects(dom, removedNodes[..|removedNodes| - 1])
        + DetachedEffects(dom, dom.walkTree(removedNodes[|removedNodes| - 1]))
  }

  /** One `init(n, { checkIfIsInDom: false })` per node of `addedNodes`. */
  function InitEffects(addedNodes: seq<Node>): seq<Effect> {
    if addedNodes == [] then []
    else InitEffects(addedNodes[..|addedNodes| - 1]) + [Init(addedNodes[|addedNodes| - 1], false)]
  }

  /** The effects of one mutation record: its added nodes, then its removed nodes. */
  function RecordEffects(dom: Dom, r: MutationRecord): seq<Effect> {
    (if InitsAdded(dom, r.addedNodes) then InitEffects(r.addedNodes) else [])
      + RemovedEffects(dom, r.removedNodes)
  }

  /** The effects of a batch: the records' effects in delivery order. */
  function BatchEffects(dom: Dom, mutations: seq<MutationRecord>): seq<Effect> {
    if mutations == [] then []
    else BatchEffects(dom, mutations[..|mutations| - 1]) + RecordEffects(dom, mutations[|mutations| - 1])
  }

  // ---------------------------------------------------------------------------
  // Properties of the specification
  // ---------------------------------------------------------------------------

  /** `InitEffects` fires exactly one `init(n, { checkIfIsInDom: false })` per
      added node, in list order, and nothing else. */
  lemma {:induction false} InitEffectsAt(addedNodes: seq<Node>)
    ensures |InitEffects(addedNodes)| == |addedNodes|
    ensures forall i :: 0 <= i < |addedNodes| ==> InitEffects(addedNodes)[i] == Init(addedNodes[i], false)
  {
    if addedNodes != [] {
      InitEffectsAt(addedNodes[..|addedNodes| - 1]);
    }
  }

  /** A walk fires only `detached` calls, each on a visited node that declares
      the callback, and no more calls than it visits nodes. */
  lemma {:induction false} DetachedEffectsSound(dom: Dom, walked: seq<Node>)
    ensures |DetachedEffects(dom, walked)| <= |walked|
    ensures forall e :: e in DetachedEffects(dom, walked) ==>
      e.Detached? && e.node in walked && FiresDetached(dom, e.node)
  {
    if walked != [] {
      DetachedEffectsSound(dom, walked[..|walked| - 1]);
    }
  }

  /** Removals fire only `detached` calls, each on a node that declares the callback. */
  lemma {:induction false} RemovedEffectsSound(dom: Dom, removedNodes: seq<Node>)
    ensures forall e :: e in RemovedEffects(dom, removedNodes) ==> e.Detached? && FiresDetached(dom, e.node)
  {
    if removedNodes != [] {
      RemovedEffectsSound(dom, removedNodes[..|removedNodes| - 1]);
      DetachedEffectsSound(dom, dom.walkTree(removedNodes[|removedNodes| - 1]));
    }
  }

  /** Walking `a` then `b` fires the callbacks of `a`, then those of `b`:
      with the one-node case of the definition, this fixes the order. */
  lemma {:induction false} DetachedEffectsAppend(dom: Dom, a: seq<Node>, b: seq<Node>)
    ensures DetachedEffects(dom, a + b) == DetachedEffects(dom, a) + DetachedEffects(dom, b)
  {
    if b == [] {
      assert a + b == a;
    } else {
      var b' := b[..|b| - 1];
      assert (a + b)[..|a + b| - 1] == a + b';
      assert (a + b)[|a + b| - 1] == b[|b| - 1];
      DetachedEffectsAppend(dom, a, b');
    }
  }

  /** `detached` is called on a visited node exactly when it has a component
      declaring `detachedCallback`; nodes without one produce nothing. */
  lemma {:induction false} DetachedEffectsMember(dom: Dom, walked: seq<Node>, m: Node)
    ensures Detached(m) in DetachedEffects(dom, walked) <==> m in walked && FiresDetached(dom, m)
  {
    var t := DetachedEffects(dom, walked);
    DetachedEffectsSound(dom, walked);
    if walked != [] && m in walked && FiresDetached(dom, m) {
      var prefix := walked[..|walked| - 1];
      if m == walked[|walked| - 1] {
        assert t[|t| - 1] == Detached(m);
      } else {
        assert m in prefix;
        DetachedEffectsMember(dom, prefix, m);
      }
    }
  }

  /** A node that declares the callback is detached once for each time the
      walk visits it; any other node is never detached. */
  lemma {:induction false} DetachedEffectsCount(dom: Dom, walked: seq<Node>, m: Node)
    ensures multiset(DetachedEffects(dom, walked))[Detached(m)]
      == if FiresDetached(dom, m) then multiset(walked)[m] else 0
  {
    if walked != [] {
      DetachedEffectsCount(dom, walked[..|walked| - 1], m);
      assert walked == walked[..|walked| - 1] + [walked[|walked| - 1]];
    }
  }

  /** Removing `a` then `b` gives the effects of `a`, then those of `b`. */
  lemma {:induction false} RemovedEffectsAppend(dom: Dom, a: seq<Node>, b: seq<Node>)
    ensures RemovedEffects(dom, a + b) == RemovedEffects(dom, a) + RemovedEffects(dom, b)
  {
    if b == [] {
      assert a + b == a;
    } else {
      var b' := b[..|b| - 1];
      assert (a + b)[..|a + b| - 1] == a + b';
      assert (a + b)[|a + b| - 1] == b[|b| - 1];
      RemovedEffectsAppend(dom, a, b');
    }
  }

  /** Every removed subtree is walked on its own: `detached` is called on `m`
      exactly when `m` lies in the walk of some removed node and declares the callback. */
  lemma {:induction false} RemovedEffectsMember(dom: Dom, removedNodes: seq<Node>, m: Node)
    ensures Detached(m) in RemovedEffects(dom, removedNodes)
      <==> FiresDetached(dom, m) && exists n :: n in removedNodes && m in dom.walkTree(n)
  {
    if removedNodes != [] {
      var prefix := removedNodes[..|removedNodes| - 1];
      var last := removedNodes[|removedNodes| - 1];
      RemovedEffectsMember(dom, prefix, m);
      DetachedEffectsMember(dom, dom.walkTree(last), m);
      if exists n :: n in removedNodes && m in dom.walkTree(n) {
        var n :| n in removedNodes && m in dom.walkTree(n);
        if n != last {
          assert n in prefix;
        }
      }
    }
  }

  /** A record with added nodes whose first node's parent is not ignored
      starts with exactly one `init(n, { checkIfIsInDom: false })` per added
      node in list order, and everything after them is the effects of its
      removed nodes, all of them `detached` calls. */
  lemma AddedNodesInitialised(dom: Dom, r: MutationRecord)
    requires InitsAdded(dom, r.addedNodes)
    ensures var t := RecordEffects(dom, r);
      && |r.addedNodes| <= |t|
      && (forall i :: 0 <= i < |r.addedNodes| ==> t[i] == Init(r.addedNodes[i], false))
      && (forall i :: |r.addedNodes| <= i < |t| ==> t[i].Detached?)
      && t[|r.addedNodes|..] == RemovedEffects(dom, r.removedNodes)
  {
    InitEffectsAt(r.addedNodes);
    RemovedEffectsSound(dom, r.removedNodes);
  }

  /** If the added list is empty or its first node's parent is ignored, no
      `init` is fired for the record, and its removed nodes are still processed. */
  lemma IgnoredRecordSkipsInit(dom: Dom, r: MutationRecord)
    requires !InitsAdded(dom, r.addedNodes)
    ensures RecordEffects(dom, r) == RemovedEffects(dom, r.removedNodes)
    ensures forall e :: e in RecordEffects(dom, r) ==> e.Detached?
  {
    RemovedEffectsSound(dom, r.removedNodes);
    assert RecordEffects(dom, r) == [] + RemovedEffects(dom, r.removedNodes);
  }

  /** Within one record every `init` comes before every `detached` call. */
  lemma InitsPrecedeDetached(dom: Dom, r: MutationRecord)
    ensures var t := RecordEffects(dom, r);
      forall i, j :: 0 <= i < j < |t| && t[i].Detached? ==> t[j].Detached?
  {
    var inits := if InitsAdded(dom, r.addedNodes) then InitEffects(r.addedNodes) else [];
    InitEffectsAt(r.addedNodes);
    RemovedEffectsSound(dom, r.removedNodes);
    assert forall i :: 0 <= i < |inits| ==> inits[i].Init?;
  }

  /** Only the parent of the first added node is consulted: two views of the
      DOM that agree on whether that parent is ignored, and on walks and
      registry lookups, give the same effects whatever the other added nodes'
      parents are. */
  lemma OnlyFirstParentConsulted(dom1: Dom, dom2: Dom, r: MutationRecord)
    requires |r.addedNodes| > 0 ==>
      dom1.closestIgnoredElement(dom1.parentNode(r.addedNodes[0])).None?
        == dom2.closestIgnoredElement(dom2.parentNode(r.addedNodes[0])).None?
    requires forall n :: dom1.walkTree(n) == dom2.walkTree(n)
    requires forall n :: dom1.findElementInRegistry(n) == dom2.findElementInRegistry(n)
    ensures RecordEffects(dom1, r) == RecordEffects(dom2, r)
  {
    RemovedEffectsAgree(dom1, dom2, r.removedNodes);
  }

  /** Views of the DOM that agree on walks and registry lookups agree on the
      effects of removals. */
  lemma {:induction false} RemovedEffectsAgree(dom1: Dom, dom2: Dom, removedNodes: seq<Node>)
    requires forall n :: dom1.walkTree(n) == dom2.walkTree(n)
    requires forall n :: dom1.findElementInRegistry(n) == dom2.findElementInRegistry(n)
    ensures RemovedEffects(dom1, removedNodes) == RemovedEffects(dom2, removedNodes)
  {
    if removedNodes != [] {
      RemovedEffectsAgree(dom1, dom2, removedNodes[..|removedNodes| - 1]);
      DetachedEffectsAgree(dom1, dom2, dom1.walkTree(removedNodes[|removedNodes| - 1]));
    }
  }

  /** Views of the DOM that agree on registry lookups fire the same
      `detached` calls for one walk. */
  lemma {:induction false} DetachedEffectsAgree(dom1: Dom, dom2: Dom, walked: seq<Node>)
    requires forall n :: dom1.findElementInRegistry(n) == dom2.findElementInRegistry(n)
    ensures DetachedEffects(dom1, walked) == DetachedEffects(dom2, walked)
  {
    if walked != [] {
      DetachedEffectsAgree(dom1, dom2, walked[..|walked| - 1]);
    }
  }

  /** Handling `a` then `b` is handling `a + b`: records are handled in
      delivery order and the trace is the concatenation of their traces. */
  lemma {:induction false} BatchEffectsAppend(dom: Dom, a: seq<MutationRecord>, b: seq<MutationRecord>)
    ensures BatchEffects(dom, a + b) == BatchEffects(dom, a) + BatchEffects(dom, b)
  {
    if b == [] {
      assert a + b == a;
    } else {
      var b' := b[..|b| - 1];
      assert (a + b)[..|a + b| - 1] == a + b';
      assert (a + b)[|a + b| - 1] == b[|b| - 1];
      BatchEffectsAppend(dom, a, b');
    }
  }

  /** Every record of a batch is handled exactly once, after all earlier
      records and before all later ones. */
  lemma EachRecordHandledOnce(dom: Dom, mutations: seq<MutationRecord>, k: nat)
    requires k < |mutations|
    ensures BatchEffects(dom, mutations)
      == BatchEffects(dom, mutations[..k]) + RecordEffects(dom, mutations[k]) + BatchEffects(dom, mutations[k + 1..])
  {
    assert mutations == mutations[..k] + [mutations[k]] + mutations[k + 1..];
    BatchEffectsAppend(dom, mutations[..k] + [mutations[k]], mutations[k + 1..]);
    BatchEffectsAppend(dom, mutations[..k], [mutations[k]]);
    assert [mutations[k]][..0] == [];
  }

  // ---------------------------------------------------------------------------
  // The handler
  // ---------------------------------------------------------------------------

  // Steps of the handler's loop invariants.

  lemma AppendAssociative<T>(a: seq<T>, b: seq<T>, c: seq<T>)
    ensures a + b + c == a + (b + c)
  {
  }

  lemma InitEffectsSnoc(addedNodes: seq<Node>, i: nat)
    requires i < |addedNodes|
    ensures InitEffects(addedNodes[..i + 1]) == InitEffects(addedNodes[..i]) + [Init(addedNodes[i], false)]
  {
    assert addedNodes[..i + 1][..i] == addedNodes[..i];
  }

  lemma RemovedEffectsSnoc(dom: Dom, removedNodes: seq<Node>, j: nat)
    requires j < |removedNodes|
    ensures RemovedEffects(dom, removedNodes[..j + 1])
      == RemovedEffects(dom, removedNodes[..j]) + DetachedEffects(dom, dom.walkTree(removedNodes[j]))
  {
    assert removedNodes[..j + 1][..j] == removedNodes[..j];
  }

  lemma BatchEffectsSnoc(dom: Dom, mutations: seq<MutationRecord>, a: nat)
    requires a < |mutations|
    ensures BatchEffects(dom, mutations[..a + 1]) == BatchEffects(dom, mutations[..a]) + RecordEffects(dom, mutations[a])
  {
    assert mutations[..a + 1][..a] == mutations[..a];
  }

  /** removeNode: walk the removed subtree and call `detached` on every node
      whose component declares it. Returns the calls made, in order. */
  method RemoveNode(dom: Dom, node: Node) returns (fired: seq<Effect>)
    ensures fired == DetachedEffects(dom, dom.walkTree(node))
  {
    var walked := dom.walkTree(node);
    fired := [];
    var i := 0;
    while i < |walked|
      invariant 0 <= i <= |walked|
      invariant fired == DetachedEffects(dom, walked[..i])
    {
      var component := dom.findElementInRegistry(walked[i]);
      if component.Some? && component.value.hasDetachedCallback {
        fired := fired + [Detached(walked[i])];
      }
      assert walked[..i + 1][..i] == walked[..i];
      i := i + 1;
    }
    assert walked[..i] == walked;
  }

  /** documentObserverHandler: handle one delivered batch of mutation records.
      In `documentObserverHandler` the inner `let a` counters shadow the outer
      one; here they are separate variables. Returns the work fired, in order. */
  method DocumentObserverHandler(dom: Dom, mutations: seq<MutationRecord>) returns (fired: seq<Effect>)
    ensures fired == BatchEffects(dom, mutations)
  {
    fired := [];
    var a := 0;
    while a < |mutations|
      invariant 0 <= a <= |mutations|
      invariant fired == BatchEffects(dom, mutations[..a])
    {
      var addedNodes := mutations[a].addedNodes;
      var removedNodes := mutations[a].removedNodes;
      ghost var before := fired;

      // Siblings arrive together, so only the first node's parent is checked.
      if |addedNodes| > 0 && dom.closestIgnoredElement(dom.parentNode(addedNodes[0])).None? {
        var i := 0;
        while i < |addedNodes|
          invariant 0 <= i <= |addedNodes|
          invariant fired == before + InitEffects(addedNodes[..i])
        {
          fired := fired + [Init(addedNodes[i], false)];
          InitEffectsSnoc(addedNodes, i);
          AppendAssociative(before, InitEffects(addedNodes[..i]), [Init(addedNodes[i], false)]);
          i := i + 1;
        }
        assert addedNodes[..i] == addedNodes;
      }
      ghost var afterAdded := fired;
      ghost var inits := if InitsAdded(dom, addedNodes) then InitEffects(addedNodes) else [];
      assert afterAdded == before + inits;

      // Removed nodes have no parent any more, so each subtree is walked.
      if |removedNodes| > 0 {
        var j := 0;
        while j < |removedNodes|
          invariant 0 <= j <= |removedNodes|
          invariant fired == afterAdded + RemovedEffects(dom, removedNodes[..j])
        {
          var detached := RemoveNode(dom, removedNodes[j]);
          fired := fired + detached;
          RemovedEffectsSnoc(dom, removedNodes, j);
          AppendAssociative(afterAdded, RemovedEffects(dom, removedNodes[..j]), detached);
          j := j + 1;
        }
        assert removedNodes[..j] == removedNodes;
      }
      AppendAssociative(before, inits, RemovedEffects(dom, removedNodes));
      BatchEffectsSnoc(dom, mutations, a);
      a := a + 1;
    }
    assert mutations[..a] == mutations;
  }

  // ---------------------------------------------------------------------------
  // The observer and the process-wide singleton
  // ---------------------------------------------------------------------------

  /** The message of the error thrown when the host has no MutationObserver. */
  const MutationObserverUnsupported: string :=
    "Mutation Observers are not supported by this browser. Skate requires them in order to polyfill the behaviour of Custom Elements. If you want to support this browser you should include a Mutation Observer polyfill before Skate."

  /** An error thrown to the caller. */
  datatype Error = Error(message: string)

  /** A host mutation observer whose callback is DocumentObserverHandler. */
  class MutationObserver {
    /** Between observe(document, { childList: true, subtree: true }) and disconnect(). */
    var observing: bool

    constructor ()
      ensures !observing
    {
      observing := false;
    }

    method ObserveDocument()
      modifies this
      ensures observing
    {
      observing := true;
    }

    method Disconnect()
      modifies this
      ensures !observing
    {
      observing := false;
    }
  }

  /** createMutationObserver: a new observer, or the error thrown when the
      host provides no MutationObserver. */
  method CreateMutationObserver(hostHasMutationObserver: bool) returns (r: Result<MutationObserver, Error>)
    ensures r.Failure? <==> !hostHasMutationObserver
    ensures r.Failure? ==> r.error == Error(MutationObserverUnsupported)
    ensures r.Success? ==> fresh(r.value) && !r.value.observing
  {
    if !hostHasMutationObserver {
      return Failure(Error(MutationObserverUnsupported));
    }
    var observer := new MutationObserver();
    return Success(observer);
  }

  /** createDocumentObserver: a new observer already watching the document,
      or the error of createMutationObserver. */
  method CreateDocumentObserver(hostHasMutationObserver: bool) returns (r: Result<MutationObserver, Error>)
    ensures r.Failure? <==> !hostHasMutationObserver
    ensures r.Failure? ==> r.error == Error(MutationObserverUnsupported)
    ensures r.Success? ==> fresh(r.value) && r.value.observing
  {
    r := CreateMutationObserver(hostHasMutationObserver);
    if r.Success? {
      r.value.ObserveDocument();
    }
  }

  /** The exported singleton: at most one observer, created on register and
      disconnected on unregister. */
  class DocumentObserver {
    var observer: Option<MutationObserver>
    /** Whether the host provides `window.MutationObserver`. */
    const hostHasMutationObserver: bool

    /** The objects the singleton's methods may change. */
    ghost function Repr(): set<object>
      reads this
    {
      if observer.Some? then {observer.value} else {}
    }

    /** A present observer is watching the document. */
    ghost predicate Valid()
      reads this, Repr()
    {
      observer.Some? ==> observer.value.observing
    }

    constructor (hostHasMutationObserver: bool)
      ensures Valid() && observer.None?
      ensures this.hostHasMutationObserver == hostHasMutationObserver
    {
      this.hostHasMutationObserver := hostHasMutationObserver;
      observer := None;
    }

    /** register: create the observer if there is none; return the singleton,
        or the error thrown when the host has no MutationObserver. */
    method Register() returns (r: Result<DocumentObserver, Error>)
      requires Valid()
      modifies this
      ensures Valid()
      ensures old(observer).Some? ==> r == Success(this) && observer == old(observer)
      ensures old(observer).None? && hostHasMutationObserver ==>
        r == Success(this) && observer.Some? && fresh(observer.value)
      ensures old(observer).None? && !hostHasMutationObserver ==>
        r == Failure(Error(MutationObserverUnsupported)) && observer.None?
    {
      if observer.None? {
        var created := CreateDocumentObserver(hostHasMutationObserver);
        if created.Failure? {
          return Failure(created.error);
        }
        observer := Some(created.value);
      }
      return Success(this);
    }

    /** unregister: disconnect and drop the observer if there is one; return the singleton. */
    method Unregister() returns (r: DocumentObserver)
      requires Valid()
      modifies this, Repr()
      ensures Valid() && observer.None? && r == this
      ensures old(observer).Some? ==> !old(observer).value.observing
      ensures old(observer).None? ==> unchanged(this)
    {
      if observer.Some? {
        observer.value.Disconnect();
        observer := None;
      }
      return this;
    }
  }

  // ---------------------------------------------------------------------------
  // What callers of the singleton can rely on
  // ---------------------------------------------------------------------------

  /** A second register keeps the observer the first one created. */
  method RegisterTwice(d: DocumentObserver) returns (first: Option<MutationObserver>, second: Option<MutationObserver>)
    requires d.Valid() && d.observer.None? && d.hostHasMutationObserver
    modifies d
    ensures first.Some? && fresh(first.value) && second == first == d.observer
  {
    var r1 := d.Register();
    first := d.observer;
    var r2 := d.Register();
    second := d.observer;
  }

  /** A second unregister finds nothing to disconnect and returns the singleton again. */
  method UnregisterTwice(d: DocumentObserver) returns (first: DocumentObserver, second: DocumentObserver)
    requires d.Valid()
    modifies d, d.Repr()
    ensures first == second == d && d.observer.None?
  {
    first := d.Unregister();
    second := d.Unregister();
  }

  /** Register after unregister creates a new observer. */
  method RegisterAfterUnregister(d: DocumentObserver) returns (dropped: Option<MutationObserver>)
    requires d.Valid() && d.observer.Some? && d.hostHasMutationObserver
    modifies d, d.Repr()
    ensures dropped == old(d.observer) && !dropped.value.observing
    ensures d.observer.Some? && fresh(d.observer.value) && d.observer != dropped
  {
    dropped := d.observer;
    var r1 := d.Unregister();
    var r2 := d.Register();
  }

  /** Without host support, register fails and no observer is kept. */
  method RegisterWithoutHostSupport(d: DocumentObserver) returns (r: Result<DocumentObserver, Error>)
    requires d.Valid() && d.observer.None? && !d.hostHasMutationObserver
    modifies d
    ensures r.Failure? && r.error.message == MutationObserverUnsupported
    ensures d.observer.None?
  {
    r := d.Register();
  }
}
