# Document observer of the custom-element polyfill, in Dafny

This project models `src/native/document-observer.js`, the part of the
custom-element polyfill that watches the whole document for structural
changes and turns each delivered batch of mutation records into lifecycle
work.

- **Batch handling** (`documentObserverHandler`, `removeNode`). For each
  record, in delivery order:
  - the added nodes are passed to `init(node, { checkIfIsInDom: false })` in
    list order. This happens only when the list is non-empty and the parent
    of its first node is not inside an ignored subtree.
  - then every removed node's subtree is walked, and `detachedCallback` is
    called on each visited node whose registered component declares one.

  The collaborators (`parentNode`, `getClosestIgnoredElement`, `walkTree`,
  `findElementInRegistry`) are fields of a `Dom` value of total functions.
  The work fired is a trace of `Effect`s (`Init`, `Detached`).
  `DocumentObserverHandler` keeps the source's nested index loops.
  `removeNode` has no index loop: it passes a callback to `walkTree`.
  `RemoveNode` loops over `walkTree(node)` as a sequence, so its loop stands
  for the walk's own traversal. The two methods are proved equal to the recursive specifications `BatchEffects` and
  `DetachedEffects`. Lemmas about those specifications state:
  - the filtering rules;
  - the ordering rules (records in order, each record's inits before its
    detached calls, walks in walk order);
  - that only the first added node's parent is consulted.
- **The singleton** (`register`, `unregister`, `createMutationObserver`,
  `createDocumentObserver`). `DocumentObserver` is a class with an
  `Option`-typed `observer` field. `MutationObserver` is a class whose
  `observing` flag stands for `observe(document, …)` and `disconnect()`.
  `register` creates and starts an observer only when none is present.
  When the host has no `MutationObserver`, it returns the error the source
  throws, with the same message, and the state is left unchanged.
  `unregister` disconnects and drops a present observer. Both return the
  singleton.

Files: `wrappers.dfy` (Option and Result) and `document_observer.dfy` (module
`Native`).

`removeNode` calls `detachedCallback` on every node of the removed subtree
whose component declares one, without looking at any attached state; the
model does the same.

## Model

| member | source | states |
|---|---|---|
| Native.InitEffectsAt | src/native/document-observer.js:27-30 | the init trace has one entry per added node, and entry i is `init(addedNodes[i], { checkIfIsInDom: false })` |
| Native.DetachedEffectsSound | src/native/document-observer.js:7-15 | a walk fires only `detached` calls, no more calls than visited nodes, each on a visited node whose component declares `detachedCallback` |
| Native.DetachedEffectsCount | src/native/document-observer.js:8-13 | a node whose component declares `detachedCallback` is detached exactly as many times as the walk visits it (once for a node visited once); any other node is never detached |
| Native.RemovedEffectsSound | src/native/document-observer.js:34-39 | removing nodes fires only `detached` calls, each on a node whose component declares the callback |
| Native.DetachedEffectsAppend | src/native/document-observer.js:8-14 | the walk fires callbacks in visiting order: the calls for `a + b` are those for `a` followed by those for `b` |
| Native.DetachedEffectsMember | src/native/document-observer.js:9-13 | `detached` is called on `m` exactly when `m` is visited and its component declares `detachedCallback`; nodes without one produce nothing |
| Native.RemovedEffectsAppend | src/native/document-observer.js:35-38 | removed nodes are processed in list order: the effects for `a + b` are those for `a` followed by those for `b` |
| Native.RemovedEffectsMember | src/native/document-observer.js:33-39 | `detached` is called on `m` exactly when `m` is in the walk of some removed node and declares the callback; each removed subtree is walked on its own |
| Native.AddedNodesInitialised | src/native/document-observer.js:26-31 | for a non-empty added list whose first node's parent is not ignored, the record's trace starts with exactly one `init(n, false)` per added node, in list order, and everything after is exactly the effects of the record's removed nodes |
| Native.IgnoredRecordSkipsInit | src/native/document-observer.js:23-39 | when the added list is empty or its first node's parent is ignored, no `init` is fired and the removed nodes are still processed |
| Native.InitsPrecedeDetached | src/native/document-observer.js:20-39 | within one record, no `detached` call comes before an `init` |
| Native.OnlyFirstParentConsulted | src/native/document-observer.js:23-26 | the record's trace depends on the parents of the added nodes only through whether the first one's parent is ignored |
| Native.RemovedEffectsAgree | src/native/document-observer.js:33-39 | removal effects depend only on the walks and the registry lookups |
| Native.DetachedEffectsAgree | src/native/document-observer.js:7-15 | the `detached` calls of a walk depend only on the registry lookups |
| Native.BatchEffectsAppend | src/native/document-observer.js:18-40 | records are handled in delivery order: the trace for `a + b` is the trace for `a` followed by the trace for `b` |
| Native.EachRecordHandledOnce | src/native/document-observer.js:18-21 | every record index is visited exactly once: the batch trace is the trace of the earlier records, then record k's trace, then the trace of the later records |
| Native.RemoveNode | src/native/document-observer.js:7-15 | the loop over the walk fires exactly `DetachedEffects` of the removed node's walk |
| Native.DocumentObserverHandler | src/native/document-observer.js:17-41 | the nested loops fire exactly `BatchEffects` of the batch |
| Native.MutationObserver.constructor | src/native/document-observer.js:48 | a new observer is not yet observing |
| Native.MutationObserver.ObserveDocument | src/native/document-observer.js:53-56 | after `observe(document, …)` the observer is observing |
| Native.MutationObserver.Disconnect | src/native/document-observer.js:70 | after `disconnect()` the observer is not observing |
| Native.CreateMutationObserver | src/native/document-observer.js:43-49 | fails, with the source's message, exactly when the host has no `MutationObserver`; otherwise returns a fresh observer not yet observing |
| Native.CreateDocumentObserver | src/native/document-observer.js:51-58 | same failure condition; on success a fresh observer that is observing the document |
| Native.DocumentObserver.constructor | src/native/document-observer.js:60-61 | the singleton starts without an observer |
| Native.DocumentObserver.Register | src/native/document-observer.js:62-67 | a present observer is kept and the singleton returned; an absent one is replaced by a fresh observing one, or, without host support, the error is returned and no observer is kept |
| Native.DocumentObserver.Unregister | src/native/document-observer.js:68-74 | afterwards no observer is present and the one that was present is disconnected; with none present nothing changes; returns the singleton |
| Native.RegisterTwice | src/native/document-observer.js:62-67 | a second `register` keeps the observer the first one created (idempotence) |
| Native.UnregisterTwice | src/native/document-observer.js:68-74 | two `unregister` calls both return the singleton and leave no observer |
| Native.RegisterAfterUnregister | src/native/document-observer.js:62-74 | `register` after `unregister` creates a fresh observer, different from the disconnected one |
| Native.RegisterWithoutHostSupport | src/native/document-observer.js:44-47 | without host support, `register` on an empty singleton fails with the source's message and no observer is kept |

## Left out

- The host `MutationObserver` itself. The options `{ childList: true, subtree: true }` and asynchronous batch delivery are not modelled. An observer is a token with an `observing` flag. The handler is a method that callers apply to a batch.
- `init`, `walkTree`, `findElementInRegistry` and `getClosestIgnoredElement` are parameters (fields of `Dom`). Their own behaviour is not part of this model. `init` is recorded as an `Init` effect, not performed.
- Lifecycle callbacks are user code, and so are the exceptions they raise. The model records a `Detached` effect and does not run the callback. The `Dom` functions are fixed for a whole batch, so a callback that changes the DOM or the registry while a batch is handled is not captured.
- The side-effect import of the IE `innerHTML` fix (line 1) is a browser workaround. Its source is not part of this model.
- A record whose `addedNodes` or `removedNodes` is missing takes the same branch as an empty list. The lists are modelled as sequences, so empty stands for both.
- `hostHasMutationObserver` is fixed when the singleton is built. The source reads `window.MutationObserver` on each creation, so a host that gains or loses it later is not captured.
- The component is reduced to whether its prototype declares `detachedCallback`. Any truthy value counts as declared.
