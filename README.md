# api-tools: simulated API nodes and their network, in Dafny

This project models the core of api-tools, a small Python toolkit that
simulates a network of HTTP endpoints. Each endpoint is a **node**: a
FastAPI application served by uvicorn on a background thread. A node
reports through a callback each time a request makes it busy or idle. A
**network** keeps the nodes in a registry keyed by name and keeps a graph
and a layout in step with that registry. It starts and stops all of its
nodes together. A plot queue, drained by a worker thread, tells a
visualiser that something changed.

There are two network variants in the repository. `network.py` hands
every queued token to the plot callback in order. `network2.py` only
takes the tokens off the queue and raises a `pending_update` flag. The
GUI polls that flag.

Modules:

- `Wrappers` (`wrappers.dfy`) holds `Option`, the `Error` raised by the core and the `Outcome` of an operation that may raise.
- `Handles` (`handles.dfy`) holds opaque stand-ins for the application, the server, the serving thread, client callables and a thread's life cycle.
- `NodeLifecycle` (`node.dfy`) models `Node` and `GenericNode` as one class, `GenericNode`, with the invariant that the handles exist exactly while the node is online.
- `NodeRegistry` (`registry.dfy`) holds what the two networks share: the invariant tying graph, layout and registry together, and iteration over the registered names.
- `PlotNetwork` (`network.py`) is modelled in `network.dfy`. The worker is a pure step function, `WorkerStep`, on a `WorkerState` value. The `Network` class holds the same fields as the source plus a ghost log of callback deliveries.
- `CoalescedNetwork` (`network2.py`) is modelled in `network2.dfy`, in the same shape, with `pendingUpdate` in place of the delivery log.

Each imperative worker method, `ManagePlotQueueStep`, is proved to do one
`WorkerStep` on the network's `State()`. Each queue operation is proved to
be the matching `Apply` event. The lemmas about `Run` and `Iterations`
therefore describe what the threads do to a network over any
interleaving of enqueues and worker passes.

Three behaviours of the source are easy to miss:

- **Start checks nothing.** `start` launches the serving thread and sets `is_online` without checking that the server binds (node.py:73-81). `GenericNode.Start` therefore always ends online.
- **A missing plot callback kills the worker.** In `network.py`, a token taken while no plot callback is set is passed to `None`. The resulting `TypeError` ends the worker thread and loses the token (network.py:66-68). No later token is delivered, even after a callback is set. `WorkerStep` ends the worker, and `UnsetCallbackEndsWorker` states both.
- **A failing handler leaves the node active.** The middleware has no `finally` (node.py:127-137). A handler that raises leaves `is_active` set, and the callback has been told only that the node became active. `GenericNode.ServeRequest` states both outcomes.

## Model

| member | source | states |
|---|---|---|
| NodeLifecycle.GenericNode.constructor | node.py:20-34 | a new node is offline and inactive, holds no app, server or thread, keeps the given name, address (default 127.0.0.1), port (default 8000) and activity callback, and has latency 0 as its only communication setting |
| NodeLifecycle.GenericNode.SetHost | node.py:43-50 | while online it raises the host-locked error and changes nothing; while offline it sets address and port and nothing else; the invariant is kept |
| NodeLifecycle.GenericNode.SetCommSettings | node.py:53-57 | in any state, only the latency entry becomes the given value (default 0); every other field and entry stays as it was |
| NodeLifecycle.GenericNode.Start | node.py:60-83 | on an online node it keeps the handles; otherwise it creates a fresh app, server and thread; the node ends online with its invariant, bind target, activity and settings unchanged |
| NodeLifecycle.GenericNode.Stop | node.py:86-96 | it always ends offline with all three handles released; the serving thread is recorded as joined exactly when the node was online; every other field is unchanged |
| NodeLifecycle.GenericNode.ServeRequest | node.py:124-137 | the handler's result is passed through; with a callback set, a request that completes reports active and then inactive and leaves the node inactive, while a handler that raises reports active only and leaves the node active; with no callback, neither the activity flag nor the notices change |
| NodeRegistry.Names | network.py:36-37 | the names the loop visits are exactly the registered names, each once |
| NodeRegistry.NoNamesNoNodes | network.py:47-51 | the loop over the names runs zero times exactly when no node is registered |
| NodeRegistry.StartOne | network.py:36-37 | one pass of the start loop: the chosen node ends online; every node keeps its name, invariant, configuration and joined-thread log; a node already online keeps its app, server and thread; the other nodes stay online or offline as they were |
| NodeRegistry.StartAll | network.py:36-37 | every registered node ends online and keeps its invariant, its name, its configuration (address, port, settings, callback, activity, notices) and its joined-thread log; a node that was already online keeps its app, server and thread |
| NodeRegistry.StopOne | network2.py:44-45 | one pass of a stop loop: the chosen node ends stopped; every node keeps its name, invariant and configuration, and its joined-thread log as it stands once stopped; the other nodes stay stopped or not as they were |
| NodeRegistry.StopAll | network2.py:44-45 | every registered node ends stopped and keeps its invariant, its name and its configuration (address, port, settings, callback, activity, notices); its joined-thread log gains its serving thread exactly when it was online |
| PlotNetwork.Network.constructor | network.py:13-22 | a new network has an empty graph and registry, no layout, no plot callback, a lowered flag, an empty queue and a worker thread that has not started |
| PlotNetwork.Network.AddNode | network.py:25-31 | an unnamed node raises and changes nothing; otherwise the node is filed under its name, replacing any node of that name; the graph gains exactly that name (unchanged on a replacement); the layout is recomputed over the whole graph; the registry invariant is kept |
| PlotNetwork.Network.Start | network.py:34-42 | every registered node ends online with its configuration (address, port, settings, callback, activity, notices) and joined-thread log unchanged, and a node already online keeps its app, server and thread; the flag is raised, the worker runs and the registry invariant is kept |
| PlotNetwork.Network.ShutDownWorker | network.py:50-51 | clearing the flag and joining the worker leaves the flag down and the worker finished |
| PlotNetwork.StopEachThenWorker | network.py:47-51 | the loop stops every node, keeping each node's configuration and adding its serving thread to its joined-thread log exactly when it was online; after at least one node the flag is down and the worker finished; over no nodes the flag and the worker are left as they were |
| PlotNetwork.Network.Stop | network.py:45-53 | every node ends stopped with its configuration (address, port, settings, callback, activity, notices) unchanged and its serving thread joined exactly when it was online; with at least one node the flag ends down and the worker finished; with no nodes the flag and the worker are left as they were |
| PlotNetwork.Network.StopOnce | network.py:45-53 | the corrected stop: every node ends stopped with its configuration unchanged and its serving thread joined exactly when it was online, and the flag ends down and the worker finished whatever the number of nodes |
| PlotNetwork.Network.SetCallbackPlotNetwork | network.py:56-60 | the callback becomes the given one, last write wins, and nothing else the worker sees changes |
| PlotNetwork.Network.AddPlotToQueue | network.py:73-77 | the network itself is appended at the back of the queue and nothing else changes |
| PlotNetwork.Network.ManagePlotQueueStep | network.py:63-70 | one pass of the worker loop changes the network exactly as `WorkerStep` does |
| PlotNetwork.StepDeliversAtMostOnce | network.py:65-68 | a pass invokes the callback at most once, and it does so exactly when the worker runs, the flag is up, a token is queued and a callback is set; the token handed over is the head of the queue |
| PlotNetwork.FinishedDeliversNothing | network.py:63-70 | once the worker has finished, no sequence of enqueues, passes or callback registrations restarts it or adds a delivery |
| PlotNetwork.UnsetCallbackEndsWorker | network.py:66-68 | with no callback, the first token taken ends the worker without any delivery and is lost, and no sequence of later events delivers anything |
| PlotNetwork.DrainDeliversInOrder | network.py:63-70 | n passes over a queue of at least n tokens deliver its first n tokens, in order, to the current callback, leaving the rest queued and the worker running |
| PlotNetwork.RunExtendsDeliveries | network.py:63-77 | over any sequence of events, earlier deliveries are never retracted or changed |
| PlotNetwork.ApplyPreservesTokenOrder | network.py:63-77 | while a callback is set, one event keeps "tokens delivered, then tokens queued" unchanged, apart from appending the token it enqueues |
| PlotNetwork.RunPreservesTokenOrder | network.py:63-77 | while a callback stays set, no token is lost, duplicated or reordered: tokens delivered followed by tokens queued equal the earlier ones followed by everything enqueued since (FIFO) |
| PlotNetwork.StopWithoutNodesKeepsWorker | network.py:45-53 | a network with no nodes, started and stopped, still has its flag up and its worker running |
| PlotNetwork.StopOnceWithoutNodesEndsWorker | network.py:45-53 | with the corrected stop, the same sequence ends the worker |
| CoalescedNetwork.Network.constructor | network2.py:12-23 | a new network has an empty graph and registry, no layout, no callback, an empty queue, `pending_update` false, a lowered flag and a worker that has not started |
| CoalescedNetwork.Network.AddNode | network2.py:26-31 | as in network.py: unnamed nodes raise and change nothing; otherwise the node is filed or replaced, the graph gains exactly its name and the layout is recomputed over the graph |
| CoalescedNetwork.Network.Start | network2.py:34-40 | every registered node ends online with its configuration (address, port, settings, callback, activity, notices) and joined-thread log unchanged, and a node already online keeps its app, server and thread; the flag is raised and the worker runs |
| CoalescedNetwork.Network.ShutDownWorker | network2.py:46-47 | clearing the flag and joining leaves the flag down and the worker finished |
| CoalescedNetwork.Network.Stop | network2.py:43-49 | every node ends stopped with its configuration (address, port, settings, callback, activity, notices) unchanged and its serving thread joined exactly when it was online, and the flag ends down and the worker finished, with or without nodes |
| CoalescedNetwork.Network.SetCallbackPlotNetwork | network2.py:52-55 | the callback becomes the given one, and nothing the worker reads changes, because the worker never reads it |
| CoalescedNetwork.Network.AddPlotToQueue | network2.py:69-72 | the network itself is appended at the back of the queue and nothing else changes |
| CoalescedNetwork.Network.ManagePlotQueueStep | network2.py:58-66 | one pass changes the network exactly as `WorkerStep` does; the callback lies outside its frame, so it is never invoked |
| CoalescedNetwork.ApplyCoalesces | network2.py:58-66 | one event takes at most the head of the queue, appends what it enqueues, and raises the update flag exactly when it takes a token |
| CoalescedNetwork.RunCoalesces | network2.py:58-72 | over any events, the tokens taken, in order, followed by those still queued equal the tokens that were queued followed by all enqueued since; `pending_update` holds exactly when it already held or some token was taken, so it is never lowered by the network |
| CoalescedNetwork.DrainRaisesPending | network2.py:58-66 | n passes over a queue of at least n tokens take its first n, and leave `pending_update` raised if n > 0 or if it was already raised; otherwise it is unchanged |
| CoalescedNetwork.StopWithoutNodesEndsWorker | network2.py:43-49 | a network with no nodes, started and stopped, ends its worker |

## Left out

- FastAPI, uvicorn and CORS are opaque handles. The model has no HTTP serving, no request routing and no CORS options. Passing `'https'` to `app.middleware` registers ordinary HTTP middleware in FastAPI; the model takes that as given.
- The `'/'` handler is left out: it sleeps `latency_s` seconds and returns a fixed text. Clocks and sleeps are outside the model. The handler appears only as the `Handled` value that `ServeRequest` receives.
- `server.should_exit` and `thread.join()` are not modelled as state. `GenericNode.Stop` records the joined thread in the ghost log `retired`, and assumes the join returns. A server that never exits is not modelled.
- Threads run one step at a time. The model has no real concurrency, no lock and no poll timeout (`get(timeout=0.1)`, `qsize()`). Interleavings are the event sequences of `Run`.
- The model does not cover the race between the worker raising `pending_update` and the GUI lowering it without a lock.
- Python's thread rules are preconditions: a thread can be started only once and joined only after it has started. A `RuntimeError` from breaking them is not modelled.
- `nx.spring_layout` is the `layout` parameter of `AddNode`. Its coordinates and randomness are not modelled; only that every graph node gets a position.
- `networkx` refusing `None` as a node is modelled as the `NoneIsNotANode` failure. Its other checks, for unhashable names, are not.
- Dict iteration order is some order of the registered names (`NodeRegistry.Names`). The model does not fix insertion order.
- The effects of callbacks on the program are not modelled. Callbacks are opaque identities, and their calls are recorded in ghost logs (`notices`, `deliveries`).
- A callback that raises inside the worker is not modelled beyond the `None` case.
- Floats are `real`: `latency_s`, and layout coordinates.
- The unused `node` parameter of `add_plot_to_queue` is dropped.
- `set_comm_settings` with keys other than `latency_s` cannot happen in the source. The model has only the `latency_s` key.
- `NodeRegistry.StartOne`, `NodeRegistry.StartAll`, `PlotNetwork.Network.Start` and `CoalescedNetwork.Network.Start` do not state that a node that was offline gets a freshly allocated app, server and thread. That holds per node (`GenericNode.Start`), but a `fresh` fact is not carried through the loop.
- Requests are served one at a time. `ServeRequest` is atomic, so two requests that overlap at `await call_next` (node.py:131) on uvicorn's event loop are not modelled. In the source the first to finish clears `is_active` while the other is still in flight.
- The visualisers (`NetworkVizualizer`, `NetworkVisualizer`) and `pyqt_app.py` are not part of this model, and neither are the `__main__` demo blocks. They are GUI and drawing code.

## Findings

| source | as written | input that shows it | evidently intended | confidence | as-written member | corrected member |
|---|---|---|---|---|---|---|
| network.py:45-53 | the flag is cleared and the worker joined inside the per-node loop, so they run once per node and never when there are no nodes | a network with no nodes, started and then stopped: the worker (a non-daemon thread) keeps running and keeps the process alive | clear the flag and join the worker once, after the loop, as network2.py:46-47 does | not executed | PlotNetwork.StopWithoutNodesKeepsWorker | PlotNetwork.Network.StopOnce |
