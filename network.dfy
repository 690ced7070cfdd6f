/**
 * The eager network of network.py: a registry of nodes keyed by name, a
 * graph whose node set mirrors the registry, a layout, and a plot queue
 * drained by a worker thread that hands every token to the plot callback.
 */
module PlotNetwork {
  import opened Wrappers
  import opened Handles
  import opened NodeLifecycle
  import opened NodeRegistry

  /** One invocation of the plot callback with the token it was handed. */
  datatype Delivery<T> = Delivery(callback: Callback, token: T)

  /** The part of a network the plot worker reads and writes. */
  datatype WorkerState<T> = WorkerState(
    running: bool,                 // flag_queue_status
    worker: ThreadStatus,          // thread_manage_plot_queue
    queue: seq<T>,                 // queue_update_plot, head first
    callback: Option<Callback>,    // callback_plot_network
    deliveries: seq<Delivery<T>>)  // the callback invocations so far

  /**
   * One pass of the `while` loop of `manage_plot_queue`. A cleared flag
   * ends the thread; an empty queue makes the pass idle; otherwise the
   * head token is taken and handed to the callback. Calling an unset
   * callback raises, which ends the thread with the token already taken.
   */
  function WorkerStep<T>(s: WorkerState<T>): WorkerState<T>
  {
    if s.worker != Running then s
    else if !s.running then s.(worker := Finished)
    else if s.queue == [] then s
    else match s.callback
      case Some(c) => s.(queue := s.queue[1..], deliveries := s.deliveries + [Delivery(c, s.queue[0])])
      case None => s.(queue := s.queue[1..], worker := Finished)
  }

  /** What can happen to the worker state between two observations. */
  datatype Event<T> = Enqueue(token: T) | Iterate | Register(newCallback: Option<Callback>)

  function Apply<T>(s: WorkerState<T>, e: Event<T>): WorkerState<T>
  {
    match e
    case Enqueue(t) => s.(queue := s.queue + [t])
    case Iterate => WorkerStep(s)
    case Register(c) => s.(callback := c)
  }

  function Run<T>(s: WorkerState<T>, evs: seq<Event<T>>): WorkerState<T>
    decreases |evs|
  {
    if evs == [] then s else Run(Apply(s, evs[0]), evs[1..])
  }

  /** The worker loop run for `n` passes with nothing else happening. */
  function Iterations<T>(s: WorkerState<T>, n: nat): WorkerState<T>
    decreases n
  {
    if n == 0 then s else Iterations(WorkerStep(s), n - 1)
  }

  /** The tokens handed over by a sequence of deliveries, in order. */
  function Tokens<T>(ds: seq<Delivery<T>>): seq<T>
  {
    if ds == [] then [] else [ds[0].token] + Tokens(ds[1..])
  }

  /** The tokens put on the queue by a sequence of events, in order. */
  function Enqueued<T>(evs: seq<Event<T>>): seq<T>
  {
    if evs == [] then []
    else (if evs[0].Enqueue? then [evs[0].token] else []) + Enqueued(evs[1..])
  }

  /** The deliveries of the tokens `ts`, in order, all to callback `c`. */
  function DeliveriesTo<T>(c: Callback, ts: seq<T>): seq<Delivery<T>>
  {
    if ts == [] then [] else [Delivery(c, ts[0])] + DeliveriesTo(c, ts[1..])
  }

  /** A pass invokes the callback at most once, and exactly when a token is there to take. */
  lemma StepDeliversAtMostOnce<T>(s: WorkerState<T>)
    ensures WorkerStep(s).deliveries == s.deliveries ||
            (s.worker == Running && s.running && s.queue != [] && s.callback.Some? &&
             WorkerStep(s).deliveries == s.deliveries + [Delivery(s.callback.value, s.queue[0])] &&
             WorkerStep(s).queue == s.queue[1..])
    ensures |WorkerStep(s).deliveries| == |s.deliveries| + 1 <==>
            s.worker == Running && s.running && s.queue != [] && s.callback.Some?
  {
  }

  /**
   * A finished worker stays finished and delivers nothing more, whatever
   * is enqueued or registered afterwards.
   */
  lemma {:induction false} FinishedDeliversNothing<T>(s: WorkerState<T>, evs: seq<Event<T>>)
    requires s.worker == Finished
    ensures Run(s, evs).worker == Finished && Run(s, evs).deliveries == s.deliveries
    decreases |evs|
  {
    if evs != [] {
      FinishedDeliversNothing(Apply(s, evs[0]), evs[1..]);
    }
  }

  /**
   * With no callback registered, the first token ends the worker and is
   * lost, and no later event brings a delivery.
   */
  lemma UnsetCallbackEndsWorker<T>(s: WorkerState<T>)
    requires s.worker == Running && s.running && s.queue != [] && s.callback.None?
    ensures WorkerStep(s).worker == Finished && WorkerStep(s).queue == s.queue[1..]
    ensures WorkerStep(s).deliveries == s.deliveries
    ensures forall evs: seq<Event<T>> :: Run(WorkerStep(s), evs).deliveries == s.deliveries
  {
    forall evs: seq<Event<T>> ensures Run(WorkerStep(s), evs).deliveries == s.deliveries {
      FinishedDeliversNothing(WorkerStep(s), evs);
    }
  }

  /** `n` passes over a queue holding at least `n` tokens deliver its first `n` tokens in order. */
  lemma {:induction false} DrainDeliversInOrder<T>(s: WorkerState<T>, n: nat)
    decreases n
    requires s.running && s.worker == Running && s.callback.Some? && n <= |s.queue|
    ensures Iterations(s, n).queue == s.queue[n..]
    ensures Iterations(s, n).deliveries == s.deliveries + DeliveriesTo(s.callback.value, s.queue[..n])
    ensures Iterations(s, n).running && Iterations(s, n).worker == Running
    ensures Iterations(s, n).callback == s.callback
  {
    if n > 0 {
      var s' := WorkerStep(s);
      DrainDeliversInOrder(s', n - 1);
      var c := s.callback.value;
      assert s'.queue[..n - 1] == s.queue[1..n];
      assert s'.queue[n - 1..] == s.queue[n..];
      assert [Delivery(c, s.queue[0])] + DeliveriesTo(c, s.queue[1..n]) == DeliveriesTo(c, s.queue[..n]);
    } else {
      assert s.queue[..0] == [];
    }
  }

  /** Earlier deliveries are never retracted. */
  lemma {:induction false} RunExtendsDeliveries<T>(s: WorkerState<T>, evs: seq<Event<T>>)
    ensures s.deliveries <= Run(s, evs).deliveries
    decreases |evs|
  {
    if evs != [] {
      RunExtendsDeliveries(Apply(s, evs[0]), evs[1..]);
    }
  }

  /** Taking the tokens of deliveries distributes over concatenation. */
  lemma {:induction false} TokensAppend<T>(ds: seq<Delivery<T>>, es: seq<Delivery<T>>)
    ensures Tokens(ds + es) == Tokens(ds) + Tokens(es)
    decreases |ds|
  {
    if ds != [] {
      assert (ds + es)[1..] == ds[1..] + es;
      TokensAppend(ds[1..], es);
    } else {
      assert ds + es == es;
    }
  }

  /** One event conserves the tokens, delivered then queued, up to the one it enqueues. */
  lemma ApplyPreservesTokenOrder<T>(s: WorkerState<T>, e: Event<T>)
    requires s.callback.Some?
    ensures Tokens(Apply(s, e).deliveries) + Apply(s, e).queue ==
            Tokens(s.deliveries) + s.queue + (if e.Enqueue? then [e.token] else [])
  {
    if e.Iterate? && s.worker == Running && s.running && s.queue != [] {
      var c := s.callback.value;
      TokensAppend(s.deliveries, [Delivery(c, s.queue[0])]);
      assert Tokens([Delivery(c, s.queue[0])]) == [s.queue[0]];
      assert s.queue == [s.queue[0]] + s.queue[1..];
    }
  }

  /** No event of `evs` unsets the callback. */
  ghost predicate KeepsCallback<T>(evs: seq<Event<T>>)
  {
    forall i :: 0 <= i < |evs| && evs[i].Register? ==> evs[i].newCallback.Some?
  }

  lemma KeepsCallbackTail<T>(evs: seq<Event<T>>)
    requires evs != [] && KeepsCallback(evs)
    ensures evs[0].Register? ==> evs[0].newCallback.Some?
    ensures KeepsCallback(evs[1..])
  {
    forall i | 0 <= i < |evs[1..]|
      ensures evs[1..][i] == evs[i + 1]
    {
    }
  }

  /**
   * While a callback stays registered, no token is lost, duplicated or
   * reordered: the tokens delivered followed by those still queued are
   * exactly those that were queued or delivered before, followed by
   * everything enqueued since.
   */
  lemma {:induction false} RunPreservesTokenOrder<T>(s: WorkerState<T>, evs: seq<Event<T>>)
    requires s.callback.Some? && KeepsCallback(evs)
    ensures Tokens(Run(s, evs).deliveries) + Run(s, evs).queue == Tokens(s.deliveries) + s.queue + Enqueued(evs)
    decreases |evs|
  {
    if evs == [] {
      assert Enqueued(evs) == [];
    } else {
      KeepsCallbackTail(evs);
      var s' := Apply(s, evs[0]);
      ApplyPreservesTokenOrder(s, evs[0]);
      RunPreservesTokenOrder(s', evs[1..]);
      var head := if evs[0].Enqueue? then [evs[0].token] else [];
      assert Enqueued(evs) == head + Enqueued(evs[1..]);
      assert Tokens(s.deliveries) + s.queue + Enqueued(evs) == (Tokens(s.deliveries) + s.queue + head) + Enqueued(evs[1..]);
    }
  }

  class Network {
    var graph: set<string>
    var nodes: map<string, GenericNode>
    var positions: Option<map<string, Position>>

    var callbackPlotNetwork: Option<Callback>
    var running: bool
    var queue: seq<Network>
    var worker: ThreadStatus
    ghost var deliveries: seq<Delivery<Network>>

    /** The worker's view of this network. */
    ghost function State(): WorkerState<Network>
      reads this
    {
      WorkerState(running, worker, queue, callbackPlotNetwork, deliveries)
    }

    /**
     * The registry invariant: every node is filed under its own name, the
     * graph's node set is the set of registered names, and a layout, once
     * computed, places exactly the graph's nodes.
     */
    ghost predicate Valid()
      reads this`graph, this`nodes, this`positions, nodes.Values
    {
      RegistryValid(graph, nodes, positions) && NodesValid(nodes)
    }

    constructor ()
      ensures Valid()
      ensures graph == {} && nodes == map[] && positions == None
      ensures callbackPlotNetwork == None && !running && queue == []
      ensures worker == NotStarted && deliveries == []
    {
      graph := {};
      nodes := map[];
      positions := None;
      callbackPlotNetwork := None;
      running := false;
      queue := [];
      worker := NotStarted;
      deliveries := [];
    }

    /**
     * `add_node`: files the node under its name, replacing any node of
     * that name, and recomputes the layout over the whole graph with
     * `layout` standing for the graph library's placement. A node without
     * a name is refused by the graph library before anything changes.
     */
    method AddNode(node: GenericNode, layout: string -> Position) returns (r: Outcome)
      requires Valid() && node.Valid()
      modifies this`graph, this`nodes, this`positions
      ensures Valid()
      ensures r == (if node.name.None? then Failure(NoneIsNotANode) else Success)
      ensures node.name.None? ==> graph == old(graph) && nodes == old(nodes) && positions == old(positions)
      ensures node.name.Some? ==>
        nodes == old(nodes)[node.name.value := node] &&
        graph == old(graph) + {node.name.value} &&
        positions == Some(map k | k in graph :: layout(k))
      ensures node.name.Some? && node.name.value in old(nodes) ==> graph == old(graph)
    {
      if node.name.None? {
        return Failure(NoneIsNotANode);
      }
      var name := node.name.value;
      graph := graph + {name};
      nodes := nodes[name := node];
      positions := Some(map k | k in graph :: layout(k));
      return Success;
    }

    /** `start`: starts every registered node, then raises the flag and starts the worker. */
    method Start()
      requires Valid() && worker == NotStarted
      modifies this`running, this`worker, nodes.Values
      ensures Valid()
      ensures forall k :: k in nodes ==> nodes[k].isOnline
      ensures forall k :: k in nodes ==> nodes[k].Config() == old(nodes[k].Config())
      ensures forall k :: k in nodes ==>
        nodes[k].retired == old(nodes[k].retired) &&
        (old(nodes[k].isOnline) ==> nodes[k].Handles() == old(nodes[k].Handles()))
      ensures running && worker == Running
    {
      StartAll(nodes);
      running := true;
      worker := Running;
    }

    /**
     * Clearing the flag and joining the worker: the worker sees the flag
     * down at the head of its loop and terminates, and the join returns.
     */
    method ShutDownWorker()
      requires worker != NotStarted
      modifies this`running, this`worker
      ensures !running && worker == Finished
    {
      running := false;
      worker := Finished;
    }

    /**
     * `stop` as written: every node is stopped, and the flag is cleared
     * and the worker joined inside the loop, once per node. With no
     * nodes the flag stays up and the worker keeps running.
     */
    method Stop()
      requires Valid()
      requires nodes != map[] ==> worker != NotStarted
      modifies this`running, this`worker, nodes.Values
      ensures Valid()
      ensures forall k :: k in nodes ==> nodes[k].Stopped()
      ensures forall k :: k in nodes ==> nodes[k].Config() == old(nodes[k].Config())
      ensures forall k :: k in nodes ==> nodes[k].retired == old(nodes[k].RetiredOnStop())
      ensures nodes == map[] ==> running == old(running) && worker == old(worker)
      ensures nodes != map[] ==> !running && worker == Finished
    {
      StopEachThenWorker(this, nodes);
    }

    /**
     * `stop` with the flag cleared and the worker joined once, after the
     * loop, as the coalescing variant does: the worker ends whatever the
     * number of nodes.
     */
    method StopOnce()
      requires Valid() && worker != NotStarted
      modifies this`running, this`worker, nodes.Values
      ensures Valid()
      ensures forall k :: k in nodes ==> nodes[k].Stopped()
      ensures forall k :: k in nodes ==> nodes[k].Config() == old(nodes[k].Config())
      ensures forall k :: k in nodes ==> nodes[k].retired == old(nodes[k].RetiredOnStop())
      ensures !running && worker == Finished
    {
      StopAll(nodes);
      ShutDownWorker();
    }

    /** `set_callback_plot_network`: the last callback set wins. */
    method SetCallbackPlotNetwork(callback: Option<Callback>)
      modifies this`callbackPlotNetwork
      ensures callbackPlotNetwork == callback
      ensures State() == old(State()).(callback := callback)
    {
      callbackPlotNetwork := callback;
    }

    /** `add_plot_to_queue`: puts this network at the back of the queue. */
    method AddPlotToQueue()
      modifies this`queue
      ensures queue == old(queue) + [this]
      ensures State() == Apply(old(State()), Enqueue(this))
    {
      queue := queue + [this];
    }

    /** One pass of the worker loop of `manage_plot_queue`. */
    method ManagePlotQueueStep()
      requires worker == Running
      modifies this`queue, this`worker, this`deliveries
      ensures State() == WorkerStep(old(State()))
    {
      if !running {
        worker := Finished;
        return;
      }
      if |queue| > 0 {
        var network := queue[0];
        queue := queue[1..];
        if callbackPlotNetwork.None? {
          // calling None raises a TypeError, which ends the thread
          worker := Finished;
          return;
        }
        deliveries := deliveries + [Delivery(callbackPlotNetwork.value, network)];
      }
    }
  }

  /**
   * The `for` loop of `stop` in network.py: each registered node is
   * stopped, and after each one the flag is cleared and the worker joined.
   */
  method StopEachThenWorker(net: Network, nodes: map<string, GenericNode>)
    requires NodesValid(nodes)
    requires nodes != map[] ==> net.worker != NotStarted
    modifies net`running, net`worker, nodes.Values
    ensures NodesValid(nodes)
    ensures forall k :: k in nodes ==>
      nodes[k].Stopped() && nodes[k].Config() == old(nodes[k].Config()) && nodes[k].retired == old(nodes[k].RetiredOnStop())
    ensures nodes == map[] ==> net.running == old(net.running) && net.worker == old(net.worker)
    ensures nodes != map[] ==> !net.running && net.worker == Finished
  {
    var names := Names(nodes);
    NoNamesNoNodes(names, nodes);
    for i := 0 to |names|
      invariant nodes != map[] ==> net.worker != NotStarted
      invariant forall k :: k in nodes ==>
        nodes[k].name == Some(k) && nodes[k].Valid() && nodes[k].KeptByStop() == old(nodes[k].KeptByStop()) &&
        (k in names[..i] ==> nodes[k].Stopped())
      invariant i == 0 ==> net.running == old(net.running) && net.worker == old(net.worker)
      invariant i > 0 ==> !net.running && net.worker == Finished
    {
      StopOne(nodes, names[i]);
      net.ShutDownWorker();
    }
  }

  /** A network without nodes, started and then stopped, keeps its worker running. */
  method StopWithoutNodesKeepsWorker() returns (running: bool, worker: ThreadStatus)
    ensures running && worker == Running
  {
    var net := new Network();
    net.Start();
    net.Stop();
    running, worker := net.running, net.worker;
  }

  /** With the flag cleared after the loop, the same sequence ends the worker. */
  method StopOnceWithoutNodesEndsWorker() returns (running: bool, worker: ThreadStatus)
    ensures !running && worker == Finished
  {
    var net := new Network();
    net.Start();
    net.StopOnce();
    running, worker := net.running, net.worker;
  }
}
