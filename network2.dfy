/**
 * The coalescing network of network2.py. The registry, the graph and the
 * layout are kept as in network.py; the worker no longer invokes the plot
 * callback but only takes tokens off the queue and raises `pendingUpdate`,
 * which the animation loop of the GUI consumes.
 */
module CoalescedNetwork {
  import opened Wrappers
  import opened Handles
  import opened NodeLifecycle
  import opened NodeRegistry

  /** The part of a network the worker reads and writes. */
  datatype WorkerState<T> = WorkerState(
    running: bool,          // flag_queue_status
    worker: ThreadStatus,   // thread_manage_plot_queue
    queue: seq<T>,          // queue_update_plot, head first
    pending: bool)          // pending_update

  /**
   * One pass of the `while` loop of `manage_plot_queue`: a cleared flag
   * ends the thread, an empty queue makes the pass idle, and otherwise
   * the head token is discarded and the update flag raised.
   */
  function WorkerStep<T>(s: WorkerState<T>): WorkerState<T>
  {
    if s.worker != Running then s
    else if !s.running then s.(worker := Finished)
    else if s.queue == [] then s
    else s.(queue := s.queue[1..], pending := true)
  }

  /** What can happen to the worker state between two observations. */
  datatype Event<T> = Enqueue(token: T) | Iterate

  function Apply<T>(s: WorkerState<T>, e: Event<T>): WorkerState<T>
  {
    match e
    case Enqueue(t) => s.(queue := s.queue + [t])
    case Iterate => WorkerStep(s)
  }

  function Run<T>(s: WorkerState<T>, evs: seq<Event<T>>): WorkerState<T>
    decreases |evs|
  {
    if evs == [] then s else Run(Apply(s, evs[0]), evs[1..])
  }

  /** The tokens put on the queue by a sequence of events, in order. */
  function Enqueued<T>(evs: seq<Event<T>>): seq<T>
  {
    if evs == [] then []
    else Arrival(evs[0]) + Enqueued(evs[1..])
  }

  /** The worker loop run for `n` passes with nothing else happening. */
  function Iterations<T>(s: WorkerState<T>, n: nat): WorkerState<T>
    decreases n
  {
    if n == 0 then s else Iterations(WorkerStep(s), n - 1)
  }

  /** The token an event puts on the queue, if any. */
  function Arrival<T>(e: Event<T>): seq<T>
  {
    if e.Enqueue? then [e.token] else []
  }

  /**
   * One event takes at most the head of the queue, appends what it
   * enqueues, and raises the flag exactly when it takes a token.
   */
  lemma ApplyCoalesces<T>(s: WorkerState<T>, e: Event<T>) returns (taken: seq<T>)
    ensures |taken| <= 1
    ensures taken + Apply(s, e).queue == s.queue + Arrival(e)
    ensures Apply(s, e).pending <==> s.pending || taken != []
  {
    if e.Iterate? && s.worker == Running && s.running && s.queue != [] {
      taken := [s.queue[0]];
      assert s.queue == taken + s.queue[1..];
    } else {
      taken := [];
    }
  }

  /**
   * Between two observations every token that was queued or arrived
   * since has either been taken by the worker, in order, or is still
   * queued behind those; and the update flag is raised exactly when it
   * was already raised or some token was taken. In particular the flag,
   * once raised, is never lowered here.
   */
  lemma {:induction false} RunCoalesces<T>(s: WorkerState<T>, evs: seq<Event<T>>) returns (taken: seq<T>)
    ensures taken + Run(s, evs).queue == s.queue + Enqueued(evs)
    ensures Run(s, evs).pending <==> s.pending || taken != []
    decreases |evs|
  {
    if evs == [] {
      taken := [];
      assert s.queue + Enqueued(evs) == s.queue;
    } else {
      var s' := Apply(s, evs[0]);
      var first := ApplyCoalesces(s, evs[0]);
      var later := RunCoalesces(s', evs[1..]);
      taken := first + later;
      assert Enqueued(evs) == Arrival(evs[0]) + Enqueued(evs[1..]);
      calc {
        taken + Run(s, evs).queue;
        first + (later + Run(s', evs[1..]).queue);
        first + (s'.queue + Enqueued(evs[1..]));
        (first + s'.queue) + Enqueued(evs[1..]);
        (s.queue + Arrival(evs[0])) + Enqueued(evs[1..]);
        s.queue + Enqueued(evs);
      }
    }
  }

  /** `n` passes over a queue holding at least `n` tokens take its first `n`; any one raises the flag. */
  lemma {:induction false} DrainRaisesPending<T>(s: WorkerState<T>, n: nat)
    requires s.running && s.worker == Running && n <= |s.queue|
    ensures Iterations(s, n).queue == s.queue[n..]
    ensures Iterations(s, n).pending <==> s.pending || n > 0
    ensures Iterations(s, n).running && Iterations(s, n).worker == Running
    decreases n
  {
    if n > 0 {
      DrainRaisesPending(WorkerStep(s), n - 1);
      assert WorkerStep(s).queue[n - 1..] == s.queue[n..];
    }
  }

  class Network {
    var graph: set<string>
    var nodes: map<string, GenericNode>
    var positions: Option<map<string, Position>>

    var callbackPlotNetwork: Option<Callback>
    var queue: seq<Network>
    var pendingUpdate: bool
    var running: bool
    var worker: ThreadStatus

    /** The worker's view of this network. */
    ghost function State(): WorkerState<Network>
      reads this
    {
      WorkerState(running, worker, queue, pendingUpdate)
    }

    /**
     * The registry invariant: every node is filed under its own name, the
     * graph's node set is the set of registered names, and a layout, once
     * computed, places exactly the graph's nodes.
     */
    ghost predicate Valid()
      reads this`graph, this`nodes, this`positions, nodes.Values
    {
      RegistryValid(graph, nodes, positions) && NodesValid(nodes)
    }

    constructor ()
      ensures Valid()
      ensures graph == {} && nodes == map[] && positions == None
      ensures callbackPlotNetwork == None && queue == [] && !pendingUpdate
      ensures !running && worker == NotStarted
    {
      graph := {};
      nodes := map[];
      positions := None;
      callbackPlotNetwork := None;
      queue := [];
      pendingUpdate := false;
      running := false;
      worker := NotStarted;
    }

    /**
     * `add_node`: files the node under its name, replacing any node of
     * that name, and recomputes the layout over the whole graph with
     * `layout` standing for the graph library's placement. A node without
     * a name is refused by the graph library before anything changes.
     */
    method AddNode(node: GenericNode, layout: string -> Position) returns (r: Outcome)
      requires Valid() && node.Valid()
      modifies this`graph, this`nodes, this`positions
      ensures Valid()
      ensures r == (if node.name.None? then Failure(NoneIsNotANode) else Success)
      ensures node.name.None? ==> graph == old(graph) && nodes == old(nodes) && positions == old(positions)
      ensures node.name.Some? ==>
        nodes == old(nodes)[node.name.value := node] &&
        graph == old(graph) + {node.name.value} &&
        positions == Some(map k | k in graph :: layout(k))
      ensures node.name.Some? && node.name.value in old(nodes) ==> graph == old(graph)
    {
      if node.name.None? {
        return Failure(NoneIsNotANode);
      }
      var name := node.name.value;
      graph := graph + {name};
      nodes := nodes[name := node];
      positions := Some(map k | k in graph :: layout(k));
      return Success;
    }

    /** `start`: starts every registered node, then raises the flag and starts the worker. */
    method Start()
      requires Valid() && worker == NotStarted
      modifies this`running, this`worker, nodes.Values
      ensures Valid()
      ensures forall k :: k in nodes ==> nodes[k].isOnline
      ensures forall k :: k in nodes ==> nodes[k].Config() == old(nodes[k].Config())
      ensures forall k :: k in nodes ==>
        nodes[k].retired == old(nodes[k].retired) &&
        (old(nodes[k].isOnline) ==> nodes[k].Handles() == old(nodes[k].Handles()))
      ensures running && worker == Running
    {
      StartAll(nodes);
      running := true;
      worker := Running;
    }

    /**
     * Clearing the flag and joining the worker: the worker sees the flag
     * down at the head of its loop and terminates, and the join returns.
     */
    method ShutDownWorker()
      requires worker != NotStarted
      modifies this`running, this`worker
      ensures !running && worker == Finished
    {
      running := false;
      worker := Finished;
    }

    /** `stop`: every node is stopped, then the flag is cleared and the worker joined once. */
    method Stop()
      requires Valid() && worker != NotStarted
      modifies this`running, this`worker, nodes.Values
      ensures Valid()
      ensures forall k :: k in nodes ==> nodes[k].Stopped()
      ensures forall k :: k in nodes ==> nodes[k].Config() == old(nodes[k].Config())
      ensures forall k :: k in nodes ==> nodes[k].retired == old(nodes[k].RetiredOnStop())
      ensures !running && worker == Finished
    {
      StopAll(nodes);
      ShutDownWorker();
    }

    /** `set_callback_plot_network`: the last callback set wins; the worker never reads it. */
    method SetCallbackPlotNetwork(callback: Option<Callback>)
      modifies this`callbackPlotNetwork
      ensures callbackPlotNetwork == callback
      ensures State() == old(State())
    {
      callbackPlotNetwork := callback;
    }

    /** `add_plot_to_queue`: puts this network at the back of the queue. */
    method AddPlotToQueue()
      modifies this`queue
      ensures queue == old(queue) + [this]
      ensures State() == Apply(old(State()), Enqueue(this))
    {
      queue := queue + [this];
    }

    /**
     * One pass of the worker loop of `manage_plot_queue`. The callback is
     * outside the frame: this variant never invokes it.
     */
    method ManagePlotQueueStep()
      requires worker == Running
      modifies this`queue, this`worker, this`pendingUpdate
      ensures State() == WorkerStep(old(State()))
    {
      if !running {
        worker := Finished;
        return;
      }
      if |queue| > 0 {
        queue := queue[1..];
        pendingUpdate := true;
      }
    }
  }

  /** A network without nodes, started and then stopped, ends its worker. */
  method StopWithoutNodesEndsWorker() returns (running: bool, worker: ThreadStatus)
    ensures !running && worker == Finished
  {
    var net := new Network();
    net.Start();
    net.Stop();
    running, worker := net.running, net.worker;
  }
}
