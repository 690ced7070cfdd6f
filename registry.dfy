/**
 * What both network variants keep about their nodes: a registry keyed by
 * node name, a graph whose node set mirrors it, and a layout placing the
 * graph's nodes.
 */
module NodeRegistry {
  import opened Wrappers
  import opened NodeLifecycle

  /** A layout coordinate produced by the graph library. */
  datatype Position = Position(x: real, y: real)

  /**
   * The graph's node set is the set of registered names, and a layout,
   * once computed, places exactly the graph's nodes; before the first
   * node there is no layout.
   */
  ghost predicate RegistryValid(graph: set<string>, nodes: map<string, GenericNode>,
                                positions: Option<map<string, Position>>)
  {
    graph == nodes.Keys &&
    (positions.Some? ==> positions.value.Keys == graph) &&
    (positions.None? ==> graph == {})
  }

  /** Every registered node is filed under its own name and keeps its own invariant. */
  ghost predicate NodesValid(nodes: map<string, GenericNode>)
    reads nodes.Values
  {
    forall k :: k in nodes ==> nodes[k].name == Some(k) && nodes[k].Valid()
  }

  /** The registered names in some iteration order, each once. */
  method Names(nodes: map<string, GenericNode>) returns (ks: seq<string>)
    ensures forall k :: k in ks <==> k in nodes
    ensures forall i, j :: 0 <= i < j < |ks| ==> ks[i] != ks[j]
  {
    ks := [];
    var rest := nodes.Keys;
    while rest != {}
      invariant forall k :: k in nodes <==> k in ks || k in rest
      invariant forall k :: k in ks ==> k !in rest
      invariant forall i, j :: 0 <= i < j < |ks| ==> ks[i] != ks[j]
      decreases rest
    {
      var k :| k in rest;
      ks := ks + [k];
      rest := rest - {k};
    }
  }

  /** A list of exactly the registered names is empty exactly when the registry is. */
  lemma NoNamesNoNodes(ks: seq<string>, nodes: map<string, GenericNode>)
    requires forall k :: k in ks <==> k in nodes
    ensures ks == [] <==> nodes == map[]
  {
    if ks != [] {
      assert ks[0] in nodes;
    }
    if nodes != map[] {
      var k :| k in nodes;
      assert k in ks;
    }
  }

  /**
   * One pass of the `start` loop: the node filed under `k` is started;
   * every node keeps its name, its invariant, its configuration and its
   * joined-thread log, a node already online keeps its handles, and the
   * others keep whether they are online.
   */
  method StartOne(nodes: map<string, GenericNode>, k: string)
    requires NodesValid(nodes) && k in nodes
    modifies nodes[k]
    ensures forall j :: j in nodes ==>
      nodes[j].name == Some(j) && nodes[j].Valid() && nodes[j].Config() == old(nodes[j].Config()) &&
      nodes[j].retired == old(nodes[j].retired) &&
      (old(nodes[j].isOnline) ==> nodes[j].Handles() == old(nodes[j].Handles())) &&
      (j == k ==> nodes[j].isOnline) && (j != k ==> nodes[j].isOnline == old(nodes[j].isOnline))
  {
    nodes[k].Start();
  }

  /**
   * The `for` loop of `start` over the registry: every node is started,
   * and keeps its name, its invariant, its configuration and its
   * joined-thread log; a node already online keeps its handles.
   */
  method StartAll(nodes: map<string, GenericNode>)
    requires NodesValid(nodes)
    modifies nodes.Values
    ensures NodesValid(nodes)
    ensures forall k :: k in nodes ==>
      nodes[k].isOnline && nodes[k].Config() == old(nodes[k].Config()) && nodes[k].retired == old(nodes[k].retired) &&
      (old(nodes[k].isOnline) ==> nodes[k].Handles() == old(nodes[k].Handles()))
  {
    var names := Names(nodes);
    for i := 0 to |names|
      invariant forall k :: k in nodes ==>
        nodes[k].name == Some(k) && nodes[k].Valid() && nodes[k].Config() == old(nodes[k].Config()) &&
        nodes[k].retired == old(nodes[k].retired) &&
        (old(nodes[k].isOnline) ==> nodes[k].Handles() == old(nodes[k].Handles())) &&
        (k in names[..i] ==> nodes[k].isOnline)
    {
      StartOne(nodes, names[i]);
    }
  }

  /**
   * One pass of a `stop` loop: the node filed under `k` is stopped; every
   * node keeps its name, its invariant and what `stop` keeps, and the
   * others keep whether they are stopped.
   */
  method StopOne(nodes: map<string, GenericNode>, k: string)
    requires NodesValid(nodes) && k in nodes
    modifies nodes[k]
    ensures forall j :: j in nodes ==>
      nodes[j].name == Some(j) && nodes[j].Valid() && nodes[j].KeptByStop() == old(nodes[j].KeptByStop()) &&
      (j == k ==> nodes[j].Stopped()) && (j != k ==> nodes[j].Stopped() == old(nodes[j].Stopped()))
  {
    nodes[k].Stop();
  }

  /**
   * The `for` loop of `stop` over the registry: every node is stopped,
   * keeps its name, its invariant and its configuration, and has its
   * serving thread logged as joined exactly when it was online.
   */
  method StopAll(nodes: map<string, GenericNode>)
    requires NodesValid(nodes)
    modifies nodes.Values
    ensures NodesValid(nodes)
    ensures forall k :: k in nodes ==>
      nodes[k].Stopped() && nodes[k].Config() == old(nodes[k].Config()) && nodes[k].retired == old(nodes[k].RetiredOnStop())
  {
    var names := Names(nodes);
    for i := 0 to |names|
      invariant forall k :: k in nodes ==>
        nodes[k].name == Some(k) && nodes[k].Valid() && nodes[k].KeptByStop() == old(nodes[k].KeptByStop()) &&
        (k in names[..i] ==> nodes[k].Stopped())
    {
      StopOne(nodes, names[i]);
    }
  }
}
