/**
 * `extractGraph` of the current graph model (`src/lib/internal/sankey/model.ts`) end to end:
 * the phases of `InternalExtract` in order, `extractLayers`, the `layer:` lookup entries, and
 * `getOverlap`, which reads the lookup.
 */
module InternalSankey {
  import opened IdSeqs
  import opened Utils
  import opened LayeredLinks
  import opened InternalModel
  import opened Layers
  import opened InternalGraph
  import opened InternalLayers
  import opened InternalExtract

  /**
   * What `extractGraph` returns: the nodes, the links, the sparse array of layer records (its
   * slots and its `length`) and the lookup index behind `getOverlap`.
   */
  datatype Graph = Graph(nodes: seq<InternalNode>, links: seq<InternalLink>, layers: map<nat, Layer<InternalNode>>,
                         length: nat, lookup: map<string, OverlapHelper>)

  /** The input layers; an absent list builds what an empty one does. */
  function LayersOf(data: GraphInput): seq<LayerInput>
  {
    if data.layers.Some? then data.layers.value else []
  }

  /**
   * The layer index `extractLayers` gives a planned node: its `layer`, else 0, because no node
   * has an `x0` yet and `xPositionToLayer` maps the one position `undefined` to 0.
   */
  function PlanKey(m: Made): nat
  {
    if m.layer.Some? then m.layer.value else 0
  }

  /** The layer indices of the planned nodes, in order. */
  function PlanKeys(plan: seq<Made>): (ks: seq<nat>)
    ensures |ks| == |plan| && forall j :: 0 <= j < |plan| ==> ks[j] == PlanKey(plan[j])
  {
    if plan == [] then [] else PlanKeys(plan[..|plan| - 1]) + [PlanKey(plan[|plan| - 1])]
  }

  /** What the nodes built from `plan` contribute to `extractLayers`, in order. */
  function PlanEntries(nodes: seq<InternalNode>, plan: seq<Made>, names: Option<seq<LayerInput>>): (es: seq<Entry<InternalNode>>)
    requires |nodes| == |plan|
    ensures |es| == |nodes| && forall j :: 0 <= j < |nodes| ==> es[j] == PlanEntry(nodes[j], plan[j], names)
  {
    if nodes == [] then []
    else PlanEntries(nodes[..|nodes| - 1], plan[..|plan| - 1], names) + [PlanEntry(nodes[|nodes| - 1], plan[|plan| - 1], names)]
  }

  /** What node `n`, built from `m`, contributes to `extractLayers`. */
  function PlanEntry(n: InternalNode, m: Made, names: Option<seq<LayerInput>>): Entry<InternalNode>
  {
    Entry(PlanKey(m), n, ToSet(m.d.ids), Box(None, None, None, None), LayerName(names, PlanKey(m)))
  }

  /**
   * When `extractGraph` returns rather than throws: every explicit link finds both of its ends
   * (or names an empty id list), and no layer index below the largest one is left without a
   * node, since `for (const layer of layers)` reads `layer.id` of every slot.
   */
  predicate Completes(data: GraphInput)
  {
    (data.links.None? || Wires(Plan(data), data.links.value).Some?) && Gapless(PlanKeys(Plan(data)))
  }

  /**
   * An empty first layer and a second one holding a single node `n` whose own `layer` is `null`:
   * `n` starts without a layer, so `extractLayers` puts it in layer 0, the empty first layer
   * leaves no gap, and `extractGraph` returns.
   */
  lemma NullishLayerCompletes(data: GraphInput, n: NodeInput)
    requires data.layers.Some? && |data.layers.value| == 2 && data.nodes.None? && data.links.None?
    requires data.layers.value[0].nodes == [] && data.layers.value[1].nodes == [n] && n.layer.Nullish?
    ensures Plan(data) == [Made(n, None)] && PlanKeys(Plan(data)) == [0] && Completes(data)
  {
    var ls := data.layers.value;
    assert TierPlan(ls[..1]) == [] by { assert ls[..1][..0] == []; }
    assert Row(ls[1].nodes, Some(1)) == [Made(n, None)];
    assert TierPlan(ls) == [Made(n, None)] by { assert ls[..1] == ls[..|ls| - 1]; }
    assert PlanKeys([Made(n, None)]) == [0];
    assert Gapless([0]) by { assert Span([0]) == 1; }
  }

  /**
   * The same input where `n` has no own `layer`: it takes its layer's index 1, slot 0 stays
   * empty and `extractGraph` throws.
   */
  lemma AbsentLayerGap(data: GraphInput, n: NodeInput)
    requires data.layers.Some? && |data.layers.value| == 2 && data.nodes.None? && data.links.None?
    requires data.layers.value[0].nodes == [] && data.layers.value[1].nodes == [n] && n.layer.Absent?
    ensures Plan(data) == [Made(n, Some(1))] && PlanKeys(Plan(data)) == [1] && !Completes(data)
  {
    var ls := data.layers.value;
    assert TierPlan(ls[..1]) == [] by { assert ls[..1][..0] == []; }
    assert Row(ls[1].nodes, Some(1)) == [Made(n, Some(1))];
    assert TierPlan(ls) == [Made(n, Some(1))] by { assert ls[..1] == ls[..|ls| - 1]; }
    assert Plan(data) == [Made(n, Some(1))];
    assert PlanKeys([Made(n, Some(1))]) == [1];
    assert !Gapless([1]) by { assert Span([1]) == 2 && 0 !in [1]; }
  }

  /** The nodes of the input layers, placed by `pos`, and the links the layered walk added. */
  ghost predicate Layered(layers: seq<LayerInput>, T: seq<seq<InternalNode>>, pos: map<InternalNode, Spot>,
                          nodes: seq<InternalNode>, edges: seq<Edge>)
  {
    var L := IdLevels(layers);
    |T| == |layers| && Tiers(T, layers, pos) && Over(T, L, nodes) && Placed(T, pos) && EdgesFor(T, L, edges, Links(L))
  }

  /** The explicit links added `added`: nothing without `links`, else the wires they plan. */
  ghost predicate Linked(data: GraphInput, nodes: seq<InternalNode>, added: seq<Edge>)
  {
    if data.links.Some? then
      Wires(Plan(data), data.links.value).Some? && WiredBy(nodes, added, Wires(Plan(data), data.links.value).value)
    else added == []
  }

  /** No node has a position yet. */
  ghost predicate Unplaced(nodes: seq<InternalNode>)
    reads nodes`x0, nodes`x1, nodes`y0, nodes`y1
  {
    forall n :: n in nodes ==> n.x0 == None && n.x1 == None && n.y0 == None && n.y1 == None
  }

  /** The nodes after `extractLayers`: each holds the layer index it was given, and no position. */
  ghost predicate Settled(nodes: seq<InternalNode>, plan: seq<Made>)
    reads nodes`layer, nodes`x0, nodes`x1, nodes`y0, nodes`y1
  {
    |nodes| == |plan| && Unplaced(nodes) && forall j :: 0 <= j < |nodes| ==> nodes[j].layer == Some(PlanKey(plan[j]))
  }

  /** The lookup after the loop over the first `n` layer slots: `layer:id` for each record. */
  function LayerIndex(lookup: map<string, OverlapHelper>, layers: map<nat, Layer<InternalNode>>, n: nat)
    : map<string, OverlapHelper>
  {
    if n == 0 then lookup
    else
      var m := LayerIndex(lookup, layers, n - 1);
      if n - 1 in layers then m[Key(LayerKind, layers[n - 1].id) := layers[n - 1].overlap] else m
  }

  /**
   * The graph `extractGraph(data)` returns, with the edges behind its links (`layered` from the
   * walk over the input layers, then `added` from the explicit links), the roles of its id sets,
   * the input layers' nodes `T` and the owners of the layer records' id sets.
   */
  ghost predicate Extracted(data: GraphInput, g: Graph, edges: seq<Edge>, roles: map<OverlapHelper, Role>,
                            T: seq<seq<InternalNode>>, pos: map<InternalNode, Spot>, layered: seq<Edge>,
                            added: seq<Edge>, owners: map<OverlapHelper, nat>)
    reads g.nodes, roles.Keys, g.layers.Values, set k | k in g.layers :: g.layers[k].overlap
  {
    var plan := Plan(data);
    && StoreOk(Store(NodeEntries(g.nodes) + LinkEntries(g.links), g.nodes, g.links), edges, roles)
    && Built(g.nodes, plan) && Settled(g.nodes, plan)
    && Layered(LayersOf(data), T, pos, g.nodes, layered) && edges == layered + added && Linked(data, g.nodes, added)
    && Holds(g.layers, owners, Aggregate(PlanEntries(g.nodes, plan, data.layers)))
    && g.length == Span(PlanKeys(plan)) && (forall k :: 0 <= k < g.length ==> k in g.layers)
    && g.lookup == LayerIndex(NodeEntries(g.nodes) + LinkEntries(g.links), g.layers, g.length)
  }

  /**
   * `extractGraph(data)`. It returns exactly when the input `Completes`; the source throws a
   * `TypeError` otherwise, which is `None` here.
   */
  method ExtractGraph(data: GraphInput)
    returns (g: Option<Graph>, ghost edges: seq<Edge>, ghost roles: map<OverlapHelper, Role>,
             ghost T: seq<seq<InternalNode>>, ghost pos: map<InternalNode, Spot>, ghost layered: seq<Edge>,
             ghost added: seq<Edge>, ghost owners: map<OverlapHelper, nat>)
    ensures g.Some? <==> Completes(data)
    ensures g.Some? ==> Extracted(data, g.value, edges, roles, T, pos, layered, added, owners)
  {
    var ok, st, tiers;
    ghost var made;
    ok, st, edges, roles, tiers, pos, layered, added, made := BuildGraph(data);
    T, owners := tiers, map[];
    if !ok {
      return None, edges, roles, T, pos, layered, added, owners;
    }
    CoversNodes(st.nodes, made);
    g, owners := Conclude(data, st, edges, roles, T, pos, layered, added);
  }

  /**
   * The last two phases of `extractGraph` on the store `st` the first four built: the layer
   * records, then the `layer:` entries of the lookup.
   */
  method Conclude(data: GraphInput, st: Store, ghost edges: seq<Edge>, ghost roles: map<OverlapHelper, Role>,
                  ghost T: seq<seq<InternalNode>>, ghost pos: map<InternalNode, Spot>, ghost layered: seq<Edge>,
                  ghost added: seq<Edge>)
    returns (g: Option<Graph>, ghost owners: map<OverlapHelper, nat>)
    requires Phased(data, st, edges, roles, T, pos, layered, added) && Laid(st.nodes, Plan(data))
    modifies st.nodes`layer
    ensures g.Some? <==> Gapless(PlanKeys(Plan(data)))
    ensures g.Some? ==> Extracted(data, g.value, edges, roles, T, pos, layered, added, owners)
  {
    ghost var plan := Plan(data);
    Planned(st, edges, roles, plan, data.layers);
    var layers, len, lookup;
    layers, len, lookup, owners := Finish(st.nodes, st.lookup, plan, data.layers);
    if lookup.None? {
      return None, owners;
    }
    Settle(data, st, edges, roles, T, pos, layered, added, layers, len, lookup, owners);
    g := Some(Graph(st.nodes, st.links, layers, len, lookup.value));
  }

  /** What the first four phases of `extractGraph` establish about the store `st` they build. */
  ghost predicate Phased(data: GraphInput, st: Store, edges: seq<Edge>, roles: map<OverlapHelper, Role>,
                         T: seq<seq<InternalNode>>, pos: map<InternalNode, Spot>, layered: seq<Edge>, added: seq<Edge>)
    reads roles.Keys`items
  {
    && StoreOk(st, edges, roles) && Built(st.nodes, Plan(data))
    && Layered(LayersOf(data), T, pos, st.nodes, layered) && edges == layered + added && Linked(data, st.nodes, added)
  }

  /**
   * The last two phases of `extractGraph` over the nodes built from `plan`: `extractLayers`,
   * then the `layer:` entries added to `index`; `lookup` is `None` where the source throws.
   */
  method Finish(nodes: seq<InternalNode>, index: map<string, OverlapHelper>, ghost plan: seq<Made>,
                names: Option<seq<LayerInput>>)
    returns (layers: map<nat, Layer<InternalNode>>, len: nat, lookup: Option<map<string, OverlapHelper>>,
             ghost owners: map<OverlapHelper, nat>)
    requires |nodes| == |plan| && forall j :: 0 <= j < |nodes| ==> nodes[j].overlap.Valid()
    requires Unplaced(nodes) && Positions(nodes) == {} && EntriesOf(nodes, {}, names) == PlanEntries(nodes, plan, names)
    modifies nodes`layer
    ensures Finished(nodes, index, plan, names, layers, len, lookup, owners)
    ensures lookup.Some? <==> Gapless(PlanKeys(plan))
  {
    layers, len, owners := Lay(nodes, plan, names);
    PlanKeysOf(nodes, plan, names);
    SlotsFilled(PlanEntries(nodes, plan, names), layers, owners, len);
    lookup := IndexHeld(nodes, index, plan, names, layers, len, owners);
  }

  /** The `layer:` entries added to `index`, over layer records that stay as they are. */
  method IndexHeld(nodes: seq<InternalNode>, index: map<string, OverlapHelper>, ghost plan: seq<Made>,
                   names: Option<seq<LayerInput>>, layers: map<nat, Layer<InternalNode>>, len: nat,
                   ghost owners: map<OverlapHelper, nat>)
    returns (lookup: Option<map<string, OverlapHelper>>)
    requires Settled(nodes, plan) && Holds(layers, owners, Aggregate(PlanEntries(nodes, plan, names)))
    requires len == Span(PlanKeys(plan))
    ensures Finished(nodes, index, plan, names, layers, len, lookup, owners)
    ensures lookup.Some? <==> forall k :: 0 <= k < len ==> k in layers
  {
    lookup := IndexLayers(index, layers, len);
  }

  /**
   * What the last two phases leave: the nodes settled in their layers, the layer records, the
   * array length and, unless a slot was a hole, the lookup with the `layer:` entries added.
   */
  ghost predicate Finished(nodes: seq<InternalNode>, index: map<string, OverlapHelper>, plan: seq<Made>,
                           names: Option<seq<LayerInput>>, layers: map<nat, Layer<InternalNode>>, len: nat,
                           lookup: Option<map<string, OverlapHelper>>, owners: map<OverlapHelper, nat>)
    reads nodes`layer, nodes`x0, nodes`x1, nodes`y0, nodes`y1, layers.Values, set k | k in layers :: layers[k].overlap
  {
    && |nodes| == |plan| && Settled(nodes, plan)
    && Holds(layers, owners, Aggregate(PlanEntries(nodes, plan, names))) && len == Span(PlanKeys(plan))
    && (lookup.Some? ==> (forall k :: 0 <= k < len ==> k in layers) && lookup.value == LayerIndex(index, layers, len))
  }

  /** `extractLayers` over the nodes built from `plan`. */
  method Lay(nodes: seq<InternalNode>, ghost plan: seq<Made>, names: Option<seq<LayerInput>>)
    returns (layers: map<nat, Layer<InternalNode>>, len: nat, ghost owners: map<OverlapHelper, nat>)
    requires |nodes| == |plan| && forall j :: 0 <= j < |nodes| ==> nodes[j].overlap.Valid()
    requires Unplaced(nodes) && Positions(nodes) == {} && EntriesOf(nodes, {}, names) == PlanEntries(nodes, plan, names)
    modifies nodes`layer
    ensures Settled(nodes, plan)
    ensures Holds(layers, owners, Aggregate(PlanEntries(nodes, plan, names))) && len == Span(PlanKeys(plan))
    ensures forall k :: k in layers ==> fresh(layers[k]) && fresh(layers[k].overlap)
  {
    ghost var es;
    layers, len, es, owners := ExtractLayers(nodes, names);
    PlanKeysOf(nodes, plan, names);
  }

  /** The last step of `ExtractGraph`: the four phases and the last two make up `Extracted`. */
  lemma Settle(data: GraphInput, st: Store, edges: seq<Edge>, roles: map<OverlapHelper, Role>,
               T: seq<seq<InternalNode>>, pos: map<InternalNode, Spot>, layered: seq<Edge>, added: seq<Edge>,
               layers: map<nat, Layer<InternalNode>>, len: nat, lookup: Option<map<string, OverlapHelper>>,
               owners: map<OverlapHelper, nat>)
    requires Phased(data, st, edges, roles, T, pos, layered, added) && lookup.Some?
    requires Finished(st.nodes, st.lookup, Plan(data), data.layers, layers, len, lookup, owners)
    ensures Extracted(data, Graph(st.nodes, st.links, layers, len, lookup.value), edges, roles, T, pos, layered, added, owners)
  {
    assert st == Store(NodeEntries(st.nodes) + LinkEntries(st.links), st.nodes, st.links);
  }

  /** The layer indices of the planned entries are the planned keys. */
  lemma PlanKeysOf(nodes: seq<InternalNode>, plan: seq<Made>, names: Option<seq<LayerInput>>)
    requires |nodes| == |plan|
    ensures Keys(PlanEntries(nodes, plan, names)) == PlanKeys(plan)
  {
  }

  /**
   * The first four phases of `extractGraph`: the input layers' nodes and the links between them,
   * the explicit nodes, and the explicit links. `ok` is false when an explicit link fails.
   */
  method BuildGraph(data: GraphInput)
    returns (ok: bool, st: Store, ghost edges: seq<Edge>, ghost roles: map<OverlapHelper, Role>,
             T: seq<seq<InternalNode>>, ghost pos: map<InternalNode, Spot>, ghost layered: seq<Edge>,
             ghost added: seq<Edge>, ghost made: set<object>)
    ensures ok <==> data.links.None? || Wires(Plan(data), data.links.value).Some?
    ensures ok ==> StoreOk(st, edges, roles) && Built(st.nodes, Plan(data)) && Laid(st.nodes, Plan(data))
    ensures ok ==> Layered(LayersOf(data), T, pos, st.nodes, layered) && edges == layered + added
    ensures ok ==> Linked(data, st.nodes, added) && Covers(st.nodes, made) && fresh(made)
  {
    ghost var row;
    st, layered, roles, T, pos, row, made := BuildNodes(data);
    CoversNodes(st.nodes, made);
    ok, st, edges, roles, added := LinkLaid(data, st, layered, roles);
  }

  /**
   * The explicit links added after the nodes; they leave every node's layer as it was laid
   * out, so the layout facts about the nodes still hold afterwards.
   */
  method LinkLaid(data: GraphInput, st: Store, ghost edges: seq<Edge>, ghost roles: map<OverlapHelper, Role>)
    returns (ok: bool, st': Store, ghost edges': seq<Edge>, ghost roles': map<OverlapHelper, Role>, ghost added: seq<Edge>)
    requires StoreOk(st, edges, roles) && Built(st.nodes, Plan(data)) && Laid(st.nodes, Plan(data))
    modifies Outs(st.nodes)`items, Ins(st.nodes)`items
    ensures ok <==> data.links.None? || Wires(Plan(data), data.links.value).Some?
    ensures ok ==> StoreOk(st', edges', roles') && st'.nodes == st.nodes && Laid(st.nodes, Plan(data))
    ensures ok ==> edges' == edges + added && Linked(data, st.nodes, added)
  {
    ok, st', edges', roles', added := LinkData(data, st, edges, roles);
  }

  /** The explicit links, when there are any: `ok` is false when one of them fails. */
  method LinkData(data: GraphInput, st: Store, ghost edges: seq<Edge>, ghost roles: map<OverlapHelper, Role>)
    returns (ok: bool, st': Store, ghost edges': seq<Edge>, ghost roles': map<OverlapHelper, Role>, ghost added: seq<Edge>)
    requires StoreOk(st, edges, roles) && Built(st.nodes, Plan(data))
    modifies Outs(st.nodes)`items, Ins(st.nodes)`items
    ensures ok <==> data.links.None? || Wires(Plan(data), data.links.value).Some?
    ensures ok ==> StoreOk(st', edges', roles') && st'.nodes == st.nodes
    ensures ok ==> edges' == edges + added && Linked(data, st.nodes, added)
  {
    ok, st', edges', roles', added := true, st, edges, roles, [];
    if data.links.Some? {
      ok, st', edges', roles', added := AddLinks(st, edges, roles, Plan(data), data.links.value);
    }
  }

  /** The input layers' nodes, the links between them, then the explicit nodes. */
  method BuildNodes(data: GraphInput)
    returns (st: Store, ghost edges: seq<Edge>, ghost roles: map<OverlapHelper, Role>, T: seq<seq<InternalNode>>,
             ghost pos: map<InternalNode, Spot>, ghost row: seq<InternalNode>, ghost made: set<object>)
    ensures StoreOk(st, edges, roles) && Built(st.nodes, Plan(data)) && Laid(st.nodes, Plan(data))
    ensures Layered(LayersOf(data), T, pos, st.nodes, edges)
    ensures Covers(st.nodes, made) && fresh(made)
  {
    ghost var tm, nm;
    st, edges, roles, T, pos, tm := BuildLayered(LayersOf(data));
    ghost var tiered := st.nodes;
    st, roles, row, nm := AddNodes(st, edges, roles, data.nodes);
    Fresher(tm, nm);
    made := tm + nm;
    NodesAdded(data, T, pos, tiered, row, edges, tm, nm);
  }

  /** Objects made since the start, joined, are still objects made since the start. */
  twostate lemma Fresher(new a: set<object>, new b: set<object>)
    requires fresh(a) && fresh(b)
    ensures fresh(a + b)
  {
  }

  /** The bookkeeping of adding the explicit nodes after the input layers' nodes. */
  lemma NodesAdded(data: GraphInput, T: seq<seq<InternalNode>>, pos: map<InternalNode, Spot>, tiered: seq<InternalNode>,
                   row: seq<InternalNode>, edges: seq<Edge>, tm: set<object>, nm: set<object>)
    requires Built(tiered, TierPlan(LayersOf(data))) && Laid(tiered, TierPlan(LayersOf(data)))
    requires Layered(LayersOf(data), T, pos, tiered, edges) && Covers(tiered, tm) && Covers(row, nm)
    requires var p := if data.nodes.Some? then Row(data.nodes.value, None) else []; Built(row, p) && Laid(row, p)
    ensures Built(tiered + row, Plan(data)) && Laid(tiered + row, Plan(data))
    ensures Layered(LayersOf(data), T, pos, tiered + row, edges) && Covers(tiered + row, tm + nm)
  {
    var p := if data.nodes.Some? then Row(data.nodes.value, None) else [];
    assert Plan(data) == TierPlan(LayersOf(data)) + p;
    BuiltConcat(tiered, TierPlan(LayersOf(data)), row, p);
    LaidConcat(tiered, TierPlan(LayersOf(data)), row, p);
    CoversJoin(tiered, tm, row, nm);
  }

  /**
   * `data.layers.map((layer, i) => layer.nodes.map(d => asNode(d, i)))` on an empty graph,
   * then the loops that link consecutive layers.
   */
  method BuildLayered(layers: seq<LayerInput>)
    returns (st: Store, ghost edges: seq<Edge>, ghost roles: map<OverlapHelper, Role>, T: seq<seq<InternalNode>>,
             ghost pos: map<InternalNode, Spot>, ghost made: set<object>)
    ensures StoreOk(st, edges, roles) && Built(st.nodes, TierPlan(layers)) && Laid(st.nodes, TierPlan(layers))
    ensures Layered(layers, T, pos, st.nodes, edges) && Covers(st.nodes, made) && fresh(made)
  {
    var empty := Store(map[], [], []);
    assert StoreOk(empty, [], map[]) by {
      assert NodeEntries([]) + LinkEntries([]) == map[];
    }
    T, st, roles, pos, made := BuildTiers(empty, map[], layers);
    TiersOver(T, layers, pos, st.nodes);
    CoversNodes(st.nodes, made);
    st, edges, roles := LinkTiers(st, roles, T, IdLevels(layers));
  }

  /** The nodes `made` covers, and their missing sets, are all in `made`. */
  lemma CoversNodes(nodes: seq<InternalNode>, made: set<object>)
    requires Covers(nodes, made)
    ensures Outs(nodes) <= made && Ins(nodes) <= made && forall n :: n in nodes ==> n in made
  {
  }

  /**
   * Nodes built from `plan` with no position yet: every node's id set is valid, no node has an
   * `x0`, and what they contribute to `extractLayers` is `PlanEntries`.
   */
  lemma Planned(st: Store, edges: seq<Edge>, roles: map<OverlapHelper, Role>, plan: seq<Made>,
                names: Option<seq<LayerInput>>)
    requires StoreOk(st, edges, roles) && Built(st.nodes, plan) && Laid(st.nodes, plan)
    ensures forall j :: 0 <= j < |st.nodes| ==> st.nodes[j].overlap.Valid()
    ensures Unplaced(st.nodes) && Positions(st.nodes) == {}
    ensures EntriesOf(st.nodes, {}, names) == PlanEntries(st.nodes, plan, names)
  {
    SetsValid(st, edges, roles);
    PlanEntriesOf(st.nodes, plan, names);
  }

  /** The id set of every node of a valid store is valid and holds the node's ids. */
  lemma SetsValid(st: Store, edges: seq<Edge>, roles: map<OverlapHelper, Role>)
    requires StoreOk(st, edges, roles)
    ensures forall j :: 0 <= j < |st.nodes| ==> st.nodes[j].overlap.Valid() && st.nodes[j].overlap.items == Dedup(st.nodes[j].ids)
  {
    forall j | 0 <= j < |st.nodes|
      ensures st.nodes[j].overlap.Valid() && st.nodes[j].overlap.items == Dedup(st.nodes[j].ids)
    {
      OverlapOk(st, edges, roles, st.nodes[j]);
    }
  }

  /** The entries of nodes built from `plan`, holding their ids and no position, are `PlanEntries`. */
  lemma PlanEntriesOf(ns: seq<InternalNode>, plan: seq<Made>, names: Option<seq<LayerInput>>)
    requires Built(ns, plan) && Laid(ns, plan)
    requires forall j :: 0 <= j < |ns| ==> ns[j].overlap.Valid() && ns[j].overlap.items == Dedup(ns[j].ids)
    ensures Unplaced(ns) && Positions(ns) == {}
    ensures EntriesOf(ns, {}, names) == PlanEntries(ns, plan, names)
  {
    var E, P := EntriesOf(ns, {}, names), PlanEntries(ns, plan, names);
    forall j | 0 <= j < |ns|
      ensures E[j] == P[j]
    {
      DedupProps(ns[j].ids);
      assert ns[j].overlap.Members() == ToSet(plan[j].d.ids);
    }
    assert E == P;
    assert Positions(ns) == {} by {
      forall n | n in ns ensures n.x0.None? {
        var j :| 0 <= j < |ns| && ns[j] == n;
      }
    }
  }

  /**
   * The loop `for (const layer of layers) lookup.set(`layer:${layer.id}`, layer.overlap)` over
   * the slots below `len`: `None` when it meets a hole, whose `id` the source cannot read.
   */
  method IndexLayers(lookup: map<string, OverlapHelper>, layers: map<nat, Layer<InternalNode>>, len: nat)
    returns (r: Option<map<string, OverlapHelper>>)
    ensures r.Some? <==> forall k :: 0 <= k < len ==> k in layers
    ensures r.Some? ==> r.value == LayerIndex(lookup, layers, len)
  {
    var m := lookup;
    for k := 0 to len
      invariant forall i :: 0 <= i < k ==> i in layers
      invariant m == LayerIndex(lookup, layers, k)
    {
      if k !in layers {
        return None;
      }
      m := m[Key(LayerKind, layers[k].id) := layers[k].overlap];
    }
    r := Some(m);
  }

  /** The slots below the array length are all filled exactly when the layer indices are gapless. */
  lemma SlotsFilled(es: seq<Entry<InternalNode>>, layers: map<nat, Layer<InternalNode>>, owners: map<OverlapHelper, nat>,
                    len: nat)
    requires layers.Keys == Aggregate(es).Keys && len == Span(Keys(es))
    ensures (forall k :: 0 <= k < len ==> k in layers) <==> Gapless(Keys(es))
  {
    forall k | 0 <= k < len
      ensures k in layers <==> k in Keys(es)
    {
      AggregateKeys(es, k);
      if k in Keys(es) {
        var j :| 0 <= j < |Keys(es)| && Keys(es)[j] == k;
        assert es[j].key == k;
      }
    }
  }

  /** Every layer record's id is its index, as `Layer<N>` builds it from the first member. */
  predicate Numbered(layers: map<nat, Layer<InternalNode>>)
  {
    forall j :: j in layers ==> layers[j].id == NatToString(j)
  }

  /**
   * The loop over the first `n` slots adds `layer:j` for each filled slot `j` and no other key,
   * and leaves the entries of `lookup` under every other key as they were.
   */
  lemma {:induction false} LayerIndexKeys(lookup: map<string, OverlapHelper>, layers: map<nat, Layer<InternalNode>>,
                                          n: nat, k: Kind, id: string)
    requires Numbered(layers)
    ensures Key(k, id) in LayerIndex(lookup, layers, n) <==>
      Key(k, id) in lookup || (k == LayerKind && exists j :: 0 <= j < n && j in layers && id == NatToString(j))
    ensures (k != LayerKind || forall j :: 0 <= j < n && j in layers ==> id != NatToString(j)) && Key(k, id) in lookup ==>
      LayerIndex(lookup, layers, n)[Key(k, id)] == lookup[Key(k, id)]
  {
    if n > 0 {
      LayerIndexKeys(lookup, layers, n - 1, k, id);
      if n - 1 in layers && Key(k, id) == Key(LayerKind, layers[n - 1].id) {
        KeyInjective(k, id, LayerKind, layers[n - 1].id);
      }
    }
  }

  /** After the loop over the first `n` slots, `layer:j` holds the id set of record `j`. */
  lemma {:induction false} LayerIndexAt(lookup: map<string, OverlapHelper>, layers: map<nat, Layer<InternalNode>>,
                                        n: nat, j: nat)
    requires Numbered(layers) && j < n && j in layers
    ensures Key(LayerKind, NatToString(j)) in LayerIndex(lookup, layers, n)
    ensures LayerIndex(lookup, layers, n)[Key(LayerKind, NatToString(j))] == layers[j].overlap
  {
    if j < n - 1 {
      LayerIndexAt(lookup, layers, n - 1, j);
      if n - 1 in layers && Key(LayerKind, NatToString(j)) == Key(LayerKind, layers[n - 1].id) {
        KeyInjective(LayerKind, NatToString(j), LayerKind, NatToString(n - 1));
        NatToStringInjective(j, n - 1);
      }
    }
  }

  /** Records built from entries carry their own index as id. */
  lemma NumberedOf(layers: map<nat, Layer<InternalNode>>, owners: map<OverlapHelper, nat>,
                   es: seq<Entry<InternalNode>>)
    requires Holds(layers, owners, Aggregate(es))
    ensures Numbered(layers)
  {
    forall j | j in layers
      ensures layers[j].id == NatToString(j)
    {
      assert layers[j].Value() == Aggregate(es)[j];
      AggregateHead(es, j);
    }
  }

  /**
   * What the finished lookup holds under `k:id`: the entry of `base` for a key outside the
   * `layer:` range, and the id set of record `j` under `layer:j` for every slot below `n`.
   */
  lemma IndexLookup(base: map<string, OverlapHelper>, layers: map<nat, Layer<InternalNode>>, n: nat, k: Kind, id: string)
    requires Numbered(layers) && forall j :: 0 <= j < n ==> j in layers
    requires k == LayerKind ==> Key(k, id) !in base
    ensures k != LayerKind ==> (Key(k, id) in LayerIndex(base, layers, n) <==> Key(k, id) in base)
    ensures k != LayerKind && Key(k, id) in base ==> LayerIndex(base, layers, n)[Key(k, id)] == base[Key(k, id)]
    ensures k == LayerKind ==> (Key(k, id) in LayerIndex(base, layers, n) <==> exists j :: 0 <= j < n && id == NatToString(j))
    ensures forall j :: 0 <= j < n ==>
      Key(LayerKind, NatToString(j)) in LayerIndex(base, layers, n) &&
      LayerIndex(base, layers, n)[Key(LayerKind, NatToString(j))] == layers[j].overlap
  {
    LayerIndexKeys(base, layers, n, k, id);
    forall j | 0 <= j < n
      ensures Key(LayerKind, NatToString(j)) in LayerIndex(base, layers, n) &&
        LayerIndex(base, layers, n)[Key(LayerKind, NatToString(j))] == layers[j].overlap
    {
      LayerIndexAt(base, layers, n, j);
    }
  }

  /** The facts about an extracted graph that its lookup rests on. */
  predicate Keyed(g: Graph)
  {
    && Numbered(g.layers) && (forall j :: 0 <= j < g.length ==> j in g.layers)
    && g.lookup == LayerIndex(NodeEntries(g.nodes) + LinkEntries(g.links), g.layers, g.length)
  }

  /** An extracted graph is `Keyed`. */
  lemma ExtractedKeyed(data: GraphInput, g: Graph, edges: seq<Edge>, roles: map<OverlapHelper, Role>,
                         T: seq<seq<InternalNode>>, pos: map<InternalNode, Spot>, layered: seq<Edge>, added: seq<Edge>,
                         owners: map<OverlapHelper, nat>)
    requires Extracted(data, g, edges, roles, T, pos, layered, added, owners)
    ensures Keyed(g)
  {
    NumberedOf(g.layers, owners, PlanEntries(g.nodes, Plan(data), data.layers));
  }

  /**
   * What `getOverlap(type, id)` finds in a `Keyed` graph: under a node-side kind, the set
   * of the last node with that id; under `link`, the set of the last link with that id; under
   * `layer`, the id set of the layer record whose index spells `id`; and nothing else.
   */
  lemma KeyedLookup(g: Graph, k: Kind, id: string)
    requires Keyed(g)
    ensures NodeSide(k) ==> (Key(k, id) in g.lookup <==> LastWithId(g.nodes, id).Some?)
    ensures NodeSide(k) && LastWithId(g.nodes, id).Some? ==> g.lookup[Key(k, id)] == SetOf(g.nodes[LastWithId(g.nodes, id).value], k)
    ensures k == LinkKind ==> (Key(k, id) in g.lookup <==> LastLinkWithId(g.links, id).Some?)
    ensures k == LinkKind && LastLinkWithId(g.links, id).Some? ==>
      g.lookup[Key(k, id)] == g.links[LastLinkWithId(g.links, id).value].overlap
    ensures k == LayerKind ==> (Key(k, id) in g.lookup <==> exists j :: 0 <= j < g.length && id == NatToString(j))
    ensures forall j :: 0 <= j < g.length ==>
      Key(LayerKind, NatToString(j)) in g.lookup && g.lookup[Key(LayerKind, NatToString(j))] == g.layers[j].overlap
  {
    NodeEntriesAt(g.nodes, k, id);
    LinkEntriesAt(g.links, k, id);
    IndexLookup(NodeEntries(g.nodes) + LinkEntries(g.links), g.layers, g.length, k, id);
  }

  /** `getOverlap(type, id)`: the id set stored under `type:id`, else a new empty one. */
  method GetOverlap(g: Graph, k: Kind, id: string) returns (r: OverlapHelper)
    ensures Key(k, id) in g.lookup ==> r == g.lookup[Key(k, id)]
    ensures Key(k, id) !in g.lookup ==> fresh(r) && r.Valid() && r.items == []
  {
    var key := Key(k, id);
    if key in g.lookup {
      r := g.lookup[key];
    } else {
      r := new OverlapHelper([]);
    }
  }
}
