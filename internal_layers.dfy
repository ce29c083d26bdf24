/**
 * `extractLayers` of the current graph model (`src/lib/internal/sankey/model.ts`): every node's
 * layer index is its own `layer`, else the rank of its `x0` among the distinct positions; the
 * index is written back onto the node, and the node joins the record of that layer.
 */
module InternalLayers {
  import opened IdSeqs
  import opened Utils
  import opened InternalModel
  import opened Layers

  /** The distinct `x0` positions of the nodes, unset ones aside. */
  function Positions(nodes: seq<InternalNode>): set<int>
    reads nodes`x0
  {
    set n | n in nodes && n.x0.Some? :: n.x0.value
  }

  /**
   * The index of `c` in `[...new Set(xs)].sort((a, b) => a - b)` over the positions `X`: the
   * number of smaller positions; an unset position sorts after every number.
   */
  function Rank(X: set<int>, c: Coord): nat
  {
    if c.Some? then |set w | w in X && w < c.value| else |X|
  }

  /** The layer index of a node whose `layer` was `layer` and whose `x0` is `x0`. */
  function LayerKey(layer: Option<nat>, x0: Coord, X: set<int>): nat
  {
    if layer.Some? then layer.value else Rank(X, x0)
  }

  /** `layers?.[k]?.name ?? `Layer ${k}``: the input layer's name when there is one. */
  function LayerName(names: Option<seq<LayerInput>>, k: nat): string
  {
    if names.Some? && k < |names.value| then names.value[k].name else "Layer " + NatToString(k)
  }

  /** What node `n` contributes to layer `k`. */
  ghost function EntryAt(n: InternalNode, k: nat, names: Option<seq<LayerInput>>): Entry<InternalNode>
    reads n`x0, n`x1, n`y0, n`y1, n.overlap
  {
    Entry(k, n, n.overlap.Members(), Box(n.x0, n.x1, n.y0, n.y1), LayerName(names, k))
  }

  /** What the nodes contribute, in order, given their current `layer` and `x0`. */
  ghost function EntriesOf(nodes: seq<InternalNode>, X: set<int>, names: Option<seq<LayerInput>>): (es: seq<Entry<InternalNode>>)
    reads nodes, set n | n in nodes :: n.overlap
    ensures |es| == |nodes|
    ensures forall j :: 0 <= j < |nodes| ==> es[j] == EntryAt(nodes[j], LayerKey(nodes[j].layer, nodes[j].x0, X), names)
  {
    if nodes == [] then []
    else
      var n := nodes[|nodes| - 1];
      EntriesOf(nodes[..|nodes| - 1], X, names) + [EntryAt(n, LayerKey(n.layer, n.x0, X), names)]
  }

  /**
   * `extractLayers(nodes, names)`: the sparse array of layer records (its slots and its
   * `length`), each the aggregate of the nodes with that index, in order; every node's index
   * is saved in its `layer`. The source does both in one pass; here the indices are assigned
   * first, which changes nothing since the aggregation never reads `layer`.
   */
  method ExtractLayers(nodes: seq<InternalNode>, names: Option<seq<LayerInput>>)
    returns (layers: map<nat, Layer<InternalNode>>, len: nat, ghost es: seq<Entry<InternalNode>>,
             ghost owners: map<OverlapHelper, nat>)
    requires forall j :: 0 <= j < |nodes| ==> nodes[j].overlap.Valid()
    modifies nodes`layer
    ensures es == old(EntriesOf(nodes, Positions(nodes), names))
    ensures forall j :: 0 <= j < |nodes| ==> nodes[j].layer == Some(es[j].key)
    ensures Holds(layers, owners, Aggregate(es)) && len == Span(Keys(es))
    ensures forall k :: k in layers ==> fresh(layers[k]) && fresh(layers[k].overlap)
  {
    var X := Positions(nodes);
    ghost var es0 := EntriesOf(nodes, X, names);
    var keys := AssignAll(nodes, X);
    var entries := seq(|nodes|, j requires 0 <= j < |nodes| reads nodes, set n | n in nodes :: n.overlap =>
      Entry(keys[j], nodes[j], ToSet(nodes[j].overlap.items), Box(nodes[j].x0, nodes[j].x1, nodes[j].y0, nodes[j].y1),
            LayerName(names, keys[j])));
    assert entries == es0;
    es := entries;
    var ovs := seq(|nodes|, j requires 0 <= j < |nodes| => nodes[j].overlap);
    layers, len, owners := Collect(entries, ovs);
  }

  /** The first half of the loop: every node's index, saved back onto it. */
  method AssignAll(nodes: seq<InternalNode>, X: set<int>) returns (keys: seq<nat>)
    modifies nodes`layer
    ensures |keys| == |nodes|
    ensures forall j :: 0 <= j < |nodes| ==> keys[j] == old(LayerKey(nodes[j].layer, nodes[j].x0, X))
    ensures forall j :: 0 <= j < |nodes| ==> nodes[j].layer == Some(keys[j])
  {
    keys := [];
    for i := 0 to |nodes|
      invariant |keys| == i
      invariant forall j :: 0 <= j < |nodes| ==>
        LayerKey(nodes[j].layer, nodes[j].x0, X) == old(LayerKey(nodes[j].layer, nodes[j].x0, X))
      invariant forall j :: 0 <= j < i ==> keys[j] == old(LayerKey(nodes[j].layer, nodes[j].x0, X))
      invariant forall j :: 0 <= j < i ==> nodes[j].layer == Some(keys[j])
    {
      var key := Assign(nodes[i], X);
      keys := keys + [key];
    }
  }

  /** `node.layer ?? xPositionToLayer.get(node.x0)`, saved back onto the node. */
  method Assign(node: InternalNode, X: set<int>) returns (key: nat)
    modifies node`layer
    ensures key == LayerKey(old(node.layer), node.x0, X) && node.layer == Some(key)
  {
    key := if node.layer.Some? then node.layer.value else Rank(X, node.x0);
    node.layer := Some(key);
  }
}
