/**
 * `extractGraph` of the current graph model (`src/lib/internal/sankey/model.ts`), phase by
 * phase: the nodes of the input layers, the links between consecutive layers, the explicit
 * nodes, the explicit links, the layer records and their lookup entries.
 */
module InternalExtract {
  import opened IdSeqs
  import opened Utils
  import opened LayeredLinks
  import opened InternalModel
  import opened Layers
  import opened InternalGraph
  import opened InternalLayers

  /** A node to be built: its input and the `layer` it starts with. */
  datatype Made = Made(d: NodeInput, layer: Option<nat>)

  /** The nodes `ds.map(d => asNode(d, layer))` builds, in order. */
  function Row(ds: seq<NodeInput>, layer: Option<nat>): (r: seq<Made>)
    ensures |r| == |ds| && forall s :: 0 <= s < |ds| ==> r[s] == Made(ds[s], NodeLayer(ds[s], layer))
  {
    seq(|ds|, s requires 0 <= s < |ds| => Made(ds[s], NodeLayer(ds[s], layer)))
  }

  /** The nodes of the input layers, layer after layer; layer `i`'s nodes start in layer `i`. */
  function TierPlan(layers: seq<LayerInput>): seq<Made>
  {
    if layers == [] then [] else TierPlan(layers[..|layers| - 1]) + Row(layers[|layers| - 1].nodes, Some(|layers| - 1))
  }

  /** Every node `extractGraph` builds, in the order it builds them. */
  function Plan(data: GraphInput): seq<Made>
  {
    (if data.layers.Some? then TierPlan(data.layers.value) else [])
      + (if data.nodes.Some? then Row(data.nodes.value, None) else [])
  }

  /** `n` carries the fields of `d`, and `fixedValue` counts its ids, duplicates included. */
  ghost predicate FromInput(n: InternalNode, d: NodeInput)
  {
    n.id == d.id && n.name == d.name && n.ids == d.ids && n.fixedValue == |d.ids|
  }

  /** The nodes were built from `plan`, one each, in order. */
  ghost predicate Built(nodes: seq<InternalNode>, plan: seq<Made>)
  {
    |nodes| == |plan| && forall j :: 0 <= j < |nodes| ==> FromInput(nodes[j], plan[j].d)
  }

  /** The nodes hold the `layer` their plan gives them and no position yet. */
  ghost predicate Laid(nodes: seq<InternalNode>, plan: seq<Made>)
    reads nodes`layer, nodes`x0, nodes`x1, nodes`y0, nodes`y1
  {
    |nodes| == |plan| &&
    forall j :: 0 <= j < |nodes| ==>
      nodes[j].layer == plan[j].layer && nodes[j].x0 == None && nodes[j].x1 == None
      && nodes[j].y0 == None && nodes[j].y1 == None
  }

  lemma BuiltConcat(a: seq<InternalNode>, p: seq<Made>, b: seq<InternalNode>, q: seq<Made>)
    requires Built(a, p) && Built(b, q)
    ensures Built(a + b, p + q)
  {
  }

  lemma LaidConcat(a: seq<InternalNode>, p: seq<Made>, b: seq<InternalNode>, q: seq<Made>)
    requires Laid(a, p) && Laid(b, q)
    ensures Laid(a + b, p + q)
  {
  }

  /** One pass of the loop of `AddRow`: node `s` of `ds` is built and appended. */
  method Grow(nodes: seq<InternalNode>, row: seq<InternalNode>, st: Store, ghost edges: seq<Edge>,
              ghost roles: map<OverlapHelper, Role>, ghost idx: map<InternalNode, nat>, ghost made: set<object>,
              ds: seq<NodeInput>, s: nat, layer: Option<nat>)
    returns (row': seq<InternalNode>, st': Store, ghost roles': map<OverlapHelper, Role>, ghost idx': map<InternalNode, nat>,
             ghost made': set<object>)
    requires s < |ds| && StoreOk(st, edges, roles) && st.nodes == nodes + row
    requires Built(row, Row(ds[..s], layer)) && Laid(row, Row(ds[..s], layer)) && Indexed(row, idx) && Covers(row, made)
    ensures StoreOk(st', edges, roles')
    ensures st'.nodes == nodes + row' && st'.links == st.links
    ensures Built(row', Row(ds[..s + 1], layer)) && Laid(row', Row(ds[..s + 1], layer)) && Indexed(row', idx')
    ensures Covers(row', made') && made <= made'
    ensures forall o :: o in made' && o !in made ==> fresh(o)
  {
    var n;
    n, st', roles' := AsNode(st, edges, roles, ds[s], layer);
    row' := row + [n];
    RowGrown(nodes, row, n, row', ds, s, layer, idx, made);
    idx' := idx[n := |row|];
    made' := made + {n, n.missingIn, n.missingOut};
    Born(made, n);
  }

  /** Besides `made`, `made + {n, n.missingIn, n.missingOut}` holds only objects made since the start. */
  twostate lemma Born(made: set<object>, new n: InternalNode)
    requires fresh(n) && fresh(n.missingIn) && fresh(n.missingOut)
    ensures forall o :: o in made + {n, n.missingIn, n.missingOut} && o !in made ==> fresh(o)
  {
  }

  /** The nodes of `nodes` and their missing sets are all in `made`. */
  ghost predicate Covers(nodes: seq<InternalNode>, made: set<object>)
  {
    forall n :: n in nodes ==> n in made && n.missingIn in made && n.missingOut in made
  }

  lemma CoversJoin(a: seq<InternalNode>, m: set<object>, b: seq<InternalNode>, q: set<object>)
    requires Covers(a, m) && Covers(b, q)
    ensures Covers(a + b, m + q)
  {
  }

  /** `idx` tells the index of every node of `row`: so no node sits at two indices. */
  ghost predicate Indexed(row: seq<InternalNode>, idx: map<InternalNode, nat>)
  {
    && (forall s :: 0 <= s < |row| ==> row[s] in idx && idx[row[s]] == s)
    && (forall n :: n in idx ==> n in row)
  }

  lemma IndexedSnoc(row: seq<InternalNode>, idx: map<InternalNode, nat>, n: InternalNode)
    requires Indexed(row, idx) && n !in idx
    ensures Indexed(row + [n], idx[n := |row|])
  {
  }

  /** The row after one more node. */
  lemma RowGrown(nodes: seq<InternalNode>, prev: seq<InternalNode>, n: InternalNode, row: seq<InternalNode>,
                 ds: seq<NodeInput>, s: nat, layer: Option<nat>, idx: map<InternalNode, nat>, made: set<object>)
    requires s < |ds| && row == prev + [n] && Built(prev, Row(ds[..s], layer)) && FromInput(n, ds[s])
    requires Laid(prev, Row(ds[..s], layer)) && n.layer == NodeLayer(ds[s], layer)
    requires n.x0 == None && n.x1 == None && n.y0 == None && n.y1 == None
    requires Indexed(prev, idx) && n !in idx && Covers(prev, made)
    ensures nodes + row == nodes + prev + [n]
    ensures Built(row, Row(ds[..s + 1], layer)) && Laid(row, Row(ds[..s + 1], layer))
    ensures Row(ds[..s + 1], layer) == Row(ds[..s], layer) + [Made(ds[s], NodeLayer(ds[s], layer))]
    ensures Indexed(row, idx[n := |prev|]) && Covers(row, made + {n, n.missingIn, n.missingOut})
  {
    IndexedSnoc(prev, idx, n);
    CoversJoin(prev, made, [n], {n, n.missingIn, n.missingOut});
    assert Row(ds[..s + 1], layer) == Row(ds[..s], layer) + [Made(ds[s], NodeLayer(ds[s], layer))];
  }

  /**
   * `ds.map(d => asNode(d, layer))`: one new node per input, each with its own three new id
   * sets, appended to the graph's nodes with their lookup entries.
   */
  method AddRow(st: Store, ghost edges: seq<Edge>, ghost roles: map<OverlapHelper, Role>, ds: seq<NodeInput>,
                layer: Option<nat>)
    returns (row: seq<InternalNode>, st': Store, ghost roles': map<OverlapHelper, Role>, ghost idx: map<InternalNode, nat>,
             ghost made: set<object>)
    requires StoreOk(st, edges, roles)
    ensures StoreOk(st', edges, roles')
    ensures st'.nodes == st.nodes + row && st'.links == st.links
    ensures Built(row, Row(ds, layer)) && Laid(row, Row(ds, layer))
    ensures Indexed(row, idx) && Covers(row, made) && fresh(made)
  {
    row, st', roles', idx, made := [], st, roles, map[], {};
    for s := 0 to |ds|
      invariant StoreOk(st', edges, roles')
      invariant st'.nodes == st.nodes + row && st'.links == st.links
      invariant Built(row, Row(ds[..s], layer)) && Laid(row, Row(ds[..s], layer))
      invariant Indexed(row, idx) && Covers(row, made) && fresh(made)
    {
      row, st', roles', idx, made := Grow(st.nodes, row, st', edges, roles', idx, made, ds, s, layer);
    }
    assert ds[..|ds|] == ds;
  }

  /** Where a node of the input layers sits: its layer and its index in that layer. */
  datatype Spot = Spot(level: nat, index: nat)

  /**
   * `T` is `transformedLevels` for the first `|T|` input layers: `T[i][s]` was built from node
   * `s` of layer `i`, and `pos` tells where each node sits, so no node sits in two places.
   */
  ghost predicate Tiers(T: seq<seq<InternalNode>>, layers: seq<LayerInput>, pos: map<InternalNode, Spot>)
  {
    && |T| <= |layers|
    && (forall i :: 0 <= i < |T| ==> |T[i]| == |layers[i].nodes|)
    && (forall i, s :: 0 <= i < |T| && 0 <= s < |T[i]| ==>
          FromInput(T[i][s], layers[i].nodes[s]) && T[i][s] in pos && pos[T[i][s]] == Spot(i, s))
  }

  /** All nodes of `T`, layer after layer. */
  function Flat(T: seq<seq<InternalNode>>): seq<InternalNode>
  {
    if T == [] then [] else Flat(T[..|T| - 1]) + T[|T| - 1]
  }

  /**
   * `data.layers.map((layer, i) => layer.nodes.map(d => asNode(d, i)))`: the nodes of every
   * input layer, built layer after layer and recorded in the graph.
   */
  method BuildTiers(st: Store, ghost roles: map<OverlapHelper, Role>, layers: seq<LayerInput>)
    returns (T: seq<seq<InternalNode>>, st': Store, ghost roles': map<OverlapHelper, Role>, ghost pos: map<InternalNode, Spot>,
             ghost made: set<object>)
    requires StoreOk(st, [], roles) && st.nodes == [] && st.links == []
    ensures StoreOk(st', [], roles') && st'.nodes == Flat(T) && st'.links == []
    ensures |T| == |layers| && Tiers(T, layers, pos)
    ensures Built(st'.nodes, TierPlan(layers)) && Laid(st'.nodes, TierPlan(layers))
    ensures Covers(st'.nodes, made) && fresh(made)
  {
    T, st', roles', pos, made := [], st, roles, map[], {};
    for i := 0 to |layers|
      invariant StoreOk(st', [], roles') && st'.nodes == Flat(T) && st'.links == []
      invariant |T| == i && Tiers(T, layers, pos)
      invariant Built(st'.nodes, TierPlan(layers[..i])) && Laid(st'.nodes, TierPlan(layers[..i]))
      invariant Covers(st'.nodes, made) && fresh(made)
    {
      T, st', roles', pos, made := BuildTier(T, st', roles', pos, made, layers, i);
    }
    assert layers[..|layers|] == layers;
  }

  /** One pass of `BuildTiers`: the nodes of input layer `i`. */
  method BuildTier(T: seq<seq<InternalNode>>, st: Store, ghost roles: map<OverlapHelper, Role>,
                   ghost pos: map<InternalNode, Spot>, ghost made: set<object>, layers: seq<LayerInput>, i: nat)
    returns (T': seq<seq<InternalNode>>, st': Store, ghost roles': map<OverlapHelper, Role>, ghost pos': map<InternalNode, Spot>,
             ghost made': set<object>)
    requires i < |layers| && StoreOk(st, [], roles) && st.nodes == Flat(T) && st.links == [] && Covers(st.nodes, made)
    requires |T| == i && Tiers(T, layers, pos)
    requires Built(st.nodes, TierPlan(layers[..i])) && Laid(st.nodes, TierPlan(layers[..i]))
    ensures StoreOk(st', [], roles') && st'.nodes == Flat(T') && st'.links == []
    ensures |T'| == i + 1 && Tiers(T', layers, pos')
    ensures Built(st'.nodes, TierPlan(layers[..i + 1])) && Laid(st'.nodes, TierPlan(layers[..i + 1]))
    ensures Covers(st'.nodes, made') && made <= made'
    ensures forall o :: o in made' && o !in made ==> fresh(o)
  {
    var row;
    ghost var idx, rm;
    row, st', roles', idx, rm := AddRow(st, [], roles, layers[i].nodes, Some(i));
    made' := made + rm;
    Joined(made, rm);
    Unborn(pos, rm);
    T' := T + [row];
    pos' := pos + map n | n in idx :: Spot(i, idx[n]);
    TierStep(T, layers, pos, made, row, idx, rm, pos');
  }

  /** The bookkeeping of one pass of `BuildTiers`, once the row is built. */
  lemma TierStep(T: seq<seq<InternalNode>>, layers: seq<LayerInput>, pos: map<InternalNode, Spot>, made: set<object>,
                 row: seq<InternalNode>, idx: map<InternalNode, nat>, rm: set<object>, pos': map<InternalNode, Spot>)
    requires |T| < |layers| && Tiers(T, layers, pos) && Covers(Flat(T), made)
    requires Built(Flat(T), TierPlan(layers[..|T|])) && Laid(Flat(T), TierPlan(layers[..|T|]))
    requires Built(row, Row(layers[|T|].nodes, Some(|T|))) && Laid(row, Row(layers[|T|].nodes, Some(|T|)))
    requires Indexed(row, idx) && Covers(row, rm) && forall n :: n in pos ==> n !in rm
    requires pos' == pos + map n | n in idx :: Spot(|T|, idx[n])
    ensures Flat(T + [row]) == Flat(T) + row && Tiers(T + [row], layers, pos') && Covers(Flat(T) + row, made + rm)
    ensures Built(Flat(T) + row, TierPlan(layers[..|T| + 1])) && Laid(Flat(T) + row, TierPlan(layers[..|T| + 1]))
  {
    CoversJoin(Flat(T), made, row, rm);
    TiersSnoc(T, layers, pos, row, idx, pos');
    PlanSnoc(layers, |T|);
    assert (T + [row])[..|T|] == T;
    BuiltConcat(Flat(T), TierPlan(layers[..|T|]), row, Row(layers[|T|].nodes, Some(|T|)));
    LaidConcat(Flat(T), TierPlan(layers[..|T|]), row, Row(layers[|T|].nodes, Some(|T|)));
  }

  /** Besides `made`, `made + rm` holds only objects made since the start when `rm` does. */
  twostate lemma Joined(made: set<object>, new rm: set<object>)
    requires fresh(rm)
    ensures forall o :: o in made + rm && o !in made ==> fresh(o)
  {
  }

  /** No node placed before the start is among objects made since. */
  twostate lemma Unborn(pos: map<InternalNode, Spot>, new rm: set<object>)
    requires fresh(rm)
    ensures forall n :: n in pos ==> n !in rm
  {
  }

  lemma PlanSnoc(layers: seq<LayerInput>, i: nat)
    requires i < |layers|
    ensures TierPlan(layers[..i + 1]) == TierPlan(layers[..i]) + Row(layers[i].nodes, Some(i))
  {
    assert layers[..i + 1][..i] == layers[..i];
  }

  lemma TiersSnoc(T: seq<seq<InternalNode>>, layers: seq<LayerInput>, pos: map<InternalNode, Spot>,
                  row: seq<InternalNode>, idx: map<InternalNode, nat>, pos': map<InternalNode, Spot>)
    requires Tiers(T, layers, pos) && |T| < |layers| && Indexed(row, idx)
    requires Built(row, Row(layers[|T|].nodes, Some(|T|)))
    requires forall n :: n in idx ==> n !in pos
    requires pos' == pos + map n | n in idx :: Spot(|T|, idx[n])
    ensures Tiers(T + [row], layers, pos')
  {
    var T' := T + [row];
    forall i, s | 0 <= i < |T'| && 0 <= s < |T'[i]|
      ensures FromInput(T'[i][s], layers[i].nodes[s]) && T'[i][s] in pos' && pos'[T'[i][s]] == Spot(i, s)
    {
      if i < |T| {
        assert T'[i] == T[i];
        assert T[i][s] !in idx;
      }
    }
  }

  /** The outgoing missing sets of `nodes`: what linking them may deplete. */
  function Outs(nodes: seq<InternalNode>): set<OverlapHelper>
  {
    set n | n in nodes :: n.missingOut
  }

  /** The incoming missing sets of `nodes`. */
  function Ins(nodes: seq<InternalNode>): set<OverlapHelper>
  {
    set n | n in nodes :: n.missingIn
  }

  /** `L` lists the id lists of the input layers' nodes. */
  ghost predicate IdsOf(L: seq<seq<seq<Id>>>, layers: seq<LayerInput>)
  {
    && |L| == |layers|
    && (forall i :: 0 <= i < |L| ==> |L[i]| == |layers[i].nodes|)
    && (forall i, s :: 0 <= i < |L| && 0 <= s < |L[i]| ==> L[i][s] == layers[i].nodes[s].ids)
  }

  /** `T` has the shape of `L`. */
  predicate Fits(T: seq<seq<InternalNode>>, L: seq<seq<seq<Id>>>)
  {
    |T| == |L| && forall i :: 0 <= i < |T| ==> |T[i]| == |L[i]|
  }

  /** The nodes of `T` carry the ids `L` lists, and all of them are nodes of the graph. */
  ghost predicate Over(T: seq<seq<InternalNode>>, L: seq<seq<seq<Id>>>, nodes: seq<InternalNode>)
  {
    Fits(T, L) && forall i, s :: 0 <= i < |T| && 0 <= s < |T[i]| ==> T[i][s].ids == L[i][s] && T[i][s] in nodes
  }

  /** The link the layered walk found as `c`, as an edge between node objects. */
  function EdgeOf(T: seq<seq<InternalNode>>, L: seq<seq<seq<Id>>>, c: Cand): Edge
    requires Fits(T, L) && InRange(L, c)
  {
    Edge(T[c.level][c.src], T[c.level + 1][c.tgt], Overlap(L[c.level][c.src], L[c.level + 1][c.tgt]))
  }

  /** `edges` are the links of the candidates `cs`, one each, in order. */
  ghost predicate EdgesFor(T: seq<seq<InternalNode>>, L: seq<seq<seq<Id>>>, edges: seq<Edge>, cs: seq<Cand>)
  {
    Fits(T, L) && |edges| == |cs| &&
    forall k :: 0 <= k < |cs| ==> InRange(L, cs[k]) && edges[k] == EdgeOf(T, L, cs[k])
  }

  lemma EdgesForSnoc(T: seq<seq<InternalNode>>, L: seq<seq<seq<Id>>>, edges: seq<Edge>, cs: seq<Cand>, c: Cand)
    requires EdgesFor(T, L, edges, cs) && InRange(L, c)
    ensures EdgesFor(T, L, edges + [EdgeOf(T, L, c)], cs + [c])
  {
  }

  /** A node of the graph holds its own ids in its id set. */
  lemma OverlapOk(st: Store, edges: seq<Edge>, roles: map<OverlapHelper, Role>, n: InternalNode)
    requires StoreOk(st, edges, roles) && n in st.nodes
    ensures n.overlap.Valid() && n.overlap.items == Dedup(n.ids)
  {
    var k :| 0 <= k < |st.nodes| && st.nodes[k] == n;
    assert Owned(st.nodes[k], roles);
    assert RoleOk(n.overlap, roles[n.overlap], edges);
  }

  /** A node's missing sets hold its ids that no link of `edges` takes in or out. */
  lemma MissingOk(st: Store, edges: seq<Edge>, roles: map<OverlapHelper, Role>, n: InternalNode)
    requires StoreOk(st, edges, roles) && n in st.nodes
    ensures n.missingIn.items == Without(Dedup(n.ids), InOf(edges, n))
    ensures n.missingOut.items == Without(Dedup(n.ids), OutOf(edges, n))
  {
    var k :| 0 <= k < |st.nodes| && st.nodes[k] == n;
    assert Owned(st.nodes[k], roles);
    assert RoleOk(n.missingIn, roles[n.missingIn], edges);
    assert RoleOk(n.missingOut, roles[n.missingOut], edges);
  }

  /**
   * The link loops over the input layers: every node of layer `i` is tried against every
   * node of layer `i + 1`, and `asLink` keeps the pairs whose id sets overlap.
   */
  method LinkTiers(st: Store, ghost roles: map<OverlapHelper, Role>, T: seq<seq<InternalNode>>, ghost L: seq<seq<seq<Id>>>)
    returns (st': Store, ghost edges: seq<Edge>, ghost roles': map<OverlapHelper, Role>)
    requires StoreOk(st, [], roles) && Over(T, L, st.nodes)
    modifies Outs(st.nodes)`items, Ins(st.nodes)`items
    ensures StoreOk(st', edges, roles') && st'.nodes == st.nodes
    ensures st'.lookup == NodeEntries(st'.nodes) + LinkEntries(st'.links)
    ensures EdgesFor(T, L, edges, Links(L))
  {
    st', edges, roles' := st, [], roles;
    if |T| == 0 {
      return;
    }
    for i := 0 to |T| - 1
      invariant StoreOk(st', edges, roles') && st'.nodes == st.nodes
      invariant EdgesFor(T, L, edges, LevelLinks(L, i + 1))
    {
      st', edges, roles' := LinkLevel(st', edges, roles', T, L, i);
    }
  }

  /** The loop over the sources of layer `i`. */
  method LinkLevel(st: Store, ghost edges: seq<Edge>, ghost roles: map<OverlapHelper, Role>, T: seq<seq<InternalNode>>,
                   ghost L: seq<seq<seq<Id>>>, i: nat)
    returns (st': Store, ghost edges': seq<Edge>, ghost roles': map<OverlapHelper, Role>)
    requires StoreOk(st, edges, roles) && Over(T, L, st.nodes) && i + 1 < |T|
    requires EdgesFor(T, L, edges, LevelLinks(L, i + 1))
    modifies Outs(st.nodes)`items, Ins(st.nodes)`items
    ensures StoreOk(st', edges', roles') && st'.nodes == st.nodes
    ensures EdgesFor(T, L, edges', LevelLinks(L, i + 2))
  {
    st', edges', roles' := st, edges, roles;
    ghost var cands := LevelLinks(L, i + 1);
    WalkLevel(L, i);
    for s := 0 to |T[i]|
      invariant StoreOk(st', edges', roles') && st'.nodes == st.nodes
      invariant cands == SrcWalked(L, i, s) && EdgesFor(T, L, edges', cands)
    {
      WalkStart(L, i, s);
      st', edges', roles', cands := LinkSource(st', edges', roles', T, L, i, s, cands);
      WalkSourceDone(L, i, s);
    }
  }

  /** The loop over the targets of source `s` of layer `i`. */
  method LinkSource(st: Store, ghost edges: seq<Edge>, ghost roles: map<OverlapHelper, Role>, T: seq<seq<InternalNode>>,
                    ghost L: seq<seq<seq<Id>>>, i: nat, s: nat, ghost cands: seq<Cand>)
    returns (st': Store, ghost edges': seq<Edge>, ghost roles': map<OverlapHelper, Role>, ghost cands': seq<Cand>)
    requires StoreOk(st, edges, roles) && Over(T, L, st.nodes) && i + 1 < |T| && s < |T[i]|
    requires cands == Walked(L, i, s, 0) && EdgesFor(T, L, edges, cands)
    modifies Outs(st.nodes)`items, Ins(st.nodes)`items
    ensures StoreOk(st', edges', roles') && st'.nodes == st.nodes
    ensures cands' == Walked(L, i, s, |T[i + 1]|) && EdgesFor(T, L, edges', cands')
  {
    st', edges', roles', cands' := st, edges, roles, cands;
    for t := 0 to |T[i + 1]|
      invariant StoreOk(st', edges', roles') && st'.nodes == st.nodes
      invariant cands' == Walked(L, i, s, t) && EdgesFor(T, L, edges', cands')
    {
      st', edges', roles', cands' := LinkPair(st', edges', roles', T, L, i, s, t, cands');
    }
  }

  /** `asLink(source, target, source.overlap.intersect(target.overlap))` for one pair. */
  method LinkPair(st: Store, ghost edges: seq<Edge>, ghost roles: map<OverlapHelper, Role>, T: seq<seq<InternalNode>>,
                  ghost L: seq<seq<seq<Id>>>, i: nat, s: nat, t: nat, ghost cands: seq<Cand>)
    returns (st': Store, ghost edges': seq<Edge>, ghost roles': map<OverlapHelper, Role>, ghost cands': seq<Cand>)
    requires StoreOk(st, edges, roles) && Over(T, L, st.nodes) && i + 1 < |T| && s < |T[i]| && t < |T[i + 1]|
    requires cands == Walked(L, i, s, t) && EdgesFor(T, L, edges, cands)
    modifies Outs(st.nodes)`items, Ins(st.nodes)`items
    ensures StoreOk(st', edges', roles') && st'.nodes == st.nodes
    ensures cands' == Walked(L, i, s, t + 1) && EdgesFor(T, L, edges', cands')
  {
    ghost var items;
    PairNext(T, L, edges, cands, i, s, t);
    st', edges', roles', items := Pair(st, edges, roles, T[i][s], T[i + 1][t]);
    cands' := if items == [] then cands else cands + [Cand(i, s, t)];
  }

  /** `asLink(source, target, source.overlap.intersect(target.overlap))`. */
  method Pair(st: Store, ghost edges: seq<Edge>, ghost roles: map<OverlapHelper, Role>, source: InternalNode, target: InternalNode)
    returns (st': Store, ghost edges': seq<Edge>, ghost roles': map<OverlapHelper, Role>, ghost items: seq<Id>)
    requires StoreOk(st, edges, roles) && source in st.nodes && target in st.nodes
    modifies source.missingOut`items, target.missingIn`items
    ensures StoreOk(st', edges', roles') && st'.nodes == st.nodes
    ensures items == Overlap(source.ids, target.ids)
    ensures items == [] ==> edges' == edges
    ensures items != [] ==> edges' == edges + [Edge(source, target, items)]
  {
    OverlapOk(st, edges, roles, source);
    OverlapOk(st, edges, roles, target);
    var overlap := Meet(source, target);
    items := overlap.items;
    var l;
    l, st', edges', roles' := AsLink(st, edges, roles, source, target, overlap);
  }

  /** `source.overlap.intersect(target.overlap)`: the ids the two nodes share, in the target's order. */
  method Meet(source: InternalNode, target: InternalNode) returns (overlap: OverlapHelper)
    requires source.overlap.Valid() && source.overlap.items == Dedup(source.ids)
    requires target.overlap.Valid() && target.overlap.items == Dedup(target.ids)
    ensures fresh(overlap) && overlap.Valid() && overlap.items == Overlap(source.ids, target.ids)
  {
    overlap := source.overlap.Intersect(target.overlap);
    DedupProps(source.ids);
  }

  /** The bookkeeping of one step of the link loops, apart from the heap. */
  lemma PairNext(T: seq<seq<InternalNode>>, L: seq<seq<seq<Id>>>, edges: seq<Edge>, cands: seq<Cand>, i: nat, s: nat, t: nat)
    requires Fits(T, L) && i + 1 < |T| && s < |T[i]| && t < |T[i + 1]|
    requires cands == Walked(L, i, s, t) && EdgesFor(T, L, edges, cands)
    ensures Overlap(L[i][s], L[i + 1][t]) == [] ==> Walked(L, i, s, t + 1) == cands
    ensures Overlap(L[i][s], L[i + 1][t]) != [] ==>
      && Walked(L, i, s, t + 1) == cands + [Cand(i, s, t)]
      && EdgesFor(T, L, edges + [Edge(T[i][s], T[i + 1][t], Overlap(L[i][s], L[i + 1][t]))], cands + [Cand(i, s, t)])
  {
    OverlapNonEmpty(L[i][s], L[i + 1][t]);
    WalkStep(L, i, s, t);
    if Overlap(L[i][s], L[i + 1][t]) != [] {
      EdgesForSnoc(T, L, edges, cands, Cand(i, s, t));
    }
  }

  /** `pos` tells every node of `T` by its place: so no node of `T` stands in two places. */
  ghost predicate Placed(T: seq<seq<InternalNode>>, pos: map<InternalNode, Spot>)
  {
    forall i, s :: 0 <= i < |T| && 0 <= s < |T[i]| ==> T[i][s] in pos && pos[T[i][s]] == Spot(i, s)
  }

  /** The link of candidate `c` leaves node `s` of layer `i` exactly when `c` starts there. */
  lemma EdgeFrom(T: seq<seq<InternalNode>>, L: seq<seq<seq<Id>>>, pos: map<InternalNode, Spot>, c: Cand, i: nat, s: nat)
    requires Fits(T, L) && InRange(L, c) && Placed(T, pos) && i < |T| && s < |T[i]|
    ensures EdgeOf(T, L, c).src == T[i][s] <==> c.level == i && c.src == s
    ensures ToSet(EdgeOf(T, L, c).items) == Carried(L, c)
  {
    assert pos[T[c.level][c.src]] == Spot(c.level, c.src);
    OverlapProps(L[c.level][c.src], L[c.level + 1][c.tgt]);
  }

  /** The link of candidate `c` enters node `t` of layer `j` exactly when `c` ends there. */
  lemma EdgeInto(T: seq<seq<InternalNode>>, L: seq<seq<seq<Id>>>, pos: map<InternalNode, Spot>, c: Cand, j: nat, t: nat)
    requires Fits(T, L) && InRange(L, c) && Placed(T, pos) && j < |T| && t < |T[j]|
    ensures EdgeOf(T, L, c).tgt == T[j][t] <==> c.level + 1 == j && c.tgt == t
    ensures ToSet(EdgeOf(T, L, c).items) == Carried(L, c)
  {
    assert pos[T[c.level + 1][c.tgt]] == Spot(c.level + 1, c.tgt);
    OverlapProps(L[c.level][c.src], L[c.level + 1][c.tgt]);
  }

  /** The ids the links of the layered walk take out of node `s` of layer `i`. */
  lemma {:induction false} EdgesOut(T: seq<seq<InternalNode>>, L: seq<seq<seq<Id>>>, edges: seq<Edge>, cs: seq<Cand>,
                                    pos: map<InternalNode, Spot>, i: nat, s: nat)
    requires EdgesFor(T, L, edges, cs) && Placed(T, pos) && i < |T| && s < |T[i]|
    ensures OutOf(edges, T[i][s]) == OutUnion(L, cs, i, s)
  {
    if cs != [] {
      var n := |cs| - 1;
      assert EdgesFor(T, L, edges[..n], cs[..n]);
      EdgesOut(T, L, edges[..n], cs[..n], pos, i, s);
      EdgeFrom(T, L, pos, cs[n], i, s);
    }
  }

  /**
   * The ids the links of the layered walk bring into node `t` of layer `j`: none on the first
   * layer.
   */
  lemma {:induction false} EdgesIn(T: seq<seq<InternalNode>>, L: seq<seq<seq<Id>>>, edges: seq<Edge>, cs: seq<Cand>,
                                   pos: map<InternalNode, Spot>, j: nat, t: nat)
    requires EdgesFor(T, L, edges, cs) && Placed(T, pos) && j < |T| && t < |T[j]|
    ensures InOf(edges, T[j][t]) == if j == 0 then {} else InUnion(L, cs, j - 1, t)
  {
    if cs != [] {
      var n := |cs| - 1;
      assert EdgesFor(T, L, edges[..n], cs[..n]);
      EdgesIn(T, L, edges[..n], cs[..n], pos, j, t);
      EdgeInto(T, L, pos, cs[n], j, t);
    }
  }

  /** The index of the last planned node with id `id`: the node `lookupNode` keeps for it. */
  function LastMade(plan: seq<Made>, id: string): (r: Option<nat>)
    ensures r.Some? ==> r.value < |plan| && plan[r.value].d.id == id
    ensures r.Some? ==> forall j :: r.value < j < |plan| ==> plan[j].d.id != id
    ensures r.None? ==> forall j :: 0 <= j < |plan| ==> plan[j].d.id != id
  {
    if plan == [] then None
    else if plan[|plan| - 1].d.id == id then Some(|plan| - 1)
    else LastMade(plan[..|plan| - 1], id)
  }

  /** Looking a node up among the built nodes is looking it up in their plan. */
  lemma {:induction false} LastAgrees(nodes: seq<InternalNode>, plan: seq<Made>, id: string)
    requires Built(nodes, plan)
    ensures LastWithId(nodes, id) == LastMade(plan, id)
  {
    if plan != [] {
      var n := |plan| - 1;
      assert Built(nodes[..n], plan[..n]);
      LastAgrees(nodes[..n], plan[..n], id);
    }
  }

  /** An explicit link as built: the indices of its two ends among the nodes, and its ids. */
  datatype Wire = Wire(src: nat, tgt: nat, items: seq<Id>)

  /** The ids explicit link `l` carries between nodes with ids `a` and `b`. */
  function Carry(l: LinkInput, a: seq<Id>, b: seq<Id>): seq<Id>
  {
    if l.ids.Some? then Dedup(l.ids.value) else Overlap(a, b)
  }

  /** The wires lie between nodes of a plan of length `n`. */
  predicate WiresIn(ws: seq<Wire>, n: nat)
  {
    forall k :: 0 <= k < |ws| ==> ws[k].src < n && ws[k].tgt < n
  }

  /**
   * What explicit link `l` adds: a wire when both of its ends exist and it carries an id,
   * nothing when it carries none, and `None` when the source would dereference a missing end.
   * A link that names its own empty id list leaves before touching its ends.
   */
  function WireOf(plan: seq<Made>, l: LinkInput): (r: Option<seq<Wire>>)
    ensures r.Some? ==> |r.value| <= 1 && WiresIn(r.value, |plan|)
  {
    var a, b := LastMade(plan, l.source), LastMade(plan, l.target);
    if a.Some? && b.Some? then
      var items := Carry(l, plan[a.value].d.ids, plan[b.value].d.ids);
      Some(if items == [] then [] else [Wire(a.value, b.value, items)])
    else if l.ids == Some([]) then Some([])
    else None
  }

  /** The wires of the explicit links, in order, or `None` when one of them fails. */
  function Wires(plan: seq<Made>, links: seq<LinkInput>): (r: Option<seq<Wire>>)
    ensures r.Some? ==> WiresIn(r.value, |plan|)
  {
    if links == [] then Some([])
    else
      match Wires(plan, links[..|links| - 1])
      case None => None
      case Some(ws) =>
        match WireOf(plan, links[|links| - 1])
        case None => None
        case Some(w) => Some(ws + w)
  }

  /** `edges` are the wires `ws` between `nodes`, one each, in order. */
  ghost predicate WiredBy(nodes: seq<InternalNode>, edges: seq<Edge>, ws: seq<Wire>)
  {
    |edges| == |ws| && WiresIn(ws, |nodes|) &&
    forall k :: 0 <= k < |ws| ==> edges[k] == Edge(nodes[ws[k].src], nodes[ws[k].tgt], ws[k].items)
  }

  /** Once an explicit link fails, `extractGraph` fails, whatever follows. */
  lemma {:induction false} WiresFail(plan: seq<Made>, links: seq<LinkInput>, k: nat)
    requires k <= |links| && Wires(plan, links[..k]).None?
    ensures Wires(plan, links).None?
  {
    if k < |links| {
      var n := |links| - 1;
      assert links[..n][..k] == links[..k];
      WiresFail(plan, links[..n], k);
    } else {
      assert links[..k] == links;
    }
  }

  /** One more explicit link. */
  lemma WiresNext(plan: seq<Made>, links: seq<LinkInput>, k: nat)
    requires k < |links|
    ensures Wires(plan, links[..k + 1])
      == if Wires(plan, links[..k]).None? || WireOf(plan, links[k]).None? then None
         else Some(Wires(plan, links[..k]).value + WireOf(plan, links[k]).value)
  {
    assert links[..k + 1][..k] == links[..k];
  }

  /**
   * `data.nodes.forEach(d => asNode(d))`: the explicit nodes, with no layer of their own unless
   * they name one.
   */
  method AddNodes(st: Store, ghost edges: seq<Edge>, ghost roles: map<OverlapHelper, Role>, nodes: Option<seq<NodeInput>>)
    returns (st': Store, ghost roles': map<OverlapHelper, Role>, ghost row: seq<InternalNode>, ghost made: set<object>)
    requires StoreOk(st, edges, roles)
    ensures StoreOk(st', edges, roles') && st'.links == st.links
    ensures st'.nodes == st.nodes + row
    ensures Covers(row, made) && fresh(made)
    ensures var plan := if nodes.Some? then Row(nodes.value, None) else [];
      Built(row, plan) && Laid(row, plan)
  {
    st', roles', row, made := st, roles, [], {};
    if nodes.Some? {
      ghost var idx;
      row, st', roles', idx, made := AddRow(st, edges, roles, nodes.value, None);
    } else {
      assert st'.nodes == st.nodes + [];
    }
  }

  lemma WiredConcat(nodes: seq<InternalNode>, a: seq<Edge>, ws: seq<Wire>, b: seq<Edge>, vs: seq<Wire>)
    requires WiredBy(nodes, a, ws) && WiredBy(nodes, b, vs)
    ensures WiredBy(nodes, a + b, ws + vs)
  {
  }

  /**
   * What one explicit link does to the graph's `nodes`: when `lookupNode` finds both ends it
   * adds the link, unless its id set is empty; otherwise only a link naming its own empty id
   * list goes through, adding nothing.
   */
  ghost predicate Attached(nodes: seq<InternalNode>, l: LinkInput, ok: bool, added: seq<Edge>)
  {
    var a, b := LastWithId(nodes, l.source), LastWithId(nodes, l.target);
    if a.Some? && b.Some? then
      var items := Carry(l, nodes[a.value].ids, nodes[b.value].ids);
      ok && added == (if items == [] then [] else [Edge(nodes[a.value], nodes[b.value], items)])
    else
      ok == (l.ids == Some([])) && added == []
  }

  /** On nodes built from `plan`, that is the wire `WireOf` plans for the link. */
  lemma AttachedWire(nodes: seq<InternalNode>, plan: seq<Made>, l: LinkInput, ok: bool, added: seq<Edge>)
    requires Built(nodes, plan) && Attached(nodes, l, ok, added)
    ensures ok <==> WireOf(plan, l).Some?
    ensures ok ==> WiredBy(nodes, added, WireOf(plan, l).value)
  {
    LastAgrees(nodes, plan, l.source);
    LastAgrees(nodes, plan, l.target);
  }

  /**
   * One explicit link: `lookupNode` finds its two ends, its id set is its own ids or the ids
   * its ends share, and `asLink` adds it unless that set is empty. `ok` is false exactly when
   * the source would dereference a missing end.
   */
  method LinkOne(st: Store, ghost edges: seq<Edge>, ghost roles: map<OverlapHelper, Role>, l: LinkInput)
    returns (ok: bool, st': Store, ghost edges': seq<Edge>, ghost roles': map<OverlapHelper, Role>, ghost added: seq<Edge>)
    requires StoreOk(st, edges, roles)
    modifies Outs(st.nodes)`items, Ins(st.nodes)`items
    ensures Attached(st.nodes, l, ok, added)
    ensures ok ==> StoreOk(st', edges', roles') && st'.nodes == st.nodes && edges' == edges + added
  {
    var a, b := LastWithId(st.nodes, l.source), LastWithId(st.nodes, l.target);
    st', edges', roles', added := st, edges, roles, [];
    if a.Some? && b.Some? {
      var source, target := st.nodes[a.value], st.nodes[b.value];
      ghost var items;
      st', edges', roles', items := Connect(st, edges, roles, source, target, l.ids);
      if items != [] {
        added := [Edge(source, target, items)];
      }
      ok := true;
    } else {
      ok := l.ids == Some([]);
    }
  }

  /**
   * `asLink(source, target, overlap)` where `overlap` is `new OverlapHelper(ids)` when the
   * link names its ids, else the ids its two ends share.
   */
  method Connect(st: Store, ghost edges: seq<Edge>, ghost roles: map<OverlapHelper, Role>, source: InternalNode,
                 target: InternalNode, ids: Option<seq<Id>>)
    returns (st': Store, ghost edges': seq<Edge>, ghost roles': map<OverlapHelper, Role>, ghost items: seq<Id>)
    requires StoreOk(st, edges, roles) && source in st.nodes && target in st.nodes
    modifies source.missingOut`items, target.missingIn`items
    ensures StoreOk(st', edges', roles') && st'.nodes == st.nodes
    ensures items == if ids.Some? then Dedup(ids.value) else Overlap(source.ids, target.ids)
    ensures items == [] ==> edges' == edges
    ensures items != [] ==> edges' == edges + [Edge(source, target, items)]
  {
    if ids.Some? {
      var overlap := new OverlapHelper(ids.value);
      items := overlap.items;
      var l;
      l, st', edges', roles' := AsLink(st, edges, roles, source, target, overlap);
    } else {
      st', edges', roles', items := Pair(st, edges, roles, source, target);
    }
  }

  /** `data.links.forEach(...)`: the explicit links, in order, until one fails. */
  method AddLinks(st: Store, ghost edges: seq<Edge>, ghost roles: map<OverlapHelper, Role>, ghost plan: seq<Made>,
                  links: seq<LinkInput>)
    returns (ok: bool, st': Store, ghost edges': seq<Edge>, ghost roles': map<OverlapHelper, Role>, ghost added: seq<Edge>)
    requires StoreOk(st, edges, roles) && Built(st.nodes, plan)
    modifies Outs(st.nodes)`items, Ins(st.nodes)`items
    ensures ok <==> Wires(plan, links).Some?
    ensures ok ==> StoreOk(st', edges', roles') && st'.nodes == st.nodes
    ensures ok ==> edges' == edges + added && WiredBy(st.nodes, added, Wires(plan, links).value)
  {
    st', edges', roles', added := st, edges, roles, [];
    ghost var ws: seq<Wire> := [];
    for k := 0 to |links|
      invariant StoreOk(st', edges', roles') && st'.nodes == st.nodes
      invariant Wires(plan, links[..k]) == Some(ws)
      invariant edges' == edges + added && WiredBy(st.nodes, added, ws)
    {
      ghost var more;
      ok, st', edges', roles', more := LinkOne(st', edges', roles', links[k]);
      LinksStep(st.nodes, plan, links, k, ws, added, ok, more);
      if !ok {
        return;
      }
      Regroup(edges, added, more);
      added, ws := added + more, ws + WireOf(plan, links[k]).value;
    }
    assert links[..|links|] == links;
    ok := true;
  }

  /** The bookkeeping of one pass of the loop over the explicit links. */
  lemma LinksStep(nodes: seq<InternalNode>, plan: seq<Made>, links: seq<LinkInput>, k: nat, ws: seq<Wire>,
                  added: seq<Edge>, ok: bool, more: seq<Edge>)
    requires k < |links| && Built(nodes, plan) && Wires(plan, links[..k]) == Some(ws) && WiredBy(nodes, added, ws)
    requires Attached(nodes, links[k], ok, more)
    ensures !ok ==> Wires(plan, links).None?
    ensures ok ==> WireOf(plan, links[k]).Some?
    ensures ok ==> Wires(plan, links[..k + 1]) == Some(ws + WireOf(plan, links[k]).value)
    ensures ok ==> WiredBy(nodes, added + more, ws + WireOf(plan, links[k]).value)
  {
    AttachedWire(nodes, plan, links[k], ok, more);
    WiresNext(plan, links, k);
    if ok {
      WiredConcat(nodes, added, ws, more, WireOf(plan, links[k]).value);
    } else {
      WiresFail(plan, links, k + 1);
    }
  }

  lemma Regroup(a: seq<Edge>, b: seq<Edge>, c: seq<Edge>)
    ensures a + b + c == a + (b + c)
  {
  }

  /** The id lists of the input layers' nodes. */
  function IdLevels(layers: seq<LayerInput>): (L: seq<seq<seq<Id>>>)
    ensures IdsOf(L, layers)
  {
    seq(|layers|, i requires 0 <= i < |layers| =>
      seq(|layers[i].nodes|, s requires 0 <= s < |layers[i].nodes| => layers[i].nodes[s].ids))
  }

  lemma {:induction false} FlatHas(T: seq<seq<InternalNode>>, i: nat, s: nat)
    requires i < |T| && s < |T[i]|
    ensures T[i][s] in Flat(T)
  {
    var n := |T| - 1;
    if i < n {
      FlatHas(T[..n], i, s);
      assert T[..n][i] == T[i];
    } else {
      assert Flat(T)[|Flat(T[..n])| + s] == T[i][s];
    }
  }

  /** The layers as built hold the ids of the input layers and are all nodes of the graph. */
  lemma TiersOver(T: seq<seq<InternalNode>>, layers: seq<LayerInput>, pos: map<InternalNode, Spot>, nodes: seq<InternalNode>)
    requires |T| == |layers| && Tiers(T, layers, pos) && Flat(T) <= nodes
    ensures Over(T, IdLevels(layers), nodes) && Placed(T, pos)
  {
    forall i, s | 0 <= i < |T| && 0 <= s < |T[i]| ensures T[i][s] in nodes {
      FlatHas(T, i, s);
    }
  }

  /**
   * Layered input alone: a node's outgoing missing set holds its ids that no node of the next
   * layer holds; on the last layer that is every id.
   */
  lemma LayeredMissingOut(st: Store, edges: seq<Edge>, roles: map<OverlapHelper, Role>, T: seq<seq<InternalNode>>,
                          L: seq<seq<seq<Id>>>, pos: map<InternalNode, Spot>, i: nat, s: nat)
    requires StoreOk(st, edges, roles) && Over(T, L, st.nodes) && Placed(T, pos) && EdgesFor(T, L, edges, Links(L))
    requires i < |T| && s < |T[i]|
    ensures T[i][s].missingOut.items == Without(Dedup(L[i][s]), NextIds(L, i))
  {
    MissingOk(st, edges, roles, T[i][s]);
    EdgesOut(T, L, edges, Links(L), pos, i, s);
    MissingOutLayered(L, i, s);
  }

  /**
   * Layered input alone: a node's incoming missing set holds its ids that no node of the
   * previous layer holds; on the first layer that is every id.
   */
  lemma LayeredMissingIn(st: Store, edges: seq<Edge>, roles: map<OverlapHelper, Role>, T: seq<seq<InternalNode>>,
                         L: seq<seq<seq<Id>>>, pos: map<InternalNode, Spot>, i: nat, s: nat)
    requires StoreOk(st, edges, roles) && Over(T, L, st.nodes) && Placed(T, pos) && EdgesFor(T, L, edges, Links(L))
    requires i < |T| && s < |T[i]|
    ensures T[i][s].missingIn.items == Without(Dedup(L[i][s]), PrevIds(L, i))
  {
    MissingOk(st, edges, roles, T[i][s]);
    EdgesIn(T, L, edges, Links(L), pos, i, s);
    if 0 < i {
      MissingInLayered(L, i - 1, s);
    }
  }
}
