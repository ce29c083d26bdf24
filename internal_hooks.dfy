/**
 * The hooks of the current component (`src/lib/internal/sankey/hooks.ts`): the selection state
 * of `useSelections` (the committed selection the host owns, the hover slot, the extra coloured
 * selections and the events that change or emit them), and the part of `useSankeyLayout` that
 * is not the layout engine: the empty-graph branch, the layer records of the laid-out nodes and
 * the two maxima.
 */
module InternalHooks {
  import opened IdSeqs
  import opened Utils
  import opened InternalModel
  import opened InternalGraph
  import opened Layers
  import opened InternalLayers
  import opened InternalExtract
  import opened InternalSankey

  /**
   * The `data-id` and `data-type` attributes of the element an event comes from; either may be
   * absent.
   */
  datatype Target = Target(id: Option<string>, kind: Option<Kind>)

  /** `e.currentTarget.dataset.id ?? ''`. */
  function TargetId(t: Target): string
  {
    if t.id.Some? then t.id.value else ""
  }

  /** `e.currentTarget.dataset.type ?? 'node'`. */
  function TargetKind(t: Target): Kind
  {
    if t.kind.Some? then t.kind.value else NodeKind
  }

  /** An extra selection as the host passes it: a colour and its ids. */
  datatype Extra = Extra(color: string, ids: seq<Id>)

  /** `{...s, overlap}`: an extra selection with the id set built from its ids. */
  datatype Other = Other(color: string, ids: seq<Id>, overlap: OverlapHelper)

  /** The hover slot: the element under the pointer and the id set found for it. */
  datatype Hovered = Hovered(id: string, kind: Kind, overlap: OverlapHelper)

  /**
   * The ids the committed selection names: an array selection is its own list, a typed one
   * lists its `ids`, and no selection names none.
   */
  function ActiveIds(selection: Option<Selection>): (r: seq<Id>)
    ensures selection.Some? ==> r == selection.value.ids
    ensures selection.None? ==> r == []
  {
    match selection
    case None => []
    case Some(Ids(ids)) => ids
    case Some(Typed(_, _, ids)) => ids
  }

  /** `getOverlap(type, id).elems`: the ids stored under `type:id`, none when nothing is. */
  ghost function Found(g: Graph, k: Kind, id: string): seq<Id>
    reads g.lookup.Values
  {
    if Key(k, id) in g.lookup then g.lookup[Key(k, id)].items else []
  }

  /** Every id set the lookup of `g` holds lists each of its ids once. */
  ghost predicate LookupValid(g: Graph)
    reads g.lookup.Values
  {
    forall key :: key in g.lookup ==> g.lookup[key].Valid()
  }

  /**
   * The selections context's `isSelected(type, id)`: while an element is hovered, exactly that
   * element; otherwise the model's `isSelected` on the committed selection.
   */
  function Picked(hovered: Option<Hovered>, selection: Option<Selection>, k: Kind, id: string): bool
  {
    if hovered.Some? then hovered.value.id == id && hovered.value.kind == k else IsSelected(selection, k, id)
  }

  /** While an element is hovered, it is picked and nothing else is. */
  lemma PickedWhileHovering(h: Hovered, selection: Option<Selection>, k: Kind, id: string)
    ensures Picked(Some(h), selection, k, id) <==> k == h.kind && id == h.id
  {
  }

  /**
   * With nothing hovered, an array selection (or none) picks nothing, and a typed selection
   * picks exactly the element it names.
   */
  lemma PickedAtRest(selection: Option<Selection>, k: Kind, id: string)
    ensures selection.None? || selection.value.Ids? ==> !Picked(None, selection, k, id)
    ensures selection.Some? && selection.value.Typed? ==>
      (Picked(None, selection, k, id) <==> k == selection.value.kind && id == selection.value.id)
  {
  }

  /** At most one element is picked at a time. */
  lemma PickedUnique(hovered: Option<Hovered>, selection: Option<Selection>, k1: Kind, id1: string, k2: Kind, id2: string)
    requires Picked(hovered, selection, k1, id1) && Picked(hovered, selection, k2, id2)
    ensures k1 == k2 && id1 == id2
  {
  }

  /**
   * What a click on `(k, id)` emits in an indexed graph: the ids of the last node with that id
   * (its own set or one of its missing sets), of the last link with that id, or of the layer
   * whose index spells `id`; no ids for anything else.
   */
  lemma ClickedIds(g: Graph, k: Kind, id: string)
    requires Keyed(g)
    ensures NodeSide(k) && LastWithId(g.nodes, id).Some? ==> Found(g, k, id) == SetOf(g.nodes[LastWithId(g.nodes, id).value], k).items
    ensures NodeSide(k) && LastWithId(g.nodes, id).None? ==> Found(g, k, id) == []
    ensures k == LinkKind && LastLinkWithId(g.links, id).Some? ==>
      Found(g, k, id) == g.links[LastLinkWithId(g.links, id).value].overlap.items
    ensures k == LinkKind && LastLinkWithId(g.links, id).None? ==> Found(g, k, id) == []
    ensures k == LayerKind ==> forall j :: 0 <= j < g.length && id == NatToString(j) ==> Found(g, k, id) == g.layers[j].overlap.items
    ensures k == LayerKind && (forall j :: 0 <= j < g.length ==> id != NatToString(j)) ==> Found(g, k, id) == []
  {
    KeyedLookup(g, k, id);
  }

  /**
   * In an extracted graph, a node's id set lists its ids once each, and its missing sets list
   * those that no incoming (outgoing) link carries.
   */
  lemma NodeSets(data: GraphInput, g: Graph, edges: seq<Edge>, roles: map<OverlapHelper, Role>,
                 T: seq<seq<InternalNode>>, pos: map<InternalNode, Spot>, layered: seq<Edge>, added: seq<Edge>,
                 owners: map<OverlapHelper, nat>, i: nat)
    requires Extracted(data, g, edges, roles, T, pos, layered, added, owners) && i < |g.nodes|
    ensures var n := g.nodes[i];
      && n.overlap.items == Dedup(n.ids)
      && n.missingIn.items == Without(Dedup(n.ids), InOf(edges, n))
      && n.missingOut.items == Without(Dedup(n.ids), OutOf(edges, n))
  {
    var n := g.nodes[i];
    assert Owned(n, roles);
    assert RoleOk(n.overlap, roles[n.overlap], edges);
    assert RoleOk(n.missingIn, roles[n.missingIn], edges);
    assert RoleOk(n.missingOut, roles[n.missingOut], edges);
  }

  /**
   * A click on a node of an extracted graph selects its ids, once each; a click on its
   * missing-in (missing-out) bar selects the ids no incoming (outgoing) link carries.
   */
  lemma ClickedNode(data: GraphInput, g: Graph, edges: seq<Edge>, roles: map<OverlapHelper, Role>,
                    T: seq<seq<InternalNode>>, pos: map<InternalNode, Spot>, layered: seq<Edge>, added: seq<Edge>,
                    owners: map<OverlapHelper, nat>, id: string)
    requires Extracted(data, g, edges, roles, T, pos, layered, added, owners)
    requires LastWithId(g.nodes, id).Some?
    ensures var n := g.nodes[LastWithId(g.nodes, id).value];
      && Found(g, NodeKind, id) == Dedup(n.ids)
      && Found(g, MissingInKind, id) == Without(Dedup(n.ids), InOf(edges, n))
      && Found(g, MissingOutKind, id) == Without(Dedup(n.ids), OutOf(edges, n))
  {
    ExtractedKeyed(data, g, edges, roles, T, pos, layered, added, owners);
    NodeSets(data, g, edges, roles, T, pos, layered, added, owners, LastWithId(g.nodes, id).value);
    ClickedSets(g, id);
  }

  /** A click on a node-side element of a `Keyed` graph finds the set of the last node with that id. */
  lemma ClickedSets(g: Graph, id: string)
    requires Keyed(g) && LastWithId(g.nodes, id).Some?
    ensures var n := g.nodes[LastWithId(g.nodes, id).value];
      && Found(g, NodeKind, id) == n.overlap.items
      && Found(g, MissingInKind, id) == n.missingIn.items
      && Found(g, MissingOutKind, id) == n.missingOut.items
  {
    ClickedIds(g, NodeKind, id);
    ClickedIds(g, MissingInKind, id);
    ClickedIds(g, MissingOutKind, id);
  }

  /** The id sets of the nodes `ns`. */
  function NodeSetsOf(ns: seq<InternalNode>): set<OverlapHelper>
  {
    (set n | n in ns :: n.overlap) + (set n | n in ns :: n.missingIn) + (set n | n in ns :: n.missingOut)
  }

  /** Every set of `os` lists each of its ids once. */
  ghost predicate AllValid(os: set<OverlapHelper>)
    reads os
  {
    forall o :: o in os ==> o.Valid()
  }

  /** An extracted graph's lookup holds only well-formed id sets. */
  lemma ExtractedLookupValid(data: GraphInput, g: Graph, edges: seq<Edge>, roles: map<OverlapHelper, Role>,
                             T: seq<seq<InternalNode>>, pos: map<InternalNode, Spot>, layered: seq<Edge>, added: seq<Edge>,
                             owners: map<OverlapHelper, nat>)
    requires Extracted(data, g, edges, roles, T, pos, layered, added, owners)
    ensures LookupValid(g)
  {
    ExtractedKeyed(data, g, edges, roles, T, pos, layered, added, owners);
    StoreSets(Store(NodeEntries(g.nodes) + LinkEntries(g.links), g.nodes, g.links), edges, roles);
    LayerSetsValid(g.layers, owners, Aggregate(PlanEntries(g.nodes, Plan(data), data.layers)), g.length);
    LookupSets(g, roles.Keys);
  }

  /** Every set of a well-formed store carries a role, and so is well-formed. */
  lemma StoreSets(st: Store, edges: seq<Edge>, roles: map<OverlapHelper, Role>)
    requires StoreOk(st, edges, roles)
    ensures AllValid(roles.Keys) && NodeSetsOf(st.nodes) <= roles.Keys
    ensures forall j :: 0 <= j < |st.links| ==> st.links[j].overlap in roles.Keys
  {
    RolesValid(roles, edges);
    OwnedSets(st.nodes, st.links, roles);
  }

  lemma RolesValid(roles: map<OverlapHelper, Role>, edges: seq<Edge>)
    requires SetsOk(roles, edges)
    ensures AllValid(roles.Keys)
  {
    forall o | o in roles.Keys
      ensures o.Valid()
    {
      assert RoleOk(o, roles[o], edges);
    }
  }

  lemma OwnedSets(nodes: seq<InternalNode>, links: seq<InternalLink>, roles: map<OverlapHelper, Role>)
    requires AllOwned(nodes, links, roles)
    ensures NodeSetsOf(nodes) <= roles.Keys
    ensures forall j :: 0 <= j < |links| ==> links[j].overlap in roles.Keys
  {
    forall n | n in nodes
      ensures n.overlap in roles && n.missingIn in roles && n.missingOut in roles
    {
      var i :| 0 <= i < |nodes| && nodes[i] == n;
      assert Owned(nodes[i], roles);
    }
  }

  /** The id sets of the records that `Holds` describes are well-formed. */
  lemma LayerSetsValid(layers: map<nat, Layer<InternalNode>>, owners: map<OverlapHelper, nat>,
                       agg: map<nat, LayerVal<InternalNode>>, n: nat)
    requires Holds(layers, owners, agg) && forall j :: 0 <= j < n ==> j in layers
    ensures forall j :: 0 <= j < n ==> layers[j].overlap.Valid()
  {
  }

  /**
   * The lookup of a `Keyed` graph holds only sets of its nodes, its links and its layer
   * records, so it is well-formed when they are.
   */
  lemma LookupSets(g: Graph, os: set<OverlapHelper>)
    requires Keyed(g) && AllValid(os) && NodeSetsOf(g.nodes) <= os
    requires forall j :: 0 <= j < |g.links| ==> g.links[j].overlap in os
    requires forall j :: 0 <= j < g.length ==> g.layers[j].overlap.Valid()
    ensures LookupValid(g)
  {
    NodeEntriesIn(g.nodes, os);
    LinkEntriesIn(g.links, os);
    LayerIndexValid(NodeEntries(g.nodes) + LinkEntries(g.links), g.layers, g.length);
  }

  lemma {:induction false} NodeEntriesIn(ns: seq<InternalNode>, os: set<OverlapHelper>)
    requires NodeSetsOf(ns) <= os
    ensures forall key :: key in NodeEntries(ns) ==> NodeEntries(ns)[key] in os
  {
    if ns != [] {
      var init := ns[..|ns| - 1];
      assert NodeSetsOf(init) <= NodeSetsOf(ns);
      NodeEntriesIn(init, os);
    }
  }

  lemma {:induction false} LinkEntriesIn(ls: seq<InternalLink>, os: set<OverlapHelper>)
    requires forall j :: 0 <= j < |ls| ==> ls[j].overlap in os
    ensures forall key :: key in LinkEntries(ls) ==> LinkEntries(ls)[key] in os
  {
    if ls != [] {
      LinkEntriesIn(ls[..|ls| - 1], os);
    }
  }

  /** Adding the well-formed sets of the first `n` layer records keeps a lookup well-formed. */
  lemma {:induction false} LayerIndexValid(base: map<string, OverlapHelper>, layers: map<nat, Layer<InternalNode>>, n: nat)
    requires forall key :: key in base ==> base[key].Valid()
    requires forall j :: 0 <= j < n && j in layers ==> layers[j].overlap.Valid()
    ensures forall key :: key in LayerIndex(base, layers, n) ==> LayerIndex(base, layers, n)[key].Valid()
  {
    if n > 0 {
      LayerIndexValid(base, layers, n - 1);
    }
  }

  /**
   * `(selections ?? []).map((s) => ({...s, overlap: new OverlapHelper(s.ids)}))`: every extra
   * selection, in order and with its colour, gains a new id set of its own.
   */
  method BuildOthers(selections: seq<Extra>) returns (others: seq<Other>)
    ensures |others| == |selections|
    ensures forall j :: 0 <= j < |others| ==>
      others[j].color == selections[j].color && others[j].ids == selections[j].ids
      && fresh(others[j].overlap) && others[j].overlap.Valid() && others[j].overlap.items == Dedup(selections[j].ids)
    ensures forall i, j :: 0 <= i < j < |others| ==> others[i].overlap != others[j].overlap
  {
    others := [];
    for i := 0 to |selections|
      invariant |others| == i
      invariant forall j :: 0 <= j < i ==>
        others[j].color == selections[j].color && others[j].ids == selections[j].ids
        && fresh(others[j].overlap) && others[j].overlap.Valid() && others[j].overlap.items == Dedup(selections[j].ids)
      invariant forall a, b :: 0 <= a < b < i ==> others[a].overlap != others[b].overlap
    {
      var o := new OverlapHelper(selections[i].ids);
      others := others + [Other(selections[i].color, selections[i].ids, o)];
    }
  }

  /**
   * The state `useSelections` keeps for one mounted component: the props it was last rendered
   * with (the graph, the committed selection and the extra selections), what it derives from
   * them, and the hover slot, which is its own state and survives re-renders.
   */
  class Selections {
    var graph: Graph
    var selection: Option<Selection>
    /** `selectionOverlap`: the id set of the committed selection. */
    var selectionOverlap: OverlapHelper
    /** `selectionsOverlaps`, the `others` of the context. */
    var others: seq<Other>
    /** `hoveredSelection`. */
    var hovered: Option<Hovered>

    ghost function HoverSet(): set<OverlapHelper>
      reads this`hovered
    {
      if hovered.Some? then {hovered.value.overlap} else {}
    }

    ghost predicate Valid()
      reads this, graph.lookup.Values, selectionOverlap, HoverSet()
    {
      LookupValid(graph) && selectionOverlap.Valid() && (hovered.Some? ==> hovered.value.overlap.Valid())
    }

    /** The first render: nothing is hovered. */
    constructor (graph: Graph, selection: Option<Selection>, selections: seq<Extra>)
      requires LookupValid(graph)
      ensures Valid() && this.graph == graph && this.selection == selection && hovered == None
      ensures fresh(selectionOverlap) && selectionOverlap.items == Dedup(ActiveIds(selection))
      ensures |others| == |selections| && forall j :: 0 <= j < |others| ==>
        others[j].color == selections[j].color && others[j].ids == selections[j].ids && others[j].overlap.items == Dedup(selections[j].ids)
    {
      var o := new OverlapHelper(ActiveIds(selection));
      var os := BuildOthers(selections);
      this.graph, this.selection, selectionOverlap, others, hovered := graph, selection, o, os, None;
    }

    /**
     * A later render with new props: the derived sets are rebuilt from them, and the hover slot
     * keeps what it held, even an id set of the previous graph.
     */
    method Rerender(graph: Graph, selection: Option<Selection>, selections: seq<Extra>)
      requires Valid() && LookupValid(graph)
      modifies this`graph, this`selection, this`selectionOverlap, this`others
      ensures Valid() && this.graph == graph && this.selection == selection
      ensures fresh(selectionOverlap) && selectionOverlap.items == Dedup(ActiveIds(selection))
      ensures |others| == |selections| && forall j :: 0 <= j < |others| ==>
        others[j].color == selections[j].color && others[j].ids == selections[j].ids && others[j].overlap.items == Dedup(selections[j].ids)
    {
      this.graph, this.selection := graph, selection;
      selectionOverlap := new OverlapHelper(ActiveIds(selection));
      others := BuildOthers(selections);
    }

    /** The context's `isSelected(type, id)`. */
    function IsPicked(k: Kind, id: string): bool
      reads this`hovered, this`selection
    {
      Picked(hovered, selection, k, id)
    }

    /** The context's `overlap`: the lit ids, the hovered element's while one is hovered. */
    function Lit(): OverlapHelper
      reads this`hovered, this`selectionOverlap
    {
      if hovered.Some? then hovered.value.overlap else selectionOverlap
    }

    /**
     * `onMouseEnter`: the hovered element and its id set fill the hover slot; from then on it
     * is the one picked element and its set is lit. Nothing is emitted.
     */
    method OnMouseEnter(t: Target)
      requires Valid()
      modifies this`hovered
      ensures Valid() && hovered.Some? && hovered.value.id == TargetId(t) && hovered.value.kind == TargetKind(t)
      ensures Key(TargetKind(t), TargetId(t)) in graph.lookup ==> Lit() == graph.lookup[Key(TargetKind(t), TargetId(t))]
      ensures Key(TargetKind(t), TargetId(t)) !in graph.lookup ==> fresh(Lit()) && Lit().items == []
      ensures forall k, id :: IsPicked(k, id) <==> k == TargetKind(t) && id == TargetId(t)
    {
      var id, kind := TargetId(t), TargetKind(t);
      var overlap := GetOverlap(graph, kind, id);
      hovered := Some(Hovered(id, kind, overlap));
    }

    /**
     * `onMouseLeave`: the hover slot empties, so the committed selection decides what is
     * picked and lit again. Nothing is emitted.
     */
    method OnMouseLeave()
      requires Valid()
      modifies this`hovered
      ensures Valid() && hovered == None && Lit() == selectionOverlap
      ensures forall k, id :: IsPicked(k, id) == IsSelected(selection, k, id)
    {
      hovered := None;
    }

    /**
     * `onClick`: emits the typed selection of the clicked element, with the ids stored for it
     * in the graph; the hover slot stays as it is.
     */
    method OnClick(t: Target) returns (emitted: Selection)
      requires Valid()
      ensures emitted == Typed(TargetKind(t), TargetId(t), Found(graph, TargetKind(t), TargetId(t)))
    {
      var id, kind := TargetId(t), TargetKind(t);
      var overlap := GetOverlap(graph, kind, id);
      emitted := Typed(kind, id, overlap.Elems());
    }

    /** `resetSelection`: emits the empty array selection. */
    method ResetSelection() returns (emitted: Selection)
      ensures emitted == Ids([])
    {
      emitted := Ids([]);
    }
  }

  /** What the layout engine returns for copies of the graph's nodes and links. */
  datatype Laid = Laid(nodes: seq<InternalNode>, links: seq<InternalLink>, depths: seq<Option<nat>>)

  /**
   * The `layoutGraph` of `useSankeyLayout` as written: for a graph without nodes, empty
   * arrays and no call to the engine; otherwise the engine's nodes and links, with the layer
   * records extracted from the laid-out nodes, and `undefined` passed as the input layers
   * (`isArray(levels)` never holds for the object `levels`).
   */
  method LayoutAsWritten(graph: Graph, levels: GraphInput, engine: Laid)
    returns (nodes: seq<InternalNode>, links: seq<InternalLink>, layers: map<nat, Layer<InternalNode>>, len: nat,
             maxDepth: nat, maxLayerY1: Coord, ghost es: seq<Entry<InternalNode>>, ghost owners: map<OverlapHelper, nat>)
    requires |engine.depths| == |engine.nodes| && forall j :: 0 <= j < |engine.nodes| ==> engine.nodes[j].overlap.Valid()
    modifies engine.nodes`layer
    ensures graph.nodes == [] ==> nodes == [] && links == [] && layers == map[] && len == 0 && maxDepth == 0
    ensures graph.nodes != [] ==> nodes == engine.nodes && links == engine.links && maxDepth == MaxDepth(engine.depths)
    ensures graph.nodes != [] ==> es == old(EntriesOf(engine.nodes, Positions(engine.nodes), None))
    ensures graph.nodes != [] ==> Holds(layers, owners, Aggregate(es)) && len == Span(Keys(es))
    ensures maxLayerY1 == Peak(SlotY1s(layers, len))
  {
    nodes, links, layers, len, es, owners := [], [], map[], 0, [], map[];
    var depths: seq<Option<nat>> := [];
    if graph.nodes != [] {
      nodes, links, depths := engine.nodes, engine.links, engine.depths;
      layers, len, es, owners := ExtractLayers(nodes, None);
    }
    maxDepth := MaxDepth(depths);
    maxLayerY1 := Peak(SlotY1s(layers, len));
  }

  /** The same, with the input layers passed on, so the records carry their names. */
  method Layout(graph: Graph, levels: GraphInput, engine: Laid)
    returns (nodes: seq<InternalNode>, links: seq<InternalLink>, layers: map<nat, Layer<InternalNode>>, len: nat,
             maxDepth: nat, maxLayerY1: Coord, ghost es: seq<Entry<InternalNode>>, ghost owners: map<OverlapHelper, nat>)
    requires |engine.depths| == |engine.nodes| && forall j :: 0 <= j < |engine.nodes| ==> engine.nodes[j].overlap.Valid()
    modifies engine.nodes`layer
    ensures graph.nodes == [] ==> nodes == [] && links == [] && layers == map[] && len == 0 && maxDepth == 0
    ensures graph.nodes != [] ==> nodes == engine.nodes && links == engine.links && maxDepth == MaxDepth(engine.depths)
    ensures graph.nodes != [] ==> es == old(EntriesOf(engine.nodes, Positions(engine.nodes), levels.layers))
    ensures graph.nodes != [] ==> Holds(layers, owners, Aggregate(es)) && len == Span(Keys(es))
    ensures maxLayerY1 == Peak(SlotY1s(layers, len))
  {
    nodes, links, layers, len, es, owners := [], [], map[], 0, [], map[];
    var depths: seq<Option<nat>> := [];
    if graph.nodes != [] {
      nodes, links, depths := engine.nodes, engine.links, engine.depths;
      layers, len, es, owners := ExtractLayers(nodes, levels.layers);
    }
    maxDepth := MaxDepth(depths);
    maxLayerY1 := Peak(SlotY1s(layers, len));
  }

  /** The record of layer `k` extracted with the input layers `names` is named as layer `k` of them. */
  lemma RecordName(nodes: seq<InternalNode>, X: set<int>, names: Option<seq<LayerInput>>, k: nat)
    requires k in Aggregate(EntriesOf(nodes, X, names))
    ensures Aggregate(EntriesOf(nodes, X, names))[k].name == LayerName(names, k)
  {
    var es := EntriesOf(nodes, X, names);
    AggregateHead(es, k);
  }

  /**
   * As written, the laid-out layer `k` is always named `Layer k`: when the input names layer
   * `k` otherwise, the name shown is not the input's.
   */
  lemma AsWrittenNames(nodes: seq<InternalNode>, X: set<int>, names: seq<LayerInput>, k: nat)
    requires k in Aggregate(EntriesOf(nodes, X, None))
    ensures Aggregate(EntriesOf(nodes, X, None))[k].name == "Layer " + NatToString(k)
    ensures k < |names| && names[k].name != "Layer " + NatToString(k) ==>
      Aggregate(EntriesOf(nodes, X, None))[k].name != LayerName(Some(names), k)
  {
    RecordName(nodes, X, None, k);
  }

  /** With the input layers passed on, a named input layer keeps its name in the layout. */
  lemma CorrectedNames(nodes: seq<InternalNode>, X: set<int>, names: seq<LayerInput>, k: nat)
    requires k in Aggregate(EntriesOf(nodes, X, Some(names))) && k < |names|
    ensures Aggregate(EntriesOf(nodes, X, Some(names)))[k].name == names[k].name
  {
    RecordName(nodes, X, Some(names), k);
  }
}
