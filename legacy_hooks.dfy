/**
 * The hooks of the older Sankey component (`src/lib/components/sankey/hooks.ts`): the selection
 * context handed to the drawing code, and the layout of the graph built from the levels. The
 * hooks keep no state of their own; every value is derived from the props they are given.
 */
module LegacyHooks {
  import opened IdSeqs
  import opened Utils
  import opened Layers
  import opened LegacyModel
  import D = DashSankey
  import H = InternalHooks

  /**
   * The ids the committed selection names: an array selection is its own list, a typed one
   * lists its `ids`, and no selection names none.
   */
  function ActiveIds(selection: Option<Selection>): (r: seq<Id>)
    ensures selection.Some? ==> r == selection.value.ids
    ensures selection.None? ==> r == []
  {
    match selection
    case None => []
    case Some(Ids(ids)) => ids
    case Some(Typed(_, _, ids)) => ids
  }

  /**
   * `select(type, id, ids)`: the typed selection a click emits, whose `ids` are the members of
   * a helper, each once, or the given list unchanged.
   */
  function Select(k: Kind, id: string, p: D.Picked): (r: Selection)
    requires p.Helper? ==> p.h.Valid()
    reads if p.Helper? then {p.h} else {}
    ensures r.Typed? && r.kind == k && r.id == id
    ensures p.Helper? ==> r.ids == p.h.items && Distinct(r.ids) && ToSet(r.ids) == p.h.Members()
    ensures p.List? ==> r.ids == p.ids
  {
    Typed(k, id, D.Select(p))
  }

  /**
   * Once a selection emitted by `select(type, id, ids)` comes back as the committed one, the
   * clicked element is the only one picked, and the lit ids are the ones it carried.
   */
  lemma SelectThenPicked(k: Kind, id: string, p: D.Picked, k': Kind, id': string)
    requires p.Helper? ==> p.h.Valid()
    ensures IsSelected(Some(Select(k, id, p)), k', id') <==> k' == k && id' == id
    ensures ActiveIds(Some(Select(k, id, p))) == D.Select(p)
  {
  }

  /** `resetSelection`: emits a selection that picks no element and lights no id. */
  function ResetSelection(): (r: Selection)
    ensures ActiveIds(Some(r)) == []
    ensures forall k, id :: !IsSelected(Some(r), k, id)
  {
    Ids([])
  }

  /**
   * The selection context: the committed selection `isSelected` consults, the extra selections
   * with their id sets, and the id set of the committed selection.
   */
  datatype Context = Context(selection: Option<Selection>, others: seq<H.Other>, overlap: OverlapHelper)

  /**
   * `selectionContext`: a new id set for the committed selection's ids, and one for each extra
   * selection, which keep their order and colours.
   */
  method SelectionContext(selection: Option<Selection>, selections: seq<H.Extra>) returns (ctx: Context)
    ensures ctx.selection == selection
    ensures fresh(ctx.overlap) && ctx.overlap.Valid() && ctx.overlap.Members() == ToSet(ActiveIds(selection))
    ensures |ctx.others| == |selections|
    ensures forall j :: 0 <= j < |selections| ==>
      ctx.others[j].color == selections[j].color && ctx.others[j].ids == selections[j].ids
      && fresh(ctx.others[j].overlap) && ctx.others[j].overlap.Valid()
      && ctx.others[j].overlap.Members() == ToSet(selections[j].ids)
  {
    var overlap := new OverlapHelper(ActiveIds(selection));
    DedupProps(ActiveIds(selection));
    var others := H.BuildOthers(selections);
    forall j | 0 <= j < |selections|
      ensures others[j].overlap.Members() == ToSet(selections[j].ids)
    {
      DedupProps(selections[j].ids);
    }
    ctx := Context(selection, others, overlap);
  }

  /**
   * `isSelected(type, id)` of the context: decided by the committed selection alone, as this
   * component keeps no hover state.
   */
  function IsPicked(ctx: Context, k: Kind, id: string): (r: bool)
    ensures r <==> exists ids :: ctx.selection == Some(Typed(k, id, ids))
  {
    IsSelected(ctx.selection, k, id)
  }

  /** The `depth` the engine gave each node. */
  function Depths(ps: seq<Placed>): (ds: seq<Option<nat>>)
    ensures |ds| == |ps| && forall j :: 0 <= j < |ps| ==> ds[j] == ps[j].depth
  {
    seq(|ps|, j requires 0 <= j < |ps| => ps[j].depth)
  }

  /**
   * The `layoutGraph` of `useSankeyLayout` and the two reductions over it: without levels,
   * empty arrays and no call to the engine; otherwise the engine's nodes and links (`engine`,
   * `engineLinks`), with the layer records extracted from the laid-out nodes and named after the
   * levels. `maxDepth` is the greatest depth, `maxLayerY1` the greatest bottom of a layer.
   */
  method Layout(levels: seq<Level>, engine: seq<Placed>, engineLinks: seq<Link>)
    returns (nodes: seq<Placed>, links: seq<Link>, layers: map<nat, Layer<Placed>>, len: nat,
             maxDepth: nat, maxLayerY1: Coord, ghost es: seq<Entry<Placed>>, ghost owners: map<OverlapHelper, nat>)
    requires forall j :: 0 <= j < |engine| ==> engine[j].node.overlap.Valid()
    ensures levels == [] ==> nodes == [] && links == [] && layers == map[] && len == 0 && maxDepth == 0 && maxLayerY1 == Some(0)
    ensures levels != [] ==> nodes == engine && links == engineLinks && es == EntriesOf(engine, levels)
    ensures levels != [] ==> Holds(layers, owners, Aggregate(es)) && len == Span(Keys(es))
    ensures maxDepth == MaxDepth(Depths(nodes)) && maxLayerY1 == Peak(SlotY1s(layers, len))
  {
    nodes, links, layers, len, es, owners := [], [], map[], 0, [], map[];
    if levels != [] {
      nodes, links := engine, engineLinks;
      layers, len, es, owners := ExtractLayers(nodes, levels);
    }
    maxDepth := MaxDepth(Depths(nodes));
    maxLayerY1 := Peak(SlotY1s(layers, len));
  }

  /**
   * After layout, there is a layer record `k` exactly when some node has depth `k` (a node
   * without one counts as depth 0); it lists those nodes in order, has id `"k"` and is named
   * after level `k`.
   */
  lemma DepthLayer(ps: seq<Placed>, levels: seq<Level>, k: nat)
    ensures k in Aggregate(EntriesOf(ps, levels)) <==> exists j :: 0 <= j < |ps| && DepthKey(ps[j].depth) == k
    ensures k in Aggregate(EntriesOf(ps, levels)) ==>
      var l := Aggregate(EntriesOf(ps, levels))[k];
      && l.id == NatToString(k) && l.name == LevelName(levels, k)
      && l.nodes == Members(EntriesOf(ps, levels), k)
  {
    var es := EntriesOf(ps, levels);
    AggregateKeys(es, k);
    if k in Aggregate(es) {
      AggregateHead(es, k);
      AggregateMembers(es, k);
    }
  }
}
