/**
 * The selection plumbing of the faceted diagram (`src/lib/components/FacettedSankey.tsx`): one
 * diagram per facet, a committed selection that names the facet it was made in, routed to the
 * facets by name, and the facets' own emissions tagged with their name on the way out.
 * Emissions to the host's `setProps` are returned values; a missing `setProps` is `hasSetProps`
 * being false.
 */
module FacettedSankey {
  import opened IdSeqs
  import M = InternalModel
  import H = InternalHooks

  /** A facet: its `name` and the `layers`, `nodes` and `links` it draws. */
  datatype Facet = Facet(name: string, graph: M.GraphInput)

  /**
   * `FacettedSankeySelection | SankeyID[]`: a bare id list, or a typed selection that also
   * names the facet it was made in.
   */
  datatype FacetSelection = Ids(ids: seq<Id>) | Tagged(kind: M.Kind, id: string, ids: seq<Id>, facet: string)

  /** What a facet's own diagram reads of a selection: everything but the `facet` field. */
  function AsChild(s: FacetSelection): (r: M.Selection)
    ensures r.Ids? <==> s.Ids?
    ensures r.ids == s.ids
    ensures s.Tagged? ==> r.kind == s.kind && r.id == s.id
  {
    if s.Ids? then M.Ids(s.ids) else M.Typed(s.kind, s.id, s.ids)
  }

  /**
   * The `selection` a facet is given: an array selection, or none, reaches every facet
   * unchanged; a typed one reaches only the facets of the name it carries, and the others get
   * none.
   */
  function Forward(selection: Option<FacetSelection>, f: Facet): (r: Option<FacetSelection>)
    ensures r.Some? ==> r == selection
    ensures r.Some? <==> selection.Some? && (selection.value.Ids? || selection.value.facet == f.name)
  {
    if selection.None? || selection.value.Ids? || selection.value.facet == f.name then selection else None
  }

  /**
   * A facet object: `{...f, selection}`; its `setProps` is `ChildEmit(hasSetProps, f, ·)`,
   * determined by the facet.
   */
  datatype FacetObject = FacetObject(facet: Facet, selection: Option<FacetSelection>)

  /** `facetObjects`: one object per facet, in order, each given its forwarded selection. */
  function FacetObjects(facets: seq<Facet>, selection: Option<FacetSelection>): (r: seq<FacetObject>)
    ensures |r| == |facets|
    ensures forall j :: 0 <= j < |facets| ==> r[j].facet == facets[j]
    ensures forall j :: 0 <= j < |facets| ==>
      (r[j].selection.Some? ==> r[j].selection == selection)
      && (r[j].selection.Some? <==> selection.Some? && (selection.value.Ids? || selection.value.facet == facets[j].name))
  {
    seq(|facets|, j requires 0 <= j < |facets| => FacetObject(facets[j], Forward(selection, facets[j])))
  }

  /**
   * A facet's `setProps(changed)`: nothing reaches the host without a `setProps` of its own;
   * otherwise the emitted selection is the one the facet's diagram emitted, with the same
   * content, and a typed one is tagged with the facet's name. `None` inside is an emitted
   * `null` or `undefined`.
   */
  function ChildEmit(hasSetProps: bool, f: Facet, changed: Option<M.Selection>): (r: Option<Option<FacetSelection>>)
    ensures r.Some? <==> hasSetProps
    ensures r.Some? ==> (r.value.Some? <==> changed.Some?)
    ensures r.Some? && r.value.Some? ==> AsChild(r.value.value) == changed.value
    ensures r.Some? && r.value.Some? && r.value.value.Tagged? ==> r.value.value.facet == f.name
  {
    if !hasSetProps then None
    else if changed.None? then Some(None)
    else if changed.value.Ids? then Some(Some(Ids(changed.value.ids)))
    else Some(Some(Tagged(changed.value.kind, changed.value.id, changed.value.ids, f.name)))
  }

  /**
   * `resetSelection`: without a `setProps`, nothing; with one, the empty array selection,
   * which every facet receives and under which no element is picked and no id lit.
   */
  function ResetSelection(hasSetProps: bool): (r: Option<FacetSelection>)
    ensures r.Some? <==> hasSetProps
    ensures r.Some? ==> r.value.Ids? && r.value.ids == []
  {
    if hasSetProps then Some(Ids([])) else None
  }

  /**
   * A click in facet `j` makes a round trip through the host: the tagged selection comes back
   * to every facet named as facet `j`, and to no other one, and there picks exactly the
   * clicked element and lights exactly the clicked ids.
   */
  lemma ClickRoundTrip(facets: seq<Facet>, j: nat, k: M.Kind, id: string, ids: seq<Id>, i: nat, k': M.Kind, id': string)
    requires j < |facets| && i < |facets|
    ensures ChildEmit(true, facets[j], Some(M.Typed(k, id, ids))).Some?
    ensures var s := ChildEmit(true, facets[j], Some(M.Typed(k, id, ids))).value;
      var got := FacetObjects(facets, s)[i].selection;
      && (got.Some? <==> facets[i].name == facets[j].name)
      && (got.Some? ==> (M.IsSelected(Some(AsChild(got.value)), k', id') <==> k' == k && id' == id))
      && (got.Some? ==> H.ActiveIds(Some(AsChild(got.value))) == ids)
  {
    var s := ChildEmit(true, facets[j], Some(M.Typed(k, id, ids))).value;
    assert s == Some(Tagged(k, id, ids, facets[j].name));
  }

  /** After a reset every facet receives the empty array: nothing is picked and no id is lit. */
  lemma ResetRoundTrip(facets: seq<Facet>, i: nat, k: M.Kind, id: string)
    requires i < |facets|
    ensures var got := FacetObjects(facets, ResetSelection(true))[i].selection;
      && got == Some(Ids([]))
      && !M.IsSelected(Some(AsChild(got.value)), k, id) && H.ActiveIds(Some(AsChild(got.value))) == []
  {
  }
}
