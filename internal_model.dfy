/**
 * The entities of the current graph model (`src/lib/internal/sankey/model.ts`): the input
 * shapes, the built nodes and links, the `kind:id` keys of the lookup index, and selections.
 */
module InternalModel {
  import opened IdSeqs
  import opened Utils

  /**
   * A node's own `layer` property: absent, present but `null` or `undefined` (a Python `None`
   * arrives as `null`), or a layer index.
   */
  datatype OwnLayer = Absent | Nullish | Given(index: nat)

  /** `SankeyNode`: an input node, with its own `layer` property. */
  datatype NodeInput = NodeInput(id: string, name: string, ids: seq<Id>, layer: OwnLayer)

  /**
   * The `layer` of `{layer, ...d}`: an own property of `d` wins over the `layer` given, even a
   * nullish one, which leaves the node without a layer.
   */
  function NodeLayer(d: NodeInput, layer: Option<nat>): Option<nat>
  {
    match d.layer
    case Absent => layer
    case Nullish => None
    case Given(k) => Some(k)
  }

  /** `SankeyLayer`: a named input layer. */
  datatype LayerInput = LayerInput(name: string, nodes: seq<NodeInput>)

  /** `SankeyLink`: an explicit input link, with or without its own ids. */
  datatype LinkInput = LinkInput(source: string, target: string, ids: Option<seq<Id>>)

  /** The argument of `extractGraph`: every part is optional. */
  datatype GraphInput = GraphInput(layers: Option<seq<LayerInput>>, nodes: Option<seq<NodeInput>>,
                                   links: Option<seq<LinkInput>>)

  /** `SankeySelection['type']`. */
  datatype Kind = NodeKind | LinkKind | LayerKind | MissingInKind | MissingOutKind

  function KindName(k: Kind): string
  {
    match k
    case NodeKind => "node"
    case LinkKind => "link"
    case LayerKind => "layer"
    case MissingInKind => "missing_in"
    case MissingOutKind => "missing_out"
  }

  /** The lookup key `${type}:${id}`. */
  function Key(k: Kind, id: string): string
  {
    KindName(k) + ":" + id
  }

  lemma KindNameInjective(a: Kind, b: Kind)
    requires KindName(a) == KindName(b)
    ensures a == b
  {
  }

  lemma ColonFree(k: Kind, i: nat)
    requires i < |KindName(k)|
    ensures KindName(k)[i] != ':'
  {
  }

  /**
   * Different kinds or ids give different keys: the kind names hold no `:`, so the first `:`
   * ends the kind. This is why the node, missing-set, link and layer entries never overwrite
   * one another.
   */
  lemma KeyInjective(k1: Kind, a: string, k2: Kind, b: string)
    requires Key(k1, a) == Key(k2, b)
    ensures k1 == k2 && a == b
  {
    var key := Key(k1, a);
    var n1, n2 := |KindName(k1)|, |KindName(k2)|;
    if n1 < n2 {
      assert key[n1] == ':';
      assert key[n1] == KindName(k2)[n1];
      ColonFree(k2, n1);
    } else if n2 < n1 {
      assert key[n2] == ':';
      assert key[n2] == KindName(k1)[n2];
      ColonFree(k1, n2);
    } else {
      assert KindName(k1) == key[..n1] == KindName(k2);
      KindNameInjective(k1, k2);
      assert a == key[n1 + 1..] == b;
    }
  }

  /** The `→` of the link names, as the file stores it: the UTF-8 bytes read as Latin-1. */
  const Arrow: string := " \U{e2}\U{2020}\U{2019} "

  /**
   * A built node. The ids, the id set and the two missing sets are fixed at creation (the
   * sets themselves change in place); `layer` is written back by the layer extraction and the
   * coordinates by the layout engine.
   */
  class InternalNode {
    const id: string
    const name: string
    const ids: seq<Id>
    const overlap: OverlapHelper
    const fixedValue: nat
    /** The ids not carried by any incoming link. */
    const missingIn: OverlapHelper
    /** The ids not carried by any outgoing link. */
    const missingOut: OverlapHelper
    var layer: Option<nat>
    var x0: Option<int>
    var x1: Option<int>
    var y0: Option<int>
    var y1: Option<int>

    /** `{layer, ...d, overlap, fixedValue: d.ids.length, missingIn, missingOut}`. */
    constructor (d: NodeInput, layer: Option<nat>, overlap: OverlapHelper, missingIn: OverlapHelper,
                 missingOut: OverlapHelper)
      ensures id == d.id && name == d.name && ids == d.ids && fixedValue == |d.ids|
      ensures this.overlap == overlap && this.missingIn == missingIn && this.missingOut == missingOut
      ensures d.layer.Absent? ==> this.layer == layer
      ensures d.layer.Nullish? ==> this.layer == None
      ensures d.layer.Given? ==> this.layer == Some(d.layer.index)
      ensures x0 == None && x1 == None && y0 == None && y1 == None
    {
      id, name, ids, fixedValue := d.id, d.name, d.ids, |d.ids|;
      this.overlap, this.missingIn, this.missingOut := overlap, missingIn, missingOut;
      this.layer := NodeLayer(d, layer);
      x0, x1, y0, y1 := None, None, None, None;
    }
  }

  /** A built link. */
  datatype InternalLink = InternalLink(id: string, name: string, value: nat, overlap: OverlapHelper,
                                       source: string, target: string)

  /** The link `asLink` builds from `src` to `tgt` over the id set `o`. */
  function LinkBetween(src: InternalNode, tgt: InternalNode, o: OverlapHelper, size: nat): InternalLink
  {
    InternalLink(src.id + "-" + tgt.id, src.name + Arrow + tgt.name, size, o, src.id, tgt.id)
  }

  /** A link as the missing sets see it: its two ends and the ids it carries, in its set's order. */
  datatype Edge = Edge(src: InternalNode, tgt: InternalNode, items: seq<Id>)

  /** The ids carried by the links of `edges` that leave `n`. */
  function OutOf(edges: seq<Edge>, n: InternalNode): set<Id>
  {
    if edges == [] then {}
    else
      var e := edges[|edges| - 1];
      OutOf(edges[..|edges| - 1], n) + (if e.src == n then ToSet(e.items) else {})
  }

  /** The ids carried by the links of `edges` that enter `n`. */
  function InOf(edges: seq<Edge>, n: InternalNode): set<Id>
  {
    if edges == [] then {}
    else
      var e := edges[|edges| - 1];
      InOf(edges[..|edges| - 1], n) + (if e.tgt == n then ToSet(e.items) else {})
  }

  lemma {:induction false} OutOfIff(edges: seq<Edge>, n: InternalNode, x: Id)
    ensures x in OutOf(edges, n) <==> exists j :: 0 <= j < |edges| && edges[j].src == n && x in ToSet(edges[j].items)
  {
    if edges != [] {
      var init := edges[..|edges| - 1];
      OutOfIff(init, n, x);
      if exists j :: 0 <= j < |init| && init[j].src == n && x in ToSet(init[j].items) {
        var j :| 0 <= j < |init| && init[j].src == n && x in ToSet(init[j].items);
        assert edges[j] == init[j];
      }
      if exists j :: 0 <= j < |edges| && edges[j].src == n && x in ToSet(edges[j].items) {
        var j :| 0 <= j < |edges| && edges[j].src == n && x in ToSet(edges[j].items);
        if j < |init| {
          assert init[j] == edges[j];
        }
      }
    }
  }

  lemma {:induction false} InOfIff(edges: seq<Edge>, n: InternalNode, x: Id)
    ensures x in InOf(edges, n) <==> exists j :: 0 <= j < |edges| && edges[j].tgt == n && x in ToSet(edges[j].items)
  {
    if edges != [] {
      var init := edges[..|edges| - 1];
      InOfIff(init, n, x);
      if exists j :: 0 <= j < |init| && init[j].tgt == n && x in ToSet(init[j].items) {
        var j :| 0 <= j < |init| && init[j].tgt == n && x in ToSet(init[j].items);
        assert edges[j] == init[j];
      }
      if exists j :: 0 <= j < |edges| && edges[j].tgt == n && x in ToSet(edges[j].items) {
        var j :| 0 <= j < |edges| && edges[j].tgt == n && x in ToSet(edges[j].items);
        if j < |init| {
          assert init[j] == edges[j];
        }
      }
    }
  }

  /** One more link: the out-set of its source grows by its ids; no other out-set changes. */
  lemma OutInSnoc(edges: seq<Edge>, e: Edge, n: InternalNode)
    ensures OutOf(edges + [e], n) == OutOf(edges, n) + (if e.src == n then ToSet(e.items) else {})
    ensures InOf(edges + [e], n) == InOf(edges, n) + (if e.tgt == n then ToSet(e.items) else {})
  {
    assert (edges + [e])[..|edges|] == edges;
  }

  /** A node no link touches has empty out- and in-sets. */
  lemma {:induction false} OutInUntouched(edges: seq<Edge>, n: InternalNode)
    requires forall j :: 0 <= j < |edges| ==> edges[j].src != n && edges[j].tgt != n
    ensures OutOf(edges, n) == {} && InOf(edges, n) == {}
  {
    if edges != [] {
      OutInUntouched(edges[..|edges| - 1], n);
    }
  }

  /** The index of the last node of `ns` with id `id`: what `new Map(nodes.map(d => [d.id, d]))` keeps. */
  function LastWithId(ns: seq<InternalNode>, id: string): (r: Option<nat>)
    ensures r.Some? ==> r.value < |ns| && ns[r.value].id == id
    ensures r.Some? ==> forall j :: r.value < j < |ns| ==> ns[j].id != id
    ensures r.None? ==> forall j :: 0 <= j < |ns| ==> ns[j].id != id
  {
    if ns == [] then None
    else if ns[|ns| - 1].id == id then Some(|ns| - 1)
    else LastWithId(ns[..|ns| - 1], id)
  }

  /** The id set a node stores under the lookup key of kind `k`. */
  function SetOf(n: InternalNode, k: Kind): OverlapHelper
  {
    match k
    case MissingInKind => n.missingIn
    case MissingOutKind => n.missingOut
    case _ => n.overlap
  }

  /** The lookup entries the nodes `ns` write, in order, so later nodes overwrite earlier ones. */
  function NodeEntries(ns: seq<InternalNode>): map<string, OverlapHelper>
  {
    if ns == [] then map[]
    else
      var n := ns[|ns| - 1];
      NodeEntries(ns[..|ns| - 1])[Key(NodeKind, n.id) := n.overlap]
        [Key(MissingInKind, n.id) := n.missingIn][Key(MissingOutKind, n.id) := n.missingOut]
  }

  /** The lookup entries the links `ls` write, in order. */
  function LinkEntries(ls: seq<InternalLink>): map<string, OverlapHelper>
  {
    if ls == [] then map[] else LinkEntries(ls[..|ls| - 1])[Key(LinkKind, ls[|ls| - 1].id) := ls[|ls| - 1].overlap]
  }

  /** A kind whose entries nodes write. */
  predicate NodeSide(k: Kind)
  {
    k.NodeKind? || k.MissingInKind? || k.MissingOutKind?
  }

  /**
   * Under `node:id`, `missing_in:id` and `missing_out:id` sits the set of the last node with id
   * `id`; there is no entry when no node has that id, and nodes write no other keys.
   */
  lemma {:induction false} NodeEntriesAt(ns: seq<InternalNode>, k: Kind, id: string)
    ensures NodeSide(k) ==> (Key(k, id) in NodeEntries(ns) <==> LastWithId(ns, id).Some?)
    ensures NodeSide(k) && LastWithId(ns, id).Some? ==>
      NodeEntries(ns)[Key(k, id)] == SetOf(ns[LastWithId(ns, id).value], k)
    ensures !NodeSide(k) ==> Key(k, id) !in NodeEntries(ns)
  {
    if ns != [] {
      var n := ns[|ns| - 1];
      NodeEntriesAt(ns[..|ns| - 1], k, id);
      if Key(k, id) == Key(NodeKind, n.id) {
        KeyInjective(k, id, NodeKind, n.id);
      }
      if Key(k, id) == Key(MissingInKind, n.id) {
        KeyInjective(k, id, MissingInKind, n.id);
      }
      if Key(k, id) == Key(MissingOutKind, n.id) {
        KeyInjective(k, id, MissingOutKind, n.id);
      }
    }
  }

  /** The index of the last link of `ls` with id `id`. */
  function LastLinkWithId(ls: seq<InternalLink>, id: string): (r: Option<nat>)
    ensures r.Some? ==> r.value < |ls| && ls[r.value].id == id
    ensures r.Some? ==> forall j :: r.value < j < |ls| ==> ls[j].id != id
    ensures r.None? ==> forall j :: 0 <= j < |ls| ==> ls[j].id != id
  {
    if ls == [] then None
    else if ls[|ls| - 1].id == id then Some(|ls| - 1)
    else LastLinkWithId(ls[..|ls| - 1], id)
  }

  /**
   * Under `link:id` sits the set of the last link with id `id` (ids `"a-b"` may repeat, and a
   * later link overwrites an earlier one); links write no other keys.
   */
  lemma {:induction false} LinkEntriesAt(ls: seq<InternalLink>, k: Kind, id: string)
    ensures k == LinkKind ==> (Key(k, id) in LinkEntries(ls) <==> LastLinkWithId(ls, id).Some?)
    ensures k == LinkKind && LastLinkWithId(ls, id).Some? ==>
      LinkEntries(ls)[Key(k, id)] == ls[LastLinkWithId(ls, id).value].overlap
    ensures k != LinkKind ==> Key(k, id) !in LinkEntries(ls)
  {
    if ls != [] {
      var l := ls[|ls| - 1];
      LinkEntriesAt(ls[..|ls| - 1], k, id);
      if Key(k, id) == Key(LinkKind, l.id) {
        KeyInjective(k, id, LinkKind, l.id);
      }
    }
  }

  /** Every key in the node entries is a node-side key. */
  lemma NodeKeys(ns: seq<InternalNode>, key: string)
    requires key in NodeEntries(ns)
    ensures exists k, id :: NodeSide(k) && key == Key(k, id)
  {
    if ns != [] {
      var n := ns[|ns| - 1];
      if key !in {Key(NodeKind, n.id), Key(MissingInKind, n.id), Key(MissingOutKind, n.id)} {
        NodeKeys(ns[..|ns| - 1], key);
      } else {
        assert NodeSide(NodeKind) && NodeSide(MissingInKind) && NodeSide(MissingOutKind);
      }
    }
  }

  /** Every key in the link entries is a `link:` key. */
  lemma LinkKeys(ls: seq<InternalLink>, key: string)
    requires key in LinkEntries(ls)
    ensures exists id :: key == Key(LinkKind, id)
  {
    if ls != [] && key != Key(LinkKind, ls[|ls| - 1].id) {
      LinkKeys(ls[..|ls| - 1], key);
    }
  }

  /** `SankeySelection | SankeyID[]`: a bare id list, or a typed selection of one element. */
  datatype Selection = Ids(ids: seq<Id>) | Typed(kind: Kind, id: string, ids: seq<Id>)

  /** `isSelected(selection, type, id)`. */
  function IsSelected(selection: Option<Selection>, k: Kind, id: string): (r: bool)
    ensures selection.None? || selection.value.Ids? ==> !r
    ensures selection.Some? && selection.value.Typed? ==> (r <==> selection.value.kind == k && selection.value.id == id)
  {
    selection.Some? && selection.value.Typed? && selection.value.kind == k && selection.value.id == id
  }
}
