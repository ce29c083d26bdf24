/**
 * `extractGraph` of the current graph model (`src/lib/internal/sankey/model.ts`): the node and
 * link builders `asNode` and `asLink`, the three phases (layered input, explicit nodes, explicit
 * links), the layer extraction and `getOverlap`.
 */
module InternalGraph {
  import opened IdSeqs
  import opened Utils
  import opened LayeredLinks
  import opened InternalModel
  import opened Layers

  /** What an id set held by the graph belongs to; two roles never share a set. */
  datatype Role = OverlapOf(n: InternalNode) | MissingInOf(n: InternalNode) | MissingOutOf(n: InternalNode) | LinkSet(j: nat)

  /**
   * What the id set `o` holds given its role: a node's own ids, each once; the ids of a node
   * that no incoming (outgoing) link of `edges` carries; the ids of a link, never none.
   */
  ghost predicate RoleOk(o: OverlapHelper, r: Role, edges: seq<Edge>)
    reads o`items
  {
    o.Valid() &&
    match r
    case OverlapOf(n) => o == n.overlap && o.items == Dedup(n.ids)
    case MissingInOf(n) => o == n.missingIn && o.items == Without(Dedup(n.ids), InOf(edges, n))
    case MissingOutOf(n) => o == n.missingOut && o.items == Without(Dedup(n.ids), OutOf(edges, n))
    case LinkSet(j) => j < |edges| && o.items == edges[j].items && o.items != []
  }

  /** Every id set of the graph holds what its role demands. */
  ghost predicate SetsOk(roles: map<OverlapHelper, Role>, edges: seq<Edge>)
    reads roles.Keys`items
  {
    forall o {:trigger roles[o]} :: o in roles ==> RoleOk(o, roles[o], edges)
  }

  /** The three sets of `n` carry their roles in `roles`, and `fixedValue` counts its ids. */
  ghost predicate Owned(n: InternalNode, roles: map<OverlapHelper, Role>)
  {
    && n.overlap in roles && roles[n.overlap] == OverlapOf(n)
    && n.missingIn in roles && roles[n.missingIn] == MissingInOf(n)
    && n.missingOut in roles && roles[n.missingOut] == MissingOutOf(n)
    && n.fixedValue == |n.ids|
  }

  /** Every set of the graph carries its role: so no two of them are the same object. */
  ghost predicate AllOwned(nodes: seq<InternalNode>, links: seq<InternalLink>, roles: map<OverlapHelper, Role>)
  {
    && (forall k :: 0 <= k < |nodes| ==> Owned(nodes[k], roles))
    && (forall j :: 0 <= j < |links| ==> links[j].overlap in roles && roles[links[j].overlap] == LinkSet(j))
  }

  /** Every link is named after the two ends of its edge and counts its ids. */
  ghost predicate Shapes(links: seq<InternalLink>, edges: seq<Edge>)
  {
    |links| == |edges| &&
    forall j :: 0 <= j < |links| ==> links[j] == LinkBetween(edges[j].src, edges[j].tgt, links[j].overlap, |edges[j].items|)
  }

  /** Every link joins two of `nodes`. */
  ghost predicate Ends(edges: seq<Edge>, nodes: seq<InternalNode>)
  {
    forall j :: 0 <= j < |edges| ==> edges[j].src in nodes && edges[j].tgt in nodes
  }

  /** The lookup index, the links and the roles agree with the nodes and the edges. */
  ghost predicate CoreOf(s: Store, edges: seq<Edge>, roles: map<OverlapHelper, Role>)
  {
    && AllOwned(s.nodes, s.links, roles)
    && Shapes(s.links, edges)
    && Ends(edges, s.nodes)
    && s.lookup == NodeEntries(s.nodes) + LinkEntries(s.links)
  }

  /** `r` keeps every role of `q`. */
  ghost predicate Extends(q: map<OverlapHelper, Role>, r: map<OverlapHelper, Role>)
  {
    forall o :: o in q ==> o in r && r[o] == q[o]
  }

  /**
   * The state `extractGraph` builds up in its local variables: the `lookup` index from keys to
   * id sets, and the `nodes` and `links` arrays.
   */
  datatype Store = Store(lookup: map<string, OverlapHelper>, nodes: seq<InternalNode>, links: seq<InternalLink>)

  /**
   * The invariant of that state. `edges` are the links as edges between node objects and
   * `roles` gives every id set the graph holds its role.
   */
  ghost predicate StoreOk(s: Store, edges: seq<Edge>, roles: map<OverlapHelper, Role>)
    reads roles.Keys`items
  {
    CoreOf(s, edges, roles) && SetsOk(roles, edges)
  }

  /** `asNode(d, layer)`: a new node with its own id set and two copies of it as missing sets. */
  method AsNode(s: Store, ghost edges: seq<Edge>, ghost roles: map<OverlapHelper, Role>, d: NodeInput, layer: Option<nat>)
    returns (n: InternalNode, s': Store, ghost roles': map<OverlapHelper, Role>)
    requires StoreOk(s, edges, roles)
    ensures StoreOk(s', edges, roles') && Extends(roles, roles')
    ensures fresh(n) && fresh(n.overlap) && fresh(n.missingIn) && fresh(n.missingOut)
    ensures n.id == d.id && n.name == d.name && n.ids == d.ids
    ensures n.layer == NodeLayer(d, layer)
    ensures n.x0 == None && n.x1 == None && n.y0 == None && n.y1 == None
    ensures s'.nodes == s.nodes + [n] && s'.links == s.links
  {
    n := NewNode(d, layer);
    s', roles' := StoreNode(s, edges, roles, n);
  }

  /** The bookkeeping half of `asNode`: the lookup entries and the node are recorded. */
  method StoreNode(s: Store, ghost edges: seq<Edge>, ghost roles: map<OverlapHelper, Role>, n: InternalNode)
    returns (s': Store, ghost roles': map<OverlapHelper, Role>)
    requires StoreOk(s, edges, roles) && n !in s.nodes && n.fixedValue == |n.ids|
    requires n.overlap !in roles && n.missingIn !in roles && n.missingOut !in roles
    requires n.overlap != n.missingIn && n.overlap != n.missingOut && n.missingIn != n.missingOut
    requires n.overlap.Valid() && n.overlap.items == Dedup(n.ids)
    requires n.missingIn.Valid() && n.missingIn.items == Dedup(n.ids)
    requires n.missingOut.Valid() && n.missingOut.items == Dedup(n.ids)
    ensures StoreOk(s', edges, roles') && Extends(roles, roles')
    ensures s'.nodes == s.nodes + [n] && s'.links == s.links
  {
    s' := Store(s.lookup[Key(NodeKind, n.id) := n.overlap][Key(MissingInKind, n.id) := n.missingIn]
      [Key(MissingOutKind, n.id) := n.missingOut], s.nodes + [n], s.links);
    roles' := roles[n.overlap := OverlapOf(n)][n.missingIn := MissingInOf(n)][n.missingOut := MissingOutOf(n)];
    NodeStored(s, edges, roles, n, s', roles');
  }

  /**
   * `asLink(source, target, overlap)`: nothing for an empty id set; otherwise the link, and
   * its ids leave the source's outgoing and the target's incoming missing set.
   */
  method AsLink(s: Store, ghost edges: seq<Edge>, ghost roles: map<OverlapHelper, Role>,
                source: InternalNode, target: InternalNode, overlap: OverlapHelper)
    returns (l: Option<InternalLink>, s': Store, ghost edges': seq<Edge>, ghost roles': map<OverlapHelper, Role>)
    requires StoreOk(s, edges, roles) && source in s.nodes && target in s.nodes
    requires overlap.Valid() && overlap !in roles
    modifies source.missingOut`items, target.missingIn`items
    ensures StoreOk(s', edges', roles') && Extends(roles, roles') && s'.nodes == s.nodes
    ensures overlap.items == [] ==> l.None? && s' == s && edges' == edges
    ensures overlap.items != [] ==>
      && l == Some(LinkBetween(source, target, overlap, |overlap.items|))
      && s'.links == s.links + [l.value] && edges' == edges + [Edge(source, target, overlap.items)]
  {
    if overlap.IsEmpty() {
      return None, s, edges, roles;
    }
    ghost var e := Edge(source, target, overlap.items);
    Unlink(s, edges, roles, source, target, overlap);
    var link := LinkBetween(source, target, overlap, overlap.Size());
    s' := Store(s.lookup[Key(LinkKind, link.id) := overlap], s.nodes, s.links + [link]);
    edges', roles' := edges + [e], roles[overlap := LinkSet(|s.links|)];
    CoreLinked(s, edges, roles, link, e, s', roles');
    SetsLinked(roles, edges, e, source, target, overlap, roles');
    l := Some(link);
  }

  /**
   * The two `withoutUpdate` calls of `asLink`: the link's ids leave the source's outgoing and
   * the target's incoming missing set, so both hold what their roles demand once the link is in.
   */
  method Unlink(s: Store, ghost edges: seq<Edge>, ghost roles: map<OverlapHelper, Role>,
                source: InternalNode, target: InternalNode, overlap: OverlapHelper)
    requires StoreOk(s, edges, roles) && source in s.nodes && target in s.nodes
    requires overlap.Valid() && overlap !in roles
    modifies source.missingOut`items, target.missingIn`items
    ensures overlap.items == old(overlap.items)
    ensures source.missingOut != target.missingIn
    ensures SetsOk(roles - {source.missingOut, target.missingIn}, edges)
    ensures var e := Edge(source, target, overlap.items);
      && RoleOk(source.missingOut, MissingOutOf(source), edges + [e])
      && RoleOk(target.missingIn, MissingInOf(target), edges + [e])
  {
    var a, b := source.missingOut, target.missingIn;
    ghost var e := Edge(source, target, overlap.items);
    SetsSplit(s.nodes, s.links, roles, edges, source, target);
    var _ := a.WithoutUpdate(overlap);
    var _ := b.WithoutUpdate(overlap);
    MissingRemoved(source, old(a.items), a.items, edges, e, true);
    MissingRemoved(target, old(b.items), b.items, edges, e, false);
  }

  /** The allocation part of `asNode`: the node and its three sets, all new. */
  method NewNode(d: NodeInput, layer: Option<nat>) returns (n: InternalNode)
    ensures fresh(n) && fresh(n.overlap) && fresh(n.missingIn) && fresh(n.missingOut)
    ensures n.overlap != n.missingIn && n.overlap != n.missingOut && n.missingIn != n.missingOut
    ensures n.id == d.id && n.name == d.name && n.ids == d.ids && n.fixedValue == |d.ids|
    ensures n.layer == NodeLayer(d, layer)
    ensures n.x0 == None && n.x1 == None && n.y0 == None && n.y1 == None
    ensures n.overlap.Valid() && n.overlap.items == Dedup(d.ids)
    ensures n.missingIn.Valid() && n.missingIn.items == Dedup(d.ids)
    ensures n.missingOut.Valid() && n.missingOut.items == Dedup(d.ids)
  {
    var overlap := new OverlapHelper(d.ids);
    var missingIn := overlap.Copy();
    var missingOut := overlap.Copy();
    n := new InternalNode(d, layer, overlap, missingIn, missingOut);
  }

  /** A node no link touches yet has empty link unions. */
  lemma OutInFresh(edges: seq<Edge>, nodes: seq<InternalNode>, n: InternalNode)
    requires Ends(edges, nodes) && n !in nodes
    ensures OutOf(edges, n) == {} && InOf(edges, n) == {}
  {
    OutInUntouched(edges, n);
  }

  lemma SetsAdded(q: map<OverlapHelper, Role>, edges: seq<Edge>, nodes: seq<InternalNode>, n: InternalNode,
                  r: map<OverlapHelper, Role>)
    requires SetsOk(q, edges) && Ends(edges, nodes) && n !in nodes
    requires n.overlap.Valid() && n.overlap.items == Dedup(n.ids)
    requires n.missingIn.Valid() && n.missingIn.items == Dedup(n.ids)
    requires n.missingOut.Valid() && n.missingOut.items == Dedup(n.ids)
    requires r == q[n.overlap := OverlapOf(n)][n.missingIn := MissingInOf(n)][n.missingOut := MissingOutOf(n)]
    ensures SetsOk(r, edges)
  {
    OutInFresh(edges, nodes, n);
    WithoutNone(Dedup(n.ids), {});
  }

  /** Storing a new node whose three sets are new keeps the invariant. */
  lemma NodeStored(s: Store, edges: seq<Edge>, q: map<OverlapHelper, Role>, n: InternalNode,
                   s': Store, r: map<OverlapHelper, Role>)
    requires StoreOk(s, edges, q) && n !in s.nodes && n.fixedValue == |n.ids|
    requires n.overlap !in q && n.missingIn !in q && n.missingOut !in q
    requires n.overlap != n.missingIn && n.overlap != n.missingOut && n.missingIn != n.missingOut
    requires n.overlap.Valid() && n.overlap.items == Dedup(n.ids)
    requires n.missingIn.Valid() && n.missingIn.items == Dedup(n.ids)
    requires n.missingOut.Valid() && n.missingOut.items == Dedup(n.ids)
    requires s' == Store(s.lookup[Key(NodeKind, n.id) := n.overlap][Key(MissingInKind, n.id) := n.missingIn]
      [Key(MissingOutKind, n.id) := n.missingOut], s.nodes + [n], s.links)
    requires r == q[n.overlap := OverlapOf(n)][n.missingIn := MissingInOf(n)][n.missingOut := MissingOutOf(n)]
    ensures StoreOk(s', edges, r) && Extends(q, r)
  {
    CoreAdded(s, edges, q, n, s', r);
    SetsAdded(q, edges, s.nodes, n, r);
  }

  lemma CoreAdded(s: Store, edges: seq<Edge>, q: map<OverlapHelper, Role>, n: InternalNode,
                  s': Store, r: map<OverlapHelper, Role>)
    requires CoreOf(s, edges, q) && n.fixedValue == |n.ids|
    requires n.overlap !in q && n.missingIn !in q && n.missingOut !in q
    requires n.overlap != n.missingIn && n.overlap != n.missingOut && n.missingIn != n.missingOut
    requires s' == Store(s.lookup[Key(NodeKind, n.id) := n.overlap][Key(MissingInKind, n.id) := n.missingIn]
      [Key(MissingOutKind, n.id) := n.missingOut], s.nodes + [n], s.links)
    requires r == q[n.overlap := OverlapOf(n)][n.missingIn := MissingInOf(n)][n.missingOut := MissingOutOf(n)]
    ensures CoreOf(s', edges, r) && Extends(q, r)
  {
    OwnedAdded(s.nodes, s.links, q, n, r);
    NodeEntriesSnoc(s.nodes, n, s.links);
  }

  lemma CoreLinked(s: Store, edges: seq<Edge>, q: map<OverlapHelper, Role>, link: InternalLink, e: Edge,
                   s': Store, r: map<OverlapHelper, Role>)
    requires CoreOf(s, edges, q) && link.overlap !in q
    requires e.src in s.nodes && e.tgt in s.nodes && link == LinkBetween(e.src, e.tgt, link.overlap, |e.items|)
    requires s' == Store(s.lookup[Key(LinkKind, link.id) := link.overlap], s.nodes, s.links + [link])
    requires r == q[link.overlap := LinkSet(|s.links|)]
    ensures CoreOf(s', edges + [e], r) && Extends(q, r)
  {
    OwnedLinked(s.nodes, s.links, q, link, link.overlap, r);
    ShapesSnoc(s.links, edges, link, e);
    EndsSnoc(edges, s.nodes, e);
    LinkEntriesSnoc(s.nodes, s.links, link);
  }

  lemma OwnedAdded(nodes: seq<InternalNode>, links: seq<InternalLink>, q: map<OverlapHelper, Role>, n: InternalNode,
                   r: map<OverlapHelper, Role>)
    requires AllOwned(nodes, links, q) && n.fixedValue == |n.ids|
    requires n.overlap !in q && n.missingIn !in q && n.missingOut !in q
    requires n.overlap != n.missingIn && n.overlap != n.missingOut && n.missingIn != n.missingOut
    requires r == q[n.overlap := OverlapOf(n)][n.missingIn := MissingInOf(n)][n.missingOut := MissingOutOf(n)]
    ensures AllOwned(nodes + [n], links, r) && Extends(q, r)
  {
  }

  /** The missing set of `n` on the side `out` after `e`'s ids leave it. */
  lemma MissingRemoved(n: InternalNode, before: seq<Id>, after: seq<Id>, edges: seq<Edge>, e: Edge, out: bool)
    requires out ==> e.src == n && before == Without(Dedup(n.ids), OutOf(edges, n))
    requires !out ==> e.tgt == n && before == Without(Dedup(n.ids), InOf(edges, n))
    requires after == Without(before, ToSet(e.items))
    ensures out ==> after == Without(Dedup(n.ids), OutOf(edges + [e], n))
    ensures !out ==> after == Without(Dedup(n.ids), InOf(edges + [e], n))
  {
    OutInSnoc(edges, e, n);
    if out {
      WithoutWithout(Dedup(n.ids), OutOf(edges, n), ToSet(e.items));
    } else {
      WithoutWithout(Dedup(n.ids), InOf(edges, n), ToSet(e.items));
    }
  }

  /** Before a link from `s` to `t`: their two missing sets are as their roles say, and so are all the others. */
  lemma SetsSplit(nodes: seq<InternalNode>, links: seq<InternalLink>, q: map<OverlapHelper, Role>, edges: seq<Edge>,
                  s: InternalNode, t: InternalNode)
    requires AllOwned(nodes, links, q) && SetsOk(q, edges) && s in nodes && t in nodes
    ensures s.missingOut != t.missingIn
    ensures RoleOk(s.missingOut, MissingOutOf(s), edges) && RoleOk(t.missingIn, MissingInOf(t), edges)
    ensures SetsOk(q - {s.missingOut, t.missingIn}, edges)
  {
    assert Owned(s, q) && Owned(t, q);
  }

  /** After the link `e`: every set keeps its role, and the link's set takes its own. */
  lemma SetsLinked(q: map<OverlapHelper, Role>, edges: seq<Edge>, e: Edge, s: InternalNode, t: InternalNode,
                   o: OverlapHelper, r: map<OverlapHelper, Role>)
    requires e.src == s && e.tgt == t && o.Valid() && o.items == e.items && e.items != []
    requires s.missingOut in q && q[s.missingOut] == MissingOutOf(s)
    requires t.missingIn in q && q[t.missingIn] == MissingInOf(t)
    requires SetsOk(q - {s.missingOut, t.missingIn}, edges)
    requires RoleOk(s.missingOut, MissingOutOf(s), edges + [e]) && RoleOk(t.missingIn, MissingInOf(t), edges + [e])
    requires r == q[o := LinkSet(|edges|)]
    ensures SetsOk(r, edges + [e])
  {
    forall x | x in r
      ensures RoleOk(x, r[x], edges + [e])
    {
      if x != o && x != s.missingOut && x != t.missingIn {
        assert x in q - {s.missingOut, t.missingIn} && (q - {s.missingOut, t.missingIn})[x] == q[x];
        RoleSnoc(x, q[x], edges, e);
      }
    }
  }

  /** A set whose node is not an end of `e` keeps its role when `e` is added. */
  lemma RoleSnoc(o: OverlapHelper, r: Role, edges: seq<Edge>, e: Edge)
    requires RoleOk(o, r, edges)
    requires r.MissingOutOf? ==> r.n != e.src
    requires r.MissingInOf? ==> r.n != e.tgt
    ensures RoleOk(o, r, edges + [e])
  {
    match r
    case MissingOutOf(n) =>
      OutInSnoc(edges, e, n);
      assert OutOf(edges + [e], n) == OutOf(edges, n);
    case MissingInOf(n) =>
      OutInSnoc(edges, e, n);
      assert InOf(edges + [e], n) == InOf(edges, n);
    case _ =>
  }

  lemma OwnedLinked(nodes: seq<InternalNode>, links: seq<InternalLink>, q: map<OverlapHelper, Role>, link: InternalLink,
                    o: OverlapHelper, r: map<OverlapHelper, Role>)
    requires AllOwned(nodes, links, q) && o !in q && link.overlap == o
    requires r == q[o := LinkSet(|links|)]
    ensures AllOwned(nodes, links + [link], r) && Extends(q, r)
  {
  }

  lemma ShapesSnoc(links: seq<InternalLink>, edges: seq<Edge>, link: InternalLink, e: Edge)
    requires Shapes(links, edges)
    requires link == LinkBetween(e.src, e.tgt, link.overlap, |e.items|)
    ensures Shapes(links + [link], edges + [e])
  {
  }

  lemma EndsSnoc(edges: seq<Edge>, nodes: seq<InternalNode>, e: Edge)
    requires Ends(edges, nodes) && e.src in nodes && e.tgt in nodes
    ensures Ends(edges + [e], nodes)
  {
  }

  /** A link's entry lands after the node entries, whose keys are never `link:` keys. */
  lemma LinkEntriesSnoc(ns: seq<InternalNode>, ls: seq<InternalLink>, l: InternalLink)
    ensures (NodeEntries(ns) + LinkEntries(ls))[Key(LinkKind, l.id) := l.overlap] == NodeEntries(ns) + LinkEntries(ls + [l])
  {
    assert (ls + [l])[..|ls|] == ls;
  }

  /** A node's three entries land beside the link entries, whose keys are all `link:` keys. */
  lemma NodeEntriesSnoc(ns: seq<InternalNode>, n: InternalNode, ls: seq<InternalLink>)
    ensures var le := LinkEntries(ls); (NodeEntries(ns) + le)[Key(NodeKind, n.id) := n.overlap][Key(MissingInKind, n.id) := n.missingIn]
      [Key(MissingOutKind, n.id) := n.missingOut] == NodeEntries(ns + [n]) + le
  {
    assert (ns + [n])[..|ns|] == ns;
    LinkEntriesAt(ls, NodeKind, n.id);
    LinkEntriesAt(ls, MissingInKind, n.id);
    LinkEntriesAt(ls, MissingOutKind, n.id);
  }
}
