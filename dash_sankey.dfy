/**
 * The graph builder of the first `DashSankey` component (`extractGraph` in
 * `src/lib/components/DashSankey.tsx`): layered input only, no missing sets, no layers; and
 * the `select` emitter of its click handlers.
 */
module DashSankey {
  import opened IdSeqs
  import opened Utils
  import opened LayeredLinks

  /** A node as given in `levels[i].nodes`. */
  datatype NodeInput = NodeInput(id: string, name: string, ids: seq<Id>)

  /** `{name, nodes}`: one level of the input. */
  datatype Level = Level(name: string, nodes: seq<NodeInput>)

  /** A built node: the input fields, its id set and `fixedValue`. */
  datatype Node = Node(id: string, name: string, ids: seq<Id>, overlap: OverlapHelper, fixedValue: nat)

  /** A built link between two node ids. */
  datatype Link = Link(id: string, name: string, value: nat, overlap: OverlapHelper, source: string, target: string)

  /** The levels by their nodes' id lists, as link inference sees them. */
  function IdLevels(levels: seq<Level>): (L: seq<seq<seq<Id>>>)
    ensures |L| == |levels|
    ensures forall i :: 0 <= i < |L| ==> |L[i]| == |levels[i].nodes|
    ensures forall i, s :: 0 <= i < |L| && 0 <= s < |L[i]| ==> L[i][s] == levels[i].nodes[s].ids
  {
    seq(|levels|, i requires 0 <= i < |levels| =>
      seq(|levels[i].nodes|, s requires 0 <= s < |levels[i].nodes| => levels[i].nodes[s].ids))
  }

  /** All nodes of all levels, level after level. */
  function Flat(levels: seq<Level>): seq<NodeInput>
  {
    if levels == [] then [] else Flat(levels[..|levels| - 1]) + levels[|levels| - 1].nodes
  }

  function InputOf(n: Node): NodeInput
  {
    NodeInput(n.id, n.name, n.ids)
  }

  function Inputs(nodes: seq<Node>): seq<NodeInput>
  {
    if nodes == [] then [] else Inputs(nodes[..|nodes| - 1]) + [InputOf(nodes[|nodes| - 1])]
  }

  /** A node built from its input: the id set is its deduplicated ids, `fixedValue` counts duplicates. */
  ghost predicate Built(n: Node)
    reads n.overlap
  {
    n.overlap.Valid() && n.overlap.items == Dedup(n.ids) && n.fixedValue == |n.ids|
  }

  /** `l` is the link `extractGraph` builds from node `src` to node `tgt`. */
  ghost predicate LinkOf(l: Link, src: NodeInput, tgt: NodeInput)
    reads l.overlap
  {
    && l.id == src.id + "-" + tgt.id
    && l.name == src.name + " \U{2192} " + tgt.name
    && l.source == src.id && l.target == tgt.id
    && l.overlap.Valid() && l.overlap.items == Overlap(src.ids, tgt.ids) && l.value == |l.overlap.items|
  }

  /** `l` is the link the layered walk found as `c`. */
  ghost predicate Matches(levels: seq<Level>, l: Link, c: Cand)
    reads l.overlap
  {
    c.level + 1 < |levels| && c.src < |levels[c.level].nodes| && c.tgt < |levels[c.level + 1].nodes|
    && LinkOf(l, levels[c.level].nodes[c.src], levels[c.level + 1].nodes[c.tgt])
  }

  /** One node per input node, in level order, and one link per candidate of the layered walk. */
  method ExtractGraph(levels: seq<Level>) returns (nodes: seq<Node>, links: seq<Link>)
    ensures Inputs(nodes) == Flat(levels)
    ensures forall k :: 0 <= k < |nodes| ==> fresh(nodes[k].overlap) && Built(nodes[k])
    ensures AllMatch(levels, links, Links(IdLevels(levels)))
  {
    var transformed;
    nodes, transformed := BuildLevels(levels);
    links := LinkLevels(levels, transformed, IdLevels(levels));
  }

  /**
   * `levels.map(level => level.nodes.map(...))` with every built node also pushed onto
   * `nodes`: the built levels, and all their nodes in level order.
   */
  method BuildLevels(levels: seq<Level>) returns (nodes: seq<Node>, T: seq<seq<Node>>)
    ensures Inputs(nodes) == Flat(levels)
    ensures forall k :: 0 <= k < |nodes| ==> fresh(nodes[k].overlap) && Built(nodes[k])
    ensures BuiltLevels(levels, T)
  {
    nodes, T := [], [];
    for i := 0 to |levels|
      invariant Inputs(nodes) == Flat(levels[..i])
      invariant forall k :: 0 <= k < |nodes| ==> fresh(nodes[k].overlap) && Built(nodes[k])
      invariant |T| == i && BuiltRows(levels, T)
    {
      var row := BuildLevel(levels[i].nodes);
      BuiltRowsSnoc(levels, T, row);
      InputsConcat(nodes, row);
      nodes := nodes + row;
      T := T + [row];
      assert levels[..i + 1][..i] == levels[..i];
    }
    assert levels[..|levels|] == levels;
  }

  /** `level.nodes.map(...)`: one built node per input node, each with its own fresh id set. */
  method BuildLevel(ns: seq<NodeInput>) returns (row: seq<Node>)
    ensures Inputs(row) == ns && |row| == |ns|
    ensures forall s :: 0 <= s < |row| ==> InputOf(row[s]) == ns[s] && fresh(row[s].overlap) && Built(row[s])
  {
    row := [];
    for s := 0 to |ns|
      invariant Inputs(row) == ns[..s] && |row| == s
      invariant forall s' :: 0 <= s' < s ==> InputOf(row[s']) == ns[s'] && fresh(row[s'].overlap) && Built(row[s'])
    {
      var d := ns[s];
      var overlap := new OverlapHelper(d.ids);
      var n := Node(d.id, d.name, d.ids, overlap, |d.ids|);
      var prev := row;
      row := row + [n];
      assert row[..|row| - 1] == prev;
      assert ns[..s + 1] == ns[..s] + [d];
    }
    assert ns[..|ns|] == ns;
  }

  lemma {:induction false} InputsConcat(a: seq<Node>, b: seq<Node>)
    ensures Inputs(a + b) == Inputs(a) + Inputs(b)
  {
    if b != [] {
      assert (a + b)[..|a + b| - 1] == a + b[..|b| - 1];
      InputsConcat(a, b[..|b| - 1]);
    } else {
      assert a + b == a;
    }
  }

  /** `T` holds the built nodes of `levels`, level by level. */
  ghost predicate BuiltLevels(levels: seq<Level>, T: seq<seq<Node>>)
    reads *
  {
    |T| == |levels| && BuiltRows(levels, T)
  }

  /** `T` holds the built nodes of the first `|T|` levels of `levels`. */
  ghost predicate BuiltRows(levels: seq<Level>, T: seq<seq<Node>>)
    reads *
  {
    && |T| <= |levels|
    && (forall j :: 0 <= j < |T| ==> |T[j]| == |levels[j].nodes|)
    && (forall j, s :: 0 <= j < |T| && 0 <= s < |T[j]| ==>
          InputOf(T[j][s]) == levels[j].nodes[s] && Built(T[j][s]))
  }

  /** `L` lists the id lists of the nodes of `levels`, level by level. */
  ghost predicate IdsOf(L: seq<seq<seq<Id>>>, levels: seq<Level>)
  {
    && |L| == |levels|
    && (forall i :: 0 <= i < |L| ==> |L[i]| == |levels[i].nodes|)
    && (forall i, s :: 0 <= i < |L| && 0 <= s < |L[i]| ==> L[i][s] == levels[i].nodes[s].ids)
  }

  lemma BuiltRowsSnoc(levels: seq<Level>, T: seq<seq<Node>>, row: seq<Node>)
    requires BuiltRows(levels, T) && |T| < |levels| && |row| == |levels[|T|].nodes|
    requires forall s :: 0 <= s < |row| ==> InputOf(row[s]) == levels[|T|].nodes[s] && Built(row[s])
    ensures BuiltRows(levels, T + [row])
  {
    var T' := T + [row];
    forall j, s | 0 <= j < |T'| && 0 <= s < |T'[j]|
      ensures InputOf(T'[j][s]) == levels[j].nodes[s] && Built(T'[j][s])
    {
      if j < |T| {
        assert T'[j] == T[j];
      }
    }
  }

  /** The link loops of `extractGraph` over the built levels: the loop over levels. */
  method LinkLevels(levels: seq<Level>, T: seq<seq<Node>>, ghost L: seq<seq<seq<Id>>>) returns (links: seq<Link>)
    requires BuiltLevels(levels, T) && IdsOf(L, levels)
    ensures AllMatch(levels, links, Links(L))
  {
    links := [];
    if |T| == 0 {
      return;
    }
    for i := 0 to |T| - 1
      invariant AllMatch(levels, links, LevelLinks(L, i + 1))
    {
      links := LinkSources(levels, T, L, i, links);
    }
  }

  /** The loop over the sources of level `i`. */
  method LinkSources(levels: seq<Level>, T: seq<seq<Node>>, ghost L: seq<seq<seq<Id>>>, i: nat, links0: seq<Link>)
    returns (links: seq<Link>)
    requires BuiltLevels(levels, T) && IdsOf(L, levels) && i + 1 < |T|
    requires AllMatch(levels, links0, LevelLinks(L, i + 1))
    ensures AllMatch(levels, links, LevelLinks(L, i + 2))
  {
    links := links0;
    ghost var cands := LevelLinks(L, i + 1);
    WalkLevel(L, i);
    var left := T[i];
    for s := 0 to |left|
      invariant cands == SrcWalked(L, i, s)
      invariant AllMatch(levels, links, cands)
    {
      WalkStart(L, i, s);
      links, cands := LinkTargets(levels, T, L, i, s, links, cands);
      WalkSourceDone(L, i, s);
    }
  }

  /** The loop over the targets of source `s` of level `i`. */
  method LinkTargets(levels: seq<Level>, T: seq<seq<Node>>, ghost L: seq<seq<seq<Id>>>, i: nat, s: nat,
                     links0: seq<Link>, ghost cands0: seq<Cand>)
    returns (links: seq<Link>, ghost cands: seq<Cand>)
    requires BuiltLevels(levels, T) && IdsOf(L, levels) && i + 1 < |T| && s < |T[i]|
    requires cands0 == Walked(L, i, s, 0) && AllMatch(levels, links0, cands0)
    ensures cands == Walked(L, i, s, |T[i + 1]|) && AllMatch(levels, links, cands)
  {
    links, cands := links0, cands0;
    var lNode, right := T[i][s], T[i + 1];
    for t := 0 to |right|
      invariant cands == Walked(L, i, s, t)
      invariant AllMatch(levels, links, cands)
    {
      var found := LinkPair(levels, L, lNode, right[t], i, s, t);
      WalkStep(L, i, s, t);
      if found.Some? {
        var c := Cand(i, s, t);
        MatchesSnoc(levels, links, cands, found.value, c);
        links := links + [found.value];
        cands := cands + [c];
      }
    }
  }

  /** One pass of the innermost loop: the link from `lNode` to `rNode` when their id sets overlap. */
  method LinkPair(levels: seq<Level>, ghost L: seq<seq<seq<Id>>>, lNode: Node, rNode: Node,
                  ghost i: nat, ghost s: nat, ghost t: nat)
    returns (found: Option<Link>)
    requires IdsOf(L, levels) && i + 1 < |levels| && s < |levels[i].nodes| && t < |levels[i + 1].nodes|
    requires InputOf(lNode) == levels[i].nodes[s] && InputOf(rNode) == levels[i + 1].nodes[t]
    requires Built(lNode) && Built(rNode)
    ensures found.Some? <==> Shares(L[i][s], L[i + 1][t])
    ensures found.Some? ==> Matches(levels, found.value, Cand(i, s, t))
  {
    var overlap := lNode.overlap.Intersect(rNode.overlap);
    assert overlap.items == Overlap(lNode.ids, rNode.ids) by {
      DedupProps(lNode.ids);
    }
    OverlapNonEmpty(lNode.ids, rNode.ids);
    if overlap.IsNotEmpty() {
      var l := Link(lNode.id + "-" + rNode.id, lNode.name + " \U{2192} " + rNode.name,
                    overlap.Size(), overlap, lNode.id, rNode.id);
      assert LinkOf(l, InputOf(lNode), InputOf(rNode));
      found := Some(l);
    } else {
      found := None;
    }
  }

  /** `links[k]` is the link found as `cands[k]`, for every `k`. */
  ghost predicate AllMatch(levels: seq<Level>, links: seq<Link>, cands: seq<Cand>)
    reads set k | 0 <= k < |links| :: links[k].overlap
  {
    |links| == |cands| && forall k :: 0 <= k < |links| ==> Matches(levels, links[k], cands[k])
  }

  lemma MatchesSnoc(levels: seq<Level>, links: seq<Link>, cands: seq<Cand>, l: Link, c: Cand)
    requires AllMatch(levels, links, cands) && Matches(levels, l, c)
    ensures AllMatch(levels, links + [l], cands + [c])
  {
    assert (links + [l])[..|links|] == links;
    assert (cands + [c])[..|cands|] == cands;
  }

  /** What `select(ids)` hands to `setProps` as the new selection. */
  datatype Picked = Helper(h: OverlapHelper) | List(ids: seq<Id>)

  /**
   * `select(ids)`: the members of a helper, each once, or the given list unchanged, duplicates
   * and all.
   */
  function Select(p: Picked): (r: seq<Id>)
    requires p.Helper? ==> p.h.Valid()
    reads if p.Helper? then {p.h} else {}
    ensures p.Helper? ==> r == p.h.items && Distinct(r) && ToSet(r) == p.h.Members()
    ensures p.List? ==> r == p.ids
  {
    match p
    case Helper(h) => h.Elems()
    case List(ids) => ids
  }

  /** A click on a link selects, each once, exactly the ids both of its nodes hold. */
  lemma ClickLink(levels: seq<Level>, l: Link, c: Cand)
    requires Matches(levels, l, c)
    ensures var src, tgt := levels[c.level].nodes[c.src], levels[c.level + 1].nodes[c.tgt];
      var r := Select(List(l.overlap.Elems()));
      Distinct(r) && ToSet(r) == ToSet(src.ids) * ToSet(tgt.ids)
  {
    var src, tgt := levels[c.level].nodes[c.src], levels[c.level + 1].nodes[c.tgt];
    OverlapProps(src.ids, tgt.ids);
  }

  /**
   * A click on a node built from input node `s` of level `i` selects that input node's raw
   * ids, in their order and with any duplicates.
   */
  lemma ClickNode(levels: seq<Level>, n: Node, i: nat, s: nat)
    requires i < |levels| && s < |levels[i].nodes| && InputOf(n) == levels[i].nodes[s]
    ensures Select(List(n.ids)) == levels[i].nodes[s].ids
  {
  }
}
