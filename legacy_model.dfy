/**
 * The older graph model (`src/lib/components/sankey/model.ts`): the graph builder of layered
 * input, which besides the links keeps for every node a `missing` set, the ids that no
 * outgoing link carries; the layer records grouped by the layout's `depth`; and `isSelected`.
 * The input shape and the links are those of the `DashSankey` builder.
 */
module LegacyModel {
  import opened IdSeqs
  import opened Utils
  import opened LayeredLinks
  import opened Layers
  import D = DashSankey

  type NodeInput = D.NodeInput
  type Level = D.Level
  type Link = D.Link

  /**
   * A built node: the input fields, its id set, `fixedValue`, and `missing`, which starts as a
   * copy of the id set and loses what the node's outgoing links carry.
   */
  datatype Node = Node(id: string, name: string, ids: seq<Id>, overlap: OverlapHelper, fixedValue: nat,
                       missing: OverlapHelper)

  function InputOf(n: Node): NodeInput
  {
    D.NodeInput(n.id, n.name, n.ids)
  }

  function Inputs(nodes: seq<Node>): seq<NodeInput>
  {
    if nodes == [] then [] else Inputs(nodes[..|nodes| - 1]) + [InputOf(nodes[|nodes| - 1])]
  }

  lemma {:induction false} InputsConcat(a: seq<Node>, b: seq<Node>)
    ensures Inputs(a + b) == Inputs(a) + Inputs(b)
  {
    if b != [] {
      assert (a + b)[..|a + b| - 1] == a + b[..|b| - 1];
      InputsConcat(a, b[..|b| - 1]);
    } else {
      assert a + b == a;
    }
  }

  /** All nodes of `T`, level after level. */
  function Concat(T: seq<seq<Node>>): seq<Node>
  {
    if T == [] then [] else Concat(T[..|T| - 1]) + T[|T| - 1]
  }

  /** A node built from its input: the id set is its deduplicated ids, `fixedValue` counts duplicates. */
  ghost predicate Built(n: Node)
    reads n.overlap
  {
    n.overlap.Valid() && n.overlap.items == Dedup(n.ids) && n.fixedValue == |n.ids|
  }

  /** What an id set of the built levels is: the id set or the missing set of node `index` of level `level`. */
  datatype Role = OverlapOf(level: nat, index: nat) | MissingOf(level: nat, index: nat)

  /** `own` names the role of every id set of `T`: so no missing set is shared with another set. */
  ghost predicate Owned(T: seq<seq<Node>>, own: map<OverlapHelper, Role>)
  {
    forall i, s :: 0 <= i < |T| && 0 <= s < |T[i]| ==>
      && T[i][s].overlap in own && own[T[i][s].overlap] == OverlapOf(i, s)
      && T[i][s].missing in own && own[T[i][s].missing] == MissingOf(i, s)
  }

  /** The sets `own` names as id sets of nodes. */
  function Overlaps(own: map<OverlapHelper, Role>): set<OverlapHelper>
  {
    set o | o in own && own[o].OverlapOf?
  }

  /** The sets `own` names as missing sets of nodes: what the link loops deplete. */
  function Missings(own: map<OverlapHelper, Role>): set<OverlapHelper>
  {
    set o | o in own && own[o].MissingOf?
  }

  /** `T` has the shape of the first `|T|` levels of `levels`, node `s` of level `j` built from its input. */
  ghost predicate Shaped(levels: seq<Level>, T: seq<seq<Node>>)
  {
    && |T| <= |levels|
    && (forall j :: 0 <= j < |T| ==> |T[j]| == |levels[j].nodes|)
    && (forall j, s :: 0 <= j < |T| && 0 <= s < |T[j]| ==> InputOf(T[j][s]) == levels[j].nodes[s])
  }

  /** `T` holds the built nodes of the first `|T|` levels of `levels`, whose sets `own` names. */
  ghost predicate Rows(levels: seq<Level>, T: seq<seq<Node>>, own: map<OverlapHelper, Role>)
    reads Overlaps(own)
  {
    && Owned(T, own)
    && Shaped(levels, T)
    && (forall j, s :: 0 <= j < |T| && 0 <= s < |T[j]| ==> Built(T[j][s]))
  }

  /**
   * The missing set of every node of `T` holds its ids, each once, less those the links of
   * `cands` carry out of it.
   */
  ghost predicate Depleted(T: seq<seq<Node>>, own: map<OverlapHelper, Role>, L: seq<seq<seq<Id>>>, cands: seq<Cand>)
    reads Missings(own)
  {
    Owned(T, own) &&
    forall i, s :: 0 <= i < |T| && 0 <= s < |T[i]| ==>
      && i < |L| && s < |L[i]| && T[i][s].missing.Valid()
      && T[i][s].missing.items == Without(Dedup(L[i][s]), OutUnion(L, cands, i, s))
  }

  /** No link's id set is one of the sets `own` names. */
  ghost predicate Apart(links: seq<Link>, own: map<OverlapHelper, Role>)
  {
    forall k :: 0 <= k < |links| ==> links[k].overlap !in own
  }

  /**
   * `extractGraph(levels)`: the nodes in level order, the links between consecutive levels,
   * and the layer records of the nodes, none of which has a `depth` or a position yet. `T`
   * is `transformedLevels`. A node's missing set ends up holding its ids that no node of the
   * next level holds: all of them on the last level.
   */
  method ExtractGraph(levels: seq<Level>)
    returns (nodes: seq<Node>, links: seq<Link>, layers: map<nat, Layer<Placed>>, len: nat,
             ghost T: seq<seq<Node>>, ghost es: seq<Entry<Placed>>, ghost owners: map<OverlapHelper, nat>)
    ensures Inputs(nodes) == D.Flat(levels) && nodes == Concat(T)
    ensures |T| == |levels| && forall i :: 0 <= i < |T| ==> |T[i]| == |levels[i].nodes|
    ensures forall i, s :: 0 <= i < |T| && 0 <= s < |T[i]| ==> InputOf(T[i][s]) == levels[i].nodes[s] && Built(T[i][s])
    ensures forall k :: 0 <= k < |nodes| ==> fresh(nodes[k].overlap) && fresh(nodes[k].missing)
    ensures D.AllMatch(levels, links, Links(D.IdLevels(levels)))
    ensures forall i, s :: 0 <= i < |T| && 0 <= s < |T[i]| ==>
      && T[i][s].missing.Valid()
      && T[i][s].missing.items == Without(Dedup(levels[i].nodes[s].ids), NextIds(D.IdLevels(levels), i))
    ensures es == EntriesOf(Unplaced(nodes), levels)
    ensures Holds(layers, owners, Aggregate(es)) && len == Span(Keys(es))
  {
    ghost var own;
    var L := D.IdLevels(levels);
    var transformed;
    nodes, transformed, own := BuildLevels(levels);
    T := transformed;
    assert Inputs(nodes) == D.Flat(levels) by {
      ConcatInputs(levels, T, |T|);
      assert T[..|T|] == T && levels[..|T|] == levels;
    }
    DepletedStart(T, own, L);
    links := LinkLevels(levels, transformed, L, own);
    forall i, s | 0 <= i < |T| && 0 <= s < |T[i]|
      ensures T[i][s].missing.Valid()
      ensures T[i][s].missing.items == Without(Dedup(levels[i].nodes[s].ids), NextIds(L, i))
    {
      MissingOutLayered(L, i, s);
    }
    forall k | 0 <= k < |nodes|
      ensures fresh(nodes[k].overlap) && fresh(nodes[k].missing) && nodes[k].overlap.Valid()
    {
      ConcatAt(T, k);
    }
    var placed := Unplaced(nodes);
    layers, len, es, owners := ExtractLayers(placed, levels);
  }

  /**
   * `levels.map(level => level.nodes.map(...))`, with every built node also pushed onto
   * `nodes`; every node gets a fresh id set and a fresh copy of it as its missing set.
   */
  method BuildLevels(levels: seq<Level>) returns (nodes: seq<Node>, T: seq<seq<Node>>, ghost own: map<OverlapHelper, Role>)
    ensures nodes == Concat(T) && |T| == |levels| && Rows(levels, T, own)
    ensures forall o :: o in own ==> fresh(o)
    ensures forall i, s :: 0 <= i < |T| && 0 <= s < |T[i]| ==>
      && fresh(T[i][s].overlap) && fresh(T[i][s].missing)
      && T[i][s].missing.Valid() && T[i][s].missing.items == Dedup(T[i][s].ids)
  {
    nodes, T, own := [], [], map[];
    for i := 0 to |levels|
      invariant nodes == Concat(T) && |T| == i && Rows(levels, T, own)
      invariant forall o :: o in own ==> fresh(o)
      invariant forall i', s :: 0 <= i' < |T| && 0 <= s < |T[i']| ==>
        && fresh(T[i'][s].overlap) && fresh(T[i'][s].missing)
        && T[i'][s].missing.Valid() && T[i'][s].missing.items == Dedup(T[i'][s].ids)
    {
      var row;
      ghost var own0 := own;
      row, own := BuildLevel(levels[i].nodes, own, i);
      OwnedSnoc(T, row, own0, own);
      RowsSnoc(levels, T, row, own0, own);
      assert Concat(T + [row]) == Concat(T) + row by {
        assert (T + [row])[..|T|] == T;
      }
      nodes := nodes + row;
      T := T + [row];
    }
  }

  /**
   * `level.nodes.map(d => ...)` for level `i`: one built node per input node, each with its
   * own fresh id set and missing set, whose roles are added to `own`.
   */
  method BuildLevel(ns: seq<NodeInput>, ghost own: map<OverlapHelper, Role>, ghost i: nat)
    returns (row: seq<Node>, ghost own': map<OverlapHelper, Role>)
    ensures |row| == |ns|
    ensures forall s :: 0 <= s < |row| ==>
      && InputOf(row[s]) == ns[s] && Built(row[s]) && fresh(row[s].overlap) && fresh(row[s].missing)
      && row[s].missing.Valid() && row[s].missing.items == Dedup(ns[s].ids)
      && row[s].overlap in own' && own'[row[s].overlap] == OverlapOf(i, s)
      && row[s].missing in own' && own'[row[s].missing] == MissingOf(i, s)
    ensures forall o :: o in own ==> o in own' && own'[o] == own[o]
    ensures forall o :: o in own' ==> o in own || fresh(o)
  {
    row, own' := [], own;
    for s := 0 to |ns|
      invariant |row| == s
      invariant forall s' :: 0 <= s' < s ==>
        && InputOf(row[s']) == ns[s'] && Built(row[s']) && fresh(row[s'].overlap) && fresh(row[s'].missing)
        && row[s'].missing.Valid() && row[s'].missing.items == Dedup(ns[s'].ids)
        && row[s'].overlap in own' && own'[row[s'].overlap] == OverlapOf(i, s')
        && row[s'].missing in own' && own'[row[s'].missing] == MissingOf(i, s')
      invariant forall o :: o in own ==> o in own' && own'[o] == own[o]
      invariant forall o :: o in own' ==> o in own || fresh(o)
    {
      var n := NewNode(ns[s]);
      row := row + [n];
      own' := own'[n.overlap := OverlapOf(i, s)][n.missing := MissingOf(i, s)];
    }
  }

  /** `{...d, overlap, fixedValue: d.ids.length, missing: overlap.copy()}` with `overlap = new OverlapHelper(d.ids)`. */
  method NewNode(d: NodeInput) returns (n: Node)
    ensures InputOf(n) == d && Built(n) && fresh(n.overlap) && fresh(n.missing) && n.overlap != n.missing
    ensures n.missing.Valid() && n.missing.items == Dedup(d.ids)
  {
    var overlap := new OverlapHelper(d.ids);
    var missing := overlap.Copy();
    n := Node(d.id, d.name, d.ids, overlap, |d.ids|, missing);
  }

  lemma RowsSnoc(levels: seq<Level>, T: seq<seq<Node>>, row: seq<Node>, own: map<OverlapHelper, Role>,
                 own': map<OverlapHelper, Role>)
    requires Rows(levels, T, own) && |T| < |levels| && |row| == |levels[|T|].nodes|
    requires Owned(T + [row], own')
    requires forall s :: 0 <= s < |row| ==> InputOf(row[s]) == levels[|T|].nodes[s] && Built(row[s])
    ensures Rows(levels, T + [row], own')
  {
    var T' := T + [row];
    forall j, s | 0 <= j < |T'| && 0 <= s < |T'[j]|
      ensures InputOf(T'[j][s]) == levels[j].nodes[s] && Built(T'[j][s])
    {
      if j < |T| {
        assert T'[j] == T[j];
      }
    }
  }

  lemma OwnedSnoc(T: seq<seq<Node>>, row: seq<Node>, own: map<OverlapHelper, Role>, own': map<OverlapHelper, Role>)
    requires Owned(T, own) && forall o :: o in own ==> o in own' && own'[o] == own[o]
    requires forall s :: 0 <= s < |row| ==>
      && row[s].overlap in own' && own'[row[s].overlap] == OverlapOf(|T|, s)
      && row[s].missing in own' && own'[row[s].missing] == MissingOf(|T|, s)
    ensures Owned(T + [row], own')
  {
    var T': seq<seq<Node>> := T + [row];
    forall i, s | 0 <= i < |T'| && 0 <= s < |T'[i]|
      ensures T'[i][s].overlap in own' && own'[T'[i][s].overlap] == OverlapOf(i, s)
      ensures T'[i][s].missing in own' && own'[T'[i][s].missing] == MissingOf(i, s)
    {
      if i < |T| {
        assert T'[i] == T[i];
      }
    }
  }

  /** The inputs of the first `n` built levels are the nodes of the first `n` levels. */
  lemma {:induction false} ConcatInputs(levels: seq<Level>, T: seq<seq<Node>>, n: nat)
    requires Shaped(levels, T) && n <= |T|
    ensures Inputs(Concat(T[..n])) == D.Flat(levels[..n])
  {
    if n > 0 {
      ConcatInputs(levels, T, n - 1);
      assert T[..n][..n - 1] == T[..n - 1];
      assert levels[..n][..n - 1] == levels[..n - 1];
      InputsConcat(Concat(T[..n - 1]), T[n - 1]);
      RowInputs(T[n - 1], levels[n - 1].nodes);
    } else {
      assert levels[..0] == [];
    }
  }

  /** Every node of `Concat(T)` is a node of some level of `T`. */
  lemma {:induction false} ConcatAt(T: seq<seq<Node>>, k: nat)
    requires k < |Concat(T)|
    ensures exists i, s :: 0 <= i < |T| && 0 <= s < |T[i]| && Concat(T)[k] == T[i][s]
  {
    var init := T[..|T| - 1];
    if k < |Concat(init)| {
      ConcatAt(init, k);
      var i, s :| 0 <= i < |init| && 0 <= s < |init[i]| && Concat(init)[k] == init[i][s];
      assert T[i] == init[i];
    } else {
      assert Concat(T)[k] == T[|T| - 1][k - |Concat(init)|];
    }
  }

  lemma RowInputs(row: seq<Node>, ns: seq<NodeInput>)
    requires |row| == |ns| && forall s :: 0 <= s < |row| ==> InputOf(row[s]) == ns[s]
    ensures Inputs(row) == ns
  {
    if row != [] {
      RowInputs(row[..|row| - 1], ns[..|ns| - 1]);
    }
  }

  /** Before any link, every missing set holds its node's ids, each once. */
  lemma DepletedStart(T: seq<seq<Node>>, own: map<OverlapHelper, Role>, L: seq<seq<seq<Id>>>)
    requires Owned(T, own) && |T| == |L| && forall i :: 0 <= i < |T| ==> |T[i]| == |L[i]|
    requires forall i, s :: 0 <= i < |T| && 0 <= s < |T[i]| ==>
      T[i][s].missing.Valid() && T[i][s].missing.items == Dedup(T[i][s].ids) && T[i][s].ids == L[i][s]
    ensures Depleted(T, own, L, [])
  {
    forall i, s | 0 <= i < |T| && 0 <= s < |T[i]|
      ensures Without(Dedup(L[i][s]), OutUnion(L, [], i, s)) == Dedup(L[i][s])
    {
      WithoutNone(Dedup(L[i][s]), {});
    }
  }

  /** The state the link loops keep, apart from the walk itself. */
  ghost predicate Linking(levels: seq<Level>, T: seq<seq<Node>>, L: seq<seq<seq<Id>>>, own: map<OverlapHelper, Role>)
    reads Overlaps(own)
  {
    |T| == |levels| && Rows(levels, T, own) && D.IdsOf(L, levels)
  }

  /**
   * The link loops of `extractGraph`: every node of level `i` against every node of level
   * `i + 1`, each pair depleting the source's missing set by what the two share.
   */
  method LinkLevels(levels: seq<Level>, T: seq<seq<Node>>, ghost L: seq<seq<seq<Id>>>, ghost own: map<OverlapHelper, Role>)
    returns (links: seq<Link>)
    requires Linking(levels, T, L, own) && Depleted(T, own, L, [])
    modifies Missings(own)`items
    ensures Rows(levels, T, own)
    ensures D.AllMatch(levels, links, Links(L)) && Depleted(T, own, L, Links(L))
  {
    links := [];
    if |T| == 0 {
      return;
    }
    for i := 0 to |T| - 1
      invariant Linking(levels, T, L, own)
      invariant D.AllMatch(levels, links, LevelLinks(L, i + 1)) && Apart(links, own)
      invariant Depleted(T, own, L, LevelLinks(L, i + 1))
    {
      links := LinkSources(levels, T, L, own, i, links);
    }
  }

  /** The loop over the sources of level `i`. */
  method LinkSources(levels: seq<Level>, T: seq<seq<Node>>, ghost L: seq<seq<seq<Id>>>, ghost own: map<OverlapHelper, Role>,
                     i: nat, links0: seq<Link>)
    returns (links: seq<Link>)
    requires Linking(levels, T, L, own) && i + 1 < |T|
    requires D.AllMatch(levels, links0, LevelLinks(L, i + 1)) && Apart(links0, own)
    requires Depleted(T, own, L, LevelLinks(L, i + 1))
    modifies Missings(own)`items
    ensures Linking(levels, T, L, own)
    ensures D.AllMatch(levels, links, LevelLinks(L, i + 2)) && Apart(links, own)
    ensures Depleted(T, own, L, LevelLinks(L, i + 2))
  {
    links := links0;
    ghost var cands := LevelLinks(L, i + 1);
    WalkLevel(L, i);
    for s := 0 to |T[i]|
      invariant Linking(levels, T, L, own)
      invariant cands == SrcWalked(L, i, s)
      invariant D.AllMatch(levels, links, cands) && Apart(links, own) && Depleted(T, own, L, cands)
    {
      WalkStart(L, i, s);
      links, cands := LinkTargets(levels, T, L, own, i, s, links, cands);
      WalkSourceDone(L, i, s);
    }
  }

  /** The loop over the targets of source `s` of level `i`. */
  method LinkTargets(levels: seq<Level>, T: seq<seq<Node>>, ghost L: seq<seq<seq<Id>>>, ghost own: map<OverlapHelper, Role>,
                     i: nat, s: nat, links0: seq<Link>, ghost cands0: seq<Cand>)
    returns (links: seq<Link>, ghost cands: seq<Cand>)
    requires Linking(levels, T, L, own) && i + 1 < |T| && s < |T[i]|
    requires cands0 == Walked(L, i, s, 0)
    requires D.AllMatch(levels, links0, cands0) && Apart(links0, own) && Depleted(T, own, L, cands0)
    modifies Missings(own)`items
    ensures Linking(levels, T, L, own)
    ensures cands == Walked(L, i, s, |T[i + 1]|)
    ensures D.AllMatch(levels, links, cands) && Apart(links, own) && Depleted(T, own, L, cands)
  {
    links, cands := links0, cands0;
    for t := 0 to |T[i + 1]|
      invariant Linking(levels, T, L, own)
      invariant cands == Walked(L, i, s, t)
      invariant D.AllMatch(levels, links, cands) && Apart(links, own) && Depleted(T, own, L, cands)
    {
      links, cands := LinkPair(levels, T, L, own, i, s, t, links, cands);
    }
  }

  /**
   * One pass of the innermost loop: the two nodes' shared ids leave the source's missing set,
   * and make a link when there are any.
   */
  method LinkPair(levels: seq<Level>, T: seq<seq<Node>>, ghost L: seq<seq<seq<Id>>>, ghost own: map<OverlapHelper, Role>,
                  i: nat, s: nat, t: nat, links0: seq<Link>, ghost cands0: seq<Cand>)
    returns (links: seq<Link>, ghost cands: seq<Cand>)
    requires Linking(levels, T, L, own) && i + 1 < |T| && s < |T[i]| && t < |T[i + 1]|
    requires cands0 == Walked(L, i, s, t)
    requires D.AllMatch(levels, links0, cands0) && Apart(links0, own) && Depleted(T, own, L, cands0)
    modifies T[i][s].missing`items
    ensures Linking(levels, T, L, own)
    ensures cands == Walked(L, i, s, t + 1)
    ensures D.AllMatch(levels, links, cands) && Apart(links, own) && Depleted(T, own, L, cands)
  {
    var overlap := Deplete(levels, T, L, own, i, s, t, links0, cands0);
    links, cands := Push(levels, T, L, own, i, s, t, links0, cands0, overlap);
  }

  /** The end of the pass: the link over the shared ids `overlap` is pushed when there are any. */
  method Push(levels: seq<Level>, T: seq<seq<Node>>, ghost L: seq<seq<seq<Id>>>, ghost own: map<OverlapHelper, Role>,
              i: nat, s: nat, t: nat, links0: seq<Link>, ghost cands0: seq<Cand>, overlap: OverlapHelper)
    returns (links: seq<Link>, ghost cands: seq<Cand>)
    requires Linking(levels, T, L, own) && i + 1 < |T| && s < |T[i]| && t < |T[i + 1]|
    requires cands0 == Walked(L, i, s, t) && D.AllMatch(levels, links0, cands0) && Apart(links0, own)
    requires overlap.Valid() && overlap.items == Overlap(L[i][s], L[i + 1][t]) && overlap !in own
    ensures cands == Walked(L, i, s, t + 1)
    ensures D.AllMatch(levels, links, cands) && Apart(links, own)
  {
    WalkStep(L, i, s, t);
    OverlapNonEmpty(L[i][s], L[i + 1][t]);
    var found := Emit(levels, T[i][s], T[i + 1][t], overlap, i, s, t);
    if found.Some? {
      var c := Cand(i, s, t);
      D.MatchesSnoc(levels, links0, cands0, found.value, c);
      links, cands := links0 + [found.value], cands0 + [c];
    } else {
      links, cands := links0, cands0;
    }
  }

  /** The link from `lNode` to `rNode` over their shared ids `overlap`, when there are any. */
  method Emit(levels: seq<Level>, lNode: Node, rNode: Node, overlap: OverlapHelper, ghost i: nat, ghost s: nat, ghost t: nat)
    returns (found: Option<Link>)
    requires i + 1 < |levels| && s < |levels[i].nodes| && t < |levels[i + 1].nodes|
    requires InputOf(lNode) == levels[i].nodes[s] && InputOf(rNode) == levels[i + 1].nodes[t]
    requires overlap.Valid() && overlap.items == Overlap(lNode.ids, rNode.ids)
    ensures found.Some? <==> overlap.items != []
    ensures found.Some? ==> found.value.overlap == overlap && D.Matches(levels, found.value, Cand(i, s, t))
  {
    if overlap.IsNotEmpty() {
      var l := D.Link(lNode.id + "-" + rNode.id, lNode.name + " \U{2192} " + rNode.name,
                      overlap.Size(), overlap, lNode.id, rNode.id);
      assert D.LinkOf(l, InputOf(lNode), InputOf(rNode));
      found := Some(l);
    } else {
      found := None;
    }
  }

  /**
   * `lNode.overlap.intersect(rNode.overlap)` for source `s` of level `i` and target `t`: a new
   * set, so the state of the loops stays as it was.
   */
  method Meet(levels: seq<Level>, T: seq<seq<Node>>, ghost L: seq<seq<seq<Id>>>, ghost own: map<OverlapHelper, Role>,
              i: nat, s: nat, t: nat, links: seq<Link>, ghost cands: seq<Cand>)
    returns (overlap: OverlapHelper)
    requires Linking(levels, T, L, own) && i + 1 < |T| && s < |T[i]| && t < |T[i + 1]|
    requires D.AllMatch(levels, links, cands) && Depleted(T, own, L, cands)
    ensures Linking(levels, T, L, own) && D.AllMatch(levels, links, cands) && Depleted(T, own, L, cands)
    ensures overlap.Valid() && overlap.items == Overlap(L[i][s], L[i + 1][t]) && overlap !in own
  {
    var lNode, rNode := T[i][s], T[i + 1][t];
    overlap := lNode.overlap.Intersect(rNode.overlap);
    DedupProps(lNode.ids);
  }

  /**
   * `lNode.missing.withoutUpdate(overlap)`: the source's missing set loses what the pair
   * shares, which is what the walk's next state adds to the source's outgoing links; every
   * other set stays as it was.
   */
  method Deplete(levels: seq<Level>, T: seq<seq<Node>>, ghost L: seq<seq<seq<Id>>>, ghost own: map<OverlapHelper, Role>,
                 i: nat, s: nat, t: nat, links: seq<Link>, ghost cands: seq<Cand>)
    returns (overlap: OverlapHelper)
    requires Linking(levels, T, L, own) && i + 1 < |T| && s < |T[i]| && t < |T[i + 1]|
    requires cands == Walked(L, i, s, t) && D.AllMatch(levels, links, cands) && Apart(links, own) && Depleted(T, own, L, cands)
    modifies T[i][s].missing`items
    ensures Linking(levels, T, L, own) && D.AllMatch(levels, links, cands)
    ensures Depleted(T, own, L, Walked(L, i, s, t + 1))
    ensures overlap.Valid() && overlap.items == Overlap(L[i][s], L[i + 1][t]) && overlap !in own
  {
    overlap := Meet(levels, T, L, own, i, s, t, links, cands);
    Withdraw(T, own, L, cands, i, s, t, overlap);
  }

  /** The same, for the missing sets alone. */
  method Withdraw(T: seq<seq<Node>>, ghost own: map<OverlapHelper, Role>, ghost L: seq<seq<seq<Id>>>, ghost cands: seq<Cand>,
                  i: nat, s: nat, t: nat, overlap: OverlapHelper)
    requires i + 1 < |T| && s < |T[i]| && t < |T[i + 1]| && i + 1 < |L| && s < |L[i]| && t < |L[i + 1]|
    requires cands == Walked(L, i, s, t) && Depleted(T, own, L, cands)
    requires overlap.Valid() && overlap.items == Overlap(L[i][s], L[i + 1][t]) && overlap !in own
    modifies T[i][s].missing`items
    ensures Depleted(T, own, L, Walked(L, i, s, t + 1))
  {
    var m := T[i][s].missing;
    ghost var next := Walked(L, i, s, t + 1);
    DepleteSelf(L, cands, i, s, t, m.items);
    var _ := m.WithoutUpdate(overlap);
    assert m.Valid() && m.items == Without(Dedup(L[i][s]), OutUnion(L, next, i, s));
    forall j, r | 0 <= j < |T| && 0 <= r < |T[j]|
      ensures j < |L| && r < |L[j]| && T[j][r].missing.Valid()
      ensures T[j][r].missing.items == Without(Dedup(L[j][r]), OutUnion(L, next, j, r))
    {
      if j != i || r != s {
        assert T[j][r].missing != m;
        DepleteOther(L, cands, i, s, t, j, r);
      }
    }
  }

  /** The missing set of source `s` after the pair `(s, t)`, as the walk's next state says. */
  lemma DepleteSelf(L: seq<seq<seq<Id>>>, cands: seq<Cand>, i: nat, s: nat, t: nat, before: seq<Id>)
    requires i + 1 < |L| && s < |L[i]| && t < |L[i + 1]| && cands == Walked(L, i, s, t)
    requires before == Without(Dedup(L[i][s]), OutUnion(L, cands, i, s))
    ensures Without(before, ToSet(Overlap(L[i][s], L[i + 1][t])))
      == Without(Dedup(L[i][s]), OutUnion(L, Walked(L, i, s, t + 1), i, s))
  {
    var a, b := L[i][s], L[i + 1][t];
    WalkStep(L, i, s, t);
    OverlapProps(a, b);
    OverlapNonEmpty(a, b);
    WithoutWithout(Dedup(a), OutUnion(L, cands, i, s), ToSet(Overlap(a, b)));
    if Shares(a, b) {
      OutUnionSnoc(L, cands, Cand(i, s, t), i, s);
    } else {
      assert cands + [] == cands;
      WithoutNone(before, ToSet(Overlap(a, b)));
    }
  }

  /** The pair `(s, t)` takes nothing out of any other node. */
  lemma DepleteOther(L: seq<seq<seq<Id>>>, cands: seq<Cand>, i: nat, s: nat, t: nat, j: nat, r: nat)
    requires i + 1 < |L| && s < |L[i]| && t < |L[i + 1]| && cands == Walked(L, i, s, t) && (j != i || r != s)
    ensures OutUnion(L, Walked(L, i, s, t + 1), j, r) == OutUnion(L, cands, j, r)
  {
    WalkStep(L, i, s, t);
    if Shares(L[i][s], L[i + 1][t]) {
      OutUnionSnoc(L, cands, Cand(i, s, t), j, r);
    } else {
      assert cands + [] == cands;
    }
  }

  /** A node laid out by the engine: the node with its `depth` and its box, or neither yet. */
  datatype Placed = Placed(node: Node, depth: Option<nat>, box: Box)

  /** The nodes as `extractGraph` hands them to `extractLayers`: before any layout. */
  function Unplaced(nodes: seq<Node>): (ps: seq<Placed>)
    ensures |ps| == |nodes|
    ensures forall j :: 0 <= j < |nodes| ==> ps[j] == Placed(nodes[j], None, Box(None, None, None, None))
  {
    seq(|nodes|, j requires 0 <= j < |nodes| => Placed(nodes[j], None, Box(None, None, None, None)))
  }

  /** `depth ?? 0`. */
  function DepthKey(depth: Option<nat>): nat
  {
    if depth.Some? then depth.value else 0
  }

  /** `levels[k]?.name ?? `Layer ${k}``. */
  function LevelName(levels: seq<Level>, k: nat): (r: string)
    ensures k < |levels| ==> r == levels[k].name
    ensures k >= |levels| ==> r == "Layer " + NatToString(k)
  {
    if k < |levels| then levels[k].name else "Layer " + NatToString(k)
  }

  /** What laid-out node `p` contributes to its layer. */
  ghost function EntryAt(p: Placed, levels: seq<Level>): Entry<Placed>
    reads p.node.overlap
  {
    var k := DepthKey(p.depth);
    Entry(k, p, p.node.overlap.Members(), p.box, LevelName(levels, k))
  }

  /** What the nodes contribute, in order. */
  ghost function EntriesOf(ps: seq<Placed>, levels: seq<Level>): (es: seq<Entry<Placed>>)
    reads set j | 0 <= j < |ps| :: ps[j].node.overlap
    ensures |es| == |ps| && forall j :: 0 <= j < |ps| ==> es[j] == EntryAt(ps[j], levels)
  {
    seq(|ps|, j requires 0 <= j < |ps| reads set j | 0 <= j < |ps| :: ps[j].node.overlap => EntryAt(ps[j], levels))
  }

  /**
   * `extractLayers(nodes, levels)`: the sparse array of layer records, each the aggregate of
   * the nodes of that `depth` (0 when unset), in order, named after the level of that index.
   */
  method ExtractLayers(ps: seq<Placed>, levels: seq<Level>)
    returns (layers: map<nat, Layer<Placed>>, len: nat, ghost es: seq<Entry<Placed>>, ghost owners: map<OverlapHelper, nat>)
    requires forall j :: 0 <= j < |ps| ==> ps[j].node.overlap.Valid()
    ensures es == EntriesOf(ps, levels)
    ensures Holds(layers, owners, Aggregate(es)) && len == Span(Keys(es))
    ensures forall k :: k in layers ==> fresh(layers[k]) && fresh(layers[k].overlap)
  {
    es := EntriesOf(ps, levels);
    var entries := seq(|ps|, j requires 0 <= j < |ps| reads set j | 0 <= j < |ps| :: ps[j].node.overlap =>
      Entry(DepthKey(ps[j].depth), ps[j], ToSet(ps[j].node.overlap.items), ps[j].box, LevelName(levels, DepthKey(ps[j].depth))));
    assert entries == es;
    var ovs := seq(|ps|, j requires 0 <= j < |ps| => ps[j].node.overlap);
    layers, len, owners := Collect(entries, ovs);
  }

  /**
   * Before layout no node has a `depth`, so all nodes land in one layer, 0, named after the
   * first level, whose record lists them all and holds all their ids.
   */
  lemma AllInLayerZero(ps: seq<Placed>, levels: seq<Level>, es: seq<Entry<Placed>>, x: Id)
    requires es == EntriesOf(ps, levels) && forall j :: 0 <= j < |ps| ==> ps[j].depth.None?
    ensures Span(Keys(es)) == if ps == [] then 0 else 1
    ensures forall k :: k in Aggregate(es) ==> k == 0
    ensures ps != [] ==>
      && 0 in Aggregate(es)
      && Aggregate(es)[0].nodes == ps && Aggregate(es)[0].name == LevelName(levels, 0)
      && (x in Aggregate(es)[0].ids <==> exists j :: 0 <= j < |ps| && x in ps[j].node.overlap.Members())
  {
    forall k | k in Aggregate(es)
      ensures k == 0
    {
      AggregateKeys(es, k);
    }
    if ps != [] {
      AggregateKeys(es, 0);
      assert es[0].key == 0;
      AggregateMembers(es, 0);
      MembersAll(es, ps);
      AggregateHead(es, 0);
      AggregateIds(es, 0, x);
      assert Keys(es)[0] == 0;
    }
  }

  lemma {:induction false} MembersAll(es: seq<Entry<Placed>>, ps: seq<Placed>)
    requires |es| == |ps| && forall j :: 0 <= j < |es| ==> es[j].key == 0 && es[j].node == ps[j]
    ensures Members(es, 0) == ps
  {
    if es != [] {
      MembersAll(es[..|es| - 1], ps[..|ps| - 1]);
    }
  }

  /** The element kinds of this model's selections: `'node' | 'link' | 'missing' | 'layer'`. */
  datatype Kind = NodeKind | LinkKind | MissingKind | LayerKind

  /** A selection: a plain list of ids, or a typed one. */
  datatype Selection = Ids(ids: seq<Id>) | Typed(kind: Kind, id: string, ids: seq<Id>)

  /** `isSelected(selection, type, id)`: only a typed selection of that kind and id. */
  function IsSelected(selection: Option<Selection>, k: Kind, id: string): (r: bool)
    ensures r <==> exists ids :: selection == Some(Typed(k, id, ids))
  {
    selection.Some? && selection.value.Typed? && selection.value.kind == k && selection.value.id == id
  }
}
