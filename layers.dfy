/**
 * Layer aggregation, the loop shared by both `extractLayers` functions
 * (`src/lib/internal/sankey/model.ts` and `src/lib/components/sankey/model.ts`): nodes are
 * visited in order and each joins the layer record of its layer index, which the first
 * member creates and later members update in place.
 */
module Layers {
  import opened IdSeqs
  import opened Utils

  /**
   * A coordinate written by the layout engine, or `None` when it is unset. `Math.min` and
   * `Math.max` with an unset coordinate yield NaN, and NaN absorbs every later comparison, so
   * `None` is absorbing in `Min` and `Max`.
   */
  type Coord = Option<int>

  function Min(a: Coord, b: Coord): Coord
  {
    if a.Some? && b.Some? then Some(if a.value <= b.value then a.value else b.value) else None
  }

  function Max(a: Coord, b: Coord): Coord
  {
    if a.Some? && b.Some? then Some(if a.value >= b.value then a.value else b.value) else None
  }

  /** The `x0`, `x1`, `y0`, `y1` of a laid-out node. */
  datatype Box = Box(x0: Coord, x1: Coord, y0: Coord, y1: Coord)

  /**
   * One visited node as the aggregation sees it: its layer index, the node, its ids, its box
   * and the name its layer gets when the node is the first member.
   */
  datatype Entry<N> = Entry(key: nat, node: N, ids: set<Id>, box: Box, name: string)

  /** A layer record as a value: `id`, `name`, member nodes, the union of their ids, and the box. */
  datatype LayerVal<N> = LayerVal(id: string, name: string, nodes: seq<N>, ids: set<Id>,
                                  x0: Coord, x1: Coord, y0: Coord, y1: Coord)

  /** The record a layer's first member creates. */
  function Start<N>(e: Entry<N>): LayerVal<N>
  {
    LayerVal(NatToString(e.key), e.name, [e.node], e.ids, e.box.x0, e.box.x1, e.box.y0, e.box.y1)
  }

  /** A later member joins: its ids are added, `y0`/`y1` widen, and it is appended. */
  function Join<N>(l: LayerVal<N>, e: Entry<N>): LayerVal<N>
  {
    l.(nodes := l.nodes + [e.node], ids := l.ids + e.ids, y0 := Min(l.y0, e.box.y0), y1 := Max(l.y1, e.box.y1))
  }

  /** The layer records after visiting `es` in order, by layer index (a sparse array). */
  function Aggregate<N>(es: seq<Entry<N>>): map<nat, LayerVal<N>>
  {
    if es == [] then map[] else Step(Aggregate(es[..|es| - 1]), es[|es| - 1])
  }

  /** Visiting one more node. */
  function Step<N>(m: map<nat, LayerVal<N>>, e: Entry<N>): map<nat, LayerVal<N>>
  {
    if e.key in m then m[e.key := Join(m[e.key], e)] else m[e.key := Start(e)]
  }

  /** The nodes of `es` in layer `k`, in visiting order. */
  function Members<N>(es: seq<Entry<N>>, k: nat): seq<N>
  {
    if es == [] then []
    else Members(es[..|es| - 1], k) + (if es[|es| - 1].key == k then [es[|es| - 1].node] else [])
  }

  /** The layer indices of `es`, in visiting order. */
  function Keys<N>(es: seq<Entry<N>>): (ks: seq<nat>)
    ensures |ks| == |es| && forall j :: 0 <= j < |es| ==> ks[j] == es[j].key
  {
    seq(|es|, j requires 0 <= j < |es| => es[j].key)
  }

  /**
   * The `length` of the sparse array that holds the layers `ks`: one past the largest index,
   * as assigning `a[k]` makes it at least `k + 1`.
   */
  function Span(ks: seq<nat>): (n: nat)
    ensures forall j :: 0 <= j < |ks| ==> ks[j] < n
    ensures n > 0 ==> exists j :: 0 <= j < |ks| && ks[j] == n - 1
  {
    if ks == [] then 0
    else
      var p, k := Span(ks[..|ks| - 1]), ks[|ks| - 1];
      if p < k + 1 then k + 1 else p
  }

  /** No slot of that array below its length is a hole. */
  predicate Gapless(ks: seq<nat>)
  {
    forall k :: 0 <= k < Span(ks) ==> k in ks
  }

  /** Some entry of `es` has layer `k`. */
  predicate HasKey<N>(es: seq<Entry<N>>, k: nat)
  {
    exists j :: 0 <= j < |es| && es[j].key == k
  }

  /** The first entry of `es` in layer `k`. */
  function First<N>(es: seq<Entry<N>>, k: nat): (j: nat)
    requires HasKey(es, k)
    ensures j < |es| && es[j].key == k
    ensures forall i :: 0 <= i < j ==> es[i].key != k
  {
    if es[0].key == k then 0
    else
      assert HasKey(es[1..], k) by {
        var j :| 0 <= j < |es| && es[j].key == k;
        assert es[1..][j - 1] == es[j];
      }
      First(es[1..], k) + 1
  }

  lemma HasKeySnoc<N>(es: seq<Entry<N>>, k: nat)
    requires es != []
    ensures HasKey(es, k) <==> HasKey(es[..|es| - 1], k) || es[|es| - 1].key == k
  {
    var init := es[..|es| - 1];
    if HasKey(es, k) && es[|es| - 1].key != k {
      var j :| 0 <= j < |es| && es[j].key == k;
      assert init[j] == es[j];
    }
    if HasKey(init, k) {
      var j :| 0 <= j < |init| && init[j].key == k;
      assert es[j] == init[j];
    }
  }

  /** There is a layer record for exactly the layer indices some node has. */
  lemma {:induction false} AggregateKeys<N>(es: seq<Entry<N>>, k: nat)
    ensures k in Aggregate(es) <==> HasKey(es, k)
  {
    if es != [] {
      AggregateKeys(es[..|es| - 1], k);
      HasKeySnoc(es, k);
    }
  }

  /** The record of layer `k` has id `"k"`, and the name and `x0`/`x1` of its first member. */
  lemma {:induction false} AggregateHead<N>(es: seq<Entry<N>>, k: nat)
    requires k in Aggregate(es)
    ensures HasKey(es, k)
    ensures var l, f := Aggregate(es)[k], es[First(es, k)];
      l.id == NatToString(k) && l.name == f.name && l.x0 == f.box.x0 && l.x1 == f.box.x1
  {
    var init, e := es[..|es| - 1], es[|es| - 1];
    AggregateKeys(es, k);
    AggregateKeys(init, k);
    if k in Aggregate(init) {
      AggregateHead(init, k);
      FirstSnoc(es, k);
    } else {
      FirstLast(es, k);
    }
  }

  /** The record of layer `k` lists exactly the nodes of layer `k`, in visiting order. */
  lemma {:induction false} AggregateMembers<N>(es: seq<Entry<N>>, k: nat)
    requires k in Aggregate(es)
    ensures Aggregate(es)[k].nodes == Members(es, k)
  {
    var init := es[..|es| - 1];
    AggregateKeys(es, k);
    AggregateKeys(init, k);
    if k in Aggregate(init) {
      AggregateMembers(init, k);
    } else {
      MembersNone(init, k);
    }
  }

  /** The record of layer `k` holds exactly the ids of the nodes of layer `k`. */
  lemma {:induction false} AggregateIds<N>(es: seq<Entry<N>>, k: nat, x: Id)
    requires k in Aggregate(es)
    ensures x in Aggregate(es)[k].ids <==> exists j :: 0 <= j < |es| && es[j].key == k && x in es[j].ids
  {
    var init := es[..|es| - 1];
    AggregateKeys(es, k);
    AggregateKeys(init, k);
    if k in Aggregate(init) {
      AggregateIds(init, k, x);
    } else {
      assert forall j :: 0 <= j < |init| ==> init[j].key != k;
    }
    IdsSnoc(es, k, x);
  }

  /** The first entry of layer `k` is the one with no earlier entry of layer `k`. */
  lemma FirstUnique<N>(es: seq<Entry<N>>, k: nat, j: nat)
    requires j < |es| && es[j].key == k && forall i :: 0 <= i < j ==> es[i].key != k
    ensures HasKey(es, k) && First(es, k) == j
  {
    assert HasKey(es, k);
    var a := First(es, k);
    assert !(a < j);
  }

  lemma FirstSnoc<N>(es: seq<Entry<N>>, k: nat)
    requires es != [] && HasKey(es[..|es| - 1], k)
    ensures HasKey(es, k) && First(es, k) == First(es[..|es| - 1], k)
  {
    var init := es[..|es| - 1];
    var b := First(init, k);
    assert es[b] == init[b];
    assert forall i :: 0 <= i < b ==> es[i] == init[i];
    FirstUnique(es, k, b);
  }

  lemma FirstLast<N>(es: seq<Entry<N>>, k: nat)
    requires es != [] && es[|es| - 1].key == k
    requires forall j :: 0 <= j < |es| - 1 ==> es[j].key != k
    ensures HasKey(es, k) && First(es, k) == |es| - 1
  {
    FirstUnique(es, k, |es| - 1);
  }

  lemma {:induction false} MembersNone<N>(es: seq<Entry<N>>, k: nat)
    requires forall j :: 0 <= j < |es| ==> es[j].key != k
    ensures Members(es, k) == []
  {
    if es != [] {
      MembersNone(es[..|es| - 1], k);
    }
  }

  lemma IdsSnoc<N>(es: seq<Entry<N>>, k: nat, x: Id)
    requires es != []
    ensures (exists j :: 0 <= j < |es| && es[j].key == k && x in es[j].ids)
      <==> ((exists j :: 0 <= j < |es| - 1 && es[j].key == k && x in es[j].ids)
            || (es[|es| - 1].key == k && x in es[|es| - 1].ids))
  {
    var init := es[..|es| - 1];
    if exists j :: 0 <= j < |es| - 1 && es[j].key == k && x in es[j].ids {
    }
  }

  /**
   * `y0` is the least `y0` of the layer's members and `y1` the greatest `y1`; once a member has
   * no coordinate, the layer has none either.
   */
  lemma {:induction false} AggregateExtent<N>(es: seq<Entry<N>>, k: nat)
    requires k in Aggregate(es)
    ensures var l := Aggregate(es)[k];
      && (l.y0.Some? <==> forall j :: 0 <= j < |es| && es[j].key == k ==> es[j].box.y0.Some?)
      && (l.y0.Some? ==> forall j :: 0 <= j < |es| && es[j].key == k ==> l.y0.value <= es[j].box.y0.value)
      && (l.y0.Some? ==> exists j :: 0 <= j < |es| && es[j].key == k && es[j].box.y0 == l.y0)
      && (l.y1.Some? <==> forall j :: 0 <= j < |es| && es[j].key == k ==> es[j].box.y1.Some?)
      && (l.y1.Some? ==> forall j :: 0 <= j < |es| && es[j].key == k ==> l.y1.value >= es[j].box.y1.value)
      && (l.y1.Some? ==> exists j :: 0 <= j < |es| && es[j].key == k && es[j].box.y1 == l.y1)
  {
    var init, e := es[..|es| - 1], es[|es| - 1];
    var l := Aggregate(es)[k];
    AggregateKeys(init, k);
    if k in Aggregate(init) {
      AggregateExtent(init, k);
      var p := Aggregate(init)[k];
      if e.key == k {
        assert l.y0 == Min(p.y0, e.box.y0) && l.y1 == Max(p.y1, e.box.y1);
        ExtentStep(es, k);
      } else {
        assert l == p;
        ExtentSkip(es, k);
      }
    } else {
      assert e.key == k && l == Start(e);
      ExtentOnly(es, k);
    }
  }

  /** The extent facts of `init` carry over to `es` when the last entry has another layer. */
  lemma ExtentSkip<N>(es: seq<Entry<N>>, k: nat)
    requires es != [] && es[|es| - 1].key != k
    ensures forall j :: 0 <= j < |es| && es[j].key == k ==> j < |es| - 1 && es[j] == es[..|es| - 1][j]
  {
  }

  /** Only the last entry has layer `k`. */
  lemma ExtentOnly<N>(es: seq<Entry<N>>, k: nat)
    requires es != [] && es[|es| - 1].key == k && !HasKey(es[..|es| - 1], k)
    ensures forall j :: 0 <= j < |es| && es[j].key == k ==> j == |es| - 1
  {
  }

  /** The entries of layer `k` are those of `init` plus the last one. */
  lemma ExtentStep<N>(es: seq<Entry<N>>, k: nat)
    requires es != [] && es[|es| - 1].key == k
    ensures forall j :: 0 <= j < |es| && es[j].key == k ==> j == |es| - 1 || es[j] == es[..|es| - 1][j]
  {
  }

  /** A layer record that the source updates in place. */
  class Layer<N> {
    const id: string
    const name: string
    const overlap: OverlapHelper
    const x0: Coord
    const x1: Coord
    var y0: Coord
    var y1: Coord
    var nodes: seq<N>

    constructor (e: Entry<N>, overlap: OverlapHelper)
      ensures id == NatToString(e.key) && name == e.name && this.overlap == overlap
      ensures x0 == e.box.x0 && x1 == e.box.x1 && y0 == e.box.y0 && y1 == e.box.y1 && nodes == [e.node]
    {
      id, name, this.overlap := NatToString(e.key), e.name, overlap;
      x0, x1, y0, y1 := e.box.x0, e.box.x1, e.box.y0, e.box.y1;
      nodes := [e.node];
    }

    /** The record as a value. */
    ghost function Value(): LayerVal<N>
      reads this, overlap
    {
      LayerVal(id, name, nodes, overlap.Members(), x0, x1, y0, y1)
    }
  }

  /**
   * `layers` holds the records `agg` describes; `owners` tells which layer each record's id set
   * belongs to, so no two records share one.
   */
  ghost predicate Holds<N>(layers: map<nat, Layer<N>>, owners: map<OverlapHelper, nat>, agg: map<nat, LayerVal<N>>)
    reads layers.Values, set k | k in layers :: layers[k].overlap
  {
    && layers.Keys == agg.Keys
    && forall k :: k in layers ==>
         && layers[k].overlap.Valid() && layers[k].Value() == agg[k]
         && layers[k].overlap in owners && owners[layers[k].overlap] == k
  }

  /** The record in slot `k`, if any: what a later member of layer `k` updates. */
  function Slot<N>(layers: map<nat, Layer<N>>, k: nat): set<Layer<N>>
  {
    if k in layers then {layers[k]} else {}
  }

  /** The id set of the record in slot `k`, if any. */
  function SlotSet<N>(layers: map<nat, Layer<N>>, k: nat): set<OverlapHelper>
  {
    if k in layers then {layers[k].overlap} else {}
  }

  /**
   * One pass of the loop: the node of `e` (whose id set is `ov`) creates its layer's record,
   * with a copy of `ov`, or joins it in place.
   */
  method Place<N>(layers: map<nat, Layer<N>>, ghost owners: map<OverlapHelper, nat>, e: Entry<N>, ov: OverlapHelper,
                  ghost agg: map<nat, LayerVal<N>>)
    returns (r: map<nat, Layer<N>>, ghost owners': map<OverlapHelper, nat>)
    requires Holds(layers, owners, agg)
    requires ov.Valid() && ov.Members() == e.ids && ov !in owners
    modifies Slot(layers, e.key)`y0, Slot(layers, e.key)`y1, Slot(layers, e.key)`nodes, SlotSet(layers, e.key)`items
    ensures Holds(r, owners', Step(agg, e))
    ensures forall k :: k in r ==> (k in layers && r[k] == layers[k]) || (fresh(r[k]) && fresh(r[k].overlap))
    ensures forall o :: o in owners' ==> o in owners || fresh(o)
  {
    if e.key in layers {
      JoinLayer(layers, owners, e, ov, agg);
      r, owners' := layers, owners;
    } else {
      var copy := ov.Copy();
      var l := new Layer(e, copy);
      r, owners' := layers[e.key := l], owners[copy := e.key];
    }
  }

  /**
   * The aggregation loop: the entries are visited in order, `ovs[j]` being the id set of the
   * node of `es[j]`. The result holds a fresh record per layer index, and the array length is
   * one past the largest index.
   */
  method Collect<N>(es: seq<Entry<N>>, ovs: seq<OverlapHelper>)
    returns (layers: map<nat, Layer<N>>, len: nat, ghost owners: map<OverlapHelper, nat>)
    requires |ovs| == |es| && forall j :: 0 <= j < |es| ==> ovs[j].Valid() && ovs[j].Members() == es[j].ids
    ensures Holds(layers, owners, Aggregate(es)) && len == Span(Keys(es))
    ensures forall k :: k in layers ==> fresh(layers[k]) && fresh(layers[k].overlap)
  {
    layers, len, owners := map[], 0, map[];
    for i := 0 to |es|
      invariant Holds(layers, owners, Aggregate(es[..i])) && len == Span(Keys(es[..i]))
      invariant forall k :: k in layers ==> fresh(layers[k]) && fresh(layers[k].overlap)
      invariant forall o :: o in owners ==> fresh(o)
    {
      layers, owners := Place(layers, owners, es[i], ovs[i], Aggregate(es[..i]));
      KeysNext(es, i);
      if len < es[i].key + 1 {
        len := es[i].key + 1;
      }
    }
    assert es[..|es|] == es;
  }

  /** Visiting one more entry steps the aggregate, and moves the span up to its key. */
  lemma KeysNext<N>(es: seq<Entry<N>>, i: nat)
    requires i < |es|
    ensures Aggregate(es[..i + 1]) == Step(Aggregate(es[..i]), es[i])
    ensures Span(Keys(es[..i + 1])) == if Span(Keys(es[..i])) < es[i].key + 1 then es[i].key + 1 else Span(Keys(es[..i]))
  {
    assert es[..i + 1][..i] == es[..i];
    var ks := Keys(es[..i + 1]);
    assert ks[..i] == Keys(es[..i]);
    assert ks[i] == es[i].key;
  }

  /** A later member joins the record of its layer in place. */
  method JoinLayer<N>(layers: map<nat, Layer<N>>, ghost owners: map<OverlapHelper, nat>, e: Entry<N>, ov: OverlapHelper,
                      ghost agg: map<nat, LayerVal<N>>)
    requires Holds(layers, owners, agg) && e.key in layers
    requires ov.Valid() && ov.Members() == e.ids && ov !in owners
    modifies Slot(layers, e.key)`y0, Slot(layers, e.key)`y1, Slot(layers, e.key)`nodes, SlotSet(layers, e.key)`items
    ensures Holds(layers, owners, agg[e.key := Join(agg[e.key], e)])
  {
    var l := layers[e.key];
    assert forall k :: k in layers && k != e.key ==> layers[k] != l && layers[k].overlap != l.overlap;
    var _ := l.overlap.AddUpdate(ov);
    l.y0 := Min(l.y0, e.box.y0);
    l.y1 := Max(l.y1, e.box.y1);
    l.nodes := l.nodes + [e.node];
    HoldsJoin(layers, owners, agg, e, l);
  }

  lemma HoldsJoin<N>(layers: map<nat, Layer<N>>, owners: map<OverlapHelper, nat>, agg: map<nat, LayerVal<N>>,
                     e: Entry<N>, l: Layer<N>)
    requires layers.Keys == agg.Keys && e.key in layers && layers[e.key] == l
    requires forall k :: k in layers && k != e.key ==>
      layers[k].overlap.Valid() && layers[k].Value() == agg[k] && layers[k].overlap in owners && owners[layers[k].overlap] == k
    requires l.overlap.Valid() && l.Value() == Join(agg[e.key], e) && l.overlap in owners && owners[l.overlap] == e.key
    ensures Holds(layers, owners, agg[e.key := Join(agg[e.key], e)])
  {
  }

  /** `nodes.reduce((acc, v) => Math.max(acc, v.depth ?? 0), 0)`. */
  function MaxDepth(depths: seq<Option<nat>>): nat
  {
    if depths == [] then 0
    else
      var d := depths[|depths| - 1];
      var m, v := MaxDepth(depths[..|depths| - 1]), if d.Some? then d.value else 0;
      if m >= v then m else v
  }

  /** The greatest depth: no node is deeper, and it is 0 or the depth of some node. */
  lemma {:induction false} MaxDepthIsMax(depths: seq<Option<nat>>)
    ensures forall j :: 0 <= j < |depths| && depths[j].Some? ==> depths[j].value <= MaxDepth(depths)
    ensures MaxDepth(depths) == 0 || exists j :: 0 <= j < |depths| && depths[j] == Some(MaxDepth(depths))
  {
    if depths != [] {
      var init := depths[..|depths| - 1];
      MaxDepthIsMax(init);
      assert forall j :: 0 <= j < |init| ==> init[j] == depths[j];
    }
  }

  /** The `y1` of the filled slots of a sparse layer array, in index order: what `reduce` visits. */
  function SlotY1s<N>(layers: map<nat, Layer<N>>, len: nat): seq<Coord>
    reads layers.Values
  {
    if len == 0 then []
    else SlotY1s(layers, len - 1) + (if len - 1 in layers then [layers[len - 1].y1] else [])
  }

  /** `reduce((acc, v) => Math.max(acc, v), 0)` over coordinates; an unset one gives NaN. */
  function Peak(ys: seq<Coord>): Coord
  {
    if ys == [] then Some(0) else Max(Peak(ys[..|ys| - 1]), ys[|ys| - 1])
  }

  /**
   * The peak is a number exactly when every coordinate is set; it is then at least 0 and at
   * least each of them, and it is 0 or one of them.
   */
  lemma {:induction false} PeakIsMax(ys: seq<Coord>)
    ensures Peak(ys).Some? <==> forall j :: 0 <= j < |ys| ==> ys[j].Some?
    ensures Peak(ys).Some? ==> Peak(ys).value >= 0 && forall j :: 0 <= j < |ys| ==> ys[j].value <= Peak(ys).value
    ensures Peak(ys).Some? ==> Peak(ys).value == 0 || exists j :: 0 <= j < |ys| && ys[j] == Peak(ys)
  {
    if ys != [] {
      var init := ys[..|ys| - 1];
      PeakIsMax(init);
      assert forall j :: 0 <= j < |init| ==> init[j] == ys[j];
    }
  }
}
