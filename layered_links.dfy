/**
 * Link inference on layered input, shared by the three graph builders: every node of level
 * `i` is paired with every node of level `i + 1`, in level, source, target order, and a pair
 * becomes a link when the two id sets overlap. Levels are given by their nodes' id lists:
 * `L[i][s]` is the `ids` of node `s` of level `i`.
 */
module LayeredLinks {
  import opened IdSeqs

  /** A link found between node `src` of level `level` and node `tgt` of the next level. */
  datatype Cand = Cand(level: nat, src: nat, tgt: nat)

  /**
   * `source.overlap.intersect(target.overlap)`: the target's deduplicated ids that the source
   * also holds, in the target's order.
   */
  function Overlap(a: seq<Id>, b: seq<Id>): seq<Id>
  {
    Only(Dedup(b), ToSet(a))
  }

  /** The intersection holds each shared id once, and nothing else. */
  lemma OverlapProps(a: seq<Id>, b: seq<Id>)
    ensures Distinct(Overlap(a, b))
    ensures ToSet(Overlap(a, b)) == ToSet(a) * ToSet(b)
  {
    DedupProps(b);
    OnlyProps(Dedup(b), ToSet(a));
  }

  /** Two nodes share an id. */
  predicate Shares(a: seq<Id>, b: seq<Id>)
  {
    ToSet(a) * ToSet(b) != {}
  }

  /** The intersection is non-empty exactly when the two id lists share an id. */
  lemma OverlapNonEmpty(a: seq<Id>, b: seq<Id>)
    ensures Overlap(a, b) != [] <==> Shares(a, b)
  {
    OverlapProps(a, b);
    EmptyToSet(Overlap(a, b));
  }

  /** Node `src` of level `level` and node `tgt` of the level after it exist. */
  predicate InRange(L: seq<seq<seq<Id>>>, c: Cand)
  {
    c.level + 1 < |L| && c.src < |L[c.level]| && c.tgt < |L[c.level + 1]|
  }

  /** `c` is a link the layered walk must produce. */
  predicate IsLink(L: seq<seq<seq<Id>>>, c: Cand)
  {
    InRange(L, c) && Shares(L[c.level][c.src], L[c.level + 1][c.tgt])
  }

  /** The ids a candidate's link carries: those both of its nodes hold. */
  function Carried(L: seq<seq<seq<Id>>>, c: Cand): set<Id>
  {
    if InRange(L, c) then ToSet(L[c.level][c.src]) * ToSet(L[c.level + 1][c.tgt]) else {}
  }

  /**
   * The links from source `s` (ids `a`) of level `i` to the first `t` nodes of the next
   * level `right`.
   */
  function TgtLinks(i: nat, s: nat, a: seq<Id>, right: seq<seq<Id>>, t: nat): seq<Cand>
    requires t <= |right|
  {
    if t == 0 then []
    else TgtLinks(i, s, a, right, t - 1) + (if Shares(a, right[t - 1]) then [Cand(i, s, t - 1)] else [])
  }

  /** The links from the first `s` nodes of level `i` (`left`) to the next level `right`. */
  function SrcLinks(i: nat, left: seq<seq<Id>>, right: seq<seq<Id>>, s: nat): seq<Cand>
    requires s <= |left|
  {
    if s == 0 then [] else SrcLinks(i, left, right, s - 1) + TgtLinks(i, s - 1, left[s - 1], right, |right|)
  }

  /** The links among the first `n` levels: those leaving levels `0` to `n - 2`. */
  function LevelLinks(L: seq<seq<seq<Id>>>, n: nat): seq<Cand>
    requires n <= |L|
  {
    if n <= 1 then [] else LevelLinks(L, n - 1) + SrcLinks(n - 2, L[n - 2], L[n - 1], |L[n - 2]|)
  }

  /** All links of the layered walk; the loop over levels stops before the last one. */
  function Links(L: seq<seq<seq<Id>>>): seq<Cand>
  {
    LevelLinks(L, |L|)
  }

  lemma {:induction false} TgtLinksIff(i: nat, s: nat, a: seq<Id>, right: seq<seq<Id>>, t: nat, c: Cand)
    requires t <= |right|
    ensures c in TgtLinks(i, s, a, right, t)
      <==> c.level == i && c.src == s && c.tgt < t && Shares(a, right[c.tgt])
  {
    if t > 0 {
      TgtLinksIff(i, s, a, right, t - 1, c);
    }
  }

  lemma {:induction false} SrcLinksIff(i: nat, left: seq<seq<Id>>, right: seq<seq<Id>>, s: nat, c: Cand)
    requires s <= |left|
    ensures c in SrcLinks(i, left, right, s)
      <==> c.level == i && c.src < s && c.tgt < |right| && Shares(left[c.src], right[c.tgt])
  {
    if s > 0 {
      SrcLinksIff(i, left, right, s - 1, c);
      TgtLinksIff(i, s - 1, left[s - 1], right, |right|, c);
    }
  }

  lemma {:induction false} LevelLinksIff(L: seq<seq<seq<Id>>>, n: nat, c: Cand)
    requires n <= |L|
    ensures c in LevelLinks(L, n) <==> IsLink(L, c) && c.level + 1 < n
  {
    if n > 1 {
      LevelLinksIff(L, n - 1, c);
      SrcLinksIff(n - 2, L[n - 2], L[n - 1], |L[n - 2]|, c);
      IsLinkAt(L, n - 2, c);
    }
  }

  /** The links of one source all leave it, towards one of the first `t` targets. */
  lemma TgtLinksAt(i: nat, s: nat, a: seq<Id>, right: seq<seq<Id>>, t: nat, c: Cand)
    requires t <= |right| && c in TgtLinks(i, s, a, right, t)
    ensures c.level == i && c.src == s && c.tgt < t
  {
    TgtLinksIff(i, s, a, right, t, c);
  }

  /** The links of the first `s` sources of level `i` all leave one of them. */
  lemma SrcLinksAt(i: nat, left: seq<seq<Id>>, right: seq<seq<Id>>, s: nat, c: Cand)
    requires s <= |left| && c in SrcLinks(i, left, right, s)
    ensures c.level == i && c.src < s
  {
    SrcLinksIff(i, left, right, s, c);
  }

  /** The links among the first `n` levels all leave one of the first `n - 1`. */
  lemma LevelLinksBelow(L: seq<seq<seq<Id>>>, n: nat, c: Cand)
    requires n <= |L| && c in LevelLinks(L, n)
    ensures c.level + 1 < n
  {
    LevelLinksIff(L, n, c);
  }

  /** A candidate of level `i` is a link exactly when its pair of level `i` shares ids. */
  lemma IsLinkAt(L: seq<seq<seq<Id>>>, i: nat, c: Cand)
    requires i + 1 < |L|
    ensures c.level == i ==>
      (IsLink(L, c) <==> c.src < |L[i]| && c.tgt < |L[i + 1]| && Shares(L[i][c.src], L[i + 1][c.tgt]))
  {
  }

  /**
   * A candidate is produced exactly when its nodes sit in consecutive levels and share ids:
   * no link skips a level, and no overlapping pair is missed.
   */
  lemma LinksIff(L: seq<seq<seq<Id>>>, c: Cand)
    ensures c in Links(L) <==> IsLink(L, c)
  {
    LevelLinksIff(L, |L|, c);
  }

  /** A link's ids are exactly the ids both of its nodes hold, and there is at least one. */
  lemma LinkOverlap(L: seq<seq<seq<Id>>>, c: Cand)
    requires c in Links(L)
    ensures InRange(L, c)
    ensures var ov := Overlap(L[c.level][c.src], L[c.level + 1][c.tgt]);
      ToSet(ov) == Carried(L, c) && Distinct(ov) && |ov| > 0
  {
    LinksIff(L, c);
    OverlapProps(L[c.level][c.src], L[c.level + 1][c.tgt]);
    OverlapNonEmpty(L[c.level][c.src], L[c.level + 1][c.tgt]);
  }

  /** `a` comes before `b` in level, then source, then target order. */
  predicate Before(a: Cand, b: Cand)
  {
    a.level < b.level || (a.level == b.level && (a.src < b.src || (a.src == b.src && a.tgt < b.tgt)))
  }

  predicate Ordered(cs: seq<Cand>)
  {
    forall j, k :: 0 <= j < k < |cs| ==> Before(cs[j], cs[k])
  }

  lemma OrderedConcat(a: seq<Cand>, b: seq<Cand>)
    requires Ordered(a) && Ordered(b)
    requires forall x, y :: x in a && y in b ==> Before(x, y)
    ensures Ordered(a + b)
  {
    forall j, k | 0 <= j < k < |a + b| ensures Before((a + b)[j], (a + b)[k]) {
      if k < |a| {
      } else if j >= |a| {
        assert (a + b)[j] == b[j - |a|] && (a + b)[k] == b[k - |a|];
      } else {
        assert (a + b)[j] in a && (a + b)[k] in b;
      }
    }
  }

  lemma OrderedBySource(done: seq<Cand>, last: seq<Cand>, i: nat, s: nat)
    requires Ordered(done) && Ordered(last)
    requires forall x :: x in done ==> x.level == i && x.src < s
    requires forall y :: y in last ==> y.level == i && y.src == s
    ensures Ordered(done + last)
  {
    OrderedConcat(done, last);
  }

  lemma {:induction false} TgtLinksOrdered(i: nat, s: nat, a: seq<Id>, right: seq<seq<Id>>, t: nat)
    requires t <= |right|
    ensures Ordered(TgtLinks(i, s, a, right, t))
  {
    if t > 0 {
      var done := TgtLinks(i, s, a, right, t - 1);
      TgtLinksOrdered(i, s, a, right, t - 1);
      var last := if Shares(a, right[t - 1]) then [Cand(i, s, t - 1)] else [];
      forall x, y | x in done && y in last ensures Before(x, y) {
        TgtLinksAt(i, s, a, right, t - 1, x);
      }
      OrderedConcat(done, last);
    }
  }

  lemma {:induction false} SrcLinksOrdered(i: nat, left: seq<seq<Id>>, right: seq<seq<Id>>, s: nat)
    requires s <= |left|
    ensures Ordered(SrcLinks(i, left, right, s))
  {
    if s > 0 {
      var done, last := SrcLinks(i, left, right, s - 1), TgtLinks(i, s - 1, left[s - 1], right, |right|);
      SrcLinksOrdered(i, left, right, s - 1);
      TgtLinksOrdered(i, s - 1, left[s - 1], right, |right|);
      forall x | x in done ensures x.level == i && x.src < s - 1 {
        SrcLinksAt(i, left, right, s - 1, x);
      }
      forall y | y in last ensures y.level == i && y.src == s - 1 {
        TgtLinksAt(i, s - 1, left[s - 1], right, |right|, y);
      }
      OrderedBySource(done, last, i, s - 1);
    }
  }

  lemma {:induction false} LevelLinksOrdered(L: seq<seq<seq<Id>>>, n: nat)
    requires n <= |L|
    ensures Ordered(LevelLinks(L, n))
  {
    if n > 1 {
      var done, last := LevelLinks(L, n - 1), SrcLinks(n - 2, L[n - 2], L[n - 1], |L[n - 2]|);
      LevelLinksOrdered(L, n - 1);
      SrcLinksOrdered(n - 2, L[n - 2], L[n - 1], |L[n - 2]|);
      forall x, y | x in done && y in last ensures Before(x, y) {
        LevelLinksBelow(L, n - 1, x);
        SrcLinksAt(n - 2, L[n - 2], L[n - 1], |L[n - 2]|, y);
      }
      OrderedConcat(done, last);
    }
  }

  /** Links come strictly ordered by level, then source, then target; so no pair twice. */
  lemma LinksOrdered(L: seq<seq<seq<Id>>>)
    ensures Ordered(Links(L))
  {
    LevelLinksOrdered(L, |L|);
  }

  /** The ids carried by the links of `cs` that leave node `s` of level `i`. */
  function OutUnion(L: seq<seq<seq<Id>>>, cs: seq<Cand>, i: nat, s: nat): set<Id>
  {
    if cs == [] then {}
    else
      var c := cs[|cs| - 1];
      OutUnion(L, cs[..|cs| - 1], i, s) + (if c.level == i && c.src == s then Carried(L, c) else {})
  }

  /** The ids carried by the links of `cs` that enter node `t` of level `i + 1`. */
  function InUnion(L: seq<seq<seq<Id>>>, cs: seq<Cand>, i: nat, t: nat): set<Id>
  {
    if cs == [] then {}
    else
      var c := cs[|cs| - 1];
      InUnion(L, cs[..|cs| - 1], i, t) + (if c.level == i && c.tgt == t then Carried(L, c) else {})
  }

  lemma {:induction false} OutUnionIff(L: seq<seq<seq<Id>>>, cs: seq<Cand>, i: nat, s: nat, x: Id)
    ensures x in OutUnion(L, cs, i, s) <==> exists c :: c in cs && c.level == i && c.src == s && x in Carried(L, c)
  {
    if cs != [] {
      var init := cs[..|cs| - 1];
      OutUnionIff(L, init, i, s, x);
      assert cs == init + [cs[|cs| - 1]];
      if x in OutUnion(L, cs, i, s) && x !in OutUnion(L, init, i, s) {
        assert cs[|cs| - 1] in cs;
      }
      if exists c :: c in cs && c.level == i && c.src == s && x in Carried(L, c) {
        var c :| c in cs && c.level == i && c.src == s && x in Carried(L, c);
        if c != cs[|cs| - 1] {
          assert c in init;
        }
      }
    }
  }

  lemma {:induction false} InUnionIff(L: seq<seq<seq<Id>>>, cs: seq<Cand>, i: nat, t: nat, x: Id)
    ensures x in InUnion(L, cs, i, t) <==> exists c :: c in cs && c.level == i && c.tgt == t && x in Carried(L, c)
  {
    if cs != [] {
      var init := cs[..|cs| - 1];
      InUnionIff(L, init, i, t, x);
      assert cs == init + [cs[|cs| - 1]];
      if x in InUnion(L, cs, i, t) && x !in InUnion(L, init, i, t) {
        assert cs[|cs| - 1] in cs;
      }
      if exists c :: c in cs && c.level == i && c.tgt == t && x in Carried(L, c) {
        var c :| c in cs && c.level == i && c.tgt == t && x in Carried(L, c);
        if c != cs[|cs| - 1] {
          assert c in init;
        }
      }
    }
  }

  /** Every id held by some node of a level. */
  function LevelIds(level: seq<seq<Id>>): set<Id>
  {
    if level == [] then {} else LevelIds(level[..|level| - 1]) + ToSet(level[|level| - 1])
  }

  lemma {:induction false} LevelIdsIff(level: seq<seq<Id>>, x: Id)
    ensures x in LevelIds(level) <==> exists t :: 0 <= t < |level| && x in ToSet(level[t])
  {
    if level != [] {
      var init := level[..|level| - 1];
      LevelIdsIff(init, x);
      if exists t :: 0 <= t < |level| && x in ToSet(level[t]) {
        var t :| 0 <= t < |level| && x in ToSet(level[t]);
        if t < |level| - 1 {
          assert init[t] == level[t];
        }
      }
      if exists t :: 0 <= t < |init| && x in ToSet(init[t]) {
        var t :| 0 <= t < |init| && x in ToSet(init[t]);
        assert level[t] == init[t];
      }
    }
  }

  /** The ids of the level after `i`, or none when `i` is the last level. */
  function NextIds(L: seq<seq<seq<Id>>>, i: nat): set<Id>
  {
    if i + 1 < |L| then LevelIds(L[i + 1]) else {}
  }

  /** The ids of the level before `i`, or none when `i` is the first level. */
  function PrevIds(L: seq<seq<seq<Id>>>, i: nat): set<Id>
  {
    if 0 < i <= |L| then LevelIds(L[i - 1]) else {}
  }

  /**
   * The links leaving a node carry exactly its ids that some node of the next level holds.
   */
  lemma OutUnionLinks(L: seq<seq<seq<Id>>>, i: nat, s: nat)
    requires i < |L| && s < |L[i]|
    ensures OutUnion(L, Links(L), i, s) == ToSet(L[i][s]) * NextIds(L, i)
  {
    forall x | x in OutUnion(L, Links(L), i, s) ensures x in ToSet(L[i][s]) * NextIds(L, i) {
      OutUnionIff(L, Links(L), i, s, x);
      var c :| c in Links(L) && c.level == i && c.src == s && x in Carried(L, c);
      LinksIff(L, c);
      LevelIdsIff(L[i + 1], x);
    }
    forall x | x in ToSet(L[i][s]) * NextIds(L, i) ensures x in OutUnion(L, Links(L), i, s) {
      OutUnionShared(L, i, s, x);
    }
  }

  lemma OutUnionShared(L: seq<seq<seq<Id>>>, i: nat, s: nat, x: Id)
    requires i < |L| && s < |L[i]| && x in ToSet(L[i][s]) * NextIds(L, i)
    ensures x in OutUnion(L, Links(L), i, s)
  {
    LevelIdsIff(L[i + 1], x);
    var t :| 0 <= t < |L[i + 1]| && x in ToSet(L[i + 1][t]);
    var c := Cand(i, s, t);
    assert x in Carried(L, c);
    LinksIff(L, c);
    OutUnionIff(L, Links(L), i, s, x);
  }

  /**
   * The links entering a node carry exactly its ids that some node of the previous level
   * holds.
   */
  lemma InUnionLinks(L: seq<seq<seq<Id>>>, i: nat, t: nat)
    requires i + 1 < |L| && t < |L[i + 1]|
    ensures InUnion(L, Links(L), i, t) == ToSet(L[i + 1][t]) * PrevIds(L, i + 1)
  {
    forall x | x in InUnion(L, Links(L), i, t) ensures x in ToSet(L[i + 1][t]) * PrevIds(L, i + 1) {
      InUnionIff(L, Links(L), i, t, x);
      var c :| c in Links(L) && c.level == i && c.tgt == t && x in Carried(L, c);
      LinksIff(L, c);
      LevelIdsIff(L[i], x);
    }
    forall x | x in ToSet(L[i + 1][t]) * PrevIds(L, i + 1) ensures x in InUnion(L, Links(L), i, t) {
      InUnionShared(L, i, t, x);
    }
  }

  lemma InUnionShared(L: seq<seq<seq<Id>>>, i: nat, t: nat, x: Id)
    requires i + 1 < |L| && t < |L[i + 1]| && x in ToSet(L[i + 1][t]) * PrevIds(L, i + 1)
    ensures x in InUnion(L, Links(L), i, t)
  {
    assert PrevIds(L, i + 1) == LevelIds(L[i]);
    LevelIdsIff(L[i], x);
    var s :| 0 <= s < |L[i]| && x in ToSet(L[i][s]);
    var c := Cand(i, s, t);
    assert x in Carried(L, c);
    LinksIff(L, c);
    InUnionIff(L, Links(L), i, t, x);
  }

  /** One more candidate pair: the out-union of its source grows by its ids, no other. */
  lemma OutUnionSnoc(L: seq<seq<seq<Id>>>, cs: seq<Cand>, c: Cand, i: nat, s: nat)
    ensures OutUnion(L, cs + [c], i, s)
      == OutUnion(L, cs, i, s) + (if c.level == i && c.src == s then Carried(L, c) else {})
  {
    assert (cs + [c])[..|cs|] == cs;
  }

  lemma InUnionSnoc(L: seq<seq<seq<Id>>>, cs: seq<Cand>, c: Cand, i: nat, t: nat)
    ensures InUnion(L, cs + [c], i, t)
      == InUnion(L, cs, i, t) + (if c.level == i && c.tgt == t then Carried(L, c) else {})
  {
    assert (cs + [c])[..|cs|] == cs;
  }

  /**
   * The walk state after handling pair `(i, s, t)`: all earlier levels, all earlier sources
   * of level `i`, and the first `t` targets of source `s`.
   */
  function Walked(L: seq<seq<seq<Id>>>, i: nat, s: nat, t: nat): seq<Cand>
    requires i + 1 < |L| && s < |L[i]| && t <= |L[i + 1]|
  {
    LevelLinks(L, i + 1) + SrcLinks(i, L[i], L[i + 1], s) + TgtLinks(i, s, L[i][s], L[i + 1], t)
  }

  /** Handling one more pair adds its link when the two nodes share an id. */
  lemma WalkStep(L: seq<seq<seq<Id>>>, i: nat, s: nat, t: nat)
    requires i + 1 < |L| && s < |L[i]| && t < |L[i + 1]|
    ensures Walked(L, i, s, t + 1)
      == Walked(L, i, s, t) + (if Shares(L[i][s], L[i + 1][t]) then [Cand(i, s, t)] else [])
  {
  }

  /** The walk state before source `s` of level `i`: all earlier levels and earlier sources. */
  function SrcWalked(L: seq<seq<seq<Id>>>, i: nat, s: nat): seq<Cand>
    requires i + 1 < |L| && s <= |L[i]|
  {
    LevelLinks(L, i + 1) + SrcLinks(i, L[i], L[i + 1], s)
  }

  /** Before the first target of source `s`, the walk holds the links of the earlier sources. */
  lemma WalkStart(L: seq<seq<seq<Id>>>, i: nat, s: nat)
    requires i + 1 < |L| && s < |L[i]|
    ensures Walked(L, i, s, 0) == SrcWalked(L, i, s)
  {
    assert TgtLinks(i, s, L[i][s], L[i + 1], 0) == [];
  }

  /** After the last target of source `s`, the walk holds the links of sources up to `s`. */
  lemma WalkSourceDone(L: seq<seq<seq<Id>>>, i: nat, s: nat)
    requires i + 1 < |L| && s < |L[i]|
    ensures Walked(L, i, s, |L[i + 1]|) == SrcWalked(L, i, s + 1)
  {
    assert SrcLinks(i, L[i], L[i + 1], s + 1)
      == SrcLinks(i, L[i], L[i + 1], s) + TgtLinks(i, s, L[i][s], L[i + 1], |L[i + 1]|);
  }

  /** A level's walk starts from the links of the earlier levels and ends with its own. */
  lemma WalkLevel(L: seq<seq<seq<Id>>>, i: nat)
    requires i + 1 < |L|
    ensures SrcWalked(L, i, 0) == LevelLinks(L, i + 1)
    ensures SrcWalked(L, i, |L[i]|) == LevelLinks(L, i + 2)
  {
    assert SrcLinks(i, L[i], L[i + 1], 0) == [];
  }

  /**
   * A node's ids that no link leaves with are its ids that no node of the next level holds;
   * on the last level that is all of them.
   */
  lemma MissingOutLayered(L: seq<seq<seq<Id>>>, i: nat, s: nat)
    requires i < |L| && s < |L[i]|
    ensures Without(Dedup(L[i][s]), OutUnion(L, Links(L), i, s)) == Without(Dedup(L[i][s]), NextIds(L, i))
    ensures i + 1 == |L| ==> Without(Dedup(L[i][s]), OutUnion(L, Links(L), i, s)) == Dedup(L[i][s])
  {
    OutUnionLinks(L, i, s);
    DedupProps(L[i][s]);
    WithoutAgree(Dedup(L[i][s]), OutUnion(L, Links(L), i, s), NextIds(L, i));
    if i + 1 == |L| {
      WithoutNone(Dedup(L[i][s]), {});
    }
  }

  /** A node's ids that no link enters with are its ids that no node of the previous level holds. */
  lemma MissingInLayered(L: seq<seq<seq<Id>>>, i: nat, t: nat)
    requires i + 1 < |L| && t < |L[i + 1]|
    ensures Without(Dedup(L[i + 1][t]), InUnion(L, Links(L), i, t))
      == Without(Dedup(L[i + 1][t]), PrevIds(L, i + 1))
  {
    InUnionLinks(L, i, t);
    DedupProps(L[i + 1][t]);
    WithoutAgree(Dedup(L[i + 1][t]), InUnion(L, Links(L), i, t), PrevIds(L, i + 1));
  }

  /** The two levels of the demo application, by their nodes' ids. */
  function DemoLevels(): seq<seq<seq<Id>>>
  {
    [[[Num(1), Num(2), Num(3)], [Num(4), Num(5)]], [[Num(1), Num(2)], [Num(3), Num(4), Num(5)]]]
  }

  /** On the demo levels the links are A1-B1 {1, 2}, A1-B2 {3} and A2-B2 {4, 5}; no A2-B1. */
  lemma DemoLinks(L: seq<seq<seq<Id>>>)
    requires L == DemoLevels()
    ensures Links(L) == [Cand(0, 0, 0), Cand(0, 0, 1), Cand(0, 1, 1)]
    ensures Overlap(L[0][0], L[1][0]) == [Num(1), Num(2)]
    ensures Overlap(L[0][0], L[1][1]) == [Num(3)]
    ensures Overlap(L[0][1], L[1][1]) == [Num(4), Num(5)]
  {
    DemoOverlaps(L);
    OverlapNonEmpty(L[0][0], L[1][0]);
    OverlapNonEmpty(L[0][0], L[1][1]);
    OverlapNonEmpty(L[0][1], L[1][0]);
    OverlapNonEmpty(L[0][1], L[1][1]);
    DemoWalk(L);
  }

  lemma DemoOverlaps(L: seq<seq<seq<Id>>>)
    requires L == DemoLevels()
    ensures |L| == 2 && |L[0]| == 2 && |L[1]| == 2
    ensures Overlap(L[0][0], L[1][0]) == [Num(1), Num(2)]
    ensures Overlap(L[0][0], L[1][1]) == [Num(3)]
    ensures Overlap(L[0][1], L[1][0]) == []
    ensures Overlap(L[0][1], L[1][1]) == [Num(4), Num(5)]
  {
    var a1, a2 := [Num(1), Num(2), Num(3)], [Num(4), Num(5)];
    var b1, b2 := [Num(1), Num(2)], [Num(3), Num(4), Num(5)];
    assert L[0][0] == a1 && L[0][1] == a2 && L[1][0] == b1 && L[1][1] == b2;
    DemoA1(a1, b1, b2);
    DemoA2(a2, b1, b2);
  }

  lemma DemoA1(a: seq<Id>, b1: seq<Id>, b2: seq<Id>)
    requires a == [Num(1), Num(2), Num(3)] && b1 == [Num(1), Num(2)] && b2 == [Num(3), Num(4), Num(5)]
    ensures Overlap(a, b1) == [Num(1), Num(2)] && Overlap(a, b2) == [Num(3)]
  {
    assert Pick(Num(1), a) == [Num(1)] && Pick(Num(2), a) == [Num(2)];
    assert Pick(Num(3), a) == [Num(3)] && Pick(Num(4), a) == [] && Pick(Num(5), a) == [];
    DemoPair(a, b1, [Num(1), Num(2)]);
    DemoTriple(a, b2, [Num(3)]);
  }

  lemma DemoA2(a: seq<Id>, b1: seq<Id>, b2: seq<Id>)
    requires a == [Num(4), Num(5)] && b1 == [Num(1), Num(2)] && b2 == [Num(3), Num(4), Num(5)]
    ensures Overlap(a, b1) == [] && Overlap(a, b2) == [Num(4), Num(5)]
  {
    assert Pick(Num(1), a) == [] && Pick(Num(2), a) == [];
    assert Pick(Num(3), a) == [] && Pick(Num(4), a) == [Num(4)] && Pick(Num(5), a) == [Num(5)];
    DemoPair(a, b1, []);
    DemoTriple(a, b2, [Num(4), Num(5)]);
  }

  lemma DemoPair(a: seq<Id>, b: seq<Id>, r: seq<Id>)
    requires b == [Num(1), Num(2)]
    requires r == Pick(Num(1), a) + Pick(Num(2), a)
    ensures Overlap(a, b) == r
  {
    DedupOfDistinct(b);
    OnlyPair(Num(1), Num(2), ToSet(a));
  }

  lemma DemoTriple(a: seq<Id>, b: seq<Id>, r: seq<Id>)
    requires b == [Num(3), Num(4), Num(5)]
    requires r == Pick(Num(3), a) + Pick(Num(4), a) + Pick(Num(5), a)
    ensures Overlap(a, b) == r
  {
    DedupOfDistinct(b);
    OnlyPair(Num(3), Num(4), ToSet(a));
    OnlyTriple(Num(3), Num(4), Num(5), ToSet(a));
  }

  /** `[x]` when `a` holds `x`, else nothing. */
  function Pick(x: Id, a: seq<Id>): seq<Id>
  {
    if x in a then [x] else []
  }

  lemma OnlyPair(x: Id, y: Id, p: set<Id>)
    ensures Only([x, y], p) == (if x in p then [x] else []) + (if y in p then [y] else [])
  {
    assert [x, y][..1] == [x];
    assert [x][..0] == [];
    assert Only([x], p) == Only([], p) + (if x in p then [x] else []);
  }

  lemma OnlyTriple(x: Id, y: Id, z: Id, p: set<Id>)
    ensures Only([x, y, z], p) == Only([x, y], p) + (if z in p then [z] else [])
  {
    assert [x, y, z][..2] == [x, y];
  }

  /** The walk over the two demo levels, given which pairs share ids. */
  lemma DemoWalk(L: seq<seq<seq<Id>>>)
    requires |L| == 2 && |L[0]| == 2 && |L[1]| == 2
    requires Shares(L[0][0], L[1][0]) && Shares(L[0][0], L[1][1])
    requires !Shares(L[0][1], L[1][0]) && Shares(L[0][1], L[1][1])
    ensures Links(L) == [Cand(0, 0, 0), Cand(0, 0, 1), Cand(0, 1, 1)]
  {
    var left, right := L[0], L[1];
    assert TgtLinks(0, 0, left[0], right, 0) == [];
    assert TgtLinks(0, 0, left[0], right, 1) == [Cand(0, 0, 0)];
    assert TgtLinks(0, 0, left[0], right, 2) == [Cand(0, 0, 0), Cand(0, 0, 1)];
    assert TgtLinks(0, 1, left[1], right, 1) == [];
    assert TgtLinks(0, 1, left[1], right, 2) == [Cand(0, 1, 1)];
    assert SrcLinks(0, left, right, 1) == TgtLinks(0, 0, left[0], right, 2);
    assert SrcLinks(0, left, right, 2) == SrcLinks(0, left, right, 1) + TgtLinks(0, 1, left[1], right, 2);
    assert LevelLinks(L, 2) == LevelLinks(L, 1) + SrcLinks(0, left, right, 2);
  }
}
