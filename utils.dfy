/**
 * `src/lib/utils.ts`: the identifier set `OverlapHelper` and `classNames`.
 */
module Utils {
  import opened IdSeqs

  /** An argument of `classNames`: a class name, a boolean, `null` or `undefined`. */
  datatype ClassArg = Name(s: string) | Flag(b: bool) | Null | Undefined

  /** `Boolean(c)`: the empty string, `false`, `null` and `undefined` are falsy. */
  predicate Truthy(c: ClassArg)
  {
    match c
    case Name(s) => s != ""
    case Flag(b) => b
    case _ => false
  }

  /** How `Array.prototype.join` writes a kept argument (`true` is written "true"). */
  function Text(c: ClassArg): string
  {
    match c
    case Name(s) => s
    case Flag(b) => if b then "true" else "false"
    case Null => ""
    case Undefined => ""
  }

  /** `cs.filter(Boolean)`, each kept argument written as text. */
  function KeptTexts(cs: seq<ClassArg>): (r: seq<string>)
    ensures |r| <= |cs|
    ensures forall k :: 0 <= k < |r| ==> r[k] != ""
  {
    if cs == [] then []
    else
      var c := cs[|cs| - 1];
      KeptTexts(cs[..|cs| - 1]) + (if Truthy(c) then [Text(c)] else [])
  }

  /** `parts.join(sep)`. */
  function Join(parts: seq<string>, sep: string): string
  {
    if parts == [] then ""
    else if |parts| == 1 then parts[0]
    else Join(parts[..|parts| - 1], sep) + sep + parts[|parts| - 1]
  }

  function TotalLength(parts: seq<string>): nat
  {
    if parts == [] then 0 else TotalLength(parts[..|parts| - 1]) + |parts[|parts| - 1]|
  }

  /** `classNames(...cs)`: the truthy arguments joined by single spaces. */
  function ClassNames(cs: seq<ClassArg>): (r: string)
  {
    Join(KeptTexts(cs), " ")
  }

  /** The joined text has the kept texts' lengths plus one separator between each two. */
  lemma {:induction false} JoinLength(parts: seq<string>, sep: string)
    ensures |Join(parts, sep)| == TotalLength(parts) + (if parts == [] then 0 else (|parts| - 1) * |sep|)
  {
    if |parts| > 1 {
      JoinLength(parts[..|parts| - 1], sep);
    } else if |parts| == 1 {
      assert parts[..0] == [];
    }
  }

  /**
   * `classNames` is empty exactly when no argument is truthy, and otherwise as long as the
   * kept names with one space between each two.
   */
  lemma ClassNamesLength(cs: seq<ClassArg>)
    ensures var kept := KeptTexts(cs);
      |ClassNames(cs)| == TotalLength(kept) + (if kept == [] then 0 else |kept| - 1)
    ensures ClassNames(cs) == "" <==> forall k :: 0 <= k < |cs| ==> !Truthy(cs[k])
  {
    var kept := KeptTexts(cs);
    JoinLength(kept, " ");
    KeptTextsEmpty(cs);
    if kept != [] {
      TotalLengthPositive(kept);
    }
  }

  lemma {:induction false} KeptTextsEmpty(cs: seq<ClassArg>)
    ensures KeptTexts(cs) == [] <==> forall k :: 0 <= k < |cs| ==> !Truthy(cs[k])
  {
    if cs != [] {
      KeptTextsEmpty(cs[..|cs| - 1]);
      assert forall k :: 0 <= k < |cs| - 1 ==> cs[..|cs| - 1][k] == cs[k];
    }
  }

  lemma {:induction false} TotalLengthPositive(parts: seq<string>)
    requires parts != [] && forall k :: 0 <= k < |parts| ==> parts[k] != ""
    ensures TotalLength(parts) > 0
  {
    assert |parts[|parts| - 1]| > 0;
  }

  /** Dropping a falsy argument anywhere leaves `classNames` unchanged. */
  lemma {:induction false} ClassNamesIgnoresFalsy(a: seq<ClassArg>, c: ClassArg, b: seq<ClassArg>)
    requires !Truthy(c)
    ensures ClassNames(a + [c] + b) == ClassNames(a + b)
  {
    assert [c][..0] == [];
    assert KeptTexts([c]) == [];
    KeptTextsConcat(a + [c], b);
    KeptTextsConcat(a, [c]);
    KeptTextsConcat(a, b);
    assert KeptTexts(a + [c]) == KeptTexts(a);
  }

  lemma {:induction false} KeptTextsConcat(a: seq<ClassArg>, b: seq<ClassArg>)
    ensures KeptTexts(a + b) == KeptTexts(a) + KeptTexts(b)
  {
    if b != [] {
      assert (a + b)[..|a + b| - 1] == a + b[..|b| - 1];
      KeptTextsConcat(a, b[..|b| - 1]);
    } else {
      assert a + b == a;
    }
  }

  /**
   * `OverlapHelper`: a wrapper around a JavaScript `Set` of identifiers. `items` is the
   * set's content in its iteration (insertion) order.
   */
  class OverlapHelper {
    var items: seq<Id>

    ghost predicate Valid()
      reads this`items
    {
      Distinct(items)
    }

    ghost function Members(): set<Id>
      reads this`items
    {
      ToSet(items)
    }

    /** `new OverlapHelper(ids)` for a list: `new Set(ids)`, so duplicates collapse. */
    constructor (ids: seq<Id>)
      ensures Valid()
      ensures items == Dedup(ids)
      ensures forall v :: Has(v) <==> v in ids
      ensures Size() == |ToSet(ids)|
    {
      var acc: seq<Id> := [];
      for i := 0 to |ids|
        invariant acc == Dedup(ids[..i])
      {
        assert ids[..i + 1][..i] == ids[..i];
        if ids[i] !in acc {
          acc := acc + [ids[i]];
        }
      }
      assert ids[..|ids|] == ids;
      DedupProps(ids);
      assert forall v :: v in acc <==> v in ToSet(ids);
      items := acc;
      DistinctCard(acc);
    }

    /**
     * `new OverlapHelper(set)` for a `Set`: the source adopts the set itself. Every caller
     * passes a set it has just built, so adopting its content is the same.
     */
    constructor OfSet(s: seq<Id>)
      requires Distinct(s)
      ensures Valid() && items == s
    {
      items := s;
    }

    /** `has(v)`. */
    function Has(v: Id): bool
      reads this
    {
      v in items
    }

    /** `elems`: every member exactly once, in iteration order. */
    function Elems(): (r: seq<Id>)
      requires Valid()
      reads this
      ensures r == items
      ensures Distinct(r)
      ensures ToSet(r) == Members()
      ensures |r| == Size()
    {
      items
    }

    /** `size`: the number of members. */
    function Size(): (r: nat)
      requires Valid()
      reads this
      ensures r == |Members()|
    {
      DistinctCard(items);
      |items|
    }

    /** `length`: an alias of `size`, as in the source. */
    function Length(): (r: nat)
      requires Valid()
      reads this
      ensures r == Size() && r == |Members()|
    {
      Size()
    }

    /** `isEmpty`. */
    function IsEmpty(): (r: bool)
      requires Valid()
      reads this
      ensures r <==> Size() == 0
    {
      DistinctCard(items);
      |items| == 0
    }

    /** `isNotEmpty`: the negation of `isEmpty`. */
    function IsNotEmpty(): (r: bool)
      requires Valid()
      reads this
      ensures r <==> !IsEmpty()
    {
      |items| > 0
    }

    /**
     * `intersect(v)` for a helper argument: a fresh helper holding the members of `this`
     * that `v` holds, in `v`'s order; neither operand changes.
     */
    method Intersect(v: OverlapHelper) returns (r: OverlapHelper)
      requires Valid() && v.Valid()
      ensures fresh(r) && r.Valid()
      ensures r.items == Only(v.items, Members())
      ensures r.Members() == Members() * v.Members()
      ensures v == this ==> r.items == items
    {
      ghost var m := Members();
      if IsEmpty() {
        assert Only(v.items, m) == [] by {
          OnlyProps(v.items, m);
          EmptyToSet(Only(v.items, m));
        }
        r := new OverlapHelper.OfSet([]);
        return;
      }
      var acc: seq<Id> := [];
      for i := 0 to |v.items|
        invariant acc == Only(v.items[..i], m)
      {
        assert v.items[..i + 1][..i] == v.items[..i];
        if Has(v.items[i]) {
          acc := acc + [v.items[i]];
        }
      }
      assert v.items[..|v.items|] == v.items;
      assert Distinct(acc) && ToSet(acc) == m * v.Members() by {
        OnlyProps(v.items, m);
      }
      if v == this {
        assert acc == items by {
          OnlyAll(items, m);
        }
      }
      r := new OverlapHelper.OfSet(acc);
    }

    /**
     * `intersect(v)` for a list argument: the members of `this` met while walking `v`,
     * each once, in the order first met.
     */
    method IntersectIds(v: seq<Id>) returns (r: OverlapHelper)
      requires Valid()
      ensures fresh(r) && r.Valid()
      ensures r.items == Dedup(Only(v, Members()))
      ensures r.Members() == Members() * ToSet(v)
    {
      ghost var m := Members();
      if IsEmpty() {
        assert Dedup(Only(v, m)) == [] by {
          OnlyProps(v, m);
          DedupProps(Only(v, m));
          EmptyToSet(Dedup(Only(v, m)));
        }
        r := new OverlapHelper.OfSet([]);
        return;
      }
      var acc: seq<Id> := [];
      for i := 0 to |v|
        invariant acc == Dedup(Only(v[..i], m))
      {
        assert v[..i + 1][..i] == v[..i];
        ghost var o := Only(v[..i], m);
        if Has(v[i]) {
          assert Only(v[..i + 1], m) == o + [v[i]];
          assert (o + [v[i]])[..|o|] == o;
          if v[i] !in acc {
            acc := acc + [v[i]];
          }
        } else {
          assert Only(v[..i + 1], m) == o;
        }
      }
      assert v[..|v|] == v;
      assert Distinct(acc) && ToSet(acc) == m * ToSet(v) by {
        OnlyProps(v, m);
        DedupProps(Only(v, m));
      }
      r := new OverlapHelper.OfSet(acc);
    }

    /** `copy()`: a fresh helper with the same members in the same order. */
    method Copy() returns (r: OverlapHelper)
      requires Valid()
      ensures fresh(r) && r.Valid()
      ensures r.items == items
    {
      r := new OverlapHelper.OfSet(items);
    }

    /**
     * `intersectUpdate(v)` for a helper argument: keeps, in place, only the members that
     * `v` held, and returns `this`.
     */
    method IntersectUpdate(v: OverlapHelper) returns (r: OverlapHelper)
      requires Valid() && v.Valid()
      modifies this`items
      ensures r == this && Valid()
      ensures items == Only(old(items), old(v.Members()))
      ensures old(IsEmpty()) ==> items == old(items)
      ensures old(v.IsEmpty()) ==> items == []
    {
      r := this;
      ghost var vs := v.Members();
      if IsEmpty() {
        assert items == [] && Only([], vs) == [];
        return;
      }
      if v.IsEmpty() {
        items := [];
        OnlyProps(old(items), vs);
        EmptyToSet(Only(old(items), vs));
        return;
      }
      var snap := Elems();
      for i := 0 to |snap|
        invariant items == Only(snap[..i], vs) + snap[i..]
        invariant v != this ==> v.items == old(v.items)
        invariant v == this ==> vs == ToSet(snap)
      {
        var x := snap[i];
        StepOnly(snap, i, vs);
        if v == this {
          assert x in ToSet(snap);
        }
        if !v.Has(x) {
          items := Without(items, {x});
        }
      }
      assert snap[..|snap|] == snap;
      assert items == Only(snap, vs);
      OnlyProps(snap, vs);
    }

    /**
     * `intersectUpdate(v)` for a list argument: keeps, in place, only the members that occur
     * in `v`, and returns `this`.
     */
    method IntersectUpdateIds(v: seq<Id>) returns (r: OverlapHelper)
      requires Valid()
      modifies this`items
      ensures r == this && Valid()
      ensures items == Only(old(items), ToSet(v))
      ensures old(IsEmpty()) ==> items == old(items)
    {
      r := this;
      if IsEmpty() {
        assert items == [] && Only([], ToSet(v)) == [];
        return;
      }
      var vs := ToSet(v);
      var snap := Elems();
      for i := 0 to |snap|
        invariant items == Only(snap[..i], vs) + snap[i..]
      {
        var x := snap[i];
        StepOnly(snap, i, vs);
        if x !in vs {
          items := Without(items, {x});
        }
      }
      assert snap[..|snap|] == snap;
      OnlyProps(snap, vs);
    }

    /**
     * `withoutUpdate(v)`: removes, in place, every member that `v` holds, and returns
     * `this`; nothing happens when either side is empty.
     */
    method WithoutUpdate(v: OverlapHelper) returns (r: OverlapHelper)
      requires Valid() && v.Valid()
      modifies this`items
      ensures r == this && Valid()
      ensures items == Without(old(items), old(v.Members()))
      ensures Members() <= old(Members())
      ensures old(IsEmpty()) || old(v.IsEmpty()) ==> items == old(items)
    {
      r := this;
      ghost var vs := v.Members();
      if IsEmpty() || v.IsEmpty() {
        WithoutNone(items, vs);
        return;
      }
      var snap := Elems();
      for i := 0 to |snap|
        invariant items == Without(snap[..i], vs) + snap[i..]
        invariant v != this ==> v.items == old(v.items)
        invariant v == this ==> vs == ToSet(snap)
      {
        var x := snap[i];
        StepWithout(snap, i, vs);
        if v == this {
          assert x in ToSet(snap);
        }
        if v.Has(x) {
          items := Without(items, {x});
        }
      }
      assert snap[..|snap|] == snap;
      assert items == Without(snap, vs);
      WithoutProps(snap, vs);
    }

    /**
     * `addUpdate(v)`: called by the layer aggregation but not defined in `utils.ts`. Assumed
     * to be the in-place union: `v`'s members that `this` lacks are added in `v`'s order.
     */
    method AddUpdate(v: OverlapHelper) returns (r: OverlapHelper)
      requires Valid() && v.Valid()
      modifies this`items
      ensures r == this && Valid()
      ensures items == old(items) + Without(old(v.items), old(Members()))
      ensures Members() == old(Members()) + old(v.Members())
    {
      r := this;
      ghost var mine := Members();
      ghost var theirs := v.items;
      if v == this {
        WithoutAll(items);
        assert items == items + [];
        return;
      }
      for i := 0 to |v.items|
        invariant items == old(items) + Without(theirs[..i], mine)
        invariant v.items == theirs
        invariant Valid()
        invariant Members() == mine + ToSet(theirs[..i])
      {
        var x := v.items[i];
        AddStep(old(items), mine, theirs, i, items);
        if x !in items {
          items := items + [x];
        }
      }
      assert theirs[..|theirs|] == theirs;
    }
  }

  /**
   * One step of the in-place union: `items` holds the old members and the new ones among
   * the first `i` of `theirs`; appending `theirs[i]` when absent extends that to `i + 1`.
   */
  lemma AddStep(start: seq<Id>, mine: set<Id>, theirs: seq<Id>, i: nat, items: seq<Id>)
    requires Distinct(theirs) && i < |theirs| && Distinct(items)
    requires items == start + Without(theirs[..i], mine)
    requires ToSet(items) == mine + ToSet(theirs[..i])
    ensures ToSet(theirs[..i + 1]) == ToSet(theirs[..i]) + {theirs[i]}
    ensures theirs[i] in items ==> items == start + Without(theirs[..i + 1], mine)
    ensures theirs[i] !in items ==>
      items + [theirs[i]] == start + Without(theirs[..i + 1], mine)
      && Distinct(items + [theirs[i]]) && ToSet(items + [theirs[i]]) == ToSet(items) + {theirs[i]}
  {
    var x := theirs[i];
    assert theirs[..i + 1][..i] == theirs[..i];
    ToSetSnoc(theirs[..i + 1]);
    DistinctSnoc(items, x);
    if x in items {
      assert x in ToSet(items);
      DistinctAt(theirs, i);
      assert x in mine;
    }
  }

  lemma WithoutAll(s: seq<Id>)
    ensures Without(s, ToSet(s)) == []
  {
    WithoutProps(s, ToSet(s));
    EmptyToSet(Without(s, ToSet(s)));
  }

  /**
   * One step of an in-place filter over the snapshot `snap`: the first `i` elements are
   * filtered, the rest untouched; handling element `i` deletes it exactly when it goes.
   */
  lemma StepOnly(snap: seq<Id>, i: nat, p: set<Id>)
    requires Distinct(snap) && i < |snap|
    ensures snap[i] in p ==> Only(snap[..i], p) + snap[i..] == Only(snap[..i + 1], p) + snap[i + 1..]
    ensures snap[i] !in p ==>
      Without(Only(snap[..i], p) + snap[i..], {snap[i]}) == Only(snap[..i + 1], p) + snap[i + 1..]
  {
    var done, next := Only(snap[..i], p), Only(snap[..i + 1], p);
    OnlyPrefix(snap, i, p);
    if snap[i] in p {
      StepKeep(done, next, snap, i);
    } else {
      DistinctAt(snap, i);
      OnlyProps(snap[..i], p);
      StepDrop(done, next, snap, i);
    }
  }

  lemma StepWithout(snap: seq<Id>, i: nat, p: set<Id>)
    requires Distinct(snap) && i < |snap|
    ensures snap[i] !in p ==> Without(snap[..i], p) + snap[i..] == Without(snap[..i + 1], p) + snap[i + 1..]
    ensures snap[i] in p ==>
      Without(Without(snap[..i], p) + snap[i..], {snap[i]}) == Without(snap[..i + 1], p) + snap[i + 1..]
  {
    var done, next := Without(snap[..i], p), Without(snap[..i + 1], p);
    WithoutPrefix(snap, i, p);
    if snap[i] !in p {
      StepKeep(done, next, snap, i);
    } else {
      DistinctAt(snap, i);
      WithoutProps(snap[..i], p);
      StepDrop(done, next, snap, i);
    }
  }

  /** Keeping element `i`: it moves from the unhandled part to the handled one. */
  lemma StepKeep(done: seq<Id>, next: seq<Id>, snap: seq<Id>, i: nat)
    requires i < |snap| && next == done + [snap[i]]
    ensures done + snap[i..] == next + snap[i + 1..]
  {
    assert snap[i..] == [snap[i]] + snap[i + 1..];
  }

  /** Dropping element `i`, which occurs nowhere else. */
  lemma StepDrop(done: seq<Id>, next: seq<Id>, snap: seq<Id>, i: nat)
    requires Distinct(snap) && i < |snap| && snap[i] !in ToSet(done) && next == done
    ensures Without(done + snap[i..], {snap[i]}) == next + snap[i + 1..]
  {
    var x, rest := snap[i], snap[i + 1..];
    DistinctAt(snap, i);
    assert done + snap[i..] == done + [x] + rest;
    RemoveMiddle(done, x, rest);
  }

  lemma OnlyPrefix(s: seq<Id>, i: nat, p: set<Id>)
    requires i < |s|
    ensures Only(s[..i + 1], p) == Only(s[..i], p) + (if s[i] in p then [s[i]] else [])
  {
    assert s[..i + 1][..i] == s[..i];
  }

  lemma WithoutPrefix(s: seq<Id>, i: nat, p: set<Id>)
    requires i < |s|
    ensures Without(s[..i + 1], p) == Without(s[..i], p) + (if s[i] in p then [] else [s[i]])
  {
    assert s[..i + 1][..i] == s[..i];
  }

  /** Deleting the one occurrence of `x` from `a + [x] + b`. */
  lemma RemoveMiddle(a: seq<Id>, x: Id, b: seq<Id>)
    requires x !in ToSet(a) && x !in ToSet(b)
    ensures Without(a + [x] + b, {x}) == a + b
  {
    calc {
      Without(a + [x] + b, {x});
    == { WithoutConcat(a + [x], b, {x}); }
      Without(a + [x], {x}) + Without(b, {x});
    == { WithoutNone(b, {x}); }
      Without(a + [x], {x}) + b;
    == { assert (a + [x])[..|a|] == a; }
      Without(a, {x}) + b;
    == { WithoutNone(a, {x}); }
      a + b;
    }
  }

  /** A copy keeps its members however the original is later updated in place. */
  method CopyIsIndependent(ids: seq<Id>, drop: seq<Id>) returns (original: seq<Id>, copied: seq<Id>)
    ensures copied == Dedup(ids)
    ensures original == Without(Dedup(ids), ToSet(drop))
  {
    var a := new OverlapHelper(ids);
    var b := a.Copy();
    var d := new OverlapHelper(drop);
    DedupProps(drop);
    var _ := a.WithoutUpdate(d);
    original, copied := a.items, b.items;
  }
}
