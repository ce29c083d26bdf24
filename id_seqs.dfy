/**
 * Identifiers and the ordered, duplicate-free sequences that model a JavaScript `Set`
 * of identifiers (a `Set` iterates in insertion order, so its order is observable).
 */
module IdSeqs {

  /** A `SankeyID`: a string or a number; only equality is ever used. */
  datatype Id = Str(s: string) | Num(n: int)

  datatype Option<T> = None | Some(value: T)

  /** The set of elements of `s`. */
  function ToSet(s: seq<Id>): set<Id>
  {
    set x | x in s
  }

  predicate Distinct(s: seq<Id>)
  {
    forall i, j :: 0 <= i < j < |s| ==> s[i] != s[j]
  }

  /**
   * The iteration order of `new Set(s)`: every element at the position of its first
   * occurrence, later duplicates dropped.
   */
  function Dedup(s: seq<Id>): seq<Id>
  {
    if s == [] then []
    else
      var d := Dedup(s[..|s| - 1]);
      var x := s[|s| - 1];
      if x in d then d else d + [x]
  }

  /** The elements of `s` that belong to `p`, in the order of `s`. */
  function Only(s: seq<Id>, p: set<Id>): seq<Id>
  {
    if s == [] then []
    else
      var x := s[|s| - 1];
      Only(s[..|s| - 1], p) + (if x in p then [x] else [])
  }

  /** The elements of `s` that do not belong to `p`, in the order of `s`. */
  function Without(s: seq<Id>, p: set<Id>): seq<Id>
  {
    if s == [] then []
    else
      var x := s[|s| - 1];
      Without(s[..|s| - 1], p) + (if x in p then [] else [x])
  }

  /** Removing a last element from `s` removes it from its set, unless it occurs earlier. */
  lemma ToSetSnoc(s: seq<Id>)
    requires s != []
    ensures ToSet(s) == ToSet(s[..|s| - 1]) + {s[|s| - 1]}
    ensures Distinct(s) ==> s[|s| - 1] !in ToSet(s[..|s| - 1])
  {
    assert s == s[..|s| - 1] + [s[|s| - 1]];
  }

  /** `new Set(s)` has the elements of `s`, each once. */
  lemma {:induction false} DedupProps(s: seq<Id>)
    ensures Distinct(Dedup(s))
    ensures ToSet(Dedup(s)) == ToSet(s)
    ensures |Dedup(s)| <= |s|
  {
    if s != [] {
      var x := s[|s| - 1];
      ToSetSnoc(s);
      DedupProps(s[..|s| - 1]);
      DistinctSnoc(Dedup(s[..|s| - 1]), x);
    }
  }

  /** Filtering keeps exactly the elements in `p`, without adding duplicates. */
  lemma {:induction false} OnlyProps(s: seq<Id>, p: set<Id>)
    ensures ToSet(Only(s, p)) == ToSet(s) * p
    ensures Distinct(s) ==> Distinct(Only(s, p))
    ensures |Only(s, p)| <= |s|
  {
    if s != [] {
      var x := s[|s| - 1];
      ToSetSnoc(s);
      OnlyProps(s[..|s| - 1], p);
      DistinctSnoc(Only(s[..|s| - 1], p), x);
      assert Distinct(s) ==> Distinct(s[..|s| - 1]);
      if x in p {
        assert Only(s, p) == Only(s[..|s| - 1], p) + [x];
      } else {
        assert Only(s, p) == Only(s[..|s| - 1], p);
      }
    }
  }

  /** Removing keeps exactly the elements outside `p`, without adding duplicates. */
  lemma {:induction false} WithoutProps(s: seq<Id>, p: set<Id>)
    ensures ToSet(Without(s, p)) == ToSet(s) - p
    ensures Distinct(s) ==> Distinct(Without(s, p))
    ensures |Without(s, p)| <= |s|
  {
    if s != [] {
      var x := s[|s| - 1];
      ToSetSnoc(s);
      WithoutProps(s[..|s| - 1], p);
      DistinctSnoc(Without(s[..|s| - 1], p), x);
      assert Distinct(s) ==> Distinct(s[..|s| - 1]);
      if x !in p {
        assert Without(s, p) == Without(s[..|s| - 1], p) + [x];
      } else {
        assert Without(s, p) == Without(s[..|s| - 1], p);
      }
    }
  }

  lemma DistinctSnoc(a: seq<Id>, x: Id)
    ensures ToSet(a + [x]) == ToSet(a) + {x}
    ensures Distinct(a) && x !in ToSet(a) ==> Distinct(a + [x])
  {
    if Distinct(a) && x !in ToSet(a) {
      forall i, j | 0 <= i < j < |a + [x]| ensures (a + [x])[i] != (a + [x])[j] {
        if j == |a| {
          assert a[i] in ToSet(a);
        }
      }
    }
  }

  /** In a duplicate-free sequence an element occurs neither before nor after its position. */
  lemma DistinctAt(s: seq<Id>, i: nat)
    requires Distinct(s) && i < |s|
    ensures s[i] !in ToSet(s[..i]) && s[i] !in ToSet(s[i + 1..])
  {
  }

  /** The empty sequence is the only one with no elements. */
  lemma EmptyToSet(s: seq<Id>)
    ensures ToSet(s) == {} <==> s == []
  {
    if s != [] {
      assert s[0] in ToSet(s);
    }
  }

  /** A duplicate-free sequence has as many elements as its set. */
  lemma {:induction false} DistinctCard(s: seq<Id>)
    requires Distinct(s)
    ensures |ToSet(s)| == |s|
  {
    if s != [] {
      var t := s[..|s| - 1];
      assert s == t + [s[|s| - 1]];
      assert ToSet(s) == ToSet(t) + {s[|s| - 1]};
      assert s[|s| - 1] !in ToSet(t);
      DistinctCard(t);
    }
  }

  /** Deduplicating keeps the first occurrence of every element, in order. */
  lemma {:induction false} DedupOfDistinct(s: seq<Id>)
    requires Distinct(s)
    ensures Dedup(s) == s
  {
    if s != [] {
      DedupOfDistinct(s[..|s| - 1]);
      assert s[|s| - 1] !in s[..|s| - 1];
      assert s == s[..|s| - 1] + [s[|s| - 1]];
    }
  }

  lemma {:induction false} OnlyConcat(a: seq<Id>, b: seq<Id>, p: set<Id>)
    ensures Only(a + b, p) == Only(a, p) + Only(b, p)
  {
    if b != [] {
      var b' := b[..|b| - 1];
      assert (a + b)[..|a + b| - 1] == a + b';
      OnlyConcat(a, b', p);
    } else {
      assert a + b == a;
    }
  }

  lemma {:induction false} WithoutConcat(a: seq<Id>, b: seq<Id>, p: set<Id>)
    ensures Without(a + b, p) == Without(a, p) + Without(b, p)
  {
    if b != [] {
      var b' := b[..|b| - 1];
      assert (a + b)[..|a + b| - 1] == a + b';
      WithoutConcat(a, b', p);
    } else {
      assert a + b == a;
    }
  }

  /** Filtering by `p` only looks at the elements of `s` that `p` contains. */
  lemma {:induction false} OnlyAll(s: seq<Id>, p: set<Id>)
    requires ToSet(s) <= p
    ensures Only(s, p) == s
  {
    if s != [] {
      assert ToSet(s[..|s| - 1]) <= ToSet(s) by {
        forall x | x in ToSet(s[..|s| - 1]) ensures x in ToSet(s) {
          var i :| 0 <= i < |s| - 1 && s[i] == x;
          assert s[i] in s;
        }
      }
      OnlyAll(s[..|s| - 1], p);
      assert s[|s| - 1] in ToSet(s);
      assert s == s[..|s| - 1] + [s[|s| - 1]];
    }
  }

  lemma {:induction false} WithoutNone(s: seq<Id>, p: set<Id>)
    requires ToSet(s) !! p
    ensures Without(s, p) == s
  {
    if s != [] {
      assert ToSet(s[..|s| - 1]) !! p by {
        forall x | x in ToSet(s[..|s| - 1]) ensures x !in p {
          var i :| 0 <= i < |s| - 1 && s[i] == x;
          assert s[i] in ToSet(s);
        }
      }
      WithoutNone(s[..|s| - 1], p);
      assert s[|s| - 1] in ToSet(s);
      assert s == s[..|s| - 1] + [s[|s| - 1]];
    }
  }

  /** Removing `p` and then `q` is removing their union. */
  lemma {:induction false} WithoutWithout(s: seq<Id>, p: set<Id>, q: set<Id>)
    ensures Without(Without(s, p), q) == Without(s, p + q)
  {
    if s != [] {
      var t := s[..|s| - 1];
      var x := s[|s| - 1];
      WithoutWithout(t, p, q);
      WithoutConcat(Without(t, p), if x in p then [] else [x], q);
      if x !in p {
        assert Without([x], q)
          == Without([x][..0], q) + (if x in q then [] else [x]);
        assert [x][..0] == [];
      }
    }
  }

  /** Removing a set is the same as removing only its elements that occur in `s`. */
  lemma {:induction false} WithoutRestrict(s: seq<Id>, p: set<Id>)
    ensures Without(s, p) == Without(s, ToSet(s) * p)
  {
    if s != [] {
      var t := s[..|s| - 1];
      assert ToSet(t) <= ToSet(s) by {
        forall x | x in ToSet(t) ensures x in ToSet(s) {
          var i :| 0 <= i < |t| && t[i] == x;
          assert s[i] == x;
        }
      }
      WithoutRestrict(t, p);
      WithoutRestrict(t, ToSet(s) * p);
      assert ToSet(t) * (ToSet(s) * p) == ToSet(t) * p;
      assert s[|s| - 1] in ToSet(s);
    }
  }

  /** Two removals agree when they remove the same elements of `s`. */
  lemma WithoutAgree(s: seq<Id>, p: set<Id>, q: set<Id>)
    requires ToSet(s) * p == ToSet(s) * q
    ensures Without(s, p) == Without(s, q)
  {
    WithoutRestrict(s, p);
    WithoutRestrict(s, q);
  }

  lemma OnlyRestrict(s: seq<Id>, p: set<Id>)
    ensures Only(s, p) == Only(s, ToSet(s) * p)
  {
    OnlyRestrictAux(s, p, ToSet(s) * p);
  }

  lemma {:induction false} OnlyRestrictAux(s: seq<Id>, p: set<Id>, q: set<Id>)
    requires ToSet(s) * p == ToSet(s) * q
    ensures Only(s, p) == Only(s, q)
  {
    if s != [] {
      var t := s[..|s| - 1];
      assert ToSet(t) <= ToSet(s) by {
        forall x | x in ToSet(t) ensures x in ToSet(s) {
          var i :| 0 <= i < |t| && t[i] == x;
          assert s[i] == x;
        }
      }
      assert ToSet(t) * p == ToSet(t) * q by {
        forall x | x in ToSet(t) ensures x in p <==> x in q {
          assert x in ToSet(s) * p <==> x in ToSet(s) * q;
        }
      }
      OnlyRestrictAux(t, p, q);
      var x := s[|s| - 1];
      assert x in ToSet(s);
      assert x in ToSet(s) * p <==> x in ToSet(s) * q;
    }
  }

  /** Decimal digits of a natural number, as `Number.prototype.toString` writes them. */
  function NatToString(n: nat): (r: string)
    ensures |r| >= 1
    ensures (|r| == 1) == (n < 10)
    decreases n
  {
    if n < 10 then [Digit(n)] else NatToString(n / 10) + [Digit(n % 10)]
  }

  function Digit(d: nat): char
    requires d < 10
  {
    "0123456789"[d]
  }

  lemma DigitInjective(a: nat, b: nat)
    requires a < 10 && b < 10 && Digit(a) == Digit(b)
    ensures a == b
  {
  }

  /** Different numbers are written differently, so `"Layer " + k` and `k.toString()` never collide. */
  lemma {:induction false} NatToStringInjective(a: nat, b: nat)
    requires NatToString(a) == NatToString(b)
    ensures a == b
    decreases a
  {
    var sa, sb := NatToString(a), NatToString(b);
    if a >= 10 {
      assert b >= 10;
      assert sa[|sa| - 1] == Digit(a % 10) && sb[|sb| - 1] == Digit(b % 10);
      DigitInjective(a % 10, b % 10);
      assert sa[..|sa| - 1] == NatToString(a / 10);
      assert sb[..|sb| - 1] == NatToString(b / 10);
      NatToStringInjective(a / 10, b / 10);
    } else {
      DigitInjective(a, b);
    }
  }
}
