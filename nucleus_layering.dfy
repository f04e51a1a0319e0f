/**
 * Pure specification of the nucleus z-order relayering that both the
 * Build an Atom tab view and the non-interactive schematic atom perform on
 * the children of their particle layer.
 *
 * A child "is in the nucleus" when the squared distance of its particle's
 * destination from the atom's centre is below the squared shell radius.
 * (The views compare plain distances; since the square root is monotone on
 * non-negative reals, `d < R` iff `d*d < R*R`, and ordering by `-d` equals
 * ordering by `-d*d`, ties included.)  The squared distances are taken from
 * a snapshot map read when the relayering runs.
 *
 * If more than three children are in the nucleus, they are stably sorted
 * farthest-first and, one after the other in that order, removed from the
 * child list and appended to its end (the end is drawn on top).
 */
module NucleusLayering {
  import opened Geometry

  /** More than this many children in the nucleus triggers a relayering. */
  const RelayerThreshold: nat := 3

  /** The snapshot's squared distance for `x` (children absent from the snapshot count as 0). */
  function DistSq<T(==)>(distSq: map<T, real>, x: T): real {
    if x in distSq then distSq[x] else 0.0
  }

  /** No child occurs twice (a scene-graph node never holds the same child twice). */
  ghost predicate Distinct<T>(s: seq<T>) {
    forall x | x in s :: multiset(s)[x] <= 1
  }

  // ---------------------------------------------------------------------
  // Filters
  // ---------------------------------------------------------------------

  /** The children in the nucleus, in child-list order (`_.filter`). */
  function InNucleus<T(==)>(s: seq<T>, distSq: map<T, real>, r2: real): seq<T> {
    if s == [] then []
    else (if DistSq(distSq, s[0]) < r2 then [s[0]] else []) + InNucleus(s[1..], distSq, r2)
  }

  /** The children outside the nucleus, in child-list order. */
  function OutsideNucleus<T(==)>(s: seq<T>, distSq: map<T, real>, r2: real): seq<T> {
    if s == [] then []
    else (if DistSq(distSq, s[0]) < r2 then [] else [s[0]]) + OutsideNucleus(s[1..], distSq, r2)
  }

  /** The children whose squared distance is exactly `k`, in order. */
  function AtDistSq<T(==)>(s: seq<T>, distSq: map<T, real>, k: real): seq<T> {
    if s == [] then []
    else (if DistSq(distSq, s[0]) == k then [s[0]] else []) + AtDistSq(s[1..], distSq, k)
  }

  /** `s` with every element of `drop` taken out. */
  function Without<T>(s: seq<T>, drop: set<T>): seq<T> {
    if s == [] then []
    else (if s[0] in drop then [] else [s[0]]) + Without(s[1..], drop)
  }

  lemma {:induction false} InNucleusConcat<T>(a: seq<T>, b: seq<T>, distSq: map<T, real>, r2: real)
    ensures InNucleus(a + b, distSq, r2) == InNucleus(a, distSq, r2) + InNucleus(b, distSq, r2)
  {
    if a == [] {
      assert a + b == b;
    } else {
      var head := if DistSq(distSq, a[0]) < r2 then [a[0]] else [];
      var ab := a + b;
      assert ab[0] == a[0] && ab[1..] == a[1..] + b;
      InNucleusConcat(a[1..], b, distSq, r2);
      calc {
        InNucleus(ab, distSq, r2);
        head + InNucleus(a[1..] + b, distSq, r2);
        head + (InNucleus(a[1..], distSq, r2) + InNucleus(b, distSq, r2));
        (head + InNucleus(a[1..], distSq, r2)) + InNucleus(b, distSq, r2);
      }
    }
  }

  lemma {:induction false} OutsideNucleusConcat<T>(a: seq<T>, b: seq<T>, distSq: map<T, real>, r2: real)
    ensures OutsideNucleus(a + b, distSq, r2) == OutsideNucleus(a, distSq, r2) + OutsideNucleus(b, distSq, r2)
  {
    if a == [] {
      assert a + b == b;
    } else {
      var head := if !(DistSq(distSq, a[0]) < r2) then [a[0]] else [];
      var ab := a + b;
      assert ab[0] == a[0] && ab[1..] == a[1..] + b;
      OutsideNucleusConcat(a[1..], b, distSq, r2);
      calc {
        OutsideNucleus(ab, distSq, r2);
        head + OutsideNucleus(a[1..] + b, distSq, r2);
        head + (OutsideNucleus(a[1..], distSq, r2) + OutsideNucleus(b, distSq, r2));
        (head + OutsideNucleus(a[1..], distSq, r2)) + OutsideNucleus(b, distSq, r2);
      }
    }
  }

  lemma {:induction false} WithoutConcat<T>(a: seq<T>, b: seq<T>, drop: set<T>)
    ensures Without(a + b, drop) == Without(a, drop) + Without(b, drop)
  {
    if a != [] {
      assert (a + b)[1..] == a[1..] + b;
      WithoutConcat(a[1..], b, drop);
    } else {
      assert a + b == b;
    }
  }

  /** The two filters split the children: together they hold every child exactly as often. */
  lemma {:induction false} NucleusSplit<T>(s: seq<T>, distSq: map<T, real>, r2: real)
    ensures multiset(InNucleus(s, distSq, r2)) + multiset(OutsideNucleus(s, distSq, r2)) == multiset(s)
  {
    if s != [] {
      NucleusSplit(s[1..], distSq, r2);
      assert s == [s[0]] + s[1..];
    }
  }

  lemma {:induction false} InNucleusMembers<T>(s: seq<T>, distSq: map<T, real>, r2: real)
    ensures forall x :: x in InNucleus(s, distSq, r2) <==> x in s && DistSq(distSq, x) < r2
  {
    if s != [] {
      InNucleusMembers(s[1..], distSq, r2);
      assert s == [s[0]] + s[1..];
    }
  }

  /**
   * The squared test is the views' test: a child whose destination lies at
   * distance `d` passes the filter with the squared radius `R^2` exactly
   * when `d < R`, for every non-negative radius.
   */
  lemma InNucleusByDistance<T>(s: seq<T>, distSq: map<T, real>, x: T, d: real, radius: real)
    requires d >= 0.0 && radius >= 0.0 && DistSq(distSq, x) == Square(d)
    ensures x in InNucleus(s, distSq, Square(radius)) <==> x in s && d < radius
  {
    InNucleusMembers(s, distSq, Square(radius));
    SquareMonotone(d, radius);
  }

  lemma {:induction false} WithoutMembers<T>(s: seq<T>, drop: set<T>)
    ensures forall x :: x in Without(s, drop) <==> x in s && x !in drop
  {
    if s != [] {
      WithoutMembers(s[1..], drop);
      assert s == [s[0]] + s[1..];
    }
  }

  /** Every element of `s` lies in the nucleus. */
  ghost predicate AllInNucleus<T>(s: seq<T>, distSq: map<T, real>, r2: real) {
    forall i | 0 <= i < |s| :: DistSq(distSq, s[i]) < r2
  }

  /** A filter of children that all lie in the nucleus keeps all of them. */
  lemma {:induction false} FilterAllInNucleus<T>(s: seq<T>, distSq: map<T, real>, r2: real)
    requires AllInNucleus(s, distSq, r2)
    ensures InNucleus(s, distSq, r2) == s && OutsideNucleus(s, distSq, r2) == []
  {
    if s != [] {
      assert AllInNucleus(s[1..], distSq, r2) by {
        forall i | 0 <= i < |s[1..]| ensures DistSq(distSq, s[1..][i]) < r2 {
          assert s[1..][i] == s[i + 1];
        }
      }
      FilterAllInNucleus(s[1..], distSq, r2);
      assert s == [s[0]] + s[1..];
    }
  }

  /** The nucleus filter only keeps children in the nucleus. */
  lemma {:induction false} InNucleusAllIn<T>(s: seq<T>, distSq: map<T, real>, r2: real)
    ensures AllInNucleus(InNucleus(s, distSq, r2), distSq, r2)
  {
    if s != [] {
      InNucleusAllIn(s[1..], distSq, r2);
      var head := if DistSq(distSq, s[0]) < r2 then [s[0]] else [];
      var q := head + InNucleus(s[1..], distSq, r2);
      forall i | 0 <= i < |q| ensures DistSq(distSq, q[i]) < r2 {
        if i >= |head| {
          assert q[i] == InNucleus(s[1..], distSq, r2)[i - |head|];
        }
      }
    }
  }

  /** The outside filter only keeps children outside the nucleus. */
  lemma {:induction false} OutsideNucleusAllOut<T>(s: seq<T>, distSq: map<T, real>, r2: real)
    ensures forall i | 0 <= i < |OutsideNucleus(s, distSq, r2)| :: DistSq(distSq, OutsideNucleus(s, distSq, r2)[i]) >= r2
  {
    if s != [] {
      OutsideNucleusAllOut(s[1..], distSq, r2);
      var head := if DistSq(distSq, s[0]) < r2 then [] else [s[0]];
      var o := head + OutsideNucleus(s[1..], distSq, r2);
      forall i | 0 <= i < |o| ensures DistSq(distSq, o[i]) >= r2 {
        if i >= |head| {
          assert o[i] == OutsideNucleus(s[1..], distSq, r2)[i - |head|];
        }
      }
    }
  }

  /** A rearrangement of children that all lie in the nucleus also lies in the nucleus. */
  lemma AllInNucleusPermutation<T>(a: seq<T>, b: seq<T>, distSq: map<T, real>, r2: real)
    requires AllInNucleus(a, distSq, r2) && multiset(a) == multiset(b)
    ensures AllInNucleus(b, distSq, r2)
  {
    forall j | 0 <= j < |b| ensures DistSq(distSq, b[j]) < r2 {
      assert b[j] in multiset(a);
      var i :| 0 <= i < |a| && a[i] == b[j];
    }
  }

  /** Filtering twice for outside children is filtering once. */
  lemma {:induction false} OutsideNucleusTwice<T>(s: seq<T>, distSq: map<T, real>, r2: real)
    ensures OutsideNucleus(OutsideNucleus(s, distSq, r2), distSq, r2) == OutsideNucleus(s, distSq, r2)
    ensures InNucleus(OutsideNucleus(s, distSq, r2), distSq, r2) == []
  {
    if s != [] {
      OutsideNucleusTwice(s[1..], distSq, r2);
      var head := if DistSq(distSq, s[0]) < r2 then [] else [s[0]];
      OutsideNucleusConcat(head, OutsideNucleus(s[1..], distSq, r2), distSq, r2);
      InNucleusConcat(head, OutsideNucleus(s[1..], distSq, r2), distSq, r2);
    }
  }

  /** Dropping exactly the children in the nucleus leaves the children outside it. */
  lemma {:induction false} WithoutNucleus<T>(s: seq<T>, drop: set<T>, distSq: map<T, real>, r2: real)
    requires forall x :: x in s ==> (x in drop <==> DistSq(distSq, x) < r2)
    ensures Without(s, drop) == OutsideNucleus(s, distSq, r2)
  {
    if s != [] {
      WithoutNucleus(s[1..], drop, distSq, r2);
    }
  }

  /** Dropping elements that do not occur changes nothing. */
  lemma {:induction false} WithoutAbsent<T>(s: seq<T>, drop: set<T>, extra: set<T>)
    requires forall x :: x in s ==> x !in extra
    ensures Without(s, drop + extra) == Without(s, drop)
  {
    if s != [] {
      WithoutAbsent(s[1..], drop, extra);
    }
  }

  // ---------------------------------------------------------------------
  // Removing a child and appending it again (removeChild / addChild)
  // ---------------------------------------------------------------------

  /** `s` without the first occurrence of `x` (removeChild). */
  function Remove<T(==)>(s: seq<T>, x: T): (r: seq<T>)
    ensures multiset(r) == multiset(s) - multiset{x}
  {
    if s == [] then []
    else if s[0] == x then
      assert s == [x] + s[1..];
      s[1..]
    else
      assert s == [s[0]] + s[1..];
      [s[0]] + Remove(s[1..], x)
  }

  /** Removing from the front part of a list leaves the back part alone. */
  lemma {:induction false} RemoveConcat<T>(a: seq<T>, b: seq<T>, x: T)
    requires x in a
    ensures Remove(a + b, x) == Remove(a, x) + b
  {
    assert (a + b)[0] == a[0];
    if a[0] != x {
      assert (a + b)[1..] == a[1..] + b;
      RemoveConcat(a[1..], b, x);
    } else {
      assert (a + b)[1..] == a[1..] + b;
    }
  }

  /** Removing a child that occurs once from a filtered list is filtering it out too. */
  lemma {:induction false} RemoveWithout<T>(s: seq<T>, drop: set<T>, x: T)
    requires multiset(s)[x] <= 1 && x !in drop
    ensures Remove(Without(s, drop), x) == Without(s, drop + {x})
  {
    if s != [] {
      var h, t := s[0], s[1..];
      assert s == [h] + t;
      assert multiset(s) == multiset{h} + multiset(t);
      if h == x {
        assert multiset(t)[x] == 0;
        assert Without(s, drop) == [x] + Without(t, drop);
        assert Remove([x] + Without(t, drop), x) == Without(t, drop);
        assert Without(s, drop + {x}) == Without(t, drop + {x});
        WithoutAbsent(t, drop, {x});
      } else {
        RemoveWithout(t, drop, x);
        if h in drop {
          assert Without(s, drop) == Without(t, drop);
          assert Without(s, drop + {x}) == Without(t, drop + {x});
        } else {
          var w := Without(t, drop);
          assert Without(s, drop) == [h] + w;
          assert ([h] + w)[1..] == w;
          assert Remove([h] + w, x) == [h] + Remove(w, x);
          assert Without(s, drop + {x}) == [h] + Without(t, drop + {x});
        }
      }
    }
  }

  /** Move `x` to the end of the child list: removeChild then addChild. */
  function MoveToEnd<T(==)>(s: seq<T>, x: T): seq<T> {
    Remove(s, x) + [x]
  }

  /** Move each element of `order`, first to last, to the end of the child list. */
  function MoveAllToEnd<T(==)>(s: seq<T>, order: seq<T>): seq<T>
    decreases |order|
  {
    if order == [] then s
    else MoveToEnd(MoveAllToEnd(s, order[..|order| - 1]), order[|order| - 1])
  }

  /** Dropping the last element of a distinct list leaves it distinct and without that element. */
  lemma DistinctSnoc<T>(prefix: seq<T>, x: T)
    requires Distinct(prefix + [x])
    ensures Distinct(prefix) && x !in prefix
  {
    var order := prefix + [x];
    assert multiset(order) == multiset(prefix) + multiset{x};
    forall y | y in prefix ensures multiset(prefix)[y] <= 1 {
      assert y in order;
    }
    assert x in order;
  }

  /** A prefix one longer is the prefix with the next element appended. */
  lemma TakeOneMore<T>(s: seq<T>, i: nat)
    requires i < |s|
    ensures s[..i + 1] == s[..i] + [s[i]]
  {
  }

  /** Moving one more child is one more step of the loop. */
  lemma MoveAllToEndSnoc<T>(s: seq<T>, order: seq<T>, x: T)
    ensures MoveAllToEnd(s, order + [x]) == MoveToEnd(MoveAllToEnd(s, order), x)
  {
    assert (order + [x])[..|order|] == order;
  }

  /** The elements of `prefix + [x]` are those of `prefix` and `x`. */
  lemma ElementsSnoc<T>(prefix: seq<T>, x: T)
    ensures (set y | y in prefix + [x]) == (set y | y in prefix) + {x}
  {
  }

  /**
   * Moving distinct children of a distinct list to the end, one by one, leaves
   * the other children in their order, followed by the moved ones in the order
   * they were moved.
   */
  lemma {:induction false} MoveAllToEndShape<T>(s: seq<T>, order: seq<T>)
    requires Distinct(s) && Distinct(order) && multiset(order) <= multiset(s)
    ensures MoveAllToEnd(s, order) == Without(s, set x | x in order) + order
    decreases |order|
  {
    if order == [] {
      assert (set x | x in order) == {};
      WithoutNothing(s);
      assert s + order == s;
    } else {
      var n := |order| - 1;
      var prefix, x := order[..n], order[n];
      assert order == prefix + [x];
      DistinctSnoc(prefix, x);
      assert multiset(order) == multiset(prefix) + multiset{x};
      assert multiset(prefix) <= multiset(s);
      MoveAllToEndShape(s, prefix);
      var kept := set y | y in prefix;
      assert x !in kept;
      assert x in s by {
        assert x in multiset(order);
      }
      MoveNextToEnd(s, kept, prefix, x);
      ElementsSnoc(prefix, x);
      assert MoveAllToEnd(s, order) == MoveToEnd(MoveAllToEnd(s, prefix), x);
    }
  }

  /** One step of the moving loop, on a list already split into kept and moved children. */
  lemma MoveNextToEnd<T>(s: seq<T>, kept: set<T>, prefix: seq<T>, x: T)
    requires Distinct(s) && x in s && x !in kept
    ensures MoveToEnd(Without(s, kept) + prefix, x) == Without(s, kept + {x}) + (prefix + [x])
  {
    var w := Without(s, kept);
    WithoutMembers(s, kept);
    assert x in w;
    RemoveConcat(w, prefix, x);
    RemoveWithout(s, kept, x);
  }

  lemma {:induction false} WithoutNothing<T>(s: seq<T>)
    ensures Without(s, {}) == s
  {
    if s != [] {
      WithoutNothing(s[1..]);
      assert s == [s[0]] + s[1..];
    }
  }

  /** Moving children that are already in the list keeps the same children. */
  lemma {:induction false} MoveAllToEndPermutation<T>(s: seq<T>, order: seq<T>)
    requires multiset(order) <= multiset(s)
    ensures multiset(MoveAllToEnd(s, order)) == multiset(s)
    decreases |order|
  {
    if order != [] {
      var n := |order| - 1;
      assert order == order[..n] + [order[n]];
      assert multiset(order) == multiset(order[..n]) + multiset{order[n]};
      MoveAllToEndPermutation(s, order[..n]);
      assert order[n] in multiset(s);
    }
  }

  // ---------------------------------------------------------------------
  // Stable farthest-first sort (`_.sortBy` on minus the distance)
  // ---------------------------------------------------------------------

  /** Non-increasing squared distance: farthest first, nearest last. */
  ghost predicate FarthestFirst<T>(s: seq<T>, distSq: map<T, real>)
    decreases |s|
  {
    |s| <= 1 || (DistSq(distSq, s[0]) >= DistSq(distSq, s[1]) && FarthestFirst(s[1..], distSq))
  }

  /** In a farthest-first list every element is at least as far as every later one. */
  lemma {:induction false} FarthestFirstPairwise<T>(s: seq<T>, distSq: map<T, real>)
    requires FarthestFirst(s, distSq)
    ensures forall i, j | 0 <= i < j < |s| :: DistSq(distSq, s[i]) >= DistSq(distSq, s[j])
  {
    if |s| > 1 {
      var t := s[1..];
      FarthestFirstPairwise(t, distSq);
      forall i, j | 0 <= i < j < |s| ensures DistSq(distSq, s[i]) >= DistSq(distSq, s[j]) {
        assert s[j] == t[j - 1];
        if i > 0 {
          assert s[i] == t[i - 1];
        } else if j > 1 {
          assert t[0] == s[1];
        }
      }
    }
  }

  /**
   * Insert `x` in front of the first element that is not strictly farther
   * than `x`: it goes after every farther element and before every element
   * at its own distance.
   */
  function Insert<T(==)>(x: T, s: seq<T>, distSq: map<T, real>): seq<T> {
    if s == [] then [x]
    else if DistSq(distSq, s[0]) <= DistSq(distSq, x) then [x] + s
    else [s[0]] + Insert(x, s[1..], distSq)
  }

  /** `_.sortBy(children, -distance)`: a stable sort, farthest first. */
  function SortFarthestFirst<T(==)>(s: seq<T>, distSq: map<T, real>): seq<T> {
    if s == [] then []
    else Insert(s[0], SortFarthestFirst(s[1..], distSq), distSq)
  }

  /** Insertion adds `x` and keeps everything else. */
  lemma {:induction false} InsertIsPermutation<T>(x: T, s: seq<T>, distSq: map<T, real>)
    ensures multiset(Insert(x, s, distSq)) == multiset(s) + multiset{x}
  {
    if s != [] && DistSq(distSq, s[0]) > DistSq(distSq, x) {
      InsertIsPermutation(x, s[1..], distSq);
      assert s == [s[0]] + s[1..];
    }
  }

  /** The sort only reorders. */
  lemma {:induction false} SortIsPermutation<T>(s: seq<T>, distSq: map<T, real>)
    ensures multiset(SortFarthestFirst(s, distSq)) == multiset(s)
  {
    if s != [] {
      SortIsPermutation(s[1..], distSq);
      InsertIsPermutation(s[0], SortFarthestFirst(s[1..], distSq), distSq);
      assert s == [s[0]] + s[1..];
    }
  }

  /** Insertion puts `x` or the old head at the front. */
  lemma InsertHead<T>(x: T, s: seq<T>, distSq: map<T, real>)
    ensures Insert(x, s, distSq)[0] == x || (s != [] && Insert(x, s, distSq)[0] == s[0])
  {
  }

  lemma {:induction false} InsertKeepsFarthestFirst<T>(x: T, s: seq<T>, distSq: map<T, real>)
    requires FarthestFirst(s, distSq)
    ensures FarthestFirst(Insert(x, s, distSq), distSq)
  {
    if s != [] {
      var t := s[1..];
      if DistSq(distSq, s[0]) <= DistSq(distSq, x) {
        assert ([x] + s)[1..] == s;
      } else {
        var tail := Insert(x, t, distSq);
        InsertKeepsFarthestFirst(x, t, distSq);
        InsertHead(x, t, distSq);
        assert ([s[0]] + tail)[1..] == tail;
        assert t != [] ==> t[0] == s[1];
      }
    }
  }

  /** The sort orders its result farthest first. */
  lemma {:induction false} SortIsFarthestFirst<T>(s: seq<T>, distSq: map<T, real>)
    ensures FarthestFirst(SortFarthestFirst(s, distSq), distSq)
  {
    if s != [] {
      SortIsFarthestFirst(s[1..], distSq);
      InsertKeepsFarthestFirst(s[0], SortFarthestFirst(s[1..], distSq), distSq);
    }
  }

  lemma {:induction false} InsertAtDistSq<T>(x: T, s: seq<T>, distSq: map<T, real>, k: real)
    ensures AtDistSq(Insert(x, s, distSq), distSq, k) == AtDistSq([x], distSq, k) + AtDistSq(s, distSq, k)
  {
    var hx := if DistSq(distSq, x) == k then [x] else [];
    assert AtDistSq([x], distSq, k) == hx + AtDistSq([], distSq, k);
    assert AtDistSq([x], distSq, k) == hx;
    if s == [] {
      assert AtDistSq(s, distSq, k) == [];
    } else {
      var t := s[1..];
      var hs := if DistSq(distSq, s[0]) == k then [s[0]] else [];
      assert AtDistSq(s, distSq, k) == hs + AtDistSq(t, distSq, k);
      if DistSq(distSq, s[0]) <= DistSq(distSq, x) {
        assert ([x] + s)[1..] == s;
        assert AtDistSq([x] + s, distSq, k) == hx + AtDistSq(s, distSq, k);
      } else {
        var tail := Insert(x, t, distSq);
        InsertAtDistSq(x, t, distSq, k);
        assert ([s[0]] + tail)[1..] == tail;
        assert AtDistSq([s[0]] + tail, distSq, k) == hs + AtDistSq(tail, distSq, k);
        assert hs == [] || hx == [];
      }
    }
  }

  /** `AtDistSq` of a non-empty list, split after its head. */
  lemma AtDistSqUnfold<T>(s: seq<T>, distSq: map<T, real>, k: real)
    requires s != []
    ensures AtDistSq(s, distSq, k) == AtDistSq([s[0]], distSq, k) + AtDistSq(s[1..], distSq, k)
  {
    assert AtDistSq([s[0]], distSq, k) == (if DistSq(distSq, s[0]) == k then [s[0]] else []) + AtDistSq([], distSq, k);
  }

  /**
   * Stability: for every distance, the children at that distance appear in
   * the sorted list in the same relative order as in the input.
   */
  lemma {:induction false} SortIsStable<T>(s: seq<T>, distSq: map<T, real>, k: real)
    ensures AtDistSq(SortFarthestFirst(s, distSq), distSq, k) == AtDistSq(s, distSq, k)
  {
    if s != [] {
      var sortedTail := SortFarthestFirst(s[1..], distSq);
      SortIsStable(s[1..], distSq, k);
      InsertAtDistSq(s[0], sortedTail, distSq, k);
      AtDistSqUnfold(s, distSq, k);
    }
  }

  /** An element no nearer than the head of a list is inserted in front. */
  lemma InsertInFront<T>(x: T, s: seq<T>, distSq: map<T, real>)
    requires s == [] || DistSq(distSq, s[0]) <= DistSq(distSq, x)
    ensures Insert(x, s, distSq) == [x] + s
  {
  }

  /** A list that is already farthest first is left as it is by the sort. */
  lemma {:induction false} SortOfFarthestFirst<T>(s: seq<T>, distSq: map<T, real>)
    requires FarthestFirst(s, distSq)
    ensures SortFarthestFirst(s, distSq) == s
  {
    if s != [] {
      var t := s[1..];
      SortOfFarthestFirst(t, distSq);
      InsertInFront(s[0], t, distSq);
      assert [s[0]] + t == s;
    }
  }

  // ---------------------------------------------------------------------
  // The relayering
  // ---------------------------------------------------------------------

  /** The child order after one relayering of the child list `s`. */
  function Relayer<T(==)>(s: seq<T>, distSq: map<T, real>, r2: real): seq<T> {
    var inNucleus := InNucleus(s, distSq, r2);
    if |inNucleus| > RelayerThreshold then MoveAllToEnd(s, SortFarthestFirst(inNucleus, distSq))
    else s
  }

  /**
   * Relayering a list of distinct children: nothing happens when at most three
   * children are in the nucleus; otherwise the children outside the nucleus
   * keep their order and are followed by the nucleus children, sorted stably
   * farthest first.
   */
  lemma {:induction false} RelayerShape<T>(s: seq<T>, distSq: map<T, real>, r2: real)
    requires Distinct(s)
    ensures |InNucleus(s, distSq, r2)| <= RelayerThreshold ==> Relayer(s, distSq, r2) == s
    ensures |InNucleus(s, distSq, r2)| > RelayerThreshold ==>
      Relayer(s, distSq, r2) ==
        OutsideNucleus(s, distSq, r2) + SortFarthestFirst(InNucleus(s, distSq, r2), distSq)
  {
    var q := InNucleus(s, distSq, r2);
    if |q| > RelayerThreshold {
      var sorted := SortFarthestFirst(q, distSq);
      SortIsPermutation(q, distSq);
      NucleusSplit(s, distSq, r2);
      assert multiset(sorted) <= multiset(s);
      assert Distinct(sorted) by {
        forall x | x in sorted ensures multiset(sorted)[x] <= 1 {
          assert multiset(sorted)[x] <= multiset(s)[x];
        }
      }
      MoveAllToEndShape(s, sorted);
      InNucleusMembers(s, distSq, r2);
      var moved := set x | x in sorted;
      forall x | x in s
        ensures x in moved <==> DistSq(distSq, x) < r2
      {
        assert x in sorted <==> x in multiset(sorted);
        assert x in q <==> x in multiset(q);
      }
      WithoutNucleus(s, moved, distSq, r2);
    }
  }

  /** Relayering only reorders: the same children, each as often as before. */
  lemma {:induction false} RelayerIsPermutation<T>(s: seq<T>, distSq: map<T, real>, r2: real)
    ensures multiset(Relayer(s, distSq, r2)) == multiset(s)
  {
    var q := InNucleus(s, distSq, r2);
    if |q| > RelayerThreshold {
      NucleusSplit(s, distSq, r2);
      SortIsPermutation(q, distSq);
      MoveAllToEndPermutation(s, SortFarthestFirst(q, distSq));
    }
  }

  /**
   * When more than three children are in the nucleus, relayering leaves the
   * children outside the nucleus as they were and the nucleus children in
   * sorted order.
   */
  lemma {:induction false} RelayerSplits<T>(s: seq<T>, distSq: map<T, real>, r2: real)
    requires Distinct(s)
    requires |InNucleus(s, distSq, r2)| > RelayerThreshold
    ensures OutsideNucleus(Relayer(s, distSq, r2), distSq, r2) == OutsideNucleus(s, distSq, r2)
    ensures InNucleus(Relayer(s, distSq, r2), distSq, r2) == SortFarthestFirst(InNucleus(s, distSq, r2), distSq)
  {
    RelayerShape(s, distSq, r2);
    var q := InNucleus(s, distSq, r2);
    var outside := OutsideNucleus(s, distSq, r2);
    var sorted := SortFarthestFirst(q, distSq);
    SortIsPermutation(q, distSq);
    InNucleusAllIn(s, distSq, r2);
    AllInNucleusPermutation(q, sorted, distSq, r2);
    FilterAllInNucleus(sorted, distSq, r2);
    OutsideNucleusTwice(s, distSq, r2);
    InNucleusConcat(outside, sorted, distSq, r2);
    OutsideNucleusConcat(outside, sorted, distSq, r2);
  }

  /** Children outside the nucleus keep their relative order. */
  lemma {:induction false} RelayerKeepsOutsideOrder<T>(s: seq<T>, distSq: map<T, real>, r2: real)
    requires Distinct(s)
    ensures OutsideNucleus(Relayer(s, distSq, r2), distSq, r2) == OutsideNucleus(s, distSq, r2)
  {
    if |InNucleus(s, distSq, r2)| > RelayerThreshold {
      RelayerSplits(s, distSq, r2);
    }
  }

  /**
   * When more than three children are in the nucleus, after relayering every
   * child outside the nucleus is drawn below every child in it.
   */
  lemma {:induction false} RelayerPutsNucleusOnTop<T>(s: seq<T>, distSq: map<T, real>, r2: real)
    requires Distinct(s)
    requires |InNucleus(s, distSq, r2)| > RelayerThreshold
    ensures var r := Relayer(s, distSq, r2);
      forall i, j | 0 <= i < |r| && 0 <= j < |r| && DistSq(distSq, r[i]) >= r2 && DistSq(distSq, r[j]) < r2 :: i < j
  {
    RelayerShape(s, distSq, r2);
    var q := InNucleus(s, distSq, r2);
    var sorted := SortFarthestFirst(q, distSq);
    SortIsPermutation(q, distSq);
    InNucleusAllIn(s, distSq, r2);
    AllInNucleusPermutation(q, sorted, distSq, r2);
    OutsideNucleusAllOut(s, distSq, r2);
    OutsideBelowInside(OutsideNucleus(s, distSq, r2), sorted, distSq, r2);
  }

  /** In a list of outside children followed by nucleus children, every outside child comes first. */
  lemma OutsideBelowInside<T>(outside: seq<T>, inside: seq<T>, distSq: map<T, real>, r2: real)
    requires forall i | 0 <= i < |outside| :: DistSq(distSq, outside[i]) >= r2
    requires AllInNucleus(inside, distSq, r2)
    ensures var r := outside + inside;
      forall i, j | 0 <= i < |r| && 0 <= j < |r| && DistSq(distSq, r[i]) >= r2 && DistSq(distSq, r[j]) < r2 :: i < j
  {
    var r := outside + inside;
    forall i | 0 <= i < |r|
      ensures i < |outside| <==> DistSq(distSq, r[i]) >= r2
    {
      if i < |outside| {
        assert r[i] == outside[i];
      } else {
        assert r[i] == inside[i - |outside|];
      }
    }
  }

  /**
   * When more than three children are in the nucleus, after relayering the
   * nucleus children come farthest first (the nearest is drawn on top).
   */
  lemma {:induction false} RelayerNucleusFarthestFirst<T>(s: seq<T>, distSq: map<T, real>, r2: real)
    requires Distinct(s)
    requires |InNucleus(s, distSq, r2)| > RelayerThreshold
    ensures FarthestFirst(InNucleus(Relayer(s, distSq, r2), distSq, r2), distSq)
  {
    RelayerSplits(s, distSq, r2);
    SortIsFarthestFirst(InNucleus(s, distSq, r2), distSq);
  }

  /**
   * Nucleus children at equal distance keep their previous relative order:
   * for every distance, the nucleus children at that distance appear in the
   * same order before and after relayering.
   */
  lemma {:induction false} RelayerNucleusStable<T>(s: seq<T>, distSq: map<T, real>, r2: real, k: real)
    requires Distinct(s)
    ensures AtDistSq(InNucleus(Relayer(s, distSq, r2), distSq, r2), distSq, k) ==
            AtDistSq(InNucleus(s, distSq, r2), distSq, k)
  {
    if |InNucleus(s, distSq, r2)| > RelayerThreshold {
      RelayerSplits(s, distSq, r2);
      SortIsStable(InNucleus(s, distSq, r2), distSq, k);
    }
  }

  /** Relayering a second time changes nothing. */
  lemma {:induction false} RelayerIdempotent<T>(s: seq<T>, distSq: map<T, real>, r2: real)
    requires Distinct(s)
    ensures Relayer(Relayer(s, distSq, r2), distSq, r2) == Relayer(s, distSq, r2)
  {
    var q := InNucleus(s, distSq, r2);
    if |q| > RelayerThreshold {
      var r := Relayer(s, distSq, r2);
      var sorted := SortFarthestFirst(q, distSq);
      SortIsPermutation(q, distSq);
      RelayerIsPermutation(s, distSq, r2);
      assert Distinct(r) by {
        forall x | x in r ensures multiset(r)[x] <= 1 {
          assert multiset(r)[x] == multiset(s)[x];
        }
      }
      RelayerSplits(s, distSq, r2);
      RelayerShape(s, distSq, r2);
      RelayerShape(r, distSq, r2);
      SortIsFarthestFirst(q, distSq);
      SortOfFarthestFirst(sorted, distSq);
    } else {
      RelayerShape(s, distSq, r2);
    }
  }
}
