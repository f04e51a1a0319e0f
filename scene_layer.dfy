/**
 * A scene-graph node holding particle views as children. Children later in
 * the list are drawn on top of earlier ones.
 */
module SceneLayer {
  import opened Particles
  import opened NucleusLayering

  class Layer {
    var children: seq<ParticleView>

    /** A node never holds the same child twice. */
    ghost predicate Valid()
      reads this
    {
      Distinct(children)
    }

    constructor()
      ensures children == [] && Valid()
    {
      children := [];
    }

    /** `addChild`: appends a view that is not yet a child, so it is drawn on top. */
    method AddChild(child: ParticleView)
      requires Valid() && child !in children
      modifies this
      ensures children == old(children) + [child] && Valid()
    {
      children := children + [child];
      assert multiset(children) == multiset(old(children)) + multiset{child};
      forall x | x in children ensures multiset(children)[x] <= 1 {
        if x != child {
          assert x in old(children);
        }
      }
    }

    /** `removeChild`: takes out a view that is a child. */
    method RemoveChild(child: ParticleView)
      requires Valid() && child in children
      modifies this
      ensures children == Remove(old(children), child) && child !in children && Valid()
    {
      children := Remove(children, child);
      assert multiset(children)[child] == 0;
      forall x | x in children ensures multiset(children)[x] <= 1 {
        assert x in multiset(children);
        assert x in old(children);
      }
    }

    /** Removes a child and adds it back, so that it is drawn on top. */
    method MoveToTop(child: ParticleView)
      requires Valid() && child in children
      modifies this
      ensures children == MoveToEnd(old(children), child) && Valid()
      ensures multiset(children) == multiset(old(children))
    {
      RemoveChild(child);
      AddChild(child);
    }

    /**
     * Removes each view of `order`, first to last, and adds it back at the
     * end of the child list.
     */
    method MoveAllToTop(order: seq<ParticleView>)
      requires Valid() && multiset(order) <= multiset(children)
      modifies this
      ensures children == MoveAllToEnd(old(children), order) && Valid()
    {
      ghost var original := children;
      assert order[..0] == [];
      for i := 0 to |order|
        invariant Valid() && children == MoveAllToEnd(original, order[..i])
        invariant multiset(children) == multiset(original)
      {
        var view := order[i];
        assert view in multiset(original) by {
          assert view in multiset(order);
        }
        MoveToTop(view);
        TakeOneMore(order, i);
        MoveAllToEndSnoc(original, order[..i], view);
      }
      assert order[..|order|] == order;
    }

    /**
     * The nucleus relayering, in place: if more than three children are in
     * the nucleus (squared distance in `distSq` below `r2`), each of them, in
     * farthest-first order, is brought to the top.
     */
    method RelayerNucleus(distSq: map<ParticleView, real>, r2: real)
      requires Valid()
      modifies this
      ensures children == Relayer(old(children), distSq, r2) && Valid()
    {
      var particlesInNucleus := InNucleus(children, distSq, r2);
      if |particlesInNucleus| > RelayerThreshold {
        var sorted := SortFarthestFirst(particlesInNucleus, distSq);
        NucleusSplit(children, distSq, r2);
        SortIsPermutation(particlesInNucleus, distSq);
        MoveAllToTop(sorted);
      }
    }
  }
}
