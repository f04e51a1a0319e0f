/**
 * The "Build an Atom" tab view, reduced to its nucleon layer and the nucleus
 * relayering it runs whenever the atom reports that its nucleus was
 * reconfigured.
 */
module BuildAnAtomTabView {
  import opened Geometry
  import opened Particles
  import opened NucleusLayering
  import opened SceneLayer

  /** The squared distance of each view's particle destination from `center`. */
  function DestinationDistSqs(views: seq<ParticleView>, center: Vector2): (distSq: map<ParticleView, real>)
    reads set v | v in views :: v.particle
    ensures forall v | v in views :: DistSq(distSq, v) == DistanceSquared(v.particle.destination, center)
  {
    map v | v in views :: DistanceSquared(v.particle.destination, center)
  }

  class BuildAnAtomTabView {
    const particleAtom: ParticleAtom
    const nucleonLayer: Layer

    /** Adds one view per nucleon to the nucleon layer, in the nucleons' order. */
    constructor(particleAtom: ParticleAtom, nucleons: seq<Particle>)
      requires particleAtom.ShellRadiiNonNegative()
      ensures this.particleAtom == particleAtom && fresh(nucleonLayer) && nucleonLayer.Valid()
      ensures |nucleonLayer.children| == |nucleons|
      ensures forall i | 0 <= i < |nucleons| :: nucleonLayer.children[i].particle == nucleons[i]
    {
      this.particleAtom := particleAtom;
      var layer := new Layer();
      for i := 0 to |nucleons|
        invariant fresh(layer) && layer.Valid() && |layer.children| == i
        invariant forall k | 0 <= k < i :: layer.children[k].particle == nucleons[k]
      {
        var view := new ParticleView(nucleons[i]);
        layer.AddChild(view);
      }
      nucleonLayer := layer;
    }

    /**
     * `relayerNucleus`: the layer relayering with the nucleus bounded by the
     * outer electron shell, distances read from the particles' destinations.
     */
    method RelayerNucleus()
      requires nucleonLayer.Valid() && particleAtom.ShellRadiiNonNegative()
      modifies nucleonLayer
      ensures nucleonLayer.Valid()
      ensures nucleonLayer.children == Relayer<ParticleView>(
        old(nucleonLayer.children),
        old(DestinationDistSqs(nucleonLayer.children, particleAtom.position)),
        Square(particleAtom.outerElectronShellRadius))
    {
      var radius := particleAtom.outerElectronShellRadius;
      var distSq := DestinationDistSqs(nucleonLayer.children, particleAtom.position);
      nucleonLayer.RelayerNucleus(distSq, Square(radius));
    }

    /** The `nucleusReconfigured` listener: one relayering per event. */
    method NucleusReconfigured()
      requires nucleonLayer.Valid() && particleAtom.ShellRadiiNonNegative()
      modifies nucleonLayer
      ensures nucleonLayer.Valid()
      ensures nucleonLayer.children == Relayer<ParticleView>(
        old(nucleonLayer.children),
        old(DestinationDistSqs(nucleonLayer.children, particleAtom.position)),
        Square(particleAtom.outerElectronShellRadius))
    {
      RelayerNucleus();
    }
  }
}
