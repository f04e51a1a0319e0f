/**
 * A non-interactive picture of an atom built from particle objects: one
 * particle and one view per proton, neutron and electron of a number atom,
 * with the nucleus layered so that central nucleons are drawn on top.
 */
module NonInteractiveSchematicAtomNode {
  import opened Geometry
  import opened Particles
  import opened NucleusLayering
  import opened SceneLayer
  import opened BuildAnAtomTabView

  /** The types of a list of particles, in order. */
  function Types(particles: seq<Particle>): seq<ParticleType> {
    if particles == [] then []
    else Types(particles[..|particles| - 1]) + [particles[|particles| - 1].particleType]
  }

  lemma TypesSnoc(particles: seq<Particle>, particle: Particle)
    ensures Types(particles + [particle]) == Types(particles) + [particle.particleType]
  {
    assert (particles + [particle])[..|particles|] == particles;
  }

  /** The particles a list of views draws, in order. */
  function Drawn(views: seq<ParticleView>): seq<Particle> {
    if views == [] then []
    else Drawn(views[..|views| - 1]) + [views[|views| - 1].particle]
  }

  lemma DrawnSnoc(views: seq<ParticleView>, view: ParticleView)
    ensures Drawn(views + [view]) == Drawn(views) + [view.particle]
  {
    assert (views + [view])[..|views|] == views;
  }

  /** `number` copies of `t`. */
  function Repeat(t: ParticleType, number: nat): seq<ParticleType> {
    if number == 0 then [] else Repeat(t, number - 1) + [t]
  }

  /** The particle types the node creates for `atom`: protons, then neutrons, then electrons. */
  function ParticleOrder(atom: NumberAtom): seq<ParticleType> {
    Repeat(Proton, atom.protonCount) + Repeat(Neutron, atom.neutronCount) + Repeat(Electron, atom.electronCount)
  }

  /** How many entries of `s` are `t`. */
  function CountOf(s: seq<ParticleType>, t: ParticleType): nat {
    multiset(s)[t]
  }

  /** The creation order holds exactly the atom's counts of each kind of particle. */
  lemma ParticleOrderCounts(atom: NumberAtom)
    ensures |ParticleOrder(atom)| == atom.protonCount + atom.neutronCount + atom.electronCount
    ensures CountOf(ParticleOrder(atom), Proton) == atom.protonCount
    ensures CountOf(ParticleOrder(atom), Neutron) == atom.neutronCount
    ensures CountOf(ParticleOrder(atom), Electron) == atom.electronCount
  {
    RepeatCount(Proton, atom.protonCount);
    RepeatCount(Neutron, atom.neutronCount);
    RepeatCount(Electron, atom.electronCount);
  }

  lemma {:induction false} RepeatCount(t: ParticleType, number: nat)
    ensures multiset(Repeat(t, number)) == multiset{}[t := number]
  {
    if number > 0 {
      RepeatCount(t, number - 1);
      assert Repeat(t, number) == Repeat(t, number - 1) + [t];
    }
  }

  class NonInteractiveSchematicAtomNode {
    const particleAtom: ParticleAtom
    const particleLayer: Layer
    var modelParticles: seq<Particle>
    var particleViews: seq<ParticleView>

    /** The two lists grow in lockstep: view `i` draws particle `i`. */
    ghost predicate Valid()
      reads this, particleLayer
    {
      particleLayer.Valid() && Drawn(particleViews) == modelParticles && particleAtom.ShellRadiiNonNegative()
    }

    /** One round of `createAndAddParticles`: a new particle, added to the atom, and its view. */
    method CreateAndAddParticle(particleType: ParticleType)
      requires Valid() && particleLayer.children == particleViews && particleAtom.particles == modelParticles
      modifies this, particleLayer, particleAtom
      ensures Valid() && particleLayer.children == particleViews && particleAtom.particles == modelParticles
      ensures |modelParticles| == old(|modelParticles|) + 1 && |particleViews| == old(|particleViews|) + 1
      ensures modelParticles[..old(|modelParticles|)] == old(modelParticles)
      ensures particleViews[..old(|particleViews|)] == old(particleViews)
      ensures fresh(modelParticles[|modelParticles| - 1]) && fresh(particleViews[|particleViews| - 1])
      ensures Types(modelParticles) == old(Types(modelParticles)) + [particleType]
      ensures particleAtom.position == old(particleAtom.position)
    {
      var particle := new Particle(particleType);
      TypesSnoc(modelParticles, particle);
      modelParticles := modelParticles + [particle];
      particleAtom.AddParticle(particle);
      var particleView := new ParticleView(particle);
      particleLayer.AddChild(particleView);
      DrawnSnoc(particleViews, particleView);
      particleViews := particleViews + [particleView];
    }

    /**
     * `createAndAddParticles`: `number` new particles of one type, each added
     * to the particle atom, with a new view appended to the layer.
     */
    method CreateAndAddParticles(particleType: ParticleType, number: nat)
      requires Valid() && particleLayer.children == particleViews && particleAtom.particles == modelParticles
      modifies this, particleLayer, particleAtom
      ensures Valid() && particleLayer.children == particleViews && particleAtom.particles == modelParticles
      ensures |modelParticles| == old(|modelParticles|) + number && |particleViews| == old(|particleViews|) + number
      ensures modelParticles[..old(|modelParticles|)] == old(modelParticles)
      ensures particleViews[..old(|particleViews|)] == old(particleViews)
      ensures forall i | old(|modelParticles|) <= i < |modelParticles| :: fresh(modelParticles[i])
      ensures forall i | old(|particleViews|) <= i < |particleViews| :: fresh(particleViews[i])
      ensures Types(modelParticles) == old(Types(modelParticles)) + Repeat(particleType, number)
      ensures particleAtom.position == old(particleAtom.position)
    {
      ghost var before := Types(modelParticles);
      for i := 0 to number
        invariant Valid() && particleLayer.children == particleViews && particleAtom.particles == modelParticles
        invariant |modelParticles| == old(|modelParticles|) + i && |particleViews| == old(|particleViews|) + i
        invariant modelParticles[..old(|modelParticles|)] == old(modelParticles)
        invariant particleViews[..old(|particleViews|)] == old(particleViews)
        invariant forall k | old(|modelParticles|) <= k < |modelParticles| :: fresh(modelParticles[k])
        invariant forall k | old(|particleViews|) <= k < |particleViews| :: fresh(particleViews[k])
        invariant Types(modelParticles) == before + Repeat(particleType, i)
        invariant particleAtom.position == old(particleAtom.position)
      {
        CreateAndAddParticle(particleType);
        assert before + Repeat(particleType, i + 1) == before + Repeat(particleType, i) + [particleType];
      }
    }

    /** The three `createAndAddParticles` calls: protons, then neutrons, then electrons. */
    method CreateAndAddAllParticles(numberAtom: NumberAtom)
      requires Valid() && particleLayer.children == particleViews && particleAtom.particles == modelParticles
      requires modelParticles == []
      modifies this, particleLayer, particleAtom
      ensures Valid() && particleLayer.children == particleViews && particleAtom.particles == modelParticles
      ensures Types(modelParticles) == ParticleOrder(numberAtom)
      ensures particleAtom.position == old(particleAtom.position)
    {
      CreateAndAddParticles(Proton, numberAtom.protonCount);
      CreateAndAddParticles(Neutron, numberAtom.neutronCount);
      CreateAndAddParticles(Electron, numberAtom.electronCount);
      assert Types([]) + Repeat(Proton, numberAtom.protonCount) == Repeat(Proton, numberAtom.protonCount);
    }

    /**
     * The nucleus relayering run at the end of construction, with the inner
     * electron shell as the nucleus bound.
     */
    method RelayerNucleus()
      requires Valid() && particleLayer.children == particleViews
      modifies particleLayer
      ensures Valid()
      ensures particleLayer.children == Relayer<ParticleView>(
        particleViews,
        DestinationDistSqs(particleViews, particleAtom.position),
        Square(particleAtom.innerElectronShellRadius))
    {
      var radius := particleAtom.innerElectronShellRadius;
      var distSq := DestinationDistSqs(particleLayer.children, particleAtom.position);
      particleLayer.RelayerNucleus(distSq, Square(radius));
    }

    /**
     * Creates the particles and views for `numberAtom` in proton, neutron,
     * electron order, then relayers the nucleus.
     */
    constructor(numberAtom: NumberAtom, innerElectronShellRadius: real, outerElectronShellRadius: real)
      requires innerElectronShellRadius >= 0.0 && outerElectronShellRadius >= 0.0
      ensures Valid() && fresh(particleLayer) && fresh(particleAtom)
      ensures Types(modelParticles) == ParticleOrder(numberAtom)
      ensures particleAtom.particles == modelParticles
      ensures particleLayer.children == Relayer<ParticleView>(
        particleViews,
        DestinationDistSqs(particleViews, particleAtom.position),
        Square(innerElectronShellRadius))
    {
      particleAtom := new ParticleAtom(ZERO, innerElectronShellRadius, outerElectronShellRadius);
      particleLayer := new Layer();
      modelParticles := [];
      particleViews := [];
      new;
      CreateAndAddAllParticles(numberAtom);
      RelayerNucleus();
    }
  }
}
