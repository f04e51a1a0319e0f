/**
 * The model of the "Build an Atom" tab: three buckets of particles and an
 * atom at the origin. A proton released by the user outside its bucket either
 * joins the atom, when it is close enough to the centre, or goes back to
 * the bucket.
 */
module BuildAnAtomModel {
  import opened Geometry
  import opened Particles
  import opened SharedConstants

  const NUM_PROTONS: nat := 10
  const NUM_NEUTRONS: nat := 13
  const NUM_ELECTRONS: nat := 10
  /** A released proton closer than this to the origin joins the atom. */
  const NUCLEON_CAPTURE_RADIUS: real := 100.0

  /**
   * A bucket of particles. Its slot lattice is not modelled: both ways of
   * adding a particle put it in the bucket.
   */
  class SphereBucket {
    /** The radius of the particles the bucket is sized for. */
    const particleRadius: real
    var particles: seq<Particle>

    constructor(particleRadius: real)
      ensures this.particleRadius == particleRadius && particles == []
    {
      this.particleRadius := particleRadius;
      particles := [];
    }

    predicate ContainsParticle(particle: Particle)
      reads this
    {
      particle in particles
    }

    method AddParticleFirstOpen(particle: Particle)
      modifies this
      ensures particles == old(particles) + [particle]
    {
      particles := particles + [particle];
    }

    method AddParticleNearestOpen(particle: Particle)
      modifies this
      ensures particles == old(particles) + [particle]
    {
      particles := particles + [particle];
    }
  }

  /** The atom being built, reduced to its centre and the particles added to it. */
  class Atom {
    const position: Vector2
    var particles: seq<Particle>

    constructor(x: real, y: real)
      ensures position == Vector2(x, y) && particles == []
    {
      position := Vector2(x, y);
      particles := [];
    }

    method AddParticle(particle: Particle)
      modifies this
      ensures particles == old(particles) + [particle]
    {
      particles := particles + [particle];
    }
  }

  /** What the release handler does with a proton. */
  datatype Placement = NoChange | AddToAtom | ReturnToBucket

  /**
   * The decision of the proton release handler: nothing while the proton is
   * held or is already in its bucket; otherwise into the atom when it is
   * strictly closer than the capture radius to the origin, else back to the
   * bucket.
   */
  function ReleasePlacement(userControlled: bool, inBucket: bool, position: Vector2): Placement {
    if userControlled || inBucket then NoChange
    else if DistanceSquared(position, ZERO) < NUCLEON_CAPTURE_RADIUS * NUCLEON_CAPTURE_RADIUS then AddToAtom
    else ReturnToBucket
  }

  /** Each of the three outcomes, stated as a condition on the inputs. */
  lemma ReleasePlacementCases(userControlled: bool, inBucket: bool, position: Vector2)
    ensures ReleasePlacement(userControlled, inBucket, position) == NoChange <==> userControlled || inBucket
    ensures ReleasePlacement(userControlled, inBucket, position) == AddToAtom <==>
      !userControlled && !inBucket && DistanceSquared(position, ZERO) < 10000.0
    ensures ReleasePlacement(userControlled, inBucket, position) == ReturnToBucket <==>
      !userControlled && !inBucket && DistanceSquared(position, ZERO) >= 10000.0
  {
  }

  /** A proton released exactly on the capture circle goes back to the bucket. */
  lemma ReleaseOnCaptureCircle()
    ensures ReleasePlacement(false, false, Vector2(100.0, 0.0)) == ReturnToBucket
    ensures ReleasePlacement(false, false, Vector2(60.0, -80.0)) == ReturnToBucket
    ensures ReleasePlacement(false, false, Vector2(50.0, 50.0)) == AddToAtom
  {
  }

  /** No particle occurs twice. */
  predicate DistinctParticles(particles: seq<Particle>) {
    forall i, j | 0 <= i < j < |particles| :: particles[i] != particles[j]
  }

  class BuildAnAtomModel {
    const atom: Atom
    const protonBucket: SphereBucket
    const neutronBucket: SphereBucket
    const electronBucket: SphereBucket
    var nucleons: seq<Particle>
    var electrons: seq<Particle>

    /** The atom sits at the origin and the three buckets are different objects. */
    ghost predicate Valid()
      reads this
    {
      atom.position == ZERO &&
      protonBucket != neutronBucket && protonBucket != electronBucket && neutronBucket != electronBucket &&
      |nucleons| == NUM_PROTONS + NUM_NEUTRONS
    }

    /** The protons created by the constructor, which carry the release handler. */
    function Protons(): seq<Particle>
      requires Valid()
      reads this
    {
      nucleons[..NUM_PROTONS]
    }

    /**
     * Fills the buckets: ten protons and thirteen neutrons (kept in `nucleons`)
     * and ten electrons (kept in `electrons`), each added first-open to the
     * bucket of its kind. Every particle is new and none is listed twice.
     */
    constructor()
      ensures Valid()
      ensures fresh(atom) && fresh(protonBucket) && fresh(neutronBucket) && fresh(electronBucket)
      ensures protonBucket.particleRadius == NUCLEON_RADIUS && neutronBucket.particleRadius == NUCLEON_RADIUS
      ensures electronBucket.particleRadius == ELECTRON_RADIUS
      ensures |nucleons| == NUM_PROTONS + NUM_NEUTRONS && |electrons| == NUM_ELECTRONS
      ensures forall i | 0 <= i < |nucleons| :: nucleons[i].particleType == (if i < NUM_PROTONS then Proton else Neutron)
      ensures forall i | 0 <= i < |electrons| :: electrons[i].particleType == Electron
      ensures protonBucket.particles == nucleons[..NUM_PROTONS]
      ensures neutronBucket.particles == nucleons[NUM_PROTONS..]
      ensures electronBucket.particles == electrons
      ensures atom.particles == []
      ensures forall p | p in nucleons :: fresh(p) && !p.userControlled
      ensures forall p | p in electrons :: fresh(p) && !p.userControlled
      ensures DistinctParticles(nucleons) && DistinctParticles(electrons)
      ensures forall p | p in nucleons :: p !in electrons
    {
      atom := new Atom(0.0, 0.0);
      protonBucket := new SphereBucket(NUCLEON_RADIUS);
      neutronBucket := new SphereBucket(NUCLEON_RADIUS);
      electronBucket := new SphereBucket(ELECTRON_RADIUS);
      nucleons := [];
      electrons := [];
      new;
      AddProtons();
      AddNeutrons();
      assert nucleons == nucleons[..NUM_PROTONS] + nucleons[NUM_PROTONS..];
      AddElectrons();
    }

    /** The protons: each is created, added first-open to its bucket, and its release handler linked. */
    method AddProtons()
      requires atom.position == ZERO && nucleons == [] && protonBucket.particles == [] && atom.particles == []
      modifies this, protonBucket, atom
      ensures |nucleons| == NUM_PROTONS && protonBucket.particles == nucleons && atom.particles == []
      ensures electrons == old(electrons)
      ensures forall k | 0 <= k < |nucleons| :: nucleons[k].particleType == Proton
      ensures forall p | p in nucleons :: fresh(p) && !p.userControlled
      ensures DistinctParticles(nucleons)
    {
      for i := 0 to NUM_PROTONS
        invariant |nucleons| == i && protonBucket.particles == nucleons && atom.particles == []
        invariant electrons == old(electrons)
        invariant forall k | 0 <= k < i :: nucleons[k].particleType == Proton
        invariant forall p | p in nucleons :: fresh(p) && !p.userControlled
        invariant DistinctParticles(nucleons)
      {
        var proton := new Particle(Proton);
        nucleons := nucleons + [proton];
        protonBucket.AddParticleFirstOpen(proton);
        // Linking the handler runs it once at once; the proton is in its bucket, so it does nothing.
        ReleaseHandler(proton);
      }
    }

    /** The neutrons: each is created and added first-open to its bucket, after the protons. */
    method AddNeutrons()
      requires |nucleons| == NUM_PROTONS && neutronBucket.particles == []
      modifies this, neutronBucket
      ensures |nucleons| == NUM_PROTONS + NUM_NEUTRONS && nucleons[..NUM_PROTONS] == old(nucleons)
      ensures neutronBucket.particles == nucleons[NUM_PROTONS..] && electrons == old(electrons)
      ensures forall k | NUM_PROTONS <= k < |nucleons| :: nucleons[k].particleType == Neutron
      ensures forall p | p in nucleons[NUM_PROTONS..] :: fresh(p) && !p.userControlled
      ensures DistinctParticles(old(nucleons)) ==> DistinctParticles(nucleons)
    {
      for i := 0 to NUM_NEUTRONS
        invariant |nucleons| == NUM_PROTONS + i && nucleons[..NUM_PROTONS] == old(nucleons)
        invariant neutronBucket.particles == nucleons[NUM_PROTONS..] && electrons == old(electrons)
        invariant forall k | NUM_PROTONS <= k < |nucleons| :: nucleons[k].particleType == Neutron
        invariant forall p | p in nucleons[NUM_PROTONS..] :: fresh(p) && !p.userControlled
        invariant DistinctParticles(old(nucleons)) ==> DistinctParticles(nucleons)
      {
        var neutron := new Particle(Neutron);
        nucleons := nucleons + [neutron];
        neutronBucket.AddParticleFirstOpen(neutron);
      }
    }

    /** The electrons: each is created and added first-open to its bucket. */
    method AddElectrons()
      requires electrons == [] && electronBucket.particles == []
      modifies this, electronBucket
      ensures |electrons| == NUM_ELECTRONS && electronBucket.particles == electrons && nucleons == old(nucleons)
      ensures forall k | 0 <= k < |electrons| :: electrons[k].particleType == Electron
      ensures forall p | p in electrons :: fresh(p) && !p.userControlled
      ensures DistinctParticles(electrons)
    {
      for i := 0 to NUM_ELECTRONS
        invariant |electrons| == i && electronBucket.particles == electrons && nucleons == old(nucleons)
        invariant forall k | 0 <= k < i :: electrons[k].particleType == Electron
        invariant forall p | p in electrons :: fresh(p) && !p.userControlled
        invariant DistinctParticles(electrons)
      {
        var electron := new Particle(Electron);
        electrons := electrons + [electron];
        electronBucket.AddParticleFirstOpen(electron);
      }
    }

    /**
     * The handler linked to a proton's `userControlled` flag: it applies
     * `ReleasePlacement` to the proton's current state.
     */
    method ReleaseHandler(proton: Particle)
      requires atom.position == ZERO
      modifies atom, protonBucket
      ensures
        var placement := ReleasePlacement(proton.userControlled, old(protonBucket.ContainsParticle(proton)), proton.position);
        && atom.particles == old(atom.particles) + (if placement == AddToAtom then [proton] else [])
        && protonBucket.particles == old(protonBucket.particles) + (if placement == ReturnToBucket then [proton] else [])
      ensures atom.particles == old(atom.particles) || protonBucket.particles == old(protonBucket.particles)
      ensures |atom.particles| + |protonBucket.particles| ==
        old(|atom.particles| + |protonBucket.particles|) +
        (if !proton.userControlled && !old(protonBucket.ContainsParticle(proton)) then 1 else 0)
    {
      if !proton.userControlled && !protonBucket.ContainsParticle(proton) {
        if DistanceSquared(proton.position, ZERO) < NUCLEON_CAPTURE_RADIUS * NUCLEON_CAPTURE_RADIUS {
          atom.AddParticle(proton);
        } else {
          protonBucket.AddParticleNearestOpen(proton);
        }
      }
    }

    /**
     * Sets a particle's `userControlled` flag. Only the model's protons carry
     * a handler, and it runs only when the flag actually changes.
     */
    method SetUserControlled(particle: Particle, userControlled: bool)
      requires Valid()
      modifies particle, atom, protonBucket
      ensures particle.userControlled == userControlled && particle.position == old(particle.position)
      ensures particle.destination == old(particle.destination)
      ensures Valid() && nucleons == old(nucleons) && electrons == old(electrons)
      ensures
        var fires := particle in old(Protons()) && old(particle.userControlled) != userControlled;
        var placement := if fires
          then ReleasePlacement(userControlled, old(protonBucket.ContainsParticle(particle)), particle.position)
          else NoChange;
        && atom.particles == old(atom.particles) + (if placement == AddToAtom then [particle] else [])
        && protonBucket.particles == old(protonBucket.particles) + (if placement == ReturnToBucket then [particle] else [])
      ensures atom.particles == old(atom.particles) || protonBucket.particles == old(protonBucket.particles)
    {
      var changed := particle.userControlled != userControlled;
      particle.userControlled := userControlled;
      if changed && particle in Protons() {
        ReleaseHandler(particle);
      }
    }
  }

  /** The handler measures the distance to the atom's centre, because the atom is built at the origin. */
  lemma CaptureIsMeasuredFromAtomCentre(model: BuildAnAtomModel, position: Vector2)
    requires model.Valid()
    ensures DistanceSquared(position, ZERO) == DistanceSquared(position, model.atom.position)
  {
  }

  /**
   * The squared test is the source's distance test: for the distance `d`
   * of the released proton from the origin, it joins the atom exactly when
   * `d < 100` and returns to its bucket exactly when `d >= 100`.
   */
  lemma ReleaseByDistance(position: Vector2, d: real)
    requires d >= 0.0 && Square(d) == DistanceSquared(position, ZERO)
    ensures ReleasePlacement(false, false, position) == AddToAtom <==> d < NUCLEON_CAPTURE_RADIUS
    ensures ReleasePlacement(false, false, position) == ReturnToBucket <==> d >= NUCLEON_CAPTURE_RADIUS
  {
    SquareMonotone(d, NUCLEON_CAPTURE_RADIUS);
  }
}
