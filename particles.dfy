/**
 * The sub-atomic particles, their views and the atoms that collect them.
 * Their own source files are not part of this model: they are reduced here
 * to the fields and operations the modelled code uses.
 */
module Particles {
  import opened Geometry

  datatype ParticleType = Proton | Neutron | Electron

  /** A proton, neutron or electron that can be dragged around. */
  class Particle {
    const particleType: ParticleType
    var position: Vector2
    /** Where the particle is heading; the view layering sorts on this. */
    var destination: Vector2
    var userControlled: bool

    constructor(particleType: ParticleType)
      ensures this.particleType == particleType && !userControlled
    {
      this.particleType := particleType;
      position := ZERO;
      destination := ZERO;
      userControlled := false;
    }
  }

  /** The scene-graph node that draws one particle. */
  class ParticleView {
    const particle: Particle

    constructor(particle: Particle)
      ensures this.particle == particle
    {
      this.particle := particle;
    }
  }

  /**
   * An atom described by its particle counts. The mass number and charge are
   * the usual derived quantities.
   */
  datatype NumberAtom = NumberAtom(protonCount: nat, neutronCount: nat, electronCount: nat) {
    function MassNumber(): nat {
      protonCount + neutronCount
    }

    function Charge(): int {
      protonCount - electronCount
    }
  }

  /**
   * An atom made of particle objects, with a centre and the radii of its two
   * electron shells. How it assigns destinations to its particles is not
   * modelled.
   */
  class ParticleAtom {
    var position: Vector2
    const innerElectronShellRadius: real
    const outerElectronShellRadius: real
    var particles: seq<Particle>

    /** Both shell radii are lengths, so neither is negative. */
    predicate ShellRadiiNonNegative() {
      innerElectronShellRadius >= 0.0 && outerElectronShellRadius >= 0.0
    }

    constructor(position: Vector2, innerElectronShellRadius: real, outerElectronShellRadius: real)
      requires innerElectronShellRadius >= 0.0 && outerElectronShellRadius >= 0.0
      ensures ShellRadiiNonNegative()
      ensures this.position == position && particles == []
      ensures this.innerElectronShellRadius == innerElectronShellRadius
      ensures this.outerElectronShellRadius == outerElectronShellRadius
    {
      this.position := position;
      this.innerElectronShellRadius := innerElectronShellRadius;
      this.outerElectronShellRadius := outerElectronShellRadius;
      particles := [];
    }

    method AddParticle(particle: Particle)
      modifies this
      ensures particles == old(particles) + [particle]
      ensures position == old(position)
    {
      particles := particles + [particle];
    }
  }
}
