/** Constants shared by several parts of the simulation. */
module SharedConstants {
  /** Radius of a proton or neutron, in screen coordinates. */
  const NUCLEON_RADIUS: real := 10.0
  /** Radius of an electron, in screen coordinates. */
  const ELECTRON_RADIUS: real := 8.0
  /** Attempts the player gets at each game problem. */
  const MAX_PROBLEM_ATTEMPTS: nat := 2
  /** Default of the `challengesPerLevel` query parameter. */
  const DEFAULT_CHALLENGES_PER_LEVEL: nat := 5
}
