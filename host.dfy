/**
 * Stand-ins for the game objects the impact code reads: 3-vectors, celestial
 * bodies and science subjects.  Their values are supplied by the game.
 */
module Host {

  datatype Vec3 = Vec3(x: real, y: real, z: real)

  function Sub(a: Vec3, b: Vec3): Vec3
  {
    Vec3(a.x - b.x, a.y - b.y, a.z - b.z)
  }

  function Dot(a: Vec3, b: Vec3): real
  {
    a.x * b.x + a.y * b.y + a.z * b.z
  }

  /** The squared length; comparing it with a squared bound replaces `magnitude < bound`. */
  function NormSq(a: Vec3): (r: real)
    ensures r >= 0.0
  {
    a.x * a.x + a.y * a.y + a.z * a.z
  }

  /** A celestial body: its name, gravitational parameter, radius, atmosphere flag and position. */
  datatype Body = Body(name: string, gravParameter: real, radius: real, atmosphere: bool, position: Vec3)

  /** A body with positive mass and size, as every body of the game has. */
  predicate Physical(b: Body)
  {
    b.gravParameter > 0.0 && b.radius > 0.0
  }

  /** A science subject: identifier, cap, science already banked, multiplier and data scale. */
  datatype ScienceSubject = ScienceSubject(id: string, scienceCap: real, science: real, subjectValue: real, dataScale: real)

  /** A subject whose cap and multiplier can be divided by, as every subject of the game has. */
  predicate Sound(s: ScienceSubject)
  {
    s.scienceCap > 0.0 && s.subjectValue > 0.0
  }
}
