/**
 * Vocabulary shared by the 2D and 3D physics servers: body modes, area
 * override modes, collision object kinds and plain vector arithmetic over
 * reals standing in for the engine's floating-point `real_t`.
 */
module PhysicsTypes {

  /**
   * Body simulation modes in the server's enumeration order; the engine tests
   * `mode >= DYNAMIC`, which holds for the two dynamic modes.
   */
  datatype BodyMode = Static | Kinematic | Dynamic | DynamicLinear
  {
    function Ordinal(): nat
    {
      match this
      case Static => 0
      case Kinematic => 1
      case Dynamic => 2
      case DynamicLinear => 3
    }

    predicate AtLeastDynamic() { Ordinal() >= 2 }
  }

  /** How an area's gravity and damping combine with those below it. */
  datatype OverrideMode = Disabled | Combine | CombineReplace | Replace | ReplaceCombine

  /** Collision object kinds, in the order the broadphase pairing relies on. */
  datatype ObjectKind = AreaKind | BodyKind | SoftBodyKind
  {
    function Ordinal(): nat
    {
      match this
      case AreaKind => 0
      case BodyKind => 1
      case SoftBodyKind => 2
    }
  }

  datatype Vec2 = Vec2(x: real, y: real)
  {
    function Add(o: Vec2): Vec2 { Vec2(x + o.x, y + o.y) }
    function Sub(o: Vec2): Vec2 { Vec2(x - o.x, y - o.y) }
    function Scale(k: real): Vec2 { Vec2(k * x, k * y) }
    function Dot(o: Vec2): real { x * o.x + y * o.y }
    function LengthSquared(): real { x * x + y * y }
  }

  const Zero2: Vec2 := Vec2(0.0, 0.0)

  datatype Vec3 = Vec3(x: real, y: real, z: real)
  {
    function Add(o: Vec3): Vec3 { Vec3(x + o.x, y + o.y, z + o.z) }
    function Sub(o: Vec3): Vec3 { Vec3(x - o.x, y - o.y, z - o.z) }
    function Scale(k: real): Vec3 { Vec3(k * x, k * y, k * z) }
  }

  const Zero3: Vec3 := Vec3(0.0, 0.0, 0.0)
}
