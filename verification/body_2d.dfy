/**
 * The state of a 2D rigid body as the physics server keeps it: its mode, the
 * mass properties and their inverses, velocities, the activity flag and the
 * space lists it sits in. Every operation is a pure function from the old
 * record to the new one and keeps the record's invariant (`Valid`).
 *
 * Shape geometry enters only through the data a shape reports (its AABB
 * area, origin and scale) and a moment-of-inertia function given as a
 * parameter.
 */
module Body2D {
  import opened PhysicsTypes

  /** A 2D affine transform: two basis columns and an origin. */
  datatype Xform2 = Xform2(x: Vec2, y: Vec2, origin: Vec2)
  {
    /** Applies the basis only (no translation). */
    function BasisXform(v: Vec2): Vec2 { x.Scale(v.x).Add(y.Scale(v.y)) }
  }

  const Identity2: Xform2 := Xform2(Vec2(1.0, 0.0), Vec2(0.0, 1.0), Zero2)

  /**
   * The dynamically typed value the server's parameter and state accessors
   * pass around. Reading a value as another type yields that type's default,
   * except that booleans and reals convert into each other.
   */
  datatype Variant = Nil | BoolV(b: bool) | RealV(r: real) | Vec2V(v: Vec2) | XformV(t: Xform2)
  {
    function AsReal(): real
    {
      match this
      case RealV(r) => r
      case BoolV(b) => if b then 1.0 else 0.0
      case _ => 0.0
    }

    predicate AsBool()
    {
      match this
      case BoolV(b) => b
      case RealV(r) => r != 0.0
      case _ => false
    }

    function AsVec2(): Vec2
    {
      match this
      case Vec2V(v) => v
      case _ => Zero2
    }

    function AsXform(): Xform2
    {
      match this
      case XformV(t) => t
      case _ => Identity2
    }
  }

  /** Mass, inertia, their inverses and the centre of mass. */
  datatype MassProps = MassProps(
    mass: real,
    inertia: real,
    invMass: real,
    invInertia: real,
    calculateInertia: bool,
    calculateCenterOfMass: bool,
    /** Centre of mass in the body's own frame, and rotated into the world. */
    comLocal: Vec2,
    com: Vec2)

  /** Placement and velocities. */
  datatype Motion = Motion(
    transform: Xform2,
    /** The transform a kinematic body moves to on its next step. */
    newTransform: Xform2,
    linVel: Vec2,
    angVel: real,
    constLinVel: Vec2,
    constAngVel: real)

  /** Material and damping settings, read back unchanged by get_param. */
  datatype Settings = Settings(bounce: real, friction: real, gravityScale: real, linearDamp: real, angularDamp: real)

  /** Whether the body belongs to a space, and which of the space's lists hold it. */
  datatype Lists = Lists(inSpace: bool, inActiveList: bool, queued: bool)

  datatype Body = Body(
    mode: BodyMode,
    mp: MassProps,
    motion: Motion,
    settings: Settings,
    active: bool,
    canSleep: bool,
    stillTime: real,
    lists: Lists,
    firstTimeKinematic: bool,
    /** The size of the reported-contacts buffer. */
    maxContactsReported: nat,
    isStatic: bool)

  /**
   * What every reachable body satisfies: a positive mass, a positive custom
   * inertia, no inverse mass or inertia for bodies that do not respond to
   * forces, static bodies never active, and the space lists in step with the
   * flags.
   */
  /**
   * The reciprocal as the server forms inverse mass and inertia; a zero
   * argument, which the server guards against, gives zero.
   */
  function Recip(x: real): real
  {
    if x == 0.0 then 0.0 else 1.0 / x
  }

  predicate MassValid(mode: BodyMode, m: MassProps)
  {
    && m.mass > 0.0
    && (!m.calculateInertia ==> m.inertia > 0.0)
    && ((mode == Static || mode == Kinematic) ==> m.invMass == 0.0 && m.invInertia == 0.0)
    && (mode == DynamicLinear ==> m.invInertia == 0.0)
    && (mode == Dynamic && !m.calculateInertia ==> m.invInertia == Recip(m.inertia))
  }

  predicate ListsValid(active: bool, l: Lists)
  {
    && (l.inActiveList <==> l.inSpace && active)
    && (l.queued ==> l.inSpace)
  }

  /** The invariant less the rule that static bodies are inactive. */
  predicate Consistent(b: Body)
  {
    MassValid(b.mode, b.mp) && ListsValid(b.active, b.lists)
  }

  predicate Valid(b: Body)
  {
    Consistent(b) && (b.mode == Static ==> !b.active)
  }

  /**
   * A body that responds to forces has the inverse of its current mass, or
   * is waiting in its space's mass-update queue to get it.
   */
  predicate MassSynced(b: Body)
  {
    b.mode.AtLeastDynamic() && b.lists.inSpace ==> b.mp.invMass == Recip(b.mp.mass) || b.lists.queued
  }

  // ---------------------------------------------------------------- lists

  /**
   * set_active: nothing happens when the flag already has the value; a
   * static body refuses to become active; the space's active list follows the
   * flag when the body is in a space.
   */
  function SetActive(b: Body, on: bool): (r: Body)
    requires Consistent(b)
    ensures Consistent(r) && (Valid(b) || !on ==> Valid(r))
    ensures b.active == on ==> r == b
    ensures r.active == (on && (b.active || b.mode != Static))
    ensures r.lists.inSpace == b.lists.inSpace && r.lists.queued == b.lists.queued
    ensures r == b.(active := r.active, lists := r.lists)
  {
    if b.active == on then b
    else if on then
      if b.mode == Static then b
      else b.(active := true, lists := b.lists.(inActiveList := b.lists.inSpace))
    else b.(active := false, lists := b.lists.(inActiveList := false))
  }

  /**
   * wakeup: a body in a space that is neither static nor kinematic becomes
   * active. The routine lives in the body's header, which is not part of this
   * model; it is written here as the engine defines it.
   */
  function Wakeup(b: Body): (r: Body)
    requires Valid(b)
    ensures Valid(r)
    ensures r.active == (b.active || (b.lists.inSpace && b.mode.AtLeastDynamic()))
    ensures r.lists.inSpace == b.lists.inSpace && r.lists.queued == b.lists.queued
    ensures r == b.(active := r.active, lists := r.lists)
  {
    if !b.lists.inSpace || b.mode == Static || b.mode == Kinematic then b
    else SetActive(b, true)
  }

  /**
   * _mass_properties_changed as written: the body is queued for a mass update
   * only when it is in a space, not queued yet, and computes its inertia or
   * centre of mass itself.
   */
  function MassPropertiesChangedAsWritten(l: Lists, m: MassProps): (r: Lists)
    ensures r == l.(queued := r.queued)
    ensures r.queued <==> l.queued || (l.inSpace && (m.calculateInertia || m.calculateCenterOfMass))
  {
    if l.inSpace && !l.queued && (m.calculateInertia || m.calculateCenterOfMass) then l.(queued := true)
    else l
  }

  /**
   * _mass_properties_changed as intended: every change to the mass
   * properties of a body in a space queues it, once.
   */
  function MassPropertiesChanged(l: Lists): (r: Lists)
    ensures r == l.(queued := r.queued)
    ensures r.queued <==> l.queued || l.inSpace
  {
    if l.inSpace && !l.queued then l.(queued := true) else l
  }

  /**
   * set_space: leaving a space takes the body off the space's lists; joining
   * one asks for a mass update by the rule as written and, for an active
   * body, puts it on the active list. A body that computes neither its
   * inertia nor its centre of mass is therefore not queued.
   */
  function SetSpace(b: Body, inSpace: bool): (r: Body)
    requires Valid(b)
    ensures Valid(r)
    ensures r.lists.inSpace == inSpace && r.lists.inActiveList == (inSpace && b.active)
    ensures r.lists.queued <==> inSpace && (b.mp.calculateInertia || b.mp.calculateCenterOfMass)
    ensures (b.mp.calculateInertia || b.mp.calculateCenterOfMass || b.mp.invMass == Recip(b.mp.mass)) ==> MassSynced(r)
    ensures r == b.(lists := r.lists)
  {
    var left := Lists(false, false, false);
    var joined := left.(inSpace := inSpace);
    if inSpace then b.(lists := MassPropertiesChangedAsWritten(joined, b.mp).(inActiveList := b.active))
    else b.(lists := joined)
  }

  /**
   * set_space with the intended queueing rule: joining a space always queues
   * the mass update, so the inverse mass is brought in step whatever the
   * calculate flags say.
   */
  function SetSpaceIntended(b: Body, inSpace: bool): (r: Body)
    requires Valid(b)
    ensures Valid(r) && MassSynced(r)
    ensures r.lists == Lists(inSpace, inSpace && b.active, inSpace)
    ensures r == b.(lists := r.lists)
  {
    var left := Lists(false, false, false);
    var joined := left.(inSpace := inSpace);
    if inSpace then b.(lists := MassPropertiesChanged(joined).(inActiveList := b.active))
    else b.(lists := joined)
  }

  // ------------------------------------------------------- mass properties

  /** What the body needs to know about one of its shapes. */
  datatype Shape = Shape(id: nat, disabled: bool, area: real, origin: Vec2, scale: Vec2)

  /** Sum of the AABB areas of the enabled shapes. */
  function EnabledArea(shapes: seq<Shape>): (total: real)
    decreases |shapes|
  {
    if |shapes| == 0 then 0.0
    else
      var s := shapes[|shapes| - 1];
      EnabledArea(shapes[..|shapes| - 1]) + (if s.disabled then 0.0 else s.area)
  }

  predicate AreasNonNegative(shapes: seq<Shape>)
  {
    forall i :: 0 <= i < |shapes| ==> shapes[i].area >= 0.0
  }

  /**
   * Each enabled shape's origin weighted by its share of the mass, where
   * `density` is the mass per unit of enabled area (mass / total area).
   */
  function WeightedOrigins(shapes: seq<Shape>, density: real): (sum: Vec2)
    decreases |shapes|
  {
    if |shapes| == 0 then Zero2
    else
      var s := shapes[|shapes| - 1];
      var rest := WeightedOrigins(shapes[..|shapes| - 1], density);
      if s.disabled then rest else rest.Add(s.origin.Scale(s.area * density))
  }

  /** The area-weighted centroid of the enabled shapes; the origin when they have no area. */
  function Centroid(shapes: seq<Shape>, mass: real): Vec2
    requires mass != 0.0
  {
    var total := EnabledArea(shapes);
    if total == 0.0 then Zero2 else WeightedOrigins(shapes, mass / total).Scale(1.0 / mass)
  }

  /**
   * Each enabled shape of non-zero area contributes its own moment for its
   * share of the mass plus that share times its squared distance from `com`.
   */
  function InertiaSum(shapes: seq<Shape>, density: real, com: Vec2,
                      moment: (nat, real, Vec2) -> real): real
    decreases |shapes|
  {
    if |shapes| == 0 then 0.0
    else
      var s := shapes[|shapes| - 1];
      var rest := InertiaSum(shapes[..|shapes| - 1], density, com, moment);
      if s.disabled || s.area == 0.0 then rest
      else
        var m := s.area * density;
        rest + moment(s.id, m, s.scale) + m * s.origin.Sub(com).LengthSquared()
  }

  /** The total of non-negative areas is non-negative. */
  lemma {:induction false} EnabledAreaNonNegative(shapes: seq<Shape>)
    requires AreasNonNegative(shapes)
    ensures EnabledArea(shapes) >= 0.0
    decreases |shapes|
  {
    if |shapes| > 0 {
      EnabledAreaNonNegative(shapes[..|shapes| - 1]);
    }
  }

  /**
   * When every enabled shape sits at the same origin the weighted sum is that
   * origin scaled by the mass of the enabled area.
   */
  lemma {:induction false} WeightedOriginsCommon(shapes: seq<Shape>, density: real, o: Vec2)
    requires forall i :: 0 <= i < |shapes| && !shapes[i].disabled ==> shapes[i].origin == o
    ensures WeightedOrigins(shapes, density) == o.Scale(EnabledArea(shapes)).Scale(density)
    decreases |shapes|
  {
    if |shapes| == 0 {
      assert o.Scale(0.0).Scale(density) == Zero2;
    } else {
      var p := shapes[..|shapes| - 1];
      assert forall i :: 0 <= i < |p| ==> p[i] == shapes[i];
      WeightedOriginsCommon(p, density, o);
      WeightedOriginsLast(shapes, density, o);
    }
  }

  /** The induction step of WeightedOriginsCommon: the last shape adds its share, or nothing when disabled. */
  lemma {:induction false} WeightedOriginsLast(shapes: seq<Shape>, density: real, o: Vec2)
    requires |shapes| > 0
    requires !shapes[|shapes| - 1].disabled ==> shapes[|shapes| - 1].origin == o
    requires var p := shapes[..|shapes| - 1];
      WeightedOrigins(p, density) == o.Scale(EnabledArea(p)).Scale(density)
    ensures WeightedOrigins(shapes, density) == o.Scale(EnabledArea(shapes)).Scale(density)
  {
    var p := shapes[..|shapes| - 1];
    var s := shapes[|shapes| - 1];
    var w := WeightedOrigins(p, density);
    if s.disabled {
      assert WeightedOrigins(shapes, density) == w by {
        WeightedOriginsStep(shapes, density);
      }
      assert EnabledArea(shapes) == EnabledArea(p) by {
        EnabledAreaLast(shapes);
      }
    } else {
      WeightedOriginsEnabledLast(shapes, density, o, w);
    }
  }

  /** The induction step when the last shape is enabled: its share joins the sum. */
  lemma {:induction false} WeightedOriginsEnabledLast(shapes: seq<Shape>, density: real, o: Vec2, w: Vec2)
    requires |shapes| > 0
    requires !shapes[|shapes| - 1].disabled && shapes[|shapes| - 1].origin == o
    requires w == WeightedOrigins(shapes[..|shapes| - 1], density)
    requires w == o.Scale(EnabledArea(shapes[..|shapes| - 1])).Scale(density)
    ensures WeightedOrigins(shapes, density) == o.Scale(EnabledArea(shapes)).Scale(density)
  {
    var p := shapes[..|shapes| - 1];
    var s := shapes[|shapes| - 1];
    var a := EnabledArea(p);
    var b := s.area;
    assert WeightedOrigins(shapes, density) == w.Add(o.Scale(b * density)) by {
      WeightedOriginsStep(shapes, density);
    }
    assert EnabledArea(shapes) == a + b by {
      EnabledAreaLast(shapes);
    }
    AddShare(WeightedOrigins(shapes, density), w, o, a, b, EnabledArea(shapes), density);
  }

  /** One step of the recursion behind EnabledArea, at the last shape. */
  lemma {:induction false} EnabledAreaLast(shapes: seq<Shape>)
    requires |shapes| > 0
    ensures var s := shapes[|shapes| - 1];
      EnabledArea(shapes) == EnabledArea(shapes[..|shapes| - 1]) + (if s.disabled then 0.0 else s.area)
  {
  }

  /** One step of the recursion behind WeightedOrigins, at the last shape. */
  lemma {:induction false} WeightedOriginsStep(shapes: seq<Shape>, density: real)
    requires |shapes| > 0
    ensures var p, s := shapes[..|shapes| - 1], shapes[|shapes| - 1];
      WeightedOrigins(shapes, density)
      == if s.disabled then WeightedOrigins(p, density)
         else WeightedOrigins(p, density).Add(s.origin.Scale(s.area * density))
  {
  }

  /** A weighted sum of `o` grows by one more weighted share. */
  lemma {:induction false} AddShare(sum: Vec2, w: Vec2, o: Vec2, a: real, b: real, c: real, d: real)
    requires w == o.Scale(a).Scale(d)
    requires sum == w.Add(o.Scale(b * d))
    requires c == a + b
    ensures sum == o.Scale(c).Scale(d)
  {
    assert d * (a * o.x) + (b * d) * o.x == d * (c * o.x);
    assert d * (a * o.y) + (b * d) * o.y == d * (c * o.y);
  }

  /** Spreading a mass over an area and dividing it out again is the identity. */
  lemma {:induction false} ScaleByMassShare(o: Vec2, mass: real, total: real)
    requires mass != 0.0 && total != 0.0
    ensures o.Scale(total).Scale(mass / total).Scale(1.0 / mass) == o
  {
    var inv := 1.0 / mass;
    assert (mass / total) * total == mass;
    assert mass * inv == 1.0;
    assert inv * ((mass / total) * (total * o.x)) == (mass * inv) * o.x;
    assert inv * ((mass / total) * (total * o.y)) == (mass * inv) * o.y;
  }

  /** Shapes that all share one origin have their centroid there. */
  lemma {:induction false} CentroidOfCommonOrigin(shapes: seq<Shape>, mass: real, o: Vec2)
    requires mass != 0.0 && EnabledArea(shapes) != 0.0
    requires forall i :: 0 <= i < |shapes| && !shapes[i].disabled ==> shapes[i].origin == o
    ensures Centroid(shapes, mass) == o
  {
    WeightedOriginsCommon(shapes, mass / EnabledArea(shapes), o);
    ScaleByMassShare(o, mass, EnabledArea(shapes));
  }

  /** With non-negative moments, areas and mass, the summed inertia is non-negative. */
  lemma {:induction false} InertiaSumNonNegative(shapes: seq<Shape>, density: real, com: Vec2,
                                                 moment: (nat, real, Vec2) -> real)
    requires density >= 0.0 && AreasNonNegative(shapes)
    requires forall id, m, sc :: m >= 0.0 ==> moment(id, m, sc) >= 0.0
    ensures InertiaSum(shapes, density, com, moment) >= 0.0
    decreases |shapes|
  {
    if |shapes| > 0 {
      var p := shapes[..|shapes| - 1];
      InertiaSumNonNegative(p, density, com, moment);
      var s := shapes[|shapes| - 1];
      assert s.area >= 0.0;
      var m := s.area * density;
      assert m >= 0.0;
      var d := s.origin.Sub(com);
      assert d.LengthSquared() >= 0.0 by {
        assert d.x * d.x >= 0.0 && d.y * d.y >= 0.0;
      }
      assert m * d.LengthSquared() >= 0.0;
    }
  }

  /**
   * The inverses the body's mode calls for, given its (possibly recomputed)
   * inertia and local centre of mass, and the centre of mass rotated into
   * the world by `t`.
   */
  function WithInverses(mode: BodyMode, m: MassProps, t: Xform2, inertia: real, comLocal: Vec2): (r: MassProps)
    requires m.mass > 0.0
    ensures r.mass == m.mass && r.inertia == inertia && r.comLocal == comLocal
    ensures r.calculateInertia == m.calculateInertia && r.calculateCenterOfMass == m.calculateCenterOfMass
    ensures r.com == t.BasisXform(comLocal)
    ensures (mode == Static || mode == Kinematic) ==> r.invMass == 0.0 && r.invInertia == 0.0
    ensures mode == DynamicLinear ==> r.invInertia == 0.0 && r.invMass == Recip(r.mass)
    ensures mode == Dynamic ==>
              r.invMass == Recip(r.mass) && r.invInertia == (if inertia > 0.0 then Recip(inertia) else 0.0)
  {
    var m1 := m.(inertia := inertia, comLocal := comLocal, com := t.BasisXform(comLocal));
    match mode
    case Dynamic =>
      m1.(invInertia := if inertia > 0.0 then Recip(inertia) else 0.0, invMass := Recip(m.mass))
    case Static => m1.(invInertia := 0.0, invMass := 0.0)
    case Kinematic => m1.(invInertia := 0.0, invMass := 0.0)
    case DynamicLinear => m1.(invInertia := 0.0, invMass := Recip(m.mass))
  }

  /**
   * update_mass_properties as written: a dynamic body recomputes the centroid
   * and inertia it is asked to, but the centroid only feeds the inertia sum;
   * the closing refresh derives the centre of mass from the unchanged local
   * one.
   */
  function UpdateMassPropertiesAsWritten(b: Body, shapes: seq<Shape>, moment: (nat, real, Vec2) -> real): (r: Body)
    requires b.mp.mass > 0.0
    ensures Valid(b) ==> Valid(r)
    ensures r.mp.comLocal == b.mp.comLocal && r.mp.com == b.motion.transform.BasisXform(b.mp.comLocal)
    ensures b.mode.AtLeastDynamic() ==> r.mp.invMass == Recip(r.mp.mass)
    ensures !(b.mode == Dynamic && b.mp.calculateInertia) ==> r.mp.inertia == b.mp.inertia
    ensures r == b.(mp := r.mp) && r.mp.mass == b.mp.mass
  {
    var m := b.mp;
    if b.mode == Dynamic then
      var total := EnabledArea(shapes);
      var centroid := if m.calculateCenterOfMass then Centroid(shapes, m.mass) else m.com;
      var inertia := if !m.calculateInertia then m.inertia
                     else if total == 0.0 then 0.0
                     else InertiaSum(shapes, m.mass / total, centroid, moment);
      b.(mp := WithInverses(b.mode, m, b.motion.transform, inertia, m.comLocal))
    else b.(mp := WithInverses(b.mode, m, b.motion.transform, m.inertia, m.comLocal))
  }

  /**
   * update_mass_properties as intended: a recomputed centroid becomes the
   * local centre of mass. When the enabled shapes have no area at all the
   * inertia sum is empty, which the zero branch states directly.
   */
  function UpdateMassProperties(b: Body, shapes: seq<Shape>, moment: (nat, real, Vec2) -> real): (r: Body)
    requires Valid(b) && AreasNonNegative(shapes)
    requires forall id, m, sc :: m >= 0.0 ==> moment(id, m, sc) >= 0.0
    ensures Valid(r)
    ensures r.mp.com == r.motion.transform.BasisXform(r.mp.comLocal)
    ensures b.mode.AtLeastDynamic() ==> r.mp.invMass == Recip(r.mp.mass)
    ensures b.mode == Dynamic && b.mp.calculateCenterOfMass ==> r.mp.comLocal == Centroid(shapes, b.mp.mass)
    ensures !(b.mode == Dynamic && b.mp.calculateCenterOfMass) ==> r.mp.comLocal == b.mp.comLocal
    ensures b.mode == Dynamic && b.mp.calculateInertia ==> r.mp.inertia >= 0.0
    ensures !(b.mode == Dynamic && b.mp.calculateInertia) ==> r.mp.inertia == b.mp.inertia
    ensures r == b.(mp := r.mp) && r.mp.mass == b.mp.mass
  {
    var m := b.mp;
    if b.mode == Dynamic then
      var total := EnabledArea(shapes);
      var centroid := if m.calculateCenterOfMass then Centroid(shapes, m.mass) else m.com;
      EnabledAreaNonNegative(shapes);
      var inertia := if !m.calculateInertia then m.inertia
                     else if total == 0.0 then 0.0
                     else (InertiaSumNonNegative(shapes, m.mass / total, centroid, moment);
                           InertiaSum(shapes, m.mass / total, centroid, moment));
      b.(mp := WithInverses(b.mode, m, b.motion.transform, inertia,
                            if m.calculateCenterOfMass then centroid else m.comLocal))
    else b.(mp := WithInverses(b.mode, m, b.motion.transform, m.inertia, m.comLocal))
  }

  /**
   * The update as written differs from the intended one only in the centre of
   * mass: the inertia is summed about the same centroid, and the inverses
   * agree, but the old local centre is kept.
   */
  lemma {:induction false} AsWrittenKeepsOnlyTheCentre(b: Body, shapes: seq<Shape>, moment: (nat, real, Vec2) -> real)
    requires Valid(b) && AreasNonNegative(shapes)
    requires forall id, m, sc :: m >= 0.0 ==> moment(id, m, sc) >= 0.0
    ensures var u := UpdateMassProperties(b, shapes, moment);
            UpdateMassPropertiesAsWritten(b, shapes, moment)
            == u.(mp := u.mp.(comLocal := b.mp.comLocal, com := b.motion.transform.BasisXform(b.mp.comLocal)))
  {
  }

  /**
   * The space's mass-update flush for one queued body: the update as the
   * source runs it, then off the queue.
   */
  function FlushMassUpdate(b: Body, shapes: seq<Shape>, moment: (nat, real, Vec2) -> real): (r: Body)
    requires Valid(b)
    ensures Valid(r) && MassSynced(r) && !r.lists.queued
    ensures r.mp.mass == b.mp.mass && r.mp.comLocal == b.mp.comLocal
    ensures r.lists == b.lists.(queued := false) && r == b.(mp := r.mp, lists := r.lists)
  {
    var u := UpdateMassPropertiesAsWritten(b, shapes, moment);
    u.(lists := u.lists.(queued := false))
  }

  /** reset_mass_properties: go back to computing both inertia and centre of mass. */
  function ResetMassProperties(b: Body): (r: Body)
    requires Valid(b)
    ensures Valid(r) && (MassSynced(b) ==> MassSynced(r))
    ensures r.mp.calculateInertia && r.mp.calculateCenterOfMass
    ensures r.lists.queued <==> b.lists.queued || b.lists.inSpace
  {
    var m := b.mp.(calculateInertia := true, calculateCenterOfMass := true);
    b.(mp := m, lists := MassPropertiesChangedAsWritten(b.lists, m))
  }

  // ------------------------------------------------------------- parameters

  datatype BodyParam = Bounce | Friction | Mass | Inertia | CenterOfMass | GravityScale | LinearDamp | AngularDamp

  /** The mass branch of set_param, with the intended queueing rule. */
  function SetMass(b: Body, x: real): (r: Body)
    requires Valid(b)
    ensures Valid(r) && (MassSynced(b) ==> MassSynced(r))
    ensures x <= 0.0 ==> r == b
    ensures x > 0.0 ==> r.mp == b.mp.(mass := x)
    ensures r == b.(mp := r.mp, lists := r.lists)
  {
    if x <= 0.0 then b
    else
      var m := b.mp.(mass := x);
      if b.mode.AtLeastDynamic() then b.(mp := m, lists := MassPropertiesChanged(b.lists)) else b.(mp := m)
  }

  /**
   * The mass branch of set_param with the queueing rule as written: a body
   * whose inertia and centre of mass are both given by the caller is never
   * queued, so its inverse mass keeps the old value.
   */
  function SetMassAsWritten(b: Body, x: real): (r: Body)
    requires Valid(b)
    ensures Valid(r)
    ensures x <= 0.0 ==> r == b
    ensures x > 0.0 ==> r.mp == b.mp.(mass := x)
    ensures r == b.(mp := r.mp, lists := r.lists)
  {
    if x <= 0.0 then b
    else
      var m := b.mp.(mass := x);
      if b.mode.AtLeastDynamic() then b.(mp := m, lists := MassPropertiesChangedAsWritten(b.lists, m))
      else b.(mp := m)
  }

  /**
   * The inertia branch of set_param: a non-positive value switches back to
   * computing the inertia, a positive one is taken as given.
   */
  function SetInertia(b: Body, x: real): (r: Body)
    requires Valid(b)
    ensures Valid(r) && (MassSynced(b) ==> MassSynced(r))
    ensures x <= 0.0 ==> r.mp == b.mp.(calculateInertia := true)
    ensures x > 0.0 ==> !r.mp.calculateInertia && r.mp.inertia == x
    ensures x > 0.0 && b.mode == Dynamic ==> r.mp.invInertia == Recip(x)
    ensures r == b.(mp := r.mp, lists := r.lists)
  {
    if x <= 0.0 then
      var m := b.mp.(calculateInertia := true);
      if b.mode == Dynamic then b.(mp := m, lists := MassPropertiesChangedAsWritten(b.lists, m)) else b.(mp := m)
    else
      var m := b.mp.(calculateInertia := false, inertia := x);
      if b.mode == Dynamic then b.(mp := m.(invInertia := Recip(x))) else b.(mp := m)
  }

  /**
   * set_param. A mass that is not positive is refused without any change; a
   * positive one is queued for the update by the rule as written; a
   * non-positive inertia switches back to computing it; a centre of mass
   * given by the caller stops it being computed.
   */
  function SetParam(b: Body, p: BodyParam, v: Variant): (r: Body)
    requires Valid(b)
    ensures Valid(r) && (MassSynced(b) && p != Mass ==> MassSynced(r))
    ensures p == Mass && v.AsReal() <= 0.0 ==> r == b
    ensures p == Mass && v.AsReal() > 0.0 && b.mode.AtLeastDynamic() ==>
              (r.lists.queued <==> b.lists.queued || (b.lists.inSpace && (b.mp.calculateInertia || b.mp.calculateCenterOfMass)))
    ensures r == b.(mp := r.mp, settings := r.settings, lists := r.lists)
  {
    match p
    case Bounce => b.(settings := b.settings.(bounce := v.AsReal()))
    case Friction => b.(settings := b.settings.(friction := v.AsReal()))
    case Mass => SetMassAsWritten(b, v.AsReal())
    case Inertia => SetInertia(b, v.AsReal())
    case CenterOfMass =>
      var c := v.AsVec2();
      b.(mp := b.mp.(calculateCenterOfMass := false, comLocal := c, com := b.motion.transform.BasisXform(c)))
    case GravityScale => b.(settings := b.settings.(gravityScale := v.AsReal()))
    case LinearDamp => b.(settings := b.settings.(linearDamp := v.AsReal()))
    case AngularDamp => b.(settings := b.settings.(angularDamp := v.AsReal()))
  }

  /** get_param: the centre of mass is reported in world orientation. */
  function GetParam(b: Body, p: BodyParam): (v: Variant)
  {
    match p
    case Bounce => RealV(b.settings.bounce)
    case Friction => RealV(b.settings.friction)
    case Mass => RealV(b.mp.mass)
    case Inertia => RealV(b.mp.inertia)
    case CenterOfMass => Vec2V(b.mp.com)
    case GravityScale => RealV(b.settings.gravityScale)
    case LinearDamp => RealV(b.settings.linearDamp)
    case AngularDamp => RealV(b.settings.angularDamp)
  }

  /**
   * Reading a parameter back returns what was set: scalars as given (mass and
   * inertia only when positive), the centre of mass rotated into the world;
   * a non-positive inertia leaves the old value readable until it is
   * recomputed.
   */
  lemma {:induction false} SetGetParamRoundTrip(b: Body, p: BodyParam, x: real, c: Vec2)
    requires Valid(b)
    ensures p != CenterOfMass && p != Mass && p != Inertia ==> GetParam(SetParam(b, p, RealV(x)), p) == RealV(x)
    ensures p == Mass ==> GetParam(SetParam(b, p, RealV(x)), p) == RealV(if x > 0.0 then x else b.mp.mass)
    ensures p == Inertia ==> GetParam(SetParam(b, p, RealV(x)), p) == RealV(if x > 0.0 then x else b.mp.inertia)
    ensures p == CenterOfMass ==> GetParam(SetParam(b, p, Vec2V(c)), p) == Vec2V(b.motion.transform.BasisXform(c))
  {
  }

  /** Setting one parameter leaves every other parameter's reading as it was. */
  lemma {:induction false} SetParamKeepsOthers(b: Body, p: BodyParam, q: BodyParam, v: Variant)
    requires Valid(b) && p != q
    ensures GetParam(SetParam(b, p, v), q) == GetParam(b, q)
  {
    var r := SetParam(b, p, v);
    match p
    case Mass => assert r.settings == b.settings && r.mp.inertia == b.mp.inertia && r.mp.com == b.mp.com;
    case Inertia => assert r.settings == b.settings && r.mp.mass == b.mp.mass && r.mp.com == b.mp.com;
    case CenterOfMass => assert r.settings == b.settings && r.mp.mass == b.mp.mass && r.mp.inertia == b.mp.inertia;
    case _ => assert r.mp == b.mp;
  }

  // ------------------------------------------------------------------ modes

  /**
   * set_mode. Static and kinematic bodies lose their inverse mass and inertia
   * and their velocity, and are active only when kinematic with a contact
   * buffer; a kinematic body entered from another mode takes its first
   * transform directly. Dynamic modes take the inverse of their mass and
   * become active.
   */
  function SetMode(b: Body, mode: BodyMode): (r: Body)
    requires Valid(b)
    ensures Valid(r) && (MassSynced(b) ==> MassSynced(r))
    ensures r.mode == mode
    ensures (mode == Static || mode == Kinematic) ==>
              && r.mp.invMass == 0.0 && r.mp.invInertia == 0.0
              && r.motion.linVel == Zero2 && r.motion.angVel == 0.0
              && r.active == (mode == Kinematic && b.maxContactsReported > 0)
              && r.isStatic == (mode == Static)
    ensures mode == Kinematic && b.mode != Kinematic ==> r.firstTimeKinematic
    ensures mode.AtLeastDynamic() ==> r.mp.invMass == Recip(r.mp.mass) && r.active && !r.isStatic
    ensures mode == Dynamic && !b.mp.calculateInertia ==> r.mp.invInertia == Recip(r.mp.inertia)
    ensures mode == DynamicLinear ==> r.mp.invInertia == 0.0 && r.motion.angVel == 0.0
    ensures r.mp.mass == b.mp.mass && r.mp.inertia == b.mp.inertia
    ensures mode == Dynamic ==>
              (r.lists.queued <==> b.lists.queued || (b.lists.inSpace && (b.mp.calculateInertia || b.mp.calculateCenterOfMass)))
    ensures mode != Dynamic ==> r.lists.queued == b.lists.queued
  {
    match mode
    case Static => ToStaticOrKinematic(b, Static)
    case Kinematic => ToStaticOrKinematic(b, Kinematic)
    case Dynamic => ToDynamic(b)
    case DynamicLinear => ToDynamicLinear(b)
  }

  /** The static and kinematic branch of set_mode. */
  function ToStaticOrKinematic(b: Body, mode: BodyMode): (r: Body)
    requires Valid(b) && (mode == Static || mode == Kinematic)
    ensures Valid(r) && (MassSynced(b) ==> MassSynced(r))
    ensures r.mode == mode
    ensures r.mp == b.mp.(invMass := 0.0, invInertia := 0.0)
    ensures r.motion == b.motion.(linVel := Zero2, angVel := 0.0)
    ensures r.active == (mode == Kinematic && b.maxContactsReported > 0)
    ensures r.isStatic == (mode == Static)
    ensures r.firstTimeKinematic == (b.firstTimeKinematic || (mode == Kinematic && b.mode != Kinematic))
    ensures r.lists.queued == b.lists.queued
  {
    var b1 := SetActive(b.(mode := mode, mp := b.mp.(invMass := 0.0, invInertia := 0.0), isStatic := mode == Static),
                        mode == Kinematic && b.maxContactsReported > 0);
    b1.(motion := b1.motion.(linVel := Zero2, angVel := 0.0),
        firstTimeKinematic := b1.firstTimeKinematic || (mode == Kinematic && b.mode != Kinematic))
  }

  /**
   * The dynamic branch of set_mode. The inverse mass is set here directly;
   * the mass update is asked for by the rule as written.
   */
  function ToDynamic(b: Body): (r: Body)
    requires Valid(b)
    ensures Valid(r) && MassSynced(r)
    ensures r.lists.queued <==> b.lists.queued || (b.lists.inSpace && (b.mp.calculateInertia || b.mp.calculateCenterOfMass))
    ensures r.mode == Dynamic && r.active && !r.isStatic
    ensures r.mp == b.mp.(invMass := Recip(b.mp.mass),
                          invInertia := if !b.mp.calculateInertia then Recip(b.mp.inertia) else b.mp.invInertia)
    ensures r.motion == b.motion
  {
    var m := b.mp;
    var m1 := m.(invMass := if m.mass > 0.0 then Recip(m.mass) else 0.0,
                 invInertia := if !m.calculateInertia then Recip(m.inertia) else m.invInertia);
    SetActive(b.(mode := Dynamic, mp := m1, lists := MassPropertiesChangedAsWritten(b.lists, m1), isStatic := false), true)
  }

  /** The linear-only dynamic branch of set_mode: the body cannot turn. */
  function ToDynamicLinear(b: Body): (r: Body)
    requires Valid(b)
    ensures Valid(r) && MassSynced(r)
    ensures r.mode == DynamicLinear && r.active && !r.isStatic
    ensures r.mp == b.mp.(invMass := Recip(b.mp.mass), invInertia := 0.0)
    ensures r.motion == b.motion.(angVel := 0.0)
    ensures r.lists.queued == b.lists.queued
  {
    var m := b.mp;
    var m1 := m.(invMass := if m.mass > 0.0 then Recip(m.mass) else 0.0, invInertia := 0.0);
    SetActive(b.(mode := DynamicLinear, mp := m1, motion := b.motion.(angVel := 0.0), isStatic := false), true)
  }

  // ------------------------------------------------------------------ state

  datatype BodyState = TransformState | LinearVelocity | AngularVelocity | Sleeping | CanSleep

  /**
   * The transform branch of set_state. A kinematic body records the
   * transform to move to and wakes, and takes it at once only the first time;
   * a static body is moved at once; a dynamic body is moved to the
   * orthonormalized transform and woken, unless that is where it already is.
   */
  function SetTransform(b: Body, t: Xform2, orthonormalize: Xform2 -> Xform2): (r: Body)
    requires Valid(b)
    ensures Valid(r)
    ensures r.mode == b.mode && r.mp.invMass == b.mp.invMass && r.mp.mass == b.mp.mass && r.lists.queued == b.lists.queued
    ensures b.mode == Static ==> r.motion.transform == t
    ensures b.mode == Kinematic ==>
              r.motion.newTransform == t && r.motion.transform == (if b.firstTimeKinematic then t else b.motion.transform)
    ensures b.mode.AtLeastDynamic() ==>
              && r.motion.transform == orthonormalize(t)
              && r.motion.newTransform == b.motion.transform
              && (orthonormalize(t) != b.motion.transform ==> r.mp.com == r.motion.transform.BasisXform(r.mp.comLocal))
              && (orthonormalize(t) != b.motion.transform && b.lists.inSpace ==> r.active)
  {
    if b.mode == Kinematic then SetTransformKinematic(b, t)
    else if b.mode == Static then Wakeup(b.(motion := b.motion.(transform := t)))
    else SetTransformDynamic(b, orthonormalize(t))
  }

  /** The kinematic branch of SetTransform: `t` is the target of the next step, and the first one is taken at once. */
  function SetTransformKinematic(b: Body, t: Xform2): (r: Body)
    requires Valid(b) && b.mode == Kinematic
    ensures Valid(r)
    ensures r.mode == b.mode && r.mp.invMass == b.mp.invMass && r.mp.mass == b.mp.mass && r.lists.queued == b.lists.queued
    ensures r.motion.newTransform == t && r.motion.transform == (if b.firstTimeKinematic then t else b.motion.transform)
  {
    var b1 := SetActive(b.(motion := b.motion.(newTransform := t)), true);
    var b2 := if b1.firstTimeKinematic then b1.(motion := b1.motion.(transform := t), firstTimeKinematic := false) else b1;
    Wakeup(b2)
  }

  /** The dynamic branch of SetTransform, given the orthonormalised transform `t1`. */
  function SetTransformDynamic(b: Body, t1: Xform2): (r: Body)
    requires Valid(b) && b.mode.AtLeastDynamic()
    ensures Valid(r)
    ensures r.mode == b.mode && r.mp.invMass == b.mp.invMass && r.mp.mass == b.mp.mass && r.lists.queued == b.lists.queued
    ensures r.motion.transform == t1 && r.motion.newTransform == b.motion.transform
    ensures t1 != b.motion.transform ==> r.mp.com == r.motion.transform.BasisXform(r.mp.comLocal)
    ensures t1 != b.motion.transform && b.lists.inSpace ==> r.active
  {
    var b1 := b.(motion := b.motion.(newTransform := b.motion.transform));
    if t1 == b.motion.transform then b1
    else Wakeup(b1.(motion := b1.motion.(transform := t1), mp := b.mp.(com := t1.BasisXform(b.mp.comLocal))))
  }

  /** The sleeping branch of set_state; static and kinematic bodies ignore it. */
  function SetSleeping(b: Body, sleep: bool): (r: Body)
    requires Valid(b)
    ensures Valid(r) && (MassSynced(b) ==> MassSynced(r))
    ensures !b.mode.AtLeastDynamic() ==> r == b
    ensures b.mode.AtLeastDynamic() && sleep ==> !r.active && r.motion == b.motion.(linVel := Zero2, angVel := 0.0)
    ensures b.mode.AtLeastDynamic() && !sleep ==> r.active && r.motion == b.motion
    ensures r.mode == b.mode && r.mp == b.mp && r.lists.queued == b.lists.queued
  {
    if b.mode == Static || b.mode == Kinematic then b
    else if sleep then SetActive(b.(motion := b.motion.(linVel := Zero2, angVel := 0.0)), false)
    else SetActive(b, true)
  }

  /** The sleep-permission branch of set_state: forbidding sleep wakes a dynamic body. */
  function SetCanSleep(b: Body, canSleep: bool): (r: Body)
    requires Valid(b)
    ensures Valid(r) && (MassSynced(b) ==> MassSynced(r))
    ensures r.canSleep == canSleep
    ensures b.mode.AtLeastDynamic() && !canSleep ==> r.active
    ensures r.mode == b.mode && r.mp == b.mp && r.motion == b.motion && r.lists.queued == b.lists.queued
  {
    var b1 := b.(canSleep := canSleep);
    if b.mode.AtLeastDynamic() && !b.active && !canSleep then SetActive(b1, true) else b1
  }

  /** The velocity branches of set_state: the value becomes the constant velocity too, and the body wakes. */
  function SetVelocity(b: Body, linear: bool, v: Variant): (r: Body)
    requires Valid(b)
    ensures Valid(r) && (MassSynced(b) ==> MassSynced(r))
    ensures linear ==> r.motion == b.motion.(linVel := v.AsVec2(), constLinVel := v.AsVec2())
    ensures !linear ==> r.motion == b.motion.(angVel := v.AsReal(), constAngVel := v.AsReal())
    ensures r.mode == b.mode && r.mp == b.mp && r.canSleep == b.canSleep && r.lists.queued == b.lists.queued
  {
    if linear then Wakeup(b.(motion := b.motion.(linVel := v.AsVec2(), constLinVel := v.AsVec2())))
    else Wakeup(b.(motion := b.motion.(angVel := v.AsReal(), constAngVel := v.AsReal())))
  }

  /**
   * set_state. Velocities are stored as the new constant velocities too.
   * Putting a dynamic body to sleep stops it; static and kinematic bodies
   * ignore sleep requests. Forbidding sleep wakes a dynamic body.
   */
  function SetState(b: Body, s: BodyState, v: Variant, orthonormalize: Xform2 -> Xform2): (r: Body)
    requires Valid(b)
    ensures Valid(r)
    ensures s != TransformState && MassSynced(b) ==> MassSynced(r)
    ensures r.mode == b.mode && r.mp.mass == b.mp.mass && r.mp.invMass == b.mp.invMass
    ensures s == Sleeping && v.AsBool() && b.mode.AtLeastDynamic() ==>
              !r.active && r.motion.linVel == Zero2 && r.motion.angVel == 0.0
    ensures s == Sleeping && !v.AsBool() && b.mode.AtLeastDynamic() ==> r.active
    ensures s == Sleeping && !b.mode.AtLeastDynamic() ==> r == b
    ensures s == CanSleep && b.mode.AtLeastDynamic() && !v.AsBool() ==> r.active
  {
    match s
    case TransformState => SetTransform(b, v.AsXform(), orthonormalize)
    case LinearVelocity => SetVelocity(b, true, v)
    case AngularVelocity => SetVelocity(b, false, v)
    case Sleeping => SetSleeping(b, v.AsBool())
    case CanSleep => SetCanSleep(b, v.AsBool())
  }

  function GetState(b: Body, s: BodyState): (v: Variant)
  {
    match s
    case TransformState => XformV(b.motion.transform)
    case LinearVelocity => Vec2V(b.motion.linVel)
    case AngularVelocity => RealV(b.motion.angVel)
    case Sleeping => BoolV(!b.active)
    case CanSleep => BoolV(b.canSleep)
  }

  /**
   * Reading state back: velocities and the sleep permission as set; a static
   * body's transform as set and a dynamic body's orthonormalized; a kinematic
   * body's only on its first placement, later ones wait for the next step.
   * A dynamic body reads as sleeping exactly when it was told to sleep.
   */
  lemma {:induction false} SetGetStateRoundTrip(b: Body, s: BodyState, v: Variant, orthonormalize: Xform2 -> Xform2)
    requires Valid(b)
    ensures var r := SetState(b, s, v, orthonormalize);
      && (s == LinearVelocity ==> GetState(r, s) == Vec2V(v.AsVec2()) && r.motion.constLinVel == v.AsVec2())
      && (s == AngularVelocity ==> GetState(r, s) == RealV(v.AsReal()) && r.motion.constAngVel == v.AsReal())
      && (s == CanSleep ==> GetState(r, s) == BoolV(v.AsBool()))
      && (s == TransformState && b.mode == Static ==> GetState(r, s) == XformV(v.AsXform()))
      && (s == TransformState && b.mode.AtLeastDynamic() ==> GetState(r, s) == XformV(orthonormalize(v.AsXform())))
      && (s == TransformState && b.mode == Kinematic ==>
            GetState(r, s) == XformV(if b.firstTimeKinematic then v.AsXform() else b.motion.transform))
      && (s == Sleeping && b.mode.AtLeastDynamic() ==> GetState(r, s) == BoolV(v.AsBool()))
  {
  }

  // ------------------------------------------------------------------ sleep

  function Abs(x: real): real { if x < 0.0 then -x else x }

  /** Both speeds are under the space's sleep thresholds. */
  predicate Calm(b: Body, angularThreshold: real, linearThreshold: real)
  {
    Abs(b.motion.angVel) < angularThreshold
    && Abs(b.motion.linVel.LengthSquared()) < linearThreshold * linearThreshold
  }

  /**
   * sleep_test: static and kinematic bodies may always sleep and bodies that
   * may not sleep never do. Otherwise the time spent calm accumulates and the
   * body may sleep once it exceeds the space's time-to-sleep; any movement
   * over the thresholds starts the count again.
   */
  function SleepTest(b: Body, step: real, angularThreshold: real, linearThreshold: real, timeToSleep: real): (r: (Body, bool))
    ensures !b.mode.AtLeastDynamic() ==> r == (b, true)
    ensures b.mode.AtLeastDynamic() && !b.canSleep ==> r == (b, false)
    ensures b.mode.AtLeastDynamic() && b.canSleep && Calm(b, angularThreshold, linearThreshold) ==>
              r.0 == b.(stillTime := b.stillTime + step) && r.1 == (b.stillTime + step > timeToSleep)
    ensures b.mode.AtLeastDynamic() && b.canSleep && !Calm(b, angularThreshold, linearThreshold) ==>
              r == (b.(stillTime := 0.0), false)
  {
    if b.mode == Static || b.mode == Kinematic then (b, true)
    else if !b.canSleep then (b, false)
    else if Calm(b, angularThreshold, linearThreshold) then
      var t := b.stillTime + step;
      (b.(stillTime := t), t > timeToSleep)
    else (b.(stillTime := 0.0), false)
  }

  /** `n` consecutive sleep tests; the result of the last one (true when none ran). */
  function SleepTests(b: Body, n: nat, step: real, angularThreshold: real, linearThreshold: real, timeToSleep: real): (r: (Body, bool))
    decreases n
  {
    if n == 0 then (b, true)
    else
      var t := SleepTest(b, step, angularThreshold, linearThreshold, timeToSleep);
      if n == 1 then t else SleepTests(t.0, n - 1, step, angularThreshold, linearThreshold, timeToSleep)
  }

  /**
   * A calm body that may sleep accumulates exactly `n` steps of still time
   * over `n` tests, and the last test reports whether that total exceeds the
   * time-to-sleep.
   */
  lemma {:induction false} StillTimeAccumulates(b: Body, n: nat, step: real, angularThreshold: real, linearThreshold: real, timeToSleep: real)
    requires n > 0 && b.mode.AtLeastDynamic() && b.canSleep && Calm(b, angularThreshold, linearThreshold)
    ensures var r := SleepTests(b, n, step, angularThreshold, linearThreshold, timeToSleep);
      r.0 == b.(stillTime := b.stillTime + n as real * step)
      && r.1 == (b.stillTime + n as real * step > timeToSleep)
    decreases n
  {
    if n > 1 {
      var b1 := SleepTest(b, step, angularThreshold, linearThreshold, timeToSleep).0;
      assert b1 == b.(stillTime := b.stillTime + step);
      StillTimeAccumulates(b1, n - 1, step, angularThreshold, linearThreshold, timeToSleep);
      assert b1.stillTime + (n - 1) as real * step == b.stillTime + n as real * step;
    }
  }

  // --------------------------------------------------------------- findings

  /** A dynamic body in a space with custom inertia and centre of mass, in sync. */
  function CustomBody(): (b: Body)
    ensures Valid(b) && MassSynced(b) && b.mode == Dynamic && b.lists.inSpace && !b.lists.queued
  {
    Body(Dynamic, MassProps(1.0, 1.0, 1.0, 1.0, false, false, Zero2, Zero2),
         Motion(Identity2, Identity2, Zero2, 0.0, Zero2, 0.0), Settings(0.0, 1.0, 1.0, -1.0, -1.0),
         true, true, 0.0, Lists(true, true, false), false, 0, false)
  }

  /** set_param MASS on CustomBody, as written: the inverse mass stays at 1 and nothing is queued. */
  lemma {:induction false} StaleAfterMassParam()
    ensures !MassSynced(SetMassAsWritten(CustomBody(), 2.0))
    ensures !MassSynced(SetParam(CustomBody(), Mass, RealV(2.0)))
  {
    var c := CustomBody();
    var a := SetMassAsWritten(c, 2.0);
    assert a.lists == c.lists && a.mp.invMass == 1.0 && a.mp.mass == 2.0;
    assert SetParam(c, Mass, RealV(2.0)) == a;
  }

  /**
   * With the queueing rule as written, a dynamic body in a space whose
   * inertia and centre of mass are both custom keeps the inverse of its old
   * mass after its mass changes, and nothing will ever update it; the
   * intended rule queues the body, and the flush restores the inverse.
   */
  lemma {:induction false} StaleInverseMass(shapes: seq<Shape>, moment: (nat, real, Vec2) -> real)
    ensures !MassSynced(SetMassAsWritten(CustomBody(), 2.0))
    ensures !MassSynced(SetParam(CustomBody(), Mass, RealV(2.0)))
    ensures MassSynced(SetMass(CustomBody(), 2.0))
    ensures FlushMassUpdate(SetMass(CustomBody(), 2.0), shapes, moment).mp.invMass == 0.5
  {
    StaleAfterMassParam();
    var r := FlushMassUpdate(SetMass(CustomBody(), 2.0), shapes, moment);
    assert r.mp.mass == 2.0;
  }

  /** CustomBody, but computing its centre of mass from its shapes. */
  function ComputingBody(): (b: Body)
    ensures Valid(b) && b.mode == Dynamic && b.mp.calculateCenterOfMass && !b.mp.calculateInertia
    ensures b.mp.mass == 1.0 && b.mp.comLocal == Zero2 && b.motion.transform == Identity2
  {
    CustomBody().(mp := CustomBody().mp.(calculateCenterOfMass := true))
  }

  /** One enabled shape of unit area placed at (1, 0). */
  function OffsetShape(): (shapes: seq<Shape>)
    ensures |shapes| == 1 && AreasNonNegative(shapes)
    ensures shapes[0] == Shape(0, false, 1.0, Vec2(1.0, 0.0), Vec2(1.0, 1.0))
  {
    [Shape(0, false, 1.0, Vec2(1.0, 0.0), Vec2(1.0, 1.0))]
  }

  /** The offset shape has unit area. */
  lemma {:induction false} OffsetShapeArea()
    ensures EnabledArea(OffsetShape()) == 1.0
  {
    assert OffsetShape()[..0] == [];
  }

  /** The offset shape's centroid, for a unit mass, is where the shape sits. */
  lemma {:induction false} OffsetShapeCentroid()
    ensures Centroid(OffsetShape(), 1.0) == Vec2(1.0, 0.0)
  {
    OffsetShapeArea();
    assert OffsetShape()[..0] == [];
    assert WeightedOrigins(OffsetShape(), 1.0) == Vec2(1.0, 0.0);
  }

  /**
   * As written, a dynamic body computing its own centre of mass from a single
   * shape placed off its origin keeps its local centre of mass at the origin.
   */
  lemma {:induction false} ComputedCentreOfMassDiscarded(moment: (nat, real, Vec2) -> real)
    ensures UpdateMassPropertiesAsWritten(ComputingBody(), OffsetShape(), moment).mp.comLocal == Zero2
  {
  }

  /** The intended update moves the same body's centre of mass onto the shape. */
  lemma {:induction false} ComputedCentreOfMassKept(moment: (nat, real, Vec2) -> real)
    requires forall id, m, sc :: m >= 0.0 ==> moment(id, m, sc) >= 0.0
    ensures UpdateMassProperties(ComputingBody(), OffsetShape(), moment).mp.comLocal == Vec2(1.0, 0.0)
  {
    OffsetShapeCentroid();
  }
}
