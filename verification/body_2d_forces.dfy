/**
 * The force step of a 2D body: the fold of the overlapping areas' gravity
 * and damping in priority order, the body's own damping overriding the
 * areas', and the velocity update of a kinematic or dynamic body.
 *
 * The gravity an area exerts at the body's position and the body's rotation
 * change over the step (a floating-point `remainder` of angles) come in as
 * data: the geometry behind them is not part of this model.
 */
module Body2DForces {
  import opened Optional
  import opened PhysicsTypes
  import opened Body2D
  import SeqUtil

  /** An area overlapping the body, with the gravity it exerts at the body's position. */
  datatype AreaInfo = AreaInfo(id: nat, priority: int, mode: OverrideMode, gravity: Vec2,
                               linearDamp: real, angularDamp: real)

  /** Gravity and damping gathered from areas. */
  datatype Forces = Forces(gravity: Vec2, linearDamp: real, angularDamp: real)
  {
    function Plus(o: Forces): Forces
    {
      Forces(gravity.Add(o.gravity), linearDamp + o.linearDamp, angularDamp + o.angularDamp)
    }
  }

  const NoForces: Forces := Forces(Zero2, 0.0, 0.0)

  /** What one area adds: its gravity at the body and its damping. */
  function Contribution(a: AreaInfo): Forces
  {
    Forces(a.gravity, a.linearDamp, a.angularDamp)
  }

  /** What an area adds to a sum: nothing when its override is disabled. */
  function Share(a: AreaInfo): Forces
  {
    if a.mode == Disabled then NoForces else Contribution(a)
  }

  lemma {:induction false} PlusAssociative(x: Forces, y: Forces, z: Forces)
    ensures x.Plus(y).Plus(z) == x.Plus(y.Plus(z))
  {
  }

  lemma {:induction false} PlusCommutative(x: Forces, y: Forces)
    ensures x.Plus(y) == y.Plus(x)
  {
  }

  function Priority(a: AreaInfo): int { a.priority }

  /** Modes that end the scan once the area has been applied. */
  predicate Stops(m: OverrideMode) { m == CombineReplace || m == Replace }

  /** Modes that discard what the areas above have gathered. */
  predicate Resets(m: OverrideMode) { m == Replace || m == ReplaceCombine }

  /**
   * The scan of integrate_forces over the sorted areas, from the last
   * (highest priority) down, starting from `acc`. Returns what was gathered
   * and whether an area stopped the scan.
   */
  function Scan(s: seq<AreaInfo>, acc: Forces): (r: (Forces, bool))
    decreases |s|
  {
    if |s| == 0 then (acc, false)
    else
      var a := s[|s| - 1];
      var rest := s[..|s| - 1];
      match a.mode
      case Disabled => Scan(rest, acc)
      case Combine => Scan(rest, acc.Plus(Contribution(a)))
      case CombineReplace => (acc.Plus(Contribution(a)), true)
      case Replace => (NoForces.Plus(Contribution(a)), true)
      case ReplaceCombine => Scan(rest, NoForces.Plus(Contribution(a)))
  }

  // ------------------------------------------------ reference definition

  /** The sum, in index order, of the contributions of the areas that are not disabled. */
  function Total(s: seq<AreaInfo>): Forces
    decreases |s|
  {
    if |s| == 0 then NoForces
    else
      var a := s[|s| - 1];
      Total(s[..|s| - 1]).Plus(Share(a))
  }

  /** The highest index whose area stops the scan, or -1. */
  function LastStop(s: seq<AreaInfo>): (k: int)
    ensures -1 <= k < |s|
    ensures k >= 0 ==> Stops(s[k].mode)
    ensures forall j :: k < j < |s| ==> !Stops(s[j].mode)
    decreases |s|
  {
    if |s| == 0 then -1
    else if Stops(s[|s| - 1].mode) then |s| - 1
    else LastStop(s[..|s| - 1])
  }

  /** The lowest index whose area resets the gathered values, or -1. */
  function FirstReset(s: seq<AreaInfo>): (k: int)
    ensures -1 <= k < |s|
    ensures k >= 0 ==> Resets(s[k].mode)
    ensures forall j :: 0 <= j < |s| && (k < 0 || j < k) ==> !Resets(s[j].mode)
    decreases |s|
  {
    if |s| == 0 then -1
    else if Resets(s[0].mode) then 0
    else
      var k := FirstReset(s[1..]);
      if k < 0 then -1 else k + 1
  }

  /** The areas the scan reaches: everything from the last stopping area up. */
  function Visited(s: seq<AreaInfo>): seq<AreaInfo>
  {
    var k := LastStop(s);
    s[if k >= 0 then k else 0..]
  }

  /**
   * What the scan gathers, stated without the loop: the visited areas up to
   * and including the lowest resetting one are summed; with no reset among
   * them the starting value is added too.
   */
  function Gathered(s: seq<AreaInfo>, acc: Forces): Forces
  {
    var v := Visited(s);
    var k := FirstReset(v);
    if k >= 0 then Total(v[..k + 1]) else acc.Plus(Total(v))
  }

  lemma {:induction false} TotalAppend(s: seq<AreaInfo>, a: AreaInfo)
    ensures Total(s + [a]) == Total(s).Plus(Share(a))
  {
    assert (s + [a])[..|s|] == s;
  }

  /** The last stop and the visited areas after appending an area that does not stop. */
  lemma {:induction false} VisitedAppend(s: seq<AreaInfo>, a: AreaInfo)
    requires !Stops(a.mode)
    ensures LastStop(s + [a]) == LastStop(s)
    ensures Visited(s + [a]) == Visited(s) + [a]
  {
    assert (s + [a])[..|s|] == s;
  }

  /** The first reset of a sequence with one more area at its end. */
  lemma {:induction false} FirstResetAppend(v: seq<AreaInfo>, a: AreaInfo)
    ensures FirstReset(v) >= 0 ==> FirstReset(v + [a]) == FirstReset(v)
    ensures FirstReset(v) < 0 ==> FirstReset(v + [a]) == (if Resets(a.mode) then |v| else -1)
    decreases |v|
  {
    if |v| == 0 {
      assert [] + [a] == [a];
      assert [a][1..] == [];
    } else if !Resets(v[0].mode) {
      assert (v + [a])[1..] == v[1..] + [a];
      FirstResetAppend(v[1..], a);
    }
  }

  /** An area that stops the scan is the last one visited. */
  lemma {:induction false} ScanStopsAt(s: seq<AreaInfo>, acc: Forces)
    requires |s| > 0 && Stops(s[|s| - 1].mode)
    ensures Scan(s, acc) == (Gathered(s, acc), LastStop(s) >= 0)
  {
    var a := s[|s| - 1];
    assert Visited(s) == [a];
    assert [a][..1] == [a];
    assert [a][1..] == [];
    assert Total([a]) == NoForces.Plus(Share(a)) by {
      assert [a][..0] == [];
    }
  }

  /**
   * Past an area that does not stop the scan, the reference definition for
   * the whole sequence is the one for the rest, started from what the scan
   * holds after the area.
   */
  lemma {:induction false} GatheredStep(p: seq<AreaInfo>, a: AreaInfo, acc: Forces)
    requires !Stops(a.mode)
    ensures Gathered(p + [a], acc) == Gathered(p, if Resets(a.mode) then NoForces.Plus(Share(a)) else acc.Plus(Share(a)))
  {
    VisitedAppend(p, a);
    FirstResetAppend(Visited(p), a);
    if FirstReset(Visited(p)) >= 0 {
      GatheredStepAbove(p, a, acc);
    } else if Resets(a.mode) {
      GatheredStepReset(p, a, acc);
    } else {
      GatheredStepCombine(p, a, acc);
    }
  }

  /** GatheredStep when a reset already lies among the visited areas: the new area is above it and changes nothing. */
  lemma {:induction false} GatheredStepAbove(p: seq<AreaInfo>, a: AreaInfo, acc: Forces)
    requires Visited(p + [a]) == Visited(p) + [a]
    requires FirstReset(Visited(p)) >= 0 && FirstReset(Visited(p) + [a]) == FirstReset(Visited(p))
    ensures Gathered(p + [a], acc) == Gathered(p, if Resets(a.mode) then NoForces.Plus(Share(a)) else acc.Plus(Share(a)))
  {
    var v := Visited(p);
    var k := FirstReset(v);
    var w := v + [a];
    assert Gathered(p + [a], acc) == Total(w[..k + 1]) by {
      assert Visited(p + [a]) == w && FirstReset(w) == k;
    }
    assert Total(w[..k + 1]) == Total(v[..k + 1]) by {
      PrefixOfAppend(v, a, k + 1);
    }
  }

  lemma {:induction false} PrefixOfAppend(v: seq<AreaInfo>, a: AreaInfo, n: nat)
    requires n <= |v|
    ensures (v + [a])[..n] == v[..n]
  {
  }

  /** GatheredStep when the new area is the lowest reset: it starts the sum afresh. */
  lemma {:induction false} GatheredStepReset(p: seq<AreaInfo>, a: AreaInfo, acc: Forces)
    requires Visited(p + [a]) == Visited(p) + [a] && Resets(a.mode)
    requires FirstReset(Visited(p)) < 0 && FirstReset(Visited(p) + [a]) == |Visited(p)|
    ensures Gathered(p + [a], acc) == Gathered(p, NoForces.Plus(Share(a)))
  {
    var v := Visited(p);
    assert Gathered(p + [a], acc) == Total((v + [a])[..|v| + 1]);
    GatheredResetHere(v, a);
  }

  /** GatheredStep with no reset anywhere: the new area's share joins the running value. */
  lemma {:induction false} GatheredStepCombine(p: seq<AreaInfo>, a: AreaInfo, acc: Forces)
    requires Visited(p + [a]) == Visited(p) + [a]
    requires FirstReset(Visited(p)) < 0 && FirstReset(Visited(p) + [a]) == -1
    ensures Gathered(p + [a], acc) == Gathered(p, acc.Plus(Share(a)))
  {
    var v := Visited(p);
    assert Gathered(p + [a], acc) == acc.Plus(Total(v + [a]));
    GatheredCombineHere(v, a, acc);
  }

  /** Below all resets, an area that resets leaves only itself and what lies below. */
  lemma {:induction false} GatheredResetHere(v: seq<AreaInfo>, a: AreaInfo)
    requires FirstReset(v) < 0 && Resets(a.mode)
    ensures Total((v + [a])[..|v| + 1]) == NoForces.Plus(Share(a)).Plus(Total(v))
  {
    assert (v + [a])[..|v| + 1] == v + [a];
    TotalAppend(v, a);
    PlusCommutative(Total(v), Share(a));
  }

  /** Below all resets, a combining area adds to the running value. */
  lemma {:induction false} GatheredCombineHere(v: seq<AreaInfo>, a: AreaInfo, acc: Forces)
    ensures acc.Plus(Total(v + [a])) == acc.Plus(Share(a)).Plus(Total(v))
  {
    calc {
      acc.Plus(Total(v + [a]));
      { TotalAppend(v, a); }
      acc.Plus(Total(v).Plus(Share(a)));
      { PlusCommutative(Total(v), Share(a)); }
      acc.Plus(Share(a).Plus(Total(v)));
      { PlusAssociative(acc, Share(a), Total(v)); }
      acc.Plus(Share(a)).Plus(Total(v));
    }
  }

  /** The scan gathers what the reference definition says, and stops exactly when some area stops it. */
  lemma {:induction false} ScanMatchesReference(s: seq<AreaInfo>, acc: Forces)
    ensures Scan(s, acc) == (Gathered(s, acc), LastStop(s) >= 0)
    decreases |s|
  {
    if |s| > 0 {
      var a := s[|s| - 1];
      var p := s[..|s| - 1];
      if Stops(a.mode) {
        ScanStopsAt(s, acc);
      } else {
        assert s == p + [a];
        var acc' := if Resets(a.mode) then NoForces.Plus(Share(a)) else acc.Plus(Share(a));
        assert Scan(s, acc) == Scan(p, acc');
        ScanMatchesReference(p, acc');
        GatheredStep(p, a, acc);
        VisitedAppend(p, a);
      }
    }
  }

  // ----------------------------------------------- order of summation

  lemma {:induction false} TotalConcat(s: seq<AreaInfo>, t: seq<AreaInfo>)
    ensures Total(s + t) == Total(s).Plus(Total(t))
    decreases |t|
  {
    if |t| == 0 {
      assert s + t == s;
    } else {
      var q := t[..|t| - 1];
      var a := t[|t| - 1];
      assert s + t == (s + q) + [a];
      assert t == q + [a];
      calc {
        Total(s + t);
        { TotalAppend(s + q, a); }
        Total(s + q).Plus(Share(a));
        { TotalConcat(s, q); }
        Total(s).Plus(Total(q)).Plus(Share(a));
        { PlusAssociative(Total(s), Total(q), Share(a)); }
        Total(s).Plus(Total(q).Plus(Share(a)));
        { TotalAppend(q, a); }
        Total(s).Plus(Total(t));
      }
    }
  }

  /** The total does not depend on the order of the areas. */
  lemma {:induction false} TotalPermutation(s: seq<AreaInfo>, t: seq<AreaInfo>)
    requires multiset(s) == multiset(t)
    ensures Total(s) == Total(t)
    decreases |s|
  {
    if |s| == 0 {
      assert |t| == |multiset(t)| == 0;
    } else {
      var a := s[|s| - 1];
      var p := s[..|s| - 1];
      assert s == p + [a];
      assert a in multiset(t);
      var k :| 0 <= k < |t| && t[k] == a;
      var l, r := t[..k], t[k + 1..];
      assert t == (l + [a]) + r;
      assert multiset(l + r) == multiset(t) - multiset{a};
      assert multiset(p) == multiset(s) - multiset{a};
      TotalPermutation(p, l + r);
      TotalAppend(p, a);
      TotalConcat(l, r);
      TotalAppend(l, a);
      TotalConcat(l + [a], r);
      calc {
        Total(s);
        Total(l + r).Plus(Share(a));
        Total(l).Plus(Total(r)).Plus(Share(a));
        { PlusAssociative(Total(l), Total(r), Share(a));
          PlusCommutative(Total(r), Share(a));
          PlusAssociative(Total(l), Share(a), Total(r)); }
        Total(l).Plus(Share(a)).Plus(Total(r));
        Total(t);
      }
    }
  }

  // ----------------------------------------------------- the area fold

  /**
   * The order the engine's sort leaves the body's areas in: by priority, a
   * permutation of them. The sort is not stable for longer lists, so areas
   * of equal priority may come in any order.
   */
  predicate EngineOrder(areas: seq<AreaInfo>, sorted: seq<AreaInfo>)
  {
    SeqUtil.SortedBy(sorted, Priority) && multiset(sorted) == multiset(areas)
  }

  /**
   * The gravity and damping the areas give a body: the areas, in the order
   * the engine's sort leaves them, are scanned from the highest priority
   * down, and the space's default area is added unless an area stopped the
   * scan.
   */
  function AreaForces(areas: seq<AreaInfo>, sorted: seq<AreaInfo>, defaultArea: AreaInfo): (r: (Forces, bool))
    requires EngineOrder(areas, sorted)
    ensures r.1 <==> exists i :: 0 <= i < |areas| && Stops(areas[i].mode)
    ensures CombineOnly(areas) ==> r.0 == Total(areas).Plus(Contribution(defaultArea))
    ensures var g := Gathered(sorted, NoForces);
            r.0 == (if r.1 then g else g.Plus(Contribution(defaultArea)))
  {
    ScanOfPermutation(areas, sorted);
    var scanned := Scan(sorted, NoForces);
    if scanned.1 then scanned else (scanned.0.Plus(Contribution(defaultArea)), false)
  }

  /** The scan of any reordering of the areas stops iff some area stops it, and sums every area when all only combine. */
  lemma {:induction false} ScanOfPermutation(areas: seq<AreaInfo>, sorted: seq<AreaInfo>)
    requires multiset(sorted) == multiset(areas)
    ensures Scan(sorted, NoForces).1 <==> exists i :: 0 <= i < |areas| && Stops(areas[i].mode)
    ensures CombineOnly(areas) ==> Scan(sorted, NoForces).0 == Total(areas)
    ensures Scan(sorted, NoForces).0 == Gathered(sorted, NoForces)
  {
    ScanMatchesReference(sorted, NoForces);
    SortedKeepsModes(areas, sorted);
    CombineOnlyGathersAll(areas, sorted);
    assert LastStop(sorted) >= 0 <==> exists i :: 0 <= i < |sorted| && Stops(sorted[i].mode);
  }

  predicate CombineOnly(s: seq<AreaInfo>)
  {
    forall i :: 0 <= i < |s| ==> s[i].mode == Combine || s[i].mode == Disabled
  }

  /** Areas that only combine are all visited and all summed, in any order. */
  lemma {:induction false} CombineOnlyGathersAll(areas: seq<AreaInfo>, sorted: seq<AreaInfo>)
    requires multiset(sorted) == multiset(areas)
    requires CombineOnly(areas) ==> CombineOnly(sorted)
    ensures CombineOnly(areas) ==> Gathered(sorted, NoForces) == Total(areas)
  {
    if CombineOnly(areas) {
      assert Visited(sorted) == sorted;
      assert FirstReset(sorted) < 0;
      TotalPermutation(sorted, areas);
    }
  }

  lemma {:induction false} SortedKeepsModes(areas: seq<AreaInfo>, sorted: seq<AreaInfo>)
    requires multiset(sorted) == multiset(areas)
    ensures (exists i :: 0 <= i < |sorted| && Stops(sorted[i].mode)) <==> (exists i :: 0 <= i < |areas| && Stops(areas[i].mode))
    ensures CombineOnly(areas) ==> CombineOnly(sorted)
  {
    forall i | 0 <= i < |sorted| ensures sorted[i] in areas {
      assert sorted[i] in multiset(sorted);
    }
    forall i | 0 <= i < |areas| ensures areas[i] in sorted {
      assert areas[i] in multiset(areas);
    }
  }

  // ------------------------------------------------------ the force step

  /**
   * The fraction of a velocity left after damping `damp` acts for `step`:
   * one less the damped part, and zero once the damping would reverse it.
   */
  function DampFactor(step: real, damp: real): (f: real)
    ensures f >= 0.0
    ensures step >= 0.0 && damp >= 0.0 ==> f <= 1.0
    ensures f == 0.0 <==> step * damp >= 1.0
    ensures f > 0.0 ==> f + step * damp == 1.0
  {
    var d := 1.0 - step * damp;
    if d < 0.0 then 0.0 else d
  }

  /** The body's own damping when it has one (not negative), else the areas'. */
  function EffectiveDamp(bodyDamp: real, areaDamp: real): real
  {
    if bodyDamp >= 0.0 then bodyDamp else areaDamp
  }

  /** What a force step leaves behind besides the body's new velocities. */
  datatype StepResult = StepResult(
    body: Body,
    /** Gravity after the body's gravity scale, and the damping in effect. */
    gravity: Vec2,
    linearDamp: real,
    angularDamp: real,
    /** The motion the body's shapes are extended by for continuous collision, if any. */
    motion: Option<Vec2>)

  /** The inputs of a force step that the body record does not carry. */
  datatype StepInputs = StepInputs(
    appliedForce: Vec2,
    appliedTorque: real,
    /** Set while a custom integrator replaces the force integration. */
    omitForceIntegration: bool,
    continuousCollision: bool,
    /** The kinematic body's rotation over the step, already reduced to one turn. */
    rotationDelta: real)

  /** Velocity after damping by `factor` and pushing by `force` for `step`. */
  function PushedVelocity(v: Vec2, factor: real, force: Vec2, invMass: real, step: real): Vec2
  {
    v.Scale(factor).Add(force.Scale(invMass).Scale(step))
  }

  /** Angular velocity after damping by `factor` and turning by `torque` for `step`. */
  function SpunVelocity(w: real, factor: real, invInertia: real, torque: real, step: real): real
  {
    w * factor + invInertia * torque * step
  }

  /**
   * integrate_forces. A static body is left alone. Otherwise the areas'
   * gravity, scaled by the body's gravity scale, and their damping,
   * overridden by the body's own, are gathered. A kinematic body derives its
   * velocities from where it is told to move; a dynamic one is damped and
   * pushed by gravity and the applied force, unless a custom integrator does
   * that.
   */
  function IntegrateForces(b: Body, areas: seq<AreaInfo>, sorted: seq<AreaInfo>, defaultArea: AreaInfo, inputs: StepInputs, step: real): (r: Option<StepResult>)
    requires EngineOrder(areas, sorted)
    requires step > 0.0
    ensures r.None? <==> b.mode == Static
    ensures r.Some? ==> r.value.body == b.(motion := b.motion.(linVel := r.value.body.motion.linVel,
                                                              angVel := r.value.body.motion.angVel))
    ensures r.Some? ==> r.value.gravity == AreaForces(areas, sorted, defaultArea).0.gravity.Scale(b.settings.gravityScale)
    ensures r.Some? && b.settings.linearDamp >= 0.0 ==> r.value.linearDamp == b.settings.linearDamp
    ensures r.Some? && b.settings.angularDamp >= 0.0 ==> r.value.angularDamp == b.settings.angularDamp
    ensures r.Some? && b.settings.linearDamp < 0.0 ==> r.value.linearDamp == AreaForces(areas, sorted, defaultArea).0.linearDamp
    ensures r.Some? && b.settings.angularDamp < 0.0 ==> r.value.angularDamp == AreaForces(areas, sorted, defaultArea).0.angularDamp
    ensures b.mode == Kinematic ==> r.Some? && r.value.motion == Some(b.motion.newTransform.origin.Sub(b.motion.transform.origin))
    ensures b.mode.AtLeastDynamic() && inputs.omitForceIntegration ==> r.Some? && r.value.body == b
    ensures b.mode.AtLeastDynamic() && !inputs.omitForceIntegration ==>
              && r.Some?
              && r.value.body.motion.linVel
                 == PushedVelocity(b.motion.linVel, DampFactor(step, r.value.linearDamp),
                                   r.value.gravity.Scale(b.mp.mass).Add(inputs.appliedForce), b.mp.invMass, step)
              && r.value.body.motion.angVel
                 == SpunVelocity(b.motion.angVel, DampFactor(step, r.value.angularDamp), b.mp.invInertia, inputs.appliedTorque, step)
    ensures b.mode.AtLeastDynamic() ==>
              r.Some? && r.value.motion == (if inputs.continuousCollision then Some(r.value.body.motion.linVel.Scale(step)) else None)
  {
    if b.mode == Static then None
    else
      var f := AreaForces(areas, sorted, defaultArea).0;
      var gravity := f.gravity.Scale(b.settings.gravityScale);
      var linearDamp := EffectiveDamp(b.settings.linearDamp, f.linearDamp);
      var angularDamp := EffectiveDamp(b.settings.angularDamp, f.angularDamp);
      var m := b.motion;
      if b.mode == Kinematic then
        var motion := m.newTransform.origin.Sub(m.transform.origin);
        var m1 := m.(linVel := m.constLinVel.Add(motion.Scale(1.0 / step)),
                     angVel := m.constAngVel + inputs.rotationDelta / step);
        Some(StepResult(b.(motion := m1), gravity, linearDamp, angularDamp, Some(motion)))
      else
        var b1 := if inputs.omitForceIntegration then b
                  else
                    var force := gravity.Scale(b.mp.mass).Add(inputs.appliedForce);
                    b.(motion := m.(linVel := PushedVelocity(m.linVel, DampFactor(step, linearDamp), force, b.mp.invMass, step),
                                    angVel := SpunVelocity(m.angVel, DampFactor(step, angularDamp), b.mp.invInertia, inputs.appliedTorque, step)));
        Some(StepResult(b1, gravity, linearDamp, angularDamp,
                        if inputs.continuousCollision then Some(b1.motion.linVel.Scale(step)) else None))
  }

  /** Dividing a displacement by the step and scaling it back gives the displacement. */
  lemma {:induction false} UndoStepDivision(v: Vec2, step: real)
    requires step > 0.0
    ensures v.Scale(1.0 / step).Scale(step) == v
  {
    var inv := 1.0 / step;
    assert inv * step == 1.0;
    assert step * (inv * v.x) == (inv * step) * v.x;
    assert step * (inv * v.y) == (inv * step) * v.y;
  }

  /**
   * A kinematic body's velocity, less its constant part, carries it over one
   * step exactly to the transform it was told to move to.
   */
  lemma {:induction false} KinematicVelocityReachesTarget(b: Body, areas: seq<AreaInfo>, sorted: seq<AreaInfo>, defaultArea: AreaInfo, inputs: StepInputs, step: real)
    requires EngineOrder(areas, sorted)
    requires step > 0.0 && b.mode == Kinematic
    ensures var v := IntegrateForces(b, areas, sorted, defaultArea, inputs, step).value.body.motion.linVel;
      b.motion.transform.origin.Add(v.Sub(b.motion.constLinVel).Scale(step)) == b.motion.newTransform.origin
  {
    var motion := b.motion.newTransform.origin.Sub(b.motion.transform.origin);
    var v := IntegrateForces(b, areas, sorted, defaultArea, inputs, step).value.body.motion.linVel;
    assert v == b.motion.constLinVel.Add(motion.Scale(1.0 / step));
    assert v.Sub(b.motion.constLinVel) == motion.Scale(1.0 / step);
    UndoStepDivision(motion, step);
  }

  /** A push through the inverse of the mass that produced the force cancels the mass. */
  lemma {:induction false} MassCancels(g: Vec2, mass: real, step: real)
    requires mass > 0.0
    ensures g.Scale(mass).Scale(Recip(mass)).Scale(step) == g.Scale(step)
  {
    var inv := 1.0 / mass;
    assert mass * inv == 1.0;
    assert inv * (mass * g.x) == (mass * inv) * g.x;
    assert inv * (mass * g.y) == (mass * inv) * g.y;
  }

  /**
   * Free fall: a dynamic body whose own linear damping is zero, with the
   * inverse of its mass and no applied force, gains exactly the gravity in
   * effect times the step, whatever its mass.
   */
  lemma {:induction false} FreeFall(b: Body, areas: seq<AreaInfo>, sorted: seq<AreaInfo>, defaultArea: AreaInfo, inputs: StepInputs, step: real)
    requires EngineOrder(areas, sorted)
    requires step > 0.0 && b.mode.AtLeastDynamic() && !inputs.omitForceIntegration
    requires b.settings.linearDamp == 0.0 && inputs.appliedForce == Zero2
    requires b.mp.mass > 0.0 && b.mp.invMass == Recip(b.mp.mass)
    ensures var r := IntegrateForces(b, areas, sorted, defaultArea, inputs, step).value;
            r.body.motion.linVel == b.motion.linVel.Add(r.gravity.Scale(step))
  {
    var r := IntegrateForces(b, areas, sorted, defaultArea, inputs, step).value;
    assert DampFactor(step, r.linearDamp) == 1.0;
    FreeFallPush(b.motion.linVel, r.gravity, b.mp.mass, step);
  }

  /** The push behind FreeFall: undamped, through the inverse of the mass that produced the force. */
  lemma {:induction false} FreeFallPush(v: Vec2, g: Vec2, mass: real, step: real)
    requires mass > 0.0
    ensures PushedVelocity(v, 1.0, g.Scale(mass).Add(Zero2), Recip(mass), step) == v.Add(g.Scale(step))
  {
    assert g.Scale(mass).Add(Zero2) == g.Scale(mass);
    assert v.Scale(1.0) == v;
    MassCancels(g, mass, step);
  }

  /**
   * Damping alone only slows: a dynamic body with its own non-negative linear
   * damping, no gravity and no applied force has its velocity scaled by a
   * factor between zero and one, so no component speeds up or turns around.
   */
  lemma {:induction false} DampingOnlySlows(b: Body, areas: seq<AreaInfo>, sorted: seq<AreaInfo>, defaultArea: AreaInfo, inputs: StepInputs, step: real)
    requires EngineOrder(areas, sorted)
    requires step > 0.0 && b.mode.AtLeastDynamic() && !inputs.omitForceIntegration
    requires b.settings.linearDamp >= 0.0 && b.settings.gravityScale == 0.0 && inputs.appliedForce == Zero2
    ensures var f := DampFactor(step, b.settings.linearDamp);
            var v := b.motion.linVel;
            var w := IntegrateForces(b, areas, sorted, defaultArea, inputs, step).value.body.motion.linVel;
            0.0 <= f <= 1.0 && w == v.Scale(f) && Slowed(v, w)
  {
    var f := DampFactor(step, b.settings.linearDamp);
    var v := b.motion.linVel;
    DampedOnly(v, f, b.mp.invMass, step, PushedVelocity(v, f, Zero2, b.mp.invMass, step));
    Undriven(b, areas, sorted, defaultArea, inputs, step);
  }

  /** With no gravity and no applied force, the integrator's linear velocity is the damped one alone. */
  lemma {:induction false} Undriven(b: Body, areas: seq<AreaInfo>, sorted: seq<AreaInfo>, defaultArea: AreaInfo, inputs: StepInputs, step: real)
    requires EngineOrder(areas, sorted)
    requires step > 0.0 && b.mode.AtLeastDynamic() && !inputs.omitForceIntegration
    requires b.settings.linearDamp >= 0.0 && b.settings.gravityScale == 0.0 && inputs.appliedForce == Zero2
    ensures IntegrateForces(b, areas, sorted, defaultArea, inputs, step).value.body.motion.linVel
            == PushedVelocity(b.motion.linVel, DampFactor(step, b.settings.linearDamp), Zero2, b.mp.invMass, step)
  {
    StepFacts(b, areas, sorted, defaultArea, inputs, step);
    ForceFree(b, inputs, step, IntegrateForces(b, areas, sorted, defaultArea, inputs, step).value, AreaForces(areas, sorted, defaultArea).0.gravity);
  }

  /** What a dynamic step reports: the gravity and damping it used and the pushed velocity. */
  lemma {:induction false} StepFacts(b: Body, areas: seq<AreaInfo>, sorted: seq<AreaInfo>, defaultArea: AreaInfo, inputs: StepInputs, step: real)
    requires EngineOrder(areas, sorted)
    requires step > 0.0 && b.mode.AtLeastDynamic() && !inputs.omitForceIntegration && b.settings.linearDamp >= 0.0
    ensures var r := IntegrateForces(b, areas, sorted, defaultArea, inputs, step);
            && r.Some?
            && r.value.gravity == AreaForces(areas, sorted, defaultArea).0.gravity.Scale(b.settings.gravityScale)
            && r.value.linearDamp == b.settings.linearDamp
            && r.value.body.motion.linVel == PushedVelocity(b.motion.linVel, DampFactor(step, r.value.linearDamp),
                                                            r.value.gravity.Scale(b.mp.mass).Add(inputs.appliedForce), b.mp.invMass, step)
  {
    StepGravity(b, areas, sorted, defaultArea, inputs, step);
    StepPush(b, areas, sorted, defaultArea, inputs, step);
  }

  lemma {:induction false} StepGravity(b: Body, areas: seq<AreaInfo>, sorted: seq<AreaInfo>, defaultArea: AreaInfo, inputs: StepInputs, step: real)
    requires EngineOrder(areas, sorted)
    requires step > 0.0 && b.mode.AtLeastDynamic() && !inputs.omitForceIntegration && b.settings.linearDamp >= 0.0
    ensures var r := IntegrateForces(b, areas, sorted, defaultArea, inputs, step);
            && r.Some?
            && r.value.gravity == AreaForces(areas, sorted, defaultArea).0.gravity.Scale(b.settings.gravityScale)
            && r.value.linearDamp == b.settings.linearDamp
  {
  }

  lemma {:induction false} StepPush(b: Body, areas: seq<AreaInfo>, sorted: seq<AreaInfo>, defaultArea: AreaInfo, inputs: StepInputs, step: real)
    requires EngineOrder(areas, sorted)
    requires step > 0.0 && b.mode.AtLeastDynamic() && !inputs.omitForceIntegration
    ensures var r := IntegrateForces(b, areas, sorted, defaultArea, inputs, step);
            && r.Some?
            && r.value.body.motion.linVel == PushedVelocity(b.motion.linVel, DampFactor(step, r.value.linearDamp),
                                                            r.value.gravity.Scale(b.mp.mass).Add(inputs.appliedForce), b.mp.invMass, step)
  {
  }

  /** The integrator's reported step, with no gravity scale and no applied force, pushes by nothing. */
  lemma {:induction false} ForceFree(b: Body, inputs: StepInputs, step: real, r: StepResult, g: Vec2)
    requires b.settings.gravityScale == 0.0 && inputs.appliedForce == Zero2
    requires r.gravity == g.Scale(b.settings.gravityScale) && r.linearDamp == b.settings.linearDamp
    requires r.body.motion.linVel == PushedVelocity(b.motion.linVel, DampFactor(step, r.linearDamp),
                                                    r.gravity.Scale(b.mp.mass).Add(inputs.appliedForce), b.mp.invMass, step)
    ensures r.body.motion.linVel == PushedVelocity(b.motion.linVel, DampFactor(step, b.settings.linearDamp), Zero2, b.mp.invMass, step)
  {
    assert r.gravity == Zero2;
    assert r.gravity.Scale(b.mp.mass).Add(inputs.appliedForce) == Zero2;
  }

  /** Each component of `w` lies between zero and the same component of `v`: nothing sped up or turned around. */
  predicate Slowed(v: Vec2, w: Vec2)
  {
    && (v.x >= 0.0 ==> 0.0 <= w.x <= v.x) && (v.x <= 0.0 ==> v.x <= w.x <= 0.0)
    && (v.y >= 0.0 ==> 0.0 <= w.y <= v.y) && (v.y <= 0.0 ==> v.y <= w.y <= 0.0)
  }

  /** The push behind DampingOnlySlows: no force, a factor between zero and one. */
  lemma {:induction false} DampedOnly(v: Vec2, f: real, invMass: real, step: real, w: Vec2)
    requires 0.0 <= f <= 1.0 && w == PushedVelocity(v, f, Zero2, invMass, step)
    ensures w == v.Scale(f) && Slowed(v, w)
  {
    NoPush(v, f, invMass, step);
    ScaleBetween(v.x, f, w.x);
    ScaleBetween(v.y, f, w.y);
  }

  lemma {:induction false} NoPush(v: Vec2, f: real, invMass: real, step: real)
    ensures PushedVelocity(v, f, Zero2, invMass, step) == Vec2(f * v.x, f * v.y)
  {
    assert Zero2.Scale(invMass) == Zero2;
    assert Zero2.Scale(step) == Zero2;
  }

  /** Scaling by a factor between zero and one moves a value towards zero without passing it. */
  lemma {:induction false} ScaleBetween(x: real, f: real, y: real)
    requires 0.0 <= f <= 1.0 && y == f * x
    ensures x >= 0.0 ==> 0.0 <= y <= x
    ensures x <= 0.0 ==> x <= y <= 0.0
  {
    if x >= 0.0 {
      ProductNonNegative(1.0 - f, x);
      ProductNonNegative(f, x);
    } else {
      ProductNonNegative(1.0 - f, -x);
      ProductNonNegative(f, -x);
    }
  }

  lemma {:induction false} ProductNonNegative(a: real, b: real)
    requires a >= 0.0 && b >= 0.0
    ensures a * b >= 0.0
  {
  }
}
