/**
 * The control flow of the 3D space's body motion test: the argument check,
 * the early answer for a body without shapes, the bounded recovery that
 * frees a stuck body, the choice of the shape that collides first, the rest
 * contacts gathered at the unsafe fraction, and the fields of the result.
 *
 * Geometry enters as oracles: whether the body collides where it stands and
 * how far to push it out, each object's bisection outcome per shape, and the
 * contacts the solver reports per shape at the unsafe position.
 */
module MotionQuery {
  import opened Optional
  import opened PhysicsTypes
  import opened SpaceQueries

  /** The share of the margin below which rest contacts are ignored. */
  const MIN_CONTACT_DEPTH_FACTOR: real := 0.05

  /** Recovery rounds before the motion is attempted regardless. */
  const RECOVER_ATTEMPTS: nat := 4

  datatype MotionParams = MotionParams(from: Vec3, motion: Vec3, margin: real, maxCollisions: int)

  datatype MotionResult = MotionResult(
    travel: Vec3,
    remainder: Vec3,
    safeFraction: real,
    unsafeFraction: real,
    collisionCount: nat,
    collisions: seq<RestResult>)

  /** A result as the caller's structure starts out. */
  const EmptyResult: MotionResult := MotionResult(Zero3, Zero3, 0.0, 0.0, 0, [])

  // ------------------------------------------------------------- recovery

  /**
   * What the solver reports for the body at one position: whether any
   * contact was gathered, and the motion that pushes the body out of the
   * penetrating ones.
   */
  datatype Probe = Probe(collided: bool, recoverMotion: Vec3)

  /**
   * Step 1 of test_body_motion: while the body collides where it stands and
   * there is a motion that pushes it out, move it by that motion, at most
   * `attempts` times. Returns the final position, whether the body collided
   * at the start, and the number of moves made.
   */
  function Recover(origin: Vec3, attempts: nat, probe: Vec3 -> Probe): (r: (Vec3, bool, nat))
    requires attempts > 0
    ensures r.1 <==> probe(origin).collided
    ensures r.2 <= attempts
    ensures r.2 == 0 ==> r.0 == origin
    ensures r.2 < attempts ==> !probe(r.0).collided || probe(r.0).recoverMotion == Zero3
    decreases attempts
  {
    var p := probe(origin);
    if !p.collided then (origin, false, 0)
    else if p.recoverMotion == Zero3 then (origin, true, 0)
    else
      var next := origin.Add(p.recoverMotion);
      if attempts == 1 then (next, true, 1)
      else
        var r := Recover(next, attempts - 1, probe);
        (r.0, true, r.2 + 1)
  }

  /** A body that never collides is not moved; one whose every probe pushes it out uses all rounds. */
  lemma {:induction false} RecoverRounds(origin: Vec3, attempts: nat, probe: Vec3 -> Probe)
    requires attempts > 0
    ensures (forall o :: !probe(o).collided) ==> Recover(origin, attempts, probe) == (origin, false, 0)
    ensures (forall o :: probe(o).collided && probe(o).recoverMotion != Zero3) ==> Recover(origin, attempts, probe).2 == attempts
    decreases attempts
  {
    if attempts > 1 && probe(origin).collided && probe(origin).recoverMotion != Zero3 {
      RecoverRounds(origin.Add(probe(origin).recoverMotion), attempts - 1, probe);
    }
  }

  // -------------------------------------------------------- the cast phase

  /** One object's outcome for one body shape. */
  datatype ObjectCast =
    | Clear                         // the whole motion is free of the object
    | Inside                        // the shape already overlaps it: stuck
    | Swept(low: real, hi: real)    // the bisection's safe and unsafe fractions

  predicate SweptValid(c: ObjectCast)
  {
    c.Swept? ==> 0.0 <= c.low < c.hi <= 1.0
  }

  /** One body shape's outcome: stuck, or its closest safe and unsafe fractions. */
  datatype ShapeCast = Stuck | Closest(safe: real, unsafe: real)

  /** The swept objects' fractions, in order. */
  function SweptFractions(objs: seq<ObjectCast>): (r: seq<(real, real)>)
    requires forall i :: 0 <= i < |objs| ==> SweptValid(objs[i])
    ensures |r| <= |objs|
    ensures forall i :: 0 <= i < |r| ==> 0.0 <= r[i].0 < r[i].1 <= 1.0
    ensures forall i :: 0 <= i < |r| ==> exists j :: 0 <= j < |objs| && objs[j] == Swept(r[i].0, r[i].1)
    decreases |objs|
  {
    if |objs| == 0 then []
    else
      var rest := SweptFractions(objs[..|objs| - 1]);
      var o := objs[|objs| - 1];
      assert SweptValid(o);
      if o.Swept? then rest + [(o.low, o.hi)] else rest
  }

  /** A shape is stuck as soon as one object holds it; otherwise the closest cast counts. */
  function CastShape(objs: seq<ObjectCast>): (r: ShapeCast)
    requires forall i :: 0 <= i < |objs| ==> SweptValid(objs[i])
    ensures r.Stuck? <==> exists i :: 0 <= i < |objs| && objs[i] == Inside
    ensures r.Closest? ==> 0.0 <= r.safe <= 1.0 && r.safe <= r.unsafe <= 1.0
    ensures r.Closest? ==> forall i :: 0 <= i < |objs| && objs[i].Swept? ==> r.safe <= objs[i].low
  {
    if exists i :: 0 <= i < |objs| && objs[i] == Inside then Stuck
    else
      var fr := SweptFractions(objs);
      var c := ClosestCast(fr);
      SweptCovered(objs);
      assert c == (1.0, 1.0) || 0.0 <= c.0 < c.1 <= 1.0;
      Closest(c.0, c.1)
  }

  /** Every swept object's fractions are among the swept fractions. */
  lemma {:induction false} SweptCovered(objs: seq<ObjectCast>)
    requires forall i :: 0 <= i < |objs| ==> SweptValid(objs[i])
    ensures forall i :: 0 <= i < |objs| && objs[i].Swept? ==> (objs[i].low, objs[i].hi) in SweptFractions(objs)
    decreases |objs|
  {
    if |objs| > 0 {
      var p := objs[..|objs| - 1];
      SweptCovered(p);
      forall i | 0 <= i < |objs| && objs[i].Swept?
        ensures (objs[i].low, objs[i].hi) in SweptFractions(objs)
      {
        if i < |objs| - 1 {
          assert objs[i] == p[i];
        }
      }
    }
  }

  /**
   * Step 2 of test_body_motion over the body's shapes (None for a disabled
   * or skipped shape): a stuck shape ends the search with both fractions 0;
   * otherwise the shape with the smallest safe fraction below 1 wins, the
   * first one on a tie. Returns safe, unsafe and the winning shape or -1.
   */
  function CastShapes(casts: seq<Option<ShapeCast>>): (r: (real, real, int))
    requires forall j :: 0 <= j < |casts| && casts[j].Some? && casts[j].value.Closest? ==>
               0.0 <= casts[j].value.safe <= casts[j].value.unsafe <= 1.0
    ensures 0.0 <= r.0 <= r.1 <= 1.0
    ensures -1 <= r.2 < |casts|
    ensures r.2 >= 0 <==> r.0 < 1.0
    ensures r.2 >= 0 ==> casts[r.2].Some?
    ensures r.2 >= 0 && casts[r.2].value.Stuck? ==> r.0 == 0.0 && r.1 == 0.0
    ensures (exists j :: 0 <= j < |casts| && casts[j] == Some(Stuck)) ==> r.0 == 0.0 && r.1 == 0.0
    ensures forall j :: 0 <= j < |casts| && casts[j].Some? && casts[j].value.Closest? ==> r.0 <= casts[j].value.safe
    decreases |casts|
  {
    CastShapesFrom(casts, 0, 1.0, 1.0, -1)
  }

  /** The loop of step 2 from shape `j` on, with the best so far. */
  function CastShapesFrom(casts: seq<Option<ShapeCast>>, j: nat, safe: real, unsafe: real, best: int): (r: (real, real, int))
    requires j <= |casts|
    requires forall k :: 0 <= k < |casts| && casts[k].Some? && casts[k].value.Closest? ==>
               0.0 <= casts[k].value.safe <= casts[k].value.unsafe <= 1.0
    requires 0.0 <= safe <= unsafe <= 1.0 && -1 <= best < j
    requires best >= 0 <==> safe < 1.0
    requires best >= 0 ==> casts[best].Some? && casts[best].value.Closest?
    requires forall k :: 0 <= k < j && casts[k].Some? && casts[k].value.Closest? ==> safe <= casts[k].value.safe
    requires forall k :: 0 <= k < j ==> casts[k] != Some(Stuck)
    ensures 0.0 <= r.0 <= r.1 <= 1.0
    ensures -1 <= r.2 < |casts|
    ensures r.2 >= 0 <==> r.0 < 1.0
    ensures r.2 >= 0 ==> casts[r.2].Some?
    ensures r.2 >= 0 && casts[r.2].value.Stuck? ==> r.0 == 0.0 && r.1 == 0.0
    ensures (exists k :: j <= k < |casts| && casts[k] == Some(Stuck)) ==> r.0 == 0.0 && r.1 == 0.0
    ensures (forall k :: j <= k < |casts| ==> casts[k] != Some(Stuck)) ==>
              forall k :: 0 <= k < |casts| && casts[k].Some? && casts[k].value.Closest? ==> r.0 <= casts[k].value.safe
    decreases |casts| - j
  {
    if j == |casts| then (safe, unsafe, best)
    else match casts[j]
      case None => CastShapesFrom(casts, j + 1, safe, unsafe, best)
      case Some(Stuck) => (0.0, 0.0, j)
      case Some(Closest(s, u)) =>
        if s == 1.0 then CastShapesFrom(casts, j + 1, safe, unsafe, best)
        else if s < safe then CastShapesFrom(casts, j + 1, s, u, j)
        else CastShapesFrom(casts, j + 1, safe, unsafe, best)
  }

  // ------------------------------------------------------- the whole test

  function Min(a: real, b: real): real { if a < b then a else b }

  /** The contacts reported for the enabled shapes in [first, stop), in shape order. */
  function HitsOfShapes(hitsOf: int -> seq<Contact>, enabled: seq<bool>, first: int, stop: int): (r: seq<Contact>)
    requires 0 <= first <= stop <= |enabled|
    decreases stop - first
  {
    if first == stop then []
    else
      var here := if enabled[first] then hitsOf(first) else [];
      here + HitsOfShapes(hitsOf, enabled, first + 1, stop)
  }

  /** Every contact gathered comes from an enabled shape in the range. */
  lemma {:induction false} HitsOfShapesFrom(hitsOf: int -> seq<Contact>, enabled: seq<bool>, first: int, stop: int, i: int)
    requires 0 <= first <= stop <= |enabled| && 0 <= i < |HitsOfShapes(hitsOf, enabled, first, stop)|
    ensures exists j, k :: first <= j < stop && enabled[j] && 0 <= k < |hitsOf(j)| &&
              HitsOfShapes(hitsOf, enabled, first, stop)[i] == hitsOf(j)[k]
    decreases stop - first
  {
    var here := if enabled[first] then hitsOf(first) else [];
    if i < |here| {
      assert HitsOfShapes(hitsOf, enabled, first, stop)[i] == hitsOf(first)[i];
    } else {
      HitsOfShapesFrom(hitsOf, enabled, first + 1, stop, i - |here|);
      var j, k :| first + 1 <= j < stop && enabled[j] && 0 <= k < |hitsOf(j)| &&
                   HitsOfShapes(hitsOf, enabled, first + 1, stop)[i - |here|] == hitsOf(j)[k];
      assert HitsOfShapes(hitsOf, enabled, first, stop)[i] == hitsOf(j)[k];
    }
  }

  /**
   * The rest callback's starting state: a buffer for further contacts only
   * when more than one collision is asked for.
   */
  function RestStart(maxCollisions: int, minAllowedDepth: real): (rd: RestData)
    requires 0 <= maxCollisions < MAX_COLLISIONS
    ensures RestValid(rd) && rd.resultCount == 0 && rd.best == NoRestResult && rd.localShape == 0
    ensures rd.others.Some? <==> maxCollisions > 1
    ensures rd.others.Some? ==> rd.maxResults == maxCollisions
  {
    if maxCollisions > 1 then
      var buffer := seq(MAX_COLLISIONS, _ => NoRestResult);
      assert |buffer| == MAX_COLLISIONS;
      RestData(0, 0, 0, minAllowedDepth, NoRestResult, maxCollisions, 0, Some(buffer))
    else RestData(0, 0, 0, minAllowedDepth, NoRestResult, 0, 0, None)
  }

  /** What the rest contacts become in the result: the best one first, then the others kept. */
  function Collisions(rd: RestData): (c: seq<RestResult>)
    requires RestValid(rd)
    ensures |c| == rd.resultCount
  {
    if rd.resultCount == 0 then []
    else [rd.best] + (if rd.others.Some? then rd.others.value[..rd.resultCount - 1] else [])
  }

  /**
   * The geometry test_body_motion consults. `enabled` holds one flag per body
   * shape; `casts` the step-2 outcome per shape (None where the shape is
   * disabled or skipped); `hitsOf(j)` the contacts of shape `j` at the
   * unsafe position, each with the object and the object's shape it touches;
   * `motionLength` the motion's length.
   */
  datatype Geometry = Geometry(
    enabled: seq<bool>,
    probe: Vec3 -> Probe,
    casts: seq<Option<ShapeCast>>,
    hitsOf: int -> seq<Contact>,
    motionLength: real)

  predicate GeometryValid(g: Geometry)
  {
    && |g.casts| == |g.enabled|
    && (forall j :: 0 <= j < |g.casts| && g.casts[j].Some? ==> g.enabled[j])
    && (forall j :: 0 <= j < |g.casts| && g.casts[j].Some? && g.casts[j].value.Closest? ==>
          0.0 <= g.casts[j].value.safe <= g.casts[j].value.unsafe <= 1.0)
    && g.motionLength >= 0.0
  }

  /** How far the recovery step moved the body. */
  function RecoveryOffset(p: MotionParams, g: Geometry): Vec3
  {
    Recover(p.from, RECOVER_ATTEMPTS, g.probe).0.Sub(p.from)
  }

  /**
   * test_body_motion. None when the collision limit is out of range (the
   * caller's result is left alone); otherwise whether the body collided and
   * the result it reports.
   */
  function TestBodyMotion(p: MotionParams, g: Geometry): (r: Option<(bool, MotionResult)>)
    requires GeometryValid(g) && p.margin >= 0.0
    ensures r.None? <==> !(0 <= p.maxCollisions < MAX_COLLISIONS)
    ensures r.Some? && (forall j :: 0 <= j < |g.enabled| ==> !g.enabled[j]) ==>
              r.value == (false, EmptyResult.(travel := p.motion))
    ensures r.Some? && r.value.0 ==>
              && r.value.1.collisionCount > 0
              && r.value.1.collisionCount <= (if p.maxCollisions > 1 then p.maxCollisions else 1)
              && |r.value.1.collisions| == r.value.1.collisionCount
              && 0.0 <= r.value.1.safeFraction <= r.value.1.unsafeFraction <= 1.0
              && r.value.1.remainder == p.motion.Sub(p.motion.Scale(r.value.1.safeFraction))
              && r.value.1.travel.Sub(RecoveryOffset(p, g)).Add(r.value.1.remainder) == p.motion
    ensures r.Some? && !r.value.0 ==>
              && r.value.1.remainder == Zero3
              && r.value.1.collisionCount == 0
              && ((exists j :: 0 <= j < |g.enabled| && g.enabled[j]) ==>
                    r.value.1.travel == p.motion.Add(RecoveryOffset(p, g)))
              && ((exists j :: 0 <= j < |g.enabled| && g.enabled[j]) ==>
                    r.value.1.safeFraction == 1.0 && r.value.1.unsafeFraction == 1.0)
  {
    if !(0 <= p.maxCollisions < MAX_COLLISIONS) then None
    else if forall j :: 0 <= j < |g.enabled| ==> !g.enabled[j] then
      Some((false, EmptyResult.(travel := p.motion)))
    else
      var rec := Recover(p.from, RECOVER_ATTEMPTS, g.probe);
      var offset := RecoveryOffset(p, g);
      var cast := CastShapes(g.casts);
      var safe, unsafe := cast.0, cast.1;
      var free := EmptyResult.(travel := p.motion.Add(offset), safeFraction := 1.0, unsafeFraction := 1.0);
      if rec.1 || safe < 1.0 then
        var best := if safe >= 1.0 then -1 else cast.2;
        var first := if best != -1 then best else 0;
        var stop := if best != -1 then best + 1 else |g.enabled|;
        var rd0 := RestStart(p.maxCollisions, Min(g.motionLength, p.margin * MIN_CONTACT_DEPTH_FACTOR));
        var rd := RestFold(rd0, HitsOfShapes(g.hitsOf, g.enabled, first, stop));
        if rd.resultCount > 0 then
          Some((true, MotionResult(p.motion.Scale(safe).Add(offset), p.motion.Sub(p.motion.Scale(safe)),
                                   safe, unsafe, rd.resultCount, Collisions(rd))))
        else Some((false, free))
      else Some((false, free))
  }

  /**
   * The first collision reported is a contact one of the enabled body shapes
   * made, carrying the object and the object's shape it was found against.
   * The body's own shape index is left at 0, as test_body_motion never sets it.
   */
  lemma {:induction false} FirstCollisionNamed(p: MotionParams, g: Geometry)
    requires GeometryValid(g) && p.margin >= 0.0
    ensures var r := TestBodyMotion(p, g);
      r.Some? && r.value.0 ==>
        exists j, k :: 0 <= j < |g.enabled| && g.enabled[j] && 0 <= k < |g.hitsOf(j)| &&
          r.value.1.collisions[0] == ContactResult(0, g.hitsOf(j)[k])
  {
    var r := TestBodyMotion(p, g);
    if r.Some? && r.value.0 {
      var cast := CastShapes(g.casts);
      var best := if cast.0 >= 1.0 then -1 else cast.2;
      var first := if best != -1 then best else 0;
      var stop := if best != -1 then best + 1 else |g.enabled|;
      var rd0 := RestStart(p.maxCollisions, Min(g.motionLength, p.margin * MIN_CONTACT_DEPTH_FACTOR));
      var hs := HitsOfShapes(g.hitsOf, g.enabled, first, stop);
      var rd := RestFold(rd0, hs);
      assert 0 <= first <= stop <= |g.enabled|;
      assert r.value.1.collisions == Collisions(rd);
      RestFoldKeepsDeepest(rd0, hs);
      assert rd.best != rd0.best;
      var i :| 0 <= i < |hs| && rd.best == ContactResult(0, hs[i]);
      HitsOfShapesFrom(g.hitsOf, g.enabled, first, stop, i);
    }
  }
}
