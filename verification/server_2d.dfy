/**
 * The handle façade of the 2D physics server: spaces, areas, bodies and
 * joints live in maps from handles to records. Modelled here are creating a
 * space with its default area, the set of active spaces, moving areas and
 * bodies between spaces, the redirection of a space handle to its default
 * area, joint collision exceptions, the step counters and freeing handles.
 *
 * Handle 0 is the invalid handle; fresh handles come from a counter above
 * every handle in use.
 */
module Server2D {
  import opened Optional
  import opened PhysicsTypes
  import SeqUtil

  const NO_RID: nat := 0

  datatype SpaceRec = SpaceRec(defaultArea: nat, islandCount: int, activeObjects: int, collisionPairs: int)

  /** An area: its space, priority, parameter values and attached instance ids. */
  datatype AreaRec = AreaRec(space: Option<nat>, priority: int, params: map<nat, real>,
                             instanceId: nat, canvasInstanceId: nat, constraints: set<nat>)

  /**
   * A body as the server's table sees it. Body2D models the body itself; here
   * its mode is reduced to whether it is rigid or character (`dynamic`), and
   * its sleeping state to the `active` flag that wakeup raises.
   */
  datatype BodyRec = BodyRec(space: Option<nat>, exceptions: set<nat>, constraints: set<nat>,
                             dynamic: bool, active: bool)

  datatype JointRec = JointRec(bodies: seq<nat>, disabledCollisions: bool)

  datatype Server = Server(
    spaces: map<nat, SpaceRec>,
    areas: map<nat, AreaRec>,
    bodies: map<nat, BodyRec>,
    joints: map<nat, JointRec>,
    activeSpaces: set<nat>,
    active: bool,
    islandCount: int,
    activeObjects: int,
    collisionPairs: int,
    nextRid: nat)

  /** Every handle in use is valid and below the counter, and the kinds do not share handles. */
  predicate Valid(s: Server)
  {
    && s.nextRid > NO_RID
    && (forall h :: h in s.spaces ==> NO_RID < h < s.nextRid)
    && (forall h :: h in s.areas ==> NO_RID < h < s.nextRid)
    && (forall h :: h in s.bodies ==> NO_RID < h < s.nextRid)
    && (forall h :: h in s.joints ==> NO_RID < h < s.nextRid)
    && (forall h :: h in s.spaces ==> h !in s.areas && h !in s.bodies && h !in s.joints)
    && (forall h :: h in s.areas ==> h !in s.bodies && h !in s.joints)
    && (forall h :: h in s.bodies ==> h !in s.joints)
    && s.activeSpaces <= s.spaces.Keys
  }

  // ------------------------------------------------------------- spaces

  /**
   * A new space and its default area, which is placed in the space with
   * priority -1 so that every other area sorts above it.
   */
  function SpaceCreate(s: Server): (r: (Server, nat))
    requires Valid(s)
    ensures Valid(r.0)
    ensures r.1 !in s.spaces && r.1 in r.0.spaces
    ensures var a := r.0.spaces[r.1].defaultArea;
      a !in s.areas && a in r.0.areas && r.0.areas[a].space == Some(r.1) && r.0.areas[a].priority == -1
    ensures r.0.bodies == s.bodies && r.0.joints == s.joints && r.0.activeSpaces == s.activeSpaces
    ensures r.1 !in r.0.activeSpaces
  {
    var sp := s.nextRid;
    var ar := s.nextRid + 1;
    (s.(spaces := s.spaces[sp := SpaceRec(ar, 0, 0, 0)],
        areas := s.areas[ar := AreaRec(Some(sp), -1, map[], 0, 0, {})],
        nextRid := s.nextRid + 2),
     sp)
  }

  /** Turning a space on or off is set insertion or removal; an unknown handle is refused. */
  function SpaceSetActive(s: Server, space: nat, on: bool): (r: Server)
    ensures space !in s.spaces ==> r == s
    ensures space in s.spaces ==> r.activeSpaces == if on then s.activeSpaces + {space} else s.activeSpaces - {space}
    ensures r.(activeSpaces := s.activeSpaces) == s
    ensures Valid(s) ==> Valid(r)
  {
    if space !in s.spaces then s
    else if on then s.(activeSpaces := s.activeSpaces + {space})
    else s.(activeSpaces := s.activeSpaces - {space})
  }

  function SpaceIsActive(s: Server, space: nat): (b: bool)
    ensures b ==> space in s.spaces
  {
    space in s.spaces && space in s.activeSpaces
  }

  /** A space reads back as active exactly when it was last turned on. */
  lemma {:induction false} SpaceActiveReadsBack(s: Server, space: nat, on: bool, other: nat)
    requires space in s.spaces && other != space
    ensures SpaceIsActive(SpaceSetActive(s, space, on), space) == on
    ensures SpaceIsActive(SpaceSetActive(s, space, on), other) == SpaceIsActive(s, other)
  {
  }

  // ------------------------------------------------------- moving objects

  /**
   * The space a handle names: None for the invalid handle, the space for a
   * known space handle, and a failure for any other handle.
   */
  function TargetSpace(s: Server, space: nat): (r: Option<Option<nat>>)
    ensures r.None? <==> space != NO_RID && space !in s.spaces
  {
    if space == NO_RID then Some(None)
    else if space in s.spaces then Some(Some(space))
    else None
  }

  /**
   * Moves an area to a space (or out of every space). Moving it to the space
   * it is in changes nothing; any real move first drops its constraints.
   */
  function AreaSetSpace(s: Server, area: nat, space: nat): (r: Server)
    ensures area !in s.areas || TargetSpace(s, space).None? ==> r == s
    ensures r.areas.Keys == s.areas.Keys
    ensures area in s.areas && TargetSpace(s, space).Some? ==>
              && r.areas[area].space == TargetSpace(s, space).value
              && (s.areas[area].space == TargetSpace(s, space).value ==> r == s)
              && (s.areas[area].space != TargetSpace(s, space).value ==> r.areas[area].constraints == {})
              && r.areas[area].params == s.areas[area].params && r.areas[area].priority == s.areas[area].priority
    ensures r.(areas := s.areas) == s
    ensures forall a :: a in s.areas && a != area ==> r.areas[a] == s.areas[a]
  {
    if area !in s.areas then s
    else match TargetSpace(s, space)
      case None => s
      case Some(target) =>
        var rec := s.areas[area];
        if rec.space == target then s
        else s.(areas := s.areas[area := rec.(space := target, constraints := {})])
  }

  /** The same for a body: a real move first clears the body's constraint list. */
  function BodySetSpace(s: Server, body: nat, space: nat): (r: Server)
    ensures body !in s.bodies || TargetSpace(s, space).None? ==> r == s
    ensures r.bodies.Keys == s.bodies.Keys
    ensures body in s.bodies && TargetSpace(s, space).Some? ==>
              && r.bodies[body].space == TargetSpace(s, space).value
              && (s.bodies[body].space == TargetSpace(s, space).value ==> r == s)
              && (s.bodies[body].space != TargetSpace(s, space).value ==> r.bodies[body].constraints == {})
              && r.bodies[body].exceptions == s.bodies[body].exceptions
    ensures r.(bodies := s.bodies) == s
    ensures forall b :: b in s.bodies && b != body ==> r.bodies[b] == s.bodies[b]
  {
    if body !in s.bodies then s
    else match TargetSpace(s, space)
      case None => s
      case Some(target) =>
        var rec := s.bodies[body];
        if rec.space == target then s
        else s.(bodies := s.bodies[body := rec.(space := target, constraints := {})])
  }

  /** Moving twice to the same space is moving once. */
  lemma {:induction false} SetSpaceIdempotent(s: Server, area: nat, body: nat, space: nat)
    ensures AreaSetSpace(AreaSetSpace(s, area, space), area, space) == AreaSetSpace(s, area, space)
    ensures BodySetSpace(BodySetSpace(s, body, space), body, space) == BodySetSpace(s, body, space)
  {
  }

  // --------------------------------------------- default-area redirection

  /** The area a handle stands for: a space handle means that space's default area. */
  function ResolveArea(s: Server, h: nat): (a: nat)
    ensures h !in s.spaces ==> a == h
    ensures h in s.spaces ==> a == s.spaces[h].defaultArea
  {
    if h in s.spaces then s.spaces[h].defaultArea else h
  }

  function AreaSetParam(s: Server, h: nat, param: nat, v: real): (r: Server)
    ensures ResolveArea(s, h) !in s.areas ==> r == s
    ensures ResolveArea(s, h) in s.areas ==> AreaGetParam(r, h, param) == Some(v)
    ensures r.(areas := s.areas) == s && r.areas.Keys == s.areas.Keys
  {
    var a := ResolveArea(s, h);
    if a !in s.areas then s
    else s.(areas := s.areas[a := s.areas[a].(params := s.areas[a].params[param := v])])
  }

  /** A parameter's value, None for an unknown area or a parameter never set. */
  function AreaGetParam(s: Server, h: nat, param: nat): Option<real>
  {
    var a := ResolveArea(s, h);
    if a in s.areas && param in s.areas[a].params then Some(s.areas[a].params[param]) else None
  }

  function AreaAttachObjectInstanceId(s: Server, h: nat, id: nat): (r: Server)
    ensures ResolveArea(s, h) !in s.areas ==> r == s
    ensures ResolveArea(s, h) in s.areas ==> AreaGetObjectInstanceId(r, h) == id
    ensures r.(areas := s.areas) == s && r.areas.Keys == s.areas.Keys
  {
    var a := ResolveArea(s, h);
    if a !in s.areas then s else s.(areas := s.areas[a := s.areas[a].(instanceId := id)])
  }

  /** The attached instance id, 0 for an unknown area. */
  function AreaGetObjectInstanceId(s: Server, h: nat): nat
  {
    var a := ResolveArea(s, h);
    if a in s.areas then s.areas[a].instanceId else 0
  }

  function AreaAttachCanvasInstanceId(s: Server, h: nat, id: nat): (r: Server)
    ensures ResolveArea(s, h) !in s.areas ==> r == s
    ensures ResolveArea(s, h) in s.areas ==> AreaGetCanvasInstanceId(r, h) == id
    ensures r.(areas := s.areas) == s && r.areas.Keys == s.areas.Keys
  {
    var a := ResolveArea(s, h);
    if a !in s.areas then s else s.(areas := s.areas[a := s.areas[a].(canvasInstanceId := id)])
  }

  function AreaGetCanvasInstanceId(s: Server, h: nat): nat
  {
    var a := ResolveArea(s, h);
    if a in s.areas then s.areas[a].canvasInstanceId else 0
  }

  /**
   * A call through a space handle is the same call through its default
   * area's handle, and it touches no other area.
   */
  lemma {:induction false} SpaceHandleActsOnDefaultArea(s: Server, space: nat, param: nat, v: real, other: nat)
    requires Valid(s) && space in s.spaces && s.spaces[space].defaultArea in s.areas
    requires other in s.areas && other != s.spaces[space].defaultArea
    ensures AreaSetParam(s, space, param, v) == AreaSetParam(s, s.spaces[space].defaultArea, param, v)
    ensures AreaGetParam(AreaSetParam(s, space, param, v), s.spaces[space].defaultArea, param) == Some(v)
    ensures AreaSetParam(s, space, param, v).areas[other] == s.areas[other]
  {
    assert s.spaces[space].defaultArea !in s.spaces;
  }

  // ---------------------------------------------------------------- joints

  /** wakeup: a body in a space that is neither static nor kinematic becomes active. */
  function Wake(rec: BodyRec): (r: BodyRec)
    ensures r.active <==> rec.active || (rec.space.Some? && rec.dynamic)
    ensures r == rec.(active := r.active)
  {
    if rec.space.Some? && rec.dynamic then rec.(active := true) else rec
  }

  /** The other handle joins the body's exceptions and the body is woken; an unknown body is ignored. */
  function AddException(s: Server, body: nat, other: nat): (r: Server)
    ensures body !in s.bodies ==> r == s
    ensures body in s.bodies ==>
              && body in r.bodies && r.bodies == s.bodies[body := r.bodies[body]]
              && r.bodies[body].exceptions == s.bodies[body].exceptions + {other}
              && r.bodies[body] == Wake(s.bodies[body]).(exceptions := r.bodies[body].exceptions)
    ensures r.(bodies := s.bodies) == s
  {
    if body !in s.bodies then s
    else s.(bodies := s.bodies[body := Wake(s.bodies[body]).(exceptions := s.bodies[body].exceptions + {other})])
  }

  /** The other handle leaves the body's exceptions and the body is woken; an unknown body is ignored. */
  function RemoveException(s: Server, body: nat, other: nat): (r: Server)
    ensures body !in s.bodies ==> r == s
    ensures body in s.bodies ==>
              && body in r.bodies && r.bodies == s.bodies[body := r.bodies[body]]
              && r.bodies[body].exceptions == s.bodies[body].exceptions - {other}
              && r.bodies[body] == Wake(s.bodies[body]).(exceptions := r.bodies[body].exceptions)
    ensures r.(bodies := s.bodies) == s
  {
    if body !in s.bodies then s
    else s.(bodies := s.bodies[body := Wake(s.bodies[body]).(exceptions := s.bodies[body].exceptions - {other})])
  }

  /**
   * Records whether a joint disables collisions between its bodies and, for
   * a two-body joint, adds or removes the exception in both bodies.
   */
  function JointDisableCollisions(s: Server, joint: nat, disable: bool): (r: Server)
    ensures joint !in s.joints ==> r == s
    ensures r.bodies.Keys == s.bodies.Keys
    ensures joint in s.joints ==> r.joints == s.joints[joint := s.joints[joint].(disabledCollisions := disable)]
    ensures joint in s.joints && |s.joints[joint].bodies| == 2 ==>
              var a, b := s.joints[joint].bodies[0], s.joints[joint].bodies[1];
              a in s.bodies && b in s.bodies ==>
                && (b in r.bodies[a].exceptions <==> disable) && (a in r.bodies[b].exceptions <==> disable)
                && r.bodies[a].active == Wake(s.bodies[a]).active && r.bodies[b].active == Wake(s.bodies[b]).active
    ensures joint in s.joints && |s.joints[joint].bodies| != 2 ==> r.bodies == s.bodies
    ensures r.(bodies := s.bodies, joints := s.joints) == s
  {
    if joint !in s.joints then s
    else
      var j := s.joints[joint];
      var s1 := s.(joints := s.joints[joint := j.(disabledCollisions := disable)]);
      if |j.bodies| != 2 then s1
      else if disable then AddException(AddException(s1, j.bodies[0], j.bodies[1]), j.bodies[1], j.bodies[0])
      else RemoveException(RemoveException(s1, j.bodies[0], j.bodies[1]), j.bodies[1], j.bodies[0])
  }

  /**
   * Disabling and then enabling a joint's collisions restores the exceptions
   * of bodies that had none for each other; the only lasting change is that
   * both bodies were woken.
   */
  lemma {:induction false} JointDisableThenEnable(s: Server, joint: nat)
    requires joint in s.joints && |s.joints[joint].bodies| == 2
    requires var a, b := s.joints[joint].bodies[0], s.joints[joint].bodies[1];
      a != b && a in s.bodies && b in s.bodies && b !in s.bodies[a].exceptions && a !in s.bodies[b].exceptions
    ensures var a, b := s.joints[joint].bodies[0], s.joints[joint].bodies[1];
      JointDisableCollisions(JointDisableCollisions(s, joint, true), joint, false).bodies
        == s.bodies[a := Wake(s.bodies[a])][b := Wake(s.bodies[b])]
  {
    var a, b := s.joints[joint].bodies[0], s.joints[joint].bodies[1];
    var r := JointDisableCollisions(JointDisableCollisions(s, joint, true), joint, false);
    assert r.bodies[a].exceptions == s.bodies[a].exceptions;
    assert r.bodies[b].exceptions == s.bodies[b].exceptions;
    assert r.bodies[a] == Wake(s.bodies[a]);
    assert r.bodies[b] == Wake(s.bodies[b]);
  }

  // ------------------------------------------------------------------ step

  datatype Counts = Counts(islands: int, activeObjects: int, pairs: int)
  {
    function Plus(o: Counts): Counts { Counts(islands + o.islands, activeObjects + o.activeObjects, pairs + o.pairs) }
  }

  /** The sum of the counts over a sequence of spaces. */
  function SumCounts(order: seq<nat>, counts: nat -> Counts): Counts
    decreases |order|
  {
    if |order| == 0 then Counts(0, 0, 0)
    else SumCounts(order[..|order| - 1], counts).Plus(counts(order[|order| - 1]))
  }

  lemma {:induction false} SumCountsAppend(a: seq<nat>, b: seq<nat>, counts: nat -> Counts)
    ensures SumCounts(a + b, counts) == SumCounts(a, counts).Plus(SumCounts(b, counts))
    decreases |b|
  {
    if |b| > 0 {
      assert (a + b)[..|a + b| - 1] == a + b[..|b| - 1];
      SumCountsAppend(a, b[..|b| - 1], counts);
    } else {
      assert a + b == a;
    }
  }

  /** Summing in any order gives the same totals. */
  lemma {:induction false} SumCountsPermutation(a: seq<nat>, b: seq<nat>, counts: nat -> Counts)
    requires multiset(a) == multiset(b)
    ensures SumCounts(a, counts) == SumCounts(b, counts)
    decreases |a|
  {
    if |a| > 0 {
      var x := a[|a| - 1];
      assert x in multiset(b);
      var i :| 0 <= i < |b| && b[i] == x;
      var rest := b[..i] + b[i + 1..];
      assert b == b[..i] + [x] + b[i + 1..];
      assert a == a[..|a| - 1] + [x];
      assert multiset(a) == multiset(a[..|a| - 1]) + multiset{x};
      assert multiset(b) == multiset(b[..i]) + multiset{x} + multiset(b[i + 1..]);
      assert multiset(rest) == multiset(b[..i]) + multiset(b[i + 1..]);
      assert multiset(a[..|a| - 1]) == multiset(a) - multiset{x};
      assert multiset(rest) == multiset(b) - multiset{x};
      SumCountsPermutation(a[..|a| - 1], rest, counts);
      SumCountsAppend(b[..i] + [x], b[i + 1..], counts);
      SumCountsAppend(b[..i], [x], counts);
      SumCountsAppend(b[..i], b[i + 1..], counts);
      assert SumCounts([x], counts) == Counts(0, 0, 0).Plus(counts(x));
    } else {
      assert b == [];
    }
  }

  /**
   * One server step. Nothing happens while the server is inactive.
   * Otherwise every active space is stepped (the stepper gives each its new
   * counts) and the server's counters become the sums over those spaces.
   * `order` is the order the active set is walked in.
   */
  function Step(s: Server, stepped: nat -> Counts, order: seq<nat>): (r: Server)
    requires SeqUtil.Distinct(order) && (forall i :: 0 <= i < |order| ==> order[i] in s.activeSpaces)
    requires forall h :: h in s.activeSpaces ==> h in order
    requires s.activeSpaces <= s.spaces.Keys
    ensures !s.active ==> r == s
    ensures r.spaces.Keys == s.spaces.Keys
    ensures s.active ==>
              Counts(r.islandCount, r.activeObjects, r.collisionPairs) == SumCounts(order, stepped)
    ensures s.active ==> forall h :: h in s.activeSpaces ==>
              Counts(r.spaces[h].islandCount, r.spaces[h].activeObjects, r.spaces[h].collisionPairs) == stepped(h)
    ensures forall h :: h in s.spaces && h !in s.activeSpaces ==> r.spaces[h] == s.spaces[h]
    ensures r.(spaces := s.spaces, islandCount := s.islandCount, activeObjects := s.activeObjects,
               collisionPairs := s.collisionPairs) == s
  {
    if !s.active then s
    else
      var total := SumCounts(order, stepped);
      var spaces' := map h | h in s.spaces ::
        if h in s.activeSpaces then
          s.spaces[h].(islandCount := stepped(h).islands, activeObjects := stepped(h).activeObjects,
                       collisionPairs := stepped(h).pairs)
        else s.spaces[h];
      s.(spaces := spaces', islandCount := total.islands, activeObjects := total.activeObjects,
         collisionPairs := total.pairs)
  }

  /** The step's totals do not depend on the order the active set is walked in. */
  lemma {:induction false} StepOrderIrrelevant(s: Server, stepped: nat -> Counts, o1: seq<nat>, o2: seq<nat>)
    requires SeqUtil.Distinct(o1) && (forall i :: 0 <= i < |o1| ==> o1[i] in s.activeSpaces)
    requires forall h :: h in s.activeSpaces ==> h in o1
    requires SeqUtil.Distinct(o2) && (forall i :: 0 <= i < |o2| ==> o2[i] in s.activeSpaces)
    requires forall h :: h in s.activeSpaces ==> h in o2
    requires s.activeSpaces <= s.spaces.Keys
    ensures Step(s, stepped, o1) == Step(s, stepped, o2)
  {
    DistinctSameElements(o1, o2);
    SumCountsPermutation(o1, o2, stepped);
  }

  /** Two duplicate-free sequences with the same elements are permutations of each other. */
  lemma {:induction false} DistinctSameElements(a: seq<nat>, b: seq<nat>)
    requires SeqUtil.Distinct(a) && SeqUtil.Distinct(b)
    requires forall x :: x in a <==> x in b
    ensures multiset(a) == multiset(b)
  {
    forall y
      ensures multiset(a)[y] == multiset(b)[y]
    {
      DistinctMultiplicity(a, y);
      DistinctMultiplicity(b, y);
    }
  }

  /** In a duplicate-free sequence every element occurs once. */
  lemma {:induction false} DistinctMultiplicity(a: seq<nat>, y: nat)
    requires SeqUtil.Distinct(a)
    ensures multiset(a)[y] == if y in a then 1 else 0
    decreases |a|
  {
    if |a| > 0 {
      var p := a[..|a| - 1];
      assert a == p + [a[|a| - 1]];
      assert SeqUtil.Distinct(p) by {
        forall i, j | 0 <= i < j < |p|
          ensures p[i] != p[j]
        {
          assert p[i] == a[i] && p[j] == a[j];
        }
      }
      DistinctMultiplicity(p, y);
    }
  }

  datatype ProcessInfo = InfoActiveObjects | InfoCollisionPairs | InfoIslandCount

  function GetProcessInfo(s: Server, info: ProcessInfo): int
  {
    match info
    case InfoActiveObjects => s.activeObjects
    case InfoCollisionPairs => s.collisionPairs
    case InfoIslandCount => s.islandCount
  }

  /** After an active step the reported figures are the sums over the active spaces. */
  lemma {:induction false} ProcessInfoAfterStep(s: Server, stepped: nat -> Counts, order: seq<nat>)
    requires SeqUtil.Distinct(order) && (forall i :: 0 <= i < |order| ==> order[i] in s.activeSpaces)
    requires forall h :: h in s.activeSpaces ==> h in order
    requires s.activeSpaces <= s.spaces.Keys && s.active
    ensures GetProcessInfo(Step(s, stepped, order), InfoIslandCount) == SumCounts(order, stepped).islands
    ensures GetProcessInfo(Step(s, stepped, order), InfoActiveObjects) == SumCounts(order, stepped).activeObjects
    ensures GetProcessInfo(Step(s, stepped, order), InfoCollisionPairs) == SumCounts(order, stepped).pairs
  {
  }

  // ------------------------------------------------------------------ free

  /** Freeing a space: its bodies and areas leave it, its default area goes, and it is no longer active. */
  function FreeSpace(s: Server, h: nat): (r: Server)
    requires h in s.spaces
    ensures r.spaces == s.spaces - {h} && r.joints == s.joints && r.activeSpaces == s.activeSpaces - {h}
    ensures r.bodies.Keys == s.bodies.Keys && r.areas.Keys == s.areas.Keys - {s.spaces[h].defaultArea}
    ensures forall b :: b in s.bodies ==>
              r.bodies[b] == if s.bodies[b].space == Some(h) then s.bodies[b].(space := None) else s.bodies[b]
    ensures forall a :: a in r.areas ==>
              r.areas[a] == if s.areas[a].space == Some(h) then s.areas[a].(space := None) else s.areas[a]
    ensures r.(spaces := s.spaces, areas := s.areas, bodies := s.bodies, activeSpaces := s.activeSpaces) == s
  {
    var bodies' := map b | b in s.bodies :: if s.bodies[b].space == Some(h) then s.bodies[b].(space := None) else s.bodies[b];
    var areas' := map a | a in s.areas :: if s.areas[a].space == Some(h) then s.areas[a].(space := None) else s.areas[a];
    var da := s.spaces[h].defaultArea;
    s.(bodies := bodies', areas := areas' - {da}, spaces := s.spaces - {h}, activeSpaces := s.activeSpaces - {h})
  }

  /**
   * Frees a handle. A body first leaves its space (dropping its constraints)
   * and an area is taken out of its space; a space first takes every object
   * out of itself, is deactivated and frees its default area; a joint just
   * goes. An unknown handle is refused. Shapes are not part of this model.
   */
  function Free(s: Server, h: nat): (r: Server)
    requires Valid(s)
    ensures Valid(r)
    ensures h !in s.bodies && h !in s.areas && h !in s.spaces && h !in s.joints ==> r == s
    ensures h !in r.bodies && h !in r.areas && h !in r.spaces && h !in r.joints
    ensures r.(spaces := s.spaces, areas := s.areas, bodies := s.bodies, joints := s.joints, activeSpaces := s.activeSpaces) == s
    ensures h in s.bodies ==>
              && r.bodies == s.bodies - {h} && r.areas == s.areas && r.spaces == s.spaces
              && r.joints == s.joints && r.activeSpaces == s.activeSpaces
    ensures h in s.joints ==>
              && r.joints == s.joints - {h} && r.bodies == s.bodies
              && r.areas == s.areas && r.spaces == s.spaces && r.activeSpaces == s.activeSpaces
    ensures h in s.spaces ==>
              && r.spaces == s.spaces - {h} && r.joints == s.joints
              && r.activeSpaces == s.activeSpaces - {h}
              && s.spaces[h].defaultArea !in r.areas
              && (forall b :: b in r.bodies ==> r.bodies[b].space != Some(h))
              && (forall a :: a in r.areas ==> r.areas[a].space != Some(h))
              && r.bodies.Keys == s.bodies.Keys
              && r.areas.Keys == s.areas.Keys - {s.spaces[h].defaultArea}
              && (forall b :: b in s.bodies ==>
                    r.bodies[b] == if s.bodies[b].space == Some(h) then s.bodies[b].(space := None) else s.bodies[b])
              && (forall a :: a in r.areas ==>
                    r.areas[a] == if s.areas[a].space == Some(h) then s.areas[a].(space := None) else s.areas[a])
    ensures h in s.areas ==>
              && r.areas == s.areas - {h} && r.bodies == s.bodies
              && r.spaces == s.spaces && r.joints == s.joints && r.activeSpaces == s.activeSpaces
  {
    if h in s.bodies then
      var s1 := BodySetSpace(s, h, NO_RID);
      s1.(bodies := s1.bodies - {h})
    else if h in s.areas then
      s.(areas := s.areas - {h})
    else if h in s.spaces then FreeSpace(s, h)
    else if h in s.joints then
      s.(joints := s.joints - {h})
    else s
  }

  /** A freshly created space can be freed again, leaving the other objects' records as they were. */
  lemma {:induction false} CreateThenFreeSpace(s: Server)
    requires Valid(s)
    requires forall b :: b in s.bodies ==> s.bodies[b].space == None || s.bodies[b].space.value in s.spaces
    requires forall a :: a in s.areas ==> s.areas[a].space == None || s.areas[a].space.value in s.spaces
    ensures var c := SpaceCreate(s);
      var f := Free(c.0, c.1);
      f.spaces == s.spaces && f.areas == s.areas && f.bodies == s.bodies && f.activeSpaces == s.activeSpaces
  {
    var c := SpaceCreate(s);
    FreeNewSpaceObjects(s, c.0, c.1);
  }

  /** The records freeing the new space touches are the new space's own. */
  lemma {:induction false} FreeNewSpaceObjects(s: Server, c: Server, h: nat)
    requires Valid(s) && (c, h) == SpaceCreate(s)
    requires forall b :: b in s.bodies ==> s.bodies[b].space == None || s.bodies[b].space.value in s.spaces
    requires forall a :: a in s.areas ==> s.areas[a].space == None || s.areas[a].space.value in s.spaces
    ensures var f := Free(c, h);
      f.spaces == s.spaces && f.areas == s.areas && f.bodies == s.bodies && f.activeSpaces == s.activeSpaces
  {
    NewSpaceFacts(s, c, h);
    FreeOfAddedSpace(s, c, h);
  }

  /** Freeing a space that was added to `s`, with nothing of `s` in it, gives back the records of `s`. */
  lemma {:induction false} FreeOfAddedSpace(s: Server, c: Server, h: nat)
    requires h in c.spaces && h !in s.spaces && c.spaces == s.spaces[h := c.spaces[h]]
    requires c.bodies == s.bodies && c.activeSpaces == s.activeSpaces
    requires var da := c.spaces[h].defaultArea; da in c.areas && da !in s.areas && c.areas == s.areas[da := c.areas[da]]
    requires h !in s.activeSpaces
    requires forall b :: b in s.bodies ==> s.bodies[b].space == None || s.bodies[b].space.value in s.spaces
    requires forall a :: a in s.areas ==> s.areas[a].space == None || s.areas[a].space.value in s.spaces
    ensures var f := FreeSpace(c, h);
      f.spaces == s.spaces && f.areas == s.areas && f.bodies == s.bodies && f.activeSpaces == s.activeSpaces
  {
    var da := c.spaces[h].defaultArea;
    var f := FreeSpace(c, h);
    assert f.bodies == s.bodies by {
      assert forall b :: b in c.bodies ==> c.bodies[b].space != Some(h);
      FreeSpaceBodies(c, h);
    }
    assert f.areas == s.areas by {
      assert forall a :: a in c.areas && a != da ==> c.areas[a].space != Some(h);
      FreeSpaceAreas(c, h);
      RemoveAdded(s.areas, da, c.areas[da]);
    }
    assert f.spaces == s.spaces by {
      RemoveAdded(s.spaces, h, c.spaces[h]);
    }
  }

  /** Taking away a key that was just added gives back the map it was added to. */
  lemma {:induction false} RemoveAdded<K, V>(m: map<K, V>, k: K, v: V)
    requires k !in m
    ensures m[k := v] - {k} == m
  {
  }

  /** Freeing a space no body is in leaves the bodies as they were. */
  lemma {:induction false} FreeSpaceBodies(c: Server, h: nat)
    requires h in c.spaces
    requires forall b :: b in c.bodies ==> c.bodies[b].space != Some(h)
    ensures FreeSpace(c, h).bodies == c.bodies
  {
    var f := FreeSpace(c, h);
    assert forall b :: b in c.bodies ==> f.bodies[b] == c.bodies[b];
  }

  /** Freeing a space that only its default area is in takes that area away and leaves the rest. */
  lemma {:induction false} FreeSpaceAreas(c: Server, h: nat)
    requires h in c.spaces
    requires forall a :: a in c.areas && a != c.spaces[h].defaultArea ==> c.areas[a].space != Some(h)
    ensures FreeSpace(c, h).areas == c.areas - {c.spaces[h].defaultArea}
  {
    var f := FreeSpace(c, h);
    var da := c.spaces[h].defaultArea;
    assert forall a :: a in c.areas - {da} ==> f.areas[a] == c.areas[a];
  }

  /** What creating a space adds: the space and its default area, both under fresh handles. */
  lemma {:induction false} NewSpaceFacts(s: Server, c: Server, h: nat)
    requires Valid(s) && (c, h) == SpaceCreate(s)
    ensures h !in s.spaces && h !in s.bodies && h !in s.areas && h !in s.joints && h in c.spaces
    ensures c.spaces[h].defaultArea !in s.areas && c.spaces[h].defaultArea in c.areas && h !in s.activeSpaces
    ensures c.spaces == s.spaces[h := c.spaces[h]] && c.activeSpaces == s.activeSpaces && c.bodies == s.bodies
    ensures c.areas == s.areas[c.spaces[h].defaultArea := c.areas[c.spaces[h].defaultArea]]
    ensures Free(c, h) == FreeSpace(c, h)
  {
  }
}
