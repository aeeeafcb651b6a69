/**
 * Area pairs: the constraints the broadphase creates between an area and a
 * body (2D and 3D), an area and a soft body (3D), and two areas (2D and 3D).
 * Each step the pair re-tests the overlap; when it changes, the pair tells the
 * body to start or stop applying the area's gravity and damping, and tells
 * the area to report an enter or exit to its monitor. The 2D and 3D pairs
 * behave identically, so one model covers both.
 *
 * A pair's calls into the linked objects are returned as a list of effects.
 */
module AreaPairs {
  import opened PhysicsTypes

  /** The area settings the pairs consult. */
  datatype AreaSettings = AreaSettings(
    overrideMode: OverrideMode,
    monitorCallback: bool,
    areaMonitorCallback: bool,
    monitorable: bool)

  datatype Side = SideA | SideB

  /** Calls a pair makes into the objects it links. */
  datatype Effect =
    | AddArea                          // the body (or soft body) starts applying the area
    | RemoveArea
    | AddToQuery                       // the area queues an enter report for the body
    | RemoveFromQuery                  // the area queues an exit report for the body
    | AddAreaToQuery(side: Side)       // area `side` queues an enter report for the other area
    | RemoveAreaFromQuery(side: Side)
    | AddConstraint                    // the pair registers with both objects
    | RemoveConstraint
    | Activate                         // the body is woken up

  /** What the area is paired with. */
  datatype Other = RigidBody(mode: BodyMode) | SoftBody

  /** Area/body and area/soft-body pair state. */
  datatype AreaPair = AreaPair(colliding: bool, processCollision: bool)

  /** Does the pair report anything to the body or the area on a change of overlap? */
  predicate Reacts(a: AreaSettings)
  {
    a.overrideMode != Disabled || a.monitorCallback
  }

  // ---------------------------------------------------------------------
  // Counting and tracking effects

  function Count(es: seq<Effect>, e: Effect): (n: nat)
    ensures n <= |es|
  {
    if |es| == 0 then 0 else (if es[0] == e then 1 else 0) + Count(es[1..], e)
  }

  /** The effects of `es` that are `add` or `remove`, in order. */
  function Only(es: seq<Effect>, add: Effect, remove: Effect): (r: seq<Effect>)
    ensures forall k :: 0 <= k < |r| ==> r[k] == add || r[k] == remove
  {
    if |es| == 0 then []
    else (if es[0] == add || es[0] == remove then [es[0]] else []) + Only(es[1..], add, remove)
  }

  /**
   * `s` alternates `add` and `remove` as a switch would: starting switched on
   * or off as `from` says, each `add` switches on, each `remove` switches off,
   * and the switch ends as `to` says.
   */
  predicate Alternates(s: seq<Effect>, add: Effect, remove: Effect, from: bool, to: bool)
  {
    if |s| == 0 then from == to
    else s[0] == (if from then remove else add) && Alternates(s[1..], add, remove, !from, to)
  }

  lemma {:induction false} OnlyConcat(a: seq<Effect>, b: seq<Effect>, add: Effect, remove: Effect)
    ensures Only(a + b, add, remove) == Only(a, add, remove) + Only(b, add, remove)
  {
    if |a| > 0 {
      assert (a + b)[1..] == a[1..] + b;
      OnlyConcat(a[1..], b, add, remove);
    } else {
      assert a + b == b;
    }
  }

  lemma {:induction false} AlternatesConcat(s: seq<Effect>, t: seq<Effect>, add: Effect, remove: Effect, x: bool, y: bool, z: bool)
    requires Alternates(s, add, remove, x, y) && Alternates(t, add, remove, y, z)
    ensures Alternates(s + t, add, remove, x, z)
  {
    if |s| > 0 {
      assert (s + t)[1..] == s[1..] + t;
      AlternatesConcat(s[1..], t, add, remove, !x, y, z);
    } else {
      assert s + t == t;
    }
  }

  /** A switch that ends where it started was switched on as often as off. */
  lemma {:induction false} AlternatesBalanced(s: seq<Effect>, add: Effect, remove: Effect, x: bool, y: bool)
    requires add != remove
    requires Alternates(s, add, remove, x, y)
    ensures Count(s, add) + (if x then 1 else 0) == Count(s, remove) + (if y then 1 else 0)
  {
    if |s| > 0 {
      AlternatesBalanced(s[1..], add, remove, !x, y);
    }
  }

  /** The call `e` when `cond` holds, nothing otherwise. */
  function Call(cond: bool, e: Effect): (r: seq<Effect>)
    ensures e in r <==> cond
    ensures forall x :: x in r ==> x == e
    ensures |r| <= 1
  {
    if cond then [e] else []
  }

  lemma {:induction false} OnlyCall(cond: bool, e: Effect, add: Effect, remove: Effect)
    ensures Only(Call(cond, e), add, remove) == if e == add || e == remove then Call(cond, e) else []
  {
    if cond {
      assert Call(cond, e)[1..] == [];
    }
  }

  lemma {:induction false} OnlyCalls(c1: bool, e1: Effect, c2: bool, e2: Effect, add: Effect, remove: Effect)
    ensures Only(Call(c1, e1) + Call(c2, e2), add, remove)
         == (if e1 == add || e1 == remove then Call(c1, e1) else [])
          + (if e2 == add || e2 == remove then Call(c2, e2) else [])
  {
    OnlyConcat(Call(c1, e1), Call(c2, e2), add, remove);
    OnlyCall(c1, e1, add, remove);
    OnlyCall(c2, e2, add, remove);
  }

  /** Only the first two groups of a destructor's calls can be `add` or `remove`. */
  lemma {:induction false} OnlyDestroyCalls(c1: bool, e1: Effect, c2: bool, e2: Effect, add: Effect, remove: Effect)
    requires add != RemoveConstraint && remove != RemoveConstraint
    ensures Only(Call(c1, e1) + Call(c2, e2) + [RemoveConstraint], add, remove)
         == (if e1 == add || e1 == remove then Call(c1, e1) else [])
          + (if e2 == add || e2 == remove then Call(c2, e2) else [])
  {
    OnlyConcat(Call(c1, e1) + Call(c2, e2), [RemoveConstraint], add, remove);
    OnlyCalls(c1, e1, c2, e2, add, remove);
    OnlyOfAbsent([RemoveConstraint], add, remove);
  }

  // ---------------------------------------------------------------------
  // Area / body and area / soft body pairs

  /** Construction: the pair registers with both objects; a kinematic body is woken so the pair gets processed. */
  function NewAreaPair(other: Other): (r: (AreaPair, seq<Effect>))
    ensures !r.0.colliding && !r.0.processCollision
    ensures AddConstraint in r.1
    ensures Activate in r.1 <==> other == RigidBody(Kinematic)
    ensures forall e :: e in r.1 ==> e == AddConstraint || e == Activate
  {
    (AreaPair(false, false),
     [AddConstraint] + (if other == RigidBody(Kinematic) then [Activate] else []))
  }

  /**
   * setup: `collides` is the layer/mask test, `overlap` the shape solver's
   * verdict. The pair is processed only when the overlap changed and the
   * area overrides the space or has a monitor; the overlap is recorded in
   * any case.
   */
  function Setup(p: AreaPair, a: AreaSettings, collides: bool, overlap: bool): (r: (AreaPair, bool))
    ensures r.0.colliding == (collides && overlap)
    ensures r.1 == r.0.processCollision
    ensures r.0.processCollision <==> (collides && overlap) != p.colliding && Reacts(a)
  {
    var result := collides && overlap;
    var process := result != p.colliding && (a.overrideMode != Disabled || a.monitorCallback);
    (AreaPair(result, process), process)
  }

  /**
   * pre_solve: on a processed change, an enter adds the area to the body and
   * the body to the area's monitor query, an exit removes both; each only when
   * the area has the matching setting. Never asks for a solve step.
   */
  function PreSolve(p: AreaPair, a: AreaSettings): (r: (seq<Effect>, bool))
    ensures !r.1
    ensures AddArea in r.0 <==> p.processCollision && p.colliding && a.overrideMode != Disabled
    ensures RemoveArea in r.0 <==> p.processCollision && !p.colliding && a.overrideMode != Disabled
    ensures AddToQuery in r.0 <==> p.processCollision && p.colliding && a.monitorCallback
    ensures RemoveFromQuery in r.0 <==> p.processCollision && !p.colliding && a.monitorCallback
    ensures forall e :: e in r.0 ==> e in {AddArea, RemoveArea, AddToQuery, RemoveFromQuery}
    ensures |r.0| <= 2
  {
    var overrides := a.overrideMode != Disabled;
    (Call(p.processCollision && overrides, if p.colliding then AddArea else RemoveArea)
     + Call(p.processCollision && a.monitorCallback, if p.colliding then AddToQuery else RemoveFromQuery),
     false)
  }

  /** One simulation step of a pair: setup followed by pre_solve. */
  function Step(p: AreaPair, a: AreaSettings, collides: bool, overlap: bool): (r: (AreaPair, seq<Effect>))
  {
    var (q, _) := Setup(p, a, collides, overlap);
    (q, PreSolve(q, a).0)
  }

  /** Destruction: a pair still overlapping retracts what it registered, then unregisters. */
  function Destroy(p: AreaPair, a: AreaSettings): (es: seq<Effect>)
    ensures RemoveArea in es <==> p.colliding && a.overrideMode != Disabled
    ensures RemoveFromQuery in es <==> p.colliding && a.monitorCallback
    ensures RemoveConstraint in es && AddArea !in es && AddToQuery !in es
  {
    Call(p.colliding && a.overrideMode != Disabled, RemoveArea)
    + Call(p.colliding && a.monitorCallback, RemoveFromQuery)
    + [RemoveConstraint]
  }

  /** Successive steps; each element of `tests` is (layer/mask test, solver verdict). */
  function Run(p: AreaPair, a: AreaSettings, tests: seq<(bool, bool)>): (r: (AreaPair, seq<Effect>))
    decreases |tests|
  {
    if |tests| == 0 then (p, [])
    else
      var (q, e1) := Step(p, a, tests[0].0, tests[0].1);
      var (q2, e2) := Run(q, a, tests[1..]);
      (q2, e1 + e2)
  }

  /**
   * Within a step, the area is added to the body exactly when the pair
   * starts overlapping and removed exactly when it stops.
   */
  lemma {:induction false} StepAlternates(p: AreaPair, a: AreaSettings, collides: bool, overlap: bool)
    ensures var (q, es) := Step(p, a, collides, overlap);
      && (a.overrideMode != Disabled ==> Alternates(Only(es, AddArea, RemoveArea), AddArea, RemoveArea, p.colliding, q.colliding))
      && (a.monitorCallback ==> Alternates(Only(es, AddToQuery, RemoveFromQuery), AddToQuery, RemoveFromQuery, p.colliding, q.colliding))
  {
    var (q, _) := Setup(p, a, collides, overlap);
    var overrides := a.overrideMode != Disabled;
    var ea := if q.colliding then AddArea else RemoveArea;
    var eq := if q.colliding then AddToQuery else RemoveFromQuery;
    OnlyCalls(q.processCollision && overrides, ea, q.processCollision && a.monitorCallback, eq, AddArea, RemoveArea);
    OnlyCalls(q.processCollision && overrides, ea, q.processCollision && a.monitorCallback, eq, AddToQuery, RemoveFromQuery);
  }

  lemma {:induction false} RunAlternates(p: AreaPair, a: AreaSettings, tests: seq<(bool, bool)>)
    decreases |tests|
    ensures var (q, es) := Run(p, a, tests);
      && (a.overrideMode != Disabled ==> Alternates(Only(es, AddArea, RemoveArea), AddArea, RemoveArea, p.colliding, q.colliding))
      && (a.monitorCallback ==> Alternates(Only(es, AddToQuery, RemoveFromQuery), AddToQuery, RemoveFromQuery, p.colliding, q.colliding))
  {
    if |tests| > 0 {
      var (q1, e1) := Step(p, a, tests[0].0, tests[0].1);
      var (q2, e2) := Run(q1, a, tests[1..]);
      StepAlternates(p, a, tests[0].0, tests[0].1);
      RunAlternates(q1, a, tests[1..]);
      OnlyConcat(e1, e2, AddArea, RemoveArea);
      OnlyConcat(e1, e2, AddToQuery, RemoveFromQuery);
      if a.overrideMode != Disabled {
        AlternatesConcat(Only(e1, AddArea, RemoveArea), Only(e2, AddArea, RemoveArea), AddArea, RemoveArea, p.colliding, q1.colliding, q2.colliding);
      }
      if a.monitorCallback {
        AlternatesConcat(Only(e1, AddToQuery, RemoveFromQuery), Only(e2, AddToQuery, RemoveFromQuery), AddToQuery, RemoveFromQuery, p.colliding, q1.colliding, q2.colliding);
      }
    }
  }

  /** Everything a pair does from construction to destruction, under fixed area settings. */
  function Lifetime(other: Other, a: AreaSettings, tests: seq<(bool, bool)>): seq<Effect>
  {
    var start := NewAreaPair(other);
    var run := Run(start.0, a, tests);
    start.1 + run.1 + Destroy(run.0, a)
  }

  /**
   * Over a pair's whole life the body never gets the area twice without a
   * removal in between, and every addition is matched by one removal; the
   * same holds for the area's monitor reports.
   */
  lemma {:induction false} LifetimeBalanced(other: Other, a: AreaSettings, tests: seq<(bool, bool)>)
    ensures var es := Lifetime(other, a, tests);
      && Alternates(Only(es, AddArea, RemoveArea), AddArea, RemoveArea, false, false)
      && Alternates(Only(es, AddToQuery, RemoveFromQuery), AddToQuery, RemoveFromQuery, false, false)
      && Count(es, AddArea) == Count(es, RemoveArea)
      && Count(es, AddToQuery) == Count(es, RemoveFromQuery)
  {
    AreaTrackBalanced(other, a, tests);
    QueryTrackBalanced(other, a, tests);
  }

  /** The body's add/remove-area track of LifetimeBalanced. */
  lemma {:induction false} AreaTrackBalanced(other: Other, a: AreaSettings, tests: seq<(bool, bool)>)
    ensures var es := Lifetime(other, a, tests);
      && Alternates(Only(es, AddArea, RemoveArea), AddArea, RemoveArea, false, false)
      && Count(es, AddArea) == Count(es, RemoveArea)
  {
    var start := NewAreaPair(other);
    var p, e0 := start.0, start.1;
    var run := Run(p, a, tests);
    var q, es := run.0, run.1;
    var ed := Destroy(q, a);
    assert e0 + es + ed == Lifetime(other, a, tests);
    RunAlternates(p, a, tests);
    if a.overrideMode == Disabled {
      NoAreaEffectsWhenDisabled(p, a, tests);
    }
    var c1, c2 := q.colliding && a.overrideMode != Disabled, q.colliding && a.monitorCallback;
    OnlyDestroyCalls(c1, RemoveArea, c2, RemoveFromQuery, AddArea, RemoveArea);
    TrackBalanced(e0, es, ed, AddArea, RemoveArea, a.overrideMode != Disabled, q.colliding);
  }

  /** The area's monitor-report track of LifetimeBalanced. */
  lemma {:induction false} QueryTrackBalanced(other: Other, a: AreaSettings, tests: seq<(bool, bool)>)
    ensures var es := Lifetime(other, a, tests);
      && Alternates(Only(es, AddToQuery, RemoveFromQuery), AddToQuery, RemoveFromQuery, false, false)
      && Count(es, AddToQuery) == Count(es, RemoveFromQuery)
  {
    var start := NewAreaPair(other);
    var p, e0 := start.0, start.1;
    var run := Run(p, a, tests);
    var q, es := run.0, run.1;
    var ed := Destroy(q, a);
    assert e0 + es + ed == Lifetime(other, a, tests);
    RunAlternates(p, a, tests);
    if !a.monitorCallback {
      NoQueryEffectsWithoutMonitor(p, a, tests);
    }
    var c1, c2 := q.colliding && a.overrideMode != Disabled, q.colliding && a.monitorCallback;
    OnlyDestroyCalls(c1, RemoveArea, c2, RemoveFromQuery, AddToQuery, RemoveFromQuery);
    TrackBalanced(e0, es, ed, AddToQuery, RemoveFromQuery, a.monitorCallback, q.colliding);
  }

  /**
   * One add/remove track over construction (`e0`), the steps (`es`) and
   * destruction (`ed`): when the steps switch the track as the overlap goes and
   * destruction switches it off, additions and removals balance.
   */
  lemma {:induction false} TrackBalanced(e0: seq<Effect>, es: seq<Effect>, ed: seq<Effect>, add: Effect, remove: Effect, enabled: bool, colliding: bool)
    requires add != remove && add !in e0 && remove !in e0
    requires enabled ==> Alternates(Only(es, add, remove), add, remove, false, colliding)
    requires !enabled ==> Only(es, add, remove) == []
    requires Only(ed, add, remove) == if colliding && enabled then [remove] else []
    ensures var all := e0 + es + ed;
      && Alternates(Only(all, add, remove), add, remove, false, false)
      && Count(all, add) == Count(all, remove)
  {
    var all := e0 + es + ed;
    OnlyConcat(e0 + es, ed, add, remove);
    OnlyConcat(e0, es, add, remove);
    OnlyOfAbsent(e0, add, remove);
    assert Only(all, add, remove) == Only(es, add, remove) + Only(ed, add, remove);
    if enabled {
      AlternatesConcat(Only(es, add, remove), Only(ed, add, remove), add, remove, false, colliding, false);
    }
    AlternatesBalanced(Only(all, add, remove), add, remove, false, false);
    CountOnly(all, add, remove);
  }

  lemma {:induction false} CountOnly(es: seq<Effect>, add: Effect, remove: Effect)
    ensures Count(Only(es, add, remove), add) == Count(es, add)
    ensures Count(Only(es, add, remove), remove) == Count(es, remove)
  {
    if |es| > 0 {
      CountOnly(es[1..], add, remove);
      var head := if es[0] == add || es[0] == remove then [es[0]] else [];
      CountConcat(head, Only(es[1..], add, remove), add);
      CountConcat(head, Only(es[1..], add, remove), remove);
    }
  }

  lemma {:induction false} CountConcat(a: seq<Effect>, b: seq<Effect>, e: Effect)
    ensures Count(a + b, e) == Count(a, e) + Count(b, e)
  {
    if |a| > 0 {
      assert (a + b)[1..] == a[1..] + b;
      CountConcat(a[1..], b, e);
    } else {
      assert a + b == b;
    }
  }

  lemma {:induction false} NoAreaEffectsWhenDisabled(p: AreaPair, a: AreaSettings, tests: seq<(bool, bool)>)
    decreases |tests|
    requires a.overrideMode == Disabled
    ensures Only(Run(p, a, tests).1, AddArea, RemoveArea) == []
  {
    if |tests| > 0 {
      var (q1, e1) := Step(p, a, tests[0].0, tests[0].1);
      var (q2, e2) := Run(q1, a, tests[1..]);
      NoAreaEffectsWhenDisabled(q1, a, tests[1..]);
      OnlyConcat(e1, e2, AddArea, RemoveArea);
      OnlyOfAbsent(e1, AddArea, RemoveArea);
    }
  }

  lemma {:induction false} NoQueryEffectsWithoutMonitor(p: AreaPair, a: AreaSettings, tests: seq<(bool, bool)>)
    decreases |tests|
    requires !a.monitorCallback
    ensures Only(Run(p, a, tests).1, AddToQuery, RemoveFromQuery) == []
  {
    if |tests| > 0 {
      var (q1, e1) := Step(p, a, tests[0].0, tests[0].1);
      var (q2, e2) := Run(q1, a, tests[1..]);
      NoQueryEffectsWithoutMonitor(q1, a, tests[1..]);
      OnlyConcat(e1, e2, AddToQuery, RemoveFromQuery);
      OnlyOfAbsent(e1, AddToQuery, RemoveFromQuery);
    }
  }

  lemma {:induction false} OnlyOfAbsent(es: seq<Effect>, add: Effect, remove: Effect)
    requires add !in es && remove !in es
    ensures Only(es, add, remove) == []
  {
    if |es| > 0 {
      OnlyOfAbsent(es[1..], add, remove);
    }
  }

  // ---------------------------------------------------------------------
  // Area / area pairs

  /** Per direction: does area A see B (side A), does area B see A (side B). */
  datatype Area2Pair = Area2Pair(collidingA: bool, collidingB: bool, processA: bool, processB: bool)

  function NewArea2Pair(): (r: (Area2Pair, seq<Effect>))
    ensures !r.0.collidingA && !r.0.collidingB && r.1 == [AddConstraint]
  {
    (Area2Pair(false, false, false, false), [AddConstraint])
  }

  /** Does area `watcher` get told about area `watched`? */
  predicate Reports(watcher: AreaSettings, watched: AreaSettings)
  {
    watcher.areaMonitorCallback && watched.monitorable
  }

  /**
   * setup for two areas: each direction has its own layer/mask test, and a
   * negative solver verdict clears both. A direction is processed when its
   * overlap changed and its area monitors areas that the other lets be seen;
   * the overlap is recorded in any case.
   */
  function Area2Setup(p: Area2Pair, a: AreaSettings, b: AreaSettings, aSeesB: bool, bSeesA: bool, overlap: bool): (r: (Area2Pair, bool))
    ensures r.0.collidingA == (aSeesB && overlap) && r.0.collidingB == (bSeesA && overlap)
    ensures r.0.processA <==> (aSeesB && overlap) != p.collidingA && Reports(a, b)
    ensures r.0.processB <==> (bSeesA && overlap) != p.collidingB && Reports(b, a)
    ensures r.1 <==> r.0.processA || r.0.processB
  {
    var resultA := aSeesB && overlap;
    var resultB := bSeesA && overlap;
    var processA := resultA != p.collidingA && a.areaMonitorCallback && b.monitorable;
    var processB := resultB != p.collidingB && b.areaMonitorCallback && a.monitorable;
    (Area2Pair(resultA, resultB, processA, processB), processA || processB)
  }

  function Area2PreSolve(p: Area2Pair): (r: (seq<Effect>, bool))
    ensures !r.1
    ensures AddAreaToQuery(SideA) in r.0 <==> p.processA && p.collidingA
    ensures RemoveAreaFromQuery(SideA) in r.0 <==> p.processA && !p.collidingA
    ensures AddAreaToQuery(SideB) in r.0 <==> p.processB && p.collidingB
    ensures RemoveAreaFromQuery(SideB) in r.0 <==> p.processB && !p.collidingB
    ensures |r.0| <= 2
  {
    (Call(p.processA, if p.collidingA then AddAreaToQuery(SideA) else RemoveAreaFromQuery(SideA))
     + Call(p.processB, if p.collidingB then AddAreaToQuery(SideB) else RemoveAreaFromQuery(SideB)),
     false)
  }

  function Area2Step(p: Area2Pair, a: AreaSettings, b: AreaSettings, aSeesB: bool, bSeesA: bool, overlap: bool): (r: (Area2Pair, seq<Effect>))
  {
    var (q, _) := Area2Setup(p, a, b, aSeesB, bSeesA, overlap);
    (q, Area2PreSolve(q).0)
  }

  /**
   * The destructor as written: a direction still overlapping is retracted
   * whenever its area monitors areas, without the check that the other area
   * is monitorable which guarded the enter report.
   */
  function Area2DestroyAsWritten(p: Area2Pair, a: AreaSettings, b: AreaSettings): (es: seq<Effect>)
    ensures RemoveAreaFromQuery(SideA) in es <==> p.collidingA && a.areaMonitorCallback
    ensures RemoveAreaFromQuery(SideB) in es <==> p.collidingB && b.areaMonitorCallback
    ensures RemoveConstraint in es
  {
    Call(p.collidingA && a.areaMonitorCallback, RemoveAreaFromQuery(SideA))
    + Call(p.collidingB && b.areaMonitorCallback, RemoveAreaFromQuery(SideB))
    + [RemoveConstraint]
  }

  /** The destructor retracting only what the enter path could have reported. */
  function Area2Destroy(p: Area2Pair, a: AreaSettings, b: AreaSettings): (es: seq<Effect>)
    ensures RemoveAreaFromQuery(SideA) in es <==> p.collidingA && Reports(a, b)
    ensures RemoveAreaFromQuery(SideB) in es <==> p.collidingB && Reports(b, a)
    ensures RemoveConstraint in es
  {
    Call(p.collidingA && Reports(a, b), RemoveAreaFromQuery(SideA))
    + Call(p.collidingB && Reports(b, a), RemoveAreaFromQuery(SideB))
    + [RemoveConstraint]
  }

  /** One tuple per step: (A's layer/mask test on B, B's on A, solver verdict). */
  function Area2Run(p: Area2Pair, a: AreaSettings, b: AreaSettings, tests: seq<(bool, bool, bool)>): (r: (Area2Pair, seq<Effect>))
    decreases |tests|
  {
    if |tests| == 0 then (p, [])
    else
      var (q, e1) := Area2Step(p, a, b, tests[0].0, tests[0].1, tests[0].2);
      var (q2, e2) := Area2Run(q, a, b, tests[1..]);
      (q2, e1 + e2)
  }

  lemma {:induction false} Area2StepAlternates(p: Area2Pair, a: AreaSettings, b: AreaSettings, aSeesB: bool, bSeesA: bool, overlap: bool)
    ensures var (q, es) := Area2Step(p, a, b, aSeesB, bSeesA, overlap);
      && (Reports(a, b) ==> Alternates(Only(es, AddAreaToQuery(SideA), RemoveAreaFromQuery(SideA)),
                                       AddAreaToQuery(SideA), RemoveAreaFromQuery(SideA), p.collidingA, q.collidingA))
      && (!Reports(a, b) ==> Only(es, AddAreaToQuery(SideA), RemoveAreaFromQuery(SideA)) == [])
      && (Reports(b, a) ==> Alternates(Only(es, AddAreaToQuery(SideB), RemoveAreaFromQuery(SideB)),
                                       AddAreaToQuery(SideB), RemoveAreaFromQuery(SideB), p.collidingB, q.collidingB))
      && (!Reports(b, a) ==> Only(es, AddAreaToQuery(SideB), RemoveAreaFromQuery(SideB)) == [])
  {
    var (q, _) := Area2Setup(p, a, b, aSeesB, bSeesA, overlap);
    var eA := if q.collidingA then AddAreaToQuery(SideA) else RemoveAreaFromQuery(SideA);
    var eB := if q.collidingB then AddAreaToQuery(SideB) else RemoveAreaFromQuery(SideB);
    OnlyCalls(q.processA, eA, q.processB, eB, AddAreaToQuery(SideA), RemoveAreaFromQuery(SideA));
    OnlyCalls(q.processA, eA, q.processB, eB, AddAreaToQuery(SideB), RemoveAreaFromQuery(SideB));
  }

  lemma {:induction false} Area2RunAlternates(p: Area2Pair, a: AreaSettings, b: AreaSettings, tests: seq<(bool, bool, bool)>)
    decreases |tests|
    ensures var (q, es) := Area2Run(p, a, b, tests);
      && (Reports(a, b) ==> Alternates(Only(es, AddAreaToQuery(SideA), RemoveAreaFromQuery(SideA)),
                                       AddAreaToQuery(SideA), RemoveAreaFromQuery(SideA), p.collidingA, q.collidingA))
      && (!Reports(a, b) ==> Only(es, AddAreaToQuery(SideA), RemoveAreaFromQuery(SideA)) == [])
      && (Reports(b, a) ==> Alternates(Only(es, AddAreaToQuery(SideB), RemoveAreaFromQuery(SideB)),
                                       AddAreaToQuery(SideB), RemoveAreaFromQuery(SideB), p.collidingB, q.collidingB))
      && (!Reports(b, a) ==> Only(es, AddAreaToQuery(SideB), RemoveAreaFromQuery(SideB)) == [])
  {
    Area2RunSide(p, a, b, tests, SideA);
    Area2RunSide(p, a, b, tests, SideB);
  }

  /** Whether the area on `side` reports the other one. */
  function SideReports(a: AreaSettings, b: AreaSettings, side: Side): bool
  {
    if side == SideA then Reports(a, b) else Reports(b, a)
  }

  /** Whether the direction reported to the area on `side` overlaps. */
  function SideColliding(p: Area2Pair, side: Side): bool
  {
    if side == SideA then p.collidingA else p.collidingB
  }

  /** One side of Area2RunAlternates. */
  lemma {:induction false} Area2RunSide(p: Area2Pair, a: AreaSettings, b: AreaSettings, tests: seq<(bool, bool, bool)>, side: Side)
    decreases |tests|
    ensures var (q, es) := Area2Run(p, a, b, tests);
      var add, remove := AddAreaToQuery(side), RemoveAreaFromQuery(side);
      && (SideReports(a, b, side) ==> Alternates(Only(es, add, remove), add, remove, SideColliding(p, side), SideColliding(q, side)))
      && (!SideReports(a, b, side) ==> Only(es, add, remove) == [])
  {
    if |tests| > 0 {
      var (q1, e1) := Area2Step(p, a, b, tests[0].0, tests[0].1, tests[0].2);
      var (q2, e2) := Area2Run(q1, a, b, tests[1..]);
      var add, remove := AddAreaToQuery(side), RemoveAreaFromQuery(side);
      Area2StepAlternates(p, a, b, tests[0].0, tests[0].1, tests[0].2);
      Area2RunSide(q1, a, b, tests[1..], side);
      OnlyConcat(e1, e2, add, remove);
      if SideReports(a, b, side) {
        AlternatesConcat(Only(e1, add, remove), Only(e2, add, remove), add, remove,
                         SideColliding(p, side), SideColliding(q1, side), SideColliding(q2, side));
      }
    }
  }

  /**
   * With the corrected destructor, every enter report one area receives about
   * the other is matched by exactly one exit report over the pair's life.
   */
  lemma {:induction false} Area2LifetimeBalanced(a: AreaSettings, b: AreaSettings, tests: seq<(bool, bool, bool)>)
    ensures var (p, e0) := NewArea2Pair();
      var (q, es) := Area2Run(p, a, b, tests);
      var all := e0 + es + Area2Destroy(q, a, b);
      && Count(all, AddAreaToQuery(SideA)) == Count(all, RemoveAreaFromQuery(SideA))
      && Count(all, AddAreaToQuery(SideB)) == Count(all, RemoveAreaFromQuery(SideB))
  {
    Area2SideBalanced(a, b, tests, SideA);
    Area2SideBalanced(a, b, tests, SideB);
  }

  /** One side's report track of Area2LifetimeBalanced. */
  lemma {:induction false} Area2SideBalanced(a: AreaSettings, b: AreaSettings, tests: seq<(bool, bool, bool)>, side: Side)
    ensures var (p, e0) := NewArea2Pair();
      var (q, es) := Area2Run(p, a, b, tests);
      var all := e0 + es + Area2Destroy(q, a, b);
      Count(all, AddAreaToQuery(side)) == Count(all, RemoveAreaFromQuery(side))
  {
    var (p, e0) := NewArea2Pair();
    var (q, es) := Area2Run(p, a, b, tests);
    var ed := Area2Destroy(q, a, b);
    Area2RunSide(p, a, b, tests, side);
    var cA, cB := q.collidingA && Reports(a, b), q.collidingB && Reports(b, a);
    var add, remove := AddAreaToQuery(side), RemoveAreaFromQuery(side);
    assert Only(ed, add, remove) == if SideColliding(q, side) && SideReports(a, b, side) then [remove] else [] by {
      OnlyDestroyCalls(cA, RemoveAreaFromQuery(SideA), cB, RemoveAreaFromQuery(SideB), add, remove);
    }
    TrackBalanced(e0, es, ed, add, remove, SideReports(a, b, side), SideColliding(q, side));
  }

  /**
   * The destructor as written can retract an enter report that was never
   * made: area A monitors areas, area B is not monitorable, and the two
   * overlap when the pair is destroyed.
   */
  lemma {:induction false} Area2DestroyAsWrittenUnbalanced()
    ensures var a := AreaSettings(Disabled, false, true, true);
      var b := AreaSettings(Disabled, false, false, false);
      var (p, e0) := NewArea2Pair();
      var (q, es) := Area2Run(p, a, b, [(true, true, true)]);
      var all := e0 + es + Area2DestroyAsWritten(q, a, b);
      Count(all, AddAreaToQuery(SideA)) == 0 && Count(all, RemoveAreaFromQuery(SideA)) == 1
  {
    var a := AreaSettings(Disabled, false, true, true);
    var b := AreaSettings(Disabled, false, false, false);
    var (p, e0) := NewArea2Pair();
    var tests := [(true, true, true)];
    assert tests[1..] == [];
    var (q, es) := Area2Run(p, a, b, tests);
    assert es == [];
    var all := e0 + es + Area2DestroyAsWritten(q, a, b);
    assert all == [AddConstraint, RemoveAreaFromQuery(SideA), RemoveConstraint];
    assert all[1..] == [RemoveAreaFromQuery(SideA), RemoveConstraint];
    assert all[1..][1..] == [RemoveConstraint];
    var add, rem := AddAreaToQuery(SideA), RemoveAreaFromQuery(SideA);
    assert Count([RemoveConstraint], add) == 0 && Count([RemoveConstraint], rem) == 0;
    assert Count(all[1..], add) == 0 && Count(all[1..], rem) == 1;
  }
}
