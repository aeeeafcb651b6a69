/**
 * The bookkeeping of one 3D physics space: its tunable parameters, the
 * debug-contact buffer, the plain accessors, the broadphase pair callbacks
 * with their pair counter, and the query and mass-update queues that are
 * drained once per step.
 */
module SpaceState {
  import opened Optional
  import opened PhysicsTypes

  // ------------------------------------------------------------ parameters

  /** The space parameters a server caller can set and read. */
  datatype SpaceParameter =
    | ContactRecycleRadius
    | ContactMaxSeparation
    | BodyMaxAllowedPenetration
    | BodyLinearVelocitySleepThreshold
    | BodyAngularVelocitySleepThreshold
    | BodyTimeToSleep
    | BodyAngularVelocityDampRatio
    | ConstraintDefaultBias

  datatype Params = Params(
    contactRecycleRadius: real,
    contactMaxSeparation: real,
    contactMaxAllowedPenetration: real,
    constraintBias: real,
    linearSleepThreshold: real,
    angularSleepThreshold: real,
    timeToSleep: real,
    angularDampRatio: real)

  function GetParam(p: Params, which: SpaceParameter): real
  {
    match which
    case ContactRecycleRadius => p.contactRecycleRadius
    case ContactMaxSeparation => p.contactMaxSeparation
    case BodyMaxAllowedPenetration => p.contactMaxAllowedPenetration
    case BodyLinearVelocitySleepThreshold => p.linearSleepThreshold
    case BodyAngularVelocitySleepThreshold => p.angularSleepThreshold
    case BodyTimeToSleep => p.timeToSleep
    case BodyAngularVelocityDampRatio => p.angularDampRatio
    case ConstraintDefaultBias => p.constraintBias
  }

  /** Setting a parameter is read back by the getter and leaves every other parameter alone. */
  function SetParam(p: Params, which: SpaceParameter, v: real): (r: Params)
    ensures GetParam(r, which) == v
    ensures forall w :: w != which ==> GetParam(r, w) == GetParam(p, w)
  {
    match which
    case ContactRecycleRadius => p.(contactRecycleRadius := v)
    case ContactMaxSeparation => p.(contactMaxSeparation := v)
    case BodyMaxAllowedPenetration => p.(contactMaxAllowedPenetration := v)
    case BodyLinearVelocitySleepThreshold => p.(linearSleepThreshold := v)
    case BodyAngularVelocitySleepThreshold => p.(angularSleepThreshold := v)
    case BodyTimeToSleep => p.(timeToSleep := v)
    case BodyAngularVelocityDampRatio => p.(angularDampRatio := v)
    case ConstraintDefaultBias => p.(constraintBias := v)
  }

  /** The getter sees every field, so two parameter sets that agree on every getter are equal. */
  lemma {:induction false} ParamsDeterminedByGetters(p: Params, q: Params)
    requires forall w :: GetParam(p, w) == GetParam(q, w)
    ensures p == q
  {
    assert GetParam(p, ContactRecycleRadius) == GetParam(q, ContactRecycleRadius);
    assert GetParam(p, ContactMaxSeparation) == GetParam(q, ContactMaxSeparation);
    assert GetParam(p, BodyMaxAllowedPenetration) == GetParam(q, BodyMaxAllowedPenetration);
    assert GetParam(p, BodyLinearVelocitySleepThreshold) == GetParam(q, BodyLinearVelocitySleepThreshold);
    assert GetParam(p, BodyAngularVelocitySleepThreshold) == GetParam(q, BodyAngularVelocitySleepThreshold);
    assert GetParam(p, BodyTimeToSleep) == GetParam(q, BodyTimeToSleep);
    assert GetParam(p, BodyAngularVelocityDampRatio) == GetParam(q, BodyAngularVelocityDampRatio);
    assert GetParam(p, ConstraintDefaultBias) == GetParam(q, ConstraintDefaultBias);
  }

  /** Setting a parameter to the value it already has changes nothing. */
  lemma {:induction false} SetParamToCurrentIsIdentity(p: Params, which: SpaceParameter)
    ensures SetParam(p, which, GetParam(p, which)) == p
  {
    var r := SetParam(p, which, GetParam(p, which));
    forall w ensures GetParam(r, w) == GetParam(p, w) {
    }
    ParamsDeterminedByGetters(r, p);
  }

  // ----------------------------------------------------------------- space

  /** The phases whose duration a step records. */
  datatype ElapsedTime = IntegrateForces | GenerateIslands | SetupConstraints | SolveConstraints | IntegrateVelocities
  {
    function Index(): nat
    {
      match this
      case IntegrateForces => 0
      case GenerateIslands => 1
      case SetupConstraints => 2
      case SolveConstraints => 3
      case IntegrateVelocities => 4
    }
  }

  const ELAPSED_TIME_MAX: nat := 5

  /** One space. Bodies and areas are named by their handles. */
  datatype Space = Space(
    params: Params,
    locked: bool,
    lastStep: real,
    islandCount: int,
    activeObjects: int,
    collisionPairs: int,
    contactDebug: seq<Vec3>,
    contactDebugCount: int,
    elapsed: seq<nat>,
    staticGlobalBody: nat,
    objects: set<nat>,
    massUpdateList: seq<nat>,
    stateQueryList: seq<nat>,
    monitorQueryList: seq<nat>)

  predicate Valid(s: Space)
  {
    && |s.elapsed| == ELAPSED_TIME_MAX
    && 0 <= s.contactDebugCount <= |s.contactDebug|
  }

  /**
   * A new space. The three sleep tunables come from project settings, so
   * they are parameters here; the rest are the declared defaults.
   */
  function NewSpace(linearSleep: real, angularSleep: real, timeToSleep: real): (s: Space)
    ensures Valid(s)
    ensures GetParam(s.params, ContactRecycleRadius) == 0.01
    ensures GetParam(s.params, ContactMaxSeparation) == 0.05
    ensures GetParam(s.params, BodyMaxAllowedPenetration) == 0.01
    ensures GetParam(s.params, ConstraintDefaultBias) == 0.01
    ensures GetParam(s.params, BodyAngularVelocityDampRatio) == 10.0
    ensures GetParam(s.params, BodyLinearVelocitySleepThreshold) == linearSleep
    ensures GetParam(s.params, BodyAngularVelocitySleepThreshold) == angularSleep
    ensures GetParam(s.params, BodyTimeToSleep) == timeToSleep
    ensures !s.locked && s.lastStep == 0.001
    ensures s.islandCount == 0 && s.activeObjects == 0 && s.collisionPairs == 0
    ensures !IsDebuggingContacts(s) && s.contactDebugCount == 0
    ensures forall t: ElapsedTime :: GetElapsedTime(s, t) == 0
    ensures s.objects == {} && s.massUpdateList == [] && s.stateQueryList == [] && s.monitorQueryList == []
  {
    Space(Params(0.01, 0.05, 0.01, 0.01, linearSleep, angularSleep, timeToSleep, 10.0),
          false, 0.001, 0, 0, 0, [], 0, seq(ELAPSED_TIME_MAX, _ => 0), 0, {}, [], [], [])
  }

  // ----------------------------------------------------- plain accessors

  function SetLastStep(s: Space, step: real): (r: Space)
    ensures r.lastStep == step && r.(lastStep := s.lastStep) == s
  {
    s.(lastStep := step)
  }

  function SetIslandCount(s: Space, n: int): (r: Space)
    ensures r.islandCount == n && r.(islandCount := s.islandCount) == s
  {
    s.(islandCount := n)
  }

  function SetActiveObjects(s: Space, n: int): (r: Space)
    ensures r.activeObjects == n && r.(activeObjects := s.activeObjects) == s
  {
    s.(activeObjects := n)
  }

  function SetStaticGlobalBody(s: Space, body: nat): (r: Space)
    ensures r.staticGlobalBody == body && r.(staticGlobalBody := s.staticGlobalBody) == s
  {
    s.(staticGlobalBody := body)
  }

  function GetElapsedTime(s: Space, t: ElapsedTime): nat
    requires Valid(s)
  {
    s.elapsed[t.Index()]
  }

  /** Recording one phase's time is read back for that phase and leaves the others alone. */
  function SetElapsedTime(s: Space, t: ElapsedTime, msec: nat): (r: Space)
    requires Valid(s)
    ensures Valid(r)
    ensures GetElapsedTime(r, t) == msec
    ensures forall u :: u != t ==> GetElapsedTime(r, u) == GetElapsedTime(s, u)
    ensures r.(elapsed := s.elapsed) == s
  {
    s.(elapsed := s.elapsed[t.Index() := msec])
  }

  function Lock(s: Space): (r: Space)
    ensures r.locked && r.(locked := s.locked) == s
  {
    s.(locked := true)
  }

  function Unlock(s: Space): (r: Space)
    ensures !r.locked && r.(locked := s.locked) == s
  {
    s.(locked := false)
  }

  /** Registering an object already present, or removing one absent, is refused. */
  function AddObject(s: Space, o: nat): (r: Space)
    ensures r.objects == s.objects + {o}
    ensures o in s.objects ==> r == s
  {
    if o in s.objects then s else s.(objects := s.objects + {o})
  }

  function RemoveObject(s: Space, o: nat): (r: Space)
    ensures r.objects == s.objects - {o}
    ensures o !in s.objects ==> r == s
  {
    if o !in s.objects then s else s.(objects := s.objects - {o})
  }

  lemma {:induction false} AddThenRemoveObject(s: Space, o: nat)
    requires o !in s.objects
    ensures RemoveObject(AddObject(s, o), o) == s
  {
  }

  // ----------------------------------------------------- debug contacts

  predicate IsDebuggingContacts(s: Space)
  {
    |s.contactDebug| > 0
  }

  /**
   * Resizes the debug buffer, keeping its first entries and padding with the
   * zero vector; a negative size is refused. The count is not touched, so a
   * shrink below the count leaves the buffer full until the next setup.
   */
  function SetDebugContacts(s: Space, amount: int): (r: Space)
    ensures amount < 0 ==> r == s
    ensures amount >= 0 ==> |r.contactDebug| == amount && IsDebuggingContacts(r) == (amount > 0)
    ensures amount >= 0 ==> forall i :: 0 <= i < amount && i < |s.contactDebug| ==> r.contactDebug[i] == s.contactDebug[i]
    ensures r.contactDebugCount == s.contactDebugCount
    ensures Valid(s) && s.contactDebugCount <= amount ==> Valid(r)
    ensures r.(contactDebug := s.contactDebug) == s
  {
    if amount < 0 then s
    else if amount <= |s.contactDebug| then s.(contactDebug := s.contactDebug[..amount])
    else s.(contactDebug := s.contactDebug + seq(amount - |s.contactDebug|, _ => Zero3))
  }

  /** Records a contact while there is room in the buffer; a full buffer drops it. */
  function AddDebugContact(s: Space, c: Vec3): (r: Space)
    requires Valid(s)
    ensures Valid(r)
    ensures |r.contactDebug| == |s.contactDebug|
    ensures s.contactDebugCount < |s.contactDebug| ==>
              r.contactDebugCount == s.contactDebugCount + 1 && r.contactDebug[s.contactDebugCount] == c
              && forall i :: 0 <= i < |s.contactDebug| && i != s.contactDebugCount ==> r.contactDebug[i] == s.contactDebug[i]
    ensures s.contactDebugCount >= |s.contactDebug| ==> r == s
    ensures r.(contactDebug := s.contactDebug, contactDebugCount := s.contactDebugCount) == s
  {
    if s.contactDebugCount < |s.contactDebug| then
      s.(contactDebug := s.contactDebug[s.contactDebugCount := c], contactDebugCount := s.contactDebugCount + 1)
    else s
  }

  /** Recording contacts one after another keeps the first ones that fit, in order. */
  function AddDebugContacts(s: Space, cs: seq<Vec3>): (r: Space)
    requires Valid(s)
    ensures Valid(r)
    ensures r.contactDebugCount == Min(s.contactDebugCount + |cs|, |s.contactDebug|)
    ensures forall i :: s.contactDebugCount <= i < r.contactDebugCount ==> r.contactDebug[i] == cs[i - s.contactDebugCount]
    ensures forall i :: 0 <= i < s.contactDebugCount ==> r.contactDebug[i] == s.contactDebug[i]
    decreases |cs|
  {
    if |cs| == 0 then s else AddDebugContacts(AddDebugContact(s, cs[0]), cs[1..])
  }

  function Min(a: int, b: int): int { if a < b then a else b }

  // --------------------------------------------------- broadphase pairs

  /** A collision object as the broadphase sees it. */
  datatype Obj = Obj(id: nat, kind: ObjectKind)

  /** The constraint kinds the pair callback creates. */
  datatype PairKind = Area2Pair | AreaSoftBodyPair | AreaPair | BodySoftBodyPair | BodyPair

  /**
   * A created pair, with its constructor's arguments in their order:
   * an area-with-something pair takes the other object first and the area
   * second; a body/soft-body pair takes no soft-body subindex.
   */
  datatype Pair = Pair(kind: PairKind, first: nat, firstSub: int, second: nat, secondSub: Option<int>)

  /** The pair the callback builds for two objects already ordered by kind. */
  function Dispatch(a: Obj, subA: int, b: Obj, subB: int): (p: Option<Pair>)
    requires a.kind.Ordinal() <= b.kind.Ordinal()
    ensures p.None? <==> a.kind == SoftBodyKind
    ensures p.Some? && a.kind == AreaKind ==> p.value.second == a.id && p.value.first == b.id
    ensures p.Some? && a.kind == BodyKind ==> p.value.first == a.id && p.value.second == b.id
  {
    match a.kind
    case AreaKind =>
      (match b.kind
       case AreaKind => Some(Pair(Area2Pair, b.id, subB, a.id, Some(subA)))
       case SoftBodyKind => Some(Pair(AreaSoftBodyPair, b.id, subB, a.id, Some(subA)))
       case BodyKind => Some(Pair(AreaPair, b.id, subB, a.id, Some(subA))))
    case BodyKind =>
      (match b.kind
       case SoftBodyKind => Some(Pair(BodySoftBodyPair, a.id, subA, b.id, None))
       case _ => Some(Pair(BodyPair, a.id, subA, b.id, Some(subB))))
    case SoftBodyKind => None
  }

  /** The pair kind for an unordered couple of kinds. */
  function KindOf(k1: ObjectKind, k2: ObjectKind): Option<PairKind>
  {
    match (k1, k2)
    case (AreaKind, AreaKind) => Some(Area2Pair)
    case (AreaKind, SoftBodyKind) | (SoftBodyKind, AreaKind) => Some(AreaSoftBodyPair)
    case (AreaKind, BodyKind) | (BodyKind, AreaKind) => Some(AreaPair)
    case (BodyKind, SoftBodyKind) | (SoftBodyKind, BodyKind) => Some(BodySoftBodyPair)
    case (BodyKind, BodyKind) => Some(BodyPair)
    case (SoftBodyKind, SoftBodyKind) => None
  }

  /** Orders the two objects by kind, swapping them and their subindices when needed. */
  function Ordered(a: Obj, subA: int, b: Obj, subB: int): (r: (Obj, int, Obj, int))
    ensures r.0.kind.Ordinal() <= r.2.kind.Ordinal()
    ensures r == (a, subA, b, subB) || r == (b, subB, a, subA)
  {
    if a.kind.Ordinal() > b.kind.Ordinal() then (b, subB, a, subA) else (a, subA, b, subB)
  }

  /**
   * The broadphase pair callback as written: objects that do not interact
   * get nothing; otherwise the pair counter is raised before the dispatch,
   * so a soft-body/soft-body couple raises it without getting a pair.
   */
  function BroadphasePairAsWritten(s: Space, a: Obj, subA: int, b: Obj, subB: int, interacts: bool): (r: (Space, Option<Pair>))
    ensures !interacts ==> r == (s, None)
    ensures interacts ==> r.0 == s.(collisionPairs := s.collisionPairs + 1)
  {
    if !interacts then (s, None)
    else
      var o := Ordered(a, subA, b, subB);
      (s.(collisionPairs := s.collisionPairs + 1), Dispatch(o.0, o.1, o.2, o.3))
  }

  /**
   * The broadphase pair callback, counting a pair only when one is created.
   * The pair kind depends on the two kinds alone, not on their order.
   */
  function BroadphasePair(s: Space, a: Obj, subA: int, b: Obj, subB: int, interacts: bool): (r: (Space, Option<Pair>))
    ensures !interacts ==> r == (s, None)
    ensures interacts ==> (r.1.Some? <==> KindOf(a.kind, b.kind).Some?)
    ensures interacts && r.1.Some? ==> r.1.value.kind == KindOf(a.kind, b.kind).value
    ensures r.1.Some? ==> r.1.value.first in {a.id, b.id} && r.1.value.second in {a.id, b.id}
    ensures r.0 == s.(collisionPairs := s.collisionPairs + (if r.1.Some? then 1 else 0))
  {
    if !interacts then (s, None)
    else
      var o := Ordered(a, subA, b, subB);
      var p := Dispatch(o.0, o.1, o.2, o.3);
      (if p.Some? then s.(collisionPairs := s.collisionPairs + 1) else s, p)
  }

  /** The unpair callback: nothing for a couple that got no pair, else the counter drops. */
  function BroadphaseUnpair(s: Space, data: Option<Pair>): (r: Space)
    ensures data.None? ==> r == s
    ensures data.Some? ==> r.collisionPairs == s.collisionPairs - 1
    ensures r.(collisionPairs := s.collisionPairs) == s
  {
    if data.None? then s else s.(collisionPairs := s.collisionPairs - 1)
  }

  /** Pairing and then unpairing any couple leaves the counter where it was. */
  lemma {:induction false} PairThenUnpairBalances(s: Space, a: Obj, subA: int, b: Obj, subB: int, interacts: bool)
    ensures var r := BroadphasePair(s, a, subA, b, subB, interacts);
      BroadphaseUnpair(r.0, r.1) == s
  {
  }

  /** As written, a soft-body couple that interacts leaves the counter one higher after its unpair. */
  lemma {:induction false} SoftBodyCoupleLeaksPairCount(s: Space, a: Obj, b: Obj, subA: int, subB: int)
    requires a.kind == SoftBodyKind && b.kind == SoftBodyKind
    ensures var r := BroadphasePairAsWritten(s, a, subA, b, subB, true);
      r.1 == None && BroadphaseUnpair(r.0, r.1).collisionPairs == s.collisionPairs + 1
  {
  }

  // ------------------------------------------------ queues and the step

  /**
   * Queues a handle on one of the space's lists; a handle already queued is
   * refused, and a new one goes to the front.
   */
  function Enqueue(list: seq<nat>, h: nat): (r: seq<nat>)
    ensures h in r && multiset(r) == multiset(list) + (if h in list then multiset{} else multiset{h})
    ensures h !in list ==> r[0] == h && r[1..] == list
  {
    if h in list then list else [h] + list
  }

  /** Takes a handle off a list, keeping the others in order. */
  function Dequeue(list: seq<nat>, h: nat): (r: seq<nat>)
    ensures h !in list ==> r == list
    ensures forall x :: x in r <==> x in list && x != h
    ensures |r| <= |list|
    decreases |list|
  {
    if |list| == 0 then []
    else if list[0] == h then Dequeue(list[1..], h)
    else [list[0]] + Dequeue(list[1..], h)
  }

  /** Queueing a handle that was not queued and then taking it off restores the list. */
  lemma {:induction false} EnqueueDequeue(list: seq<nat>, h: nat)
    requires h !in list
    ensures Dequeue(Enqueue(list, h), h) == list
  {
    var e := Enqueue(list, h);
    assert e[0] == h && e[1..] == list;
    assert Dequeue(e, h) == Dequeue(list, h);
  }

  /** What the space asks of one body or area when it drains its queues. */
  datatype Call = BodyQueries(body: nat) | AreaQueries(area: nat) | UpdateMassProperties(body: nat)

  function BodyCalls(list: seq<nat>): (r: seq<Call>)
    ensures |r| == |list| && forall i :: 0 <= i < |list| ==> r[i] == BodyQueries(list[i])
  {
    seq(|list|, i requires 0 <= i < |list| => BodyQueries(list[i]))
  }

  function AreaCalls(list: seq<nat>): (r: seq<Call>)
    ensures |r| == |list| && forall i :: 0 <= i < |list| ==> r[i] == AreaQueries(list[i])
  {
    seq(|list|, i requires 0 <= i < |list| => AreaQueries(list[i]))
  }

  /**
   * Drains the body state-query list and then the area monitor-query list,
   * front first, asking each member to report. Both lists end empty and
   * nothing else about the space changes.
   */
  function CallQueries(s: Space): (r: (Space, seq<Call>))
    ensures r.0.stateQueryList == [] && r.0.monitorQueryList == []
    ensures r.0.(stateQueryList := s.stateQueryList, monitorQueryList := s.monitorQueryList) == s
    ensures |r.1| == |s.stateQueryList| + |s.monitorQueryList|
    ensures forall i :: 0 <= i < |s.stateQueryList| ==> r.1[i] == BodyQueries(s.stateQueryList[i])
    ensures forall i :: 0 <= i < |s.monitorQueryList| ==>
              r.1[|s.stateQueryList| + i] == AreaQueries(s.monitorQueryList[i])
  {
    (s.(stateQueryList := [], monitorQueryList := []),
     BodyCalls(s.stateQueryList) + AreaCalls(s.monitorQueryList))
  }

  /**
   * The set-up before a step: the debug-contact count restarts and every body
   * queued for a mass update gets one, front first, leaving the queue empty.
   */
  function Setup(s: Space): (r: (Space, seq<Call>))
    requires Valid(s)
    ensures Valid(r.0)
    ensures r.0.contactDebugCount == 0 && r.0.massUpdateList == []
    ensures r.0.(contactDebugCount := s.contactDebugCount, massUpdateList := s.massUpdateList) == s
    ensures |r.1| == |s.massUpdateList|
    ensures forall i :: 0 <= i < |r.1| ==> r.1[i] == UpdateMassProperties(s.massUpdateList[i])
  {
    (s.(contactDebugCount := 0, massUpdateList := []),
     seq(|s.massUpdateList|, i requires 0 <= i < |s.massUpdateList| => UpdateMassProperties(s.massUpdateList[i])))
  }

  /** After setup the debug buffer is empty of contacts, so new ones are recorded from its start. */
  lemma {:induction false} SetupRestartsDebugContacts(s: Space, c: Vec3)
    requires Valid(s) && IsDebuggingContacts(s)
    ensures AddDebugContact(Setup(s).0, c).contactDebug[0] == c
    ensures AddDebugContact(Setup(s).0, c).contactDebugCount == 1
  {
  }
}
