/**
 * The bookkeeping around the 3D space's collision queries: the layer and
 * kind filter every query applies, the in-place cull of broadphase results
 * for a moving body, the biased bisection that finds how far a shape can
 * move, and the accumulator that keeps the deepest rest contacts.
 *
 * The narrow-phase solver and the broadphase are oracles: the objects a
 * cull returns, whether a shape moved by a fraction of its motion overlaps
 * another, and the contacts the solver reports are all inputs.
 */
module SpaceQueries {
  import opened Optional
  import opened PhysicsTypes

  /** The capacity of the space's intersection query buffers. */
  const INTERSECTION_QUERY_MAX: nat := 2048

  /** The capacity of a motion result's collision list. */
  const MAX_COLLISIONS: nat := 32

  /**
   * _can_collide_with: the object must share a layer bit with the query's
   * mask, and be an area only if areas are wanted, a body or soft body only
   * if bodies are.
   */
  function CanCollideWith(layer: bv32, kind: ObjectKind, mask: bv32, withBodies: bool, withAreas: bool): (r: bool)
    ensures r <==> (layer & mask != 0 && (if kind == AreaKind then withAreas else withBodies))
  {
    if layer & mask == 0 then false
    else match kind
      case AreaKind => withAreas
      case BodyKind => withBodies
      case SoftBodyKind => withBodies
  }

  /** Widening the mask or asking for more kinds never loses an object. */
  lemma {:induction false} CanCollideWithMonotone(layer: bv32, kind: ObjectKind, mask: bv32, extra: bv32,
                               withBodies: bool, withAreas: bool)
    requires CanCollideWith(layer, kind, mask, withBodies, withAreas)
    ensures CanCollideWith(layer, kind, mask | extra, withBodies, withAreas)
    ensures CanCollideWith(layer, kind, mask, true, true)
  {
    assert layer & (mask | extra) == (layer & mask) | (layer & extra);
  }

  // ------------------------------------------------------------- the cull

  /** A broadphase hit: the object's id and kind. */
  datatype Candidate = Candidate(id: nat, kind: ObjectKind)

  /**
   * What a body's motion test keeps of a broadphase hit: another rigid body
   * that the body collides with, with no collision exception either way.
   * The collision test and the two exception lists are oracles.
   */
  predicate KeepForBody(body: nat, c: Candidate, collides: nat -> bool,
                        bodyExcepts: nat -> bool, otherExcepts: nat -> bool)
  {
    c.id != body && c.kind == BodyKind && collides(c.id) && !otherExcepts(c.id) && !bodyExcepts(c.id)
  }

  /** The object and sub-index buffers read side by side. */
  function Pairs(objs: seq<Candidate>, subs: seq<int>): (p: seq<(Candidate, int)>)
    requires |objs| == |subs|
    ensures |p| == |objs| && forall i :: 0 <= i < |p| ==> p[i] == (objs[i], subs[i])
  {
    seq(|objs|, i requires 0 <= i < |objs| => (objs[i], subs[i]))
  }

  function Swap<T>(s: seq<T>, i: nat, j: nat): (r: seq<T>)
    requires i < |s| && j < |s|
    ensures |r| == |s| && r[i] == s[j] && r[j] == s[i]
    ensures forall k :: 0 <= k < |s| && k != i && k != j ==> r[k] == s[k]
  {
    s[i := s[j]][j := s[i]]
  }

  lemma {:induction false} SwapPermutes<T>(s: seq<T>, i: nat, j: nat)
    requires i < |s| && j < |s|
    ensures multiset(Swap(s, i, j)) == multiset(s)
  {
    if i != j {
      var t := s[i := s[j]];
      assert multiset(t) == multiset(s) - multiset{s[i]} + multiset{s[j]};
      assert multiset(t[j := s[i]]) == multiset(t) - multiset{t[j]} + multiset{s[i]};
    }
  }

  /**
   * _cull_aabb_for_body: walks the broadphase hits and moves every one the
   * body must ignore to the end, swapping both buffers together, so that the
   * first `amount` entries are exactly the kept hits.
   */
  method CullForBody(body: nat, objs: seq<Candidate>, subs: seq<int>, collides: nat -> bool,
                     bodyExcepts: nat -> bool, otherExcepts: nat -> bool)
    returns (amount: nat, objs': seq<Candidate>, subs': seq<int>)
    requires |objs| == |subs|
    ensures amount <= |objs| && |objs'| == |objs| && |subs'| == |subs|
    ensures forall i :: 0 <= i < amount ==> KeepForBody(body, objs'[i], collides, bodyExcepts, otherExcepts)
    ensures forall i :: amount <= i < |objs'| ==> !KeepForBody(body, objs'[i], collides, bodyExcepts, otherExcepts)
    ensures multiset(Pairs(objs', subs')) == multiset(Pairs(objs, subs))
  {
    objs', subs' := objs, subs;
    amount := |objs|;
    var i := 0;
    while i < amount
      invariant 0 <= i <= amount <= |objs| && |objs'| == |objs| && |subs'| == |objs|
      invariant forall k :: 0 <= k < i ==> KeepForBody(body, objs'[k], collides, bodyExcepts, otherExcepts)
      invariant forall k :: amount <= k < |objs'| ==> !KeepForBody(body, objs'[k], collides, bodyExcepts, otherExcepts)
      invariant multiset(Pairs(objs', subs')) == multiset(Pairs(objs, subs))
      decreases amount - i
    {
      if KeepForBody(body, objs'[i], collides, bodyExcepts, otherExcepts) {
        i := i + 1;
      } else {
        if i < amount - 1 {
          assert Pairs(Swap(objs', i, amount - 1), Swap(subs', i, amount - 1)) == Swap(Pairs(objs', subs'), i, amount - 1);
          SwapPermutes(Pairs(objs', subs'), i, amount - 1);
          objs' := Swap(objs', i, amount - 1);
          subs' := Swap(subs', i, amount - 1);
        }
        amount := amount - 1;
      }
    }
  }

  // --------------------------------------------------------- bisection

  /** Iterations of the motion bisection. */
  const BISECTION_STEPS: nat := 8

  /**
   * The next bisection weight: plain halving on the first step, after a
   * collision once some fraction was found free, and after a free fraction
   * once some fraction collided; otherwise the step leans towards the end
   * that has not moved yet (a quarter after collisions only, three quarters
   * after free fractions only).
   */
  function NextCoeff(first: bool, collided: bool, low: real, hi: real): (c: real)
    ensures c == 0.5 || c == 0.25 || c == 0.75
    ensures c == 0.25 <==> collided && !first && !(low > 0.0)
    ensures c == 0.75 <==> !collided && !first && !(hi < 1.0)
  {
    if collided then (if first || low > 0.0 then 0.5 else 0.25)
    else (if first || hi < 1.0 then 0.5 else 0.75)
  }

  /** The fraction tried next lies strictly between the bounds. */
  function Probe(low: real, hi: real, c: real): (f: real)
    requires low < hi && (c == 0.5 || c == 0.25 || c == 0.75)
    ensures low < f < hi
  {
    low + (hi - low) * c
  }

  /**
   * The kinematic solving loop of cast_motion and test_body_motion: eight
   * probes, each moving `low` up to a fraction that is free or `hi` down to
   * one that collides. `collidesAt(f)` says whether the shape moved by the
   * fraction `f` of its motion overlaps the other shape.
   */
  method Bisect(collidesAt: real -> bool) returns (low: real, hi: real, tried: seq<real>)
    ensures |tried| == BISECTION_STEPS
    ensures 0.0 <= low < hi <= 1.0
    ensures forall k :: 0 <= k < |tried| ==> 0.0 < tried[k] < 1.0
    ensures low == 0.0 || (low in tried && !collidesAt(low))
    ensures hi == 1.0 || (hi in tried && collidesAt(hi))
  {
    low, hi := 0.0, 1.0;
    var coeff := 0.5;
    tried := [];
    var k := 0;
    while k < BISECTION_STEPS
      invariant 0 <= k <= BISECTION_STEPS && |tried| == k
      invariant 0.0 <= low < hi <= 1.0
      invariant coeff == 0.5 || coeff == 0.25 || coeff == 0.75
      invariant forall j :: 0 <= j < |tried| ==> 0.0 < tried[j] < 1.0
      invariant low == 0.0 || (low in tried && !collidesAt(low))
      invariant hi == 1.0 || (hi in tried && collidesAt(hi))
    {
      var fraction := Probe(low, hi, coeff);
      tried := tried + [fraction];
      if collidesAt(fraction) {
        coeff := NextCoeff(k == 0, true, low, hi);
        hi := fraction;
      } else {
        coeff := NextCoeff(k == 0, false, low, hi);
        low := fraction;
      }
      k := k + 1;
    }
  }

  /**
   * cast_motion's choice among the objects' bisection results: the smallest
   * safe fraction, with the unsafe fraction found alongside it; the first
   * object wins a tie. Without results both stay 1.
   */
  function ClosestCast(results: seq<(real, real)>): (r: (real, real))
    ensures r.0 <= 1.0
    ensures forall i :: 0 <= i < |results| ==> r.0 <= results[i].0
    ensures r != (1.0, 1.0) ==> exists i :: 0 <= i < |results| && results[i] == r
                                  && forall j :: 0 <= j < i ==> results[j].0 > r.0
    decreases |results|
  {
    if |results| == 0 then (1.0, 1.0)
    else
      var best := ClosestCast(results[..|results| - 1]);
      var last := results[|results| - 1];
      if last.0 < best.0 then last else best
  }

  // ------------------------------------------------------- rest contacts

  /** A contact kept by the rest callback; `object` is absent until one is kept. */
  datatype RestResult = RestResult(collider: Option<nat>, localShape: int, shape: int,
                                   contact: Vec3, normal: Vec3, len: real)

  const NoRestResult: RestResult := RestResult(None, 0, 0, Zero3, Zero3, 0.0)

  /**
   * One contact the solver reports: the point on the other shape, the
   * distance between the two contact points and the unit direction between
   * them (square roots are not modelled, so both come with the contact).
   */
  datatype Hit = Hit(pointB: Vec3, len: real, normal: Vec3)

  /** A contact found against shape `shape` of the object `collider`. */
  datatype Contact = Contact(collider: nat, shape: int, hit: Hit)

  /** The callback's state: the object being tested, the best contact and the other kept contacts. */
  datatype RestData = RestData(
    collider: nat,
    localShape: int,
    shape: int,
    minAllowedDepth: real,
    best: RestResult,
    maxResults: int,
    resultCount: int,
    /** The extra-results buffer, or None when only the best contact is wanted. */
    others: Option<seq<RestResult>>)

  /**
   * The state the callback keeps: with a buffer (of MAX_COLLISIONS slots,
   * more than one result wanted) at most `maxResults` contacts are counted,
   * without one at most one.
   */
  predicate RestValid(rd: RestData)
  {
    && 0 <= rd.resultCount
    && (rd.resultCount > 0 ==> rd.best.len > 0.0)
    && rd.best.len >= 0.0
    && match rd.others
       case None => rd.resultCount <= 1
       case Some(o) => |o| == MAX_COLLISIONS && 1 < rd.maxResults <= MAX_COLLISIONS && rd.resultCount <= rd.maxResults
  }

  /** The first of the first `n` kept results shorter than `tested`, or `n` when none is. */
  function FirstShorter(others: seq<RestResult>, tested: real, n: nat): (i: nat)
    requires n <= |others|
    ensures i <= n
    ensures i < n ==> tested > others[i].len
    ensures forall j :: 0 <= j < i ==> !(tested > others[j].len)
    decreases n
  {
    if n == 0 then 0
    else
      var i := FirstShorter(others, tested, n - 1);
      if i < n - 1 then i else if tested > others[n - 1].len then n - 1 else n
  }

  /** The hit as a rest result of the object being tested. */
  function AsResult(rd: RestData, h: Hit): RestResult
  {
    RestResult(Some(rd.collider), rd.localShape, rd.shape, h.pointB, h.normal, h.len)
  }

  /**
   * _rest_cbk_result. Contacts shallower than the allowed depth are ignored.
   * With a buffer and earlier results, the new contact (or the best one it
   * displaces) takes the slot of the first shorter stored result, or a new
   * slot while there is room, or is dropped. Without a buffer only the
   * count of one is kept. The deepest contact always becomes the best.
   */
  function RestCbkResult(rd: RestData, h: Hit): (r: RestData)
    requires RestValid(rd)
    ensures RestValid(r)
    ensures h.len < rd.minAllowedDepth ==> r == rd
    ensures h.len >= rd.minAllowedDepth && h.len > rd.best.len ==> r.best == AsResult(rd, h)
    ensures !(h.len >= rd.minAllowedDepth && h.len > rd.best.len) ==> r.best == rd.best
    ensures r.resultCount >= rd.resultCount
    ensures h.len >= rd.minAllowedDepth && h.len > rd.best.len ==> r.resultCount >= 1
    ensures r == rd.(best := r.best, resultCount := r.resultCount, others := r.others)
    ensures r.others.Some? == rd.others.Some?
  {
    if h.len < rd.minAllowedDepth then rd
    else
      var isBest := h.len > rd.best.len;
      var rd1 :=
        if rd.others.Some? && rd.resultCount > 0 then
          var o := rd.others.value;
          var prev := rd.resultCount;
          var tested := if isBest then rd.best.len else h.len;
          var idx := FirstShorter(o, tested, prev - 1);
          var count := if idx < prev - 1 then prev else prev + 1;
          if idx < rd.maxResults - 1 then
            rd.(resultCount := count, others := Some(o[idx := if isBest then rd.best else AsResult(rd, h)]))
          else rd.(resultCount := count - 1)
        else if isBest then rd.(resultCount := 1)
        else rd;
      if isBest then rd1.(best := AsResult(rd, h)) else rd1
  }

  /** The rest result a contact becomes when it is kept. */
  function ContactResult(localShape: int, c: Contact): RestResult
  {
    RestResult(Some(c.collider), localShape, c.shape, c.hit.pointB, c.hit.normal, c.hit.len)
  }

  /**
   * Feeds the solver's contacts to the callback in order, naming before each
   * one the object and the shape it was found against.
   */
  function RestFold(rd: RestData, contacts: seq<Contact>): (r: RestData)
    requires RestValid(rd)
    ensures RestValid(r)
    ensures r == rd.(collider := r.collider, shape := r.shape, best := r.best, resultCount := r.resultCount, others := r.others)
    ensures r.others.Some? == rd.others.Some?
    decreases |contacts|
  {
    if |contacts| == 0 then rd
    else
      var c := contacts[0];
      RestFold(RestCbkResult(rd.(collider := c.collider, shape := c.shape), c.hit), contacts[1..])
  }

  /**
   * After any sequence of contacts the best one is at least as deep as every
   * contact that passed the depth filter, and, unless it was there before, is
   * one of those contacts together with the object and shape it was found
   * against.
   */
  lemma {:induction false} RestFoldKeepsDeepest(rd: RestData, contacts: seq<Contact>)
    requires RestValid(rd)
    ensures forall i :: 0 <= i < |contacts| && contacts[i].hit.len >= rd.minAllowedDepth ==>
              RestFold(rd, contacts).best.len >= contacts[i].hit.len
    ensures RestFold(rd, contacts).best.len >= rd.best.len
    ensures RestFold(rd, contacts).best == rd.best ||
            exists i :: 0 <= i < |contacts| && RestFold(rd, contacts).best == ContactResult(rd.localShape, contacts[i])
    ensures RestFold(rd, contacts).minAllowedDepth == rd.minAllowedDepth
    decreases |contacts|
  {
    if |contacts| > 0 {
      var c := contacts[0];
      var rd1 := RestCbkResult(rd.(collider := c.collider, shape := c.shape), c.hit);
      RestFoldKeepsDeepest(rd1, contacts[1..]);
      forall i | 0 <= i < |contacts| && contacts[i].hit.len >= rd.minAllowedDepth
        ensures RestFold(rd, contacts).best.len >= contacts[i].hit.len
      {
        if i > 0 {
          assert contacts[1..][i - 1] == contacts[i];
        }
      }
      var r := RestFold(rd, contacts);
      if r.best != rd.best {
        if r.best == rd1.best {
          assert rd1.best == ContactResult(rd.localShape, contacts[0]);
        } else {
          var j :| 0 <= j < |contacts[1..]| && r.best == ContactResult(rd1.localShape, contacts[1..][j]);
          assert r.best == ContactResult(rd.localShape, contacts[j + 1]);
        }
      }
    }
  }
}
