/**
 * The bounded contact collector of the 2D server: the callback the collision
 * solver calls once per contact pair, which filters by an allowed direction,
 * fills a caller-sized buffer, and once the buffer is full replaces the
 * shallowest stored pair by a deeper one; and the shape-against-shape query
 * that runs the solver with it.
 */
module ContactCollector {
  import opened Optional
  import opened PhysicsTypes

  const CMP_EPSILON: real := 0.00001

  /** The depth the search for the shallowest stored pair starts from. */
  const FAR_DEPTH: real := 100000000000000000000.0

  /** An allowed depth at or past this means "any depth". */
  const UNBOUNDED_DEPTH: real := 1000000000000000000000.0

  /** A contact: the point on the first shape and the point on the second. */
  type ContactPair = (Vec2, Vec2)

  /** The squared distance between a pair's two points. */
  function Depth(p: ContactPair): real
  {
    p.0.Sub(p.1).LengthSquared()
  }

  /**
   * The collector's state: the buffer capacity in pairs, the stored pairs,
   * the number of accepted pairs, the number rejected by the direction
   * filter, and that filter (a zero direction turns it off).
   */
  datatype Collector = Collector(
    max: int,
    pairs: seq<ContactPair>,
    passed: nat,
    invalidByDir: nat,
    validDir: Vec2,
    validDepth: real)

  predicate Valid(c: Collector)
  {
    0 <= c.max && |c.pairs| <= c.max
  }

  /**
   * One pair as the solver reports it. `dirDot` is the allowed direction
   * dotted with the pair's unit direction, which needs a square root and so
   * comes with the report.
   */
  datatype Report = Report(a: Vec2, b: Vec2, dirDot: real)

  /** What the direction filter does with a report. */
  datatype Verdict = Pass | Reject(counted: bool)

  function DirectionFilter(c: Collector, r: Report): (v: Verdict)
    ensures c.validDir == Zero2 ==> v == Pass
    ensures v == Reject(true) ==> c.validDepth < UNBOUNDED_DEPTH
    ensures (c.validDir != Zero2 && c.validDepth < UNBOUNDED_DEPTH
             && Depth((r.a, r.b)) > c.validDepth * c.validDepth) ==> v == Reject(true)
  {
    var len2 := Depth((r.a, r.b));
    if c.validDir == Zero2 then Pass
    else if c.validDepth < UNBOUNDED_DEPTH then
      if len2 > c.validDepth * c.validDepth || (len2 > CMP_EPSILON && r.dirDot < CMP_EPSILON) then Reject(true)
      else Pass
    else if len2 > 0.0 && r.dirDot < CMP_EPSILON then Reject(false)
    else Pass
  }

  /** The smaller of FAR_DEPTH and every stored depth: an independent reference for the search. */
  function MinDepth(pairs: seq<ContactPair>): (m: real)
    ensures m <= FAR_DEPTH
    ensures forall k :: 0 <= k < |pairs| ==> m <= Depth(pairs[k])
    ensures m == FAR_DEPTH || exists k :: 0 <= k < |pairs| && m == Depth(pairs[k])
    decreases |pairs|
  {
    if |pairs| == 0 then FAR_DEPTH
    else
      var m := MinDepth(pairs[..|pairs| - 1]);
      var d := Depth(pairs[|pairs| - 1]);
      if d < m then d else m
  }

  /** The first index whose depth is `m`, searching from `k` on; |pairs| when there is none. */
  function FirstWithDepth(pairs: seq<ContactPair>, m: real, k: nat): (i: nat)
    requires k <= |pairs|
    ensures k <= i <= |pairs|
    ensures i < |pairs| ==> Depth(pairs[i]) == m
    ensures forall j :: k <= j < i ==> Depth(pairs[j]) != m
    decreases |pairs| - k
  {
    if k == |pairs| then k
    else if Depth(pairs[k]) == m then k
    else FirstWithDepth(pairs, m, k + 1)
  }

  /**
   * The slot a full buffer gives up: the first pair of least depth when that
   * depth is below FAR_DEPTH, otherwise slot 0.
   */
  function ShallowestSlot(pairs: seq<ContactPair>): (i: nat)
    requires |pairs| > 0
    ensures i < |pairs|
    ensures MinDepth(pairs) < FAR_DEPTH ==> Depth(pairs[i]) == MinDepth(pairs)
                                             && forall k :: 0 <= k < i ==> Depth(pairs[k]) > MinDepth(pairs)
    ensures MinDepth(pairs) == FAR_DEPTH ==> i == 0
  {
    var m := MinDepth(pairs);
    if m == FAR_DEPTH then 0 else FirstWithDepth(pairs, m, 0)
  }

  /** One more pair in the prefix: the minimum takes its depth when that is smaller. */
  lemma {:induction false} MinDepthStep(pairs: seq<ContactPair>, i: nat)
    requires i < |pairs|
    ensures var m := MinDepth(pairs[..i]);
      MinDepth(pairs[..i + 1]) == if Depth(pairs[i]) < m then Depth(pairs[i]) else m
  {
    assert pairs[..i + 1][..i] == pairs[..i];
  }

  /** What the search knows after the first `i` pairs: their minimum and its first slot. */
  predicate ScanInv(pairs: seq<ContactPair>, i: nat, minDepth: real, idx: nat)
  {
    && i <= |pairs|
    && minDepth == MinDepth(pairs[..i])
    && (minDepth < FAR_DEPTH ==> idx < i && Depth(pairs[idx]) == minDepth)
    && (minDepth == FAR_DEPTH ==> idx == 0)
    && (forall k :: 0 <= k < idx && k < |pairs| ==> Depth(pairs[k]) > minDepth)
  }

  /** One step of the search keeps what it knows. */
  lemma {:induction false} ScanStep(pairs: seq<ContactPair>, i: nat, minDepth: real, idx: nat)
    requires i < |pairs| && ScanInv(pairs, i, minDepth, idx)
    ensures Depth(pairs[i]) < minDepth ==> ScanInv(pairs, i + 1, Depth(pairs[i]), i)
    ensures !(Depth(pairs[i]) < minDepth) ==> ScanInv(pairs, i + 1, minDepth, idx)
  {
    MinDepthStep(pairs, i);
    if Depth(pairs[i]) < minDepth {
      BelowPrefixMin(pairs, i, Depth(pairs[i]));
    }
  }

  /** The search for the shallowest stored pair, as the callback runs it. */
  method Shallowest(pairs: seq<ContactPair>) returns (minDepth: real, idx: nat)
    ensures minDepth == MinDepth(pairs)
    ensures |pairs| > 0 ==> idx == ShallowestSlot(pairs)
  {
    minDepth := FAR_DEPTH;
    idx := 0;
    var i := 0;
    while i < |pairs|
      invariant ScanInv(pairs, i, minDepth, idx)
    {
      ScanStep(pairs, i, minDepth, idx);
      var d := Depth(pairs[i]);
      if d < minDepth {
        minDepth := d;
        idx := i;
      }
      i := i + 1;
    }
    assert pairs[..|pairs|] == pairs;
    if |pairs| > 0 {
      SlotOfScan(pairs, minDepth, idx);
    }
  }

  /** A depth below the minimum of a prefix is below every depth in it. */
  lemma {:induction false} BelowPrefixMin(pairs: seq<ContactPair>, i: nat, d: real)
    requires i <= |pairs| && d < MinDepth(pairs[..i])
    ensures forall k :: 0 <= k < i ==> Depth(pairs[k]) > d
  {
    forall k | 0 <= k < i
      ensures Depth(pairs[k]) > d
    {
      assert pairs[..i][k] == pairs[k];
    }
  }

  /** What the scan ends with is the slot ShallowestSlot names. */
  lemma {:induction false} SlotOfScan(pairs: seq<ContactPair>, minDepth: real, idx: nat)
    requires |pairs| > 0 && minDepth == MinDepth(pairs)
    requires minDepth < FAR_DEPTH ==> idx < |pairs| && Depth(pairs[idx]) == minDepth
    requires minDepth == FAR_DEPTH ==> idx == 0
    requires forall k :: 0 <= k < idx && k < |pairs| ==> Depth(pairs[k]) > minDepth
    ensures idx == ShallowestSlot(pairs)
  {
    var s := ShallowestSlot(pairs);
    if minDepth < FAR_DEPTH {
      assert !(s < idx) && !(idx < s);
    }
  }

  /**
   * The solver's callback for one pair. Nothing is stored when the buffer
   * has no room at all or the direction filter rejects the pair. While there
   * is room the pair is appended; once full it replaces the shallowest stored
   * pair unless it is shallower than that pair.
   */
  function Collect(c: Collector, r: Report): (c': Collector)
    requires Valid(c)
    ensures Valid(c')
    ensures c'.max == c.max && c'.validDir == c.validDir && c'.validDepth == c.validDepth
    ensures c.max == 0 ==> c' == c
    ensures c.max > 0 && DirectionFilter(c, r) == Reject(true) ==> c' == c.(invalidByDir := c.invalidByDir + 1)
    ensures c.max > 0 && DirectionFilter(c, r) == Reject(false) ==> c' == c
    ensures c.max > 0 && DirectionFilter(c, r) == Pass && |c.pairs| < c.max ==>
              c' == c.(pairs := c.pairs + [(r.a, r.b)], passed := c.passed + 1)
    ensures c.max > 0 && DirectionFilter(c, r) == Pass && |c.pairs| == c.max && Depth((r.a, r.b)) < MinDepth(c.pairs) ==>
              c' == c
    ensures c.max > 0 && DirectionFilter(c, r) == Pass && |c.pairs| == c.max && Depth((r.a, r.b)) >= MinDepth(c.pairs) ==>
              c' == c.(pairs := c.pairs[ShallowestSlot(c.pairs) := (r.a, r.b)], passed := c.passed + 1)
    ensures |c'.pairs| >= |c.pairs|
  {
    if c.max == 0 then c
    else match DirectionFilter(c, r)
      case Reject(counted) => if counted then c.(invalidByDir := c.invalidByDir + 1) else c
      case Pass =>
        if |c.pairs| == c.max then
          if Depth((r.a, r.b)) < MinDepth(c.pairs) then c
          else c.(pairs := c.pairs[ShallowestSlot(c.pairs) := (r.a, r.b)], passed := c.passed + 1)
        else c.(pairs := c.pairs + [(r.a, r.b)], passed := c.passed + 1)
  }

  /** The callback as the engine runs it, with the search loop for a full buffer. */
  method CollectOne(c: Collector, r: Report) returns (c': Collector)
    requires Valid(c)
    ensures c' == Collect(c, r)
  {
    if c.max == 0 {
      return c;
    }
    match DirectionFilter(c, r)
    case Reject(counted) =>
      c' := if counted then c.(invalidByDir := c.invalidByDir + 1) else c;
    case Pass =>
      if |c.pairs| == c.max {
        var minDepth, idx := Shallowest(c.pairs);
        if Depth((r.a, r.b)) < minDepth {
          return c;
        }
        c' := c.(pairs := c.pairs[idx := (r.a, r.b)], passed := c.passed + 1);
      } else {
        c' := c.(pairs := c.pairs + [(r.a, r.b)], passed := c.passed + 1);
      }
  }

  /**
   * Once the buffer is full, a stored slot only ever gets deeper, provided
   * the stored pairs are not absurdly far apart (below FAR_DEPTH).
   */
  lemma {:induction false} ReplacementNotShallower(c: Collector, r: Report)
    requires Valid(c) && |c.pairs| == c.max > 0
    requires forall k :: 0 <= k < |c.pairs| ==> Depth(c.pairs[k]) < FAR_DEPTH
    ensures |Collect(c, r).pairs| == |c.pairs|
    ensures forall k :: 0 <= k < |c.pairs| ==> Depth(Collect(c, r).pairs[k]) >= Depth(c.pairs[k])
  {
    var m := MinDepth(c.pairs);
    assert m < FAR_DEPTH by {
      assert m <= Depth(c.pairs[0]);
    }
  }

  /** The pairs of the first `n` reports, in order. */
  function PairsOf(reports: seq<Report>): (r: seq<ContactPair>)
    ensures |r| == |reports| && forall i :: 0 <= i < |reports| ==> r[i] == (reports[i].a, reports[i].b)
  {
    seq(|reports|, i requires 0 <= i < |reports| => (reports[i].a, reports[i].b))
  }

  /**
   * Shape-against-shape collision: with no room for results the solver runs
   * without a collector and no count is reported; otherwise the count is the
   * number of stored pairs. Since no direction filter is set, every reported
   * pair is accepted: the first `resultMax` fill the buffer in order and the
   * count is the smaller of the two numbers.
   */
  method ShapeCollide(resultMax: int, solverHit: bool, reports: seq<Report>)
    returns (hit: bool, count: Option<nat>, results: seq<ContactPair>)
    requires resultMax >= 0
    ensures hit == solverHit
    ensures resultMax == 0 <==> count.None?
    ensures count.Some? ==> count.value == |results| <= resultMax
    ensures count.Some? ==> count.value == (if |reports| < resultMax then |reports| else resultMax)
    ensures count.Some? && |reports| <= resultMax ==> results == PairsOf(reports)
  {
    hit := solverHit;
    if resultMax == 0 {
      return hit, None, [];
    }
    var c := Collector(resultMax, [], 0, 0, Zero2, 0.0);
    var i := 0;
    while i < |reports|
      invariant 0 <= i <= |reports|
      invariant Valid(c) && c.max == resultMax && c.validDir == Zero2
      invariant |c.pairs| == (if i < resultMax then i else resultMax)
      invariant i <= resultMax ==> c.pairs == PairsOf(reports[..i])
    {
      var before := c;
      c := CollectOne(c, reports[i]);
      if i < resultMax {
        assert c.pairs == before.pairs + [(reports[i].a, reports[i].b)];
        assert reports[..i + 1] == reports[..i] + [reports[i]];
      }
      i := i + 1;
    }
    assert reports[..|reports|] == reports;
    return hit, Some(|c.pairs|), c.pairs;
  }
}
