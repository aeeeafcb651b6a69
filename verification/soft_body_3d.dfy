/**
 * The bookkeeping part of a 3D soft body: its default simulation settings,
 * the constraints and collision exceptions it holds, and the reference-counted
 * list of areas whose gravity and wind act on it. The list is kept ordered by
 * area priority and holds each area once, with a count of how many
 * area/soft-body pairs currently put it there.
 */
module SoftBody3D {
  import SeqUtil

  type Rid = nat

  /** One area in the list: which area, its priority, and how many pairs hold it. */
  datatype AreaRef = AreaRef(area: Rid, priority: int, refCount: int)

  function Priority(e: AreaRef): int { e.priority }

  datatype SoftBody = SoftBody(
    collisionMargin: real,
    totalMass: real,
    invTotalMass: real,
    iterationCount: int,
    linearStiffness: real,
    pressureCoefficient: real,
    dampingCoefficient: real,
    dragCoefficient: real,
    constraints: set<Rid>,
    areas: seq<AreaRef>,
    exceptions: set<Rid>,
    islandStep: nat)

  /** A freshly created soft body. */
  function NewSoftBody(): (s: SoftBody)
    ensures s.collisionMargin == 0.05 && s.iterationCount == 5
    ensures s.totalMass == 1.0 && s.invTotalMass * s.totalMass == 1.0
    ensures s.linearStiffness == 0.5 && s.pressureCoefficient == 0.0
    ensures s.dampingCoefficient == 0.01 && s.dragCoefficient == 0.0
    ensures s.constraints == {} && s.areas == [] && s.exceptions == {} && s.islandStep == 0
  {
    SoftBody(0.05, 1.0, 1.0, 5, 0.5, 0.0, 0.01, 0.0, {}, [], {}, 0)
  }

  /** The coefficients documented as lying in [0, 1] start there. */
  lemma {:induction false} DefaultsInRange()
    ensures var s := NewSoftBody();
      && 0.0 <= s.linearStiffness <= 1.0
      && 0.0 <= s.dampingCoefficient <= 1.0
      && 0.0 <= s.dragCoefficient <= 1.0
      && s.collisionMargin > 0.0
  {
  }

  // ---------------------------------------------------------------------
  // Constraints and exceptions

  function AddConstraint(s: SoftBody, c: Rid): (r: SoftBody)
    ensures r.constraints == s.constraints + {c} && r.(constraints := s.constraints) == s
  {
    s.(constraints := s.constraints + {c})
  }

  function RemoveConstraint(s: SoftBody, c: Rid): (r: SoftBody)
    ensures r.constraints == s.constraints - {c} && r.(constraints := s.constraints) == s
  {
    s.(constraints := s.constraints - {c})
  }

  function ClearConstraints(s: SoftBody): (r: SoftBody)
    ensures r.constraints == {} && r.(constraints := s.constraints) == s
  {
    s.(constraints := {})
  }

  function AddException(s: SoftBody, rid: Rid): (r: SoftBody)
    ensures HasException(r, rid)
    ensures forall x :: x != rid ==> (HasException(r, x) <==> HasException(s, x))
  {
    s.(exceptions := s.exceptions + {rid})
  }

  function RemoveException(s: SoftBody, rid: Rid): (r: SoftBody)
    ensures !HasException(r, rid)
    ensures forall x :: x != rid ==> (HasException(r, x) <==> HasException(s, x))
  {
    s.(exceptions := s.exceptions - {rid})
  }

  predicate HasException(s: SoftBody, rid: Rid)
  {
    rid in s.exceptions
  }

  // ---------------------------------------------------------------------
  // Reference-counted area list

  /** Position of `area` in the list, or -1; entries are identified by their area alone. */
  function FindArea(areas: seq<AreaRef>, area: Rid): (i: int)
    ensures -1 <= i < |areas|
    ensures i == -1 <==> forall k :: 0 <= k < |areas| ==> areas[k].area != area
    ensures i >= 0 ==> areas[i].area == area && forall k :: 0 <= k < i ==> areas[k].area != area
  {
    if |areas| == 0 then -1
    else if areas[0].area == area then 0
    else
      var j := FindArea(areas[1..], area);
      if j == -1 then -1 else j + 1
  }

  /** The list holds each area once, in priority order, each with a positive count. */
  predicate AreasValid(areas: seq<AreaRef>)
  {
    && SeqUtil.SortedBy(areas, Priority)
    && (forall i, j :: 0 <= i < j < |areas| ==> areas[i].area != areas[j].area)
    && (forall i :: 0 <= i < |areas| ==> areas[i].refCount >= 1)
  }

  /** How many pairs currently hold `area` on the body; 0 when it is not listed. */
  function RefCount(areas: seq<AreaRef>, area: Rid): (n: int)
  {
    var i := FindArea(areas, area);
    if i == -1 then 0 else areas[i].refCount
  }

  /**
   * add_area: a listed area gets its count raised; a new area is inserted
   * with count 1 before the first entry of strictly higher priority.
   */
  function AddArea(s: SoftBody, area: Rid, priority: int): (r: SoftBody)
    requires AreasValid(s.areas)
    ensures AreasValid(r.areas)
    ensures RefCount(r.areas, area) == RefCount(s.areas, area) + 1
    ensures forall x :: x != area ==> RefCount(r.areas, x) == RefCount(s.areas, x)
    ensures r.(areas := s.areas) == s
  {
    var i := FindArea(s.areas, area);
    if i > -1 then
      var e := s.areas[i];
      var areas := s.areas[i := e.(refCount := e.refCount + 1)];
      assert forall x :: FindArea(areas, x) == FindArea(s.areas, x) by {
        forall x ensures FindArea(areas, x) == FindArea(s.areas, x) {
          FindAreaSameIds(s.areas, areas, x);
        }
      }
      s.(areas := areas)
    else
      var areas := SeqUtil.OrderedInsertBy(s.areas, AreaRef(area, priority, 1), Priority);
      InsertNewArea(s.areas, AreaRef(area, priority, 1));
      s.(areas := areas)
  }

  /**
   * remove_area: a listed area gets its count lowered and leaves the list
   * once no pair holds it; an unlisted area is ignored.
   */
  function RemoveArea(s: SoftBody, area: Rid): (r: SoftBody)
    requires AreasValid(s.areas)
    ensures AreasValid(r.areas)
    ensures RefCount(r.areas, area) == if RefCount(s.areas, area) > 0 then RefCount(s.areas, area) - 1 else 0
    ensures forall x :: x != area ==> RefCount(r.areas, x) == RefCount(s.areas, x)
    ensures r.(areas := s.areas) == s
  {
    var i := FindArea(s.areas, area);
    if i > -1 then
      var e := s.areas[i];
      if e.refCount - 1 < 1 then
        var areas := SeqUtil.RemoveAt(s.areas, i);
        RemoveListedArea(s.areas, i);
        s.(areas := areas)
      else
        var areas := s.areas[i := e.(refCount := e.refCount - 1)];
        assert forall x :: FindArea(areas, x) == FindArea(s.areas, x) by {
          forall x ensures FindArea(areas, x) == FindArea(s.areas, x) {
            FindAreaSameIds(s.areas, areas, x);
          }
        }
        s.(areas := areas)
    else
      s
  }

  /** Lists with the same areas in the same places are searched alike. */
  lemma {:induction false} FindAreaSameIds(a: seq<AreaRef>, b: seq<AreaRef>, x: Rid)
    requires |a| == |b| && forall k :: 0 <= k < |a| ==> a[k].area == b[k].area
    ensures FindArea(a, x) == FindArea(b, x)
  {
    if |a| > 0 {
      FindAreaSameIds(a[1..], b[1..], x);
    }
  }

  /** In a list without repeated areas, the entry at `i` is the one found for its area. */
  lemma {:induction false} FindAreaDistinct(areas: seq<AreaRef>, i: nat)
    requires i < |areas|
    requires forall p, q :: 0 <= p < q < |areas| ==> areas[p].area != areas[q].area
    ensures FindArea(areas, areas[i].area) == i
  {
  }

  lemma {:induction false} InsertNewArea(areas: seq<AreaRef>, e: AreaRef)
    requires AreasValid(areas) && e.refCount == 1
    requires FindArea(areas, e.area) == -1
    ensures var r := SeqUtil.OrderedInsertBy(areas, e, Priority);
      && AreasValid(r)
      && RefCount(r, e.area) == 1
      && forall x :: x != e.area ==> RefCount(r, x) == RefCount(areas, x)
  {
    var i := SeqUtil.InsertPosition(areas, e, Priority);
    var r := SeqUtil.OrderedInsertBy(areas, e, Priority);
    assert r == SeqUtil.InsertAt(areas, i, e);
    InsertKeepsDistinct(areas, i, e);
    FindAreaDistinct(r, i);
    forall x | x != e.area ensures RefCount(r, x) == RefCount(areas, x) {
      InsertKeepsCount(areas, i, e, x);
    }
  }

  /** Inserting an area that is not listed keeps the areas distinct. */
  lemma {:induction false} InsertKeepsDistinct(areas: seq<AreaRef>, i: nat, e: AreaRef)
    requires i <= |areas| && FindArea(areas, e.area) == -1
    requires forall p, q :: 0 <= p < q < |areas| ==> areas[p].area != areas[q].area
    ensures var r := SeqUtil.InsertAt(areas, i, e);
      forall p, q :: 0 <= p < q < |r| ==> r[p].area != r[q].area
  {
    var r := SeqUtil.InsertAt(areas, i, e);
    forall p, q | 0 <= p < q < |r| ensures r[p].area != r[q].area {
      if p == i {
        assert r[q] == areas[q - 1];
      } else if q == i {
        assert r[p] == areas[p];
      } else {
        var p' := if p < i then p else p - 1;
        var q' := if q < i then q else q - 1;
        assert r[p] == areas[p'] && r[q] == areas[q'] && p' < q';
      }
    }
  }

  /** Inserting one area leaves the count of every other area as it was. */
  lemma {:induction false} InsertKeepsCount(areas: seq<AreaRef>, i: nat, e: AreaRef, x: Rid)
    requires i <= |areas| && x != e.area
    requires forall p, q :: 0 <= p < q < |areas| ==> areas[p].area != areas[q].area
    requires var r := SeqUtil.InsertAt(areas, i, e);
      forall p, q :: 0 <= p < q < |r| ==> r[p].area != r[q].area
    ensures RefCount(SeqUtil.InsertAt(areas, i, e), x) == RefCount(areas, x)
  {
    var r := SeqUtil.InsertAt(areas, i, e);
    var j := FindArea(areas, x);
    if j == -1 {
      forall k | 0 <= k < |r| ensures r[k].area != x {
        if k < i { assert r[k] == areas[k]; }
        else if k > i { assert r[k] == areas[k - 1]; }
      }
    } else {
      var j' := if j < i then j else j + 1;
      assert r[j'] == areas[j];
      FindAreaDistinct(r, j');
    }
  }

  lemma {:induction false} RemoveListedArea(areas: seq<AreaRef>, i: nat)
    requires AreasValid(areas) && i < |areas|
    ensures var r := SeqUtil.RemoveAt(areas, i);
      && AreasValid(r)
      && RefCount(r, areas[i].area) == 0
      && forall x :: x != areas[i].area ==> RefCount(r, x) == RefCount(areas, x)
  {
    var r := SeqUtil.RemoveAt(areas, i);
    assert SeqUtil.SortedBy(r, Priority) by {
      forall p, q | 0 <= p < q < |r| ensures r[p].priority <= r[q].priority {
        var p' := if p < i then p else p + 1;
        var q' := if q < i then q else q + 1;
        assert r[p] == areas[p'] && r[q] == areas[q'] && p' < q';
      }
    }
    assert forall p, q :: 0 <= p < q < |r| ==> r[p].area != r[q].area by {
      forall p, q | 0 <= p < q < |r| ensures r[p].area != r[q].area {
        var p' := if p < i then p else p + 1;
        var q' := if q < i then q else q + 1;
        assert r[p] == areas[p'] && r[q] == areas[q'] && p' < q';
      }
    }
    assert forall k :: 0 <= k < |r| ==> r[k].area != areas[i].area by {
      forall k | 0 <= k < |r| ensures r[k].area != areas[i].area {
        var k' := if k < i then k else k + 1;
        assert r[k] == areas[k'] && k' != i;
      }
    }
    forall x | x != areas[i].area ensures RefCount(r, x) == RefCount(areas, x) {
      var j := FindArea(areas, x);
      if j == -1 {
        assert forall k :: 0 <= k < |r| ==> r[k].area != x by {
          forall k | 0 <= k < |r| ensures r[k].area != x {
            var k' := if k < i then k else k + 1;
            assert r[k] == areas[k'];
          }
        }
      } else {
        assert j != i;
        var j' := if j < i then j else j - 1;
        assert r[j'] == areas[j];
        FindAreaDistinct(r, j');
      }
    }
  }

  /** Adding an area and removing it again leaves the list exactly as it was. */
  lemma {:induction false} AddRemoveRoundTrip(s: SoftBody, area: Rid, priority: int)
    requires AreasValid(s.areas)
    ensures RemoveArea(AddArea(s, area, priority), area) == s
  {
    if FindArea(s.areas, area) > -1 {
      RoundTripListed(s, area, priority);
    } else {
      RoundTripNew(s, area, priority);
    }
  }

  /** AddRemoveRoundTrip for an area already listed: its count goes up and back down. */
  lemma {:induction false} RoundTripListed(s: SoftBody, area: Rid, priority: int)
    requires AreasValid(s.areas) && FindArea(s.areas, area) > -1
    ensures RemoveArea(AddArea(s, area, priority), area) == s
  {
    var i := FindArea(s.areas, area);
    var t := AddArea(s, area, priority);
    FindAreaSameIds(s.areas, t.areas, area);
    assert t.areas[i] == s.areas[i].(refCount := s.areas[i].refCount + 1);
    assert t.areas[i := s.areas[i]] == s.areas;
  }

  /** AddRemoveRoundTrip for a new area: it is inserted and taken out at the same place. */
  lemma {:induction false} RoundTripNew(s: SoftBody, area: Rid, priority: int)
    requires AreasValid(s.areas) && FindArea(s.areas, area) == -1
    ensures RemoveArea(AddArea(s, area, priority), area) == s
  {
    var t := AddArea(s, area, priority);
    var e := AreaRef(area, priority, 1);
    var k := SeqUtil.InsertPosition(s.areas, e, Priority);
    assert t.areas == SeqUtil.InsertAt(s.areas, k, e);
    InsertNewArea(s.areas, e);
    FindAreaDistinct(t.areas, k);
    assert SeqUtil.RemoveAt(t.areas, k) == s.areas;
  }
}
