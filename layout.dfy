/**
 * The component list that building the optimisation variables produces, as a
 * pure function of the base representation, the number of base segments, the
 * number of end-effectors and whether contact timings are optimised; and what
 * that list guarantees: its order, its decision flags, unique identifiers, and
 * that every lookup the trajectory sampler makes finds a component of a
 * suitable kind.
 */
module Layout {
  import opened Variables

  datatype BaseRepresentation = CubicHermite | PolyCoeff | Unrecognised

  /** One node spline for the linear base motion, then one for the angular. */
  function HermiteTags(): seq<Tag>
  {
    [Tag(BaseLinear, NodeValuesKind, true), Tag(BaseAngular, NodeValuesKind, true)]
  }

  /** The decision-bearing segments `stem0`, `stem1`, ..., in order. */
  function SegmentTags(stem: VarId, n: nat): (r: seq<Tag>)
    ensures |r| == n
  {
    if n == 0 then [] else SegmentTags(stem, n - 1) + [Tag(Suffixed(stem, n - 1), PolynomialVarsKind, true)]
  }

  /** The segments of one coefficient spline, then the spline itself, informational. */
  function CoeffSplineTags(stem: VarId, n: nat): seq<Tag>
  {
    SegmentTags(stem, n) + [Tag(stem, CoeffSplineKind, false)]
  }

  function BaseTags(rep: BaseRepresentation, nSegments: nat): seq<Tag>
    requires rep != Unrecognised
  {
    if rep == CubicHermite then HermiteTags()
    else CoeffSplineTags(BaseAngular, nSegments) + CoeffSplineTags(BaseLinear, nSegments)
  }

  function ScheduleTags(nEE: nat, optimizeTimings: bool): (r: seq<Tag>)
    ensures |r| == nEE
  {
    if nEE == 0 then []
    else ScheduleTags(nEE - 1, optimizeTimings) + [Tag(Schedule(nEE - 1), ContactScheduleKind, optimizeTimings)]
  }

  function MotionTags(nEE: nat): (r: seq<Tag>)
    ensures |r| == 2 * nEE
  {
    if nEE == 0 then []
    else
      var e := nEE - 1;
      MotionTags(e) + [Tag(MotionXY(e), EndeffectorNodesKind, true), Tag(MotionZ(e), EndeffectorNodesKind, true)]
  }

  function ForceTags(nEE: nat): (r: seq<Tag>)
    ensures |r| == nEE
  {
    if nEE == 0 then [] else ForceTags(nEE - 1) + [Tag(Force(nEE - 1), ForceNodesKind, true)]
  }

  function ExpectedTags(rep: BaseRepresentation, nSegments: nat, nEE: nat, optimizeTimings: bool): seq<Tag>
    requires rep != Unrecognised
  {
    BaseTags(rep, nSegments) + ScheduleTags(nEE, optimizeTimings) + MotionTags(nEE) + ForceTags(nEE)
  }

  /** The number of entries the base representation contributes. */
  function BaseSize(rep: BaseRepresentation, nSegments: nat): nat
  {
    if rep == CubicHermite then 2 else 2 * nSegments + 2
  }

  /** Where `id` stands in the expected list, or -1 for an identifier it does not hold. */
  function Position(rep: BaseRepresentation, nSegments: nat, nEE: nat, id: VarId): int
  {
    var b := BaseSize(rep, nSegments);
    match id
    case BaseLinear => if rep == CubicHermite then 0 else 2 * nSegments + 1
    case BaseAngular => if rep == CubicHermite then 1 else nSegments
    case Suffixed(stem, i) =>
      if rep == CubicHermite || i >= nSegments then -1
      else if stem == BaseAngular then i
      else if stem == BaseLinear then nSegments + 1 + i
      else -1
    case Schedule(e) => if e < nEE then b + e else -1
    case MotionXY(e) => if e < nEE then b + nEE + 2 * e else -1
    case MotionZ(e) => if e < nEE then b + nEE + 2 * e + 1 else -1
    case Force(e) => if e < nEE then b + 3 * nEE + e else -1
  }

  /** Number of decision-bearing entries: the length of the solver's vector in components. */
  function DecisionCount(tags: seq<Tag>): nat
  {
    if tags == [] then 0 else (if tags[0].isDecision then 1 else 0) + DecisionCount(tags[1..])
  }

  lemma {:induction false} SegmentTagsAt(stem: VarId, n: nat)
    ensures forall i :: 0 <= i < n ==> SegmentTags(stem, n)[i] == Tag(Suffixed(stem, i), PolynomialVarsKind, true)
  {
    if n > 0 {
      SegmentTagsAt(stem, n - 1);
    }
  }

  lemma {:induction false} ScheduleTagsAt(nEE: nat, opt: bool)
    ensures forall e :: 0 <= e < nEE ==> ScheduleTags(nEE, opt)[e] == Tag(Schedule(e), ContactScheduleKind, opt)
  {
    if nEE > 0 {
      ScheduleTagsAt(nEE - 1, opt);
    }
  }

  lemma {:induction false} MotionTagsAt(nEE: nat)
    ensures forall e :: 0 <= e < nEE ==>
      MotionTags(nEE)[2 * e] == Tag(MotionXY(e), EndeffectorNodesKind, true) &&
      MotionTags(nEE)[2 * e + 1] == Tag(MotionZ(e), EndeffectorNodesKind, true)
  {
    if nEE > 0 {
      MotionTagsAt(nEE - 1);
    }
  }

  lemma {:induction false} ForceTagsAt(nEE: nat)
    ensures forall e :: 0 <= e < nEE ==> ForceTags(nEE)[e] == Tag(Force(e), ForceNodesKind, true)
  {
    if nEE > 0 {
      ForceTagsAt(nEE - 1);
    }
  }

  /**
   * The coefficient representation: n decision-bearing angular segments, the
   * informational angular spline, n linear segments, the informational linear
   * spline; 2n + 2 entries.
   */
  lemma CoeffBaseLayout(n: nat)
    ensures |BaseTags(PolyCoeff, n)| == 2 * n + 2 == BaseSize(PolyCoeff, n)
    ensures forall i :: 0 <= i < n ==>
      BaseTags(PolyCoeff, n)[i] == Tag(Suffixed(BaseAngular, i), PolynomialVarsKind, true) &&
      BaseTags(PolyCoeff, n)[n + 1 + i] == Tag(Suffixed(BaseLinear, i), PolynomialVarsKind, true)
    ensures BaseTags(PolyCoeff, n)[n] == Tag(BaseAngular, CoeffSplineKind, false)
    ensures BaseTags(PolyCoeff, n)[2 * n + 1] == Tag(BaseLinear, CoeffSplineKind, false)
  {
    SegmentTagsAt(BaseAngular, n);
    SegmentTagsAt(BaseLinear, n);
    var ang := CoeffSplineTags(BaseAngular, n);
    var lin := CoeffSplineTags(BaseLinear, n);
    assert BaseTags(PolyCoeff, n) == ang + lin;
    forall i | 0 <= i < n
      ensures BaseTags(PolyCoeff, n)[n + 1 + i] == Tag(Suffixed(BaseLinear, i), PolynomialVarsKind, true)
    {
      assert (ang + lin)[n + 1 + i] == lin[i];
    }
  }

  /**
   * The full order: the base block, then one contact schedule per
   * end-effector (all flagged alike), then xy- and z-motion per end-effector,
   * then one force per end-effector.
   */
  lemma ExpectedLayout(rep: BaseRepresentation, nSegments: nat, nEE: nat, opt: bool)
    requires rep != Unrecognised
    ensures |BaseTags(rep, nSegments)| == BaseSize(rep, nSegments)
    ensures |ExpectedTags(rep, nSegments, nEE, opt)| == BaseSize(rep, nSegments) + 4 * nEE
    ensures ExpectedTags(rep, nSegments, nEE, opt)[..BaseSize(rep, nSegments)] == BaseTags(rep, nSegments)
    ensures forall e :: 0 <= e < nEE ==>
      ExpectedTags(rep, nSegments, nEE, opt)[BaseSize(rep, nSegments) + e]
        == Tag(Schedule(e), ContactScheduleKind, opt)
    ensures forall e :: 0 <= e < nEE ==>
      ExpectedTags(rep, nSegments, nEE, opt)[BaseSize(rep, nSegments) + nEE + 2 * e]
        == Tag(MotionXY(e), EndeffectorNodesKind, true)
    ensures forall e :: 0 <= e < nEE ==>
      ExpectedTags(rep, nSegments, nEE, opt)[BaseSize(rep, nSegments) + nEE + 2 * e + 1]
        == Tag(MotionZ(e), EndeffectorNodesKind, true)
    ensures forall e :: 0 <= e < nEE ==>
      ExpectedTags(rep, nSegments, nEE, opt)[BaseSize(rep, nSegments) + 3 * nEE + e]
        == Tag(Force(e), ForceNodesKind, true)
  {
    if rep == PolyCoeff {
      CoeffBaseLayout(nSegments);
    }
    var all := ExpectedTags(rep, nSegments, nEE, opt);
    ScheduleTagsAt(nEE, opt);
    MotionTagsAt(nEE);
    ForceTagsAt(nEE);
    assert all[..BaseSize(rep, nSegments)] == BaseTags(rep, nSegments);
    forall e | 0 <= e < nEE
      ensures all[BaseSize(rep, nSegments) + e] == Tag(Schedule(e), ContactScheduleKind, opt)
      ensures all[BaseSize(rep, nSegments) + nEE + 2 * e] == Tag(MotionXY(e), EndeffectorNodesKind, true)
      ensures all[BaseSize(rep, nSegments) + nEE + 2 * e + 1] == Tag(MotionZ(e), EndeffectorNodesKind, true)
      ensures all[BaseSize(rep, nSegments) + 3 * nEE + e] == Tag(Force(e), ForceNodesKind, true)
    {
      EndEffectorBlockAt(rep, nSegments, nEE, opt, e);
    }
  }

  lemma EndEffectorBlockAt(rep: BaseRepresentation, nSegments: nat, nEE: nat, opt: bool, e: nat)
    requires rep != Unrecognised && e < nEE
    requires |BaseTags(rep, nSegments)| == BaseSize(rep, nSegments)
    ensures var all, b := ExpectedTags(rep, nSegments, nEE, opt), BaseSize(rep, nSegments);
      |all| == b + 4 * nEE &&
      all[b + e] == ScheduleTags(nEE, opt)[e] &&
      all[b + nEE + 2 * e] == MotionTags(nEE)[2 * e] &&
      all[b + nEE + 2 * e + 1] == MotionTags(nEE)[2 * e + 1] &&
      all[b + 3 * nEE + e] == ForceTags(nEE)[e]
  {
    ScheduleTagsAt(nEE, opt);
    MotionTagsAt(nEE);
    ForceTagsAt(nEE);
    var base, sched, motion, force :=
      BaseTags(rep, nSegments), ScheduleTags(nEE, opt), MotionTags(nEE), ForceTags(nEE);
    var p1 := base + sched;
    var p2 := p1 + motion;
    assert ExpectedTags(rep, nSegments, nEE, opt) == p2 + force;
    AppendAt(p2, force, e);
    AppendAt(p1, motion, 2 * e);
    AppendAt(p1, motion, 2 * e + 1);
    AppendAt(base, sched, e);
    assert (p2 + force)[|base| + e] == p2[|base| + e] == p1[|base| + e];
    assert (p2 + force)[|p1| + 2 * e] == p2[|p1| + 2 * e];
    assert (p2 + force)[|p1| + 2 * e + 1] == p2[|p1| + 2 * e + 1];
  }

  lemma AppendAt<T>(a: seq<T>, b: seq<T>, i: nat)
    requires i < |b|
    ensures (a + b)[|a| + i] == b[i]
  {
  }

  lemma PositionOfBaseEntry(rep: BaseRepresentation, nSegments: nat, nEE: nat, k: nat)
    requires rep != Unrecognised && k < BaseSize(rep, nSegments)
    requires |BaseTags(rep, nSegments)| == BaseSize(rep, nSegments)
    ensures Position(rep, nSegments, nEE, BaseTags(rep, nSegments)[k].id) == k
  {
    if rep == PolyCoeff {
      CoeffBaseLayout(nSegments);
      if k < nSegments {
      } else if k == nSegments {
      } else if k < 2 * nSegments + 1 {
        assert BaseTags(rep, nSegments)[nSegments + 1 + (k - nSegments - 1)]
          == Tag(Suffixed(BaseLinear, k - nSegments - 1), PolynomialVarsKind, true);
      }
    }
  }

  /** Every entry stands where Position places its identifier. */
  lemma PositionOfEveryEntry(rep: BaseRepresentation, nSegments: nat, nEE: nat, opt: bool, k: nat)
    requires rep != Unrecognised
    requires k < |ExpectedTags(rep, nSegments, nEE, opt)|
    ensures Position(rep, nSegments, nEE, ExpectedTags(rep, nSegments, nEE, opt)[k].id) == k
  {
    if rep == PolyCoeff {
      CoeffBaseLayout(nSegments);
    }
    var base := BaseTags(rep, nSegments);
    if k < |base| {
      assert ExpectedTags(rep, nSegments, nEE, opt)[k] == base[k];
      PositionOfBaseEntry(rep, nSegments, nEE, k);
    } else {
      PositionOfEndEffectorEntry(rep, nSegments, nEE, opt, k - |base|);
    }
  }

  lemma PositionOfEndEffectorEntry(rep: BaseRepresentation, nSegments: nat, nEE: nat, opt: bool, j: nat)
    requires rep != Unrecognised
    requires |BaseTags(rep, nSegments)| == BaseSize(rep, nSegments)
    requires BaseSize(rep, nSegments) + j < |ExpectedTags(rep, nSegments, nEE, opt)|
    ensures Position(rep, nSegments, nEE, ExpectedTags(rep, nSegments, nEE, opt)[BaseSize(rep, nSegments) + j].id)
      == BaseSize(rep, nSegments) + j
  {
    if j < nEE {
      PositionOfSchedule(rep, nSegments, nEE, opt, j);
    } else if j < 3 * nEE {
      var e := (j - nEE) / 2;
      if (j - nEE) % 2 == 0 {
        assert j == nEE + 2 * e;
        PositionOfMotion(rep, nSegments, nEE, opt, e);
      } else {
        assert j == nEE + 2 * e + 1;
        PositionOfMotion(rep, nSegments, nEE, opt, e);
      }
    } else {
      PositionOfForce(rep, nSegments, nEE, opt, j - 3 * nEE);
    }
  }

  lemma PositionOfSchedule(rep: BaseRepresentation, nSegments: nat, nEE: nat, opt: bool, e: nat)
    requires rep != Unrecognised && e < nEE
    requires |BaseTags(rep, nSegments)| == BaseSize(rep, nSegments)
    ensures var b := BaseSize(rep, nSegments);
      b + e < |ExpectedTags(rep, nSegments, nEE, opt)| &&
      Position(rep, nSegments, nEE, ExpectedTags(rep, nSegments, nEE, opt)[b + e].id) == b + e
  {
    EndEffectorBlockAt(rep, nSegments, nEE, opt, e);
    ScheduleTagsAt(nEE, opt);
  }

  lemma PositionOfMotion(rep: BaseRepresentation, nSegments: nat, nEE: nat, opt: bool, e: nat)
    requires rep != Unrecognised && e < nEE
    requires |BaseTags(rep, nSegments)| == BaseSize(rep, nSegments)
    ensures var b := BaseSize(rep, nSegments);
      b + nEE + 2 * e + 1 < |ExpectedTags(rep, nSegments, nEE, opt)| &&
      Position(rep, nSegments, nEE, ExpectedTags(rep, nSegments, nEE, opt)[b + nEE + 2 * e].id) == b + nEE + 2 * e &&
      Position(rep, nSegments, nEE, ExpectedTags(rep, nSegments, nEE, opt)[b + nEE + 2 * e + 1].id)
        == b + nEE + 2 * e + 1
  {
    EndEffectorBlockAt(rep, nSegments, nEE, opt, e);
    MotionTagsAt(nEE);
  }

  lemma PositionOfForce(rep: BaseRepresentation, nSegments: nat, nEE: nat, opt: bool, e: nat)
    requires rep != Unrecognised && e < nEE
    requires |BaseTags(rep, nSegments)| == BaseSize(rep, nSegments)
    ensures var b := BaseSize(rep, nSegments);
      b + 3 * nEE + e < |ExpectedTags(rep, nSegments, nEE, opt)| &&
      Position(rep, nSegments, nEE, ExpectedTags(rep, nSegments, nEE, opt)[b + 3 * nEE + e].id) == b + 3 * nEE + e
  {
    EndEffectorBlockAt(rep, nSegments, nEE, opt, e);
    ForceTagsAt(nEE);
  }

  predicate UniqueIds(tags: seq<Tag>)
  {
    forall i, j :: 0 <= i < j < |tags| ==> tags[i].id != tags[j].id
  }

  /** No identifier occurs twice in the assembled tree. */
  lemma IdsUnique(rep: BaseRepresentation, nSegments: nat, nEE: nat, opt: bool)
    requires rep != Unrecognised
    ensures UniqueIds(ExpectedTags(rep, nSegments, nEE, opt))
  {
    forall i, j | 0 <= i < j < |ExpectedTags(rep, nSegments, nEE, opt)|
      ensures ExpectedTags(rep, nSegments, nEE, opt)[i].id != ExpectedTags(rep, nSegments, nEE, opt)[j].id
    {
      PositionOfEveryEntry(rep, nSegments, nEE, opt, i);
      PositionOfEveryEntry(rep, nSegments, nEE, opt, j);
    }
  }

  /** A lookup by identifier finds an identifier of the tree exactly where Position places it. */
  lemma FindAtPosition(rep: BaseRepresentation, nSegments: nat, nEE: nat, opt: bool, id: VarId)
    requires rep != Unrecognised
    requires 0 <= Position(rep, nSegments, nEE, id) < |ExpectedTags(rep, nSegments, nEE, opt)|
    requires ExpectedTags(rep, nSegments, nEE, opt)[Position(rep, nSegments, nEE, id)].id == id
    ensures Find(ExpectedTags(rep, nSegments, nEE, opt), id) == Some(Position(rep, nSegments, nEE, id))
  {
    var tags := ExpectedTags(rep, nSegments, nEE, opt);
    var r := Find(tags, id);
    assert r.Some?;
    PositionOfEveryEntry(rep, nSegments, nEE, opt, r.value);
  }

  /** Looking `id` up finds it, at its position, with the given kind. */
  predicate LookupResolves(rep: BaseRepresentation, nSegments: nat, nEE: nat, opt: bool, id: VarId, kind: Kind)
    requires rep != Unrecognised
  {
    var tags, k := ExpectedTags(rep, nSegments, nEE, opt), Position(rep, nSegments, nEE, id);
    0 <= k < |tags| && Find(tags, id) == Some(k) && tags[k].kind == kind
  }

  /**
   * The base lookups of the trajectory sampler resolve: the linear and the
   * angular base spline (node splines, or the informational coefficient
   * splines).
   */
  lemma BaseLookupsResolve(rep: BaseRepresentation, nSegments: nat, nEE: nat, opt: bool)
    requires rep != Unrecognised
    ensures var splineKind := if rep == CubicHermite then NodeValuesKind else CoeffSplineKind;
      LookupResolves(rep, nSegments, nEE, opt, BaseLinear, splineKind) &&
      LookupResolves(rep, nSegments, nEE, opt, BaseAngular, splineKind)
  {
    var tags := ExpectedTags(rep, nSegments, nEE, opt);
    var base := BaseTags(rep, nSegments);
    if rep == PolyCoeff {
      CoeffBaseLayout(nSegments);
    }
    assert tags == base + ScheduleTags(nEE, opt) + MotionTags(nEE) + ForceTags(nEE);
    var lin, ang := Position(rep, nSegments, nEE, BaseLinear), Position(rep, nSegments, nEE, BaseAngular);
    assert tags[lin] == base[lin] && tags[ang] == base[ang];
    FindAtPosition(rep, nSegments, nEE, opt, BaseLinear);
    FindAtPosition(rep, nSegments, nEE, opt, BaseAngular);
  }

  /**
   * The per end-effector lookups of the trajectory sampler resolve: its
   * contact schedule, its xy-motion and its force.
   */
  lemma EndEffectorLookupsResolve(rep: BaseRepresentation, nSegments: nat, nEE: nat, opt: bool, e: nat)
    requires rep != Unrecognised && e < nEE
    ensures LookupResolves(rep, nSegments, nEE, opt, Schedule(e), ContactScheduleKind)
    ensures LookupResolves(rep, nSegments, nEE, opt, MotionXY(e), EndeffectorNodesKind)
    ensures LookupResolves(rep, nSegments, nEE, opt, Force(e), ForceNodesKind)
  {
    if rep == PolyCoeff {
      CoeffBaseLayout(nSegments);
    }
    ScheduleLookup(rep, nSegments, nEE, opt, e);
    MotionLookup(rep, nSegments, nEE, opt, e);
    ForceLookup(rep, nSegments, nEE, opt, e);
  }

  lemma ScheduleLookup(rep: BaseRepresentation, nSegments: nat, nEE: nat, opt: bool, e: nat)
    requires rep != Unrecognised && e < nEE
    requires |BaseTags(rep, nSegments)| == BaseSize(rep, nSegments)
    ensures LookupResolves(rep, nSegments, nEE, opt, Schedule(e), ContactScheduleKind)
  {
    EndEffectorBlockAt(rep, nSegments, nEE, opt, e);
    ScheduleTagsAt(nEE, opt);
    FindAtPosition(rep, nSegments, nEE, opt, Schedule(e));
  }

  lemma MotionLookup(rep: BaseRepresentation, nSegments: nat, nEE: nat, opt: bool, e: nat)
    requires rep != Unrecognised && e < nEE
    requires |BaseTags(rep, nSegments)| == BaseSize(rep, nSegments)
    ensures LookupResolves(rep, nSegments, nEE, opt, MotionXY(e), EndeffectorNodesKind)
  {
    EndEffectorBlockAt(rep, nSegments, nEE, opt, e);
    MotionTagsAt(nEE);
    FindAtPosition(rep, nSegments, nEE, opt, MotionXY(e));
  }

  lemma ForceLookup(rep: BaseRepresentation, nSegments: nat, nEE: nat, opt: bool, e: nat)
    requires rep != Unrecognised && e < nEE
    requires |BaseTags(rep, nSegments)| == BaseSize(rep, nSegments)
    ensures LookupResolves(rep, nSegments, nEE, opt, Force(e), ForceNodesKind)
  {
    EndEffectorBlockAt(rep, nSegments, nEE, opt, e);
    ForceTagsAt(nEE);
    FindAtPosition(rep, nSegments, nEE, opt, Force(e));
  }

  lemma {:induction false} DecisionCountAppend(a: seq<Tag>, b: seq<Tag>)
    ensures DecisionCount(a + b) == DecisionCount(a) + DecisionCount(b)
  {
    if a == [] {
      assert a + b == b;
    } else {
      assert a + b != [] && (a + b)[0] == a[0];
      assert (a + b)[1..] == a[1..] + b;
      DecisionCountAppend(a[1..], b);
      assert DecisionCount(a + b) == (if a[0].isDecision then 1 else 0) + DecisionCount(a[1..] + b);
    }
  }

  lemma {:induction false} DecisionCountAll(tags: seq<Tag>)
    requires forall k :: 0 <= k < |tags| ==> tags[k].isDecision
    ensures DecisionCount(tags) == |tags|
  {
    if tags != [] {
      DecisionCountAll(tags[1..]);
    }
  }

  lemma {:induction false} DecisionCountNone(tags: seq<Tag>)
    requires forall k :: 0 <= k < |tags| ==> !tags[k].isDecision
    ensures DecisionCount(tags) == 0
  {
    if tags != [] {
      DecisionCountNone(tags[1..]);
    }
  }

  lemma CoeffSplineDecisions(stem: VarId, n: nat)
    ensures DecisionCount(CoeffSplineTags(stem, n)) == n
  {
    SegmentTagsAt(stem, n);
    DecisionCountAll(SegmentTags(stem, n));
    DecisionCountNone([Tag(stem, CoeffSplineKind, false)]);
    DecisionCountAppend(SegmentTags(stem, n), [Tag(stem, CoeffSplineKind, false)]);
  }

  lemma BaseDecisions(rep: BaseRepresentation, nSegments: nat)
    requires rep != Unrecognised
    ensures DecisionCount(BaseTags(rep, nSegments)) == if rep == CubicHermite then 2 else 2 * nSegments
  {
    if rep == CubicHermite {
      DecisionCountAll(HermiteTags());
    } else {
      CoeffSplineDecisions(BaseAngular, nSegments);
      CoeffSplineDecisions(BaseLinear, nSegments);
      DecisionCountAppend(CoeffSplineTags(BaseAngular, nSegments), CoeffSplineTags(BaseLinear, nSegments));
    }
  }

  lemma ScheduleDecisions(nEE: nat, opt: bool)
    ensures DecisionCount(ScheduleTags(nEE, opt)) == if opt then nEE else 0
  {
    ScheduleTagsAt(nEE, opt);
    if opt {
      DecisionCountAll(ScheduleTags(nEE, opt));
    } else {
      DecisionCountNone(ScheduleTags(nEE, opt));
    }
  }

  lemma MotionDecisions(nEE: nat)
    ensures DecisionCount(MotionTags(nEE)) == 2 * nEE
  {
    var motion := MotionTags(nEE);
    MotionTagsAt(nEE);
    forall k | 0 <= k < |motion| ensures motion[k].isDecision {
      var e := k / 2;
      if k % 2 == 0 {
        assert motion[2 * e] == Tag(MotionXY(e), EndeffectorNodesKind, true);
      } else {
        assert motion[2 * e + 1] == Tag(MotionZ(e), EndeffectorNodesKind, true);
      }
    }
    DecisionCountAll(motion);
  }

  /**
   * Size of the solver's vector in components: every base segment or node
   * spline, the schedules only when timings are optimised, and the three node
   * sets of every end-effector. The coefficient splines are informational.
   */
  lemma DecisionEntries(rep: BaseRepresentation, nSegments: nat, nEE: nat, opt: bool)
    requires rep != Unrecognised
    ensures DecisionCount(ExpectedTags(rep, nSegments, nEE, opt)) ==
      (if rep == CubicHermite then 2 else 2 * nSegments) + (if opt then nEE else 0) + 3 * nEE
  {
    var base, sched, motion, force :=
      BaseTags(rep, nSegments), ScheduleTags(nEE, opt), MotionTags(nEE), ForceTags(nEE);
    DecisionCountAppend(base + sched + motion, force);
    DecisionCountAppend(base + sched, motion);
    DecisionCountAppend(base, sched);
    BaseDecisions(rep, nSegments);
    ScheduleDecisions(nEE, opt);
    MotionDecisions(nEE);
    ForceTagsAt(nEE);
    DecisionCountAll(force);
  }
}
