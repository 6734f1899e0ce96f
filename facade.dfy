/**
 * The motion-optimiser facade: it holds the robot model, the optimisation
 * parameters and the initial and final base states; builds the default
 * initial state; assembles the tree of optimisation variables (base
 * representation, contact schedules, end-effector motions and forces, with
 * their observers and bounds); and samples the solver's recorded iterates
 * into robot trajectories.
 */
module Facade {
  import opened Geometry
  import opened Variables
  import opened Layout
  import opened Sampler

  /** What the facade reads of the robot model; end-effectors are 0 .. |nominalStanceInBase| - 1. */
  datatype RobotModel = RobotModel(nominalStanceInBase: seq<Vec3>, forceLimit: real, standingZForce: real)

  /** What the facade reads of the optimisation parameters. */
  datatype OptParameters = OptParameters(
    baseRepresentation: BaseRepresentation,
    basePolyDurations: seq<real>,
    orderCoeffPolys: nat,
    contactTimings: seq<seq<real>>,
    minPhaseDuration: real,
    maxPhaseDuration: real,
    forceSplinesPerStancePhase: nat,
    /** Whether a total-time constraint is used, which makes the contact timings decision variables. */
    totalTimeConstrained: bool)

  datatype BuildError = UnsupportedRepresentation | MissingContactTimings(ee: EEId)

  datatype Result<T> = Success(value: T) | Failure(error: BuildError)

  /** Every variable set here is three-dimensional. */
  const Dim3d: nat := 3

  const NlpVariablesName: string := "nlp_variables"

  /**
   * The bounds of a base node spline: start position and velocity and final
   * velocity on all axes; final position on x and y for the linear motion, on
   * z (yaw) for the angular one.
   */
  function HermiteBounds(id: VarId, init: StateLin3d, final: StateLin3d): seq<Bound>
  {
    [Bound(Start, Pos, [X, Y, Z], init.p), Bound(Start, Vel, [X, Y, Z], init.v), Bound(Final, Vel, [X, Y, Z], final.v)]
    + (if id == BaseLinear then [Bound(Final, Pos, [X, Y], final.p)] else [])
    + (if id == BaseAngular then [Bound(Final, Pos, [Z], final.p)] else [])
  }

  /** The value a base bound should pin, by node and derivative. */
  function Target(at: NodeEnd, deriv: Deriv, init: StateLin3d, final: StateLin3d): Vec3
  {
    match (at, deriv)
    case (Start, Pos) => init.p
    case (Start, Vel) => init.v
    case (Final, Pos) => final.p
    case (Final, Vel) => final.v
  }

  /**
   * What the base node splines pin: the start position and velocity and the
   * final velocity on x, y and z; the final position only on x and y for the
   * linear motion (z is left to the terrain) and only on z for the angular
   * motion; every bound to the matching initial or final value.
   */
  lemma HermitePins(id: VarId, init: StateLin3d, final: StateLin3d)
    requires id == BaseLinear || id == BaseAngular
    ensures PinnedDims(HermiteBounds(id, init, final), Start, Pos) == {X, Y, Z}
    ensures PinnedDims(HermiteBounds(id, init, final), Start, Vel) == {X, Y, Z}
    ensures PinnedDims(HermiteBounds(id, init, final), Final, Vel) == {X, Y, Z}
    ensures PinnedDims(HermiteBounds(id, init, final), Final, Pos) == if id == BaseLinear then {X, Y} else {Z}
    ensures forall i :: 0 <= i < |HermiteBounds(id, init, final)| ==>
      HermiteBounds(id, init, final)[i].value
        == Target(HermiteBounds(id, init, final)[i].at, HermiteBounds(id, init, final)[i].deriv, init, final)
  {
    var b0 := Bound(Start, Pos, [X, Y, Z], init.p);
    var b1 := Bound(Start, Vel, [X, Y, Z], init.v);
    var b2 := Bound(Final, Vel, [X, Y, Z], final.v);
    var b3 := if id == BaseLinear then Bound(Final, Pos, [X, Y], final.p) else Bound(Final, Pos, [Z], final.p);
    assert HermiteBounds(id, init, final) == [b0, b1, b2, b3];
    assert (set d | d in [X, Y, Z]) == {X, Y, Z};
    assert (set d | d in [X, Y]) == {X, Y};
    assert (set d | d in [Z]) == {Z};
    PinnedDimsOfFour(b0, b1, b2, b3, Start, Pos);
    PinnedDimsOfFour(b0, b1, b2, b3, Start, Vel);
    PinnedDimsOfFour(b0, b1, b2, b3, Final, Vel);
    PinnedDimsOfFour(b0, b1, b2, b3, Final, Pos);
  }

  lemma PinnedDimsOfFour(b0: Bound, b1: Bound, b2: Bound, b3: Bound, at: NodeEnd, deriv: Deriv)
    ensures PinnedDims([b0, b1, b2, b3], at, deriv)
      == Contribution(b0, at, deriv) + Contribution(b1, at, deriv)
       + Contribution(b2, at, deriv) + Contribution(b3, at, deriv)
  {
    assert [b0, b1, b2, b3][1..] == [b1, b2, b3];
    assert [b1, b2, b3][1..] == [b2, b3];
    assert [b2, b3][1..] == [b3];
    assert [b3][1..] == [];
    assert PinnedDims([b3], at, deriv) == Contribution(b3, at, deriv);
    assert PinnedDims([b2, b3], at, deriv) == Contribution(b2, at, deriv) + Contribution(b3, at, deriv);
  }

  /** The end-effector xy-motion pins its start position on x and y only, and nothing else. */
  lemma MotionXYPins(initial: Vec3)
    ensures PinnedDims([Bound(Start, Pos, [X, Y], initial)], Start, Pos) == {X, Y}
    ensures PinsTo([Bound(Start, Pos, [X, Y], initial)], Start, Pos, X, initial.x)
    ensures PinsTo([Bound(Start, Pos, [X, Y], initial)], Start, Pos, Y, initial.y)
    ensures PinnedDims([Bound(Start, Pos, [X, Y], initial)], Start, Vel) == {}
    ensures PinnedDims([Bound(Start, Pos, [X, Y], initial)], Final, Pos) == {}
    ensures PinnedDims([Bound(Start, Pos, [X, Y], initial)], Final, Vel) == {}
  {
    var bs := [Bound(Start, Pos, [X, Y], initial)];
    assert bs[1..] == [];
    assert bs[0].at == Start && bs[0].deriv == Pos && X in bs[0].dims && Y in bs[0].dims;
  }

  /** A base node spline as built for `id`: seeded over the base durations and bounded. */
  ghost predicate IsHermiteSpline(spline: NodeSpline, id: VarId, init: StateLin3d, final: StateLin3d, durations: seq<real>)
    reads spline
  {
    spline.id == id && spline.nDim == Dim3d && spline.shape == BaseNodes(|durations|) &&
    spline.seed == Seeded(AsSeq(init.p), AsSeq(final.p), durations) &&
    spline.bounds == HermiteBounds(id, init, final)
  }

  /** Decision-bearing entries for a sequence of node splines, in order. */
  function NodeEntries(ns: seq<NodeSpline>): (r: seq<Entry>)
    ensures |r| == |ns|
  {
    seq(|ns|, k requires 0 <= k < |ns| => Entry(Nodes(ns[k]), true))
  }

  /** Decision-bearing entries for a sequence of polynomial segments, in order. */
  function PolyEntries(ps: seq<PolynomialVars>): (r: seq<Entry>)
    ensures |r| == |ps|
  {
    seq(|ps|, k requires 0 <= k < |ps| => Entry(Poly(ps[k]), true))
  }

  /** Segment k of the spline `id` is named after `id` and k, with the given order, in three dimensions. */
  predicate SegmentsNamed(ps: seq<PolynomialVars>, id: VarId, order: nat)
  {
    forall k :: 0 <= k < |ps| ==> ps[k].id == Suffixed(id, k) && ps[k].order == order && ps[k].nDim == Dim3d
  }

  /**
   * A coefficient spline as built for `id`: its decision-bearing segments in
   * order, then the spline itself, informational, whose segment list holds
   * exactly those segments.
   */
  ghost predicate IsCoeffBlock(es: seq<Entry>, id: VarId, order: nat, durations: seq<real>, start: Vec3, end: Vec3)
    reads if es != [] && es[|es| - 1].item.Coeff? then {es[|es| - 1].item.c} else {}
  {
    |es| == |durations| + 1 && es[|durations|].item.Coeff? &&
    var spline := es[|durations|].item.c;
    es == PolyEntries(spline.polyVars) + [Entry(Coeff(spline), false)] &&
    spline.id == id && spline.durations == durations &&
    spline.seed == Seeded(AsSeq(start), AsSeq(end), durations) &&
    SegmentsNamed(spline.polyVars, id, order)
  }

  lemma Regroup<T>(a: seq<T>, b: seq<T>, c: seq<T>, d: seq<T>)
    ensures a + b + c + d == a + (b + c + d)
    ensures (a + b + c + d)[..|a|] == a
    ensures (a + b + c + d)[|a|..] == b + c + d
  {
  }

  lemma TagsOfConcat(a: seq<Entry>, b: seq<Entry>)
    ensures TagsOf(a + b) == TagsOf(a) + TagsOf(b)
  {
    assert forall k :: 0 <= k < |a + b| ==> TagsOf(a + b)[k] == (TagsOf(a) + TagsOf(b))[k];
  }

  /** Where the k-th schedule, motion pair and force sit after a prefix of length |a|. */
  lemma BlocksAt<T>(es: seq<T>, a: seq<T>, s: seq<T>, m: seq<T>, f: seq<T>, n: nat, k: nat)
    requires es == a + s + m + f && |s| == n && |m| == 2 * n && |f| == n && k < n
    ensures es[|a| + k] == s[k]
    ensures es[|a| + n + 2 * k] == m[2 * k] && es[|a| + n + 2 * k + 1] == m[2 * k + 1]
    ensures es[|a| + 3 * n + k] == f[k]
  {
  }

  /** The base's tags followed by the end-effectors' tags are the expected component list. */
  lemma AssembledTags(base: seq<Entry>, rest: seq<Entry>, rep: BaseRepresentation, nSegments: nat,
                      nEE: nat, optimizeTimings: bool)
    requires rep != Unrecognised
    requires TagsOf(base) == BaseTags(rep, nSegments)
    requires TagsOf(rest) == ScheduleTags(nEE, optimizeTimings) + MotionTags(nEE) + ForceTags(nEE)
    ensures TagsOf(base + rest) == ExpectedTags(rep, nSegments, nEE, optimizeTimings)
  {
    TagsOfConcat(base, rest);
    Regroup(BaseTags(rep, nSegments), ScheduleTags(nEE, optimizeTimings), MotionTags(nEE), ForceTags(nEE));
  }

  lemma {:induction false} SegmentTagsOf(ps: seq<PolynomialVars>, id: VarId, order: nat)
    requires SegmentsNamed(ps, id, order)
    ensures TagsOf(PolyEntries(ps)) == SegmentTags(id, |ps|)
  {
    if ps != [] {
      var n := |ps| - 1;
      assert PolyEntries(ps) == PolyEntries(ps[..n]) + [Entry(Poly(ps[n]), true)];
      SegmentTagsOf(ps[..n], id, order);
      TagsOfConcat(PolyEntries(ps[..n]), [Entry(Poly(ps[n]), true)]);
    }
  }

  /** Adds the segments of one coefficient spline, then the spline itself. */
  method AddCoeffSpline(comp: Composite, id: VarId, order: nat, durations: seq<real>, start: Vec3, end: Vec3)
    modifies comp
    ensures |comp.entries| == |old(comp.entries)| + |durations| + 1
    ensures comp.entries[..|old(comp.entries)|] == old(comp.entries)
    ensures comp.Tags() == old(comp.Tags()) + CoeffSplineTags(id, |durations|)
    ensures IsCoeffBlock(comp.entries[|old(comp.entries)|..], id, order, durations, start, end)
  {
    ghost var before := comp.entries;
    var spline := new CoeffSpline(id, durations);
    for i := 0 to |durations|
      modifies comp, spline
      invariant comp.entries == before + PolyEntries(spline.polyVars)
      invariant |spline.polyVars| == i && SegmentsNamed(spline.polyVars, id, order)
    {
      var p := new PolynomialVars(Suffixed(id, i), order, Dim3d);
      comp.AddComponent(Poly(p), true);
      assert PolyEntries(spline.polyVars + [p]) == PolyEntries(spline.polyVars) + [Entry(Poly(p), true)];
      spline.polyVars := spline.polyVars + [p];
    }
    spline.InitializeVariables(start, end);
    comp.AddComponent(Coeff(spline), false);
    ghost var block := PolyEntries(spline.polyVars) + [Entry(Coeff(spline), false)];
    assert comp.entries == before + block;
    assert comp.entries[|before|..] == block;
    SegmentTagsOf(spline.polyVars, id, order);
    TagsOfConcat(PolyEntries(spline.polyVars), [Entry(Coeff(spline), false)]);
    TagsOfConcat(before, block);
  }

  /** Entries for the contact schedules, in order, with the given decision flag. */
  function ScheduleEntries(ss: seq<ContactSchedule>, optimizeTimings: bool): (r: seq<Entry>)
    ensures |r| == |ss|
  {
    seq(|ss|, k requires 0 <= k < |ss| => Entry(Sched(ss[k]), optimizeTimings))
  }

  /** Decision-bearing entries for the end-effector motions: xy then z, end-effector by end-effector. */
  function MotionEntries(xys: seq<NodeSpline>, zs: seq<NodeSpline>): (r: seq<Entry>)
    requires |xys| == |zs|
    ensures |r| == 2 * |xys|
  {
    seq(2 * |xys|, k requires 0 <= k < 2 * |xys| => Entry(Nodes(if k % 2 == 0 then xys[k / 2] else zs[k / 2]), true))
  }

  lemma MotionEntriesAppend(xys: seq<NodeSpline>, zs: seq<NodeSpline>, xy: NodeSpline, z: NodeSpline)
    requires |xys| == |zs|
    ensures MotionEntries(xys + [xy], zs + [z])
      == MotionEntries(xys, zs) + [Entry(Nodes(xy), true), Entry(Nodes(z), true)]
  {
    var n := |xys|;
    forall k | 0 <= k < 2 * n + 2
      ensures MotionEntries(xys + [xy], zs + [z])[k]
        == (MotionEntries(xys, zs) + [Entry(Nodes(xy), true), Entry(Nodes(z), true)])[k]
    {
      if k < 2 * n {
        assert k / 2 < n;
      } else {
        assert k / 2 == n;
      }
    }
  }

  lemma ScheduleEntriesTags(ss: seq<ContactSchedule>, opt: bool)
    requires forall k :: 0 <= k < |ss| ==> ss[k].ee == k
    ensures TagsOf(ScheduleEntries(ss, opt)) == ScheduleTags(|ss|, opt)
  {
    ScheduleTagsAt(|ss|, opt);
    forall k | 0 <= k < |ss| ensures TagsOf(ScheduleEntries(ss, opt))[k] == ScheduleTags(|ss|, opt)[k] {
      assert ScheduleEntries(ss, opt)[k] == Entry(Sched(ss[k]), opt);
    }
  }

  lemma {:induction false} MotionEntriesTags(xys: seq<NodeSpline>, zs: seq<NodeSpline>)
    requires |xys| == |zs|
    requires forall k :: 0 <= k < |xys| ==>
      xys[k].id == MotionXY(k) && xys[k].shape.MotionNodes? && zs[k].id == MotionZ(k) && zs[k].shape.MotionNodes?
    ensures TagsOf(MotionEntries(xys, zs)) == MotionTags(|xys|)
  {
    if xys != [] {
      var n := |xys| - 1;
      var xs, ys := xys[..n], zs[..n];
      var last := [Entry(Nodes(xys[n]), true), Entry(Nodes(zs[n]), true)];
      var lastTags := [Tag(MotionXY(n), EndeffectorNodesKind, true), Tag(MotionZ(n), EndeffectorNodesKind, true)];
      assert xys == xs + [xys[n]] && zs == ys + [zs[n]];
      MotionEntriesAppend(xs, ys, xys[n], zs[n]);
      MotionEntriesTags(xs, ys);
      TagsOfConcat(MotionEntries(xs, ys), last);
      assert TagsOf(last) == lastTags;
      assert MotionTags(|xys|) == MotionTags(n) + lastTags;
      assert TagsOf(MotionEntries(xys, zs)) == TagsOf(MotionEntries(xs, ys) + last);
    }
  }

  lemma {:induction false} ForceEntriesTags(fs: seq<NodeSpline>)
    requires forall k :: 0 <= k < |fs| ==> fs[k].id == Force(k) && fs[k].shape.ForceShape?
    ensures TagsOf(NodeEntries(fs)) == ForceTags(|fs|)
  {
    if fs != [] {
      var n := |fs| - 1;
      assert NodeEntries(fs) == NodeEntries(fs[..n]) + [Entry(Nodes(fs[n]), true)];
      ForceEntriesTags(fs[..n]);
      TagsOfConcat(NodeEntries(fs[..n]), [Entry(Nodes(fs[n]), true)]);
    }
  }


  class MotionOptimizerFacade {
    const params: OptParameters
    const model: RobotModel
    /** Conversion of Euler-angle states into the angular state a robot state carries. */
    const toAngular: StateLin3d -> StateAng3d
    var initialBase: BaseState
    var initialEE: seq<Vec3>
    var finalBase: BaseState

    ghost predicate Valid()
      reads this
    {
      |model.nominalStanceInBase| >= 1 && |initialEE| == |model.nominalStanceInBase|
    }

    function EECount(): nat
    {
      |model.nominalStanceInBase|
    }

    constructor (params: OptParameters, model: RobotModel, toAngular: StateLin3d -> StateAng3d)
      requires |model.nominalStanceInBase| >= 1
      ensures Valid()
      ensures this.params == params && this.model == model && this.toAngular == toAngular
      ensures finalBase == ZeroBase
      ensures initialBase == BaseState(StateLin3d(Vec3(0.0, 0.0, -model.nominalStanceInBase[E0].z), Zero3, Zero3),
                                       ZeroState)
      ensures |initialEE| == |model.nominalStanceInBase|
      ensures forall ee :: 0 <= ee < |initialEE| ==>
        initialEE[ee] == Vec3(model.nominalStanceInBase[ee].x, model.nominalStanceInBase[ee].y, 0.0)
    {
      this.params := params;
      this.model := model;
      this.toAngular := toAngular;
      initialBase := ZeroBase;
      initialEE := [];
      finalBase := ZeroBase;
      new;
      BuildDefaultInitialState();
    }

    /**
     * The base starts with its feet at the nominal stance height below it and
     * zero orientation; each foot starts on the ground (z = 0) under its
     * nominal stance offset.
     */
    method BuildDefaultInitialState()
      requires |model.nominalStanceInBase| >= 1
      modifies this`initialBase, this`initialEE
      ensures initialBase == old(initialBase).(
        lin := old(initialBase).lin.(p := Vec3(0.0, 0.0, -model.nominalStanceInBase[E0].z)),
        ang := old(initialBase).ang.(p := Zero3))
      ensures |initialEE| == EECount()
      ensures forall ee :: 0 <= ee < |initialEE| ==>
        initialEE[ee] == Vec3(model.nominalStanceInBase[ee].x, model.nominalStanceInBase[ee].y, 0.0)
    {
      var pNom := model.nominalStanceInBase;
      initialBase := initialBase.(lin := initialBase.lin.(p := Vec3(0.0, 0.0, -pNom[E0].z)));
      initialBase := initialBase.(ang := initialBase.ang.(p := Vec3(0.0, 0.0, 0.0)));
      initialEE := seq(|pNom|, _ => Zero3);
      ghost var base := initialBase;
      for ee := 0 to |pNom|
        invariant |initialEE| == |pNom|
        invariant initialBase == base
        invariant forall k :: 0 <= k < ee ==> initialEE[k] == Vec3(pNom[k].x, pNom[k].y, 0.0)
      {
        initialEE := initialEE[ee := Add(pNom[ee], initialBase.lin.p)];
        initialEE := initialEE[ee := initialEE[ee].(z := 0.0)];
      }
    }

    /**
     * The base as two decision-bearing node splines, linear then angular, each
     * spanning the base durations and bounded as HermiteBounds says.
     */
    method SetBaseRepresentationHermite(comp: Composite)
      modifies comp
      ensures |comp.entries| == |old(comp.entries)| + 2
      ensures comp.entries[..|old(comp.entries)|] == old(comp.entries)
      ensures comp.Tags() == old(comp.Tags()) + HermiteTags()
      ensures forall k :: |old(comp.entries)| <= k < |comp.entries| ==>
        comp.entries[k].isDecision && comp.entries[k].item.Nodes?
      ensures IsHermiteSpline(comp.entries[|old(comp.entries)|].item.n, BaseLinear,
                              initialBase.lin, finalBase.lin, params.basePolyDurations)
      ensures IsHermiteSpline(comp.entries[|old(comp.entries)| + 1].item.n, BaseAngular,
                              initialBase.ang, finalBase.ang, params.basePolyDurations)
    {
      var durations := params.basePolyDurations;
      var linear := (BaseLinear, initialBase.lin, finalBase.lin);
      var angular := (BaseAngular, initialBase.ang, finalBase.ang);
      var tuples := [linear, angular];
      ghost var before := comp.entries;
      ghost var splines: seq<NodeSpline> := [];
      for i := 0 to 2
        modifies comp
        invariant comp.entries == before + NodeEntries(splines)
        invariant |splines| == i
        invariant forall k :: 0 <= k < i ==>
          IsHermiteSpline(splines[k], tuples[k].0, tuples[k].1, tuples[k].2, durations)
      {
        var (id, init, final) := tuples[i];
        var spline := new NodeSpline(Dim3d, BaseNodes(|durations|), id);
        spline.InitializeVariables(AsSeq(init.p), AsSeq(final.p), durations);
        var dimensions := [X, Y, Z];
        spline.AddStartBound(Pos, dimensions, init.p);
        spline.AddStartBound(Vel, dimensions, init.v);
        spline.AddFinalBound(Vel, dimensions, final.v);
        if id == BaseLinear {
          spline.AddFinalBound(Pos, [X, Y], final.p);
        }
        if id == BaseAngular {
          spline.AddFinalBound(Pos, [Z], final.p);
        }
        comp.AddComponent(Nodes(spline), true);
        assert NodeEntries(splines + [spline]) == NodeEntries(splines) + [Entry(Nodes(spline), true)];
        splines := splines + [spline];
      }
      assert comp.entries[|before|..] == NodeEntries(splines);
      assert TagsOf(NodeEntries(splines)) == HermiteTags();
      TagsOfConcat(before, NodeEntries(splines));
    }

    /**
     * The base as coefficient splines, angular then linear: per spline one
     * decision-bearing polynomial per base duration, then the spline itself as
     * an informational component.
     */
    method SetBaseRepresentationCoeff(comp: Composite)
      modifies comp
      ensures |comp.entries| == |old(comp.entries)| + 2 * |params.basePolyDurations| + 2
      ensures comp.entries[..|old(comp.entries)|] == old(comp.entries)
      ensures comp.Tags() == old(comp.Tags()) + BaseTags(PolyCoeff, |params.basePolyDurations|)
      ensures IsCoeffBlock(comp.entries[|old(comp.entries)|..|old(comp.entries)| + |params.basePolyDurations| + 1],
                           BaseAngular, params.orderCoeffPolys, params.basePolyDurations,
                           initialBase.ang.p, finalBase.ang.p)
      ensures IsCoeffBlock(comp.entries[|old(comp.entries)| + |params.basePolyDurations| + 1..],
                           BaseLinear, params.orderCoeffPolys, params.basePolyDurations,
                           initialBase.lin.p, finalBase.lin.p)
    {
      var order := params.orderCoeffPolys;
      var durations := params.basePolyDurations;
      ghost var before := comp.entries;
      AddCoeffSpline(comp, BaseAngular, order, durations, initialBase.ang.p, finalBase.ang.p);
      ghost var middle := comp.entries;
      AddCoeffSpline(comp, BaseLinear, order, durations, initialBase.lin.p, finalBase.lin.p);
      assert comp.entries[|before|..|middle|] == middle[|before|..];
    }

    /**
     * How end-effector `ee` is built: its contact schedule carries its
     * timings and the phase-duration limits and notifies exactly its xy-motion,
     * z-motion and force, in that order; the xy-motion, with one node per
     * phase, runs from the foot's initial position to the final base position
     * offset by the nominal stance and has its start position pinned on x and
     * y; the z-motion, with two nodes per phase, runs between the heights of
     * those positions with no bound; the force runs from and to the standing
     * force, straight up, with no bound.
     */
    ghost predicate EndEffectorBuilt(ee: nat, s: ContactSchedule, xy: NodeSpline, z: NodeSpline, f: NodeSpline)
      reads this, s, xy, z, f
    {
      ee < |params.contactTimings| && ee < |initialEE| && ee < EECount() &&
      var timings := params.contactTimings[ee];
      var finalEE := Add(finalBase.lin.p, model.nominalStanceInBase[ee]);
      var fStance := Vec3(0.0, 0.0, model.standingZForce);
      s.ee == ee && s.timings == timings &&
      s.minDuration == params.minPhaseDuration && s.maxDuration == params.maxPhaseDuration &&
      s.observers == [xy, z, f] &&
      MotionBuilt(ee, xy, z) &&
      f.id == Force(ee) && f.nDim == Dim3d &&
      f.shape == ForceShape(params.forceSplinesPerStancePhase, model.forceLimit) &&
      f.seed == Seeded(AsSeq(fStance), AsSeq(fStance), timings) && f.bounds == []
    }

    ghost predicate MotionBuilt(ee: nat, xy: NodeSpline, z: NodeSpline)
      reads this, xy, z
    {
      ee < |params.contactTimings| && ee < |initialEE| && ee < EECount() &&
      var timings := params.contactTimings[ee];
      var finalEE := Add(finalBase.lin.p, model.nominalStanceInBase[ee]);
      xy.id == MotionXY(ee) && xy.nDim == Dim3d && xy.shape == MotionNodes(1) &&
      xy.seed == Seeded(AsSeq(initialEE[ee]), AsSeq(finalEE), timings) &&
      xy.bounds == [Bound(Start, Pos, [X, Y], initialEE[ee])] &&
      z.id == MotionZ(ee) && z.nDim == Dim3d && z.shape == MotionNodes(2) &&
      z.seed == Seeded(BottomRow(initialEE[ee]), BottomRow(finalEE), timings) && z.bounds == []
    }

    /** End-effector `ee`'s four entries, found where the layout places them, are built as EndEffectorBuilt says. */
    ghost predicate EndEffectorAt(es: seq<Entry>, b: nat, ee: nat)
      reads this, set k | 0 <= k < |es| :: Obj(es[k].item)
    {
      var n := EECount();
      ee < n && b + 4 * n <= |es| &&
      es[b + ee].item.Sched? && es[b + n + 2 * ee].item.Nodes? &&
      es[b + n + 2 * ee + 1].item.Nodes? && es[b + 3 * n + ee].item.Nodes? &&
      EndEffectorBuilt(ee, es[b + ee].item.s, es[b + n + 2 * ee].item.n,
                       es[b + n + 2 * ee + 1].item.n, es[b + 3 * n + ee].item.n)
    }

    /**
     * Assembles the optimisation variables: the base representation, then one
     * contact schedule per end-effector, then the xy- and z-motion of each
     * end-effector, then the force of each, each registered as an observer of
     * its end-effector's schedule. A representation other than the two known
     * ones, or an end-effector without contact timings, is an error.
     */
    method BuildVariables() returns (r: Result<Composite>)
      requires Valid()
      ensures r.Failure? <==>
        params.baseRepresentation == Unrecognised || |params.contactTimings| < EECount()
      ensures r.Failure? && params.baseRepresentation == Unrecognised ==> r.error == UnsupportedRepresentation
      ensures r.Failure? && params.baseRepresentation != Unrecognised ==>
        r.error == MissingContactTimings(|params.contactTimings|)
      ensures r.Success? ==> fresh(r.value) && r.value.name == NlpVariablesName
      ensures r.Success? ==>
        r.value.Tags() == ExpectedTags(params.baseRepresentation, |params.basePolyDurations|,
                                       EECount(), params.totalTimeConstrained)
      ensures r.Success? ==>
        var b := BaseSize(params.baseRepresentation, |params.basePolyDurations|);
        b <= |r.value.entries| && BaseBuilt(r.value.entries[..b])
      ensures r.Success? ==> forall ee :: 0 <= ee < EECount() ==>
        EndEffectorAt(r.value.entries, BaseSize(params.baseRepresentation, |params.basePolyDurations|), ee)
    {
      var comp := new Composite(NlpVariablesName);
      var supported := AddBaseVariables(comp);
      if !supported {
        return Failure(UnsupportedRepresentation);
      }
      ghost var base := comp.entries;
      var missing := AddEndeffectorVariables(comp);
      if missing.Some? {
        return Failure(MissingContactTimings(missing.value));
      }
      ghost var rest := comp.entries[|base|..];
      assert comp.entries == base + rest && comp.entries[..|base|] == base;
      assert BaseBuilt(base);
      AssembledTags(base, rest, params.baseRepresentation, |params.basePolyDurations|,
                    EECount(), params.totalTimeConstrained);
      r := Success(comp);
    }

    /**
     * Clears the component list and adds the base variables of the chosen
     * representation; an unrecognised representation adds nothing.
     */
    method AddBaseVariables(comp: Composite) returns (supported: bool)
      requires Valid()
      modifies comp
      ensures supported <==> params.baseRepresentation != Unrecognised
      ensures !supported ==> comp.entries == []
      ensures supported ==>
        |comp.entries| == BaseSize(params.baseRepresentation, |params.basePolyDurations|) &&
        BaseBuilt(comp.entries) &&
        TagsOf(comp.entries) == BaseTags(params.baseRepresentation, |params.basePolyDurations|)
    {
      comp.ClearComponents();
      match params.baseRepresentation {
        case CubicHermite =>
          SetBaseRepresentationHermite(comp);
        case PolyCoeff =>
          SetBaseRepresentationCoeff(comp);
        case Unrecognised =>
          return false;
      }
      supported := true;
    }

    /**
     * Everything after the base: one contact schedule per end-effector, then
     * the xy- and z-motion of each end-effector, then the force of each, each
     * motion and force registered as an observer of its end-effector's
     * schedule.
     */
    method AddEndeffectorVariables(comp: Composite) returns (missing: Option<EEId>)
      requires Valid()
      modifies comp
      ensures missing.Some? <==> |params.contactTimings| < EECount()
      ensures missing.Some? ==> missing.value == |params.contactTimings|
      ensures missing.None? ==>
        |comp.entries| == |old(comp.entries)| + 4 * EECount() &&
        comp.entries[..|old(comp.entries)|] == old(comp.entries)
      ensures missing.None? ==>
        TagsOf(comp.entries[|old(comp.entries)|..])
          == ScheduleTags(EECount(), params.totalTimeConstrained) + MotionTags(EECount()) + ForceTags(EECount())
      ensures missing.None? ==> forall ee :: 0 <= ee < EECount() ==> EndEffectorAt(comp.entries, |old(comp.entries)|, ee)
    {
      ghost var before := comp.entries;
      var opt := params.totalTimeConstrained;
      var schedules;
      schedules, missing := AddContactSchedules(comp);
      if missing.Some? {
        return;
      }
      ghost var xys, zs := AddEndeffectorMotions(comp, schedules);
      ghost var forces := AddEndeffectorForces(comp, schedules, xys, zs);
      Regroup(before, ScheduleEntries(schedules, opt), MotionEntries(xys, zs), NodeEntries(forces));
      EndEffectorTags(schedules, opt, xys, zs, forces);
      EndEffectorsInPlace(comp.entries, before, schedules, opt, xys, zs, forces);
    }

    /** The base part of the component list, as the chosen representation builds it. */
    ghost predicate BaseBuilt(es: seq<Entry>)
      reads this
      reads if |es| == 2 && es[0].item.Nodes? && es[1].item.Nodes? then {es[0].item.n, es[1].item.n} else {}
      reads set k | 0 <= k < |es| && es[k].item.Coeff? :: es[k].item.c
    {
      var durations := params.basePolyDurations;
      var n := |durations|;
      match params.baseRepresentation
      case CubicHermite =>
        |es| == 2 && es[0].isDecision && es[0].item.Nodes? && es[1].isDecision && es[1].item.Nodes? &&
        IsHermiteSpline(es[0].item.n, BaseLinear, initialBase.lin, finalBase.lin, durations) &&
        IsHermiteSpline(es[1].item.n, BaseAngular, initialBase.ang, finalBase.ang, durations)
      case PolyCoeff =>
        |es| == 2 * n + 2 &&
        IsCoeffBlock(es[..n + 1], BaseAngular, params.orderCoeffPolys, durations, initialBase.ang.p, finalBase.ang.p) &&
        IsCoeffBlock(es[n + 1..], BaseLinear, params.orderCoeffPolys, durations, initialBase.lin.p, finalBase.lin.p)
      case Unrecognised => false
    }

    /**
     * One contact schedule per end-effector, in order, each added with the
     * decision flag the total-time constraint sets; an end-effector without
     * contact timings stops the build.
     */
    method AddContactSchedules(comp: Composite) returns (schedules: seq<ContactSchedule>, missing: Option<EEId>)
      modifies comp
      ensures missing.Some? <==> |params.contactTimings| < EECount()
      ensures missing.Some? ==> missing.value == |params.contactTimings|
      ensures missing.None? ==>
        |schedules| == EECount() &&
        comp.entries == old(comp.entries) + ScheduleEntries(schedules, params.totalTimeConstrained)
      ensures missing.None? ==> forall k :: 0 <= k < |schedules| ==>
        fresh(schedules[k]) &&
        schedules[k].ee == k && schedules[k].timings == params.contactTimings[k] &&
        schedules[k].minDuration == params.minPhaseDuration && schedules[k].maxDuration == params.maxPhaseDuration &&
        schedules[k].observers == []
      ensures missing.None? ==> forall i, j :: 0 <= i < j < |schedules| ==> schedules[i] != schedules[j]
    {
      var nEE := EECount();
      var opt := params.totalTimeConstrained;
      ghost var before := comp.entries;
      schedules := [];
      for ee := 0 to nEE
        modifies comp
        invariant ee <= |params.contactTimings|
        invariant |schedules| == ee
        invariant comp.entries == before + ScheduleEntries(schedules, opt)
        invariant forall k :: 0 <= k < ee ==>
          fresh(schedules[k]) &&
          schedules[k].ee == k && schedules[k].timings == params.contactTimings[k] &&
          schedules[k].minDuration == params.minPhaseDuration && schedules[k].maxDuration == params.maxPhaseDuration &&
          schedules[k].observers == []
        invariant forall i, j :: 0 <= i < j < ee ==> schedules[i] != schedules[j]
      {
        if ee >= |params.contactTimings| {
          return schedules, Some(ee);
        }
        var s := new ContactSchedule(ee, params.contactTimings[ee], params.minPhaseDuration, params.maxPhaseDuration);
        assert ScheduleEntries(schedules + [s], opt) == ScheduleEntries(schedules, opt) + [Entry(Sched(s), opt)];
        schedules := schedules + [s];
        var optimizeTimings := params.totalTimeConstrained;
        comp.AddComponent(Sched(s), optimizeTimings);
      }
      missing := None;
    }

    /**
     * The xy- and z-motion of every end-effector, each added as a
     * decision-bearing component and registered with its schedule.
     */
    method AddEndeffectorMotions(comp: Composite, schedules: seq<ContactSchedule>)
      returns (ghost xys: seq<NodeSpline>, ghost zs: seq<NodeSpline>)
      requires Valid()
      requires |schedules| == EECount() <= |params.contactTimings|
      requires forall k :: 0 <= k < |schedules| ==>
        schedules[k].timings == params.contactTimings[k] && schedules[k].observers == []
      requires forall i, j :: 0 <= i < j < |schedules| ==> schedules[i] != schedules[j]
      modifies comp, schedules
      ensures |xys| == EECount() && |zs| == EECount()
      ensures comp.entries == old(comp.entries) + MotionEntries(xys, zs)
      ensures forall k :: 0 <= k < EECount() ==> MotionBuilt(k, xys[k], zs[k])
      ensures forall k :: 0 <= k < EECount() ==> schedules[k].observers == [xys[k], zs[k]]
    {
      var nEE := EECount();
      ghost var before := comp.entries;
      xys, zs := [], [];
      for ee := 0 to nEE
        modifies comp, schedules
        invariant |xys| == ee && |zs| == ee
        invariant comp.entries == before + MotionEntries(xys, zs)
        invariant forall k :: 0 <= k < ee ==> MotionBuilt(k, xys[k], zs[k])
        invariant forall k :: 0 <= k < ee ==> schedules[k].observers == [xys[k], zs[k]]
        invariant forall k :: ee <= k < nEE ==> schedules[k].observers == []
      {
        var xy, z := AddEndeffectorMotion(comp, schedules[ee], ee);
        MotionEntriesAppend(xys, zs, xy, z);
        xys := xys + [xy];
        zs := zs + [z];
      }
    }

    /** The xy- and z-motion of end-effector `ee`, added in that order and registered with its schedule `s`. */
    method AddEndeffectorMotion(comp: Composite, s: ContactSchedule, ee: EEId) returns (xy: NodeSpline, z: NodeSpline)
      requires Valid()
      requires ee < EECount() && ee < |params.contactTimings| && s.timings == params.contactTimings[ee]
      modifies comp, s
      ensures comp.entries == old(comp.entries) + [Entry(Nodes(xy), true), Entry(Nodes(z), true)]
      ensures s.observers == old(s.observers) + [xy, z]
      ensures MotionBuilt(ee, xy, z)
    {
      xy := new NodeSpline(Dim3d, MotionNodes(1), MotionXY(ee));
      var finalEE := Add(finalBase.lin.p, model.nominalStanceInBase[ee]);
      xy.InitializeVariables(AsSeq(initialEE[ee]), AsSeq(finalEE), s.TimePerPhase());
      xy.AddStartBound(Pos, [X, Y], initialEE[ee]);
      comp.AddComponent(Nodes(xy), true);
      s.AddObserver(xy);

      z := new NodeSpline(Dim3d, MotionNodes(2), MotionZ(ee));
      z.InitializeVariables(BottomRow(initialEE[ee]), BottomRow(finalEE), s.TimePerPhase());
      comp.AddComponent(Nodes(z), true);
      s.AddObserver(z);
    }

    /** The force of end-effector `ee`, added and registered with its schedule `s` after its two motions. */
    method AddEndeffectorForce(comp: Composite, s: ContactSchedule, ee: EEId, ghost xy: NodeSpline, ghost z: NodeSpline)
      returns (f: NodeSpline)
      requires Valid()
      requires ee < EECount() && ee < |params.contactTimings|
      requires s.ee == ee && s.timings == params.contactTimings[ee]
      requires s.minDuration == params.minPhaseDuration && s.maxDuration == params.maxPhaseDuration
      requires s.observers == [xy, z] && MotionBuilt(ee, xy, z)
      modifies comp, s
      ensures comp.entries == old(comp.entries) + [Entry(Nodes(f), true)]
      ensures EndEffectorBuilt(ee, s, xy, z, f)
    {
      f := new NodeSpline(Dim3d, ForceShape(params.forceSplinesPerStancePhase, model.forceLimit), Force(ee));
      var fStance := Vec3(0.0, 0.0, model.standingZForce);
      f.InitializeVariables(AsSeq(fStance), AsSeq(fStance), s.TimePerPhase());
      comp.AddComponent(Nodes(f), true);
      s.AddObserver(f);
    }

    /** The force of every end-effector, added as a decision-bearing component and registered with its schedule. */
    method AddEndeffectorForces(comp: Composite, schedules: seq<ContactSchedule>,
                                ghost xys: seq<NodeSpline>, ghost zs: seq<NodeSpline>)
      returns (ghost forces: seq<NodeSpline>)
      requires Valid()
      requires |schedules| == |xys| == |zs| == EECount() <= |params.contactTimings|
      requires forall k :: 0 <= k < EECount() ==>
        schedules[k].ee == k && schedules[k].timings == params.contactTimings[k] &&
        schedules[k].minDuration == params.minPhaseDuration && schedules[k].maxDuration == params.maxPhaseDuration &&
        schedules[k].observers == [xys[k], zs[k]] && MotionBuilt(k, xys[k], zs[k])
      requires forall i, j :: 0 <= i < j < |schedules| ==> schedules[i] != schedules[j]
      modifies comp, schedules
      ensures |forces| == EECount()
      ensures comp.entries == old(comp.entries) + NodeEntries(forces)
      ensures forall k :: 0 <= k < EECount() ==> EndEffectorBuilt(k, schedules[k], xys[k], zs[k], forces[k])
    {
      var nEE := EECount();
      ghost var before := comp.entries;
      forces := [];
      for ee := 0 to nEE
        modifies comp, schedules
        invariant |forces| == ee
        invariant comp.entries == before + NodeEntries(forces)
        invariant forall k :: 0 <= k < ee ==> EndEffectorBuilt(k, schedules[k], xys[k], zs[k], forces[k])
        invariant forall k :: ee <= k < nEE ==> schedules[k].observers == [xys[k], zs[k]]
      {
        var f := AddEndeffectorForce(comp, schedules[ee], ee, xys[ee], zs[ee]);
        assert NodeEntries(forces + [f]) == NodeEntries(forces) + [Entry(Nodes(f), true)];
        forces := forces + [f];
      }
    }

    /** The tags of the end-effector part of the list, part by part. */
    lemma EndEffectorTags(schedules: seq<ContactSchedule>, opt: bool,
                          xys: seq<NodeSpline>, zs: seq<NodeSpline>, forces: seq<NodeSpline>)
      requires |schedules| == |xys| == |zs| == |forces| == EECount()
      requires forall k :: 0 <= k < EECount() ==>
        schedules[k].ee == k &&
        xys[k].id == MotionXY(k) && xys[k].shape.MotionNodes? && zs[k].id == MotionZ(k) && zs[k].shape.MotionNodes? &&
        forces[k].id == Force(k) && forces[k].shape.ForceShape?
      ensures TagsOf(ScheduleEntries(schedules, opt) + MotionEntries(xys, zs) + NodeEntries(forces))
        == ScheduleTags(EECount(), opt) + MotionTags(EECount()) + ForceTags(EECount())
    {
      ScheduleEntriesTags(schedules, opt);
      MotionEntriesTags(xys, zs);
      ForceEntriesTags(forces);
      TagsOfConcat(ScheduleEntries(schedules, opt), MotionEntries(xys, zs));
      TagsOfConcat(ScheduleEntries(schedules, opt) + MotionEntries(xys, zs), NodeEntries(forces));
    }

    /** Locates each end-effector's four entries in the assembled list. */
    lemma EndEffectorsInPlace(es: seq<Entry>, base: seq<Entry>, schedules: seq<ContactSchedule>, opt: bool,
                              xys: seq<NodeSpline>, zs: seq<NodeSpline>, forces: seq<NodeSpline>)
      requires |schedules| == |xys| == |zs| == |forces| == EECount()
      requires es == base + ScheduleEntries(schedules, opt) + MotionEntries(xys, zs) + NodeEntries(forces)
      requires forall k :: 0 <= k < EECount() ==> EndEffectorBuilt(k, schedules[k], xys[k], zs[k], forces[k])
      ensures forall ee :: 0 <= ee < EECount() ==> EndEffectorAt(es, |base|, ee)
    {
      forall ee | 0 <= ee < EECount() ensures EndEffectorAt(es, |base|, ee) {
        EndEffectorInPlace(es, base, schedules, opt, xys, zs, forces, ee);
      }
    }

    lemma EndEffectorInPlace(es: seq<Entry>, base: seq<Entry>, schedules: seq<ContactSchedule>, opt: bool,
                             xys: seq<NodeSpline>, zs: seq<NodeSpline>, forces: seq<NodeSpline>, ee: nat)
      requires |schedules| == |xys| == |zs| == |forces| == EECount() && ee < EECount()
      requires es == base + ScheduleEntries(schedules, opt) + MotionEntries(xys, zs) + NodeEntries(forces)
      requires EndEffectorBuilt(ee, schedules[ee], xys[ee], zs[ee], forces[ee])
      ensures EndEffectorAt(es, |base|, ee)
    {
      var n := EECount();
      var b := |base|;
      var m := MotionEntries(xys, zs);
      BlocksAt(es, base, ScheduleEntries(schedules, opt), m, NodeEntries(forces), n, ee);
      assert (2 * ee) % 2 == 0 && (2 * ee) / 2 == ee && (2 * ee + 1) % 2 == 1 && (2 * ee + 1) / 2 == ee;
      assert m[2 * ee] == Entry(Nodes(xys[ee]), true) && m[2 * ee + 1] == Entry(Nodes(zs[ee]), true);
      assert es[b + ee] == Entry(Sched(schedules[ee]), opt);
      assert es[b + 3 * n + ee] == Entry(Nodes(forces[ee]), true);
    }

    /**
     * Samples one iterate every `dt` from time 0 while the time does not exceed
     * the first end-effector's total time plus the tolerance.
     */
    method BuildTrajectory(vars: Iterate, dt: real) returns (trajectory: seq<RobotStateCartesian>)
      requires dt > 0.0
      ensures trajectory == Trajectory(vars, EECount(), toAngular, dt)
    {
      trajectory := [];
      var t := 0.0;
      var horizon := vars.totalTime(Schedule(E0));
      ghost var steps := StepCount(horizon, dt);
      while t <= horizon + Tolerance
        invariant t == |trajectory| as real * dt
        invariant |trajectory| <= steps
        invariant trajectory == Trajectory(vars, EECount(), toAngular, dt)[..|trajectory|]
        decreases steps - |trajectory|
      {
        StepCountSpec(horizon, dt, |trajectory|);
        var eeCount := |model.nominalStanceInBase|;
        var contact: seq<bool> := [];
        var motion: seq<StateLin3d> := [];
        var forces: seq<Vec3> := [];
        for ee := 0 to eeCount
          invariant |contact| == ee && |motion| == ee && |forces| == ee
          invariant forall k :: 0 <= k < ee ==>
            contact[k] == vars.inContact(Schedule(k), t) &&
            motion[k] == vars.point(MotionXY(k), t) &&
            forces[k] == vars.point(Force(k), t).p
        {
          contact := contact + [vars.inContact(Schedule(ee), t)];
          motion := motion + [vars.point(MotionXY(ee), t)];
          forces := forces + [vars.point(Force(ee), t).p];
        }
        var state := RobotStateCartesian(vars.point(BaseLinear, t), toAngular(vars.point(BaseAngular, t)),
                                         motion, forces, contact, t);
        ghost var expected := StateAt(vars, eeCount, toAngular, t);
        assert contact == expected.eeContact;
        assert motion == expected.eeMotion;
        assert forces == expected.eeForces;
        assert state == expected;
        ghost var k := |trajectory|;
        assert t == k as real * dt;
        SampleAt(vars, EECount(), toAngular, dt, k);
        assert state == Trajectory(vars, EECount(), toAngular, dt)[k];
        assert Trajectory(vars, EECount(), toAngular, dt)[..k + 1]
          == Trajectory(vars, EECount(), toAngular, dt)[..k] + [state];
        NextGridTime(k, dt);
        trajectory := trajectory + [state];
        t := t + dt;
      }
      StepCountSpec(horizon, dt, |trajectory|);
      assert |Trajectory(vars, EECount(), toAngular, dt)| == steps;
    }

    /** One trajectory per recorded iterate of the solver, in iteration order. */
    method GetTrajectories(iterates: seq<Iterate>, dt: real) returns (trajectories: seq<seq<RobotStateCartesian>>)
      requires dt > 0.0
      ensures |trajectories| == |iterates|
      ensures forall i :: 0 <= i < |iterates| ==> trajectories[i] == Trajectory(iterates[i], EECount(), toAngular, dt)
    {
      trajectories := [];
      for iter := 0 to |iterates|
        invariant |trajectories| == iter
        invariant forall i :: 0 <= i < iter ==> trajectories[i] == Trajectory(iterates[i], EECount(), toAngular, dt)
      {
        var trajectory := BuildTrajectory(iterates[iter], dt);
        trajectories := trajectories + [trajectory];
      }
    }
  }
}
