/**
 * The variable sets the facade assembles, reduced to what the facade does with
 * them: their identifiers and kinds, the values they are seeded with, the bounds
 * pinned on their first and last node, the observers a contact schedule
 * notifies, and the ordered, flagged component list of the Composite holding
 * them all.
 */
module Variables {
  import opened Geometry

  /** End-effector identifiers are 0, 1, ...; E0 is the first. */
  type EEId = nat

  const E0: EEId := 0

  /**
   * Identifiers of components. `Suffixed(stem, i)` is the identifier built by
   * appending the decimal digits of `i` to the identifier `stem`.
   */
  datatype VarId =
    | BaseLinear
    | BaseAngular
    | Suffixed(stem: VarId, index: nat)
    | Schedule(ee: EEId)
    | MotionXY(ee: EEId)
    | MotionZ(ee: EEId)
    | Force(ee: EEId)

  /** The concrete class of a component. */
  datatype Kind =
    | NodeValuesKind
    | EndeffectorNodesKind
    | ForceNodesKind
    | PolynomialVarsKind
    | CoeffSplineKind
    | ContactScheduleKind

  /** What the component list shows of one entry: identifier, kind and decision flag. */
  datatype Tag = Tag(id: VarId, kind: Kind, isDecision: bool)

  /** Which node a bound pins, and which derivative of it. */
  datatype NodeEnd = Start | Final

  datatype Deriv = Pos | Vel

  /** A bound pins the listed dimensions of one derivative of one end node to `value`. */
  datatype Bound = Bound(at: NodeEnd, deriv: Deriv, dims: seq<Dim>, value: Vec3)

  /** The initial guess a variable set was given: start value, end value, phase durations. */
  datatype Seed = Unseeded | Seeded(start: seq<real>, end: seq<real>, durations: seq<real>)

  /**
   * The three node-based variable sets: a base node spline over `polys`
   * segments; an end-effector motion with `nodesPerPhase` nodes per phase; an
   * end-effector force with `polysPerStance` polynomials per stance phase and a
   * force limit.
   */
  datatype NodeShape =
    | BaseNodes(polys: nat)
    | MotionNodes(nodesPerPhase: nat)
    | ForceShape(polysPerStance: nat, forceLimit: real)

  /** The dimensions a sequence of bounds pins for one node and derivative. */
  function PinnedDims(bounds: seq<Bound>, at: NodeEnd, deriv: Deriv): set<Dim>
  {
    if bounds == [] then {} else Contribution(bounds[0], at, deriv) + PinnedDims(bounds[1..], at, deriv)
  }

  /** The dimensions one bound pins for one node and derivative. */
  function Contribution(b: Bound, at: NodeEnd, deriv: Deriv): set<Dim>
  {
    if b.at == at && b.deriv == deriv then set d | d in b.dims else {}
  }

  /** Pinning dimension `d` of one node and derivative to `v`, by some bound. */
  predicate PinsTo(bounds: seq<Bound>, at: NodeEnd, deriv: Deriv, d: Dim, v: real)
  {
    exists i :: 0 <= i < |bounds| && bounds[i].at == at && bounds[i].deriv == deriv
      && d in bounds[i].dims && Coord(bounds[i].value, d) == v
  }

  lemma {:induction false} PinnedDimsMeans(bounds: seq<Bound>, at: NodeEnd, deriv: Deriv, d: Dim)
    ensures d in PinnedDims(bounds, at, deriv) <==>
      exists i :: 0 <= i < |bounds| && bounds[i].at == at && bounds[i].deriv == deriv && d in bounds[i].dims
  {
    if bounds != [] {
      PinnedDimsMeans(bounds[1..], at, deriv, d);
      if d in PinnedDims(bounds[1..], at, deriv) {
        var i :| 0 <= i < |bounds[1..]| && bounds[1..][i].at == at && bounds[1..][i].deriv == deriv
          && d in bounds[1..][i].dims;
        assert bounds[i + 1] == bounds[1..][i];
      }
      forall i | 0 < i < |bounds| && bounds[i].at == at && bounds[i].deriv == deriv && d in bounds[i].dims
        ensures d in PinnedDims(bounds[1..], at, deriv)
      {
        assert bounds[1..][i - 1] == bounds[i];
      }
    }
  }

  /** A contact schedule of one end-effector and the variable sets observing it. */
  class ContactSchedule {
    const ee: EEId
    const timings: seq<real>
    const minDuration: real
    const maxDuration: real
    var observers: seq<NodeSpline>

    constructor (ee: EEId, timings: seq<real>, minDuration: real, maxDuration: real)
      ensures this.ee == ee && this.timings == timings
      ensures this.minDuration == minDuration && this.maxDuration == maxDuration
      ensures observers == []
    {
      this.ee := ee;
      this.timings := timings;
      this.minDuration := minDuration;
      this.maxDuration := maxDuration;
      observers := [];
    }

    /** The phase durations handed to the variable sets that observe this schedule. */
    function TimePerPhase(): seq<real>
    {
      timings
    }

    method AddObserver(o: NodeSpline)
      modifies this`observers
      ensures observers == old(observers) + [o]
    {
      observers := observers + [o];
    }
  }

  /** A node-based variable set: base node spline, end-effector motion or end-effector force. */
  class NodeSpline {
    const id: VarId
    const nDim: nat
    const shape: NodeShape
    var seed: Seed
    var bounds: seq<Bound>

    constructor (nDim: nat, shape: NodeShape, id: VarId)
      ensures this.id == id && this.nDim == nDim && this.shape == shape
      ensures seed == Unseeded && bounds == []
    {
      this.id := id;
      this.nDim := nDim;
      this.shape := shape;
      seed := Unseeded;
      bounds := [];
    }

    method InitializeVariables(start: seq<real>, end: seq<real>, durations: seq<real>)
      modifies this`seed
      ensures seed == Seeded(start, end, durations)
    {
      seed := Seeded(start, end, durations);
    }

    method AddStartBound(deriv: Deriv, dims: seq<Dim>, value: Vec3)
      modifies this`bounds
      ensures bounds == old(bounds) + [Bound(Start, deriv, dims, value)]
    {
      bounds := bounds + [Bound(Start, deriv, dims, value)];
    }

    method AddFinalBound(deriv: Deriv, dims: seq<Dim>, value: Vec3)
      modifies this`bounds
      ensures bounds == old(bounds) + [Bound(Final, deriv, dims, value)]
    {
      bounds := bounds + [Bound(Final, deriv, dims, value)];
    }
  }

  /** The coefficients of one polynomial segment of a base trajectory. */
  class PolynomialVars {
    const id: VarId
    const order: nat
    const nDim: nat

    constructor (id: VarId, order: nat, nDim: nat)
      ensures this.id == id && this.order == order && this.nDim == nDim
    {
      this.id := id;
      this.order := order;
      this.nDim := nDim;
    }
  }

  /** A base trajectory made of independently parameterised polynomial segments. */
  class CoeffSpline {
    const id: VarId
    const durations: seq<real>
    var polyVars: seq<PolynomialVars>
    var seed: Seed

    constructor (id: VarId, durations: seq<real>)
      ensures this.id == id && this.durations == durations
      ensures polyVars == [] && seed == Unseeded
    {
      this.id := id;
      this.durations := durations;
      polyVars := [];
      seed := Unseeded;
    }

    method InitializeVariables(start: Vec3, end: Vec3)
      modifies this`seed
      ensures seed == Seeded(AsSeq(start), AsSeq(end), durations)
    {
      seed := Seeded(AsSeq(start), AsSeq(end), durations);
    }
  }

  /** A handle on a component of any of the kinds a Composite holds. */
  datatype Component =
    | Sched(s: ContactSchedule)
    | Nodes(n: NodeSpline)
    | Poly(p: PolynomialVars)
    | Coeff(c: CoeffSpline)

  datatype Entry = Entry(item: Component, isDecision: bool)

  function Obj(c: Component): object
  {
    match c
    case Sched(s) => s
    case Nodes(n) => n
    case Poly(p) => p
    case Coeff(c) => c
  }

  function IdOf(c: Component): VarId
  {
    match c
    case Sched(s) => Schedule(s.ee)
    case Nodes(n) => n.id
    case Poly(p) => p.id
    case Coeff(c) => c.id
  }

  function KindOf(c: Component): Kind
  {
    match c
    case Sched(_) => ContactScheduleKind
    case Nodes(n) =>
      (match n.shape
       case BaseNodes(_) => NodeValuesKind
       case MotionNodes(_) => EndeffectorNodesKind
       case ForceShape(_, _) => ForceNodesKind)
    case Poly(_) => PolynomialVarsKind
    case Coeff(_) => CoeffSplineKind
  }

  function TagOf(e: Entry): Tag
  {
    Tag(IdOf(e.item), KindOf(e.item), e.isDecision)
  }

  function TagsOf(es: seq<Entry>): seq<Tag>
  {
    seq(|es|, k requires 0 <= k < |es| => TagOf(es[k]))
  }

  /** The first position holding `id`, as a lookup by identifier finds it. */
  function Find(tags: seq<Tag>, id: VarId): (r: Option<nat>)
    ensures r.Some? ==> r.value < |tags| && tags[r.value].id == id
    ensures r.Some? ==> forall k :: 0 <= k < r.value ==> tags[k].id != id
    ensures r.None? <==> forall k :: 0 <= k < |tags| ==> tags[k].id != id
  {
    if tags == [] then None
    else if tags[0].id == id then Some(0)
    else match Find(tags[1..], id)
      case None => None
      case Some(k) => Some(k + 1)
  }

  datatype Option<T> = None | Some(value: T)

  /**
   * The tree of optimisation variables: an ordered list of components, each
   * decision-bearing (part of the solver's vector) or informational.
   */
  class Composite {
    const name: string
    var entries: seq<Entry>

    constructor (name: string)
      ensures this.name == name && entries == []
    {
      this.name := name;
      entries := [];
    }

    method ClearComponents()
      modifies this`entries
      ensures entries == []
    {
      entries := [];
    }

    method AddComponent(c: Component, isDecision: bool)
      modifies this`entries
      ensures entries == old(entries) + [Entry(c, isDecision)]
    {
      entries := entries + [Entry(c, isDecision)];
    }

    function Tags(): seq<Tag>
      reads this
    {
      TagsOf(entries)
    }
  }
}
