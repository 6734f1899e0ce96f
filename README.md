# Motion-optimiser facade of a legged-robot trajectory optimiser

This project models the facade that sits in front of the trajectory
optimiser for legged robots. The facade holds:

- the robot model;
- the optimisation parameters;
- the initial base state and the initial foot positions;
- the final base state.

From these it does three things:

- It builds the default initial state. The base stands at its nominal height
  with zero orientation, and every foot stands on the ground under its
  nominal stance offset.
- It assembles the tree of optimisation variables, a `Composite` of named
  components. The base comes first, either as two cubic-Hermite node splines
  or as two coefficient splines made of polynomial segments. Then come one
  contact schedule per end-effector, the xy- and z-motion of every
  end-effector, and the force of every end-effector. Each component carries
  a decision flag, its seed values and its bounds. Every motion and force
  is registered as an observer of its end-effector's contact schedule.
- It samples every recorded solver iterate into a trajectory of robot
  states at times 0, dt, 2 dt, …. Sampling continues while the time does
  not exceed the total time of the first end-effector's contact schedule
  plus a tolerance of 1e-5.

The model is written in Dafny and is split into five modules:

- `Geometry`: vectors and linear and angular states.
- `Variables`: the variable sets the facade creates, as classes whose fields
  the facade's calls update. These are `Composite`, `ContactSchedule`,
  `NodeSpline`, `PolynomialVars` and `CoeffSpline`. The identifiers, kinds
  and bounds are datatypes.
- `Layout`: the expected component list as a pure function, and what it
  implies. This covers the order and flags, identifier uniqueness, lookups
  by identifier, and the size of the decision vector.
- `Sampler`: the trajectory of one iterate as a pure function, and its
  properties.
- `Facade`: the class `MotionOptimizerFacade`, whose methods do what the
  C++ methods do, loop by loop. The methods that build the variable tree
  are proved against the functions in `Layout`, and the sampling methods
  against the functions in `Sampler`. The constructor and
  `BuildDefaultInitialState` state the new initial state directly.

`BuildVariables` is split into helper methods, one per step of the C++
function: the base switch, each of the three loops, and the body of the
motion and force loops. Each helper states the part of the list it appends and the state
of the objects it creates.

### Where the samples fall

The sampling loop samples only the grid times k·dt <= T + 1e-5, where T is
the total time of end-effector 0's contact schedule. It never adds a sample
at T itself. So T = 1 and dt = 0.3 give samples at 0, 0.3, 0.6 and 0.9
(`Sampler.HorizonNotAMultiple`). T = 1 and dt = 0.5 give samples at 0, 0.5
and 1.0, where the tolerance keeps the sample at T
(`Sampler.HorizonAMultiple`). Only end-effector 0's schedule determines the
horizon (`Sampler.HorizonFromFirstSchedule`).

## Model

| member | source | states |
|---|---|---|
| Facade.MotionOptimizerFacade.constructor | src/motion_optimizer_facade.cc:31-38 | The facade keeps the given parameters, robot model and angular conversion. The default initial state is then built: the base at (0, 0, minus end-effector 0's nominal height) with zero velocity and acceleration and a zero angular state, and one foot per end-effector at its nominal x and y with z = 0. The final base is zero. |
| Facade.MotionOptimizerFacade.BuildDefaultInitialState | src/motion_optimizer_facade.cc:44-57 | Only the base's linear and angular positions change: to (0, 0, -nominal z of end-effector 0) and to zero. There is one initial foot position per end-effector, equal to its nominal stance offset in x and y, with z = 0. The base offset added in the loop is cancelled on x and y because the base's x and y are zero. |
| Facade.MotionOptimizerFacade.BuildVariables | src/motion_optimizer_facade.cc:59-134 | The build fails exactly when the base representation is unknown or some end-effector has no contact timings, and the error names which. On success the result is a fresh composite named `nlp_variables`. Its component list is `ExpectedTags`: the base block, then the schedules, then the motions (xy, z) per end-effector, then the forces. Its base block is built as the chosen representation prescribes (`BaseBuilt`), and each end-effector's four components sit at their layout positions and are built as `EndEffectorBuilt` says. |
| Facade.MotionOptimizerFacade.AddBaseVariables | src/motion_optimizer_facade.cc:62-76 | The list is cleared. If the representation is known, it then holds exactly the base block with the base tags. An unknown representation is reported, and the list is then left empty: no component is added. |
| Facade.MotionOptimizerFacade.AddEndeffectorVariables | src/motion_optimizer_facade.cc:79-129 | The earlier entries are kept. Exactly 4 components per end-effector are appended, with tags schedules, then motions, then forces. Each end-effector's entries sit where `EndEffectorAt` says. A missing timing is reported with the first end-effector lacking one. |
| Facade.MotionOptimizerFacade.AddContactSchedules | src/motion_optimizer_facade.cc:79-87 | One fresh, distinct schedule per end-effector is appended, in order. Each carries its own timings, the min and max phase durations, and no observers. All are flagged by the total-time constraint. An end-effector without timings stops the build. |
| Facade.MotionOptimizerFacade.AddEndeffectorMotions | src/motion_optimizer_facade.cc:90-113 | The xy- and z-motion pairs are appended in end-effector order as decision variables, and each schedule's observers become exactly [xy, z]. Each motion is seeded from the initial foot position to the final base position plus the nominal stance, over the schedule's phase durations. The xy-motion has its start position bound on x and y; the z-motion gets the bottom rows and no bound. |
| Facade.MotionOptimizerFacade.AddEndeffectorMotion | src/motion_optimizer_facade.cc:91-112 | One end-effector's xy- then z-motion are appended and registered, in that order, with its schedule. Both are built as `MotionBuilt` says. |
| Facade.MotionOptimizerFacade.AddEndeffectorForces | src/motion_optimizer_facade.cc:115-129 | One force per end-effector is appended in order. Each schedule's observers become [xy, z, force]. Each force has the per-stance-phase polynomial count and the force limit, is seeded from and to the standing force (0, 0, standing z force), and has no bound. |
| Facade.MotionOptimizerFacade.AddEndeffectorForce | src/motion_optimizer_facade.cc:116-128 | One end-effector's force is appended and registered third with its schedule, completing `EndEffectorBuilt`. |
| Facade.MotionOptimizerFacade.SetBaseRepresentationHermite | src/motion_optimizer_facade.cc:166-211 | Exactly two decision-bearing node splines are appended, linear then angular, with tags `HermiteTags`. Each has dimension 3 and one polynomial per base duration, is seeded from the initial to the final position over the base durations, and carries exactly the bounds `HermiteBounds` lists. |
| Facade.MotionOptimizerFacade.SetBaseRepresentationCoeff | src/motion_optimizer_facade.cc:136-164 | The angular then the linear coefficient block are appended, with tags `BaseTags(PolyCoeff, n)`. Each block is its n decision-bearing segments followed by the informational spline, whose segment list is exactly those segments and whose seed runs from the initial to the final position. |
| Facade.AddCoeffSpline | src/motion_optimizer_facade.cc:143-152 | n segments named `id0 … id(n-1)` with the given order and dimension 3 are appended, each a decision variable, and then the spline itself, flagged informational. The spline's segment list is exactly the appended segments, and it is seeded from start to end over the durations. |
| Facade.HermitePins | src/motion_optimizer_facade.cc:183-194 | The base node splines pin start position, start velocity and final velocity on x, y and z. They pin final position on x and y only for the linear motion (z is left to the terrain) and on z (yaw) only for the angular motion. Every bound's value is the matching initial or final position or velocity. |
| Facade.MotionXYPins | src/motion_optimizer_facade.cc:99 | An end-effector's xy-motion pins exactly x and y of its start position, to the initial foot position, and nothing else. |
| Facade.MotionOptimizerFacade.BuildTrajectory | src/motion_optimizer_facade.cc:285-311 | The loop over t = 0, dt, … yields exactly `Sampler.Trajectory`. That is, one state per grid time not exceeding end-effector 0's total time + 1e-5, each read from the base splines, the angular conversion, and each end-effector's schedule, xy-motion and force at that time. |
| Facade.MotionOptimizerFacade.GetTrajectories | src/motion_optimizer_facade.cc:272-283 | One trajectory per recorded iterate, in iteration order, each equal to `Sampler.Trajectory` of that iterate. |
| Sampler.StepCountSpec | src/motion_optimizer_facade.cc:290-292 | The k-th grid time k·dt is sampled exactly when k·dt <= T + 1e-5, in both directions. |
| Sampler.TrajectorySampleTimes | src/motion_optimizer_facade.cc:290-307 | Samples are at 0, dt, 2 dt, …, all within T + 1e-5. The next grid time after the last sample exceeds T + 1e-5, and there is a sample at 0 whenever T + 1e-5 >= 0. |
| Sampler.TrajectoryTimesIncrease | src/motion_optimizer_facade.cc:305-307 | Sample times strictly increase. |
| Sampler.TrajectoryStates | src/motion_optimizer_facade.cc:294-305 | Every sample has one motion, force and contact flag per end-effector. Each is read from that end-effector's xy-motion, force spline and schedule at the sample's own time, and the base comes from the base splines and the angular conversion. |
| Sampler.HorizonFromFirstSchedule | src/motion_optimizer_facade.cc:291 | Only end-effector 0's schedule determines the horizon; changing the others' total times leaves the trajectory unchanged. |
| Sampler.HorizonNotAMultiple | src/motion_optimizer_facade.cc:290-308 | T = 1, dt = 0.3 gives exactly four samples, the last at 0.9: no sample is added at T. |
| Sampler.HorizonAMultiple | src/motion_optimizer_facade.cc:290-308 | T = 1, dt = 0.5 gives samples at 0, 0.5 and 1.0: the tolerance keeps the sample at T when T is a multiple of dt. |
| Layout.ExpectedLayout | src/motion_optimizer_facade.cc:59-134 | The expected list has base size + 4 n entries. The base block comes first, then at b + e the schedule of e (flagged by the total-time constraint), then at b + n + 2e and b + n + 2e + 1 the xy- and z-motion of e, then at b + 3n + e the force of e. |
| Layout.CoeffBaseLayout | src/motion_optimizer_facade.cc:143-163 | The coefficient base has 2n + 2 entries: the n angular segments, the informational angular spline at n, the n linear segments from n + 1, and the informational linear spline at 2n + 1. |
| Layout.PositionOfEveryEntry | src/motion_optimizer_facade.cc:59-134 | Every entry of the expected list stands at the position `Position` computes from its identifier alone. |
| Layout.IdsUnique | src/motion_optimizer_facade.cc:59-134 | No identifier occurs twice in the assembled tree, whatever the representation and the number of end-effectors. |
| Layout.FindAtPosition | src/motion_optimizer_facade.cc:291-302 | A lookup by identifier of an identifier in the tree returns its layout position. |
| Layout.BaseLookupsResolve | src/motion_optimizer_facade.cc:296-297 | The sampler's lookups of the linear and angular base find the node splines (Hermite) or the informational coefficient splines (coefficient representation). |
| Layout.EndEffectorLookupsResolve | src/motion_optimizer_facade.cc:299-303 | The sampler's lookups of each end-effector's schedule, xy-motion and force find components of the right kind. |
| Layout.DecisionEntries | src/motion_optimizer_facade.cc:59-134 | The decision vector has 2 base splines (Hermite) or 2n segments (coefficient; the two splines are informational), plus the schedules only under the total-time constraint, plus 3 node sets per end-effector. |
| Variables.PinnedDimsMeans | src/motion_optimizer_facade.cc:184-194 | A dimension counts as pinned for a node and a derivative exactly when some bound for that node and derivative lists it. |
| Variables.Find | src/motion_optimizer_facade.cc:291-302 | A lookup by identifier returns the first position holding the identifier, and returns nothing exactly when no entry holds it. |
| Variables.Composite.AddComponent | src/motion_optimizer_facade.cc:86 | The component is appended with its decision flag, and the earlier components are kept in order. |
| Variables.Composite.ClearComponents | src/motion_optimizer_facade.cc:63 | The list is empty. |
| Variables.ContactSchedule.AddObserver | src/motion_optimizer_facade.cc:101 | The observer is appended after the earlier ones. |
| Variables.NodeSpline.AddStartBound | src/motion_optimizer_facade.cc:184-185 | A start-node bound for the given derivative, dimensions and value is appended. |
| Variables.NodeSpline.AddFinalBound | src/motion_optimizer_facade.cc:187-194 | A final-node bound for the given derivative, dimensions and value is appended. |

## Left out

- SolveProblem (lines 255-270) and BuildCostConstraints (lines 232-253). They hand the variables to the cost and constraint factory and to the IPOPT or SNOPT solver, whose code is not part of this model.
- `Print` calls (lines 132, 243, 251, 269). They only produce output.
- The constructor's concrete defaults (lines 33-35). The quadruped parameters and the ANYmal robot model become constructor arguments. The flat terrain is dropped, because no modelled method reads it.
- `GetContactSequence` (lines 93, 106, 118). Each node set gets its schedule's contact sequence at construction. The node sets here record only the phase durations they are seeded with, not the contact flags.
- The second argument of the `Composite` constructor (line 62) is not modelled.
- Internals of `NodeValues`, `EndeffectorNodes`, `ForceNodes`, `Polynomial`, `CoeffSpline`, `ContactSchedule` and `Composite` are not part of this model. In particular, a contact schedule's phase durations are taken to be its timings as given, and `AddObserver` only appends the observer: the notification of observers when the timings change is not modelled. They are reduced to the identifiers, kinds, dimensions, seeds, bounds and segment lists the facade sets.
- `GetPoint`, `IsInContact`, `GetTotalTime` and `AngularStateConverter::GetState` are not part of this model. They are uninterpreted functions of an iterate, or a function parameter of the facade.
- The solver's record of iterates (`nlp.GetIterationCount` and `GetOptVariables`) is not part of this model. GetTrajectories takes the iterates as a sequence.
- Facade.MotionOptimizerFacade.BuildTrajectory: times are exact reals, so `t += dt` does not accumulate rounding. The sample times are exactly k·dt, and the 1e-5 tolerance appears only in the loop bound.
- Facade.MotionOptimizerFacade.BuildVariables: the `assert(false)` for an unknown base representation (line 74) is modelled as an error result. In a build with assertions off, the C++ code would continue and produce a tree without a base.
- Facade.MotionOptimizerFacade.BuildVariables: `contact_timings_.at(ee)` throwing for a missing end-effector (line 82) is modelled as an error result. The partially built composite is discarded.
- The commented-out code in SetBaseRepresentationHermite (lines 198-208 and 214-229) is dead code and is not modelled.
- Variable identifiers are strings in the C++ code. They come from `id::base_linear`, `id::base_angular`, `id::GetEEScheduleId`, `id::GetEEXYMotionId`, `id::GetEEZMotionId`, `id::GetEEForceId`, and `id::base_x + std::to_string(i)` (lines 146, 158). Here they are constructors of the datatype `VarId`, so the model assumes these strings are pairwise distinct. Layout.IdsUnique, Layout.FindAtPosition, Layout.BaseLookupsResolve and Layout.EndEffectorLookupsResolve rest on that assumption.
- Facade.MotionOptimizerFacade.BuildTrajectory: requires dt > 0. The C++ code does not check dt. For dt <= 0 and T + 1e-5 >= 0, its loop `while (t<=T+1e-5)` never ends and keeps appending states. The model excludes that case.
- Facade.MotionOptimizerFacade.GetTrajectories: requires dt > 0, for the same reason. The C++ code does not terminate for dt <= 0 when some iterate has T + 1e-5 >= 0.
