# Godot physics servers, HTTP client and container behaviour in Dafny

This project models the core of Godot's software physics servers together with the TCP HTTP client, the fallback text server's small helpers, and the behaviour that the `Vector` and `LocalVector` test suites pin down. It then proves properties of that model. Every operation is a pure function, or a method where the source loops, on immutable datatypes. Geometry and the numeric solver enter only as parameters.

Modules, following the source layout:

- `AreaPairs` covers the area/body, area/soft-body and area/area pairs: `area_pair_2d_sw.cpp` and `area_pair_3d_sw.cpp`. The 2D and 3D files carry the same logic, so one model serves both. Each row below cites the 2D file. The 3D file's area/soft-body pair is the `SoftBody` case of the same members. A pair's calls into its area and body are recorded as a sequence of effects, and the lemmas count those effects over a pair's whole lifetime.
- `Body2D` covers a 2D body's mass properties, parameters, mode, state, space membership and sleep test (`godot_body_2d.cpp`).
- `Body2DForces` covers the force integration step of the same file: the area override scan, gravity, damping and the kinematic velocity.
- `SpaceQueries` covers the 3D space helpers: the layer/mask test, the broadphase cull for a body, the bisection used by motion casts, closest-cast selection and the rest-info callback (`space_3d_sw.cpp`).
- `MotionQuery` covers `test_body_motion`: recovery, cast, rest info and the result it reports.
- `SpaceState` covers the space's parameters, counters, locking, object set, broadphase pair/unpair, the mass-update and query lists, and debug contacts.
- `ContactCollector` covers the 2D server's contact-collection callback and `shape_collide`.
- `Server2D` covers the 2D server façade over a table of RIDs: space creation and activity, area and body spaces, area parameters and instance ids, exceptions, joint collision switches, `free`, `step` and process info.
- `SoftBody3D` covers the soft body's defaults, constraints, exceptions and its reference-counted, priority-ordered area list.
- `HttpText`, `HttpClient`, `HttpResponse` and `HttpBody` cover `http_client_tcp.cpp`:
  - connecting;
  - URL checks;
  - building the request head;
  - the REQUESTING branch of `poll` and response-head parsing;
  - reading chunked and plain bodies;
  - closing the client.
- `TextServerFallback` covers the OpenType tag packing, the default font data and the size helpers of `text_server_fb.h`.
- `VectorModel` and `LocalVectorModel` state the container behaviour that the two test headers check. The containers' own implementation is not part of this model.
- `SeqUtil`, `PhysicsTypes` and `Optional` are shared helpers.

## Model

| member | source | states |
|---|---|---|
| AreaPairs.NewAreaPair | servers/physics_2d/area_pair_2d_sw.cpp:84-94 | a new area/body pair starts not colliding, registers itself with both objects, and wakes the body exactly when the body is kinematic |
| AreaPairs.Setup | servers/physics_2d/area_pair_2d_sw.cpp:34-52 | the pair is colliding iff the layer test and the solver both report contact. It has work to do iff that verdict changed and the area overrides the space or has a monitor callback |
| AreaPairs.PreSolve | servers/physics_2d/area_pair_2d_sw.cpp:54-78 | on a change, an entered pair adds the area to the body iff the override is not disabled, and queues a query iff a monitor is set. A left pair does the matching removals. It never asks for post-solve |
| AreaPairs.Destroy | servers/physics_2d/area_pair_2d_sw.cpp:96-107 | a pair destroyed while colliding retracts the area and the query under the same conditions that added them, then unregisters. It never adds |
| AreaPairs.StepAlternates | servers/physics_2d/area_pair_2d_sw.cpp:34-78 | within one step, the add/remove area effects and the add/remove query effects each switch the pair's registration from its old colliding state to the new one |
| AreaPairs.RunAlternates | servers/physics_2d/area_pair_2d_sw.cpp:34-78 | across any number of steps, adds and removes strictly alternate, starting from the initial state and ending at the final colliding state |
| AreaPairs.LifetimeBalanced | servers/physics_2d/area_pair_2d_sw.cpp:84-107 | from construction to destruction, the area is added to the body as often as it is removed, and the body is added to the area's query as often as it is removed |
| AreaPairs.NoAreaEffectsWhenDisabled | servers/physics_2d/area_pair_2d_sw.cpp:54-78 | an area whose space override is disabled never adds itself to or removes itself from the body |
| AreaPairs.NoQueryEffectsWithoutMonitor | servers/physics_2d/area_pair_2d_sw.cpp:54-78 | an area without a monitor callback never queues or dequeues a body query |
| AreaPairs.NewArea2Pair | servers/physics_2d/area_pair_2d_sw.cpp:166-173 | a new area/area pair is not colliding in either direction and only registers with both areas |
| AreaPairs.Area2Setup | servers/physics_2d/area_pair_2d_sw.cpp:111-140 | each direction collides iff that area's layer test and the solver agree. A direction has work iff its verdict changed, the watching area has an area monitor, and the watched area is monitorable |
| AreaPairs.Area2PreSolve | servers/physics_2d/area_pair_2d_sw.cpp:142-160 | each direction with work reports the other area entering or leaving, according to its colliding state. It never asks for post-solve |
| AreaPairs.Area2DestroyAsWritten | servers/physics_2d/area_pair_2d_sw.cpp:175-190 | the destructor as written retracts a direction that is still colliding whenever the watcher has an area monitor, without checking that the watched area is monitorable |
| AreaPairs.Area2Destroy | servers/physics_2d/area_pair_2d_sw.cpp:175-190 | the corrected destructor retracts a colliding direction exactly when the enter path at lines 123 and 132 could have reported it |
| AreaPairs.Area2StepAlternates | servers/physics_2d/area_pair_2d_sw.cpp:111-160 | within one step, each direction's enter and exit reports move from its old colliding state to its new one |
| AreaPairs.Area2RunAlternates | servers/physics_2d/area_pair_2d_sw.cpp:111-160 | across any number of steps, each direction's enter and exit reports strictly alternate |
| AreaPairs.Area2LifetimeBalanced | servers/physics_2d/area_pair_2d_sw.cpp:111-190 | with the corrected destructor, each area receives as many exit reports as enter reports over the pair's lifetime |
| AreaPairs.Area2DestroyAsWrittenUnbalanced | servers/physics_2d/area_pair_2d_sw.cpp:175-190 | with the destructor as written, a watcher of a non-monitorable area that overlapped it receives an exit with no matching enter |
| Body2D.SetActive | servers/physics_2d/godot_body_2d.cpp:132-149 | activating is a no-op when nothing changes. A static body is never made active. Only the active flag and the active list change |
| Body2D.MassPropertiesChangedAsWritten | servers/physics_2d/godot_body_2d.cpp:37-41 | as written, the body is queued for a mass update only when it is in a space and one of the calculate flags is set |
| Body2D.MassPropertiesChanged | servers/physics_2d/godot_body_2d.cpp:37-41 | corrected: a body in a space is always queued, so a changed mass or inertia reaches the inverses |
| Body2D.SetSpace | servers/physics_2d/godot_body_2d.cpp:374-397 | as written: entering a space queues the mass update only when a calculate flag is set, and lists the body as active when it is active. Leaving a space takes it off every list. The inverse mass stays in sync when a calculate flag is set or it already matched the mass. Nothing but the lists changes |
| Body2D.SetSpaceIntended | servers/physics_2d/godot_body_2d.cpp:374-397 | corrected: entering a space always queues the mass update, so the inverse mass is in sync. The lists are exactly the space's, with the active list following the active flag, and nothing else changes |
| Body2D.CentroidOfCommonOrigin | servers/physics_2d/godot_body_2d.cpp:56-75 | when every enabled shape sits at the same origin, the area-weighted centre of mass is that origin |
| Body2D.InertiaSumNonNegative | servers/physics_2d/godot_body_2d.cpp:78-100 | the summed shape inertia is non-negative when densities, areas and shape moments are |
| Body2D.WithInverses | servers/physics_2d/godot_body_2d.cpp:102-120 | static and kinematic bodies get zero inverse mass and inertia. Linear-dynamic bodies get inverse mass and zero inverse inertia. Dynamic bodies get both reciprocals. The global centre of mass follows the transform |
| Body2D.UpdateMassPropertiesAsWritten | servers/physics_2d/godot_body_2d.cpp:43-124 | as written, the local centre of mass is left at its old value, because the computed one is overwritten at line 123 |
| Body2D.UpdateMassProperties | servers/physics_2d/godot_body_2d.cpp:43-124 | corrected: a dynamic body computing its centre of mass gets the area-weighted centroid. A dynamic body computing inertia gets a non-negative sum. Otherwise both keep their values. The inverse mass matches the mass and the global centre follows the transform |
| Body2D.FlushMassUpdate | servers/physics_2d/godot_body_2d.cpp:43-124 | the queued update runs as written: the inverses agree with mass and inertia, the mass and the local centre of mass are kept, and the body is off the update list with its other list flags unchanged |
| Body2D.AsWrittenKeepsOnlyTheCentre | servers/physics_2d/godot_body_2d.cpp:56-123 | the update as written equals the corrected one with the old local centre of mass and its world position put back: the inertia and inverses agree |
| Body2D.ResetMassProperties | servers/physics_2d/godot_body_2d.cpp:126-130 | both calculate flags are set, and with them set the rule as written queues a body in a space for a mass update |
| Body2D.SetMass | servers/physics_2d/godot_body_2d.cpp:159-166 | corrected: a non-positive mass is ignored. A positive one replaces the mass, and the inverse mass stays in sync once the update runs |
| Body2D.SetMassAsWritten | servers/physics_2d/godot_body_2d.cpp:159-166 | as written: a non-positive mass is ignored and a positive one replaces the mass. Only the mass and the lists change |
| Body2D.SetInertia | servers/physics_2d/godot_body_2d.cpp:167-181 | a non-positive inertia switches back to computing it. A positive one is stored with calculation off, and a dynamic body gets its reciprocal as inverse inertia |
| Body2D.SetParam | servers/physics_2d/godot_body_2d.cpp:151-199 | setting a parameter changes only mass properties, settings and lists. A non-positive mass is refused. A positive mass on a dynamic body is queued for the update only as the rule as written allows. Parameters other than the mass keep the inverse mass in sync |
| Body2D.SetGetParamRoundTrip | servers/physics_2d/godot_body_2d.cpp:151-232 | reading a parameter back returns what was set, except that a refused mass or inertia keeps the old value and the centre of mass comes back transformed |
| Body2D.SetParamKeepsOthers | servers/physics_2d/godot_body_2d.cpp:151-232 | setting one parameter leaves every other parameter's value unchanged |
| Body2D.SetMode | servers/physics_2d/godot_body_2d.cpp:234-271 | the new mode is stored. Static and kinematic bodies lose their velocity and inverses. A body becoming kinematic is flagged for its first kinematic step. Dynamic modes set the inverses directly and wake the body. Only the dynamic branch asks for a mass update, by the rule as written. Linear-dynamic bodies lose their angular velocity |
| Body2D.ToStaticOrKinematic | servers/physics_2d/godot_body_2d.cpp:240-252 | inverse mass and inertia are zeroed and velocities cleared. The body stays active only as a kinematic body reporting contacts |
| Body2D.ToDynamic | servers/physics_2d/godot_body_2d.cpp:253-262 | inverse mass and inertia become the reciprocals, the body is active and not static, and it is queued for a mass update as the rule as written allows |
| Body2D.ToDynamicLinear | servers/physics_2d/godot_body_2d.cpp:263-269 | inverse mass becomes the reciprocal, inverse inertia and angular velocity become zero, and the body is active |
| Body2D.SetTransform | servers/physics_2d/godot_body_2d.cpp:285-312 | a static body takes the transform. A kinematic body keeps it as the target of its next step. A dynamic body takes the orthonormalised transform. Mode and mass are untouched |
| Body2D.SetVelocity | servers/physics_2d/godot_body_2d.cpp:313-324 | setting a velocity also sets the matching constant velocity and nothing else |
| Body2D.SetSleeping | servers/physics_2d/godot_body_2d.cpp:325-341 | only dynamic bodies react. Sleeping deactivates the body and stops it, and waking activates it with its motion intact |
| Body2D.SetCanSleep | servers/physics_2d/godot_body_2d.cpp:342-348 | the flag is stored, and a dynamic body that may not sleep is woken |
| Body2D.SetState | servers/physics_2d/godot_body_2d.cpp:283-350 | dispatch over the state being set. Mode and mass never change, and the sleeping and can-sleep cases act only on dynamic bodies |
| Body2D.SetGetStateRoundTrip | servers/physics_2d/godot_body_2d.cpp:283-372 | velocities read back as set. Sleeping and can-sleep read back as set on dynamic bodies |
| Body2D.SleepTest | servers/physics_2d/godot_body_2d.cpp:630-645 | non-dynamic bodies always allow sleep, and bodies that cannot sleep never do. A calm body accumulates still time and may sleep once it exceeds the limit. A moving body resets its still time |
| Body2D.StillTimeAccumulates | servers/physics_2d/godot_body_2d.cpp:630-645 | n calm steps add n times the step to the still time |
| Body2D.StaleInverseMass | servers/physics_2d/godot_body_2d.cpp:37-41 | as written, setting the mass of a body with explicit inertia and centre of mass, directly or through the mass parameter, leaves the inverse mass out of sync. Corrected, the update runs and the inverse is 1/mass |
| Body2D.ComputedCentreOfMassDiscarded | servers/physics_2d/godot_body_2d.cpp:56-75 | as written, a body whose only shape is offset by one unit keeps its old centre of mass |
| Body2D.ComputedCentreOfMassKept | servers/physics_2d/godot_body_2d.cpp:56-75 | corrected, the same body's centre of mass moves to the shape's centroid |
| Body2DForces.ScanMatchesReference | servers/physics_2d/godot_body_2d.cpp:421-453 | the scan over areas from highest priority down equals a reference definition: it collects from the last stopping area on, a replacing area discards what the higher-priority areas gave, and the stop flag says whether any area stops the scan |
| Body2DForces.TotalPermutation | servers/physics_2d/godot_body_2d.cpp:421-453 | the combined contribution of areas that only combine does not depend on their order |
| Body2DForces.AreaForces | servers/physics_2d/godot_body_2d.cpp:421-453 | the default area is skipped iff some area stops the scan. For any mix of modes the forces are what the reference `Gathered` collects over the areas in the order the engine's sort leaves them (any priority-sorted permutation, since that sort does not keep the order of equal priorities), with the default area added exactly when no area stopped the scan. With only combining areas, the result is the sum of all areas plus the default area |
| Body2DForces.SortedKeepsModes | servers/physics_2d/godot_body_2d.cpp:421-426 | sorting the areas by priority neither adds nor removes a stopping area |
| Body2DForces.CombineOnlyGathersAll | servers/physics_2d/godot_body_2d.cpp:421-453 | with only combining areas, the scan over the sorted list gathers every area's contribution |
| Body2DForces.LastStop | servers/physics_2d/godot_body_2d.cpp:429-444 | the last area whose mode stops the scan, or -1 when none does |
| Body2DForces.FirstReset | servers/physics_2d/godot_body_2d.cpp:429-444 | the first area whose mode replaces what came before, or -1 when none does |
| Body2DForces.DampFactor | servers/physics_2d/godot_body_2d.cpp:501-511 | the damping factor 1 - step*damp is clamped at zero. It lies in [0,1] for non-negative inputs and is zero exactly when step*damp reaches one |
| Body2DForces.IntegrateForces | servers/physics_2d/godot_body_2d.cpp:412-538 | static bodies are skipped. Gravity is the area gravity times the body's scale. The body's own damping wins when non-negative, and the area's damping is used otherwise. A kinematic body reports the motion to its target. With force integration omitted, a dynamic body is unchanged. Otherwise the linear velocity is damped and pushed by gravity times mass plus the applied force, through the inverse mass, and the angular velocity is damped and turned by the applied torque through the inverse inertia |
| Body2DForces.KinematicVelocityReachesTarget | servers/physics_2d/godot_body_2d.cpp:476-484 | a kinematic body's new velocity carries it from its transform to its target in one step |
| Body2DForces.FreeFall | servers/physics_2d/godot_body_2d.cpp:494-518 | for the integrator with no damping, no applied force and the inverse of the mass, gravity alone raises the velocity by gravity times the step, whatever the mass |
| Body2DForces.DampingOnlySlows | servers/physics_2d/godot_body_2d.cpp:494-518 | for the integrator with no gravity and no applied force, the velocity is scaled by a factor between 0 and 1, so no component speeds up or changes sign |
| SpaceQueries.CanCollideWith | servers/physics_3d/space_3d_sw.cpp:39-56 | an object passes iff its layer meets the mask and its kind is one the query asked for |
| SpaceQueries.CanCollideWithMonotone | servers/physics_3d/space_3d_sw.cpp:39-56 | widening the mask or asking for more kinds never drops an object that passed |
| SpaceQueries.SwapPermutes | servers/physics_3d/space_3d_sw.cpp:610-618 | swapping two candidates keeps the same candidates |
| SpaceQueries.CullForBody | servers/physics_3d/space_3d_sw.cpp:591-621 | the kept candidates come first and the culled ones follow. The objects and their shape indices stay paired and are only permuted |
| SpaceQueries.NextCoeff | servers/physics_3d/space_3d_sw.cpp:293-328 | the first probe is the midpoint. Later probes lean to a quarter after a hit with no safe point yet, and to three quarters after a miss with no unsafe point yet |
| SpaceQueries.Probe | servers/physics_3d/space_3d_sw.cpp:293-328 | every probe lies strictly between the current safe and unsafe fractions |
| SpaceQueries.Bisect | servers/physics_3d/space_3d_sw.cpp:293-328 | after the fixed number of rounds, 0 <= safe < unsafe <= 1. A safe fraction other than 0 was probed and missed, and an unsafe fraction other than 1 was probed and hit |
| SpaceQueries.ClosestCast | servers/physics_3d/space_3d_sw.cpp:330-354 | the reported safe fraction is at most every object's, and is one of them or the full motion |
| SpaceQueries.FirstShorter | servers/physics_3d/space_3d_sw.cpp:444-452 | the first stored result shallower than the new one, or the count when none is |
| SpaceQueries.RestCbkResult | servers/physics_3d/space_3d_sw.cpp:429-487 | contacts shallower than the minimum depth are ignored, the deepest contact becomes the best one, and the result count never drops |
| SpaceQueries.RestFoldKeepsDeepest | servers/physics_3d/space_3d_sw.cpp:429-487 | after all contacts, the best result is at least as deep as every contact that passed the minimum depth. Unless none beat the start, it is one of those contacts, carrying the object and shape it was found against |
| MotionQuery.Recover | servers/physics_3d/space_3d_sw.cpp:675-752 | recovery reports a collision iff the starting position overlaps. It stops early only when nothing overlaps or there is nothing left to push out |
| MotionQuery.RecoverRounds | servers/physics_3d/space_3d_sw.cpp:675-752 | with nothing overlapping, recovery does not move. With something always to push out, it uses every round |
| MotionQuery.SweptFractions | servers/physics_3d/space_3d_sw.cpp:755-882 | the per-object cast results are ordered fractions within [0,1], each from a swept object |
| MotionQuery.SweptCovered | servers/physics_3d/space_3d_sw.cpp:755-882 | every swept object's fractions appear in the list |
| MotionQuery.CastShape | servers/physics_3d/space_3d_sw.cpp:866-871 | a shape is stuck iff some object already overlaps it. Otherwise its safe fraction is at most every swept object's |
| MotionQuery.CastShapes | servers/physics_3d/space_3d_sw.cpp:873-880 | the best shape has the smallest safe fraction. A stuck shape forces both fractions to zero. No best shape means the whole motion is safe |
| MotionQuery.RestStart | servers/physics_3d/space_3d_sw.cpp:894-903 | rest info starts with no results, no best contact and body shape 0, and keeps extra results only when more than one collision was asked for |
| MotionQuery.Collisions | servers/physics_3d/space_3d_sw.cpp:940-968 | one collision is reported per stored rest result |
| MotionQuery.TestBodyMotion | servers/physics_3d/space_3d_sw.cpp:623-984 | an out-of-range collision limit is an error. A body without enabled shapes travels the full motion. A collision reports 1 to max results, fractions with 0 <= safe <= unsafe <= 1, and a remainder that completes the motion. No collision reports the full motion plus recovery and no remainder |
| MotionQuery.FirstCollisionNamed | servers/physics_3d/space_3d_sw.cpp:905-951 | the first reported collision is a contact of an enabled body shape, with the object and object shape it was found against. Its body shape index stays 0, because the loop never sets it |
| SpaceState.SetParam | servers/physics_3d/space_3d_sw.cpp:1149-1176 | the set parameter reads back as given and every other parameter is unchanged |
| SpaceState.ParamsDeterminedByGetters | servers/physics_3d/space_3d_sw.cpp:1149-1198 | two parameter sets that agree on every getter are equal |
| SpaceState.SetParamToCurrentIsIdentity | servers/physics_3d/space_3d_sw.cpp:1149-1198 | writing back a parameter's current value changes nothing |
| SpaceState.NewSpace | servers/physics_3d/space_3d_sw.cpp:1216-1229 | a new space has the engine's default contact and bias parameters, the configured sleep thresholds, no objects, empty lists, zero counters, zero elapsed times and no debug contacts |
| SpaceState.SetLastStep | servers/physics_3d/godot_space_3d.h:180 | only the last step changes |
| SpaceState.SetIslandCount | servers/physics_3d/godot_space_3d.h:185 | only the island count changes |
| SpaceState.SetActiveObjects | servers/physics_3d/godot_space_3d.h:188 | only the active object count changes |
| SpaceState.SetStaticGlobalBody | servers/physics_3d/godot_space_3d.h:205 | only the static global body changes |
| SpaceState.SetElapsedTime | servers/physics_3d/godot_space_3d.h:208-209 | the chosen timer reads back as set and the others are unchanged |
| SpaceState.Lock | servers/physics_3d/space_3d_sw.cpp:1200-1202 | the space is locked and nothing else changes |
| SpaceState.Unlock | servers/physics_3d/space_3d_sw.cpp:1204-1206 | the space is unlocked and nothing else changes |
| SpaceState.AddObject | servers/physics_3d/space_3d_sw.cpp:1069-1072 | the object joins the set, and adding a present object changes nothing |
| SpaceState.RemoveObject | servers/physics_3d/space_3d_sw.cpp:1074-1077 | the object leaves the set, and removing an absent object changes nothing |
| SpaceState.AddThenRemoveObject | servers/physics_3d/space_3d_sw.cpp:1069-1077 | adding and then removing a new object restores the space |
| SpaceState.SetDebugContacts | servers/physics_3d/godot_space_3d.h:195-196 | a non-negative amount resizes the debug buffer and keeps the existing entries. Debugging is on iff the amount is positive. A negative amount is ignored |
| SpaceState.AddDebugContact | servers/physics_3d/godot_space_3d.h:197-201 | a contact is stored at the next free slot while there is room, and dropped otherwise |
| SpaceState.AddDebugContacts | servers/physics_3d/godot_space_3d.h:197-201 | contacts fill the free slots in order until the buffer is full |
| SpaceState.Ordered | servers/physics_3d/space_3d_sw.cpp:991-998 | the pair is swapped when needed so that the lower object kind comes first |
| SpaceState.Dispatch | servers/physics_3d/space_3d_sw.cpp:1004-1029 | a soft body paired with another soft body makes no pair. An area pair is built area-second and a body pair body-first |
| SpaceState.BroadphasePairAsWritten | servers/physics_3d/space_3d_sw.cpp:987-1032 | as written, every interacting couple raises the collision pair count, even when no pair object is made |
| SpaceState.BroadphasePair | servers/physics_3d/space_3d_sw.cpp:987-1032 | corrected: a pair is made iff the kinds can pair, and the count rises exactly when one is made |
| SpaceState.BroadphaseUnpair | servers/physics_3d/space_3d_sw.cpp:1034-1043 | unpairing a made pair lowers the count by one. Unpairing nothing changes nothing |
| SpaceState.PairThenUnpairBalances | servers/physics_3d/space_3d_sw.cpp:987-1043 | with the corrected pairing, pairing and then unpairing leaves the collision pair count where it was |
| SpaceState.SoftBodyCoupleLeaksPairCount | servers/physics_3d/space_3d_sw.cpp:987-1043 | with the pairing as written, a soft-body couple raises the count and unpairing it does not lower it |
| SpaceState.Enqueue | servers/physics_3d/space_3d_sw.cpp:1083-1085 | a body not yet queued goes to the front of the list, and a queued one is not added twice |
| SpaceState.Dequeue | servers/physics_3d/space_3d_sw.cpp:1087-1089 | the body leaves the list and the other entries stay |
| SpaceState.EnqueueDequeue | servers/physics_3d/space_3d_sw.cpp:1083-1089 | queueing and then dequeuing a body not yet queued restores the list |
| SpaceState.CallQueries | servers/physics_3d/space_3d_sw.cpp:1123-1135 | every queued body's queries and then every queued area's queries are called in list order, and both lists are emptied |
| SpaceState.Setup | servers/physics_3d/space_3d_sw.cpp:1137-1143 | debug contacts restart at zero, and every body on the mass-update list is updated in order and taken off it |
| SpaceState.SetupRestartsDebugContacts | servers/physics_3d/space_3d_sw.cpp:1137-1143 | after setup, the first debug contact lands in slot zero |
| ContactCollector.DirectionFilter | servers/physics_2d/physics_server_2d_sw.cpp:154-166 | with no valid direction every contact passes. A contact against the valid direction is rejected and counted only while the valid depth is bounded |
| ContactCollector.MinDepth | servers/physics_2d/physics_server_2d_sw.cpp:168-178 | the smallest stored contact depth, or the sentinel when nothing is stored |
| ContactCollector.ShallowestSlot | servers/physics_2d/physics_server_2d_sw.cpp:168-178 | the first stored contact of minimum depth, or slot 0 when all are at the sentinel |
| ContactCollector.Shallowest | servers/physics_2d/physics_server_2d_sw.cpp:168-178 | the loop finds the minimum depth and its first slot |
| ContactCollector.Collect | servers/physics_2d/physics_server_2d_sw.cpp:145-193 | with no room nothing happens. Rejected contacts are dropped, and counted when the rejection is by direction. Below capacity a contact is appended. At capacity a deeper contact replaces the shallowest one. Limits and direction never change |
| ContactCollector.CollectOne | servers/physics_2d/physics_server_2d_sw.cpp:145-193 | the imperative callback agrees with the functional one |
| ContactCollector.ReplacementNotShallower | servers/physics_2d/physics_server_2d_sw.cpp:168-185 | at capacity, when every stored depth is below 1e20, the collected contacts only get deeper, slot by slot |
| ContactCollector.ShapeCollide | servers/physics_2d/physics_server_2d_sw.cpp:195-214 | a zero result size gives no count. Otherwise the count is the number of reported contacts capped at the result size, and every reported pair is stored when all fit. The hit flag is the solver's |
| Server2D.SpaceCreate | servers/physics_2d/physics_server_2d_sw.cpp:216-228 | a fresh RID names a new inactive space with its own default area, and nothing else changes |
| Server2D.SpaceSetActive | servers/physics_2d/physics_server_2d_sw.cpp:230-238 | an unknown space is ignored. A known one joins or leaves the active set |
| Server2D.SpaceIsActive | servers/physics_2d/physics_server_2d_sw.cpp:240-245 | only a known space can be active |
| Server2D.SpaceActiveReadsBack | servers/physics_2d/physics_server_2d_sw.cpp:230-245 | activity reads back as set and other spaces are unaffected |
| Server2D.AreaSetSpace | servers/physics_2d/physics_server_2d_sw.cpp:293-309 | an unknown area or unknown space is ignored. Otherwise the area takes the space: moving it drops its constraints, setting its current space changes nothing, and its parameters and other areas are untouched |
| Server2D.BodySetSpace | servers/physics_2d/physics_server_2d_sw.cpp:538-553 | an unknown body or unknown space is ignored. Otherwise the body takes the space: moving it drops its constraints, setting its current space changes nothing, and its exceptions and other bodies are untouched |
| Server2D.SetSpaceIdempotent | servers/physics_2d/physics_server_2d_sw.cpp:293-309 | setting the same space twice is the same as setting it once |
| Server2D.ResolveArea | servers/physics_2d/physics_server_2d_sw.cpp:453-461 | a space handle stands for the space's default area |
| Server2D.AreaSetParam | servers/physics_2d/physics_server_2d_sw.cpp:453-461 | the parameter reads back as set on the resolved area, and an unknown handle is ignored |
| Server2D.AreaAttachObjectInstanceId | servers/physics_2d/physics_server_2d_sw.cpp:413-421 | the instance id reads back as attached on the resolved area |
| Server2D.AreaAttachCanvasInstanceId | servers/physics_2d/physics_server_2d_sw.cpp:433-441 | the canvas instance id reads back as attached on the resolved area |
| Server2D.SpaceHandleActsOnDefaultArea | servers/physics_2d/physics_server_2d_sw.cpp:453-478 | setting a parameter through a space handle sets it on the default area and leaves other areas alone |
| Server2D.AddException | servers/physics_2d/physics_server_2d_sw.cpp:864-870 | the other RID joins the body's exceptions and the body is woken. Other bodies are untouched, and an unknown body is ignored |
| Server2D.RemoveException | servers/physics_2d/physics_server_2d_sw.cpp:872-878 | the other RID leaves the body's exceptions and the body is woken. Other bodies are untouched, and an unknown body is ignored |
| Server2D.JointDisableCollisions | servers/physics_2d/physics_server_2d_sw.cpp:1030-1048 | the joint records the flag. For a two-body joint, each body gains or loses the other as an exception and is woken |
| Server2D.JointDisableThenEnable | servers/physics_2d/physics_server_2d_sw.cpp:1030-1048 | disabling and then enabling collisions on a joint whose bodies had no mutual exceptions restores their exceptions. The only lasting change is that both bodies are woken |
| Server2D.SumCountsPermutation | servers/physics_2d/physics_server_2d_sw.cpp:1239-1255 | the summed island, active-object and pair counts do not depend on the order the spaces are visited in |
| Server2D.Step | servers/physics_2d/physics_server_2d_sw.cpp:1239-1255 | an inactive server does nothing. Otherwise each active space is stepped, inactive spaces are untouched, and the counters are the sums over active spaces |
| Server2D.StepOrderIrrelevant | servers/physics_2d/physics_server_2d_sw.cpp:1239-1255 | stepping the active spaces in any order gives the same server |
| Server2D.ProcessInfoAfterStep | servers/physics_2d/physics_server_2d_sw.cpp:1326-1340 | after a step, process info reports the summed counts |
| Server2D.Free | servers/physics_2d/physics_server_2d_sw.cpp:1153-1223 | the freed RID is gone from every table and every other table is unchanged. Freeing a space also frees its default area, leaves the active set, and detaches its bodies and areas: each other record is kept, with only its space cleared if it was in the freed one. Freeing an unknown RID changes nothing |
| Server2D.CreateThenFreeSpace | servers/physics_2d/physics_server_2d_sw.cpp:1153-1223 | creating a space and freeing it restores the server |
| SoftBody3D.NewSoftBody | servers/physics_3d/soft_body_3d_sw.h:92-114 | a new soft body has the listed default margin, mass, stiffness, damping and iteration count, and no constraints, areas or exceptions |
| SoftBody3D.DefaultsInRange | servers/physics_3d/soft_body_3d_sw.h:98-101 | the default stiffness, damping and drag lie in their documented ranges |
| SoftBody3D.AddConstraint | servers/physics_3d/soft_body_3d_sw.h:127 | the constraint joins the set and nothing else changes |
| SoftBody3D.RemoveConstraint | servers/physics_3d/soft_body_3d_sw.h:128 | the constraint leaves the set and nothing else changes |
| SoftBody3D.ClearConstraints | servers/physics_3d/soft_body_3d_sw.h:130 | the set is emptied and nothing else changes |
| SoftBody3D.AddException | servers/physics_3d/soft_body_3d_sw.h:132 | the RID becomes an exception and the others keep their status |
| SoftBody3D.RemoveException | servers/physics_3d/soft_body_3d_sw.h:133 | the RID stops being an exception and the others keep their status |
| SoftBody3D.FindArea | servers/physics_3d/soft_body_3d_sw.h:141 | the first listed entry for the area, or -1 when it is not listed |
| SoftBody3D.AddArea | servers/physics_3d/soft_body_3d_sw.h:140-147 | the area's reference count rises by one, other areas are unaffected, and the list stays priority-ordered with one entry per area |
| SoftBody3D.RemoveArea | servers/physics_3d/soft_body_3d_sw.h:149-157 | the area's reference count falls by one, never below zero, and its entry goes when the count reaches zero |
| SoftBody3D.AddRemoveRoundTrip | servers/physics_3d/soft_body_3d_sw.h:140-157 | adding and then removing an area restores the soft body |
| HttpClient.Close | core/io/http_client_tcp.cpp:226-249 | the client is disconnected with the response state cleared. Host, port, TLS choice and read size are kept |
| HttpClient.CloseIdempotent | core/io/http_client_tcp.cpp:226-249 | closing twice is closing once |
| HttpClient.StripScheme | core/io/http_client_tcp.cpp:53-59 | a leading "http://" or "https://", in any case, is removed, and "https://" turns TLS on |
| HttpClient.DefaultPort | core/io/http_client_tcp.cpp:63-69 | a negative port becomes 443 with TLS and 80 without. A given port is kept |
| HttpClient.ConnectToHostAsWritten | core/io/http_client_tcp.cpp:42-89 | as written, the dial to an IP address uses the caller's port, not the normalised one |
| HttpClient.DefaultPortNotDialled | core/io/http_client_tcp.cpp:63-75 | connecting to an IP address with port -1 dials port -1 instead of 80 |
| HttpClient.ConnectToHost | core/io/http_client_tcp.cpp:42-89 | a host shorter than the minimum is an invalid parameter and nothing is dialled. Otherwise the port is normalised and an IP address is dialled on that port. A refused dial leaves the client unable to connect and returns the TCP layer's own error. An accepted dial is connecting, and a name is resolved first |
| HttpClient.CheckRequestUrl | core/io/http_client_tcp.cpp:112-129 | CONNECT needs an authority with a colon. OPTIONS also takes "*". Every other method needs a path or an absolute URL |
| HttpClient.HostHeader | core/io/http_client_tcp.cpp:157-164 | the host header names the host, and adds the port exactly when it is not the scheme's standard one |
| HttpClient.ScanHeaders | core/io/http_client_tcp.cpp:137-156 | the caller's headers are written after the request line, and each default is wanted iff no header of that name, in any case, was given |
| HttpClient.MissingDefaults | core/io/http_client_tcp.cpp:157-175 | the wanted default headers are written in order |
| HttpClient.BuildHead | core/io/http_client_tcp.cpp:137-175 | the loop-built request head equals the request line, the caller's headers and the wanted defaults, each ended by CRLF, then a blank line |
| HttpClient.DefaultsFillTheGaps | core/io/http_client_tcp.cpp:138-174 | Host, User-Agent and Accept are added iff missing. Content-Length is added iff missing and there is a body |
| HttpClient.SerialisedEndsWithBlankLine | core/io/http_client_tcp.cpp:175 | the head always ends with CRLF, and with an empty line when it has any lines |
| HttpClient.Request | core/io/http_client_tcp.cpp:131-198 | a bad URL or a client that is not connected is an invalid parameter and changes nothing. Otherwise the serialised head and the body are sent; a failed send closes with a connection error status and returns the transport's error, and a successful one moves to requesting |
| HttpResponse.ReceiveHead | core/io/http_client_tcp.cpp:375-396 | bytes are taken one by one until the head's blank line first appears. If it never does, everything is buffered |
| HttpResponse.Classify | core/io/http_client_tcp.cpp:415-432 | a header line is trimmed and recognised as Content-Length, Transfer-Encoding or "Connection: close" by a case-insensitive prefix |
| HttpResponse.LastLengthIsLast | core/io/http_client_tcp.cpp:421-423 | the last Content-Length header wins |
| HttpResponse.KeptHeadersTrimmed | core/io/http_client_tcp.cpp:434-439 | every kept header is non-empty and already trimmed |
| HttpResponse.ReadHeadLines | core/io/http_client_tcp.cpp:398-455 | the status code comes from an "HTTP" first line. Chunked is set by a Transfer-Encoding of chunked. The body length is the last Content-Length, or nothing for HEAD. The body is read iff it has a length, is chunked or ends at close, and it runs to end of file iff neither length nor chunking says otherwise |
| HttpResponse.ParseHead | core/io/http_client_tcp.cpp:398-455 | the same, on the raw head text split at newlines. A HEAD response always enters the body state with zero length |
| HttpResponse.PollRequesting | core/io/http_client_tcp.cpp:375-457 | the client stays requesting iff the head is not complete and the next read does not fail. A failed read before the head is complete closes the client with a connection error. Once the head is complete, the buffer is cleared and the client moves to body or connected |
| HttpResponse.GetResponseHeaders | core/io/http_client_tcp.cpp:212-224 | with no headers it is an invalid parameter. Otherwise the headers are handed over and cleared |
| HttpResponse.HeadersTakenOnce | core/io/http_client_tcp.cpp:212-224 | a second call after a successful one is an invalid parameter |
| HttpResponse.SetReadChunkSize | core/io/http_client_tcp.cpp:672-675 | a size within the accepted range is stored, and any other is refused |
| HttpResponse.ReadChunkSizeStaysInRange | core/io/http_client_tcp.cpp:672-675 | the read size never leaves its range |
| HttpBody.HexScan | core/io/http_client_tcp.cpp:533-555 | the value read so far never goes negative, and an accepted line that started within the limit stays at most 2^24 |
| HttpBody.HexScanAccepts | core/io/http_client_tcp.cpp:533-552 | the size line is accepted iff every byte is a hex digit and its value is at most 2^24, and an accepted line reads as its hex value |
| HttpBody.HexScanRejectsLarge | core/io/http_client_tcp.cpp:548-554 | a line of hex digits whose value exceeds 2^24 is refused |
| HttpBody.HexScanReadsValue | core/io/http_client_tcp.cpp:533-552 | a line of hex digits reads back as its value |
| HttpBody.HexScanRejects | core/io/http_client_tcp.cpp:534-547 | a line holding a byte that is not a hex digit is refused |
| HttpBody.TrailerByte | core/io/http_client_tcp.cpp:489-513 | a trailer line is collected until CRLF. An empty trailer line ends the body and returns the client to connected, and any other trailer line is dropped |
| HttpBody.SizeByte | core/io/http_client_tcp.cpp:514-566 | a size line longer than 32 bytes is a connection error and ends the call. The status only stays or becomes a connection error. A call that ends other than by error moves to the trailer with an empty buffer |
| HttpBody.SizeByteOutcome | core/io/http_client_tcp.cpp:514-566 | an incomplete size line grows by the byte. A complete line of hex digits with a value from 1 to 2^24 sets the chunk length to the value plus 2 for the CRLF. A value of 0 moves to the trailer and ends the call. A refused line sets a connection error, and the corrected reader stops there |
| HttpBody.DataRead | core/io/http_client_tcp.cpp:567-589 | a chunk's data and CRLF are read together. The data is returned only when the terminator is CRLF, and a wrong terminator is a connection error |
| HttpBody.ReadChunkedAsWritten | core/io/http_client_tcp.cpp:488-590 | as written, a refused size line does not end the call, so reading goes on into the data |
| HttpBody.ReadChunked | core/io/http_client_tcp.cpp:488-590 | corrected: one call returns at most one chunk's data. The remaining bytes are a suffix of the input. The status only moves to connected or connection error, and a refused size line returns no data |
| HttpBody.BadSizeStillReturnsData | core/io/http_client_tcp.cpp:546-553 | as written, the input "1g" CRLF "x" CRLF returns the byte "x" despite the refused size line |
| HttpBody.BadSizeStops | core/io/http_client_tcp.cpp:546-553 | corrected, the same input returns nothing and ends in a connection error |
| HttpBody.ChunkRoundTrip | core/io/http_client_tcp.cpp:514-589 | a chunk encoded with its hex size line and CRLF is read back as its data, with the following bytes untouched |
| HttpBody.LastChunkThenTrailer | core/io/http_client_tcp.cpp:489-562 | a zero-size chunk moves to the trailer, and an empty trailer line returns the client to connected |
| HttpBody.TrailerFieldDropped | core/io/http_client_tcp.cpp:489-513 | a trailer header line is consumed without effect |
| HttpBody.BadTerminatorRejected | core/io/http_client_tcp.cpp:575-580 | chunk data not followed by CRLF is a connection error and returns nothing |
| HttpBody.ReadPlain | core/io/http_client_tcp.cpp:592-617 | a body that is not chunked returns a prefix of the available bytes, no more than the read size or what is left of the length. End of file is reported when a read comes up short on a closed connection |
| HttpBody.Settle | core/io/http_client_tcp.cpp:619-629 | end of file closes the client, and another error closes it with a connection error. A fully read body of known length returns the client to connected |
| HttpBody.ReadResponseBodyChunk | core/io/http_client_tcp.cpp:482-632 | outside the body state nothing is read. A chunked body goes to the chunked reader as written. A plain body returns at most the read amount, and a fully read body of known length ends the body state |
| TextServerFallback.OtTag | modules/text_server_fb/text_server_fb.h:57 | four characters pack big-endian into a signed 32-bit tag, using each one's low byte |
| TextServerFallback.OtTagRoundTrip | modules/text_server_fb/text_server_fb.h:57 | unpacking a tag gives back the four low bytes |
| TextServerFallback.OtTagInjective | modules/text_server_fb/text_server_fb.h:57 | two tags are equal iff their low bytes are |
| TextServerFallback.OtTagSign | modules/text_server_fb/text_server_fb.h:57 | a tag is negative iff its first byte has the top bit set |
| TextServerFallback.DefaultFontData | modules/text_server_fb/text_server_fb.h:135-143 | new font data is antialiased, uses light hinting and MSDF range 14 at source size 48, and has no fixed size or oversampling |
| TextServerFallback.GetSize | modules/text_server_fb/text_server_fb.h:181-189 | MSDF fonts use their source size, bitmap fonts their fixed size, and other fonts the requested size. The outline is always zero |
| TextServerFallback.GetSizeOutline | modules/text_server_fb/text_server_fb.h:191-199 | the size as above. MSDF drops the outline, fixed-size fonts cap it at one, and other fonts keep it |
| TextServerFallback.GetSizeIdempotent | modules/text_server_fb/text_server_fb.h:181-189 | resolving a resolved size changes nothing |
| TextServerFallback.GetSizeOutlineIdempotent | modules/text_server_fb/text_server_fb.h:191-199 | resolving a resolved size and outline changes nothing |
| TextServerFallback.OutlineAgreesWithoutOutline | modules/text_server_fb/text_server_fb.h:181-199 | with a zero outline, both helpers agree |
| VectorModel.PushBack | tests/core/templates/test_vector.h:40-54 | the element is appended and the earlier ones stay |
| VectorModel.AppendArray | tests/core/templates/test_vector.h:56-71 | the second vector's elements follow the first's |
| VectorModel.Insert | tests/core/templates/test_vector.h:73-87 | an in-range insert shifts the tail right by one, and an out-of-range insert changes nothing |
| VectorModel.OrderedInsert | tests/core/templates/test_vector.h:89-103 | the element is added before the first strictly greater one, the rest keep their order, and a sorted vector stays sorted |
| VectorModel.Fill | tests/core/templates/test_vector.h:121-137 | every element becomes the value |
| VectorModel.SetGetRoundTrip | tests/core/templates/test_vector.h:185-205 | an element reads back as set |
| VectorModel.Set | tests/core/templates/test_vector.h:185-205 | an in-range set changes only that element, and an out-of-range one changes nothing |
| VectorModel.ToByteArray | tests/core/templates/test_vector.h:207-239 | each 32-bit element becomes its four little-endian bytes, in order |
| VectorModel.IntBytesRoundTrip | tests/core/templates/test_vector.h:207-239 | an element's four bytes decode back to it |
| VectorModel.ByteArrayRoundTrip | tests/core/templates/test_vector.h:207-239 | decoding a vector's byte array gives back the vector |
| VectorModel.ByteArrayExamples | tests/core/templates/test_vector.h:207-239 | the bytes the test expects for 0, -1, 2008 and 999999999 |
| VectorModel.Subarray | tests/core/templates/test_vector.h:241-270 | negative bounds count from the end. The slice is inclusive of both ends, and out-of-range bounds give nothing |
| VectorModel.SubarrayConcat | tests/core/templates/test_vector.h:241-270 | adjacent inclusive slices join into the slice that spans them |
| VectorModel.SubarrayExamples | tests/core/templates/test_vector.h:241-270 | the slices the test expects |
| VectorModel.Find | tests/core/templates/test_vector.h:272-303 | the first index of the value at or after the start, or -1 when there is none |
| VectorModel.Has | tests/core/templates/test_vector.h:272-303 | true iff the value is present |
| VectorModel.Remove | tests/core/templates/test_vector.h:305-334 | an in-range remove closes the gap, and an out-of-range one changes nothing |
| VectorModel.InsertRemoveRoundTrip | tests/core/templates/test_vector.h:336-384 | removing what was just inserted restores the vector |
| VectorModel.Erase | tests/core/templates/test_vector.h:386-400 | one occurrence of the value is removed, and an absent value changes nothing |
| VectorModel.EraseRemovesFound | tests/core/templates/test_vector.h:386-400 | erasing removes exactly the first occurrence that find reports |
| VectorModel.Resize | tests/core/templates/test_vector.h:402-435 | the new size is the one asked for, and the surviving elements stay |
| VectorModel.Clear | tests/core/templates/test_vector.h:402-435 | the vector becomes empty |
| VectorModel.Sort | tests/core/templates/test_vector.h:437-450 | the result is sorted and holds the same elements |
| VectorModel.Bsearch | tests/core/templates/test_vector.h:475-486 | the insertion point before equal elements, or after them, in a sorted vector |
| LocalVectorModel.PushBack | tests/core/templates/test_local_vector.h:40-53 | the element is appended and the capacity never shrinks |
| LocalVectorModel.Find | tests/core/templates/test_local_vector.h:55-77 | the first index of the value, or -1 when it is absent |
| LocalVectorModel.Remove | tests/core/templates/test_local_vector.h:79-108 | an in-range remove closes the gap and keeps the capacity |
| LocalVectorModel.RemoveUnordered | tests/core/templates/test_local_vector.h:110-160 | the last element moves into the removed slot and the capacity is kept |
| LocalVectorModel.Erase | tests/core/templates/test_local_vector.h:162-176 | one occurrence of the value is removed, and an absent value changes nothing |
| LocalVectorModel.Resize | tests/core/templates/test_local_vector.h:178-226 | the size is the one asked for, and the capacity grows to fit but never shrinks |
| LocalVectorModel.Reserve | tests/core/templates/test_local_vector.h:178-226 | the capacity covers the request and the elements are kept |
| LocalVectorModel.Clear | tests/core/templates/test_local_vector.h:178-226 | the size drops to zero and the capacity stays |
| LocalVectorModel.Reset | tests/core/templates/test_local_vector.h:178-226 | the size and the capacity drop to zero |
| LocalVectorModel.CapacityScenario | tests/core/templates/test_local_vector.h:178-226 | the sizes and capacities the test expects after its resize, remove, reset and reserve steps |

## Left out

- Narrow-phase geometry, the constraint solver, AABBs, the broadphase BVH, sqrt, trigonometry and `String::to_int` are parameters (oracles). The model states what the servers do with their answers, not the answers themselves.
- Floating point is modelled as exact reals. Rounding, NaN and infinities are not modelled.
- `integrate_velocities`, `wakeup_neighbours` and `call_queries` of the 2D body (`godot_body_2d.cpp:540-628`) are not modelled: they only move values through the solver and the scripting callbacks.
- Concurrency, threads and the profiler are not modelled. `ProjectSettings` values (the sleep thresholds) are parameters.
- Object allocation, `memnew`/`memdelete` and `ObjectDB` are replaced by RIDs as natural numbers.
- Values that come from headers outside this model follow the engine's conventions: `wakeup`, the area comparison by priority, the minimum host length of 4, the ports 80 and 443, the limit of 32 collisions, the method names, and the front insertion of `SelfList::add` that `SpaceState.Enqueue` follows.
- Shapes owned by a freed body or area are not modelled in `Server2D.Free`. Only the tables and the space links are.
- `AreaSoftBodyPair3DSW` (`area_pair_3d_sw.cpp:192-272`) is the `SoftBody` case of `AreaPairs.NewAreaPair` and the following members.
- The 2D server's `solve` of a pair is empty in the source, so it has no member.
- DNS resolution, TLS, and the `poll` branches other than REQUESTING (resolving, connecting, connected, body) are not modelled. The connection is given as the bytes available plus whether the peer closed it.
- The blocking loop of `_get_http_data` (`http_client_tcp.cpp:646-670`) is the read rule above. Blocking mode is not modelled.
- The UTF-8 decoding of the response head is replaced by a byte-to-character copy up to the first NUL byte.
- The User-Agent string is a parameter, because it is built from the engine version.
- The Transfer-Encoding value is compared with "chunked" case-sensitively, after trimming, as the source does.
- `Vector` and `LocalVector` are modelled from their tests, not from their implementation (not part of this model).
- LocalVectorModel.PushBack: the growth policy when full (double, or one when empty) is the model's choice, and the contract promises only that capacity covers the size and never shrinks.
- VectorModel.Resize: grown slots take a filler parameter. The contract says nothing about their value.
- MotionQuery.TestBodyMotion: the collider velocity, the collision normal and the rest-info fields that come from the geometry oracle are not constrained beyond what the rest callback keeps.
- SpaceQueries.Bisect: the cast's rest info (`r_info`) is not modelled.
- Body2DForces.IntegrateForces: the applied constant force and torque are parameters. The area gravity and damping come from the area scan, so the contract states the dynamic push in terms of the gravity and damping it reports.
- Body2D.SetParam: the inverse mass is promised to stay in sync only for parameters other than the mass, because the mass branch queues the update by the rule as written (see Findings).
- LocalVectorModel.Resize: the capacity grows to exactly the new size. The growth policy of `local_vector.h` is not part of this model, and the tests only check that the capacity covers the size.
- In the server's body table, a body's mode and sleeping state are reduced to a `dynamic` and an `active` flag. The body's own lists are modelled by `Body2D.Wakeup`.
- Test cases of the two container suites that copy or duplicate containers, and the operator tests, add nothing beyond value semantics and are not modelled.

## Findings


| source | as written | input that shows it | evidently intended | confidence | as-written member | corrected member |
|---|---|---|---|---|---|---|
| servers/physics_2d/area_pair_2d_sw.cpp:175-190 | the destructor retracts a colliding direction whenever the watcher has an area monitor | area A monitors areas, area B is not monitorable, they overlap, then the pair is destroyed: A gets an exit for B with no earlier enter | retract only what the enter path (lines 123 and 132) could have reported, so enters and exits balance | not executed | AreaPairs.Area2DestroyAsWritten | AreaPairs.Area2Destroy |
| servers/physics_3d/space_3d_sw.cpp:1002 | the collision pair count is raised before the kind check, so a soft-body/soft-body couple raises it and makes no pair | two soft bodies whose AABBs meet: the count rises by one, and the unpair of the null pair (lines 1035-1037) does not lower it | raise the count only when a pair object is made | not executed | SpaceState.BroadphasePairAsWritten | SpaceState.BroadphasePair |
| core/io/http_client_tcp.cpp:75 | the IP connect uses the caller's port `p_port` | host "127.0.0.1", port -1, no TLS: the normalised port is 80, but -1 is dialled | dial the normalised `conn_port` | not executed | HttpClient.ConnectToHostAsWritten | HttpClient.ConnectToHost |
| core/io/http_client_tcp.cpp:546-553 | `break` on a bad or oversized chunk size leaves only the inner `for`, so reading goes on | chunked body "1g" CRLF "x" CRLF: the size line is refused but the byte "x" is still returned | stop the call when the size line is refused | not executed | HttpBody.ReadChunkedAsWritten | HttpBody.ReadChunked |
| servers/physics_2d/godot_body_2d.cpp:37-41 | a mass change is queued for the update only when a calculate flag is set | a dynamic body with explicit inertia and centre of mass, mass set from 1 to 2: the inverse mass stays 1 | queue the update for every body in a space, so the inverse mass becomes 0.5 | not executed | Body2D.SetMassAsWritten | Body2D.SetMass |
| servers/physics_2d/godot_body_2d.cpp:56-75 | the computed centre of mass is written to the global field and then overwritten from the old local one at line 123 (`_update_transform_dependent`, lines 408-410) | a dynamic body computing its centre of mass, with one unit-area shape at (1, 0): the centre stays at (0, 0) | store the computed centre in the local field, so it becomes (1, 0) | not executed | Body2D.UpdateMassPropertiesAsWritten | Body2D.UpdateMassProperties |

The operations that the source builds on `_mass_properties_changed`, `update_mass_properties` and the chunk-size loop use them as written: `Body2D.SetSpace`, `Body2D.SetParam`, `Body2D.ToDynamic`, `Body2D.ResetMassProperties`, `Body2D.FlushMassUpdate`, `HttpBody.ChunkedBodyRead` and `HttpBody.ReadResponseBodyChunk`. The corrected members state the intended property.
