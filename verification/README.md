# Verified model of the driving simulation's safety-critical core

The project models, in Dafny, the parts of the simulation host where a mistake is hardest to see, and proves what they
promise for every input, every run and every reachable state.

- **Planar contacts** (`Planar`, `NarrowPhase`, `SeparatingAxis`, `ContactPoints`, `PushOut`, `GridIndex`,
  `RigidImpulse`, `ContactSolver`, `SubstepBudget`, `CollisionWorld`, `BodyMotion`): the uniform-grid broad phase loses
  no contact, the narrow phase misses no overlap and reports the deepest point, push-out really separates, the substeps
  are the fewest that keep motions small, and the nested solver loops never create kinetic energy.
- **Control authority** (`ControlLease`, `Fingerprint`, `HostProtocol`, `HostDecisions`, `HostSafety`, `HostFencing`,
  `SimulationHost`): one transition system of Hello, Control, Reset, measurement and tick, with inductive invariants
  over whole runs. `HostProtocol` is the specification, `SimulationHost` the object proved against it, `HostDecisions`
  says exactly which messages are accepted, `HostSafety` holds the theorems about runs, and `HostFencing` what exactly a
  retired session can still do.
- **Signals, walkers, scheduling** (`SignalPlan`, `SignalConflict`, `Pedestrian`, `NpcScheduler`).
- **Numerical state machines** (`ChassisSolver` with its `ChassisGeometry`, `Powertrain` with its `DriveResponse`, and
  `ContactWindow`, `StructureDamage`, `PoleCollapse`, `DamageRuns`, `DamageGain`, `PoleRuns` and `PoleFall` for impact
  damage) and the **segment index** (`SegmentIndex`). `Options` and `StringOrder` are shared helpers.

How the source's values appear here:

- Floating-point numbers are `real`; single-precision payload fields of messages are their bit patterns. Signal times
  are integer nanoseconds, also where the publisher converts them to seconds, so its 0.001 s tolerance is 1,000,000 ns.
- A heading is its unit forward vector; how a heading turns, `hypot`, sine and cosine, the first-order filter's response
  and the next representable values are parameters, of which only the algebraic facts used are assumed.
- Structures that the source passes by reference are values passed in and returned; the source's own classes and runtime
  records are classes.
- Unsigned 64-bit sequence numbers and times are bounded integers; the signed client-time difference wraps as in the
  source.
- Vehicle catalog look-ups, the moving-vehicle test, ground hits and the verdicts of the measurement trackers are
  inputs.

Findings worth knowing:

- A client-time gap of 2^63 ns or more is read as negative and breaks the queue-age estimate
  (`WrappedGapBreaksClosedForm`); below it the estimate has a closed form.
- A retired session still gets the "duplicate reset" reply when it repeats its own reset on the connection that it lost
  to the hard timeout (`RetiredSessionGetsDuplicateReply`). `RetiredResetIsExact` says when, and that only two ordering
  marks move; `RetiredForeverAtTheHost` carries it through every run.
- The two implementations of the legacy two-group plan differ for groups other than 1 and 2, which a valid version 1
  network does not have; the formula modelled treats them as group 2.
- The agreement check on signal heads depends on their order, because its tolerance is applied to neighbours only
  (`AgreementDependsOnOrder`). It is free of order exactly when every two movements of a group agree
  (`AgreementIsOrderFreeExactly`), which validated networks guarantee; the conflict check never depends on order.
- A collapsing pole's damage is rounded up to 100, so an episode can add up to 1e-9 more than the damage curve
  (`CollapseRoundsUp`), exactly on the guard in `GainIsTheRiseUnlessRounded`, and a pole can collapse just below the
  threshold of its breakaway budget (`BudgetIsTheDamageLimit`).
- The breakaway budget that the contact solver spends is not what the damage model goes by. The budget counts from the
  episode's peak, which outlives the 0.25 s window; once part of that peak has left the window, the solver can release a
  pole that the damage model leaves standing (`ReleasedButStanding`). `SpentBudgetCollapsesExactly` says when a spent
  budget does bring the pole down, `BudgetNeedsThePeakInTheWindow` what the window must still keep for that.
- Rises of at most 1e-9 are not added to a target's damage but are to its episode's (`CreepBreaksTheCondition`). Then
  even the threshold no longer marks full damage (`ThresholdIsExact`), and a pole survives blows of any strength in that
  episode (`CreepingPoleSurvivesAnyBlow`).
- A walker already crossing clears the road on red, as the source's comment promises, exactly unless the ground is
  missing in one of its ticks (`ClearsTheRoadOnRed`). That tick drops the crossing, and the walker stands in the road
  until a lamp lets it set out again (`OneGapStrands`).
- The pair solver divides by zero when an anchored proxy comes first against a touching proxy of zero mass that neither
  carries it nor is carried (`ZeroMassExactly`, `ZeroMassContactExists`). Up to that contact the model follows the
  source; there it stops and says so, and without such a pair it never does.

## Model

| member | source | states |
|---|---|---|
| NarrowPhase.ManifoldIsLeastOverlap | cpp/host/src/collision/collision_world.cpp:856-927 | a manifold is reported only when all four edge axes overlap; it belongs to the first axis of least overlap: its penetration is exactly that overlap, its unit normal that axis turned away from the obstacle |
| NarrowPhase.SharedPointGivesManifold | cpp/host/src/collision/collision_world.cpp:856-927 | completeness of the box test: a shared interior point plus a positive vertical overlap always gives a manifold |
| ContactPoints.VerticalOverlapIsShared | cpp/host/src/collision/collision_world.cpp:866-873 | the vertical test passes exactly when the two intervals share an interior height |
| ContactPoints.BoxesTouchExactly | cpp/host/src/collision/collision_world.cpp:866-916 | a manifold is reported exactly when the boxes overlap vertically and along all four edge axes |
| ContactPoints.ContactPointIsDeepest | cpp/host/src/collision/collision_world.cpp:918-927 | the contact point lies in the body box, no point of that box lies deeper in the obstacle up to the axis tolerance, and across a face parallel to the contact it is in the middle |
| ContactPoints.NormalLeadsAway | cpp/host/src/collision/collision_world.cpp:882-916 | the normal leads away from the obstacle's centre, or against the approach when the centres are level along it |
| ContactPoints.ClosestPointIsNearest | cpp/host/src/collision/collision_world.cpp:948-961 | the point belongs to the box and no point of the box is closer to the capsule axis |
| ContactPoints.CapsuleTouchesExactly | cpp/host/src/collision/collision_world.cpp:939-976 | a box and a capsule are reported exactly when they overlap vertically and some point of the box is nearer to the axis than the radius, or the axis is in the box up to the tolerance |
| ContactPoints.OutsideContactPoint | cpp/host/src/collision/collision_world.cpp:957-976 | axis outside the box: the contact point is the nearest point of the box, at radius less penetration from the axis |
| ContactPoints.InsideContactPoint | cpp/host/src/collision/collision_world.cpp:978-1016 | axis inside the box: the contact point is on the selected face straight out from the axis, and the penetration is the radius and the way to that face |
| ContactPoints.SelectedFaceIsNear | cpp/host/src/collision/collision_world.cpp:994-1009 | no face is nearer than the selected one by more than the tolerance per comparison |
| ContactPoints.SelectedFaceIsBest | cpp/host/src/collision/collision_world.cpp:994-1009 | when distances are equal or differ by more than the tolerance: the nearest face, of equally near ones that moved to fastest, then the first |
| ContactPoints.CapsulesTouchExactly | cpp/host/src/collision/collision_world.cpp:1312-1323 | two capsules are reported exactly when they share an interior height and a point strictly within both radii |
| ContactPoints.CapsulesMeetHalfway | cpp/host/src/collision/collision_world.cpp:1312-1323 | two capsules meet halfway through their overlap on the line between the axes |
| SeparatingAxis.SeparatingAxisTheorem | cpp/host/src/collision/collision_world.cpp:340-347 | the separating-axis theorem in the plane: positive overlap along the four edge axes means positive overlap of the projections along every direction |
| PushOut.BoxPushOutSeparates | cpp/host/src/collision/collision_world.cpp:856-927 | after any split of the push-out (penetration plus slop along the normal) the box test reports no contact, whatever the later velocity |
| PushOut.CapsulePushOutSeparates | cpp/host/src/collision/collision_world.cpp:929-1016 | the same for box against capsule, both when the axis is outside the box and in the near-zero tie case where velocity picks the face |
| PushOut.CapsulesPushOutSeparates | cpp/host/src/collision/collision_world.cpp:1312-1323 | the same for two capsules, including coincident centres |
| PushOut.CapsuleNormalIsUnit | cpp/host/src/collision/collision_world.cpp:929-1016 | the box-capsule normal is a unit vector in every branch |
| PushOut.CapsulesNormalIsUnit | cpp/host/src/collision/collision_world.cpp:1312-1323 | the capsule-capsule normal is a unit vector, also for coincident centres |
| GridIndex.UniformGridIndex.constructor | cpp/host/src/collision/collision_world.cpp:115-137 | each object is filed under exactly the cells of its range, or globally when the range is missing or too large |
| GridIndex.UniformGridIndex.Query | cpp/host/src/collision/collision_world.cpp:139-176 | the candidates are sorted and unique, and are exactly the objects that share a cell with the query or that have no bounded range |
| GridIndex.SortUnique | cpp/host/src/collision/collision_world.cpp:171-175 | strictly increasing, with exactly the same members |
| GridIndex.File | cpp/host/src/collision/collision_world.cpp:125-135 | one object is added to exactly the cells of its range, and nothing else changes |
| GridIndex.Collect | cpp/host/src/collision/collision_world.cpp:153-170 | exactly the start list and the contents of the cells of the range |
| GridIndex.TouchingIsCandidate | cpp/host/src/collision/collision_world.cpp:76-182 | objects whose bounds touch the query are never ruled out, because ranges are rounded outward |
| GridIndex.ManifoldBoundsTouch | cpp/host/src/collision/collision_world.cpp:302-316 | whatever the box test reports, the two axis-aligned bounds overlap |
| GridIndex.GridLosesNoContact | cpp/host/src/collision/collision_world.cpp:113-182 | per query: every collider that the full scan would report at this pose is among the grid candidates |
| GridIndex.TrueOverlapIsFound | cpp/host/src/collision/collision_world.cpp:856-927 | a collider sharing an interior point and a vertical interval with the body is a candidate and gets a manifold |
| GridIndex.TrueCapsuleOverlapIsFound | cpp/host/src/collision/collision_world.cpp:929-1016 | the same for a capsule that reaches into the box |
| RigidImpulse.ImpulseWork | cpp/host/src/collision/collision_world.cpp:530-534 | the kinetic energy a body gains from an impulse: linear in its point velocity, quadratic in the impulse |
| RigidImpulse.DissipativeImpulse | cpp/host/src/collision/collision_world.cpp:516-560 | an impulse that at most reverses the approach never adds energy to the pair |
| RigidImpulse.RestitutionImpulse | cpp/host/src/collision/collision_world.cpp:526-528 | the restitution impulse turns the approach rate into minus the restitution times it, and dissipates |
| RigidImpulse.FrictionImpulse | cpp/host/src/collision/collision_world.cpp:544-563 | the clamped tangential impulse stops the sliding or opposes it at the limit, and dissipates |
| RigidImpulse.PairMomentum | cpp/host/src/collision/collision_world.cpp:631-640 | equal and opposite impulses keep the pair's linear momentum |
| RigidImpulse.AngularMomentumGain | cpp/host/src/collision/collision_world.cpp:533-534 | an impulse changes the angular momentum of a body about any point by exactly its own moment about that point, less what a capsule cannot take up |
| RigidImpulse.PairAngularGain | cpp/host/src/collision/collision_world.cpp:631-640 | opposite impulses keep the pair's angular momentum about every point; against a capsule it changes by exactly the moment about the capsule's centre |
| RigidImpulse.BoundedSpin | cpp/host/src/collision/collision_world.cpp:418-438 | clamping a heading rate never adds energy |
| RigidImpulse.BoundedSpeed | cpp/host/src/collision/collision_world.cpp:440-453 | rescaling a velocity to the speed limit never adds energy |
| BodyMotion.SpeedEndsAtTheLimit | cpp/host/src/collision/collision_world.cpp:440-453 | a finite proxy that is too fast ends exactly at its limit in the same direction; any other is left alone |
| ContactSolver.ResolveContact | cpp/host/src/collision/collision_world.cpp:500-565 | the body moves by the push-out and obeys the contact law: untouched when separating, else a normal impulse that bounces by the restitution and a tangential one inside the friction cone |
| ContactSolver.ContactLosesEnergy | cpp/host/src/collision/collision_world.cpp:500-681 | every contact that obeys the law leaves the pair with at most its kinetic energy, the spin bound included |
| ContactSolver.StaticContactEnergy | cpp/host/src/collision/collision_world.cpp:500-565 | a static contact never adds kinetic energy, and the reported impulse is the momentum gained along the normal |
| ContactSolver.PairShiftsBalance | cpp/host/src/collision/collision_world.cpp:593-604 | the split push-out leaves the mass-weighted centre of a finite pair where it was |
| ContactSolver.SolveFinitePair | cpp/host/src/collision/collision_world.cpp:593-681 | the finite solve: split push-out, contact law for both bodies, then the speed bound |
| ContactSolver.SpeedClampEnergy | cpp/host/src/collision/collision_world.cpp:440-453 | the speed bound keeps the proxy valid and never adds energy |
| ContactSolver.AnchorImpulseEnergy | cpp/host/src/collision/collision_world.cpp:584-589 | the share absorbed by an anchored base never adds energy |
| ContactSolver.LawConservesMomentum | cpp/host/src/collision/collision_world.cpp:619-681 | a finite pair away from breakaway conserves linear momentum exactly |
| ContactSolver.LawBalancesAngularMomentum | cpp/host/src/collision/collision_world.cpp:619-681 | about any point, angular momentum changes by exactly what the two bounds on the spin remove, plus the moment on a capsule |
| ContactSolver.LawConservesAngularMomentum | cpp/host/src/collision/collision_world.cpp:619-681 | between two boxes angular momentum about every point is conserved whenever no bound on the spin acts |
| ContactSolver.ReportedImpulse | cpp/host/src/collision/collision_world.cpp:627-681 | the returned normal impulse is exactly the momentum the first body gains along the normal |
| ContactSolver.ResolveFiniteProxyContact | cpp/host/src/collision/collision_world.cpp:567-681 | held, released and free proxies: positions, contact law, spent breakaway budget, momentum gained, and kinetic energy that never rises |
| ContactSolver.HeldTakesRequired | cpp/host/src/collision/collision_world.cpp:572-583 | a base that holds takes exactly the impulse that was required to test it, because the push-out runs along the normal |
| ContactSolver.BaseAbsorbsItsBudget | cpp/host/src/collision/collision_world.cpp:572-591 | over any number of held contacts and the one that breaks it, a base absorbs exactly its budget up to 1e-9, and then lets go |
| CollisionWorld.RecordContact | cpp/host/src/collision/collision_world.cpp:472-498 | one entry per collider in identifier order; the total impulse grows by exactly the new impulse |
| CollisionWorld.PushedPairIsSeparated | cpp/host/src/collision/collision_world.cpp:1299-1335 | for every mix of boxes and capsules the pair has no contact after the push-out |
| CollisionWorld.ResolvedPairIsSeparated | cpp/host/src/collision/collision_world.cpp:593-604 | the solver's own mass split separates the pair and keeps its mass-weighted centre |
| CollisionWorld.ResolvePair | cpp/host/src/collision/collision_world.cpp:1327-1344 | a proxy that plays the body: both motions follow the finite contact law and then the speed bound, a free pair keeps its momentum before it; push-out of the held, split and released cases for both shapes, budget, release, and energy that never rises |
| CollisionWorld.FromProxyBodyRoundTrip | cpp/host/src/collision/collision_world.cpp:1328-1343 | read as a body again, the proxy is the solved body; only a capsule has lost its spin |
| CollisionWorld.AccumulatePair | cpp/host/src/collision/collision_world.cpp:1345-1355 | both partners record the same impulse, point and depth with opposite normals |
| CollisionWorld.ClampHeadingRates | cpp/host/src/collision/collision_world.cpp:760-772 | bounds the heading rate of exactly the finite boxes, which never adds energy |
| CollisionWorld.ResolvePairsOf | cpp/host/src/collision/collision_world.cpp:1287-1356 | one row of pairs under the source's own guards: energy never rises, "unchanged" means exactly that no pair of the row is in contact, and unless a contact has no mass to divide by the row is exactly one lawful visit for each later proxy |
| CollisionWorld.ResolveRuntimeProxyPairs | cpp/host/src/collision/collision_world.cpp:1279-1363 | up to four passes of lawful visits to every pair, ending early exactly when a pass finds no contact: energy never rises, reciprocal contacts, a pass without change leaves every pair apart, and nothing happens but the bounds on heading rates when all are apart; undefined only through a contact without a mass, never without such a pair in the list |
| CollisionWorld.ZeroMassExactly | cpp/host/src/collision/collision_world.cpp:1287-1299 | a pair passes the guards without a mass to divide by exactly when the first in the list is anchored, the second has no mass, and neither carries the other |
| CollisionWorld.ZeroMassContactExists | cpp/host/src/collision/collision_world.cpp:1286-1329 | two valid proxies, an anchored pole and an obstacle of prescribed motion, whose contact has no mass to divide by |
| CollisionWorld.AdvanceMovesMassCentre | cpp/host/src/collision/collision_world.cpp:285-300 | however the box turns, its mass centre moves by exactly velocity times the step |
| BodyMotion.BodyPointMoves | cpp/host/src/collision/collision_world.cpp:285-300 | over a step every point of the body moves with the linear velocity and turns clockwise about the mass centre by rate times step |
| BodyMotion.ContactVelocityIsMotion | cpp/host/src/collision/collision_world.cpp:367-379 | the velocity that the solver gives a contact point is that of this motion |
| BodyMotion.ProxyPointMoves | cpp/host/src/collision/collision_world.cpp:455-470 | an anchored proxy stays, a capsule is only carried, and every point of a box moves and turns like that of a body |
| BodyMotion.ProxyVelocityIsMotion | cpp/host/src/collision/collision_world.cpp:381-394 | the contact velocity of a proxy is that of this motion |
| CollisionWorld.AdvanceProxiesKeepsEnergy | cpp/host/src/collision/collision_world.cpp:455-470 | advancing the proxies keeps their energy; anchored ones stay |
| CollisionWorld.CollisionWorld.StaticCandidates | cpp/host/src/collision/collision_world.cpp:1191-1202 | both broad-phase modes return every static collider that the box test would report |
| CollisionWorld.CollisionWorld.VisitStatics | cpp/host/src/collision/collision_world.cpp:1203-1226 | every static collider that the box test reports is visited; one lawful step per visit, impulses all recorded; a pass without a hit certifies that no non-bypassed static collider overlaps |
| CollisionWorld.CollisionWorld.TouchProxy | cpp/host/src/collision/collision_world.cpp:1248-1256 | the contact with one proxy: finite solve or prescribed motion, with the scene's energy never rising for finite proxies |
| CollisionWorld.CollisionWorld.VisitProxies | cpp/host/src/collision/collision_world.cpp:1227-1264 | exactly the candidate proxies are visited; one lawful step per visit, impulses all recorded; without a hit no candidate touches the body |
| CollisionWorld.CollisionWorld.SolveSubstep | cpp/host/src/collision/collision_world.cpp:1183-1266 | a chain of at most eight lawful iterations, ending early exactly when settled: energy never rises, the recorded contacts gain exactly the impulses of all visits, and a settled substep leaves the body clear of the static colliders and of the grid's proxies |
| CollisionWorld.CollisionWorld.SolvePass | cpp/host/src/collision/collision_world.cpp:1191-1265 | one iteration: the static visits and then the proxy visits, each covering everything that its part of the broad phase finds |
| CollisionWorld.CollisionWorld.TakeSubstep | cpp/host/src/collision/collision_world.cpp:1178-1271 | advance, iterate, then the lawful passes over the pairs of proxies: a substep whose impulses are all recorded |
| CollisionWorld.CollisionWorld.Integrate | cpp/host/src/collision/collision_world.cpp:1126-1277 | whole step: the least sufficient number of substeps up to 64, each within the motion limits at the start; every substep is lawful and the contacts hold exactly the impulses of all of them; with only finite-mass obstacles the total kinetic energy never rises and no contact lacks a mass |
| SubstepBudget.RequiredSubsteps | cpp/host/src/collision/collision_world.cpp:1126-1154 | exactly the least number of substeps with which neither the body, nor its motion against any proxy, nor that between two finite proxies exceeds the limits of one substep |
| SubstepBudget.PlanSubsteps | cpp/host/src/collision/collision_world.cpp:1155-1177 | each substep keeps the initial motions within the limits even when the tick is cut off at 64; the whole tick is integrated exactly when 64 substeps are enough |
| SubstepBudget.SubstepsAreFine | cpp/host/src/collision/collision_world.cpp:788-811 | dividing a tick into n parts keeps every motion within the limits exactly when n substeps are enough |
| ControlLease.KeyIsInjective | cpp/host/src/control/control_lease.hpp:295-304 | without a NUL in the source identifier the key determines both parts |
| ControlLease.ControlLease.constructor | cpp/host/src/control/control_lease.hpp:55-73 | a new lease is unowned, in SafeStop, and has received nothing |
| ControlLease.ControlLease.Accept | cpp/host/src/control/control_lease.hpp:75-156 | every refusal reason in its order, and the exact new state; a refusal changes nothing |
| ControlLease.ControlLease.UpdateTimeout | cpp/host/src/control/control_lease.hpp:161-171 | SafeStop exactly when the last command is older than the soft timeout; the owner stays |
| ControlLease.ControlLease.UpdateHardTimeout | cpp/host/src/control/control_lease.hpp:176-187 | past the hard timeout the owner is retired |
| ControlLease.ControlLease.BeginNewSimulation | cpp/host/src/control/control_lease.hpp:192-219 | a retired session is refused without effect; otherwise every other session involved is retired |
| ControlLease.ControlLease.ResetForNewSimulation | cpp/host/src/control/control_lease.hpp:221-238 | owner and reserved session are retired |
| ControlLease.ControlLease.ResetForReconnect | cpp/host/src/control/control_lease.hpp:243-270 | refused when retired, untouched for the same session, otherwise the former connection is retired |
| ControlLease.LeaseStepKeepsInvariant | cpp/host/src/control/control_lease.hpp:75-270 | the owner is never retired, an unowned lease is in SafeStop, and retirement is permanent |
| ControlLease.RetiredForever | cpp/host/src/control/control_lease.hpp:75-270 | over every run of lease operations a retired session is never accepted, reset to or reconnected again |
| ControlLease.QueueAgeClosedForm | cpp/host/src/control/control_lease.hpp:118-153 | after any run the queue-age estimate is the newest receive-minus-client offset less the least one accepted in this ownership |
| ControlLease.RenewedOnlyWhenFresh | cpp/host/src/control/control_lease.hpp:124-138 | the owner's ordered command is accepted exactly when its offset exceeds no accepted offset by more than the limit |
| ControlLease.ClosedFormNeedsSmallGap | cpp/host/src/control/control_lease.hpp:125-126 | the closed form survives an accepted command exactly when the client-time gap is below 2^63 |
| ControlLease.WrappedGapBreaksClosedForm | cpp/host/src/control/control_lease.hpp:125-132 | a concrete client jump that is charged a queue age it does not have |
| Fingerprint.AppendBytes | cpp/host/src/simulation_host_session.cpp:38-43 | the loop appends exactly the little-endian bytes |
| Fingerprint.AppendFloat | cpp/host/src/simulation_host_session.cpp:51-62 | both zeros are encoded alike, every other value by its bits |
| Fingerprint.MakeControlPayloadFingerprint | cpp/host/src/simulation_host_session.cpp:96-111 | appends exactly the encoded fields in order |
| Fingerprint.MakeResetPayloadFingerprint | cpp/host/src/simulation_host_session.cpp:113-125 | appends exactly the encoded fields in order |
| Fingerprint.MakeHelloNegotiationFingerprint | cpp/host/src/simulation_host_session.cpp:64-83 | appends the identity and the sorted capabilities |
| Fingerprint.MakeHelloPayloadFingerprint | cpp/host/src/simulation_host_session.cpp:85-94 | appends identity and negotiation |
| Fingerprint.ControlRoundTrip | cpp/host/src/simulation_host_session.cpp:96-111 | a control fingerprint can be read back to the command, up to sequence number and sign of zero |
| Fingerprint.ControlFingerprintIsInjective | cpp/host/src/simulation_host_session.cpp:96-111 | equal fingerprints exactly for commands equal up to sequence number and sign of zero |
| Fingerprint.ResetRoundTrip | cpp/host/src/simulation_host_session.cpp:113-125 | a reset fingerprint can be read back to the reset, up to its sequence number |
| Fingerprint.ResetFingerprintIsInjective | cpp/host/src/simulation_host_session.cpp:113-125 | equal fingerprints exactly for resets equal up to the sequence number |
| Fingerprint.NegotiationRoundTrip | cpp/host/src/simulation_host_session.cpp:64-83 | a negotiation fingerprint can be read back, capabilities in sorted order |
| Fingerprint.NegotiationFingerprintIsInjective | cpp/host/src/simulation_host_session.cpp:64-83 | equal fingerprints exactly for Hellos equal up to the order of capabilities |
| Fingerprint.HelloFingerprintIsInjective | cpp/host/src/simulation_host_session.cpp:85-94 | equal fingerprints exactly for equal sender, session and negotiation |
| Fingerprint.SortedIsUnique | cpp/host/src/simulation_host_session.cpp:72 | a sorted list is determined by its elements, so capability order cannot leak into the fingerprint |
| HostProtocol.RejectionChangesNothing | cpp/host/src/simulation_host_session.cpp:129-655 | a rejected Hello, Control or Reset leaves the whole host state unchanged; a rejected measurement leaves authority, lifecycle and ordering unchanged |
| SimulationHost.SimulationHost.constructor | cpp/host/src/simulation_host.cpp:231-234 | the host starts with the SafeStop input applied and no lifecycle |
| SimulationHost.SimulationHost.HelloAcceptable | cpp/host/src/simulation_host_session.cpp:235-295 | exactly the Hellos with valid identity, schema, map, capabilities and catalog |
| SimulationHost.SimulationHost.HandleHello | cpp/host/src/simulation_host_session.cpp:231-353 | the protocol step for a Hello: first contact, identical repeat, refusal, and room for one at the limit |
| HostDecisions.HelloAcceptedExactly | cpp/host/src/simulation_host_session.cpp:231-353 | a Hello is accepted exactly when it is good and the first of its connection, and repeated exactly when it negotiates the same in order |
| HostDecisions.HelloOpensItsCapabilities | cpp/host/src/simulation_host_session.cpp:300-353 | afterwards loadouts are open to the connection exactly as announced, and no other connection gains |
| HostDecisions.HelloOpensMeasurements | cpp/host/src/simulation_host_ground_shadow.cpp:6-19 | and live measurements exactly as announced and configured |
| SimulationHost.FindOldest | cpp/host/src/simulation_host_session.cpp:325-330 | the connection with the smallest generation |
| SimulationHost.SimulationHost.HandleControlMessage | cpp/host/src/simulation_host_session.cpp:156-229 | the protocol step for a control frame, ordering committed only on acceptance; when and with what effect is stated by the lemmas on control below |
| SimulationHost.SimulationHost.HandleControlCommand | cpp/host/src/simulation_host_session.cpp:355-449 | the present map first, E-stop before ownership; ordinary motion only from the live lifecycle owner with an accepting lease |
| HostDecisions.ControlAcceptedExactly | cpp/host/src/simulation_host_session.cpp:156-449 | an ordinary command is accepted exactly from the owner of the active lifecycle, over its connection and in order, for the present map, without a stop, and fresh by the lease |
| HostDecisions.AcceptedControlEffect | cpp/host/src/simulation_host_session.cpp:427-449 | an accepted command changes exactly the applied input, the lease's owner and marks, and its own connection's ordering mark |
| HostDecisions.EmergencyStopExactly | cpp/host/src/simulation_host_session.cpp:355-387 | an E-stop is latched exactly for a stop naming the present map on a connection that may speak, owner or not, and applies SafeStop |
| SimulationHost.SimulationHost.HandleResetMessage | cpp/host/src/simulation_host_session.cpp:156-229 | the protocol step for a reset frame |
| SimulationHost.SimulationHost.HandleSimulationReset | cpp/host/src/simulation_host_session.cpp:451-655 | stale, repeated, reconnecting and fresh resets, with their exact effect |
| SimulationHost.SimulationHost.ReconnectPlay | cpp/host/src/simulation_host_session.cpp:563-604 | a seen play comes back only as the active one, without physics reset |
| SimulationHost.SimulationHost.StartPlay | cpp/host/src/simulation_host_session.cpp:606-654 | an unseen play starts a new simulation under SafeStop |
| HostDecisions.ResetDecidedExactly | cpp/host/src/simulation_host_session.cpp:451-655 | for a session that is not retired: a physics reset exactly for a good reset of an unseen play that may take over; a duplicate exactly for the owner's repeat or a return to the active play |
| HostDecisions.ResetEffect | cpp/host/src/simulation_host_session.cpp:563-654 | what a new play and a return to the active one change: binding, marks, play, lease, and SafeStop applied unless the connection is the same |
| SimulationHost.SimulationHost.HandleMeasurement | cpp/host/src/simulation_host_ground_shadow.cpp:11-46 | measurement frames need the owning connection and a strictly higher sequence, and never touch lease or input |
| SimulationHost.SimulationHost.RunTick | cpp/host/src/simulation_host.cpp:667-703 | map reload or the two deadlines, with their exact effect on lease and applied input |
| SimulationHost.SimulationHost.ApplyPendingMapPackageReload | cpp/host/src/simulation_host.cpp:913-1004 | a new map drops lifecycle, connections and lease but not retired sessions, seen plays or the E-stop |
| SimulationHost.SimulationHost.MakeHealthSnapshot | cpp/host/src/simulation_host.cpp:608-644 | the status that the authority state calls for |
| HostDecisions.HealthIsExact | cpp/host/src/simulation_host.cpp:608-644 | each of the six statuses exactly, in the order of severity |
| HostSafety.StepKeepsHostInvariant | cpp/host/src/simulation_host_session.cpp:129-655 | every step keeps the invariant that ties lifecycle, lease, plays and applied input together |
| HostSafety.MotionAuthority | cpp/host/src/simulation_host_session.cpp:355-449 | over every run from start-up: under SafeStop or E-stop the SafeStop input is applied, otherwise that of the last accepted command, sent by the live lifecycle owner for the present map |
| HostSafety.NoStaleCommandDrives | cpp/host/src/simulation_host.cpp:674-687 | right after a tick's prologue no command older than the soft timeout still drives |
| HostSafety.ActiveMeansAuthority | cpp/host/src/simulation_host.cpp:608-644 | health is Active exactly when neither SafeStop nor E-stop is in force; otherwise the SafeStop input is applied |
| HostSafety.EmergencyStopIsFinal | cpp/host/src/simulation_host_session.cpp:375-387 | a latched E-stop is never undone over any run, map reloads included |
| HostFencing.RetiredForeverAtTheHost | cpp/host/src/simulation_host_session.cpp:518-617 | over every run, a session retired at any moment owns nothing; its Hellos apart it is answered exactly for an emergency stop or for repeating its own reset, and the exact effect of both leaves lease, lifecycle binding and plays alone |
| HostFencing.RetiredResetIsExact | cpp/host/src/simulation_host_session.cpp:518-604 | a retired session's reset is answered exactly when the owning connection repeats a valid reset of its own play in order, as a duplicate, moving only the two ordering marks |
| HostFencing.RetiredIsExact | cpp/host/src/simulation_host_session.cpp:129-655 | the same for every kind of message: exactly which are answered, with which result, and all that they change |
| HostFencing.RetiredSessionGetsDuplicateReply | cpp/host/src/simulation_host_session.cpp:518-561 | a run of four events in which the session that the hard timeout retired gets the duplicate reply |
| HostSafety.OnePhysicsResetPerPlay | cpp/host/src/simulation_host_session.cpp:563-644 | a play identity gets at most one physics reset in any run |
| HostSafety.ReplacedPlayStaysReplaced | cpp/host/src/simulation_host_session.cpp:563-570 | a play that was replaced never becomes active again |
| HostSafety.GenerationNeverDecreases | cpp/host/src/simulation_host_session.cpp:518-561 | with the Hello required, the owning generation never decreases while the lifecycle stays active |
| HostSafety.AcceptedFramesAreIdempotent | cpp/host/src/simulation_host_session.cpp:191-228 | while a connection's Hello state lives, accepted sequences never decrease and an equal sequence means the same payload |
| SignalPlan.PlannedSignal | scripts/smoke_traffic.py:186-211 | exact countdown under wrap-around: unchanged before it ends, different when it ends, zero exactly when nothing ever changes |
| SignalPlan.CountdownIsUnique | scripts/smoke_traffic.py:179-211 | only one signal satisfies that specification |
| SignalPlan.CountdownIsBounded | cpp/host/src/traffic/traffic_network.cpp:931-940 | an exact countdown is shorter than the cycle |
| SignalPlan.LegacyFormulaIsExact | scripts/smoke_traffic.py:160-176 | the hand-written formula is the exact countdown of the 2/12/3/2/8/3 s plan |
| SignalPlan.ExpectedSignal | scripts/smoke_traffic.py:179-211 | inactive, legacy and planned controllers, and the errors |
| SignalConflict.LoadPlans | scripts/smoke_traffic.py:86-121 | accepts exactly the valid plan lists, with each group's owner and each controller's plan |
| SignalConflict.LoadNetwork | scripts/smoke_traffic.py:122-157 | accepts exactly the valid version 2 networks |
| SignalConflict.PhaseIsAcceptable | scripts/smoke_traffic.py:104-114 | one approach at a time unless only pedestrian groups proceed |
| SignalConflict.SignalsAt | cpp/host/src/traffic/traffic_network.cpp:859-954 | every head shows the exact state and countdown of its groups |
| SignalConflict.ApplySignalFaults | cpp/host/src/collision/structure_damage.cpp:527-543 | exactly the heads of disabled poles go dark |
| SignalConflict.RegisterMovement | cpp/host/src/protocol/vehicle_messages.cpp:554-571 | accepts a movement exactly when the list stays free of conflicts and in agreement |
| SignalConflict.CheckSnapshots | cpp/host/src/protocol/vehicle_messages.cpp:536-608 | accepts exactly the publishable lists: a vehicle movement never proceeds together with another group of its controller |
| SignalConflict.ConflictIsOrderFree | cpp/host/src/protocol/vehicle_messages.cpp:556-562 | the conflict verdict does not depend on the order of the heads |
| SignalConflict.AgreementDependsOnOrder | cpp/host/src/protocol/vehicle_messages.cpp:564-570 | three heads accepted in one order and refused in another |
| SignalConflict.AgreementIsOrderFreeExactly | cpp/host/src/protocol/vehicle_messages.cpp:564-570 | the agreement verdict survives every reordering of the movements exactly when every two of one controller and group agree |
| SignalConflict.HeadOrderIsFreeExactly | cpp/host/src/protocol/vehicle_messages.cpp:546-571 | the same for every reordering of the heads |
| SignalConflict.ValidatedAgreesPairwise | scripts/smoke_traffic.py:78-157 | a validated network meets that condition at every time and fault set, so its verdict never depends on the order of its heads |
| SignalConflict.ValidatedNeverTrips | cpp/host/src/protocol/vehicle_messages.cpp:546-608 | at every time and for every set of failed poles, a validated network passes the check |
| SignalConflict.PublishValidated | scripts/smoke_traffic.py:78-157 | load, evaluate, darken and check: the check accepts every network that loads |
| Pedestrian.PedestrianRuntime.Prepare | cpp/host/src/simulation_host_npc.cpp:2030-2212 | one tick of one walker, the interrupted branches included |
| Pedestrian.LampLetsBeginExactly | cpp/host/src/simulation_host_npc.cpp:2034-2048 | a lamp lets a walker begin exactly when it is the crossing's own pedestrian lamp and shows WALK throughout the time that the crossing takes |
| Pedestrian.WhoMayBeginSetsOut | cpp/host/src/simulation_host_npc.cpp:2049-2062 | a free walker who may begin covers its stride in that tick and is on the way or across |
| Pedestrian.WalkKeepsInvariant | cpp/host/src/simulation_host_npc.cpp:2049-2054 | progress stays in [0, 1] and the direction flips exactly when a step reaches an end |
| Pedestrian.TripProgress | cpp/host/src/simulation_host_npc.cpp:2204-2212 | an undisturbed trip has covered exactly its stride, or has arrived and turned around |
| Pedestrian.TripFinishesInsideWalk | cpp/host/src/simulation_host_npc.cpp:2034-2048 | with ticks of at most 0.2 s the lamp shows WALK from setting out until arrival, for every plan, and the walking time suffices |
| Pedestrian.GroundLossStopsTheCrossing | cpp/host/src/simulation_host_npc.cpp:2045-2067 | a walker on the road goes on crossing or arrives exactly unless the ground is missing in that tick |
| Pedestrian.ClearsTheRoadOnRed | cpp/host/src/simulation_host_npc.cpp:2045-2067 | over any red run a walker who is crossing clears the road exactly unless the ground is missing once on the way; else it has arrived once its free time covers the crossing |
| Pedestrian.OneGapStrands | cpp/host/src/simulation_host_npc.cpp:2063-2067 | after one tick without ground the walker stays where it was, in the road, through any further run of red |
| NpcScheduler.SearchScheduler.SelectSearch | cpp/host/src/simulation_host_npc.cpp:1326-1340 | the least eligible identifier above the last one served, or else the least of all |
| NpcScheduler.EveryTickSelectsOne | cpp/host/src/simulation_host_npc.cpp:1326-1340 | a tick with an eligible NPC selects exactly one, and it is eligible |
| NpcScheduler.LineShortens | cpp/host/src/simulation_host_npc.cpp:1335-1340 | every turn given to somebody else shortens the cyclic line before a waiting NPC |
| NpcScheduler.NobodyStarves | cpp/host/src/simulation_host_npc.cpp:1326-1340 | an NPC eligible for as many ticks as the fleet has members is selected at least once |
| ChassisSolver.SampleConstraints | cpp/host/src/physics/chassis_ground_contact.cpp:161-211 | exactly the planes within the contact slop, and the deepest penetration, attained by a plane |
| ChassisGeometry.SamplesSpanTheBox | cpp/host/src/physics/chassis_ground_contact.cpp:135-159 | the samples belong to the box, and no point of the box lies deeper along any direction than some sample |
| ChassisGeometry.PlaneIsTheHit | cpp/host/src/physics/chassis_ground_contact.cpp:171-208 | a plane passes through the hit and has a unit normal along the hit's that points upwards |
| ChassisGeometry.JacobianIsTheDerivative | cpp/host/src/physics/chassis_ground_contact.cpp:263-267 | the rows are the derivative of the clearance: rolling or pitching by any angle changes it by the sine of the angle times the entry plus one minus the cosine times a factor free of the angle, lifting by the lift times the entry |
| ChassisGeometry.PitchInertiaIsProjected | cpp/host/src/physics/chassis_ground_contact.cpp:98-105 | pitching turns about the horizontal right axis: the inertia is the body's pitch and yaw inertia weighed by that axis's parts |
| ChassisGeometry.LoneCorrectionClosesPenetration | cpp/host/src/physics/chassis_ground_contact.cpp:262-297 | a lone penetrating contact's correction, inside the trust region, closes its penetration to first order |
| ChassisSolver.PositionStep | cpp/host/src/physics/chassis_ground_contact.cpp:250-297 | exactly the average of the penetrating contacts' pushes inside the trust region; nothing moves exactly when nothing penetrates |
| ChassisSolver.PushIsLeast | cpp/host/src/physics/chassis_ground_contact.cpp:273-283 | one contact's push closes its penetration to first order, and no motion of less energy does |
| ChassisSolver.CorrectPose | cpp/host/src/physics/chassis_ground_contact.cpp:246-298 | as many averaged corrections as it takes, at most 32: unless all are used nothing penetrates any more; only height, roll and pitch change |
| ChassisSolver.LiftClear | cpp/host/src/physics/chassis_ground_contact.cpp:300-317 | the least lift after which every plane with upward normal component above 1e-9 has clearance at least 1e-6 |
| ChassisSolver.VelocityConstraints | cpp/host/src/physics/chassis_ground_contact.cpp:327-353 | one row per contact within the slop whose push moves the body, in order: the derivative of its clearance by height, roll and pitch, with its inverse effective mass |
| ChassisSolver.ActiveIsInContact | cpp/host/src/physics/chassis_ground_contact.cpp:334-353 | every such contact has its row and there are no other rows |
| ChassisSolver.EnergyAfterImpulse | cpp/host/src/physics/chassis_ground_contact.cpp:374-379 | energy after an impulse: linear in the approach rate, quadratic in the impulse |
| ChassisSolver.ProjectedStepLosesEnergy | cpp/host/src/physics/chassis_ground_contact.cpp:367-371 | the projected step loses energy whenever it changes the impulse, cut off at zero or not |
| ChassisSolver.ProjectedStepIsExact | cpp/host/src/physics/chassis_ground_contact.cpp:367-371 | after its own step a contact does not approach, and stays at rest exactly when it pushes |
| ChassisSolver.EffectOfChange | cpp/host/src/physics/chassis_ground_contact.cpp:372-379 | changing one impulse changes the rates by exactly that contact's response |
| ChassisSolver.Sweep | cpp/host/src/physics/chassis_ground_contact.cpp:359-380 | one pass in either direction keeps all of this and bounds how far contacts are from settled |
| ChassisSolver.SolveVelocities | cpp/host/src/physics/chassis_ground_contact.cpp:355-382 | impulses stay non-negative, rates are the initial ones plus the impulses' effect, energy drops exactly when some contact approaches, and convergence bounds the remaining approach |
| ChassisSolver.ResolveChassisGroundContact | cpp/host/src/physics/chassis_ground_contact.cpp:231-388 | the whole solve: the sampled planes are cleared by the least lift after the corrections; impulses on exactly the contacts in the slop change the rates by their effect, energy drops strictly if one approaches, and the residual approach is bounded |
| Powertrain.ParametersAreValid | cpp/host/src/physics/powertrain_model.cpp:19-62 | exactly the valid parameter sets: bounded scalars, rising torque curve, falling ratios |
| Powertrain.TorqueIsOnTheCurve | cpp/host/src/physics/powertrain_model.cpp:64-74 | the interpolation passes through every point and stays between its two neighbours |
| DriveResponse.TorqueIsLinear | cpp/host/src/physics/powertrain_model.cpp:64-74 | between neighbouring points torque is linear in speed, beyond the ends constant |
| Powertrain.AdvancePowertrain | cpp/host/src/physics/powertrain_model.cpp:85-213 | invalid steps are refused without effect, valid ones take the specified step |
| DriveResponse.StepDrivesTheSelectedWay | cpp/host/src/physics/powertrain_model.cpp:142-212 | a step drives exactly when a way is selected, nothing gates or limits the engine and combustion has more than the rotor takes; then both axles push the selected way, and wheels turning that way get exactly both efficiencies times the clutch power |
| DriveResponse.AxlesPushTheSelectedWay | cpp/host/src/physics/powertrain_model.cpp:209-212 | axle torque is never against the selected way, is positive along it for each axle with a share, and in total is the gearbox torque through both ratios and efficiencies |
| DriveResponse.EngineFollowsThePedal | cpp/host/src/physics/powertrain_model.cpp:142-152 | the throttle closes in on the pedal by the filter's share, or on zero while the engine is cut; combustion is throttle times the curve's torque |
| DriveResponse.CrankFollowsItsTarget | cpp/host/src/physics/powertrain_model.cpp:152-174 | the crank ends between its old speed and its target, slows whenever it is above, and speeds up exactly with combustion or, below idle, the governor |
| DriveResponse.ClutchPassesAllItCan | cpp/host/src/physics/powertrain_model.cpp:181-187 | the gearbox gets all the available torque, or at a faster shaft all the available power, up to its limit |
| DriveResponse.FuelPaysForPower | cpp/host/src/physics/powertrain_model.cpp:178-208 | while the tank lasts, the flow is the idle flow and the specific consumption of exactly the crank's power |
| DriveResponse.ShiftsExactly | cpp/host/src/physics/powertrain_model.cpp:121-140 | a settled automatic starts an upshift or a downshift exactly at its thresholds, unless the next gear would shift back |
| DriveResponse.ShiftTakesItsTime | cpp/host/src/physics/powertrain_model.cpp:115-119 | a running shift engages the pending gear exactly when its time is up |
| DriveResponse.SelectionStartsInFirst | cpp/host/src/physics/powertrain_model.cpp:106-119 | a changed selection starts in first gear, with a whole shift unless it is neutral |
| Powertrain.ClutchPower | cpp/host/src/physics/powertrain_model.cpp:181-187 | the clutch passes on at most the combustion power |
| Powertrain.CombustionPaysForTheRotor | cpp/host/src/physics/powertrain_model.cpp:160-181 | above idle, combustion work pays for the clutch's work and the rotor's gain in energy |
| Powertrain.AxlePower | cpp/host/src/physics/powertrain_model.cpp:209-212 | whichever way the wheels turn: gears trade torque for speed, and efficiencies only lose |
| Powertrain.TankBalance | cpp/host/src/physics/powertrain_model.cpp:191-198 | what leaves the tank is what flowed, also in the last, partly fuelled step |
| Powertrain.StepIsSound | cpp/host/src/physics/powertrain_model.cpp:85-213 | wheel power at most crank power, fuel balanced, throttle in [0, 1], no drive torque while shifting |
| Powertrain.RunIsSound | cpp/host/src/physics/powertrain_model.cpp:85-213 | over every run: initial fuel less remaining fuel is the sum of the flows, never below empty, power bounded on every tick |
| Powertrain.SteadyTick | cpp/host/src/physics/powertrain_model.cpp:126-140 | a tick of steady driving keeps the gear or moves it by one, the way it was already going |
| Powertrain.GearboxDoesNotHunt | cpp/host/src/physics/powertrain_model.cpp:110-140 | from a settled state at constant wheel speeds all shifts go the same way, without torque, and are fewer than the gears |
| StructureDamage.UpdateWindow | cpp/host/src/collision/structure_damage.cpp:346-381 | the window is exactly the one filed, trimmed and merged; it holds at most 0.25 s + 1e-9 and a quarter second if that much was filed, and nothing leaves before that |
| StructureDamage.ExpireOld | cpp/host/src/collision/structure_damage.cpp:356-372 | exactly the oldest time beyond the window leaves: whole intervals, and the last one in proportion; the running sums follow |
| StructureDamage.MergeOldest | cpp/host/src/collision/structure_damage.cpp:374-379 | exactly the oldest intervals are merged until the deque is short enough; both sums stay |
| ContactWindow.NextWindowSums | cpp/host/src/collision/structure_damage.cpp:346-381 | a tick keeps the window bounded in length and time, only loses impulse, and none while no more than a quarter second is filed |
| ContactWindow.NextKeepsSuffix | cpp/host/src/collision/structure_damage.cpp:346-381 | without a merge the window stays exactly the end of all that was filed, its first interval cut in proportion |
| ContactWindow.NewestIsKept | cpp/host/src/collision/structure_damage.cpp:354-372 | all impulse filed less than a quarter second ago, up to the tolerance, is still in the window |
| StructureDamage.TickTarget | cpp/host/src/collision/structure_damage.cpp:395-447 | exactly the updated window first, then the contact or the silence, whose effect on damage, episode and event number the lemmas below state |
| DamageGain.CurveIsPinned | cpp/host/src/collision/structure_damage.cpp:404-408 | no damage up to the onset, all of it from the full impulse, linear between |
| DamageGain.ContactGainIsExact | cpp/host/src/collision/structure_damage.cpp:400-438 | a contact whose rise exceeds 1e-9, with a pole not yet down, adds exactly the rise up to 100, apart from the rounding of a collapse, and takes one event number per episode; any other adds nothing |
| StructureDamage.Tick | cpp/host/src/collision/structure_damage.cpp:383-476 | a paused or invalid tick exactly drops what is pending; a valid one advances every target by that same tick |
| StructureDamage.DamageNeverFalls | cpp/host/src/collision/structure_damage.cpp:400-447 | damage, event number and disablement never go back, and a peak only resets in silence |
| DamageRuns.EpisodeAddsAtMostTheCurve | cpp/host/src/collision/structure_damage.cpp:400-447 | over any run from a new target one episode adds at most the damage curve at its peak, exactly unless one of its collapses was rounded up above the curve; the excess is at most the rounding |
| DamageGain.EpisodeAddsAtLeastTheCurve | cpp/host/src/collision/structure_damage.cpp:400-447 | over any run from a new target one episode adds at least the damage curve at its peak, less 1e-9 for each rise too small to be added, until damage is full |
| DamageGain.OneEventPerDamagingEpisode | cpp/host/src/collision/structure_damage.cpp:404-447 | over any run the event number is the number of episodes with a damaging contact, up to its limit |
| DamageGain.SilenceEndsTheEpisode | cpp/host/src/collision/structure_damage.cpp:439-447 | silence ends the episode exactly once it has lasted a quarter second, up to the tolerance |
| DamageRuns.RunStaysValid | cpp/host/src/collision/structure_damage.cpp:383-476 | along any run from a new target window and episode stay valid, and damage never falls |
| DamageRuns.RunConservesImpulse | cpp/host/src/collision/structure_damage.cpp:284-400 | over any run the impulse of all contacts is what is pending, what the window keeps, and what went beyond the limit of one tick, expired, or was dropped by a pause |
| DamageRuns.WindowIsTheNewest | cpp/host/src/collision/structure_damage.cpp:346-381 | over any run, merges included, all but the oldest entry of the window are exactly the newest intervals of the whole history |
| DamageRuns.WindowIsTheCutHistory | cpp/host/src/collision/structure_damage.cpp:346-381 | over any run without merges the window is exactly the end of the whole history, cut in proportion, and holds all impulse filed less than a quarter second ago |
| DamageRuns.CoarseRunsDoNotMerge | cpp/host/src/collision/structure_damage.cpp:373-379 | a run whose ticks last at least 1/16000 s never merges |
| PoleCollapse.GainIsTheRiseUnlessRounded | cpp/host/src/collision/structure_damage.cpp:404-430 | a contact adds at most the rise of the curve exactly unless the collapse rounds up, on the guard of that branch |
| PoleCollapse.CollapseIsExact | cpp/host/src/collision/structure_damage.cpp:410-430 | a standing pole collapses in a contact exactly when the rise is above 1e-9 and takes the damage to at least 100 less 1e-9 |
| PoleCollapse.ThresholdIsExact | cpp/host/src/collision/structure_damage.cpp:512-519 | the threshold behind the breakaway budget marks full damage at every peak exactly when the episode's damage does not exceed the total |
| PoleCollapse.OnlyRoundingCollapsesAfterCreep | cpp/host/src/collision/structure_damage.cpp:404-430 | with the episode's damage above the total a pole collapses exactly when the rounding takes it there |
| PoleRuns.CreepBreaksTheCondition | cpp/host/src/collision/structure_damage.cpp:404-438 | one faint contact with a new pole puts the episode's damage above the total |
| PoleRuns.CreepingPoleSurvivesAnyBlow | cpp/host/src/collision/structure_damage.cpp:404-438 | after a run of two faint contacts no contact of any strength brings the pole down in that episode, however far beyond the threshold |
| PoleRuns.CollapseRoundsUp | cpp/host/src/collision/structure_damage.cpp:425-427 | a new pole struck once just below the threshold collapses, with more damage than the curve gives |
| PoleCollapse.BudgetIsTheDamageLimit | cpp/host/src/collision/structure_damage.cpp:404-519 | a standing pole collapses exactly when the peak reaches the threshold of the breakaway budget, exactly unless the collapse rounds up below it or the last rise is too small to be applied |
| PoleCollapse.SpentBudgetCollapsesExactly | cpp/host/src/collision/structure_damage.cpp:404-519 | a contact that spends the breakaway budget brings the pole down, outside the two roundings, exactly when the impulse in the window reaches the threshold or the peak already had |
| PoleCollapse.BudgetNeedsThePeakInTheWindow | cpp/host/src/collision/structure_damage.cpp:512-519 | every impulse that spends the budget reaches the threshold exactly when the window still keeps the episode's peak, or no more than the least budget is missing |
| PoleRuns.ReleasedButStanding | cpp/host/src/collision/structure_damage.cpp:314-343 | a run from a new pole in which the solver releases the pole on a spent budget and the damage model leaves it standing, because the peak is older than the window |
| PoleFall.AdvanceFall | cpp/host/src/collision/structure_damage.cpp:458-473 | the hinge advances in steps of at most 1/240 s and stays where it meets the ground |
| PoleFall.FallStartsWithTheBlow | cpp/host/src/collision/structure_damage.cpp:431-437 | the fall starts with the blow's angular momentum over the pole's inertia, kept within 0.35 and 3 rad/s; a harder blow never starts it slower |
| PoleFall.TopplingIsTheWeight | cpp/host/src/collision/structure_damage.cpp:458-470 | the toppling factor is the moment of the pole's weight at its middle over its inertia |
| PoleFall.StepFalls | cpp/host/src/collision/structure_damage.cpp:462-467 | every step of a falling pole gains at least 0.14 rad/s, against the damping |
| PoleFall.EveryPoleComesDown | cpp/host/src/collision/structure_damage.cpp:431-473 | however weak the blow and however time is divided into ticks, a collapsed pole lies flat after 11.25 s at the latest |
| SegmentIndex.DistanceIsLeast | scripts/smoke_signal_city.py:445-452 | the returned distance is the least distance to any point of the segment |
| SegmentIndex.BuildSegmentIndex | scripts/smoke_signal_city.py:463-474 | each segment is filed under exactly the cells of its widened bounds |
| SegmentIndex.PointNearRoute | scripts/smoke_signal_city.py:477-490 | with or without the index, exactly the full scan's answer at the fixed tolerance |
| SegmentIndex.WithinRouteDistance | scripts/smoke_signal_city.py:493-510 | with or without the index, exactly the full scan's answer at any distance |

## Left out

- Floating-point rounding, overflow and non-finite values; the checks that refuse them on input.
- CollisionWorld.ResolvePairsOf: ends at a contact that has no mass to divide by; the infinite values that the source goes on with are not modelled.
- CollisionWorld.CollisionWorld.Integrate: the refusal of malformed bodies, proxies, identifiers and time steps, the sorting of proxies by identifier, and the query counters are not modelled.
- SubstepBudget.PlanSubsteps: bounds the motions at the tick's start; contacts inside the tick change velocities without a new plan.
- CollisionWorld.CollisionWorld.VisitProxies: the certificate covers the proxies that the substep's grid keeps, because the grid is built before the proxies move.
- Legacy proxies of zero mass in the energy claims: their motion is prescribed, so they may add energy.
- HostSafety.GenerationNeverDecreases: needs the Hello requirement; without it generation 0 carries no order.
- HostSafety.AcceptedFramesAreIdempotent: holds while the connection's Hello state lives; eviction at 4096 connections forgets it.
- SimulationHost.SimulationHost.HandleMeasurement: the trackers' own state is not modelled, only their verdict; they may have changed before a refusal.
- HostProtocol.RejectionChangesNothing: says nothing about the measurement trackers, for the same reason.
- DamageRuns.WindowIsTheCutHistory: a merged entry spreads its impulse evenly, so with more than 4096 intervals in a quarter second the oldest entry is only known by its sums.
- Logging, replay, callbacks, publication, the overrun clock and traffic reloads inside a tick.
- SignalConflict.LoadNetwork: version 2 plans only, without poses, checksums and JSON types; version 1 is covered by the legacy formula.
- SignalConflict.CheckSnapshots: identity, group, aspect and countdown checks only; positions, headings and the checksum format are not modelled.
- Pedestrian.TripFinishesInsideWalk: is about undisturbed trips; a walker who is knocked down or frozen is interrupted and goes on later without regard to the lamp, one without ground is stranded.
- NpcScheduler.NobodyStarves: counts committed ticks; a tick that live ground rolls back restores the turn.
- ChassisSolver.CorrectPose: does not promise that 32 corrections are enough; the lift that follows is what guarantees clearance.
- Powertrain.CombustionPaysForTheRotor: above idle only; below it the idle governor turns the rotor at no accounted cost.
- StructureDamage.TickTarget: the fall of a pole is modelled apart, in PoleFall; release motion and facade patches are not modelled.
- StructureDamage.Tick: the shapes of collision proxies, rebuilt after it, are not modelled.
- Lane following, lane changes, bypass planning, impact recovery, tumbling, live ground, the vehicle catalog and vehicle physics.
- Network transport, timers, message encoding, file and configuration loading, command line, logging and test drivers.
