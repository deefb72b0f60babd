# Wall climbing for a first-person motor, modelled in Dafny

This project models the wall-climbing core of Daggerfall Unity's player
`ClimbingMotor`. That core is:

- the per-tick state machine `ClimbingCheck`. It decides whether the player
  lets go of the wall, starts climbing, keeps a firm grip or slips.
- `StartClimbing` and its one-shot climbing-mode message.
- the climbing `SkillCheck`. It is a base chance raised linearly toward 100 by
  the effective skill and compared against a roll of 1..100. A failure is
  vetoed while the feet are under water.
- the bounded adjacent-wall search `GetAdjacentWallInfo`, used while strafing
  near a corner.
- the decision structure of `ClimbMovement`: the simple-mode climb, the
  advanced-mode up/down decision, lateral strafing and the outside-corner
  wrap.

Each tick is the pure function `ClimbingMotor.Tick`. It takes the motor's
persistent fields other than `moveDirection` (`ClimbState`) and one `Observation`: the advanced-climbing
setting, the held input actions, the collision flags, the levitating, riding
and falling flags, the position, `deltaTime`, the update-rate constant, the
skill inputs and rolls, and what each engine cast hits. It returns the next
state, whether the tick aborted, the Falling flag handed back to the acrobat
motor, whether the HUD message was emitted, how many skill checks were
tallied, and the displacement handed to the controller.

Modules, one file each:

- `Optional` (`optional.dfy`): the `Option` type for engine queries that may
  find nothing.
- `Geometry` (`geometry.dfy`): exact real vectors and rays. Distance tests use
  squared lengths, with lemmas showing this equals comparing the distance.
- `SkillGate` (`skill_gate.dfy`): effective skill, the integer form of the
  interpolated check, and the pass chance.
- `WallProbe` (`wall_probe.dfy`): the adjacent-wall search. It is written as
  `GetAdjacentWallInfo`'s recursion and as a loop, and the two are proved equal.
- `Movement` (`climb_movement.dfy`): the wall refresh after the capsule cast
  and the climbing displacement.
- `ClimbingMotor` (`climbing_motor.dfy`): the state machine, runs of ticks and
  their invariants.

Three behaviours of the code are easy to misread, and the model keeps all
three as written:

- The property `IsSlipping` is documented as "climbing but trying to regain
  hold", yet the motor can be slipping without climbing, because the continue
  check runs whether or not it is climbing.
  `ClimbingMotor.SlippingWithoutClimbingIsReachable` gives a three-tick run
  from the initial state that ends there.
- An abort resets the start timer but never `climbingContinueTimer`;
  `ClimbingMotor.Tick` states that an abort leaves it unchanged.
- A failed adjacent-wall search does not stop the wrap. The result
  `adjacentWallFound` (ClimbingMotor.cs:336) is assigned and never read, so
  the corner test and the wrap run on the adjacent wall remembered from an
  earlier search rather than falling back to a straight strafe.
  `Movement.FailedSearchStillWraps` and `Movement.FailedSearchStillFindsCorner`
  show a search in which every probe fails, yet the wrap completes or the
  corner is entered.

## Model

| member | source | states |
|---|---|---|
| `Geometry.FartherThanIsDistance` | Assets/Scripts/Game/Player/ClimbingMotor.cs:116 | comparing squared horizontal distance with the squared tolerance decides the same as `Vector2.Distance(...) > tolerance` |
| `Geometry.ShorterThanIsLength` | Assets/Scripts/Game/Player/ClimbingMotor.cs:346 | comparing a squared length with 0.01 squared decides the same as `magnitude < 0.01` |
| `Geometry.CrossUpIsHorizontal` | Assets/Scripts/Game/Player/ClimbingMotor.cs:327-329 | a cross product with up, on either side, has no vertical component |
| `Geometry.StrafeDirection` | Assets/Scripts/Game/Player/ClimbingMotor.cs:326-329 | the strafe direction `Cross(up, ledge)` to the right and `Cross(ledge, up)` to the left is horizontal, perpendicular to the ledge direction, and (before the engine normalises it) of squared length equal to the squared length of the ledge direction's horizontal part |
| `Geometry.StrafeSidesOpposite` | Assets/Scripts/Game/Player/ClimbingMotor.cs:326-329 | the left strafe direction is exactly the reverse of the right one |
| `Geometry.StrafeRightOfForward` | Assets/Scripts/Game/Player/ClimbingMotor.cs:326-327 | facing +z, the right strafe runs along +x, the engine's right-hand side |
| `SkillGate.Clamp` | Assets/Scripts/Game/Player/ClimbingMotor.cs:463 | the result lies in [lo, hi]; it is the value when the value is in range, else the nearer bound |
| `SkillGate.EffectiveSkill` | Assets/Scripts/Game/Player/ClimbingMotor.cs:454-463 | the effective skill always lies in [5, 95] |
| `SkillGate.KhajiitBonusActsAsSkill` | Assets/Scripts/Game/Player/ClimbingMotor.cs:454-463 | a Khajiit climber has exactly the effective skill of a non-Khajiit one with 30 more live skill, so the bonus is added before any doubling and the clamp |
| `SkillGate.EffectiveSkillWithoutBonus` | Assets/Scripts/Game/Player/ClimbingMotor.cs:454-463 | without the racial bonus, the effective skill is the live skill clamped to [5, 95], or twice the live skill clamped to [5, 95] under the enhancement |
| `SkillGate.EffectiveSkillMonotone` | Assets/Scripts/Game/Player/ClimbingMotor.cs:454-463 | with the same race and buff, more live skill never gives less effective skill |
| `SkillGate.RollPassesIsLerp` | Assets/Scripts/Game/Player/ClimbingMotor.cs:466-468 | the integer test `100*base + (100-base)*skill >= 100*roll` passes exactly when `Lerp(base, 100, skill*0.01)` is not below the roll |
| `SkillGate.SkillCheck` | Assets/Scripts/Game/Player/ClimbingMotor.cs:451-481 | when the feet are dry, the check passes exactly when the interpolated chance is not below the roll; with the feet under water it always passes; a roll at or below the base always passes; a base of 100 or more always passes; a roll of 100 fails whenever the base is below 100 and the feet are dry |
| `SkillGate.PassingRollsClosedForm` | Assets/Scripts/Game/Player/ClimbingMotor.cs:466-468 | the rolls that pass are exactly 1 up to the interpolated chance rounded down, so among rolls 1..n the count is that bound cut to 0..n |
| `SkillGate.PassingRollsCountsChecks` | Assets/Scripts/Game/Player/ClimbingMotor.cs:451-481 | with dry feet, the counted pass chance equals the number of rolls in 1..n for which the skill check passes |
| `SkillGate.PassChanceMonotone` | Assets/Scripts/Game/Player/ClimbingMotor.cs:454-468 | for any base of at most 100, the percentage of passing rolls never falls as the live skill rises |
| `WallProbe.AdjacentWallRay` | Assets/Scripts/Game/Player/ClimbingMotor.cs:243-246 | the adjacent wall ray starts at the hit point; it runs along the found face, perpendicular to the hit normal, and, before the `Ray` constructor normalises it, of squared length equal to the squared length of the normal's horizontal part (so never zero for a wall that is not flat); its direction is the way a climber facing that wall strafes right when the search is clockwise and left otherwise |
| `WallProbe.AdjacentWallRaySensesOpposite` | Assets/Scripts/Game/Player/ClimbingMotor.cs:243-246 | the clockwise and anticlockwise searches give rays along the same face in opposite directions |
| `WallProbe.SearchFrom` | Assets/Scripts/Game/Player/ClimbingMotor.cs:226-275 | every return leaves the shared counter at 0; the search casts at least one probe and no more than the counter allows; every probe before the last one missed; a find adopts the last probe, which hit a mesh, taking the inverted normal as the adjacent ledge direction; giving up uses the whole allowance and leaves the adjacent fields as they were |
| `WallProbe.AdjacentWallSearch` | Assets/Scripts/Game/Player/ClimbingMotor.cs:226-275 | on return the counter is 0; a find yields a horizontal adjacent wall ray running in the search's strafe sense along the adopted adjacent ledge; a miss leaves the adjacent ledge direction and ray unchanged |
| `WallProbe.FreshSearchIsBounded` | Assets/Scripts/Game/Player/ClimbingMotor.cs:251-272 | entered with the counter at 0, the search casts one to three probes, finds a wall exactly when one of the first three hits a mesh, and adopts the first such probe |
| `WallProbe.FindAdjacentWall` | Assets/Scripts/Game/Player/ClimbingMotor.cs:226-275 | the search as a bounded loop computes exactly what the recursion computes, resets the counter and stays within the probe allowance |
| `Movement.ClimbScalarLinear` | Assets/Scripts/Game/Player/ClimbingMotor.cs:298 | the climb scalar is proportional to the motor's speed: scaling the speed by k scales the scalar by k |
| `Movement.Vertical` | Assets/Scripts/Game/Player/ClimbingMotor.cs:310-321 | away from an outside corner, with forward held or no mesh wall within 0.3 ahead, the climber rises at the climb scalar; at an outside corner, or with forward released against a mesh wall ahead, it descends at the climb scalar when backward is held and otherwise stays level |
| `Movement.RefreshContact` | Assets/Scripts/Game/Player/ClimbingMotor.cs:215-223 | a cast hit makes the inverted hit normal the ledge direction and moves the strafe ray to the hit point, at the controller's height and along the normal; a miss changes nothing; only the ledge direction and the strafe ray ever change, so the corner context (adjacent ledge and wall ray, corner normal ray, corner flag, search counter) is kept |
| `Movement.DetectCorner` | Assets/Scripts/Game/Player/ClimbingMotor.cs:342-358 | with an intersection, the climber is at an outside corner exactly when the intersection is within 0.01 of the strafe-ray origin, and the corner normal ray starts at the intersection along minus the sum of both ledge directions; at such a corner the wrap direction is the sum of the strafe directions (for the side held) along the gripped wall and along the adjacent one; the wrap direction is always horizontal and perpendicular to the corner normal, and zero unless at the corner; without an intersection, the corner state and corner ray are kept |
| `Movement.WrapSidesOpposite` | Assets/Scripts/Game/Player/ClimbingMotor.cs:350-353 | wrapping right and wrapping left around the same corner run in opposite directions, with the same corner state and corner normal ray |
| `Movement.Lateral` | Assets/Scripts/Game/Player/ClimbingMotor.cs:323-379 | when the adjacent wall ray is horizontal (true of every reachable grip), the strafe step has no vertical component and the adjacent wall ray stays horizontal; a completed wrap adopts the adjacent ledge direction, leaves the corner and steps against the adjacent wall ray; otherwise the ledge direction is kept; a corner is only entered when an intersection was found; the search counter stays 0 |
| `Movement.LateralDirections` | Assets/Scripts/Game/Player/ClimbingMotor.cs:323-377 | the strafe ray is re-aimed along the strafe direction for the side held (right wins when both are held); the adjacent fields are those of the search, which sweeps clockwise exactly when left is held; a wrap completes exactly when the corner test puts the climber at the corner and the wrap direction is zero or almost parallel to the adjacent wall ray; off the corner the step is the strafe direction times the climb scalar, perpendicular to the ledge direction; at the corner it is the wrap direction times the climb scalar; a wrap onto a wall found by this search keeps stepping the way the search swept along the new wall |
| `Movement.StrafeSidesMirror` | Assets/Scripts/Game/Player/ClimbingMotor.cs:326-329 | away from any corner, strafing right steps exactly opposite to strafing left |
| `Movement.ClimbMovement` | Assets/Scripts/Game/Player/ClimbingMotor.cs:281-402 | slipping gives only the gravity slide; simple mode moves at speed along the ledge direction horizontally and at the climb scalar vertically; in advanced mode all vertical motion comes from the up/down decision, and at an outside corner the climber never moves up; while strafing the grip and wrap flag are those of the strafe, and the horizontal motion is the strafe step plus the ledge direction in force after any wrap times speed; without strafing the push into the wall is the ledge direction times speed; only strafing changes the grip; a completed wrap leaves the ledge direction equal to the adjacent one with the corner cleared |
| `Movement.SimpleModeAtSpeedThree` | Assets/Scripts/Game/Player/ClimbingMotor.cs:384-388 | in simple mode at speed 3 with no enhancement, the climber rises 1 unit per second and presses into the wall at 3 times the ledge direction |
| `Movement.EnhancementDoublesClimb` | Assets/Scripts/Game/Player/ClimbingMotor.cs:289-298 | the enhanced-climbing effect doubles the vertical climb speed in both modes |
| `Movement.WrapDoesNotRetrigger` | Assets/Scripts/Game/Player/ClimbingMotor.cs:360-368 | after a movement step that completed a wrap, a following advanced-mode movement step with no new intersection does not wrap again, stays off the corner and keeps the adopted ledge direction (the wall refresh that precedes movement in a tick is not part of this statement) |
| `Movement.FailedSearchStillWraps` | Assets/Scripts/Game/Player/ClimbingMotor.cs:336-368 | when every adjacent-wall probe fails and no intersection is reported, the search reports failure, yet a climber at an outside corner still completes the wrap, adopting the adjacent ledge direction and wall ray kept from an earlier search |
| `Movement.FailedSearchStillFindsCorner` | Assets/Scripts/Game/Player/ClimbingMotor.cs:336-368 | when every probe fails but the remembered adjacent wall ray meets the strafe ray at its origin, the climber enters the corner or completes the wrap, and the corner normal ray starts there along minus the sum of both ledge directions |
| `Movement.SearchFailsWithoutWall` | Assets/Scripts/Game/Player/ClimbingMotor.cs:251-272 | when no probe strikes a mesh collider, whatever the counter, the search fails and keeps the adjacent ledge direction and ray |
| `ClimbingMotor.StartClimbing` | Assets/Scripts/Game/Player/ClimbingMotor.cs:182-193 | afterwards the motor is climbing; if it already was, nothing changes and no message is emitted; otherwise only the climbing flag is set and the message flag cleared; the message is emitted exactly when the motor was not climbing and the flag was set |
| `ClimbingMotor.StartClimbingIdempotent` | Assets/Scripts/Game/Player/ClimbingMotor.cs:182-193 | starting twice is the same as starting once, and the second start emits nothing |
| `ClimbingMotor.ScheduleStart` | Assets/Scripts/Game/Player/ClimbingMotor.cs:131-144 | at or below the threshold the start timer grows by deltaTime and nothing else changes; past it, a standing climber always starts; an airborne one starts only when the base-50 check passes, which leaves the timer alone, while a failed check resets the timer to 0; only the climbing flag, the message flag and the start timer can change |
| `ClimbingMotor.ScheduleContinue` | Assets/Scripts/Game/Player/ClimbingMotor.cs:146-162 | at or below the threshold (5 units when slipping, else 15) the continue timer grows by deltaTime; past it, the timer resets to 0; with no movement key held slipping clears and no check is tallied, while holding any movement key tallies exactly one check; below the threshold no check is tallied; a slipping climber stays slipping exactly when the base-20 check fails; a firm one starts slipping exactly when the base-70 check fails; only the slipping flag and the continue timer change |
| `ClimbingMotor.Tick` | Assets/Scripts/Game/Player/ClimbingMotor.cs:77-177 | a tick aborts exactly when the input-abort condition holds, or there is no side collision, or the player is levitating, or riding, or slipping onto ground, or not climbing and drifted past 0.90 (airborne grasp) or 0.12; an abort clears climbing, slipping and the corner, sets the message flag, zeroes the start timer, snapshots the horizontal position, keeps the continue timer and runs nothing else; wall-eject holds exactly after an input abort in advanced mode while climbing; the start and continue rules are as in the scheduling rows; a tick that neither aborts nor starts a climb leaves the message flag as it was; the checks tallied are exactly one for an airborne start whose timer fired plus one for a fired continue timer with a movement key held (none on an abort); movement runs exactly when the motor ends the tick climbing, and then the displacement and the new grip are those of `ClimbMovement` on the grip refreshed by the wall cast, simple mode pressing along the inverted normal of the struck wall (or the old ledge direction on a miss), and Falling equals slipping, otherwise Falling is left as read; an abort changes no grip field but the corner flag, and a tick that ends not climbing keeps the grip; valid states stay valid |
| `ClimbingMotor.Execute` | Assets/Scripts/Game/Player/ClimbingMotor.cs:164-175 | a climbing motor refreshes the wall contact and then moves: the displacement and grip are those of `ClimbMovement` on the refreshed grip, simple mode presses along the refreshed ledge direction, Falling mirrors slipping, and only the grip changes; a motor not climbing is left as it is, with no movement |
| `ClimbingMotor.InitIsValid` | Assets/Scripts/Game/Player/ClimbingMotor.cs:20-46 | the component's initial fields satisfy the state invariant |
| `ClimbingMotor.RunPreservesValid` | Assets/Scripts/Game/Player/ClimbingMotor.cs:118-127 | over any run from a valid state: at an outside corner the motor is climbing; while climbing the message flag is cleared; the search counter is 0; the adjacent wall ray is horizontal |
| `ClimbingMotor.AtMostOneMessagePerAttempt` | Assets/Scripts/Game/Player/ClimbingMotor.cs:182-193 | over any run, the HUD messages emitted number at most the aborts plus one, so at most one per climb attempt |
| `ClimbingMotor.SlippingWithoutClimbingIsReachable` | Assets/Scripts/Game/Player/ClimbingMotor.cs:147-162 | three airborne ticks from the initial state, with failing rolls, end slipping but not climbing, so slipping does not imply climbing |

## Left out

- Engine casts (`Physics.CapsuleCast`, `Physics.Raycast`, the `MeshCollider` filter) are oracle inputs. Each observation says what the gripped-wall cast hits, whether a mesh wall lies 0.3 units ahead, and what each adjacent-wall probe hits.
- The choice of direction for the gripped-wall cast, and the capsule's shape, are left out. This covers the zero-ledge test, the ledge direction, and the inverted corner normal. The cast's result is an input.
- `LineLineIntersection` is left out: its result is an input. `IsAlmostParallel` is an input for a non-zero wrap direction. A zero wrap direction is treated as parallel, as `IsAlmostParallel`'s cross-product test would treat it. These are floating-point geometry with 0.01 thresholds.
- Normalisation is not modelled. This covers the strafe, wrap and corner-normal directions (ClimbingMotor.cs:327-353), and the normalising done by the `Ray` constructor. It needs square roots. What carries over to the engine's unit vectors is each direction's sense, its being horizontal, its perpendicularity to a ledge or normal, and which wall is adopted; lengths do not.
- Geometry.StrafeDirection: the squared length stated is that of the unnormalised cross product, not the unit length the engine gives it.
- WallProbe.AdjacentWallRay: the squared length stated is that of the unnormalised cross product, not the unit length the `Ray` constructor gives it.
- Movement.DetectCorner: the wrap direction is the unnormalised sum of two strafe directions, so its length is not the engine's; at a right-angle corner between vertical walls its squared length is 2 where the engine's is 1.
- Movement.LateralDirections: the strafe step's speed matches the engine's only off a corner on a vertical wall, where the ledge direction is a horizontal unit vector and the cross product already has length 1 (and likewise for a completed wrap onto a vertical wall, whose step runs along the adjacent wall ray); while at a corner the step is the scalar times the unnormalised wrap direction, which is longer than the engine's.
- The adjacent-wall probe path is left out: the origin advance, the rotated next direction and the `radius + 0.5` probe length. The oracle tells what each probe hits.
- `Random.Range` is replaced by the rolls in the observation, each an integer from 1 to 100.
- The water-level arithmetic (`MeshReader.GlobalScale`, `blockWaterLevel`, the foot offset) is reduced to the flag `feetBelowWater`.
- Single-precision rounding is not modelled. Timers, speeds and the Lerp comparison are exact reals or integers, which may differ from floats exactly at the boundaries.
- `CheckInitFall` and `ApplyGravity` are collaborators. The slipping displacement is the marker `Slide`. The field `moveDirection` (ClimbingMotor.cs:36) also persists between ticks: a firm-grip tick rebuilds it from zero (:299), but `ApplyGravity(ref moveDirection)` (:394) reads the previous tick's value on a slipping tick, so it is not part of `ClimbState`.
- `controller.Move` is left out, as are the scaling by `deltaTime` and the collision-flag write-back. The model returns the velocity before that scaling.
- The HUD text becomes the `messageShown` output. `TallySkill` becomes the `skillChecks` count.
- `Debug.DrawRay`, the `Start()` component wiring and the empty `TowardWallImpulse` do nothing the model needs.
- Corner-wrap idempotence with unchanged inputs is not modelled in full: a fresh intersection can legitimately re-enter a corner. `Movement.WrapDoesNotRetrigger` states the part that holds without new geometry.
- Movement.Lateral: the strafe step is stated horizontal only for grips whose adjacent wall ray is horizontal, since a tilted remembered ray would tilt the wrap step. `ClimbingMotor.RunPreservesValid` shows every state reached from the initial one has such a grip.
- Movement.ClimbMovement: the advanced-mode vertical guarantees are stated for grips whose adjacent wall ray is horizontal. `ClimbingMotor.RunPreservesValid` shows every state reached from the initial one has such a grip.
