/** The per-tick climbing state machine of ClimbingCheck: abort, start
    scheduling, continue scheduling, and — while climbing — the wall refresh,
    the movement and the falling mirror. The tick is a pure function from
    the motor's state and the tick's observations to the next state and the
    tick's outputs. */
module ClimbingMotor {
  import opened Geometry
  import opened Optional
  import SkillGate
  import WallProbe
  import Movement

  const ContinueClimbingSkillCheckFrequency: real := 15.0
  const RegainHoldSkillCheckFrequency: real := 5.0
  const RegainHoldMinChance: int := 20
  const ContinueClimbMinChance: int := 70
  const GraspWallMinChance: int := 50
  const AirborneStartTolerance: real := 0.90
  const StandingStartTolerance: real := 0.12
  const AirborneStartFrequency: real := 5.0
  const StandingStartFrequency: real := 14.0

  /** The fields of the motor that persist between ticks. */
  datatype ClimbState = ClimbState(
    isClimbing: bool,
    isSlipping: bool,
    showClimbingModeMessage: bool,
    climbingStartTimer: real,
    climbingContinueTimer: real,
    lastHorizontalPosition: Vec2,
    wallEject: bool,
    grip: Movement.Grip
  )

  /** Everything one tick reads from its collaborators. */
  datatype Observation = Observation(
    advancedClimbing: bool,      // the advanced-climbing setting
    keys: Movement.Keys,         // the input actions held
    sideCollision: bool,         // the motor's collision flags include Sides
    belowCollision: bool,        // ... and Below
    levitating: bool,
    riding: bool,
    falling: bool,               // the acrobat motor's Falling flag on entry
    position: Vec3,              // the controller's position
    deltaTime: real,
    updatesPerSecond: real,      // the motor's systemTimerUpdatesPerSecond
    climber: SkillGate.Climber,  // what the skill checks read
    graspRoll: SkillGate.Roll,   // the roll of a grasp-wall check, if one is made
    continueRoll: SkillGate.Roll, // the roll of a continue or regain check, if one is made
    wallHit: Option<WallProbe.WallHit>, // what the cast at the gripped wall strikes
    surroundings: Movement.Surroundings
  )

  /** The next state and what the tick hands to the rest of the game. */
  datatype TickResult = TickResult(
    state: ClimbState,
    aborted: bool,
    falling: bool,               // the acrobat motor's Falling flag on exit
    messageShown: bool,          // the climbing-mode HUD message was emitted
    skillChecks: nat,            // skill checks made, each tallying one climbing use
    move: Option<Movement.Displacement>
  )

  /** The motor's fields as the component starts. */
  function Init(): ClimbState {
    ClimbState(false, false, true, 0.0, 0.0, Vec2(0.0, 0.0), false,
               Movement.Grip(Zero, Ray(Zero, Zero), Zero, Ray(Zero, Zero), Ray(Zero, Zero), false, 0))
  }

  /** Catching a wall while falling, not yet attached to it. */
  predicate AirborneGrasp(s: ClimbState, o: Observation) {
    !s.isClimbing && !s.isSlipping && o.falling
  }

  function StartTolerance(airborne: bool): real {
    if airborne then AirborneStartTolerance else StandingStartTolerance
  }

  function StartFrequency(airborne: bool): real {
    if airborne then AirborneStartFrequency else StandingStartFrequency
  }

  function ContinueFrequency(slipping: bool): real {
    if slipping then RegainHoldSkillCheckFrequency else ContinueClimbingSkillCheckFrequency
  }

  /** Advanced mode lets go on crouch or jump; simple mode when forward is released. */
  predicate InputAbort(advanced: bool, keys: Movement.Keys) {
    if advanced then keys.crouch || keys.jump else !keys.forward
  }

  predicate NoMovementKey(keys: Movement.Keys) {
    !keys.forward && !keys.backward && !keys.left && !keys.right
  }

  /** StartClimbing: attach and suppress the message until the attempt ends;
      the second component says whether the message was emitted. */
  function StartClimbing(s: ClimbState): (r: (ClimbState, bool))
    ensures r.0.isClimbing
    ensures s.isClimbing ==> r == (s, false)
    ensures !s.isClimbing ==> r.0 == s.(isClimbing := true, showClimbingModeMessage := false)
    ensures r.1 <==> !s.isClimbing && s.showClimbingModeMessage
  {
    if s.isClimbing then (s, false)
    else (s.(showClimbingModeMessage := false, isClimbing := true), s.showClimbingModeMessage)
  }

  /** Starting twice is starting once: the second call changes nothing and
      emits nothing. */
  lemma StartClimbingIdempotent(s: ClimbState)
    ensures StartClimbing(StartClimbing(s).0) == (StartClimbing(s).0, false)
  {
  }

  /** The scheduling half of a tick that did not abort: the start timer, the
      start itself, then the continue timer and the slip decision. */
  datatype Scheduled = Scheduled(state: ClimbState, messageShown: bool, skillChecks: nat)

  function ScheduleStart(s: ClimbState, o: Observation, airborne: bool): (p: Scheduled)
    requires airborne ==> !s.isClimbing
    ensures s.climbingStartTimer <= o.updatesPerSecond * StartFrequency(airborne) ==>
      p == Scheduled(s.(climbingStartTimer := s.climbingStartTimer + o.deltaTime), false, 0)
    ensures s.climbingStartTimer > o.updatesPerSecond * StartFrequency(airborne) ==>
      if !airborne then
        p.state.isClimbing && p.state.climbingStartTimer == s.climbingStartTimer && p.skillChecks == 0
      else if SkillGate.SkillCheck(GraspWallMinChance, o.climber, o.graspRoll) then
        p.state.isClimbing && p.state.climbingStartTimer == s.climbingStartTimer && p.skillChecks == 1
      else
        !p.state.isClimbing && p.state.climbingStartTimer == 0.0 && p.skillChecks == 1
    ensures p.state.(isClimbing := s.isClimbing, showClimbingModeMessage := s.showClimbingModeMessage,
                     climbingStartTimer := s.climbingStartTimer) == s
    ensures p.state.grip == s.grip && p.state.isSlipping == s.isSlipping
    ensures p.state.climbingContinueTimer == s.climbingContinueTimer
    ensures p.skillChecks == (if s.climbingStartTimer > o.updatesPerSecond * StartFrequency(airborne)
                                 && airborne then 1 else 0)
    ensures s.isClimbing ==> p.state.isClimbing
    ensures p.messageShown <==> !s.isClimbing && p.state.isClimbing && s.showClimbingModeMessage
    ensures p.state.isClimbing && !s.isClimbing ==> !p.state.showClimbingModeMessage
    ensures p.state.showClimbingModeMessage ==> s.showClimbingModeMessage
    ensures p.state.isClimbing == s.isClimbing ==> p.state.showClimbingModeMessage == s.showClimbingModeMessage
  {
    if s.climbingStartTimer <= o.updatesPerSecond * StartFrequency(airborne) then
      Scheduled(s.(climbingStartTimer := s.climbingStartTimer + o.deltaTime), false, 0)
    else if !airborne then
      var (t, shown) := StartClimbing(s);
      Scheduled(t, shown, 0)
    else if SkillGate.SkillCheck(GraspWallMinChance, o.climber, o.graspRoll) then
      var (t, shown) := StartClimbing(s);
      Scheduled(t, shown, 1)
    else
      Scheduled(s.(climbingStartTimer := 0.0), false, 1)
  }

  function ScheduleContinue(p: Scheduled, o: Observation): (q: Scheduled)
    ensures q.state.(isSlipping := p.state.isSlipping,
                     climbingContinueTimer := p.state.climbingContinueTimer) == p.state
    ensures q.messageShown == p.messageShown
    ensures q.state.grip == p.state.grip && q.state.isClimbing == p.state.isClimbing
    ensures p.state.climbingContinueTimer <= o.updatesPerSecond * ContinueFrequency(p.state.isSlipping) ==>
      && q.state.climbingContinueTimer == p.state.climbingContinueTimer + o.deltaTime
      && q.state.isSlipping == p.state.isSlipping
      && q.skillChecks == p.skillChecks
    // once the timer fires, letting go of every movement key clears slipping
    // without a check; holding one makes exactly one check
    ensures p.state.climbingContinueTimer > o.updatesPerSecond * ContinueFrequency(p.state.isSlipping) ==>
      && q.state.climbingContinueTimer == 0.0
      && (NoMovementKey(o.keys) ==> q.skillChecks == p.skillChecks)
      && (!NoMovementKey(o.keys) ==> q.skillChecks == p.skillChecks + 1)
      && (NoMovementKey(o.keys) ==> !q.state.isSlipping)
      && (!NoMovementKey(o.keys) && p.state.isSlipping ==>
            (q.state.isSlipping <==> !SkillGate.SkillCheck(RegainHoldMinChance, o.climber, o.continueRoll)))
      && (!NoMovementKey(o.keys) && !p.state.isSlipping ==>
            (q.state.isSlipping <==> !SkillGate.SkillCheck(ContinueClimbMinChance, o.climber, o.continueRoll)))
  {
    var t := p.state;
    if t.climbingContinueTimer <= o.updatesPerSecond * ContinueFrequency(t.isSlipping) then
      p.(state := t.(climbingContinueTimer := t.climbingContinueTimer + o.deltaTime))
    else
      var t0 := t.(climbingContinueTimer := 0.0);
      if NoMovementKey(o.keys) then
        p.(state := t0.(isSlipping := false))
      else if t.isSlipping then
        Scheduled(t0.(isSlipping := !SkillGate.SkillCheck(RegainHoldMinChance, o.climber, o.continueRoll)),
                  p.messageShown, p.skillChecks + 1)
      else
        Scheduled(t0.(isSlipping := !SkillGate.SkillCheck(ContinueClimbMinChance, o.climber, o.continueRoll)),
                  p.messageShown, p.skillChecks + 1)
  }

  /** Grasp checks a tick makes: one when the start timer fires for an
      airborne grasp, none for a standing start. */
  function GraspChecks(s: ClimbState, o: Observation): nat {
    if s.climbingStartTimer > o.updatesPerSecond * StartFrequency(AirborneGrasp(s, o)) && AirborneGrasp(s, o)
    then 1 else 0
  }

  /** Continue checks a tick makes: one when the continue timer fires while
      some movement key is held. */
  function ContinueChecks(s: ClimbState, o: Observation): nat {
    if s.climbingContinueTimer > o.updatesPerSecond * ContinueFrequency(s.isSlipping) && !NoMovementKey(o.keys)
    then 1 else 0
  }

  /** The abort condition, in the order ClimbingCheck tests it. */
  predicate Aborts(s: ClimbState, o: Observation) {
    || InputAbort(o.advancedClimbing, o.keys)
    || !o.sideCollision
    || o.levitating
    || o.riding
    || (s.isSlipping && o.belowCollision)
    || (!s.isClimbing && FartherThan(s.lastHorizontalPosition, Horizontal(o.position),
                                     StartTolerance(AirborneGrasp(s, o))))
  }

  /** The facts every reachable state keeps. */
  predicate Valid(s: ClimbState) {
    && (s.grip.atOutsideCorner ==> s.isClimbing)
    && (s.isClimbing ==> !s.showClimbingModeMessage)
    && s.grip.findWallLoopCount == 0
    && Movement.FlatAdjacentRay(s.grip)
  }

  /** ClimbingCheck. */
  function Tick(s: ClimbState, o: Observation): (r: TickResult)
    // ---- abort ----
    ensures r.aborted <==>
      || (if o.advancedClimbing then o.keys.crouch || o.keys.jump else !o.keys.forward)
      || !o.sideCollision || o.levitating || o.riding
      || (s.isSlipping && o.belowCollision)
      || (!s.isClimbing && SqDist(s.lastHorizontalPosition, Horizontal(o.position))
                           > (if AirborneGrasp(s, o) then 0.90 * 0.90 else 0.12 * 0.12))
    ensures r.aborted ==>
      && !r.state.isClimbing && !r.state.isSlipping && !r.state.grip.atOutsideCorner
      && r.state.showClimbingModeMessage
      && r.state.climbingStartTimer == 0.0
      && r.state.lastHorizontalPosition == Horizontal(o.position)
      && r.state.climbingContinueTimer == s.climbingContinueTimer
      && r.falling == o.falling && !r.messageShown && r.skillChecks == 0 && r.move.None?
    ensures r.state.wallEject <==>
      r.aborted && s.isClimbing && o.advancedClimbing && InputAbort(o.advancedClimbing, o.keys)
    ensures !r.aborted ==> r.state.lastHorizontalPosition == s.lastHorizontalPosition
    // ---- start scheduling ----
    ensures !r.aborted && s.climbingStartTimer <= o.updatesPerSecond * StartFrequency(AirborneGrasp(s, o)) ==>
      && r.state.climbingStartTimer == s.climbingStartTimer + o.deltaTime
      && r.state.isClimbing == s.isClimbing
    ensures !r.aborted && s.climbingStartTimer > o.updatesPerSecond * StartFrequency(AirborneGrasp(s, o)) ==>
      if !AirborneGrasp(s, o) then
        r.state.isClimbing && r.state.climbingStartTimer == s.climbingStartTimer
      else if SkillGate.SkillCheck(GraspWallMinChance, o.climber, o.graspRoll) then
        r.state.isClimbing && r.state.climbingStartTimer == s.climbingStartTimer
      else
        !r.state.isClimbing && r.state.climbingStartTimer == 0.0
    ensures r.messageShown <==>
      !s.isClimbing && r.state.isClimbing && s.showClimbingModeMessage
    ensures r.state.isClimbing && !s.isClimbing ==> !r.state.showClimbingModeMessage
    ensures r.state.showClimbingModeMessage ==> s.showClimbingModeMessage || r.aborted
    // only an abort or a start writes the message flag
    ensures !r.aborted && r.state.isClimbing == s.isClimbing ==>
      r.state.showClimbingModeMessage == s.showClimbingModeMessage
    // ---- continue scheduling ----
    ensures !r.aborted && s.climbingContinueTimer <= o.updatesPerSecond * ContinueFrequency(s.isSlipping) ==>
      && r.state.climbingContinueTimer == s.climbingContinueTimer + o.deltaTime
      && r.state.isSlipping == s.isSlipping
    ensures !r.aborted && s.climbingContinueTimer > o.updatesPerSecond * ContinueFrequency(s.isSlipping) ==>
      && r.state.climbingContinueTimer == 0.0
      && (NoMovementKey(o.keys) ==> !r.state.isSlipping)
      && (!NoMovementKey(o.keys) && s.isSlipping ==>
            (r.state.isSlipping <==> !SkillGate.SkillCheck(RegainHoldMinChance, o.climber, o.continueRoll)))
      && (!NoMovementKey(o.keys) && !s.isSlipping ==>
            (r.state.isSlipping <==> !SkillGate.SkillCheck(ContinueClimbMinChance, o.climber, o.continueRoll)))
    // one grasp check when an airborne start fires, one continue check when
    // the continue timer fires with a movement key held, none on an abort
    ensures !r.aborted ==> r.skillChecks == GraspChecks(s, o) + ContinueChecks(s, o)
    ensures r.skillChecks <= 2
    // ---- execution ----
    ensures r.move.Some? <==> r.state.isClimbing
    ensures r.state.isClimbing ==> r.falling == r.state.isSlipping
    ensures !r.state.isClimbing ==> r.falling == o.falling
    ensures r.state.isClimbing && r.state.isSlipping ==> r.move == Some(Movement.Slide)
    // a climbing tick refreshes the contact with the gripped wall, then moves
    ensures !r.aborted && r.state.isClimbing ==>
      var m := Movement.ClimbMovement(Movement.RefreshContact(s.grip, o.wallHit, o.position.y),
                                      r.state.isSlipping, o.advancedClimbing, o.keys,
                                      o.climber.enhancedClimbing, o.surroundings);
      r.move == Some(m.move) && r.state.grip == m.grip
    // simple mode presses into the wall the cast just struck, or the old one
    ensures !r.aborted && r.state.isClimbing && !r.state.isSlipping && !o.advancedClimbing ==>
      r.move == Some(Movement.Climb(SimpleClimb(LedgeAfterCast(s.grip, o), o)))
    // an abort only leaves the corner; a tick that does not climb keeps the grip
    ensures r.aborted ==> r.state.grip == s.grip.(atOutsideCorner := false)
    ensures !r.aborted && !r.state.isClimbing ==> r.state.grip == s.grip
    ensures Valid(s) ==> Valid(r.state)
  {
    var airborne := AirborneGrasp(s, o);
    if Aborts(s, o) then
      var eject := s.isClimbing && InputAbort(o.advancedClimbing, o.keys) && o.advancedClimbing;
      var t := s.(isClimbing := false, isSlipping := false,
                  grip := s.grip.(atOutsideCorner := false),
                  showClimbingModeMessage := true, climbingStartTimer := 0.0,
                  lastHorizontalPosition := Horizontal(o.position), wallEject := eject);
      TickResult(t, true, o.falling, false, 0, None)
    else
      Execute(ScheduleContinue(ScheduleStart(s.(wallEject := false), o, airborne), o), o)
  }

  /** The ledge direction once the cast at the gripped wall has run: the
      inward normal of what it struck, or the old direction on a miss. */
  function LedgeAfterCast(g: Movement.Grip, o: Observation): Vec3 {
    if o.wallHit.Some? then Neg(o.wallHit.value.normal) else g.ledgeDirection
  }

  /** Simple mode's climb: into the wall at speed, up at the climb scalar. */
  function SimpleClimb(ledge: Vec3, o: Observation): Vec3 {
    Vec3(ledge.x * o.surroundings.speed,
         Movement.ClimbScalar(o.surroundings.speed, o.climber.enhancedClimbing),
         ledge.z * o.surroundings.speed)
  }

  /** The execution half of a tick that did not abort: while climbing, the
      contact refresh, the movement and the falling mirror. */
  function Execute(p: Scheduled, o: Observation): (r: TickResult)
    ensures !r.aborted && r.messageShown == p.messageShown && r.skillChecks == p.skillChecks
    ensures r.state.(grip := p.state.grip) == p.state
    ensures r.move.Some? <==> p.state.isClimbing
    ensures p.state.isClimbing ==>
      var m := Movement.ClimbMovement(Movement.RefreshContact(p.state.grip, o.wallHit, o.position.y),
                                      p.state.isSlipping, o.advancedClimbing, o.keys,
                                      o.climber.enhancedClimbing, o.surroundings);
      r.move == Some(m.move) && r.state.grip == m.grip && r.falling == p.state.isSlipping
    ensures p.state.isClimbing && !p.state.isSlipping && !o.advancedClimbing ==>
      r.move == Some(Movement.Climb(SimpleClimb(LedgeAfterCast(p.state.grip, o), o)))
    ensures !p.state.isClimbing ==> r.state == p.state && r.falling == o.falling
    ensures Movement.FlatAdjacentRay(p.state.grip) ==> Movement.FlatAdjacentRay(r.state.grip)
    ensures p.state.grip.findWallLoopCount == 0 ==> r.state.grip.findWallLoopCount == 0
  {
    var u := p.state;
    if u.isClimbing then
      var g := Movement.RefreshContact(u.grip, o.wallHit, o.position.y);
      var m := Movement.ClimbMovement(g, u.isSlipping, o.advancedClimbing, o.keys,
                                      o.climber.enhancedClimbing, o.surroundings);
      assert g.ledgeDirection == LedgeAfterCast(u.grip, o);
      assert !u.isSlipping && !o.advancedClimbing ==> m.move == Movement.Climb(SimpleClimb(g.ledgeDirection, o));
      TickResult(u.(grip := m.grip), false, u.isSlipping, p.messageShown, p.skillChecks, Some(m.move))
    else
      TickResult(u, false, o.falling, p.messageShown, p.skillChecks, None)
  }

  /** A run of ticks: the final state, the HUD messages emitted and the aborts. */
  datatype RunResult = RunResult(state: ClimbState, messages: nat, aborts: nat)

  function Run(s: ClimbState, obs: seq<Observation>): RunResult
    decreases |obs|
  {
    if |obs| == 0 then RunResult(s, 0, 0)
    else
      var t := Tick(s, obs[0]);
      var rest := Run(t.state, obs[1..]);
      RunResult(rest.state, rest.messages + (if t.messageShown then 1 else 0),
                rest.aborts + (if t.aborted then 1 else 0))
  }

  lemma InitIsValid()
    ensures Valid(Init())
  {
  }

  /** Every state a run reaches from a valid one is valid. */
  lemma {:induction false} RunPreservesValid(s: ClimbState, obs: seq<Observation>)
    requires Valid(s)
    ensures Valid(Run(s, obs).state)
    decreases |obs|
  {
    if |obs| > 0 {
      RunPreservesValid(Tick(s, obs[0]).state, obs[1..]);
    }
  }

  /** The climbing-mode message is emitted at most once per attempt: over any
      run, no more messages than aborts plus one for a fresh start. */
  lemma {:induction false} AtMostOneMessagePerAttempt(s: ClimbState, obs: seq<Observation>)
    ensures var r := Run(s, obs);
      r.messages + (if r.state.showClimbingModeMessage then 1 else 0)
        <= r.aborts + (if s.showClimbingModeMessage then 1 else 0)
    decreases |obs|
  {
    if |obs| > 0 {
      AtMostOneMessagePerAttempt(Tick(s, obs[0]).state, obs[1..]);
    }
  }

  /** An airborne tick, held against a wall with only strafe-left held, in
      which every roll is 100 and the feet are dry. */
  function FailingAirborneTick(): Observation {
    Observation(
      true, Movement.Keys(false, false, true, false, false, false),
      true, false, false, false, true,
      Vec3(0.0, 0.0, 0.0), 10.0, 1.0,
      SkillGate.Climber(40, false, false, false), 100, 100,
      None, Movement.Surroundings(3.0, false, [], None, false))
  }

  /** The motor reaches slipping without climbing: from the initial state,
      the grasp check fails and resets the start timer while the continue
      timer keeps growing, and the continue check that then fires fails too. */
  lemma SlippingWithoutClimbingIsReachable()
    ensures var r := Run(Init(), [FailingAirborneTick(), FailingAirborneTick(), FailingAirborneTick()]).state;
      !r.isClimbing && r.isSlipping
  {
    var o := FailingAirborneTick();
    var t1 := Tick(Init(), o);
    assert t1.state.climbingStartTimer == 10.0 && t1.state.climbingContinueTimer == 10.0;
    var t2 := Tick(t1.state, o);
    assert !SkillGate.SkillCheck(GraspWallMinChance, o.climber, o.graspRoll);
    assert !t2.state.isClimbing && t2.state.climbingStartTimer == 0.0;
    assert t2.state.climbingContinueTimer == 20.0;
    var t3 := Tick(t2.state, o);
    assert !SkillGate.SkillCheck(ContinueClimbMinChance, o.climber, o.continueRoll);
    assert !t3.state.isClimbing && t3.state.isSlipping;
    assert [o][1..] == [];
    assert Run(t2.state, [o]).state == t3.state;
    assert [o, o][1..] == [o];
    assert Run(t1.state, [o, o]).state == t3.state;
    assert [o, o, o][1..] == [o, o];
    assert Run(Init(), [o, o, o]).state == t3.state;
  }
}
