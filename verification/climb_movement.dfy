/** The per-tick climbing displacement: the simple-mode climb, the
    advanced-mode up/down decision, lateral strafing with the adjacent-wall
    search, and the outside-corner wrap. Engine casts, the line-line
    intersection and the near-parallel test for a non-zero wrap direction
    are inputs; normalisation of directions is not modelled. */
module Movement {
  import opened Geometry
  import opened Optional
  import WallProbe

  /** The wall the climber grips and the corner context around it. */
  datatype Grip = Grip(
    ledgeDirection: Vec3,
    strafeRay: Ray,
    adjacentLedgeDirection: Vec3,
    adjacentWallRay: Ray,
    cornerNormalRay: Ray,
    atOutsideCorner: bool,
    findWallLoopCount: int
  )

  /** The input actions read on a tick. */
  datatype Keys = Keys(forward: bool, backward: bool, left: bool, right: bool,
                       crouch: bool, jump: bool)

  /** What the engine reports around the climber on this tick. */
  datatype Surroundings = Surroundings(
    speed: real,                   // the motor's current speed
    wallAhead: bool,               // a 0.3-unit ray along the ledge direction hits a mesh
    adjacentProbes: seq<WallProbe.Probe>, // what each adjacent-wall probe strikes
    intersection: Option<Vec3>,    // where the strafe ray meets the adjacent wall ray
    wrapParallel: bool             // a non-zero wrap direction is almost parallel to the adjacent wall ray
  )

  /** The displacement handed to the controller: a climbing velocity, or the
      slide down the wall that the fall system's gravity produces. */
  datatype Displacement = Climb(velocity: Vec3) | Slide

  datatype Outcome = Outcome(grip: Grip, move: Displacement, wrapCompleted: bool)

  /** Directions that every later cross product and sum rely on staying flat. */
  predicate FlatAdjacentRay(g: Grip) {
    g.adjacentWallRay.direction.y == 0.0
  }

  /** A corner counts as "at" the climber when the intersection is within this. */
  const CornerTolerance: real := 0.01

  function ClimbingBoost(enhancedClimbing: bool): real {
    if enhancedClimbing then 2.0 else 1.0
  }

  function ClimbScalar(speed: real, enhancedClimbing: bool): real {
    (speed / 3.0) * ClimbingBoost(enhancedClimbing)
  }

  /** GetClimbedWallInfo after its cast: a hit makes the wall's inward
      direction the ledge direction and re-anchors the strafe ray at the
      hit, raised to the controller's height. */
  function RefreshContact(g: Grip, hit: Option<WallProbe.WallHit>, height: real): (g': Grip)
    ensures hit.None? ==> g' == g
    ensures hit.Some? ==>
      && g'.ledgeDirection == Neg(hit.value.normal)
      && Horizontal(g'.strafeRay.origin) == Horizontal(hit.value.point)
      && g'.strafeRay.origin.y == height
      && g'.strafeRay.direction == hit.value.normal
    // only the ledge direction and the strafe ray change; the corner context is kept
    ensures g'.(ledgeDirection := g.ledgeDirection, strafeRay := g.strafeRay) == g
  {
    match hit
    case None => g
    case Some(h) =>
      g.(ledgeDirection := Neg(h.normal),
         strafeRay := Ray(Vec3(h.point.x, height, h.point.z), h.normal))
  }

  /** Advanced mode climbs up unless at an outside corner, or unless the
      forward key is released while a mesh wall is right ahead. */
  predicate UpGranted(g: Grip, keys: Keys, env: Surroundings) {
    !g.atOutsideCorner && (keys.forward || !env.wallAhead)
  }

  /** The advanced-mode vertical motion: up at the climb scalar when granted,
      otherwise down on the backward key, otherwise none. */
  function Vertical(g: Grip, keys: Keys, env: Surroundings, scalar: real): (v: real)
    ensures !g.atOutsideCorner && (keys.forward || !env.wallAhead) ==> v == scalar
    ensures g.atOutsideCorner || (!keys.forward && env.wallAhead) ==>
      v == (if keys.backward then -scalar else 0.0)
  {
    if UpGranted(g, keys, env) then scalar
    else if keys.backward then -scalar
    else 0.0
  }

  /** The strafe step while left or right is held. */
  datatype Strafe = Strafe(grip: Grip, step: Vec3, wrapCompleted: bool)

  /** What the intersection of the strafe ray and the adjacent wall ray says
      about the corner: whether the climber stands at it, the direction to
      wrap around it, and the ray along its diagonal normal. */
  datatype Corner = Corner(atOutsideCorner: bool, wrapDirection: Vec3, cornerNormalRay: Ray)

  function DetectCorner(g: Grip, adjacentLedge: Vec3, strafeOrigin: Vec3, right: bool,
                        intersection: Option<Vec3>): (c: Corner)
    ensures c.wrapDirection.y == 0.0
    ensures intersection.None? ==> c == Corner(g.atOutsideCorner, Zero, g.cornerNormalRay)
    ensures intersection.Some? ==>
      && (c.atOutsideCorner <==> ShorterThan(Sub(strafeOrigin, intersection.value), CornerTolerance))
      && c.cornerNormalRay == Ray(intersection.value, Sub(Neg(g.ledgeDirection), adjacentLedge))
    ensures !c.atOutsideCorner ==> c.wrapDirection == Zero
    // at a corner the wrap runs across the corner normal, along the sum of
    // the strafe directions on the gripped wall and on the adjacent one
    ensures intersection.Some? && c.atOutsideCorner ==>
      c.wrapDirection == Add(StrafeDirection(g.ledgeDirection, right), StrafeDirection(adjacentLedge, right))
    ensures HDot(c.wrapDirection, c.cornerNormalRay.direction) == 0.0
  {
    match intersection
    case None => Corner(g.atOutsideCorner, Zero, g.cornerNormalRay)
    case Some(p) =>
      var orthogonal := Sub(Neg(g.ledgeDirection), adjacentLedge);
      var near := ShorterThan(Sub(strafeOrigin, p), CornerTolerance);
      CrossUpIsHorizontal(orthogonal);
      var wrap := if !near then Zero else if right then Cross(orthogonal, Up) else Cross(Up, orthogonal);
      Corner(near, wrap, Ray(p, orthogonal))
  }

  /** Wrapping right and wrapping left around the same corner run in opposite directions. */
  lemma WrapSidesOpposite(g: Grip, adjacentLedge: Vec3, strafeOrigin: Vec3, intersection: Option<Vec3>)
    ensures var r := DetectCorner(g, adjacentLedge, strafeOrigin, true, intersection);
      var l := DetectCorner(g, adjacentLedge, strafeOrigin, false, intersection);
      r.wrapDirection == Neg(l.wrapDirection)
      && r.atOutsideCorner == l.atOutsideCorner && r.cornerNormalRay == l.cornerNormalRay
  {
    var r := DetectCorner(g, adjacentLedge, strafeOrigin, true, intersection);
    var l := DetectCorner(g, adjacentLedge, strafeOrigin, false, intersection);
    assert r.atOutsideCorner == l.atOutsideCorner;
    assert r.cornerNormalRay == l.cornerNormalRay;
    if intersection.Some? && r.atOutsideCorner {
      StrafeSidesOpposite(g.ledgeDirection, true);
      StrafeSidesOpposite(adjacentLedge, true);
      assert r.wrapDirection == Neg(l.wrapDirection);
    } else {
      assert r.wrapDirection == Neg(l.wrapDirection);
    }
  }

  /** The adjacent-wall search a strafe runs: it sweeps clockwise when moving left. */
  function StrafeSearch(g: Grip, keys: Keys, env: Surroundings): WallProbe.Search {
    WallProbe.AdjacentWallSearch(env.adjacentProbes, g.findWallLoopCount, keys.left,
                                 g.adjacentLedgeDirection, g.adjacentWallRay)
  }

  /** The strafe step while left or right is held. Right wins when both are
      held for the step direction, and left for the sense of the search. */
  function Lateral(g: Grip, keys: Keys, env: Surroundings, scalar: real): (s: Strafe)
    requires keys.left || keys.right
    ensures FlatAdjacentRay(g) ==> FlatAdjacentRay(s.grip) && s.step.y == 0.0
    ensures g.findWallLoopCount == 0 ==> s.grip.findWallLoopCount == 0
    ensures s.wrapCompleted ==>
      && s.grip.ledgeDirection == s.grip.adjacentLedgeDirection
      && !s.grip.atOutsideCorner
      && s.step == Scale(Neg(s.grip.adjacentWallRay.direction), scalar)
    ensures !s.wrapCompleted ==> s.grip.ledgeDirection == g.ledgeDirection
    ensures s.grip.atOutsideCorner ==> env.intersection.Some? || g.atOutsideCorner
  {
    var check := if keys.right then Cross(Up, g.ledgeDirection) else Cross(g.ledgeDirection, Up);
    CrossUpIsHorizontal(g.ledgeDirection);
    var strafe := Ray(g.strafeRay.origin, check);
    var found := StrafeSearch(g, keys, env);
    var adjLedge, adjRay := found.adjacentLedgeDirection, found.adjacentWallRay;
    var c := DetectCorner(g, adjLedge, strafe.origin, keys.right, env.intersection);
    var parallel := c.wrapDirection == Zero || env.wrapParallel;
    var g1 := g.(strafeRay := strafe, adjacentLedgeDirection := adjLedge, adjacentWallRay := adjRay,
                 cornerNormalRay := c.cornerNormalRay, findWallLoopCount := found.loopCount);
    if c.atOutsideCorner && parallel then
      Strafe(g1.(ledgeDirection := adjLedge, atOutsideCorner := false),
             Scale(Neg(adjRay.direction), scalar), true)
    else
      Strafe(g1.(atOutsideCorner := c.atOutsideCorner),
             Scale(if c.atOutsideCorner then c.wrapDirection else check, scalar), false)
  }

  /** Which way a strafe step goes, and when it completes a wrap. */
  lemma LateralDirections(g: Grip, keys: Keys, env: Surroundings, scalar: real)
    requires keys.left || keys.right
    // the strafe ray is re-aimed sideways along the gripped wall
    ensures Lateral(g, keys, env, scalar).grip.strafeRay
         == Ray(g.strafeRay.origin, StrafeDirection(g.ledgeDirection, keys.right))
    // the corner context comes from this step's search and intersection
    ensures var s := Lateral(g, keys, env, scalar);
      var found := StrafeSearch(g, keys, env);
      var c := DetectCorner(g, found.adjacentLedgeDirection, g.strafeRay.origin, keys.right, env.intersection);
      && s.grip.adjacentLedgeDirection == found.adjacentLedgeDirection
      && s.grip.adjacentWallRay == found.adjacentWallRay
      && s.grip.cornerNormalRay == c.cornerNormalRay
      && (s.wrapCompleted <==> c.atOutsideCorner && (c.wrapDirection == Zero || env.wrapParallel))
      && (!s.wrapCompleted ==> s.grip.atOutsideCorner == c.atOutsideCorner)
      // a wrap onto a wall found by this search keeps going the way the search swept
      && (s.wrapCompleted && found.found ==>
            s.step == Scale(StrafeDirection(s.grip.ledgeDirection, !keys.left), scalar))
    // off the corner the step runs along the wall, perpendicular to the ledge direction
    ensures var s := Lateral(g, keys, env, scalar);
      !s.wrapCompleted && !s.grip.atOutsideCorner ==>
        && s.step == Scale(StrafeDirection(g.ledgeDirection, keys.right), scalar)
        && HDot(s.step, g.ledgeDirection) == 0.0
    // at the corner the step follows the wrap direction
    ensures var s := Lateral(g, keys, env, scalar);
      s.grip.atOutsideCorner ==>
        s.step == Scale(Add(StrafeDirection(g.ledgeDirection, keys.right),
                            StrafeDirection(s.grip.adjacentLedgeDirection, keys.right)), scalar)
  {
    var found := StrafeSearch(g, keys, env);
    CrossUpIsHorizontal(g.ledgeDirection);
    ScalePerpendicular(StrafeDirection(g.ledgeDirection, keys.right), g.ledgeDirection, scalar);
    StrafeSidesOpposite(found.adjacentLedgeDirection, keys.left);
  }

  /** Away from any corner, strafing right steps exactly opposite to
      strafing left. */
  lemma StrafeSidesMirror(g: Grip, keys: Keys, env: Surroundings, scalar: real)
    requires !g.atOutsideCorner && env.intersection.None?
    ensures Lateral(g, keys.(left := false, right := true), env, scalar).step
         == Neg(Lateral(g, keys.(left := true, right := false), env, scalar).step)
  {
    StrafeSidesOpposite(g.ledgeDirection, true);
  }

  /** Every adjacent-wall probe of this tick misses or strikes a non-mesh collider. */
  predicate NoAdjacentWall(env: Surroundings) {
    forall j :: 0 <= j < |env.adjacentProbes| ==> !WallProbe.Accepted(env.adjacentProbes[j])
  }

  /** The result of the adjacent-wall search is never consulted: when every
      probe fails, a climber already at an outside corner still completes
      the wrap, onto the adjacent wall remembered from an earlier search. */
  lemma FailedSearchStillWraps(g: Grip, keys: Keys, env: Surroundings, scalar: real)
    requires keys.left || keys.right
    requires g.atOutsideCorner && NoAdjacentWall(env) && env.intersection.None?
    ensures !WallProbe.AdjacentWallSearch(env.adjacentProbes, g.findWallLoopCount, keys.left,
                                          g.adjacentLedgeDirection, g.adjacentWallRay).found
    ensures var s := Lateral(g, keys, env, scalar);
      && s.wrapCompleted
      && s.grip.ledgeDirection == g.adjacentLedgeDirection
      && s.grip.adjacentWallRay == g.adjacentWallRay
  {
  }

  /** Likewise, when every probe fails but the remembered adjacent wall ray
      meets the strafe ray at the climber, the corner is detected: the
      climber enters the corner or completes the wrap in the same step. */
  lemma FailedSearchStillFindsCorner(g: Grip, keys: Keys, env: Surroundings, scalar: real)
    requires keys.left || keys.right
    requires NoAdjacentWall(env) && env.intersection == Some(g.strafeRay.origin)
    ensures var s := Lateral(g, keys, env, scalar);
      && (s.grip.atOutsideCorner || s.wrapCompleted)
      && s.grip.cornerNormalRay
         == Ray(g.strafeRay.origin, Sub(Neg(g.ledgeDirection), g.adjacentLedgeDirection))
  {
    SearchFailsWithoutWall(env, g.findWallLoopCount, keys.left, g.adjacentLedgeDirection, g.adjacentWallRay);
    LateralDirections(g, keys, env, scalar);
    assert Sub(g.strafeRay.origin, g.strafeRay.origin) == Zero;
    assert DetectCorner(g, g.adjacentLedgeDirection, g.strafeRay.origin, keys.right, env.intersection).atOutsideCorner;
  }

  /** With no acceptable probe, the search fails and keeps the old adjacent wall. */
  lemma SearchFailsWithoutWall(env: Surroundings, count: int, searchClockwise: bool,
                               ledge: Vec3, ray: Ray)
    requires NoAdjacentWall(env)
    ensures var r := WallProbe.AdjacentWallSearch(env.adjacentProbes, count, searchClockwise, ledge, ray);
      !r.found && r.adjacentLedgeDirection == ledge && r.adjacentWallRay == ray
  {
  }

  /** A strafing step's outcome: the strafe step, the vertical motion up,
      and the push toward the wall along the ledge direction the strafe
      leaves in force, so after a wrap the push goes into the new wall. */
  function StrafingOutcome(s: Strafe, up: real, speed: real): (o: Outcome)
    ensures o.grip == s.grip && o.wrapCompleted == s.wrapCompleted && o.move.Climb?
    ensures o.move.velocity.x == s.step.x + s.grip.ledgeDirection.x * speed
    ensures o.move.velocity.z == s.step.z + s.grip.ledgeDirection.z * speed
    ensures o.move.velocity.y == up + s.step.y
  {
    var ledge := s.grip.ledgeDirection;
    Outcome(s.grip, Climb(Vec3(s.step.x + ledge.x * speed, up + s.step.y, s.step.z + ledge.z * speed)), s.wrapCompleted)
  }

  /** ClimbMovement for a climber that is already attached to the wall. */
  function ClimbMovement(g: Grip, slipping: bool, advanced: bool, keys: Keys,
                         enhancedClimbing: bool, env: Surroundings): (o: Outcome)
    // a slipping climber only slides; nothing about the grip changes
    ensures slipping ==> o.grip == g && o.move == Slide && !o.wrapCompleted
    ensures !slipping ==> o.move.Climb?
    // simple mode: straight into the wall at speed, up at the climb scalar
    ensures !slipping && !advanced ==>
      && o.grip == g
      && o.move.velocity == Vec3(g.ledgeDirection.x * env.speed,
                                 ClimbScalar(env.speed, enhancedClimbing),
                                 g.ledgeDirection.z * env.speed)
    // advanced mode: every vertical motion comes from the up/down decision
    ensures !slipping && advanced && FlatAdjacentRay(g) ==>
      o.move.velocity.y == Vertical(g, keys, env, ClimbScalar(env.speed, enhancedClimbing))
    ensures !slipping && advanced && FlatAdjacentRay(g) && g.atOutsideCorner ==>
      o.move.velocity.y == (if keys.backward then -ClimbScalar(env.speed, enhancedClimbing) else 0.0)
    // while strafing, the horizontal motion is the strafe step plus the push
    // toward the wall along the ledge direction in force after any wrap
    ensures !slipping && advanced && (keys.left || keys.right) ==>
      o == StrafingOutcome(Lateral(g, keys, env, ClimbScalar(env.speed, enhancedClimbing)),
                           Vertical(g, keys, env, ClimbScalar(env.speed, enhancedClimbing)), env.speed)
    ensures !slipping && advanced && FlatAdjacentRay(g) && !(keys.left || keys.right) ==>
      o.move.velocity == Vec3(g.ledgeDirection.x * env.speed,
                              Vertical(g, keys, env, ClimbScalar(env.speed, enhancedClimbing)),
                              g.ledgeDirection.z * env.speed)
    // only strafing touches the grip
    ensures !(advanced && !slipping && (keys.left || keys.right)) ==> o.grip == g && !o.wrapCompleted
    ensures o.wrapCompleted ==>
      o.grip.ledgeDirection == o.grip.adjacentLedgeDirection && !o.grip.atOutsideCorner
    ensures FlatAdjacentRay(g) ==> FlatAdjacentRay(o.grip)
    ensures g.findWallLoopCount == 0 ==> o.grip.findWallLoopCount == 0
    ensures o.grip.atOutsideCorner ==> env.intersection.Some? || g.atOutsideCorner
  {
    if slipping then
      Outcome(g, Slide, false)
    else
      var scalar := ClimbScalar(env.speed, enhancedClimbing);
      if !advanced then
        Outcome(g, Climb(Vec3(g.ledgeDirection.x * env.speed, scalar, g.ledgeDirection.z * env.speed)), false)
      else
        var up := Vertical(g, keys, env, scalar);
        if keys.left || keys.right then
          StrafingOutcome(Lateral(g, keys, env, scalar), up, env.speed)
        else
          Outcome(g, Climb(Vec3(g.ledgeDirection.x * env.speed, up, g.ledgeDirection.z * env.speed)), false)
  }

  /** The climb scalar is proportional to the motor's speed. */
  lemma ClimbScalarLinear(k: real, speed: real, enhancedClimbing: bool)
    ensures ClimbScalar(k * speed, enhancedClimbing) == k * ClimbScalar(speed, enhancedClimbing)
  {
    var b := ClimbingBoost(enhancedClimbing);
    assert (k * speed) / 3.0 == k * (speed / 3.0);
    assert ((k * speed) / 3.0) * b == k * ((speed / 3.0) * b);
  }

  /** With speed 3 and no enhancement, simple mode climbs one unit per
      second and presses into the wall at three times the ledge direction. */
  lemma SimpleModeAtSpeedThree(g: Grip, keys: Keys, env: Surroundings)
    requires env.speed == 3.0
    ensures ClimbMovement(g, false, false, keys, false, env).move.velocity
         == Vec3(g.ledgeDirection.x * 3.0, 1.0, g.ledgeDirection.z * 3.0)
  {
  }

  /** The enhanced-climbing effect doubles the vertical climb in both modes. */
  lemma EnhancementDoublesClimb(g: Grip, advanced: bool, keys: Keys, env: Surroundings)
    requires FlatAdjacentRay(g)
    ensures ClimbMovement(g, false, advanced, keys, true, env).move.velocity.y
         == 2.0 * ClimbMovement(g, false, advanced, keys, false, env).move.velocity.y
  {
  }

  /** Once a wrap completes, the climber is no longer at an outside corner,
      so the next tick cannot complete a wrap again unless a fresh
      intersection puts it back at one. */
  lemma WrapDoesNotRetrigger(g: Grip, keys: Keys, enhancedClimbing: bool, env: Surroundings,
                             env': Surroundings)
    requires ClimbMovement(g, false, true, keys, enhancedClimbing, env).wrapCompleted
    requires env'.intersection.None?
    ensures var g' := ClimbMovement(g, false, true, keys, enhancedClimbing, env).grip;
      var o := ClimbMovement(g', false, true, keys, enhancedClimbing, env');
      !o.wrapCompleted && !o.grip.atOutsideCorner && o.grip.ledgeDirection == g'.ledgeDirection
  {
  }
}
