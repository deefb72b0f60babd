/** The adjacent-wall search used while strafing near a corner: up to three
    ray probes, each accepted only when it strikes an environment mesh.
    Where each probe points is floating-point geometry outside this model;
    what probe number i strikes is an oracle. */
module WallProbe {
  import opened Geometry

  /** What one ray probe strikes. */
  datatype Probe = Miss | Hit(point: Vec3, normal: Vec3, meshCollider: bool)

  /** What the forward capsule cast at the gripped wall strikes. */
  datatype WallHit = WallHit(point: Vec3, normal: Vec3)

  /** Probe i of a search; probes past the end of the oracle miss. */
  function ProbeAt(probes: seq<Probe>, i: nat): Probe {
    if i < |probes| then probes[i] else Miss
  }

  /** A hit counts only on a mesh collider, which filters out non-wall colliders. */
  predicate Accepted(p: Probe) {
    p.Hit? && p.meshCollider
  }

  /** The recursion gives up once the shared counter reaches this. */
  const ProbeLimit: int := 3

  /** The outcome of a search: whether a wall was found, how many probes
      were cast in all, the shared counter on return, and the adjacent-wall
      fields (unchanged on a miss). */
  datatype Search = Search(
    found: bool,
    cast: nat,
    loopCount: int,
    adjacentLedgeDirection: Vec3,
    adjacentWallRay: Ray
  )

  /** The ray along the found wall face. It runs the way a climber facing
      that wall would strafe right when the search turns clockwise, left
      otherwise; it lies in the wall's face and is as long as the normal's
      horizontal part, so it is never zero for a wall that is not flat. */
  function AdjacentWallRay(point: Vec3, normal: Vec3, searchClockwise: bool): (r: Ray)
    ensures r.origin == point && r.direction.y == 0.0
    ensures r.direction == StrafeDirection(Neg(normal), searchClockwise)
    ensures HDot(r.direction, normal) == 0.0
    ensures SqLen(r.direction) == normal.x * normal.x + normal.z * normal.z
  {
    CrossUpIsHorizontal(normal);
    if searchClockwise then Ray(point, Cross(normal, Up)) else Ray(point, Cross(Up, normal))
  }

  /** The two senses of search give rays along the same face in opposite directions. */
  lemma AdjacentWallRaySensesOpposite(point: Vec3, normal: Vec3)
    ensures AdjacentWallRay(point, normal, true).direction
         == Neg(AdjacentWallRay(point, normal, false).direction)
  {
  }

  /** How many probes a search may cast when the shared counter starts at count. */
  function Budget(count: int): nat {
    if count < ProbeLimit - 1 then ProbeLimit - count else 1
  }

  /** GetAdjacentWallInfo as written, recursion and all: probe i with the counter at count;
      a miss bumps the counter and recurses while it is below the limit. */
  function SearchFrom(probes: seq<Probe>, i: nat, count: int, searchClockwise: bool,
                      ledge: Vec3, ray: Ray): (r: Search)
    decreases if count < ProbeLimit then ProbeLimit - count else 0
    ensures r.loopCount == 0
    ensures i + 1 <= r.cast <= i + Budget(count)
    ensures forall j :: i <= j < r.cast - 1 ==> !Accepted(ProbeAt(probes, j))
    ensures r.found ==>
      var p := ProbeAt(probes, r.cast - 1);
      && Accepted(p)
      && r.adjacentLedgeDirection == Neg(p.normal)
      && r.adjacentWallRay == AdjacentWallRay(p.point, p.normal, searchClockwise)
    ensures !r.found ==>
      && r.cast == i + Budget(count)
      && !Accepted(ProbeAt(probes, r.cast - 1))
      && r.adjacentLedgeDirection == ledge && r.adjacentWallRay == ray
  {
    var p := ProbeAt(probes, i);
    if Accepted(p) then
      Search(true, i + 1, 0, Neg(p.normal), AdjacentWallRay(p.point, p.normal, searchClockwise))
    else if count + 1 < ProbeLimit then
      SearchFrom(probes, i + 1, count + 1, searchClockwise, ledge, ray)
    else
      Search(false, i + 1, 0, ledge, ray)
  }

  /** GetAdjacentWallInfo entered with the shared counter at count. */
  function AdjacentWallSearch(probes: seq<Probe>, count: int, searchClockwise: bool,
                              ledge: Vec3, ray: Ray): (r: Search)
    ensures r.loopCount == 0
    ensures r.found ==> r.adjacentWallRay.direction.y == 0.0
    ensures r.found ==>
      r.adjacentWallRay.direction == StrafeDirection(r.adjacentLedgeDirection, searchClockwise)
    ensures !r.found ==> r.adjacentLedgeDirection == ledge && r.adjacentWallRay == ray
  {
    SearchFrom(probes, 0, count, searchClockwise, ledge, ray)
  }

  /** Entered with the counter at 0, as every earlier return leaves it, the
      search casts at most three probes and finds a wall exactly when one of
      the first three strikes a mesh; it adopts the first such one. */
  lemma FreshSearchIsBounded(probes: seq<Probe>, searchClockwise: bool, ledge: Vec3, ray: Ray)
    ensures var r := AdjacentWallSearch(probes, 0, searchClockwise, ledge, ray);
      && 1 <= r.cast <= 3
      && r.loopCount == 0
      && (r.found <==> exists j :: 0 <= j < 3 && Accepted(ProbeAt(probes, j)))
      && (r.found ==> forall j :: 0 <= j < r.cast - 1 ==> !Accepted(ProbeAt(probes, j)))
  {
    var r := AdjacentWallSearch(probes, 0, searchClockwise, ledge, ray);
    if !r.found {
      forall j | 0 <= j < 3
        ensures !Accepted(ProbeAt(probes, j))
      {
        if j == 2 { assert r.cast - 1 == 2; }
      }
    }
  }

  /** The search written as the explicit bounded loop it amounts to. */
  method FindAdjacentWall(probes: seq<Probe>, count: int, searchClockwise: bool,
                          ledge: Vec3, ray: Ray) returns (r: Search)
    ensures r == AdjacentWallSearch(probes, count, searchClockwise, ledge, ray)
    ensures r.loopCount == 0 && 1 <= r.cast <= Budget(count)
  {
    var k: nat := 0;
    var c := count;
    while true
      invariant c == count + k
      invariant SearchFrom(probes, k, c, searchClockwise, ledge, ray)
             == AdjacentWallSearch(probes, count, searchClockwise, ledge, ray)
      decreases if c < ProbeLimit then ProbeLimit - c else 0
    {
      var p := ProbeAt(probes, k);
      if Accepted(p) {
        r := Search(true, k + 1, 0, Neg(p.normal), AdjacentWallRay(p.point, p.normal, searchClockwise));
        return;
      }
      if c + 1 >= ProbeLimit {
        r := Search(false, k + 1, 0, ledge, ray);
        return;
      }
      c := c + 1;
      k := k + 1;
    }
  }
}
