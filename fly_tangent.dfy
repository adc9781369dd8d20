/** Flying the camera along a route with the camera aimed along it (lib/fly_tangent.ts), as a
    one-dimensional machine over the distance along the route. The route geometry and map
    projection are the parameters in `Geo`; clock readings and animation frames are explicit. */
module FlyTangent {
  import opened Common

  /** The route's geometry, from the geometry library and the map projection. */
  datatype Geo = Geo(
    /** `turf.length(route)` in kilometres. */
    routeLength: real,
    /** The route's first coordinate. */
    first: Coord,
    /** `turf.along(route, d)` */
    along: real -> Coord,
    /** `turf.nearestPointOnLine(route, p).properties.location` */
    snap: Coord -> real,
    /** `MercatorCoordinate.fromLngLat` */
    mercator: Coord -> Coord,
    /** `Math.hypot` */
    hypot: (real, real) -> real,
    /** `meterInMercatorCoordinateUnits()` near the route. */
    unitsPerMeter: real)

  /** A route of positive length, snapping onto itself, a Euclidean `hypot`, and a positive
      scale. */
  ghost predicate GeoValid(g: Geo)
  {
    && g.routeLength > 0.0
    && g.unitsPerMeter > 0.0
    && (forall c :: 0.0 <= g.snap(c) <= g.routeLength)
    && (forall x, y :: g.hypot(x, y) >= 0.0 && g.hypot(x, y) * g.hypot(x, y) == x * x + y * y)
  }

  /** The default camera altitude and distance of a route, in metres. */
  const DefaultAltitude: real := 500.0
  const DefaultDistance: real := 500.0
  /** Kilometres per millisecond. */
  const Speed: real := 0.0001

  /** Calls on the map made by one step of the flight. */
  datatype MapAction =
    | SetPoint(at: Coord)
    | JumpTo(camera: Coord, altitude: real, lookAt: Coord)
    | ShiftCenter(yOffset: real)

  // ---------------------------------------------------------------------------
  // Distance along the route

  /** JavaScript's truncating conversion toward zero. */
  function Trunc(x: real): int
  {
    if x >= 0.0 then x.Floor else -((-x).Floor)
  }

  /** JavaScript's `%` on numbers: the remainder takes the sign of the dividend. */
  function JsRem(x: real, m: real): real
    requires m > 0.0
  {
    x - m * (Trunc(x / m) as real)
  }

  /** A non-negative distance wraps into [0, m), and one already there is kept. */
  lemma JsRemRange(x: real, m: real)
    requires m > 0.0 && x >= 0.0
    ensures 0.0 <= JsRem(x, m) < m
    ensures x < m ==> JsRem(x, m) == x
  {
    var q := x / m;
    QuotientCompare(x, m, 0.0);
    QuotientCompare(x, m, 1.0);
    assert Trunc(q) == q.Floor;
    FloorRemainder(x, m, q, q.Floor as real);
  }

  lemma FloorRemainder(x: real, m: real, q: real, t: real)
    requires m > 0.0 && q == x / m && t <= q < t + 1.0
    ensures 0.0 <= x - m * t < m
  {
    assert x == q * m;
    assert x - m * t == (q - t) * m;
    ProductNonNegative(q - t, m);
    var room := t + 1.0 - q;
    PositiveProduct(room, m);
    assert m - (x - m * t) == room * m;
  }

  /** Whether a stop distance is configured: `stopDistance !== null`. */
  predicate HasStop(stop: Option<real>)
  {
    stop.Some?
  }

  /** The direction of flight: backwards when the stop lies before the start. */
  function Direction(start: real, stop: Option<real>): int
  {
    if HasStop(stop) && stop.value < start then -1 else 1
  }

  /** The distance along the route after `elapsed` milliseconds: a flight without a stop loops,
      wrapping at the route's end. */
  function CurrentDistance(start: real, elapsed: real, stop: Option<real>, routeLength: real): real
    requires routeLength > 0.0
  {
    var d := start + elapsed * Speed * (Direction(start, stop) as real);
    if HasStop(stop) then d else JsRem(d, routeLength)
  }

  /** The stop test: the distance has reached or passed the stop in the flight direction. */
  predicate PastStop(current: real, direction: int, stop: Option<real>)
  {
    stop.Some? && ((direction > 0 && current >= stop.value) || (direction < 0 && current <= stop.value))
  }

  /** A flight with a stop ends exactly when the distance travelled covers the gap between start
      and stop, in either direction; so once ended it stays ended. */
  lemma FlightEndsAtStop(start: real, stop: real, elapsed: real, routeLength: real)
    requires routeLength > 0.0
    ensures var cur := CurrentDistance(start, elapsed, Some(stop), routeLength);
      PastStop(cur, Direction(start, Some(stop)), Some(stop)) <==>
        elapsed * Speed >= (if stop < start then start - stop else stop - start)
  {
  }

  /** A flight without a stop stays on the route: its distance lies in [0, length). */
  lemma LoopStaysOnRoute(start: real, elapsed: real, routeLength: real)
    requires routeLength > 0.0 && start >= 0.0 && elapsed >= 0.0
    ensures 0.0 <= CurrentDistance(start, elapsed, None, routeLength) < routeLength
    ensures !PastStop(CurrentDistance(start, elapsed, None, routeLength), Direction(start, None), None)
  {
    assert elapsed * Speed >= 0.0;
    JsRemRange(start + elapsed * Speed, routeLength);
  }

  // As written, the source tests the stop distance for truthiness, so a stop at distance 0
  // counts as no stop when choosing the direction and when wrapping, but as a stop when testing
  // whether it has been reached.

  predicate StopTruthy(stop: Option<real>)
  {
    stop.Some? && stop.value != 0.0
  }

  function DirectionAsWritten(start: real, stop: Option<real>): int
  {
    if StopTruthy(stop) && stop.value < start then -1 else 1
  }

  function CurrentDistanceAsWritten(start: real, elapsed: real, stop: Option<real>, routeLength: real): real
    requires routeLength > 0.0
  {
    var d := start + elapsed * Speed * (DirectionAsWritten(start, stop) as real);
    if StopTruthy(stop) then d else JsRem(d, routeLength)
  }

  /** Flying from 5 km back to a stop snapped onto the route's first point: as written, the
      flight goes forward and is over at the first frame, 5 km from the stop; with the null test
      it flies backwards and ends only once it has covered the 5 km. */
  lemma StopAtRouteStart(elapsed: real)
    requires elapsed >= 0.0
    ensures DirectionAsWritten(5.0, Some(0.0)) == 1
    ensures var cur := CurrentDistanceAsWritten(5.0, 0.0, Some(0.0), 10.0);
      cur == 5.0 && PastStop(cur, DirectionAsWritten(5.0, Some(0.0)), Some(0.0))
    ensures Direction(5.0, Some(0.0)) == -1
    ensures PastStop(CurrentDistance(5.0, elapsed, Some(0.0), 10.0), Direction(5.0, Some(0.0)), Some(0.0)) <==>
      elapsed >= 50000.0
  {
    JsRemRange(5.0, 10.0);
    FlightEndsAtStop(5.0, 0.0, elapsed, 10.0);
  }

  // ---------------------------------------------------------------------------
  // Camera

  /** The camera pull: when the camera is farther from the target than the camera distance, it
      moves straight toward the target by the excess (`cos(atan2(dy, dx))` is `dx / gap`; at a
      zero gap `atan2` gives 0 and the move is along x). */
  function CameraPull(camera: Coord, target: Coord, cameraDistance: real, hypot: (real, real) -> real): Coord
  {
    var dx := target.x - camera.x;
    var dy := target.y - camera.y;
    var gap := hypot(dx, dy);
    var delta := gap - cameraDistance;
    if delta <= 0.0 then camera
    else if gap == 0.0 then Coord(camera.x + delta, camera.y)
    else Coord(camera.x + dx / gap * delta, camera.y + dy / gap * delta)
  }

  /** Two non-negative numbers with the same square are equal. */
  lemma SquareRootUnique(a: real, b: real)
    requires a >= 0.0 && b >= 0.0 && a * a == b * b
    ensures a == b
  {
    assert (a - b) * (a + b) == a * a - b * b;
    if a + b != 0.0 {
      assert a - b == ((a - b) * (a + b)) / (a + b);
    }
  }

  lemma PositiveProduct(a: real, b: real)
    requires a > 0.0 && b > 0.0
    ensures a * b > 0.0
  {
  }

  /** `hypot` scales with its arguments. */
  lemma HypotScale(g: Geo, k: real, x: real, y: real)
    requires GeoValid(g) && k >= 0.0
    ensures g.hypot(k * x, k * y) == k * g.hypot(x, y)
  {
    var h := g.hypot(k * x, k * y);
    var h0 := g.hypot(x, y);
    assert h * h == (k * x) * (k * x) + (k * y) * (k * y);
    assert (k * x) * (k * x) + (k * y) * (k * y) == k * k * (x * x + y * y);
    assert h0 * h0 == x * x + y * y;
    assert (k * h0) * (k * h0) == k * k * (h0 * h0);
    ProductNonNegative(k, h0);
    SquareRootUnique(h, k * h0);
  }

  /** What is left of an offset after moving along it by the excess over `cd`. */
  lemma PulledOffset(d: real, gap: real, cd: real)
    requires gap > 0.0
    ensures d - d / gap * (gap - cd) == (cd / gap) * d
  {
    assert d / gap * gap == d;
  }

  /** The camera trails the target: after a step it is never farther away than the camera
      distance, and a camera that was pulled ends exactly at that distance. */
  lemma PullKeepsDistance(g: Geo, camera: Coord, target: Coord, cameraDistance: real)
    requires GeoValid(g) && cameraDistance >= 0.0
    ensures var c := CameraPull(camera, target, cameraDistance, g.hypot);
      g.hypot(target.x - c.x, target.y - c.y) <= cameraDistance
    ensures var c := CameraPull(camera, target, cameraDistance, g.hypot);
      c != camera ==> g.hypot(target.x - c.x, target.y - c.y) == cameraDistance
  {
    var dx := target.x - camera.x;
    var dy := target.y - camera.y;
    var gap := g.hypot(dx, dy);
    var c := CameraPull(camera, target, cameraDistance, g.hypot);
    if gap - cameraDistance > 0.0 {
      var k := cameraDistance / gap;
      QuotientCompare(cameraDistance, gap, 0.0);
      PulledOffset(dx, gap, cameraDistance);
      PulledOffset(dy, gap, cameraDistance);
      assert target.x - c.x == k * dx && target.y - c.y == k * dy;
      HypotScale(g, k, dx, dy);
      assert k * gap == cameraDistance;
    }
  }

  /** Mercator coordinates of the world lie in the unit square, and the initial camera within
      one route-length of it; as written, the default camera distance 500 is taken as Mercator
      units and compared with gaps of at most a few units, so the camera is never pulled. */
  lemma DefaultDistanceNeverPulls(g: Geo, camera: Coord, target: Coord, startDx: real, startDy: real)
    requires GeoValid(g)
    requires -1.0 <= camera.x <= 2.0 && -1.0 <= camera.y <= 2.0
    requires 0.0 <= target.x <= 1.0 && 0.0 <= target.y <= 1.0
    ensures CameraDistanceAsWritten(g, Some(DefaultDistance), startDx, startDy) == DefaultDistance
    ensures CameraPull(camera, target, CameraDistanceAsWritten(g, Some(DefaultDistance), startDx, startDy), g.hypot) == camera
  {
    var dx := target.x - camera.x;
    var dy := target.y - camera.y;
    var gap := g.hypot(dx, dy);
    ProductNonNegative(2.0 - dx, 2.0 + dx);
    ProductNonNegative(2.0 - dy, 2.0 + dy);
    assert dx * dx <= 4.0 && dy * dy <= 4.0;
    assert gap * gap <= 8.0;
    if gap > 3.0 {
      ProductNonNegative(gap - 3.0, gap + 3.0);
      assert (gap - 3.0) * (gap + 3.0) == gap * gap - 9.0;
      PositiveProduct(gap - 3.0, gap + 3.0);
    }
  }

  /** The camera distance: the configured distance in metres, in Mercator units, or, when it
      is null, the length of the initial offset. */
  function CameraDistance(g: Geo, distance: Option<real>, dx: real, dy: real): real
  {
    match distance
    case Some(d) => d * g.unitsPerMeter
    case None => g.hypot(dx, dy)
  }

  /** The camera distance as written takes the configured value as Mercator units. */
  function CameraDistanceAsWritten(g: Geo, distance: Option<real>, dx: real, dy: real): real
  {
    match distance
    case Some(d) => d
    case None => g.hypot(dx, dy)
  }

  /** With the distance converted, a target farther away than the default distance pulls the
      camera, which then trails it at exactly that distance. */
  lemma ConvertedDistanceTrails(g: Geo, camera: Coord, target: Coord, dx: real, dy: real)
    requires GeoValid(g)
    requires g.hypot(target.x - camera.x, target.y - camera.y) > CameraDistance(g, Some(DefaultDistance), dx, dy)
    ensures CameraDistance(g, Some(DefaultDistance), dx, dy) == DefaultDistance * g.unitsPerMeter
    ensures var c := CameraPull(camera, target, CameraDistance(g, Some(DefaultDistance), dx, dy), g.hypot);
      c != camera && g.hypot(target.x - c.x, target.y - c.y) == CameraDistance(g, Some(DefaultDistance), dx, dy)
  {
    var cd := CameraDistance(g, Some(DefaultDistance), dx, dy);
    ProductNonNegative(DefaultDistance, g.unitsPerMeter);
    var ox := target.x - camera.x;
    var oy := target.y - camera.y;
    var gap := g.hypot(ox, oy);
    var delta := gap - cd;
    var c := CameraPull(camera, target, cd, g.hypot);
    assert gap > 0.0;
    PositiveProduct(gap, gap);
    assert ox * ox + oy * oy > 0.0;
    if ox != 0.0 {
      NonZeroProduct(ox / gap, delta);
      assert c.x != camera.x;
    } else {
      assert oy != 0.0;
      NonZeroProduct(oy / gap, delta);
      assert c.y != camera.y;
    }
    PullKeepsDistance(g, camera, target, cd);
  }

  lemma NonZeroProduct(a: real, b: real)
    requires a != 0.0 && b != 0.0
    ensures a * b != 0.0
  {
  }

  // ---------------------------------------------------------------------------
  // The controller

  /** Where `#init` places the camera: behind the route's first point, opposite the point a
      quarter along the route, in Mercator units. */
  function BehindStart(g: Geo): Coord
  {
    var a := g.mercator(g.first);
    var b := g.mercator(g.along(g.routeLength / 4.0));
    Coord(a.x - (b.x - a.x), a.y - (b.y - a.y))
  }

  class Route {
    const geo: Geo
    const altitude: real
    /** `#camera.distance` */
    const cameraDistance: real
    /** `#camera.coord`, in Mercator units. */
    var camera: Coord
    var startTime: real
    var startCoord: Option<Coord>
    var stopCoord: Option<Coord>
    var startDistance: real
    var stopDistance: Option<real>
    var reached: bool
    var direction: int
    var yOffset: Option<real>
    /** Animation frames requested and not yet run; more than one when `fly` started a second
        loop beside a running one. */
    var pendingFrames: nat
    var actions: seq<MapAction>

    ghost predicate Valid()
      reads this
    {
      && GeoValid(geo) && cameraDistance >= 0.0
      && 0.0 <= startDistance <= geo.routeLength
      && (stopDistance.Some? ==> 0.0 <= stopDistance.value <= geo.routeLength)
      && direction == Direction(startDistance, stopDistance)
      && (reached ==> HasStop(stopDistance))
    }

    /** The step of a frame that has not reached the stop: where the flight is and what it does. */
    function StepActions(pointSource: bool, cur: real, cam: Coord): seq<MapAction>
      reads this
    {
      (if pointSource then [SetPoint(geo.along(cur))] else [])
      + [JumpTo(cam, altitude, geo.along(cur))]
      + (if yOffset.Some? then [ShiftCenter(yOffset.value)] else [])
    }

    /** The constructor and `#init`: the camera is placed behind the route's start, opposite the
        point a quarter along it, and the map jumps there. */
    constructor (geo: Geo, altitude: real, distance: Option<real>)
      requires GeoValid(geo)
      requires distance.Some? ==> distance.value >= 0.0
      ensures Valid() && this.geo == geo && this.altitude == altitude
      ensures var a := geo.mercator(geo.first);
        var b := geo.mercator(geo.along(geo.routeLength / 4.0));
        && camera == BehindStart(geo)
        && cameraDistance == CameraDistance(geo, distance, b.x - a.x, b.y - a.y)
      ensures actions == [JumpTo(camera, altitude, geo.first)]
      ensures !reached && pendingFrames == 0 && yOffset.None? && startCoord.None? && stopCoord.None?
    {
      var a := geo.mercator(geo.first);
      var b := geo.mercator(geo.along(geo.routeLength / 4.0));
      var dx := b.x - a.x;
      var dy := b.y - a.y;
      this.geo, this.altitude := geo, altitude;
      if distance.Some? {
        ProductNonNegative(distance.value, geo.unitsPerMeter);
      }
      cameraDistance := CameraDistance(geo, distance, dx, dy);
      camera := Coord(a.x - dx, a.y - dy);
      startTime, startCoord, stopCoord, startDistance, stopDistance := 0.0, None, None, 0.0, None;
      reached, direction, yOffset, pendingFrames := false, 1, None, 0;
      actions := [JumpTo(Coord(a.x - dx, a.y - dy), altitude, geo.first)];
    }

    /** `#advance` at clock reading `now`: nothing once the stop was reached; otherwise move the
        marker (when the `point` source exists), pull and aim the camera, shift the centre by the
        vertical offset, and either mark the stop reached or request the next frame. */
    method Advance(now: real, pointSource: bool)
      requires Valid() && now >= startTime
      modifies this`camera, this`reached, this`pendingFrames, this`actions
      ensures Valid()
      ensures old(reached) ==> camera == old(camera) && reached && pendingFrames == old(pendingFrames) && actions == old(actions)
      ensures !old(reached) ==>
        var cur := CurrentDistance(startDistance, now - startTime, stopDistance, geo.routeLength);
        && camera == CameraPull(old(camera), geo.mercator(geo.along(cur)), cameraDistance, geo.hypot)
        && actions == old(actions) + StepActions(pointSource, cur, camera)
        && reached == PastStop(cur, direction, stopDistance)
        && pendingFrames == if reached then old(pendingFrames) else old(pendingFrames) + 1
    {
      if reached {
        return;
      }
      var elapsed := now - startTime;
      var cur := startDistance + elapsed * Speed * (direction as real);
      if !HasStop(stopDistance) {
        cur := JsRem(cur, geo.routeLength);
      }
      assert cur == CurrentDistance(startDistance, elapsed, stopDistance, geo.routeLength);
      var pos := geo.along(cur);
      var pulled := CameraPull(camera, geo.mercator(pos), cameraDistance, geo.hypot);
      var done := stopDistance.Some? && ((direction > 0 && cur >= stopDistance.value) || (direction < 0 && cur <= stopDistance.value));
      camera := pulled;
      actions := actions + StepActions(pointSource, cur, pulled);
      if done {
        reached := true;
        return;
      }
      pendingFrames := pendingFrames + 1;
    }

    /** A requested animation frame runs. */
    method Frame(now: real, pointSource: bool)
      requires Valid() && pendingFrames > 0 && now >= startTime
      modifies this`camera, this`reached, this`pendingFrames, this`actions
      ensures Valid()
      ensures old(reached) ==> camera == old(camera) && reached && pendingFrames == old(pendingFrames) - 1 && actions == old(actions)
      ensures !old(reached) ==>
        var cur := CurrentDistance(startDistance, now - startTime, stopDistance, geo.routeLength);
        && camera == CameraPull(old(camera), geo.mercator(geo.along(cur)), cameraDistance, geo.hypot)
        && actions == old(actions) + StepActions(pointSource, cur, camera)
        && reached == PastStop(cur, direction, stopDistance)
        && pendingFrames == if reached then old(pendingFrames) - 1 else old(pendingFrames)
    {
      pendingFrames := pendingFrames - 1;
      Advance(now, pointSource);
    }

    /** `#start`: reset, snap the start and stop onto the route, choose the direction, and take
        the first step. */
    method Start(now: real, pointSource: bool)
      requires Valid()
      modifies this`startDistance, this`stopDistance, this`reached, this`direction, this`startTime,
        this`camera, this`pendingFrames, this`actions
      ensures Valid() && startTime == now
      ensures startDistance == if startCoord.Some? then geo.snap(startCoord.value) else 0.0
      ensures stopDistance == if stopCoord.Some? then Some(geo.snap(stopCoord.value)) else None
      ensures direction == Direction(startDistance, stopDistance)
      ensures var cur := CurrentDistance(startDistance, 0.0, stopDistance, geo.routeLength);
        && reached == PastStop(cur, direction, stopDistance)
        && camera == CameraPull(old(camera), geo.mercator(geo.along(cur)), cameraDistance, geo.hypot)
        && actions == old(actions) + StepActions(pointSource, cur, camera)
        && pendingFrames == if reached then old(pendingFrames) else old(pendingFrames) + 1
    {
      var start, stop, dir := 0.0, None, 1;
      if startCoord.Some? {
        start := geo.snap(startCoord.value);
      }
      if stopCoord.Some? {
        stop := Some(geo.snap(stopCoord.value));
      }
      if HasStop(stop) && stop.value < start {
        dir := -1;
      }
      startDistance, stopDistance, reached, direction, startTime := start, stop, false, dir, now;
      Advance(now, pointSource);
    }

    /** `fly`: record the endpoints and offset, clear the reached flag and start. The route is
        always loaded by the constructor, so the flight always starts. */
    method Fly(startPos: Option<Coord>, stopPos: Option<Coord>, offset: real, now: real, pointSource: bool)
      requires Valid()
      modifies this
      ensures Valid() && startTime == now
      ensures startCoord == startPos && stopCoord == stopPos && yOffset == Some(offset)
      ensures startDistance == if startPos.Some? then geo.snap(startPos.value) else 0.0
      ensures stopDistance == if stopPos.Some? then Some(geo.snap(stopPos.value)) else None
      ensures direction == Direction(startDistance, stopDistance)
      ensures var cur := CurrentDistance(startDistance, 0.0, stopDistance, geo.routeLength);
        && reached == PastStop(cur, direction, stopDistance)
        && camera == CameraPull(old(camera), geo.mercator(geo.along(cur)), cameraDistance, geo.hypot)
        && actions == old(actions) + StepActions(pointSource, cur, camera)
        && pendingFrames == if reached then old(pendingFrames) else old(pendingFrames) + 1
    {
      startCoord, stopCoord, yOffset := startPos, stopPos, Some(offset);
      reached := false;
      Start(now, pointSource);
    }
  }
}
