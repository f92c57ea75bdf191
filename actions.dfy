/** The actions units take: walking to a point (with the whole group in
    tow when a leader walks), hunting the nearest free unit, and throwing
    javelins that land some time later. Floating-point primitives and random
    draws are parameters. */
module Actions {
  import opened Wrappers
  import opened JsNumber
  import opened Geometry
  import opened Utils
  import opened Sets
  import opened Goals
  import opened Engine
  import opened Simulation

  /** The floating-point primitives the actions call: `Math.atan2`,
      `Math.hypot` (behind `getDistanceBetweenPoints`), `getPointOnCircle`
      and `Math.sin`. */
  datatype Maths = Maths(
    atan2: (real, real) -> real,
    hypot: (real, real) -> real,
    pointOnCircle: (real, real, real, real) -> Point,
    sin: real -> real)

  /** `getAngleBetweenPoints(p1, p2)`: the angle of the vector from p2 to p1. */
  function AngleBetween(m: Maths, p1: Point, p2: Point): real {
    m.atan2(p1.y - p2.y, p1.x - p2.x)
  }

  /** `getDistanceBetweenPoints(p1, p2)`. */
  function DistanceBetween(m: Maths, p1: Point, p2: Point): real {
    m.hypot(p1.x - p2.x, p1.y - p2.y)
  }

  /** `Math.hypot` computes the Euclidean norm: a non-negative number whose
      square is the sum of the squares of its arguments. Rounding is not
      modelled. */
  ghost predicate Euclidean(m: Maths) {
    forall a, b :: m.hypot(a, b) >= 0.0 && m.hypot(a, b) * m.hypot(a, b) == a * a + b * b
  }

  lemma MulPositive(a: real, b: real)
    requires a > 0.0 && b > 0.0
    ensures a * b > 0.0
  {
  }

  /** Squaring is strictly increasing on the non-negative numbers. */
  lemma SquareLess(lo: real, hi: real)
    requires 0.0 <= lo < hi
    ensures lo * lo < hi * hi
  {
    assert hi * hi - lo * lo == (hi + lo) * (hi - lo);
    MulPositive(hi + lo, hi - lo);
  }

  /** Two non-negative numbers with the same square are equal. */
  lemma SquareInjective(x: real, y: real)
    requires x >= 0.0 && y >= 0.0 && x * x == y * y
    ensures x == y
  {
    if x < y {
      SquareLess(x, y);
    } else if y < x {
      SquareLess(y, x);
    }
  }

  /** Only zero squares to zero; no square is negative. */
  lemma SquareZero(x: real)
    ensures x * x >= 0.0
    ensures x * x == 0.0 ==> x == 0.0
  {
    var y := if x >= 0.0 then x else -x;
    assert x * x == y * y;
    if y > 0.0 {
      MulPositive(y, y);
    }
    if x * x == 0.0 {
      SquareInjective(y, 0.0);
    }
  }

  /** With a Euclidean `hypot`, the distance from p to q is the distance
      from q to p. */
  lemma DistanceSymmetric(m: Maths, p: Point, q: Point)
    requires Euclidean(m)
    ensures DistanceBetween(m, p, q) == DistanceBetween(m, q, p)
  {
    var a, b := p.x - q.x, p.y - q.y;
    assert (-a) * (-a) + (-b) * (-b) == a * a + b * b;
    assert m.hypot(a, b) * m.hypot(a, b) == m.hypot(-a, -b) * m.hypot(-a, -b);
    SquareInjective(m.hypot(a, b), m.hypot(-a, -b));
  }

  /** With a Euclidean `hypot`, the prototype's `getDistanceBetweenPoints`,
      which subtracts the other way round and passes the y difference first,
      measures the same distance. */
  lemma PrototypeDistance(m: Maths, p1: Point, p2: Point)
    requires Euclidean(m)
    ensures m.hypot(p2.y - p1.y, p2.x - p1.x) == DistanceBetween(m, p1, p2)
  {
    var a, b := p1.x - p2.x, p1.y - p2.y;
    assert (-b) * (-b) + (-a) * (-a) == a * a + b * b;
    assert m.hypot(-b, -a) * m.hypot(-b, -a) == m.hypot(a, b) * m.hypot(a, b);
    SquareInjective(m.hypot(-b, -a), m.hypot(a, b));
  }

  /** With a Euclidean `hypot`, two points are a positive distance apart
      exactly when they differ, so `moveTo` between different points has a
      positive duration. */
  lemma DistancePositive(m: Maths, p: Point, q: Point)
    requires Euclidean(m)
    ensures DistanceBetween(m, p, q) > 0.0 <==> p != q
  {
    var a, b := p.x - q.x, p.y - q.y;
    var h := m.hypot(a, b);
    assert h >= 0.0 && h * h == a * a + b * b;
    SquareZero(a);
    SquareZero(b);
    SquareZero(h);
    if p != q && h == 0.0 {
      assert false;
    }
  }

  /** Where a unit stands. */
  function PositionOf(u: Unit): Point
    reads u
  {
    Point(u.x, u.y)
  }

  /* ---------------------------------------------------------------------
     moveTo
     --------------------------------------------------------------------- */

  /** The goal `moveTo` installs for a walk from `p1` to `p2` at `speed`:
      it takes `distance / speed * 1000` milliseconds, hops three times per
      whole second, and eases out when the unit was already heading
      somewhere. */
  function WalkGoal(m: Maths, p1: Point, p2: Point, speed: real, hadHeading: bool): (g: Goal)
    requires speed > 0.0
  {
    var duration := DistanceBetween(m, p1, p2) / speed * 1000.0;
    Goal(p1, p2, duration, (duration / 1000.0).Floor * 3,
         if hadHeading then EaseOutQuad else EaseInOutQuad, 0.0)
  }

  /** The unit, standing where it stands, heads for `target`, faces the
      direction of the walk and has the walk's goal installed. */
  ghost predicate Walking(u: Unit, target: Point, m: Maths, speed: real, hadHeading: bool)
    reads u
  {
    && speed > 0.0
    && u.heading == Some(target)
    && u.direction == DirectionFromAngle(AngleBetween(m, PositionOf(u), target))
    && u.goal == Some(WalkGoal(m, PositionOf(u), target, speed, hadHeading))
  }

  /** A walk's goal is reached exactly when its accumulated time covers the
      walk's duration (for a walk of positive length), lands the unit on the
      rounded target, and eases out exactly when the unit already had a
      heading. */
  lemma WalkGoalLifecycle(m: Maths, p1: Point, p2: Point, speed: real, hadHeading: bool, curves: Curves, dt: real, pose: Pose)
    requires speed > 0.0 && DistanceBetween(m, p1, p2) > 0.0
    ensures var g := WalkGoal(m, p1, p2, speed, hadHeading);
      && g.duration > 0.0
      && (GoalReached(GoalAdvanced(g, dt)) <==> dt >= DistanceBetween(m, p1, p2) / speed * 1000.0)
      && (g.easing == EaseOutQuad <==> hadHeading)
      && (GoalReached(GoalAdvanced(g, dt)) && Ease(curves, g.easing, 1.0) == 1.0 ==>
            GoalPose(GoalAdvanced(g, dt), curves, pose).x == Round(p2.x) as real &&
            GoalPose(GoalAdvanced(g, dt), curves, pose).y == Round(p2.y) as real)
  {
    var g := WalkGoal(m, p1, p2, speed, hadHeading);
    var d := DistanceBetween(m, p1, p2);
    assert d / speed > 0.0;
    GoalReachedOnSchedule(g, dt);
    if GoalReached(GoalAdvanced(g, dt)) && Ease(curves, g.easing, 1.0) == 1.0 {
      GoalLandsOnTarget(GoalAdvanced(g, dt), curves, pose);
    }
  }

  /** One random draw of the follower fan-out: `randomInt(10, influence)`
      as the radius and `Math.random() * TWO_PI` as the angle. */
  datatype Draw = Draw(radius: int, angle: real)

  /** Where a follower is sent: a point at the drawn angle and radius
      around the leader's destination. */
  function Scatter(m: Maths, p2: Point, d: Draw): Point {
    m.pointOnCircle(p2.x, p2.y, d.angle, d.radius as real)
  }

  /** `moveTo` for a unit whose own walk is all that happens: it faces the
      walk, heads for the position and gets the walk's goal. */
  method Steer(unit: Unit, position: Point, m: Maths)
    requires unit.speed > 0.0
    modifies unit`direction, unit`heading, unit`goal
    ensures Walking(unit, position, m, unit.speed, old(unit.heading).Some?)
  {
    var p1 := Point(unit.x, unit.y);
    var p2 := position;
    var angle := AngleBetween(m, p1, p2);
    var distance := DistanceBetween(m, p1, p2);
    var duration := distance / unit.speed * 1000.0;
    var hops := (duration / 1000.0).Floor * 3;
    var easing := if unit.heading.Some? then EaseOutQuad else EaseInOutQuad;
    unit.direction := DirectionFromAngle(angle);
    unit.heading := Some(p2);
    unit.goal := Some(Goal(p1, p2, duration, hops, easing, 0.0));
  }

  /** The fan-out of a leader's `moveTo`: the k-th follower walks to the
      point the k-th draw scatters around the destination. */
  method SendFollowers(fs: seq<Unit>, position: Point, m: Maths, draws: seq<Draw>)
    requires Distinct(fs) && |draws| >= |fs|
    requires forall f :: f in fs ==> f.speed > 0.0
    modifies (set f | f in fs)`direction, (set f | f in fs)`heading, (set f | f in fs)`goal
    ensures forall k :: 0 <= k < |fs| ==>
      Walking(fs[k], Scatter(m, position, draws[k]), m, fs[k].speed, old(fs[k].heading).Some?)
  {
    for k := 0 to |fs|
      invariant forall j :: k <= j < |fs| ==> fs[j].heading == old(fs[j].heading)
      invariant forall j :: 0 <= j < k ==>
        Walking(fs[j], Scatter(m, position, draws[j]), m, fs[j].speed, old(fs[j].heading).Some?)
    {
      Steer(fs[k], Scatter(m, position, draws[k]), m);
    }
  }

  /** `moveTo(unit, position)`. A leader first sends each of its
      `followers()`, in member order, to a point scattered around the
      destination; in a well-formed game the members of a registered group
      point back at it, so a follower leads nobody and walks alone. Then
      the unit itself walks. */
  method MoveTo(unit: Unit, position: Point, m: Maths, draws: seq<Draw>, ghost followers: seq<Unit>, ghost game: Game)
    requires followers == unit.Followers()
    requires game.Valid() && (unit.IsLeader() ==> unit.group in game.groups)
    requires unit.speed > 0.0 && (unit.IsLeader() ==> forall f :: f in unit.group.units ==> f.speed > 0.0)
    requires |draws| >= |followers|
    modifies unit`direction, unit`heading, unit`goal
    modifies (set f | f in followers)`direction, (set f | f in followers)`heading, (set f | f in followers)`goal
    ensures Walking(unit, position, m, unit.speed, old(unit.heading).Some?)
    ensures forall k :: 0 <= k < |followers| ==>
      Walking(followers[k], Scatter(m, position, draws[k]), m, followers[k].speed, old(followers[k].heading).Some?)
  {
    var fs := unit.Followers();
    if unit.IsLeader() {
      FollowersLeadNobody(game, unit);
      DeleteDistinct(unit.group.units, unit);
      SendFollowers(fs, position, m, draws);
    }
    Steer(unit, position, m);
  }

  /* ---------------------------------------------------------------------
     hunt
     --------------------------------------------------------------------- */

  /** How far a hunter looks. */
  const VISION: real := 100.0

  /** The units of `us` in no group, in order. */
  function Ungrouped(us: seq<Unit>): (free: seq<Unit>)
    reads set u | u in us
    ensures forall u :: u in free ==> u in us && u.group == null
    ensures forall u :: u in us && u.group == null ==> u in free
    decreases |us|
  {
    if us == [] then []
    else
      var u := us[|us| - 1];
      assert forall v :: v in us[..|us| - 1] ==> v in us;
      assert us == us[..|us| - 1] + [u];
      if u.group == null then Ungrouped(us[..|us| - 1]) + [u] else Ungrouped(us[..|us| - 1])
  }

  /** The squared distance from (x, y) to a unit. */
  function DistSqTo(x: real, y: real, u: Unit): real
    reads u
  {
    DistSq(x, y, u.x, u.y)
  }

  /** The first unit of `us` at the least distance from (x, y): the head
      of a stable sort by distance. */
  function Nearest(x: real, y: real, us: seq<Unit>): (n: nat)
    requires us != []
    reads set u | u in us
    ensures n < |us|
    ensures forall k :: 0 <= k < |us| ==> DistSqTo(x, y, us[n]) <= DistSqTo(x, y, us[k])
    ensures forall k :: 0 <= k < n ==> DistSqTo(x, y, us[n]) < DistSqTo(x, y, us[k])
    decreases |us|
  {
    if |us| == 1 then 0
    else
      assert forall v :: v in us[..|us| - 1] ==> v in us;
      var best := Nearest(x, y, us[..|us| - 1]);
      if DistSqTo(x, y, us[|us| - 1]) < DistSqTo(x, y, us[best]) then |us| - 1 else best
  }

  /** `hunt`'s choice: the nearest ungrouped unit whose unit circle meets
      the hunter's circle of vision, if there is one. */
  function HuntTarget(hunter: Unit, game: Game): (t: Option<Unit>)
    reads hunter, game, set u | u in game.units
    ensures t.Some? ==>
      && t.value in game.units && t.value.group == null
      && IsCircleInCircle(hunter.x, hunter.y, VISION, t.value.x, t.value.y, 1.0)
    ensures t.Some? ==>
      forall u :: u in game.units && u.group == null && IsCircleInCircle(hunter.x, hunter.y, VISION, u.x, u.y, 1.0) ==>
        DistSqTo(hunter.x, hunter.y, t.value) <= DistSqTo(hunter.x, hunter.y, u)
    ensures t.None? <==> forall u :: u in game.units && u.group == null ==>
      !IsCircleInCircle(hunter.x, hunter.y, VISION, u.x, u.y, 1.0)
  {
    var seen := game.UnitsInCircle(hunter.x, hunter.y, VISION);
    var prey := Ungrouped(seen);
    if prey == [] then None
    else
      var n := Nearest(hunter.x, hunter.y, prey);
      assert prey[n] in prey;
      assert forall u :: u in prey ==> exists k :: 0 <= k < |prey| && prey[k] == u;
      Some(prey[n])
  }

  /** `hunt(unit)`: walks to the chosen prey, or else to `roam`, the random
      point within `speed * 5` of the hunter. */
  method Hunt(unit: Unit, game: Game, m: Maths, roam: Point, draws: seq<Draw>, ghost followers: seq<Unit>)
    returns (target: Option<Unit>)
    requires followers == unit.Followers()
    requires unit.speed > 0.0
    requires game.Valid() && (unit.IsLeader() ==> unit.group in game.groups)
    requires unit.IsLeader() ==> forall f :: f in unit.group.units ==> f.speed > 0.0
    requires IsPointInCircle(roam, unit.x, unit.y, unit.speed * 5.0)
    requires |draws| >= |followers|
    modifies unit`direction, unit`heading, unit`goal
    modifies (set f | f in followers)`direction, (set f | f in followers)`heading, (set f | f in followers)`goal
    ensures target == old(HuntTarget(unit, game))
    ensures target.Some? ==> Walking(unit, PositionOf(target.value), m, unit.speed, old(unit.heading).Some?)
    ensures target.None? ==>
      && Walking(unit, roam, m, unit.speed, old(unit.heading).Some?)
      && IsPointInCircle(unit.heading.value, unit.x, unit.y, unit.speed * 5.0)
    ensures forall k :: 0 <= k < |followers| ==>
      Walking(followers[k], Scatter(m, if target.Some? then PositionOf(target.value) else roam, draws[k]), m,
              followers[k].speed, old(followers[k].heading).Some?)
  {
    target := HuntTarget(unit, game);
    if target.Some? {
      MoveTo(unit, PositionOf(target.value), m, draws, followers, game);
    } else {
      MoveTo(unit, roam, m, draws, followers, game);
    }
  }

  /* ---------------------------------------------------------------------
     throw_
     --------------------------------------------------------------------- */

  /** The farthest a javelin flies. */
  const MAX_RANGE: real := 200.0

  /** A javelin's speed, in pixels per second. */
  const JAVELIN_SPEED: real := 300.0

  /** The width of one frame of the javelin strip. */
  const JAVELIN_FRAME_WIDTH: int := 7

  /** How far a javelin aimed at a point `distance` away flies. */
  function ThrowRange(distance: real): (range: real)
    ensures range <= MAX_RANGE && range <= distance
    ensures range == MAX_RANGE || range == distance
  {
    if distance < MAX_RANGE then distance else MAX_RANGE
  }

  /** A javelin in the air: the timer driving it, the projectile, and the
      two ends of its flight. */
  datatype Flight = Flight(timer: nat, projectile: Projectile, from: Point, to: Point)

  /** How long, in milliseconds, a javelin thrown from `from` at `target`
      flies: its range at 300 pixels per second. */
  function FlightTime(m: Maths, from: Point, target: Point): real {
    ThrowRange(DistanceBetween(m, from, target)) / JAVELIN_SPEED * 1000.0
  }

  /** The flight of a javelin thrown from `from` at `target`: it starts
      there and ends at the point `getPointOnCircle` gives for the reversed
      angle and the capped range; its projectile stands at the start at
      height 0, faces the throw, and shows the javelin cut into 7-wide
      frames. */
  ghost predicate Thrown(f: Flight, from: Point, target: Point, m: Maths, javelin: Sprite)
    reads f.projectile
  {
    var angle := AngleBetween(m, from, target);
    && f.from == from
    && f.to == m.pointOnCircle(from.x, from.y, angle + PI, ThrowRange(DistanceBetween(m, from, target)))
    && f.projectile.x == from.x && f.projectile.y == from.y && f.projectile.z == 0.0
    && f.projectile.direction == DirectionFromAngle(angle)
    && f.projectile.sprites == SliceFrames(javelin, JAVELIN_FRAME_WIDTH)
  }

  /** The effect of one throw by a unit that leads nobody: a javelin is
      created at the thrower, a stepped timer is registered for the flight
      time, and the projectile is added to the game. */
  method ThrowOne(unit: Unit, target: Point, m: Maths, game: Game, scheduler: Scheduler, javelin: Sprite)
    returns (flight: Flight)
    requires scheduler.Valid()
    modifies game`projectiles, scheduler
    ensures scheduler.Valid()
    ensures fresh(flight.projectile) && Thrown(flight, PositionOf(unit), target, m, javelin)
    ensures flight.timer == old(scheduler.nextId) && scheduler.nextId == old(scheduler.nextId) + 1
    ensures scheduler.timers == old(scheduler.timers) + [Task(flight.timer, FlightTime(m, flight.from, target), 0.0, true)]
    ensures scheduler.log == old(scheduler.log)
    ensures game.projectiles == old(game.projectiles) + [flight.projectile]
  {
    var angle := AngleBetween(m, PositionOf(unit), target);
    var distance := DistanceBetween(m, PositionOf(unit), target);
    var range := ThrowRange(distance);
    var time := range / JAVELIN_SPEED * 1000.0;
    var p1 := Point(unit.x, unit.y);
    var p2 := m.pointOnCircle(unit.x, unit.y, angle + PI, range);
    var direction := DirectionFromAngle(angle);
    var frames := Slice(javelin, JAVELIN_FRAME_WIDTH);
    assert time == FlightTime(m, p1, target);
    var projectile := new Projectile(frames, p1.x, p1.y, direction);
    var id := scheduler.Timer(time, true);
    game.projectiles := Insert(game.projectiles, projectile);
    flight := Flight(id, projectile, p1, p2);
  }

  /** The projectiles of `flights`, in order. */
  function Projectiles(flights: seq<Flight>): seq<Projectile> {
    if flights == [] then [] else Projectiles(flights[..|flights| - 1]) + [flights[|flights| - 1].projectile]
  }

  /** The timers `flights` start, in order, when flight k was thrown at
      `targets[k]`: each runs once, for the flight time, from no delay. */
  function FlightTasks(flights: seq<Flight>, targets: seq<Point>, m: Maths): (ts: seq<Task>)
    requires |targets| == |flights|
    ensures |ts| == |flights|
  {
    if flights == [] then []
    else
      var n := |flights| - 1;
      FlightTasks(flights[..n], targets[..n], m) + [Task(flights[n].timer, FlightTime(m, flights[n].from, targets[n]), 0.0, true)]
  }

  /** `throw_(unit, target)`: every follower throws at its own random point
      (`aims`, one per follower, within 10 of the target) before the unit
      itself throws; one flight per thrower, in that order, each with its
      own timer and projectile. In a well-formed game the members of a
      registered group point back at it, so a follower leads nobody and its
      own throw fans out no further. */
  method Throw(unit: Unit, target: Point, aims: seq<Point>, m: Maths, game: Game, scheduler: Scheduler,
               javelin: Sprite, ghost followers: seq<Unit>)
    returns (flights: seq<Flight>)
    requires followers == unit.Followers()
    requires game.Valid() && (unit.IsLeader() ==> unit.group in game.groups)
    requires scheduler.Valid()
    requires |aims| >= |followers|
    modifies game`projectiles, scheduler
    ensures Volleyed(followers + [unit], aims[..|followers|] + [target], m, javelin, game, scheduler, flights,
                     old(game.projectiles), old(scheduler.timers), old(scheduler.nextId), old(scheduler.log),
                     |followers| + 1)
    ensures forall k :: 0 <= k < |flights| ==> fresh(flights[k].projectile)
  {
    var fs := unit.Followers();
    if unit.IsLeader() {
      FollowersLeadNobody(game, unit);
    }
    flights := Volley(fs + [unit], aims[..|fs|] + [target], m, game, scheduler, javelin);
  }

  /** A round of throws: each of `fs`, in order, throws once at its own
      aim. */
  method Volley(fs: seq<Unit>, aims: seq<Point>, m: Maths, game: Game, scheduler: Scheduler, javelin: Sprite)
    returns (flights: seq<Flight>)
    requires scheduler.Valid()
    requires |aims| >= |fs|
    modifies game`projectiles, scheduler
    ensures Volleyed(fs, aims, m, javelin, game, scheduler, flights, old(game.projectiles),
                     old(scheduler.timers), old(scheduler.nextId), old(scheduler.log), |fs|)
    ensures forall k :: 0 <= k < |flights| ==> fresh(flights[k].projectile)
  {
    flights := [];
    for k := 0 to |fs|
      invariant Volleyed(fs, aims, m, javelin, game, scheduler, flights, old(game.projectiles),
                         old(scheduler.timers), old(scheduler.nextId), old(scheduler.log), k)
      invariant forall j :: 0 <= j < k ==> fresh(flights[j].projectile)
    {
      flights := VolleyNext(fs, aims, m, javelin, game, scheduler, flights, old(game.projectiles),
                            old(scheduler.timers), old(scheduler.nextId), old(scheduler.log), k);
    }
  }

  /** The first k throws of a round in which `fs[j]` throws at `aims[j]`,
      from a game holding `projectiles0` and a scheduler at `timers0`,
      `nextId0` and `log0`: one flight per throw, in order, each `Thrown`
      from its thrower at its aim; their timers take the next ids in turn
      and are appended, in the same order, to the scheduler's timers; their
      projectiles are appended to the game's; and nothing has been logged. */
  ghost predicate Volleyed(fs: seq<Unit>, aims: seq<Point>, m: Maths, javelin: Sprite, game: Game, scheduler: Scheduler,
                           flights: seq<Flight>, projectiles0: seq<Projectile>, timers0: seq<Task>, nextId0: nat,
                           log0: seq<Event>, k: nat)
    reads *
  {
    && k <= |fs| <= |aims| && |flights| == k
    && scheduler.Valid()
    && (forall j :: 0 <= j < k ==> Thrown(flights[j], PositionOf(fs[j]), aims[j], m, javelin))
    && (forall j :: 0 <= j < k ==> flights[j].timer == nextId0 + j)
    && game.projectiles == projectiles0 + Projectiles(flights)
    && scheduler.log == log0 && scheduler.nextId == nextId0 + k
    && scheduler.timers == timers0 + FlightTasks(flights, aims[..k], m)
  }

  /** The k-th throw of a volley. */
  method VolleyNext(fs: seq<Unit>, aims: seq<Point>, m: Maths, javelin: Sprite, game: Game, scheduler: Scheduler,
                    flights: seq<Flight>, ghost projectiles0: seq<Projectile>, ghost timers0: seq<Task>,
                    ghost nextId0: nat, ghost log0: seq<Event>, k: nat)
    returns (flights': seq<Flight>)
    requires k < |fs| && Volleyed(fs, aims, m, javelin, game, scheduler, flights, projectiles0, timers0, nextId0, log0, k)
    modifies game`projectiles, scheduler
    ensures Volleyed(fs, aims, m, javelin, game, scheduler, flights', projectiles0, timers0, nextId0, log0, k + 1)
    ensures flights'[..k] == flights && fresh(flights'[k].projectile)
  {
    var flight := ThrowOne(fs[k], aims[k], m, game, scheduler, javelin);
    flights' := flights + [flight];
    FlightsGrow(flights, flight, aims, m, projectiles0, timers0);
  }

  /** Appending a flight thrown at `aims[k]` to the first k appends its
      projectile and its timer. */
  lemma FlightsGrow(flights: seq<Flight>, flight: Flight, aims: seq<Point>, m: Maths,
                    projectiles0: seq<Projectile>, timers0: seq<Task>)
    requires |flights| < |aims|
    ensures (flights + [flight])[..|flights|] == flights
    ensures projectiles0 + Projectiles(flights) + [flight.projectile] == projectiles0 + Projectiles(flights + [flight])
    ensures timers0 + FlightTasks(flights, aims[..|flights|], m) + [Task(flight.timer, FlightTime(m, flight.from, aims[|flights|]), 0.0, true)]
         == timers0 + FlightTasks(flights + [flight], aims[..|flights| + 1], m)
  {
    var k, flights' := |flights|, flights + [flight];
    assert flights'[..k] == flights;
    assert aims[..k + 1][..k] == aims[..k];
    assert Projectiles(flights') == Projectiles(flights) + [flight.projectile];
    var task := Task(flight.timer, FlightTime(m, flight.from, aims[k]), 0.0, true);
    assert FlightTasks(flights', aims[..k + 1], m) == FlightTasks(flights, aims[..k], m) + [task];
  }

  /** `lerp(v1, v2, t)`. */
  function Lerp(v1: real, v2: real, t: real): (v: real)
    ensures t == 0.0 ==> v == v1
    ensures t == 1.0 ==> v == v2
  {
    v1 + (v2 - v1) * t
  }

  /** For t in [0, 1], `lerp` stays between its ends. */
  lemma LerpBetween(v1: real, v2: real, t: real)
    requires 0.0 <= t <= 1.0
    ensures v1 <= v2 ==> v1 <= Lerp(v1, v2, t) <= v2
    ensures v2 <= v1 ==> v2 <= Lerp(v1, v2, t) <= v1
  {
    var d, s := v2 - v1, 1.0 - t;
    assert Lerp(v1, v2, t) == v1 + d * t;
    assert d * t + d * s == d;
    if v1 <= v2 {
      MulNonNegative(d, t);
      MulNonNegative(d, s);
    } else {
      var e := v1 - v2;
      MulNonNegative(e, t);
      MulNonNegative(e, s);
      assert d * s == -(e * s) && d * t == -(e * t);
    }
  }

  lemma MulNonNegative(a: real, b: real)
    requires a >= 0.0 && b >= 0.0
    ensures a * b >= 0.0
  {
  }

  /** The step callback of a flight's timer: the javelin is at the fraction
      `t` of the way along its flight, arcing `sin(t * PI) * 10` high. */
  method Fly(flight: Flight, t: real, m: Maths)
    modifies flight.projectile`x, flight.projectile`y, flight.projectile`z
    ensures flight.projectile.x == Lerp(flight.from.x, flight.to.x, t)
    ensures flight.projectile.y == Lerp(flight.from.y, flight.to.y, t)
    ensures flight.projectile.z == m.sin(t * PI) * 10.0
    ensures t == 1.0 ==> flight.projectile.x == flight.to.x && flight.projectile.y == flight.to.y
  {
    flight.projectile.x := Lerp(flight.from.x, flight.to.x, t);
    flight.projectile.y := Lerp(flight.from.y, flight.to.y, t);
    flight.projectile.z := m.sin(t * PI) * 10.0;
  }

  /** The frame a landed javelin shows: the sideways throws lie
      diagonally. */
  function Landed(direction: Direction): (d: Direction)
    ensures d != EAST && d != WEST
    ensures direction == EAST ==> d == SOUTH_EAST
    ensures direction == WEST ==> d == SOUTH_WEST
    ensures direction != EAST && direction != WEST ==> d == direction
  {
    if direction == EAST then SOUTH_EAST
    else if direction == WEST then SOUTH_WEST
    else direction
  }

  /** The radius around a landed javelin in which units are hit. */
  const HIT_RADIUS: real := 10.0

  /** What damaging the units of `hit` did to the game since the state
      before: they left the game's units and the member list of every
      registered group, and belong to no group; the same groups stay
      registered; and every group's leader lost one influence per member the
      damage took from its group. */
  twostate predicate Struck(game: Game, hit: seq<Unit>)
    reads game, game.groups, set u | u in hit
    reads set g | g in game.groups :: g.leader
  {
    && game.units == DeleteAll(old(game.units), hit)
    && (forall u :: u in hit ==> u.group == null)
    && game.groups == old(game.groups)
    && (forall j :: 0 <= j < |game.groups| ==> game.groups[j].units == DeleteAll(old(game.groups[j].units), hit))
    && (forall j :: 0 <= j < |game.groups| ==>
          game.groups[j].leader.influence ==
          old(game.groups[j].leader.influence) - (|old(game.groups[j].units)| - |game.groups[j].units|))
  }

  /** The units a landed javelin hits are damaged one after the other:
      each leaves the game and its group. */
  method DamageAll(hit: seq<Unit>, game: Game)
    requires game.Valid() && Distinct(hit)
    requires forall u :: u in hit ==> u in game.units
    modifies game`units
    modifies (set u | u in hit)`group, (set u | u in hit)`palette, (set u | u in hit)`speed
    modifies (set u | u in hit && u.group != null :: u.group)`units
    modifies (set u | u in hit && u.group != null :: u.group.leader)`influence
    ensures game.Valid() && Struck(game, hit)
  {
    ghost var groups0 := GroupsOf(hit);
    ghost var members0 := UnitsOf(game.groups);
    ghost var spare0 := Spare(game.groups);
    for i := 0 to |hit|
      invariant game.groups == old(game.groups)
      invariant Damaging(hit, game, old(game.units), groups0, members0, spare0, i)
    {
      DamageNext(hit[i], game, hit, old(game.units), groups0, members0, spare0, i);
    }
    assert hit[..|hit|] == hit;
  }

  /** Each group's leader influence beyond its member count, in order. */
  ghost function Spare(gs: seq<UnitGroup>): (ns: seq<int>)
    reads set g | g in gs, set g | g in gs :: g.leader
    ensures |ns| == |gs| && forall j :: 0 <= j < |gs| ==> ns[j] == gs[j].leader.influence - |gs[j].units|
  {
    if gs == [] then [] else Spare(gs[..|gs| - 1]) + [gs[|gs| - 1].leader.influence - |gs[|gs| - 1].units|]
  }

  /** The first i units of `hit` damaged, from a game holding `units0` whose
      j-th group had the members `members0[j]` and a leader of influence
      `spare0[j]` beyond them, the k-th unit having been in group
      `groups0[k]`: the game is well-formed and holds the other units; the
      damaged units belong to no group and the others to their former one;
      each group lost the damaged units, and its leader one influence for
      each of them. */
  ghost predicate Damaging(hit: seq<Unit>, game: Game, units0: seq<Unit>, groups0: seq<UnitGroup?>,
                           members0: seq<seq<Unit>>, spare0: seq<int>, i: nat)
    reads *
  {
    && i <= |hit| == |groups0| && Distinct(hit)
    && |members0| == |spare0| == |game.groups|
    && game.Valid()
    && game.units == DeleteAll(units0, hit[..i])
    && (forall k :: 0 <= k < i ==> hit[k].group == null)
    && (forall k :: i <= k < |hit| ==> hit[k].group == groups0[k] && hit[k] in game.units)
    && (forall j :: 0 <= j < |game.groups| ==> game.groups[j].units == DeleteAll(members0[j], hit[..i]))
    && (forall j :: 0 <= j < |game.groups| ==>
          game.groups[j].leader.influence - |game.groups[j].units| == spare0[j])
  }

  /** The damage of the i-th unit of `hit`. */
  method DamageNext(u: Unit, game: Game, hit: seq<Unit>, ghost units0: seq<Unit>, ghost groups0: seq<UnitGroup?>,
                    ghost members0: seq<seq<Unit>>, ghost spare0: seq<int>, i: nat)
    requires i < |hit| && u == hit[i]
    requires Damaging(hit, game, units0, groups0, members0, spare0, i)
    modifies game`units, u`group, u`palette, u`speed, u.Groups()`units, u.GroupLeaders()`influence
    ensures game.groups == old(game.groups)
    ensures Damaging(hit, game, units0, groups0, members0, spare0, i + 1)
  {
    u.Damage(game);
    DeleteAllStep(units0, hit, i);
    forall j | 0 <= j < |game.groups| ensures game.groups[j].units == DeleteAll(members0[j], hit[..i + 1]) {
      DeleteAllStep(members0[j], hit, i);
    }
    forall k | i < k < |hit| ensures hit[k].group == groups0[k] && hit[k] in game.units {
      assert hit[k] != u;
    }
  }

  /** The first half of a landing: the units within reach of the point are
      damaged. */
  method Strike(x: real, y: real, game: Game)
    requires game.Valid()
    modifies game`units
    modifies (set u | u in game.units)`group, (set u | u in game.units)`palette, (set u | u in game.units)`speed
    modifies (set u | u in game.units && u.group != null :: u.group)`units
    modifies (set u | u in game.units && u.group != null :: u.group.leader)`influence
    ensures game.Valid() && Struck(game, old(game.UnitsInCircle(x, y, HIT_RADIUS)))
  {
    var hit := game.UnitsInCircle(x, y, HIT_RADIUS);
    DamageAll(hit, game);
  }

  /** The done callback of a flight's timer: every unit whose unit circle
      meets the circle of radius 10 around the javelin is damaged, the
      projectile leaves the game, and a still decoration showing the landed
      frame is placed where it fell. */
  method Land(flight: Flight, game: Game) returns (deco: Decoration)
    requires game.Valid()
    requires Landed(flight.projectile.direction) < |flight.projectile.sprites|
    modifies game`units, game`projectiles, game`decorations
    modifies (set u | u in game.units)`group, (set u | u in game.units)`palette, (set u | u in game.units)`speed
    modifies (set u | u in game.units && u.group != null :: u.group)`units
    modifies (set u | u in game.units && u.group != null :: u.group.leader)`influence
    ensures game.Valid()
    ensures Struck(game, old(game.UnitsInCircle(flight.projectile.x, flight.projectile.y, HIT_RADIUS)))
    ensures game.projectiles == Delete(old(game.projectiles), flight.projectile)
    ensures fresh(deco) && game.decorations == old(game.decorations) + [deco]
    ensures deco.Valid() && deco.speed == Never
    ensures deco.animation == [flight.projectile.sprites[Landed(flight.projectile.direction)]]
    ensures deco.x == flight.projectile.x && deco.y == flight.projectile.y
  {
    var p := flight.projectile;
    Strike(p.x, p.y, game);
    deco := Settle(p, game);
  }

  /** The second half of a landing: the projectile leaves the game and a
      still decoration showing its landed frame takes its place. */
  method Settle(p: Projectile, game: Game) returns (deco: Decoration)
    requires game.Valid()
    requires Landed(p.direction) < |p.sprites|
    modifies game`projectiles, game`decorations
    ensures game.Valid()
    ensures game.projectiles == Delete(old(game.projectiles), p)
    ensures fresh(deco) && game.decorations == old(game.decorations) + [deco]
    ensures deco.Valid() && deco.speed == Never
    ensures deco.animation == [p.sprites[Landed(p.direction)]]
    ensures deco.x == p.x && deco.y == p.y
  {
    game.projectiles := Delete(game.projectiles, p);
    DeleteDistinct(old(game.projectiles), p);
    var direction := Landed(p.direction);
    deco := new Decoration([p.sprites[direction]], Never);
    game.Decorate(deco, p.x, p.y);
  }
}
