/** The per-unit movement goal that `moveTo` installs: a closure over the
    start and end points, a duration, a hop count, an easing curve and a
    private timer, called once per frame until its progress reaches one. */
module Goals {
  import opened JsNumber
  import opened Geometry

  /** `Math.PI`, as the double value the game uses. */
  const PI: real := 3.141592653589793

  /** The two easing curves `moveTo` chooses between. */
  datatype Easing = EaseOutQuad | EaseInOutQuad

  /** The curves the goal evaluates, whose definitions are not part of this
      model: the two easings, and `hop(a)` standing for
      `Math.abs(Math.sin(a))`. */
  datatype Curves = Curves(easeOutQuad: real -> real, easeInOutQuad: real -> real, hop: real -> real)

  /** A unit's goal: walk from `origin` to `target` in `duration`
      milliseconds with `hops` bounces; `timer` is the captured elapsed time. */
  datatype Goal = Goal(origin: Point, target: Point, duration: real, hops: int, easing: Easing, timer: real)

  /** A unit's drawn position, height included. */
  datatype Pose = Pose(x: real, y: real, z: real)

  function Ease(curves: Curves, easing: Easing, t: real): real {
    match easing
    case EaseOutQuad => curves.easeOutQuad(t)
    case EaseInOutQuad => curves.easeInOutQuad(t)
  }

  /** The goal after a frame of `dt` milliseconds. */
  function GoalAdvanced(g: Goal, dt: real): Goal {
    g.(timer := g.timer + dt)
  }

  /** `Math.min(1, timer / duration)`. */
  function GoalProgress(g: Goal): Num {
    Progress(g.timer, g.duration)
  }

  /** The goal is done and deletes itself (and the heading). */
  predicate GoalReached(g: Goal) {
    AtLeastOne(GoalProgress(g))
  }

  /** Where an (already advanced) goal puts the unit: the eased point
      between origin and target, rounded, bouncing `hops` times. A progress
      that is not a finite number leaves the pose as it was. */
  function GoalPose(g: Goal, curves: Curves, pose: Pose): Pose {
    var t := GoalProgress(g);
    if t.Fin? then
      var k := Ease(curves, g.easing, t.v);
      Pose(Round(g.origin.x + (g.target.x - g.origin.x) * k) as real,
           Round(g.origin.y + (g.target.y - g.origin.y) * k) as real,
           Round(curves.hop(t.v * PI * g.hops as real) * 2.0) as real)
    else pose
  }

  /** With a positive duration, a goal is reached exactly when its timer has
      accumulated the whole duration. */
  lemma GoalReachedOnSchedule(g: Goal, dt: real)
    requires g.duration > 0.0
    ensures GoalReached(GoalAdvanced(g, dt)) <==> g.timer + dt >= g.duration
  {
    ProgressFinished(g.timer + dt, g.duration);
  }

  /** A reached goal's last frame puts the unit on the rounded target,
      provided its easing curve ends at one. */
  lemma GoalLandsOnTarget(g: Goal, curves: Curves, pose: Pose)
    requires GoalReached(g)
    requires Ease(curves, g.easing, 1.0) == 1.0
    ensures GoalPose(g, curves, pose).x == Round(g.target.x) as real
    ensures GoalPose(g, curves, pose).y == Round(g.target.y) as real
  {
    ProgressCases(g.timer, g.duration);
  }

  /** Before any time has passed, a goal with a positive duration keeps the
      unit on its rounded origin, provided the easing starts at zero. */
  lemma GoalStartsAtOrigin(g: Goal, curves: Curves, pose: Pose)
    requires g.duration > 0.0 && g.timer == 0.0
    requires Ease(curves, g.easing, 0.0) == 0.0
    ensures !GoalReached(g)
    ensures GoalPose(g, curves, pose).x == Round(g.origin.x) as real
    ensures GoalPose(g, curves, pose).y == Round(g.origin.y) as real
  {
    assert GoalProgress(g) == Fin(0.0 / g.duration);
  }

  /** With a positive duration and non-negative frame times, a goal's
      progress never moves backwards. */
  lemma GoalProgressMonotonic(g: Goal, dt: real)
    requires g.duration > 0.0 && dt >= 0.0
    ensures GoalProgress(g).Fin? && GoalProgress(GoalAdvanced(g, dt)).Fin?
    ensures GoalProgress(g).v <= GoalProgress(GoalAdvanced(g, dt)).v
  {
    ProgressMonotonic(g.timer, g.timer + dt, g.duration);
  }
}
