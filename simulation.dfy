/** The simulation state of the game: units, the leader-led groups they
    form, decorations, projectiles and the game object that owns them all. */
module Simulation {
  import opened Wrappers
  import opened JsNumber
  import opened Geometry
  import opened Utils
  import opened Sets
  import opened Goals

  /** A recoloured sprite sheet, by identity. */
  type Palette = nat

  /** The speed every unit walks at outside a group. */
  const DEFAULT_SPEED: real := 10.0

  /** The influence radius a unit starts with. */
  const DEFAULT_INFLUENCE: int := 10

  /* ---------------------------------------------------------------------
     Recruitment sweep (the specification of `updateInfluence`)
     --------------------------------------------------------------------- */

  /** What the sweep needs to know about one unit: whether it may be
      recruited (it is neither the leader nor in a group), and its circle. */
  datatype Candidate = Blocked | Free(x: real, y: real, influence: int)

  /** The outcome of a sweep: which candidates were recruited, and the
      leader's influence afterwards. */
  datatype Sweep = Sweep(picked: seq<bool>, influence: int)

  /** The leader at (x, y) visits the candidates in order and recruits each
      free one whose circle meets its own; every recruit widens the leader's
      circle for the candidates after it. */
  function Recruit(cs: seq<Candidate>, x: real, y: real, start: int): (s: Sweep)
    ensures |s.picked| == |cs|
    decreases |cs|
  {
    if cs == [] then Sweep([], start)
    else
      var prev := Recruit(cs[..|cs| - 1], x, y, start);
      var c := cs[|cs| - 1];
      var take := c.Free? && IsCircleInCircle(x, y, prev.influence as real, c.x, c.y, c.influence as real);
      Sweep(prev.picked + [take], if take then prev.influence + 1 else prev.influence)
  }

  /** One more candidate extends the sweep by one decision, taken with the
      influence reached so far. */
  lemma RecruitStep(cs: seq<Candidate>, x: real, y: real, start: int, i: nat)
    requires i < |cs|
    ensures var prev := Recruit(cs[..i], x, y, start);
      var c := cs[i];
      var take := c.Free? && IsCircleInCircle(x, y, prev.influence as real, c.x, c.y, c.influence as real);
      Recruit(cs[..i + 1], x, y, start) == Sweep(prev.picked + [take], if take then prev.influence + 1 else prev.influence)
  {
    assert cs[..i + 1][..i] == cs[..i];
  }

  /** Number of recruits. */
  function Count(picked: seq<bool>): nat
    decreases |picked|
  {
    if picked == [] then 0 else Count(picked[..|picked| - 1]) + (if picked[|picked| - 1] then 1 else 0)
  }

  /** The sweep over a prefix is the prefix of the sweep. */
  lemma {:induction false} RecruitPrefix(cs: seq<Candidate>, x: real, y: real, start: int, n: nat)
    requires n <= |cs|
    ensures Recruit(cs[..n], x, y, start).picked == Recruit(cs, x, y, start).picked[..n]
    ensures Recruit(cs[..n], x, y, start).influence <= Recruit(cs, x, y, start).influence
    decreases |cs| - n
  {
    if n < |cs| {
      RecruitPrefix(cs, x, y, start, n + 1);
      assert cs[..n + 1][..n] == cs[..n];
      var s := Recruit(cs[..n + 1], x, y, start);
      assert s.picked[..n] == Recruit(cs[..n], x, y, start).picked;
    } else {
      assert cs[..n] == cs;
    }
  }

  /** Only free units are recruited, and the leader's influence grows by
      exactly one per recruit. */
  lemma {:induction false} RecruitCounts(cs: seq<Candidate>, x: real, y: real, start: int)
    ensures var s := Recruit(cs, x, y, start);
      && s.influence == start + Count(s.picked)
      && forall k :: 0 <= k < |cs| && s.picked[k] ==> cs[k].Free?
    decreases |cs|
  {
    if cs != [] {
      var init := cs[..|cs| - 1];
      RecruitCounts(init, x, y, start);
      var s := Recruit(cs, x, y, start);
      assert s.picked[..|cs| - 1] == Recruit(init, x, y, start).picked;
      forall k | 0 <= k < |cs| && s.picked[k] ensures cs[k].Free? {
        if k < |cs| - 1 {
          assert s.picked[k] == Recruit(init, x, y, start).picked[k];
          assert cs[k] == init[k];
        }
      }
    }
  }

  /** The leader's circle only grows, so every free unit already within
      reach of the leader's starting circle is recruited, and every recruit
      is within reach of the final circle. */
  lemma RecruitReach(cs: seq<Candidate>, x: real, y: real, start: int, k: nat)
    requires k < |cs|
    ensures var s := Recruit(cs, x, y, start);
      && (cs[k].Free? && IsCircleInCircle(x, y, start as real, cs[k].x, cs[k].y, cs[k].influence as real) ==> s.picked[k])
      && (s.picked[k] ==> cs[k].Free? && IsCircleInCircle(x, y, s.influence as real, cs[k].x, cs[k].y, cs[k].influence as real))
  {
    var s := Recruit(cs, x, y, start);
    var before := Recruit(cs[..k], x, y, start);
    var upto := Recruit(cs[..k + 1], x, y, start);
    RecruitPrefix(cs, x, y, start, k);
    RecruitPrefix(cs, x, y, start, k + 1);
    RecruitCounts(cs, x, y, start);
    RecruitCounts(cs[..k], x, y, start);
    assert cs[..k + 1][..k] == cs[..k];
    assert cs[..k + 1][k] == cs[k];
    assert upto.picked[k] == s.picked[k];
    var c := cs[k];
    if c.Free? && IsCircleInCircle(x, y, start as real, c.x, c.y, c.influence as real) {
      CircleInCircleGrows(x, y, start as real, before.influence as real, c.x, c.y, c.influence as real);
    }
    if s.picked[k] {
      CircleInCircleGrows(x, y, before.influence as real, s.influence as real, c.x, c.y, c.influence as real);
    }
  }

  /* ---------------------------------------------------------------------
     Units
     --------------------------------------------------------------------- */

  /** Where a unit stands, and the goal and heading it walks by. */
  datatype Motion = Motion(x: real, y: real, z: real, goal: Option<Goal>, heading: Option<Point>)

  /** The motion `m` one frame of the goal leaves a unit with, from the
      motion `m0` it had: without a goal nothing moves; with one, the goal's
      timer advances by `dt`, the unit takes the pose the goal gives, and a
      reached goal is dropped along with the heading. */
  predicate GoalRan(m0: Motion, m: Motion, dt: real, curves: Curves) {
    && (m0.goal.None? ==> m == m0)
    && (m0.goal.Some? ==>
          var g := GoalAdvanced(m0.goal.value, dt);
          && Pose(m.x, m.y, m.z) == GoalPose(g, curves, Pose(m0.x, m0.y, m0.z))
          && (GoalReached(g) ==> m.goal == None && m.heading == None)
          && (!GoalReached(g) ==> m.goal == Some(g) && m.heading == m0.heading))
  }

  /** A unit on the field: a rider, a leader or a bystander. */
  class Unit {
    var x: real
    var y: real
    var z: real
    var speed: real
    var direction: Direction
    var heading: Option<Point>
    var palette: Option<Palette>
    var group: UnitGroup?
    var influence: int
    var goal: Option<Goal>

    /** `new Unit()`: at the origin, facing EAST, free, with the default
        speed and influence. */
    constructor ()
      ensures x == 0.0 && y == 0.0 && z == 0.0
      ensures speed == DEFAULT_SPEED && direction == EAST && influence == DEFAULT_INFLUENCE
      ensures heading == None && palette == None && group == null && goal == None
    {
      x, y, z := 0.0, 0.0, 0.0;
      speed, direction, influence := DEFAULT_SPEED, EAST, DEFAULT_INFLUENCE;
      heading, palette, group, goal := None, None, null, None;
    }

    /** `isLeader()`: the unit leads the group it belongs to. */
    predicate IsLeader()
      reads this, group
    {
      group != null && group.leader == this
    }

    /** The group the unit belongs to, as a frame. */
    function Groups(): set<UnitGroup>
      reads this
    {
      if group == null then {} else {group}
    }

    /** The group the unit leads, as a frame. */
    function LedGroups(): set<UnitGroup>
      reads this, group
    {
      if IsLeader() then {group} else {}
    }

    /** The leader of the unit's group, as a frame. */
    function GroupLeaders(): set<Unit>
      reads this, group
    {
      if group == null then {} else {group.leader}
    }

    /** `followers()`: for a leader, every other member of its group in
        insertion order; nobody otherwise. */
    function Followers(): (fs: seq<Unit>)
      reads this, group
      ensures this !in fs
      ensures IsLeader() ==> forall u :: u in group.units && u != this ==> u in fs
      ensures forall u :: u in fs ==> IsLeader() && u in group.units
    {
      if IsLeader() then Delete(group.units, this) else []
    }

    /** `hasFollowers()`: a leader of a group of more than one. */
    predicate HasFollowers()
      reads this, group
    {
      IsLeader() && |group.units| > 1
    }

    /** `intersects(unit)`: the two units' influence circles meet. */
    predicate Intersects(unit: Unit)
      reads this, unit
    {
      IsCircleInCircle(x, y, influence as real, unit.x, unit.y, unit.influence as real)
    }

    /** A leader that is a member of its own duplicate-free group has
        followers exactly when `followers()` is non-empty. */
    lemma HasFollowersIffFollowers()
      requires IsLeader() ==> this in group.units && Distinct(group.units)
      ensures HasFollowers() <==> |Followers()| > 0
    {
      if IsLeader() {
        DeleteDistinct(group.units, this);
      }
    }

    /** `updateInfluence()`: the leader sweeps `game.units` in order and adds
        to its group every free unit whose circle meets its own, growing its
        influence by one per recruit. It is only called for a group leader. */
    method UpdateInfluence(game: Game)
      requires group != null && group.leader == this
      requires Distinct(game.units)
      modifies this`influence, group`units
      modifies (set u | u in game.units)`group, (set u | u in game.units)`palette, (set u | u in game.units)`speed
      ensures group == old(group)
      ensures var s := Recruit(old(CandidatesOf(game.units, this)), x, y, old(influence));
        && influence == s.influence
        && (forall k :: 0 <= k < |game.units| && s.picked[k] ==> Joined(game.units[k], group, speed))
        && (forall k :: 0 <= k < |game.units| && !s.picked[k] ==> game.units[k].group == old(game.units[k].group))
      ensures forall u :: u in old(group.units) ==> u in group.units
      ensures forall u :: u in group.units ==> u in old(group.units) || u in game.units
      ensures Distinct(old(group.units)) ==> Distinct(group.units)
      ensures forall k :: 0 <= k < |game.units| ==>
        game.units[k].group == old(game.units[k].group) || game.units[k].group == group
      ensures old(game.Valid()) && this in game.units ==> game.Valid()
    {
      var us := game.units;
      ghost var cs := CandidatesOf(us, this);
      ghost var groups0 := GroupsOf(us);
      ghost var picked: seq<bool> := [];
      ghost var valid := game.Valid() && this in game.units;
      for i := 0 to |us|
        invariant Swept(game, valid, us, cs, old(influence), old(group), old(speed), old(group.units), groups0, picked, i)
      {
        var take := Enlist(us[i], game, valid, us, cs, old(influence), old(group), old(speed), old(group.units), groups0, picked, i);
        picked := picked + [take];
      }
      assert cs[..|us|] == cs;
    }

    /** The state of `updateInfluence`'s sweep after the first `i` of the
        units `us`: the decisions so far are those of the specification
        sweep over their candidates `cs`, the recruits have joined `group0`,
        the other units keep the groups `groups0` they had, the member list
        `units0` has only grown, by units of `us`, and a game that was well
        formed (`valid0`) still is. */
    ghost predicate Swept(game: Game, valid0: bool, us: seq<Unit>, cs: seq<Candidate>, start: int, group0: UnitGroup?,
                          speed0: real, units0: seq<Unit>, groups0: seq<UnitGroup?>, picked: seq<bool>, i: nat)
      reads *
    {
      && game.units == us && (valid0 ==> game.Valid() && group0 in game.groups)
      && |cs| == |us| == |groups0| && i <= |us| && Distinct(us)
      && group0 != null && group == group0 && group0.leader == this && speed == speed0
      && picked == Recruit(cs[..i], x, y, start).picked
      && influence == Recruit(cs[..i], x, y, start).influence
      && (forall k :: i <= k < |us| ==> cs[k] == CandidateOf(us[k], this) && us[k].group == groups0[k])
      && (forall k :: 0 <= k < i && picked[k] ==> Joined(us[k], group0, speed0))
      && (forall k :: 0 <= k < i && !picked[k] ==> us[k].group == groups0[k])
      && (forall u :: u in units0 ==> u in group0.units)
      && (forall u :: u in group0.units ==> u in units0 || u in us)
      && (Distinct(units0) ==> Distinct(group0.units))
    }

    /** One turn of `updateInfluence`'s loop: the `i`th unit, if it is free
        and its circle meets this leader's, joins the leader's group. */
    method Enlist(unit: Unit, ghost game: Game, ghost valid0: bool, us: seq<Unit>, ghost cs: seq<Candidate>,
                  ghost start: int, ghost group0: UnitGroup?, ghost speed0: real, ghost units0: seq<Unit>,
                  ghost groups0: seq<UnitGroup?>, ghost picked: seq<bool>, i: nat)
      returns (take: bool)
      requires i < |us| && unit == us[i]
      requires Swept(game, valid0, us, cs, start, group0, speed0, units0, groups0, picked, i)
      modifies this`influence, group`units, unit`group, unit`palette, unit`speed
      ensures Swept(game, valid0, us, cs, start, group0, speed0, units0, groups0, picked + [take], i + 1)
    {
      RecruitStep(cs, x, y, start, i);
      take := unit != this && unit.group == null && Intersects(unit);
      if take {
        group.Add(unit, game);
      }
    }

    /** The unit's pose, goal and heading. */
    ghost function Now(): Motion
      reads this`x, this`y, this`z, this`goal, this`heading
    {
      Motion(x, y, z, goal, heading)
    }


    /** The goal part of `update(dt)`: the goal's timer advances, the unit
        takes the pose the goal gives, and a reached goal is dropped along
        with the heading. Moving the unit changes none of the recruitment
        candidates it sees in `us`. */
    method RunGoal(dt: real, curves: Curves, ghost us: seq<Unit>)
      modifies this`x, this`y, this`z, this`goal, this`heading
      ensures GoalRan(old(Now()), Now(), dt, curves)
      ensures CandidatesOf(us, this) == old(CandidatesOf(us, this))
    {
      ghost var cs := CandidatesOf(us, this);
      if goal.Some? {
        var g := GoalAdvanced(goal.value, dt);
        goal := Some(g);
        var t := GoalProgress(g);
        var pose := GoalPose(g, curves, Pose(x, y, z));
        x, y, z := pose.x, pose.y, pose.z;
        if AtLeastOne(t) {
          goal := None;
          heading := None;
        }
      }
      forall k | 0 <= k < |us| ensures CandidateOf(us[k], this) == cs[k] {
        if us[k] != this {
          assert us[k].x == old(us[k].x) && us[k].y == old(us[k].y);
        }
      }
    }

    /** `update(dt)`: runs the goal for one frame, reports whether the unit
        is left without a goal (the moment `bored` is called), and lets a
        leader recruit from where the goal has put it. */
    method Update(dt: real, game: Game, curves: Curves) returns (bored: bool)
      requires Distinct(game.units)
      modifies this`x, this`y, this`z, this`goal, this`heading, this`influence, LedGroups()`units
      modifies (set u | u in game.units)`group, (set u | u in game.units)`palette, (set u | u in game.units)`speed
      ensures GoalRan(old(Now()), Now(), dt, curves)
      ensures bored <==> goal.None?
      ensures group == old(group)
      ensures old(IsLeader()) ==>
        influence == Recruit(old(CandidatesOf(game.units, this)), x, y, old(influence)).influence
      ensures !old(IsLeader()) ==> influence == old(influence)
      ensures forall k :: 0 <= k < |game.units| ==>
        game.units[k].group == old(game.units[k].group) || (game.units[k].group == group && group != null && group.leader == this)
      ensures forall g :: g in old(LedGroups()) ==>
        && (forall v :: v in g.units ==> v in old(g.units) || v in game.units)
        && (Distinct(old(g.units)) ==> Distinct(g.units))
      ensures old(game.Valid()) && this in game.units ==> game.Valid()
    {
      ghost var valid := game.Valid();
      RunGoal(dt, curves, game.units);
      bored := goal.None?;
      assert valid ==> game.Valid();
      Lead(game);
    }

    /** The end of `update(dt)`: a unit that leads its group runs
        `updateInfluence`; any other unit changes nothing. */
    method Lead(game: Game)
      requires Distinct(game.units)
      modifies this`influence, LedGroups()`units
      modifies (set u | u in game.units)`group, (set u | u in game.units)`palette, (set u | u in game.units)`speed
      ensures group == old(group)
      ensures old(IsLeader()) ==>
        influence == Recruit(old(CandidatesOf(game.units, this)), x, y, old(influence)).influence
      ensures !old(IsLeader()) ==> influence == old(influence)
      ensures forall k :: 0 <= k < |game.units| ==>
        game.units[k].group == old(game.units[k].group) || (game.units[k].group == group && group != null && group.leader == this)
      ensures forall g :: g in old(LedGroups()) ==>
        && (forall v :: v in g.units ==> v in old(g.units) || v in game.units)
        && (Distinct(old(g.units)) ==> Distinct(g.units))
      ensures old(game.Valid()) && this in game.units ==> game.Valid()
    {
      if group != null && group.leader == this {
        UpdateInfluence(game);
      }
    }

    /** `damage()`: a hit unit is despawned. */
    method Damage(game: Game)
      modifies game`units, this`group, this`palette, this`speed, Groups()`units, GroupLeaders()`influence
      ensures this !in game.units && group == null
      ensures game.units == Delete(old(game.units), this)
      ensures old(group) != null ==> old(group).units == Delete(old(group.units), this)
      ensures old(group) != null ==> old(group.leader).influence == old(group.leader.influence) - 1
      ensures old(Distinct(game.units)) ==> Distinct(game.units)
      ensures old(game.Valid()) ==> game.Valid()
      ensures old(game.Valid()) && this in old(game.units) ==>
        && game.groups == old(game.groups)
        && (forall j :: 0 <= j < |game.groups| ==> game.groups[j].units == Delete(old(game.groups[j].units), this))
        && (forall j :: 0 <= j < |game.groups| ==>
              game.groups[j].leader.influence - |game.groups[j].units| ==
              old(game.groups[j].leader.influence - |game.groups[j].units|))
    {
      ghost var g0 := group;
      ghost var valid := game.Valid() && this in game.units;
      if valid && g0 != null {
        DeleteDistinct(g0.units, this);
      }
      game.Despawn(this);
      if old(Distinct(game.units)) {
        DeleteDistinct(old(game.units), this);
      }
      if valid {
        forall j | 0 <= j < |game.groups| && game.groups[j] != g0
          ensures game.groups[j].units == Delete(old(game.groups[j].units), this)
          ensures game.groups[j].leader.influence == old(game.groups[j].leader.influence)
        {
          var g := game.groups[j];
          assert this !in old(g.units);
          assert g0 != null ==> g0 in game.groups && g.leader != g0.leader;
        }
      }
    }
  }

  /** The groups of `us`, in order. */
  ghost function GroupsOf(us: seq<Unit>): (gs: seq<UnitGroup?>)
    reads set u | u in us
    ensures |gs| == |us| && forall k :: 0 <= k < |us| ==> gs[k] == us[k].group
  {
    if us == [] then [] else GroupsOf(us[..|us| - 1]) + [us[|us| - 1].group]
  }

  /** The member lists of `gs`, in order. */
  ghost function UnitsOf(gs: seq<UnitGroup>): (us: seq<seq<Unit>>)
    reads set g | g in gs
    ensures |us| == |gs| && forall k :: 0 <= k < |gs| ==> us[k] == gs[k].units
  {
    if gs == [] then [] else UnitsOf(gs[..|gs| - 1]) + [gs[|gs| - 1].units]
  }

  /** The motions of `us`, in order. */
  ghost function MotionsOf(us: seq<Unit>): (ms: seq<Motion>)
    reads set u | u in us
    ensures |ms| == |us| && forall k :: 0 <= k < |us| ==> ms[k] == us[k].Now()
  {
    if us == [] then [] else MotionsOf(us[..|us| - 1]) + [us[|us| - 1].Now()]
  }

  /** The unit is a member of the group, wearing its palette and walking at
      the given speed. */
  ghost predicate Joined(u: Unit, g: UnitGroup, speed: real)
    reads u, g
  {
    u.group == g && u in g.units && u.palette == Some(g.palette) && u.speed == speed
  }

  /** What `updateInfluence` sees of one unit: a unit other than the leader
      that is in no group is a candidate with its circle. */
  ghost function CandidateOf(u: Unit, self: Unit): Candidate
    reads u
  {
    if u != self && u.group == null then Free(u.x, u.y, u.influence) else Blocked
  }

  /** The recruitment candidates `updateInfluence` sees, in `game.units`
      order. */
  ghost function CandidatesOf(us: seq<Unit>, self: Unit): (cs: seq<Candidate>)
    reads set u | u in us
    ensures |cs| == |us|
    ensures forall k :: 0 <= k < |us| ==> cs[k] == CandidateOf(us[k], self)
    decreases |us|
  {
    if us == [] then []
    else
      assert forall u :: u in us[..|us| - 1] ==> u in us;
      CandidatesOf(us[..|us| - 1], self) + [CandidateOf(us[|us| - 1], self)]
  }

  /* ---------------------------------------------------------------------
     Groups
     --------------------------------------------------------------------- */

  /** A leader and its members. The leader's `influence` counts one per
      `add` minus one per `remove`. */
  class UnitGroup {
    const leader: Unit
    var units: seq<Unit>
    const color: string
    const palette: Palette
    var deathwish: bool

    /** `new UnitGroup(leader, color, palette)`: the leader joins the new
        group, which registers itself with the game. */
    constructor (leader: Unit, color: string, palette: Palette, game: Game)
      modifies leader`group, leader`palette, leader`speed, leader`influence, game`groups
      ensures this.leader == leader && this.color == color && this.palette == palette && !deathwish
      ensures units == [leader]
      ensures leader.group == this && leader.palette == Some(palette)
      ensures leader.influence == old(leader.influence) + 1
      ensures game.groups == old(game.groups) + [this]
      ensures old(game.Valid()) && old(leader.group) == null && (forall g :: g in old(game.groups) ==> g.leader != leader) ==>
        game.Valid()
    {
      this.leader := leader;
      this.color := color;
      this.palette := palette;
      units := [];
      deathwish := false;
      new;
      Add(leader, game);
      game.groups := Insert(game.groups, this);
    }

    /** `add(unit)`: the unit joins, takes the group palette and the
        leader's speed, and the leader's influence grows by one, even for a
        unit that was already a member. Adding a free unit or a member to
        a registered group keeps the game well formed. */
    method Add(unit: Unit, ghost game: Game)
      modifies this`units, unit`group, unit`palette, unit`speed, leader`influence
      ensures unit.group == this && unit.palette == Some(palette) && unit.speed == old(leader.speed)
      ensures units == Insert(old(units), unit)
      ensures leader.influence == old(leader.influence) + 1
      ensures old(game.Valid()) && this in game.groups && (old(unit.group) == null || old(unit.group) == this) ==>
        game.Valid()
    {
      unit.group := this;
      unit.palette := Some(palette);
      unit.speed := leader.speed;
      units := Insert(units, unit);
      leader.influence := leader.influence + 1;
    }

    /** `remove(unit)`: the unit leaves with no group, no palette and the
        default speed, and the leader's influence shrinks by one. The
        trailing leader check reads the group just cleared, so it never
        destroys the group. Removing a member keeps the game well formed. */
    method Remove(unit: Unit, ghost game: Game)
      modifies this`units, unit`group, unit`palette, unit`speed, leader`influence
      ensures unit.group == null && unit.palette == None && unit.speed == DEFAULT_SPEED
      ensures units == Delete(old(units), unit)
      ensures leader.influence == old(leader.influence) - 1
      ensures old(game.Valid()) && old(unit.group) == this ==> game.Valid()
    {
      unit.group := null;
      unit.palette := None;
      unit.speed := DEFAULT_SPEED;
      units := Delete(units, unit);
      leader.influence := leader.influence - 1;
      if old(game.Valid()) && this in game.groups {
        DeleteDistinct(old(units), unit);
      }
      if unit.IsLeader() {
        assert false;
      }
    }

    /** `canConsume(group)`: another group that does not want to die, whose
        leader is weaker than this one's and stands within this leader's
        influence circle. */
    function CanConsume(group: UnitGroup): (ok: bool)
      reads this, leader, group, group.leader
      ensures ok ==> this != group && !group.deathwish
      ensures ok ==> leader.influence > group.leader.influence
      ensures ok ==> IsPointInCircle(Point(group.leader.x, group.leader.y), leader.x, leader.y, leader.influence as real)
    {
      this != group &&
      !group.deathwish &&
      leader.influence > group.leader.influence &&
      IsPointInCircle(Point(group.leader.x, group.leader.y), leader.x, leader.y, leader.influence as real)
    }

    /** `destroy()`: every member leaves, the leader's influence drops by the
        member count, and the group unregisters itself. */
    method Destroy(game: Game)
      requires Distinct(units)
      modifies this`units, leader`influence, game`groups
      modifies (set u | u in units)`group, (set u | u in units)`palette, (set u | u in units)`speed
      ensures units == []
      ensures forall u :: u in old(units) ==> u.group == null && u.palette == None && u.speed == DEFAULT_SPEED
      ensures leader.influence == old(leader.influence) - |old(units)|
      ensures game.groups == Delete(old(game.groups), this)
      ensures old(game.Valid()) && this in old(game.groups) ==> game.Valid()
    {
      ghost var valid := game.Valid() && this in game.groups;
      var members := units;
      for i := 0 to |members|
        invariant Freeing(game, valid, members, old(leader.influence), old(game.groups), i)
      {
        Release(members[i], game, valid, members, old(leader.influence), old(game.groups), i);
      }
      if valid {
        assert forall u :: u in game.units && u.group != null ==> u.group != this;
      }
      game.groups := Delete(game.groups, this);
      if valid {
        DeleteDistinct(old(game.groups), this);
      }
    }

    /** The state of `destroy`'s loop after the first `i` of the members
        `members`: the others are still members, the first `i` have left
        and are free, the leader has lost one influence per leaver, and a
        game that was well formed (`valid0`) still is, with the remaining
        members pointing at this group. */
    ghost predicate Freeing(game: Game, valid0: bool, members: seq<Unit>, influence0: int, groups0: seq<UnitGroup>, i: nat)
      reads *
    {
      && i <= |members| && Distinct(members) && units == members[i..]
      && leader.influence == influence0 - i
      && (forall k :: 0 <= k < i ==>
            members[k].group == null && members[k].palette == None && members[k].speed == DEFAULT_SPEED)
      && game.groups == groups0
      && (valid0 ==> this in groups0 && game.Valid() && forall k :: i <= k < |members| ==> members[k].group == this)
    }

    /** One turn of `destroy`'s loop: the `i`th member is removed. */
    method Release(unit: Unit, game: Game, ghost valid0: bool, members: seq<Unit>, ghost influence0: int,
                   ghost groups0: seq<UnitGroup>, i: nat)
      requires i < |members| && unit == members[i] && Freeing(game, valid0, members, influence0, groups0, i)
      modifies this`units, leader`influence, unit`group, unit`palette, unit`speed
      ensures Freeing(game, valid0, members, influence0, groups0, i + 1)
    {
      DeleteHead(members, i);
      Remove(unit, game);
    }

    /** `consume(group)`: destroys the other group; its re-add loop then
        walks the set `destroy` has just emptied, so nobody joins this group. */
    method Consume(group: UnitGroup, game: Game)
      requires Distinct(group.units)
      modifies group`units, group.leader`influence, game`groups
      modifies (set u | u in group.units)`group, (set u | u in group.units)`palette, (set u | u in group.units)`speed
      ensures group.units == []
      ensures forall u :: u in old(group.units) ==> u.group == null && u.palette == None
      ensures group.leader.influence == old(group.leader.influence) - |old(group.units)|
      ensures game.groups == Delete(old(game.groups), group)
      ensures old(game.Valid()) && group in old(game.groups) ==> game.Valid()
    {
      group.Destroy(game);
      assert group.units == [];
    }

    /** `update()`: visits the registered groups in order and consumes every
        one it can consume when visited. Consuming a group changes only that
        group and its leader's influence, so the decision for each group is
        the one its state at the start of the pass gives. */
    method Update(game: Game)
      requires game.Valid() && this in game.groups
      modifies game`groups, (set g | g in game.groups)`units, (set g | g in game.groups :: g.leader)`influence
      modifies game.Members()`group, game.Members()`palette, game.Members()`speed
      ensures game.Valid() && this in game.groups
      ensures forall g :: g in game.groups <==> g in old(game.groups) && !old(CanConsume(g))
      ensures forall g :: g in old(game.groups) && old(CanConsume(g)) ==>
        g.units == [] && forall u :: u in old(g.units) ==> u.group == null
      ensures forall g :: g in game.groups ==> g.units == old(g.units)
    {
      var gs := game.groups;
      ghost var eat := Appetites(gs);
      ghost var units0 := UnitsOf(gs);
      for i := 0 to |gs|
        invariant Visited(game, gs, eat, units0, i)
      {
        Visit(gs[i], game, gs, eat, units0, i);
      }
    }

    /** The state of `update`'s pass after visiting the first `i` of the
        groups `gs`, whose member lists were `units0` and for which this
        group's appetite was `eat` when the pass began. */
    ghost predicate Visited(game: Game, gs: seq<UnitGroup>, eat: seq<bool>, units0: seq<seq<Unit>>, i: nat)
      reads *
    {
      && |eat| == |gs| == |units0| && i <= |gs|
      && Distinct(gs) && (forall j, k :: 0 <= j < k < |gs| ==> gs[j].leader != gs[k].leader)
      && game.Valid() && this in game.groups
      && (forall g :: g in game.groups ==> g in gs)
      && (forall k :: 0 <= k < |gs| ==> (gs[k] in game.groups <==> !(k < i && eat[k])))
      && (forall k :: i <= k < |gs| ==> CanConsume(gs[k]) == eat[k])
      && (forall k :: 0 <= k < |gs| && !(k < i && eat[k]) ==> gs[k].units == units0[k])
      && (forall k :: 0 <= k < i && eat[k] ==> gs[k].units == [] && forall u :: u in units0[k] ==> u.group == null)
    }

    /** One turn of `update`'s loop: the `i`th group is consumed when this
        group can consume it. */
    method Visit(g: UnitGroup, game: Game, gs: seq<UnitGroup>, ghost eat: seq<bool>, ghost units0: seq<seq<Unit>>, i: nat)
      requires i < |gs| && g == gs[i] && Visited(game, gs, eat, units0, i)
      modifies g`units, g.leader`influence, game`groups
      modifies (set u | u in g.units)`group, (set u | u in g.units)`palette, (set u | u in g.units)`speed
      ensures Visited(game, gs, eat, units0, i + 1)
    {
      if CanConsume(g) {
        ConsumeRegistered(g, game);
        forall k | i < k < |gs| ensures CanConsume(gs[k]) == eat[k] {
          assert gs[k].leader != g.leader;
        }
        forall k | 0 <= k < |gs| && k != i ensures gs[k].units == old(gs[k].units) {
          assert gs[k] != g;
        }
      }
    }

    /** Whether this group can consume each of `gs`, in order. */
    ghost function Appetites(gs: seq<UnitGroup>): (eat: seq<bool>)
      reads this, leader, set g | g in gs, set g | g in gs :: g.leader
      ensures |eat| == |gs|
      ensures forall k :: 0 <= k < |gs| ==> eat[k] == CanConsume(gs[k])
    {
      if gs == [] then [] else Appetites(gs[..|gs| - 1]) + [CanConsume(gs[|gs| - 1])]
    }

    /** `consume` on a registered group, seen from the game: the other group
        is unregistered and emptied, and the game stays well formed. */
    method ConsumeRegistered(group: UnitGroup, game: Game)
      requires game.Valid() && this in game.groups && group in game.groups && this != group
      modifies group`units, group.leader`influence, game`groups
      modifies (set u | u in group.units)`group, (set u | u in group.units)`palette, (set u | u in group.units)`speed
      ensures game.Valid() && this in game.groups
      ensures leader.influence == old(leader.influence)
      ensures game.groups == Delete(old(game.groups), group)
      ensures group.units == [] && forall u :: u in old(group.units) ==> u.group == null
    {
      ghost var before := game.groups;
      Consume(group, game);
      DeleteDistinct(before, group);
    }
  }

  /** Whether `canConsume` can hold both ways: it cannot, since each side
      would need the strictly greater influence. */
  lemma CanConsumeAsymmetric(a: UnitGroup, b: UnitGroup)
    ensures !(a.CanConsume(b) && b.CanConsume(a))
    ensures !a.CanConsume(a)
  {
  }

  /** In a well-formed game, a unit of the game is a member of a registered
      group exactly when it points at that group, and it is in at most one
      registered group. */
  lemma MembershipMutual(game: Game, g: UnitGroup, u: Unit)
    requires game.Valid() && g in game.groups && u in game.units
    ensures u in g.units <==> u.group == g
    ensures forall h :: h in game.groups && u in g.units && u in h.units ==> h == g
  {
  }

  /** In a well-formed game a leader's followers point back at its group,
      whose leader is the leader itself, so none of them leads a group. */
  lemma FollowersLeadNobody(game: Game, leader: Unit)
    requires game.Valid() && leader.IsLeader() && leader.group in game.groups
    ensures forall f :: f in leader.Followers() ==> f.group == leader.group && !f.IsLeader()
  {
    forall f | f in leader.Followers()
      ensures f.group == leader.group && !f.IsLeader()
    {
      assert f in leader.group.units;
    }
  }

  /* ---------------------------------------------------------------------
     Decorations and projectiles
     --------------------------------------------------------------------- */

  /** How often a decoration's animation advances: every `ms` milliseconds,
      or never (the `Infinity` default). */
  datatype Period = Every(ms: real) | Never

  /** `timer > speed`: a timer exceeding `Infinity` never happens. */
  predicate Due(timer: real, speed: Period) {
    speed.Every? && timer > speed.ms
  }

  /** A decoration placed in the world, cycling through an animation. */
  class Decoration {
    var x: real
    var y: real
    var sprite: Sprite
    const animation: seq<Sprite>
    var timer: real
    const speed: Period
    var index: int

    /** The shown frame is the animation frame at `index`. */
    ghost predicate Valid()
      reads this
    {
      0 <= index < |animation| && sprite == animation[index]
    }

    /** `new Decoration(sprites, speed)`, for a non-empty animation. */
    constructor (sprites: seq<Sprite>, speed: Period)
      requires |sprites| > 0
      ensures Valid() && animation == sprites && this.speed == speed
      ensures index == 0 && timer == 0.0 && x == 0.0 && y == 0.0
    {
      x, y := 0.0, 0.0;
      sprite := sprites[0];
      animation := sprites;
      this.speed := speed;
      timer := 0.0;
      index := 0;
    }

    /** The timer and frame one `update(dt)` leads to from `timer0` and
        `index0`: a due decoration shows the next frame, wrapping from the
        last to the first, and restarts its timer. */
    ghost predicate SteppedFrom(timer0: real, index0: int, dt: real)
      reads this
    {
      && (Due(timer0 + dt, speed) ==>
            timer == 0.0 && index == (if index0 == |animation| - 1 then 0 else index0 + 1))
      && (!Due(timer0 + dt, speed) ==> timer == timer0 + dt && index == index0)
    }

    /** `update(dt)`: the timer grows; once it exceeds the speed, the frame
        index moves on by one, wrapping around, and the timer restarts. */
    method Update(dt: real)
      requires Valid()
      modifies this`timer, this`index, this`sprite
      ensures Valid() && SteppedFrom(old(timer), old(index), dt)
    {
      timer := timer + dt;
      if Due(timer, speed) {
        index := (index + 1) % |animation|;
        timer := 0.0;
      }
      sprite := animation[index];
    }
  }

  /** A thrown javelin in flight. */
  class Projectile {
    const sprites: seq<Sprite>
    const direction: Direction
    var x: real
    var y: real
    var z: real

    constructor (sprites: seq<Sprite>, x: real, y: real, direction: Direction)
      ensures this.sprites == sprites && this.direction == direction
      ensures this.x == x && this.y == y && z == 0.0
    {
      this.sprites := sprites;
      this.direction := direction;
      this.x, this.y, this.z := x, y, 0.0;
    }
  }

  /* ---------------------------------------------------------------------
     The game
     --------------------------------------------------------------------- */

  /** The units of `us` whose position lies within `r + 1` of (x, y), in
      order. */
  function InCircle(us: seq<Unit>, x: real, y: real, r: real): (found: seq<Unit>)
    reads set u | u in us
    ensures forall u :: u in found ==> u in us && IsCircleInCircle(x, y, r, u.x, u.y, 1.0)
    ensures forall u :: u in us && IsCircleInCircle(x, y, r, u.x, u.y, 1.0) ==> u in found
    ensures Distinct(us) ==> Distinct(found)
    decreases |us|
  {
    if us == [] then []
    else
      var rest := InCircle(us[..|us| - 1], x, y, r);
      var u := us[|us| - 1];
      assert forall v :: v in us[..|us| - 1] ==> v in us;
      assert Distinct(us) ==> u !in us[..|us| - 1];
      if IsCircleInCircle(x, y, r, u.x, u.y, 1.0) then rest + [u] else rest
  }

  /** The one game: its units, groups, decorations and projectiles, each a
      set kept in insertion order. */
  class Game {
    var units: seq<Unit>
    var groups: seq<UnitGroup>
    var decorations: seq<Decoration>
    var projectiles: seq<Projectile>

    /** Every collection is a set, group leaders are distinct, and every
        group's member set is a set. Membership is mutual: every member of a
        registered group points back at it, and every grouped unit of the
        game is a member of the registered group it points at. */
    ghost predicate Valid()
      reads this, groups, Members()`group, (set u | u in units)`group
    {
      && Distinct(units) && Distinct(groups) && Distinct(decorations) && Distinct(projectiles)
      && (forall g, h :: g in groups && h in groups && g != h ==> g.leader != h.leader)
      && (forall g :: g in groups ==> Distinct(g.units))
      && (forall g, u :: g in groups && u in g.units ==> u.group == g)
      && (forall u :: u in units && u.group != null ==> u.group in groups && u in u.group.units)
    }

    /** The members of the registered groups. */
    ghost function Members(): set<Unit>
      reads this, groups
    {
      set g, u | g in groups && u in g.units :: u
    }

    constructor ()
      ensures Valid()
      ensures units == [] && groups == [] && decorations == [] && projectiles == []
    {
      units, groups, decorations, projectiles := [], [], [], [];
    }

    /** `spawn(unit, x, y)`: places the unit and adds it to the game. */
    method Spawn(unit: Unit, x: real, y: real)
      modifies this`units, unit`x, unit`y
      ensures unit.x == x && unit.y == y
      ensures units == Insert(old(units), unit)
      ensures old(Valid() && (unit.group != null ==> unit.group in groups && unit in unit.group.units)) ==> Valid()
    {
      unit.x := x;
      unit.y := y;
      units := Insert(units, unit);
    }

    /** `decorate(deco, x, y)`: places the decoration and adds it. */
    method Decorate(deco: Decoration, x: real, y: real)
      modifies this`decorations, deco`x, deco`y
      ensures deco.x == x && deco.y == y
      ensures decorations == Insert(old(decorations), deco)
      ensures old(Valid()) ==> Valid()
    {
      deco.x := x;
      deco.y := y;
      decorations := Insert(decorations, deco);
    }

    /** `despawn(unit)`: removes the unit from the game and from its group. */
    method Despawn(unit: Unit)
      modifies this`units, unit`group, unit`palette, unit`speed, unit.Groups()`units, unit.GroupLeaders()`influence
      ensures units == Delete(old(units), unit) && unit !in units
      ensures unit.group == null
      ensures old(unit.group) != null ==>
        && old(unit.group).units == Delete(old(unit.group.units), unit)
        && old(unit.group.leader).influence == old(unit.group.leader.influence) - 1
        && unit.palette == None && unit.speed == DEFAULT_SPEED
      ensures old(unit.group) == null ==> unit.palette == old(unit.palette) && unit.speed == old(unit.speed)
      ensures old(Valid()) ==> Valid()
    {
      units := Delete(units, unit);
      if old(Valid()) {
        DeleteDistinct(old(units), unit);
        assert forall u :: u in units ==> u in old(units);
        assert Valid();
      }
      var g := unit.group;
      if g != null {
        g.Remove(unit, this);
      }
    }

    /** One unit's `update` inside the first loop of `update(dt)`: the
        game stays valid, every group only gains units of the game, and a
        unit changes group only by joining the group this unit leads. */
    method UpdateUnit(u: Unit, dt: real, curves: Curves) returns (bored: bool)
      requires Valid() && u in units
      modifies u`x, u`y, u`z, u`goal, u`heading, u`influence, u.LedGroups()`units
      modifies (set v | v in units)`group, (set v | v in units)`palette, (set v | v in units)`speed
      ensures Valid()
      ensures GoalRan(old(u.Now()), u.Now(), dt, curves)
      ensures bored <==> u.goal.None?
      ensures u.group == old(u.group)
      ensures forall k :: 0 <= k < |units| ==>
        units[k].group == old(units[k].group) || (units[k].group == u.group && u.group != null && u.group.leader == u)
      ensures forall g :: g in groups ==> forall v :: v in g.units ==> v in old(g.units) || v in units
    {
      bored := u.Update(dt, this, curves);
    }

    /** The first loop of `update(dt)`: every unit runs its `update` in
        insertion order, and its goal advances it by one frame; the units
        left without a goal are reported in that order (the `bored` hook
        runs for each of them). */
    method UpdateUnits(dt: real, curves: Curves) returns (bored: seq<Unit>)
      requires Valid()
      modifies (set u | u in units)`x, (set u | u in units)`y, (set u | u in units)`z
      modifies (set u | u in units)`goal, (set u | u in units)`heading, (set u | u in units)`influence
      modifies (set u | u in units)`group, (set u | u in units)`palette, (set u | u in units)`speed
      modifies (set u | u in units && u.group != null :: u.group)`units
      ensures Valid()
      ensures forall u :: u in units ==> GoalRan(old(u.Now()), u.Now(), dt, curves)
      ensures forall u :: u in bored ==> u in units
      ensures forall u :: u in units ==> (u in bored <==> u.goal.None?)
      ensures forall g :: g in groups ==> forall u :: u in g.units ==> u in old(g.units) || u in units
    {
      var us := units;
      ghost var motions0 := MotionsOf(us);
      ghost var groups0 := GroupsOf(us);
      ghost var members0 := UnitsOf(groups);
      bored := [];
      for i := 0 to |us|
        invariant Stepped(us, motions0, groups0, members0, bored, i, dt, curves)
      {
        bored := UpdateNext(us[i], us, motions0, groups0, members0, bored, i, dt, curves);
      }
      forall u | u in units ensures GoalRan(old(u.Now()), u.Now(), dt, curves) {
        var k :| 0 <= k < |us| && us[k] == u;
      }
    }

    /** The state of the first loop of `update(dt)` after the first `i` of
        the units `us`, whose motions and groups were `motions0` and
        `groups0` and whose registered groups had the members `members0`
        when it began: the units visited so far have run their goal, the
        others are untouched, `bored` lists the visited units left without
        a goal, and groups have only gained units of the game. */
    ghost predicate Stepped(us: seq<Unit>, motions0: seq<Motion>, groups0: seq<UnitGroup?>, members0: seq<seq<Unit>>,
                            bored: seq<Unit>, i: nat, dt: real, curves: Curves)
      reads *
    {
      && Valid() && units == us && i <= |us|
      && |motions0| == |groups0| == |us| && |members0| == |groups|
      && (forall k :: 0 <= k < i ==> GoalRan(motions0[k], us[k].Now(), dt, curves))
      && (forall k :: i <= k < |us| ==> us[k].Now() == motions0[k])
      && (forall u :: u in bored ==> u in us)
      && (forall k :: 0 <= k < i ==> (us[k] in bored <==> us[k].goal.None?))
      && (forall k :: i <= k < |us| ==> us[k] !in bored)
      && (forall k :: i <= k < |us| && us[k].IsLeader() ==> us[k].group == groups0[k])
      && (forall k :: 0 <= k < |groups| ==> forall u :: u in groups[k].units ==> u in members0[k] || u in us)
    }

    /** One turn of the first loop of `update(dt)`: the `i`th unit runs its
        `update` and is reported when left without a goal. */
    method UpdateNext(u: Unit, us: seq<Unit>, ghost motions0: seq<Motion>, ghost groups0: seq<UnitGroup?>,
                      ghost members0: seq<seq<Unit>>, bored: seq<Unit>, i: nat, dt: real, curves: Curves)
      returns (bored': seq<Unit>)
      requires i < |us| && u == us[i] && Stepped(us, motions0, groups0, members0, bored, i, dt, curves)
      modifies u`x, u`y, u`z, u`goal, u`heading, u`influence, u.LedGroups()`units
      modifies (set v | v in units)`group, (set v | v in units)`palette, (set v | v in units)`speed
      ensures Stepped(us, motions0, groups0, members0, bored', i + 1, dt, curves)
    {
      var b := UpdateUnit(u, dt, curves);
      bored' := if b then bored + [u] else bored;
      forall k | 0 <= k < |us| && k != i ensures us[k].Now() == old(us[k].Now()) {
        assert us[k] != u;
      }
      forall k | 0 <= k < i ensures us[k] in bored' <==> us[k].goal.None? {
        assert us[k] != u;
      }
      forall k | i < k < |us| && us[k].IsLeader() ensures us[k].group == groups0[k] {
        assert us[k].group == old(us[k].group);
      }
    }

    /** The second loop of `update(dt)`: every decoration runs its
        `update`. */
    method UpdateDecorations(dt: real)
      requires Distinct(decorations)
      requires forall d :: d in decorations ==> d.Valid()
      modifies (set d | d in decorations)`timer, (set d | d in decorations)`index, (set d | d in decorations)`sprite
      ensures forall d :: d in decorations ==> d.Valid() && d.SteppedFrom(old(d.timer), old(d.index), dt)
      ensures forall u :: u in units ==> u.Now() == old(u.Now())
    {
      var ds := decorations;
      for i := 0 to |ds|
        invariant forall k :: 0 <= k < i ==> ds[k].Valid() && ds[k].SteppedFrom(old(ds[k].timer), old(ds[k].index), dt)
        invariant forall k :: i <= k < |ds| ==>
          ds[k].Valid() && ds[k].timer == old(ds[k].timer) && ds[k].index == old(ds[k].index)
      {
        ds[i].Update(dt);
      }
    }

    /** The third loop of `update(dt)`: every group still registered when
        the loop reaches it runs its `update`; groups consumed earlier in
        the loop are skipped, as a set iteration skips deleted entries. */
    method UpdateGroups()
      requires Valid()
      modifies this`groups, (set g | g in groups)`units, (set g | g in groups :: g.leader)`influence
      modifies Members()`group, Members()`palette, Members()`speed
      ensures Valid()
      ensures forall g :: g in groups ==> g in old(groups) && g.units == old(g.units)
      ensures forall u :: u in units ==> u.Now() == old(u.Now())
    {
      var gs := groups;
      for i := 0 to |gs|
        invariant Valid()
        invariant forall g :: g in groups ==> g in gs && g.units == old(g.units)
      {
        var g := gs[i];
        if g in groups {
          g.Update(this);
        }
      }
    }

    /** `update(dt)`: units, then decorations, then groups. */
    method Update(dt: real, curves: Curves) returns (bored: seq<Unit>)
      requires Valid()
      requires forall d :: d in decorations ==> d.Valid()
      modifies this`groups
      modifies (set u | u in units)`x, (set u | u in units)`y, (set u | u in units)`z
      modifies (set u | u in units)`goal, (set u | u in units)`heading, (set u | u in units)`influence
      modifies (set u | u in units)`group, (set u | u in units)`palette, (set u | u in units)`speed
      modifies (set u | u in units && u.group != null :: u.group)`units
      modifies (set g | g in groups)`units, (set g | g in groups :: g.leader)`influence
      modifies Members()`group, Members()`palette, Members()`speed
      modifies (set d | d in decorations)`timer, (set d | d in decorations)`index, (set d | d in decorations)`sprite
      ensures Valid()
      ensures forall u :: u in units ==> GoalRan(old(u.Now()), u.Now(), dt, curves)
      ensures forall u :: u in bored ==> u in units
      ensures forall u :: u in units ==> (u in bored <==> u.goal.None?)
      ensures forall d :: d in decorations ==> d.Valid() && d.SteppedFrom(old(d.timer), old(d.index), dt)
      ensures forall g :: g in groups ==> g in old(groups)
    {
      bored := UpdateUnits(dt, curves);
      UpdateDecorations(dt);
      UpdateGroups();
    }

    /** `getUnitsInCircle(x, y, r)`: the units whose unit-radius circle
        meets the circle of radius r around (x, y), in insertion order. */
    function UnitsInCircle(x: real, y: real, r: real): (found: seq<Unit>)
      reads this, set u | u in units
      ensures forall u :: u in found ==> u in units && IsCircleInCircle(x, y, r, u.x, u.y, 1.0)
      ensures forall u :: u in units && IsCircleInCircle(x, y, r, u.x, u.y, 1.0) ==> u in found
      ensures Distinct(units) ==> Distinct(found)
    {
      InCircle(units, x, y, r)
    }
  }
}
