# horde — a verified model of the simulation core

This project models, in Dafny, the simulation core of *horde*, a small
browser game of mounted riders. It covers:

- **Units and groups.** Units form leader-led groups (`UnitGroup`). A
  leader's `influence` grows by one per `add` and shrinks by one per
  `remove`.
- **Group lifecycle.** Groups recruit free units inside the leader's
  influence circle, consume weaker groups and dissolve.
- **The `Game` object.** It owns the units, groups, decorations and
  projectiles. It runs each frame in a fixed order: units, then
  decorations, then groups.
- **The frame-driven timer registry** of the engine (`timer`,
  `updateTimers`).
- **The actions units take:** walking to a point (`moveTo`, with the
  whole group in tow for a leader), hunting the nearest free unit, and
  throwing javelins that land later.
- **Geometry:** angle normalisation and the eight-way compass bucketing.
- **Sprite slicing:** `slice`.
- **The prototype's helpers.** These are the helpers and the mutable
  state of the game's earlier single-file prototype: array removal,
  sprite-sheet cutting, hordes, damage, decorations, animations, paths,
  the floor-based compass and text measurement.

## How the model is built

- **Sets.** JavaScript `Set`s are duplicate-free sequences in insertion
  order (module `Sets`).
- **Objects.** Objects whose fields the game updates in place are Dafny
  classes: `Unit`, `UnitGroup`, `Game`, `Decoration`, `Projectile`,
  `Scheduler`, `Horde`, `GameObject` and `World`.
- **Loops.** Every loop of the source is a method with its invariants.
  Each loop that walks a collection while changing it has a
  specification function, and the loop is proved equal to it:
  - the recruitment sweep of `updateInfluence` is `Recruit`;
  - `updateTimers` is `UpdatePass`;
  - the prototype's `updateAnimations` is `UpdateAnimationsPass`;
  - `strip` is `StripFrames`;
  - `slice` is `SliceFrames`.

  The properties the game relies on are then proved as lemmas about
  these functions.
- **Numbers.** JavaScript numbers are reals. Floating-point rounding is not modelled;
  `Math.round` is (`Geometry.Round`).
  The progress ratio `Math.min(1, elapsed / duration)` can be infinite or
  NaN when the duration is zero, so module `JsNumber` carries those
  values explicitly.
- **Inputs from outside.** Trigonometry, `Math.hypot`, `getPointOnCircle`,
  the easing curves and the random draws are parameters: datatype
  `Maths`, datatype `Curves`, and sequences of draws.
- **Callbacks.** Callbacks into code outside the core are recorded as
  events:
  - a timer's `step(t)` and `done()` become `Engine.Event`s appended to a
    log;
  - a unit's `bored` hook is reported back to the caller.

Where the behaviour of the code differs from what one might expect, the
model follows the code:

- **`canConsume` centres on the consumer.** The point-in-circle test is
  centred on the *consuming* leader and uses that leader's influence as
  the radius (src/game.ts:199-204). It is not centred on the target.
- **`consume` re-adds nobody.** It destroys the other group first, and
  its re-add loop then walks the member set that `destroy` has just
  emptied (src/game.ts:208-213). So nobody joins the consuming group,
  and the consuming leader's influence does not change.
- **`remove`'s leader check never fires.** The check runs after
  `unit.group` has been cleared (src/game.ts:175, 181), so `remove`
  never destroys a group.
- **`add` counts duplicates.** It raises the leader's influence even for
  a unit that is already a member (src/game.ts:170-171).
- **A despawned leader leaves its group behind.** `despawn` removes the
  unit from `game.units` and from its group's members (src/game.ts:46-49,
  174-184). The group stays registered, and its `leader` still names the
  despawned unit. So "every registered group has exactly one leader
  among its members" does not hold in the code, and `Game.Valid` does
  not claim it.
- **`slice` and `strip` can loop forever.** With a width (or height) of
  zero or less and a non-empty sprite, their loop variables never reach
  the bound (src/utils.ts:5, src/index.ts:133-134). `Utils.Slice` and
  `Prototype.Strip` require the inputs on which the loops end.

## Model

| member | source | states |
|---|---|---|
| JsNumber.Div | src/engine.ts:72 | IEEE division of finite numbers: a finite quotient times the divisor gives back the dividend; a zero divisor never gives a finite value; NaN exactly for 0/0 |
| JsNumber.Min1 | src/engine.ts:72 | `Math.min(1, x)` never yields +Infinity or a finite value above 1, and is NaN exactly when x is |
| JsNumber.Progress | src/engine.ts:72 | timer progress is never +Infinity and never above 1, and is NaN exactly when elapsed and duration are both 0 |
| JsNumber.ProgressFinished | src/engine.ts:72-74 | progress reaches 1 exactly when the elapsed time reaches a positive duration, for any positive elapsed time with a zero duration, and once the elapsed time falls to a negative duration |
| JsNumber.ProgressCases | src/engine.ts:72-74 | capped progress is at least 1 only by being exactly 1; it is below 1 exactly when it is neither 1 nor NaN |
| JsNumber.ProgressMonotonic | src/engine.ts:71-72 | with a positive duration, progress is finite and never decreases as the elapsed time grows |
| Engine.Scheduler.constructor | src/engine.ts:61 | the registry starts empty, with an empty callback log, and satisfies its invariant |
| Engine.Scheduler.Timer | src/engine.ts:63-67 | registers exactly one task with elapsed 0 and duration `ms`, with a fresh identity that is returned; the log is unchanged and the registry invariant holds |
| Engine.Scheduler.UpdateTimers | src/engine.ts:69-79 | the registry becomes the tasks the specification pass keeps, the log grows by exactly that pass's callbacks, and the invariant is kept: task identities stay distinct, no kept task has completed, and no `done` is logged twice |
| Engine.RunPass | src/engine.ts:70-78 | the loop over the registered tasks keeps exactly the tasks of the specification pass `UpdatePass` and makes exactly its callbacks, in order |
| Engine.PassKeepsValidity | src/engine.ts:69-79 | one pass keeps task identities distinct and below the next fresh identity, keeps retired tasks out of the registry, and never logs a `done` twice |
| Engine.PassKeepsUnfinished | src/engine.ts:71-77 | after `dt` is added, a task is still registered exactly when its progress has not reached 1 |
| Engine.PassCompletesFinished | src/engine.ts:74-75 | every task whose progress reaches 1 in a pass gets its `done` called |
| Engine.PassCompletesOnlyFinished | src/engine.ts:74-75 | with distinct tasks, `done` is called only for tasks whose progress reached 1 |
| Engine.PassDoneOnce | src/engine.ts:74-77 | with distinct tasks, a pass calls each `done` at most once, and never for a task it keeps |
| Engine.TaskEventsDone | src/engine.ts:73-76 | one task's callbacks include its `done` exactly once when it has finished, and not at all otherwise |
| Engine.PassStepsAtMostOne | src/engine.ts:72-73 | `step` is never handed a progress above 1 or +Infinity |
| Engine.PassIds | src/engine.ts:70-78 | a pass keeps, and reports on, only tasks it was given |
| Engine.PassDistinct | src/engine.ts:76 | tasks with distinct identities stay distinct through a pass |
| Engine.KeptAreUnfinished | src/engine.ts:71-77 | every kept task is a given task with `dt` added, and is unfinished |
| Geometry.TurnRem | src/geometry.ts:32 | JavaScript's truncated `%` by TWO_PI: the result keeps the sign of the angle and is less than a full turn in magnitude |
| Geometry.Trunc | src/geometry.ts:32 | truncation toward zero lies within one of its argument, on the argument's side of zero |
| Geometry.NormalizeAngle | src/geometry.ts:31-34 | `normalizeAngle` returns a value in [0, TWO_PI) |
| Geometry.NormalizeIsFlooredRemainder | src/geometry.ts:31-34 | `normalizeAngle` equals the floored remainder by TWO_PI for every angle, negative ones included |
| Geometry.NormalizeIdentity | src/geometry.ts:31-34 | `normalizeAngle` is the identity on [0, TWO_PI) |
| Geometry.NormalizePeriodic | src/geometry.ts:31-34 | angles a full turn apart normalise to the same value |
| Geometry.Round | src/geometry.ts:38 | `Math.round` lies within half of its argument, with halves rounded up |
| Geometry.Bucket | src/geometry.ts:37-38 | the rounded eighth-of-a-turn bucket, before the wrap, is in [0, 8] |
| Geometry.DirectionFromAngle | src/geometry.ts:36-39 | `getDirectionFromAngle` is the bucket taken modulo 8, always one of the 8 directions |
| Geometry.DirectionOfSector | src/geometry.ts:8-39 | every angle within an eighth of a turn centred on k eighths (in the first turn) gets direction k |
| Geometry.LastHalfSectorIsNorth | src/geometry.ts:38 | the last half-sector before a full turn rounds to bucket 8, which the `% 8` wraps to NORTH |
| Geometry.DirectionPeriodic | src/geometry.ts:36-39 | angles a full turn apart get the same direction |
| Geometry.CircleInCircleGrows | src/game.ts:131-139 | circles that meet still meet when the first one grows; this is why recruits stay within a leader's widening circle |
| Goals.GoalReachedOnSchedule | src/actions.ts:45-56 | with a positive duration, the goal ends exactly when its accumulated timer covers the duration |
| Goals.GoalLandsOnTarget | src/actions.ts:47-56 | a goal's last frame puts the unit on the rounded target, when the easing ends at 1 |
| Goals.GoalStartsAtOrigin | src/actions.ts:45-50 | before any time has passed, the goal is not reached and keeps the unit on its rounded origin, when the easing starts at 0 |
| Goals.GoalProgressMonotonic | src/actions.ts:45-47 | with a positive duration and a non-negative frame time, a goal's progress is finite and never decreases |
| Utils.StepCountCovers | src/utils.ts:5 | for a positive width, the frame count is the ceiling of w / width: that many steps cover the strip, and one fewer does not |
| Utils.StepCountUnique | src/utils.ts:5 | any loop count that covers the strip while one fewer does not is the frame count |
| Utils.Slice | src/utils.ts:3-9 | the loop produces exactly `SliceFrames`: frame i is the strip moved `i * width` right and made `width` wide |
| Utils.SliceFramesLayout | src/utils.ts:3-9 | every frame has the requested width and keeps y, h and pivot; there are ceil(w / width) frames, none when w <= 0; they are in strictly increasing x order and each starts inside the strip |
| Sets.Insert | src/game.ts:37 | `Set.add` appends a new element, leaves a present one where it is, and keeps the set duplicate-free |
| Sets.Delete | src/game.ts:47 | `Set.delete` removes the element, keeps every other one and changes nothing for an absent one |
| Sets.DeleteDistinct | src/game.ts:47 | deleting from a duplicate-free sequence keeps it duplicate-free and removes exactly one element when present |
| Sets.DeleteAll | src/actions.ts:124-126 | deleting each unit of a list in turn leaves exactly the elements that are not in the list |
| Simulation.Recruit | src/game.ts:131-139 | the specification sweep makes one recruit-or-skip decision per unit of `game.units` |
| Simulation.RecruitCounts | src/game.ts:133-137 | only free units are recruited, and the leader's influence grows by exactly one per recruit |
| Simulation.RecruitPrefix | src/game.ts:132-138 | the sweep over the first n units makes the first n decisions of the whole sweep and never leaves more influence |
| Simulation.RecruitReach | src/game.ts:133-137 | every free unit whose circle meets the leader's starting circle is recruited, and every recruit's circle meets the leader's final circle |
| Simulation.Unit.constructor | src/game.ts:75-88 | a new unit is at the origin, facing EAST, in no group, with speed 10 and influence 10 |
| Simulation.Unit.Followers | src/game.ts:94-98 | a leader's followers are exactly the other members of its group; a unit that is not a leader has none; the unit is never its own follower |
| Simulation.Unit.HasFollowersIffFollowers | src/game.ts:141-143 | `hasFollowers()` holds exactly when `followers()` is non-empty, for a leader in its own duplicate-free group |
| Simulation.Unit.UpdateInfluence | src/game.ts:131-139 | the leader's new influence is that of the specification sweep; each unit the sweep picks has joined the group with its palette and speed; every other unit keeps its group; no member is lost, members added come from `game.units`, and the member list stays duplicate-free |
| Simulation.Unit.Enlist | src/game.ts:133-137 | one turn of the sweep: a free unit whose circle meets the leader's joins the group, keeping the sweep invariant |
| Simulation.Unit.RunGoal | src/actions.ts:44-57 | the installed goal advances by dt and puts the unit at the pose the goal gives; a reached goal is dropped together with the heading, and an unreached one stays; with no goal, nothing moves; moving the unit changes none of the recruitment candidates it sees |
| Simulation.Unit.Update | src/game.ts:119-129 | runs the goal as `RunGoal` states; reports `bored` exactly when the unit is left without a goal; a leader then recruits as the sweep does, from where the goal put it; a non-leader's influence is unchanged; other units change group only by joining the group this unit leads |
| Simulation.Unit.Damage | src/game.ts:145-147 | a damaged unit leaves `game.units` and its group's member set, whose leader loses one influence; in a well-formed game holding it, every registered group loses it from its members and keeps its leader's influence beyond its member count; the game stays well formed |
| Simulation.UnitGroup.constructor | src/game.ts:157-164 | the leader is the only member, points at the new group, wears its palette, and its influence is one higher; the group is appended to `game.groups` and the game stays well formed |
| Simulation.UnitGroup.Add | src/game.ts:166-172 | the unit points at the group, takes its palette and the leader's speed, and is in the member set; the leader's influence rises by exactly one, even for a unit that was already a member |
| Simulation.UnitGroup.Remove | src/game.ts:174-184 | the unit has no group or palette and speed 10; it is out of the member set; the leader's influence drops by exactly one; the trailing leader check never destroys the group |
| Simulation.UnitGroup.CanConsume | src/game.ts:194-206 | a group that can be consumed is another group without a deathwish, led by a strictly weaker leader who stands in the consumer leader's circle |
| Simulation.CanConsumeAsymmetric | src/game.ts:194-206 | no two groups can consume each other, and no group can consume itself |
| Simulation.MembershipMutual | src/game.ts:166-184 | in a well-formed game, a unit of the game is in a registered group's member set exactly when it points at that group, and is a member of no other registered group |
| Simulation.FollowersLeadNobody | src/game.ts:94-98 | in a well-formed game, a registered leader's followers point at its group and lead no group of their own |
| Simulation.UnitGroup.Destroy | src/game.ts:215-221 | the member set ends empty; every former member has no group or palette and speed 10; the leader's influence drops by the member count; the group leaves `game.groups` |
| Simulation.UnitGroup.Consume | src/game.ts:208-213 | the other group ends empty and unregistered, and all its former members are free; its leader's influence drops by its member count; nobody is re-added |
| Simulation.UnitGroup.ConsumeRegistered | src/game.ts:208-213 | consuming a registered group unregisters and empties it, frees its members, leaves the consumer's influence unchanged, and keeps the game well formed |
| Simulation.UnitGroup.Update | src/game.ts:186-192 | afterwards a group is registered exactly when it was registered and this group could not consume it at the start of the pass; each consumed group is empty with its former members free; surviving groups keep their members; the game stays well formed |
| Simulation.UnitGroup.Visit | src/game.ts:188-190 | one turn of `update`'s loop: the visited group is consumed exactly when this group can consume it, keeping the pass invariant |
| Simulation.Decoration.constructor | src/game.ts:234-238 | a new decoration shows the first frame of its animation, with timer and index 0 |
| Simulation.Decoration.Update | src/game.ts:240-247 | the index stays within the animation and the shown sprite is `animation[index]`; when the grown timer exceeds the speed, the index moves on by one (wrapping to 0) and the timer restarts at 0; otherwise the timer grows by dt and the index stays |
| Simulation.Projectile.constructor | src/game.ts:257-262 | a projectile starts with its sprites, position and direction, at height 0 |
| Simulation.InCircle | src/game.ts:68-72 | the filter keeps exactly the units whose unit circle meets the circle of radius r, and keeps a duplicate-free list duplicate-free |
| Simulation.Game.constructor | src/game.ts:12-17 | a new game has no units, groups, decorations or projectiles, and is well formed |
| Simulation.Game.Spawn | src/game.ts:34-38 | the unit is placed at (x, y) and added to `units`; the game stays well formed |
| Simulation.Game.Decorate | src/game.ts:40-44 | the decoration is placed at (x, y) and added to `decorations`; the game stays well formed |
| Simulation.Game.Despawn | src/game.ts:46-49 | the unit leaves `units`; if it was in a group, it leaves that group's members with no palette and speed 10, and that group's leader loses one influence; the game stays well formed |
| Simulation.Game.UpdateUnit | src/game.ts:21-23 | one unit runs its goal as `RunGoal` states and is reported bored exactly when left without a goal; the game stays well formed; groups only gain units of the game; other units change group only by joining the group this unit leads |
| Simulation.Game.UpdateUnits | src/game.ts:21-23 | every unit of the game runs its goal for one frame, as `RunGoal` states, from its motion at the start of the pass; the units reported bored are exactly the units left without a goal; groups only gain units of the game; the game stays well formed |
| Simulation.Game.UpdateDecorations | src/game.ts:25-27 | every decoration takes exactly one `update(dt)` step |
| Simulation.Game.UpdateGroups | src/game.ts:29-31 | each group still registered when reached runs its update; the game stays well formed; surviving groups keep their members and no group is added |
| Simulation.Game.Update | src/game.ts:20-32 | units, then decorations, then groups: every unit runs its goal for one frame as `RunGoal` states, the bored units are exactly those without a goal, each decoration takes one step, no group is added, and the game stays well formed |
| Simulation.Game.UnitsInCircle | src/game.ts:68-72 | `getUnitsInCircle` returns exactly the game's units whose unit circle meets the circle of radius r, without duplicates |
| Actions.DistanceSymmetric | src/actions.ts:24 | with a Euclidean `Math.hypot`, the distance from p1 to p2 is the distance from p2 to p1 |
| Actions.DistancePositive | src/actions.ts:24-25 | with a Euclidean `Math.hypot`, two points are a positive distance apart exactly when they differ, so a walk between different points has a positive duration |
| Actions.PrototypeDistance | src/index.ts:502-503 | with a Euclidean `Math.hypot`, the prototype's distance, which subtracts the other way round and passes the y difference first, equals the one the actions use |
| Actions.WalkGoalLifecycle | src/actions.ts:24-57 | a walk of positive length takes `distance / speed * 1000` ms: it ends exactly when the accumulated time covers that; it eases out exactly when the unit already had a heading; its last frame lands on the rounded target |
| Actions.Steer | src/actions.ts:20-44 | the unit faces `getDirectionFromAngle` of the angle to the target, heads for the target, and has the walk's goal installed, all at call time |
| Actions.SendFollowers | src/actions.ts:29-38 | the k-th follower walks to the point the k-th random draw scatters around the destination |
| Actions.MoveTo | src/actions.ts:19-58 | the unit walks as `Steer` states; a leader also sends exactly one walk to each of its `followers()`, the k-th to the point the k-th random draw scatters around the destination; in a well-formed game the followers lead nobody, so the recursion stops there |
| Actions.Ungrouped | src/actions.ts:82 | the filter keeps exactly the units in no group |
| Actions.Nearest | src/actions.ts:83-85 | the head of the stable distance sort: a unit at the least distance, before which every unit is strictly farther |
| Actions.HuntTarget | src/actions.ts:78-85 | the prey is a free unit within vision 100, and no free unit within vision is nearer; there is no prey exactly when no free unit is within vision |
| Actions.Hunt | src/actions.ts:77-93 | the prey is `HuntTarget` at call time; the hunter walks to its prey when there is one, otherwise to the given point within `speed * 5` of itself; through `moveTo`, the k-th follower walks to the k-th point scattered around that destination |
| Actions.ThrowRange | src/actions.ts:98 | the range is `min(200, distance)` |
| Actions.ThrowOne | src/actions.ts:96-139 | one throw: the flight is `Thrown` from the thrower at the target (it ends at `getPointOnCircle` for the reversed angle and the range capped at 200; its fresh projectile stands at the thrower at height 0, faces the throw and holds the javelin cut into 7-wide frames); one timer with the next id, running once for `range / 300 * 1000` ms, is appended; the projectile is appended to the game; nothing is logged |
| Actions.Volley | src/actions.ts:105-108 | each of the throwers throws once, in order: flight k is `Thrown` from thrower k at aim k with a fresh projectile; the timers take consecutive ids and are appended in the same order, each running once for its flight time; the projectiles are appended in that order; nothing is logged |
| Actions.Throw | src/actions.ts:95-140 | one flight per follower, at its own aim, and then one for the thrower, at `target`, in that order: each is `Thrown` from its thrower with a fresh projectile; the timers take consecutive ids and are appended in the same order, each running once for its flight time; the projectiles are appended to the game in the same order; nothing is logged |
| Actions.Lerp | src/index.ts:655-657 | `lerp` gives the first end at t = 0 and the second at t = 1 |
| Actions.LerpBetween | src/index.ts:655-657 | for t in [0, 1], `lerp` stays between its ends |
| Actions.Fly | src/actions.ts:117-120 | the javelin is at `lerp` of the flight's ends at t, `sin(t * PI) * 10` high, and on the target at t = 1 |
| Actions.Landed | src/actions.ts:129-131 | EAST becomes SOUTH_EAST, WEST becomes SOUTH_WEST, and every other direction is kept |
| Actions.DamageAll | src/actions.ts:124-126 | the game keeps exactly its units that were not hit; every hit unit is in no group; the same groups stay registered, each loses exactly its hit members, and each leader loses one influence per member lost; the game stays well formed |
| Actions.Strike | src/actions.ts:122-126 | exactly the units within radius 10 of the point at landing time are damaged, with the effects `DamageAll` states |
| Actions.Settle | src/actions.ts:128-136 | the projectile leaves `game.projectiles`, and one still decoration showing the corrected landed frame is added where it fell |
| Actions.Land | src/actions.ts:121-137 | on landing, the units within radius 10 of the javelin are damaged as `DamageAll` states; the projectile is removed; one still decoration with the corrected landed frame is placed at its position |
| Prototype.FirstIndex | src/index.ts:448 | `indexOf`: the first position holding the element, or -1 exactly when it is absent |
| Prototype.RemoveFromArray | src/index.ts:447-450 | the search loop and splice produce exactly `RemoveFirst` |
| Prototype.RemoveFirstDropsOneCopy | src/index.ts:447-450 | an absent element changes nothing; a present one loses exactly one copy (the first), and everything before it keeps its place |
| Prototype.RemoveFirstDistinct | src/index.ts:447-450 | in a list without repeats, removal takes out exactly the element and keeps the list without repeats |
| Prototype.Strip | src/index.ts:131-139 | the nested loops produce exactly `StripFrames`, row after row |
| Prototype.StripRow | src/index.ts:134-136 | the inner loop produces the frames of one row, left to right |
| Prototype.StripRowsLayout | src/index.ts:131-139 | the first r rows hold r times the column count frames, frame k being the cell at row k / cols and column k % cols |
| Prototype.StripLayout | src/index.ts:131-139 | `strip` yields rows × cols frames in row-major order, each `w` by `h`, at offset (col * w, row * h) from the sheet's corner |
| Prototype.PointInRectShape | src/index.ts:214-221 | `isPointInRect` is unchanged when point and rectangle move together, and holds only for rectangles with ordered corners |
| Prototype.Sign | src/index.ts:510 | `Math.sign` is -1, 0 or 1, and times its argument gives the absolute value |
| Prototype.FindPath | src/index.ts:506-512 | two points, the last being the target; the checkpoint moves `min(|dx|, |dy|)` along both axes toward the target, stays between start and target on each axis, and shares a coordinate with the target |
| Prototype.FloorDirectionIndex | src/index.ts:495-500 | the floor-based direction is one of 0..7 for angles in [-TWO_PI, TWO_PI) |
| Prototype.FloorDirectionSector | src/index.ts:495-500 | sector [k/8, (k+1)/8) of a turn maps to k, whether reached directly or as a negative angle one turn lower |
| Prototype.FloorDirectionFullTurn | src/index.ts:495-500 | the unchecked cast leaves the eight directions: a full turn gives 8, and an angle below one negative turn gives a negative index |
| Prototype.GlyphWidth | src/index.ts:854-886 | every glyph advance, override or default 5, is between 2 and 6 |
| Prototype.MeasureText | src/index.ts:949-959 | `measureText` returns the sum of the glyph advances |
| Prototype.TextWidthAppend | src/index.ts:953-956 | text widths add up across a concatenation |
| Prototype.TextWidthBounds | src/index.ts:949-959 | the empty string measures 0, and a line measures between 2 and 6 pixels per character |
| PrototypeWorld.GameObject.constructor | src/index.ts:663-677 | a new object has the given position, speed and hit points, no horde, no palette and nothing held |
| PrototypeWorld.Horde.constructor | src/index.ts:417-428 | the leader is the only member, joins the horde, holds a flag from the horde's palette and is redrawn from it; it is not moved |
| PrototypeWorld.Horde.Add | src/index.ts:430-435 | the object is appended, joins the horde, takes the leader's speed and is redrawn from the leader's palette (its held sprite too); a new member keeps the horde well formed |
| PrototypeWorld.Horde.Remove | src/index.ts:437-444 | the object's first occurrence is removed; it loses its horde and palette, and its frames their sheet; the horde stays well formed |
| PrototypeWorld.Tick | src/index.ts:315-324 | the index stays in range; once the grown timer reaches the speed, the index moves on by one (wrapping to 0) and the timer restarts at 0; otherwise the timer grows by dt |
| PrototypeWorld.TickCycles | src/index.ts:315-324 | a decoration that advances every frame shows its frames in turn and is back at frame 0 after showing them all |
| PrototypeWorld.RunAnimations | src/index.ts:524-530 | the filter loop keeps exactly the animations of the specification pass and makes exactly its callbacks |
| PrototypeWorld.KeptAnimationsAreGiven | src/index.ts:524-530 | every kept animation is a given one with `dt` added, with progress below 1 |
| PrototypeWorld.AnimationKeptIffBelowOne | src/index.ts:529 | an animation is kept exactly when its progress is below 1; finished and NaN ones are dropped |
| PrototypeWorld.AnimationEventIds | src/index.ts:527-528 | the filter reports only on animations it was given |
| PrototypeWorld.AnimationDoneIffOne | src/index.ts:526-528 | with distinct animations, `done` is called exactly when the progress is exactly 1 and a `done` was given |
| PrototypeWorld.AnimationStepsAtMostOne | src/index.ts:526-527 | `step` is never handed a progress above 1 |
| PrototypeWorld.AnimationKeptIds | src/index.ts:524-530 | the filter keeps only identities it was given |
| PrototypeWorld.AnimationPassDistinct | src/index.ts:524-530 | distinct animations stay distinct through the filter |
| PrototypeWorld.World.constructor | src/index.ts:79-82 | the world starts with no objects, decorations or animations |
| PrototypeWorld.World.Despawn | src/index.ts:625-628 | the first occurrence of the object leaves `objects`; nothing else changes |
| PrototypeWorld.World.Damage | src/index.ts:763-773 | the object leaves its horde, losing its palette and frame sheet when it had one, keeps its position, speed and holding, loses `amount` hit points, and is despawned exactly when they fall to 0 or below |
| PrototypeWorld.World.UpdateDecorations | src/index.ts:315-324 | every decoration takes exactly one `Tick`, in place; the world invariant is kept |
| PrototypeWorld.World.Animate | src/index.ts:533-539 | appends one fresh animation with elapsed 0 |
| PrototypeWorld.World.UpdateAnimations | src/index.ts:523-531 | the list becomes the animations the specification pass keeps, and the log grows by exactly its callbacks; identities stay distinct |

## Left out

- **Rendering and input.** Canvas and DOM rendering, the viewport and
  screen-to-world conversion, input handlers, the bootstrap, the
  renderer, and the sprite, unit and decoration factories are I/O or
  random set-up. They are not modelled.
- **Asynchronous plumbing.** Promises and the prototype's `walk`,
  `walkTo`, `tween`, `playerWalkTo` and `updateObjectAI` are not
  modelled. A timer's `done` is a logged event; the landing effect is the
  method `Actions.Land`, which the caller runs for a logged `done`.
- **Callback order within a pass.** `Engine.RunPass` and
  `PrototypeWorld.RunAnimations` collect the callbacks of one pass and
  append them to the log after the loop. Callbacks are external, so the
  order of calls is the same, but a callback that changed the registry
  in the middle of a pass is not modelled.
- **`wander`.** It calls `group.contains`, which `UnitGroup` does not
  define (src/actions.ts:63). It is not part of this model.
- **Floating point.** Numbers are exact reals: rounding and overflow are
  not modelled. `TWO_PI` and `PI` are fixed real constants.
- **Outside functions.** `Math.atan2`, `Math.hypot` (the distance),
  `getPointOnCircle`, `Math.sin`, the easing curves, `randomInt` and
  `Math.random` are parameters. So are `getRandomPointInCircle`'s results
  (`roam`, `aims`) and the random hue behind a horde's palette. The
  javelin sprite is a parameter too, because the `sprites` module is not
  part of this model. What `Math.hypot` computes is stated by the
  predicate `Actions.Euclidean`, which the distance lemmas assume.
- **The engine's `lerp`.** Its definition is not in the engine source
  this model covers. `Actions.Lerp` uses the prototype's identical
  `lerp` (src/index.ts:655-657).
- **Circle tests.** `isPointInCircle` and `isCircleInCircle` are imported
  but not defined in src/geometry.ts. They are given their Euclidean
  meaning, on squared distances, with a negative radius containing
  nothing.
- **NaN poses.** A goal whose progress is not a finite number (a
  zero-length walk) leaves the unit's pose unchanged in
  `Goals.GoalPose`. JavaScript would write NaN coordinates.
- Actions.MoveTo: requires a positive speed for the walker and its
  followers, since otherwise the duration is infinite or NaN. It also
  requires a well-formed game in which a leader's group is registered.
  `Game.Valid` makes every member of a registered group point back at
  it, so no follower leads a group of its own and fans out further.
- Actions.Hunt: requires `roam` to be the random point within
  `speed * 5`, and the same well-formed game as `Actions.MoveTo`. Prey
  is ordered by squared distance, which orders units as the source's
  distance does.
- Actions.Throw: requires a well-formed game in which a leader's group
  is registered. Then no follower leads a group, so each follower's
  recursive throw is one `ThrowOne`.
- Actions.Land: requires the landed direction to index one of the
  projectile's frames. The source would otherwise build a decoration
  around an undefined sprite.
- Simulation.Unit.Update: the `bored` hook is reported to the caller, not
  invoked, because it is code outside the core.
- Simulation.Game.UpdateGroups: states that surviving groups keep their
  members, but not the per-group consumption facts, which
  `Simulation.UnitGroup.Update` states for one group.
- Simulation.Game.UpdateUnits: the `bored` hook is reported after the
  pass instead of being called inside it (src/game.ts:21-23). When the
  hook makes a leader `hunt`, the source's `moveTo` gives new goals to
  that leader's followers at once (src/actions.ts:29-38). Followers
  later in `game.units` then run the new goal in the same frame. The
  model does not capture this interleaving.
- Simulation.Game.Update: inherits both gaps of its passes. The `bored`
  hook is reported after the unit pass, so a hunting leader's followers
  later in `game.units` are stated to run their old goal this frame,
  where the source has them run the new one (src/game.ts:21-23,
  src/actions.ts:29-38). The per-group consumption facts are stated only
  by `Simulation.UnitGroup.Update`.
- PrototypeWorld.Horde.Remove: the sprite `source` deletions are modelled
  as one field, the sheet of the object's frames.
