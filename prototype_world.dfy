/** The mutable state of the earlier single-file prototype: game objects,
    hordes that recruit them, animated decorations and the animation list,
    with the per-frame updates and the damage rule that act on them. */
module PrototypeWorld {
  import opened Wrappers
  import opened JsNumber
  import opened Utils
  import opened Prototype
  import Engine

  /** A recoloured sprite sheet, by identity. */
  type Palette = nat

  /* ---------------------------------------------------------------------
     Game objects and hordes
     --------------------------------------------------------------------- */

  /** A prototype game object: a horse, a rider or a horde leader. */
  class GameObject {
    var x: real
    var y: real
    var speed: real
    var hitpoints: real
    var horde: Horde?
    /** The object's `palette`. */
    var palette: Option<Palette>
    /** The sheet the object's animation frames are drawn from (the
        `source` of each of its `sprite` frames). */
    var frameSource: Option<Palette>
    /** Whether the object carries a `holding` sprite, and its sheet. */
    var holding: bool
    var holdingSource: Option<Palette>

    /** `GameObject(init)` with the given position, speed and hit points,
        and the factory's defaults for the rest. */
    constructor (x: real, y: real, speed: real, hitpoints: real)
      ensures this.x == x && this.y == y && this.speed == speed && this.hitpoints == hitpoints
      ensures horde == null && palette == None && frameSource == None
      ensures !holding && holdingSource == None
    {
      this.x, this.y, this.speed, this.hitpoints := x, y, speed, hitpoints;
      horde := null;
      palette, frameSource := None, None;
      holding, holdingSource := false, None;
    }
  }

  /** A leader and the objects it has recruited. */
  class Horde {
    var leader: GameObject
    var objects: seq<GameObject>
    var palette: Palette

    /** Every member is listed once and points back at this horde. */
    ghost predicate Valid()
      reads this, objects
    {
      && (forall i, j :: 0 <= i < j < |objects| ==> objects[i] != objects[j])
      && (forall o :: o in objects ==> o.horde == this)
    }

    /** `new Horde(leader)`: the leader is the first member, joins the horde,
        takes its palette for its frames and is handed the flag drawn from
        it. `palette` stands for the sheet generated from a random hue. */
    constructor (leader: GameObject, palette: Palette)
      modifies leader
      ensures this.leader == leader && objects == [leader] && this.palette == palette
      ensures leader.horde == this && leader.palette == Some(palette)
      ensures leader.frameSource == Some(palette)
      ensures leader.holding && leader.holdingSource == Some(palette)
      ensures leader.x == old(leader.x) && leader.y == old(leader.y)
      ensures leader.speed == old(leader.speed) && leader.hitpoints == old(leader.hitpoints)
      ensures Valid()
    {
      this.leader := leader;
      objects := [leader];
      this.palette := palette;
      new;
      leader.horde := this;
      leader.holding := true;
      leader.holdingSource := Some(palette);
      leader.palette := Some(palette);
      leader.frameSource := Some(palette);
    }

    /** `add(object)`: appends the object, which joins the horde, takes the
        leader's speed and is redrawn from the leader's palette. */
    method Add(obj: GameObject)
      modifies this, obj
      ensures objects == old(objects) + [obj]
      ensures leader == old(leader) && palette == old(palette)
      ensures obj.horde == this && obj.speed == old(leader.speed)
      ensures obj.palette == old(leader.palette) && obj.frameSource == old(leader.palette)
      ensures obj.holding == old(obj.holding)
      ensures obj.holdingSource == if old(obj.holding) then old(leader.palette) else old(obj.holdingSource)
      ensures obj.x == old(obj.x) && obj.y == old(obj.y)
      ensures obj.hitpoints == old(obj.hitpoints)
      ensures old(Valid()) && obj !in old(objects) ==> Valid()
    {
      var leaderSpeed, leaderPalette := leader.speed, leader.palette;
      objects := objects + [obj];
      obj.horde := this;
      obj.speed := leaderSpeed;
      obj.palette := leaderPalette;
      obj.frameSource := leaderPalette;
      if obj.holding {
        obj.holdingSource := leaderPalette;
      }
    }

    /** `remove(object)`: takes the object out of the member list and strips
        its horde and palette; the held sprite keeps its sheet. */
    method Remove(obj: GameObject)
      modifies this, obj
      ensures objects == RemoveFirst(old(objects), obj)
      ensures leader == old(leader) && palette == old(palette)
      ensures obj.horde == null && obj.palette == None && obj.frameSource == None
      ensures obj.holding == old(obj.holding) && obj.holdingSource == old(obj.holdingSource)
      ensures obj.speed == old(obj.speed) && obj.hitpoints == old(obj.hitpoints)
      ensures obj.x == old(obj.x) && obj.y == old(obj.y)
      ensures old(Valid()) ==> Valid() && obj !in objects
    {
      ghost var wasValid := Valid();
      ghost var before := objects;
      objects := RemoveFromArray(objects, obj);
      obj.palette := None;
      obj.horde := null;
      obj.frameSource := None;
      if wasValid {
        RemoveFirstDistinct(before, obj);
      }
    }
  }

  /* ---------------------------------------------------------------------
     Decorations
     --------------------------------------------------------------------- */

  /** A decoration cycling through its frames every `animationSpeed`
      milliseconds. */
  datatype Decoration = Decoration(x: real, y: real, sprites: seq<Sprite>,
                                   spriteIndex: int, animationSpeed: real, animationTimer: real)

  /** The frame index of a decoration names one of its frames. */
  predicate DecorationOk(d: Decoration) {
    0 <= d.spriteIndex < |d.sprites|
  }

  /** One decoration after a frame of `dt` milliseconds: the timer grows,
      and once it has reached the animation speed the frame index moves on
      by one, wrapping around, and the timer restarts. */
  function Tick(d: Decoration, dt: real): (e: Decoration)
    requires DecorationOk(d)
    ensures DecorationOk(e)
    ensures e.x == d.x && e.y == d.y && e.sprites == d.sprites && e.animationSpeed == d.animationSpeed
    ensures d.animationTimer + dt >= d.animationSpeed ==>
      e.animationTimer == 0.0 &&
      e.spriteIndex == (if d.spriteIndex == |d.sprites| - 1 then 0 else d.spriteIndex + 1)
    ensures d.animationTimer + dt < d.animationSpeed ==>
      e.animationTimer == d.animationTimer + dt && e.spriteIndex == d.spriteIndex
  {
    var timer := d.animationTimer + dt;
    if timer >= d.animationSpeed then
      d.(spriteIndex := (d.spriteIndex + 1) % |d.sprites|, animationTimer := 0.0)
    else
      d.(animationTimer := timer)
  }

  /** A decoration that advances on every frame shows each of its frames in
      turn, and is back at its first frame once it has shown all of them. */
  lemma {:induction false} TickCycles(d: Decoration, dt: real, n: nat)
    requires DecorationOk(d) && d.spriteIndex == 0 && dt >= d.animationSpeed && d.animationTimer == 0.0
    requires n <= |d.sprites|
    ensures TickN(d, dt, n).spriteIndex == n % |d.sprites|
    ensures TickN(d, dt, n).animationTimer == 0.0
  {
    if n > 0 {
      TickCycles(d, dt, n - 1);
      WrapSmall(n, |d.sprites|);
      var prev := TickN(d, dt, n - 1);
      assert prev.spriteIndex == n - 1;
      assert prev.animationTimer + dt >= prev.animationSpeed;
    }
  }

  /** Below and at the modulus, the remainder is the number itself or zero. */
  lemma WrapSmall(n: nat, m: nat)
    requires 0 < n <= m
    ensures (n - 1) % m == n - 1
    ensures n % m == if n == m then 0 else n
  {
  }

  /** `n` frames of `Tick`. */
  function TickN(d: Decoration, dt: real, n: nat): (e: Decoration)
    requires DecorationOk(d)
    ensures DecorationOk(e)
    ensures e.sprites == d.sprites && e.animationSpeed == d.animationSpeed
  {
    if n == 0 then d else Tick(TickN(d, dt, n - 1), dt)
  }

  /* ---------------------------------------------------------------------
     Animations
     --------------------------------------------------------------------- */

  /** A running animation. `id` stands for the identity of the animation
      object; `hasDone` says whether a `done` callback was given. */
  datatype Animation = Animation(id: nat, duration: real, elapsed: real, hasDone: bool)

  /** The outcome of one `updateAnimations` pass: the animations the filter
      keeps, and the callbacks made, in call order. */
  datatype AnimationPass = AnimationPass(kept: seq<Animation>, events: seq<Engine.Event>)

  function AdvancedBy(a: Animation, dt: real): Animation {
    a.(elapsed := a.elapsed + dt)
  }

  /** The progress handed to `step`. */
  function AnimationProgress(a: Animation): Num {
    Progress(a.elapsed, a.duration)
  }

  /** The callbacks made for one already-advanced animation: always `step`,
      then `done` when the progress is exactly one and a `done` was given. */
  function AnimationEvents(a: Animation): seq<Engine.Event> {
    [Engine.Step(a.id, AnimationProgress(a))] +
    (if IsOne(AnimationProgress(a)) && a.hasDone then [Engine.Done(a.id)] else [])
  }

  /** Specification of `updateAnimations(dt)`: the filter adds `dt` to each
      animation in order, calls its callbacks, and keeps it only while its
      progress is below one. */
  function UpdateAnimationsPass(anims: seq<Animation>, dt: real): AnimationPass
    decreases |anims|
  {
    if anims == [] then AnimationPass([], [])
    else
      var prev := UpdateAnimationsPass(anims[..|anims| - 1], dt);
      var a := AdvancedBy(anims[|anims| - 1], dt);
      AnimationPass(prev.kept + (if BelowOne(AnimationProgress(a)) then [a] else []),
                    prev.events + AnimationEvents(a))
  }

  /** One more animation extends the pass by that animation's advance. */
  lemma AnimationPassStep(anims: seq<Animation>, i: nat, dt: real)
    requires i < |anims|
    ensures var prev, a := UpdateAnimationsPass(anims[..i], dt), AdvancedBy(anims[i], dt);
      UpdateAnimationsPass(anims[..i + 1], dt) ==
        AnimationPass(prev.kept + (if BelowOne(AnimationProgress(a)) then [a] else []), prev.events + AnimationEvents(a))
  {
    assert anims[..i + 1][..i] == anims[..i];
  }

  /** The filter loop of `updateAnimations(dt)`: the animations it keeps and
      the callbacks it makes are those of the specification pass. */
  method RunAnimations(pending: seq<Animation>, dt: real) returns (kept: seq<Animation>, calls: seq<Engine.Event>)
    ensures kept == UpdateAnimationsPass(pending, dt).kept && calls == UpdateAnimationsPass(pending, dt).events
  {
    kept, calls := [], [];
    for i := 0 to |pending|
      invariant kept == UpdateAnimationsPass(pending[..i], dt).kept
      invariant calls == UpdateAnimationsPass(pending[..i], dt).events
    {
      AnimationPassStep(pending, i, dt);
      var animation := pending[i].(elapsed := pending[i].elapsed + dt);
      var t := Progress(animation.elapsed, animation.duration);
      calls := calls + [Engine.Step(animation.id, t)];
      if IsOne(t) && animation.hasDone {
        calls := calls + [Engine.Done(animation.id)];
      }
      if BelowOne(t) {
        kept := kept + [animation];
      }
    }
    assert pending[..|pending|] == pending;
  }

  function AnimationIds(anims: seq<Animation>): set<nat> {
    set a | a in anims :: a.id
  }

  predicate DistinctAnimations(anims: seq<Animation>) {
    forall i, j :: 0 <= i < j < |anims| ==> anims[i].id != anims[j].id
  }

  /** Every animation the filter keeps is an advanced one it was given. */
  lemma {:induction false} KeptAnimationsAreGiven(anims: seq<Animation>, dt: real)
    ensures forall k :: k in UpdateAnimationsPass(anims, dt).kept ==>
      BelowOne(AnimationProgress(k)) && exists i :: 0 <= i < |anims| && k == AdvancedBy(anims[i], dt)
    decreases |anims|
  {
    if anims != [] {
      var init := anims[..|anims| - 1];
      KeptAnimationsAreGiven(init, dt);
      assert forall i :: 0 <= i < |init| ==> anims[i] == init[i];
    }
  }

  /** The filter keeps an animation exactly when its progress is below one:
      a finished one and one whose progress is NaN are both dropped. */
  lemma {:induction false} AnimationKeptIffBelowOne(anims: seq<Animation>, dt: real)
    ensures forall i :: 0 <= i < |anims| ==>
      (AdvancedBy(anims[i], dt) in UpdateAnimationsPass(anims, dt).kept <==>
       BelowOne(AnimationProgress(AdvancedBy(anims[i], dt))))
    decreases |anims|
  {
    if anims != [] {
      var init := anims[..|anims| - 1];
      AnimationKeptIffBelowOne(init, dt);
      KeptAnimationsAreGiven(init, dt);
      var p := UpdateAnimationsPass(anims, dt);
      forall i | 0 <= i < |anims|
        ensures AdvancedBy(anims[i], dt) in p.kept <==> BelowOne(AnimationProgress(AdvancedBy(anims[i], dt)))
      {
        if i < |init| {
          assert anims[i] == init[i];
        }
      }
    }
  }

  /** The filter reports only on animations it was given. */
  lemma {:induction false} AnimationEventIds(anims: seq<Animation>, dt: real)
    ensures forall e :: e in UpdateAnimationsPass(anims, dt).events ==> e.id in AnimationIds(anims)
    decreases |anims|
  {
    if anims != [] {
      var init := anims[..|anims| - 1];
      AnimationEventIds(init, dt);
      assert forall a :: a in init ==> a in anims;
    }
  }

  /** With distinct animations, `done` is called for an animation exactly
      when its progress is exactly one and it has a `done`. */
  lemma {:induction false} AnimationDoneIffOne(anims: seq<Animation>, dt: real)
    requires DistinctAnimations(anims)
    ensures forall i :: 0 <= i < |anims| ==>
      (Engine.Done(anims[i].id) in UpdateAnimationsPass(anims, dt).events <==>
       IsOne(AnimationProgress(AdvancedBy(anims[i], dt))) && anims[i].hasDone)
    decreases |anims|
  {
    if anims != [] {
      var init, last := anims[..|anims| - 1], anims[|anims| - 1];
      assert DistinctAnimations(init) by {
        assert forall i :: 0 <= i < |init| ==> init[i] == anims[i];
      }
      AnimationDoneIffOne(init, dt);
      AnimationEventIds(init, dt);
      var prev := UpdateAnimationsPass(init, dt);
      var mine := AnimationEvents(AdvancedBy(last, dt));
      var p := UpdateAnimationsPass(anims, dt);
      forall i | 0 <= i < |anims|
        ensures Engine.Done(anims[i].id) in p.events <==>
          IsOne(AnimationProgress(AdvancedBy(anims[i], dt))) && anims[i].hasDone
      {
        if i < |init| {
          assert anims[i] == init[i];
          assert Engine.Done(anims[i].id) !in mine;
        } else {
          assert last.id !in AnimationIds(init) by {
            forall a | a in init ensures a.id != last.id {
              var j :| 0 <= j < |init| && init[j] == a;
              assert anims[j] == a;
            }
          }
          assert Engine.Done(last.id) !in prev.events;
        }
      }
    }
  }

  /** `step` is handed a progress of at most one. */
  lemma {:induction false} AnimationStepsAtMostOne(anims: seq<Animation>, dt: real)
    ensures forall e :: e in UpdateAnimationsPass(anims, dt).events && e.Step? ==>
      !e.t.PosInf? && (e.t.Fin? ==> e.t.v <= 1.0)
    decreases |anims|
  {
    if anims != [] {
      AnimationStepsAtMostOne(anims[..|anims| - 1], dt);
    }
  }

  /** The filter keeps only identities it was given. */
  lemma AnimationKeptIds(anims: seq<Animation>, dt: real)
    ensures AnimationIds(UpdateAnimationsPass(anims, dt).kept) <= AnimationIds(anims)
  {
    KeptAnimationsAreGiven(anims, dt);
  }

  /** Distinct animations stay distinct through the filter. */
  lemma {:induction false} AnimationPassDistinct(anims: seq<Animation>, dt: real)
    requires DistinctAnimations(anims)
    ensures DistinctAnimations(UpdateAnimationsPass(anims, dt).kept)
    decreases |anims|
  {
    if anims != [] {
      var init, last := anims[..|anims| - 1], anims[|anims| - 1];
      assert DistinctAnimations(init) by {
        assert forall i :: 0 <= i < |init| ==> init[i] == anims[i];
      }
      AnimationPassDistinct(init, dt);
      KeptAnimationsAreGiven(init, dt);
      var prev := UpdateAnimationsPass(init, dt).kept;
      var kept := UpdateAnimationsPass(anims, dt).kept;
      forall i, j | 0 <= i < j < |kept| ensures kept[i].id != kept[j].id {
        if j >= |prev| {
          assert kept[i] in prev;
          var m :| 0 <= m < |init| && kept[i] == AdvancedBy(init[m], dt);
          assert init[m] == anims[m];
        }
      }
    }
  }

  /* ---------------------------------------------------------------------
     The world
     --------------------------------------------------------------------- */

  /** The prototype's module-level state: the spawned objects, the
      decorations, the running animations and the record of the animation
      callbacks made so far. */
  class World {
    var objects: seq<GameObject>
    var decorations: seq<Decoration>
    var animations: seq<Animation>
    var log: seq<Engine.Event>
    var nextAnimation: nat

    /** Every decoration shows one of its frames; animation identities are
        distinct and were handed out by `animate`. */
    ghost predicate Valid()
      reads this
    {
      && (forall i :: 0 <= i < |decorations| ==> DecorationOk(decorations[i]))
      && DistinctAnimations(animations)
      && (forall a :: a in animations ==> a.id < nextAnimation)
    }

    constructor ()
      ensures Valid()
      ensures objects == [] && decorations == [] && animations == [] && log == []
    {
      objects, decorations, animations, log := [], [], [], [];
      nextAnimation := 0;
    }

    /** `despawn(object)`: removes the first occurrence from `objects`. */
    method Despawn(obj: GameObject)
      modifies this
      ensures objects == RemoveFirst(old(objects), obj)
      ensures decorations == old(decorations) && animations == old(animations)
      ensures log == old(log) && nextAnimation == old(nextAnimation)
    {
      objects := RemoveFromArray(objects, obj);
    }

    /** `damage(object, amount)`: a hit object is scared out of its horde,
        loses `amount` hit points, and is despawned once they reach zero. */
    method Damage(obj: GameObject, amount: real)
      modifies this, obj, obj.horde
      ensures obj.horde == null
      ensures obj.hitpoints == old(obj.hitpoints) - amount
      ensures obj.x == old(obj.x) && obj.y == old(obj.y) && obj.speed == old(obj.speed)
      ensures obj.holding == old(obj.holding) && obj.holdingSource == old(obj.holdingSource)
      ensures old(obj.horde) != null ==>
        && old(obj.horde).objects == RemoveFirst(old(obj.horde.objects), obj)
        && obj.palette == None && obj.frameSource == None
      ensures old(obj.horde) == null ==> obj.palette == old(obj.palette) && obj.frameSource == old(obj.frameSource)
      ensures objects == if obj.hitpoints <= 0.0 then RemoveFirst(old(objects), obj) else old(objects)
      ensures decorations == old(decorations) && animations == old(animations)
      ensures log == old(log) && nextAnimation == old(nextAnimation)
    {
      var horde := obj.horde;
      if horde != null {
        horde.Remove(obj);
      }
      obj.hitpoints := obj.hitpoints - amount;
      if obj.hitpoints <= 0.0 {
        Despawn(obj);
      }
    }

    /** `updateDecorations(dt)`: ticks every decoration once, in order. */
    method UpdateDecorations(dt: real)
      requires Valid()
      modifies this
      ensures Valid()
      ensures |decorations| == |old(decorations)|
      ensures forall i :: 0 <= i < |decorations| ==> decorations[i] == Tick(old(decorations)[i], dt)
      ensures objects == old(objects) && animations == old(animations)
      ensures log == old(log) && nextAnimation == old(nextAnimation)
    {
      var i := 0;
      while i < |decorations|
        invariant 0 <= i <= |decorations| == |old(decorations)|
        invariant forall k :: 0 <= k < i ==> decorations[k] == Tick(old(decorations)[k], dt)
        invariant forall k :: i <= k < |decorations| ==> decorations[k] == old(decorations)[k]
        invariant objects == old(objects) && animations == old(animations)
        invariant log == old(log) && nextAnimation == old(nextAnimation)
        invariant Valid()
      {
        decorations := decorations[i := Tick(decorations[i], dt)];
        i := i + 1;
      }
    }

    /** `animate({duration, step, done})`: appends a fresh animation that
        has not run yet. */
    method Animate(duration: real, hasDone: bool) returns (id: nat)
      requires Valid()
      modifies this
      ensures Valid()
      ensures id == old(nextAnimation)
      ensures animations == old(animations) + [Animation(id, duration, 0.0, hasDone)]
      ensures objects == old(objects) && decorations == old(decorations) && log == old(log)
    {
      id := nextAnimation;
      animations := animations + [Animation(id, duration, 0.0, hasDone)];
      nextAnimation := nextAnimation + 1;
    }

    /** `updateAnimations(dt)`: the filter pass the specification describes,
        replacing the animation list with the animations it keeps. */
    method UpdateAnimations(dt: real)
      requires Valid()
      modifies this
      ensures Valid()
      ensures animations == UpdateAnimationsPass(old(animations), dt).kept
      ensures log == old(log) + UpdateAnimationsPass(old(animations), dt).events
      ensures objects == old(objects) && decorations == old(decorations)
      ensures nextAnimation == old(nextAnimation)
    {
      var pending := animations;
      var kept, calls := RunAnimations(pending, dt);
      log := log + calls;
      AnimationPassDistinct(pending, dt);
      AnimationKeptIds(pending, dt);
      assert forall a :: a in kept ==> a.id in AnimationIds(kept);
      assert forall a :: a in pending ==> a.id < nextAnimation;
      animations := kept;
    }
  }
}
