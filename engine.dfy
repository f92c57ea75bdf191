/** The frame-driven timer registry: fire-and-forget tasks that are advanced
    once per frame and retired when their progress reaches one. */
module Engine {
  import opened JsNumber

  /** A registered timer. `id` stands for the identity of the task object;
      `hasStep` says whether a `step` callback was given. */
  datatype Task = Task(id: nat, duration: real, elapsed: real, hasStep: bool)

  /** The calls a pass makes into the outside world: `step(t)` of a task, or
      its `done()`, which resolves the promise `timer` returned. */
  datatype Event = Step(id: nat, t: Num) | Done(id: nat)

  /** The outcome of one `updateTimers` pass: the tasks still registered, in
      registration order, and the callbacks made, in call order. */
  datatype Pass = Pass(kept: seq<Task>, events: seq<Event>)

  /** A task after `dt` more milliseconds. */
  function Advanced(task: Task, dt: real): Task {
    task.(elapsed := task.elapsed + dt)
  }

  /** The progress handed to `step`. */
  function TaskProgress(task: Task): Num {
    Progress(task.elapsed, task.duration)
  }

  /** A task whose progress has reached one is due for retirement. */
  predicate Finished(task: Task) {
    AtLeastOne(TaskProgress(task))
  }

  /** The callbacks made for one already-advanced task. */
  function TaskEvents(task: Task): seq<Event> {
    (if task.hasStep then [Step(task.id, TaskProgress(task))] else []) +
    (if Finished(task) then [Done(task.id)] else [])
  }

  /** Specification of `updateTimers(dt)`: every task in registration order
      gets `dt` added to its elapsed time, its `step` called with the capped
      progress and, once finished, its `done` called and its registration
      dropped. */
  function UpdatePass(ts: seq<Task>, dt: real): Pass
    decreases |ts|
  {
    if ts == [] then Pass([], [])
    else
      var prev := UpdatePass(ts[..|ts| - 1], dt);
      var task := Advanced(ts[|ts| - 1], dt);
      Pass(prev.kept + (if Finished(task) then [] else [task]), prev.events + TaskEvents(task))
  }

  /** One more task extends the pass by that task's advance. */
  lemma PassStep(ts: seq<Task>, i: nat, dt: real)
    requires i < |ts|
    ensures var prev, task := UpdatePass(ts[..i], dt), Advanced(ts[i], dt);
      UpdatePass(ts[..i + 1], dt) == Pass(prev.kept + (if Finished(task) then [] else [task]), prev.events + TaskEvents(task))
  {
    assert ts[..i + 1][..i] == ts[..i];
  }

  function Ids(ts: seq<Task>): set<nat> {
    set task | task in ts :: task.id
  }

  function DoneIds(log: seq<Event>): set<nat> {
    set e | e in log && e.Done? :: e.id
  }

  predicate DistinctIds(ts: seq<Task>) {
    forall i, j :: 0 <= i < j < |ts| ==> ts[i].id != ts[j].id
  }

  /** No task's `done` appears twice. */
  predicate DoneOnce(log: seq<Event>) {
    forall k, l :: 0 <= k < l < |log| && log[k].Done? && log[l].Done? ==> log[k].id != log[l].id
  }

  lemma IdsSnoc(init: seq<Task>, last: Task)
    ensures Ids(init + [last]) == Ids(init) + {last.id}
  {
    assert forall task :: task in init + [last] <==> task in init || task == last;
  }

  lemma DoneIdsAppend(a: seq<Event>, b: seq<Event>)
    ensures DoneIds(a + b) == DoneIds(a) + DoneIds(b)
  {
    assert forall e :: e in a + b <==> e in a || e in b;
  }

  /** The last task of a list with distinct identities shares its identity
      with no earlier task. */
  lemma LastIdIsNew(ts: seq<Task>)
    requires ts != [] && DistinctIds(ts)
    ensures DistinctIds(ts[..|ts| - 1])
    ensures ts[|ts| - 1].id !in Ids(ts[..|ts| - 1])
  {
    var init := ts[..|ts| - 1];
    forall i | 0 <= i < |init| ensures init[i].id != ts[|ts| - 1].id {
      assert ts[i] == init[i];
    }
  }

  /** A pass keeps only tasks it was given and reports only on them. */
  lemma {:induction false} PassIds(ts: seq<Task>, dt: real)
    ensures Ids(UpdatePass(ts, dt).kept) <= Ids(ts)
    ensures forall e :: e in UpdatePass(ts, dt).events ==> e.id in Ids(ts)
    decreases |ts|
  {
    if ts != [] {
      var init, last := ts[..|ts| - 1], ts[|ts| - 1];
      assert ts == init + [last];
      PassIds(init, dt);
      IdsSnoc(init, last);
      var prev := UpdatePass(init, dt);
      var task := Advanced(last, dt);
      var extra := if Finished(task) then [] else [task];
      IdsSnoc(prev.kept, task);
      assert Ids(prev.kept + extra) <= Ids(prev.kept) + {last.id};
    }
  }

  /** Distinct tasks stay distinct through a pass. */
  lemma {:induction false} PassDistinct(ts: seq<Task>, dt: real)
    requires DistinctIds(ts)
    ensures DistinctIds(UpdatePass(ts, dt).kept)
    decreases |ts|
  {
    if ts != [] {
      var init, last := ts[..|ts| - 1], ts[|ts| - 1];
      LastIdIsNew(ts);
      PassDistinct(init, dt);
      PassIds(init, dt);
      var prev := UpdatePass(init, dt);
      var kept := UpdatePass(ts, dt).kept;
      forall i, j | 0 <= i < j < |kept| ensures kept[i].id != kept[j].id {
        if j >= |prev.kept| {
          assert kept[i] in prev.kept;
          assert kept[i].id in Ids(prev.kept);
        }
      }
    }
  }

  /** With distinct tasks, a pass calls each `done` at most once, and never
      for a task it keeps. */
  lemma {:induction false} PassDoneOnce(ts: seq<Task>, dt: real)
    requires DistinctIds(ts)
    ensures DoneOnce(UpdatePass(ts, dt).events)
    ensures DoneIds(UpdatePass(ts, dt).events) !! Ids(UpdatePass(ts, dt).kept)
    decreases |ts|
  {
    if ts != [] {
      var init, last := ts[..|ts| - 1], ts[|ts| - 1];
      LastIdIsNew(ts);
      PassDoneOnce(init, dt);
      PassIds(init, dt);
      var prev := UpdatePass(init, dt);
      var task := Advanced(last, dt);
      var mine := TaskEvents(task);
      var extra := if Finished(task) then [] else [task];
      TaskEventsDone(task);
      assert last.id !in DoneIds(prev.events) by {
        forall e | e in prev.events && e.Done? ensures e.id != last.id {
        }
      }
      DoneOnceAppend(prev.events, mine);
      IdsSnoc(prev.kept, task);
      assert Ids(prev.kept + extra) <= Ids(prev.kept) + (if Finished(task) then {} else {last.id});
    }
  }

  /** One task's callbacks are about that task only, and call `done` once
      exactly when it has finished. */
  lemma TaskEventsDone(task: Task)
    ensures DoneIds(TaskEvents(task)) == (if Finished(task) then {task.id} else {})
    ensures DoneOnce(TaskEvents(task))
  {
    var mine := TaskEvents(task);
    assert forall e :: e in mine ==> e.id == task.id;
    assert Finished(task) ==> Done(task.id) in mine;
  }

  /** A pass keeps exactly the tasks that have not finished, each with `dt`
      added to its elapsed time. */
  lemma {:induction false} PassKeepsUnfinished(ts: seq<Task>, dt: real)
    ensures forall i :: 0 <= i < |ts| ==>
      (Advanced(ts[i], dt) in UpdatePass(ts, dt).kept <==> !Finished(Advanced(ts[i], dt)))
    decreases |ts|
  {
    if ts != [] {
      var init := ts[..|ts| - 1];
      PassKeepsUnfinished(init, dt);
      KeptAreUnfinished(init, dt);
      var prev := UpdatePass(init, dt);
      var p := UpdatePass(ts, dt);
      forall i | 0 <= i < |ts|
        ensures Advanced(ts[i], dt) in p.kept <==> !Finished(Advanced(ts[i], dt))
      {
        if i < |init| {
          assert ts[i] == init[i];
        }
      }
    }
  }

  /** A pass calls `done` for every task that finishes. */
  lemma {:induction false} PassCompletesFinished(ts: seq<Task>, dt: real)
    ensures forall i :: 0 <= i < |ts| && Finished(Advanced(ts[i], dt)) ==>
      Done(ts[i].id) in UpdatePass(ts, dt).events
    decreases |ts|
  {
    if ts != [] {
      var init, last := ts[..|ts| - 1], ts[|ts| - 1];
      PassCompletesFinished(init, dt);
      var mine := TaskEvents(Advanced(last, dt));
      var p := UpdatePass(ts, dt);
      forall i | 0 <= i < |ts| && Finished(Advanced(ts[i], dt))
        ensures Done(ts[i].id) in p.events
      {
        if i < |init| {
          assert ts[i] == init[i];
        } else {
          assert Done(last.id) in mine;
        }
      }
    }
  }

  /** When task identities are distinct, a pass calls `done` only for tasks
      that finish. */
  lemma {:induction false} PassCompletesOnlyFinished(ts: seq<Task>, dt: real)
    requires DistinctIds(ts)
    ensures forall i :: 0 <= i < |ts| && Done(ts[i].id) in UpdatePass(ts, dt).events ==>
      Finished(Advanced(ts[i], dt))
    decreases |ts|
  {
    if ts != [] {
      var init, last := ts[..|ts| - 1], ts[|ts| - 1];
      LastIdIsNew(ts);
      PassCompletesOnlyFinished(init, dt);
      PassIds(init, dt);
      var prev := UpdatePass(init, dt);
      var mine := TaskEvents(Advanced(last, dt));
      var p := UpdatePass(ts, dt);
      forall i | 0 <= i < |ts| && Done(ts[i].id) in p.events
        ensures Finished(Advanced(ts[i], dt))
      {
        if i < |init| {
          assert ts[i] == init[i];
          assert init[i].id in Ids(init);
          assert Done(ts[i].id) !in mine;
        } else {
          assert Done(last.id) !in prev.events;
        }
      }
    }
  }

  /** `step` is never handed a progress above one. */
  lemma {:induction false} PassStepsAtMostOne(ts: seq<Task>, dt: real)
    ensures forall e :: e in UpdatePass(ts, dt).events && e.Step? ==>
      !e.t.PosInf? && (e.t.Fin? ==> e.t.v <= 1.0)
    decreases |ts|
  {
    if ts != [] {
      PassStepsAtMostOne(ts[..|ts| - 1], dt);
    }
  }

  /** Every task a pass keeps is an advanced, unfinished task it was given. */
  lemma {:induction false} KeptAreUnfinished(ts: seq<Task>, dt: real)
    ensures forall k :: k in UpdatePass(ts, dt).kept ==>
      !Finished(k) && exists i :: 0 <= i < |ts| && k == Advanced(ts[i], dt)
    decreases |ts|
  {
    if ts != [] {
      var init := ts[..|ts| - 1];
      KeptAreUnfinished(init, dt);
      assert forall i :: 0 <= i < |init| ==> ts[i] == init[i];
    }
  }

  /** The process-wide timer registry together with the record of the
      callbacks it has made. */
  class Scheduler {
    var timers: seq<Task>
    var log: seq<Event>
    var nextId: nat

    /** Task identities are fresh and distinct, no registered task has
        completed, and no task has completed twice. */
    ghost predicate Valid()
      reads this
    {
      && DistinctIds(timers)
      && (forall task :: task in timers ==> task.id < nextId)
      && (forall e :: e in log ==> e.id < nextId)
      && Ids(timers) !! DoneIds(log)
      && DoneOnce(log)
    }

    constructor ()
      ensures Valid() && timers == [] && log == []
    {
      timers, log, nextId := [], [], 0;
    }

    /** `timer(ms, step)`: registers one task that has not run yet and
        returns its identity (the handle the promise stands for). */
    method Timer(ms: real, hasStep: bool) returns (id: nat)
      requires Valid()
      modifies this
      ensures Valid()
      ensures id == old(nextId) && nextId == old(nextId) + 1
      ensures timers == old(timers) + [Task(id, ms, 0.0, hasStep)]
      ensures log == old(log)
    {
      id := nextId;
      timers := timers + [Task(id, ms, 0.0, hasStep)];
      nextId := nextId + 1;
    }

    /** `updateTimers(dt)`: one pass over the registry in registration
        order; the result is the pass the specification describes. */
    method UpdateTimers(dt: real)
      requires Valid()
      modifies this
      ensures Valid()
      ensures timers == UpdatePass(old(timers), dt).kept
      ensures log == old(log) + UpdatePass(old(timers), dt).events
      ensures nextId == old(nextId)
    {
      var pending := timers;
      var kept, calls := RunPass(pending, dt);
      timers := kept;
      log := log + calls;
      PassKeepsValidity(pending, old(log), nextId, dt);
    }
  }

  /** The loop of `updateTimers(dt)` over the registered tasks: the tasks it
      keeps and the callbacks it makes are those of the specification pass. */
  method RunPass(pending: seq<Task>, dt: real) returns (kept: seq<Task>, calls: seq<Event>)
    ensures kept == UpdatePass(pending, dt).kept && calls == UpdatePass(pending, dt).events
  {
    kept, calls := [], [];
    for i := 0 to |pending|
      invariant kept == UpdatePass(pending[..i], dt).kept
      invariant calls == UpdatePass(pending[..i], dt).events
    {
      PassStep(pending, i, dt);
      var task := pending[i].(elapsed := pending[i].elapsed + dt);
      var t := Progress(task.elapsed, task.duration);
      if task.hasStep {
        calls := calls + [Step(task.id, t)];
      }
      if AtLeastOne(t) {
        calls := calls + [Done(task.id)];
      } else {
        kept := kept + [task];
      }
    }
    assert pending[..|pending|] == pending;
  }

  /** The registry invariant survives a pass. */
  lemma PassKeepsValidity(ts: seq<Task>, log: seq<Event>, nextId: nat, dt: real)
    requires DistinctIds(ts) && Ids(ts) !! DoneIds(log) && DoneOnce(log)
    requires forall task :: task in ts ==> task.id < nextId
    requires forall e :: e in log ==> e.id < nextId
    ensures var p := UpdatePass(ts, dt);
      && DistinctIds(p.kept)
      && (forall task :: task in p.kept ==> task.id < nextId)
      && (forall e :: e in log + p.events ==> e.id < nextId)
      && Ids(p.kept) !! DoneIds(log + p.events)
      && DoneOnce(log + p.events)
  {
    var p := UpdatePass(ts, dt);
    PassIds(ts, dt);
    PassDistinct(ts, dt);
    PassDoneOnce(ts, dt);
    assert forall id :: id in Ids(ts) ==> id < nextId;
    assert DoneIds(p.events) <= Ids(ts);
    DoneOnceAppend(log, p.events);
  }

  lemma DoneOnceAppend(a: seq<Event>, b: seq<Event>)
    requires DoneOnce(a) && DoneOnce(b) && DoneIds(a) !! DoneIds(b)
    ensures DoneOnce(a + b)
    ensures DoneIds(a + b) == DoneIds(a) + DoneIds(b)
  {
    DoneIdsAppend(a, b);
    forall k, l | 0 <= k < l < |a + b| && (a + b)[k].Done? && (a + b)[l].Done?
      ensures (a + b)[k].id != (a + b)[l].id
    {
      if k < |a| && l >= |a| {
        assert (a + b)[k] == a[k] && (a + b)[l] == b[l - |a|];
        assert a[k].id in DoneIds(a);
        assert b[l - |a|].id in DoneIds(b);
      } else if k >= |a| {
        assert (a + b)[k] == b[k - |a|] && (a + b)[l] == b[l - |a|];
      }
    }
  }
}
