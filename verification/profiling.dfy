/** `openevolve/utils/profiling.py`: a profiler keeps a stack of open step
    names, the start time of each open step and the duration of each
    finished one, all keyed by the bare step name. The clock
    (`time.perf_counter`) is an input: every operation that reads it takes
    the reading as `now`. The profiler objects and the thread-local "active
    profiler" form an explicit world, so that a step run through the active
    profiler updates the very object a `with` block entered. */
module Profiling {
  import opened Common

  /** A profiler object's identity. */
  type ProfilerId = nat

  /** A profiler. `prev` is `_prev_profiler`, the profiler that was active
      when this one was last entered. */
  datatype Profiler = Profiler(name: string, timings: map<string, real>, startTimes: map<string, real>, stack: seq<string>, prev: Option<ProfilerId>)

  /** A fresh profiler: nothing timed, nothing open, never entered. */
  function NewProfiler(name: string): Profiler {
    Profiler(name, map[], map[], [], None)
  }

  /** `start`: note the step's start time (replacing any earlier one under
      the same name) and open it. */
  function Start(p: Profiler, step: string, now: real): (r: Profiler)
    ensures |r.stack| == |p.stack| + 1 && r.stack[..|p.stack|] == p.stack && r.stack[|p.stack|] == step
    ensures step in r.startTimes && r.startTimes[step] == now
    ensures r.startTimes.Keys == p.startTimes.Keys + {step}
    ensures forall k :: k in p.startTimes && k != step ==> r.startTimes[k] == p.startTimes[k]
    ensures r.timings == p.timings && r.name == p.name && r.prev == p.prev
  {
    assert (p.stack + [step])[..|p.stack|] == p.stack;
    p.(startTimes := p.startTimes[step := now], stack := p.stack + [step])
  }

  /** `stop`: ignored unless `step` is the innermost open step; otherwise it
      is closed and, if its start time is still known, its duration is
      recorded and the start time dropped. */
  function Stop(p: Profiler, step: string, now: real): (r: Profiler)
    ensures p.stack == [] || p.stack[|p.stack| - 1] != step ==> r == p
    ensures p.stack != [] && p.stack[|p.stack| - 1] == step ==>
              && r.stack == p.stack[..|p.stack| - 1]
              && step !in r.startTimes
              && (step in p.startTimes ==> step in r.timings && r.timings[step] == now - p.startTimes[step])
              && (step !in p.startTimes ==> r.timings == p.timings)
              && r.startTimes.Keys == p.startTimes.Keys - {step}
              && (forall k :: k in r.startTimes ==> r.startTimes[k] == p.startTimes[k])
              && r.timings.Keys == p.timings.Keys + (if step in p.startTimes then {step} else {})
              && (forall k :: k in p.timings && k != step ==> r.timings[k] == p.timings[k])
    ensures r.name == p.name && r.prev == p.prev
  {
    if p.stack == [] || p.stack[|p.stack| - 1] != step then p
    else
      var closed := p.(stack := p.stack[..|p.stack| - 1], startTimes := p.startTimes - {step});
      if step in p.startTimes then closed.(timings := p.timings[step := now - p.startTimes[step]]) else closed
  }

  /** Stopping a step that is not the innermost open one changes nothing. */
  lemma {:induction false} StopMismatchIgnored(p: Profiler, step: string, now: real)
    requires p.stack == [] || p.stack[|p.stack| - 1] != step
    ensures Stop(p, step, now) == p
  {
  }

  /** Starting and then stopping a step records the time between the two
      readings and leaves the profiler otherwise as it was, apart from any
      stale start time under that name. */
  lemma {:induction false} StartStopRecords(p: Profiler, step: string, t0: real, t1: real)
    ensures Stop(Start(p, step, t0), step, t1)
            == p.(timings := p.timings[step := t1 - t0], startTimes := p.startTimes - {step})
  {
    var q := Start(p, step, t0);
    assert q.stack[..|q.stack| - 1] == p.stack;
    assert q.startTimes - {step} == p.startTimes - {step};
  }

  /** `step`: start, run the body, stop (the stop runs whatever the body
      does, as in a `finally`). */
  function Step(p: Profiler, step: string, t0: real, body: Profiler -> Profiler, t1: real): (r: Profiler)
    ensures body(Start(p, step, t0)).stack == p.stack + [step] ==> r.stack == p.stack
  {
    assert (p.stack + [step])[..|p.stack|] == p.stack;
    Stop(body(Start(p, step, t0)), step, t1)
  }

  /** A body that leaves the stack as it found it makes the step leave the
      stack as it found it too; the step's duration is recorded unless the
      body consumed its start time. */
  lemma {:induction false} StepRestoresStack(p: Profiler, step: string, t0: real, body: Profiler -> Profiler, t1: real)
    requires body(Start(p, step, t0)).stack == Start(p, step, t0).stack
    ensures Step(p, step, t0, body, t1).stack == p.stack
    ensures step in body(Start(p, step, t0)).startTimes
            ==> Step(p, step, t0, body, t1).timings[step] == t1 - body(Start(p, step, t0)).startTimes[step]
  {
    var inner := body(Start(p, step, t0));
    assert inner.stack[|inner.stack| - 1] == step;
    assert inner.stack[..|inner.stack| - 1] == p.stack;
  }

  /** With a step of the same name open inside another, the inner stop
      records the inner duration and consumes the start time, so the outer
      stop records nothing: the outer step's duration is lost. */
  lemma {:induction false} NestedSameNameKeepsInner(p: Profiler, step: string, t0: real, t1: real, t2: real, t3: real)
    ensures var q := Stop(Stop(Start(Start(p, step, t0), step, t1), step, t2), step, t3);
            && q.timings == p.timings[step := t2 - t1]
            && q.stack == p.stack
  {
    var a := Start(p, step, t0);
    var b := Start(a, step, t1);
    StartStopRecords(a, step, t1, t2);
    var c := Stop(b, step, t2);
    assert c.stack == a.stack;
    assert c.stack[..|c.stack| - 1] == p.stack;
    assert step !in c.startTimes;
  }

  /** Every known start time is at most `now` and every duration is
      non-negative. */
  predicate Sane(p: Profiler, now: real) {
    && (forall k :: k in p.startTimes ==> p.startTimes[k] <= now)
    && (forall k :: k in p.timings ==> p.timings[k] >= 0.0)
  }

  /** Under a clock that never runs backwards, starting keeps the profiler
      sane. */
  lemma {:induction false} StartKeepsSane(p: Profiler, step: string, before: real, now: real)
    requires Sane(p, before) && before <= now
    ensures Sane(Start(p, step, now), now)
  {
  }

  /** Under a clock that never runs backwards, stopping records no negative
      duration. */
  lemma {:induction false} StopKeepsSane(p: Profiler, step: string, before: real, now: real)
    requires Sane(p, before) && before <= now
    ensures Sane(Stop(p, step, now), now)
  {
  }

  /** The profiler objects by identity, and the thread's active profiler
      (`_thread_local.active_profiler`). `saved` is the stack of profilers
      to make active again that the corrected enter and exit keep; the
      code as written has no such stack. Profiler objects never go away, so
      an identity outside `profilers` is never used: the operations below
      leave the world alone for one. */
  datatype World = World(profilers: map<ProfilerId, Profiler>, active: Option<ProfilerId>, saved: seq<Option<ProfilerId>>)

  /** `start` on the profiler object `id`. */
  function StartIn(w: World, id: ProfilerId, step: string, now: real): World {
    if id in w.profilers then w.(profilers := w.profilers[id := Start(w.profilers[id], step, now)]) else w
  }

  /** `stop` on the profiler object `id`. */
  function StopIn(w: World, id: ProfilerId, step: string, now: real): World {
    if id in w.profilers then w.(profilers := w.profilers[id := Stop(w.profilers[id], step, now)]) else w
  }

  /** `__enter__`: remember the active profiler on the profiler itself,
      become active, and open the root step under the profiler's name. */
  function Enter(w: World, id: ProfilerId, now: real): (r: World)
    ensures id in w.profilers ==>
              && r.active == Some(id)
              && r.profilers.Keys == w.profilers.Keys
              && r.profilers[id].prev == w.active
              && r.profilers[id].stack == w.profilers[id].stack + [w.profilers[id].name]
    ensures forall other :: other in w.profilers && other != id ==> other in r.profilers && r.profilers[other] == w.profilers[other]
  {
    if id in w.profilers then
      var p := w.profilers[id];
      w.(profilers := w.profilers[id := Start(p, p.name, now).(prev := w.active)], active := Some(id))
    else w
  }

  /** `__exit__`: close the root step and make the remembered profiler
      active again. */
  function Exit(w: World, id: ProfilerId, now: real): (r: World)
    ensures id in w.profilers ==> r.active == w.profilers[id].prev && r.profilers.Keys == w.profilers.Keys
    ensures forall other :: other in w.profilers && other != id ==> other in r.profilers && r.profilers[other] == w.profilers[other]
  {
    if id in w.profilers then
      var p := w.profilers[id];
      w.(profilers := w.profilers[id := Stop(p, p.name, now)], active := p.prev)
    else w
  }

  /** A `with` block on a profiler whose body balances its steps and does
      not enter the profiler again restores the active profiler and the
      profiler's stack, and records the root step's duration. */
  lemma {:induction false} EnterExitRestores(w: World, id: ProfilerId, t0: real, body: World -> World, t1: real)
    requires id in w.profilers
    requires var entered := Enter(w, id, t0); var inner := body(entered);
             && id in inner.profilers
             && inner.profilers[id].prev == w.active
             && inner.profilers[id].name == w.profilers[id].name
             && inner.profilers[id].stack == entered.profilers[id].stack
             && w.profilers[id].name in inner.profilers[id].startTimes
    ensures var left := Exit(body(Enter(w, id, t0)), id, t1);
            && left.active == w.active
            && id in left.profilers
            && left.profilers[id].stack == w.profilers[id].stack
            && w.profilers[id].name in left.profilers[id].timings
  {
    var p := w.profilers[id];
    var entered := Enter(w, id, t0);
    var q := body(entered).profilers[id];
    assert entered.profilers[id].stack == p.stack + [p.name];
    assert q.stack[|q.stack| - 1] == p.name;
    assert q.stack[..|q.stack| - 1] == p.stack;
  }

  /** As written, entering a profiler inside its own `with` block
      overwrites the remembered profiler with the profiler itself, so
      leaving both blocks leaves it active instead of the profiler that was
      active before. */
  lemma {:induction false} ReentryKeepsActive(w: World, id: ProfilerId, t0: real, t1: real, t2: real, t3: real)
    requires id in w.profilers && w.active != Some(id)
    ensures Exit(Exit(Enter(Enter(w, id, t0), id, t1), id, t2), id, t3).active == Some(id) != w.active
  {
  }

  /** Corrected `__enter__`: the active profiler is pushed on a stack
      instead of overwriting a single remembered one. */
  function EnterStacked(w: World, id: ProfilerId, now: real): World {
    if id in w.profilers then
      var p := w.profilers[id];
      w.(profilers := w.profilers[id := Start(p, p.name, now)], active := Some(id), saved := w.saved + [w.active])
    else w
  }

  /** Corrected `__exit__`: the profiler pushed last is made active again. */
  function ExitStacked(w: World, id: ProfilerId, now: real): World {
    if id in w.profilers then
      var p := w.profilers[id];
      var stopped := w.(profilers := w.profilers[id := Stop(p, p.name, now)]);
      if w.saved == [] then stopped
      else stopped.(active := w.saved[|w.saved| - 1], saved := w.saved[..|w.saved| - 1])
    else w
  }

  /** With the correction, a `with` block whose body leaves the stack of
      remembered profilers as it found it, re-entering blocks included,
      restores the active profiler and the stack. */
  lemma {:induction false} StackedEnterExitRestores(w: World, id: ProfilerId, t0: real, body: World -> World, t1: real)
    requires id in w.profilers
    requires var inner := body(EnterStacked(w, id, t0));
             id in inner.profilers && inner.saved == EnterStacked(w, id, t0).saved
    ensures var left := ExitStacked(body(EnterStacked(w, id, t0)), id, t1);
            left.active == w.active && left.saved == w.saved
  {
    assert EnterStacked(w, id, t0).saved[..|w.saved|] == w.saved;
  }

  /** With the correction, leaving a re-entered profiler's two blocks
      makes the profiler active before them active again. */
  lemma {:induction false} ReentryRestoresActive(w: World, id: ProfilerId, t0: real, t1: real, t2: real, t3: real)
    requires id in w.profilers
    ensures ExitStacked(ExitStacked(EnterStacked(EnterStacked(w, id, t0), id, t1), id, t2), id, t3).active == w.active
  {
    var once := EnterStacked(w, id, t0);
    var twice := EnterStacked(once, id, t1);
    assert twice.saved[..|once.saved|] == once.saved;
    assert once.saved[..|w.saved|] == w.saved;
  }

  /** `profile_step`: with an active profiler, a step on that profiler
      object around the body; with none, the body runs and the time is
      only logged. */
  function ProfileStep(w: World, step: string, t0: real, body: World -> World, t1: real): (s: World)
    ensures w.active.None? ==> s == body(w)
  {
    match w.active
    case None => body(w)
    case Some(id) => StopIn(body(StartIn(w, id, step, t0)), id, step, t1)
  }

  /** A body that does nothing. */
  function Pass(w: World): World {
    w
  }

  /** A `profile_step` inside a `with` block lands on the profiler the
      block entered: leaving the block, that profiler holds the step's
      duration and the root step's. */
  lemma {:induction false} WithBlockCollectsSteps(w: World, id: ProfilerId, step: string, t0: real, t1: real, t2: real, t3: real)
    requires id in w.profilers && step != w.profilers[id].name
    ensures var p := w.profilers[id];
            var left := Exit(ProfileStep(Enter(w, id, t0), step, t1, Pass, t2), id, t3);
            && left.active == w.active
            && id in left.profilers
            && left.profilers[id].timings == p.timings[step := t2 - t1][p.name := t3 - t0]
  {
    var p := w.profilers[id];
    var entered := Enter(w, id, t0);
    var e := entered.profilers[id];
    StartStopRecords(e, step, t1, t2);
    var inner := ProfileStep(entered, step, t1, Pass, t2);
    var q := inner.profilers[id];
    assert q.stack == p.stack + [p.name];
    assert q.stack[..|q.stack| - 1] == p.stack;
    assert q.startTimes[p.name] == t0;
  }
}
