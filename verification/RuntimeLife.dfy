/** The lives of tasks in terms of the steps of a run alone: where each task is,
    that none is lost, and that a resumption always happens when it is due. */
module RuntimeLife {
  import opened Collections
  import opened RuntimeModel
  import opened RuntimeSafety
  import opened RuntimeRuns

  // ---------------------------------------------------------- where a task is

  /** Not spawned yet, waiting in the spawner, runnable, in `WAITING`, or over:
      returned, or refused by a full spawner. */
  datatype Place = Unborn | Spawned | Runnable | Parked | Over

  ghost function PlaceOf(s: State, id: TaskId): Place {
    if id in s.spawner then Spawned
    else if id in s.queue then Runnable
    else if id in s.waiting then Parked
    else if id < s.spawned then Over
    else Unborn
  }

  /** Nobody is in two of the three places, or twice in one. */
  ghost predicate Apart(s: State) {
    && NoDup(s.spawner) && NoDup(s.queue)
    && (forall id <- s.spawner :: id !in s.queue && id !in s.waiting)
    && (forall id <- s.queue :: id !in s.waiting)
  }

  lemma InvApart(s: State)
    requires Inv(s)
    ensures Apart(s) && s.spawned <= ID_SPACE && |s.queue| <= CAPACITY
    ensures forall id :: id in s.tasks <==> id in s.queue || id in s.waiting
    ensures forall id :: id in s.spawner || id in s.tasks ==> id < s.spawned
  {
    hide Consistent;
  }

  lemma ApartAt(s: State, id: TaskId)
    requires Inv(s)
    ensures id in s.spawner ==> id !in s.queue && id !in s.waiting
    ensures id in s.queue ==> id !in s.waiting && id in s.tasks
    ensures id in s.spawner || id in s.queue || id in s.waiting ==> id < s.spawned
    ensures NoDup(s.queue) && NoDup(s.spawner)
  {
    InvApart(s);
    hide Inv;
  }

  lemma InConcat(a: seq<TaskId>, b: seq<TaskId>, id: TaskId)
    ensures id in a + b <==> id in a || id in b
  {
  }

  /** The id that a poll takes from the queue. */
  ghost predicate Polls(s: State, step: Step, id: TaskId) {
    step.PollStep? && s.queue != [] && s.queue[0] == id
  }

  /** What a step does to one task. */
  ghost function Moved(s: State, step: Step, id: TaskId): Place {
    var here := PlaceOf(s, id);
    match step
    case SpawnStep => if id != s.spawned then here else if |s.spawner| < CAPACITY then Spawned else Over
    case DrainStep => if s.spawner != [] && id == s.spawner[0] then Runnable else here
    case PollStep(action) =>
      if !Polls(s, step, id) then here
      else (match action case Yield => Runnable case WaitOn(_) => Parked case Return => Over)
    case RoundStep(status) => if here.Parked? && id in status && !status[id].Waiting? then Runnable else here
  }

  // ---------------------------------------------------- the effect of a step

  lemma {:induction false} ReportAllKeeps(s: State, ids: seq<TaskId>, status: map<TaskId, WaitStatus>)
    requires forall id <- ids :: id in s.waiting && id in status
    ensures var t := ReportAll(s, ids, status); t.tasks == s.tasks && t.spawner == s.spawner
    decreases |ids|
  {
    if ids != [] {
      ReportAllKeeps(Report(s, ids[0], status[ids[0]]), ids[1..], status);
    }
  }

  lemma {:induction false} WakeAllKeeps(s: State, ids: seq<TaskId>)
    ensures WakeAll(s, ids).tasks == s.tasks && WakeAll(s, ids).spawner == s.spawner
    decreases |ids|
  {
    if ids != [] && !s.panicked {
      WakeAllKeeps(Wake(s, ids[0]), ids[1..]);
    }
  }

  /** A wait round wakes the tasks whose waitables are finished, in the order of
      their ids, behind all that are runnable, and nobody else. */
  lemma RoundEffect(s: State, status: map<TaskId, WaitStatus>)
    requires Inv(s) && s.waiting.Keys <= status.Keys && !Round(s, status).panicked
    ensures var t := Round(s, status);
      && s.queue <= t.queue && t.spawner == s.spawner && t.spawned == s.spawned && t.tasks == s.tasks
      && Ascending(t.queue[|s.queue|..])
      && (forall id :: id in t.queue[|s.queue|..] <==> id in s.waiting && !status[id].Waiting?)
      && (forall id :: id in t.waiting <==> id in s.waiting && status[id].Waiting?)
  {
    var t, done := Round(s, status), DoneNow(s, status);
    var ids := Sorted(s.waiting.Keys);
    hide Inv, DoneOf, Sorted, WakeAll, ReportAll;
    RoundInv(s, status);
    ReportAllKeeps(s, ids, status);
    WakeAllKeeps(ReportAll(s, ids, status), DoneOf(ids, status));
    InvApart(s);
    InvApart(t);
    assert t.queue[|s.queue|..] == done;
    DoneAscending(ids, status);
  }

  lemma AscendingCons(x: TaskId, rest: seq<TaskId>)
    requires Ascending(rest) && forall id <- rest :: x < id
    ensures Ascending([x] + rest)
  {
    assert forall k :: 0 <= k < |rest| ==> rest[k] in rest;
  }

  lemma AscendingTail(ids: seq<TaskId>)
    requires Ascending(ids) && ids != []
    ensures Ascending(ids[1..]) && forall id <- ids[1..] :: ids[0] < id
  {
    assert forall k :: 0 <= k < |ids[1..]| ==> ids[1..][k] == ids[k + 1];
  }

  lemma {:induction false} DoneAscending(ids: seq<TaskId>, status: map<TaskId, WaitStatus>)
    requires Ascending(ids) && forall id <- ids :: id in status
    ensures Ascending(DoneOf(ids, status)) && forall id <- DoneOf(ids, status) :: id in ids
  {
    hide Ascending;
    if ids == [] {
      AscendingNone();
    } else {
      AscendingTail(ids);
      DoneAscending(ids[1..], status);
      assert ids == [ids[0]] + ids[1..];
      var rest := DoneOf(ids[1..], status);
      if status[ids[0]].Waiting? {
        assert DoneOf(ids, status) == rest;
      } else {
        assert DoneOf(ids, status) == [ids[0]] + rest;
        AscendingCons(ids[0], rest);
      }
    }
  }

  lemma AscendingNone()
    ensures Ascending([])
  {
  }

  lemma ResumeKeeps(s: State, id: TaskId)
    requires id in s.tasks
    ensures var t := Resume(s, id);
      t == s.(cells := t.cells, log := t.log, fault := t.fault)
  {
  }

  /** A poll takes the first runnable task; one that yields is runnable again,
      behind all others, one that waits is in `WAITING`, and one that returns is
      nowhere. */
  lemma PollEffect(s: State, action: Action)
    requires Inv(s) && CanPoll(s, action) && s.queue != []
    ensures var (t, id) := (PollNext(s, action), s.queue[0]);
      && t.spawner == s.spawner && t.spawned == s.spawned && !t.panicked
      && t.queue == s.queue[1..] + (if action.Yield? then [id] else [])
      && t.waiting.Keys == s.waiting.Keys + (if action.WaitOn? then {id} else {})
      && t.tasks.Keys == s.tasks.Keys - (if action.Return? then {id} else {})
  {
    InvApart(s);
    assert !s.panicked by { InvHistory(s); }
    hide Inv, Resume, CanPoll;
    var id := s.queue[0];
    assert id in s.queue;
    ResumeKeeps(s.(queue := s.queue[1..], current := id), id);
  }

  lemma SpawnEffect(s: State)
    requires Inv(s) && s.spawned < ID_SPACE
    ensures var t := Spawn(s);
      && t.spawner == s.spawner + (if |s.spawner| < CAPACITY then [s.spawned] else [])
      && t.spawned == s.spawned + 1 && t.queue == s.queue && t.waiting == s.waiting && t.tasks == s.tasks
  {
    hide Inv;
  }

  lemma DrainEffect(s: State)
    requires Inv(s) && s.spawner != [] && !DrainOne(s).panicked
    ensures var t := DrainOne(s);
      && t.spawner == s.spawner[1..] && t.queue == s.queue + [s.spawner[0]]
      && t.spawned == s.spawned && t.waiting == s.waiting && t.tasks.Keys == s.tasks.Keys + {s.spawner[0]}
  {
    InvApart(s);
    hide Inv;
  }

  lemma NoDupHead(ids: seq<TaskId>)
    requires NoDup(ids) && ids != []
    ensures ids[0] !in ids[1..] && ids == [ids[0]] + ids[1..]
    ensures forall id :: id in ids <==> id == ids[0] || id in ids[1..]
  {
    assert ids == [ids[0]] + ids[1..];
  }

  lemma SpawnMoves(s: State, id: TaskId)
    requires Inv(s) && s.spawned < ID_SPACE
    ensures PlaceOf(Spawn(s), id) == Moved(s, SpawnStep, id)
  {
    hide Inv, Spawn, NoDup;
    ApartAt(s, id);
    SpawnEffect(s);
    InConcat(s.spawner, if |s.spawner| < CAPACITY then [s.spawned] else [], id);
  }

  lemma DrainMoves(s: State, id: TaskId)
    requires Inv(s) && s.spawner != [] && !DrainOne(s).panicked
    ensures PlaceOf(DrainOne(s), id) == Moved(s, DrainStep, id)
  {
    hide Inv, DrainOne, NoDup;
    ApartAt(s, id);
    DrainEffect(s);
    NoDupHead(s.spawner);
    InConcat(s.queue, [s.spawner[0]], id);
  }

  lemma PollMoves(s: State, action: Action, id: TaskId)
    requires Inv(s) && CanPoll(s, action)
    ensures PlaceOf(PollNext(s, action), id) == Moved(s, PollStep(action), id)
  {
    hide Inv, PollNext, NoDup, CanPoll;
    if s.queue == [] {
      PollNone(s, action);
    } else {
      ApartAt(s, id);
      PollEffect(s, action);
      NoDupHead(s.queue);
      InConcat(s.queue[1..], if action.Yield? then [s.queue[0]] else [], id);
    }
  }

  lemma RoundMoves(s: State, status: map<TaskId, WaitStatus>, id: TaskId)
    requires Inv(s) && s.waiting.Keys <= status.Keys && !Round(s, status).panicked
    ensures PlaceOf(Round(s, status), id) == Moved(s, RoundStep(status), id)
  {
    hide Inv, Round, NoDup, Ascending;
    ApartAt(s, id);
    RoundEffect(s, status);
    var more := Round(s, status).queue[|s.queue|..];
    assert Round(s, status).queue == s.queue + more;
    InConcat(s.queue, more, id);
  }

  /** Every step moves every task as it should, the one the step is about and all
      others. */
  lemma StepMoves(s: State, step: Step, id: TaskId)
    requires Inv(s) && Legal(s, step) && !Apply(s, step).panicked && Apply(s, step).spawned <= ID_SPACE
    ensures PlaceOf(Apply(s, step), id) == Moved(s, step, id)
  {
    SpawnCounts(s);
    hide Inv, Round, PollNext, DrainOne, Spawn, PlaceOf, Moved, CanPoll;
    match step
    case SpawnStep => SpawnMoves(s, id);
    case DrainStep => DrainMoves(s, id);
    case PollStep(action) => PollMoves(s, action, id);
    case RoundStep(status) => RoundMoves(s, status, id);
  }

  lemma SpawnCounts(s: State)
    ensures Spawn(s).spawned == s.spawned + 1
  {
  }

  lemma PollNone(s: State, action: Action)
    requires s.queue == []
    ensures PollNext(s, action) == s
  {
  }

  // --------------------------------------------------------- nobody is lost

  function Spawns(steps: seq<Step>): nat {
    if steps == [] then 0 else (if steps[0].SpawnStep? then 1 else 0) + Spawns(steps[1..])
  }

  /** The ids whose spawns found room. */
  ghost function Accepted(s: State, steps: seq<Step>): set<TaskId>
    requires LegalRun(s, steps)
    decreases |steps|
  {
    if steps == [] then {}
    else (if steps[0].SpawnStep? && |s.spawner| < CAPACITY then {s.spawned} else {})
         + Accepted(Apply(s, steps[0]), steps[1..])
  }

  /** The ids that a poll ran to their end. */
  ghost function Returned(s: State, steps: seq<Step>): set<TaskId>
    requires LegalRun(s, steps)
    decreases |steps|
  {
    if steps == [] then {}
    else (if steps[0] == PollStep(Return) && s.queue != [] then {s.queue[0]} else {})
         + Returned(Apply(s, steps[0]), steps[1..])
  }

  ghost predicate Present(s: State, id: TaskId) {
    id in s.spawner || id in s.queue || id in s.waiting
  }

  lemma StepCounts(s: State, step: Step)
    requires Legal(s, step)
    ensures Apply(s, step).spawned == s.spawned + (if step.SpawnStep? then 1 else 0)
    ensures s.panicked ==> Apply(s, step).panicked
  {
    hide Sorted, DoneOf, ReportAll, WakeAll, CanPoll;
    match step
    case SpawnStep =>
    case DrainStep =>
    case PollStep(action) =>
      if s.queue != [] && s.queue[0] in s.tasks {
        ResumeKeeps(s.(queue := s.queue[1..], current := s.queue[0]), s.queue[0]);
        hide Resume;
      }
    case RoundStep(status) =>
      var ids := Sorted(s.waiting.Keys);
      ReportAllSpawned(s, ids, status);
      WakeAllSpawned(ReportAll(s, ids, status), DoneOf(ids, status));
  }

  lemma {:induction false} RunSpawns(s: State, steps: seq<Step>)
    requires LegalRun(s, steps)
    ensures Exec(s, steps).spawned == s.spawned + Spawns(steps)
    ensures s.panicked ==> Exec(s, steps).panicked
    ensures forall id <- Accepted(s, steps) :: s.spawned <= id
    decreases |steps|
  {
    hide Legal, Apply;
    if steps != [] {
      StepCounts(s, steps[0]);
      RunSpawns(Apply(s, steps[0]), steps[1..]);
    }
  }

  /** What one step makes of the tasks that are there. */
  lemma StepPresent(s: State, step: Step, id: TaskId)
    requires Inv(s) && Legal(s, step) && !Apply(s, step).panicked && Apply(s, step).spawned <= ID_SPACE
    ensures Present(Apply(s, step), id) <==>
      (Present(s, id) || (step.SpawnStep? && |s.spawner| < CAPACITY && id == s.spawned))
      && !(step == PollStep(Return) && Polls(s, step, id))
    ensures Present(s, id) ==> id < s.spawned
  {
    hide Inv, Apply;
    StepMoves(s, step, id);
    ApartAt(s, id);
    assert Present(Apply(s, step), id) <==> Moved(s, step, id) in {Spawned, Runnable, Parked};
    if s.spawner != [] { assert s.spawner[0] in s.spawner; }
    if s.queue != [] { assert s.queue[0] in s.queue; }
  }

  lemma {:induction false} RunPresent(s: State, steps: seq<Step>, id: TaskId)
    requires Inv(s) && LegalRun(s, steps) && !Exec(s, steps).panicked && Exec(s, steps).spawned <= ID_SPACE
    ensures Inv(Exec(s, steps))
    ensures Present(Exec(s, steps), id) <==>
      (Present(s, id) || id in Accepted(s, steps)) && id !in Returned(s, steps)
    decreases |steps|
  {
    hide Inv, Apply, Legal, Present;
    if steps != [] {
      var t := Apply(s, steps[0]);
      RunSpawns(t, steps[1..]);
      StepCounts(s, steps[0]);
      InvHistory(s);
      StepGood(s, steps[0]);
      StepPresent(s, steps[0], id);
      RunPresent(t, steps[1..], id);
      if steps[0] == PollStep(Return) && s.queue != [] && s.queue[0] == id {
        HeadPresent(s);
      }
    }
  }

  lemma HeadPresent(s: State)
    requires s.queue != []
    ensures Present(s, s.queue[0])
  {
  }

  /** No task is ever lost, duplicated or brought back: after any run in which no
      push overflowed, an id is in exactly one of the spawner, the run queue and
      `WAITING`, and once, if and only if its spawn was accepted and no poll has
      run it to its end. */
  lemma NobodyLost(steps: seq<Step>, id: TaskId)
    requires LegalRun(INITIAL, steps) && Spawns(steps) <= ID_SPACE && !Exec(INITIAL, steps).panicked
    ensures var s := Exec(INITIAL, steps);
      && s.spawned == Spawns(steps) && Apart(s)
      && (Present(s, id) <==> id in Accepted(INITIAL, steps) && id !in Returned(INITIAL, steps))
  {
    InitialInv();
    RunSpawns(INITIAL, steps);
    hide Inv, Exec, LegalRun, Accepted, Returned;
    RunPresent(INITIAL, steps, id);
    InvApart(Exec(INITIAL, steps));
    assert !Present(INITIAL, id);
  }

  // ----------------------------------------------------- resumed when it is due

  ghost predicate Ended(log: seq<Event>, e: Event) {
    exists ok :: Resumed(e.id, e.wait, ok) in log
  }

  ghost predicate StillWaits(tasks: map<TaskId, Future>, e: Event) {
    e.id in tasks && tasks[e.id].AtWait? && tasks[e.id].wait == e.wait
  }

  /** Every wait has been resumed, or its task is still inside it. */
  ghost predicate Accounted(tasks: map<TaskId, Future>, log: seq<Event>) {
    forall e <- log :: e.Suspended? ==> Ended(log, e) || StillWaits(tasks, e)
  }

  lemma AccountedMore(tasks: map<TaskId, Future>, log: seq<Event>, e: Event)
    requires Accounted(tasks, log) && !e.Suspended?
    ensures Accounted(tasks, log + [e])
  {
    forall x <- log + [e] | x.Suspended? ensures Ended(log + [e], x) || StillWaits(tasks, x) {
      assert x in log;
      if ok :| Resumed(x.id, x.wait, ok) in log {
        assert Resumed(x.id, x.wait, ok) in log + [e];
      }
    }
  }

  lemma {:induction false} ReportAllAccounted(s: State, ids: seq<TaskId>, status: map<TaskId, WaitStatus>)
    requires forall id <- ids :: id in s.waiting && id in status
    requires Accounted(s.tasks, s.log)
    ensures var t := ReportAll(s, ids, status); Accounted(t.tasks, t.log)
    decreases |ids|
  {
    hide Accounted;
    if ids != [] {
      AccountedMore(s.tasks, s.log, Reported(ids[0], s.waiting[ids[0]].wait, status[ids[0]]));
      ReportAllAccounted(Report(s, ids[0], status[ids[0]]), ids[1..], status);
    }
  }

  lemma {:induction false} WakeAllAccounted(s: State, ids: seq<TaskId>)
    ensures WakeAll(s, ids).tasks == s.tasks && WakeAll(s, ids).log == s.log
    decreases |ids|
  {
    if ids != [] && !s.panicked {
      WakeAllAccounted(Wake(s, ids[0]), ids[1..]);
    }
  }

  /** When the task is polled again, all its waits are over. */
  lemma ResumeEnds(s: State, id: TaskId)
    requires id in s.tasks && Accounted(s.tasks, s.log)
    requires s.tasks[id].AtWait? ==> s.tasks[id].cell in s.cells
    ensures var t := Resume(s, id);
      Accounted(t.tasks, t.log) && forall e <- t.log :: e.Suspended? && e.id == id ==> Ended(t.log, e)
  {
    var t := Resume(s, id);
    if s.tasks[id].AtWait? {
      var r := Resumed(id, s.tasks[id].wait, s.cells[s.tasks[id].cell]);
      AccountedMore(s.tasks, s.log, r);
      assert t.log == s.log + [r] && r in t.log;
    }
  }

  lemma ActAccounted(s: State, id: TaskId, action: Action)
    requires Accounted(s.tasks, s.log) && forall e <- s.log :: e.Suspended? && e.id == id ==> Ended(s.log, e)
    ensures Accounted(Act(s, id, action).tasks, Act(s, id, action).log)
    ensures s.log <= Act(s, id, action).log
  {
    var t := Act(s, id, action);
    assert s.log <= t.log && forall e <- t.log :: e in s.log || StillWaits(t.tasks, e);
    assert forall e <- s.log :: e.id != id && StillWaits(s.tasks, e) ==> StillWaits(t.tasks, e);
    hide Act, StillWaits, Ended;
    forall e <- t.log | e.Suspended? ensures Ended(t.log, e) || StillWaits(t.tasks, e) {
      if e in s.log && Ended(s.log, e) {
        EndedMore(s.log, t.log, e);
      }
    }
  }

  lemma CellLive(s: State, id: TaskId)
    requires Inv(s) && id in s.tasks && s.tasks[id].AtWait?
    ensures s.tasks[id].cell in s.cells
  {
    assert Waits(s.tasks, id);
  }

  lemma EndedMore(log: seq<Event>, more: seq<Event>, e: Event)
    requires Ended(log, e) && log <= more
    ensures Ended(more, e)
  {
    var ok :| Resumed(e.id, e.wait, ok) in log;
    assert Resumed(e.id, e.wait, ok) in more;
  }

  lemma PollAccounted(s: State, action: Action)
    requires Inv(s) && Accounted(s.tasks, s.log) && CanPoll(s, action)
    ensures var t := PollNext(s, action);
      && Accounted(t.tasks, t.log) && s.log <= t.log
      && (s.queue != [] ==> forall e <- s.log :: e.Suspended? && e.id == s.queue[0] ==> Ended(t.log, e))
  {
    hide Inv, Accounted, CanPoll, Ended;
    if s.queue != [] {
      var id := s.queue[0];
      ApartAt(s, id);
      if s.tasks[id].AtWait? { CellLive(s, id); }
      var s1 := s.(queue := s.queue[1..], current := id);
      var r := Resume(s1, id);
      ResumeEnds(s1, id);
      ActAccounted(r, id, action);
      assert s.log <= r.log && PollNext(s, action) == Act(r, id, action);
      hide Resume, Act, PollNext;
      forall e <- s.log | e.Suspended? && e.id == id ensures Ended(PollNext(s, action).log, e) {
        EndedMore(r.log, PollNext(s, action).log, e);
      }
    }
  }

  lemma StepAccounted(s: State, step: Step)
    requires Good(s) && Accounted(s.tasks, s.log) && Legal(s, step)
    ensures Accounted(Apply(s, step).tasks, Apply(s, step).log)
  {
    hide Inv, Accounted, PollNext, CanPoll, Sorted, DoneOf, ReportAll, WakeAll;
    match step
    case SpawnStep =>
    case DrainStep =>
      InvApart(s);
      assert s.spawner[0] in s.spawner;
      DrainAccounted(s);
    case PollStep(action) => PollAccounted(s, action);
    case RoundStep(status) =>
      var ids := Sorted(s.waiting.Keys);
      ReportAllAccounted(s, ids, status);
      WakeAllAccounted(ReportAll(s, ids, status), DoneOf(ids, status));
  }

  lemma DrainAccounted(s: State)
    requires Accounted(s.tasks, s.log) && s.spawner != [] && s.spawner[0] !in s.tasks
    ensures Accounted(DrainOne(s).tasks, DrainOne(s).log)
  {
  }

  lemma {:induction false} RunAccounted(s: State, steps: seq<Step>)
    requires Good(s) && Accounted(s.tasks, s.log) && LegalRun(s, steps) && Exec(s, steps).spawned <= ID_SPACE
    ensures Accounted(Exec(s, steps).tasks, Exec(s, steps).log)
    decreases |steps|
  {
    hide Good, Apply, Accounted;
    if steps != [] {
      var t := Apply(s, steps[0]);
      RunSpawned(t, steps[1..]);
      StepAccounted(s, steps[0]);
      StepGood(s, steps[0]);
      RunAccounted(t, steps[1..]);
    }
  }

  /** After any run, the next poll of a task resumes every wait that the task has
      suspended in and not been resumed from. */
  lemma ResumedWhenPolled(steps: seq<Step>, action: Action, e: Event)
    requires LegalRun(INITIAL, steps) && Spawns(steps) <= ID_SPACE
    requires var s := Exec(INITIAL, steps);
      Legal(s, PollStep(action)) && s.queue != [] && e in s.log && e.Suspended? && e.id == s.queue[0]
    ensures exists ok :: Resumed(e.id, e.wait, ok) in Apply(Exec(INITIAL, steps), PollStep(action)).log
  {
    InitialInv();
    assert Good(INITIAL);
    RunSpawns(INITIAL, steps);
    RunGood(INITIAL, steps);
    RunAccounted(INITIAL, steps);
    hide Exec, LegalRun, Inv, Accounted;
    PollAccounted(Exec(INITIAL, steps), action);
  }
}
