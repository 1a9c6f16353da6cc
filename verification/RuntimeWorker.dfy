/** The worker object and its loops, each proved to be the step of the state
    machine it stands for. */
module RuntimeWorker {
  import opened Collections
  import opened RuntimeModel

  /** One iteration of the scheduling loop: drain, pop, poll. */
  function Visit(s: State, action: Action): State {
    var d := DrainAll(s);
    if d.panicked then d else PollNext(d, action)
  }

  /** `task_per_round` visits. */
  function Visits(s: State, actions: seq<Action>): State
    decreases |actions|
  {
    if actions == [] || s.panicked then s else Visits(Visit(s, actions[0]), actions[1..])
  }

  predicate CanVisit(s: State, actions: seq<Action>)
    decreases |actions|
  {
    actions == [] || s.panicked || DrainAll(s).panicked
    || (CanPoll(DrainAll(s), actions[0]) && CanVisit(Visit(s, actions[0]), actions[1..]))
  }

  lemma {:induction false} ExecConcat(s: State, a: seq<Step>, b: seq<Step>)
    requires LegalRun(s, a) && LegalRun(Exec(s, a), b)
    ensures LegalRun(s, a + b) && Exec(s, a + b) == Exec(Exec(s, a), b)
    decreases |a|
  {
    if a == [] {
      assert a + b == b;
    } else {
      assert (a + b)[1..] == a[1..] + b;
      ExecConcat(Apply(s, a[0]), a[1..], b);
    }
  }

  /** What a run does besides draining. */
  function Visible(steps: seq<Step>): seq<Step> {
    if steps == [] then []
    else (if steps[0].DrainStep? then [] else [steps[0]]) + Visible(steps[1..])
  }

  lemma {:induction false} VisibleConcat(a: seq<Step>, b: seq<Step>)
    ensures Visible(a + b) == Visible(a) + Visible(b)
  {
    if a == [] {
      assert a + b == b;
    } else {
      assert (a + b)[1..] == a[1..] + b;
      VisibleConcat(a[1..], b);
    }
  }

  /** Every poll of the run finds the spawner empty. */
  ghost predicate Drained(s: State, steps: seq<Step>)
    requires LegalRun(s, steps)
    decreases |steps|
  {
    steps == []
    || ((steps[0].PollStep? ==> s.spawner == []) && Drained(Apply(s, steps[0]), steps[1..]))
  }

  lemma {:induction false} DrainedConcat(s: State, a: seq<Step>, b: seq<Step>)
    requires LegalRun(s, a) && LegalRun(Exec(s, a), b) && LegalRun(s, a + b)
    requires Drained(s, a) && Drained(Exec(s, a), b)
    ensures Drained(s, a + b)
    decreases |a|
  {
    hide Legal, Apply;
    if a == [] {
      assert a + b == b;
    } else {
      assert (a + b)[1..] == a[1..] + b;
      DrainedConcat(Apply(s, a[0]), a[1..], b);
    }
  }

  lemma {:induction false} DrainAllIsRun(s: State) returns (steps: seq<Step>)
    requires !s.panicked
    ensures LegalRun(s, steps) && Exec(s, steps) == DrainAll(s)
    ensures Visible(steps) == [] && Drained(s, steps)
    ensures !DrainAll(s).panicked ==> DrainAll(s).spawner == []
    decreases |s.spawner|
  {
    steps := [];
    if s.spawner != [] {
      var rest: seq<Step> := [];
      if !DrainOne(s).panicked {
        rest := DrainAllIsRun(DrainOne(s));
      }
      steps := [DrainStep] + rest;
      assert steps[1..] == rest;
    }
  }

  /** One poll for each action, in order. */
  function Polls(actions: seq<Action>): seq<Step> {
    seq(|actions|, i requires 0 <= i < |actions| => PollStep(actions[i]))
  }

  /** A run that does what it is meant to do, unless a push overflows. */
  ghost predicate Does(s: State, steps: seq<Step>, script: seq<Step>) {
    && LegalRun(s, steps) && Drained(s, steps)
    && (!Exec(s, steps).panicked ==> Visible(steps) == script)
  }

  lemma DoesConcat(s: State, a: seq<Step>, b: seq<Step>, before: seq<Step>, after: seq<Step>)
    requires Does(s, a, before) && !Exec(s, a).panicked && Does(Exec(s, a), b, after)
    ensures Does(s, a + b, before + after) && Exec(s, a + b) == Exec(Exec(s, a), b)
  {
    hide LegalRun, Exec, Drained, Visible;
    ExecConcat(s, a, b);
    DrainedConcat(s, a, b);
    VisibleConcat(a, b);
  }

  lemma OneStep(s: State, step: Step)
    requires Legal(s, step) && (step.PollStep? ==> s.spawner == []) && !step.DrainStep?
    ensures Does(s, [step], [step]) && Exec(s, [step]) == Apply(s, step)
  {
    hide Apply, Legal;
    assert [step][1..] == [];
    assert Drained(Apply(s, step), []) && Drained(s, [step]);
    assert Visible([step]) == [step] + Visible([]);
  }

  /** One visit: all that was spawned is drained, and then there is one poll. */
  lemma VisitIsRun(s: State, action: Action) returns (steps: seq<Step>)
    requires !s.panicked && (DrainAll(s).panicked || CanPoll(DrainAll(s), action))
    ensures Does(s, steps, [PollStep(action)]) && Exec(s, steps) == Visit(s, action)
  {
    hide CanPoll, PollNext, DrainAll, LegalRun, Exec, Drained, Visible;
    steps := DrainAllIsRun(s);
    var d := DrainAll(s);
    if !d.panicked {
      OneStep(d, PollStep(action));
      DoesConcat(s, steps, [PollStep(action)], [], [PollStep(action)]);
      steps := steps + [PollStep(action)];
    }
  }

  /** The loop over `task_per_round` visits is one of the runs: a poll for each
      visit, each of which finds the spawner empty. */
  lemma {:induction false} VisitsAreRun(s: State, actions: seq<Action>) returns (steps: seq<Step>)
    requires CanVisit(s, actions)
    ensures LegalRun(s, steps) && Exec(s, steps) == Visits(s, actions) && Does(s, steps, Polls(actions))
    decreases |actions|
  {
    if actions == [] || s.panicked {
      steps := [];
      assert Visible([]) == [] && Polls([]) == [];
    } else {
      hide CanPoll, Visit, LegalRun, Exec, Drained, Visible;
      steps := VisitIsRun(s, actions[0]);
      var v := Visit(s, actions[0]);
      if v.panicked {
        assert Visits(v, actions[1..]) == v;
      } else {
        VisitPanics(s, actions[0]);
        var rest := VisitsAreRun(v, actions[1..]);
        DoesConcat(s, steps, rest, [PollStep(actions[0])], Polls(actions[1..]));
        steps := steps + rest;
        assert [PollStep(actions[0])] + Polls(actions[1..]) == Polls(actions);
      }
    }
  }

  lemma VisitPanics(s: State, action: Action)
    ensures DrainAll(s).panicked ==> Visit(s, action).panicked
  {
  }

  /** What a round of the worker's loop meets: how many tasks other threads have
      spawned since, what the visited tasks do, and what the waitables report. */
  datatype Input = Input(spawns: nat, actions: seq<Action>, status: map<TaskId, WaitStatus>)

  function Spawns(s: State, n: nat): (t: State)
    ensures t.panicked == s.panicked
    decreases n
  {
    if n == 0 then s else Spawns(RuntimeModel.Spawn(s), n - 1)
  }

  predicate CanRound(s: State, input: Input) {
    var t := Spawns(s, input.spawns);
    var v := Visits(t, input.actions);
    CanVisit(t, input.actions) && (!v.panicked ==> v.waiting.Keys <= input.status.Keys)
  }

  /** One turn of the loop in `start`: visits, then a wait round. */
  function Turn(s: State, input: Input): State
    requires CanRound(s, input)
  {
    var v := Visits(Spawns(s, input.spawns), input.actions);
    if v.panicked then v else Round(v, input.status)
  }

  predicate CanRun(s: State, inputs: seq<Input>)
    decreases |inputs|
  {
    inputs == [] || s.panicked || (CanRound(s, inputs[0]) && CanRun(Turn(s, inputs[0]), inputs[1..]))
  }

  function Turns(s: State, inputs: seq<Input>): State
    requires CanRun(s, inputs)
    decreases |inputs|
  {
    if inputs == [] || s.panicked then s else Turns(Turn(s, inputs[0]), inputs[1..])
  }

  /** What a turn is meant to do: the spawns that came in, a poll for each visit,
      and one pass over the waitables. */
  function Script(input: Input): seq<Step> {
    seq(input.spawns, _ => SpawnStep) + Polls(input.actions) + [RoundStep(input.status)]
  }

  function Scripts(inputs: seq<Input>): seq<Step> {
    if inputs == [] then [] else Script(inputs[0]) + Scripts(inputs[1..])
  }

  lemma {:induction false} SpawnsAreRun(s: State, n: nat) returns (steps: seq<Step>)
    requires !s.panicked
    ensures Does(s, steps, seq(n, _ => SpawnStep)) && Exec(s, steps) == Spawns(s, n)
    decreases n
  {
    if n == 0 {
      steps := [];
    } else {
      hide LegalRun, Exec, Drained, Visible;
      OneStep(s, SpawnStep);
      var rest := SpawnsAreRun(RuntimeModel.Spawn(s), n - 1);
      DoesConcat(s, [SpawnStep], rest, [SpawnStep], seq(n - 1, _ => SpawnStep));
      steps := [SpawnStep] + rest;
      assert [SpawnStep] + seq(n - 1, _ => SpawnStep) == seq(n, _ => SpawnStep);
    }
  }

  lemma TurnIsRun(s: State, input: Input) returns (steps: seq<Step>)
    requires CanRound(s, input) && !s.panicked
    ensures Does(s, steps, Script(input)) && Exec(s, steps) == Turn(s, input)
  {
    hide CanVisit, Visits, Spawns, Round, LegalRun, Exec, Drained, Visible, Polls;
    var spawns := SpawnsAreRun(s, input.spawns);
    var t := Spawns(s, input.spawns);
    var visits := VisitsAreRun(t, input.actions);
    var start := seq(input.spawns, _ => SpawnStep);
    DoesConcat(s, spawns, visits, start, Polls(input.actions));
    steps := spawns + visits;
    var v := Visits(t, input.actions);
    if !v.panicked {
      OneStep(v, RoundStep(input.status));
      DoesConcat(s, steps, [RoundStep(input.status)], start + Polls(input.actions), [RoundStep(input.status)]);
      steps := steps + [RoundStep(input.status)];
    }
  }

  /** Whatever the loop in `start` does is one of the runs, so that everything
      proved about runs holds for it.  Turn by turn it takes in the spawns, polls a
      task per visit, with nothing left in the spawner, and passes over all
      waitables once; besides it only drains. */
  lemma {:induction false} TurnsAreRun(s: State, inputs: seq<Input>) returns (steps: seq<Step>)
    requires CanRun(s, inputs)
    ensures LegalRun(s, steps) && Exec(s, steps) == Turns(s, inputs) && Does(s, steps, Scripts(inputs))
    decreases |inputs|
  {
    if inputs == [] || s.panicked {
      steps := [];
    } else {
      hide CanRound, Turn, LegalRun, Exec, Drained, Visible, Script;
      steps := TurnIsRun(s, inputs[0]);
      var t := Turn(s, inputs[0]);
      if t.panicked {
        assert Turns(t, inputs[1..]) == t;
      } else {
        var rest := TurnsAreRun(t, inputs[1..]);
        DoesConcat(s, steps, rest, Script(inputs[0]), Scripts(inputs[1..]));
        steps := steps + rest;
      }
    }
  }

  lemma ReportKeeps(s: State, id: TaskId, status: WaitStatus)
    requires id in s.waiting
    ensures Report(s, id, status).waiting == s.waiting
  {
  }

  lemma {:induction false} ReportAllSnoc(s: State, ids: seq<TaskId>, id: TaskId, status: map<TaskId, WaitStatus>)
    requires (forall x <- ids :: x in s.waiting && x in status) && id in s.waiting && id in status
    ensures ReportAll(s, ids + [id], status) == Report(ReportAll(s, ids, status), id, status[id])
    decreases |ids|
  {
    hide Report;
    if ids == [] {
      assert ([] + [id])[1..] == [];
    } else {
      ReportKeeps(s, ids[0], status[ids[0]]);
      assert (ids + [id])[1..] == ids[1..] + [id];
      ReportAllSnoc(Report(s, ids[0], status[ids[0]]), ids[1..], id, status);
    }
  }

  lemma {:induction false} DoneOfSnoc(ids: seq<TaskId>, id: TaskId, status: map<TaskId, WaitStatus>)
    requires (forall x <- ids :: x in status) && id in status
    ensures DoneOf(ids + [id], status) == DoneOf(ids, status) + if status[id].Waiting? then [] else [id]
  {
    if ids == [] {
      assert ([] + [id])[1..] == [];
    } else {
      assert (ids + [id])[1..] == ids[1..] + [id];
      DoneOfSnoc(ids[1..], id, status);
    }
  }

  lemma ReportAllStep(s: State, ids: seq<TaskId>, i: nat, status: map<TaskId, WaitStatus>)
    requires i < |ids| && forall id <- ids :: id in s.waiting && id in status
    ensures ReportAll(s, ids[..i + 1], status) == Report(ReportAll(s, ids[..i], status), ids[i], status[ids[i]])
    ensures DoneOf(ids[..i + 1], status)
            == DoneOf(ids[..i], status) + if status[ids[i]].Waiting? then [] else [ids[i]]
  {
    hide ReportAll, DoneOf, Report;
    assert ids[..i + 1] == ids[..i] + [ids[i]];
    ReportAllSnoc(s, ids[..i], ids[i], status);
    DoneOfSnoc(ids[..i], ids[i], status);
  }

  lemma ReportAllNone(s: State, status: map<TaskId, WaitStatus>)
    ensures ReportAll(s, [], status) == s && DoneOf([], status) == []
  {
  }

  class Worker {
    var spawned: nat
    var spawner: seq<TaskId>
    var queue: seq<TaskId>
    var tasks: map<TaskId, Future>
    var waiting: map<TaskId, Waitable>
    var cells: map<Addr, bool>
    var current: TaskId
    var panicked: bool
    var waits: nat
    ghost var log: seq<Event>
    ghost var fault: bool

    ghost function Model(): State
      reads this
    {
      State(spawned, spawner, queue, tasks, waiting, cells, current, panicked, waits, log, fault)
    }

    constructor ()
      ensures Model() == INITIAL
    {
      spawned, spawner, queue, tasks, waiting := 0, [], [], map[], map[];
      cells, current, panicked, waits, log, fault := map[], 0, false, 0, [], false;
    }

    method Spawn() returns (accepted: bool)
      modifies this
      ensures Model() == RuntimeModel.Spawn(old(Model()))
      ensures accepted <==> old(|spawner|) < CAPACITY
    {
      var id := IdOf(spawned);
      spawned := spawned + 1;
      accepted := |spawner| < CAPACITY;
      if accepted {
        spawner := spawner + [id];
      }
    }

    method PushId(id: TaskId)
      modifies this`queue, this`panicked
      ensures Model() == Push(old(Model()), id)
    {
      if |queue| < CAPACITY {
        queue := queue + [id];
      } else {
        panicked := true;
      }
    }

    method FindTask() returns (r: Option<TaskId>)
      requires !panicked
      modifies this
      ensures var d := DrainAll(old(Model()));
        && Model() == (if d.panicked || d.queue == [] then d else d.(queue := d.queue[1..]))
        && r == (if d.panicked || d.queue == [] then None else Some(d.queue[0]))
    {
      while spawner != [] && !panicked
        invariant DrainAll(Model()) == DrainAll(old(Model()))
        decreases |spawner|
      {
        var id := spawner[0];
        spawner := spawner[1..];
        tasks := tasks[id := Start];
        PushId(id);
      }
      if panicked || queue == [] {
        return None;
      }
      r := Some(queue[0]);
      queue := queue[1..];
    }

    /** The second poll of `Yield` or `Wait` completes; `wait_on` reads and
        frees its cell. */
    method ResumeTask(id: TaskId)
      requires id in tasks
      modifies this`log, this`cells, this`fault
      ensures Model() == Resume(old(Model()), id)
    {
      if tasks[id].AtWait? {
        var cell, wait := tasks[id].cell, tasks[id].wait;
        if cell in cells {
          log := log + [Resumed(id, wait, cells[cell])];
          cells := cells - {cell};
        } else {
          fault := true;
        }
      }
    }

    /** The task runs to its next suspension point. */
    method SuspendTask(id: TaskId, action: Action)
      modifies this
      ensures Model() == Act(old(Model()), id, action)
      ensures action.Yield? && old(|queue|) < CAPACITY ==> queue == old(queue) + [id] && id in tasks
      ensures action.WaitOn? ==> current in waiting && id in tasks && queue == old(queue)
      ensures action.Return? ==> id !in tasks && queue == old(queue)
    {
      match action
      case Yield =>
        tasks := tasks[id := AtYield];
        PushId(id);
      case WaitOn(cell) =>
        tasks := tasks[id := AtWait(cell, waits)];
        waiting := waiting[current := Waitable(waits, cell)];
        cells := cells[cell := false];
        log := log + [Suspended(id, waits)];
        waits := waits + 1;
      case Return =>
        tasks := tasks - {id};
    }

    method PollTask(id: TaskId, action: Action)
      requires !panicked
      modifies this
      ensures var s := old(Model());
        Model() == if id !in s.tasks then s else Act(Resume(s.(current := id), id), id, action)
    {
      if id in tasks {
        current := id;
        ResumeTask(id);
        SuspendTask(id, action);
      }
    }

    method VisitOnce(action: Action)
      requires !panicked
      modifies this
      ensures Model() == Visit(old(Model()), action)
    {
      var r := FindTask();
      if r.Some? {
        PollTask(r.value, action);
      }
    }

    method RunTasks(actions: seq<Action>)
      requires !panicked
      modifies this
      ensures Model() == Visits(old(Model()), actions)
    {
      hide Visit;
      var i := 0;
      while i < |actions| && !panicked
        invariant 0 <= i <= |actions|
        invariant Visits(Model(), actions[i..]) == Visits(old(Model()), actions)
      {
        assert actions[i..][1..] == actions[i + 1..];
        VisitOnce(actions[i]);
        i := i + 1;
      }
    }

    /** Polls one waitable; `done` says that it finished. */
    method PollWaitable(id: TaskId, status: WaitStatus) returns (done: bool)
      requires id in waiting
      modifies this`log, this`cells, this`fault
      ensures Model() == Report(old(Model()), id, status)
      ensures done <==> !status.Waiting?
    {
      var w := waiting[id];
      log := log + [Reported(id, w.wait, status)];
      done := status.Ready? || status.Error?;
      if done {
        if w.cell in cells {
          cells := cells[w.cell := status.Ready?];
        } else {
          fault := true;
        }
      }
    }

    method PollWaitables(ids: seq<TaskId>, status: map<TaskId, WaitStatus>) returns (done: seq<TaskId>)
      requires forall id <- ids :: id in waiting && id in status
      modifies this`log, this`cells, this`fault
      ensures Model() == ReportAll(old(Model()), ids, status)
      ensures done == DoneOf(ids, status)
    {
      hide Report, ReportAll, DoneOf;
      done := [];
      assert ids[..0] == [];
      ReportAllNone(Model(), status);
      for i := 0 to |ids|
        invariant Model() == ReportAll(old(Model()), ids[..i], status)
        invariant done == DoneOf(ids[..i], status)
      {
        ReportAllStep(old(Model()), ids, i, status);
        var over := PollWaitable(ids[i], status[ids[i]]);
        if over {
          done := done + [ids[i]];
        }
      }
      assert ids[..|ids|] == ids;
    }

    method WakeTask(id: TaskId)
      modifies this`waiting, this`queue, this`panicked
      ensures Model() == Wake(old(Model()), id)
    {
      waiting := waiting - {id};
      if id in tasks {
        PushId(id);
      }
    }

    method WaitRound(status: map<TaskId, WaitStatus>)
      requires !panicked && waiting.Keys <= status.Keys
      modifies this
      ensures Model() == Round(old(Model()), status)
    {
      var ids := Sorted(waiting.Keys);
      var done := PollWaitables(ids, status);
      ghost var r := Model();
      hide Wake, ReportAll, DoneOf, Sorted;
      var j := 0;
      while j < |done| && !panicked
        invariant 0 <= j <= |done|
        invariant WakeAll(Model(), done[j..]) == WakeAll(r, done)
      {
        assert done[j..][1..] == done[j + 1..];
        WakeTask(done[j]);
        j := j + 1;
      }
    }

    method SpawnAll(n: nat)
      modifies this
      ensures Model() == Spawns(old(Model()), n)
    {
      hide RuntimeModel.Spawn;
      for i := 0 to n
        invariant Spawns(Model(), n - i) == Spawns(old(Model()), n)
      {
        var _ := Spawn();
      }
    }

    /** The loop of `start`, for as long as the worker runs. */
    method StartLoop(inputs: seq<Input>)
      requires CanRun(Model(), inputs)
      modifies this
      ensures Model() == Turns(old(Model()), inputs)
    {
      hide Visits, CanVisit, Spawns, Round;
      var i := 0;
      while i < |inputs| && !panicked
        invariant 0 <= i <= |inputs| && CanRun(Model(), inputs[i..])
        invariant Turns(Model(), inputs[i..]) == Turns(old(Model()), inputs)
      {
        assert inputs[i..][1..] == inputs[i + 1..];
        ghost var next := Turn(Model(), inputs[i]);
        SpawnAll(inputs[i].spawns);
        RunTasks(inputs[i].actions);
        if !panicked {
          WaitRound(inputs[i].status);
        }
        assert Model() == next;
        i := i + 1;
      }
    }
  }
}
