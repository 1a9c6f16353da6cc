/** The invariant along every step and every run of a worker, and what follows
    from it: the `wait_on` guarantee, exactly when a push overflows, and bounded
    waiting in the run queue. */
module RuntimeRuns {
  import opened Collections
  import opened RuntimeModel
  import opened RuntimeSafety

  // ------------------------------------------------------ where the tasks are

  lemma PlacedPush(queue: seq<TaskId>, tasks: set<TaskId>, waiting: set<TaskId>, id: TaskId)
    requires Placed(queue, tasks, waiting, {id}) && |queue| < CAPACITY
    ensures Placed(queue + [id], tasks, waiting, {})
  {
    NoDupAppend(queue, id);
  }

  lemma PlacedPop(queue: seq<TaskId>, tasks: set<TaskId>, waiting: set<TaskId>)
    requires Placed(queue, tasks, waiting, {}) && queue != []
    ensures Placed(queue[1..], tasks, waiting, {queue[0]})
  {
    NoDupTail(queue);
  }

  lemma PlacedMove(queue: seq<TaskId>, tasks: set<TaskId>, waiting: set<TaskId>, id: TaskId)
    ensures Placed(queue, tasks, waiting, {}) && id !in tasks ==> Placed(queue, tasks + {id}, waiting, {id})
    ensures Placed(queue, tasks, waiting, {id}) ==> Placed(queue, tasks, waiting + {id}, {})
    ensures Placed(queue, tasks, waiting, {id}) ==> Placed(queue, tasks - {id}, waiting, {})
    ensures Placed(queue, tasks, waiting, {}) && id in waiting ==> Placed(queue, tasks, waiting - {id}, {id})
  {
  }

  // ------------------------------------------------------------- single steps

  lemma PushInv(s: State, id: TaskId, done: set<TaskId>)
    requires InvWith(s, {id}, done)
    ensures Push(s, id).panicked <==> |s.queue| == CAPACITY
    ensures !Push(s, id).panicked ==> InvWith(Push(s, id), {}, done)
    ensures Consistent(Push(s, id), done)
  {
    hide Owned, Judged, Logged, History, FreshIds;
    if |s.queue| < CAPACITY {
      PlacedPush(s.queue, s.tasks.Keys, s.waiting.Keys, id);
    }
  }

  lemma InvBasics(s: State, hand: set<TaskId>, done: set<TaskId>)
    requires InvWith(s, hand, done)
    ensures |s.queue| <= CAPACITY && History(s.log)
  {
  }

  lemma SpawnInv(s: State)
    requires Inv(s) && s.spawned < ID_SPACE
    ensures Inv(Spawn(s))
  {
    hide Consistent, Placed;
    assert IdOf(s.spawned) == s.spawned;
    NoDupAppend(s.spawner, s.spawned);
    assert Consistent(Spawn(s), {}) by { ConsistentAside(s, Spawn(s), {}); }
  }

  /** The counters, queues and the current task do not matter to the waits. */
  lemma ConsistentAside(s: State, t: State, done: set<TaskId>)
    requires Consistent(s, done)
    requires t.tasks == s.tasks && t.waiting == s.waiting && t.cells == s.cells && t.waits == s.waits && t.log == s.log
    ensures Consistent(t, done)
  {
    hide Owned, Judged, Logged, History;
  }

  lemma FreshIdsTake(spawner: seq<TaskId>, tasks: set<TaskId>, spawned: nat)
    requires FreshIds(spawner, tasks, spawned) && spawner != []
    ensures FreshIds(spawner[1..], tasks + {spawner[0]}, spawned) && spawner[0] !in tasks
  {
    NoDupTail(spawner);
  }

  lemma NewTaskWaitsNot(tasks: map<TaskId, Future>, id: TaskId)
    requires id !in tasks
    ensures SameWaits(tasks, tasks[id := Start])
  {
  }

  lemma DrainInv(s: State)
    requires Inv(s) && s.spawner != []
    ensures DrainOne(s).panicked <==> |s.queue| == CAPACITY
    ensures !DrainOne(s).panicked ==> Inv(DrainOne(s))
    ensures Consistent(DrainOne(s), {})
    ensures !DrainOne(s).fault
  {
    var id := s.spawner[0];
    var tasks := s.tasks[id := Start];
    var s1 := s.(spawner := s.spawner[1..], tasks := tasks);
    hide Consistent, Placed, FreshIds, SameWaits;
    FreshIdsTake(s.spawner, s.tasks.Keys, s.spawned);
    NewTaskWaitsNot(s.tasks, id);
    ConsistentAlike(s, tasks, {});
    ConsistentAside(s.(tasks := tasks), s1, {});
    PlacedMove(s.queue, s.tasks.Keys, s.waiting.Keys, id);
    assert tasks.Keys == s.tasks.Keys + {id};
    PushInv(s1, id, {});
  }

  /** After `wait_on` took its cell back, the task holds nothing. */
  lemma ResumeInv(s: State, id: TaskId)
    requires InvWith(s, {id}, {})
    ensures var t := Resume(s, id); InvWith(t.(tasks := s.tasks[id := Start]), {id}, {}) && t.tasks == s.tasks
  {
    hide Consistent, FreshIds;
    var tasks := s.tasks[id := Start];
    assert tasks.Keys == s.tasks.Keys;
    if s.tasks[id].AtWait? {
      hide Placed;
      ConsistentTake(s, id) by { assert id !in s.waiting.Keys; }
    } else {
      hide Placed;
      ConsistentAlike(s, tasks, {});
    }
  }

  lemma ActInv(s: State, id: TaskId, action: Action)
    requires InvWith(s, {id}, {}) && s.tasks[id] == Start && s.current == id && |s.queue| < CAPACITY
    requires action.WaitOn? ==> action.cell !in s.cells
    ensures Inv(Act(s, id, action))
  {
    hide Consistent, FreshIds;
    match action
    case Yield =>
      var tasks := s.tasks[id := AtYield];
      assert tasks.Keys == s.tasks.Keys;
      ConsistentAlike(s, tasks, {});
      PushInv(s.(tasks := tasks), id, {});
    case WaitOn(cell) =>
      var tasks := s.tasks[id := AtWait(cell, s.waits)];
      assert tasks.Keys == s.tasks.Keys;
      assert s.waiting[id := Waitable(s.waits, cell)].Keys == s.waiting.Keys + {id};
      PlacedMove(s.queue, s.tasks.Keys, s.waiting.Keys, id);
      ConsistentGive(s, id, cell);
    case Return =>
      var tasks := s.tasks - {id};
      assert tasks.Keys == s.tasks.Keys - {id};
      PlacedMove(s.queue, s.tasks.Keys, s.waiting.Keys, id);
      ConsistentAlike(s, tasks, {});
      FreshIdsDrop(s.spawner, s.tasks.Keys, s.spawned, id);
  }

  lemma FreshIdsDrop(spawner: seq<TaskId>, tasks: set<TaskId>, spawned: nat, id: TaskId)
    requires FreshIds(spawner, tasks, spawned)
    ensures FreshIds(spawner, tasks - {id}, spawned)
  {
  }

  /** A poll keeps the invariant; its own re-queueing can never overflow the
      queue, because the polled id has just left it. */
  lemma PollInv(s: State, action: Action)
    requires Inv(s) && CanPoll(s, action)
    ensures Inv(PollNext(s, action))
  {
    if s.queue != [] {
      var id := s.queue[0];
      var s1 := s.(queue := s.queue[1..], current := id);
      assert id in s.tasks && |s1.queue| < CAPACITY by { hide Consistent, FreshIds; }
      hide Consistent, FreshIds, Placed;
      PlacedPop(s.queue, s.tasks.Keys, s.waiting.Keys);
      ConsistentAside(s, s1, {});
      ResumeInv(s1, id);
      var r := Resume(s1, id);
      var u := r.(tasks := s.tasks[id := Start]);
      ActForgets(r, id, action);
      ActInv(u, id, action);
    }
  }

  /** A poll overwrites where the task had stopped. */
  lemma ActForgets(s: State, id: TaskId, action: Action)
    ensures Act(s, id, action) == Act(s.(tasks := s.tasks[id := Start]), id, action)
  {
    var tasks := s.tasks[id := Start];
    assert s.tasks[id := AtYield] == tasks[id := AtYield];
    assert s.tasks - {id} == tasks - {id};
    if action.WaitOn? {
      assert s.tasks[id := AtWait(action.cell, s.waits)] == tasks[id := AtWait(action.cell, s.waits)];
    }
  }

  /** Polling the waitables of `ids` marks exactly the finished ones. */
  lemma {:induction false} ReportAllInv(s: State, ids: seq<TaskId>, status: map<TaskId, WaitStatus>, done: set<TaskId>)
    requires InvWith(s, {}, done) && NoDup(ids)
    requires forall id <- ids :: id in s.waiting && id in status && id !in done
    ensures InvWith(ReportAll(s, ids, status), {}, done + Members(DoneOf(ids, status)))
    ensures ReportAll(s, ids, status).queue == s.queue && ReportAll(s, ids, status).tasks == s.tasks
    decreases |ids|
  {
    hide Consistent, FreshIds, Placed;
    if ids == [] {
      assert done + Members([]) == done;
    } else {
      var id := ids[0];
      ConsistentReport(s, id, status[id], done);
      var done' := if status[id].Waiting? then done else done + {id};
      NoDupTail(ids);
      ReportAllInv(Report(s, id, status[id]), ids[1..], status, done');
      var rest := DoneOf(ids[1..], status);
      assert done' + Members(rest) == done + Members(DoneOf(ids, status));
    }
  }

  lemma WakeInv(s: State, id: TaskId, done: set<TaskId>)
    requires InvWith(s, {}, done) && id in s.waiting && id in done
    ensures Wake(s, id).panicked <==> |s.queue| == CAPACITY
    ensures !Wake(s, id).panicked ==> InvWith(Wake(s, id), {}, done - {id}) && Wake(s, id).queue == s.queue + [id]
  {
    assert id in s.tasks by { hide Consistent, FreshIds; }
    hide Consistent, FreshIds, Placed;
    var s1 := s.(waiting := s.waiting - {id});
    assert s1.waiting.Keys == s.waiting.Keys - {id};
    PlacedMove(s.queue, s.tasks.Keys, s.waiting.Keys, id);
    ConsistentWoken(s, id, done);
    PushInv(s1, id, done - {id});
  }

  /** Waking the finished tasks overflows exactly when they do not all fit. */
  lemma {:induction false} WakeAllInv(s: State, ids: seq<TaskId>)
    requires InvWith(s, {}, Members(ids)) && NoDup(ids)
    requires forall id <- ids :: id in s.waiting
    ensures var t := WakeAll(s, ids);
      && (t.panicked <==> |s.queue| + |ids| > CAPACITY)
      && (!t.panicked ==> Inv(t) && t.queue == s.queue + ids)
      && t.log == s.log && t.fault == s.fault && t.spawned == s.spawned
    decreases |ids|
  {
    hide Consistent, FreshIds, Placed, NoDup;
    InvBasics(s, {}, Members(ids));
    if ids == [] {
      assert Members([]) == {};
      assert s.queue + [] == s.queue;
    } else {
      var id := ids[0];
      NoDupTail(ids);
      WakeInv(s, id, Members(ids));
      assert Members(ids) - {id} == Members(ids[1..]);
      var t := Wake(s, id);
      if !t.panicked {
        assert t.queue == s.queue + [id];
        assert s.queue + [id] + ids[1..] == s.queue + ids;
        WakeAllInv(t, ids[1..]);
      }
    }
  }

  lemma {:induction false} DoneOfDistinct(ids: seq<TaskId>, status: map<TaskId, WaitStatus>)
    requires NoDup(ids) && forall id <- ids :: id in status
    ensures NoDup(DoneOf(ids, status))
    ensures forall id :: id in DoneOf(ids, status) <==> id in ids && !status[id].Waiting?
  {
    if ids != [] {
      NoDupTail(ids);
      DoneOfDistinct(ids[1..], status);
      var rest := DoneOf(ids[1..], status);
      if !status[ids[0]].Waiting? {
        assert NoDup([ids[0]] + rest) by {
          forall i, j | 0 <= i < j < |rest| + 1 ensures ([ids[0]] + rest)[i] != ([ids[0]] + rest)[j] {
            assert rest[j - 1] in rest;
          }
        }
      }
    }
  }

  /** A pass over the waitables of `ids`, in that order. */
  lemma PassInv(s: State, ids: seq<TaskId>, status: map<TaskId, WaitStatus>)
    requires Inv(s) && NoDup(ids)
    requires forall id <- ids :: id in s.waiting && id in status
    ensures var done := DoneOf(ids, status); var t := WakeAll(ReportAll(s, ids, status), done);
      && (t.panicked <==> |s.queue| + |done| > CAPACITY)
      && (!t.panicked ==> Inv(t) && t.queue == s.queue + done)
      && !t.fault && History(t.log) && t.spawned == s.spawned
  {
    hide Consistent, FreshIds, Placed, DoneOf, NoDup, History, WakeAll, ReportAll, Members;
    DoneOfDistinct(ids, status);
    ReportAllInv(s, ids, status, {});
    var r := ReportAll(s, ids, status);
    var done := DoneOf(ids, status);
    assert {} + Members(done) == Members(done);
    WakeAllInv(r, done);
    InvBasics(r, {}, Members(done));
    ReportAllSpawned(s, ids, status);
  }

  /** The tasks whose waitables are finished, in key order. */
  function DoneNow(s: State, status: map<TaskId, WaitStatus>): seq<TaskId>
    requires s.waiting.Keys <= status.Keys
  {
    DoneOf(Sorted(s.waiting.Keys), status)
  }

  /** A wait round moves exactly the finished tasks, in key order, to the back
      of the run queue. */
  lemma RoundInv(s: State, status: map<TaskId, WaitStatus>)
    requires Inv(s) && s.waiting.Keys <= status.Keys
    ensures var t := Round(s, status); var done := DoneNow(s, status);
      && (t.panicked <==> |s.queue| + |done| > CAPACITY)
      && (!t.panicked ==> Inv(t) && t.queue == s.queue + done)
      && !t.fault && History(t.log) && t.spawned == s.spawned
      && NoDup(done) && forall id :: id in done <==> id in s.waiting && !status[id].Waiting?
  {
    hide Inv, DoneOf, Sorted, History, WakeAll, ReportAll;
    var ids := Sorted(s.waiting.Keys);
    assert NoDup(ids);
    DoneOfDistinct(ids, status);
    PassInv(s, ids, status);
  }

  lemma ReportAllSpawned(s: State, ids: seq<TaskId>, status: map<TaskId, WaitStatus>)
    requires forall id <- ids :: id in s.waiting && id in status
    ensures ReportAll(s, ids, status).spawned == s.spawned
    decreases |ids|
  {
    if ids != [] {
      ReportAllSpawned(Report(s, ids[0], status[ids[0]]), ids[1..], status);
    }
  }

  // --------------------------------------------------------------- whole runs

  ghost predicate Good(s: State) {
    && !s.fault && History(s.log)
    && (!s.panicked ==> Inv(s))
  }

  lemma StepGood(s: State, step: Step)
    requires Good(s) && Legal(s, step) && Apply(s, step).spawned <= ID_SPACE
    ensures Good(Apply(s, step))
  {
    hide Inv, History, Round, DrainOne, PollNext;
    match step
    case SpawnStep => if !s.panicked { SpawnInv(s); }
    case DrainStep => DrainInv(s); ConsistentHistory(DrainOne(s));
    case PollStep(a) => PollInv(s, a); InvHistory(PollNext(s, a));
    case RoundStep(st) => RoundInv(s, st);
  }

  lemma ConsistentHistory(s: State)
    requires Consistent(s, {})
    ensures History(s.log)
  {
  }

  lemma InvHistory(s: State)
    requires Inv(s)
    ensures !s.fault && !s.panicked && History(s.log)
  {
  }

  lemma StepSpawned(s: State, step: Step)
    requires Legal(s, step)
    ensures s.spawned <= Apply(s, step).spawned
  {
    hide Sorted, DoneOf, ReportAll, WakeAll;
    if step.RoundStep? {
      var ids := Sorted(s.waiting.Keys);
      ReportAllSpawned(s, ids, step.status);
      WakeAllSpawned(ReportAll(s, ids, step.status), DoneOf(ids, step.status));
    }
  }

  lemma WakeAllSpawned(s: State, ids: seq<TaskId>)
    ensures WakeAll(s, ids).spawned == s.spawned
    decreases |ids|
  {
    if ids != [] && !s.panicked {
      WakeAllSpawned(Wake(s, ids[0]), ids[1..]);
    }
  }

  lemma {:induction false} RunSpawned(s: State, steps: seq<Step>)
    requires LegalRun(s, steps)
    ensures s.spawned <= Exec(s, steps).spawned
    decreases |steps|
  {
    if steps != [] {
      StepSpawned(s, steps[0]);
      RunSpawned(Apply(s, steps[0]), steps[1..]);
    }
  }

  lemma {:induction false} RunGood(s: State, steps: seq<Step>)
    requires Good(s) && LegalRun(s, steps) && Exec(s, steps).spawned <= ID_SPACE
    ensures Good(Exec(s, steps))
    decreases |steps|
  {
    hide Good, Apply;
    if steps != [] {
      var t := Apply(s, steps[0]);
      RunSpawned(t, steps[1..]);
      StepGood(s, steps[0]);
      RunGood(t, steps[1..]);
    }
  }

  /** The global scheduler invariant: in every run in which the id counter has
      not wrapped and no push overflowed, each drained unfinished task is in
      exactly one place, and the two places add up. */
  lemma SchedulerInvariant(steps: seq<Step>)
    requires LegalRun(INITIAL, steps)
    requires Exec(INITIAL, steps).spawned <= ID_SPACE && !Exec(INITIAL, steps).panicked
    ensures var s := Exec(INITIAL, steps);
      && |s.tasks| == |s.queue| + |s.waiting|
      && NoDup(s.queue)
      && forall id :: id in s.tasks <==> (id in s.queue) != (id in s.waiting)
  {
    InitialInv();
    assert Good(INITIAL);
    RunGood(INITIAL, steps);
    var s := Exec(INITIAL, steps);
    hide Consistent, FreshIds, Exec;
    TaskCount(s);
  }

  // ----------------------------------------------------- the wait_on guarantee

  lemma {:induction false} VerdictWitness(log: seq<Event>, w: nat, st: WaitStatus) returns (j: nat)
    requires Verdicts(log, w) == [st]
    ensures j < |log| && log[j].Reported? && log[j].wait == w && log[j].status == st
    ensures forall m :: 0 <= m < |log| && m != j && log[m].Reported? && log[m].wait == w ==> log[m].status.Waiting?
  {
    var init, last := log[..|log| - 1], log[|log| - 1];
    assert Verdicts(log, w) == Verdicts(init, w) + Verdict(last, w);
    if Verdict(last, w) == [] {
      j := VerdictWitness(init, w, st);
    } else {
      j := |log| - 1;
      assert |Verdicts(init, w)| == 0 && Verdicts(log, w)[0] == last.status;
      NoVerdictMeansWaiting(init, w);
    }
  }

  lemma {:induction false} NoVerdictMeansWaiting(log: seq<Event>, w: nat)
    requires Verdicts(log, w) == []
    ensures forall m :: 0 <= m < |log| && log[m].Reported? && log[m].wait == w ==> log[m].status.Waiting?
  {
    if log != [] {
      NoVerdictMeansWaiting(log[..|log| - 1], w);
    }
  }

  /** What is promised about a resumption at position `i` of the history: the
      same task suspended on that wait, after which its own waitable was polled
      until the poll at `j`, the only one that was not `Waiting`; the task gets
      Ok exactly if that poll said Ready. */
  ghost predicate ResumedAfter(log: seq<Event>, i: nat, k: nat, j: nat) {
    && k < j < i < |log| && log[i].Resumed?
    && log[k] == Suspended(log[i].id, log[i].wait)
    && log[j] == Reported(log[i].id, log[i].wait, if log[i].ok then Ready else Error)
    && forall m :: 0 <= m < |log| && m != k && m != j && m != i && log[m].wait == log[i].wait ==>
         k < m < j && log[m] == Reported(log[i].id, log[i].wait, Waiting)
  }

  lemma SuspendedFirst(log: seq<Event>, k: nat, m: nat)
    requires History(log) && k < |log| && m < |log| && log[k].Suspended? && log[m].wait == log[k].wait
    ensures k <= m
  {
    assert Admissible(log[..k], log[k]);
  }

  lemma SuspendedOnce(log: seq<Event>, k: nat, m: nat)
    requires History(log) && k < |log| && m < |log| && log[k].Suspended? && log[m].wait == log[k].wait
    ensures k <= m && log[m].id == log[k].id
    ensures log[m].Suspended? ==> m == k
  {
    SuspendedFirst(log, k, m);
    if log[m].Suspended? {
      SuspendedFirst(log, m, k);
    } else {
      assert Admissible(log[..m], log[m]);
      var k2: nat :| k2 < m && log[..m][k2] == Suspended(log[m].id, log[m].wait);
      SuspendedFirst(log, k, k2);
      SuspendedFirst(log, k2, k);
    }
  }

  /** A final status, once in the history, stays a verdict. */
  lemma {:induction false} VerdictStays(log: seq<Event>, i: nat, w: nat)
    requires i < |log| && log[i].wait == w
    requires Verdict(log[i], w) != [] || Verdicts(log[..i], w) != []
    ensures Verdicts(log, w) != []
  {
    if i < |log| - 1 {
      var init := log[..|log| - 1];
      assert init[..i] == log[..i];
      VerdictStays(init, i, w);
    }
  }

  /** Nothing follows a resumption, and no poll follows a final status. */
  lemma LastWord(log: seq<Event>, i: nat, m: nat)
    requires History(log) && i < |log| && m < |log| && log[i].wait == log[m].wait
    requires log[i].Resumed? || (Verdict(log[i], log[i].wait) != [] && log[m].Reported?)
    ensures m <= i
  {
    assert Admissible(log[..i], log[i]) && Admissible(log[..m], log[m]);
    hide History, Verdicts;
    if i < m {
      assert log[..m][i] in log[..m];
      assert log[..m][..i] == log[..i];
      VerdictStays(log[..m], i, log[i].wait);
    }
  }

  lemma BetweenThem(log: seq<Event>, i: nat, k: nat, j: nat, m: nat)
    requires History(log) && k < j < i < |log| && m < |log| && log[i].Resumed?
    requires log[k] == Suspended(log[i].id, log[i].wait) && log[j].wait == log[m].wait == log[i].wait
    requires log[j].Reported? && !log[j].status.Waiting?
    requires m != k && m != j && m != i
    requires m < i && log[m].Reported? ==> log[m].status.Waiting?
    ensures k < m < j && log[m] == Reported(log[i].id, log[i].wait, Waiting)
  {
    hide History, Verdicts, Admissible;
    SuspendedOnce(log, k, m);
    LastWord(log, i, m);
    if log[m].Resumed? {
      LastWord(log, m, i);
    } else {
      LastWord(log, j, m);
    }
  }

  /** The suspension and the verdict that a resumption rests on. */
  lemma ResumptionRests(log: seq<Event>, i: nat) returns (k: nat, j: nat)
    requires History(log) && i < |log| && log[i].Resumed?
    ensures k < i && log[k] == Suspended(log[i].id, log[i].wait)
    ensures j < i && log[j].Reported? && log[j].wait == log[i].wait && log[j].status == Outcome(log[i].ok)
    ensures forall m ::
      0 <= m < i && m != j && log[m].Reported? && log[m].wait == log[i].wait ==> log[m].status.Waiting?
  {
    var e := log[i];
    assert Admissible(log[..i], e);
    hide History;
    k :| k < i && log[..i][k] == Suspended(e.id, e.wait);
    j := VerdictWitness(log[..i], e.wait, Outcome(e.ok));
    hide Admissible, Verdicts;
    assert forall m :: 0 <= m < i ==> log[..i][m] == log[m];
  }

  lemma ResumedAfterWitness(log: seq<Event>, i: nat) returns (k: nat, j: nat)
    requires History(log) && i < |log| && log[i].Resumed?
    ensures ResumedAfter(log, i, k, j)
  {
    hide History;
    k, j := ResumptionRests(log, i);
    SuspendedOnce(log, k, j);
    forall m: nat | m < |log| && m != k && m != j && m != i && log[m].wait == log[i].wait
      ensures k < m < j && log[m] == Reported(log[i].id, log[i].wait, Waiting)
    {
      BetweenThem(log, i, k, j, m);
    }
  }

  /** In every run, a task that suspended in `wait_on` is resumed only after its
      own waitable reported Ready or Error, and gets Ok exactly for Ready; no
      step of the run touched a freed cell. */
  lemma WaitOnGuarantee(steps: seq<Step>)
    requires LegalRun(INITIAL, steps) && Exec(INITIAL, steps).spawned <= ID_SPACE
    ensures var s := Exec(INITIAL, steps);
      && !s.fault
      && forall i: nat :: i < |s.log| && s.log[i].Resumed? ==> exists k, j :: ResumedAfter(s.log, i, k, j)
  {
    InitialInv();
    assert Good(INITIAL);
    RunGood(INITIAL, steps);
    var log := Exec(INITIAL, steps).log;
    hide Inv, History, Exec, ResumedAfter;
    forall i: nat | i < |log| && log[i].Resumed? ensures exists k, j :: ResumedAfter(log, i, k, j) {
      var k, j := ResumedAfterWitness(log, i);
    }
  }

  // ------------------------------------------------------------ overflow, order

  /** A step panics exactly when it needs more runnable tasks than the run queue
      has slots: a drain one more, a wait round one for each finished waitable. */
  lemma PanicExactly(s: State, step: Step)
    requires Inv(s) && Legal(s, step)
    ensures Apply(s, step).panicked <==>
      (step.DrainStep? && |s.tasks| - |s.waiting| == CAPACITY)
      || (step.RoundStep? && |s.tasks| - |s.waiting| + |DoneNow(s, step.status)| > CAPACITY)
  {
    InvHistory(s);
    TaskCount(s);
    hide Inv, Round, DrainOne, PollNext, DoneNow;
    match step
    case SpawnStep =>
    case DrainStep => DrainInv(s);
    case PollStep(a) => PollInv(s, a); InvHistory(PollNext(s, a));
    case RoundStep(st) => RoundInv(s, st);
  }

  ghost predicate AtMost(s: State, steps: seq<Step>, live: nat)
    requires LegalRun(s, steps)
    decreases |steps|
  {
    |s.tasks| <= live && (steps == [] || AtMost(Apply(s, steps[0]), steps[1..], live))
  }

  lemma StepFits(s: State, step: Step)
    requires Inv(s) && Legal(s, step) && |s.tasks| <= CAPACITY && |Apply(s, step).tasks| <= CAPACITY
    ensures !Apply(s, step).panicked
  {
    PanicExactly(s, step);
    InvHistory(s);
    match step
    case SpawnStep =>
    case PollStep(_) =>
    case DrainStep =>
      var id := s.spawner[0];
      assert id !in s.tasks by { hide Consistent, Placed; }
      hide Inv;
      assert DrainOne(s).tasks.Keys == s.tasks.Keys + {id};
      assert |DrainOne(s).tasks| == |DrainOne(s).tasks.Keys|;
      assert |s.tasks| == |s.tasks.Keys|;
    case RoundStep(st) =>
      hide Inv, Round;
      RoundInv(s, st);
      var done := DoneNow(s, st);
      NoDupSize(done);
      SubsetSize(Members(done), s.waiting.Keys);
      assert |s.waiting| == |s.waiting.Keys|;
  }

  /** No push fails in a run that never has more than 1024 live tasks. */
  lemma {:induction false} FitsNeverPanics(s: State, steps: seq<Step>)
    requires Inv(s) && LegalRun(s, steps) && Exec(s, steps).spawned <= ID_SPACE
    requires AtMost(s, steps, CAPACITY)
    ensures !Exec(s, steps).panicked
    decreases |steps|
  {
    InvHistory(s);
    hide Inv;
    if steps != [] {
      var t := Apply(s, steps[0]);
      RunSpawned(t, steps[1..]);
      StepGood(s, steps[0]);
      assert |t.tasks| <= CAPACITY;
      StepFits(s, steps[0]);
      FitsNeverPanics(t, steps[1..]);
    }
  }

  function Polls(steps: seq<Step>): nat {
    if steps == [] then 0 else (if steps[0].PollStep? then 1 else 0) + Polls(steps[1..])
  }

  lemma WakeAllAppends(s: State, ids: seq<TaskId>)
    ensures s.queue <= WakeAll(s, ids).queue
    decreases |ids|
  {
    if ids != [] && !s.panicked {
      WakeAllAppends(Wake(s, ids[0]), ids[1..]);
    }
  }

  lemma ReportAllKeepsQueue(s: State, ids: seq<TaskId>, status: map<TaskId, WaitStatus>)
    requires forall id <- ids :: id in s.waiting && id in status
    ensures ReportAll(s, ids, status).queue == s.queue
    decreases |ids|
  {
    if ids != [] {
      ReportAllKeepsQueue(Report(s, ids[0], status[ids[0]]), ids[1..], status);
    }
  }

  lemma StepFifo(s: State, step: Step)
    requires Legal(s, step) && (step.PollStep? ==> s.queue != [])
    ensures (if step.PollStep? then s.queue[1..] else s.queue) <= Apply(s, step).queue
  {
    hide Sorted, DoneOf, ReportAll, WakeAll;
    match step
    case SpawnStep =>
    case DrainStep =>
    case PollStep(_) =>
    case RoundStep(status) =>
      var ids := Sorted(s.waiting.Keys);
      ReportAllKeepsQueue(s, ids, status);
      WakeAllAppends(ReportAll(s, ids, status), DoneOf(ids, status));
  }

  /** Whatever else happens, polls consume the queue from the front. */
  lemma {:induction false} Fifo(s: State, steps: seq<Step>)
    requires LegalRun(s, steps) && Polls(steps) <= |s.queue|
    ensures s.queue[Polls(steps)..] <= Exec(s, steps).queue
    decreases |steps|
  {
    hide Apply, Legal;
    if steps != [] {
      var t := Apply(s, steps[0]);
      StepFifo(s, steps[0]);
      Fifo(t, steps[1..]);
      var n := Polls(steps[1..]);
      var front := if steps[0].PollStep? then s.queue[1..] else s.queue;
      assert front[n..] <= t.queue[n..];
      assert front[n..] == s.queue[Polls(steps)..];
    }
  }

  /** Bounded waiting: the task at position k of the run queue is the one polled
      by the (k+1)-th poll, whatever is spawned, drained, yielded or woken. */
  lemma BoundedWaiting(s: State, steps: seq<Step>, k: nat)
    requires Inv(s) && LegalRun(s, steps) && k < |s.queue| && Polls(steps) == k
    requires Exec(s, steps).spawned <= ID_SPACE && !Exec(s, steps).panicked
    ensures NextTask(Exec(s, steps)) == {s.queue[k]}
  {
    Fifo(s, steps);
    InvHistory(s);
    RunGood(s, steps);
    var t := Exec(s, steps);
    assert t.queue[0] == s.queue[k..][0];
    assert Placed(t.queue, t.tasks.Keys, t.waiting.Keys, {});
  }

  /** Two calls of the generator collide exactly if a multiple of 2^64 apart. */
  lemma IdsUnique(i: nat, j: nat)
    ensures IdOf(i) == IdOf(j) <==> (i - j) % ID_SPACE == 0
  {
    var a, b := i / ID_SPACE, j / ID_SPACE;
    assert i - j == (a - b) * ID_SPACE + (IdOf(i) - IdOf(j));
  }
}
