/** What every run of a worker keeps: no task is lost or duplicated, `wait_on`
    resumes only after its own waitable finished, and the raw cell addresses
    are always live when they are used. */
module RuntimeSafety {
  import opened Collections
  import opened RuntimeModel

  // ---------------------------------------------------------------- history

  /** The final statuses that the waitable of `wait` has reported, in order. */
  ghost function Verdicts(log: seq<Event>, wait: nat): seq<WaitStatus> {
    if log == [] then []
    else Verdicts(log[..|log| - 1], wait) + Verdict(log[|log| - 1], wait)
  }

  ghost function Verdict(e: Event, wait: nat): seq<WaitStatus> {
    if e.Reported? && e.wait == wait && !e.status.Waiting? then [e.status] else []
  }

  ghost function Outcome(ok: bool): WaitStatus {
    if ok then Ready else Error
  }

  lemma VerdictsAppend(log: seq<Event>, e: Event)
    ensures forall w :: Verdicts(log + [e], w) == Verdicts(log, w) + Verdict(e, w)
  {
    assert (log + [e])[..|log|] == log;
  }

  /** What may be recorded after `log`: a wait starts once; its waitable is
      polled for the task that suspended on it and not after a final status; it
      is resumed once, after exactly one final status, which it returns. */
  ghost predicate Admissible(log: seq<Event>, e: Event) {
    match e
    case Suspended(_, w) => forall x <- log :: x.wait != w
    case Reported(id, w, _) => Suspended(id, w) in log && Verdicts(log, w) == []
    case Resumed(id, w, ok) =>
      && Suspended(id, w) in log && Verdicts(log, w) == [Outcome(ok)]
      && forall x <- log :: x.Resumed? ==> x.wait != w
  }

  ghost predicate History(log: seq<Event>) {
    forall i :: 0 <= i < |log| ==> Admissible(log[..i], log[i])
  }

  lemma HistoryAppend(log: seq<Event>, e: Event)
    requires History(log) && Admissible(log, e)
    ensures History(log + [e])
  {
    hide Admissible;
    var more := log + [e];
    forall i | 0 <= i < |more| ensures Admissible(more[..i], more[i]) {
      assert more[..i] == log[..i];
      if i == |log| {
        assert log[..i] == log;
      }
    }
  }

  // -------------------------------------------------------------- invariant

  /** Every task is in the run queue once, in `WAITING`, or in hand. */
  ghost predicate Placed(queue: seq<TaskId>, tasks: set<TaskId>, waiting: set<TaskId>, hand: set<TaskId>) {
    && NoDup(queue)
    && |queue| <= CAPACITY
    && hand <= tasks && waiting <= tasks && hand !! waiting
    && (forall id <- queue :: id in tasks && id !in waiting && id !in hand)
    && (forall id <- tasks :: id in queue || id in waiting || id in hand)
  }

  ghost predicate FreshIds(spawner: seq<TaskId>, tasks: set<TaskId>, spawned: nat) {
    && NoDup(spawner)
    && |spawner| <= CAPACITY
    && spawned <= ID_SPACE
    && (forall id <- spawner :: id !in tasks && id < spawned)
    && (forall id <- tasks :: id < spawned)
  }

  ghost predicate Waits(tasks: map<TaskId, Future>, id: TaskId) {
    id in tasks && tasks[id].AtWait?
  }

  /** Each live cell belongs to exactly one task inside `wait_on`, and the
      address kept in `WAITING` is that task's. */
  ghost predicate Owned(tasks: map<TaskId, Future>, waiting: map<TaskId, Waitable>, cells: set<Addr>) {
    && (forall id :: Waits(tasks, id) ==> tasks[id].cell in cells)
    && (forall a, b :: Waits(tasks, a) && Waits(tasks, b) && a != b ==> tasks[a].cell != tasks[b].cell)
    && (forall c <- cells :: exists id :: Waits(tasks, id) && tasks[id].cell == c)
    && (forall id <- waiting :: id in tasks && tasks[id] == AtWait(waiting[id].cell, waiting[id].wait))
  }

  /** The wait of a task is its own and not resumed yet. */
  ghost predicate Logged(tasks: map<TaskId, Future>, waits: nat, log: seq<Event>) {
    && (forall id :: Waits(tasks, id) ==> Suspended(id, tasks[id].wait) in log)
    && (forall a, b :: Waits(tasks, a) && Waits(tasks, b) && a != b ==> tasks[a].wait != tasks[b].wait)
    && (forall id, e :: Waits(tasks, id) && e in log && e.Resumed? ==> e.wait != tasks[id].wait)
    && (forall e <- log :: e.wait < waits)
  }

  /** A pending wait has no verdict; one that is over, or is in `done`, has one
      verdict and its cell says which. */
  ghost predicate Judged(tasks: map<TaskId, Future>, waiting: set<TaskId>, cells: map<Addr, bool>,
                         log: seq<Event>, done: set<TaskId>)
  {
    forall id :: Waits(tasks, id) ==>
      if id in waiting && id !in done then Verdicts(log, tasks[id].wait) == []
      else tasks[id].cell in cells && Verdicts(log, tasks[id].wait) == [Outcome(cells[tasks[id].cell])]
  }

  /** Everything about waits, cells and the history. */
  ghost predicate Consistent(s: State, done: set<TaskId>) {
    && Owned(s.tasks, s.waiting, s.cells.Keys)
    && Logged(s.tasks, s.waits, s.log)
    && Judged(s.tasks, s.waiting.Keys, s.cells, s.log, done)
    && History(s.log)
  }

  ghost predicate InvWith(s: State, hand: set<TaskId>, done: set<TaskId>) {
    && !s.panicked && !s.fault
    && Placed(s.queue, s.tasks.Keys, s.waiting.Keys, hand)
    && FreshIds(s.spawner, s.tasks.Keys, s.spawned)
    && Consistent(s, done)
  }

  ghost predicate Inv(s: State) {
    InvWith(s, {}, {})
  }

  lemma InitialInv()
    ensures Inv(INITIAL)
  {
  }

  lemma NoDupTail(ids: seq<TaskId>)
    requires NoDup(ids) && ids != []
    ensures NoDup(ids[1..]) && ids[0] !in ids[1..]
    ensures forall id :: id in ids <==> id == ids[0] || id in ids[1..]
  {
    assert ids == [ids[0]] + ids[1..];
  }

  ghost function Members(ids: seq<TaskId>): set<TaskId> {
    set id | id in ids
  }

  lemma {:induction false} NoDupSize(ids: seq<TaskId>)
    requires NoDup(ids)
    ensures |Members(ids)| == |ids|
  {
    if ids != [] {
      NoDupTail(ids);
      NoDupSize(ids[1..]);
      assert Members(ids) == {ids[0]} + Members(ids[1..]);
    }
  }

  lemma PlacedCount(queue: seq<TaskId>, tasks: set<TaskId>, waiting: set<TaskId>)
    requires Placed(queue, tasks, waiting, {})
    ensures |tasks| == |queue| + |waiting|
  {
    NoDupSize(queue);
    assert tasks == Members(queue) + waiting;
    assert Members(queue) !! waiting;
  }

  /** The queue and `WAITING` partition the tasks. */
  lemma TaskCount(s: State)
    requires Inv(s)
    ensures |s.tasks| == |s.queue| + |s.waiting|
  {
    hide Owned, Logged, Judged, History, FreshIds, Placed;
    PlacedCount(s.queue, s.tasks.Keys, s.waiting.Keys);
    assert |s.tasks| == |s.tasks.Keys| && |s.waiting| == |s.waiting.Keys|;
  }

  // -------------------------------------------- steps on the wait bookkeeping

  /** Tasks outside `wait_on` do not matter to the cells and the history. */
  ghost predicate SameWaits(s: map<TaskId, Future>, t: map<TaskId, Future>) {
    forall id :: (Waits(s, id) <==> Waits(t, id)) && (Waits(s, id) ==> s[id] == t[id])
  }

  lemma OwnedAlike(s: map<TaskId, Future>, t: map<TaskId, Future>, waiting: map<TaskId, Waitable>, cells: set<Addr>)
    requires Owned(s, waiting, cells) && SameWaits(s, t)
    ensures Owned(t, waiting, cells)
  {
    forall c <- cells ensures exists id :: Waits(t, id) && t[id].cell == c {
      var id :| Waits(s, id) && s[id].cell == c;
      assert Waits(t, id);
    }
    forall id <- waiting ensures id in t && t[id] == AtWait(waiting[id].cell, waiting[id].wait) {
      assert Waits(s, id);
    }
  }

  lemma ConsistentAlike(s: State, tasks: map<TaskId, Future>, done: set<TaskId>)
    requires Consistent(s, done) && SameWaits(s.tasks, tasks)
    ensures Consistent(s.(tasks := tasks), done)
  {
    hide History;
    OwnedAlike(s.tasks, tasks, s.waiting, s.cells.Keys);
    hide Owned;
  }

  lemma OwnedAt(tasks: map<TaskId, Future>, waiting: map<TaskId, Waitable>, cells: set<Addr>, id: TaskId)
    requires Owned(tasks, waiting, cells) && id in waiting
    ensures Waits(tasks, id) && tasks[id] == AtWait(waiting[id].cell, waiting[id].wait) && tasks[id].cell in cells
  {
    assert Waits(tasks, id);
  }

  lemma OwnedTake(tasks: map<TaskId, Future>, waiting: map<TaskId, Waitable>, cells: set<Addr>, id: TaskId)
    requires Owned(tasks, waiting, cells) && Waits(tasks, id) && id !in waiting
    ensures Owned(tasks[id := Start], waiting, cells - {tasks[id].cell})
  {
    var t := tasks[id := Start];
    assert forall x :: Waits(t, x) <==> Waits(tasks, x) && x != id;
    forall c <- cells - {tasks[id].cell} ensures exists x :: Waits(t, x) && t[x].cell == c {
      var x :| Waits(tasks, x) && tasks[x].cell == c;
      assert Waits(t, x);
    }
  }

  lemma OwnedGive(tasks: map<TaskId, Future>, waiting: map<TaskId, Waitable>, cells: set<Addr>, id: TaskId,
                  cell: Addr, wait: nat)
    requires Owned(tasks, waiting, cells) && !Waits(tasks, id) && cell !in cells
    ensures Owned(tasks[id := AtWait(cell, wait)], waiting[id := Waitable(wait, cell)], cells + {cell})
  {
    var t := tasks[id := AtWait(cell, wait)];
    assert forall x :: Waits(t, x) <==> Waits(tasks, x) || x == id;
    forall c <- cells + {cell} ensures exists x :: Waits(t, x) && t[x].cell == c {
      if c == cell { assert Waits(t, id); } else {
        var x :| Waits(tasks, x) && tasks[x].cell == c;
        assert Waits(t, x);
      }
    }
  }

  lemma LoggedTake(tasks: map<TaskId, Future>, waits: nat, log: seq<Event>, id: TaskId, ok: bool)
    requires Logged(tasks, waits, log) && Waits(tasks, id)
    ensures Logged(tasks[id := Start], waits, log + [Resumed(id, tasks[id].wait, ok)])
  {
    assert forall x :: Waits(tasks[id := Start], x) <==> Waits(tasks, x) && x != id;
    assert Suspended(id, tasks[id].wait).wait < waits;
  }

  lemma JudgedTake(tasks: map<TaskId, Future>, waiting: map<TaskId, Waitable>, cells: map<Addr, bool>,
                   log: seq<Event>, id: TaskId, ok: bool)
    requires Owned(tasks, waiting, cells.Keys) && Judged(tasks, waiting.Keys, cells, log, {})
    requires Waits(tasks, id)
    ensures Judged(tasks[id := Start], waiting.Keys, cells - {tasks[id].cell},
                   log + [Resumed(id, tasks[id].wait, ok)], {})
  {
    var e := Resumed(id, tasks[id].wait, ok);
    VerdictsAppend(log, e);
    hide Verdicts;
    var t, rest := tasks[id := Start], cells - {tasks[id].cell};
    forall x | Waits(t, x)
      ensures if x in waiting.Keys then Verdicts(log + [e], t[x].wait) == []
              else t[x].cell in rest && Verdicts(log + [e], t[x].wait) == [Outcome(rest[t[x].cell])]
    {
      assert Waits(tasks, x) && t[x] == tasks[x];
      assert t[x].cell in rest;
      assert Verdict(e, t[x].wait) == [];
    }
  }

  lemma TakeAdmissible(tasks: map<TaskId, Future>, waiting: set<TaskId>, cells: map<Addr, bool>, waits: nat,
                       log: seq<Event>, id: TaskId)
    requires Logged(tasks, waits, log) && Judged(tasks, waiting, cells, log, {})
    requires Waits(tasks, id) && id !in waiting
    ensures tasks[id].cell in cells && Admissible(log, Resumed(id, tasks[id].wait, cells[tasks[id].cell]))
  {
  }

  /** `wait_on` takes its cell back: the cell is live and holds the verdict. */
  lemma ConsistentTake(s: State, id: TaskId)
    requires Consistent(s, {}) && Waits(s.tasks, id) && id !in s.waiting && !s.fault
    ensures var t := Resume(s, id); !t.fault && Consistent(t.(tasks := s.tasks[id := Start]), {})
  {
    hide Owned, Judged, Logged, History, Admissible, Verdicts;
    var cell, wait := s.tasks[id].cell, s.tasks[id].wait;
    TakeAdmissible(s.tasks, s.waiting.Keys, s.cells, s.waits, s.log, id);
    var e := Resumed(id, wait, s.cells[cell]);
    OwnedTake(s.tasks, s.waiting, s.cells.Keys, id);
    LoggedTake(s.tasks, s.waits, s.log, id, e.ok);
    JudgedTake(s.tasks, s.waiting, s.cells, s.log, id, e.ok);
    HistoryAppend(s.log, e);
    assert (s.cells - {cell}).Keys == s.cells.Keys - {cell};
  }

  lemma LoggedGive(tasks: map<TaskId, Future>, waits: nat, log: seq<Event>, id: TaskId, cell: Addr)
    requires Logged(tasks, waits, log) && !Waits(tasks, id)
    ensures Logged(tasks[id := AtWait(cell, waits)], waits + 1, log + [Suspended(id, waits)])
  {
    assert forall x :: Waits(tasks[id := AtWait(cell, waits)], x) <==> Waits(tasks, x) || x == id;
    assert forall x :: Waits(tasks, x) ==> Suspended(x, tasks[x].wait).wait < waits;
  }

  lemma JudgedGive(tasks: map<TaskId, Future>, waiting: map<TaskId, Waitable>, cells: map<Addr, bool>,
                   waits: nat, log: seq<Event>, id: TaskId, cell: Addr)
    requires Judged(tasks, waiting.Keys, cells, log, {}) && forall e <- log :: e.wait < waits
    requires !Waits(tasks, id) && cell !in cells
    ensures Judged(tasks[id := AtWait(cell, waits)], waiting[id := Waitable(waits, cell)].Keys,
                   cells[cell := false], log + [Suspended(id, waits)], {})
  {
    VerdictsAppend(log, Suspended(id, waits));
    NoVerdict(log, waits);
    assert forall x :: Waits(tasks[id := AtWait(cell, waits)], x) <==> Waits(tasks, x) || x == id;
  }

  lemma ConsistentGive(s: State, id: TaskId, cell: Addr)
    requires Consistent(s, {}) && !Waits(s.tasks, id) && id !in s.waiting && cell !in s.cells && s.current == id
    ensures Consistent(Act(s, id, WaitOn(cell)), {})
  {
    var e := Suspended(id, s.waits);
    assert Admissible(s.log, e) && forall x <- s.log :: x.wait < s.waits by { hide History, Owned, Judged; }
    hide Owned, Judged, Logged, History, Admissible, Waits;
    OwnedGive(s.tasks, s.waiting, s.cells.Keys, id, cell, s.waits);
    LoggedGive(s.tasks, s.waits, s.log, id, cell);
    JudgedGive(s.tasks, s.waiting, s.cells, s.waits, s.log, id, cell);
    HistoryAppend(s.log, e);
    assert s.cells[cell := false].Keys == s.cells.Keys + {cell};
  }

  lemma {:induction false} NoVerdict(log: seq<Event>, wait: nat)
    requires forall e <- log :: e.wait != wait
    ensures Verdicts(log, wait) == []
  {
    if log != [] {
      NoVerdict(log[..|log| - 1], wait);
      assert log[|log| - 1] in log;
    }
  }

  lemma LoggedReport(tasks: map<TaskId, Future>, waits: nat, log: seq<Event>, id: TaskId, status: WaitStatus)
    requires Logged(tasks, waits, log) && Waits(tasks, id)
    ensures Logged(tasks, waits, log + [Reported(id, tasks[id].wait, status)])
  {
    assert Suspended(id, tasks[id].wait).wait < waits;
  }

  lemma JudgedReport(tasks: map<TaskId, Future>, waiting: map<TaskId, Waitable>, cells: map<Addr, bool>,
                     log: seq<Event>, done: set<TaskId>, id: TaskId, status: WaitStatus)
    requires Owned(tasks, waiting, cells.Keys) && Judged(tasks, waiting.Keys, cells, log, done)
    requires Waits(tasks, id) && id in waiting && id !in done
    requires forall x :: Waits(tasks, x) && x != id ==> tasks[x].wait != tasks[id].wait
    ensures Judged(tasks, waiting.Keys, if status.Waiting? then cells else cells[tasks[id].cell := status.Ready?],
                   log + [Reported(id, tasks[id].wait, status)], if status.Waiting? then done else done + {id})
  {
    VerdictsAppend(log, Reported(id, tasks[id].wait, status));
  }

  lemma ReportAdmissible(tasks: map<TaskId, Future>, waiting: set<TaskId>, cells: map<Addr, bool>, waits: nat,
                         log: seq<Event>, done: set<TaskId>, id: TaskId, status: WaitStatus)
    requires Logged(tasks, waits, log) && Judged(tasks, waiting, cells, log, done)
    requires Waits(tasks, id) && id in waiting && id !in done
    ensures Admissible(log, Reported(id, tasks[id].wait, status))
    ensures forall x :: Waits(tasks, x) && x != id ==> tasks[x].wait != tasks[id].wait
  {
  }

  /** Polling a waitable that is still pending: its cell is live. */
  lemma ConsistentReport(s: State, id: TaskId, status: WaitStatus, done: set<TaskId>)
    requires Consistent(s, done) && id in s.waiting && id !in done && !s.fault
    ensures !Report(s, id, status).fault
    ensures Consistent(Report(s, id, status), if status.Waiting? then done else done + {id})
  {
    hide Owned, Judged, Logged, History, Admissible, Waits, Verdicts;
    var w := s.waiting[id];
    OwnedAt(s.tasks, s.waiting, s.cells.Keys, id);
    ReportAdmissible(s.tasks, s.waiting.Keys, s.cells, s.waits, s.log, done, id, status);
    LoggedReport(s.tasks, s.waits, s.log, id, status);
    JudgedReport(s.tasks, s.waiting, s.cells, s.log, done, id, status);
    HistoryAppend(s.log, Reported(id, w.wait, status));
    if !status.Waiting? {
      assert s.cells[w.cell := status.Ready?].Keys == s.cells.Keys;
    }
  }

  lemma ConsistentWoken(s: State, id: TaskId, done: set<TaskId>)
    requires Consistent(s, done) && id in s.waiting && id in done
    ensures Consistent(s.(waiting := s.waiting - {id}), done - {id})
  {
    hide History, Logged;
  }
}
