/** The cooperative runtime's worker as a state machine over values.

    A worker owns a bounded spawner queue, a bounded FIFO run queue, a task map
    and the thread-local `WAITING` map.  A task is a future whose code is not
    known here: every poll runs it to its next suspension point, and the caller
    of `PollNext` says which one that is.  `wait_on` keeps its outcome in a heap
    cell that it allocates, that the worker writes through a raw address and
    that it frees on resumption, so cells and their reuse are modelled too.

    `log`, `waits` and `fault` are history: they record what happened and never
    influence a step.
 */
module RuntimeModel {

  /** Slots of the spawner queue and of the run queue. */
  const CAPACITY: nat := 1024

  /** Number of values of a machine word, where the task id counter wraps. */
  const ID_SPACE: nat := 0x1_0000_0000_0000_0000

  type TaskId = nat
  type Addr = nat

  datatype WaitStatus = Ready | Waiting | Error

  /** Where a task's future stopped: not polled yet, inside `yield_now`, or
      inside `wait_on` with the address of its outcome cell. */
  datatype Future = Start | AtYield | AtWait(cell: Addr, wait: nat)

  /** An entry of `WAITING`: which wait it belongs to and the cell to write. */
  datatype Waitable = Waitable(wait: nat, cell: Addr)

  /** What a polled task does next; `WaitOn` carries the address its cell gets. */
  datatype Action = Yield | WaitOn(cell: Addr) | Return

  datatype Event =
    | Suspended(id: TaskId, wait: nat)
    | Reported(id: TaskId, wait: nat, status: WaitStatus)
    | Resumed(id: TaskId, wait: nat, ok: bool)

  datatype State = State(
    spawned: nat,
    spawner: seq<TaskId>,
    queue: seq<TaskId>,
    tasks: map<TaskId, Future>,
    waiting: map<TaskId, Waitable>,
    cells: map<Addr, bool>,
    current: TaskId,
    panicked: bool,
    waits: nat,
    log: seq<Event>,
    fault: bool)

  const INITIAL := State(0, [], [], map[], map[], map[], 0, false, 0, [], false)

  /** The id handed out by the n-th call of the generator. */
  function IdOf(n: nat): TaskId {
    n % ID_SPACE
  }

  /** `spawn` takes an id first; a full spawner then panics in the caller. */
  function Spawn(s: State): State {
    var s1 := s.(spawned := s.spawned + 1);
    if |s.spawner| >= CAPACITY then s1 else s1.(spawner := s.spawner + [IdOf(s.spawned)])
  }

  /** `queue.push(id).unwrap()`. */
  function Push(s: State, id: TaskId): State {
    if |s.queue| >= CAPACITY then s.(panicked := true) else s.(queue := s.queue + [id])
  }

  /** One iteration of the drain loop of `find_task`. */
  function DrainOne(s: State): State
    requires s.spawner != []
  {
    var id := s.spawner[0];
    Push(s.(spawner := s.spawner[1..], tasks := s.tasks[id := Start]), id)
  }

  function DrainAll(s: State): State
    decreases |s.spawner|
  {
    if s.spawner == [] || s.panicked then s else DrainAll(DrainOne(s))
  }

  /** What the future does before its next suspension: `Wait::poll` completes
      without looking at the waitable, then `wait_on` takes its cell back. */
  function Resume(s: State, id: TaskId): State
    requires id in s.tasks
  {
    match s.tasks[id]
    case AtWait(cell, wait) =>
      if cell in s.cells
      then s.(cells := s.cells - {cell}, log := s.log + [Resumed(id, wait, s.cells[cell])])
      else s.(fault := true)
    case _ => s
  }

  function Act(s: State, id: TaskId, action: Action): State {
    match action
    case Yield => Push(s.(tasks := s.tasks[id := AtYield]), id)
    case WaitOn(cell) =>
      s.(tasks := s.tasks[id := AtWait(cell, s.waits)],
         waiting := s.waiting[s.current := Waitable(s.waits, cell)],
         cells := s.cells[cell := false],
         waits := s.waits + 1,
         log := s.log + [Suspended(id, s.waits)])
    case Return => s.(tasks := s.tasks - {id})
  }

  /** The task the next poll will run, if any. */
  function NextTask(s: State): (r: set<TaskId>)
    ensures |r| <= 1
  {
    if s.queue != [] && s.queue[0] in s.tasks then {s.queue[0]} else {}
  }

  function PollNext(s: State, action: Action): State {
    if s.queue == [] then s
    else
      var id := s.queue[0];
      var s1 := s.(queue := s.queue[1..]);
      if id !in s.tasks then s1 else Act(Resume(s1.(current := id), id), id, action)
  }

  /** The allocator never hands out the address of a live cell. */
  predicate CanPoll(s: State, action: Action) {
    s.queue != [] && s.queue[0] in s.tasks && action.WaitOn? ==> action.cell !in Resume(s, s.queue[0]).cells
  }

  /** `WaitableWrapper::set_flag`: a write through a raw address. */
  function SetFlag(s: State, cell: Addr, flag: bool): State {
    if cell in s.cells then s.(cells := s.cells[cell := flag]) else s.(fault := true)
  }

  function Report(s: State, id: TaskId, status: WaitStatus): State
    requires id in s.waiting
  {
    var w := s.waiting[id];
    var s1 := s.(log := s.log + [Reported(id, w.wait, status)]);
    if status.Waiting? then s1 else SetFlag(s1, w.cell, status.Ready?)
  }

  function Wake(s: State, id: TaskId): State {
    var s1 := s.(waiting := s.waiting - {id});
    if id in s.tasks then Push(s1, id) else s1
  }

  function ReportAll(s: State, ids: seq<TaskId>, status: map<TaskId, WaitStatus>): (r: State)
    requires forall id <- ids :: id in s.waiting && id in status
    ensures r.waiting == s.waiting
    decreases |ids|
  {
    if ids == [] then s else ReportAll(Report(s, ids[0], status[ids[0]]), ids[1..], status)
  }

  function DoneOf(ids: seq<TaskId>, status: map<TaskId, WaitStatus>): seq<TaskId>
    requires forall id <- ids :: id in status
  {
    if ids == [] then []
    else (if status[ids[0]].Waiting? then [] else [ids[0]]) + DoneOf(ids[1..], status)
  }

  function WakeAll(s: State, ids: seq<TaskId>): State
    decreases |ids|
  {
    if ids == [] || s.panicked then s else WakeAll(Wake(s, ids[0]), ids[1..])
  }

  predicate Ascending(ids: seq<nat>) {
    forall i, j :: 0 <= i < j < |ids| ==> ids[i] < ids[j]
  }

  /** The keys of the ordered map in iteration order. */
  function Sorted(ids: set<nat>): (r: seq<nat>)
    ensures Ascending(r)
    ensures forall id :: id in r <==> id in ids
  {
    if ids == {} then []
    else
      var m := Largest(ids);
      Sorted(ids - {m}) + [m]
  }

  function Largest(ids: set<nat>): (m: nat)
    requires ids != {}
    ensures m in ids && forall id <- ids :: id <= m
  {
    LargestExists(ids);
    var m :| m in ids && forall id <- ids :: id <= m;
    m
  }

  lemma LargestExists(ids: set<nat>)
    requires ids != {}
    ensures exists m :: m in ids && forall id <- ids :: id <= m
  {
    var x :| x in ids;
    if ids != {x} {
      var rest := ids - {x};
      assert ids == rest + {x};
      LargestExists(rest);
      var m :| m in rest && forall id <- rest :: id <= m;
      var top := if x <= m then m else x;
      assert top in ids && forall id <- ids :: id <= top;
    }
  }

  /** One pass over `WAITING`: poll every waitable once in key order, then
      remove and wake the finished ones. */
  function Round(s: State, status: map<TaskId, WaitStatus>): State
    requires s.waiting.Keys <= status.Keys
  {
    var ids := Sorted(s.waiting.Keys);
    WakeAll(ReportAll(s, ids, status), DoneOf(ids, status))
  }

  /** A step of the worker or of a thread that spawns onto it. */
  datatype Step = SpawnStep | DrainStep | PollStep(action: Action) | RoundStep(status: map<TaskId, WaitStatus>)

  predicate Legal(s: State, step: Step) {
    match step
    case SpawnStep => true
    case DrainStep => !s.panicked && s.spawner != []
    case PollStep(a) => !s.panicked && CanPoll(s, a)
    case RoundStep(st) => !s.panicked && s.waiting.Keys <= st.Keys
  }

  function Apply(s: State, step: Step): State
    requires Legal(s, step)
  {
    match step
    case SpawnStep => Spawn(s)
    case DrainStep => DrainOne(s)
    case PollStep(a) => PollNext(s, a)
    case RoundStep(st) => Round(s, st)
  }

  /** Every interleaving of spawns, drains, polls and wait rounds. */
  predicate LegalRun(s: State, steps: seq<Step>)
    decreases |steps|
  {
    steps == [] || (Legal(s, steps[0]) && LegalRun(Apply(s, steps[0]), steps[1..]))
  }

  function Exec(s: State, steps: seq<Step>): State
    requires LegalRun(s, steps)
    decreases |steps|
  {
    if steps == [] then s else Exec(Apply(s, steps[0]), steps[1..])
  }
}
