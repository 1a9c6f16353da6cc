/** The single-threaded coroutine scheduler of r2 as a state machine over values.

    The ring holds the runnable coroutines in execution order; coroutine 0, which
    polls the futures, is its header.  A paused coroutine is in no list and comes
    back when its pending count reaches zero. */
module CoroutineModel {

  /** Routines supported, which is also the number of pending counters. */
  const MAX_ROUTINES: nat := 64

  /** A registered future: the coroutine that registered it and how many requests
      it has not reported yet. */
  datatype Future = Future(cid: nat, left: nat)

  /** What polling a future yields.  The id is that of the coroutine whose requests
      are done: a future that polls a shared queue pair finds anybody's. */
  datatype Report = NotReady | NearOk(cid: nat, num: nat) | Ok(cid: nat, num: nat) | Err(cid: nat)

  /** `broken` records that an assertion of the scheduler failed; the counter of
      an exited coroutine stays, its node is freed.  `waited` and `promised` are
      history: the requests ever waited for and ever entrusted to futures. */
  datatype State = State(
    ring: seq<nat>,
    cur: nat,
    active: seq<bool>,
    pending: seq<nat>,
    futures: seq<Future>,
    exited: set<nat>,
    broken: bool,
    waited: nat,
    promised: nat)

  function Initial(): State {
    State([0], 0, [false], seq(MAX_ROUTINES, _ => 0), [], {}, false, 0, 0)
  }

  function IndexOf(ring: seq<nat>, c: nat): (i: nat)
    requires c in ring
    ensures i < |ring| && ring[i] == c && c !in ring[..i]
  {
    if ring[0] == c then 0 else 1 + IndexOf(ring[1..], c)
  }

  function Remove(ring: seq<nat>, c: nat): seq<nat>
    requires c in ring
  {
    var i := IndexOf(ring, c);
    ring[..i] + ring[i + 1..]
  }

  /** `next_p` of a node in the ring. */
  function After(ring: seq<nat>, c: nat): (r: nat)
    requires c in ring
    ensures r in ring
  {
    var i := IndexOf(ring, c);
    if i + 1 == |ring| then ring[0] else ring[i + 1]
  }

  predicate WellFormed(s: State) {
    && |s.pending| == MAX_ROUTINES
    && |s.active| <= MAX_ROUTINES
    && s.cur in s.ring
    && (forall c <- s.ring :: c < |s.active|)
    && (forall f <- s.futures :: f.cid < |s.active|)
  }

  function Execute(s: State, c: nat): State
    requires c < |s.active|
  {
    s.(cur := c, active := s.active[c := true])
  }

  function Spawn(s: State): State {
    var cid := |s.active|;
    if cid >= MAX_ROUTINES then s else s.(active := s.active + [false], ring := s.ring + [cid])
  }

  function WaitNum(s: State, id: nat, num: nat): State
    requires id < |s.pending|
  {
    s.(pending := s.pending[id := s.pending[id] + num], waited := s.waited + num)
  }

  function EmplaceFuture(s: State, f: Future): State {
    s.(futures := s.futures + [f], promised := s.promised + f.left)
  }

  function EmplaceForRoutine(s: State, id: nat, num: nat): State
    requires id < |s.pending|
  {
    EmplaceFuture(WaitNum(s, id, num), Future(id, num))
  }

  function YieldToNext(s: State): State
    requires WellFormed(s)
  {
    var next := After(s.ring, s.cur);
    if next == s.cur then s else Execute(s, next)
  }

  function PauseAndYield(s: State): State
    requires WellFormed(s)
  {
    var next := After(s.ring, s.cur);
    Execute(s.(active := s.active[s.cur := false], ring := Remove(s.ring, s.cur)), next)
  }

  function Pause(s: State): State
    requires WellFormed(s)
  {
    if s.pending[s.cur] > 0 then PauseAndYield(s) else s
  }

  function Exit(s: State): State
    requires WellFormed(s)
  {
    var next := After(s.ring, s.cur);
    Execute(s.(ring := Remove(s.ring, s.cur), exited := s.exited + {s.cur}), next)
  }

  /** `routine_chain.add`, guarded by the scheduler's assertion. */
  function AddBack(s: State, c: nat): State
    requires c < |s.active|
  {
    if s.active[c] then s.(broken := true) else s.(ring := s.ring + [c])
  }

  function Without(fs: seq<Future>, i: nat): seq<Future>
    requires i < |fs|
  {
    fs[..i] + fs[i + 1..]
  }

  /** `num` requests of c are done; its count drops and may reach zero. */
  function Credit(s: State, c: nat, num: nat, futures: seq<Future>): State
    requires WellFormed(s)
  {
    if c >= |s.active| || s.pending[c] < num then s.(broken := true)
    else
      var s1 := s.(pending := s.pending[c := s.pending[c] - num], futures := futures);
      if s1.pending[c] == 0 then AddBack(s1, c) else s1
  }

  /** A future has reported `num` more requests. */
  function Spend(f: Future, num: nat): Future {
    Future(f.cid, if num < f.left then f.left - num else 0)
  }

  /** The future at position i reports. */
  function PollAt(s: State, i: nat, r: Report): State
    requires WellFormed(s) && i < |s.futures|
  {
    match r
    case NotReady => s
    case NearOk(c, n) => Credit(s, c, n, s.futures[i := Spend(s.futures[i], n)])
    case Ok(c, n) => Credit(s, c, n, Without(s.futures, i))
    case Err(c) =>
      if c >= |s.active| then s.(broken := true) else AddBack(s.(futures := Without(s.futures, i)), c)
  }

  lemma PollAtWellFormed(s: State, i: nat, r: Report)
    requires WellFormed(s) && i < |s.futures|
    ensures WellFormed(PollAt(s, i, r))
    ensures |PollAt(s, i, r).futures| == |s.futures| || |PollAt(s, i, r).futures| == |s.futures| - 1
  {
  }

  function Advance(r: Report): nat {
    if r.Ok? || r.Err? then 0 else 1
  }

  /** The loop of `poll_all_futures` from position i on. */
  function PollFrom(s: State, i: nat, reports: seq<Report>): State
    requires WellFormed(s)
    decreases |reports|
  {
    if i >= |s.futures| || reports == [] || s.broken then s
    else
      PollAtWellFormed(s, i, reports[0]);
      PollFrom(PollAt(s, i, reports[0]), i + Advance(reports[0]), reports[1..])
  }

  /** A report that does not have a coroutine added to the ring it is in. */
  predicate Addable(s: State, r: Report)
    requires WellFormed(s)
  {
    r.NotReady? || r.cid >= |s.active| || s.active[r.cid] || r.cid !in s.ring
    || (!r.Err? && r.num != s.pending[r.cid])
  }

  predicate AddableFrom(s: State, i: nat, rs: seq<Report>)
    requires WellFormed(s)
    decreases |rs|
  {
    i >= |s.futures| || s.broken
    || (rs != [] && Addable(s, rs[0])
        && (PollAtWellFormed(s, i, rs[0]); AddableFrom(PollAt(s, i, rs[0]), i + Advance(rs[0]), rs[1..])))
  }

  /** What the running coroutine does next. */
  datatype Step =
    | SpawnStep
    | EmplaceStep(num: nat)
    | WaitStep(num: nat)
    | FutureStep(num: nat)
    | YieldStep
    | PauseStep
    | PauseAndYieldStep
    | ExitStep
    | PollStep(reports: seq<Report>)

  /** An error-free report: it names a coroutine with that many requests pending,
      whichever, each request is reported once, and the last word is `Ok`. */
  predicate Honest(pending: seq<nat>, f: Future, r: Report) {
    r.NotReady?
    || (!r.Err? && r.cid < |pending| && 0 < pending[r.cid] && r.num <= pending[r.cid]
        && if r.NearOk? then r.num < f.left else r.num == f.left)
  }

  /** The futures from position i on answer `rs`, honestly. */
  predicate HonestFrom(s: State, i: nat, rs: seq<Report>)
    requires WellFormed(s)
    decreases |rs|
  {
    if i >= |s.futures| then rs == []
    else
      rs != [] && Honest(s.pending, s.futures[i], rs[0])
      && (PollAtWellFormed(s, i, rs[0]); HonestFrom(PollAt(s, i, rs[0]), i + Advance(rs[0]), rs[1..]))
  }

  /** How coroutines must use the scheduler: coroutine 0 only polls and yields;
      the others wait for requests of their own, pause while any is outstanding
      and never yield or return before. */
  predicate Legal(s: State, step: Step)
    requires WellFormed(s)
  {
    match step
    case SpawnStep => true
    case EmplaceStep(num) => s.cur != 0 && num > 0
    case WaitStep(num) => s.cur != 0 && num > 0
    case FutureStep(num) => num > 0
    case YieldStep => s.pending[s.cur] == 0
    case PauseStep => s.cur != 0
    case PauseAndYieldStep => s.cur != 0 && s.pending[s.cur] > 0
    case ExitStep => s.cur != 0 && s.pending[s.cur] == 0
    case PollStep(rs) => s.cur == 0 && HonestFrom(s, 0, rs)
  }

  function Apply(s: State, step: Step): State
    requires WellFormed(s)
  {
    match step
    case SpawnStep => Spawn(s)
    case EmplaceStep(num) => EmplaceForRoutine(s, s.cur, num)
    case WaitStep(num) => WaitNum(s, s.cur, num)
    case FutureStep(num) => EmplaceFuture(s, Future(s.cur, num))
    case YieldStep => YieldToNext(s)
    case PauseStep => Pause(s)
    case PauseAndYieldStep => PauseAndYield(s)
    case ExitStep => Exit(s)
    case PollStep(rs) => PollFrom(s, 0, rs)
  }

  predicate LegalRun(s: State, steps: seq<Step>)
    decreases |steps|
  {
    WellFormed(s) && (steps == [] || (Legal(s, steps[0]) && LegalRun(Apply(s, steps[0]), steps[1..])))
  }

  function Exec(s: State, steps: seq<Step>): State
    requires LegalRun(s, steps)
    decreases |steps|
  {
    if steps == [] then s else Exec(Apply(s, steps[0]), steps[1..])
  }
}
