/** Errors, for coroutines that have one future at a time and futures that report
    about the coroutine that registered them: what still holds, and exactly when a
    coroutine is woken. */
module CoroutineErrors {
  import opened Collections
  import opened CoroutineModel
  import opened CoroutineSafety

  /** A report about the future's own coroutine; an error is a last word too. */
  predicate OwnReport(f: Future, r: Report) {
    match r
    case NotReady => true
    case NearOk(c, n) => c == f.cid && n < f.left
    case Ok(c, n) => c == f.cid && n == f.left
    case Err(c) => c == f.cid
  }

  predicate OwnFrom(s: State, i: nat, rs: seq<Report>)
    requires WellFormed(s)
    decreases |rs|
  {
    if i >= |s.futures| then rs == []
    else
      rs != [] && OwnReport(s.futures[i], rs[0])
      && (PollAtWellFormed(s, i, rs[0]); OwnFrom(PollAt(s, i, rs[0]), i + Advance(rs[0]), rs[1..]))
  }

  predicate HasFuture(fs: seq<Future>, c: nat) {
    exists i :: 0 <= i < |fs| && fs[i].cid == c
  }

  /** How coroutines use the scheduler: at most one future each, and no yield or
      return while it is registered. */
  predicate Allowed(s: State, step: Step)
    requires WellFormed(s)
  {
    match step
    case SpawnStep => true
    case EmplaceStep(num) => s.cur != 0 && num > 0 && !HasFuture(s.futures, s.cur)
    case WaitStep(_) => false
    case FutureStep(_) => false
    case YieldStep => !HasFuture(s.futures, s.cur)
    case PauseStep => s.cur != 0
    case PauseAndYieldStep => s.cur != 0 && s.pending[s.cur] > 0
    case ExitStep => s.cur != 0 && !HasFuture(s.futures, s.cur)
    case PollStep(rs) => s.cur == 0 && OwnFrom(s, 0, rs)
  }

  predicate AllowedRun(s: State, steps: seq<Step>)
    decreases |steps|
  {
    WellFormed(s) && (steps == [] || (Allowed(s, steps[0]) && AllowedRun(Apply(s, steps[0]), steps[1..])))
  }

  function RunOf(s: State, steps: seq<Step>): State
    requires AllowedRun(s, steps)
    decreases |steps|
  {
    if steps == [] then s else RunOf(Apply(s, steps[0]), steps[1..])
  }

  // -------------------------------------------------------------- invariant

  /** One future per coroutine, whose count is at least what it has not reported. */
  ghost predicate Single(futures: seq<Future>, pending: seq<nat>, n: nat, exited: set<nat>) {
    && |pending| == MAX_ROUTINES && n <= MAX_ROUTINES
    && (forall i :: 0 <= i < |futures| ==>
          0 < futures[i].cid < n && futures[i].cid !in exited && 0 < futures[i].left <= pending[futures[i].cid])
    && (forall i, j :: 0 <= i < j < |futures| ==> futures[i].cid != futures[j].cid)
  }

  /** A live coroutine outside the ring is inactive and waits for something, and
      one with a future is outside or running. */
  ghost predicate Outside(ring: seq<nat>, cur: nat, active: seq<bool>, pending: seq<nat>, futures: seq<Future>,
                          exited: set<nat>)
  {
    && |active| <= |pending| && cur in ring
    && (forall c :: 0 <= c < |active| && c !in exited && c !in ring ==> !active[c] && pending[c] > 0)
    && (forall i :: 0 <= i < |futures| ==> futures[i].cid == cur || futures[i].cid !in ring)
  }

  ghost predicate Inv(s: State) {
    && !s.broken
    && (forall c <- s.exited :: c < |s.active|)
    && RingOk(s.ring, |s.active|, s.exited)
    && Single(s.futures, s.pending, |s.active|, s.exited)
    && Outside(s.ring, s.cur, s.active, s.pending, s.futures, s.exited)
  }

  lemma InvWellFormed(s: State)
    requires Inv(s)
    ensures WellFormed(s)
  {
  }

  lemma InitialInv()
    ensures Inv(Initial())
  {
  }

  lemma SpawnInv(s: State)
    requires Inv(s)
    ensures Inv(Spawn(s))
  {
    if |s.active| < MAX_ROUTINES {
      NoDupAppend(s.ring, |s.active|);
    }
  }

  lemma EmplaceInv(s: State, num: nat)
    requires Inv(s) && s.cur != 0 && num > 0 && !HasFuture(s.futures, s.cur)
    ensures Inv(EmplaceForRoutine(s, s.cur, num))
  {
    assert forall i :: 0 <= i < |s.futures| ==> s.futures[i].cid != s.cur;
  }

  lemma YieldInv(s: State)
    requires Inv(s) && WellFormed(s) && !HasFuture(s.futures, s.cur)
    ensures Inv(YieldToNext(s))
  {
    assert forall i :: 0 <= i < |s.futures| ==> s.futures[i].cid != s.cur;
  }

  lemma PauseInv(s: State)
    requires Inv(s) && WellFormed(s) && s.cur != 0 && s.pending[s.cur] > 0
    ensures Inv(PauseAndYield(s))
  {
    RemoveFacts(s.ring, s.cur);
  }

  lemma ExitInv(s: State)
    requires Inv(s) && WellFormed(s) && s.cur != 0 && !HasFuture(s.futures, s.cur)
    ensures Inv(Exit(s))
  {
    RemoveFacts(s.ring, s.cur);
    assert forall i :: 0 <= i < |s.futures| ==> s.futures[i].cid != s.cur;
  }

  /** A future has reported and stays; its coroutine's count stays above zero. */
  lemma NearOkInv(s: State, i: nat, n: nat)
    requires Inv(s) && WellFormed(s) && s.cur == 0 && i < |s.futures| && n < s.futures[i].left
    ensures Inv(PollAt(s, i, NearOk(s.futures[i].cid, n)))
  {
  }

  /** A future is gone; its coroutine is put back or goes on waiting. */
  lemma LastWordInv(s: State, i: nat, pending: seq<nat>, ring: seq<nat>)
    requires Inv(s) && s.cur == 0 && i < |s.futures| && |pending| == |s.pending|
    requires var c := s.futures[i].cid;
      && (forall x :: 0 <= x < |pending| && x != c ==> pending[x] == s.pending[x])
      && (ring == s.ring + [c] || (ring == s.ring && pending[c] > 0))
    ensures Inv(s.(futures := Without(s.futures, i), pending := pending, ring := ring))
  {
    var c := s.futures[i].cid;
    NoDupAppend(s.ring, c);
    hide NoDup;
    var rest := Without(s.futures, i);
    assert forall k :: 0 <= k < |rest| ==> rest[k] == s.futures[if k < i then k else k + 1];
  }

  /** What a future's own report leaves: its coroutine is outside the ring and
      inactive, so the scheduler's assertion holds for errors as well. */
  lemma PollAtInv(s: State, i: nat, r: Report)
    requires Inv(s) && WellFormed(s) && s.cur == 0 && i < |s.futures| && OwnReport(s.futures[i], r)
    ensures Inv(PollAt(s, i, r)) && PollAt(s, i, r).cur == 0
  {
    var c, t := s.futures[i].cid, PollAt(s, i, r);
    assert 0 < c < |s.active| <= |s.pending| && !s.active[c] && s.futures[i].left <= s.pending[c];
    match r
    case NotReady =>
    case NearOk(_, n) => NearOkInv(s, i, n);
    case Ok(_, _) =>
      hide Inv, Without;
      LastWordInv(s, i, t.pending, t.ring);
    case Err(_) =>
      hide Inv, Without;
      LastWordInv(s, i, t.pending, t.ring);
  }

  lemma PollStepInv(s: State, i: nat, rs: seq<Report>)
    requires Inv(s) && WellFormed(s) && s.cur == 0 && OwnFrom(s, i, rs) && rs != []
    ensures i < |s.futures|
    ensures var t := PollAt(s, i, rs[0]);
      && Inv(t) && WellFormed(t) && t.cur == 0
      && OwnFrom(t, i + Advance(rs[0]), rs[1..])
      && PollFrom(s, i, rs) == PollFrom(t, i + Advance(rs[0]), rs[1..])
  {
    assert !s.broken;
    PollAtInv(s, i, rs[0]);
    InvWellFormed(PollAt(s, i, rs[0]));
    hide Inv, WellFormed;
  }

  lemma {:induction false} PollFromInv(s: State, i: nat, rs: seq<Report>)
    requires Inv(s) && WellFormed(s) && s.cur == 0 && OwnFrom(s, i, rs)
    ensures Inv(PollFrom(s, i, rs))
    decreases |rs|
  {
    if rs != [] {
      PollStepInv(s, i, rs);
      hide Inv, WellFormed, OwnFrom, PollAt, PollFrom;
      PollFromInv(PollAt(s, i, rs[0]), i + Advance(rs[0]), rs[1..]);
    }
  }

  lemma {:induction false} OwnAddable(s: State, i: nat, rs: seq<Report>)
    requires Inv(s) && WellFormed(s) && s.cur == 0 && OwnFrom(s, i, rs)
    ensures AddableFrom(s, i, rs)
    decreases |rs|
  {
    if rs != [] {
      PollStepInv(s, i, rs);
      assert Addable(s, rs[0]);
      hide Inv, WellFormed, PollAt, PollFrom, Addable;
      OwnAddable(PollAt(s, i, rs[0]), i + Advance(rs[0]), rs[1..]);
    }
  }

  lemma StepInv(s: State, step: Step)
    requires Inv(s) && WellFormed(s) && Allowed(s, step)
    ensures Inv(Apply(s, step)) && WellFormed(Apply(s, step))
  {
    hide Inv;
    match step {
      case SpawnStep => SpawnInv(s);
      case EmplaceStep(num) => EmplaceInv(s, num);
      case YieldStep => YieldInv(s);
      case PauseStep => if s.pending[s.cur] > 0 { PauseInv(s); }
      case PauseAndYieldStep => PauseInv(s);
      case ExitStep => ExitInv(s);
      case PollStep(rs) => PollFromInv(s, 0, rs);
    }
    InvWellFormed(Apply(s, step));
  }

  lemma {:induction false} RunInv(s: State, steps: seq<Step>)
    requires Inv(s) && AllowedRun(s, steps)
    ensures Inv(RunOf(s, steps))
    decreases |steps|
  {
    hide Inv, Apply, Allowed;
    if steps != [] {
      StepInv(s, steps[0]);
      RunInv(Apply(s, steps[0]), steps[1..]);
    }
  }

  /** With one future each, errors break neither the assertions nor the ring: in
      every run, whatever fails, no coroutine is in the ring twice and one outside
      it is inactive and waits. */
  lemma ErrorsKeepRing(steps: seq<Step>)
    requires AllowedRun(Initial(), steps)
    ensures var s := RunOf(Initial(), steps);
      && !s.broken && s.ring != [] && s.ring[0] == 0 && NoDup(s.ring) && s.cur in s.ring
      && |s.active| <= |s.pending|
      && forall c :: 0 <= c < |s.active| && c !in s.exited && c !in s.ring ==> !s.active[c] && s.pending[c] > 0
  {
    InitialInv();
    RunInv(Initial(), steps);
  }

  // ------------------------------------------------------------ who is woken

  /** What is pending of c beyond what its future has not reported: what errors
      left behind. */
  ghost function Debt(s: State, c: nat): int
    requires c < |s.pending|
  {
    s.pending[c] - Outstanding(s.futures, c)
  }

  lemma {:induction false} NoneOutstanding(fs: seq<Future>, c: nat)
    requires !HasFuture(fs, c)
    ensures Outstanding(fs, c) == 0
  {
    if fs != [] {
      assert fs[0].cid != c;
      assert !HasFuture(fs[1..], c) by {
        assert forall i :: 0 <= i < |fs[1..]| ==> fs[1..][i] == fs[i + 1];
      }
      NoneOutstanding(fs[1..], c);
    }
  }

  /** A coroutine's only future holds all that is outstanding of it. */
  lemma OnlyFuture(s: State, i: nat)
    requires Inv(s) && i < |s.futures|
    ensures Outstanding(s.futures, s.futures[i].cid) == s.futures[i].left
    ensures !HasFuture(Without(s.futures, i), s.futures[i].cid)
  {
    var fs, c := s.futures, s.futures[i].cid;
    var rest := Without(fs, i);
    assert forall k :: 0 <= k < |rest| ==> rest[k] == fs[if k < i then k else k + 1];
    NoneOutstanding(rest, c);
    OutstandingAt(fs, i, fs[i], c);
  }

  /** A future's last word wakes its coroutine exactly if it is an error, or the
      coroutine has no debt from an earlier one. */
  lemma LastWord(s: State, i: nat, r: Report)
    requires Inv(s) && WellFormed(s) && s.cur == 0 && i < |s.futures| && OwnReport(s.futures[i], r)
    requires r.Ok? || r.Err?
    ensures s.futures[i].cid in PollAt(s, i, r).ring <==> r.Err? || Debt(s, s.futures[i].cid) == 0
    ensures !HasFuture(PollAt(s, i, r).futures, s.futures[i].cid)
  {
    OnlyFuture(s, i);
    hide Outstanding, HasFuture;
    assert s.futures[i].cid !in s.ring && !s.active[s.futures[i].cid];
  }

  /** Only an error changes a debt: it adds what the future had not reported. */
  lemma DebtAfter(s: State, i: nat, r: Report, c: nat)
    requires Inv(s) && WellFormed(s) && s.cur == 0 && i < |s.futures| && OwnReport(s.futures[i], r) && c < |s.pending|
    ensures var t := PollAt(s, i, r);
      c < |t.pending| && Debt(t, c) == Debt(s, c) + if r == Err(c) then s.futures[i].left else 0
  {
    var f := s.futures[i];
    if r.NearOk? || r.Ok? {
      OutstandingAt(s.futures, i, Spend(f, r.num), c);
    } else {
      OutstandingAt(s.futures, i, f, c);
    }
    hide Outstanding;
    assert !s.active[f.cid];
  }

  /** A coroutine with a debt that waits outside the ring. */
  ghost predicate Lost(s: State, c: nat) {
    && c < |s.active| <= |s.pending| && c !in s.exited && c !in s.ring && Debt(s, c) > 0
  }

  lemma PollAtLost(s: State, i: nat, r: Report, c: nat)
    requires Inv(s) && WellFormed(s) && s.cur == 0 && i < |s.futures| && OwnReport(s.futures[i], r)
    requires Lost(s, c) && r != Err(c)
    ensures Lost(PollAt(s, i, r), c) && Debt(PollAt(s, i, r), c) == Debt(s, c)
  {
    DebtAfter(s, i, r, c);
    if s.futures[i].cid == c {
      OnlyFuture(s, i);
    }
    hide Outstanding, HasFuture;
  }

  lemma {:induction false} PollFromLost(s: State, i: nat, rs: seq<Report>, c: nat)
    requires Inv(s) && WellFormed(s) && s.cur == 0 && OwnFrom(s, i, rs) && Lost(s, c) && Err(c) !in rs
    ensures Lost(PollFrom(s, i, rs), c) && Debt(PollFrom(s, i, rs), c) == Debt(s, c)
    decreases |rs|
  {
    if rs != [] {
      PollStepInv(s, i, rs);
      PollAtLost(s, i, rs[0], c);
      hide Inv, WellFormed, PollAt, PollFrom, Lost, Debt;
      PollFromLost(PollAt(s, i, rs[0]), i + Advance(rs[0]), rs[1..], c);
    }
  }

  ghost predicate Fails(step: Step, c: nat) {
    step.PollStep? && Err(c) in step.reports
  }

  lemma StepLost(s: State, step: Step, c: nat)
    requires Inv(s) && WellFormed(s) && Allowed(s, step) && Lost(s, c) && !Fails(step, c)
    ensures Lost(Apply(s, step), c) && Debt(Apply(s, step), c) == Debt(s, c)
  {
    match step
    case PollStep(rs) => PollFromLost(s, 0, rs, c);
    case EmplaceStep(num) =>
      OutstandingConcat(s.futures, [Future(s.cur, num)], c);
      assert c != s.cur && [Future(s.cur, num)][1..] == [];
    case PauseStep => RemoveFacts(s.ring, s.cur);
    case PauseAndYieldStep => RemoveFacts(s.ring, s.cur);
    case ExitStep => RemoveFacts(s.ring, s.cur);
    case SpawnStep =>
    case YieldStep =>
  }

  /** A coroutine that waits with a debt is never woken again, whatever runs and
      whatever its future reports, unless it gets another error. */
  lemma {:induction false} LostForGood(s: State, steps: seq<Step>, c: nat)
    requires Inv(s) && AllowedRun(s, steps) && Lost(s, c) && forall step <- steps :: !Fails(step, c)
    ensures Lost(RunOf(s, steps), c)
    decreases |steps|
  {
    if steps != [] {
      assert steps[0] in steps;
      StepLost(s, steps[0], c);
      StepInv(s, steps[0]);
      hide Inv, Apply, Allowed, Lost, Fails;
      LostForGood(Apply(s, steps[0]), steps[1..], c);
    }
  }

  // ------------------------------------------------------- a run that loses one

  lemma {:induction false} RunSnoc(s: State, steps: seq<Step>, step: Step)
    requires AllowedRun(s, steps) && WellFormed(RunOf(s, steps)) && Allowed(RunOf(s, steps), step)
    requires WellFormed(Apply(RunOf(s, steps), step))
    ensures AllowedRun(s, steps + [step]) && RunOf(s, steps + [step]) == Apply(RunOf(s, steps), step)
    decreases |steps|
  {
    hide Allowed, Apply, WellFormed;
    if steps == [] {
      assert ([] + [step])[1..] == [];
    } else {
      assert (steps + [step])[1..] == steps[1..] + [step];
      RunSnoc(Apply(s, steps[0]), steps[1..], step);
    }
  }

  /** A state with coroutine 1, by everything that matters. */
  ghost predicate Is(s: State, ring: seq<nat>, cur: nat, active: seq<bool>, one: nat, fs: seq<Future>) {
    && WellFormed(s) && !s.broken && s.ring == ring && s.cur == cur && s.active == active && s.exited == {}
    && s.pending[0] == 0 && s.pending[1] == one && s.futures == fs
  }

  /** Coroutine 1 runs, registers one request and pauses. */
  lemma WaitsAre(s: State, zero: bool, one: nat)
    requires Is(s, [0, 1], 0, [zero, false], one, [])
    ensures Is(YieldToNext(s), [0, 1], 1, [zero, true], one, [])
    ensures Is(EmplaceForRoutine(YieldToNext(s), 1, 1), [0, 1], 1, [zero, true], one + 1, [Future(1, 1)])
    ensures Is(PauseAndYield(EmplaceForRoutine(YieldToNext(s), 1, 1)), [0], 0, [true, false], one + 1, [Future(1, 1)])
  {
    assert Remove([0, 1], 1) == [0];
  }

  lemma PollsAre(s: State, one: nat, r: Report)
    requires Is(s, [0], 0, [true, false], one, [Future(1, 1)]) && one > 0 && (r == Err(1) || r == Ok(1, 1))
    ensures OwnFrom(s, 0, [r])
    ensures r == Err(1) ==> Is(PollFrom(s, 0, [r]), [0, 1], 0, [true, false], one, [])
    ensures r == Ok(1, 1) && one > 1 ==> Is(PollFrom(s, 0, [r]), [0], 0, [true, false], one - 1, [])
  {
    assert [r][1..] == [] && Without(s.futures, 0) == [];
    var t := PollAt(s, 0, r);
    assert PollFrom(s, 0, [r]) == PollFrom(t, 0, []);
    assert OwnFrom(t, 0, []);
  }

  lemma WaitOnce(before: seq<Step>, zero: bool, one: nat) returns (steps: seq<Step>)
    requires AllowedRun(Initial(), before) && Is(RunOf(Initial(), before), [0, 1], 0, [zero, false], one, [])
    ensures AllowedRun(Initial(), steps) && Is(RunOf(Initial(), steps), [0], 0, [true, false], one + 1, [Future(1, 1)])
  {
    hide RunOf, AllowedRun, Initial, YieldToNext, EmplaceForRoutine, PauseAndYield;
    WaitsAre(RunOf(Initial(), before), zero, one);
    RunSnoc(Initial(), before, YieldStep);
    steps := before + [YieldStep];
    RunSnoc(Initial(), steps, EmplaceStep(1));
    steps := steps + [EmplaceStep(1)];
    RunSnoc(Initial(), steps, PauseAndYieldStep);
    steps := steps + [PauseAndYieldStep];
  }

  lemma OneSpawned()
    ensures AllowedRun(Initial(), [SpawnStep])
    ensures Is(RunOf(Initial(), [SpawnStep]), [0, 1], 0, [false, false], 0, [])
  {
    assert [SpawnStep][1..] == [];
    var s := CoroutineModel.Spawn(Initial());
    assert s.ring == [0, 1] && s.active == [false, false];
  }

  /** A run from the start that loses a coroutine: its first request fails, it goes
      on with a second one, and that one's success does not wake it. */
  lemma ErrorThenLost() returns (steps: seq<Step>)
    ensures AllowedRun(Initial(), steps)
    ensures var s := RunOf(Initial(), steps); Lost(s, 1) && s.futures == []
  {
    OneSpawned();
    steps := WaitOnce([SpawnStep], false, 0);
    hide RunOf, AllowedRun, Initial, PollFrom, OwnFrom;
    PollsAre(RunOf(Initial(), steps), 1, Err(1));
    RunSnoc(Initial(), steps, PollStep([Err(1)]));
    steps := WaitOnce(steps + [PollStep([Err(1)])], true, 1);
    PollsAre(RunOf(Initial(), steps), 2, Ok(1, 1));
    RunSnoc(Initial(), steps, PollStep([Ok(1, 1)]));
    steps := steps + [PollStep([Ok(1, 1)])];
    assert Outstanding([], 1) == 0;
  }
}
