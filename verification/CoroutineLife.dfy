/** The lives of coroutines in terms of the steps of a run alone: who has exited,
    what is pending of whom, and who is runnable. */
module CoroutineLife {
  import opened Collections
  import opened CoroutineModel
  import opened CoroutineSafety

  // -------------------------------------------------- what the steps add up to

  ghost function Spawns(steps: seq<Step>): nat {
    if steps == [] then 0 else (if steps[0].SpawnStep? then 1 else 0) + Spawns(steps[1..])
  }

  /** The coroutines that have taken their exit. */
  ghost function Exits(s: State, steps: seq<Step>): set<nat>
    requires LegalRun(s, steps)
    decreases |steps|
  {
    if steps == [] then {}
    else (if steps[0].ExitStep? then {s.cur} else {}) + Exits(Apply(s, steps[0]), steps[1..])
  }

  ghost function Asked(step: Step): nat {
    match step
    case EmplaceStep(num) => num
    case WaitStep(num) => num
    case _ => 0
  }

  /** The requests that c has waited for. */
  ghost function Waits(s: State, steps: seq<Step>, c: nat): nat
    requires LegalRun(s, steps)
    decreases |steps|
  {
    if steps == [] then 0
    else (if s.cur == c then Asked(steps[0]) else 0) + Waits(Apply(s, steps[0]), steps[1..], c)
  }

  ghost function Number(r: Report): nat {
    match r
    case NearOk(_, num) => num
    case Ok(_, num) => num
    case _ => 0
  }

  /** The requests that the reports name as done, of c or of anybody. */
  ghost function ReportsOf(rs: seq<Report>, c: nat): nat {
    if rs == [] then 0
    else (if (rs[0].NearOk? || rs[0].Ok?) && rs[0].cid == c then Number(rs[0]) else 0) + ReportsOf(rs[1..], c)
  }

  ghost function ReportsAll(rs: seq<Report>): nat {
    if rs == [] then 0 else Number(rs[0]) + ReportsAll(rs[1..])
  }

  ghost function Reported(steps: seq<Step>, c: nat): nat {
    if steps == [] then 0
    else (if steps[0].PollStep? then ReportsOf(steps[0].reports, c) else 0) + Reported(steps[1..], c)
  }

  ghost function ReportedAll(steps: seq<Step>): nat {
    if steps == [] then 0
    else (if steps[0].PollStep? then ReportsAll(steps[0].reports) else 0) + ReportedAll(steps[1..])
  }

  /** The requests entrusted to futures. */
  ghost function Entrusted(steps: seq<Step>): nat {
    if steps == [] then 0
    else (match steps[0]
          case EmplaceStep(num) => num
          case FutureStep(num) => num
          case _ => 0) + Entrusted(steps[1..])
  }

  // ------------------------------------------------------------- single steps

  /** A pass over the futures, one report at a time. */
  lemma PollPending(s: State, i: nat, r: Report, c: nat)
    requires Inv(s) && WellFormed(s) && s.cur == 0 && i < |s.futures| && Honest(s.pending, s.futures[i], r)
    requires c < MAX_ROUTINES
    ensures var t := PollAt(s, i, r);
      && |t.pending| == |s.pending| == MAX_ROUTINES && t.exited == s.exited && |t.active| == |s.active|
      && t.pending[c] + ReportsOf([r], c) == s.pending[c]
      && LeftSum(t.futures) + Number(r) == LeftSum(s.futures)
  {
    HonestEffect(s, i, r);
    assert [r][1..] == [];
    if !r.NotReady? {
      LeftSumAt(s.futures, i, Spend(s.futures[i], r.num));
      PendingParked(s, r.cid);
    }
    hide LeftSum, RingOk, Balanced, Waiters;
  }

  lemma {:induction false} PollsPending(s: State, i: nat, rs: seq<Report>, c: nat)
    requires Inv(s) && WellFormed(s) && s.cur == 0 && HonestFrom(s, i, rs) && c < MAX_ROUTINES
    ensures var t := PollFrom(s, i, rs);
      && |t.pending| == |s.pending| == MAX_ROUTINES && t.exited == s.exited && |t.active| == |s.active|
      && t.pending[c] + ReportsOf(rs, c) == s.pending[c]
      && LeftSum(t.futures) + ReportsAll(rs) == LeftSum(s.futures)
    decreases |rs|
  {
    if rs != [] {
      PollStepInv(s, i, rs);
      PollPending(s, i, rs[0], c);
      assert [rs[0]][1..] == [];
      hide Inv, WellFormed, HonestFrom, PollAt, PollFrom, LeftSum;
      PollsPending(PollAt(s, i, rs[0]), i + Advance(rs[0]), rs[1..], c);
    }
  }

  lemma LeftSumOne(f: Future)
    ensures LeftSum([f]) == f.left
  {
    assert [f][1..] == [];
  }

  /** What a step does to the counts. */
  lemma StepCounts(s: State, step: Step, c: nat)
    requires Inv(s) && WellFormed(s) && Legal(s, step) && c < MAX_ROUTINES
    ensures var t := Apply(s, step);
      && |t.pending| == |s.pending| == MAX_ROUTINES
      && t.exited == s.exited + (if step.ExitStep? then {s.cur} else {})
      && |t.active| == (if step.SpawnStep? && |s.active| < MAX_ROUTINES then |s.active| + 1 else |s.active|)
      && t.pending[c] + (if step.PollStep? then ReportsOf(step.reports, c) else 0)
         == s.pending[c] + (if s.cur == c then Asked(step) else 0)
      && LeftSum(t.futures) + (if step.PollStep? then ReportsAll(step.reports) else 0)
         == LeftSum(s.futures) + Entrusted([step])
  {
    InvCount(s);
    hide Inv, LeftSum, PollFrom, Remove, After;
    assert [step][1..] == [];
    if step.PollStep? {
      PollsPending(s, 0, step.reports, c);
    } else if step.EmplaceStep? || step.FutureStep? {
      LeftSumConcat(s.futures, [Future(s.cur, step.num)]);
      LeftSumOne(Future(s.cur, step.num));
    }
  }

  // --------------------------------------------------------------- whole runs

  lemma {:induction false} RunExits(s: State, steps: seq<Step>)
    requires Inv(s) && LegalRun(s, steps)
    ensures Exec(s, steps).exited == s.exited + Exits(s, steps)
    decreases |steps|
  {
    hide Inv, Apply, Legal, WellFormed;
    if steps != [] {
      StepCounts(s, steps[0], 0);
      StepInv(s, steps[0]);
      RunExits(Apply(s, steps[0]), steps[1..]);
    }
  }

  function Capped(n: nat): nat {
    if n <= MAX_ROUTINES then n else MAX_ROUTINES
  }

  lemma {:induction false} RunSpawned(s: State, steps: seq<Step>)
    requires Inv(s) && LegalRun(s, steps)
    ensures |Exec(s, steps).active| == Capped(|s.active| + Spawns(steps))
    decreases |steps|
  {
    hide Inv, Apply, Legal, WellFormed, Capped;
    InvCount(s);
    if steps == [] {
      CappedSame(|s.active|);
    } else {
      StepCounts(s, steps[0], 0);
      StepInv(s, steps[0]);
      RunSpawned(Apply(s, steps[0]), steps[1..]);
      CappedNext(|s.active|, Spawns(steps[1..]));
    }
  }

  lemma CappedSame(n: nat)
    requires n <= MAX_ROUTINES
    ensures Capped(n) == n
  {
  }

  /** A spawn that finds no room makes no difference. */
  lemma CappedNext(n: nat, more: nat)
    requires n <= MAX_ROUTINES
    ensures Capped((if n < MAX_ROUTINES then n + 1 else n) + more) == Capped(n + (1 + more))
  {
  }

  lemma InvCount(s: State)
    requires Inv(s)
    ensures |s.active| <= MAX_ROUTINES == |s.pending|
  {
  }

  lemma {:induction false} RunPending(s: State, steps: seq<Step>, c: nat)
    requires Inv(s) && LegalRun(s, steps) && c < MAX_ROUTINES
    ensures |Exec(s, steps).pending| == |s.pending| == MAX_ROUTINES
    ensures Exec(s, steps).pending[c] + Reported(steps, c) == s.pending[c] + Waits(s, steps, c)
    decreases |steps|
  {
    InvCount(s);
    hide Inv, Apply, Legal, WellFormed, ReportsOf, Asked;
    if steps != [] {
      StepCounts(s, steps[0], c);
      StepInv(s, steps[0]);
      RunPending(Apply(s, steps[0]), steps[1..], c);
    }
  }

  lemma {:induction false} RunLeft(s: State, steps: seq<Step>)
    requires Inv(s) && LegalRun(s, steps)
    ensures LeftSum(Exec(s, steps).futures) + ReportedAll(steps) == LeftSum(s.futures) + Entrusted(steps)
    decreases |steps|
  {
    hide Inv, Apply, Legal, WellFormed, ReportsAll, LeftSum;
    if steps != [] {
      StepCounts(s, steps[0], 0);
      StepInv(s, steps[0]);
      assert Entrusted([steps[0]]) + Entrusted(steps[1..]) == Entrusted(steps) by { assert [steps[0]][1..] == []; }
      RunLeft(Apply(s, steps[0]), steps[1..]);
    }
  }

  /** In every disciplined error-free run: what is pending of a coroutine is what it
      has waited for less what reports have named as its own, and what the futures
      have not reported is what was entrusted to them less all reports. */
  lemma PendingExactly(steps: seq<Step>, c: nat)
    requires LegalRun(Initial(), steps) && c < MAX_ROUTINES
    ensures var s := Exec(Initial(), steps);
      && c < |s.pending| && s.pending[c] == Waits(Initial(), steps, c) - Reported(steps, c)
      && LeftSum(s.futures) == Entrusted(steps) - ReportedAll(steps)
  {
    InitialInv();
    RunPending(Initial(), steps, c);
    RunLeft(Initial(), steps);
    assert LeftSum([]) == 0;
    hide Exec, LegalRun, Waits;
  }

  lemma StartIs()
    ensures |Initial().active| == 1 && Initial().exited == {} && |Initial().pending| == MAX_ROUTINES
    ensures forall c :: 0 <= c < MAX_ROUTINES ==> Initial().pending[c] == 0
  {
  }

  lemma RunnableIs(s: State, c: nat)
    requires Inv(s) && c != s.cur
    ensures |s.active| <= MAX_ROUTINES == |s.pending|
    ensures c in s.ring <==> c < |s.active| && c !in s.exited && s.pending[c] == 0
  {
  }

  lemma CappedBelow(c: nat, n: nat)
    ensures c < Capped(1 + n) <==> c < MAX_ROUTINES && c <= n
  {
  }

  /** And a coroutine that is not running is in the ring exactly if it was spawned,
      has not taken its exit, and all it has waited for was reported. */
  lemma RunnableExactly(steps: seq<Step>, c: nat)
    requires LegalRun(Initial(), steps) && c != Exec(Initial(), steps).cur
    ensures c in Exec(Initial(), steps).ring <==>
      c < MAX_ROUTINES && c <= Spawns(steps) && c !in Exits(Initial(), steps)
      && Waits(Initial(), steps, c) == Reported(steps, c)
  {
    hide Exec, LegalRun, Waits, Exits, Inv, Capped, Initial, Reported, Spawns;
    InitialInv();
    RunInv(Initial(), steps);
    RunExits(Initial(), steps);
    RunSpawned(Initial(), steps);
    RunPending(Initial(), steps, if c < MAX_ROUTINES then c else 0);
    var s := Exec(Initial(), steps);
    StartIs();
    RunnableIs(s, c);
    CappedBelow(c, Spawns(steps));
  }

  lemma {:induction false} SplitRun(s: State, steps: seq<Step>, k: nat)
    requires LegalRun(s, steps) && k <= |steps|
    ensures LegalRun(s, steps[..k]) && LegalRun(Exec(s, steps[..k]), steps[k..])
    ensures Exec(s, steps) == Exec(Exec(s, steps[..k]), steps[k..])
    decreases |steps|
  {
    hide Legal, Apply;
    if k == 0 {
      assert steps[..0] == [] && steps[0..] == steps;
    } else {
      SplitRun(Apply(s, steps[0]), steps[1..], k - 1);
      assert steps[..k][1..] == steps[1..][..k - 1] && steps[k..] == steps[1..][k - 1..];
    }
  }

  /** Once a coroutine has taken its exit it is in no ring and never runs again,
      whatever comes after. */
  lemma ExitedForGood(steps: seq<Step>, k: nat)
    requires LegalRun(Initial(), steps) && k < |steps| && steps[k].ExitStep?
    ensures LegalRun(Initial(), steps[..k])
    ensures var c := Exec(Initial(), steps[..k]).cur;
      c !in Exec(Initial(), steps).ring && c != Exec(Initial(), steps).cur
  {
    SplitRun(Initial(), steps, k);
    InitialInv();
    RunInv(Initial(), steps[..k]);
    RunInv(Initial(), steps);
    var s := Exec(Initial(), steps[..k]);
    assert steps[k..][0] == steps[k];
    hide LegalRun, Balanced, Waiters, FuturesOk, Parked;
    RunExits(s, steps[k..]);
    assert s.cur in Exits(s, steps[k..]);
    assert Exec(Initial(), steps).cur in Exec(Initial(), steps).ring;
  }

  /** An exit takes the running coroutine out of the ring and leaves all others in
      it, in their order; the one behind it runs. */
  lemma ExitKeepsOthers(s: State) returns (i: nat)
    requires Inv(s) && WellFormed(s) && Legal(s, ExitStep)
    ensures i < |s.ring| && s.ring[i] == s.cur
    ensures var t := Apply(s, ExitStep);
      && t.ring == s.ring[..i] + s.ring[i + 1..] && s.cur !in t.ring
      && t.cur == s.ring[if i + 1 == |s.ring| then 0 else i + 1]
  {
    i := IndexOf(s.ring, s.cur);
    NoDupWithout(s.ring, i);
  }
}
