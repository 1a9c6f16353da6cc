/** What every disciplined, error-free run of the coroutine scheduler keeps,
    whoever's requests the futures report, and how soon a runnable coroutine is
    executed. */
module CoroutineSafety {
  import opened Collections
  import opened CoroutineModel

  // ------------------------------------------------------------ list lemmas

  lemma IndexUnique(ring: seq<nat>, i: nat)
    requires NoDup(ring) && i < |ring|
    ensures IndexOf(ring, ring[i]) == i
  {
  }

  lemma RemoveFacts(ring: seq<nat>, c: nat)
    requires NoDup(ring) && c in ring
    ensures NoDup(Remove(ring, c))
    ensures forall x :: x in Remove(ring, c) <==> x in ring && x != c
    ensures |Remove(ring, c)| == |ring| - 1
  {
    var i := IndexOf(ring, c);
    var r := Remove(ring, c);
    assert ring == ring[..i] + [c] + ring[i + 1..];
    forall x ensures x in r <==> x in ring && x != c {
      if x in ring && x != c {
        var k := IndexOf(ring, x);
        assert r[if k < i then k else k - 1] == x;
      }
    }
  }

  /** The requests of c that its futures have not reported. */
  ghost function Outstanding(fs: seq<Future>, c: nat): nat {
    if fs == [] then 0 else Share(fs[0], c) + Outstanding(fs[1..], c)
  }

  ghost function Share(f: Future, c: nat): nat {
    if f.cid == c then f.left else 0
  }

  lemma {:induction false} OutstandingConcat(a: seq<Future>, b: seq<Future>, c: nat)
    ensures Outstanding(a + b, c) == Outstanding(a, c) + Outstanding(b, c)
  {
    if a == [] {
      assert a + b == b;
    } else {
      assert (a + b)[1..] == a[1..] + b;
      OutstandingConcat(a[1..], b, c);
    }
  }

  lemma OutstandingAt(fs: seq<Future>, i: nat, g: Future, c: nat)
    requires i < |fs|
    ensures Outstanding(fs, c) == Outstanding(Without(fs, i), c) + Share(fs[i], c)
    ensures Outstanding(fs[i := g], c) == Outstanding(Without(fs, i), c) + Share(g, c)
  {
    var a, b := fs[..i], fs[i + 1..];
    assert fs == a + ([fs[i]] + b) && fs[i := g] == a + ([g] + b);
    OutstandingConcat(a, [fs[i]] + b, c);
    OutstandingConcat(a, [g] + b, c);
    OutstandingConcat(a, b, c);
  }

  /** All that is pending, and all that the futures have not reported. */
  ghost function Sum(pending: seq<nat>): nat {
    if pending == [] then 0 else pending[0] + Sum(pending[1..])
  }

  ghost function LeftSum(fs: seq<Future>): nat {
    if fs == [] then 0 else fs[0].left + LeftSum(fs[1..])
  }

  lemma {:induction false} SumUpdate(pending: seq<nat>, c: nat, n: nat)
    requires c < |pending|
    ensures Sum(pending[c := n]) == Sum(pending) - pending[c] + n
    ensures pending[c] <= Sum(pending)
  {
    if c == 0 {
      assert pending[0 := n][1..] == pending[1..];
    } else {
      assert pending[c := n][1..] == pending[1..][c - 1 := n];
      SumUpdate(pending[1..], c - 1, n);
    }
  }

  lemma {:induction false} LeftSumConcat(a: seq<Future>, b: seq<Future>)
    ensures LeftSum(a + b) == LeftSum(a) + LeftSum(b)
  {
    if a == [] {
      assert a + b == b;
    } else {
      assert (a + b)[1..] == a[1..] + b;
      LeftSumConcat(a[1..], b);
    }
  }

  lemma LeftSumAt(fs: seq<Future>, i: nat, g: Future)
    requires i < |fs|
    ensures LeftSum(fs) == LeftSum(Without(fs, i)) + fs[i].left
    ensures LeftSum(fs[i := g]) == LeftSum(Without(fs, i)) + g.left
  {
    var a, b := fs[..i], fs[i + 1..];
    assert fs == a + ([fs[i]] + b) && fs[i := g] == a + ([g] + b);
    LeftSumConcat(a, [fs[i]] + b);
    LeftSumConcat(a, [g] + b);
    LeftSumConcat(a, b);
  }

  lemma {:induction false} SumZeros(pending: seq<nat>)
    requires forall c :: 0 <= c < |pending| ==> pending[c] == 0
    ensures Sum(pending) == 0
  {
    if pending != [] {
      SumZeros(pending[1..]);
    }
  }

  // -------------------------------------------------------------- invariant

  /** Coroutine 0 heads the ring; nobody is in it twice. */
  ghost predicate RingOk(ring: seq<nat>, n: nat, exited: set<nat>) {
    && ring != [] && ring[0] == 0 && NoDup(ring)
    && forall c <- ring :: c < n && c !in exited
  }

  /** Conservation: a report takes as much from what is pending as from what the
      futures still owe, so both are as far below what was ever asked of them. */
  ghost predicate Balanced(pending: seq<nat>, futures: seq<Future>, waited: nat, promised: nat) {
    Sum(pending) + promised == LeftSum(futures) + waited
  }

  ghost predicate FuturesOk(futures: seq<Future>, n: nat) {
    forall f <- futures :: f.left > 0 && f.cid < n
  }

  /** Only live coroutines other than 0 wait for anything. */
  ghost predicate Waiters(pending: seq<nat>, n: nat, exited: set<nat>) {
    && |pending| == MAX_ROUTINES
    && forall c :: 0 <= c < |pending| && pending[c] > 0 ==> 0 < c < n && c !in exited
  }

  /** Every live coroutine except the running one is in the ring exactly if
      nothing of it is pending; one outside is inactive. */
  ghost predicate Parked(ring: seq<nat>, cur: nat, active: seq<bool>, pending: seq<nat>, exited: set<nat>) {
    && |active| <= |pending|
    && cur in ring
    && (forall c :: 0 <= c < |active| && c !in exited && c != cur ==> (c in ring <==> pending[c] == 0))
    && (forall c :: 0 <= c < |active| && c !in exited && c !in ring ==> !active[c])
  }

  ghost predicate Inv(s: State) {
    && !s.broken && |s.active| <= MAX_ROUTINES
    && (forall c <- s.exited :: c < |s.active|)
    && RingOk(s.ring, |s.active|, s.exited)
    && Balanced(s.pending, s.futures, s.waited, s.promised)
    && FuturesOk(s.futures, |s.active|)
    && Waiters(s.pending, |s.active|, s.exited)
    && Parked(s.ring, s.cur, s.active, s.pending, s.exited)
  }

  lemma InvWellFormed(s: State)
    requires Inv(s)
    ensures WellFormed(s)
  {
  }

  lemma InitialInv()
    ensures Inv(Initial())
  {
    assert LeftSum([]) == 0;
    hide Sum, LeftSum;
    SumZeros(Initial().pending);
  }

  // ------------------------------------------------------------ single steps

  lemma SpawnInv(s: State)
    requires Inv(s)
    ensures Inv(Spawn(s))
  {
    var cid := |s.active|;
    if cid < MAX_ROUTINES {
      assert s.pending[cid] == 0;
      NoDupAppend(s.ring, cid);
    }
  }

  lemma WaitNumInv(s: State, num: nat)
    requires Inv(s) && s.cur != 0
    ensures Inv(WaitNum(s, s.cur, num))
  {
    SumUpdate(s.pending, s.cur, s.pending[s.cur] + num);
    hide Sum, LeftSum;
  }

  lemma EmplaceFutureInv(s: State, f: Future)
    requires Inv(s) && f.left > 0 && f.cid < |s.active|
    ensures Inv(EmplaceFuture(s, f))
  {
    LeftSumConcat(s.futures, [f]);
    assert LeftSum([f]) == f.left;
    hide Sum, LeftSum;
  }

  lemma YieldInv(s: State)
    requires Inv(s) && WellFormed(s) && s.pending[s.cur] == 0
    ensures Inv(YieldToNext(s))
  {
  }

  lemma PauseInv(s: State)
    requires Inv(s) && WellFormed(s) && s.cur != 0 && s.pending[s.cur] > 0
    ensures Inv(PauseAndYield(s))
  {
    RemoveFacts(s.ring, s.cur);
  }

  lemma ExitInv(s: State)
    requires Inv(s) && WellFormed(s) && s.cur != 0 && s.pending[s.cur] == 0
    ensures Inv(Exit(s))
  {
    RemoveFacts(s.ring, s.cur);
  }

  /** A coroutine with something pending is outside the ring and inactive while
      coroutine 0 polls. */
  lemma PendingParked(s: State, c: nat)
    requires Inv(s) && s.cur == 0 && c < |s.pending| && s.pending[c] > 0
    ensures 0 < c < |s.active| && c !in s.exited && !s.active[c] && c !in s.ring
  {
  }

  /** Lowering a count that is above zero; `fs` are the futures that remain. */
  lemma CreditInv(s: State, c: nat, num: nat, fs: seq<Future>)
    requires Inv(s) && WellFormed(s) && s.cur == 0 && c < |s.pending|
    requires num <= s.pending[c] && s.pending[c] > 0
    requires FuturesOk(fs, |s.active|) && LeftSum(fs) == LeftSum(s.futures) - num
    ensures Inv(Credit(s, c, num, fs)) && Credit(s, c, num, fs).cur == 0
  {
    PendingParked(s, c);
    NoDupAppend(s.ring, c);
    SumUpdate(s.pending, c, s.pending[c] - num);
    hide Sum, LeftSum, NoDup;
  }

  /** The futures after an honest report. */
  function Remaining(fs: seq<Future>, i: nat, r: Report): seq<Future>
    requires i < |fs| && (r.NearOk? || r.Ok?)
  {
    if r.Ok? then Without(fs, i) else fs[i := Spend(fs[i], r.num)]
  }

  /** An honest report keeps the invariant, whoever's requests it reports: the
      coroutine it completes is outside the ring and inactive, so the scheduler's
      assertion holds. */
  lemma PollAtInv(s: State, i: nat, r: Report)
    requires Inv(s) && WellFormed(s) && s.cur == 0 && i < |s.futures| && Honest(s.pending, s.futures[i], r)
    ensures Inv(PollAt(s, i, r)) && PollAt(s, i, r).cur == 0
  {
    if !r.NotReady? {
      var f := s.futures[i];
      assert f in s.futures;
      LeftSumAt(s.futures, i, Spend(f, r.num));
      var rest := Remaining(s.futures, i, r);
      assert FuturesOk(rest, |s.active|);
      hide Inv, LeftSum, FuturesOk, WellFormed;
      CreditInv(s, r.cid, r.num, rest);
    }
  }

  /** One iteration of the polling loop. */
  lemma PollStepInv(s: State, i: nat, rs: seq<Report>)
    requires Inv(s) && WellFormed(s) && s.cur == 0 && HonestFrom(s, i, rs) && rs != []
    ensures i < |s.futures|
    ensures var t := PollAt(s, i, rs[0]);
      && Inv(t) && WellFormed(t) && t.cur == 0 && !t.broken && s.ring <= t.ring
      && HonestFrom(t, i + Advance(rs[0]), rs[1..])
      && PollFrom(s, i, rs) == PollFrom(t, i + Advance(rs[0]), rs[1..])
  {
    assert !s.broken;
    PollAtInv(s, i, rs[0]);
    InvWellFormed(PollAt(s, i, rs[0]));
    hide RingOk, Balanced, FuturesOk, Waiters, Parked, WellFormed;
  }

  lemma {:induction false} PollFromInv(s: State, i: nat, rs: seq<Report>)
    requires Inv(s) && WellFormed(s) && s.cur == 0 && HonestFrom(s, i, rs)
    ensures Inv(PollFrom(s, i, rs)) && PollFrom(s, i, rs).cur == 0
    ensures s.ring <= PollFrom(s, i, rs).ring
    decreases |rs|
  {
    if rs != [] {
      PollStepInv(s, i, rs);
      hide Inv, WellFormed, HonestFrom, PollAt, PollFrom;
      PollFromInv(PollAt(s, i, rs[0]), i + Advance(rs[0]), rs[1..]);
    }
  }

  /** Honest reports never add a coroutine to the ring it is in. */
  lemma {:induction false} HonestAddable(s: State, i: nat, rs: seq<Report>)
    requires Inv(s) && WellFormed(s) && s.cur == 0 && HonestFrom(s, i, rs)
    ensures AddableFrom(s, i, rs)
    decreases |rs|
  {
    if rs != [] {
      PollStepInv(s, i, rs);
      if !rs[0].NotReady? {
        PendingParked(s, rs[0].cid);
      }
      hide Inv, WellFormed, PollAt, PollFrom;
      HonestAddable(PollAt(s, i, rs[0]), i + Advance(rs[0]), rs[1..]);
    }
  }

  lemma InvBasics(s: State)
    requires Inv(s)
    ensures !s.broken && s.ring != [] && s.ring[0] == 0 && NoDup(s.ring) && s.cur in s.ring
  {
  }

  lemma StepInv(s: State, step: Step)
    requires Inv(s) && WellFormed(s) && Legal(s, step)
    ensures Inv(Apply(s, step)) && WellFormed(Apply(s, step))
  {
    InvBasics(s);
    hide Inv;
    match step {
      case SpawnStep => SpawnInv(s);
      case EmplaceStep(num) =>
        WaitNumInv(s, num);
        EmplaceFutureInv(WaitNum(s, s.cur, num), Future(s.cur, num));
      case WaitStep(num) => WaitNumInv(s, num);
      case FutureStep(num) => EmplaceFutureInv(s, Future(s.cur, num));
      case YieldStep => YieldInv(s);
      case PauseStep => if s.pending[s.cur] > 0 { PauseInv(s); }
      case PauseAndYieldStep => PauseInv(s);
      case ExitStep => ExitInv(s);
      case PollStep(rs) => PollFromInv(s, 0, rs);
    }
    InvWellFormed(Apply(s, step));
  }

  lemma {:induction false} RunInv(s: State, steps: seq<Step>)
    requires Inv(s) && LegalRun(s, steps)
    ensures Inv(Exec(s, steps))
    decreases |steps|
  {
    hide Inv, Apply;
    if steps != [] {
      StepInv(s, steps[0]);
      RunInv(Apply(s, steps[0]), steps[1..]);
    }
  }

  // ------------------------------------------------------------- what is promised

  /** In every disciplined error-free run, whoever's requests the futures report:
      what is pending and what the futures have not reported stay as far apart as
      what was waited for and what was entrusted to futures, the assertions held,
      and a live coroutine other than the running one is runnable (once) exactly
      if nothing of it is pending. */
  lemma PendingConservation(steps: seq<Step>)
    requires LegalRun(Initial(), steps)
    ensures var s := Exec(Initial(), steps);
      && !s.broken
      && Sum(s.pending) + s.promised == LeftSum(s.futures) + s.waited
      && s.ring != [] && s.ring[0] == 0 && NoDup(s.ring) && s.cur in s.ring
      && |s.active| <= |s.pending|
      && (forall c :: 0 <= c < |s.active| && c !in s.exited && c != s.cur ==> (c in s.ring <==> s.pending[c] == 0))
  {
    InitialInv();
    RunInv(Initial(), steps);
  }

  lemma {:induction false} WaitedIsPromised(s: State, steps: seq<Step>)
    requires LegalRun(s, steps) && forall step <- steps :: !step.WaitStep? && !step.FutureStep?
    ensures Exec(s, steps).waited - Exec(s, steps).promised == s.waited - s.promised
    decreases |steps|
  {
    if steps != [] {
      assert steps[0] in steps;
      StepWaited(s, steps[0]);
      hide Apply, Legal;
      WaitedIsPromised(Apply(s, steps[0]), steps[1..]);
    }
  }

  lemma StepWaited(s: State, step: Step)
    requires WellFormed(s) && Legal(s, step) && !step.WaitStep? && !step.FutureStep?
    ensures Apply(s, step).waited - Apply(s, step).promised == s.waited - s.promised
  {
    if step.PollStep? {
      PollWaited(s, 0, step.reports);
    }
  }

  lemma {:induction false} PollWaited(s: State, i: nat, rs: seq<Report>)
    requires WellFormed(s)
    ensures PollFrom(s, i, rs).waited == s.waited && PollFrom(s, i, rs).promised == s.promised
    decreases |rs|
  {
    if !(i >= |s.futures| || rs == [] || s.broken) {
      PollAtWellFormed(s, i, rs[0]);
      PollWaited(PollAt(s, i, rs[0]), i + Advance(rs[0]), rs[1..]);
    }
  }

  /** With `emplace_for_routine` alone, what is pending is exactly what the futures
      have not reported, so while anybody is paused a future is registered. */
  lemma PausedMeansFuture(steps: seq<Step>)
    requires LegalRun(Initial(), steps) && forall step <- steps :: !step.WaitStep? && !step.FutureStep?
    ensures var s := Exec(Initial(), steps);
      && Sum(s.pending) == LeftSum(s.futures)
      && (forall c :: 0 <= c < |s.pending| && s.pending[c] > 0 ==> s.futures != [])
  {
    PendingConservation(steps);
    WaitedIsPromised(Initial(), steps);
    var s := Exec(Initial(), steps);
    hide Exec, LegalRun, Sum;
    forall c | 0 <= c < |s.pending| && s.pending[c] > 0
      ensures s.futures != []
    {
      SumUpdate(s.pending, c, 0);
    }
  }

  /** Honesty is exactly what a report needs: any other one, an error included,
      fails an assertion, puts a coroutine into the ring twice, upsets the balance
      or leaves a spent future registered. */
  lemma HonestExactly(s: State, i: nat, r: Report)
    requires Inv(s) && WellFormed(s) && s.cur == 0 && i < |s.futures|
    ensures Inv(PollAt(s, i, r)) <==> Honest(s.pending, s.futures[i], r)
  {
    if Honest(s.pending, s.futures[i], r) {
      PollAtInv(s, i, r);
    } else if r.Err? {
      ErrUpsets(s, i, r.cid);
    } else {
      DishonestUpsets(s, i, r);
    }
  }

  lemma ErrUpsets(s: State, i: nat, c: nat)
    requires Inv(s) && WellFormed(s) && i < |s.futures|
    ensures !Inv(PollAt(s, i, Err(c)))
  {
    assert s.futures[i] in s.futures;
    LeftSumAt(s.futures, i, s.futures[i]);
    hide Sum, LeftSum;
  }

  lemma DishonestUpsets(s: State, i: nat, r: Report)
    requires Inv(s) && WellFormed(s) && s.cur == 0 && i < |s.futures|
    requires !r.Err? && !Honest(s.pending, s.futures[i], r)
    ensures !Inv(PollAt(s, i, r))
  {
    if r.cid < |s.active| && r.num <= s.pending[r.cid] {
      if s.pending[r.cid] == 0 {
        AddedTwice(s, r.cid);
        hide RingOk, Sum, LeftSum;
      } else if r.NearOk? {
        SpentStays(s, i, r.cid, r.num);
      } else {
        WrongLastWord(s, i, r.cid, r.num);
      }
    }
  }

  /** A future that reports all it has left, or more, and is not done stays
      registered with nothing left. */
  lemma SpentStays(s: State, i: nat, c: nat, num: nat)
    requires Inv(s) && WellFormed(s) && i < |s.futures| && c < |s.active|
    requires s.futures[i].left <= num <= s.pending[c]
    ensures !Inv(PollAt(s, i, NearOk(c, num)))
  {
    hide RingOk, Waiters, Parked, Balanced, NoDup;
    var t := PollAt(s, i, NearOk(c, num));
    assert t.futures[i] in t.futures && t.futures[i].left == 0;
  }

  /** A last word that is not all there was left upsets the balance. */
  lemma WrongLastWord(s: State, i: nat, c: nat, num: nat)
    requires Inv(s) && WellFormed(s) && i < |s.futures| && c < |s.active|
    requires num <= s.pending[c] && num != s.futures[i].left
    ensures !Inv(PollAt(s, i, Ok(c, num)))
  {
    LeftSumAt(s.futures, i, s.futures[i]);
    SumUpdate(s.pending, c, s.pending[c] - num);
    hide Sum, LeftSum, RingOk, Waiters, Parked, FuturesOk, NoDup;
  }

  /** Adding a coroutine with nothing pending breaks the ring. */
  lemma AddedTwice(s: State, c: nat)
    requires Inv(s) && s.cur == 0 && c < |s.active| && s.pending[c] == 0
    ensures !RingOk(s.ring + [c], |s.active|, s.exited)
  {
    var ring := s.ring + [c];
    assert c in ring;
    if c in s.ring {
      var i := IndexOf(s.ring, c);
      assert ring[i] == ring[|s.ring|];
    }
  }

  // ------------------------------------------------- each coroutine by itself

  /** Every coroutine's count is what the futures it registered have not reported. */
  ghost predicate Own(pending: seq<nat>, futures: seq<Future>) {
    forall c :: 0 <= c < |pending| ==> pending[c] == Outstanding(futures, c)
  }

  /** What an honest report changes. */
  lemma HonestEffect(s: State, i: nat, r: Report)
    requires Inv(s) && WellFormed(s) && s.cur == 0 && i < |s.futures| && Honest(s.pending, s.futures[i], r)
    ensures !r.NotReady? ==>
      var t := PollAt(s, i, r);
      t.pending == s.pending[r.cid := s.pending[r.cid] - r.num] && t.futures == Remaining(s.futures, i, r)
  {
    if !r.NotReady? {
      PendingParked(s, r.cid);
      hide Inv;
    }
  }

  lemma OwnAfter(pending: seq<nat>, fs: seq<Future>, i: nat, r: Report)
    requires i < |fs| && fs[i].cid < |pending| && Own(pending, fs) && Honest(pending, fs[i], r) && !r.NotReady?
    ensures Own(pending[r.cid := pending[r.cid] - r.num], Remaining(fs, i, r)) <==> r.num == 0 || r.cid == fs[i].cid
  {
    var f, rest := fs[i], Remaining(fs, i, r);
    forall c
      ensures Outstanding(rest, c) == Outstanding(fs, c) - (if c == f.cid then r.num else 0)
    {
      OutstandingAt(fs, i, Spend(f, r.num), c);
    }
    hide Outstanding, Remaining;
    var after := pending[r.cid := pending[r.cid] - r.num];
    if r.num > 0 && r.cid != f.cid {
      assert after[f.cid] == pending[f.cid];
    }
  }

  /** The count of every single coroutine goes on being what its own futures owe,
      exactly if the report is about the coroutine that registered the future. */
  lemma OwnExactly(s: State, i: nat, r: Report)
    requires Inv(s) && WellFormed(s) && s.cur == 0 && i < |s.futures| && Own(s.pending, s.futures)
    requires Honest(s.pending, s.futures[i], r)
    ensures Own(PollAt(s, i, r).pending, PollAt(s, i, r).futures)
            <==> r.NotReady? || r.num == 0 || r.cid == s.futures[i].cid
  {
    HonestEffect(s, i, r);
    assert s.futures[i] in s.futures;
    if !r.NotReady? {
      OwnAfter(s.pending, s.futures, i, r);
      hide PollAt, Inv, Own, Remaining;
    }
  }

  // --------------------------------------------------------------- fairness

  /** How many switches away from the running coroutine `t` is. */
  ghost function Distance(ring: seq<nat>, cur: nat, t: nat): (d: nat)
    requires cur in ring && t in ring
    ensures d < |ring|
  {
    var i, j := IndexOf(ring, cur), IndexOf(ring, t);
    if j >= i then j - i else j + |ring| - i
  }

  predicate Switches(s: State, step: Step)
    requires WellFormed(s)
  {
    step.YieldStep? || step.PauseAndYieldStep? || step.ExitStep? || (step.PauseStep? && s.pending[s.cur] > 0)
  }

  lemma AfterCloser(ring: seq<nat>, c: nat, t: nat)
    requires NoDup(ring) && c in ring && t in ring && t != c
    ensures Distance(ring, After(ring, c), t) == Distance(ring, c, t) - 1
  {
    var i := IndexOf(ring, c);
    IndexUnique(ring, if i + 1 == |ring| then 0 else i + 1);
  }

  lemma RemoveCloser(ring: seq<nat>, c: nat, t: nat)
    requires NoDup(ring) && c in ring && t in ring && t != c
    ensures t in Remove(ring, c) && After(ring, c) in Remove(ring, c)
    ensures Distance(Remove(ring, c), After(ring, c), t) == Distance(ring, c, t) - 1
  {
    var i, j := IndexOf(ring, c), IndexOf(ring, t);
    var r := Remove(ring, c);
    RemoveFacts(ring, c);
    var j' := if j < i then j else j - 1;
    assert r[j'] == t;
    IndexUnique(r, j');
    var i' := if i + 1 == |ring| then 0 else i;
    assert r[i'] == After(ring, c);
    IndexUnique(r, i');
  }

  /** A switch brings every other runnable coroutine exactly one step closer. */
  lemma SwitchCloser(s: State, step: Step, t: nat)
    requires Inv(s) && WellFormed(s) && Legal(s, step) && Switches(s, step) && t in s.ring && t != s.cur
    ensures var s' := Apply(s, step);
      t in s'.ring && s'.cur in s'.ring && Distance(s'.ring, s'.cur, t) == Distance(s.ring, s.cur, t) - 1
  {
    InvBasics(s);
    hide Inv, Distance;
    if step.YieldStep? {
      AfterCloser(s.ring, s.cur, t);
    } else {
      RemoveCloser(s.ring, s.cur, t);
    }
  }

  lemma PrefixIndex(a: seq<nat>, b: seq<nat>, c: nat)
    requires a <= b && c in a && NoDup(b)
    ensures c in b && IndexOf(b, c) == IndexOf(a, c)
  {
    var i := IndexOf(a, c);
    assert b[i] == c;
    IndexUnique(b, i);
  }

  /** Waking paused coroutines happens in coroutine 0, so it delays nobody. */
  lemma OtherwiseSame(s: State, step: Step, t: nat)
    requires Inv(s) && WellFormed(s) && Legal(s, step) && !Switches(s, step) && !step.SpawnStep? && t in s.ring
    ensures var s' := Apply(s, step);
      t in s'.ring && s'.cur in s'.ring && Distance(s'.ring, s'.cur, t) == Distance(s.ring, s.cur, t)
  {
    if step.PollStep? {
      InvBasics(s);
      hide Inv, HonestFrom;
      PollFromInv(s, 0, step.reports);
      var u := Apply(s, step);
      InvBasics(u);
      PrefixIndex(s.ring, u.ring, 0);
      PrefixIndex(s.ring, u.ring, t);
      IndexUnique(s.ring, 0);
    }
  }

  function SwitchCount(s: State, steps: seq<Step>): nat
    requires LegalRun(s, steps)
    decreases |steps|
  {
    if steps == [] then 0
    else (if Switches(s, steps[0]) then 1 else 0) + SwitchCount(Apply(s, steps[0]), steps[1..])
  }

  /** Round robin: without spawns, each switch brings a runnable coroutine one
      step closer, so it runs after exactly as many switches as it is away,
      which is fewer than the ring has coroutines. */
  lemma {:induction false} RoundRobin(s: State, steps: seq<Step>, t: nat)
    requires Inv(s) && LegalRun(s, steps) && t in s.ring
    requires forall step <- steps :: !step.SpawnStep?
    requires SwitchCount(s, steps) <= Distance(s.ring, s.cur, t)
    ensures var s' := Exec(s, steps);
      && t in s'.ring && s'.cur in s'.ring
      && Distance(s'.ring, s'.cur, t) == Distance(s.ring, s.cur, t) - SwitchCount(s, steps)
      && (SwitchCount(s, steps) == Distance(s.ring, s.cur, t) ==> s'.cur == t)
    decreases |steps|
  {
    if steps == [] {
      InvBasics(s);
    } else {
      var u := Apply(s, steps[0]);
      StepInv(s, steps[0]);
      InvBasics(s);
      assert t == s.cur ==> Distance(s.ring, s.cur, t) == 0;
      hide Inv, Apply, Distance, Legal;
      if Switches(s, steps[0]) {
        SwitchCloser(s, steps[0], t);
      } else {
        OtherwiseSame(s, steps[0], t);
      }
      RoundRobin(u, steps[1..], t);
    }
  }
}
