/** Runs of the coroutine scheduler from its start: one in which futures report
    each other's requests, and one with a future that spends itself. */
module CoroutineRuns {
  import opened Collections
  import opened CoroutineModel
  import opened CoroutineSafety

  lemma {:induction false} RunSnoc(s: State, steps: seq<Step>, step: Step)
    requires LegalRun(s, steps) && WellFormed(Exec(s, steps)) && Legal(Exec(s, steps), step)
    requires WellFormed(Apply(Exec(s, steps), step))
    ensures LegalRun(s, steps + [step]) && Exec(s, steps + [step]) == Apply(Exec(s, steps), step)
    decreases |steps|
  {
    hide Legal, Apply, WellFormed;
    if steps == [] {
      assert ([] + [step])[1..] == [];
    } else {
      assert (steps + [step])[1..] == steps[1..] + [step];
      RunSnoc(Apply(s, steps[0]), steps[1..], step);
    }
  }

  /** A state with coroutines 1 and 2, by everything that matters. */
  ghost predicate Is(s: State, ring: seq<nat>, cur: nat, active: seq<bool>, one: nat, two: nat, fs: seq<Future>) {
    && WellFormed(s) && !s.broken && s.ring == ring && s.cur == cur && s.active == active
    && s.pending[0] == 0 && s.pending[1] == one && s.pending[2] == two && s.futures == fs
  }

  lemma SpawnTwo() returns (steps: seq<Step>)
    ensures LegalRun(Initial(), steps) && Is(Exec(Initial(), steps), [0, 1, 2], 0, [false, false, false], 0, 0, [])
  {
    var s1 := CoroutineModel.Spawn(Initial());
    assert s1.ring == [0, 1] && s1.active == [false, false];
    RunSnoc(Initial(), [], SpawnStep);
    RunSnoc(Initial(), [] + [SpawnStep], SpawnStep);
    steps := [] + [SpawnStep] + [SpawnStep];
    var s2 := CoroutineModel.Spawn(s1);
    assert s2.ring == [0, 1, 2] && s2.active == [false, false, false];
  }

  /** Yielding, registering one request and pausing, in states like these. */
  lemma YieldIs(s: State)
    requires Is(s, [0, 1, 2], 0, [false, false, false], 0, 0, [])
    ensures Is(YieldToNext(s), [0, 1, 2], 1, [false, true, false], 0, 0, [])
  {
  }

  lemma PauseOneIs(s: State)
    requires Is(s, [0, 1, 2], 1, [false, true, false], 0, 0, [])
    ensures Is(EmplaceForRoutine(s, 1, 1), [0, 1, 2], 1, [false, true, false], 1, 0, [Future(1, 1)])
    ensures Is(PauseAndYield(EmplaceForRoutine(s, 1, 1)), [0, 2], 2, [false, false, true], 1, 0, [Future(1, 1)])
  {
    assert Remove([0, 1, 2], 1) == [0, 2];
  }

  lemma PauseTwoIs(s: State)
    requires Is(s, [0, 2], 2, [false, false, true], 1, 0, [Future(1, 1)])
    ensures Is(EmplaceForRoutine(s, 2, 1), [0, 2], 2, [false, false, true], 1, 1, [Future(1, 1), Future(2, 1)])
    ensures Is(PauseAndYield(EmplaceForRoutine(s, 2, 1)), [0], 0, [true, false, false], 1, 1,
               [Future(1, 1), Future(2, 1)])
  {
    assert Remove([0, 2], 2) == [0];
  }

  /** Coroutines 1 and 2 each wait for one request, and coroutine 0 polls next. */
  lemma BothPaused() returns (steps: seq<Step>)
    ensures LegalRun(Initial(), steps)
    ensures Is(Exec(Initial(), steps), [0], 0, [true, false, false], 1, 1, [Future(1, 1), Future(2, 1)])
  {
    hide Exec, LegalRun, Initial, YieldToNext, EmplaceForRoutine, PauseAndYield;
    steps := SpawnTwo();
    var s := Exec(Initial(), steps);
    YieldIs(s);
    RunSnoc(Initial(), steps, YieldStep);
    steps := steps + [YieldStep];
    s := Exec(Initial(), steps);
    PauseOneIs(s);
    RunSnoc(Initial(), steps, EmplaceStep(1));
    steps := steps + [EmplaceStep(1)];
    RunSnoc(Initial(), steps, PauseAndYieldStep);
    steps := steps + [PauseAndYieldStep];
    s := Exec(Initial(), steps);
    PauseTwoIs(s);
    RunSnoc(Initial(), steps, EmplaceStep(1));
    steps := steps + [EmplaceStep(1)];
    RunSnoc(Initial(), steps, PauseAndYieldStep);
    steps := steps + [PauseAndYieldStep];
  }

  lemma CrossedIs(s: State)
    requires Is(s, [0], 0, [true, false, false], 1, 1, [Future(1, 1), Future(2, 1)])
    ensures HonestFrom(s, 0, [NotReady, Ok(1, 1)])
    ensures Is(PollFrom(s, 0, [NotReady, Ok(1, 1)]), [0, 1], 0, [true, false, false], 0, 1, [Future(1, 1)])
  {
    var rs := [NotReady, Ok(1, 1)];
    assert rs[1..] == [Ok(1, 1)] && rs[1..][1..] == [];
    var t := PollAt(s, 1, Ok(1, 1));
    assert Without(s.futures, 1) == [Future(1, 1)];
    assert Is(t, [0, 1], 0, [true, false, false], 0, 1, [Future(1, 1)]);
    assert PollFrom(s, 0, rs) == PollFrom(s, 1, rs[1..]);
    assert PollFrom(s, 1, rs[1..]) == PollFrom(t, 1, []);
    assert HonestFrom(t, 1, []) && HonestFrom(s, 1, rs[1..]);
  }

  /** An error-free run in which the second future polls the completion of the first
      coroutine: coroutine 1 is runnable although its future has reported nothing,
      and coroutine 2 waits although it has no future left. */
  lemma CrossedReports() returns (steps: seq<Step>)
    ensures LegalRun(Initial(), steps)
    ensures var s := Exec(Initial(), steps);
      && |s.pending| > 2 && s.pending[1] == 0 && s.pending[2] == 1 && 1 in s.ring && 2 !in s.ring
      && s.futures == [Future(1, 1)] && !Own(s.pending, s.futures)
  {
    steps := BothPaused();
    hide Exec, LegalRun, Initial, PollFrom, HonestFrom;
    CrossedIs(Exec(Initial(), steps));
    RunSnoc(Initial(), steps, PollStep([NotReady, Ok(1, 1)]));
    steps := steps + [PollStep([NotReady, Ok(1, 1)])];
    var s := Exec(Initial(), steps);
    assert Outstanding([Future(1, 1)], 1) == 1 + Outstanding([], 1) by { assert [Future(1, 1)][1..] == []; }
  }

  lemma SpentPolledIs(s: State)
    requires Is(s, [0], 0, [true, false, false], 1, 1, [Future(1, 1), Future(2, 1)])
    ensures Is(PollFrom(s, 0, [NearOk(1, 1), NotReady]), [0, 1], 0, [true, false, false], 0, 1,
               [Future(1, 0), Future(2, 1)])
  {
    var rs := [NearOk(1, 1), NotReady];
    assert rs[1..] == [NotReady] && rs[1..][1..] == [];
    var t := PollAt(s, 0, NearOk(1, 1));
    assert Is(t, [0, 1], 0, [true, false, false], 0, 1, [Future(1, 0), Future(2, 1)]);
    assert PollFrom(s, 0, rs) == PollFrom(t, 1, rs[1..]);
    assert PollFrom(t, 1, rs[1..]) == PollFrom(t, 2, []);
  }

  lemma SpentYieldsAre(s: State)
    requires Is(s, [0, 1], 0, [true, false, false], 0, 1, [Future(1, 0), Future(2, 1)])
    ensures Is(YieldToNext(s), [0, 1], 1, [true, true, false], 0, 1, [Future(1, 0), Future(2, 1)])
    ensures Is(YieldToNext(YieldToNext(s)), [0, 1], 0, [true, true, false], 0, 1, [Future(1, 0), Future(2, 1)])
  {
  }

  /** Why a spent future must not stay registered.  After a run from the start,
      coroutine 1's future reports its one request as `NearOk`; coroutine 1 runs and
      yields; when the future then reports `Ok` with nothing left, the scheduler is
      about to add a coroutine that is active. */
  lemma SpentFutureBreaks() returns (steps: seq<Step>)
    ensures LegalRun(Initial(), steps) && WellFormed(Exec(Initial(), steps))
    ensures var polled := PollFrom(Exec(Initial(), steps), 0, [NearOk(1, 1), NotReady]);
      && WellFormed(polled) && WellFormed(YieldToNext(polled))
      && var t := YieldToNext(YieldToNext(polled));
        WellFormed(t) && t.cur == 0 && !t.broken && PollFrom(t, 0, [Ok(1, 0)]).broken
  {
    steps := BothPaused();
    hide Exec, LegalRun, Initial, PollFrom, YieldToNext;
    var s := Exec(Initial(), steps);
    SpentPolledIs(s);
    var polled := PollFrom(s, 0, [NearOk(1, 1), NotReady]);
    SpentYieldsAre(polled);
    SpentBreaks(YieldToNext(YieldToNext(polled)));
  }

  lemma SpentBreaks(t: State)
    requires Is(t, [0, 1], 0, [true, true, false], 0, 1, [Future(1, 0), Future(2, 1)])
    ensures PollFrom(t, 0, [Ok(1, 0)]).broken
  {
    var rs := [Ok(1, 0)];
    assert PollAt(t, 0, rs[0]).broken;
    assert rs[1..] == [];
  }
}
