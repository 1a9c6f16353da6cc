/** What the directory's map holds, in terms of the steps alone, and what that
    means for the answers to queries. */
module MetaKvLaws {
  import opened Collections
  import opened Histories
  import opened MetaKvModel
  import opened MetaKvSafety
  import opened MetaKvQueries

  ghost function Puts(gid: Gid): Step -> Option<EndPoint> {
    (step: Step) => if (step.Register? || step.PutLocal?) && step.gid == gid then Some(step.point) else None
  }

  ghost function Takes(gid: Gid): (Step, EndPoint) -> bool {
    (step: Step, _: EndPoint) => step == Deregister(gid)
  }

  lemma StepMeta(s: State, step: Step, gid: Gid)
    requires WellFormed(s) && Legal(s, step)
    ensures Get(Apply(s, step).meta, gid) == Then(Get(s.meta, gid), step, Puts(gid), Takes(gid))
  {
  }

  lemma {:induction false} RunMeta(s: State, steps: seq<Step>, gid: Gid)
    requires LegalRun(s, steps)
    ensures Get(Exec(s, steps).meta, gid) == After(Get(s.meta, gid), steps, Puts(gid), Takes(gid))
    decreases |steps|
  {
    if steps != [] {
      StepMeta(s, steps[0], gid);
      hide Apply, Legal, Puts, Takes, Then;
      RunMeta(Apply(s, steps[0]), steps[1..], gid);
    }
  }

  /** The query handler answers with an endpoint exactly if it was the last one
      registered under the gid and has not been evicted since. */
  lemma AnswersExactly(entryBytes: nat, steps: seq<Step>, gid: Gid, point: EndPoint)
    requires entryBytes > 0 && LegalRun(Initial(entryBytes), steps)
    ensures Lookup(Exec(Initial(entryBytes), steps).meta, gid) == Some(point) <==>
      exists i :: PutLast(steps, i, point, Puts(gid), Takes(gid))
  {
    RunMeta(Initial(entryBytes), steps, gid);
    AfterExactly(steps, point, Puts(gid), Takes(gid));
  }
}
