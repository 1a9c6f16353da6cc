/** What becomes of cm ids, in terms of what happened to them: which callbacks they
    got, when their destruction was decided, and who still owns one. */
module CmLifetimeLaws {
  import opened Collections
  import opened Histories
  import opened CmLifetime

  /** The step ends the life of the id at an address: an owner drops the address, or
      an event is delivered there whose handling fails. */
  ghost predicate Strikes(s: State, step: Step, id: Id) {
    match step
    case ExplicitDrop(o) => o in s.owners && s.owners[o].at in s.heap && s.heap[s.owners[o].at].id == id
    case Deliver(at, event, succeeds) => at in s.heap && s.heap[at].id == id && (event.Unknown? || !succeeds)
    case _ => false
  }

  ghost predicate Struck(steps: seq<Step>, id: Id)
    requires LegalRun(steps)
  {
    steps != []
    && (Struck(steps[..|steps| - 1], id) || Strikes(Exec(steps[..|steps| - 1]), steps[|steps| - 1], id))
  }

  /** The context of an id is set exactly while nothing has struck it, and an id that
      is gone was struck. */
  ghost predicate Standing(s: State, id: Id, struck: bool) {
    && (forall at :: at in s.heap && s.heap[at].id == id ==> (s.heap[at].context <==> !struck))
    && (id < s.next && !Live(s.heap, id) ==> struck)
    && (s.next <= id ==> !struck)
  }

  lemma HandleStands(s: State, at: Addr, event: Event, succeeds: bool, id: Id, struck: bool)
    requires Placed(s.heap, s.owners, s.next) && at in s.heap && Standing(s, id, struck)
    ensures Standing(Handle(s, at, event, succeeds), id, struck || Strikes(s, Deliver(at, event, succeeds), id))
  {
    LiveSame(s.heap, at, id);
    hide Live;
  }

  lemma ReleaseStands(s: State, o: OwnerId, id: Id, struck: bool)
    requires Placed(s.heap, s.owners, s.next) && o in s.owners && Standing(s, id, struck)
    ensures Standing(Release(s, o), id, struck || Strikes(s, ExplicitDrop(o), id))
  {
    if s.owners[o].at in s.heap {
      LiveSame(s.heap, s.owners[o].at, id);
    }
    hide Live;
  }

  lemma MadeStands(s: State, step: Step, id: Id, struck: bool)
    requires Placed(s.heap, s.owners, s.next) && Legal(s, step) && (step.Create? || step.Arrive?)
    requires Standing(s, id, struck)
    ensures Standing(Apply(s, step), id, struck)
  {
    LiveMore(s.heap, step.at, Cm(s.next, true), id);
    hide Live;
  }

  lemma DestroyStands(s: State, at: Addr, id: Id, struck: bool)
    requires Placed(s.heap, s.owners, s.next) && Owed(s.heap, s.due) && at in s.due && Standing(s, id, struck)
    ensures Standing(Apply(s, Destroy(at)), id, struck)
  {
    if at in s.heap {
      LiveLess(s.heap, at, id);
    }
    hide Live;
    assert s.due[at] > 0;
  }

  lemma StepStands(s: State, step: Step, id: Id, struck: bool)
    requires Inv(s) && Legal(s, step) && Standing(s, id, struck)
    ensures Standing(Apply(s, step), id, struck || Strikes(s, step, id))
  {
    hide Standing, Handle, Release, Placed, Owed, Counted, Marked;
    match step
    case Deliver(at, event, succeeds) => HandleStands(s, at, event, succeeds, id, struck);
    case ExplicitDrop(o) => ReleaseStands(s, o, id, struck);
    case Destroy(at) => DestroyStands(s, at, id, struck);
    case _ => MadeStands(s, step, id, struck);
  }

  lemma {:induction false} RunStands(steps: seq<Step>, id: Id)
    requires LegalRun(steps)
    ensures Standing(Exec(steps), id, Struck(steps, id))
  {
    if steps != [] {
      var rest, step := steps[..|steps| - 1], steps[|steps| - 1];
      RunStands(rest, id);
      RunInv(rest);
      hide Standing, Apply, Legal, Strikes, Inv;
      StepStands(Exec(rest), step, id, Struck(rest, id));
    }
  }

  /** In every run, the destruction of an id has been decided, and then once, exactly
      if an owner dropped the address it is at or the handling of an event failed
      there: it is due, or has been carried out. */
  lemma DestroyedExactly(steps: seq<Step>, id: Id)
    requires LegalRun(steps)
    ensures var s := Exec(steps);
      && (Struck(steps, id) <==>
            s.destroyed[id] == 1 || exists at :: at in s.heap && s.heap[at].id == id && at in s.due)
      && s.destroyed[id] <= 1
      && (forall at :: at in s.heap && s.heap[at].id == id ==> s.destroyed[id] == 0 && s.due[at] <= 1)
  {
    RunInv(steps);
    RunStands(steps, id);
    var s := Exec(steps);
    hide Exec, LegalRun, Struck, Placed, Marked;
    assert forall at :: at in s.due <==> s.due[at] > 0;
    if at :| at in s.heap && s.heap[at].id == id {
      assert Live(s.heap, id);
    }
  }

  // ---------------------------------------------------------------- callbacks

  /** The events delivered to an id, but for unknown ones, until it was struck. */
  ghost function Heard(steps: seq<Step>, id: Id): seq<Event>
    requires LegalRun(steps)
  {
    if steps == [] then []
    else
      var (rest, step) := (steps[..|steps| - 1], steps[|steps| - 1]);
      var s := Exec(rest);
      Heard(rest, id)
      + if step.Deliver? && !step.event.Unknown? && step.at in s.heap && s.heap[step.at].id == id && !Struck(rest, id)
        then [step.event] else []
  }

  lemma StepHeard(s: State, step: Step, id: Id, struck: bool)
    requires Legal(s, step) && Standing(s, id, struck)
    ensures CallsOf(Apply(s, step).calls, id) == CallsOf(s.calls, id)
      + if step.Deliver? && !step.event.Unknown? && step.at in s.heap && s.heap[step.at].id == id && !struck
        then [step.event] else []
  {
    hide Live;
  }

  /** In every run, the callbacks that reached an id are exactly the known events
      delivered to it before it was struck, in order, the failing one included. */
  lemma {:induction false} CalledExactly(steps: seq<Step>, id: Id)
    requires LegalRun(steps)
    ensures CallsOf(Exec(steps).calls, id) == Heard(steps, id)
  {
    if steps != [] {
      var rest, step := steps[..|steps| - 1], steps[|steps| - 1];
      CalledExactly(rest, id);
      RunStands(rest, id);
      hide Standing, Apply, Legal, CallsOf, Struck;
      StepHeard(Exec(rest), step, id, Struck(rest, id));
    } else {
      assert CallsOf(EMPTY.calls, id) == [];
    }
  }

  // ------------------------------------------------------------------- owners

  ghost function Makes(o: OwnerId): Step -> Option<Addr> {
    (step: Step) => if step.Create? && step.owner == o then Some(step.at) else None
  }

  ghost function Drops(o: OwnerId): (Step, Addr) -> bool {
    (step: Step, _: Addr) => step == ExplicitDrop(o)
  }

  ghost function AddrOf(s: State, o: OwnerId): Option<Addr> {
    if o in s.owners then Some(s.owners[o].at) else None
  }

  lemma StepOwner(s: State, step: Step, o: OwnerId)
    requires Legal(s, step)
    ensures AddrOf(Apply(s, step), o) == Then(AddrOf(s, o), step, Makes(o), Drops(o))
  {
  }

  lemma {:induction false} RunOwner(steps: seq<Step>, o: OwnerId)
    requires LegalRun(steps)
    ensures AddrOf(Exec(steps), o) == After(None, steps, Makes(o), Drops(o))
  {
    if steps != [] {
      var rest, step := steps[..|steps| - 1], steps[|steps| - 1];
      RunOwner(rest, o);
      StepOwner(Exec(rest), step, o);
      hide Apply, Legal, Makes, Drops, Then, AddrOf;
      AfterSnoc(None, rest, step, Makes(o), Drops(o));
      assert steps == rest + [step];
    }
  }

  /** An owner has an address exactly if it made an id there and has not dropped it. */
  lemma OwnsExactly(steps: seq<Step>, o: OwnerId, at: Addr)
    requires LegalRun(steps)
    ensures AddrOf(Exec(steps), o) == Some(at) <==> exists i :: PutLast(steps, i, at, Makes(o), Drops(o))
  {
    RunOwner(steps, o);
    AfterExactly(steps, at, Makes(o), Drops(o));
  }
}
