/** The life of cm ids: events, handlers that fail, and owners that drop them.

    A cm id's context pointer doubles as its marker: null means that somebody has
    taken on its destruction.  The kernel frees a destroyed id, and its address
    may be used again, but an owner keeps the address. */
module CmLifetime {
  import opened Collections

  type Id = nat
  type Addr = nat
  type OwnerId = nat

  datatype Event = Req | Rep | Rej | Rtu | Dreq | SidrReq | SidrRep | Unknown

  /** A cm id in kernel memory; `context` is whether the pointer is non-null. */
  datatype Cm = Cm(id: Id, context: bool)

  /** What an owner holds: an address, and, as history, which id it was made for. */
  datatype Held = Held(at: Addr, id: Id)

  /** `due` are the destructions decided but not yet carried out.  `destroyed`,
      `dropped`, `failed` and `calls` are history: how often an id was destroyed,
      whose owner has dropped it, whose callback failed, and the callbacks that
      reached its context.  `fault` records an access to an id that is not the
      owner's own, be it freed or somebody else's. */
  datatype State = State(
    heap: map<Addr, Cm>,
    due: multiset<Addr>,
    owners: map<OwnerId, Held>,
    next: Id,
    used: set<OwnerId>,
    destroyed: multiset<Id>,
    dropped: set<Id>,
    failed: set<Id>,
    calls: map<Id, seq<Event>>,
    fault: bool)

  const EMPTY := State(map[], multiset{}, map[], 0, {}, multiset{}, {}, {}, map[], false)

  /** An owner makes an id, the kernel makes one for an incoming request, an event
      is delivered and its callback succeeds or not, an owner drops its id, and
      the kernel carries out a destruction. */
  datatype Step =
    | Create(owner: OwnerId, at: Addr)
    | Arrive(at: Addr)
    | Deliver(at: Addr, event: Event, succeeds: bool)
    | ExplicitDrop(owner: OwnerId)
    | Destroy(at: Addr)

  predicate Legal(s: State, step: Step) {
    match step
    case Create(o, at) => o !in s.used && at !in s.heap
    case Arrive(at) => at !in s.heap
    case Deliver(at, _, _) => at in s.heap
    case ExplicitDrop(o) => o in s.owners
    case Destroy(at) => at in s.due
  }

  function CallsOf(calls: map<Id, seq<Event>>, id: Id): seq<Event> {
    if id in calls then calls[id] else []
  }

  function Called(calls: map<Id, seq<Event>>, id: Id, event: Event): map<Id, seq<Event>> {
    calls[id := CallsOf(calls, id) + [event]]
  }

  /** A null context reaches no callback, and an unknown event fails without one. */
  predicate Fails(event: Event, succeeds: bool) {
    event.Unknown? || !succeeds
  }

  /** `cm_handler`: a failure nulls the context and has the kernel destroy the id. */
  function Handle(s: State, at: Addr, event: Event, succeeds: bool): State
    requires at in s.heap
  {
    var cm := s.heap[at];
    if !cm.context then s
    else
      var s1 := if event.Unknown? then s else s.(calls := Called(s.calls, cm.id, event));
      if !Fails(event, succeeds) then s1
      else s1.(heap := s.heap[at := cm.(context := false)], due := s.due + multiset{at}, failed := s.failed + {cm.id})
  }

  /** `explicit_drop`: looks at whatever is at the address, and if its context is
      set, nulls it and destroys it. */
  function Release(s: State, o: OwnerId): State
    requires o in s.owners
  {
    var h := s.owners[o];
    var s1 := s.(owners := s.owners - {o}, dropped := s.dropped + {h.id},
                 fault := s.fault || h.at !in s.heap || s.heap[h.at].id != h.id);
    if h.at !in s.heap || !s.heap[h.at].context then s1
    else s1.(heap := s.heap[h.at := s.heap[h.at].(context := false)], due := s.due + multiset{h.at})
  }

  function Apply(s: State, step: Step): State
    requires Legal(s, step)
  {
    match step
    case Create(o, at) =>
      s.(heap := s.heap[at := Cm(s.next, true)], owners := s.owners[o := Held(at, s.next)],
         next := s.next + 1, used := s.used + {o})
    case Arrive(at) => s.(heap := s.heap[at := Cm(s.next, true)], next := s.next + 1)
    case Deliver(at, event, succeeds) => Handle(s, at, event, succeeds)
    case ExplicitDrop(o) => Release(s, o)
    case Destroy(at) =>
      if at !in s.heap then s.(due := s.due - multiset{at}, fault := true)
      else s.(due := s.due - multiset{at}, heap := s.heap - {at}, destroyed := s.destroyed + multiset{s.heap[at].id})
  }

  predicate LegalRun(steps: seq<Step>)
    decreases |steps|, 0
  {
    steps == []
    || (LegalRun(steps[..|steps| - 1]) && Legal(Exec(steps[..|steps| - 1]), steps[|steps| - 1]))
  }

  /** The state after a run from the empty one. */
  function Exec(steps: seq<Step>): State
    requires LegalRun(steps)
    decreases |steps|, 1
  {
    if steps == [] then EMPTY else Apply(Exec(steps[..|steps| - 1]), steps[|steps| - 1])
  }

  // -------------------------------------------------------------- invariant

  ghost predicate Live(heap: map<Addr, Cm>, id: Id) {
    exists at :: at in heap && heap[at].id == id
  }

  /** Ids in memory are distinct, and an owner's id is at the owner's address or
      nowhere. */
  ghost predicate Placed(heap: map<Addr, Cm>, owners: map<OwnerId, Held>, next: Id) {
    && (forall a <- heap :: heap[a].id < next)
    && (forall a, b :: a in heap && b in heap && a != b ==> heap[a].id != heap[b].id)
    && (forall o <- owners :: owners[o].id < next)
    && (forall o, p :: o in owners && p in owners && o != p ==> owners[o].id != owners[p].id)
    && (forall o, a :: o in owners && a in heap && heap[a].id == owners[o].id ==> a == owners[o].at)
  }

  /** A destruction is due once for each id whose context is null. */
  ghost predicate Owed(heap: map<Addr, Cm>, due: multiset<Addr>) {
    forall at :: due[at] == if at in heap && !heap[at].context then 1 else 0
  }

  /** What is no longer in memory was destroyed once, everything else never. */
  ghost predicate Counted(heap: map<Addr, Cm>, destroyed: multiset<Id>, next: Id) {
    forall id: Id :: destroyed[id] == if id < next && !Live(heap, id) then 1 else 0
  }

  /** A dropped id has a null context or is gone. */
  ghost predicate Marked(heap: map<Addr, Cm>, dropped: set<Id>, next: Id) {
    && (forall id <- dropped :: id < next)
    && (forall a :: a in heap && heap[a].id in dropped ==> !heap[a].context)
  }

  ghost predicate Inv(s: State) {
    Placed(s.heap, s.owners, s.next) && Owed(s.heap, s.due) && Counted(s.heap, s.destroyed, s.next)
    && Marked(s.heap, s.dropped, s.next)
  }

  lemma PlacedMore(s: State, o: OwnerId, at: Addr)
    requires Placed(s.heap, s.owners, s.next) && at !in s.heap
    ensures Placed(s.heap[at := Cm(s.next, true)], s.owners, s.next + 1)
    ensures Placed(s.heap[at := Cm(s.next, true)], s.owners[o := Held(at, s.next)], s.next + 1)
  {
  }

  lemma PlacedSame(s: State, at: Addr)
    requires Placed(s.heap, s.owners, s.next) && at in s.heap
    ensures Placed(s.heap[at := s.heap[at].(context := false)], s.owners, s.next)
  {
  }

  lemma PlacedLess(s: State, o: OwnerId, at: Addr)
    requires Placed(s.heap, s.owners, s.next)
    ensures Placed(s.heap, s.owners - {o}, s.next) && Placed(s.heap - {at}, s.owners, s.next)
  {
  }

  lemma StepPlaced(s: State, step: Step)
    requires Legal(s, step) && Inv(s)
    ensures var t := Apply(s, step); Placed(t.heap, t.owners, t.next)
  {
    hide Placed, Counted, Marked;
    match step
    case Create(o, at) => PlacedMore(s, o, at);
    case Arrive(at) => PlacedMore(s, 0, at);
    case Deliver(at, _, _) => PlacedSame(s, at);
    case ExplicitDrop(o) =>
      PlacedLess(s, o, 0);
      if s.owners[o].at in s.heap {
        PlacedSame(s.(owners := s.owners - {o}), s.owners[o].at);
      }
    case Destroy(at) => PlacedLess(s, 0, at);
  }

  lemma StepOwed(s: State, step: Step)
    requires Legal(s, step) && Inv(s)
    ensures var t := Apply(s, step); Owed(t.heap, t.due)
  {
    hide Placed, Counted, Marked;
  }

  lemma MarkedMore(s: State, at: Addr)
    requires Marked(s.heap, s.dropped, s.next)
    ensures Marked(s.heap[at := Cm(s.next, true)], s.dropped, s.next + 1)
  {
  }

  lemma MarkedSame(s: State, at: Addr)
    requires Marked(s.heap, s.dropped, s.next) && at in s.heap
    ensures Marked(s.heap[at := s.heap[at].(context := false)], s.dropped, s.next)
    ensures Marked(s.heap - {at}, s.dropped, s.next)
  {
  }

  lemma ReleaseMarked(s: State, o: OwnerId)
    requires Placed(s.heap, s.owners, s.next) && Marked(s.heap, s.dropped, s.next) && o in s.owners
    ensures var t := Release(s, o); Marked(t.heap, t.dropped, t.next)
  {
    var h := s.owners[o];
    assert h.id < s.next && forall a <- s.heap :: s.heap[a].id == h.id ==> a == h.at;
    hide Placed;
  }

  lemma StepMarked(s: State, step: Step)
    requires Legal(s, step) && Inv(s)
    ensures var t := Apply(s, step); Marked(t.heap, t.dropped, t.next)
  {
    hide Placed, Counted, Marked;
    match step
    case Create(_, at) => MarkedMore(s, at);
    case Arrive(at) => MarkedMore(s, at);
    case Deliver(at, _, _) => MarkedSame(s, at);
    case ExplicitDrop(o) =>
      ReleaseMarked(s, o);
      hide Release;
    case Destroy(at) => MarkedSame(s, at);
  }

  /** Nulling a context moves no id. */
  lemma LiveSame(heap: map<Addr, Cm>, at: Addr, id: Id)
    requires at in heap
    ensures Live(heap[at := heap[at].(context := false)], id) <==> Live(heap, id)
  {
    var heap' := heap[at := heap[at].(context := false)];
    if a :| a in heap && heap[a].id == id {
      assert a in heap' && heap'[a].id == id;
    }
    if a :| a in heap' && heap'[a].id == id {
      assert a in heap && heap[a].id == id;
    }
  }

  lemma LiveMore(heap: map<Addr, Cm>, at: Addr, cm: Cm, id: Id)
    requires at !in heap
    ensures Live(heap[at := cm], id) <==> Live(heap, id) || id == cm.id
  {
    var heap' := heap[at := cm];
    assert heap'[at].id == cm.id;
    if a :| a in heap && heap[a].id == id {
      assert a in heap' && heap'[a].id == id;
    }
  }

  lemma LiveLess(heap: map<Addr, Cm>, at: Addr, id: Id)
    requires at in heap && forall a, b :: a in heap && b in heap && a != b ==> heap[a].id != heap[b].id
    ensures Live(heap - {at}, id) <==> Live(heap, id) && id != heap[at].id
  {
    if a :| a in heap && heap[a].id == id && a != at {
      assert a in heap - {at};
    }
  }

  lemma CountedMore(s: State, at: Addr)
    requires at !in s.heap && Counted(s.heap, s.destroyed, s.next)
    ensures Counted(s.heap[at := Cm(s.next, true)], s.destroyed, s.next + 1)
  {
    forall id: Id
      ensures Live(s.heap[at := Cm(s.next, true)], id) <==> Live(s.heap, id) || id == s.next
    {
      LiveMore(s.heap, at, Cm(s.next, true), id);
    }
    hide Live;
  }

  lemma CountedSame(s: State, at: Addr)
    requires at in s.heap && Counted(s.heap, s.destroyed, s.next)
    ensures Counted(s.heap[at := s.heap[at].(context := false)], s.destroyed, s.next)
  {
    forall id: Id
      ensures Live(s.heap[at := s.heap[at].(context := false)], id) <==> Live(s.heap, id)
    {
      LiveSame(s.heap, at, id);
    }
    hide Live;
  }

  lemma CountedLess(s: State, at: Addr)
    requires at in s.heap && Counted(s.heap, s.destroyed, s.next) && Placed(s.heap, s.owners, s.next)
    ensures Counted(s.heap - {at}, s.destroyed + multiset{s.heap[at].id}, s.next)
  {
    forall id: Id
      ensures Live(s.heap - {at}, id) <==> Live(s.heap, id) && id != s.heap[at].id
    {
      LiveLess(s.heap, at, id);
    }
    assert Live(s.heap, s.heap[at].id);
    hide Live;
  }

  lemma StepCounted(s: State, step: Step)
    requires Legal(s, step) && Inv(s)
    ensures var t := Apply(s, step); Counted(t.heap, t.destroyed, t.next)
  {
    hide Counted, Marked, Live;
    match step
    case Create(_, at) => CountedMore(s, at);
    case Arrive(at) => CountedMore(s, at);
    case Deliver(at, _, _) => CountedSame(s, at);
    case ExplicitDrop(o) =>
      if s.owners[o].at in s.heap {
        CountedSame(s, s.owners[o].at);
      }
    case Destroy(at) => CountedLess(s, at);
  }

  lemma StepInv(s: State, step: Step)
    requires Legal(s, step) && Inv(s)
    ensures Inv(Apply(s, step))
  {
    StepPlaced(s, step);
    StepOwed(s, step);
    StepCounted(s, step);
    StepMarked(s, step);
  }

  lemma {:induction false} RunInv(steps: seq<Step>)
    requires LegalRun(steps)
    ensures Inv(Exec(steps))
  {
    if steps != [] {
      hide Inv, Apply, Legal;
      RunInv(steps[..|steps| - 1]);
      StepInv(Exec(steps[..|steps| - 1]), steps[|steps| - 1]);
    }
  }

  /** In every run an id is destroyed at most once, and exactly once when its
      owner has dropped it and no destruction is still to be carried out. */
  lemma DestroyedOnce(steps: seq<Step>, id: Id)
    requires LegalRun(steps)
    ensures var s := Exec(steps);
      && s.destroyed[id] <= 1
      && (id in s.dropped && s.due == multiset{} ==> s.destroyed[id] == 1)
  {
    RunInv(steps);
    var s := Exec(steps);
    hide Exec;
    if Live(s.heap, id) && id in s.dropped {
      var at :| at in s.heap && s.heap[at].id == id;
      assert s.due[at] == 1;
    }
  }

  // ------------------------------------------------- when a drop comes too late

  ghost predicate Made(steps: seq<Step>, c: nat, o: OwnerId, at: Addr) {
    c < |steps| && steps[c] == Create(o, at)
  }

  /** Step d delivers an event at the address whose handler fails. */
  ghost predicate FailedBy(steps: seq<Step>, c: nat, d: nat, at: Addr) {
    c < d < |steps| && steps[d].Deliver? && steps[d].at == at && (steps[d].event.Unknown? || !steps[d].succeeds)
  }

  /** After its creation in step c, a callback of the id at the address failed in
      step d, and step k carried that out as a destruction. */
  ghost predicate LostBy(steps: seq<Step>, c: nat, d: nat, k: nat, at: Addr) {
    FailedBy(steps, c, d, at) && d < k < |steps| && steps[k] == Destroy(at)
  }

  /** Step j drops an owner whose id was lost before. */
  ghost predicate TooLate(steps: seq<Step>, c: nat, d: nat, k: nat, j: nat) {
    && c < k < j < |steps| && steps[c].Create?
    && LostBy(steps, c, d, k, steps[c].at) && steps[j] == ExplicitDrop(steps[c].owner)
  }

  ghost predicate DropsTooLate(steps: seq<Step>) {
    exists c, d, k, j :: TooLate(steps, c, d, k, j)
  }

  ghost predicate Owns(heap: map<Addr, Cm>, h: Held) {
    h.at in heap && heap[h.at].id == h.id
  }

  /** The story of an owner that was made in step c: while its id is in memory
      nothing at its address was destroyed, and a null context is due to a failed
      callback; an id that is gone was lost to one. */
  ghost predicate Story(steps: seq<Step>, heap: map<Addr, Cm>, o: OwnerId, h: Held, c: nat) {
    && Made(steps, c, o, h.at)
    && (Owns(heap, h) ==>
          && (forall k :: c < k < |steps| ==> steps[k] != Destroy(h.at))
          && (!heap[h.at].context ==> exists d :: FailedBy(steps, c, d, h.at)))
    && (!Owns(heap, h) ==> exists d, k :: LostBy(steps, c, d, k, h.at))
  }

  ghost predicate Traced(steps: seq<Step>, s: State) {
    forall o <- s.owners :: exists c :: Story(steps, s.heap, o, s.owners[o], c)
  }

  /** An owner's story goes on unchanged by a step elsewhere. */
  lemma StoryFrame(steps: seq<Step>, heap: map<Addr, Cm>, step: Step, heap': map<Addr, Cm>, o: OwnerId, h: Held, c: nat)
    requires Story(steps, heap, o, h, c)
    requires Owns(heap', h) <==> Owns(heap, h)
    requires Owns(heap, h) ==> heap'[h.at] == heap[h.at] && step != Destroy(h.at)
    ensures Story(steps + [step], heap', o, h, c)
  {
    var more := steps + [step];
    if Owns(heap, h) && !heap[h.at].context {
      var d :| FailedBy(steps, c, d, h.at);
      assert FailedBy(more, c, d, h.at);
    }
    if !Owns(heap, h) {
      var d, k :| LostBy(steps, c, d, k, h.at);
      assert LostBy(more, c, d, k, h.at);
    }
  }

  /** A failing handler nulls the context of the id at its address. */
  lemma StoryFails(steps: seq<Step>, heap: map<Addr, Cm>, step: Step, o: OwnerId, h: Held, c: nat)
    requires Story(steps, heap, o, h, c) && Owns(heap, h)
    requires step.Deliver? && step.at == h.at && Fails(step.event, step.succeeds)
    ensures Story(steps + [step], heap[h.at := heap[h.at].(context := false)], o, h, c)
  {
    assert FailedBy(steps + [step], c, |steps|, h.at);
  }

  /** A destruction at the owner's address, which is due for a null context only. */
  lemma StoryEnds(steps: seq<Step>, heap: map<Addr, Cm>, o: OwnerId, h: Held, c: nat)
    requires Story(steps, heap, o, h, c) && Owns(heap, h) && !heap[h.at].context
    ensures Story(steps + [Destroy(h.at)], heap - {h.at}, o, h, c)
  {
    var d :| FailedBy(steps, c, d, h.at);
    assert LostBy(steps + [Destroy(h.at)], c, d, |steps|, h.at);
  }

  /** Whether a step is one that touches the owner's own id. */
  ghost predicate Touches(s: State, step: Step, h: Held) {
    && Owns(s.heap, h)
    && (step == Destroy(h.at)
        || (step.Deliver? && step.at == h.at && Fails(step.event, step.succeeds) && s.heap[h.at].context))
  }

  lemma Untouched(s: State, step: Step, o: OwnerId)
    requires Placed(s.heap, s.owners, s.next) && Legal(s, step) && o in s.owners && !Apply(s, step).fault
    requires step != ExplicitDrop(o) && !Touches(s, step, s.owners[o])
    ensures var (h, t) := (s.owners[o], Apply(s, step));
      && (Owns(t.heap, h) <==> Owns(s.heap, h))
      && (Owns(s.heap, h) ==> t.heap[h.at] == s.heap[h.at] && step != Destroy(h.at))
  {
  }

  lemma StoryStep(steps: seq<Step>, s: State, step: Step, o: OwnerId, c: nat)
    requires Inv(s) && Legal(s, step) && o in s.owners && Story(steps, s.heap, o, s.owners[o], c)
    requires !Apply(s, step).fault && step != ExplicitDrop(o) && !(step.Create? && step.owner == o)
    ensures Story(steps + [step], Apply(s, step).heap, o, s.owners[o], c)
  {
    var h := s.owners[o];
    hide Placed, Counted, Marked, Story;
    if !Touches(s, step, h) {
      Untouched(s, step, o);
      hide Apply, Legal, Owed;
      StoryFrame(steps, s.heap, step, Apply(s, step).heap, o, h, c);
    } else if step.Destroy? {
      StoryEnds(steps, s.heap, o, h, c);
    } else {
      StoryFails(steps, s.heap, step, o, h, c);
    }
  }

  lemma StepTraced(steps: seq<Step>, s: State, step: Step)
    requires Inv(s) && Legal(s, step) && Traced(steps, s) && !Apply(s, step).fault
    ensures Traced(steps + [step], Apply(s, step))
  {
    var t := Apply(s, step);
    hide Inv, Apply, Legal, Story;
    forall o <- t.owners
      ensures exists c :: Story(steps + [step], t.heap, o, t.owners[o], c)
    {
      if step.Create? && step.owner == o {
        StoryBegins(steps, s, o, step.at);
      } else {
        OwnerStays(s, step, o);
        var c :| Story(steps, s.heap, o, s.owners[o], c);
        StoryStep(steps, s, step, o, c);
      }
    }
  }

  lemma StoryBegins(steps: seq<Step>, s: State, o: OwnerId, at: Addr)
    requires Legal(s, Create(o, at))
    ensures var t := Apply(s, Create(o, at));
      o in t.owners && Story(steps + [Create(o, at)], t.heap, o, t.owners[o], |steps|)
  {
  }

  lemma OwnerStays(s: State, step: Step, o: OwnerId)
    requires Legal(s, step) && o in Apply(s, step).owners && !(step.Create? && step.owner == o)
    ensures o in s.owners && Apply(s, step).owners[o] == s.owners[o] && step != ExplicitDrop(o)
  {
  }

  /** A drop goes wrong exactly if the owner's id was lost. */
  lemma DropFaults(steps: seq<Step>, s: State, o: OwnerId)
    requires Inv(s) && !s.fault && o in s.owners && Traced(steps, s)
    ensures Apply(s, ExplicitDrop(o)).fault <==> !Owns(s.heap, s.owners[o])
    ensures !Owns(s.heap, s.owners[o]) ==> DropsTooLate(steps + [ExplicitDrop(o)])
  {
    var more := steps + [ExplicitDrop(o)];
    if !Owns(s.heap, s.owners[o]) {
      var c :| Story(steps, s.heap, o, s.owners[o], c);
      var d, k :| LostBy(steps, c, d, k, s.owners[o].at);
      assert TooLate(more, c, d, k, |steps|);
    }
  }

  lemma TooLateStays(steps: seq<Step>, step: Step)
    requires DropsTooLate(steps)
    ensures DropsTooLate(steps + [step])
  {
    var c, d, k, j :| TooLate(steps, c, d, k, j);
    assert TooLate(steps + [step], c, d, k, j);
  }

  /** A run either is traceable or has dropped an owner too late. */
  lemma {:induction false} RunTraced(steps: seq<Step>)
    requires LegalRun(steps)
    ensures if Exec(steps).fault then DropsTooLate(steps) else Traced(steps, Exec(steps))
  {
    if steps != [] {
      var rest, step := steps[..|steps| - 1], steps[|steps| - 1];
      assert steps == rest + [step];
      RunTraced(rest);
      RunInv(rest);
      var s := Exec(rest);
      if s.fault {
        TooLateStays(rest, step);
      } else if !Apply(s, step).fault {
        StepTraced(rest, s, step);
      } else {
        FaultIsDrop(s, step);
        DropFaults(rest, s, step.owner);
      }
    }
  }

  lemma FaultIsDrop(s: State, step: Step)
    requires Inv(s) && Legal(s, step) && !s.fault && Apply(s, step).fault
    ensures step.ExplicitDrop?
  {
  }

  /** A fault stays, and owners are remembered. */
  lemma StepHistory(s: State, step: Step)
    requires Legal(s, step)
    ensures s.fault ==> Apply(s, step).fault
    ensures s.used <= Apply(s, step).used
    ensures step.Create? ==> step.owner !in s.used && step.owner in Apply(s, step).used
  {
  }

  lemma {:induction false} PrefixRun(steps: seq<Step>, j: nat)
    requires LegalRun(steps) && j < |steps|
    ensures LegalRun(steps[..j]) && Legal(Exec(steps[..j]), steps[j])
    ensures Apply(Exec(steps[..j]), steps[j]).fault ==> Exec(steps).fault
  {
    hide Apply, Legal;
    var n := |steps| - 1;
    if j < n {
      assert steps[..n][..j] == steps[..j];
      PrefixRun(steps[..n], j);
      StepHistory(Exec(steps[..n]), steps[n]);
    }
  }

  lemma {:induction false} MadeUsed(steps: seq<Step>, c: nat)
    requires LegalRun(steps) && c < |steps| && steps[c].Create?
    ensures steps[c].owner in Exec(steps).used
  {
    hide Apply, Legal;
    var n := |steps| - 1;
    StepHistory(Exec(steps[..n]), steps[n]);
    if c < n {
      MadeUsed(steps[..n], c);
    }
  }

  /** An owner is made once. */
  lemma {:induction false} MadeOnce(steps: seq<Step>, b: nat, c: nat)
    requires LegalRun(steps) && b < |steps| && c < |steps|
    requires steps[b].Create? && steps[c].Create? && steps[b].owner == steps[c].owner
    ensures b == c
  {
    hide Apply, Legal;
    var n := |steps| - 1;
    StepHistory(Exec(steps[..n]), steps[n]);
    if b < n && c < n {
      MadeOnce(steps[..n], b, c);
    } else if b < n {
      MadeUsed(steps[..n], b);
    } else if c < n {
      MadeUsed(steps[..n], c);
    }
  }

  /** No run of this code touches an id that is not the owner's own, freed or
      somebody else's, exactly if no owner drops its id after a failed callback of
      it was carried out as a destruction. */
  lemma FaultExactly(steps: seq<Step>)
    requires LegalRun(steps)
    ensures Exec(steps).fault <==> DropsTooLate(steps)
  {
    RunTraced(steps);
    if DropsTooLate(steps) {
      var c, d, k, j :| TooLate(steps, c, d, k, j);
      LateFaults(steps, c, d, k, j);
    }
  }

  lemma LateFaults(steps: seq<Step>, c: nat, d: nat, k: nat, j: nat)
    requires LegalRun(steps) && TooLate(steps, c, d, k, j)
    ensures Exec(steps).fault
  {
    PrefixRun(steps, j);
    var before := steps[..j];
    var s := Exec(before);
    RunTraced(before);
    RunInv(before);
    StepHistory(s, steps[j]);
    hide Exec, LegalRun, Inv;
    if !s.fault {
      var o := steps[c].owner;
      var b :| Story(before, s.heap, o, s.owners[o], b);
      MadeOnce(before, b, c);
      assert before[k] == Destroy(steps[c].at);
      DropFaults(before, s, o);
    }
  }

  // ---------------------------------------------------------- what that leads to

  /** Without a fault, a context is nulled for the id's own drop or failure. */
  ghost predicate Justified(heap: map<Addr, Cm>, destroyed: multiset<Id>, causes: set<Id>) {
    && (forall a :: a in heap && !heap[a].context ==> heap[a].id in causes)
    && (forall id <- destroyed :: id in causes)
  }

  lemma HandleJustified(s: State, at: Addr, event: Event, succeeds: bool)
    requires at in s.heap && Justified(s.heap, s.destroyed, s.dropped + s.failed)
    ensures var t := Handle(s, at, event, succeeds); Justified(t.heap, t.destroyed, t.dropped + t.failed)
  {
  }

  lemma ReleaseJustified(s: State, o: OwnerId)
    requires o in s.owners && Justified(s.heap, s.destroyed, s.dropped + s.failed) && !Release(s, o).fault
    ensures var t := Release(s, o); Justified(t.heap, t.destroyed, t.dropped + t.failed)
  {
  }

  lemma StepJustified(s: State, step: Step)
    requires Owed(s.heap, s.due) && Justified(s.heap, s.destroyed, s.dropped + s.failed)
    requires Legal(s, step) && !Apply(s, step).fault
    ensures var t := Apply(s, step); Justified(t.heap, t.destroyed, t.dropped + t.failed)
  {
    hide Handle, Release;
    match step
    case Deliver(at, event, succeeds) =>
      HandleJustified(s, at, event, succeeds);
      hide Justified;
    case ExplicitDrop(o) =>
      ReleaseJustified(s, o);
      hide Justified;
    case Create(_, _) =>
    case Arrive(_) =>
    case Destroy(_) =>
  }

  lemma {:induction false} RunJustified(steps: seq<Step>)
    requires LegalRun(steps) && !Exec(steps).fault
    ensures var s := Exec(steps); Justified(s.heap, s.destroyed, s.dropped + s.failed)
  {
    if steps != [] {
      var rest, step := steps[..|steps| - 1], steps[|steps| - 1];
      StepHistory(Exec(rest), step);
      RunJustified(rest);
      RunInv(rest);
      hide Justified, Apply, Legal;
      StepJustified(Exec(rest), step);
    }
  }

  /** If no owner drops too late, only ids are destroyed that their own owner
      dropped or whose own callback failed. */
  lemma DestroyedRightly(steps: seq<Step>, id: Id)
    requires LegalRun(steps) && !DropsTooLate(steps) && id in Exec(steps).destroyed
    ensures id in Exec(steps).dropped || id in Exec(steps).failed
  {
    FaultExactly(steps);
    RunJustified(steps);
  }

  lemma RunSnoc(steps: seq<Step>, step: Step)
    requires LegalRun(steps) && Legal(Exec(steps), step)
    ensures LegalRun(steps + [step]) && Exec(steps + [step]) == Apply(Exec(steps), step)
  {
    assert (steps + [step])[..|steps|] == steps;
  }

  /** A run in which an owner drops too late and destroys the id of another one,
      which had the same address by then. */
  lemma ForeignDestroyed(at: Addr) returns (steps: seq<Step>)
    ensures LegalRun(steps) && Exec(steps).fault
    ensures var s := Exec(steps);
      2 in s.owners && s.owners[2].id in s.destroyed && s.owners[2].id !in s.dropped + s.failed
  {
    steps := FailedThenReused(at);
    var s := Exec(steps);
    hide Exec, LegalRun;
    RunSnoc(steps, ExplicitDrop(1));
    var t := Apply(s, ExplicitDrop(1));
    assert t.heap == map[at := Cm(1, false)] && at in t.due;
    RunSnoc(steps + [ExplicitDrop(1)], Destroy(at));
    steps := steps + [ExplicitDrop(1)] + [Destroy(at)];
  }

  /** The callback of an owner's id at an address fails. */
  lemma FailingRun(at: Addr) returns (steps: seq<Step>)
    ensures LegalRun(steps)
    ensures var s := Exec(steps);
      && s.heap == map[at := Cm(0, false)] && s.due == multiset{at} && s.owners == map[1 := Held(at, 0)]
      && s.next == 1 && s.used == {1} && s.dropped == {} && s.failed == {0}
  {
    assert LegalRun([]) && Exec([]) == EMPTY;
    hide Exec, LegalRun, Release;
    var one, two := Create(1, at), Deliver(at, Unknown, true);
    RunSnoc([], one);
    var s1 := Apply(EMPTY, one);
    assert s1.heap == map[at := Cm(0, true)] && s1.due == multiset{} && s1.owners == map[1 := Held(at, 0)];
    RunSnoc([] + [one], two);
    steps := [] + [one] + [two];
  }

  /** And it is destroyed. */
  lemma FailedRun(at: Addr) returns (steps: seq<Step>)
    ensures LegalRun(steps)
    ensures var s := Exec(steps);
      && s.heap == map[] && s.owners == map[1 := Held(at, 0)] && s.next == 1 && s.used == {1}
      && s.dropped == {} && s.failed == {0}
  {
    hide Exec, LegalRun, Handle, Release;
    steps := FailingRun(at);
    assert map[at := Cm(0, false)] - {at} == map[];
    RunSnoc(steps, Destroy(at));
    steps := steps + [Destroy(at)];
  }

  lemma FailedThenReused(at: Addr) returns (steps: seq<Step>)
    ensures LegalRun(steps)
    ensures var s := Exec(steps);
      && s.heap == map[at := Cm(1, true)] && s.owners == map[1 := Held(at, 0), 2 := Held(at, 1)]
      && s.dropped == {} && s.failed == {0}
  {
    hide Exec, LegalRun, Handle, Release;
    steps := FailedRun(at);
    RunSnoc(steps, Create(2, at));
    steps := steps + [Create(2, at)];
  }

  // ---------------------------------------------------------------- callbacks

  /** An id that no callback can reach: it is made, and its context is null or it
      is gone. */
  ghost predicate Silent(heap: map<Addr, Cm>, next: Id, id: Id) {
    id < next && forall a :: a in heap && heap[a].id == id ==> !heap[a].context
  }

  ghost predicate Quiet(s: State, id: Id, calls: seq<Event>) {
    Silent(s.heap, s.next, id) && CallsOf(s.calls, id) == calls
  }

  lemma HandleQuiet(s: State, at: Addr, event: Event, succeeds: bool, id: Id, calls: seq<Event>)
    requires at in s.heap && Quiet(s, id, calls)
    ensures Quiet(Handle(s, at, event, succeeds), id, calls)
  {
  }

  lemma ReleaseQuiet(s: State, o: OwnerId, id: Id, calls: seq<Event>)
    requires o in s.owners && Quiet(s, id, calls)
    ensures Quiet(Release(s, o), id, calls)
  {
  }

  lemma StepQuiet(s: State, step: Step, id: Id, calls: seq<Event>)
    requires Legal(s, step) && Quiet(s, id, calls)
    ensures Quiet(Apply(s, step), id, calls)
  {
    hide Handle, Release;
    match step
    case Deliver(at, event, succeeds) =>
      HandleQuiet(s, at, event, succeeds, id, calls);
      hide Quiet;
    case ExplicitDrop(o) =>
      ReleaseQuiet(s, o, id, calls);
      hide Quiet;
    case Create(_, _) =>
    case Arrive(_) =>
    case Destroy(_) =>
  }

  lemma {:induction false} StaysQuiet(steps: seq<Step>, j: nat, id: Id, calls: seq<Event>)
    requires LegalRun(steps) && j <= |steps| && LegalRun(steps[..j]) && Quiet(Exec(steps[..j]), id, calls)
    ensures Quiet(Exec(steps), id, calls)
  {
    hide Apply, Legal, Quiet;
    var n := |steps| - 1;
    if j == |steps| {
      assert steps[..j] == steps;
    } else {
      assert steps[..n][..j] == steps[..j];
      StaysQuiet(steps[..n], j, id, calls);
      StepQuiet(Exec(steps[..n]), steps[n], id, calls);
    }
  }

  /** A step that silences an id: its owner drops it, or a callback of it fails. */
  ghost predicate Silences(s: State, step: Step, id: Id) {
    || (step.ExplicitDrop? && step.owner in s.owners && s.owners[step.owner].id == id)
    || (step.Deliver? && (step.event.Unknown? || !step.succeeds) && step.at in s.heap && s.heap[step.at].id == id)
  }

  lemma Silenced(s: State, step: Step, id: Id)
    requires Inv(s) && Legal(s, step) && Silences(s, step, id)
    ensures Silent(Apply(s, step).heap, Apply(s, step).next, id)
  {
    hide Owed, Counted, Marked;
  }

  /** From the step on in which an owner drops its id or a callback of an id fails,
      no callback ever reaches that id's context again. */
  lemma NoCallbackAfter(steps: seq<Step>, j: nat, id: Id)
    requires LegalRun(steps) && j < |steps| && LegalRun(steps[..j]) && Silences(Exec(steps[..j]), steps[j], id)
    ensures LegalRun(steps[..j + 1])
    ensures CallsOf(Exec(steps).calls, id) == CallsOf(Exec(steps[..j + 1]).calls, id)
  {
    hide Exec, LegalRun, Inv, Apply, Legal, Silences, Silent, CallsOf;
    PrefixRun(steps, j);
    assert steps[..j + 1] == steps[..j] + [steps[j]];
    RunSnoc(steps[..j], steps[j]);
    RunInv(steps[..j]);
    Silenced(Exec(steps[..j]), steps[j], id);
    StaysQuiet(steps, j + 1, id, CallsOf(Exec(steps[..j + 1]).calls, id));
  }

  // ------------------------------------------------------------- the object

  class CmCore {
    var heap: map<Addr, Cm>
    var due: multiset<Addr>
    var owners: map<OwnerId, Held>
    var calls: map<Id, seq<Event>>
    ghost var next: Id
    ghost var used: set<OwnerId>
    ghost var destroyed: multiset<Id>
    ghost var dropped: set<Id>
    ghost var failed: set<Id>
    ghost var fault: bool

    ghost function Model(): State
      reads this
    {
      State(heap, due, owners, next, used, destroyed, dropped, failed, calls, fault)
    }

    constructor ()
      ensures Model() == EMPTY
    {
      heap, due, owners, calls := map[], multiset{}, map[], map[];
      next, used, destroyed, dropped, failed, fault := 0, {}, multiset{}, {}, {}, false;
    }

    /** The result is what tells the kernel to destroy the id. */
    method CmHandler(at: Addr, event: Event, succeeds: bool) returns (ret: int)
      requires at in heap
      modifies this
      ensures Model() == Handle(old(Model()), at, event, succeeds)
      ensures ret == if old(heap)[at].context && (event.Unknown? || !succeeds) then -1 else 0
    {
      var cm := heap[at];
      if !cm.context {
        return 0;
      }
      var ok := false;
      if !event.Unknown? {
        calls := Called(calls, cm.id, event);
        ok := succeeds;
      }
      if !ok {
        heap := heap[at := cm.(context := false)];
        due := due + multiset{at};
        failed := failed + {cm.id};
        return -1;
      }
      return 0;
    }

    method ExplicitDrop(o: OwnerId)
      requires o in owners
      modifies this
      ensures Model() == Release(old(Model()), o)
    {
      var at := owners[o].at;
      dropped := dropped + {owners[o].id};
      fault := fault || at !in heap || heap[at].id != owners[o].id;
      owners := owners - {o};
      if at in heap && heap[at].context {
        heap := heap[at := heap[at].(context := false)];
        due := due + multiset{at};
      }
    }
  }
}
