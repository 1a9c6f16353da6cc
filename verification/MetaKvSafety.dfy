/** Safety of one-sided queries under every interleaving, and agreement with the
    two-sided query handler whenever no registration is in progress. */
module MetaKvSafety {
  import opened Collections
  import opened MetaKvModel

  // -------------------------------------------------------------- invariant

  /** Everything readable was put into the map at some time. */
  ghost predicate Genuine(s: State) {
    && (forall g <- s.meta :: s.meta[g] in s.registered)
    && (forall p, k :: 0 <= p < |s.pages| && 0 <= k < |s.pages[p].slots| && s.pages[p].slots[k].Some? ==>
          s.pages[p].slots[k].value in s.registered)
    && (forall q <- s.queries :: forall e <- s.queries[q].got :: e in s.registered)
  }

  /** The first n slots of a page have been written. */
  ghost predicate Filled(page: Page, n: nat) {
    n <= |page.slots| && forall k :: 0 <= k < n ==> page.slots[k].Some?
  }

  /** Every slot below a count that is on a page or in a client's hands. */
  ghost predicate Covered(s: State) {
    && (forall p :: 0 <= p < |s.pages| ==> Filled(s.pages[p], s.pages[p].len))
    && (forall q <- s.queries ::
          var u := s.queries[q];
          u.page < |s.pages| && |u.got| <= u.len && Filled(s.pages[u.page], u.len))
  }

  /** The first n slots of a page are those of an image. */
  ghost predicate Written(page: Page, image: Image, n: nat) {
    && n <= |image.order| <= |page.slots|
    && Enumerates(image.order, image.m.Keys)
    && forall k :: 0 <= k < n ==> page.slots[k] == Some(image.m[image.order[k]])
  }

  /** The slots from n on are still those of an image. */
  ghost predicate Remains(page: Page, image: Image, n: nat) {
    && |image.order| <= |page.slots|
    && Enumerates(image.order, image.m.Keys)
    && forall k :: n <= k < |image.order| ==> page.slots[k] == Some(image.m[image.order[k]])
  }

  /** A page is a complete image. */
  ghost predicate PageHolds(page: Page, image: Image) {
    page.len == |image.order| && Written(page, image, |image.order|)
  }

  /** What the handler is making page p a copy of. */
  ghost function Coming(s: State, p: nat): Image
    requires p < |s.orders|
  {
    Image(s.meta, s.orders[p])
  }

  /** A page of which the first i entries are already those of the new image. */
  ghost predicate Overwritten(page: Page, was: Image, now: Image, i: nat) {
    page.len == |was.order| && Written(page, now, i) && Remains(page, was, i)
  }

  /** Between registrations every page holds its image; during one, page p is
      being overwritten, and the pages before it hold the new map. */
  ghost predicate Imaged(s: State)
    requires WellFormed(s)
  {
    match s.handler
    case Idle => forall p :: 0 <= p < REPLICAS ==> PageHolds(s.pages[p], s.images[p])
    case Copying(p, i, len) =>
      && len == |s.orders[p]|
      && Overwritten(s.pages[p], s.images[p], Coming(s, p), i)
      && (forall r :: 0 <= r < REPLICAS && r != p ==> PageHolds(s.pages[r], s.images[r]))
      && (forall r :: 0 <= r < p ==> s.images[r] == Coming(s, r))
      && (forall r :: p < r < REPLICAS ==> Written(s.pages[r], Coming(s, r), 0))
  }

  ghost predicate Inv(s: State) {
    WellFormed(s) && Genuine(s) && Covered(s) && Imaged(s)
  }

  lemma {:induction false} EnumeratesSize(order: seq<Gid>, keys: set<Gid>)
    requires Enumerates(order, keys)
    ensures |order| == |keys|
  {
    if order == [] {
      assert keys == {};
    } else {
      var last := order[|order| - 1];
      var rest := order[..|order| - 1];
      assert order == rest + [last];
      assert last !in rest;
      EnumeratesSize(rest, keys - {last});
    }
  }

  lemma InitialInv(entryBytes: nat)
    requires entryBytes > 0
    ensures Inv(Initial(entryBytes))
  {
  }

  lemma StepGenuine(s: State, step: Step)
    requires WellFormed(s) && Genuine(s) && Legal(s, step)
    ensures Genuine(Apply(s, step))
  {
  }

  /** Slots never become unwritten. */
  lemma StepKeepsFilled(s: State, step: Step, p: nat, n: nat)
    requires WellFormed(s) && Legal(s, step) && p < REPLICAS && Filled(s.pages[p], n)
    ensures p < |Apply(s, step).pages| && Filled(Apply(s, step).pages[p], n)
  {
  }

  lemma StepCovered(s: State, step: Step)
    requires Inv(s) && Legal(s, step)
    ensures Covered(Apply(s, step))
  {
    var t := Apply(s, step);
    forall p | 0 <= p < |t.pages| ensures Filled(t.pages[p], t.pages[p].len) {
      StepKeepsFilled(s, step, p, s.pages[p].len);
    }
    hide Genuine, Imaged, Enumerates;
    forall q <- t.queries ensures
      var u := t.queries[q]; u.page < |t.pages| && |u.got| <= u.len && Filled(t.pages[u.page], u.len)
    {
      var page := t.queries[q].page;
      StepKeepsFilled(s, step, page, if q in s.queries then s.queries[q].len else s.pages[page].len);
    }
  }

  lemma RegisterImaged(s: State, step: Step)
    requires WellFormed(s) && Imaged(s) && Legal(s, step) && step.Register?
    ensures WellFormed(Apply(s, step)) && Imaged(Apply(s, step))
  {
    EnumeratesSize(step.orders[0], s.meta.Keys + {step.gid});
    hide Enumerates;
    assert s.meta[step.gid := step.point].Keys == s.meta.Keys + {step.gid};
  }

  lemma CopyEntryImaged(s: State)
    requires WellFormed(s) && Imaged(s) && Legal(s, CopyEntry)
    ensures WellFormed(Apply(s, CopyEntry)) && Imaged(Apply(s, CopyEntry))
  {
    hide Enumerates;
  }

  lemma CopyLenImaged(s: State)
    requires WellFormed(s) && Imaged(s) && Legal(s, CopyLen)
    ensures WellFormed(Apply(s, CopyLen)) && Imaged(Apply(s, CopyLen))
  {
    hide Enumerates;
    var p := s.handler.p;
    if p + 1 < REPLICAS {
      assert Written(s.pages[p + 1], Coming(s, p + 1), 0);
      EnumeratesSize(s.orders[p + 1], s.meta.Keys);
    }
    var t := Apply(s, CopyLen);
    assert PageHolds(t.pages[p], t.images[p]);
  }

  lemma StepImaged(s: State, step: Step)
    requires Inv(s) && Legal(s, step)
    ensures WellFormed(Apply(s, step)) && Imaged(Apply(s, step))
  {
    hide Genuine, Covered, Enumerates;
    match step
    case Register(gid, point, orders) => RegisterImaged(s, step);
    case CopyEntry => CopyEntryImaged(s);
    case CopyLen => CopyLenImaged(s);
    case _ => hide PageHolds, Overwritten, Written;
  }

  lemma StepInv(s: State, step: Step)
    requires Inv(s) && Legal(s, step)
    ensures Inv(Apply(s, step))
  {
    hide Genuine, Covered, Imaged, Apply, Legal;
    StepGenuine(s, step);
    StepCovered(s, step);
    StepImaged(s, step);
  }

  lemma {:induction false} RunInv(s: State, steps: seq<Step>)
    requires Inv(s) && LegalRun(s, steps)
    ensures Inv(Exec(s, steps))
    decreases |steps|
  {
    hide Inv, Apply;
    if steps != [] {
      StepInv(s, steps[0]);
      RunInv(Apply(s, steps[0]), steps[1..]);
    }
  }

  /** The handler and every query can always go on: a copy has a map entry and a
      slot, and a read finds a written slot below the count it read. */
  lemma NeverStuck(s: State)
    requires Inv(s)
    ensures s.handler.Copying? && s.handler.i < |s.orders[s.handler.p]| ==> Legal(s, CopyEntry)
    ensures forall q <- s.queries :: |s.queries[q].got| < s.queries[q].len ==> Legal(s, ReadSlot(q))
  {
    if s.handler.Copying? && s.handler.i < |s.orders[s.handler.p]| {
      var p := s.handler.p;
      assert s.orders[p][s.handler.i] in s.orders[p];
    }
  }

  // ------------------------------------------------- what a query can return

  ghost predicate Puts(step: Step, e: EndPoint) {
    (step.Register? || step.PutLocal?) && step.point == e
  }

  lemma {:induction false} RegisteredSteps(s: State, steps: seq<Step>, e: EndPoint)
    requires LegalRun(s, steps) && e in Exec(s, steps).registered
    ensures e in s.registered || exists i :: 0 <= i < |steps| && Puts(steps[i], e)
    decreases |steps|
  {
    if steps != [] {
      var t := Apply(s, steps[0]);
      RegisteredSteps(t, steps[1..], e);
      if e in t.registered {
        assert e in s.registered || Puts(steps[0], e);
      } else {
        var i :| 0 <= i < |steps[1..]| && Puts(steps[1..][i], e);
        assert Puts(steps[i + 1], e);
      }
    }
  }

  lemma {:induction false} ScanFinds(got: seq<EndPoint>, target: Gid)
    ensures Scan(got, target).Some? ==> Scan(got, target).value in got && Scan(got, target).value.gid == target
    ensures Scan(got, target).None? ==> forall e <- got :: e.gid != target
  {
    if got != [] {
      ScanFinds(got[1..], target);
    }
  }

  /** Whatever registrations, evictions and other queries ran meanwhile, an
      endpoint that a query returns has the queried gid and was put into the
      directory by an earlier step of the run. */
  lemma QuerySafety(entryBytes: nat, steps: seq<Step>, q: nat)
    requires entryBytes > 0 && LegalRun(Initial(entryBytes), steps) && q in Exec(Initial(entryBytes), steps).queries
    ensures var u := Exec(Initial(entryBytes), steps).queries[q];
      match Scan(u.got, u.target)
      case None => true
      case Some(e) => e.gid == u.target && exists i :: 0 <= i < |steps| && Puts(steps[i], e)
  {
    InitialInv(entryBytes);
    RunInv(Initial(entryBytes), steps);
    var s := Exec(Initial(entryBytes), steps);
    var u := s.queries[q];
    ScanFinds(u.got, u.target);
    hide Covered, Imaged, Exec;
    match Scan(u.got, u.target)
    case None =>
    case Some(e) =>
      assert e in s.registered;
      RegisteredSteps(Initial(entryBytes), steps, e);
  }

  /** A slot below a count that was ever on its page holds a once-registered
      endpoint for ever after. */
  lemma {:induction false} PublishedStays(s: State, steps: seq<Step>, p: nat, n: nat)
    requires Inv(s) && LegalRun(s, steps) && p < REPLICAS && Filled(s.pages[p], n)
    ensures var t := Exec(s, steps);
      && p < |t.pages| && Filled(t.pages[p], n)
      && forall k :: 0 <= k < n ==> t.pages[p].slots[k].value in t.registered
    decreases |steps|
  {
    if steps == [] {
      hide Covered, Imaged;
    } else {
      StepKeepsFilled(s, steps[0], p, n);
      StepInv(s, steps[0]);
      hide Inv, Apply, Filled;
      PublishedStays(Apply(s, steps[0]), steps[1..], p, n);
    }
  }

  // ------------------------------------------------------------ putting runs together

  lemma RunCons(s: State, step: Step, rest: seq<Step>)
    requires WellFormed(s) && Legal(s, step) && LegalRun(Apply(s, step), rest)
    ensures LegalRun(s, [step] + rest) && Exec(s, [step] + rest) == Exec(Apply(s, step), rest)
  {
    assert ([step] + rest)[1..] == rest;
  }

  lemma {:induction false} ExecConcat(s: State, a: seq<Step>, b: seq<Step>)
    requires LegalRun(s, a) && LegalRun(Exec(s, a), b)
    ensures LegalRun(s, a + b) && Exec(s, a + b) == Exec(Exec(s, a), b)
    decreases |a|
  {
    hide Legal, Apply, WellFormed;
    if a == [] {
      assert a + b == b;
    } else {
      assert (a + b)[1..] == a[1..] + b;
      ExecConcat(Apply(s, a[0]), a[1..], b);
    }
  }

  lemma RunNone(s: State)
    requires WellFormed(s)
    ensures LegalRun(s, []) && Exec(s, []) == s
  {
  }

  lemma RunOne(s: State, step: Step)
    requires WellFormed(s) && Legal(s, step) && WellFormed(Apply(s, step))
    ensures LegalRun(s, [step]) && Exec(s, [step]) == Apply(s, step)
  {
    assert [step][1..] == [];
  }

  lemma RunSnoc(s: State, steps: seq<Step>, step: Step)
    requires LegalRun(s, steps) && Inv(Exec(s, steps)) && Legal(Exec(s, steps), step)
    ensures LegalRun(s, steps + [step]) && Exec(s, steps + [step]) == Apply(Exec(s, steps), step)
    ensures Inv(Exec(s, steps + [step]))
  {
    StepInv(Exec(s, steps), step);
    hide Genuine, Covered, Imaged;
    RunOne(Exec(s, steps), step);
    ExecConcat(s, steps, [step]);
  }

  ghost predicate OnlyCopies(steps: seq<Step>) {
    forall step <- steps :: step.CopyEntry? || step.CopyLen?
  }

  /** A started registration always finishes, by copies alone. */
  lemma {:induction false} HandlerFinishes(s: State) returns (steps: seq<Step>)
    requires Inv(s) && s.handler.Copying?
    ensures LegalRun(s, steps) && Exec(s, steps).handler.Idle? && OnlyCopies(steps)
    decreases REPLICAS - s.handler.p, |s.orders[s.handler.p]| - s.handler.i
  {
    NeverStuck(s);
    var step := if s.handler.i < |s.orders[s.handler.p]| then CopyEntry else CopyLen;
    var t := Apply(s, step);
    StepInv(s, step);
    hide Genuine, Covered, Imaged;
    var rest: seq<Step> := [];
    if t.handler.Copying? {
      rest := HandlerFinishes(t);
    }
    RunCons(s, step, rest);
    steps := [step] + rest;
  }
}
