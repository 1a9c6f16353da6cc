/** What one-sided queries answer: like the two-sided handler while their page is
    left alone, and with an exactly known gap while it is being overwritten. */
module MetaKvQueries {
  import opened Collections
  import opened MetaKvModel
  import opened MetaKvSafety

  // ------------------------------------------------------------------ agreement

  /** The entries a reader gets from a page that is not being written. */
  ghost function Entries(page: Page): seq<EndPoint>
    requires Filled(page, page.len)
  {
    seq(page.len, k requires 0 <= k < page.len => page.slots[k].value)
  }

  ghost predicate KeyedByOwnGid(m: map<Gid, EndPoint>) {
    forall g <- m :: m[g].gid == g
  }

  lemma HoldsEntries(page: Page, image: Image)
    requires PageHolds(page, image)
    ensures Filled(page, page.len)
    ensures forall e :: e in Entries(page) <==> exists g :: g in image.m && image.m[g] == e
  {
    var m, order := image.m, image.order;
    forall e ensures e in Entries(page) <==> exists g :: g in m && m[g] == e {
      if e in Entries(page) {
        var k :| 0 <= k < page.len && Entries(page)[k] == e;
        assert order[k] in order && m[order[k]] == e;
      }
      if g :| g in m && m[g] == e {
        assert g in order;
        var k :| 0 <= k < |order| && order[k] == g;
        assert Entries(page)[k] == e;
      }
    }
  }

  /** A complete image answers every query like the map it was made from exactly
      if every endpoint was registered under its own gid. */
  lemma AgreementExactly(page: Page, image: Image)
    requires PageHolds(page, image)
    ensures Filled(page, page.len)
    ensures (forall g :: Scan(Entries(page), g) == Lookup(image.m, g)) <==> KeyedByOwnGid(image.m)
  {
    HoldsEntries(page, image);
    var m, es := image.m, Entries(page);
    hide PageHolds, Written, Entries;
    forall g ensures KeyedByOwnGid(m) ==> Scan(es, g) == Lookup(m, g) {
      ScanFinds(es, g);
      if g in m {
        assert m[g] in es;
      }
    }
    if !KeyedByOwnGid(m) {
      var g :| g in m && m[g].gid != g;
      ScanFinds(es, g);
      assert Scan(es, g) != Lookup(m, g);
    }
  }

  // --------------------------------------------------- a page that is left alone

  ghost predicate CopiesTo(s: State, step: Step, p: nat) {
    (step.CopyEntry? || step.CopyLen?) && s.handler.Copying? && s.handler.p == p
  }

  /** No step of the run copies anything onto page p. */
  ghost predicate LeavesAlone(s: State, steps: seq<Step>, p: nat)
    requires LegalRun(s, steps)
    decreases |steps|
  {
    steps == [] || (!CopiesTo(s, steps[0], p) && LeavesAlone(Apply(s, steps[0]), steps[1..], p))
  }

  /** The query has read the first entries of its page as the page is. */
  ghost predicate ReadsPage(s: State, q: nat)
    requires WellFormed(s)
  {
    && q in s.queries
    && var u := s.queries[q]; var page := s.pages[u.page];
      u.len == page.len && |u.got| <= u.len && Filled(page, page.len) && u.got == Entries(page)[..|u.got|]
  }

  lemma UndisturbedStep(s: State, step: Step, q: nat)
    requires WellFormed(s) && Legal(s, step) && ReadsPage(s, q) && !CopiesTo(s, step, s.queries[q].page)
    ensures var t := Apply(s, step);
      && WellFormed(t) && ReadsPage(t, q) && t.pages[s.queries[q].page] == s.pages[s.queries[q].page]
      && t.queries[q].page == s.queries[q].page && t.queries[q].target == s.queries[q].target
  {
    var t := Apply(s, step);
    var u := s.queries[q];
    assert t.pages[u.page] == s.pages[u.page];
    if step.ReadSlot? && step.q == q {
      var es := Entries(s.pages[u.page]);
      assert t.queries[q].got == u.got + [es[|u.got|]];
    } else {
      assert q in t.queries && t.queries[q] == u;
    }
  }

  lemma {:induction false} UndisturbedReads(s: State, steps: seq<Step>, q: nat)
    requires LegalRun(s, steps) && ReadsPage(s, q) && LeavesAlone(s, steps, s.queries[q].page)
    ensures var t := Exec(s, steps);
      && WellFormed(t) && ReadsPage(t, q) && t.pages[s.queries[q].page] == s.pages[s.queries[q].page]
      && t.queries[q].page == s.queries[q].page && t.queries[q].target == s.queries[q].target
    decreases |steps|
  {
    if steps != [] {
      UndisturbedStep(s, steps[0], q);
      hide ReadsPage, Apply, Legal, CopiesTo;
      UndisturbedReads(Apply(s, steps[0]), steps[1..], q);
    }
  }

  /** Nothing of a coming image is on page p yet. */
  ghost predicate Settled(s: State, p: nat) {
    s.handler.Copying? && s.handler.p == p ==> s.handler.i == 0
  }

  lemma SettledHolds(s: State, p: nat)
    requires Inv(s) && p < REPLICAS && Settled(s, p)
    ensures PageHolds(s.pages[p], s.images[p])
  {
  }

  /** A whole query, from its first read to its last, while nothing is copied onto
      its page, whatever happens to the others: it answers like a lookup in the
      map of the registration that the page holds. */
  lemma UndisturbedQuery(s: State, q: nat, p: nat, g: Gid, steps: seq<Step>)
    requires Inv(s) && p < REPLICAS && Settled(s, p) && Legal(s, ReadLen(q, p, g))
    requires LegalRun(Apply(s, ReadLen(q, p, g)), steps) && LeavesAlone(Apply(s, ReadLen(q, p, g)), steps, p)
    requires KeyedByOwnGid(s.images[p].m)
    ensures var t := Exec(Apply(s, ReadLen(q, p, g)), steps);
      q in t.queries
      && (|t.queries[q].got| == t.queries[q].len ==> Scan(t.queries[q].got, g) == Lookup(s.images[p].m, g))
  {
    var s1 := Apply(s, ReadLen(q, p, g));
    SettledHolds(s, p);
    AgreementExactly(s.pages[p], s.images[p]);
    hide Inv, PageHolds, KeyedByOwnGid, Scan;
    assert ReadsPage(s1, q);
    UndisturbedReads(s1, steps, q);
    var u := Exec(s1, steps).queries[q];
    hide Exec, LegalRun;
    if |u.got| == u.len {
      assert u.got == Entries(s.pages[p]);
    }
  }

  /** The latest registration, while it is being copied and afterwards. */
  ghost predicate Latest(s: State, m: map<Gid, EndPoint>, orders: seq<seq<Gid>>)
    requires WellFormed(s) && |orders| == REPLICAS
  {
    if s.handler.Copying? then s.meta == m && s.orders == orders
    else forall p :: 0 <= p < REPLICAS ==> s.images[p] == Image(m, orders[p])
  }

  lemma StepLatest(s: State, step: Step, m: map<Gid, EndPoint>, orders: seq<seq<Gid>>)
    requires Inv(s) && Legal(s, step) && |orders| == REPLICAS && Latest(s, m, orders) && !step.Register?
    ensures WellFormed(Apply(s, step)) && Latest(Apply(s, step), m, orders)
  {
    StepInv(s, step);
    hide Genuine, Covered, PageHolds, Overwritten, Written;
  }

  lemma {:induction false} LatestStays(s: State, steps: seq<Step>, m: map<Gid, EndPoint>, orders: seq<seq<Gid>>)
    requires Inv(s) && LegalRun(s, steps) && |orders| == REPLICAS && Latest(s, m, orders)
    requires forall step <- steps :: !step.Register?
    ensures WellFormed(Exec(s, steps)) && Latest(Exec(s, steps), m, orders)
    decreases |steps|
  {
    if steps != [] {
      assert steps[0] in steps;
      StepLatest(s, steps[0], m, orders);
      StepInv(s, steps[0]);
      hide Inv, Apply, Legal, Latest;
      LatestStays(Apply(s, steps[0]), steps[1..], m, orders);
    }
  }

  /** When no handler runs, every replica is an image of the map as it was right
      after the last registration, whatever was evicted since. */
  lemma QuiescentImages(s: State, reg: Step, steps: seq<Step>)
    requires Inv(s) && reg.Register? && Legal(s, reg) && LegalRun(Apply(s, reg), steps)
    requires forall step <- steps :: !step.Register?
    requires Exec(Apply(s, reg), steps).handler.Idle?
    ensures var t := Exec(Apply(s, reg), steps);
      Inv(t) && forall p :: 0 <= p < REPLICAS ==>
        t.images[p] == Image(s.meta[reg.gid := reg.point], reg.orders[p]) && PageHolds(t.pages[p], t.images[p])
  {
    var s1, m := Apply(s, reg), s.meta[reg.gid := reg.point];
    StepInv(s, reg);
    RunInv(s1, steps);
    LatestStays(s1, steps, m, reg.orders);
    hide Genuine, Covered, Exec, LegalRun, PageHolds;
  }

  /** Quiescent agreement: a query on any replica that is not copied to meanwhile,
      started when no handler runs, answers as the query handler would have right
      after the last registration; in particular Some for exactly the gids in the
      map then. */
  lemma QuiescentAgreement(s: State, reg: Step, steps: seq<Step>, q: nat, p: nat, g: Gid, query: seq<Step>)
    requires Inv(s) && reg.Register? && Legal(s, reg) && LegalRun(Apply(s, reg), steps)
    requires forall step <- steps :: !step.Register?
    requires Exec(Apply(s, reg), steps).handler.Idle? && p < REPLICAS
    requires var t := Exec(Apply(s, reg), steps);
      WellFormed(t) && Legal(t, ReadLen(q, p, g)) && LegalRun(Apply(t, ReadLen(q, p, g)), query)
      && LeavesAlone(Apply(t, ReadLen(q, p, g)), query, p)
    requires KeyedByOwnGid(s.meta[reg.gid := reg.point])
    ensures var u := Exec(Apply(Exec(Apply(s, reg), steps), ReadLen(q, p, g)), query);
      q in u.queries
      && (|u.queries[q].got| == u.queries[q].len ==>
            Scan(u.queries[q].got, g) == Lookup(s.meta[reg.gid := reg.point], g))
  {
    QuiescentImages(s, reg, steps);
    hide Inv, PageHolds, KeyedByOwnGid, Apply, Exec, LegalRun, Scan;
    UndisturbedQuery(Exec(Apply(s, reg), steps), q, p, g, query);
  }
}
