/** Queries during which their own page is copied to, by any number of
    registrations: exactly when they can miss a gid that the page held. */
module MetaKvOverlap {
  import opened Collections
  import opened MetaKvModel
  import opened MetaKvSafety
  import opened MetaKvQueries

  // -------------------------------------------- a run with and without a query

  ghost predicate OfQuery(step: Step, q: nat) {
    (step.ReadLen? || step.ReadSlot?) && step.q == q
  }

  /** The steps that are not of query q. */
  ghost function Erase(steps: seq<Step>, q: nat): seq<Step> {
    if steps == [] then []
    else (if OfQuery(steps[0], q) then [] else [steps[0]]) + Erase(steps[1..], q)
  }

  ghost function Forget(s: State, q: nat): State {
    s.(queries := s.queries - {q})
  }

  lemma ForgetOwn(s: State, step: Step, q: nat)
    requires WellFormed(s) && Legal(s, step) && OfQuery(step, q)
    ensures Forget(Apply(s, step), q) == Forget(s, q)
  {
    assert Apply(s, step).queries - {q} == s.queries - {q};
  }

  lemma ForgetLegal(s: State, step: Step, q: nat)
    requires WellFormed(s) && !OfQuery(step, q)
    ensures WellFormed(Forget(s, q)) && (Legal(s, step) <==> Legal(Forget(s, q), step))
  {
  }

  lemma ForgetRead(s: State, step: Step, q: nat)
    requires WellFormed(s) && WellFormed(Forget(s, q)) && !OfQuery(step, q) && (step.ReadLen? || step.ReadSlot?)
    requires Legal(s, step) && Legal(Forget(s, q), step)
    ensures Apply(Forget(s, q), step) == Forget(Apply(s, step), q)
    ensures q in s.queries ==> q in Apply(s, step).queries && Apply(s, step).queries[q] == s.queries[q]
  {
    assert Apply(Forget(s, q), step).queries == Apply(s, step).queries - {q};
  }

  lemma ForgetOther(s: State, step: Step, q: nat)
    requires WellFormed(s) && !OfQuery(step, q)
    ensures WellFormed(Forget(s, q)) && (Legal(s, step) <==> Legal(Forget(s, q), step))
    ensures Legal(s, step) ==> Apply(Forget(s, q), step) == Forget(Apply(s, step), q)
    ensures Legal(s, step) && q in s.queries ==>
      q in Apply(s, step).queries && Apply(s, step).queries[q] == s.queries[q]
  {
    ForgetLegal(s, step, q);
    hide WellFormed;
    if Legal(s, step) && (step.ReadLen? || step.ReadSlot?) {
      hide Apply, Legal;
      ForgetRead(s, step, q);
    }
  }

  /** Leaving out a query's steps leaves a run that differs in that query only. */
  lemma {:induction false} ErasedRun(s: State, steps: seq<Step>, q: nat)
    requires LegalRun(s, steps)
    ensures LegalRun(Forget(s, q), Erase(steps, q))
    ensures Exec(Forget(s, q), Erase(steps, q)) == Forget(Exec(s, steps), q)
    decreases |steps|
  {
    if steps != [] {
      var rest := Erase(steps[1..], q);
      ErasedRun(Apply(s, steps[0]), steps[1..], q);
      if OfQuery(steps[0], q) {
        ForgetOwn(s, steps[0], q);
        assert Erase(steps, q) == rest;
      } else {
        ForgetOther(s, steps[0], q);
        assert Erase(steps, q) == [steps[0]] + rest && ([steps[0]] + rest)[1..] == rest;
      }
    }
  }

  /** A run goes on in the presence of a query that takes no steps. */
  lemma {:induction false} RunBeside(s: State, steps: seq<Step>, q: nat)
    requires WellFormed(s) && q in s.queries && LegalRun(Forget(s, q), steps)
    requires forall step <- steps :: !OfQuery(step, q)
    requires Inv(s)
    ensures LegalRun(s, steps) && Forget(Exec(s, steps), q) == Exec(Forget(s, q), steps)
    ensures q in Exec(s, steps).queries && Exec(s, steps).queries[q] == s.queries[q]
    decreases |steps|
  {
    if steps != [] {
      assert steps[0] in steps;
      ForgetOther(s, steps[0], q);
      StepInv(s, steps[0]);
      hide Apply, Legal, Genuine, Covered, Imaged;
      RunBeside(Apply(s, steps[0]), steps[1..], q);
    }
  }

  lemma {:induction false} EraseConcat(a: seq<Step>, b: seq<Step>, q: nat)
    ensures Erase(a + b, q) == Erase(a, q) + Erase(b, q)
  {
    if a == [] {
      assert a + b == b;
    } else {
      assert (a + b)[1..] == a[1..] + b;
      EraseConcat(a[1..], b, q);
    }
  }

  lemma {:induction false} EraseNone(steps: seq<Step>, q: nat)
    requires forall step <- steps :: !OfQuery(step, q)
    ensures Erase(steps, q) == steps
  {
    if steps != [] {
      assert steps[0] in steps;
      EraseNone(steps[1..], q);
    }
  }

  lemma {:induction false} EraseAll(steps: seq<Step>, q: nat)
    requires forall step <- steps :: OfQuery(step, q)
    ensures Erase(steps, q) == []
  {
    if steps != [] {
      assert steps[0] in steps;
      EraseAll(steps[1..], q);
    }
  }

  // ------------------------------------------------- what happens to one slot

  /** The step copies another gid than g into slot a of page p. */
  ghost predicate Displaces(s: State, step: Step, p: nat, a: nat, g: Gid)
    requires WellFormed(s)
  {
    step.CopyEntry? && s.handler.Copying? && s.handler.p == p && s.handler.i == a
    && a < |s.orders[p]| && s.orders[p][a] != g
  }

  /** Some registration of the run comes to copy another gid into that slot. */
  ghost predicate Displaced(s: State, steps: seq<Step>, p: nat, a: nat, g: Gid)
    requires LegalRun(s, steps)
    decreases |steps|
  {
    steps != []
    && (Displaces(s, steps[0], p, a, g) || Displaced(Apply(s, steps[0]), steps[1..], p, a, g))
  }

  lemma {:induction false} DisplacedErased(s: State, steps: seq<Step>, q: nat, p: nat, a: nat, g: Gid)
    requires LegalRun(s, steps) && LegalRun(Forget(s, q), Erase(steps, q))
    ensures Displaced(Forget(s, q), Erase(steps, q), p, a, g) <==> Displaced(s, steps, p, a, g)
    decreases |steps|
  {
    if steps != [] {
      var rest := Erase(steps[1..], q);
      ErasedRun(Apply(s, steps[0]), steps[1..], q);
      DisplacedErased(Apply(s, steps[0]), steps[1..], q, p, a, g);
      if OfQuery(steps[0], q) {
        ForgetOwn(s, steps[0], q);
        assert Erase(steps, q) == rest;
      } else {
        ForgetOther(s, steps[0], q);
        assert Erase(steps, q) == [steps[0]] + rest && ([steps[0]] + rest)[1..] == rest;
      }
    }
  }

  lemma {:induction false} DisplacedMore(s: State, steps: seq<Step>, more: seq<Step>, p: nat, a: nat, g: Gid)
    requires LegalRun(s, steps) && LegalRun(s, more) && steps <= more && Displaced(s, steps, p, a, g)
    ensures Displaced(s, more, p, a, g)
    decreases |steps|
  {
    assert steps[0] == more[0] && steps[1..] <= more[1..];
    if !Displaces(s, steps[0], p, a, g) {
      DisplacedMore(Apply(s, steps[0]), steps[1..], more[1..], p, a, g);
    }
  }

  /** Endpoints are registered under their own gid. */
  ghost predicate OwnKeys(steps: seq<Step>) {
    forall step <- steps :: step.Register? || step.PutLocal? ==> step.point.gid == step.gid
  }

  lemma StepOwn(s: State, step: Step)
    requires WellFormed(s) && Legal(s, step) && KeyedByOwnGid(s.meta)
    requires step.Register? || step.PutLocal? ==> step.point.gid == step.gid
    ensures KeyedByOwnGid(Apply(s, step).meta)
  {
  }

  ghost predicate SlotHas(slots: seq<Option<EndPoint>>, a: nat, g: Gid) {
    a < |slots| && slots[a].Some? && slots[a].value.gid == g
  }

  lemma StepSlotHas(s: State, step: Step, p: nat, a: nat, g: Gid)
    requires WellFormed(s) && Legal(s, step) && p < REPLICAS && KeyedByOwnGid(s.meta)
    requires SlotHas(s.pages[p].slots, a, g) && !Displaces(s, step, p, a, g)
    ensures p < |Apply(s, step).pages| && SlotHas(Apply(s, step).pages[p].slots, a, g)
  {
  }

  /** What a step makes of a query. */
  lemma QueryAfter(s: State, step: Step, q: nat)
    requires WellFormed(s) && Legal(s, step) && q in s.queries
    ensures q in Apply(s, step).queries
    ensures var (u, v) := (s.queries[q], Apply(s, step).queries[q]);
      || v == u
      || (|u.got| < |s.pages[u.page].slots| && s.pages[u.page].slots[|u.got|].Some?
          && v == u.(got := u.got + [s.pages[u.page].slots[|u.got|].value]))
  {
  }

  /** If the query has read slot a, it read g. */
  ghost predicate HasReadG(u: Query, p: nat, a: nat, g: Gid) {
    u.page == p && (a < |u.got| ==> u.got[a].gid == g)
  }

  ghost predicate HoldsSlot(s: State, q: nat, p: nat, a: nat, g: Gid)
    requires WellFormed(s) && p < REPLICAS
  {
    SlotHas(s.pages[p].slots, a, g) && q in s.queries && HasReadG(s.queries[q], p, a, g)
  }

  lemma StillReadsG(slots: seq<Option<EndPoint>>, u: Query, v: Query, p: nat, a: nat, g: Gid)
    requires SlotHas(slots, a, g) && HasReadG(u, p, a, g)
    requires v == u || (|u.got| < |slots| && slots[|u.got|].Some? && v == u.(got := u.got + [slots[|u.got|].value]))
    ensures HasReadG(v, p, a, g)
  {
  }

  lemma StepHoldsSlot(s: State, step: Step, q: nat, p: nat, a: nat, g: Gid)
    requires Inv(s) && Legal(s, step) && p < REPLICAS && KeyedByOwnGid(s.meta)
    requires HoldsSlot(s, q, p, a, g) && !Displaces(s, step, p, a, g)
    ensures WellFormed(Apply(s, step)) && HoldsSlot(Apply(s, step), q, p, a, g)
  {
    assert s.queries[q].page == p;
    StepInv(s, step);
    assert WellFormed(Apply(s, step));
    StepSlotHas(s, step, p, a, g);
    QueryAfter(s, step, q);
    hide Inv, WellFormed, Apply, Legal, KeyedByOwnGid, Displaces, SlotHas, HasReadG;
    StillReadsG(s.pages[p].slots, s.queries[q], Apply(s, step).queries[q], p, a, g);
  }

  lemma {:induction false} RunHoldsSlot(s: State, steps: seq<Step>, q: nat, p: nat, a: nat, g: Gid)
    requires Inv(s) && LegalRun(s, steps) && p < REPLICAS && KeyedByOwnGid(s.meta) && OwnKeys(steps)
    requires HoldsSlot(s, q, p, a, g) && !Displaced(s, steps, p, a, g)
    ensures WellFormed(Exec(s, steps)) && HoldsSlot(Exec(s, steps), q, p, a, g)
    decreases |steps|
  {
    if steps != [] {
      assert steps[0] in steps;
      StepHoldsSlot(s, steps[0], q, p, a, g);
      StepOwn(s, steps[0]);
      StepInv(s, steps[0]);
      hide Inv, Apply, Legal, HoldsSlot, KeyedByOwnGid, Displaces;
      RunHoldsSlot(Apply(s, steps[0]), steps[1..], q, p, a, g);
    }
  }

  // ------------------------------------------------------------ never missing

  /** Query q reads the count of page p first of all, ends, does not find g, and
      apart from it the run is one that `base` starts with. */
  ghost predicate Misses(s: State, p: nat, q: nat, g: Gid, base: seq<Step>, steps: seq<Step>) {
    && LegalRun(s, steps) && steps != [] && steps[0] == ReadLen(q, p, g)
    && Erase(steps, q) <= base
    && q in Exec(s, steps).queries
    && var u := Exec(s, steps).queries[q];
      |u.got| == u.len && Scan(u.got, g) == None
  }

  lemma {:induction false} LenStays(s: State, steps: seq<Step>, q: nat)
    requires LegalRun(s, steps) && q in s.queries
    ensures q in Exec(s, steps).queries && Exec(s, steps).queries[q].len == s.queries[q].len
    decreases |steps|
  {
    if steps != [] {
      LenStays(Apply(s, steps[0]), steps[1..], q);
    }
  }

  lemma {:induction false} EraseKeeps(steps: seq<Step>, q: nat)
    ensures OwnKeys(steps) <==> OwnKeys(Erase(steps, q))
  {
    if steps != [] {
      var rest := Erase(steps[1..], q);
      EraseKeeps(steps[1..], q);
      assert steps == [steps[0]] + steps[1..];
      assert Erase(steps, q) == (if OfQuery(steps[0], q) then [] else [steps[0]]) + rest;
      hide Erase;
      assert OwnKeys(steps) <==> OwnKeys([steps[0]]) && OwnKeys(steps[1..]);
      assert OwnKeys(Erase(steps, q)) <==> (OfQuery(steps[0], q) || OwnKeys([steps[0]])) && OwnKeys(rest);
    }
  }

  lemma PrefixOwnKeys(steps: seq<Step>, more: seq<Step>)
    requires steps <= more && OwnKeys(more)
    ensures OwnKeys(steps)
  {
    assert forall step <- steps :: step in more;
  }

  /** The slots from `from` up to n have been written, and none has g. */
  ghost predicate Lacks(slots: seq<Option<EndPoint>>, from: nat, n: nat, g: Gid) {
    n <= |slots| && forall k :: from <= k < n ==> slots[k].Some? && slots[k].value.gid != g
  }

  /** Of the slots that the count on page p covers, slot a alone has g. */
  ghost predicate OnlyAt(s: State, p: nat, a: nat, g: Gid)
    requires WellFormed(s) && p < REPLICAS
  {
    var (slots, n) := (s.pages[p].slots, s.pages[p].len);
    a < n && SlotHas(slots, a, g) && Lacks(slots, 0, a, g) && Lacks(slots, a + 1, n, g)
  }

  /** So it is where nothing of a coming image is on the page yet. */
  lemma SettledOnlyAt(s: State, p: nat, a: nat, g: Gid)
    requires Inv(s) && p < REPLICAS && Settled(s, p) && KeyedByOwnGid(s.images[p].m)
    requires a < |s.images[p].order| && s.images[p].order[a] == g
    ensures OnlyAt(s, p, a, g)
  {
    SettledHolds(s, p);
    var order := s.images[p].order;
    assert forall k :: 0 <= k < |order| ==> order[k] in order;
    hide Genuine, Covered, Imaged;
  }

  lemma StartHolds(s: State, p: nat, q: nat, g: Gid, a: nat)
    requires Inv(s) && p < REPLICAS && OnlyAt(s, p, a, g) && Legal(s, ReadLen(q, p, g))
    ensures var t := Apply(s, ReadLen(q, p, g));
      WellFormed(t) && HoldsSlot(t, q, p, a, g) && a < t.queries[q].len
  {
    hide Genuine, Covered, Imaged;
  }

  /** A query's presence neither displaces a gid nor changes who is registered. */
  lemma BesidesQuery(s: State, q: nat, base: seq<Step>, steps: seq<Step>, p: nat, a: nat, g: Gid)
    requires q !in s.queries && LegalRun(s, base) && LegalRun(s, steps) && Erase(steps, q) <= base && OwnKeys(base)
    ensures OwnKeys(steps)
    ensures Displaced(s, steps, p, a, g) ==> Displaced(s, base, p, a, g)
  {
    assert s.queries - {q} == s.queries;
    assert Forget(s, q) == s;
    hide Forget, Apply, Legal, LegalRun, Erase, Displaced, OwnKeys;
    ErasedRun(s, steps, q);
    EraseKeeps(steps, q);
    PrefixOwnKeys(Erase(steps, q), base);
    if Displaced(s, steps, p, a, g) {
      DisplacedErased(s, steps, q, p, a, g);
      DisplacedMore(s, Erase(steps, q), base, p, a, g);
    }
  }

  lemma NeverMisses(s: State, p: nat, q: nat, g: Gid, a: nat, base: seq<Step>, steps: seq<Step>)
    requires Inv(s) && p < REPLICAS && OnlyAt(s, p, a, g) && q !in s.queries && LegalRun(s, base)
    requires KeyedByOwnGid(s.meta) && OwnKeys(base)
    requires !Displaced(s, base, p, a, g)
    ensures !Misses(s, p, q, g, base, steps)
  {
    if Misses(s, p, q, g, base, steps) {
      BesidesQuery(s, q, base, steps, p, a, g);
      hide Inv, Apply, Legal, Erase, KeyedByOwnGid, Displaces;
      StartHolds(s, p, q, g, a);
      StepInv(s, steps[0]);
      StepOwn(s, steps[0]);
      var s1, t := Apply(s, steps[0]), Exec(s, steps);
      assert forall step <- steps[1..] :: step in steps;
      RunHoldsSlot(s1, steps[1..], q, p, a, g);
      LenStays(s1, steps[1..], q);
      ScanFinds(t.queries[q].got, g);
    }
  }

  // ------------------------------------------------------- a run that misses

  ghost predicate OnlyReads(steps: seq<Step>, q: nat) {
    forall step <- steps :: step == ReadSlot(q)
  }

  ghost predicate SlotIs(slots: seq<Option<EndPoint>>, k: nat, e: EndPoint) {
    k < |slots| && slots[k] == Some(e)
  }

  /** A query that has read the slots from where u is to where v is. */
  ghost predicate HasRead(slots: seq<Option<EndPoint>>, u: Query, v: Query) {
    && v == u.(got := v.got) && u.got <= v.got
    && forall k :: |u.got| <= k < |v.got| ==> SlotIs(slots, k, v.got[k])
  }

  lemma ReadOne(s: State, q: nat)
    requires Inv(s) && q in s.queries && |s.queries[q].got| < s.queries[q].len
    ensures WellFormed(s) && Legal(s, ReadSlot(q)) && s.queries[q].page < |s.pages|
    ensures var (t, u) := (Apply(s, ReadSlot(q)), s.queries[q]);
      && Inv(t) && t == s.(queries := t.queries) && q in t.queries
      && |t.queries[q].got| == |u.got| + 1 && HasRead(s.pages[u.page].slots, u, t.queries[q])
  {
    NeverStuck(s);
    StepInv(s, ReadSlot(q));
    hide Genuine, Covered, Imaged;
  }

  lemma OnlyReadsMore(steps: seq<Step>, q: nat)
    requires OnlyReads(steps, q)
    ensures OnlyReads([ReadSlot(q)] + steps, q)
  {
  }

  lemma ReadNone(s: State, q: nat)
    requires Inv(s) && q in s.queries
    ensures LegalRun(s, []) && OnlyReads([], q) && Exec(s, []) == s
    ensures HasRead(s.pages[s.queries[q].page].slots, s.queries[q], s.queries[q])
  {
  }

  /** A query reads its next n slots while nothing else happens. */
  lemma {:induction false} ReadsMore(s: State, q: nat, n: nat) returns (steps: seq<Step>)
    requires Inv(s) && q in s.queries && |s.queries[q].got| + n <= s.queries[q].len
    ensures LegalRun(s, steps) && OnlyReads(steps, q) && Inv(Exec(s, steps))
    ensures var (t, u) := (Exec(s, steps), s.queries[q]);
      && t == s.(queries := t.queries) && q in t.queries
      && |t.queries[q].got| == |u.got| + n && HasRead(s.pages[u.page].slots, u, t.queries[q])
    decreases n
  {
    if n == 0 {
      ReadNone(s, q);
      return [];
    }
    hide Inv, WellFormed, Apply, Legal, HasRead, Exec, LegalRun, OnlyReads;
    ReadOne(s, q);
    var u, t := s.queries[q], Apply(s, ReadSlot(q));
    HasReadSame(s.pages[u.page].slots, u, t.queries[q]);
    var rest := ReadsMore(t, q, n - 1);
    RunCons(s, ReadSlot(q), rest);
    steps := [ReadSlot(q)] + rest;
    OnlyReadsMore(rest, q);
    HasReadMore(s.pages[u.page].slots, u, t.queries[q], Exec(s, steps).queries[q]);
  }

  lemma HasReadSame(slots: seq<Option<EndPoint>>, u: Query, v: Query)
    requires HasRead(slots, u, v)
    ensures v == u.(got := v.got)
  {
  }

  lemma HasReadMore(slots: seq<Option<EndPoint>>, u: Query, v: Query, w: Query)
    requires HasRead(slots, u, v) && HasRead(slots, v, w)
    ensures HasRead(slots, u, w)
  {
    forall k | |u.got| <= k < |w.got|
      ensures SlotIs(slots, k, w.got[k])
    {
      if k < |v.got| {
        assert w.got[..|v.got|][k] == v.got[k];
      }
    }
  }

  /** A registration that has come past slot a has g there. */
  ghost predicate Passed(handler: Handler, orders: seq<seq<Gid>>, p: nat, a: nat, g: Gid)
    requires p < |orders|
  {
    handler.Copying? && handler.p == p && a < handler.i ==> a < |orders[p]| && orders[p][a] == g
  }

  lemma StepPassed(s: State, step: Step, p: nat, a: nat, g: Gid)
    requires Inv(s) && Legal(s, step) && p < REPLICAS && Passed(s.handler, s.orders, p, a, g)
    requires !Displaces(s, step, p, a, g)
    ensures p < |Apply(s, step).orders| && Passed(Apply(s, step).handler, Apply(s, step).orders, p, a, g)
  {
    hide Genuine, Covered, Imaged, Enumerates;
  }

  lemma StepClear(s: State, step: Step, p: nat, n: nat, a: nat, g: Gid)
    requires Inv(s) && Legal(s, step) && p < REPLICAS && KeyedByOwnGid(s.meta)
    requires Lacks(s.pages[p].slots, a + 1, n, g) && Passed(s.handler, s.orders, p, a, g)
    ensures p < |Apply(s, step).pages| && Lacks(Apply(s, step).pages[p].slots, a + 1, n, g)
  {
    if step.CopyEntry? && s.handler.p == p {
      assert Written(s.pages[p], Coming(s, p), s.handler.i);
    }
    hide Genuine, Covered, Imaged;
  }

  ghost predicate OtherwiseClear(s: State, p: nat, n: nat, a: nat, g: Gid)
    requires WellFormed(s) && p < REPLICAS
  {
    Lacks(s.pages[p].slots, a + 1, n, g) && Passed(s.handler, s.orders, p, a, g)
  }

  lemma {:induction false} RunClear(s: State, steps: seq<Step>, p: nat, n: nat, a: nat, g: Gid)
    requires Inv(s) && LegalRun(s, steps) && p < REPLICAS && KeyedByOwnGid(s.meta) && OwnKeys(steps)
    requires OtherwiseClear(s, p, n, a, g) && !Displaced(s, steps, p, a, g)
    ensures Inv(Exec(s, steps)) && OtherwiseClear(Exec(s, steps), p, n, a, g) && KeyedByOwnGid(Exec(s, steps).meta)
    decreases |steps|
  {
    if steps != [] {
      assert steps[0] in steps;
      StepClear(s, steps[0], p, n, a, g);
      StepPassed(s, steps[0], p, a, g);
      StepOwn(s, steps[0]);
      StepInv(s, steps[0]);
      hide Genuine, Covered, Imaged, Apply, Legal, Lacks, Passed, KeyedByOwnGid, Displaces;
      RunClear(Apply(s, steps[0]), steps[1..], p, n, a, g);
    }
  }

  /** The run up to the first step that displaces g. */
  lemma {:induction false} FirstDisplacing(s: State, base: seq<Step>, p: nat, a: nat, g: Gid) returns (n: nat)
    requires LegalRun(s, base) && Displaced(s, base, p, a, g)
    ensures n < |base| && LegalRun(s, base[..n]) && !Displaced(s, base[..n], p, a, g)
    ensures WellFormed(Exec(s, base[..n])) && Legal(Exec(s, base[..n]), base[n])
    ensures Displaces(Exec(s, base[..n]), base[n], p, a, g)
    decreases |base|
  {
    hide Legal, Apply, WellFormed, Displaces;
    if Displaces(s, base[0], p, a, g) {
      n := 0;
      assert base[..0] == [];
    } else {
      var m := FirstDisplacing(Apply(s, base[0]), base[1..], p, a, g);
      n := m + 1;
      assert base[..n][1..] == base[1..][..m] && base[..n][0] == base[0];
    }
  }

  /** A registration that has come past slot a has put g there. */
  lemma StartPassed(s: State, p: nat, a: nat, g: Gid)
    requires Inv(s) && p < REPLICAS && OnlyAt(s, p, a, g) && KeyedByOwnGid(s.meta)
    ensures Passed(s.handler, s.orders, p, a, g)
  {
    if s.handler.Copying? && s.handler.p == p && a < s.handler.i {
      assert Written(s.pages[p], Coming(s, p), s.handler.i);
      assert s.orders[p][a] in s.orders[p];
    }
    hide Genuine, Covered, Imaged;
  }

  /** The entries apart from g's, when the count is read. */
  lemma StartClear(s: State, p: nat, a: nat, g: Gid)
    requires Inv(s) && p < REPLICAS && OnlyAt(s, p, a, g) && KeyedByOwnGid(s.meta)
    ensures OtherwiseClear(s, p, s.pages[p].len, a, g) && Lacks(s.pages[p].slots, 0, a, g) && a < s.pages[p].len
  {
    hide Genuine, Covered, Imaged, Passed, Lacks;
    StartPassed(s, p, a, g);
  }

  /** After a step that displaces g, no slot from a on has it. */
  lemma DisplacedClear(s: State, step: Step, p: nat, n: nat, a: nat, g: Gid)
    requires Inv(s) && Legal(s, step) && p < REPLICAS && KeyedByOwnGid(s.meta) && a < n
    requires OtherwiseClear(s, p, n, a, g) && Displaces(s, step, p, a, g)
    ensures p < |Apply(s, step).pages|
    ensures Lacks(Apply(s, step).pages[p].slots, a, n, g)
  {
    hide Genuine, Covered, Imaged, Enumerates;
  }

  lemma ReadsMiss(one: seq<Option<EndPoint>>, two: seq<Option<EndPoint>>, u: Query, v: Query, w: Query, a: nat, g: Gid)
    requires HasRead(one, u, v) && HasRead(two, v, w) && u.got == [] && |v.got| == a <= |w.got|
    requires Lacks(one, 0, a, g) && Lacks(two, a, |w.got|, g)
    ensures Scan(w.got, g) == None
  {
    forall k | 0 <= k < |w.got|
      ensures w.got[k].gid != g
    {
      if k < a {
        assert w.got[..a][k] == v.got[k] && SlotIs(one, k, v.got[k]);
      } else {
        assert SlotIs(two, k, w.got[k]);
      }
    }
    ScanFinds(w.got, g);
  }

  /** The base run up to and including the copy that displaces g, and its effect. */
  lemma DisplacingRun(s: State, base: seq<Step>, p: nat, a: nat, g: Gid) returns (c: seq<Step>)
    requires Inv(s) && p < REPLICAS && OnlyAt(s, p, a, g) && LegalRun(s, base)
    requires KeyedByOwnGid(s.meta) && OwnKeys(base) && Displaced(s, base, p, a, g)
    ensures c <= base && LegalRun(s, c) && p < |Exec(s, c).pages|
    ensures Lacks(Exec(s, c).pages[p].slots, a, s.pages[p].len, g)
  {
    hide Genuine, Covered, Imaged, LegalRun, Exec, Apply, Legal, Displaces, Displaced, OtherwiseClear, KeyedByOwnGid;
    hide OnlyAt, Lacks, OwnKeys;
    var len := s.pages[p].len;
    var n := FirstDisplacing(s, base, p, a, g);
    StartClear(s, p, a, g);
    PrefixOwnKeys(base[..n], base);
    RunClear(s, base[..n], p, len, a, g);
    DisplacedClear(Exec(s, base[..n]), base[n], p, len, a, g);
    RunSnoc(s, base[..n], base[n]);
    c := base[..n + 1];
    assert c == base[..n] + [base[n]];
  }

  /** Read the slots before a, let the other steps happen, and read on. */
  lemma ReadAround(s: State, q: nat, a: nat, g: Gid, c: seq<Step>) returns (r1: seq<Step>, r2: seq<Step>)
    requires Inv(s) && q in s.queries && LegalRun(Forget(s, q), c) && forall step <- c :: !OfQuery(step, q)
    requires s.queries[q].got == [] && a < s.queries[q].len
    requires Lacks(s.pages[s.queries[q].page].slots, 0, a, g)
    requires s.queries[q].page < |Exec(Forget(s, q), c).pages|
    requires Lacks(Exec(Forget(s, q), c).pages[s.queries[q].page].slots, a, s.queries[q].len, g)
    ensures OnlyReads(r1, q) && OnlyReads(r2, q)
    ensures LegalRun(s, r1) && LegalRun(Exec(s, r1), c) && LegalRun(Exec(Exec(s, r1), c), r2)
    ensures var t := Exec(Exec(Exec(s, r1), c), r2);
      q in t.queries && |t.queries[q].got| == t.queries[q].len && Scan(t.queries[q].got, g) == None
  {
    hide Genuine, Covered, Imaged, LegalRun, Exec, HasRead, Erase, Scan, Lacks;
    var u := s.queries[q];
    r1 := ReadsMore(s, q, a);
    var s2 := Exec(s, r1);
    HasReadSame(s.pages[u.page].slots, u, s2.queries[q]);
    ReadsErased(s, r1, q);
    RunBeside(s2, c, q);
    RunInv(s2, c);
    var s3 := Exec(s2, c);
    r2 := ReadsMore(s3, q, u.len - a);
    var w := Exec(s3, r2).queries[q];
    HasReadSame(s3.pages[u.page].slots, s2.queries[q], w);
    ReadsMiss(s.pages[u.page].slots, s3.pages[u.page].slots, u, s2.queries[q], w, a, g);
  }

  lemma QueryStarts(s: State, q: nat, p: nat, g: Gid)
    requires Inv(s) && p < REPLICAS && q !in s.queries
    ensures WellFormed(s) && Legal(s, ReadLen(q, p, g))
    ensures var t := Apply(s, ReadLen(q, p, g));
      && Inv(t) && t.pages == s.pages && Forget(t, q) == s
      && q in t.queries && t.queries[q] == Query(p, g, s.pages[p].len, [])
  {
    StepInv(s, ReadLen(q, p, g));
    hide Genuine, Covered, Imaged;
    assert Apply(s, ReadLen(q, p, g)).queries - {q} == s.queries;
  }

  /** Read the slots before g's, let the base run come to displace g, and read on. */
  lemma MissingRun(s: State, p: nat, q: nat, g: Gid, a: nat, base: seq<Step>) returns (steps: seq<Step>)
    requires Inv(s) && p < REPLICAS && OnlyAt(s, p, a, g) && q !in s.queries && LegalRun(s, base)
    requires forall step <- base :: !OfQuery(step, q)
    requires KeyedByOwnGid(s.meta) && OwnKeys(base) && Displaced(s, base, p, a, g)
    ensures Misses(s, p, q, g, base, steps)
  {
    var start := ReadLen(q, p, g);
    StartClear(s, p, a, g);
    QueryStarts(s, q, p, g);
    var c := DisplacingRun(s, base, p, a, g);
    assert forall step <- c :: step in base;
    hide Inv, LegalRun, Exec, Apply, Legal, Displaced, KeyedByOwnGid, Erase, Forget, OtherwiseClear, WellFormed;
    hide Lacks, OnlyAt;
    var r1, r2 := ReadAround(Apply(s, start), q, a, g, c);
    steps := Assembled(s, start, r1, c, r2, q);
  }

  lemma ReadsErased(s: State, steps: seq<Step>, q: nat)
    requires LegalRun(s, steps) && OnlyReads(steps, q)
    ensures Erase(steps, q) == [] && Forget(Exec(s, steps), q) == Forget(s, q)
  {
    EraseAll(steps, q);
    ErasedRun(s, steps, q);
  }

  lemma Assembled(s: State, start: Step, r1: seq<Step>, c: seq<Step>, r2: seq<Step>, q: nat) returns (steps: seq<Step>)
    requires WellFormed(s) && Legal(s, start) && OfQuery(start, q) && OnlyReads(r1, q) && OnlyReads(r2, q)
    requires forall step <- c :: !OfQuery(step, q)
    requires LegalRun(Apply(s, start), r1) && LegalRun(Exec(Apply(s, start), r1), c)
    requires LegalRun(Exec(Exec(Apply(s, start), r1), c), r2)
    ensures LegalRun(s, steps) && steps != [] && steps[0] == start && Erase(steps, q) == c
    ensures Exec(s, steps) == Exec(Exec(Exec(Apply(s, start), r1), c), r2)
  {
    hide Apply, Legal, WellFormed;
    var s1 := Apply(s, start);
    var s2 := Exec(s1, r1);
    ExecConcat(s2, c, r2);
    ExecConcat(s1, r1, c + r2);
    RunCons(s, start, r1 + (c + r2));
    steps := [start] + (r1 + (c + r2));
    EraseAll(r1, q);
    EraseAll(r2, q);
    EraseNone(c, q);
    EraseConcat(c, r2, q);
    EraseConcat(r1, c + r2, q);
    assert steps[1..] == r1 + (c + r2);
  }

  // ------------------------------------------------------------ the exact gap

  /** A query whose count covers g in slot a and nowhere else, while a run of any
      number of registrations goes on: some interleaving of its reads with that run
      makes it miss g, exactly if the run comes to copy another gid into slot a of
      its page. */
  lemma MissExactly(s: State, p: nat, q: nat, g: Gid, a: nat, base: seq<Step>)
    requires Inv(s) && p < REPLICAS && OnlyAt(s, p, a, g) && q !in s.queries && LegalRun(s, base)
    requires forall step <- base :: !OfQuery(step, q)
    requires KeyedByOwnGid(s.meta) && OwnKeys(base)
    ensures (exists steps :: Misses(s, p, q, g, base, steps)) <==> Displaced(s, base, p, a, g)
  {
    hide Inv, Displaced, KeyedByOwnGid, LegalRun, Misses, OnlyAt;
    if Displaced(s, base, p, a, g) {
      var steps := MissingRun(s, p, q, g, a, base);
    } else {
      forall steps
        ensures !Misses(s, p, q, g, base, steps)
      {
        NeverMisses(s, p, q, g, a, base, steps);
      }
    }
  }

  lemma LacksNone(slots: seq<Option<EndPoint>>, g: Gid)
    ensures Lacks(slots, 0, 0, g)
  {
  }

  /** All the slots are read before anything else happens. */
  lemma ReadsAtOnce(s: State, q: nat, g: Gid) returns (steps: seq<Step>)
    requires Inv(s) && q in s.queries && s.queries[q].got == []
    requires Lacks(s.pages[s.queries[q].page].slots, 0, s.queries[q].len, g)
    ensures LegalRun(s, steps) && OnlyReads(steps, q)
    ensures var t := Exec(s, steps);
      q in t.queries && |t.queries[q].got| == t.queries[q].len && Scan(t.queries[q].got, g) == None
  {
    var u := s.queries[q];
    var slots := s.pages[u.page].slots;
    ReadNone(s, q);
    LacksNone(slots, g);
    hide Inv, WellFormed, LegalRun, Exec, Apply, Legal, Scan, HasRead, Lacks, OnlyReads;
    steps := ReadsMore(s, q, u.len);
    var w := Exec(s, steps).queries[q];
    HasReadSame(slots, u, w);
    ReadsMiss(slots, slots, u, u, w, 0, g);
  }

  /** And if no slot that the count covers has g, reading on at once misses it. */
  lemma AbsentMisses(s: State, p: nat, q: nat, g: Gid) returns (steps: seq<Step>)
    requires Inv(s) && p < REPLICAS && q !in s.queries && Lacks(s.pages[p].slots, 0, s.pages[p].len, g)
    ensures Misses(s, p, q, g, [], steps)
  {
    hide Inv, WellFormed, LegalRun, Exec, Apply, Legal, Erase, Scan, Lacks, Forget;
    var start := ReadLen(q, p, g);
    QueryStarts(s, q, p, g);
    var rs := ReadsAtOnce(Apply(s, start), q, g);
    steps := [start] + rs;
    RunCons(s, start, rs);
    EraseAll(steps, q);
  }

  // --------------------------------------------------------- one registration

  /** Whether the handler is still to come to slot a of page p. */
  ghost predicate ToCome(handler: Handler, p: nat, a: nat) {
    handler.Copying? && (handler.p < p || (handler.p == p && handler.i <= a))
  }

  /** The copies of one registration displace g exactly if its order does. */
  lemma {:induction false} CopiesDisplace(s: State, base: seq<Step>, p: nat, a: nat, g: Gid)
    requires LegalRun(s, base) && OnlyCopies(base) && Exec(s, base).handler.Idle? && p < REPLICAS
    ensures Displaced(s, base, p, a, g) <==> ToCome(s.handler, p, a) && a < |s.orders[p]| && s.orders[p][a] != g
    decreases |base|
  {
    if base != [] {
      assert base[0] in base;
      CopiesDisplace(Apply(s, base[0]), base[1..], p, a, g);
    }
  }

  lemma CopiesAreOthers(base: seq<Step>, q: nat)
    requires OnlyCopies(base)
    ensures OwnKeys(base) && forall step <- base :: !OfQuery(step, q)
  {
  }

  /** With one registration under way, which has not come to the page yet, a query
      can miss g exactly if the new order has another gid where the old one had g. */
  lemma OneRegistrationExactly(s: State, p: nat, q: nat, g: Gid, a: nat, base: seq<Step>)
    requires Inv(s) && p < REPLICAS && q !in s.queries && LegalRun(s, base)
    requires OnlyCopies(base) && Exec(s, base).handler.Idle?
    requires s.handler.Copying? && (s.handler.p < p || (s.handler.p == p && s.handler.i == 0))
    requires KeyedByOwnGid(s.meta) && KeyedByOwnGid(s.images[p].m)
    requires a < |s.images[p].order| && s.images[p].order[a] == g
    ensures (exists steps :: Misses(s, p, q, g, base, steps)) <==> a < |s.orders[p]| && s.orders[p][a] != g
  {
    SettledOnlyAt(s, p, a, g);
    CopiesAreOthers(base, q);
    CopiesDisplace(s, base, p, a, g);
    hide Inv, Displaced, KeyedByOwnGid, Misses, LegalRun, Exec, OnlyAt;
    MissExactly(s, p, q, g, a, base);
  }

  // ------------------------------------------------------ runs from the start

  lemma {:induction false} CopiesKeep(s: State, steps: seq<Step>)
    requires LegalRun(s, steps) && OnlyCopies(steps)
    ensures var t := Exec(s, steps);
      && t.meta == s.meta && t.queries == s.queries && |t.pages| == |s.pages|
      && forall p :: 0 <= p < |s.pages| ==> |t.pages[p].slots| == |s.pages[p].slots|
    decreases |steps|
  {
    if steps != [] {
      assert steps[0] in steps;
      CopiesKeep(Apply(s, steps[0]), steps[1..]);
    }
  }

  /** A registration is received and copied onto all pages. */
  lemma RegisterWhole(s: State, gid: Gid, point: EndPoint, order: seq<Gid>) returns (steps: seq<Step>)
    requires Inv(s) && s.handler.Idle? && Enumerates(order, s.meta.Keys + {gid})
    requires forall p :: 0 <= p < REPLICAS ==> |order| <= |s.pages[p].slots|
    ensures LegalRun(s, steps) && steps != [] && OnlyCopies(steps[1..])
    ensures steps[0] == Register(gid, point, seq(REPLICAS, _ => order))
    ensures var (t, m) := (Exec(s, steps), s.meta[gid := point]);
      && Inv(t) && t.handler.Idle? && t.meta == m && t.queries == s.queries
      && forall p :: 0 <= p < REPLICAS ==>
           t.images[p] == Image(m, order) && |t.pages[p].slots| == |s.pages[p].slots|
  {
    var reg := Register(gid, point, seq(REPLICAS, _ => order));
    hide Enumerates;
    StepInv(s, reg);
    var s1 := Apply(s, reg);
    hide Genuine, Covered, Imaged, Exec, LegalRun;
    var copies := HandlerFinishes(s1);
    QuiescentImages(s, reg, copies);
    CopiesKeep(s1, copies);
    RunCons(s, reg, copies);
    steps := [reg] + copies;
    assert steps[1..] == copies;
  }

  lemma {:induction false} DisplacedLater(s: State, first: seq<Step>, later: seq<Step>, p: nat, a: nat, g: Gid)
    requires LegalRun(s, first) && LegalRun(Exec(s, first), later) && LegalRun(s, first + later)
    requires Displaced(Exec(s, first), later, p, a, g)
    ensures Displaced(s, first + later, p, a, g)
    decreases |first|
  {
    hide Apply, Legal, WellFormed, Displaces;
    if first == [] {
      assert first + later == later;
    } else {
      assert (first + later)[1..] == first[1..] + later;
      DisplacedLater(Apply(s, first[0]), first[1..], later, p, a, g);
    }
  }

  /** A registration is received, and its copies are what comes. */
  lemma RegisterSoon(s: State, gid: Gid, point: EndPoint, order: seq<Gid>, a: nat, g: Gid) returns (copies: seq<Step>)
    requires Inv(s) && s.handler.Idle? && Enumerates(order, s.meta.Keys + {gid})
    requires forall p :: 0 <= p < REPLICAS ==> |order| <= |s.pages[p].slots|
    ensures var reg := Register(gid, point, seq(REPLICAS, _ => order));
      && WellFormed(s) && Legal(s, reg)
      && var t := Apply(s, reg);
        && Inv(t) && LegalRun(t, copies) && OnlyCopies(copies) && Exec(t, copies).handler.Idle?
        && t.handler.Copying? && t.handler.p == 0 && t.handler.i == 0
        && t.meta == s.meta[gid := point] && t.images == s.images && t.queries == s.queries
        && (Displaced(t, copies, 0, a, g) <==> a < |order| && order[a] != g)
  {
    var reg := Register(gid, point, seq(REPLICAS, _ => order));
    hide Enumerates;
    StepInv(s, reg);
    hide Genuine, Covered, Imaged;
    copies := HandlerFinishes(Apply(s, reg));
    CopiesDisplace(Apply(s, reg), copies, 0, a, g);
  }

  /** The empty directory, as far as the runs below need it. */
  lemma StartsEmpty(entryBytes: nat)
    requires entryBytes > 0 && Capacity(entryBytes) >= 2
    ensures var s := Initial(entryBytes);
      && Inv(s) && s.meta == map[] && s.handler.Idle? && s.queries == map[]
      && forall p :: 0 <= p < REPLICAS ==> |s.pages[p].slots| >= 2
  {
    InitialInv(entryBytes);
  }

  /** A directory at rest, with two slots or more to a page, that holds m everywhere
      in the given order. */
  ghost predicate Rests(s: State, m: map<Gid, EndPoint>, order: seq<Gid>) {
    && Inv(s) && s.handler.Idle? && s.queries == map[] && s.meta == m
    && forall p :: 0 <= p < REPLICAS ==> s.images[p] == Image(m, order) && |s.pages[p].slots| >= 2
  }

  /** One more registration, from a run that leaves the directory at rest. */
  lemma RestsAfter(s: State, run: seq<Step>, m: map<Gid, EndPoint>, was: seq<Gid>,
                   gid: Gid, point: EndPoint, order: seq<Gid>)
    returns (longer: seq<Step>)
    requires LegalRun(s, run) && Rests(Exec(s, run), m, was)
    requires Enumerates(order, m.Keys + {gid}) && |order| <= 2
    ensures LegalRun(s, longer) && run <= longer && Rests(Exec(s, longer), m[gid := point], order)
    ensures |run| < |longer| && OnlyCopies(longer[|run| + 1..])
    ensures longer[|run|] == Register(gid, point, seq(REPLICAS, _ => order))
  {
    hide Inv, Exec, LegalRun, Enumerates;
    var more := RegisterWhole(Exec(s, run), gid, point, order);
    ExecConcat(s, run, more);
    longer := run + more;
    assert longer[|run| + 1..] == more[1..] && longer[|run|] == more[0];
  }

  lemma OneRests(entryBytes: nat) returns (run: seq<Step>)
    requires entryBytes > 0 && Capacity(entryBytes) >= 2
    ensures LegalRun(Initial(entryBytes), run)
    ensures Rests(Exec(Initial(entryBytes), run), map[1 := EndPoint(1, 0)], [1])
  {
    StartsEmpty(entryBytes);
    hide Inv, Exec, LegalRun, Initial, Capacity;
    assert Enumerates([1], Initial(entryBytes).meta.Keys + {1});
    run := RegisterWhole(Initial(entryBytes), 1, EndPoint(1, 0), [1]);
  }

  /** Gid 2 is being registered in front of gid 1. */
  lemma TwoInFront(s: State) returns (reg: Step, base: seq<Step>, steps: seq<Step>)
    requires Rests(s, map[1 := EndPoint(1, 0)], [1])
    ensures WellFormed(s) && Legal(s, reg) && Apply(s, reg).images == s.images && 1 in Apply(s, reg).meta
    ensures WellFormed(Apply(s, reg)) && OnlyCopies(base) && Misses(Apply(s, reg), 0, 0, 1, base, steps)
  {
    assert Enumerates([2, 1], s.meta.Keys + {2});
    hide Genuine, Covered, Imaged, Exec, LegalRun, Misses, Displaced, Enumerates, Apply, Legal;
    base := RegisterSoon(s, 2, EndPoint(2, 0), [2, 1], 0, 1);
    reg := Register(2, EndPoint(2, 0), seq(REPLICAS, _ => [2, 1]));
    var t := Apply(s, reg);
    assert t.images[0] == Image(map[1 := EndPoint(1, 0)], [1]);
    SettledOnlyAt(t, 0, 0, 1);
    CopiesAreOthers(base, 0);
    hide OnlyAt, WellFormed;
    steps := MissingRun(t, 0, 0, 1, 0, base);
  }

  /** Gid 1 is in the directory, and gid 2 is being registered, which the map
      iterates first: a query can miss gid 1, which is there all the time. */
  lemma ConcurrentQueryCanMiss(entryBytes: nat) returns (before: seq<Step>, base: seq<Step>, steps: seq<Step>)
    requires entryBytes > 0 && Capacity(entryBytes) >= 2
    ensures LegalRun(Initial(entryBytes), before)
    ensures var s := Exec(Initial(entryBytes), before);
      && WellFormed(s) && s.images[0].m == map[1 := EndPoint(1, 0)] && 1 in s.meta
      && OnlyCopies(base) && Misses(s, 0, 0, 1, base, steps)
  {
    var s0 := Initial(entryBytes);
    var first := OneRests(entryBytes);
    assert Exec(s0, first).images[0].m == map[1 := EndPoint(1, 0)];
    hide Inv, Exec, LegalRun, Misses, Initial, Capacity, Apply, Legal;
    var reg;
    reg, base, steps := TwoInFront(Exec(s0, first));
    RunSnoc(s0, first, reg);
    before := first + [reg];
  }

  /** Steps that evict gid 2 never, query nothing and register under own gids. */
  ghost predicate Innocent(steps: seq<Step>) {
    OwnKeys(steps) && forall step <- steps :: !OfQuery(step, 0) && step != Deregister(2)
  }

  lemma InnocentConcat(a: seq<Step>, b: seq<Step>)
    requires Innocent(a) && Innocent(b)
    ensures Innocent(a + b)
  {
  }

  lemma CopiesInnocent(steps: seq<Step>)
    requires OnlyCopies(steps)
    ensures Innocent(steps)
  {
  }

  lemma RegisterInnocent(reg: Step)
    requires reg.Register? && reg.point.gid == reg.gid
    ensures Innocent([reg])
  {
  }

  /** Gid 2 alone is registered again, in the first slot. */
  lemma TwoAgain(s: State) returns (mid: seq<Step>)
    requires Inv(s) && s.handler.Idle? && s.queries == map[] && s.meta == map[2 := EndPoint(2, 0)]
    requires forall p :: 0 <= p < REPLICAS ==> |s.pages[p].slots| >= 2
    ensures LegalRun(s, mid) && Innocent(mid) && Rests(Exec(s, mid), map[2 := EndPoint(2, 0)], [2])
  {
    var e := EndPoint(2, 0);
    assert Enumerates([2], s.meta.Keys + {2}) && s.meta[2 := e] == map[2 := e];
    hide Inv, Exec, LegalRun, Enumerates, Innocent, OnlyCopies;
    mid := RegisterWhole(s, 2, e, [2]);
    assert mid == [mid[0]] + mid[1..];
    CopiesInnocent(mid[1..]);
    RegisterInnocent(mid[0]);
    InnocentConcat([mid[0]], mid[1..]);
  }

  /** Then gid 3 is being registered behind it. */
  lemma ThreeBehind(s: State) returns (reg: Step, copies: seq<Step>)
    requires Rests(s, map[2 := EndPoint(2, 0)], [2])
    ensures WellFormed(s) && Legal(s, reg) && LegalRun(Apply(s, reg), copies) && Innocent([reg]) && Innocent(copies)
    ensures Displaced(Apply(s, reg), copies, 0, 1, 2)
  {
    assert Enumerates([2, 3], s.meta.Keys + {3});
    hide Inv, Exec, LegalRun, Enumerates, Displaced, Legal, Apply, Innocent, OnlyCopies;
    copies := RegisterSoon(s, 3, EndPoint(3, 0), [2, 3], 1, 2);
    reg := Register(3, EndPoint(3, 0), seq(REPLICAS, _ => [2, 3]));
    CopiesInnocent(copies);
    RegisterInnocent(reg);
  }

  /** Gid 1 is evicted and gid 2 registered again; then gid 3 is being registered. */
  lemma Reregistered(s: State) returns (base: seq<Step>)
    requires Rests(s, map[1 := EndPoint(1, 0), 2 := EndPoint(2, 0)], [1, 2])
    ensures LegalRun(s, base) && Innocent(base) && Displaced(s, base, 0, 1, 2)
  {
    hide Rests, Exec, LegalRun, Displaced, Legal, Apply, WellFormed, Innocent, Inv;
    EvictedRests(s);
    var mid := TwoAgain(Apply(s, Deregister(1)));
    var reg, copies := ThreeBehind(Exec(Apply(s, Deregister(1)), mid));
    base := Chained(s, Deregister(1), mid, reg, copies, 0, 1, 2);
    InnocentConcat([reg], copies);
    InnocentConcat(mid, [reg] + copies);
    assert Innocent([Deregister(1)]) by { EvictionInnocent(); }
    InnocentConcat([Deregister(1)], mid + ([reg] + copies));
  }

  lemma EvictionInnocent()
    ensures Innocent([Deregister(1)])
  {
  }

  lemma EvictedRests(s: State)
    requires Rests(s, map[1 := EndPoint(1, 0), 2 := EndPoint(2, 0)], [1, 2])
    ensures WellFormed(s) && Legal(s, Deregister(1))
    ensures var t := Apply(s, Deregister(1));
      && Inv(t) && t.handler.Idle? && t.queries == map[] && t.meta == map[2 := EndPoint(2, 0)]
      && forall p :: 0 <= p < REPLICAS ==> |t.pages[p].slots| >= 2
  {
    StepInv(s, Deregister(1));
    hide Genuine, Covered, Imaged;
    assert s.meta - {1} == map[2 := EndPoint(2, 0)];
  }

  lemma Chained(s: State, out: Step, mid: seq<Step>, reg: Step, copies: seq<Step>, p: nat, a: nat, g: Gid)
    returns (base: seq<Step>)
    requires WellFormed(s) && Legal(s, out) && LegalRun(Apply(s, out), mid)
    requires var t := Exec(Apply(s, out), mid);
      WellFormed(t) && Legal(t, reg) && LegalRun(Apply(t, reg), copies) && Displaced(Apply(t, reg), copies, p, a, g)
    ensures base == [out] + (mid + ([reg] + copies)) && LegalRun(s, base) && Displaced(s, base, p, a, g)
  {
    hide Legal, Apply, WellFormed;
    var s1 := Apply(s, out);
    var t := Exec(s1, mid);
    RunCons(t, reg, copies);
    assert ([reg] + copies)[1..] == copies;
    ExecConcat(s1, mid, [reg] + copies);
    DisplacedLater(s1, mid, [reg] + copies, p, a, g);
    RunCons(s, out, mid + ([reg] + copies));
    base := [out] + (mid + ([reg] + copies));
    assert base[1..] == mid + ([reg] + copies);
  }

  /** What a query on a directory at rest needs to miss. */
  lemma RestsMisses(s: State, m: map<Gid, EndPoint>, order: seq<Gid>, a: nat, base: seq<Step>)
    returns (steps: seq<Step>)
    requires Rests(s, m, order) && KeyedByOwnGid(m) && a < |order| && LegalRun(s, base) && OwnKeys(base)
    requires (forall step <- base :: !OfQuery(step, 0)) && Displaced(s, base, 0, a, order[a])
    ensures Misses(s, 0, 0, order[a], base, steps)
  {
    SettledOnlyAt(s, 0, a, order[a]);
    hide Genuine, Covered, Imaged, Exec, LegalRun, Misses, Displaced, KeyedByOwnGid, OnlyAt;
    steps := MissingRun(s, 0, 0, order[a], a, base);
  }

  lemma TwoRest(entryBytes: nat) returns (run: seq<Step>)
    requires entryBytes > 0 && Capacity(entryBytes) >= 2
    ensures LegalRun(Initial(entryBytes), run)
    ensures Rests(Exec(Initial(entryBytes), run), map[1 := EndPoint(1, 0), 2 := EndPoint(2, 0)], [1, 2])
  {
    var m := map[1 := EndPoint(1, 0)];
    assert Enumerates([1, 2], m.Keys + {2}) && m[2 := EndPoint(2, 0)] == map[1 := EndPoint(1, 0), 2 := EndPoint(2, 0)];
    hide Rests, Exec, LegalRun, Initial, Enumerates, Capacity;
    var first := OneRests(entryBytes);
    run := RestsAfter(Initial(entryBytes), first, m, [1], 2, EndPoint(2, 0), [1, 2]);
  }

  /** A query that overlaps two registrations: neither puts another gid into a slot
      that gid 2 had right before, and it misses gid 2, which is there all the time. */
  lemma TwoRegistrationsCanMiss(entryBytes: nat) returns (before: seq<Step>, base: seq<Step>, steps: seq<Step>)
    requires entryBytes > 0 && Capacity(entryBytes) >= 2
    ensures LegalRun(Initial(entryBytes), before)
    ensures var s := Exec(Initial(entryBytes), before);
      && WellFormed(s) && 2 in s.images[0].m && 2 in s.meta && (forall step <- base :: step != Deregister(2))
      && Misses(s, 0, 0, 2, base, steps)
  {
    before := TwoRest(entryBytes);
    var s := Exec(Initial(entryBytes), before);
    hide Exec, LegalRun, Misses, Displaced, Initial, Capacity, Genuine, Covered, Imaged;
    base := Reregistered(s);
    steps := RestsMisses(s, map[1 := EndPoint(1, 0), 2 := EndPoint(2, 0)], [1, 2], 1, base);
  }
}
