/** The directory server object with its handler loops, and the client's scan. */
module MetaKvServer {
  import opened Collections
  import opened MetaKvModel
  import opened MetaKvSafety
  import opened MetaKvQueries

  /** n entries stay on their page exactly if n is at most the capacity. */
  lemma FitsExactly(n: nat, entryBytes: nat)
    requires entryBytes > 0
    ensures HEADER_BYTES + n * entryBytes <= PAGE_BYTES <==> n <= Capacity(entryBytes)
  {
    var c := Capacity(entryBytes);
    if n <= c {
      Times(n, c, entryBytes);
    } else {
      Times(c + 1, n, entryBytes);
    }
  }

  lemma Times(a: nat, b: nat, c: nat)
    requires a <= b
    ensures a * c <= b * c
  {
  }

  lemma EntryCopied(s: State)
    requires Inv(s) && s.handler.Copying? && s.handler.i < |s.orders[s.handler.p]|
    ensures var (p, i) := (s.handler.p, s.handler.i);
      && p < |s.pages| && Legal(s, CopyEntry) && i < |s.pages[p].slots| && s.orders[p][i] in s.meta
      && Apply(s, CopyEntry) ==
           s.(pages := s.pages[p := s.pages[p].(slots := s.pages[p].slots[i := Some(s.meta[s.orders[p][i]])])],
              handler := s.handler.(i := i + 1))
  {
    NeverStuck(s);
  }

  lemma LenCopied(s: State)
    requires Inv(s) && s.handler.Copying? && s.handler.i == |s.orders[s.handler.p]|
    ensures var p := s.handler.p;
      && p < |s.pages| && Legal(s, CopyLen)
      && Apply(s, CopyLen) ==
           s.(pages := s.pages[p := s.pages[p].(len := s.handler.len)], images := s.images[p := Coming(s, p)],
              handler := if p + 1 < REPLICAS then Copying(p + 1, 0, |s.meta|) else Idle)
  {
  }

  /** A run that has copied all entries of a page goes on with the count. */
  lemma PageCopied(s: State, steps: seq<Step>)
    requires LegalRun(s, steps) && OnlyCopies(steps)
    requires var t := Exec(s, steps); Inv(t) && t.handler.Copying? && t.handler.i == |t.orders[t.handler.p]|
    ensures var (t, all, p) := (Exec(s, steps), steps + [CopyLen], Exec(s, steps).handler.p);
      && LegalRun(s, all) && OnlyCopies(all) && p < |t.pages|
      && var u := Exec(s, all);
        && Inv(u) && u == t.(pages := t.pages[p := t.pages[p].(len := t.handler.len)],
                             images := t.images[p := Coming(t, p)],
                             handler := if p + 1 < REPLICAS then Copying(p + 1, 0, |t.meta|) else Idle)
        && PageHolds(u.pages[p], Coming(t, p))
  {
    LenCopied(Exec(s, steps));
    StepInv(Exec(s, steps), CopyLen);
    RunSnoc(s, steps, CopyLen);
    hide LegalRun, Exec, Apply, Legal, Genuine, Covered, PageHolds;
    SettledHolds(Exec(s, steps + [CopyLen]), Exec(s, steps).handler.p);
  }

  /** The server as the handlers see it; `s` is the directory it is part of. */
  class MetaServer {
    var meta: map<Gid, EndPoint>
    var pages: seq<Page>

    ghost predicate Shows(s: State)
      reads this
    {
      Inv(s) && s.meta == meta && s.pages == pages
    }

    method CopyEntry(p: nat, n: nat, g: Gid)
      requires p < |pages| && n < |pages[p].slots| && g in meta
      modifies this`pages
      ensures pages == old(pages)[p := old(pages)[p].(slots := old(pages)[p].slots[n := Some(meta[g])])]
    {
      pages := pages[p := pages[p].(slots := pages[p].slots[n := Some(meta[g])])];
    }

    method CopyEntries(p: nat, order: seq<Gid>, ghost s: State) returns (ghost steps: seq<Step>)
      requires Shows(s) && s.handler.Copying? && s.handler.p == p && s.handler.i == 0 && s.orders[p] == order
      modifies this`pages
      ensures LegalRun(s, steps) && OnlyCopies(steps) && Shows(Exec(s, steps))
      ensures Exec(s, steps) == s.(pages := pages, handler := s.handler.(i := |order|))
      ensures p < |pages| == |old(pages)| && forall r :: 0 <= r < |pages| && r != p ==> pages[r] == old(pages)[r]
    {
      steps := [];
      ghost var t := s;
      RunNone(s);
      assert p < |pages|;
      hide Inv, LegalRun, Exec, MetaKvModel.Apply, Legal, WellFormed, Enumerates;
      var n := 0;
      for i := 0 to |order|
        invariant n == i && LegalRun(s, steps) && OnlyCopies(steps) && t == Exec(s, steps) && Shows(t)
        invariant t == s.(pages := pages, handler := s.handler.(i := i))
        invariant p < |pages| == |old(pages)| && forall r :: 0 <= r < |pages| && r != p ==> pages[r] == old(pages)[r]
      {
        EntryCopied(t);
        RunSnoc(s, steps, MetaKvModel.CopyEntry);
        steps := steps + [MetaKvModel.CopyEntry];
        t := Exec(s, steps);
        CopyEntry(p, n, order[i]);
        n := n + 1;
      }
    }

    /** Copies the map onto one page: the count is read first and written last. */
    method CopyPage(p: nat, order: seq<Gid>, ghost s: State) returns (ghost steps: seq<Step>)
      requires Shows(s) && s.handler.Copying? && s.handler.p == p && s.handler.i == 0 && s.orders[p] == order
      modifies this`pages
      ensures LegalRun(s, steps) && OnlyCopies(steps) && Shows(Exec(s, steps))
      ensures var t := Exec(s, steps);
        && t.orders == s.orders && t.handler == (if p + 1 < REPLICAS then Copying(p + 1, 0, |meta|) else Idle)
        && t.images == s.images[p := Image(meta, order)]
      ensures p < |pages| == |old(pages)| && PageHolds(pages[p], Image(meta, order))
      ensures forall r :: 0 <= r < |pages| && r != p ==> pages[r] == old(pages)[r]
    {
      var len := |meta|;
      assert len == s.handler.len by { EnumeratesSize(order, meta.Keys); }
      assert p < REPLICAS == |s.images|;
      hide Inv, LegalRun, Exec, PageHolds, Apply, Legal, WellFormed, Enumerates;
      steps := CopyEntries(p, order, s);
      PageCopied(s, steps);
      steps := steps + [CopyLen];
      pages := pages[p := pages[p].(len := len)];
    }

    /** Registers an endpoint and republishes every replica; the reply names the
        replica that the client is to read from now on.  The loops are a run of
        the directory: the registration and then its copies, in order. */
    method RegDcMeta(gid: Gid, port: nat, point: EndPoint, orders: seq<seq<Gid>>, ghost s: State)
      returns (replica: nat, ghost steps: seq<Step>)
      requires Shows(s) && Legal(s, Register(gid, point, orders))
      modifies this
      ensures LegalRun(Apply(s, Register(gid, point, orders)), steps) && OnlyCopies(steps)
      ensures Shows(Exec(Apply(s, Register(gid, point, orders)), steps))
      ensures Exec(Apply(s, Register(gid, point, orders)), steps).handler.Idle?
      ensures meta == old(meta)[gid := point] && replica == port % REPLICAS
      ensures |pages| == REPLICAS && forall p :: 0 <= p < REPLICAS ==> PageHolds(pages[p], Image(meta, orders[p]))
    {
      ghost var reg := Register(gid, point, orders);
      StepInv(s, reg);
      ghost var s1 := Apply(s, reg);
      meta := meta[gid := point];
      replica := port % REPLICAS;
      steps := [];
      ghost var t := s1;
      RunNone(s1);
      assert Shows(s1);
      hide Genuine, Covered, Imaged, LegalRun, Exec, PageHolds, Apply, Legal;
      for idx := 0 to REPLICAS
        invariant meta == s1.meta && LegalRun(s1, steps) && OnlyCopies(steps) && t == Exec(s1, steps) && Shows(t)
        invariant t.orders == orders && t.handler == if idx < REPLICAS then Copying(idx, 0, |meta|) else Idle
      {
        ghost var copies := CopyPage(idx, orders[idx], t);
        ExecConcat(s1, steps, copies);
        steps := steps + copies;
        t := Exec(s1, steps);
      }
      QuiescentImages(s, reg, steps);
    }

    /** Evicts from the map; the published images stay. */
    method DeregDcMeta(gid: Gid, ghost s: State)
      requires Shows(s) && Legal(s, Deregister(gid))
      modifies this`meta
      ensures Shows(Apply(s, Deregister(gid)))
    {
      meta := meta - {gid};
      StepInv(s, Deregister(gid));
    }

    method QueryDcMeta(gid: Gid) returns (r: Option<EndPoint>)
      ensures r == Lookup(meta, gid)
    {
      r := if gid in meta then Some(meta[gid]) else None;
    }
  }

  lemma {:induction false} ScanSkips(es: seq<EndPoint>, i: nat, target: Gid)
    requires i <= |es| && forall k :: 0 <= k < i ==> es[k].gid != target
    ensures Scan(es, target) == Scan(es[i..], target)
  {
    if i > 0 {
      assert es[1..][i - 1..] == es[i..];
      ScanSkips(es[1..], i - 1, target);
    } else {
      assert es[0..] == es;
    }
  }

  /** The client's loop over the entries it read. */
  method FindEndPoint(entries: seq<EndPoint>, target: Gid) returns (r: Option<EndPoint>)
    ensures r == Scan(entries, target)
    ensures r.Some? ==> r.value in entries && r.value.gid == target
    ensures r.None? <==> forall e <- entries :: e.gid != target
  {
    ScanFinds(entries, target);
    for i := 0 to |entries|
      invariant forall k :: 0 <= k < i ==> entries[k].gid != target
    {
      if entries[i].gid == target {
        ScanSkips(entries, i, target);
        return Some(entries[i]);
      }
    }
    ScanSkips(entries, |entries|, target);
    return None;
  }
}
