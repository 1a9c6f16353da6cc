/** The directory of DC endpoints: a map on the meta server, published as a flat
    image on several pages that clients read with one-sided operations.

    The server runs one handler at a time.  Each entry copy, each length copy and
    each read of a client is a step of its own, so a query sees any mixture of
    old and new entries that the interleaving allows. */
module MetaKvModel {
  import opened Collections

  /** Pages of 4096 bytes, each starting with an 8-byte entry count. */
  const REPLICAS: nat := 12
  const PAGE_BYTES: nat := 4096
  const HEADER_BYTES: nat := 8

  type Gid = nat

  /** An endpoint: its own gid and the rest of its connection data. */
  datatype EndPoint = EndPoint(gid: Gid, data: nat)

  /** A page: the entry count and the entries; `None` was never written. */
  datatype Page = Page(len: nat, slots: seq<Option<EndPoint>>)

  /** How many entries of `entryBytes` fit behind the header. */
  function Capacity(entryBytes: nat): nat
    requires entryBytes > 0
  {
    (PAGE_BYTES - HEADER_BYTES) / entryBytes
  }

  /** A hash map is iterated in some order, each key once. */
  ghost predicate Enumerates(order: seq<Gid>, keys: set<Gid>) {
    && (forall i, j :: 0 <= i < j < |order| ==> order[i] != order[j])
    && (forall g :: g in order <==> g in keys)
  }

  /** The registration handler between its copies: page p, entry i, and the entry
      count, which it reads before it starts on a page. */
  datatype Handler = Idle | Copying(p: nat, i: nat, len: nat)

  /** What a page is a complete copy of: a map in an iteration order. */
  datatype Image = Image(m: map<Gid, EndPoint>, order: seq<Gid>)

  /** A client's query: the page it uses, the count it read and the entries it
      has read so far. */
  datatype Query = Query(page: nat, target: Gid, len: nat, got: seq<EndPoint>)

  /** `orders`, `images` and `registered` are history: the iteration orders of the
      latest registration, what each page was last made a copy of, and every
      endpoint ever put into the map. */
  datatype State = State(
    meta: map<Gid, EndPoint>,
    pages: seq<Page>,
    handler: Handler,
    queries: map<nat, Query>,
    orders: seq<seq<Gid>>,
    images: seq<Image>,
    registered: set<EndPoint>)

  /** Pages that hold as many entries of `entryBytes` as fit. */
  function Initial(entryBytes: nat): State
    requires entryBytes > 0
  {
    var page := Page(0, seq(Capacity(entryBytes), _ => None));
    State(map[], seq(REPLICAS, _ => page), Idle, map[], seq(REPLICAS, _ => []),
          seq(REPLICAS, _ => Image(map[], [])), {})
  }

  datatype Step =
    | Register(gid: Gid, point: EndPoint, orders: seq<seq<Gid>>)
    | CopyEntry
    | CopyLen
    | Deregister(gid: Gid)
    | PutLocal(gid: Gid, point: EndPoint)
    | ReadLen(q: nat, page: nat, target: Gid)
    | ReadSlot(q: nat)

  predicate WellFormed(s: State) {
    && |s.pages| == REPLICAS && |s.orders| == REPLICAS && |s.images| == REPLICAS
    && (s.handler.Copying? ==> s.handler.p < REPLICAS && s.handler.i <= |s.orders[s.handler.p]|)
    && (forall k <- s.queries :: s.queries[k].page < REPLICAS)
  }

  /** A registration must fit on the page; the original writes past it otherwise. */
  ghost predicate Legal(s: State, step: Step)
    requires WellFormed(s)
  {
    match step
    case Register(gid, point, orders) =>
      && s.handler.Idle? && |orders| == REPLICAS
      && forall p :: 0 <= p < REPLICAS ==>
           Enumerates(orders[p], s.meta.Keys + {gid}) && |orders[p]| <= |s.pages[p].slots|
    case CopyEntry =>
      && s.handler.Copying? && s.handler.i < |s.orders[s.handler.p]|
      && s.handler.i < |s.pages[s.handler.p].slots| && s.orders[s.handler.p][s.handler.i] in s.meta
    case CopyLen => s.handler.Copying? && s.handler.i == |s.orders[s.handler.p]|
    case Deregister(_) => s.handler.Idle?
    case PutLocal(_, _) => s.handler.Idle?
    case ReadLen(q, page, _) => q !in s.queries && page < REPLICAS
    case ReadSlot(q) =>
      && q in s.queries && |s.queries[q].got| < s.queries[q].len
      && |s.queries[q].got| < |s.pages[s.queries[q].page].slots|
      && s.pages[s.queries[q].page].slots[|s.queries[q].got|].Some?
  }

  ghost function Apply(s: State, step: Step): State
    requires WellFormed(s) && Legal(s, step)
  {
    match step
    case Register(gid, point, orders) =>
      var m := s.meta[gid := point];
      s.(meta := m, handler := Copying(0, 0, |m|), orders := orders, registered := s.registered + {point})
    case CopyEntry =>
      var p, i := s.handler.p, s.handler.i;
      var page := s.pages[p];
      s.(pages := s.pages[p := page.(slots := page.slots[i := Some(s.meta[s.orders[p][i]])])],
         handler := s.handler.(i := i + 1))
    case CopyLen =>
      var p := s.handler.p;
      s.(pages := s.pages[p := s.pages[p].(len := s.handler.len)],
         images := s.images[p := Image(s.meta, s.orders[p])],
         handler := if p + 1 < REPLICAS then Copying(p + 1, 0, |s.meta|) else Idle)
    case Deregister(gid) => s.(meta := s.meta - {gid})
    case PutLocal(gid, point) => s.(meta := s.meta[gid := point], registered := s.registered + {point})
    case ReadLen(q, page, target) =>
      s.(queries := s.queries[q := Query(page, target, s.pages[page].len, [])])
    case ReadSlot(q) =>
      var u := s.queries[q];
      s.(queries := s.queries[q := u.(got := u.got + [s.pages[u.page].slots[|u.got|].value])])
  }

  ghost predicate LegalRun(s: State, steps: seq<Step>)
    decreases |steps|
  {
    WellFormed(s) && (steps == [] || (Legal(s, steps[0]) && LegalRun(Apply(s, steps[0]), steps[1..])))
  }

  ghost function Exec(s: State, steps: seq<Step>): State
    requires LegalRun(s, steps)
    decreases |steps|
  {
    if steps == [] then s else Exec(Apply(s, steps[0]), steps[1..])
  }

  /** The client's scan over what it read: the first entry with the gid. */
  function Scan(got: seq<EndPoint>, target: Gid): Option<EndPoint> {
    if got == [] then None
    else if got[0].gid == target then Some(got[0])
    else Scan(got[1..], target)
  }

  /** What the two-sided query handler answers. */
  function Lookup(meta: map<Gid, EndPoint>, gid: Gid): Option<EndPoint> {
    if gid in meta then Some(meta[gid]) else None
  }
}
