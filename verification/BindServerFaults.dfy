/** What a failing receive post or wait leaves undone in the bound server's settling
    loop. */
module BindServerFaults {
  import opened BindServer

  /** The loop over slots 1 to n - 1 meets the fault: the slot was used on that
      transport, and it waits only if asked to. */
  ghost predicate Hits(b: Batch, n: nat, pop: bool, fault: Fault)
    requires ValidBatch(b) && n <= HOST_LEN
  {
    && !fault.NoFault? && 0 < fault.slot < n
    && match fault
       case UdRecv(v) => b.ud[v] > 0
       case UdWait(v) => b.ud[v] > 0 && pop
       case RcRecv(v) => b.rc[v] > 0
       case RcWait(v) => b.rc[v] > 0 && pop
  }

  /** How far the loop comes. */
  ghost function Stop(b: Batch, n: nat, pop: bool, fault: Fault): nat
    requires ValidBatch(b) && n <= HOST_LEN
  {
    if Hits(b, n, pop, fault) then fault.slot else n
  }

  /** The uses of slots 1 to n - 1. */
  ghost function Used(counts: seq<nat>, n: nat): nat
    requires n <= |counts|
  {
    if n <= 1 then 0 else Used(counts, n - 1) + counts[n - 1]
  }

  /** Receives on UD are reposted for the slots before the one that fails, and for
      that one unless the post is what fails. */
  ghost predicate UdReposted(b: Batch, n: nat, pop: bool, fault: Fault, t: Nic)
    requires ValidBatch(b) && n <= HOST_LEN
  {
    var (stop, hit) := (Stop(b, n, pop, fault), Hits(b, n, pop, fault));
    t.udRecv == b.nic.udRecv + Used(b.ud, stop) + if hit && !fault.UdRecv? then b.ud[stop] else 0
  }

  /** And on RC for the slots before it, and for that one if only the wait fails. */
  ghost predicate RcReposted(b: Batch, n: nat, pop: bool, fault: Fault, t: Nic)
    requires ValidBatch(b) && n <= HOST_LEN && Valid(t)
  {
    var (stop, hit) := (Stop(b, n, pop, fault), Hits(b, n, pop, fault));
    forall u :: 0 <= u < HOST_LEN ==>
      t.rcRecv[u] == b.nic.rcRecv[u] + if 0 < u < stop || (hit && u == stop && fault.RcWait?) then b.rc[u] else 0
  }

  ghost predicate UdFails(v: nat, used: nat, pop: bool, fault: Fault) {
    used > 0 && (fault == UdRecv(v) || (pop && fault == UdWait(v)))
  }

  ghost predicate RcFails(v: nat, used: nat, pop: bool, fault: Fault) {
    used > 0 && (fault == RcRecv(v) || (pop && fault == RcWait(v)))
  }

  lemma UdPart(nic: Nic, v: nat, used: nat, pop: bool, fault: Fault)
    ensures var (t, ok) := SettleUd(nic, v, used, pop, fault);
      && (ok <==> !UdFails(v, used, pop, fault)) && t.rcRecv == nic.rcRecv && |t.rcOut| == |nic.rcOut|
      && t.udRecv == nic.udRecv + if fault == UdRecv(v) then 0 else used
  {
  }

  lemma RcPart(nic: Nic, v: nat, used: nat, pop: bool, fault: Fault)
    requires Valid(nic) && v < HOST_LEN
    ensures var (t, ok) := SettleRc(nic, v, used, pop, fault);
      && (ok <==> !RcFails(v, used, pop, fault)) && t.udRecv == nic.udRecv
      && t.rcRecv == nic.rcRecv[v := nic.rcRecv[v] + if fault == RcRecv(v) then 0 else used]
  {
  }

  /** One slot of the loop: what it reposts and when it fails. */
  lemma SlotPart(b: Batch, v: nat, pop: bool, fault: Fault)
    requires ValidBatch(b) && v < HOST_LEN
    ensures var (t, ok) := SettleWith(b, v, pop, fault);
      && (ok <==> !UdFails(v, b.ud[v], pop, fault) && !RcFails(v, b.rc[v], pop, fault))
      && t.nic.udRecv == b.nic.udRecv + (if fault == UdRecv(v) then 0 else b.ud[v])
      && t.nic.rcRecv == b.nic.rcRecv[v := b.nic.rcRecv[v]
           + if UdFails(v, b.ud[v], pop, fault) || fault == RcRecv(v) then 0 else b.rc[v]]
  {
    UdPart(b.nic, v, b.ud[v], pop, fault);
    var (nic1, ok1) := SettleUd(b.nic, v, b.ud[v], pop, fault);
    hide SettleUd, SettleRc, UdFails, RcFails;
    if ok1 {
      RcPart(nic1, v, b.rc[v], pop, fault);
    }
  }

  lemma HitsNext(b: Batch, n: nat, pop: bool, fault: Fault)
    requires ValidBatch(b) && 1 <= n < HOST_LEN
    ensures Hits(b, n + 1, pop, fault) <==>
      Hits(b, n, pop, fault) || UdFails(n, b.ud[n], pop, fault) || RcFails(n, b.rc[n], pop, fault)
    ensures Hits(b, n, pop, fault) ==> Stop(b, n + 1, pop, fault) == Stop(b, n, pop, fault) < n
    ensures !Hits(b, n, pop, fault) && Hits(b, n + 1, pop, fault) ==> fault.slot == n
  {
  }

  lemma NextUd(b: Batch, b1: Batch, n: nat, pop: bool, fault: Fault)
    requires ValidBatch(b) && 1 <= n < HOST_LEN && !Hits(b, n, pop, fault)
    requires ValidBatch(b1) && b1.ud == b.ud && b1.rc == b.rc && UdReposted(b, n, pop, fault, b1.nic)
    ensures UdReposted(b, n + 1, pop, fault, SettleWith(b1, n, pop, fault).0.nic)
  {
    SlotPart(b1, n, pop, fault);
    HitsNext(b, n, pop, fault);
    assert Used(b.ud, n + 1) == Used(b.ud, n) + b.ud[n];
    hide Used, SettleWith, ValidBatch;
  }

  lemma NextRc(b: Batch, b1: Batch, n: nat, pop: bool, fault: Fault)
    requires ValidBatch(b) && 1 <= n < HOST_LEN && !Hits(b, n, pop, fault)
    requires ValidBatch(b1) && b1.ud == b.ud && b1.rc == b.rc && RcReposted(b, n, pop, fault, b1.nic)
    ensures RcReposted(b, n + 1, pop, fault, SettleWith(b1, n, pop, fault).0.nic)
  {
    SlotPart(b1, n, pop, fault);
    HitsNext(b, n, pop, fault);
    hide Used, SettleWith;
  }

  /** What the loop over slots 1 to n - 1 comes to. */
  ghost predicate SettledTo(b: Batch, n: nat, pop: bool, fault: Fault, t: Nic, ok: bool)
    requires ValidBatch(b) && n <= HOST_LEN && Valid(t)
  {
    (ok <==> !Hits(b, n, pop, fault)) && UdReposted(b, n, pop, fault, t) && RcReposted(b, n, pop, fault, t)
  }

  lemma FirstSlot(b: Batch, pop: bool, fault: Fault)
    requires ValidBatch(b)
    ensures !Hits(b, 1, pop, fault) && UdReposted(b, 1, pop, fault, b.nic) && RcReposted(b, 1, pop, fault, b.nic)
  {
  }

  lemma StoppedBefore(b: Batch, n: nat, pop: bool, fault: Fault, t: Nic)
    requires ValidBatch(b) && 1 <= n < HOST_LEN && Hits(b, n, pop, fault) && Valid(t)
    requires UdReposted(b, n, pop, fault, t) && RcReposted(b, n, pop, fault, t)
    ensures SettledTo(b, n + 1, pop, fault, t, false)
  {
    HitsNext(b, n, pop, fault);
    hide Used;
  }

  lemma NextSlot(b: Batch, b1: Batch, n: nat, pop: bool, fault: Fault)
    requires ValidBatch(b) && 1 <= n < HOST_LEN && ValidBatch(b1) && b1.ud == b.ud && b1.rc == b.rc
    requires SettledTo(b, n, pop, fault, b1.nic, true)
    ensures var (t, ok) := SettleWith(b1, n, pop, fault); SettledTo(b, n + 1, pop, fault, t.nic, ok)
  {
    hide Hits, UdReposted, RcReposted, UdFails, RcFails, SettleWith;
    HitsNext(b, n, pop, fault);
    SlotPart(b1, n, pop, fault);
    NextUd(b, b1, n, pop, fault);
    NextRc(b, b1, n, pop, fault);
  }

  lemma {:induction false} SettledFaulty(b: Batch, n: nat, pop: bool, fault: Fault)
    requires ValidBatch(b) && 1 <= n <= HOST_LEN
    ensures var (t, ok) := SettleTo(b, n, pop, fault); SettledTo(b, n, pop, fault, t.nic, ok)
  {
    hide SettleWith, Hits, UdReposted, RcReposted;
    if n == 1 {
      FirstSlot(b, pop, fault);
    } else {
      SettledFaulty(b, n - 1, pop, fault);
      var (t, ok) := SettleTo(b, n - 1, pop, fault);
      if ok {
        NextSlot(b, t, n - 1, pop, fault);
      } else {
        StoppedBefore(b, n - 1, pop, fault, t.nic);
      }
    }
  }

  /** A call whose posts all succeed fails exactly if the batch uses the slot, other
      than 0, and the transport at which a receive post or an awaited completion
      fails; the slots before it have their receives back, those behind it none. */
  lemma FailsExactly(nic: Nic, rs: seq<Request>, pop: bool, fault: Fault)
    requires Valid(nic)
    ensures var b := SendSeq(Start(nic), rs); var (t, ok) := SettleTo(b, HOST_LEN, pop, fault);
      && (!ok <==> !fault.NoFault? && 0 < fault.slot < HOST_LEN
                   && Uses(rs, fault.RcRecv? || fault.RcWait?, fault.slot) > 0
                   && (fault.UdWait? || fault.RcWait? ==> pop))
      && forall v :: 0 <= v < HOST_LEN && (!ok ==> v != fault.slot) ==>
           t.nic.rcRecv[v] == nic.rcRecv[v] + if v == 0 || (!ok && fault.slot < v) then 0 else Uses(rs, true, v)
  {
    SendSeqCounted(nic, rs);
    var b := SendSeq(Start(nic), rs);
    hide SendSeq, Start, Uses, SettleTo;
    SettledFaulty(b, HOST_LEN, pop, fault);
    hide Used;
  }
}
