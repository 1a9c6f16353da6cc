/** The bound server's push path: selective signalling, completion waits and
    replenishing of receives, per transport and client slot. */
module BindServer {

  /** Slots of the per-client count arrays. */
  const HOST_LEN: nat := 12

  /** A request after `check_bind`: the client id, whose remainder by 12 is its
      slot, and whether that client has an RC queue pair; all others go out on
      the one UD queue pair. */
  datatype Request = Request(vid: nat, rc: bool)

  /** A send handed to the NIC. */
  datatype Sent = Sent(rc: bool, slot: nat, signaled: bool)

  function SlotOf(r: Request): (v: nat)
    ensures v < HOST_LEN
  {
    r.vid % HOST_LEN
  }

  /** Unconsumed completions and posted receives of the UD queue pair and of the
      RC queue pair of each slot, everything sent so far, and whether a wait
      found no completion to consume. */
  datatype Nic = Nic(udOut: nat, udRecv: nat, rcOut: seq<nat>, rcRecv: seq<nat>, sent: seq<Sent>, blocked: bool)

  /** One batch under way: the NIC and the two count arrays. */
  datatype Batch = Batch(nic: Nic, ud: seq<nat>, rc: seq<nat>)

  predicate Valid(nic: Nic) {
    |nic.rcOut| == HOST_LEN && |nic.rcRecv| == HOST_LEN
  }

  predicate ValidBatch(b: Batch) {
    Valid(b.nic) && |b.ud| == HOST_LEN && |b.rc| == HOST_LEN
  }

  function Start(nic: Nic): Batch {
    Batch(nic, seq(HOST_LEN, _ => 0), seq(HOST_LEN, _ => 0))
  }

  /** Posts one request, signalled if it is the first of its slot. */
  function SendOne(b: Batch, r: Request): (b': Batch)
    requires ValidBatch(b)
    ensures ValidBatch(b')
  {
    var v := SlotOf(r);
    var first := if r.rc then b.rc[v] == 0 else b.ud[v] == 0;
    var more := if first then 1 else 0;
    var sent := b.nic.sent + [Sent(r.rc, v, first)];
    if r.rc then
      Batch(b.nic.(sent := sent, rcOut := b.nic.rcOut[v := b.nic.rcOut[v] + more]), b.ud, b.rc[v := b.rc[v] + 1])
    else
      Batch(b.nic.(sent := sent, udOut := b.nic.udOut + more), b.ud[v := b.ud[v] + 1], b.rc)
  }

  function SendSeq(b: Batch, rs: seq<Request>): (b': Batch)
    requires ValidBatch(b)
    ensures ValidBatch(b')
  {
    if rs == [] then b else SendOne(SendSeq(b, rs[..|rs| - 1]), rs[|rs| - 1])
  }

  /** `wait_til_comp` on the UD queue pair. */
  function WaitUd(nic: Nic): Nic {
    if nic.udOut == 0 then nic.(blocked := true) else nic.(udOut := nic.udOut - 1)
  }

  function WaitRc(nic: Nic, v: nat): Nic
    requires v < |nic.rcOut|
  {
    if nic.rcOut[v] == 0 then nic.(blocked := true) else nic.(rcOut := nic.rcOut[v := nic.rcOut[v] - 1])
  }

  /** Which receive post or wait of the settling loop fails, if any. */
  datatype Fault = NoFault | UdRecv(slot: nat) | UdWait(slot: nat) | RcRecv(slot: nat) | RcWait(slot: nat)

  /** The UD part of one slot, up to a failure. */
  function SettleUd(nic: Nic, v: nat, used: nat, pop: bool, fault: Fault): (Nic, bool) {
    if used == 0 then (nic, true)
    else if fault == UdRecv(v) then (nic, false)
    else
      var posted := nic.(udRecv := nic.udRecv + used);
      if !pop then (posted, true) else if fault == UdWait(v) then (posted, false) else (WaitUd(posted), true)
  }

  /** The RC part of one slot, up to a failure. */
  function SettleRc(nic: Nic, v: nat, used: nat, pop: bool, fault: Fault): (r: (Nic, bool))
    requires Valid(nic) && v < HOST_LEN
    ensures Valid(r.0) && r.0.sent == nic.sent
  {
    if used == 0 then (nic, true)
    else if fault == RcRecv(v) then (nic, false)
    else
      var posted := nic.(rcRecv := nic.rcRecv[v := nic.rcRecv[v] + used]);
      if !pop then (posted, true) else if fault == RcWait(v) then (posted, false) else (WaitRc(posted, v), true)
  }

  /** One slot, up to the first failure. */
  function SettleWith(b: Batch, v: nat, pop: bool, fault: Fault): (r: (Batch, bool))
    requires ValidBatch(b) && v < HOST_LEN
    ensures ValidBatch(r.0) && r.0.ud == b.ud && r.0.rc == b.rc && r.0.nic.sent == b.nic.sent
  {
    var (nic1, ok1) := SettleUd(b.nic, v, b.ud[v], pop, fault);
    if !ok1 then (b.(nic := nic1), false)
    else
      var (nic2, ok2) := SettleRc(nic1, v, b.rc[v], pop, fault);
      (b.(nic := nic2), ok2)
  }

  /** The second loop for one slot, when nothing fails: repost what was used, then,
      if asked to, wait for one completion. */
  function Settle(b: Batch, v: nat, pop: bool): (b': Batch)
    requires ValidBatch(b) && v < HOST_LEN
    ensures ValidBatch(b') && b'.ud == b.ud && b'.rc == b.rc && b'.nic.sent == b.nic.sent
  {
    SettleWith(b, v, pop, NoFault).0
  }

  /** Slots 1 to n - 1, as the loop goes: slot 0 is never settled. */
  function SettleUpTo(b: Batch, n: nat, pop: bool): (b': Batch)
    requires ValidBatch(b) && 1 <= n <= HOST_LEN
    ensures ValidBatch(b') && b'.ud == b.ud && b'.rc == b.rc && b'.nic.sent == b.nic.sent
  {
    if n == 1 then b else Settle(SettleUpTo(b, n - 1, pop), n - 1, pop)
  }

  /** The settling loop over slots 1 to n - 1, which a failure ends. */
  function SettleTo(b: Batch, n: nat, pop: bool, fault: Fault): (r: (Batch, bool))
    requires ValidBatch(b) && 1 <= n <= HOST_LEN
    ensures ValidBatch(r.0) && r.0.ud == b.ud && r.0.rc == b.rc && r.0.nic.sent == b.nic.sent
  {
    if n == 1 then (b, true)
    else
      var (b1, ok) := SettleTo(b, n - 1, pop, fault);
      if !ok then (b1, false) else SettleWith(b1, n - 1, pop, fault)
  }

  /** A failure ends the loop. */
  lemma {:induction false} SettleToFails(b: Batch, m: nat, n: nat, pop: bool, fault: Fault)
    requires ValidBatch(b) && 1 <= m <= n <= HOST_LEN && !SettleTo(b, m, pop, fault).1
    ensures SettleTo(b, n, pop, fault) == SettleTo(b, m, pop, fault)
  {
    if m < n {
      SettleToFails(b, m, n - 1, pop, fault);
    }
  }

  lemma SettleOk(b: Batch, v: nat, pop: bool)
    requires ValidBatch(b) && v < HOST_LEN
    ensures SettleWith(b, v, pop, NoFault).1
  {
  }

  /** Without a failure every slot is settled. */
  lemma {:induction false} SettleToEnd(b: Batch, n: nat, pop: bool)
    requires ValidBatch(b) && 1 <= n <= HOST_LEN
    ensures SettleTo(b, n, pop, NoFault) == (SettleUpTo(b, n, pop), true)
  {
    hide SettleWith, ValidBatch;
    if n > 1 {
      SettleToEnd(b, n - 1, pop);
      SettleOk(SettleUpTo(b, n - 1, pop), n - 1, pop);
    }
  }

  /** A whole call whose posts all succeed. */
  function Push(nic: Nic, rs: seq<Request>, pop: bool): Nic
    requires Valid(nic)
  {
    SettleUpTo(SendSeq(Start(nic), rs), HOST_LEN, pop).nic
  }

  // ----------------------------------------------------------- what is promised

  /** The requests that use a transport and slot; the slot is the client id's
      remainder by 12. */
  ghost function Uses(rs: seq<Request>, rc: bool, slot: nat): nat {
    if rs == [] then 0 else Uses(rs[..|rs| - 1], rc, slot) + Hit(rs[|rs| - 1], rc, slot)
  }

  ghost function Hit(r: Request, rc: bool, slot: nat): nat {
    if r.rc == rc && r.vid % 12 == slot then 1 else 0
  }

  /** Exactly the first request of its transport and slot is signalled. */
  ghost predicate SentRightly(rs: seq<Request>, sent: seq<Sent>) {
    && |sent| == |rs|
    && forall i :: 0 <= i < |rs| ==>
         sent[i] == Sent(rs[i].rc, rs[i].vid % 12, Uses(rs[..i], rs[i].rc, rs[i].vid % 12) == 0)
  }

  /** The first use of a slot is the one before which nothing used it. */
  lemma {:induction false} UsesNone(rs: seq<Request>, rc: bool, slot: nat)
    ensures Uses(rs, rc, slot) == 0 <==> forall r <- rs :: !(r.rc == rc && SlotOf(r) == slot)
  {
    if rs != [] {
      var rest, last := rs[..|rs| - 1], rs[|rs| - 1];
      UsesNone(rest, rc, slot);
      assert rs == rest + [last];
    }
  }

  ghost function Sign(n: nat): nat {
    if n > 0 then 1 else 0
  }

  /** How many of the slots 0 to n - 1 the UD requests use. */
  ghost function UdSlots(rs: seq<Request>, n: nat): nat {
    if n == 0 then 0 else UdSlots(rs, n - 1) + Sign(Uses(rs, false, n - 1))
  }

  /** How many UD requests are for the slots 1 to n - 1. */
  ghost function UdFrom1(rs: seq<Request>, n: nat): nat {
    if n <= 1 then 0 else UdFrom1(rs, n - 1) + Uses(rs, false, n - 1)
  }

  /** How many requests go out on the UD queue pair. */
  ghost function UdCount(rs: seq<Request>): nat {
    if rs == [] then 0 else UdCount(rs[..|rs| - 1]) + if rs[|rs| - 1].rc then 0 else 1
  }

  lemma {:induction false} UdFrom1More(rs: seq<Request>, n: nat)
    requires rs != []
    ensures UdFrom1(rs, n) == UdFrom1(rs[..|rs| - 1], n)
            + if !rs[|rs| - 1].rc && 1 <= SlotOf(rs[|rs| - 1]) < n then 1 else 0
  {
    if n > 1 {
      UdFrom1More(rs, n - 1);
    }
  }

  lemma {:induction false} UdFrom1None(n: nat)
    ensures UdFrom1([], n) == 0
  {
    if n > 1 {
      UdFrom1None(n - 1);
    }
  }

  /** The slots partition the UD requests. */
  lemma {:induction false} UdPartition(rs: seq<Request>)
    ensures UdFrom1(rs, HOST_LEN) + Uses(rs, false, 0) == UdCount(rs)
  {
    if rs == [] {
      UdFrom1None(HOST_LEN);
    } else {
      UdPartition(rs[..|rs| - 1]);
      UdFrom1More(rs, HOST_LEN);
    }
  }

  lemma {:induction false} UdSlotsMore(rs: seq<Request>, r: Request, n: nat)
    ensures UdSlots(rs + [r], n)
            == UdSlots(rs, n) + if !r.rc && SlotOf(r) < n && Uses(rs, false, SlotOf(r)) == 0 then 1 else 0
  {
    if n > 0 {
      UdSlotsMore(rs, r, n - 1);
      assert (rs + [r])[..|rs|] == rs;
    }
  }

  lemma {:induction false} UdSlotsNone(n: nat)
    ensures UdSlots([], n) == 0
  {
    if n > 0 {
      UdSlotsNone(n - 1);
    }
  }

  /** After the sends: the counts, and one completion per used slot. */
  ghost predicate Counted(b: Batch, nic: Nic, rs: seq<Request>)
    requires ValidBatch(b) && Valid(nic)
  {
    && (forall v :: 0 <= v < HOST_LEN ==> b.ud[v] == Uses(rs, false, v) && b.rc[v] == Uses(rs, true, v))
    && b.nic.udOut == nic.udOut + UdSlots(rs, HOST_LEN)
    && (forall v :: 0 <= v < HOST_LEN ==> b.nic.rcOut[v] == nic.rcOut[v] + Sign(Uses(rs, true, v)))
    && b.nic.udRecv == nic.udRecv && b.nic.rcRecv == nic.rcRecv && b.nic.blocked == nic.blocked
  }

  lemma CountedMore(b: Batch, nic: Nic, rs: seq<Request>, r: Request)
    requires ValidBatch(b) && Valid(nic) && Counted(b, nic, rs)
    ensures Counted(SendOne(b, r), nic, rs + [r])
  {
    UdSlotsMore(rs, r, HOST_LEN);
    assert (rs + [r])[..|rs|] == rs;
    assert forall rc, v :: Uses(rs + [r], rc, v) == Uses(rs, rc, v) + Hit(r, rc, v);
  }

  lemma {:induction false} SendSeqCounted(nic: Nic, rs: seq<Request>)
    requires Valid(nic)
    ensures Counted(SendSeq(Start(nic), rs), nic, rs)
  {
    if rs == [] {
      UdSlotsNone(HOST_LEN);
    } else {
      var rest, last := rs[..|rs| - 1], rs[|rs| - 1];
      SendSeqCounted(nic, rest);
      hide Counted, SendOne;
      CountedMore(SendSeq(Start(nic), rest), nic, rest, last);
      assert rs == rest + [last];
    }
  }

  /** The flag of a send, read off the counts. */
  lemma FlagOf(b: Batch, nic: Nic, rs: seq<Request>, r: Request)
    requires ValidBatch(b) && Valid(nic) && Counted(b, nic, rs)
    ensures SendOne(b, r).nic.sent == b.nic.sent + [Sent(r.rc, SlotOf(r), Uses(rs, r.rc, SlotOf(r)) == 0)]
  {
  }

  lemma RightlyMore(rs: seq<Request>, r: Request, sent: seq<Sent>)
    requires SentRightly(rs, sent)
    ensures SentRightly(rs + [r], sent + [Sent(r.rc, SlotOf(r), Uses(rs, r.rc, SlotOf(r)) == 0)])
  {
    hide Uses;
    assert forall i :: 0 <= i <= |rs| ==> (rs + [r])[..i] == rs[..i];
    assert rs[..|rs|] == rs;
  }

  lemma {:induction false} SendSeqRightly(nic: Nic, rs: seq<Request>)
    requires Valid(nic)
    ensures var sent := SendSeq(Start(nic), rs).nic.sent;
      nic.sent <= sent && SentRightly(rs, sent[|nic.sent|..])
  {
    if rs != [] {
      var rest, last := rs[..|rs| - 1], rs[|rs| - 1];
      SendSeqRightly(nic, rest);
      SendSeqCounted(nic, rest);
      hide SendOne, Counted, Uses, Valid, Start, SlotOf;
      var b0 := SendSeq(Start(nic), rest);
      FlagOf(b0, nic, rest, last);
      RightlyMore(rest, last, b0.nic.sent[|nic.sent|..]);
      var sent := SendOne(b0, last).nic.sent;
      assert sent[|nic.sent|..] == b0.nic.sent[|nic.sent|..] + [sent[|sent| - 1]];
      assert rs == rest + [last];
    }
  }

  // ------------------------------------------------------- the settling loop

  lemma {:induction false} UdSlotsGrow(rs: seq<Request>, m: nat, n: nat)
    requires m <= n
    ensures UdSlots(rs, m) <= UdSlots(rs, n)
  {
    if m < n {
      UdSlotsGrow(rs, m, n - 1);
    }
  }

  /** The UD queue pair when slots 1 to n - 1 are settled. */
  ghost predicate UdSettled(out: nat, recv: nat, nic: Nic, rs: seq<Request>, n: nat, pop: bool)
    requires n >= 1
  {
    && recv == nic.udRecv + UdFrom1(rs, n)
    && out + (if pop then UdSlots(rs, n) - UdSlots(rs, 1) else 0) == nic.udOut + UdSlots(rs, HOST_LEN)
  }

  /** The RC queue pairs when slots 1 to n - 1 are settled. */
  ghost predicate RcSettled(out: seq<nat>, recv: seq<nat>, nic: Nic, rs: seq<Request>, n: nat, pop: bool)
    requires |out| == HOST_LEN && |recv| == HOST_LEN && Valid(nic)
  {
    forall v :: 0 <= v < HOST_LEN ==>
      && recv[v] == nic.rcRecv[v] + (if 1 <= v < n then Uses(rs, true, v) else 0)
      && out[v] == nic.rcOut[v] + (if pop && 1 <= v < n then 0 else Sign(Uses(rs, true, v)))
  }

  ghost predicate Settled(b: Batch, nic: Nic, rs: seq<Request>, n: nat, pop: bool)
    requires ValidBatch(b) && Valid(nic) && n >= 1
  {
    && (forall v :: 0 <= v < HOST_LEN ==> b.ud[v] == Uses(rs, false, v) && b.rc[v] == Uses(rs, true, v))
    && b.nic.blocked == nic.blocked
    && UdSettled(b.nic.udOut, b.nic.udRecv, nic, rs, n, pop)
    && RcSettled(b.nic.rcOut, b.nic.rcRecv, nic, rs, n, pop)
  }

  /** A completion is there for every slot still to be waited for. */
  lemma UdWaitable(out: nat, recv: nat, nic: Nic, rs: seq<Request>, n: nat, pop: bool)
    requires 1 <= n < HOST_LEN && UdSettled(out, recv, nic, rs, n, pop)
    ensures pop ==> Sign(Uses(rs, false, n)) <= out
    ensures var less := if pop then Sign(Uses(rs, false, n)) else 0;
      UdSettled(out - less, recv + Uses(rs, false, n), nic, rs, n + 1, pop)
  {
    UdSlotsGrow(rs, 1, n);
    UdSlotsGrow(rs, n + 1, HOST_LEN);
  }

  /** What settling one slot changes, if its completions are there. */
  lemma SettleFields(b: Batch, v: nat, pop: bool)
    requires ValidBatch(b) && v < HOST_LEN
    requires pop ==> Sign(b.ud[v]) <= b.nic.udOut && Sign(b.rc[v]) <= b.nic.rcOut[v]
    ensures var t := Settle(b, v, pop).nic;
      && t.blocked == b.nic.blocked
      && t.udRecv == b.nic.udRecv + b.ud[v]
      && t.udOut == b.nic.udOut - (if pop then Sign(b.ud[v]) else 0)
      && t.rcRecv == b.nic.rcRecv[v := b.nic.rcRecv[v] + b.rc[v]]
      && t.rcOut == b.nic.rcOut[v := b.nic.rcOut[v] - if pop then Sign(b.rc[v]) else 0]
  {
  }

  lemma SettledMore(b: Batch, nic: Nic, rs: seq<Request>, n: nat, pop: bool)
    requires ValidBatch(b) && Valid(nic) && 1 <= n < HOST_LEN && Settled(b, nic, rs, n, pop)
    ensures Settled(Settle(b, n, pop), nic, rs, n + 1, pop)
  {
    UdWaitable(b.nic.udOut, b.nic.udRecv, nic, rs, n, pop);
    hide Settle, UdSettled, Uses;
    SettleFields(b, n, pop);
  }

  lemma {:induction false} SettledUpTo(b: Batch, nic: Nic, rs: seq<Request>, n: nat, pop: bool)
    requires ValidBatch(b) && Valid(nic) && 1 <= n <= HOST_LEN && Settled(b, nic, rs, 1, pop)
    ensures Settled(SettleUpTo(b, n, pop), nic, rs, n, pop)
  {
    hide Settle, Settled;
    if n > 1 {
      SettledUpTo(b, nic, rs, n - 1, pop);
      SettledMore(SettleUpTo(b, n - 1, pop), nic, rs, n - 1, pop);
    }
  }

  /** A whole call ends with every slot from 1 on settled. */
  lemma PushSettles(nic: Nic, rs: seq<Request>, pop: bool)
    requires Valid(nic)
    ensures var b := SettleUpTo(SendSeq(Start(nic), rs), HOST_LEN, pop);
      Push(nic, rs, pop) == b.nic && Settled(b, nic, rs, HOST_LEN, pop)
  {
    SendSeqCounted(nic, rs);
    var b := SendSeq(Start(nic), rs);
    hide SendSeq, Start, SettleUpTo, Uses, Sign;
    CountedSettles(b, nic, rs, pop);
    hide Settled, Counted;
    SettledUpTo(b, nic, rs, HOST_LEN, pop);
  }

  lemma CountedSettles(b: Batch, nic: Nic, rs: seq<Request>, pop: bool)
    requires ValidBatch(b) && Valid(nic) && Counted(b, nic, rs)
    ensures Settled(b, nic, rs, 1, pop)
  {
    hide Uses, Sign, UdSlots;
    assert UdFrom1(rs, 1) == 0;
  }

  /** What a whole call leaves behind on the UD queue pair: as many receives as it
      sent requests, slot 0 apart, and with pop-at-once a completion exactly for
      slot 0; no wait was in vain. */
  lemma PushUd(nic: Nic, rs: seq<Request>, pop: bool)
    requires Valid(nic)
    ensures var t := Push(nic, rs, pop);
      && t.blocked == nic.blocked
      && t.udRecv + Uses(rs, false, 0) == nic.udRecv + UdCount(rs)
      && t.udOut == nic.udOut + (if pop then Sign(Uses(rs, false, 0)) else UdSlots(rs, HOST_LEN))
  {
    assert UdSlots(rs, 1) == Sign(Uses(rs, false, 0));
    UdPartition(rs);
    PushSettles(nic, rs, pop);
    hide SendSeq, Start, SettleUpTo, Push, Uses, UdSlots, UdCount, UdFrom1, RcSettled;
  }

  /** And on the RC queue pair of each slot. */
  lemma PushRc(nic: Nic, rs: seq<Request>, pop: bool, v: nat)
    requires Valid(nic) && v < HOST_LEN
    ensures var t := Push(nic, rs, pop);
      && Valid(t)
      && t.rcRecv[v] == nic.rcRecv[v] + (if v == 0 then 0 else Uses(rs, true, v))
      && t.rcOut[v] == nic.rcOut[v] + if pop && v > 0 then 0 else Sign(Uses(rs, true, v))
  {
    PushSettles(nic, rs, pop);
    hide SendSeq, Start, SettleUpTo, Push, Uses, UdSettled, Sign;
  }

  /** What a whole call leaves behind: it never waits in vain, reposts as many
      receives as requests went out on each queue pair, slot 0 apart, and with
      pop-at-once keeps one completion per transport exactly for slot 0. */
  lemma PushEffect(nic: Nic, rs: seq<Request>, pop: bool)
    requires Valid(nic)
    ensures var t := Push(nic, rs, pop);
      && Valid(t) && t.blocked == nic.blocked
      && t.udRecv + Uses(rs, false, 0) == nic.udRecv + UdCount(rs)
      && (forall v :: 0 <= v < HOST_LEN ==> t.rcRecv[v] == nic.rcRecv[v] + if v == 0 then 0 else Uses(rs, true, v))
      && t.udOut == nic.udOut + (if pop then Sign(Uses(rs, false, 0)) else UdSlots(rs, HOST_LEN))
      && forall v :: 0 <= v < HOST_LEN ==>
           t.rcOut[v] == nic.rcOut[v] + if pop && v > 0 then 0 else Sign(Uses(rs, true, v))
  {
    hide Push, Uses, UdSlots, UdCount, Sign;
    PushUd(nic, rs, pop);
    forall v: nat | v < HOST_LEN
      ensures var t := Push(nic, rs, pop);
        && Valid(t) && t.rcRecv[v] == nic.rcRecv[v] + (if v == 0 then 0 else Uses(rs, true, v))
        && t.rcOut[v] == nic.rcOut[v] + if pop && v > 0 then 0 else Sign(Uses(rs, true, v))
    {
      PushRc(nic, rs, pop, v);
    }
    PushRc(nic, rs, pop, 0);
  }

  /** Selective signalling: a call hands over its requests in order, and of those
      of a transport and slot exactly the first one asks for a completion. */
  lemma SignalledOnce(nic: Nic, rs: seq<Request>, pop: bool)
    requires Valid(nic)
    ensures var sent := Push(nic, rs, pop).sent;
      nic.sent <= sent && SentRightly(rs, sent[|nic.sent|..])
  {
    hide SentRightly;
    SendSeqRightly(nic, rs);
  }

  /** No client id of the batch is divisible by 12. */
  ghost predicate AvoidsZero(rs: seq<Request>) {
    forall r <- rs :: r.vid % 12 != 0
  }

  /** Outstanding completions of t have not fallen behind those of s, and they
      are the same exactly if `same`. */
  ghost predicate Grown(s: Nic, t: Nic, same: bool)
    requires Valid(s) && Valid(t)
  {
    && t.blocked == s.blocked
    && s.udOut <= t.udOut
    && s.rcOut[0] <= t.rcOut[0]
    && (forall v :: 0 < v < HOST_LEN ==> t.rcOut[v] == s.rcOut[v])
    && (t.udOut == s.udOut && t.rcOut[0] == s.rcOut[0] <==> same)
  }

  lemma PushGrows(nic: Nic, rs: seq<Request>)
    requires Valid(nic)
    ensures Valid(Push(nic, rs, true)) && Grown(nic, Push(nic, rs, true), AvoidsZero(rs))
  {
    PushEffect(nic, rs, true);
    UsesNone(rs, false, 0);
    UsesNone(rs, true, 0);
    hide Push, UdCount, Uses;
  }

  /** With pop-at-once, outstanding completions return to where they were
      exactly if no client id of the batch is divisible by 12. */
  lemma BalancedExactly(nic: Nic, rs: seq<Request>)
    requires Valid(nic)
    ensures var t := Push(nic, rs, true);
      t.udOut == nic.udOut && t.rcOut == nic.rcOut <==> AvoidsZero(rs)
  {
    PushGrows(nic, rs);
    hide Push, AvoidsZero;
    var t := Push(nic, rs, true);
    assert t.rcOut[0] == nic.rcOut[0] ==> t.rcOut == nic.rcOut;
  }

  /** The slot nobody settles: one request of client 12 leaves a completion behind. */
  lemma ZeroSlotLeaks(nic: Nic)
    requires Valid(nic)
    ensures Push(nic, [Request(12, false)], true).udOut == nic.udOut + 1
  {
    var rs := [Request(12, false)];
    PushEffect(nic, rs, true);
    assert Uses(rs, false, 0) == 1 by {
      assert rs[..0] == [];
    }
  }

  function PushMany(nic: Nic, batches: seq<seq<Request>>): (t: Nic)
    requires Valid(nic)
    ensures Valid(t)
    decreases |batches|
  {
    if batches == [] then nic
    else
      PushGrows(nic, batches[0]);
      PushMany(Push(nic, batches[0], true), batches[1..])
  }

  lemma {:induction false} ManyGrow(nic: Nic, batches: seq<seq<Request>>)
    requires Valid(nic)
    ensures Grown(nic, PushMany(nic, batches), forall rs <- batches :: AvoidsZero(rs))
    decreases |batches|
  {
    if batches != [] {
      PushGrows(nic, batches[0]);
      hide Push, AvoidsZero;
      ManyGrow(Push(nic, batches[0], true), batches[1..]);
      assert batches == [batches[0]] + batches[1..];
    }
  }

  /** Over any number of batches no wait blocks, and completions do not
      accumulate exactly if no client id is divisible by 12. */
  lemma NothingAccumulatesExactly(nic: Nic, batches: seq<seq<Request>>)
    requires Valid(nic)
    ensures var t := PushMany(nic, batches);
      && t.blocked == nic.blocked
      && (t.udOut == nic.udOut && t.rcOut == nic.rcOut <==> forall rs <- batches :: AvoidsZero(rs))
  {
    ManyGrow(nic, batches);
    hide PushMany, AvoidsZero;
    var t := PushMany(nic, batches);
    assert t.rcOut[0] == nic.rcOut[0] ==> t.rcOut == nic.rcOut;
  }

  // ------------------------------------------------------------- the object

  class Server {
    var nic: Nic

    /** `bind_server_push_impl`; post number `budget` fails, if there is one, and
        `fault` says what fails while settling. */
    method BindServerPush(rs: seq<Request>, pop: bool, budget: nat, fault: Fault) returns (ok: bool)
      requires Valid(nic)
      modifies this
      ensures Valid(nic)
      ensures |rs| > budget ==> !ok && nic == SendSeq(Start(old(nic)), rs[..budget]).nic
      ensures |rs| <= budget ==>
        var (b, settled) := SettleTo(SendSeq(Start(old(nic)), rs), HOST_LEN, pop, fault);
        nic == b.nic && ok == settled
      ensures |rs| <= budget && fault.NoFault? ==> ok && nic == Push(old(nic), rs, pop)
    {
      hide SendOne, SettleWith, Settle;
      var rcCnt := new nat[HOST_LEN](_ => 0);
      var udCnt := new nat[HOST_LEN](_ => 0);
      ghost var start := Start(nic);
      assert Batch(nic, udCnt[..], rcCnt[..]) == start;
      assert rs[..0] == [];
      for i := 0 to |rs|
        invariant i <= budget && ValidBatch(start)
        invariant Batch(nic, udCnt[..], rcCnt[..]) == SendSeq(start, rs[..i])
      {
        if i == budget {
          return false;
        }
        assert rs[..i + 1][..i] == rs[..i];
        PostOne(rs[i], udCnt, rcCnt);
      }
      assert rs[..|rs|] == rs;
      ghost var sent := SendSeq(start, rs);
      SettleToEnd(sent, HOST_LEN, pop);
      for vid := 1 to HOST_LEN
        invariant udCnt[..] == sent.ud && rcCnt[..] == sent.rc
        invariant (Batch(nic, udCnt[..], rcCnt[..]), true) == SettleTo(sent, vid, pop, fault)
      {
        ok := SettleOne(vid, udCnt, rcCnt, pop, fault);
        if !ok {
          SettleToFails(sent, vid + 1, HOST_LEN, pop, fault);
          return;
        }
      }
      return true;
    }

    method PostOne(r: Request, udCnt: array<nat>, rcCnt: array<nat>)
      requires udCnt.Length == HOST_LEN && rcCnt.Length == HOST_LEN && udCnt != rcCnt
      requires ValidBatch(Batch(nic, udCnt[..], rcCnt[..]))
      modifies this, udCnt, rcCnt
      ensures Batch(nic, udCnt[..], rcCnt[..]) == SendOne(old(Batch(nic, udCnt[..], rcCnt[..])), r)
    {
      var vid := r.vid % HOST_LEN;
      if !r.rc {
        var signaled := udCnt[vid] == 0;
        udCnt[vid] := udCnt[vid] + 1;
        nic := nic.(sent := nic.sent + [Sent(false, vid, signaled)], udOut := nic.udOut + if signaled then 1 else 0);
      } else {
        var signaled := rcCnt[vid] == 0;
        rcCnt[vid] := rcCnt[vid] + 1;
        nic := nic.(sent := nic.sent + [Sent(true, vid, signaled)],
                    rcOut := nic.rcOut[vid := nic.rcOut[vid] + if signaled then 1 else 0]);
      }
    }

    method SettleUdOne(vid: nat, used: nat, pop: bool, fault: Fault) returns (ok: bool)
      modifies this
      ensures (nic, ok) == SettleUd(old(nic), vid, used, pop, fault)
    {
      if used > 0 {
        if fault == UdRecv(vid) {
          return false;
        }
        nic := nic.(udRecv := nic.udRecv + used);
        if pop {
          if fault == UdWait(vid) {
            return false;
          }
          nic := WaitUd(nic);
        }
      }
      return true;
    }

    method SettleRcOne(vid: nat, used: nat, pop: bool, fault: Fault) returns (ok: bool)
      requires Valid(nic) && vid < HOST_LEN
      modifies this
      ensures (nic, ok) == SettleRc(old(nic), vid, used, pop, fault)
    {
      if used > 0 {
        if fault == RcRecv(vid) {
          return false;
        }
        nic := nic.(rcRecv := nic.rcRecv[vid := nic.rcRecv[vid] + used]);
        if pop {
          if fault == RcWait(vid) {
            return false;
          }
          nic := WaitRc(nic, vid);
        }
      }
      return true;
    }

    method SettleOne(vid: nat, udCnt: array<nat>, rcCnt: array<nat>, pop: bool, fault: Fault) returns (ok: bool)
      requires udCnt.Length == HOST_LEN && rcCnt.Length == HOST_LEN && vid < HOST_LEN
      requires ValidBatch(Batch(nic, udCnt[..], rcCnt[..]))
      modifies this
      ensures (Batch(nic, udCnt[..], rcCnt[..]), ok)
              == SettleWith(old(Batch(nic, udCnt[..], rcCnt[..])), vid, pop, fault)
    {
      assert Valid(SettleUd(nic, vid, udCnt[vid], pop, fault).0);
      hide SettleUd, SettleRc;
      ok := SettleUdOne(vid, udCnt[vid], pop, fault);
      if ok {
        ok := SettleRcOne(vid, rcCnt[vid], pop, fault);
      }
    }

    constructor (nic: Nic)
      ensures this.nic == nic
    {
      this.nic := nic;
    }
  }
}
