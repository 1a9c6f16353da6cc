/** The doorbell helper: an array-backed ring of work requests that is cut,
    posted and closed again, proved to hand over what single posts would have. */
module Doorbell {
  import opened Collections
  import opened DoorbellModel
  import opened DoorbellNic

  class DoorbellHelper {
    const capacity: nat
    const wrs: array<Wr>
    const sges: array<Sge>
    var curIdx: int

    ghost function Succ(i: nat): nat {
      if i + 1 == capacity then 0 else i + 1
    }

    ghost predicate Shaped()
      reads this, wrs
    {
      && wrs.Length == sges.Length == capacity
      && -1 <= curIdx < capacity
      && forall i :: 0 <= i < capacity ==> wrs[i].sge == i && wrs[i].numSge == 1
    }

    /** Between flushes the requests form a closed ring. */
    ghost predicate Valid()
      reads this, wrs
    {
      Shaped() && forall i :: 0 <= i < capacity ==> wrs[i].next == Some(Succ(i))
    }

    /** During a flush the ring is cut behind the current entry. */
    ghost predicate Frozen()
      reads this, wrs
    {
      && Shaped() && curIdx >= 0
      && forall i :: 0 <= i < capacity ==> wrs[i].next == if i == curIdx then None else Some(Succ(i))
    }

    /** The batch so far, as the NIC would decode it. */
    ghost function Pending(): seq<Posted>
      requires Shaped()
      reads this, wrs, sges
    {
      Decoded(wrs[..curIdx + 1], sges[..curIdx + 1])
    }

    constructor (capacity: nat)
      ensures this.capacity == capacity && Valid() && Pending() == []
      ensures fresh(wrs) && fresh(sges)
    {
      this.capacity := capacity;
      curIdx := -1;
      wrs := new Wr[capacity](_ => ZERO_WR);
      sges := new Sge[capacity](_ => ZERO_SGE);
      new;
      Init();
    }

    method Init()
      requires wrs.Length == sges.Length == capacity && curIdx == -1
      modifies wrs
      ensures Valid()
    {
      for i := 0 to capacity
        invariant forall j :: 0 <= j < i ==> wrs[j].sge == j && wrs[j].numSge == 1 && wrs[j].next == Some(Succ(j))
      {
        var succ := (i + 1) % capacity;
        wrs[i] := wrs[i].(numSge := 1, next := Some(succ), sge := i);
      }
    }

    /** Claims the next entry; false if the batch is full. */
    method Next() returns (ok: bool)
      requires Shaped()
      modifies this`curIdx
      ensures Shaped()
      ensures ok <==> old(curIdx) + 1 < capacity
      ensures curIdx == old(curIdx) + if ok then 1 else 0
    {
      if curIdx + 1 >= capacity {
        return false;
      }
      curIdx := curIdx + 1;
      return true;
    }

    /** Fills the entry just claimed. */
    method Fill(sge: Sge, wrId: U64, opcode: Opcode, flags: nat, u: Union)
      requires Valid() && curIdx >= 0
      modifies wrs, sges
      ensures Valid()
      ensures forall i :: 0 <= i < curIdx ==> wrs[i] == old(wrs[i]) && sges[i] == old(sges[i])
      ensures sges[curIdx] == sge
      ensures wrs[curIdx].id == wrId && wrs[curIdx].opcode == opcode && wrs[curIdx].flags == flags && wrs[curIdx].u == u
    {
      sges[curIdx] := sge;
      wrs[curIdx] := wrs[curIdx].(id := wrId);
      wrs[curIdx] := wrs[curIdx].(opcode := opcode);
      wrs[curIdx] := wrs[curIdx].(flags := flags);
      wrs[curIdx] := wrs[curIdx].(u := u);
    }

    /** The four posts: a full batch drops the request and reports its size; one
        that joins the batch has the NIC do what the request asks for. */
    method PostSend(r: Request) returns (size: nat)
      requires Valid()
      modifies this`curIdx, wrs, sges
      ensures Valid()
      ensures Pending() == if old(|Pending()|) < capacity then old(Pending()) + [Single(r)] else old(Pending())
      ensures size == |Pending()|
      ensures old(|Pending()|) < capacity && Fits(r) ==>
        forall nic :: Performed(r, nic, Execute(Pending()[old(|Pending()|)], nic))
    {
      hide Performed, Execute, Single, Valid, Decoded;
      if Fits(r) {
        forall nic ensures Performed(r, nic, Execute(Single(r), nic)) {
          SingleMeans(r, nic);
        }
      }
      size := Enter(r);
    }

    method Enter(r: Request) returns (size: nat)
      requires Valid()
      modifies this`curIdx, wrs, sges
      ensures Valid()
      ensures Pending() == if old(|Pending()|) < capacity then old(Pending()) + [Single(r)] else old(Pending())
      ensures size == |Pending()|
    {
      var ok := Next();
      if ok {
        var stale := wrs[curIdx].u;
        match r
        case Write(mr, start, end, signaled, raddr, rkey, wrId) =>
          Fill(Sge(AddrOf(mr, start), SizeOf(start, end), mr.lkey), wrId, RdmaWrite, FlagsOf(signaled),
               SetRdma(stale, raddr, rkey));
        case Read(mr, start, end, signaled, raddr, rkey, wrId) =>
          Fill(Sge(AddrOf(mr, start), SizeOf(start, end), mr.lkey), wrId, RdmaRead, FlagsOf(signaled),
               SetRdma(stale, raddr, rkey));
        case Cas(mr, offset, signaled, raddr, rkey, wrId, o, n) =>
          Fill(Sge(AddrOf(mr, offset), 8, mr.lkey), wrId, CompareSwap, FlagsOf(signaled),
               SetAtomic(stale, raddr, o, n, rkey));
        case Faa(mr, offset, signaled, raddr, rkey, wrId, val) =>
          Fill(Sge(AddrOf(mr, offset), 8, mr.lkey), wrId, FetchAdd, FlagsOf(signaled),
               SetAtomic(stale, raddr, val, 0, rkey));
      }
      size := curIdx + 1;
    }

    method Freeze()
      requires Valid() && curIdx >= 0
      modifies wrs
      ensures Frozen() && Pending() == old(Pending())
    {
      wrs[curIdx] := wrs[curIdx].(next := None);
    }

    method FreezeDone()
      requires Frozen()
      modifies wrs
      ensures Valid() && Pending() == old(Pending())
    {
      var succ := if curIdx == capacity - 1 then 0 else curIdx + 1;
      wrs[curIdx] := wrs[curIdx].(next := Some(succ));
    }

    /** The NIC follows `next` from the first request to the null pointer. */
    method Walk() returns (chain: seq<Posted>)
      requires Frozen()
      ensures chain == Pending()
    {
      chain := [];
      var at: Option<nat> := Some(0);
      while at.Some?
        invariant |chain| <= curIdx + 1 && chain == Pending()[..|chain|]
        invariant at == if |chain| == curIdx + 1 then None else Some(|chain|)
        decreases capacity - |chain|
      {
        var wr := wrs[at.value];
        chain := chain + [Decode(wr, sges[wr.sge])];
        at := wr.next;
      }
    }

    /** `flush_doorbell`: cut, post, close, empty; `chain` is what was posted. */
    method FlushDoorbell() returns (chain: seq<Posted>)
      requires Valid() && curIdx >= 0
      modifies this`curIdx, wrs
      ensures Valid() && Pending() == []
      ensures chain == old(Pending())
    {
      Freeze();
      chain := Walk();
      FreezeDone();
      curIdx := -1;
    }

    /** Any run of posts and flushes on a fresh helper hands over, flush by
        flush, what single posts of the first `capacity` requests would have,
        whatever earlier batches left in the entries. */
    method Replay(ops: seq<Op>) returns (batches: seq<seq<Posted>>)
      requires Valid() && Pending() == []
      modifies this`curIdx, wrs, sges
      ensures batches == Batches(ops, [], capacity)
    {
      hide Single, Decode;
      batches := [];
      ghost var since: seq<Request> := [];
      var i := 0;
      while i < |ops|
        invariant 0 <= i <= |ops|
        invariant Valid() && Pending() == Singles(Kept(since, capacity))
        invariant batches + Batches(ops[i..], since, capacity) == Batches(ops, [], capacity)
      {
        assert ops[i..][1..] == ops[i + 1..];
        if ops[i].Post? {
          KeptMore(since, ops[i].r, capacity);
          var _ := PostSend(ops[i].r);
          since := since + [ops[i].r];
        } else {
          if curIdx < 0 {
            return;
          }
          var chain := FlushDoorbell();
          batches := batches + [chain];
          since := [];
        }
        i := i + 1;
      }
    }
  }
}
