/** Work requests as the NIC sees them, and the one-by-one posting path that
    doorbell batching must agree with. */
module DoorbellModel {
  import opened Collections

  const TWO32: nat := 0x1_0000_0000
  const TWO64: nat := 0x1_0000_0000_0000_0000

  type U32 = x: nat | x < TWO32
  type U64 = x: nat | x < TWO64

  datatype Opcode = RdmaWrite | RdmaRead | CompareSwap | FetchAdd

  /** The union at the end of a work request, as four little-endian words.  The
      RDMA view is the address in word 0 and the key in the low half of word 1;
      the atomic view is the address, the two operands and the key in the low
      half of word 3. */
  datatype Union = Union(w0: U64, w1: U64, w2: U64, w3: U64)

  datatype Sge = Sge(addr: U64, length: U32, lkey: U32)

  /** `next` and `sge` point into the helper's two arrays. */
  datatype Wr = Wr(id: U64, next: Option<nat>, sge: nat, numSge: nat, opcode: Opcode, flags: nat, u: Union)

  const ZERO_SGE := Sge(0, 0, 0)
  const ZERO_WR := Wr(0, None, 0, 0, RdmaWrite, 0, Union(0, 0, 0, 0))

  const SIGNALED: nat := 2

  function LowHalf(w: U64): U32 {
    w % TWO32
  }

  /** A 32-bit store into the low half of a word; the high half is stale. */
  function SetLowHalf(w: U64, v: U32): (r: U64)
    ensures LowHalf(r) == v
  {
    (w / TWO32) * TWO32 + v
  }

  function SetRdma(u: Union, raddr: U64, rkey: U32): Union {
    u.(w0 := raddr, w1 := SetLowHalf(u.w1, rkey))
  }

  function SetAtomic(u: Union, raddr: U64, compareAdd: U64, swap: U64, rkey: U32): Union {
    u.(w0 := raddr, w1 := compareAdd, w2 := swap, w3 := SetLowHalf(u.w3, rkey))
  }

  datatype Args = Rdma(raddr: U64, rkey: U32) | Atomic(raddr: U64, compareAdd: U64, swap: U64, rkey: U32)

  /** What the NIC executes. */
  datatype Posted = Posted(id: U64, opcode: Opcode, flags: nat, addr: U64, length: U32, lkey: U32, args: Args)

  /** The NIC picks the view of the union by the opcode. */
  function Decode(wr: Wr, sge: Sge): Posted {
    var args :=
      if wr.opcode.RdmaWrite? || wr.opcode.RdmaRead? then Rdma(wr.u.w0, LowHalf(wr.u.w1))
      else Atomic(wr.u.w0, wr.u.w1, wr.u.w2, LowHalf(wr.u.w3));
    Posted(wr.id, wr.opcode, wr.flags, sge.addr, sge.length, sge.lkey, args)
  }

  function Decoded(ws: seq<Wr>, ss: seq<Sge>): seq<Posted>
    requires |ws| == |ss|
  {
    seq(|ws|, i requires 0 <= i < |ws| => Decode(ws[i], ss[i]))
  }

  datatype Mr = Mr(addr: U64, lkey: U32)

  /** The four operations with the arguments of their calls. */
  datatype Request =
    | Write(mr: Mr, start: U64, end: U64, signaled: bool, raddr: U64, rkey: U32, wrId: U64)
    | Read(mr: Mr, start: U64, end: U64, signaled: bool, raddr: U64, rkey: U32, wrId: U64)
    | Cas(mr: Mr, offset: U64, signaled: bool, raddr: U64, rkey: U32, wrId: U64, old_: U64, new_: U64)
    | Faa(mr: Mr, offset: U64, signaled: bool, raddr: U64, rkey: U32, wrId: U64, val: U64)

  function AddrOf(mr: Mr, offset: U64): U64 {
    (mr.addr + offset) % TWO64
  }

  /** `range.size() as u32`. */
  function SizeOf(start: U64, end: U64): U32 {
    (if start <= end then end - start else 0) % TWO32
  }

  function FlagsOf(signaled: bool): nat {
    if signaled then SIGNALED else 0
  }

  /** `post_send_inner`: a fresh zeroed request with its own scatter entry. */
  function SendInner(op: Opcode, laddr: U64, raddr: U64, lkey: U32, rkey: U32, size: U32, flags: nat, wrId: U64)
    : Posted
  {
    var wr := ZERO_WR.(id := wrId, opcode := op, flags := flags, numSge := 1, u := SetRdma(ZERO_WR.u, raddr, rkey));
    Decode(wr, Sge(laddr, size, lkey))
  }

  /** `post_send_atomic_inner`. */
  function AtomicInner(op: Opcode, laddr: U64, raddr: U64, lkey: U32, rkey: U32, flags: nat, wrId: U64,
                       compareAdd: U64, swap: U64): Posted
  {
    var wr := ZERO_WR.(id := wrId, opcode := op, flags := flags, numSge := 1,
                      u := SetAtomic(ZERO_WR.u, raddr, compareAdd, swap, rkey));
    Decode(wr, Sge(laddr, 8, lkey))
  }

  /** What posting the request on its own hands to the NIC. */
  function Single(r: Request): Posted {
    match r
    case Write(mr, start, end, signaled, raddr, rkey, wrId) =>
      SendInner(RdmaWrite, AddrOf(mr, start), raddr, mr.lkey, rkey, SizeOf(start, end), FlagsOf(signaled), wrId)
    case Read(mr, start, end, signaled, raddr, rkey, wrId) =>
      SendInner(RdmaRead, AddrOf(mr, start), raddr, mr.lkey, rkey, SizeOf(start, end), FlagsOf(signaled), wrId)
    case Cas(mr, offset, signaled, raddr, rkey, wrId, o, n) =>
      AtomicInner(CompareSwap, AddrOf(mr, offset), raddr, mr.lkey, rkey, FlagsOf(signaled), wrId, o, n)
    case Faa(mr, offset, signaled, raddr, rkey, wrId, val) =>
      AtomicInner(FetchAdd, AddrOf(mr, offset), raddr, mr.lkey, rkey, FlagsOf(signaled), wrId, val, 0)
  }

  /** Single-posting a list of requests. */
  function Singles(rs: seq<Request>): seq<Posted> {
    seq(|rs|, i requires 0 <= i < |rs| => Single(rs[i]))
  }

  // ------------------------------------------------------ batching, abstractly

  datatype Op = Post(r: Request) | Flush

  /** The batches that a run of posts and flushes hands over: each is the first
      `cap` requests since the previous flush; a flush of nothing is a panic and
      ends the run. */
  function Batches(ops: seq<Op>, since: seq<Request>, cap: nat): seq<seq<Posted>> {
    if ops == [] then []
    else
      match ops[0]
      case Post(r) => Batches(ops[1..], since + [r], cap)
      case Flush =>
        if Kept(since, cap) == [] then []
        else [Singles(Kept(since, cap))] + Batches(ops[1..], [], cap)
  }

  function Kept(since: seq<Request>, cap: nat): seq<Request> {
    if |since| <= cap then since else since[..cap]
  }

  /** One more request joins the batch exactly while there is room. */
  lemma KeptMore(since: seq<Request>, r: Request, cap: nat)
    ensures Singles(Kept(since + [r], cap))
            == if |since| < cap then Singles(Kept(since, cap)) + [Single(r)] else Singles(Kept(since, cap))
  {
    if |since| >= cap {
      assert (since + [r])[..cap] == since[..cap];
      assert since[..|since|] == since;
    }
  }
}
