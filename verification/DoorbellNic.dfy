/** What the NIC does with what it is handed, and that this is what the requests
    ask for. */
module DoorbellNic {
  import opened Collections
  import opened DoorbellModel
  import opened NicMemory

  /** 64-bit words by key and address. */
  type Words = (nat, nat) -> U64

  datatype Nic = Nic(local: Bytes, remote: Bytes, localWords: Words, remoteWords: Words, completions: seq<U64>)

  ghost function Put(words: Words, key: nat, at: nat, w: U64): Words {
    (k: nat, a: nat) => if k == key && a == at then w else words(k, a)
  }

  /** The completion that a signalled request (flag bit 1) leaves behind. */
  ghost function Complete(p: Posted, nic: Nic): Nic {
    nic.(completions := nic.completions + if (p.flags / 2) % 2 == 1 then [p.id] else [])
  }

  /** The operations of the transport layer (chapter 9 of the InfiniBand Architecture
      Specification, Volume 1): a write, a read, and the two atomics, which put the
      word they find into the requester's memory. */
  ghost function Execute(p: Posted, nic: Nic): Nic {
    var done := Complete(p, nic);
    match p.args
    case Rdma(raddr, rkey) =>
      if p.opcode.RdmaWrite? then
        done.(remote := Copy(nic.local, p.lkey, p.addr, nic.remote, rkey, raddr, p.length))
      else if p.opcode.RdmaRead? then
        done.(local := Copy(nic.remote, rkey, raddr, nic.local, p.lkey, p.addr, p.length))
      else done
    case Atomic(raddr, compareAdd, swap, rkey) =>
      var found := nic.remoteWords(rkey, raddr);
      var result: U64 :=
        if p.opcode.CompareSwap? then (if found == compareAdd then swap else found)
        else if p.opcode.FetchAdd? then (found + compareAdd) % TWO64
        else found;
      done.(remoteWords := Put(nic.remoteWords, rkey, raddr, result),
            localWords := Put(nic.localWords, p.lkey, p.addr, found))
  }

  // ------------------------------------------------------- what is asked for

  /** The request's own addresses and sizes are within what the NIC is told. */
  predicate Fits(r: Request) {
    match r
    case Write(mr, start, end, _, _, _, _) => start <= end < start + TWO32 && mr.addr + start < TWO64
    case Read(mr, start, end, _, _, _, _) => start <= end < start + TWO32 && mr.addr + start < TWO64
    case Cas(mr, offset, _, _, _, _, _, _) => mr.addr + offset < TWO64
    case Faa(mr, offset, _, _, _, _, _) => mr.addr + offset < TWO64
  }

  ghost predicate SameBytes(nic: Nic, after: Nic) {
    after.local == nic.local && after.remote == nic.remote
  }

  ghost predicate SameWords(nic: Nic, after: Nic) {
    after.localWords == nic.localWords && after.remoteWords == nic.remoteWords
  }

  /** One remote word has changed from `found` to `result`, and `found` was put into
      one local word. */
  ghost predicate WordChanged(nic: Nic, lkey: nat, laddr: nat, rkey: nat, raddr: nat, result: U64, after: Nic) {
    && after.remoteWords(rkey, raddr) == result
    && after.localWords(lkey, laddr) == nic.remoteWords(rkey, raddr)
    && (forall k: nat, a: nat :: k != rkey || a != raddr ==> after.remoteWords(k, a) == nic.remoteWords(k, a))
    && (forall k: nat, a: nat :: k != lkey || a != laddr ==> after.localWords(k, a) == nic.localWords(k, a))
  }

  /** What the request asks for, from its fields. */
  ghost predicate Performed(r: Request, nic: Nic, after: Nic) {
    && after.completions == nic.completions + (if r.signaled then [r.wrId] else [])
    && match r
       case Write(mr, start, end, _, raddr, rkey, _) =>
         && SameWords(nic, after) && after.local == nic.local && start <= end
         && Copied(nic.local, mr.lkey, mr.addr + start, nic.remote, rkey, raddr, end - start, after.remote)
       case Read(mr, start, end, _, raddr, rkey, _) =>
         && SameWords(nic, after) && after.remote == nic.remote && start <= end
         && Copied(nic.remote, rkey, raddr, nic.local, mr.lkey, mr.addr + start, end - start, after.local)
       case Cas(mr, offset, _, raddr, rkey, _, expected, desired) =>
         var found := nic.remoteWords(rkey, raddr);
         && SameBytes(nic, after)
         && WordChanged(nic, mr.lkey, mr.addr + offset, rkey, raddr, if found == expected then desired else found,
                        after)
       case Faa(mr, offset, _, raddr, rkey, _, val) =>
         var found := nic.remoteWords(rkey, raddr);
         && SameBytes(nic, after)
         && WordChanged(nic, mr.lkey, mr.addr + offset, rkey, raddr, (found + val) % TWO64, after)
  }

  lemma WriteMeans(r: Request, nic: Nic)
    requires (r.Write? || r.Read?) && Fits(r)
    ensures Performed(r, nic, Execute(Single(r), nic))
  {
    var p := Single(r);
    assert p.addr == r.mr.addr + r.start && p.length == r.end - r.start;
    assert p.lkey == r.mr.lkey && p.args == Rdma(r.raddr, r.rkey);
    hide Single, Copied, Copy;
    if r.Write? {
      CopyCopies(nic.local, p.lkey, p.addr, nic.remote, r.rkey, r.raddr, p.length);
    } else {
      CopyCopies(nic.remote, r.rkey, r.raddr, nic.local, p.lkey, p.addr, p.length);
    }
  }

  lemma AtomicMeans(r: Request, nic: Nic)
    requires (r.Cas? || r.Faa?) && Fits(r)
    ensures Performed(r, nic, Execute(Single(r), nic))
  {
    var p := Single(r);
    assert p.addr == r.mr.addr + r.offset && p.lkey == r.mr.lkey;
    assert p.args.Atomic? && p.args.raddr == r.raddr && p.args.rkey == r.rkey;
    hide Single;
  }

  /** Posting a request has the NIC do what the request asks for, in full. */
  lemma SingleMeans(r: Request, nic: Nic)
    requires Fits(r)
    ensures Performed(r, nic, Execute(Single(r), nic))
  {
    hide Performed, Execute, Single;
    if r.Write? || r.Read? {
      WriteMeans(r, nic);
    } else {
      AtomicMeans(r, nic);
    }
  }

  /** A write or read moves its whole range exactly if the range is shorter than
      2^32 bytes; the size is cut to 32 bits otherwise. */
  lemma WholeExactly(r: Request)
    requires (r.Write? || r.Read?) && r.start <= r.end
    ensures Single(r).length == r.end - r.start <==> r.end - r.start < TWO32
  {
  }

  // ------------------------------------------------------------ whole batches

  ghost function ExecuteAll(ps: seq<Posted>, nic: Nic): Nic {
    if ps == [] then nic else Execute(ps[|ps| - 1], ExecuteAll(ps[..|ps| - 1], nic))
  }

  /** A batch has the NIC do what its requests ask for, one after the other. */
  lemma BatchMeans(rs: seq<Request>, nic: Nic, i: nat)
    requires i < |rs| && Fits(rs[i])
    ensures Performed(rs[i], ExecuteAll(Singles(rs)[..i], nic), ExecuteAll(Singles(rs)[..i + 1], nic))
  {
    var ps := Singles(rs)[..i + 1];
    assert ps[..i] == Singles(rs)[..i] && ps[i] == Single(rs[i]);
    hide Performed, Execute, Single, Singles;
    SingleMeans(rs[i], ExecuteAll(ps[..i], nic));
  }
}
