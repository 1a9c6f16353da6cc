/** What a pushed request has the NIC do: which bytes it moves between which
    regions. */
module PushNic {
  import opened ChunkedPush
  import opened NicMemory

  datatype Memory = Memory(local: Bytes, remote: Bytes)

  /** An inline request is copied by the processor, from a virtual address; any
      other is fetched by the NIC, from a physical one. */
  predicate Reachable(w: Wire) {
    w.inl <==> w.laddr.Virtual?
  }

  ghost function Execute(w: Wire, m: Memory): Memory {
    match w.op
    case Write => m.(remote := Copy(m.local, w.lkey, w.laddr.pa, m.remote, w.rkey, w.raddr, w.length))
    case WriteImm => m.(remote := Copy(m.local, w.lkey, w.laddr.pa, m.remote, w.rkey, w.raddr, w.length))
    case Read => m.(local := Copy(m.remote, w.rkey, w.raddr, m.local, w.lkey, w.laddr.pa, w.length))
    case Send => m
    case SendImm => m
  }

  /** The request's bytes: its offset into the local region, its remote offset into
      the remote region, and its length; nothing else is touched. */
  ghost predicate Performed(local: Mr, remote: Mr, r: Request, m: Memory, after: Memory) {
    match r.op
    case Read =>
      && after.remote == m.remote
      && Copied(m.remote, remote.key, remote.addr + r.remoteAddr, m.local, local.key, local.addr + r.addr, r.length,
                after.local)
    case Write => Written(local, remote, r, m, after)
    case WriteImm => Written(local, remote, r, m, after)
    case Send => after == m
    case SendImm => after == m
  }

  ghost predicate Written(local: Mr, remote: Mr, r: Request, m: Memory, after: Memory) {
    && after.local == m.local
    && Copied(m.local, local.key, local.addr + r.addr, m.remote, remote.key, remote.addr + r.remoteAddr, r.length,
              after.remote)
  }

  /** A post reaches its local bytes, moves exactly the request's bytes between the
      queue's own region and the remote region of its transport, is signalled
      exactly if asked to, and on RC carries the request's immediate data; it is
      sent inline exactly if it is a write of less than 64 bytes. */
  lemma PostMeans(env: Env, rc: bool, r: Request, m: Memory)
    ensures var p := PostOf(env, rc, r);
      && (p.OnRc? <==> rc) && (rc ==> p.imm == r.vid)
      && Reachable(p.wire) && p.wire.op == r.op
      && (p.wire.signaled <==> r.sendFlags != 0)
      && (p.wire.inl <==> (r.op.Write? || r.op.WriteImm?) && r.length < 64)
      && Performed(env.local, if rc then env.rcRemote else env.dcRemote, r, m, Execute(p.wire, m))
  {
    var w := PostOf(env, rc, r).wire;
    CopyCopies(m.local, w.lkey, w.laddr.pa, m.remote, w.rkey, w.raddr, w.length);
    CopyCopies(m.remote, w.rkey, w.raddr, m.local, w.lkey, w.laddr.pa, w.length);
    hide Copy, Copied;
  }
}
