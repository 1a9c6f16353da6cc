/** A client queue's Push: requests go out in chunks of 64, on DC until the
    migration thread has installed an RC queue pair, on RC from then on. */
module ChunkedPush {

  const BATCH: nat := 64

  /** Where chunk number k starts. */
  function Boundary(k: nat): nat {
    64 * k
  }

  datatype Op = Read | Write | Send | SendImm | WriteImm

  /** A request as user space passes it in. */
  datatype Request = Request(op: Op, addr: nat, remoteAddr: nat, length: nat, vid: nat, sendFlags: nat)

  datatype Mr = Mr(addr: nat, key: nat)

  /** A local address as the NIC gets it: physical, or the virtual one that
      belongs to it. */
  datatype Address = Physical(pa: nat) | Virtual(pa: nat)

  /** A work request. */
  datatype Wire = Wire(op: Op, laddr: Address, lkey: nat, length: nat, raddr: nat, rkey: nat, inl: bool, signaled: bool)

  datatype Posted = OnDc(wire: Wire) | OnRc(wire: Wire, imm: nat)

  /** What a queue is connected with: its own memory region, the remote one the
      DC endpoint names, and the remote one of the RC queue pair to come. */
  datatype Env = Env(local: Mr, dcRemote: Mr, rcRemote: Mr)

  datatype Status = Ok | Nil | Err

  /** Short writes are sent inline, from their virtual address. */
  predicate Inlined(r: Request) {
    r.length < 64 && (r.op == Write || r.op == WriteImm)
  }

  function WireOf(local: Mr, remote: Mr, r: Request): Wire {
    var pa := local.addr + r.addr;
    Wire(r.op, if Inlined(r) then Virtual(pa) else Physical(pa), local.key, r.length,
         r.remoteAddr + remote.addr, remote.key, Inlined(r), r.sendFlags != 0)
  }

  function PostOf(env: Env, rc: bool, r: Request): Posted {
    if rc then OnRc(WireOf(env.local, env.rcRemote, r), r.vid)
    else OnDc(WireOf(env.local, env.dcRemote, r))
  }

  function Posts(env: Env, rc: bool, rs: seq<Request>): (ps: seq<Posted>)
    ensures |ps| == |rs|
  {
    seq(|rs|, i requires 0 <= i < |rs| => PostOf(env, rc, rs[i]))
  }

  function Min(a: nat, b: nat): nat {
    if a < b then a else b
  }

  /** The first `budget` of ps. */
  function Take(ps: seq<Posted>, budget: nat): seq<Posted> {
    ps[..Min(budget, |ps|)]
  }

  /** Everything there is to post, if no post fails: what comes before the cut on
      DC, provided there is a local DC, and the rest on RC. */
  function Plan(env: Env, dc: bool, cut: nat, rs: seq<Request>): seq<Posted> {
    var c := Min(cut, |rs|);
    (if dc then Posts(env, false, rs[..c]) else []) + Posts(env, true, rs[c..])
  }

  /** What one chunk has to post. */
  function Part(env: Env, dc: bool, rc: bool, chunk: seq<Request>): seq<Posted> {
    if rc then Posts(env, true, chunk) else if dc then Posts(env, false, chunk) else []
  }

  /** The status of the last chunk, when no post failed. */
  function LastStatus(dc: bool, cut: nat, n: nat): Status {
    if n == 0 || dc || cut < n then Ok else Nil
  }

  lemma PostsMore(env: Env, rc: bool, rs: seq<Request>, more: seq<Request>)
    ensures Posts(env, rc, rs + more) == Posts(env, rc, rs) + Posts(env, rc, more)
  {
  }

  /** A chunk lies on one side of a cut at a chunk boundary. */
  lemma PlanMore(env: Env, dc: bool, m: nat, rs: seq<Request>, k: nat, more: seq<Request>)
    requires |rs| == Boundary(k) && |more| <= BATCH
    ensures Plan(env, dc, Boundary(m), rs + more) == Plan(env, dc, Boundary(m), rs)
            + Part(env, dc, m <= k, more)
  {
    var cut := Boundary(m);
    if |rs| < cut {
      assert |rs| + BATCH <= cut;
      assert rs[..|rs|] == rs && (rs + more)[..|rs + more|] == rs + more;
      PostsMore(env, false, rs, more);
    } else {
      assert (rs + more)[..cut] == rs[..cut] && (rs + more)[cut..] == rs[cut..] + more;
      PostsMore(env, true, rs[cut..], more);
    }
  }

  /** The plan of the first chunks is where the whole plan starts. */
  lemma PlanPrefix(env: Env, dc: bool, m: nat, rs: seq<Request>, k: nat)
    requires k <= |rs|
    ensures Plan(env, dc, Boundary(m), rs[..k]) <= Plan(env, dc, Boundary(m), rs)
  {
    var cut := Boundary(m);
    var c := Min(cut, |rs|);
    if k <= cut {
      assert rs[..k][..k] == rs[..k] && rs[..c] == rs[..k] + rs[k..c];
      PostsMore(env, false, rs[..k], rs[k..c]);
    } else {
      assert rs[..k][..cut] == rs[..cut] && rs[cut..] == rs[..k][cut..] + rs[k..];
      PostsMore(env, true, rs[..k][cut..], rs[k..]);
    }
  }

  /** Since the queue had `posted0` and `budget0` it has posted what there is to
      post of the first n requests. */
  ghost predicate Reached(env: Env, dc: bool, cut: nat, rs: seq<Request>, n: nat,
                          posted0: seq<Posted>, budget0: nat, posted: seq<Posted>, budget: nat)
    requires n <= |rs|
  {
    var plan := Plan(env, dc, cut, rs[..n]);
    posted == posted0 + plan && budget == budget0 - |plan|
  }

  /** A post has failed, and what is posted is all that the budget allows. */
  ghost predicate Ended(env: Env, dc: bool, cut: nat, rs: seq<Request>,
                        posted0: seq<Posted>, budget0: nat, posted: seq<Posted>)
  {
    var plan := Plan(env, dc, cut, rs);
    budget0 < |plan| && posted == posted0 + Take(plan, budget0)
  }

  /** The plan of k chunks and of the next one make up that of k + 1 chunks. */
  lemma ChunkPart(env: Env, dc: bool, m: nat, rs: seq<Request>, k: nat, chunk: seq<Request>)
    requires Boundary(k) < |rs| && chunk == rs[Boundary(k)..Min(Boundary(k + 1), |rs|)]
    ensures var sum := Plan(env, dc, Boundary(m), rs[..Boundary(k)]) + Part(env, dc, m <= k, chunk);
      sum == Plan(env, dc, Boundary(m), rs[..Min(Boundary(k + 1), |rs|)]) && sum <= Plan(env, dc, Boundary(m), rs)
  {
    hide Plan, Part, Posts;
    var o, e := Boundary(k), Min(Boundary(k + 1), |rs|);
    assert |chunk| <= BATCH && o <= e <= |rs|;
    hide Boundary, Min;
    PlanMore(env, dc, m, rs[..o], k, chunk);
    PlanPrefix(env, dc, m, rs, e);
    assert rs[..e] == rs[..o] + chunk;
  }

  lemma TakeSum(posted0: seq<Posted>, done: seq<Posted>, part: seq<Posted>, budget: nat)
    requires |done| <= budget
    ensures (posted0 + done) + Take(part, budget - |done|) == posted0 + Take(done + part, budget)
    ensures |done| + |part| <= budget ==> Take(done + part, budget) == done + part
    ensures |Take(part, budget - |done|)| == Min(budget - |done|, |part|)
  {
  }

  lemma TakeEarly(ps: seq<Posted>, all: seq<Posted>, budget: nat)
    requires ps <= all && budget < |ps|
    ensures Take(ps, budget) == Take(all, budget)
  {
  }

  /** The next chunk fits the budget: k + 1 chunks are done. */
  lemma ChunkFits(env: Env, dc: bool, m: nat, rs: seq<Request>, k: nat, chunk: seq<Request>,
                  posted0: seq<Posted>, budget0: nat, posted: seq<Posted>, budget: nat)
    requires Boundary(k) < |rs| && chunk == rs[Boundary(k)..Min(Boundary(k + 1), |rs|)]
    requires Reached(env, dc, Boundary(m), rs, Boundary(k), posted0, budget0, posted, budget)
    requires |Part(env, dc, m <= k, chunk)| <= budget
    ensures var more := Take(Part(env, dc, m <= k, chunk), budget);
      Reached(env, dc, Boundary(m), rs, Min(Boundary(k + 1), |rs|), posted0, budget0, posted + more, budget - |more|)
  {
    ChunkPart(env, dc, m, rs, k, chunk);
    hide Plan, Part, Take, Boundary;
    TakeSum(posted0, Plan(env, dc, Boundary(m), rs[..Boundary(k)]), Part(env, dc, m <= k, chunk), budget0);
  }

  /** The next chunk does not: the call ends with all that the budget allows. */
  lemma ChunkStops(env: Env, dc: bool, m: nat, rs: seq<Request>, k: nat, chunk: seq<Request>,
                   posted0: seq<Posted>, budget0: nat, posted: seq<Posted>, budget: nat)
    requires Boundary(k) < |rs| && chunk == rs[Boundary(k)..Min(Boundary(k + 1), |rs|)]
    requires Reached(env, dc, Boundary(m), rs, Boundary(k), posted0, budget0, posted, budget)
    requires budget < |Part(env, dc, m <= k, chunk)|
    ensures Ended(env, dc, Boundary(m), rs, posted0, budget0, posted + Take(Part(env, dc, m <= k, chunk), budget))
  {
    ChunkPart(env, dc, m, rs, k, chunk);
    hide Plan, Part, Take, Boundary;
    var done, part := Plan(env, dc, Boundary(m), rs[..Boundary(k)]), Part(env, dc, m <= k, chunk);
    TakeSum(posted0, done, part, budget0);
    TakeEarly(done + part, Plan(env, dc, Boundary(m), rs), budget0);
  }

  lemma ReachedEnd(env: Env, dc: bool, cut: nat, rs: seq<Request>,
                   posted0: seq<Posted>, budget0: nat, posted: seq<Posted>, budget: nat)
    requires Reached(env, dc, cut, rs, |rs|, posted0, budget0, posted, budget)
    ensures var plan := Plan(env, dc, cut, rs);
      |plan| <= budget0 && posted == posted0 + Take(plan, budget0)
  {
    hide Plan;
    assert rs[..|rs|] == rs;
  }

  // ----------------------------------------------------------- what is promised

  /** Everything one call posts. */
  function Outcome(env: Env, dc: bool, cut: nat, rs: seq<Request>, budget: nat): seq<Posted> {
    Take(Plan(env, dc, cut, rs), budget)
  }

  /** Where in the list posting starts: at once, or at the cut if nothing can be
      posted before it. */
  function FirstPosted(dc: bool, cut: nat, n: nat): nat {
    if dc then 0 else Min(cut, n)
  }

  /** What is posted is a run of the list without gaps, in order and each request
      once, that starts at the first request there is a queue pair for and ends
      with the list unless a post failed; it splits at the cut into a DC prefix and
      an RC suffix. */
  lemma PrefixPosted(env: Env, dc: bool, cut: nat, rs: seq<Request>, budget: nat)
    ensures var (out, first) := (Outcome(env, dc, cut, rs, budget), FirstPosted(dc, cut, |rs|));
      && first <= |rs| && |Plan(env, dc, cut, rs)| == |rs| - first
      && |out| == Min(budget, |rs| - first)
      && forall i :: 0 <= i < |out| ==> out[i] == PostOf(env, cut <= first + i, rs[first + i])
  {
  }

  /** The wires are those of one transport for the whole call, exactly if the
      remote regions agree or nothing went out on DC. */
  lemma OneTransportExactly(env: Env, cut: nat, rs: seq<Request>, budget: nat)
    ensures var out, one := Outcome(env, true, cut, rs, budget), Outcome(env, true, 0, rs, budget);
      && |out| == |one|
      && ((forall i :: 0 <= i < |out| ==> out[i].wire == one[i].wire)
          <==> env.dcRemote == env.rcRemote || cut == 0 || rs == [] || budget == 0)
  {
    PrefixPosted(env, true, cut, rs, budget);
    PrefixPosted(env, true, 0, rs, budget);
    hide Plan, Take;
    var out, one := Outcome(env, true, cut, rs, budget), Outcome(env, true, 0, rs, budget);
    if cut > 0 && rs != [] && budget > 0 {
      assert out[0] == PostOf(env, false, rs[0]) && one[0] == PostOf(env, true, rs[0]);
    }
  }

  /** The whole list goes out exactly if it fits the budget and there is a local
      DC, or RC from the start, or nothing to post. */
  lemma AllPostedExactly(env: Env, dc: bool, cut: nat, rs: seq<Request>, budget: nat)
    ensures |Outcome(env, dc, cut, rs, budget)| == |rs| <==> |rs| <= budget && (dc || cut == 0 || rs == [])
  {
  }

  /** A call in which no post fails reports success and still has not posted the
      whole list, exactly if there is no local DC, RC arrived between the first
      and the last chunk, and what is left from there on fits the budget. */
  lemma SilentDropExactly(env: Env, dc: bool, cut: nat, rs: seq<Request>, budget: nat)
    ensures |Plan(env, dc, cut, rs)| <= budget && LastStatus(dc, cut, |rs|) == Ok
            && |Outcome(env, dc, cut, rs, budget)| < |rs|
            <==> !dc && 0 < cut < |rs| && |rs| - cut <= budget
  {
  }

  /** 65 requests without a local DC, RC arriving after the first chunk, and a NIC
      that takes one post: only the last one is posted. */
  lemma SilentDrop(env: Env, r: Request)
    ensures var rs := seq(65, _ => r);
      Outcome(env, false, Boundary(1), rs, 1) == [PostOf(env, true, r)] && LastStatus(false, Boundary(1), 65) == Ok
  {
  }

  // ------------------------------------------------------------- the object

  class VirtualQueue {
    const env: Env
    const localDc: bool
    /** Whether an RC queue pair is installed. */
    var rc: bool
    /** How many more posts the NIC takes before one fails. */
    var budget: nat
    var posted: seq<Posted>

    constructor (env: Env, localDc: bool, rc: bool, budget: nat)
      ensures this.env == env && this.localDc == localDc && this.rc == rc && this.budget == budget && posted == []
    {
      this.env, this.localDc, this.rc, this.budget, posted := env, localDc, rc, budget, [];
    }

    /** `bg_rc_migrate_thread`: installs the connected queue pair. */
    method Migrate()
      modifies this`rc
      ensures rc
    {
      if !rc {
        rc := true;
      }
    }

    /** One post: an error return, once the budget is used up. */
    method Post(p: Posted) returns (ok: bool)
      modifies this`budget, this`posted
      ensures ok <==> old(budget) > 0
      ensures posted == old(posted) + if ok then [p] else []
      ensures budget == old(budget) - if ok then 1 else 0
    {
      ok := budget > 0;
      if ok {
        budget, posted := budget - 1, posted + [p];
      }
    }

    /** The parameters of a post, as both push loops work them out. */
    method BuildWire(remote: Mr, r: Request) returns (wire: Wire)
      ensures wire == WireOf(env.local, remote, r)
    {
      var laddr := Physical(env.local.addr + r.addr);
      var inl := false;
      if r.length < 64 {
        match r.op
        case Write | WriteImm =>
          laddr := Virtual(laddr.pa);
          inl := true;
        case Read | Send | SendImm =>
      }
      wire := Wire(r.op, laddr, env.local.key, r.length, r.remoteAddr + remote.addr, remote.key, inl, r.sendFlags != 0);
    }

    method RcPush(chunk: seq<Request>) returns (res: Status)
      modifies this`budget, this`posted
      ensures res == if !rc then Nil else if old(budget) < |chunk| then Err else Ok
      ensures posted == old(posted) + if rc then Posts(env, true, chunk[..Min(old(budget), |chunk|)]) else []
      ensures budget + (|posted| - |old(posted)|) == old(budget)
    {
      if !rc {
        return Nil;
      }
      res := Ok;
      for idx := 0 to |chunk|
        invariant idx <= old(budget) && budget == old(budget) - idx
        invariant posted == old(posted) + Posts(env, true, chunk[..idx])
      {
        var r := chunk[idx];
        var wire := BuildWire(env.rcRemote, r);
        var ok := Post(OnRc(wire, r.vid));
        if !ok {
          return Err;
        }
        assert chunk[..idx + 1] == chunk[..idx] + [r];
        PostsMore(env, true, chunk[..idx], [r]);
      }
    }

    method DcPush(chunk: seq<Request>) returns (res: Status)
      modifies this`budget, this`posted
      ensures res == if !localDc then Nil else if old(budget) < |chunk| then Err else Ok
      ensures posted == old(posted) + if localDc then Posts(env, false, chunk[..Min(old(budget), |chunk|)]) else []
      ensures budget + (|posted| - |old(posted)|) == old(budget)
    {
      if !localDc {
        return Nil;
      }
      res := Ok;
      for idx := 0 to |chunk|
        invariant idx <= old(budget) && budget == old(budget) - idx
        invariant posted == old(posted) + Posts(env, false, chunk[..idx])
      {
        var r := chunk[idx];
        var wire := BuildWire(env.dcRemote, r);
        var ok := Post(OnDc(wire));
        if !ok {
          return Err;
        }
        assert chunk[..idx + 1] == chunk[..idx] + [r];
        PostsMore(env, false, chunk[..idx], [r]);
      }
    }

    /** One chunk, on RC if a queue pair is there by now. */
    method PushChunk(chunk: seq<Request>, migrate: bool) returns (res: Status)
      modifies this`rc, this`budget, this`posted
      ensures rc <==> old(rc) || migrate
      ensures var part := Part(env, localDc, rc, chunk);
        && posted == old(posted) + Take(part, old(budget))
        && budget == old(budget) - |Take(part, old(budget))|
        && res == if old(budget) < |part| then Err else if rc || localDc then Ok else Nil
    {
      if migrate {
        Migrate();
      }
      if rc {
        res := RcPush(chunk);
      } else {
        res := DcPush(chunk);
      }
    }

    /** Chunk number k of the list. */
    method PushNext(rs: seq<Request>, k: nat, migrate: bool,
                    ghost m: nat, ghost posted0: seq<Posted>, ghost budget0: nat)
      returns (res: Status)
      requires Boundary(k) < |rs| && (rc || migrate <==> m <= k)
      requires Reached(env, localDc, Boundary(m), rs, Boundary(k), posted0, budget0, posted, budget)
      modifies this`rc, this`budget, this`posted
      ensures rc <==> m <= k
      ensures res == Err ==> Ended(env, localDc, Boundary(m), rs, posted0, budget0, posted)
      ensures res != Err ==>
        && res == LastStatus(localDc, Boundary(m), Min(Boundary(k + 1), |rs|))
        && Reached(env, localDc, Boundary(m), rs, Min(Boundary(k + 1), |rs|), posted0, budget0, posted, budget)
    {
      var sendOffset := BATCH * k;
      var chunk := rs[sendOffset..sendOffset + Min(BATCH, |rs| - sendOffset)];
      if |Part(env, localDc, m <= k, chunk)| <= budget {
        ChunkFits(env, localDc, m, rs, k, chunk, posted0, budget0, posted, budget);
      } else {
        ChunkStops(env, localDc, m, rs, k, chunk, posted0, budget0, posted, budget);
      }
      hide Part, Take, Reached, Plan, Ended;
      res := PushChunk(chunk, migrate);
    }

    /** The Push loop; the migration thread fires before chunk number `migrateAt`
        is dispatched, or not at all during this call. */
    method PushAll(rs: seq<Request>, migrateAt: nat) returns (ret: Status)
      modifies this`rc, this`budget, this`posted
      ensures var cut := if old(rc) then 0 else Boundary(migrateAt);
        && posted == old(posted) + Outcome(env, localDc, cut, rs, old(budget))
        && ret == if old(budget) < |Plan(env, localDc, cut, rs)| then Err else LastStatus(localDc, cut, |rs|)
    {
      ghost var m := if rc then 0 else migrateAt;
      var chunks := 0;
      ret := Ok;
      assert Reached(env, localDc, Boundary(m), rs, 0, posted, budget, posted, budget);
      hide Plan, Take, Reached;
      while BATCH * chunks < |rs|
        invariant rc <==> old(rc) || migrateAt < chunks
        invariant ret == LastStatus(localDc, Boundary(m), Min(Boundary(chunks), |rs|))
        invariant Reached(env, localDc, Boundary(m), rs, Min(Boundary(chunks), |rs|),
                          old(posted), old(budget), posted, budget)
      {
        ret := PushNext(rs, chunks, chunks == migrateAt, m, old(posted), old(budget));
        if ret == Err {
          return;
        }
        chunks := chunks + 1;
      }
      ReachedEnd(env, localDc, Boundary(m), rs, old(posted), old(budget), posted, budget);
    }

    /** A whole call.  What it posts is a run of the list in order, on DC up to the
        cut and on RC from there on, and all of the list if there is a local DC or RC
        from the start and no post failed.  It reports success without having posted
        the whole list exactly if there is no local DC, RC arrives between the first
        and the last chunk, and what is left from there on can be posted. */
    method Push(rs: seq<Request>, migrateAt: nat) returns (ret: Status)
      modifies this`rc, this`budget, this`posted
      ensures old(posted) <= posted
      ensures var cut := if old(rc) then 0 else Boundary(migrateAt);
        var out, first := posted[|old(posted)|..], FirstPosted(localDc, cut, |rs|);
        && |out| == Min(old(budget), |rs| - first)
        && (forall i :: 0 <= i < |out| ==> out[i] == PostOf(env, cut <= first + i, rs[first + i]))
        && (ret == Err <==> old(budget) < |rs| - first)
        && (ret == Nil <==> !localDc && 0 < |rs| <= cut)
        && (ret == Ok && |out| < |rs| <==> !localDc && 0 < cut < |rs| && |rs| - cut <= old(budget))
    {
      ghost var cut := if rc then 0 else Boundary(migrateAt);
      PrefixPosted(env, localDc, cut, rs, budget);
      hide Outcome, Plan, Boundary, PostOf;
      ret := PushAll(rs, migrateAt);
      assert posted[|old(posted)|..] == Outcome(env, localDc, cut, rs, old(budget));
    }
  }
}
