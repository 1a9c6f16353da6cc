/** What kernel-mode runs lead to: which queue pairs are stored, which cm ids live
    and whose handshake returns Ok, in terms of the steps alone, and that it can. */
module KernelCmLaws {
  import opened Collections
  import opened Histories
  import opened QueuePairs
  import opened KernelCm
  import opened KernelCmSafety

  // ------------------------------------------------- what the map holds

  predicate Rejects(fault: ReqFault) {
    fault.BuildFails? || (fault.BringUpFails? && fault.fault != NoFault)
  }

  predicate Faultless(fault: ReqFault) {
    fault == NoReqFault || fault == BringUpFails(NoFault)
  }

  /** No verb of the handler fails up to the point where it stores. */
  predicate Stores(fault: ReqFault) {
    Faultless(fault) || fault == ReplyFails
  }

  /** A queue pair that is ready to send to the peer that asked for it. */
  function Serving(data: ConnData, qpn: nat): Qp {
    Qp(RC, qpn, ReadyToSend, data.port, data.qpn, data.psn, qpn)
  }

  /** A stored queue pair and the connection it was stored for. */
  datatype Entry = Entry(conn: Conn, qp: Qp)

  ghost function Puts(at: Addr): Step -> Option<Entry> {
    (step: Step) =>
      if step.ServeReq? && step.msg.Req? && step.at == at && Stores(step.reqFault)
      then Some(Entry(step.conn, Serving(step.msg.data, step.qpn))) else None
  }

  /** A DREQ takes away the entry of its own connection. */
  ghost function Takes(): (Step, Entry) -> bool {
    (step: Step, e: Entry) => step.ServeDreq? && step.msg == Dreq(e.conn)
  }

  ghost function EntryAt(s: State, at: Addr): Option<Entry> {
    if at in s.registered && at in s.last then Some(Entry(s.last[at], s.registered[at])) else None
  }

  lemma StepEntry(s: State, step: Step, at: Addr)
    requires StoredOk(s) && Legal(s, step)
    ensures EntryAt(Apply(s, step), at) == Then(EntryAt(s, at), step, Puts(at), Takes())
  {
    if step.ServeReq? {
      hide Stored;
    } else if !step.ServeDreq? && !step.OtherEvent? {
      StoredFrame(s, step);
      hide Apply, Stored;
    }
    hide AcceptReply, BringUp;
    if step.ServeReq? {
      StoredEntry(s, step.msg, step.conn, step.at, step.qpn, step.reqFault);
      hide Apply, ServeRequest;
    }
  }

  /** What a request stores. */
  lemma StoredEntry(s: State, m: Msg, conn: Conn, at: Addr, qpn: nat, fault: ReqFault)
    requires m.Req?
    ensures var t := ServeRequest(s, m, conn, at, qpn, fault);
      && (Stores(fault) ==> t.registered == s.registered[at := Serving(m.data, qpn)] && t.last == s.last[at := conn])
      && (!Stores(fault) ==> t.registered == s.registered && t.last == s.last)
      && t.cms == if Faultless(fault) then s.cms[conn := at] else s.cms
  {
  }

  lemma {:induction false} RunEntry(s: State, steps: seq<Step>, at: Addr)
    requires Inv(s) && LegalRun(s, steps)
    ensures EntryAt(Exec(s, steps), at) == After(EntryAt(s, at), steps, Puts(at), Takes())
    decreases |steps|
  {
    if steps != [] {
      StepEntry(s, steps[0], at);
      StepInv(s, steps[0]);
      hide Inv, Apply, Legal, Puts, Takes, Then, EntryAt;
      RunEntry(Apply(s, steps[0]), steps[1..], at);
    }
  }

  /** After any run the server has a queue pair at an address exactly if a request
      was stored there and no DREQ of the connection that was stored there last has
      been handled; it is up and points to the client of that request. */
  lemma RegisteredExactly(port: PortAddr, steps: seq<Step>, at: Addr, qp: Qp)
    requires LegalRun(Initial(port), steps)
    ensures Get(Exec(Initial(port), steps).registered, at) == Some(qp) <==>
      exists i, conn :: PutLast(steps, i, Entry(conn, qp), Puts(at), Takes())
  {
    InitialInv(port);
    RunEntry(Initial(port), steps, at);
    RunInv(Initial(port), steps);
    var s := Exec(Initial(port), steps);
    assert at in s.registered ==> at in s.last;
    hide Inv, Exec, LegalRun;
    if Get(s.registered, at) == Some(qp) {
      AfterExactly(steps, Entry(s.last[at], qp), Puts(at), Takes());
    }
    if i, conn :| PutLast(steps, i, Entry(conn, qp), Puts(at), Takes()) {
      AfterExactly(steps, Entry(conn, qp), Puts(at), Takes());
    }
  }

  // --------------------------------------------------------- live cm ids

  ghost function Opens(conn: Conn): Step -> Option<Addr> {
    (step: Step) =>
      if step.ServeReq? && step.conn == conn && Faultless(step.reqFault) then Some(step.at) else None
  }

  ghost function Ends(conn: Conn): (Step, Addr) -> bool {
    (step: Step, _: Addr) => step == OtherEvent(conn)
  }

  lemma StepCms(s: State, step: Step, conn: Conn)
    requires Legal(s, step)
    ensures Get(Apply(s, step).cms, conn) == Then(Get(s.cms, conn), step, Opens(conn), Ends(conn))
  {
    if step.ServeReq? {
      StoredEntry(s, step.msg, step.conn, step.at, step.qpn, step.reqFault);
      hide ServeRequest;
    } else if !step.ServeDreq? && !step.OtherEvent? {
      StoredFrame(s, step);
      hide Apply;
    }
    hide AcceptReply, BringUp;
  }

  lemma {:induction false} RunCms(s: State, steps: seq<Step>, conn: Conn)
    requires LegalRun(s, steps)
    ensures Get(Exec(s, steps).cms, conn) == After(Get(s.cms, conn), steps, Opens(conn), Ends(conn))
    decreases |steps|
  {
    if steps != [] {
      StepCms(s, steps[0], conn);
      hide Apply, Legal, Opens, Ends, Then;
      RunCms(Apply(s, steps[0]), steps[1..], conn);
    }
  }

  /** A connection's cm id lives at an address exactly if its request was served
      there without a fault and no event has destroyed it since. */
  lemma LiveExactly(port: PortAddr, steps: seq<Step>, conn: Conn, at: Addr)
    requires LegalRun(Initial(port), steps)
    ensures Get(Exec(Initial(port), steps).cms, conn) == Some(at) <==>
      exists i :: PutLast(steps, i, at, Opens(conn), Ends(conn))
  {
    RunCms(Initial(port), steps, conn);
    AfterExactly(steps, at, Opens(conn), Ends(conn));
  }

  // ------------------------------------------------------ what is answered

  /** Serving a request puts a REP under way exactly if no fault occurs, for a
      queue pair that is stored, up and points to the client, and a REJ exactly if
      the queue pair could not be made; nothing else is sent or changed. */
  lemma ServedExactly(s: State, m: Msg, conn: Conn, at: Addr, qpn: nat, fault: ReqFault)
    requires Inv(s) && Legal(s, ServeReq(m, conn, at, qpn, fault))
    ensures var t := Apply(s, ServeReq(m, conn, at, qpn, fault));
      var rep := Rep(m.client, conn, ConnData(s.port, qpn, qpn));
      && rep !in s.net && (rep in t.net <==> Faultless(fault))
      && (rep in t.net ==> at in t.registered && PointsTo(t.registered[at], t.clients[m.client]))
      && t.net == s.net + (if Faultless(fault) then {rep} else if Rejects(fault) then {Rej(m.client)} else {})
      && t.clients == s.clients
      && forall a :: a != at ==> Get(t.registered, a) == Get(s.registered, a)
  {
    assert MsgOk(s, m);
    var rep := Rep(m.client, conn, ConnData(s.port, qpn, qpn));
    assert rep in s.net ==> MsgOk(s, rep);
    hide CreatedOk, ClientsOk, StoredOk, ClosedOk, MsgsOk;
  }

  // --------------------------------------------------- whose handshake is Ok

  /** A client that can still receive is an RC client that has not failed. */
  ghost predicate Receptive(s: State) {
    forall c <- s.clients :: s.clients[c].cmAlive ==>
      s.clients[c].qp.mode.RC? && (s.clients[c].qp.state.Reset? || s.clients[c].qp.state.ReadyToSend?)
  }

  ghost predicate Brings(step: Step, c: ClientId) {
    step.HandleRep? && step.msg.Rep? && step.msg.client == c && step.fault == NoFault
  }

  /** How far the client's queue pair has come. */
  ghost predicate Up(s: State, c: ClientId) {
    c in s.clients && s.clients[c].qp.state.ReadyToSend?
  }

  lemma StepReceptive(s: State, step: Step)
    requires Receptive(s) && ClientsOk(s) && Legal(s, step)
    ensures Receptive(Apply(s, step))
  {
    hide ServeRequest, Mirror;
    assert step.ServeReq? ==> Apply(s, step).clients == s.clients by { ServeFrame(s, step); }
  }

  lemma StepUp(s: State, step: Step, c: ClientId)
    requires Receptive(s) && Legal(s, step)
    ensures Up(Apply(s, step), c) <==> Up(s, c) || Brings(step, c)
  {
    hide ServeRequest;
    assert step.ServeReq? ==> Apply(s, step).clients == s.clients by { ServeFrame(s, step); }
  }

  lemma {:induction false} RunUp(s: State, steps: seq<Step>, c: ClientId)
    requires Inv(s) && Receptive(s) && LegalRun(s, steps)
    ensures Up(Exec(s, steps), c) <==> Up(s, c) || exists i :: 0 <= i < |steps| && Brings(steps[i], c)
    decreases |steps|
  {
    if steps != [] {
      StepUp(s, steps[0], c);
      StepReceptive(s, steps[0]);
      StepInv(s, steps[0]);
      hide Inv, Apply, Legal, Up, Brings, Receptive;
      RunUp(Apply(s, steps[0]), steps[1..], c);
      assert forall i :: 0 < i < |steps| ==> steps[i] == steps[1..][i - 1];
      assert forall i :: 0 <= i < |steps[1..]| ==> steps[1..][i] == steps[i + 1];
    }
  }

  /** A handshake that ends after any run returns Ok exactly if its wait was
      signalled and a REP for the client was handled without a failing verb. */
  lemma ReturnsExactly(port: PortAddr, steps: seq<Step>, c: ClientId, waited: bool)
    requires LegalRun(Initial(port), steps) && Legal(Exec(Initial(port), steps), Finish(c, waited))
    ensures var t := Apply(Exec(Initial(port), steps), Finish(c, waited));
      && c in t.clients && t.clients[c].phase.Returned?
      && (t.clients[c].phase.ok <==> waited && exists i :: 0 <= i < |steps| && Brings(steps[i], c))
  {
    InitialInv(port);
    RunUp(Initial(port), steps, c);
    hide Exec, LegalRun, Inv, Brings;
  }

  // ---------------------------------------------------- there and back again

  /** A new client's request gets under way. */
  lemma Asks(s: State, c: ClientId, num: nat, port: PortAddr) returns (steps: seq<Step>)
    requires c !in s.clients
    ensures LegalRun(s, steps)
    ensures Exec(s, steps) == s.(clients := s.clients[c := Client(NewQp(RC, num), port, Waiting, false, true, None)],
                                 net := s.net + {Req(c, ConnData(port, num, num))})
  {
    var one, two := NewClient(c, RC, num, port), SendReq(c);
    RunSnoc(s, [], one);
    RunSnoc(s, [] + [one], two);
    steps := [] + [one] + [two];
  }

  /** It is served. */
  lemma Served(s: State, c: ClientId, num: nat, port: PortAddr, conn: Conn, at: Addr, qpn: nat)
    returns (steps: seq<Step>)
    requires Inv(s) && c !in s.clients && conn !in s.created && conn !in s.cms && at !in s.cms.Values
    ensures LegalRun(s, steps)
    ensures var t := Exec(s, steps);
      && Inv(t) && t.port == s.port && t.cms == s.cms[conn := at]
      && t.clients == s.clients[c := Client(NewQp(RC, num), port, Waiting, false, true, None)]
      && t.registered == s.registered[at := Serving(ConnData(port, num, num), qpn)]
      && Rep(c, conn, ConnData(s.port, qpn, qpn)) in t.net
  {
    steps := Asks(s, c, num, port);
    RunInv(s, steps);
    var req := Req(c, ConnData(port, num, num));
    ServedExactly(Exec(s, steps), req, conn, at, qpn, NoReqFault);
    StoredEntry(Exec(s, steps), req, conn, at, qpn, NoReqFault);
    var serve := ServeReq(req, conn, at, qpn, NoReqFault);
    hide Inv, Exec, LegalRun, ServeRequest;
    RunSnoc(s, steps, serve);
    steps := steps + [serve];
    RunInv(s, steps);
  }

  /** A waiting client handles its first REP: it is up, and its handshake ends. */
  lemma Finishes(s: State, c: ClientId, m: Msg) returns (steps: seq<Step>)
    requires m in s.net && m.Rep? && m.client == c && c in s.clients
    requires s.clients[c].phase == Waiting && s.clients[c].cmAlive
    requires s.clients[c].qp.mode.RC? && s.clients[c].qp.state.Reset?
    ensures LegalRun(s, steps)
    ensures var t := Exec(s, steps);
      && t == s.(clients := t.clients) && c in t.clients
      && t.clients[c].phase == Returned(true) && t.clients[c].conn == Some(m.conn)
      && t.clients[c].qp == Qp(RC, s.clients[c].qp.num, ReadyToSend, m.data.port, m.data.qpn, m.data.psn,
                               s.clients[c].qp.num)
      && t.clients[c].port == s.clients[c].port
      && forall d :: d != c ==> Get(t.clients, d) == Get(s.clients, d)
  {
    var handle, finish := HandleRep(m, NoFault), Finish(c, true);
    RunSnoc(s, [], handle);
    RunSnoc(s, [] + [handle], finish);
    steps := [] + [handle] + [finish];
  }

  lemma {:induction false} ExecConcat(s: State, a: seq<Step>, b: seq<Step>)
    requires LegalRun(s, a) && LegalRun(Exec(s, a), b)
    ensures LegalRun(s, a + b) && Exec(s, a + b) == Exec(Exec(s, a), b)
    decreases |a|
  {
    hide Legal, Apply;
    if a == [] {
      assert a + b == b;
    } else {
      assert (a + b)[1..] == a[1..] + b;
      ExecConcat(Apply(s, a[0]), a[1..], b);
    }
  }

  /** From every state a new client's handshake can return Ok, and then both ends
      mirror each other. */
  lemma CanConnect(s: State, c: ClientId, num: nat, port: PortAddr, conn: Conn, at: Addr, qpn: nat)
    returns (steps: seq<Step>)
    requires Inv(s) && c !in s.clients && conn !in s.created && conn !in s.cms && at !in s.cms.Values
    ensures LegalRun(s, steps)
    ensures var t := Exec(s, steps);
      && t.cms == s.cms[conn := at] && t.registered == s.registered[at := Serving(ConnData(port, num, num), qpn)]
      && c in t.clients && t.clients[c].phase == Returned(true) && t.clients[c].conn == Some(conn)
      && Mirror(t.clients[c].qp, t.clients[c].port, t.registered[at], t.port)
  {
    hide Inv, Exec, LegalRun;
    var first := Served(s, c, num, port, conn, at, qpn);
    var second := Finishes(Exec(s, first), c, Rep(c, conn, ConnData(s.port, qpn, qpn)));
    ExecConcat(s, first, second);
    steps := first + second;
  }

  /** When a client drops its connection and the DREQ is handled, the server has
      forgotten the queue pair, and no other one. */
  lemma CanLeave(s: State, c: ClientId, conn: Conn) returns (steps: seq<Step>)
    requires c in s.clients && s.clients[c].phase.Returned? && s.clients[c].conn == Some(conn) && conn in s.cms
    ensures LegalRun(s, steps)
    ensures var t := Exec(s, steps);
      t.registered == s.registered - {s.cms[conn]} && t.cms == s.cms - {conn}
      && c in t.clients && t.clients[c].phase == Dropped
  {
    var drop, serve, end := Drop(c), ServeDreq(Dreq(conn)), OtherEvent(conn);
    hide AcceptReply, ServeRequest, BringUp;
    RunSnoc(s, [], drop);
    hide Exec, LegalRun;
    RunSnoc(s, [] + [drop], serve);
    RunSnoc(s, [] + [drop] + [serve], end);
    steps := [] + [drop] + [serve] + [end];
  }

  /** There and back again: the server is as it was, but for what the address held
      before. */
  lemma ThereAndBack(s: State, c: ClientId, num: nat, port: PortAddr, conn: Conn, at: Addr, qpn: nat)
    returns (steps: seq<Step>)
    requires Inv(s) && c !in s.clients && conn !in s.created && conn !in s.cms && at !in s.cms.Values
    ensures LegalRun(s, steps)
    ensures var t := Exec(s, steps);
      t.registered == s.registered - {at} && t.cms == s.cms && c in t.clients && t.clients[c].phase == Dropped
  {
    hide Inv, Exec, LegalRun;
    var there := CanConnect(s, c, num, port, conn, at, qpn);
    var back := CanLeave(Exec(s, there), c, conn);
    ExecConcat(s, there, back);
    steps := there + back;
    assert s.cms[conn := at] - {conn} == s.cms;
    assert s.registered[at := Serving(ConnData(port, num, num), qpn)] - {at} == s.registered - {at};
  }

  /** A client whose queue pair the server could not make is told so: its handshake
      ends without Ok, and nothing is stored. */
  lemma Refused(s: State, c: ClientId, num: nat, port: PortAddr, conn: Conn, at: Addr, qpn: nat, fault: ReqFault)
    returns (steps: seq<Step>)
    requires Inv(s) && c !in s.clients && conn !in s.created && conn !in s.cms && at !in s.cms.Values && Rejects(fault)
    ensures LegalRun(s, steps)
    ensures var t := Exec(s, steps);
      && t.registered == s.registered && t.cms == s.cms
      && c in t.clients && t.clients[c].phase == Returned(false) && t.clients[c].done
      && t.clients[c].qp == NewQp(RC, num)
  {
    steps := Asks(s, c, num, port);
    var serve := ServeReq(Req(c, ConnData(port, num, num)), conn, at, qpn, fault);
    var handle, finish := HandleRej(Rej(c)), Finish(c, true);
    hide Inv, Exec, LegalRun;
    RunSnoc(s, steps, serve);
    steps := steps + [serve];
    RunSnoc(s, steps, handle);
    steps := steps + [handle];
    RunSnoc(s, steps, finish);
    steps := steps + [finish];
  }
}
