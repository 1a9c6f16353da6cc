/** A kernel-mode handshake that returns Ok has its mirror image on the server,
    whatever was lost or delivered twice. */
module KernelCmSafety {
  import opened Collections
  import opened QueuePairs
  import opened KernelCm

  /** A stored queue pair that is up and points to the client it was made for. */
  ghost predicate PointsTo(server: Qp, cl: Client) {
    && server.state.ReadyToSend? && server.sqPsn == server.num
    && server.dest == cl.qp.num && server.rqPsn == cl.qp.num && server.peer == cl.port
  }

  ghost predicate CreatedOk(s: State) {
    forall k <- s.created ::
      s.created[k].client in s.clients && PointsTo(s.created[k].qp, s.clients[s.created[k].client])
  }

  /** The registered entries are those of the connections stored last at each
      address and not closed; a live cm id is the last one at its address. */
  ghost predicate Stored(cms: map<Conn, Addr>, registered: map<Addr, Qp>, created: map<Conn, Created>,
                         last: map<Addr, Conn>, closed: set<Conn>)
  {
    && (forall k <- cms :: cms[k] in last && last[cms[k]] == k)
    && (forall at <- last :: last[at] in created)
    && (forall a, b :: a in last && b in last && a != b ==> last[a] != last[b])
    && (forall at :: at in registered <==> at in last && last[at] !in closed)
    && (forall at <- registered :: registered[at] == created[last[at]].qp)
  }

  ghost predicate StoredOk(s: State) {
    Stored(s.cms, s.registered, s.created, s.last, s.closed)
  }

  ghost predicate ClientOk(s: State, c: ClientId, cl: Client) {
    && (cl.qp.state.Reset? <==> cl.conn.None?)
    && (cl.conn.Some? ==>
          && cl.conn.value in s.created && s.created[cl.conn.value].client == c
          && (cl.qp.state.ReadyToSend? ==> Mirror(cl.qp, cl.port, s.created[cl.conn.value].qp, s.port)))
    && (cl.phase == Returned(true) ==> cl.qp.state.ReadyToSend?)
    && (cl.phase.Fresh? || cl.phase.Dropped? ==> !cl.cmAlive)
    && (cl.phase.Fresh? ==> cl.conn.None?)
  }

  ghost predicate ClientsOk(s: State) {
    forall c <- s.clients :: ClientOk(s, c, s.clients[c])
  }

  ghost predicate MsgOk(s: State, m: Msg) {
    match m
    case Req(c, d) =>
      c in s.clients && d.qpn == d.psn == s.clients[c].qp.num && d.port == s.clients[c].port
    case Rep(c, k, d) =>
      k in s.created && s.created[k].client == c && d.qpn == d.psn == s.created[k].qp.num && d.port == s.port
    case Rej(_) => true
    case Dreq(k) => Retired(s, k)
  }

  ghost predicate MsgsOk(s: State) {
    forall m <- s.net :: MsgOk(s, m)
  }

  /** The client of a connection has dropped its queue pair. */
  ghost predicate Retired(s: State, k: Conn) {
    k in s.created && s.created[k].client in s.clients && s.clients[s.created[k].client].phase.Dropped?
  }

  ghost predicate ClosedOk(s: State) {
    forall k <- s.closed :: Retired(s, k)
  }

  ghost predicate Inv(s: State) {
    CreatedOk(s) && StoredOk(s) && ClientsOk(s) && MsgsOk(s) && ClosedOk(s)
  }

  lemma InitialInv(port: PortAddr)
    ensures Inv(Initial(port))
  {
  }

  // ------------------------------------------- single steps, part by part

  /** A client keeps its number and port, and a dropped one stays dropped. */
  lemma ClientsKeep(s: State, step: Step)
    requires Legal(s, step)
    ensures var t := Apply(s, step);
      t.port == s.port
      && forall c <- s.clients ::
           && c in t.clients && t.clients[c].qp.num == s.clients[c].qp.num && t.clients[c].port == s.clients[c].port
           && (s.clients[c].phase.Dropped? ==> t.clients[c].phase.Dropped?)
  {
    hide ServeRequest;
    assert step.ServeReq? ==> Apply(s, step).clients == s.clients && Apply(s, step).port == s.port by {
      ServeFrame(s, step);
    }
  }

  /** What a request can change. */
  lemma ServeFrame(s: State, step: Step)
    requires Legal(s, step)
    ensures step.ServeReq? ==>
      var t := Apply(s, step);
      t.clients == s.clients && t.port == s.port && t.closed == s.closed
      && (t.created == s.created
          || t.created == s.created[step.conn := Created(step.msg.client,
               BringUp(NewQp(RC, step.qpn), step.msg.data.port, step.msg.data.qpn, step.msg.data.psn, NoFault))])
  {
  }

  /** Only a request creates. */
  lemma CreatedFrame(s: State, step: Step)
    requires Legal(s, step) && !step.ServeReq?
    ensures Apply(s, step).created == s.created
  {
  }

  lemma StepCreated(s: State, step: Step)
    requires CreatedOk(s) && MsgsOk(s) && Legal(s, step)
    ensures CreatedOk(Apply(s, step))
  {
    ClientsKeep(s, step);
    ServeFrame(s, step);
    if step.ServeReq? {
      assert MsgOk(s, step.msg);
    } else {
      CreatedFrame(s, step);
    }
    hide Apply, ServeRequest, AcceptReply, MsgsOk;
  }

  lemma StoredMore(s: State, conn: Conn, at: Addr, entry: Created)
    requires StoredOk(s) && ClosedOk(s) && conn !in s.created && conn !in s.cms && at !in s.cms.Values
    ensures Stored(s.cms, s.registered[at := entry.qp], s.created[conn := entry], s.last[at := conn], s.closed)
    ensures Stored(s.cms[conn := at], s.registered[at := entry.qp], s.created[conn := entry], s.last[at := conn],
                   s.closed)
  {
    assert conn !in s.closed by { assert forall k <- s.closed :: Retired(s, k); }
    assert forall k <- s.cms :: s.cms[k] in s.cms.Values;
  }

  lemma StoredFrame(s: State, step: Step)
    requires Legal(s, step) && !step.ServeReq? && !step.ServeDreq? && !step.OtherEvent?
    ensures var t := Apply(s, step);
      && t.cms == s.cms && t.registered == s.registered && t.created == s.created
      && t.last == s.last && t.closed == s.closed
  {
  }

  lemma ServeReqStored(s: State, step: Step)
    requires StoredOk(s) && ClosedOk(s) && Legal(s, step) && step.ServeReq?
    ensures StoredOk(Apply(s, step))
  {
    hide BringUp, ClosedOk, Stored;
    var t := Apply(s, step);
    if step.conn in t.created {
      StoredMore(s, step.conn, step.at, t.created[step.conn]);
    }
  }

  lemma ServeDreqStored(s: State, m: Msg)
    requires StoredOk(s) && Legal(s, ServeDreq(m))
    ensures StoredOk(Apply(s, ServeDreq(m)))
  {
    hide BringUp, AcceptReply, ServeRequest;
  }

  lemma OtherEventStored(s: State, conn: Conn)
    requires StoredOk(s) && Legal(s, OtherEvent(conn))
    ensures StoredOk(Apply(s, OtherEvent(conn)))
  {
    hide BringUp, AcceptReply, ServeRequest;
  }

  lemma StepStored(s: State, step: Step)
    requires StoredOk(s) && ClosedOk(s) && Legal(s, step)
    ensures StoredOk(Apply(s, step))
  {
    hide Apply, Legal, Stored, ClosedOk;
    match step
    case ServeReq(_, _, _, _, _) => ServeReqStored(s, step);
    case ServeDreq(m) => ServeDreqStored(s, m);
    case OtherEvent(conn) => OtherEventStored(s, conn);
    case _ => StoredFrame(s, step);
  }

  /** Created queue pairs stay, so what a client knows about them does too. */
  lemma ClientStays(s: State, t: State, c: ClientId, cl: Client)
    requires ClientOk(s, c, cl) && t.port == s.port
    requires forall k <- s.created :: k in t.created && t.created[k] == s.created[k]
    ensures ClientOk(t, c, cl)
  {
  }

  /** The first REP brings up a mirror image; a later one changes nothing. */
  lemma AcceptOk(s: State, m: Msg, fault: Fault)
    requires CreatedOk(s) && MsgsOk(s) && m in s.net && m.Rep? && m.client in s.clients
    requires ClientOk(s, m.client, s.clients[m.client]) && s.clients[m.client].cmAlive
    ensures ClientOk(s, m.client, AcceptReply(s.clients[m.client], m, fault))
  {
  }

  /** The client that a step is about, if any. */
  ghost predicate Concerns(step: Step, c: ClientId) {
    match step
    case NewClient(d, _, _, _) => c == d
    case SendReq(d) => c == d
    case HandleRep(m, _) => m.Rep? && c == m.client
    case HandleRej(m) => m.Rej? && c == m.client
    case Finish(d, _) => c == d
    case Drop(d) => c == d
    case ServeReq(_, _, _, _, _) => false
    case ServeDreq(_) => false
    case OtherEvent(_) => false
    case Lose(_) => false
  }

  lemma OthersSame(s: State, step: Step, c: ClientId)
    requires Legal(s, step) && !Concerns(step, c) && c in Apply(s, step).clients
    ensures c in s.clients && Apply(s, step).clients[c] == s.clients[c]
  {
    hide BringUp, AcceptReply;
  }

  /** A client's own steps but for the handling of a REP. */
  lemma OwnStep(s: State, step: Step, c: ClientId)
    requires Legal(s, step) && Concerns(step, c) && !step.HandleRep?
    requires c in s.clients ==> ClientOk(s, c, s.clients[c])
    ensures c in Apply(s, step).clients && ClientOk(s, c, Apply(s, step).clients[c])
  {
    hide ServeRequest, BringUp, AcceptReply, Mirror;
  }

  /** The client's side of a step, against the queue pairs created so far. */
  lemma ClientStep(s: State, step: Step, c: ClientId)
    requires CreatedOk(s) && ClientsOk(s) && MsgsOk(s) && Legal(s, step) && c in Apply(s, step).clients
    ensures ClientOk(s, c, Apply(s, step).clients[c])
  {
    hide ServeRequest, BringUp, AcceptReply;
    if !Concerns(step, c) {
      OthersSame(s, step, c);
      hide Apply, Legal;
    } else if step.HandleRep? {
      AcceptOk(s, step.msg, step.fault);
    } else {
      hide Apply, ClientOk;
      OwnStep(s, step, c);
    }
  }

  lemma CreatedStays(s: State, step: Step)
    requires Legal(s, step)
    ensures forall k <- s.created :: k in Apply(s, step).created && Apply(s, step).created[k] == s.created[k]
    ensures Apply(s, step).port == s.port
  {
  }

  lemma StepClients(s: State, step: Step)
    requires CreatedOk(s) && ClientsOk(s) && MsgsOk(s) && Legal(s, step)
    ensures ClientsOk(Apply(s, step))
  {
    var t := Apply(s, step);
    CreatedStays(s, step);
    hide CreatedOk, MsgsOk, Apply, ClientOk;
    forall c <- t.clients ensures ClientOk(t, c, t.clients[c]) {
      ClientStep(s, step, c);
      ClientStays(s, t, c, t.clients[c]);
    }
  }

  lemma MsgStays(s: State, step: Step, m: Msg)
    requires MsgOk(s, m) && Legal(s, step)
    ensures MsgOk(Apply(s, step), m)
  {
    ClientsKeep(s, step);
    CreatedStays(s, step);
    hide Apply, Legal;
  }

  lemma StepMsgs(s: State, step: Step)
    requires MsgsOk(s) && ClientsOk(s) && Legal(s, step)
    ensures MsgsOk(Apply(s, step))
  {
    var t := Apply(s, step);
    hide MsgsOk;
    forall m <- t.net ensures MsgOk(t, m) {
      if m in s.net {
        MsgStays(s, step, m);
      }
    }
  }

  lemma StepClosed(s: State, step: Step)
    requires ClosedOk(s) && MsgsOk(s) && Legal(s, step)
    ensures ClosedOk(Apply(s, step))
  {
  }

  lemma StepInv(s: State, step: Step)
    requires Inv(s) && Legal(s, step)
    ensures Inv(Apply(s, step))
  {
    hide CreatedOk, StoredOk, ClientsOk, MsgsOk, ClosedOk, Apply, Legal;
    StepCreated(s, step);
    StepStored(s, step);
    StepClients(s, step);
    StepMsgs(s, step);
    StepClosed(s, step);
  }

  lemma {:induction false} RunInv(s: State, steps: seq<Step>)
    requires Inv(s) && LegalRun(s, steps)
    ensures Inv(Exec(s, steps)) && Exec(s, steps).port == s.port
    decreases |steps|
  {
    hide Inv, Apply;
    if steps != [] {
      StepInv(s, steps[0]);
      CreatedStays(s, steps[0]);
      RunInv(Apply(s, steps[0]), steps[1..]);
    }
  }

  /** A handshake returns Ok only if the server made, brought to RTS and stored
      under its cm id a queue pair that mirrors the client's; and it is still
      stored there while that cm id lives. */
  lemma HandshakeOk(port: PortAddr, steps: seq<Step>, c: ClientId)
    requires LegalRun(Initial(port), steps)
    requires c in Exec(Initial(port), steps).clients && Exec(Initial(port), steps).clients[c].phase == Returned(true)
    ensures var s := Exec(Initial(port), steps); var cl := s.clients[c];
      && cl.conn.Some? && cl.conn.value in s.created && s.created[cl.conn.value].client == c
      && Mirror(cl.qp, cl.port, s.created[cl.conn.value].qp, port)
      && (cl.conn.value in s.cms ==>
            && s.cms[cl.conn.value] in s.registered
            && s.registered[s.cms[cl.conn.value]] == s.created[cl.conn.value].qp)
  {
    InitialInv(port);
    RunInv(Initial(port), steps);
    var s := Exec(Initial(port), steps);
    assert ClientOk(s, c, s.clients[c]);
    hide CreatedOk, ClientsOk, MsgsOk, Exec;
    assert s.clients[c].conn.value !in s.closed;
  }

  lemma StepKeepsPairing(s: State, step: Step, c: ClientId)
    requires Legal(s, step) && c in s.clients && !s.clients[c].qp.state.Reset?
    ensures var t := Apply(s, step);
      c in t.clients && t.clients[c].qp == s.clients[c].qp && t.clients[c].conn == s.clients[c].conn
  {
    if !Concerns(step, c) {
      OthersSame(s, step, c);
      hide Apply;
    }
    hide ServeRequest, Mirror;
  }

  /** Once a client's queue pair has left RESET nothing changes its pairing or the
      connection it belongs to, whatever REPs of whichever connections arrive. */
  lemma {:induction false} PairingStays(s: State, steps: seq<Step>, c: ClientId)
    requires LegalRun(s, steps) && c in s.clients && !s.clients[c].qp.state.Reset?
    ensures var t := Exec(s, steps);
      c in t.clients && t.clients[c].qp == s.clients[c].qp && t.clients[c].conn == s.clients[c].conn
    decreases |steps|
  {
    if steps != [] {
      StepKeepsPairing(s, steps[0], c);
      hide Apply, Legal;
      PairingStays(Apply(s, steps[0]), steps[1..], c);
    }
  }

  // ------------------------------------------------------- the address as a key

  /** A request stored at an address replaces an entry exactly if the connection
      stored there last lost its cm id without its DREQ having been handled; the
      entry it replaces is that connection's. */
  lemma ReplacedExactly(port: PortAddr, steps: seq<Step>, m: Msg, conn: Conn, at: Addr, qpn: nat, fault: ReqFault)
    requires LegalRun(Initial(port), steps)
    requires Legal(Exec(Initial(port), steps), ServeReq(m, conn, at, qpn, fault))
    ensures var s := Exec(Initial(port), steps);
      && (at in s.registered <==> at in s.last && s.last[at] !in s.cms && s.last[at] !in s.closed)
      && (at in s.registered ==> s.last[at] in s.created && s.registered[at] == s.created[s.last[at]].qp)
  {
    InitialInv(port);
    RunInv(Initial(port), steps);
    var s := Exec(Initial(port), steps);
    hide CreatedOk, ClientsOk, MsgsOk, ClosedOk, Exec;
    assert forall k <- s.cms :: s.cms[k] in s.cms.Values;
  }

  /** The address is a safe key only while its cm id lives: after an event that
      destroys it, the entry of a connected client can be overwritten. */
  lemma StaleKeyOverwritten(s: State, c: ClientId, m: Msg, conn: Conn, qpn: nat)
    requires Inv(s) && c in s.clients && s.clients[c].phase == Returned(true) && s.clients[c].conn.value in s.cms
    requires m in s.net && m.Req? && conn !in s.created && conn !in s.cms && qpn != s.clients[c].qp.dest
    ensures var k := s.clients[c].conn.value; var at := s.cms[k];
      var t := Apply(s, OtherEvent(k));
      var reuse := ServeReq(m, conn, at, qpn, NoReqFault);
      && Legal(s, OtherEvent(k)) && Legal(t, reuse)
      && at in t.registered && t.registered[at] == s.created[k].qp
      && Apply(t, reuse).clients == s.clients
      && Apply(t, reuse).registered[at].num != s.clients[c].qp.dest
  {
    var k := s.clients[c].conn.value;
    assert ClientOk(s, c, s.clients[c]);
    assert k !in s.closed;
    var t := Apply(s, OtherEvent(k));
    assert s.cms[k] !in t.cms.Values;
  }

  lemma {:induction false} RunSnoc(s: State, steps: seq<Step>, step: Step)
    requires LegalRun(s, steps) && Legal(Exec(s, steps), step)
    ensures LegalRun(s, steps + [step]) && Exec(s, steps + [step]) == Apply(Exec(s, steps), step)
    decreases |steps|
  {
    if steps == [] {
      assert ([] + [step])[1..] == [];
    } else {
      assert (steps + [step])[1..] == steps[1..] + [step];
      RunSnoc(Apply(s, steps[0]), steps[1..], step);
    }
  }

  /** The server has served client 1's request on a cm id at the address. */
  ghost predicate Served(s: State, port: PortAddr, at: Addr) {
    && s.port == port && s.clients.Keys == {1} && s.cms == map[1 := at] && s.created.Keys == {1}
    && s.clients[1] == Client(NewQp(RC, 3), port, Waiting, false, true, None)
    && Rep(1, 1, ConnData(port, 5, 5)) in s.net
  }

  lemma ServedRun(port: PortAddr, at: Addr) returns (steps: seq<Step>)
    ensures LegalRun(Initial(port), steps) && Served(Exec(Initial(port), steps), port, at)
  {
    var req := Req(1, ConnData(port, 3, 3));
    var one, two, three := NewClient(1, RC, 3, port), SendReq(1), ServeReq(req, 1, at, 5, NoReqFault);
    var s1 := Apply(Initial(port), one);
    var s2 := Apply(s1, two);
    assert s2.net == {req} && s2.clients == map[1 := Client(NewQp(RC, 3), port, Waiting, false, true, None)];
    RunSnoc(Initial(port), [], one);
    hide Exec, LegalRun;
    RunSnoc(Initial(port), [] + [one], two);
    RunSnoc(Initial(port), [] + [one] + [two], three);
    steps := [] + [one] + [two] + [three];
  }

  /** Client 1 is connected. */
  ghost predicate Connected(s: State, port: PortAddr, at: Addr) {
    && s.clients.Keys == {1} && s.cms == map[1 := at] && s.created.Keys == {1}
    && s.clients[1].phase == Returned(true) && s.clients[1].conn == Some(1) && s.clients[1].qp.dest == 5
  }

  lemma HandshakeRun(port: PortAddr, at: Addr) returns (steps: seq<Step>)
    ensures LegalRun(Initial(port), steps) && Connected(Exec(Initial(port), steps), port, at)
  {
    steps := ServedRun(port, at);
    hide Exec, LegalRun;
    var rep, finish := HandleRep(Rep(1, 1, ConnData(port, 5, 5)), NoFault), Finish(1, true);
    RunSnoc(Initial(port), steps, rep);
    steps := steps + [rep];
    RunSnoc(Initial(port), steps, finish);
    steps := steps + [finish];
  }

  /** A run in which client 1 connects and client 2 has sent its request. */
  lemma ConnectedRun(port: PortAddr, at: Addr) returns (steps: seq<Step>)
    ensures LegalRun(Initial(port), steps)
    ensures var s := Exec(Initial(port), steps);
      && 1 in s.clients && s.clients[1].phase == Returned(true) && s.clients[1].conn == Some(1)
      && s.clients[1].qp.dest == 5 && s.cms == map[1 := at] && s.created.Keys == {1}
      && Req(2, ConnData(port, 4, 4)) in s.net
  {
    steps := HandshakeRun(port, at);
    hide Exec, LegalRun;
    var newcomer, send := NewClient(2, RC, 4, port), SendReq(2);
    RunSnoc(Initial(port), steps, newcomer);
    steps := steps + [newcomer];
    RunSnoc(Initial(port), steps, send);
    steps := steps + [send];
  }

  /** A run after which a client that is connected finds another client's queue
      pair under its key: its cm id was destroyed and the address reused. */
  lemma StaleKeyReached(port: PortAddr, at: Addr) returns (steps: seq<Step>)
    ensures LegalRun(Initial(port), steps)
    ensures var s := Exec(Initial(port), steps);
      && 1 in s.clients && s.clients[1].phase == Returned(true) && at in s.registered
      && s.registered[at].num != s.clients[1].qp.dest
  {
    steps := ConnectedRun(port, at);
    InitialInv(port);
    RunInv(Initial(port), steps);
    var s := Exec(Initial(port), steps);
    hide Exec, LegalRun, Inv, Legal, Apply;
    var m := Req(2, ConnData(port, 4, 4));
    StaleKeyOverwritten(s, 1, m, 2, 6);
    RunSnoc(Initial(port), steps, OtherEvent(1));
    RunSnoc(Initial(port), steps + [OtherEvent(1)], ServeReq(m, 2, at, 6, NoReqFault));
    steps := steps + [OtherEvent(1)] + [ServeReq(m, 2, at, 6, NoReqFault)];
  }
}
