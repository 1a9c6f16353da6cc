/** Connection establishment in kernel mode over the InfiniBand connection manager
    (chapter 12 of the InfiniBand Architecture Specification, Volume 1).

    The connection manager may lose messages and may deliver one several times.
    For each request it creates a cm id on the server, and the server keys its
    queue pair by that cm id's address; a cm id whose handler returns an error is
    destroyed and its address may be used again. */
module KernelCm {
  import opened Collections
  import opened QueuePairs

  type ClientId = nat
  type Conn = nat
  type Addr = nat

  /** The data of a REQ or REP: port, queue pair number and starting PSN. */
  datatype ConnData = ConnData(port: PortAddr, qpn: nat, psn: nat)

  datatype Msg =
    | Req(client: ClientId, data: ConnData)
    | Rep(client: ClientId, conn: Conn, data: ConnData)
    | Rej(client: ClientId)
    | Dreq(conn: Conn)

  /** The client's handshake: not called, waiting for the completion, or over. */
  datatype Phase = Fresh | Waiting | Returned(ok: bool) | Dropped

  /** `conn` is the connection whose REP brought the queue pair up. */
  datatype Client = Client(qp: Qp, port: PortAddr, phase: Phase, done: bool, cmAlive: bool, conn: Option<Conn>)

  datatype Created = Created(client: ClientId, qp: Qp)

  /** `cms` are the server's live cm ids.  `created`, `last` and `closed` are
      history: every queue pair ever stored, the connection stored last at each
      address, and the connections whose DREQ was handled. */
  datatype State = State(
    port: PortAddr,
    registered: map<Addr, Qp>,
    cms: map<Conn, Addr>,
    clients: map<ClientId, Client>,
    net: set<Msg>,
    created: map<Conn, Created>,
    last: map<Addr, Conn>,
    closed: set<Conn>)

  function Initial(port: PortAddr): State {
    State(port, map[], map[], map[], {}, map[], map[], {})
  }

  /** What can go wrong in the server's REQ handler; the last one happens after
      the queue pair was stored. */
  datatype ReqFault = NoReqFault | BuildFails | BringUpFails(fault: Fault) | DataFails | ReplyFails

  datatype Step =
    | NewClient(client: ClientId, mode: QpType, qpn: nat, port: PortAddr)
    | SendReq(client: ClientId)
    | ServeReq(msg: Msg, conn: Conn, at: Addr, qpn: nat, reqFault: ReqFault)
    | HandleRep(msg: Msg, fault: Fault)
    | HandleRej(msg: Msg)
    | Finish(client: ClientId, waited: bool)
    | Drop(client: ClientId)
    | ServeDreq(msg: Msg)
    | OtherEvent(conn: Conn)
    | Lose(msg: Msg)

  predicate Legal(s: State, step: Step) {
    match step
    case NewClient(c, _, _, _) => c !in s.clients
    case SendReq(c) => c in s.clients && s.clients[c].phase.Fresh?
    case ServeReq(m, conn, at, _, _) =>
      m in s.net && m.Req? && conn !in s.created && conn !in s.cms && at !in s.cms.Values
    case HandleRep(m, _) => m in s.net && m.Rep? && m.client in s.clients && s.clients[m.client].cmAlive
    case HandleRej(m) => m in s.net && m.Rej? && m.client in s.clients && s.clients[m.client].cmAlive
    case Finish(c, waited) => c in s.clients && s.clients[c].phase.Waiting? && (waited ==> s.clients[c].done)
    case Drop(c) => c in s.clients && s.clients[c].phase.Returned?
    case ServeDreq(m) => m in s.net && m.Dreq? && m.conn in s.cms
    case OtherEvent(conn) => conn in s.cms
    case Lose(m) => m in s.net
  }

  /** `handle_req`: create, bring up, store, reply; any error destroys the cm id. */
  function ServeRequest(s: State, m: Msg, conn: Conn, at: Addr, qpn: nat, fault: ReqFault): State
    requires m.Req?
  {
    var qp := BringUp(NewQp(RC, qpn), m.data.port, m.data.qpn, m.data.psn,
                      if fault.BringUpFails? then fault.fault else NoFault);
    if fault.BuildFails? || (fault.BringUpFails? && !fault.fault.NoFault?) then s.(net := s.net + {Rej(m.client)})
    else if fault.DataFails? then s
    else
      var s1 := s.(registered := s.registered[at := qp], last := s.last[at := conn],
                   created := s.created[conn := Created(m.client, qp)]);
      if fault.ReplyFails? then s1
      else s1.(cms := s.cms[conn := at], net := s.net + {Rep(m.client, conn, ConnData(s.port, qpn, qpn))})
  }

  /** `handle_rep` on the client: bring up, then signal; an error destroys the
      client's cm id and does not signal. */
  function AcceptReply(cl: Client, m: Msg, fault: Fault): Client
    requires m.Rep?
  {
    var qp := BringUp(cl.qp, m.data.port, m.data.qpn, m.data.psn, fault);
    var conn := if cl.qp.state.Reset? && !qp.state.Reset? then Some(m.conn) else cl.conn;
    if Succeeds(cl.qp, fault) then cl.(qp := qp, conn := conn, done := true)
    else cl.(qp := qp, conn := conn, cmAlive := false)
  }

  function Apply(s: State, step: Step): State
    requires Legal(s, step)
  {
    match step
    case NewClient(c, mode, qpn, port) =>
      s.(clients := s.clients[c := Client(NewQp(mode, qpn), port, Fresh, false, false, None)])
    case SendReq(c) =>
      var cl := s.clients[c];
      if !cl.qp.mode.RC? then s.(clients := s.clients[c := cl.(phase := Returned(false))])
      else s.(clients := s.clients[c := cl.(phase := Waiting, cmAlive := true)],
              net := s.net + {Req(c, ConnData(cl.port, cl.qp.num, cl.qp.num))})
    case ServeReq(m, conn, at, qpn, fault) => ServeRequest(s, m, conn, at, qpn, fault)
    case HandleRep(m, fault) =>
      s.(clients := s.clients[m.client := AcceptReply(s.clients[m.client], m, fault)])
    case HandleRej(m) =>
      s.(clients := s.clients[m.client := s.clients[m.client].(done := true)])
    case Finish(c, waited) =>
      var cl := s.clients[c];
      s.(clients := s.clients[c := cl.(phase := Returned(waited && cl.qp.state.ReadyToSend?))])
    case Drop(c) =>
      var cl := s.clients[c];
      s.(clients := s.clients[c := cl.(phase := Dropped, cmAlive := false)],
         net := s.net + (if cl.conn.Some? then {Dreq(cl.conn.value)} else {}))
    case ServeDreq(m) => s.(registered := s.registered - {s.cms[m.conn]}, closed := s.closed + {m.conn})
    case OtherEvent(conn) => s.(cms := s.cms - {conn})
    case Lose(m) => s.(net := s.net - {m})
  }

  predicate LegalRun(s: State, steps: seq<Step>)
    decreases |steps|
  {
    steps == [] || (Legal(s, steps[0]) && LegalRun(Apply(s, steps[0]), steps[1..]))
  }

  function Exec(s: State, steps: seq<Step>): State
    requires LegalRun(s, steps)
    decreases |steps|
  {
    if steps == [] then s else Exec(Apply(s, steps[0]), steps[1..])
  }
}
