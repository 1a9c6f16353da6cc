/** Connection establishment in user mode: any number of clients, one connection
    manager server, and messages that may get lost with their TCP stream.

    The server keys its queue pairs by their heap address, and an address is used
    again after the queue pair that had it was freed. */
module UserCm {
  import opened Collections
  import opened QueuePairs

  type Key = nat
  type ClientId = nat

  /** `RCConnectionData`: where and which queue pair, its first sequence number
      and, in a response, the server's key. */
  datatype ConnData = ConnData(port: PortAddr, qpn: nat, psn: nat, key: Key)

  /** Messages under way.  Requests and their responses share a stream, so each
      is tagged with its client. */
  datatype Msg =
    | RegReq(client: ClientId, data: ConnData)
    | RegRes(client: ClientId, data: ConnData)
    | ErrorRes(client: ClientId)
    | DeregReq(key: Key)

  /** A client's `PreparedQueuePair` on its way through `handshake`: not called
      yet, waiting for the response, connected (with a `CommStruct` key), or
      gone, by failure or by drop. */
  datatype Phase = Fresh | Waiting | Connected(key: Key) | Gone

  datatype Client = Client(qp: Qp, port: PortAddr, phase: Phase)

  /** `live` are the addresses of queue pairs on the server's heap: a removed
      one stays while the application holds a reference to it. */
  datatype State = State(
    port: PortAddr,
    registered: map<Key, Qp>,
    live: set<Key>,
    clients: map<ClientId, Client>,
    net: set<Msg>)

  function Initial(port: PortAddr): State {
    State(port, map[], {}, map[], {})
  }

  /** What can go wrong in the registration handler. */
  datatype RegFault = NoRegFault | BuildFails | BringUpFails(fault: Fault) | PortQueryFails | SerializeFails

  /** `handle_reg_rc_req`: the map afterwards and the response, if it is Ok.  A
      serialization error comes after the queue pair was stored. */
  function HandleReg(registered: map<Key, Qp>, port: PortAddr, data: ConnData, qpn: nat, key: Key, fault: RegFault)
    : (map<Key, Qp>, Option<ConnData>)
  {
    var qp := BringUp(NewQp(RC, qpn), data.port, data.qpn, data.psn,
                      if fault.BringUpFails? then fault.fault else NoFault);
    if fault.BuildFails? || fault.PortQueryFails? || (fault.BringUpFails? && !fault.fault.NoFault?)
    then (registered, None)
    else
      var registered' := registered[key := qp];
      if fault.SerializeFails? then (registered', None)
      else (registered', Some(ConnData(port, qpn, qpn, key)))
  }

  /** The end of `handshake`: bring up against the response, then keep the key. */
  function AcceptResponse(cl: Client, data: ConnData, fault: Fault): Client {
    Client(BringUp(cl.qp, data.port, data.qpn, data.psn, fault), cl.port,
           if Succeeds(cl.qp, fault) then Connected(data.key) else Gone)
  }

  datatype Step =
    | NewClient(client: ClientId, mode: QpType, qpn: nat, port: PortAddr)
    | SendReq(client: ClientId)
    | ServeReg(msg: Msg, qpn: nat, key: Key, regFault: RegFault)
    | ReceiveRes(msg: Msg, fault: Fault)
    | ReceiveError(msg: Msg)
    | GiveUp(client: ClientId)
    | Drop(client: ClientId, connects: bool)
    | ServeDereg(msg: Msg)
    | FreeQp(key: Key)
    | Lose(msg: Msg)

  predicate Legal(s: State, step: Step) {
    match step
    case NewClient(c, _, _, _) => c !in s.clients
    case SendReq(c) => c in s.clients && s.clients[c].phase.Fresh?
    case ServeReg(m, _, key, _) => m in s.net && m.RegReq? && key !in s.live
    case ReceiveRes(m, _) => m in s.net && m.RegRes? && m.client in s.clients && s.clients[m.client].phase.Waiting?
    case ReceiveError(m) => m in s.net && m.ErrorRes? && m.client in s.clients && s.clients[m.client].phase.Waiting?
    case GiveUp(c) => c in s.clients && (s.clients[c].phase.Fresh? || s.clients[c].phase.Waiting?)
    case Drop(c, _) => c in s.clients && s.clients[c].phase.Connected?
    case ServeDereg(m) => m in s.net && m.DeregReq?
    case FreeQp(key) => key in s.live && key !in s.registered
    case Lose(m) => m in s.net
  }

  function SetPhase(s: State, c: ClientId, phase: Phase): State
    requires c in s.clients
  {
    s.(clients := s.clients[c := s.clients[c].(phase := phase)])
  }

  function Apply(s: State, step: Step): State
    requires Legal(s, step)
  {
    match step
    case NewClient(c, mode, qpn, port) => s.(clients := s.clients[c := Client(NewQp(mode, qpn), port, Fresh)])
    case SendReq(c) =>
      var cl := s.clients[c];
      if !cl.qp.mode.RC? then SetPhase(s, c, Gone)
      else SetPhase(s, c, Waiting).(net := s.net + {RegReq(c, ConnData(cl.port, cl.qp.num, cl.qp.num, 0))})
    case ServeReg(m, qpn, key, fault) =>
      var (registered, res) := HandleReg(s.registered, s.port, m.data, qpn, key, fault);
      s.(registered := registered,
         live := s.live + (if key in registered then {key} else {}),
         net := s.net - {m} + {if res.Some? then RegRes(m.client, res.value) else ErrorRes(m.client)})
    case ReceiveRes(m, fault) =>
      s.(clients := s.clients[m.client := AcceptResponse(s.clients[m.client], m.data, fault)], net := s.net - {m})
    case ReceiveError(m) => SetPhase(s, m.client, Gone).(net := s.net - {m})
    case GiveUp(c) => SetPhase(s, c, Gone)
    case Drop(c, connects) =>
      var s1 := SetPhase(s, c, Gone);
      if connects then s1.(net := s.net + {DeregReq(s.clients[c].phase.key)}) else s1
    case ServeDereg(m) => s.(registered := s.registered - {m.key}, net := s.net - {m})
    case FreeQp(key) => s.(live := s.live - {key})
    case Lose(m) => s.(net := s.net - {m})
  }

  predicate LegalRun(s: State, steps: seq<Step>)
    decreases |steps|
  {
    steps == [] || (Legal(s, steps[0]) && LegalRun(Apply(s, steps[0]), steps[1..]))
  }

  function Exec(s: State, steps: seq<Step>): State
    requires LegalRun(s, steps)
    decreases |steps|
  {
    if steps == [] then s else Exec(Apply(s, steps[0]), steps[1..])
  }
}
