/** The two ends of a connection as objects: the user-mode connection manager
    server and client, and the kernel-mode ones.  Each method does what one step
    of the protocol does. */
module CmEndpoints {
  import opened Collections
  import opened QueuePairs
  import U = UserCm
  import K = KernelCm
  import UserCmSafety

  // ------------------------------------------------------------ user mode server

  /** A message as read from a stream.  A payload that does not parse is None;
      the registration carries what the server's verbs will do. */
  datatype Incoming =
    | RegRcReq(data: Option<U.ConnData>, qpn: nat, key: U.Key, fault: U.RegFault)
    | DeregRcReq(dereg: Option<U.Key>)
    | QueryMrReq(serializes: bool)
    | NotARequest
    | UserSlot
    | Unparsable

  /** `NeverSend` is never sent: see `SendsBack`. */
  datatype Reply = RegRcRes(data: U.ConnData) | QueryMrRes | ErrorReply | NeverSend

  predicate SendsBack(r: Reply) {
    !r.NeverSend?
  }

  /** Whether a message ends the stream's handler: it cannot be read, or the
      handler for it is not implemented. */
  predicate Ends(m: Incoming) {
    m.Unparsable? || m.UserSlot?
  }

  /** The registered queue pairs after a message, and the reply. */
  function Serve(registered: map<U.Key, Qp>, port: PortAddr, m: Incoming): (map<U.Key, Qp>, Reply) {
    match m
    case RegRcReq(data, qpn, key, fault) =>
      if data.None? then (registered, ErrorReply)
      else
        var (registered', res) := U.HandleReg(registered, port, data.value, qpn, key, fault);
        (registered', if res.Some? then RegRcRes(res.value) else ErrorReply)
    case DeregRcReq(key) =>
      if key.None? then (registered, ErrorReply) else (registered - {key.value}, NeverSend)
    case QueryMrReq(serializes) => (registered, if serializes then QueryMrRes else ErrorReply)
    case NotARequest => (registered, ErrorReply)
    case UserSlot => (registered, NeverSend)
    case Unparsable => (registered, NeverSend)
  }

  /** A whole stream: the queue pairs left and what was written back. */
  function ServeStream(registered: map<U.Key, Qp>, port: PortAddr, msgs: seq<Incoming>)
    : (map<U.Key, Qp>, seq<Reply>)
    decreases |msgs|
  {
    if msgs == [] || Ends(msgs[0]) then (registered, [])
    else
      var (registered', r) := Serve(registered, port, msgs[0]);
      var (rest, rs) := ServeStream(registered', port, msgs[1..]);
      (rest, (if SendsBack(r) then [r] else []) + rs)
  }

  // ------------------------------------------------- a stream is a run

  /** The protocol step that serving a message of client c is, if it is one. */
  function StepOf(c: U.ClientId, m: Incoming): Option<U.Step> {
    if m.RegRcReq? && m.data.Some? then Some(U.ServeReg(U.RegReq(c, m.data.value), m.qpn, m.key, m.fault))
    else if m.DeregRcReq? && m.dereg.Some? then Some(U.ServeDereg(U.DeregReq(m.dereg.value)))
    else None
  }

  /** The stream carries what client c has sent: each request it serves is under
      way, and each new queue pair gets an address that is free. */
  predicate Carried(s: U.State, c: U.ClientId, msgs: seq<Incoming>)
    decreases |msgs|
  {
    msgs == [] || Ends(msgs[0])
    || match StepOf(c, msgs[0])
       case None => Carried(s, c, msgs[1..])
       case Some(step) => U.Legal(s, step) && Carried(U.Apply(s, step), c, msgs[1..])
  }

  /** Serving a message is the protocol's step: the same queue pairs are registered
      and the answer that is written is the response that gets under way. */
  lemma ServingIsStep(s: U.State, c: U.ClientId, m: Incoming)
    ensures var (registered, r) := Serve(s.registered, s.port, m);
      match StepOf(c, m)
      case None => registered == s.registered
      case Some(step) =>
        U.Legal(s, step) ==>
          var t := U.Apply(s, step);
          && t.registered == registered && t.port == s.port
          && (SendsBack(r) <==> m.RegRcReq?)
          && t.net == s.net - {step.msg}
                      + (if r.RegRcRes? then {U.RegRes(c, r.data)} else if SendsBack(r) then {U.ErrorRes(c)} else {})
  {
  }

  ghost predicate Serves(steps: seq<U.Step>) {
    forall step <- steps :: step.ServeReg? || step.ServeDereg?
  }

  /** The service loop over a stream is a run of the protocol, and the responses
      it writes are under way after it. */
  lemma {:induction false} StreamIsRun(s: U.State, c: U.ClientId, msgs: seq<Incoming>) returns (steps: seq<U.Step>)
    requires Carried(s, c, msgs)
    ensures U.LegalRun(s, steps) && Serves(steps)
    ensures var (registered, written) := ServeStream(s.registered, s.port, msgs);
      && U.Exec(s, steps).registered == registered
      && forall r <- written :: r.RegRcRes? ==> U.RegRes(c, r.data) in U.Exec(s, steps).net
    decreases |msgs|
  {
    steps := [];
    if msgs != [] && !Ends(msgs[0]) {
      var m := msgs[0];
      ServingIsStep(s, c, m);
      hide U.HandleReg, Serve;
      var t := if StepOf(c, m).Some? then U.Apply(s, StepOf(c, m).value) else s;
      steps := StreamIsRun(t, c, msgs[1..]);
      ResponsesStay(t, steps);
      if StepOf(c, m).Some? {
        var rest := steps;
        steps := [StepOf(c, m).value] + rest;
        assert steps[1..] == rest;
      }
    }
  }

  /** Serving takes no response away. */
  lemma {:induction false} ResponsesStay(s: U.State, steps: seq<U.Step>)
    requires U.LegalRun(s, steps) && Serves(steps)
    ensures forall m <- s.net :: m.RegRes? ==> m in U.Exec(s, steps).net
    decreases |steps|
  {
    if steps != [] {
      assert steps[0] in steps;
      hide U.HandleReg;
      ResponsesStay(U.Apply(s, steps[0]), steps[1..]);
    }
  }

  lemma {:induction false} ExecConcat(s: U.State, a: seq<U.Step>, b: seq<U.Step>)
    requires U.LegalRun(s, a) && U.LegalRun(U.Exec(s, a), b)
    ensures U.LegalRun(s, a + b) && U.Exec(s, a + b) == U.Exec(U.Exec(s, a), b)
    decreases |a|
  {
    hide U.Legal, U.Apply;
    if a == [] {
      assert a + b == b;
    } else {
      assert (a + b)[1..] == a[1..] + b;
      ExecConcat(U.Apply(s, a[0]), a[1..], b);
    }
  }

  lemma {:induction false} ClientsStay(s: U.State, steps: seq<U.Step>)
    requires U.LegalRun(s, steps) && Serves(steps)
    ensures U.Exec(s, steps).clients == s.clients
    decreases |steps|
  {
    if steps != [] {
      assert steps[0] in steps;
      ClientsStay(U.Apply(s, steps[0]), steps[1..]);
    }
  }

  /** Whatever stream of whichever client is served after whatever run: a client
      that is connected has its mirror image among the queue pairs that the
      service loop leaves registered. */
  lemma ServedMirrored(port: PortAddr, before: seq<U.Step>, c: U.ClientId, msgs: seq<Incoming>, d: U.ClientId)
    requires U.LegalRun(U.Initial(port), before)
    requires var s := U.Exec(U.Initial(port), before);
      Carried(s, c, msgs) && d in s.clients && s.clients[d].phase.Connected?
    ensures var s := U.Exec(U.Initial(port), before);
      var (key, registered) := (s.clients[d].phase.key, ServeStream(s.registered, port, msgs).0);
      key in registered && Mirror(s.clients[d].qp, s.clients[d].port, registered[key], port)
  {
    var s := U.Exec(U.Initial(port), before);
    UserCmSafety.PortStays(U.Initial(port), before);
    hide U.Exec, U.LegalRun, Carried, ServeStream, Mirror;
    var steps := StreamIsRun(s, c, msgs);
    ExecConcat(U.Initial(port), before, steps);
    ClientsStay(s, steps);
    UserCmSafety.ConnectedIsMirrored(port, before + steps, d);
  }

  // --------------------------------------------------- answers, one by one

  /** A message that is never answered. */
  predicate Unanswered(m: Incoming) {
    m.DeregRcReq? && m.dereg.Some?
  }

  /** The positions from k on of the messages that are answered. */
  function Answered(msgs: seq<Incoming>, k: nat): (at: seq<nat>)
    requires k <= |msgs|
    ensures forall x :: 0 <= x < |at| ==> k <= at[x] < |msgs|
    decreases |msgs| - k
  {
    if k == |msgs| || Ends(msgs[k]) then []
    else (if Unanswered(msgs[k]) then [] else [k]) + Answered(msgs, k + 1)
  }

  /** They are, in order, the messages before the end of the stream that are not
      deregistrations. */
  lemma {:induction false} AnsweredAre(msgs: seq<Incoming>, k: nat)
    requires k <= |msgs|
    ensures forall x, y :: 0 <= x < y < |Answered(msgs, k)| ==> Answered(msgs, k)[x] < Answered(msgs, k)[y]
    ensures forall i :: i in Answered(msgs, k) <==>
      k <= i < |msgs| && !Unanswered(msgs[i]) && forall x :: k <= x <= i ==> !Ends(msgs[x])
    decreases |msgs| - k
  {
    if k < |msgs| && !Ends(msgs[k]) {
      AnsweredAre(msgs, k + 1);
      var rest := Answered(msgs, k + 1);
      hide Ends, Unanswered;
      assert Answered(msgs, k) == (if Unanswered(msgs[k]) then [] else [k]) + rest;
      assert forall i :: i in Answered(msgs, k) <==> i in rest || (i == k && !Unanswered(msgs[k]));
    }
  }

  lemma {:induction false} StreamSnoc(registered: map<U.Key, Qp>, port: PortAddr, msgs: seq<Incoming>, m: Incoming)
    requires (forall x <- msgs :: !Ends(x)) && !Ends(m)
    ensures ServeStream(registered, port, msgs + [m]).0 == Serve(ServeStream(registered, port, msgs).0, port, m).0
    decreases |msgs|
  {
    hide Serve, Ends;
    if msgs == [] {
      assert ([] + [m])[1..] == [];
    } else {
      assert msgs[0] in msgs && (msgs + [m])[1..] == msgs[1..] + [m];
      StreamSnoc(Serve(registered, port, msgs[0]).0, port, msgs[1..], m);
    }
  }

  /** A stream from its k-th message on. */
  lemma StreamCons(registered: map<U.Key, Qp>, port: PortAddr, msgs: seq<Incoming>, k: nat)
    requires k < |msgs| && !Ends(msgs[k])
    ensures var (after, r) := Serve(registered, port, msgs[k]);
      var (rest, rs) := ServeStream(after, port, msgs[k + 1..]);
      ServeStream(registered, port, msgs[k..]) == (rest, (if SendsBack(r) then [r] else []) + rs)
  {
    hide Serve, Ends, SendsBack;
    assert msgs[k..][1..] == msgs[k + 1..];
  }

  lemma StreamOver(registered: map<U.Key, Qp>, port: PortAddr, msgs: seq<Incoming>, k: nat)
    requires k <= |msgs| && (k == |msgs| || Ends(msgs[k]))
    ensures ServeStream(registered, port, msgs[k..]) == (registered, [])
  {
  }

  lemma {:induction false} AnsweredFrom(registered: map<U.Key, Qp>, port: PortAddr, msgs: seq<Incoming>, k: nat, j: nat)
    requires k <= |msgs| && forall i :: 0 <= i < k ==> !Ends(msgs[i])
    ensures var rest := ServeStream(ServeStream(registered, port, msgs[..k]).0, port, msgs[k..]).1;
      && |rest| == |Answered(msgs, k)|
      && (j < |rest| ==>
            var i := Answered(msgs, k)[j];
            rest[j] == Serve(ServeStream(registered, port, msgs[..i]).0, port, msgs[i]).1)
    decreases |msgs| - k
  {
    var now := ServeStream(registered, port, msgs[..k]).0;
    hide Serve, Ends, Unanswered, ServeStream, SendsBack;
    if k == |msgs| || Ends(msgs[k]) {
      StreamOver(now, port, msgs, k);
    } else {
      StreamSnoc(registered, port, msgs[..k], msgs[k]);
      StreamCons(now, port, msgs, k);
      assert msgs[..k + 1] == msgs[..k] + [msgs[k]];
      SilentExactly(now, port, msgs[k]);
      var skip := if Unanswered(msgs[k]) then 0 else 1;
      AnsweredFrom(registered, port, msgs, k + 1, if j >= skip then j - skip else 0);
    }
  }

  lemma SilentExactly(registered: map<U.Key, Qp>, port: PortAddr, m: Incoming)
    requires !Ends(m)
    ensures SendsBack(Serve(registered, port, m).1) <==> !Unanswered(m)
  {
  }

  /** The j-th answer on a stream is the answer to the j-th message that is to be
      answered, given by the server as the messages before left it. */
  lemma AnsweredInOrder(registered: map<U.Key, Qp>, port: PortAddr, msgs: seq<Incoming>, j: nat)
    ensures var written := ServeStream(registered, port, msgs).1;
      && |written| == |Answered(msgs, 0)|
      && (j < |written| ==>
            var i := Answered(msgs, 0)[j];
            written[j] == Serve(ServeStream(registered, port, msgs[..i]).0, port, msgs[i]).1)
  {
    AnsweredFrom(registered, port, msgs, 0, j);
    assert msgs[..0] == [] && msgs[0..] == msgs;
  }

  /** A key no message of the stream names keeps its queue pair. */
  lemma {:induction false} OthersKept(registered: map<U.Key, Qp>, port: PortAddr, msgs: seq<Incoming>, key: U.Key)
    requires forall m <- msgs :: !(m.RegRcReq? && m.key == key) && !(m.DeregRcReq? && m.dereg == Some(key))
    ensures var r := ServeStream(registered, port, msgs).0;
      (key in r <==> key in registered) && (key in r ==> r[key] == registered[key])
    decreases |msgs|
  {
    if msgs != [] && !Ends(msgs[0]) {
      OthersKept(Serve(registered, port, msgs[0]).0, port, msgs[1..], key);
    }
  }

  /** What each message is answered with: a registration with the data of the new
      queue pair exactly if it parses and nothing fails, a query for memory regions
      if the answer can be written, a deregistration not at all, and everything else
      with an error; only registrations and deregistrations change anything, and
      only under their own key. */
  lemma RepliesExactly(registered: map<U.Key, Qp>, port: PortAddr, m: Incoming)
    requires !Ends(m)
    ensures var (after, r) := Serve(registered, port, m);
      && (forall d :: r == RegRcRes(d) <==>
            m.RegRcReq? && m.data.Some? && (m.fault == U.NoRegFault || m.fault == U.BringUpFails(NoFault))
            && d == U.ConnData(port, m.qpn, m.qpn, m.key))
      && (r == QueryMrRes <==> m == QueryMrReq(true))
      && (r == NeverSend <==> m.DeregRcReq? && m.dereg.Some?)
      && (m.DeregRcReq? && m.dereg.Some? ==> after == registered - {m.dereg.value})
      && (!m.RegRcReq? && !m.DeregRcReq? ==> after == registered)
      && (m.RegRcReq? ==> after - {m.key} == registered - {m.key})
  {
  }

  class ConnectionManagerServer {
    const port: PortAddr
    var registeredRc: map<U.Key, Qp>

    constructor (port: PortAddr)
      ensures this.port == port && registeredRc == map[]
    {
      this.port, registeredRc := port, map[];
    }

    method HandleRegRcReq(data: U.ConnData, qpn: nat, key: U.Key, fault: U.RegFault)
      returns (res: Option<U.ConnData>)
      modifies this
      ensures (registeredRc, res) == U.HandleReg(old(registeredRc), port, data, qpn, key, fault)
      ensures res == if fault == U.NoRegFault || fault == U.BringUpFails(NoFault)
                     then Some(U.ConnData(port, qpn, qpn, key)) else None
      ensures res.Some? ==>
        registeredRc == old(registeredRc)[key := Qp(RC, qpn, ReadyToSend, data.port, data.qpn, data.psn, qpn)]
    {
      if fault.BuildFails? {
        return None;
      }
      var qp := new QueuePair(RC, qpn);
      var ok := qp.BringUpRcInner(data.port, data.qpn, data.psn, if fault.BringUpFails? then fault.fault else NoFault);
      if !ok || fault.PortQueryFails? {
        return None;
      }
      registeredRc := registeredRc[key := qp.Model()];
      if fault.SerializeFails? {
        return None;
      }
      return Some(U.ConnData(port, qp.num, qp.num, key));
    }

    method HandleMessage(m: Incoming) returns (reply: Reply)
      requires !Ends(m)
      modifies this
      ensures (registeredRc, reply) == Serve(old(registeredRc), port, m)
    {
      hide U.HandleReg;
      reply := ErrorReply;
      match m {
        case RegRcReq(data, qpn, key, fault) =>
          if data.Some? {
            var res := HandleRegRcReq(data.value, qpn, key, fault);
            if res.Some? {
              reply := RegRcRes(res.value);
            }
          }
        case DeregRcReq(key) =>
          if key.Some? {
            registeredRc := registeredRc - {key.value};
            reply := NeverSend;
          }
        case QueryMrReq(serializes) =>
          if serializes {
            reply := QueryMrRes;
          }
        case NotARequest =>
      }
    }

    /** The loop over one stream. */
    method ServiceHandler(msgs: seq<Incoming>) returns (written: seq<Reply>)
      modifies this
      ensures registeredRc == ServeStream(old(registeredRc), port, msgs).0
      ensures written == ServeStream(old(registeredRc), port, msgs).1
    {
      hide Serve, Ends, SendsBack;
      written := [];
      ghost var all := ServeStream(registeredRc, port, msgs);
      assert msgs[0..] == msgs;
      var i := 0;
      while i < |msgs| && !Ends(msgs[i])
        invariant i <= |msgs|
        invariant all.0 == ServeStream(registeredRc, port, msgs[i..]).0
        invariant all.1 == written + ServeStream(registeredRc, port, msgs[i..]).1
      {
        StreamCons(registeredRc, port, msgs, i);
        var reply := HandleMessage(msgs[i]);
        if SendsBack(reply) {
          written := written + [reply];
        }
        i := i + 1;
      }
      StreamOver(registeredRc, port, msgs, i);
    }
  }

  // ------------------------------------------------------------ user mode client

  /** What a client's stream yields: nothing (a failure up to the read), bytes
      that do not parse, another type of message, or a response. */
  datatype Answer = Nothing | Garbled | Refused | Response(data: U.ConnData)

  class PreparedQueuePair {
    const qp: QueuePair
    const port: PortAddr
    var comm: Option<U.Key>

    constructor (qp: QueuePair, port: PortAddr)
      ensures this.qp == qp && this.port == port && comm == None
    {
      this.qp, this.port, comm := qp, port, None;
    }

    method Handshake(answer: Answer, fault: Fault) returns (ok: bool)
      modifies this, qp
      ensures var cl := U.Client(old(qp.Model()), port, U.Waiting);
        if cl.qp.mode.RC? && answer.Response? then
          var cl' := U.AcceptResponse(cl, answer.data, fault);
          && qp.Model() == cl'.qp
          && (ok <==> cl'.phase.Connected?)
          && comm == if ok then Some(cl'.phase.key) else old(comm)
        else
          !ok && qp.Model() == cl.qp && comm == old(comm)
    {
      if !qp.mode.RC? || !answer.Response? {
        return false;
      }
      var data := answer.data;
      ok := qp.BringUpRcInner(data.port, data.qpn, data.psn, fault);
      if ok {
        comm := Some(data.key);
      }
    }

    /** On drop: sends the key to deregister, if the handshake set one and the
        server can be reached, as the protocol's drop step does. */
    method Dereg(connects: bool, ghost s: U.State, ghost c: U.ClientId) returns (sent: Option<U.Key>)
      requires comm.Some? ==> c in s.clients && s.clients[c].phase == U.Connected(comm.value)
      ensures comm.None? ==> sent.None?
      ensures comm.Some? ==>
        U.Apply(s, U.Drop(c, connects)).net == s.net + if sent.Some? then {U.DeregReq(sent.value)} else {}
    {
      if comm.None? || !connects {
        return None;
      }
      return comm;
    }
  }

  // ---------------------------------------------------------------- kernel mode

  datatype Sent = NothingSent | RejSent | RepSent(data: K.ConnData)

  /** What goes onto the wire for a client and connection. */
  function OnWire(sent: Sent, client: K.ClientId, conn: K.Conn): set<K.Msg> {
    match sent
    case NothingSent => {}
    case RejSent => {K.Rej(client)}
    case RepSent(data) => {K.Rep(client, conn, data)}
  }

  class ReliableConnectionServer {
    const port: PortAddr
    var registeredRc: map<K.Addr, Qp>

    constructor (port: PortAddr)
      ensures this.port == port && registeredRc == map[]
    {
      this.port, registeredRc := port, map[];
    }

    /** A REQ on the new cm id at address `at`.  An error keeps the cm id from
        living on. */
    method HandleReq(m: K.Msg, at: K.Addr, qpn: nat, fault: K.ReqFault, ghost s: K.State, ghost conn: K.Conn)
      returns (sent: Sent, ok: bool)
      requires m.Req? && s.registered == registeredRc && s.port == port
      modifies this
      ensures var t := K.ServeRequest(s, m, conn, at, qpn, fault);
        && registeredRc == t.registered
        && t.net == s.net + OnWire(sent, m.client, conn)
        && t.cms == (if ok then s.cms[conn := at] else s.cms)
    {
      if fault.BuildFails? {
        return RejSent, false;
      }
      var qp := new QueuePair(RC, qpn);
      var up := qp.BringUpRcInner(m.data.port, m.data.qpn, m.data.psn,
                                  if fault.BringUpFails? then fault.fault else NoFault);
      if !up {
        return RejSent, false;
      }
      if fault.DataFails? {
        return NothingSent, false;
      }
      registeredRc := registeredRc[at := qp.Model()];
      if fault.ReplyFails? {
        return NothingSent, false;
      }
      return RepSent(K.ConnData(port, qp.num, qp.num)), true;
    }

    method HandleDreq(at: K.Addr, ghost s: K.State, ghost m: K.Msg)
      requires K.Legal(s, K.ServeDreq(m)) && s.cms[m.conn] == at && s.registered == registeredRc
      modifies this
      ensures registeredRc == K.Apply(s, K.ServeDreq(m)).registered
      ensures at !in registeredRc && registeredRc == old(registeredRc) - {at}
    {
      registeredRc := registeredRc - {at};
    }
  }

  class KernelClient {
    const qp: QueuePair
    /** Whether the completion that `handshake` waits for is signalled. */
    var done: bool

    constructor (qp: QueuePair)
      ensures this.qp == qp && !done
    {
      this.qp, done := qp, false;
    }

    method HandleRep(m: K.Msg, fault: Fault, ghost cl: K.Client) returns (ok: bool)
      requires m.Rep? && cl.qp == qp.Model() && cl.done == done
      modifies this, qp
      ensures var cl' := K.AcceptReply(cl, m, fault);
        qp.Model() == cl'.qp && done == cl'.done && cl'.cmAlive == (cl.cmAlive && ok)
    {
      ok := qp.BringUpRcInner(m.data.port, m.data.qpn, m.data.psn, fault);
      if ok {
        done := true;
      }
    }

    method HandleRej(m: K.Msg, ghost s: K.State)
      requires K.Legal(s, K.HandleRej(m)) && s.clients[m.client].qp == qp.Model() && s.clients[m.client].done == done
      modifies this
      ensures var cl' := K.Apply(s, K.HandleRej(m)).clients[m.client];
        qp.Model() == cl'.qp && done == cl'.done
    {
      done := true;
    }

    /** The end of `handshake`, after the wait returned or timed out. */
    method Finish(waited: bool, ghost s: K.State, ghost c: K.ClientId) returns (ok: bool)
      requires K.Legal(s, K.Finish(c, waited)) && s.clients[c].qp == qp.Model()
      ensures K.Apply(s, K.Finish(c, waited)).clients[c].phase == K.Returned(ok)
    {
      if !waited {
        return false;
      }
      return qp.state.ReadyToSend?;
    }
  }
}
