/** What user-mode runs lead to: which queue pairs are registered and who is
    connected, in terms of the steps alone, and that a handshake can succeed. */
module UserCmLaws {
  import opened Collections
  import opened Histories
  import opened QueuePairs
  import opened UserCm
  import opened UserCmSafety

  // ------------------------------------------------- what the map holds

  /** No verb of the handler fails up to the point where it stores. */
  predicate Stores(fault: RegFault) {
    fault == NoRegFault || fault == SerializeFails || fault == BringUpFails(NoFault)
  }

  predicate Faultless(fault: RegFault) {
    fault == NoRegFault || fault == BringUpFails(NoFault)
  }

  /** A queue pair that is ready to send to the peer that asked for it. */
  function Serving(data: ConnData, qpn: nat): Qp {
    Qp(RC, qpn, ReadyToSend, data.port, data.qpn, data.psn, qpn)
  }

  ghost function Puts(key: Key): Step -> Option<Qp> {
    (step: Step) =>
      if step.ServeReg? && step.msg.RegReq? && step.key == key && Stores(step.regFault)
      then Some(Serving(step.msg.data, step.qpn)) else None
  }

  ghost function Takes(key: Key): (Step, Qp) -> bool {
    (step: Step, _: Qp) => step.ServeDereg? && step.msg == DeregReq(key)
  }

  lemma StepRegistered(s: State, step: Step, key: Key)
    requires Legal(s, step)
    ensures Get(Apply(s, step).registered, key) == Then(Get(s.registered, key), step, Puts(key), Takes(key))
  {
  }

  lemma {:induction false} RunRegistered(s: State, steps: seq<Step>, key: Key)
    requires LegalRun(s, steps)
    ensures Get(Exec(s, steps).registered, key) == After(Get(s.registered, key), steps, Puts(key), Takes(key))
    decreases |steps|
  {
    if steps != [] {
      StepRegistered(s, steps[0], key);
      hide Apply, Legal, Puts, Takes, Then;
      RunRegistered(Apply(s, steps[0]), steps[1..], key);
    }
  }

  /** After any run the server has a queue pair under a key exactly if a request
      was served under it without a failure before the store, and no
      deregistration of the key since; it is up and points to the client that the
      last such request came from. */
  lemma RegisteredExactly(port: PortAddr, steps: seq<Step>, key: Key, qp: Qp)
    requires LegalRun(Initial(port), steps)
    ensures Get(Exec(Initial(port), steps).registered, key) == Some(qp) <==>
      exists i :: PutLast(steps, i, qp, Puts(key), Takes(key))
  {
    RunRegistered(Initial(port), steps, key);
    AfterExactly(steps, qp, Puts(key), Takes(key));
  }

  // ---------------------------------------------------- who is connected

  ghost function Connects(c: ClientId): Step -> Option<Key> {
    (step: Step) =>
      if step.ReceiveRes? && step.msg.RegRes? && step.msg.client == c && step.fault == NoFault
      then Some(step.msg.data.key) else None
  }

  ghost function Drops(c: ClientId): (Step, Key) -> bool {
    (step: Step, _: Key) => step.Drop? && step.client == c
  }

  ghost function KeyOf(s: State, c: ClientId): Option<Key> {
    if c in s.clients && s.clients[c].phase.Connected? then Some(s.clients[c].phase.key) else None
  }

  lemma StepConnected(s: State, step: Step, c: ClientId)
    requires Inv(s) && Legal(s, step)
    ensures KeyOf(Apply(s, step), c) == Then(KeyOf(s, c), step, Connects(c), Drops(c))
  {
    hide OneHolder, MsgsOk, HandleReg, Mirror;
  }

  lemma {:induction false} RunConnected(s: State, steps: seq<Step>, c: ClientId)
    requires Inv(s) && LegalRun(s, steps)
    ensures KeyOf(Exec(s, steps), c) == After(KeyOf(s, c), steps, Connects(c), Drops(c))
    decreases |steps|
  {
    if steps != [] {
      StepConnected(s, steps[0], c);
      StepInv(s, steps[0]);
      hide Inv, Apply, Legal, Connects, Drops, Then, KeyOf;
      RunConnected(Apply(s, steps[0]), steps[1..], c);
    }
  }

  /** A client is connected with a key exactly if it received a response with that
      key, its bring-up went well, and it has not dropped the connection since. */
  lemma ConnectedExactly(port: PortAddr, steps: seq<Step>, c: ClientId, key: Key)
    requires LegalRun(Initial(port), steps)
    ensures KeyOf(Exec(Initial(port), steps), c) == Some(key) <==>
      exists i :: PutLast(steps, i, key, Connects(c), Drops(c))
  {
    InitialInv(port);
    RunConnected(Initial(port), steps, c);
    AfterExactly(steps, key, Connects(c), Drops(c));
  }

  /** The step ends a client's attempt or its connection. */
  ghost predicate EndsFor(step: Step, c: ClientId) {
    match step
    case GiveUp(d) => c == d
    case Drop(d, _) => c == d
    case ReceiveError(m) => m == ErrorRes(c)
    case ReceiveRes(m, fault) => m.RegRes? && m.client == c && fault != NoFault
    case _ => false
  }

  lemma {:induction false} StaysGone(s: State, steps: seq<Step>, c: ClientId)
    requires LegalRun(s, steps) && c in s.clients && s.clients[c].phase.Gone?
    ensures c in Exec(s, steps).clients && Exec(s, steps).clients[c].phase.Gone?
    decreases |steps|
  {
    if steps != [] {
      hide HandleReg;
      StaysGone(Apply(s, steps[0]), steps[1..], c);
    }
  }

  /** A client that gives up, gets an error, fails to come up or drops its connection
      is gone, and never connected again, whatever comes. */
  lemma GoneForGood(s: State, step: Step, steps: seq<Step>, c: ClientId)
    requires Inv(s) && Legal(s, step) && EndsFor(step, c) && LegalRun(Apply(s, step), steps)
    ensures var t := Exec(Apply(s, step), steps);
      c in t.clients && t.clients[c].phase.Gone? && KeyOf(t, c) == None
  {
    assert c in s.clients && Apply(s, step).clients[c].phase.Gone? by { hide OneHolder, MsgsOk, Mirror; }
    StaysGone(Apply(s, step), steps, c);
  }

  // ------------------------------------------------------ what is answered

  /** Serving a waiting client's request puts a response for it under way, with the
      key of a registered queue pair that is up and points to it, exactly if no
      fault occurs, and an error otherwise; nobody else's message, queue pair or
      client is touched. */
  lemma ServedExactly(s: State, m: Msg, qpn: nat, key: Key, fault: RegFault)
    requires Inv(s) && Legal(s, ServeReg(m, qpn, key, fault)) && s.clients[m.client].phase.Waiting?
    ensures var (t, res) := (Apply(s, ServeReg(m, qpn, key, fault)), RegRes(m.client, ConnData(s.port, qpn, qpn, key)));
      && res !in s.net && (res in t.net <==> Faultless(fault))
      && (res in t.net ==> key in t.registered && PointsTo(t.registered[key], t.clients[m.client]))
      && t.net == s.net - {m} + {if Faultless(fault) then res else ErrorRes(m.client)}
      && t.clients == s.clients && (key in t.live <==> Stores(fault))
      && (forall k :: k != key ==> (k in t.live <==> k in s.live) && Get(t.registered, k) == Get(s.registered, k))
  {
    var res := RegRes(m.client, ConnData(s.port, qpn, qpn, key));
    assert res in s.net ==> key in s.registered;
    hide OneHolder;
  }

  /** A waiting client that receives its response is connected with that key
      exactly if its own bring-up goes well, and is gone otherwise. */
  lemma ReceivedExactly(s: State, m: Msg, fault: Fault)
    requires Inv(s) && Legal(s, ReceiveRes(m, fault))
    ensures var t := Apply(s, ReceiveRes(m, fault));
      && t.clients[m.client].phase == (if fault == NoFault then Connected(m.data.key) else Gone)
      && t.net == s.net - {m} && t.registered == s.registered && t.live == s.live
      && (forall c <- s.clients :: c != m.client ==> c in t.clients && t.clients[c] == s.clients[c])
  {
    hide OneHolder, MsgsOk, Mirror;
  }

  // ---------------------------------------------------- there and back again

  lemma {:induction false} RunSnoc(s: State, steps: seq<Step>, step: Step)
    requires LegalRun(s, steps) && Legal(Exec(s, steps), step)
    ensures LegalRun(s, steps + [step]) && Exec(s, steps + [step]) == Apply(Exec(s, steps), step)
    decreases |steps|
  {
    hide Legal, Apply;
    if steps == [] {
      assert ([] + [step])[1..] == [];
    } else {
      assert (steps + [step])[1..] == steps[1..] + [step];
      RunSnoc(Apply(s, steps[0]), steps[1..], step);
    }
  }

  /** A new client's request, as it gets under way. */
  function RequestOf(c: ClientId, qpn: nat, port: PortAddr): Msg {
    RegReq(c, ConnData(port, qpn, qpn, 0))
  }

  lemma Asks(s: State, c: ClientId, num: nat, port: PortAddr) returns (steps: seq<Step>)
    requires c !in s.clients
    ensures LegalRun(s, steps)
    ensures Exec(s, steps) == s.(clients := s.clients[c := Client(NewQp(RC, num), port, Waiting)],
                                 net := s.net + {RequestOf(c, num, port)})
  {
    var one, two := NewClient(c, RC, num, port), SendReq(c);
    RunSnoc(s, [], one);
    RunSnoc(s, [] + [one], two);
    steps := [] + [one] + [two];
  }

  /** Nothing of a client is under way before it comes. */
  lemma NotYet(s: State, c: ClientId, m: Msg)
    requires MsgsOk(s) && c !in s.clients && (m.RegReq? || m.RegRes?) && m.client == c
    ensures m !in s.net
  {
  }

  /** From every state: a new client asks, is served and is connected. */
  lemma CanConnect(s: State, c: ClientId, num: nat, port: PortAddr, qpn: nat, key: Key) returns (steps: seq<Step>)
    requires Inv(s) && c !in s.clients && key !in s.live
    ensures LegalRun(s, steps)
    ensures var t := Exec(s, steps);
      && Inv(t) && KeyOf(t, c) == Some(key) && t.clients.Keys == s.clients.Keys + {c}
      && t.registered == s.registered[key := Serving(ConnData(port, num, num, 0), qpn)]
      && t.live == s.live + {key} && t.net == s.net
      && Mirror(t.clients[c].qp, t.clients[c].port, t.registered[key], t.port)
  {
    steps := Asks(s, c, num, port);
    RunInv(s, steps);
    var t1 := Exec(s, steps);
    var serve := ServeReg(RequestOf(c, num, port), qpn, key, NoRegFault);
    var res := RegRes(c, ConnData(s.port, qpn, qpn, key));
    var t2 := Apply(t1, serve);
    var receive := ReceiveRes(res, NoFault);
    assert t2.net == t1.net - {RequestOf(c, num, port)} + {res};
    NotYet(s, c, res);
    NotYet(s, c, RequestOf(c, num, port));
    hide Inv, Exec, LegalRun;
    RunSnoc(s, steps, serve);
    RunSnoc(s, steps + [serve], receive);
    steps := steps + [serve] + [receive];
    RunInv(s, steps);
  }

  /** And a connected client that drops its connection has the server forget it:
      the state of the server and the network is as it was before the client came. */
  lemma ThereAndBack(s: State, c: ClientId, num: nat, port: PortAddr, qpn: nat, key: Key) returns (steps: seq<Step>)
    requires Inv(s) && c !in s.clients && key !in s.live
    ensures LegalRun(s, steps)
    ensures var t := Exec(s, steps);
      t.registered == s.registered && t.live == s.live && t.net == s.net
      && t.clients.Keys == s.clients.Keys + {c} && t.clients[c].phase == Gone
  {
    steps := CanConnect(s, c, num, port, qpn, key);
    assert key !in s.registered;
    var t := Exec(s, steps);
    var drop, serve, free := Drop(c, true), ServeDereg(DeregReq(key)), FreeQp(key);
    assert DeregReq(key) !in s.net by {
      hide OneHolder, ClientsOk;
    }
    hide Inv, Exec, LegalRun;
    RunSnoc(s, steps, drop);
    RunSnoc(s, steps + [drop], serve);
    RunSnoc(s, steps + [drop] + [serve], free);
    steps := steps + [drop] + [serve] + [free];
    assert t.registered - {key} == s.registered;
    assert t.live - {key} == s.live;
  }

  /** In particular from the start. */
  lemma ConnectedFromStart(port: PortAddr, c: ClientId, key: Key) returns (steps: seq<Step>)
    ensures LegalRun(Initial(port), steps)
    ensures KeyOf(Exec(Initial(port), steps), c) == Some(key)
  {
    InitialInv(port);
    hide Inv, Exec, LegalRun;
    steps := CanConnect(Initial(port), c, 3, port, 5, key);
  }

  /** A client whose request meets a fault is gone in the end, and the server is as
      it was exactly if the fault is not the failing serialization of the response,
      which comes after the store and leaves a queue pair that nobody has the key
      of. */
  lemma Refused(s: State, c: ClientId, num: nat, port: PortAddr, qpn: nat, key: Key, fault: RegFault)
    returns (steps: seq<Step>)
    requires Inv(s) && c !in s.clients && key !in s.live && !Faultless(fault)
    ensures LegalRun(s, steps)
    ensures var t := Exec(s, steps);
      && c in t.clients && t.clients[c].phase == Gone && t.clients[c].qp == NewQp(RC, num)
      && t.net == s.net - {ErrorRes(c)}
      && (t.registered == s.registered <==> fault != SerializeFails)
      && (fault != SerializeFails ==> t.live == s.live)
      && forall h :: !Holds(t, h, key)
  {
    steps := Asks(s, c, num, port);
    RunInv(s, steps);
    var t1 := Exec(s, steps);
    NotYet(s, c, RequestOf(c, num, port));
    assert key !in s.registered;
    var serve, receive := ServeReg(RequestOf(c, num, port), qpn, key, fault), ReceiveError(ErrorRes(c));
    ServedExactly(t1, RequestOf(c, num, port), qpn, key, fault);
    RunSnoc(s, steps, serve);
    var t2 := Exec(s, steps + [serve]);
    assert key in t2.registered <==> Stores(fault) by { StepRegistered(t1, serve, key); }
    assert fault != SerializeFails ==> t2.live == s.live && t2.registered == s.registered;
    forall h ensures !Holds(t1, h, key) {
      if Holds(t1, h, key) { HolderRegistered(t1, h, key); }
    }
    hide Inv, Exec, LegalRun;
    RunSnoc(s, steps + [serve], receive);
    steps := steps + [serve] + [receive];
  }
}
