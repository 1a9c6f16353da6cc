/** Every connected client is mirrored by the server's queue pair under its key,
    in every run, and deregistrations do not disturb other clients. */
module UserCmSafety {
  import opened Collections
  import opened QueuePairs
  import opened UserCm

  /** The key that a connected client, a response or a deregistration carries.
      The invariant is that no key is carried twice. */
  datatype Holder = ByClient(client: ClientId) | ByMsg(msg: Msg)

  ghost predicate Holds(s: State, h: Holder, key: Key) {
    match h
    case ByClient(c) => c in s.clients && s.clients[c].phase == Connected(key)
    case ByMsg(m) => m in s.net && ((m.RegRes? && m.data.key == key) || (m.DeregReq? && m.key == key))
  }

  /** A server queue pair that is up and points to the given client. */
  ghost predicate PointsTo(server: Qp, client: Client) {
    && server.state.ReadyToSend? && server.sqPsn == server.num
    && server.dest == client.qp.num && server.rqPsn == client.qp.num && server.peer == client.port
  }

  /** A client that has not got its response yet is untouched. */
  ghost predicate Untouched(cl: Client) {
    cl.qp.state.Reset? && (cl.phase.Waiting? ==> cl.qp.mode.RC?)
  }

  ghost predicate ClientsOk(s: State) {
    forall c <- s.clients ::
      match s.clients[c].phase
      case Fresh => Untouched(s.clients[c])
      case Waiting => Untouched(s.clients[c])
      case Connected(key) =>
        key in s.registered && Mirror(s.clients[c].qp, s.clients[c].port, s.registered[key], s.port)
      case Gone => true
  }

  ghost predicate MsgsOk(s: State) {
    forall m <- s.net ::
      match m
      case RegReq(c, d) =>
        && c in s.clients && !s.clients[c].phase.Fresh?
        && d.qpn == d.psn == s.clients[c].qp.num && d.port == s.clients[c].port
      case RegRes(c, d) =>
        && c in s.clients && !s.clients[c].phase.Fresh? && d.key in s.registered
        && (s.clients[c].phase.Waiting? ==> PointsTo(s.registered[d.key], s.clients[c]))
        && d.qpn == d.psn == s.registered[d.key].num && d.port == s.port
      case ErrorRes(_) => true
      case DeregReq(key) => key in s.registered
  }

  ghost predicate OneHolder(s: State) {
    forall h1, h2, key :: Holds(s, h1, key) && Holds(s, h2, key) ==> h1 == h2
  }

  ghost predicate Inv(s: State) {
    && s.registered.Keys <= s.live
    && ClientsOk(s) && MsgsOk(s) && OneHolder(s)
  }

  lemma InitialInv(port: PortAddr)
    ensures Inv(Initial(port))
  {
  }

  // ------------------------------------------------------- holders of a key

  /** Whoever holds a key holds that of a registered queue pair. */
  lemma HolderRegistered(s: State, h: Holder, key: Key)
    requires ClientsOk(s) && MsgsOk(s) && Holds(s, h, key)
    ensures key in s.registered
  {
  }

  lemma FewerHolders(s: State, t: State)
    requires OneHolder(s) && forall h, key :: Holds(t, h, key) ==> Holds(s, h, key)
    ensures OneHolder(t)
  {
  }

  /** A key passes from one holder to another. */
  lemma Handover(s: State, t: State, giver: Holder, taker: Holder, key: Key)
    requires OneHolder(s) && Holds(s, giver, key)
    requires forall h, k :: Holds(t, h, k) ==> (h == taker && k == key) || (h != giver && Holds(s, h, k))
    ensures OneHolder(t)
  {
    forall h1, h2, k | Holds(t, h1, k) && Holds(t, h2, k) ensures h1 == h2 {
    }
  }

  lemma NewHolder(s: State, t: State, taker: Holder, key: Key)
    requires OneHolder(s) && forall h :: !Holds(s, h, key)
    requires forall h, k :: Holds(t, h, k) ==> (h == taker && k == key) || Holds(s, h, k)
    ensures OneHolder(t)
  {
  }

  // ------------------------------------------------------------ single steps

  lemma ServeRegInv(s: State, m: Msg, qpn: nat, key: Key, fault: RegFault)
    requires Inv(s) && Legal(s, ServeReg(m, qpn, key, fault))
    ensures Inv(Apply(s, ServeReg(m, qpn, key, fault)))
  {
    var t := Apply(s, ServeReg(m, qpn, key, fault));
    forall h ensures !Holds(s, h, key) {
      if Holds(s, h, key) { HolderRegistered(s, h, key); }
    }
    assert forall k <- s.registered :: k in t.registered && t.registered[k] == s.registered[k];
    var (_, res) := HandleReg(s.registered, s.port, m.data, qpn, key, fault);
    if res.Some? {
      NewHolder(s, t, ByMsg(RegRes(m.client, res.value)), key);
    } else {
      FewerHolders(s, t);
    }
  }

  lemma ReceiveResInv(s: State, m: Msg, fault: Fault)
    requires Inv(s) && Legal(s, ReceiveRes(m, fault))
    ensures Inv(Apply(s, ReceiveRes(m, fault)))
  {
    var t := Apply(s, ReceiveRes(m, fault));
    assert Holds(s, ByMsg(m), m.data.key);
    Handover(s, t, ByMsg(m), ByClient(m.client), m.data.key);
  }

  lemma DropInv(s: State, c: ClientId, connects: bool)
    requires Inv(s) && Legal(s, Drop(c, connects))
    ensures Inv(Apply(s, Drop(c, connects)))
  {
    var t := Apply(s, Drop(c, connects));
    var key := s.clients[c].phase.key;
    assert Holds(s, ByClient(c), key);
    Handover(s, t, ByClient(c), ByMsg(DeregReq(key)), key);
  }

  lemma ServeDeregInv(s: State, m: Msg)
    requires Inv(s) && Legal(s, ServeDereg(m))
    ensures Inv(Apply(s, ServeDereg(m)))
    ensures forall c <- s.clients :: s.clients[c].phase.Connected? ==> s.clients[c].phase.key != m.key
  {
    var t := Apply(s, ServeDereg(m));
    assert Holds(s, ByMsg(m), m.key);
    forall h | Holds(s, h, m.key) ensures h == ByMsg(m) {
    }
    forall c <- s.clients | s.clients[c].phase.Connected? ensures s.clients[c].phase.key != m.key {
      assert Holds(s, ByClient(c), s.clients[c].phase.key);
    }
    forall r <- t.net | r.RegRes? ensures r.data.key != m.key {
      assert Holds(s, ByMsg(r), r.data.key);
    }
    forall r <- t.net | r.DeregReq? ensures r.key != m.key {
      assert Holds(s, ByMsg(r), r.key);
    }
    FewerHolders(s, t);
  }

  lemma OtherInv(s: State, step: Step)
    requires Inv(s) && Legal(s, step)
    requires step.NewClient? || step.SendReq? || step.ReceiveError? || step.GiveUp? || step.FreeQp? || step.Lose?
    ensures Inv(Apply(s, step))
  {
    FewerHolders(s, Apply(s, step));
  }

  lemma StepInv(s: State, step: Step)
    requires Inv(s) && Legal(s, step)
    ensures Inv(Apply(s, step))
  {
    hide Inv, Apply;
    match step
    case ServeReg(m, qpn, key, fault) => ServeRegInv(s, m, qpn, key, fault);
    case ReceiveRes(m, fault) => ReceiveResInv(s, m, fault);
    case Drop(c, connects) => DropInv(s, c, connects);
    case ServeDereg(m) => ServeDeregInv(s, m);
    case _ => OtherInv(s, step);
  }

  lemma {:induction false} RunInv(s: State, steps: seq<Step>)
    requires Inv(s) && LegalRun(s, steps)
    ensures Inv(Exec(s, steps))
    decreases |steps|
  {
    hide Inv, Apply;
    if steps != [] {
      StepInv(s, steps[0]);
      RunInv(Apply(s, steps[0]), steps[1..]);
    }
  }

  lemma {:induction false} PortStays(s: State, steps: seq<Step>)
    requires LegalRun(s, steps)
    ensures Exec(s, steps).port == s.port
    decreases |steps|
  {
    if steps != [] {
      PortStays(Apply(s, steps[0]), steps[1..]);
    }
  }

  /** In every run with any number of clients, lost messages, failing verbs and
      reused addresses: a client that holds a key has its mirror image, up and
      running, in the server's map under that key. */
  lemma ConnectedIsMirrored(port: PortAddr, steps: seq<Step>, c: ClientId)
    requires LegalRun(Initial(port), steps)
    requires c in Exec(Initial(port), steps).clients && Exec(Initial(port), steps).clients[c].phase.Connected?
    ensures var s := Exec(Initial(port), steps); var cl := s.clients[c];
      cl.phase.key in s.registered && Mirror(cl.qp, cl.port, s.registered[cl.phase.key], port)
  {
    InitialInv(port);
    RunInv(Initial(port), steps);
    PortStays(Initial(port), steps);
  }

  /** No two connected clients share a server queue pair. */
  lemma KeysAreExclusive(port: PortAddr, steps: seq<Step>, a: ClientId, b: ClientId)
    requires LegalRun(Initial(port), steps) && a != b
    requires a in Exec(Initial(port), steps).clients && Exec(Initial(port), steps).clients[a].phase.Connected?
    requires b in Exec(Initial(port), steps).clients && Exec(Initial(port), steps).clients[b].phase.Connected?
    ensures Exec(Initial(port), steps).clients[a].phase.key != Exec(Initial(port), steps).clients[b].phase.key
  {
    InitialInv(port);
    RunInv(Initial(port), steps);
    var s := Exec(Initial(port), steps);
    assert Holds(s, ByClient(a), s.clients[a].phase.key) && Holds(s, ByClient(b), s.clients[b].phase.key);
  }

  /** Whatever step follows, the queue pair of a client that stays connected is
      the very same one as before; in particular another client's deregistration
      does not touch it. */
  lemma OthersUndisturbed(port: PortAddr, steps: seq<Step>, step: Step, c: ClientId)
    requires LegalRun(Initial(port), steps) && Legal(Exec(Initial(port), steps), step)
    requires c in Exec(Initial(port), steps).clients && Exec(Initial(port), steps).clients[c].phase.Connected?
    ensures var s := Exec(Initial(port), steps); var t := Apply(s, step); var key := s.clients[c].phase.key;
      && c in t.clients
      && (t.clients[c] == s.clients[c] || (step.Drop? && step.client == c))
      && key in t.registered && key in s.registered && t.registered[key] == s.registered[key]
  {
    InitialInv(port);
    RunInv(Initial(port), steps);
    var s := Exec(Initial(port), steps);
    assert s.clients[c].phase.key in s.registered;
    if step.ServeDereg? {
      ServeDeregInv(s, step.msg);
    }
  }
}
