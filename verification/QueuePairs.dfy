/** A queue pair's bring-up from RESET over INIT and RTR to RTS, the state machine
    of section 10.3.1 of the InfiniBand Architecture Specification, Volume 1. */
module QueuePairs {

  datatype QpType = RC | UD | DC | WC
  datatype QpState = Reset | Init | ReadyToRecv | ReadyToSend

  /** Where a port is found: its lid and gid. */
  datatype PortAddr = PortAddr(lid: nat, gid: nat)

  /** `peer`, `dest` and `rqPsn` are set on the way to RTR, `sqPsn` to RTS. */
  datatype Qp = Qp(mode: QpType, num: nat, state: QpState, peer: PortAddr, dest: nat, rqPsn: nat, sqPsn: nat)

  function NewQp(mode: QpType, num: nat): Qp {
    Qp(mode, num, Reset, PortAddr(0, 0), 0, 0, 0)
  }

  /** Which verb fails during a bring-up, if any. */
  datatype Fault = NoFault | AtQuery | AtInit | AtRtr | AtRts

  predicate Succeeds(qp: Qp, fault: Fault) {
    qp.mode.RC? && !fault.AtQuery? && (qp.state.Reset? ==> fault.NoFault?)
  }

  /** The queue pair after `bring_up_rc_inner`: only one in RESET is touched, and
      a failing verb leaves it where the previous one brought it. */
  function BringUp(qp: Qp, peer: PortAddr, remoteQpn: nat, rqPsn: nat, fault: Fault): Qp {
    if !qp.mode.RC? || fault.AtQuery? || !qp.state.Reset? || fault.AtInit? then qp
    else if fault.AtRtr? then qp.(state := Init)
    else
      var rtr := qp.(state := ReadyToRecv, peer := peer, dest := remoteQpn, rqPsn := rqPsn);
      if fault.AtRts? then rtr else rtr.(state := ReadyToSend, sqPsn := qp.num)
  }

  /** The two ends of a connection: each names the other's number and address,
      and expects the sequence number the other starts with. */
  predicate Mirror(a: Qp, aAt: PortAddr, b: Qp, bAt: PortAddr) {
    && a.state.ReadyToSend? && b.state.ReadyToSend?
    && a.dest == b.num && b.dest == a.num
    && a.rqPsn == b.sqPsn && b.rqPsn == a.sqPsn
    && a.peer == bAt && b.peer == aAt
  }

  /** How far a bring-up that fails at a verb comes. */
  function Reached(fault: Fault): QpState {
    match fault
    case AtQuery => Reset
    case AtInit => Reset
    case AtRtr => Init
    case AtRts => ReadyToRecv
    case NoFault => ReadyToSend
  }

  /** A queue pair reaches RTS exactly if it was there or starts in RESET as an
      RC queue pair and no verb fails; it then has the peer it was given.  From
      RESET the call succeeds exactly if it gets there, and otherwise the queue
      pair stays where the last verb that worked has brought it; its peer is set
      from RTR on, its own sequence number in RTS only. */
  lemma BringUpExactly(qp: Qp, peer: PortAddr, remoteQpn: nat, rqPsn: nat, fault: Fault)
    ensures var r := BringUp(qp, peer, remoteQpn, rqPsn, fault);
      && (r.state.ReadyToSend? <==> qp.state.ReadyToSend? || (qp.state.Reset? && qp.mode.RC? && fault.NoFault?))
      && (!qp.state.Reset? || !qp.mode.RC? ==> r == qp)
      && (qp.state.Reset? && qp.mode.RC? ==>
            && r.state == Reached(fault) && (Succeeds(qp, fault) <==> r.state.ReadyToSend?)
            && (r.state.ReadyToRecv? || r.state.ReadyToSend? ==>
                  r.peer == peer && r.dest == remoteQpn && r.rqPsn == rqPsn)
            && (r.state.ReadyToSend? ==> r.sqPsn == qp.num))
      && (Succeeds(qp, fault) ==> qp.mode.RC? && (r.state == qp.state || r.state.ReadyToSend?))
      && (!qp.state.Reset? && qp.mode.RC? ==> (Succeeds(qp, fault) <==> !fault.AtQuery?))
      && r.num == qp.num && r.mode == qp.mode
  {
  }

  class QueuePair {
    const mode: QpType
    const num: nat
    var state: QpState
    var peer: PortAddr
    var dest: nat
    var rqPsn: nat
    var sqPsn: nat

    function Model(): Qp
      reads this
    {
      Qp(mode, num, state, peer, dest, rqPsn, sqPsn)
    }

    constructor (mode: QpType, num: nat)
      ensures Model() == NewQp(mode, num)
    {
      this.mode := mode;
      this.num := num;
      state, peer, dest, rqPsn, sqPsn := Reset, PortAddr(0, 0), 0, 0, 0;
    }

    method BringUpRcInner(remote: PortAddr, remoteQpn: nat, psn: nat, fault: Fault) returns (ok: bool)
      modifies this
      ensures Model() == BringUp(old(Model()), remote, remoteQpn, psn, fault)
      ensures ok <==> Succeeds(old(Model()), fault)
    {
      if !mode.RC? || fault.AtQuery? {
        return false;
      }
      if state.Reset? {
        if fault.AtInit? {
          return false;
        }
        state := Init;
        if fault.AtRtr? {
          return false;
        }
        state := ReadyToRecv;
        peer := remote;
        dest := remoteQpn;
        rqPsn := psn;
        if fault.AtRts? {
          return false;
        }
        state := ReadyToSend;
        sqPsn := num;
      }
      return true;
    }
  }
}
