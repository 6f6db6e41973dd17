/** The parts of the ICE agent of src/agent.h that its timing and pair selection look at. */
module AgentState {
  import opened Basics

  datatype Mode = Unknown | Controlled | Controlling

  datatype Kind = Server | Relay | Check

  datatype EntryState = Pending | Cancelled | Failed | Succeeded | Keepalive | Idle

  datatype Tcp = NotTcp | TcpDisconnected | TcpConnecting | TcpConnected | TcpFailed

  /** A STUN transaction. The pair it checks and the relay it goes through are positions; a next
      transmission of zero means none is due. */
  datatype Entry = Entry(
    kind: Kind,
    state: EntryState,
    pair: Option<nat>,
    relay: Option<nat>,
    next: nat,
    timeout: nat,
    retransmissions: int,
    expired: bool,
    tcp: Tcp)

  datatype PairState = PairPending | PairSucceeded | PairFailed | PairFrozen

  datatype Pair = Pair(priority: nat, state: PairState, nominated: bool, requested: bool, consent: nat)
}
