/** Parts of a tunnel that several components store. */
module Tunnels {
  import opened Wrappers

  datatype Counters = Counters(tcpRx: int, tcpTx: int, udpRx: int, udpTx: int)

  datatype Peer = Peer(sid: Option<string>, kind: Option<string>, alias: Option<string>)
}
