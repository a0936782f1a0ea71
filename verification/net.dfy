/** Addresses handed out by the driver's Ipv4AddressHelper and used by the applications. */
module Net {
  /**
   * An interface address: the network number counted from the helper's base
   * network (10.1.0.0/24 is network 0, 10.1.1.0/24 network 1, ...) and the
   * host number inside it.
   */
  datatype Ipv4Address = Ipv4Address(network: nat, host: nat)

  /** InetSocketAddress: an interface address and a port. */
  datatype SocketAddress = InetSocketAddress(ip: Ipv4Address, port: nat)
}
