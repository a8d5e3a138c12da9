/** The record the parser hands to every table. Texts are C strings, one `char` per byte;
    addresses are the dotted-quad texts `inet_ntop` prints. */
module Packets {
  import opened Machine

  const PROTO_TCP: u8 := 6
  const PROTO_UDP: u8 := 17

  datatype ParsedPacket = ParsedPacket(
    srcIp: string,
    dstIp: string,
    protocol: u8,
    srcPort: u16,
    dstPort: u16,
    packetSize: nat,
    isDnsQuery: bool,
    dnsName: string)
}
