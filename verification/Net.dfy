/** Machine integers, network values and the small generic types shared by all modules. */
module Net {
  type Byte = x: int | 0 <= x < 0x100
  type Word16 = x: int | 0 <= x < 0x1_0000
  type Word32 = x: int | 0 <= x < 0x1_0000_0000
  type Word64 = x: int | 0 <= x < 0x1_0000_0000_0000_0000

  const WORD64 := 0x1_0000_0000_0000_0000

  // Addresses and ports are the numbers their bytes spell in network order.
  type Addr = Word32
  type Port = Word16

  const IPPROTO_TCP: Byte := 6

  datatype Option<+T> = None | Some(value: T)

  /** The addressing fields of a TCP/IPv4 packet. */
  datatype Tuple = Tuple(saddr: Addr, daddr: Addr, sport: Port, dport: Port) {
    function Reverse(): Tuple {
      Tuple(daddr, saddr, dport, sport)
    }
  }
}
