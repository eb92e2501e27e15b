/**
 Ethernet frames carrying TCP over IPv4: parsing (nodeport_tc.c, parse_tcp_packet) and the
 in-place rewrite of the addressing fields with incremental checksums (rewrite_tuple).
 */
module Packet {
  import opened Net
  import opened Checksum

  const ETH_HLEN := 14
  const ETH_P_IP := 0x0800
  const IP_CHECK := 24
  const IP_SADDR := 26
  const IP_DADDR := 30

  function Long(b: seq<Byte>, i: nat): Word32
    requires i + 4 <= |b|
  {
    Word(b, i) as int * 0x1_0000 + Word(b, i + 2)
  }

  function Put32(b: seq<Byte>, i: nat, a: Word32): (r: seq<Byte>)
    requires i + 4 <= |b|
    ensures |r| == |b|
  {
    Put16(Put16(b, i, Hi(a)), i + 2, Lo(a))
  }

  function HeaderLength(b: seq<Byte>): nat
    requires |b| >= 34
  {
    b[ETH_HLEN] % 16 * 4
  }

  /** The offset of the TCP header, or None for a frame that is not well-formed TCP/IPv4. */
  function Parse(b: seq<Byte>): (r: Option<nat>)
    ensures r.Some? ==> 34 <= r.value && r.value + 20 <= |b| && r.value % 2 == 0
  {
    if |b| < ETH_HLEN || Word(b, 12) != ETH_P_IP then None
    else if |b| < ETH_HLEN + 20 then None
    else if b[ETH_HLEN] / 16 != 4 || b[23] != IPPROTO_TCP then None
    else
      var ipLen := HeaderLength(b);
      if ipLen < 20 || ETH_HLEN + ipLen > |b| then None
      else
        var tcp := ETH_HLEN + ipLen;
        if tcp + 20 > |b| then None
        else
          var tcpLen := b[tcp + 12] / 16 * 4;
          if tcpLen < 20 || tcp + tcpLen > |b| then None else Some(tcp)
  }

  /**
   A frame that carries TCP over IPv4 with the TCP header at `tcp`: an Ethernet header of type IPv4,
   version 4, protocol TCP, and both headers inside the frame with at least their fixed 20 bytes.
   */
  predicate Carries(b: seq<Byte>, tcp: nat) {
    && 34 <= tcp && tcp + 20 <= |b|
    && b[12] == 0x08 && b[13] == 0x00
    && b[14] / 16 == 4 && b[23] == IPPROTO_TCP
    && tcp == ETH_HLEN + 4 * (b[14] % 16)
    && b[tcp + 12] / 16 >= 5 && tcp + 4 * (b[tcp + 12] / 16) <= |b|
  }

  /** Parsing finds exactly the TCP header of the frames that carry one. */
  lemma ParseIff(b: seq<Byte>, tcp: nat)
    ensures Parse(b) == Some(tcp) <==> Carries(b, tcp)
  {
    if |b| >= 14 {
      assert Word(b, 12) == ETH_P_IP <==> b[12] == 0x08 && b[13] == 0x00;
    }
  }

  /** The addressing fields of a frame whose TCP header starts at `tcp`. */
  function TupleAt(b: seq<Byte>, tcp: nat): Tuple
    requires 34 <= tcp && tcp + 20 <= |b|
  {
    Tuple(Long(b, IP_SADDR), Long(b, IP_DADDR), Word(b, tcp), Word(b, tcp + 2))
  }

  /** The fields as numbers, most significant byte first: addresses at bytes 26 and 30, ports at the TCP header. */
  lemma TupleBytes(b: seq<Byte>, tcp: nat)
    requires 34 <= tcp && tcp + 20 <= |b|
    ensures var t := TupleAt(b, tcp);
            && t.saddr == Spelled(b[26], b[27], b[28], b[29]) && t.daddr == Spelled(b[30], b[31], b[32], b[33])
            && t.sport == Spelled(0, 0, b[tcp], b[tcp + 1]) && t.dport == Spelled(0, 0, b[tcp + 2], b[tcp + 3])
  {
  }

  function Spelled(a: int, b: int, c: int, d: int): int {
    0x100_0000 * a + 0x1_0000 * b + 0x100 * c + d
  }

  // --- Checksum validity -------------------------------------------------------------

  /** Section 3.1 of RFC 791: the header words sum to all ones. */
  ghost predicate IpChecksumValid(b: seq<Byte>) {
    Parse(b).Some? && OnesSum(b[ETH_HLEN..Parse(b).value]) == 0xFFFF
  }

  function Bytes16(w: Word16): seq<Byte> {
    [w / 0x100, w % 0x100]
  }

  /** The TCP pseudo header: both addresses, a zero byte, the protocol and the segment length. */
  function PseudoHeader(t: Tuple, len: Word16): seq<Byte> {
    Bytes16(Hi(t.saddr)) + Bytes16(Lo(t.saddr)) + Bytes16(Hi(t.daddr)) + Bytes16(Lo(t.daddr)) +
    [0, IPPROTO_TCP] + Bytes16(len)
  }

  /** The end of the TCP segment according to the IP total length field. */
  function SegmentEnd(b: seq<Byte>): nat
    requires |b| >= 34
  {
    ETH_HLEN + Word(b, 16)
  }

  /**
   Section 3.1 of RFC 9293: pseudo header and segment sum to all ones. A total length that
   does not cover the TCP header, or that exceeds the frame, has no valid checksum.
   */
  ghost predicate TcpChecksumValid(b: seq<Byte>) {
    && Parse(b).Some?
    && var tcp := Parse(b).value;
    && tcp + 20 <= SegmentEnd(b) <= |b|
    && OnesSum(PseudoHeader(TupleAt(b, tcp), SegmentEnd(b) - tcp) + b[tcp..SegmentEnd(b)]) == 0xFFFF
  }

  // --- The rewrite -------------------------------------------------------------------

  // rewrite_tuple makes up to ten helper calls, numbered 0..9 in source order: four stores,
  // two IP checksum updates, four TCP checksum updates. A field that does not change is skipped.
  const HELPERS := 10

  predicate Called(k: nat, o: Tuple, n: Tuple) {
    match k
    case 0 => o.saddr != n.saddr
    case 1 => o.daddr != n.daddr
    case 2 => o.sport != n.sport
    case 3 => o.dport != n.dport
    case 4 => o.saddr != n.saddr
    case 5 => o.daddr != n.daddr
    case 6 => o.saddr != n.saddr
    case 7 => o.daddr != n.daddr
    case 8 => o.sport != n.sport
    case 9 => o.dport != n.dport
    case _ => false
  }

  function Effect(k: nat, b: seq<Byte>, tcp: nat, o: Tuple, n: Tuple): (r: seq<Byte>)
    requires 34 <= tcp && tcp + 20 <= |b|
    ensures |r| == |b|
  {
    var ipCheck := Word(b, IP_CHECK);
    var tcpCheck := Word(b, tcp + 16);
    match k
    case 0 => Put32(b, IP_SADDR, n.saddr)
    case 1 => Put32(b, IP_DADDR, n.daddr)
    case 2 => Put16(b, tcp, n.sport)
    case 3 => Put16(b, tcp + 2, n.dport)
    case 4 => Put16(b, IP_CHECK, Replace32(ipCheck, o.saddr, n.saddr))
    case 5 => Put16(b, IP_CHECK, Replace32(ipCheck, o.daddr, n.daddr))
    case 6 => Put16(b, tcp + 16, Replace32(tcpCheck, o.saddr, n.saddr))
    case 7 => Put16(b, tcp + 16, Replace32(tcpCheck, o.daddr, n.daddr))
    case 8 => Put16(b, tcp + 16, Replace16(tcpCheck, o.sport, n.sport))
    case 9 => Put16(b, tcp + 16, Replace16(tcpCheck, o.dport, n.dport))
    case _ => b
  }

  /** The frame after the first k helper calls. */
  function Rewritten(b: seq<Byte>, tcp: nat, n: Tuple, k: nat): (r: seq<Byte>)
    requires 34 <= tcp && tcp + 20 <= |b|
    ensures |r| == |b|
  {
    if k == 0 then b
    else
      var o := TupleAt(b, tcp);
      var p := Rewritten(b, tcp, n, k - 1);
      if Called(k - 1, o, n) then Effect(k - 1, p, tcp, o, n) else p
  }

  /**
   Whether the rewrite from o to n goes through when helper number `fault` fails (none fails if it is
   out of range).
   */
  predicate RewriteSucceeds(o: Tuple, n: Tuple, fault: int) {
    !(0 <= fault < HELPERS && Called(fault, o, n))
  }

  /** The addressing and checksum bytes, the only ones a rewrite may touch. */
  predicate IsNatByte(tcp: nat, j: nat) {
    IP_CHECK <= j < IP_DADDR + 4 || tcp <= j < tcp + 4 || tcp + 16 <= j < tcp + 18
  }

  // --- In-place helpers --------------------------------------------------------------

  method Store16(skb: array<Byte>, i: nat, w: Word16)
    requires i + 2 <= skb.Length
    modifies skb
    ensures skb[..] == Put16(old(skb[..]), i, w)
  {
    skb[i] := w / 0x100;
    skb[i + 1] := w % 0x100;
  }

  /** bpf_skb_store_bytes on a 4-byte field; `fails` is the environment's choice. */
  method StoreBytes32(skb: array<Byte>, i: nat, a: Word32, fails: bool) returns (ok: bool)
    requires i + 4 <= skb.Length
    modifies skb
    ensures ok == !fails
    ensures skb[..] == if ok then Put32(old(skb[..]), i, a) else old(skb[..])
  {
    if fails { return false; }
    Store16(skb, i, Hi(a));
    Store16(skb, i + 2, Lo(a));
    return true;
  }

  /** bpf_skb_store_bytes on a 2-byte field. */
  method StoreBytes16(skb: array<Byte>, i: nat, w: Word16, fails: bool) returns (ok: bool)
    requires i + 2 <= skb.Length
    modifies skb
    ensures ok == !fails
    ensures skb[..] == if ok then Put16(old(skb[..]), i, w) else old(skb[..])
  {
    if fails { return false; }
    Store16(skb, i, w);
    return true;
  }

  /** bpf_l3_csum_replace and bpf_l4_csum_replace for a 4-byte field. */
  method CsumReplace32(skb: array<Byte>, i: nat, from: Word32, to: Word32, fails: bool) returns (ok: bool)
    requires i + 2 <= skb.Length
    modifies skb
    ensures ok == !fails
    ensures skb[..] == if ok then Put16(old(skb[..]), i, Replace32(Word(old(skb[..]), i), from, to)) else old(skb[..])
  {
    if fails { return false; }
    var check := skb[i] as int * 0x100 + skb[i + 1];
    assert check == Word(skb[..], i);
    Store16(skb, i, Replace32(check, from, to));
    return true;
  }

  /** bpf_l4_csum_replace for a 2-byte field. */
  method CsumReplace16(skb: array<Byte>, i: nat, from: Word16, to: Word16, fails: bool) returns (ok: bool)
    requires i + 2 <= skb.Length
    modifies skb
    ensures ok == !fails
    ensures skb[..] == if ok then Put16(old(skb[..]), i, Replace16(Word(old(skb[..]), i), from, to)) else old(skb[..])
  {
    if fails { return false; }
    var check := skb[i] as int * 0x100 + skb[i + 1];
    assert check == Word(skb[..], i);
    Store16(skb, i, Replace16(check, from, to));
    return true;
  }

  /** The four stores: helper calls 0..3. */
  method StoreTuple(skb: array<Byte>, tcp: nat, o: Tuple, n: Tuple, fault: int) returns (ok: bool)
    requires 34 <= tcp && tcp + 20 <= skb.Length && o == TupleAt(skb[..], tcp)
    modifies skb
    ensures ok <==> !(0 <= fault < 4 && Called(fault, o, n))
    ensures skb[..] == Rewritten(old(skb[..]), tcp, n, if ok then 4 else fault)
  {
    ghost var b := skb[..];
    if o.saddr != n.saddr {
      ok := StoreBytes32(skb, IP_SADDR, n.saddr, fault == 0);
      if !ok { return; }
    }
    assert skb[..] == Rewritten(b, tcp, n, 1);
    if o.daddr != n.daddr {
      ok := StoreBytes32(skb, IP_DADDR, n.daddr, fault == 1);
      if !ok { return; }
    }
    assert skb[..] == Rewritten(b, tcp, n, 2);
    if o.sport != n.sport {
      ok := StoreBytes16(skb, tcp, n.sport, fault == 2);
      if !ok { return; }
    }
    assert skb[..] == Rewritten(b, tcp, n, 3);
    if o.dport != n.dport {
      ok := StoreBytes16(skb, tcp + 2, n.dport, fault == 3);
      if !ok { return; }
    }
    return true;
  }

  /** The IP checksum updates: helper calls 4 and 5. */
  method UpdateIpChecksum(skb: array<Byte>, tcp: nat, o: Tuple, n: Tuple, fault: int,
                          ghost b: seq<Byte>) returns (ok: bool)
    requires 34 <= tcp && tcp + 20 <= skb.Length && |b| == skb.Length && o == TupleAt(b, tcp)
    requires skb[..] == Rewritten(b, tcp, n, 4)
    modifies skb
    ensures ok <==> !(4 <= fault < 6 && Called(fault, o, n))
    ensures skb[..] == Rewritten(b, tcp, n, if ok then 6 else fault)
  {
    if o.saddr != n.saddr {
      ok := CsumReplace32(skb, IP_CHECK, o.saddr, n.saddr, fault == 4);
      if !ok { return; }
    }
    assert skb[..] == Rewritten(b, tcp, n, 5);
    if o.daddr != n.daddr {
      ok := CsumReplace32(skb, IP_CHECK, o.daddr, n.daddr, fault == 5);
      if !ok { return; }
    }
    return true;
  }

  /** The TCP checksum updates for the pseudo header: helper calls 6 and 7. */
  method UpdateTcpChecksumAddrs(skb: array<Byte>, tcp: nat, o: Tuple, n: Tuple, fault: int,
                                ghost b: seq<Byte>) returns (ok: bool)
    requires 34 <= tcp && tcp + 20 <= skb.Length && |b| == skb.Length && o == TupleAt(b, tcp)
    requires skb[..] == Rewritten(b, tcp, n, 6)
    modifies skb
    ensures ok <==> !(6 <= fault < 8 && Called(fault, o, n))
    ensures skb[..] == Rewritten(b, tcp, n, if ok then 8 else fault)
  {
    if o.saddr != n.saddr {
      ok := CsumReplace32(skb, tcp + 16, o.saddr, n.saddr, fault == 6);
      if !ok { return; }
    }
    assert skb[..] == Rewritten(b, tcp, n, 7);
    if o.daddr != n.daddr {
      ok := CsumReplace32(skb, tcp + 16, o.daddr, n.daddr, fault == 7);
      if !ok { return; }
    }
    return true;
  }

  /** The TCP checksum updates for the ports: helper calls 8 and 9. */
  method UpdateTcpChecksumPorts(skb: array<Byte>, tcp: nat, o: Tuple, n: Tuple, fault: int,
                                ghost b: seq<Byte>) returns (ok: bool)
    requires 34 <= tcp && tcp + 20 <= skb.Length && |b| == skb.Length && o == TupleAt(b, tcp)
    requires skb[..] == Rewritten(b, tcp, n, 8)
    modifies skb
    ensures ok <==> !(8 <= fault < 10 && Called(fault, o, n))
    ensures skb[..] == Rewritten(b, tcp, n, if ok then 10 else fault)
  {
    if o.sport != n.sport {
      ok := CsumReplace16(skb, tcp + 16, o.sport, n.sport, fault == 8);
      if !ok { return; }
    }
    assert skb[..] == Rewritten(b, tcp, n, 9);
    if o.dport != n.dport {
      ok := CsumReplace16(skb, tcp + 16, o.dport, n.dport, fault == 9);
      if !ok { return; }
    }
    return true;
  }

  /**
   rewrite_tuple: succeeds unless a helper call it makes fails; a failure leaves the calls made so far
   in the frame.
   */
  method RewriteTuple(skb: array<Byte>, tcp: nat, n: Tuple, fault: int) returns (ok: bool)
    requires 34 <= tcp && tcp + 20 <= skb.Length
    modifies skb
    ensures ok <==> RewriteSucceeds(TupleAt(old(skb[..]), tcp), n, fault)
    ensures skb[..] == Rewritten(old(skb[..]), tcp, n, if ok then HELPERS else fault)
  {
    ghost var b := skb[..];
    var o := TupleAt(skb[..], tcp);
    ok := StoreTuple(skb, tcp, o, n, fault);
    if !ok { return; }
    ok := UpdateIpChecksum(skb, tcp, o, n, fault, b);
    if !ok { return; }
    ok := UpdateTcpChecksumAddrs(skb, tcp, o, n, fault, b);
    if !ok { return; }
    ok := UpdateTcpChecksumPorts(skb, tcp, o, n, fault, b);
  }
}
