/**
 rewrite_tuple cut short by a failing helper (nodeport_tc.c): the frame keeps the calls made so far
 and is passed on. Exactly when its checksums are still valid.
 */
module PartialRewrite {
  import opened Net
  import opened Checksum
  import opened Packet
  import opened Rewrite

  /** Which of the ten calls can fail a rewrite: only those for a field that changes. */
  lemma RewriteFailsIff(o: Tuple, n: Tuple, fault: int)
    ensures !RewriteSucceeds(o, n, fault) <==>
            || (fault in {0, 4, 6} && o.saddr != n.saddr) || (fault in {1, 5, 7} && o.daddr != n.daddr)
            || (fault in {2, 8} && o.sport != n.sport) || (fault in {3, 9} && o.dport != n.dport)
  {
  }

  /** The change of the IP header's word sum that is stored after k calls but not yet in its checksum. */
  function IpPending(k: nat, o: Tuple, n: Tuple): int {
    (if 1 <= k <= 4 then AddrSum(n.saddr) - AddrSum(o.saddr) else 0) +
    (if 2 <= k <= 5 then AddrSum(n.daddr) - AddrSum(o.daddr) else 0)
  }

  /** The same for the sum over pseudo header and TCP segment. */
  function TcpPending(k: nat, o: Tuple, n: Tuple): int {
    (if 1 <= k <= 6 then AddrSum(n.saddr) - AddrSum(o.saddr) else 0) +
    (if 2 <= k <= 7 then AddrSum(n.daddr) - AddrSum(o.daddr) else 0) +
    (if 3 <= k <= 8 then n.sport - o.sport else 0) +
    (if 4 <= k <= 9 then n.dport - o.dport else 0)
  }

  function AddrSums(t: Tuple): nat {
    AddrSum(t.saddr) + AddrSum(t.daddr)
  }

  lemma {:induction false} PendingIsDrift(k: nat, o: Tuple, n: Tuple)
    requires k <= HELPERS
    ensures IpDrift(k, o, n) == IpPending(k, o, n)
    ensures AddrSums(TupleAfter(k, o, n)) - AddrSums(o) + SegmentDrift(k, o, n) == TcpPending(k, o, n)
  {
    hide AddrSum;
    if k > 0 { PendingIsDrift(k - 1, o, n); }
  }

  /** However many calls are made, the frame keeps its layout, and its tuple is new field by field. */
  lemma LayoutKept(b: seq<Byte>, n: Tuple, k: nat)
    requires Parse(b).Some? && k <= HELPERS
    ensures var tcp := Parse(b).value;
            var r := Rewritten(b, tcp, n, k);
            && Parse(r) == Parse(b) && |r| == |b| && SegmentEnd(r) == SegmentEnd(b)
            && TupleAt(r, tcp) == TupleAfter(k, TupleAt(b, tcp), n)
  {
    var tcp := Parse(b).value;
    RewriteFrame(b, tcp, n, k);
    SameHeaderParses(b, Rewritten(b, tcp, n, k), tcp);
    assert !IsNatByte(tcp, 16) && !IsNatByte(tcp, 17);
    hide Parse, TupleAt, TupleAfter, Rewritten;
  }

  /**
   When a helper call fails, the frame keeps the first k calls. A valid IP header stays valid
   exactly when the addresses stored but not yet in its checksum cancel out.
   */
  lemma PartialRewriteIpIff(b: seq<Byte>, n: Tuple, k: nat)
    requires Parse(b).Some? && IpChecksumValid(b) && k <= HELPERS
    ensures var tcp := Parse(b).value;
            var r := Rewritten(b, tcp, n, k);
            && Parse(r) == Parse(b) && TupleAt(r, tcp) == TupleAfter(k, TupleAt(b, tcp), n)
            && (IpChecksumValid(r) <==> IpPending(k, TupleAt(b, tcp), n) % 0xFFFF == 0)
  {
    hide RangeSum, Parse, Rewritten, IpChecksumValid, TupleAt, IpDrift, Congruent, IpPending, TcpPending, TupleAfter,
         SegmentDrift, AddrSums, SegmentEnd;
    var tcp := Parse(b).value;
    var r := Rewritten(b, tcp, n, k);
    LayoutKept(b, n, k);
    PendingIsDrift(k, TupleAt(b, tcp), n);
    RewriteIpSum(b, tcp, n, k);
    IpChecksumValidIff(b);
    IpChecksumValidIff(r);
    DriftResidue(RangeSum(r, ETH_HLEN, tcp), RangeSum(b, ETH_HLEN, tcp), IpDrift(k, TupleAt(b, tcp), n));
  }

  /** What the TCP receiver adds up, over a segment of a frame. */
  function ReceiverTotal(b: seq<Byte>, tcp: nat, end: nat): nat
    requires 34 <= tcp && tcp + 20 <= end <= |b|
  {
    AddrSums(TupleAt(b, tcp)) + IPPROTO_TCP + (end - tcp) + RangeSum(b, tcp, end)
  }

  lemma TcpChecksumValidIff(b: seq<Byte>)
    requires Parse(b).Some? && Parse(b).value + 20 <= SegmentEnd(b) <= |b|
    ensures TcpChecksumValid(b) <==> ReceiverTotal(b, Parse(b).value, SegmentEnd(b)) % 0xFFFF == 0
  {
    var tcp, end := Parse(b).value, SegmentEnd(b);
    assert RangeSum(b, tcp, end) == WordSum(b[tcp..end]);
    hide Parse, PseudoHeader, OnesSum, WordSum, AddrSum;
    ReceiverSum(TupleAt(b, tcp), b[tcp..end], end - tcp);
  }

  lemma TotalAfter(b: seq<Byte>, tcp: nat, end: nat, n: Tuple, k: nat)
    requires 34 <= tcp && tcp + 20 <= end <= |b| && k <= HELPERS && tcp % 2 == 0
    ensures var r := Rewritten(b, tcp, n, k);
            Congruent(ReceiverTotal(r, tcp, end), ReceiverTotal(b, tcp, end) + TcpPending(k, TupleAt(b, tcp), n))
  {
    hide RangeSum, Rewritten, TupleAt, TupleAfter, SegmentDrift, IpDrift, TcpPending, IpPending, AddrSums,
         SameElsewhere, Congruent;
    var o, r := TupleAt(b, tcp), Rewritten(b, tcp, n, k);
    RewriteFrame(b, tcp, n, k);
    RewriteSegmentSum(b, tcp, end, n, k);
    PendingIsDrift(k, o, n);
    var rest := AddrSums(TupleAfter(k, o, n)) + IPPROTO_TCP + (end - tcp);
    CongruentShift(RangeSum(r, tcp, end), RangeSum(b, tcp, end) + SegmentDrift(k, o, n), rest);
  }

  lemma CongruentShift(a: int, b: int, c: int)
    requires Congruent(a, b)
    ensures Congruent(c + a, c + b)
  {
  }

  /** The same for a valid TCP checksum, with addresses and ports. */
  lemma PartialRewriteTcpIff(b: seq<Byte>, n: Tuple, k: nat)
    requires Parse(b).Some? && TcpChecksumValid(b) && k <= HELPERS
    ensures var tcp := Parse(b).value;
            var r := Rewritten(b, tcp, n, k);
            TcpChecksumValid(r) <==> TcpPending(k, TupleAt(b, tcp), n) % 0xFFFF == 0
  {
    hide RangeSum, Parse, Rewritten, TupleAt, Congruent, TcpPending, ReceiverTotal, TupleAfter, AddrSums, SegmentEnd,
         OnesSum,
         PseudoHeader;
    var tcp, end := Parse(b).value, SegmentEnd(b);
    var r := Rewritten(b, tcp, n, k);
    LayoutKept(b, n, k);
    TcpChecksumValidIff(b);
    TcpChecksumValidIff(r);
    hide TcpChecksumValid;
    TotalAfter(b, tcp, end, n, k);
    DriftResidue(ReceiverTotal(r, tcp, end), ReceiverTotal(b, tcp, end), TcpPending(k, TupleAt(b, tcp), n));
  }

  // --- A frame that a failing helper spoils --------------------------------------------

  const ETHERNET: seq<Byte> := [0, 0, 0, 0, 0, 0, 0, 0, 0, 0, 0, 0, 0x08, 0x00]
  const IP_HEADER: seq<Byte> := [0x45, 0, 0, 40, 0, 0, 0, 0, 0, 6, 0xBA, 0xCE, 0, 0, 0, 1, 0, 0, 0, 2]
  const TCP_HEADER: seq<Byte> := [0, 3, 0, 4, 0, 0, 0, 0, 0, 0, 0, 0, 0x50, 0, 0, 0, 0xAF, 0xDB, 0, 0]

  /** An IPv4 frame from 0.0.0.1 port 3 to 0.0.0.2 port 4, without payload. */
  function SampleFrame(): seq<Byte> {
    ETHERNET + IP_HEADER + TCP_HEADER
  }

  lemma FiveWords(b: seq<Byte>)
    requires |b| == 10
    ensures WordSum(b) == Word(b, 0) + Word(b, 2) + Word(b, 4) + Word(b, 6) + Word(b, 8)
  {
    var c := b[2..];
    var d := c[2..];
    var e := d[2..];
    var f := e[2..];
    assert WordSum(b) == Word(b, 0) + WordSum(c);
    assert WordSum(c) == Word(c, 0) + WordSum(d);
    assert WordSum(d) == Word(d, 0) + WordSum(e);
    assert WordSum(e) == Word(e, 0) + WordSum(f);
    assert WordSum(f) == Word(f, 0) + WordSum([]) by { assert f[2..] == []; }
  }

  lemma TenWords(b: seq<Byte>)
    requires |b| == 20
    ensures WordSum(b) == Word(b, 0) + Word(b, 2) + Word(b, 4) + Word(b, 6) + Word(b, 8) +
                          Word(b, 10) + Word(b, 12) + Word(b, 14) + Word(b, 16) + Word(b, 18)
  {
    hide WordSum;
    FiveWords(b[..10]);
    FiveWords(b[10..]);
    WordSumConcat(b[..10], b[10..]);
    assert b[..10] + b[10..] == b;
  }

  lemma HeaderSums()
    ensures WordSum(IP_HEADER) == 0xFFFF && WordSum(TCP_HEADER) == 0xFFFF - 29
  {
    hide WordSum;
    TenWords(IP_HEADER);
    TenWords(TCP_HEADER);
  }

  lemma SampleSlices()
    ensures |SampleFrame()| == 54
    ensures SampleFrame()[14..34] == IP_HEADER && SampleFrame()[34..54] == TCP_HEADER
  {
  }

  /** The bytes of the sample frame that its fields are read from. */
  lemma SampleBytes()
    ensures var b := SampleFrame();
            && |b| == 54 && b[12] == 0x08 && b[13] == 0 && b[14] == 0x45 && b[16] == 0 && b[17] == 40 && b[23] == 6
            && b[46] == 0x50
            && b[26] == b[27] == b[28] == 0 && b[29] == 1 && b[30] == b[31] == b[32] == 0 && b[33] == 2
            && b[34] == 0 && b[35] == 3 && b[36] == 0 && b[37] == 4
  {
  }

  lemma SampleParses()
    ensures Parse(SampleFrame()) == Some(34) && SegmentEnd(SampleFrame()) == 54
    ensures TupleAt(SampleFrame(), 34) == Tuple(1, 2, 3, 4)
  {
    SampleBytes();
    hide SampleFrame;
    var b := SampleFrame();
    assert Carries(b, 34);
    ParseIff(b, 34);
    hide Parse, Carries;
    assert TupleAt(b, 34) == Tuple(1, 2, 3, 4) by { SampleTuple(b); }
    hide TupleAt;
    assert Word(b, 16) == 40;
  }

  lemma SampleTuple(b: seq<Byte>)
    requires |b| == 54 && b[26] == b[27] == b[28] == 0 && b[29] == 1 && b[30] == b[31] == b[32] == 0 && b[33] == 2
    requires b[34] == 0 && b[35] == 3 && b[36] == 0 && b[37] == 4
    ensures TupleAt(b, 34) == Tuple(1, 2, 3, 4)
  {
    TupleBytes(b, 34);
  }

  lemma SampleIsValid()
    ensures IpChecksumValid(SampleFrame()) && TcpChecksumValid(SampleFrame())
  {
    hide SampleFrame, WordSum, Parse, IpChecksumValid, TcpChecksumValid, TupleAt, SegmentEnd, IP_HEADER, TCP_HEADER;
    var b := SampleFrame();
    SampleSlices();
    HeaderSums();
    SampleParses();
    IpChecksumValidIff(b);
    TcpChecksumValidIff(b);
  }

  lemma SamplePending()
    ensures var o, n := Tuple(1, 2, 3, 4), Tuple(5, 2, 3, 4);
            && IpPending(4, o, n) == 4 && IpPending(6, o, n) == 0
            && TcpPending(4, o, n) == TcpPending(6, o, n) == 4
  {
  }

  /**
   A new source address whose IP checksum update fails spoils both checksums; if only its TCP
   checksum update fails, the IP header is valid and the TCP checksum is not.
   */
  lemma FailingHelperSpoilsFrame()
    ensures var b, n := SampleFrame(), Tuple(5, 2, 3, 4);
            && Parse(b) == Some(34) && IpChecksumValid(b) && TcpChecksumValid(b)
            && !RewriteSucceeds(TupleAt(b, 34), n, 4) && !RewriteSucceeds(TupleAt(b, 34), n, 6)
            && !IpChecksumValid(Rewritten(b, 34, n, 4)) && !TcpChecksumValid(Rewritten(b, 34, n, 4))
            && IpChecksumValid(Rewritten(b, 34, n, 6)) && !TcpChecksumValid(Rewritten(b, 34, n, 6))
  {
    hide SampleFrame, Rewritten, IpChecksumValid, TcpChecksumValid, Parse, TupleAt, IpPending, TcpPending, TupleAfter,
         SegmentEnd;
    var b, n := SampleFrame(), Tuple(5, 2, 3, 4);
    SampleParses();
    SampleIsValid();
    SamplePending();
    PartialRewriteIpIff(b, n, 4);
    PartialRewriteTcpIff(b, n, 4);
    PartialRewriteIpIff(b, n, 6);
    PartialRewriteTcpIff(b, n, 6);
  }
}
