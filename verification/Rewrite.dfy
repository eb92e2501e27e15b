/**
 What a completed rewrite does to a frame: it re-parses to the new tuple, leaves every other
 byte alone, and keeps both checksums valid exactly when they were valid before.
 */
module Rewrite {
  import opened Net
  import opened Checksum
  import opened Packet

  function AddrSum(a: Addr): nat {
    Hi(a) + Lo(a)
  }

  /** The word sum of the bytes from s up to e. */
  function RangeSum(b: seq<Byte>, s: nat, e: nat): nat
    requires s <= e <= |b|
  {
    WordSum(b[s..e])
  }

  lemma SlicePut16(b: seq<Byte>, s: nat, e: nat, i: nat, w: Word16)
    requires s <= e <= |b| && i + 2 <= |b| && (i - s) % 2 == 0
    requires i + 2 <= s || e <= i || (s <= i && i + 2 <= e)
    ensures RangeSum(Put16(b, i, w), s, e) == RangeSum(b, s, e) + (if s <= i < e then w - Word(b, i) else 0)
  {
    if s <= i < e {
      WordSumPut16(b[s..e], i - s, w);
      assert Put16(b, i, w)[s..e] == Put16(b[s..e], i - s, w);
    } else {
      assert Put16(b, i, w)[s..e] == b[s..e];
    }
  }

  lemma SlicePut32(b: seq<Byte>, s: nat, e: nat, i: nat, a: Word32)
    requires s <= e <= |b| && i + 4 <= |b| && (i - s) % 2 == 0
    requires i + 4 <= s || e <= i || (s <= i && i + 4 <= e)
    ensures RangeSum(Put32(b, i, a), s, e) ==
            RangeSum(b, s, e) + (if s <= i < e then AddrSum(a) - AddrSum(Long(b, i)) else 0)
  {
    hide Hi, Lo, RangeSum;
    SlicePut16(b, s, e, i, Hi(a));
    SlicePut16(Put16(b, i, Hi(a)), s, e, i + 2, Lo(a));
    LongParts(b, i);
  }

  lemma LongParts(b: seq<Byte>, i: nat)
    requires i + 4 <= |b|
    ensures Hi(Long(b, i)) == Word(b, i) && Lo(Long(b, i)) == Word(b, i + 2)
  {
  }

  // --- One helper call at a time -----------------------------------------------------

  /** What helper call k adds to the sum of the IP header words, up to multiples of 0xFFFF. */
  function IpDelta(k: nat, o: Tuple, n: Tuple): int {
    match k
    case 0 => AddrSum(n.saddr) - AddrSum(o.saddr)
    case 1 => AddrSum(n.daddr) - AddrSum(o.daddr)
    case 4 => AddrSum(o.saddr) - AddrSum(n.saddr)
    case 5 => AddrSum(o.daddr) - AddrSum(n.daddr)
    case _ => 0
  }

  /** What helper call k adds to the sum of the TCP segment words. */
  function SegmentDelta(k: nat, o: Tuple, n: Tuple): int {
    match k
    case 2 => n.sport - o.sport
    case 3 => n.dport - o.dport
    case 6 => AddrSum(o.saddr) - AddrSum(n.saddr)
    case 7 => AddrSum(o.daddr) - AddrSum(n.daddr)
    case 8 => o.sport - n.sport
    case 9 => o.dport - n.dport
    case _ => 0
  }

  function IpDrift(k: nat, o: Tuple, n: Tuple): int {
    if k == 0 then 0 else IpDrift(k - 1, o, n) + IpDelta(k - 1, o, n)
  }

  function SegmentDrift(k: nat, o: Tuple, n: Tuple): int {
    if k == 0 then 0 else SegmentDrift(k - 1, o, n) + SegmentDelta(k - 1, o, n)
  }

  /** After all ten calls the IP header balances and the segment compensates the pseudo header. */
  lemma DriftAfterAll(o: Tuple, n: Tuple)
    ensures IpDrift(HELPERS, o, n) == 0
    ensures SegmentDrift(HELPERS, o, n) == AddrSum(o.saddr) + AddrSum(o.daddr) - AddrSum(n.saddr) - AddrSum(n.daddr)
  {
    hide AddrSum;
    assert IpDrift(1, o, n) == IpDelta(0, o, n);
    assert IpDrift(2, o, n) == IpDrift(1, o, n) + IpDelta(1, o, n);
    assert IpDrift(4, o, n) == IpDrift(3, o, n) == IpDrift(2, o, n);
    assert IpDrift(6, o, n) == IpDrift(5, o, n) + IpDelta(5, o, n) == 0;
    assert IpDrift(8, o, n) == IpDrift(7, o, n) == IpDrift(6, o, n);
    assert SegmentDrift(2, o, n) == SegmentDrift(1, o, n) == 0;
    assert SegmentDrift(4, o, n) == SegmentDrift(3, o, n) + SegmentDelta(3, o, n) ==
        n.sport - o.sport + n.dport - o.dport;
    assert SegmentDrift(6, o, n) == SegmentDrift(5, o, n) == SegmentDrift(4, o, n);
    assert SegmentDrift(8, o, n) == SegmentDrift(7, o, n) + SegmentDelta(7, o, n);
  }

  function TupleAfter(k: nat, o: Tuple, n: Tuple): Tuple {
    Tuple(if k > 0 then n.saddr else o.saddr, if k > 1 then n.daddr else o.daddr,
          if k > 2 then n.sport else o.sport, if k > 3 then n.dport else o.dport)
  }

  ghost predicate SameElsewhere(b: seq<Byte>, p: seq<Byte>, tcp: nat) {
    |p| == |b| && forall j: nat :: j < |b| && !IsNatByte(tcp, j) ==> p[j] == b[j]
  }

  /**
   A rewrite, complete or not, leaves every byte alone but the IP checksum (24 and 25), the addresses
   (26 to 33), the ports (the first four of the TCP header) and the TCP checksum (its 16 and 17).
   */
  lemma RewriteTouches(b: seq<Byte>, tcp: nat, n: Tuple, k: nat, j: nat)
    requires 34 <= tcp && tcp + 20 <= |b| && k <= HELPERS && j < |b|
    requires !(24 <= j < 34) && !(tcp <= j < tcp + 4) && j != tcp + 16 && j != tcp + 17
    ensures |Rewritten(b, tcp, n, k)| == |b| && Rewritten(b, tcp, n, k)[j] == b[j]
  {
    RewriteFrame(b, tcp, n, k);
    hide Rewritten, TupleAt, TupleAfter;
  }

  lemma {:induction false} RewriteFrame(b: seq<Byte>, tcp: nat, n: Tuple, k: nat)
    requires 34 <= tcp && tcp + 20 <= |b| && k <= HELPERS
    ensures SameElsewhere(b, Rewritten(b, tcp, n, k), tcp)
    ensures TupleAt(Rewritten(b, tcp, n, k), tcp) == TupleAfter(k, TupleAt(b, tcp), n)
  {
    if k > 0 {
      RewriteFrame(b, tcp, n, k - 1);
      var o, p := TupleAt(b, tcp), Rewritten(b, tcp, n, k - 1);
      if Called(k - 1, o, n) {
        EffectFrame(p, tcp, o, n, k - 1);
      }
    }
  }

  lemma EffectFrame(p: seq<Byte>, tcp: nat, o: Tuple, n: Tuple, k: nat)
    requires 34 <= tcp && tcp + 20 <= |p| && k < HELPERS
    requires TupleAt(p, tcp) == TupleAfter(k, o, n)
    ensures SameElsewhere(p, Effect(k, p, tcp, o, n), tcp)
    ensures TupleAt(Effect(k, p, tcp, o, n), tcp) == TupleAfter(k + 1, o, n)
  {
    hide Hi, Lo, Replace16, Replace32;
    var e := Effect(k, p, tcp, o, n);
    match k
    case 0 => Put32Reads(p, IP_SADDR, n.saddr);
    case 1 => Put32Reads(p, IP_DADDR, n.daddr);
    case 2 => Put16Reads(p, tcp, n.sport);
    case 3 => Put16Reads(p, tcp + 2, n.dport);
    case 4 => Put16Reads(p, IP_CHECK, Replace32(Word(p, IP_CHECK), o.saddr, n.saddr));
    case 5 => Put16Reads(p, IP_CHECK, Replace32(Word(p, IP_CHECK), o.daddr, n.daddr));
    case 6 => Put16Reads(p, tcp + 16, Replace32(Word(p, tcp + 16), o.saddr, n.saddr));
    case 7 => Put16Reads(p, tcp + 16, Replace32(Word(p, tcp + 16), o.daddr, n.daddr));
    case 8 => Put16Reads(p, tcp + 16, Replace16(Word(p, tcp + 16), o.sport, n.sport));
    case 9 => Put16Reads(p, tcp + 16, Replace16(Word(p, tcp + 16), o.dport, n.dport));
  }

  lemma Put16Reads(b: seq<Byte>, i: nat, w: Word16)
    requires i + 2 <= |b|
    ensures Word(Put16(b, i, w), i) == w
    ensures forall j: nat :: j + 2 <= |b| && (j + 2 <= i || i + 2 <= j) ==> Word(Put16(b, i, w), j) == Word(b, j)
    ensures forall j: nat :: j < |b| && (j < i || i + 2 <= j) ==> Put16(b, i, w)[j] == b[j]
  {
  }

  lemma Put32Reads(b: seq<Byte>, i: nat, a: Word32)
    requires i + 4 <= |b|
    ensures Long(Put32(b, i, a), i) == a
    ensures forall j: nat :: j + 2 <= |b| && (j + 2 <= i || i + 4 <= j) ==> Word(Put32(b, i, a), j) == Word(b, j)
    ensures forall j: nat :: j < |b| && (j < i || i + 4 <= j) ==> Put32(b, i, a)[j] == b[j]
  {
    hide Put16;
    Put16Reads(b, i, Hi(a));
    Put16Reads(Put16(b, i, Hi(a)), i + 2, Lo(a));
  }

  lemma CongruentChain(a: int, b: int, c: int, d: int, e: int)
    requires Congruent(a, b + d) && Congruent(c, a + e)
    ensures Congruent(c, b + d + e)
  {
  }

  lemma IpSumStep(p: seq<Byte>, tcp: nat, o: Tuple, n: Tuple, k: nat)
    requires 34 <= tcp && tcp + 20 <= |p| && k < HELPERS && tcp % 2 == 0
    requires TupleAt(p, tcp) == TupleAfter(k, o, n)
    ensures Congruent(RangeSum(Effect(k, p, tcp, o, n), ETH_HLEN, tcp), RangeSum(p, ETH_HLEN, tcp) + IpDelta(k, o, n))
  {
    if k == 0 {
      SlicePut32(p, ETH_HLEN, tcp, IP_SADDR, n.saddr);
    } else if k == 1 {
      SlicePut32(p, ETH_HLEN, tcp, IP_DADDR, n.daddr);
    } else if k == 4 {
      IpCheckStep(p, tcp, o.saddr, n.saddr);
    } else if k == 5 {
      IpCheckStep(p, tcp, o.daddr, n.daddr);
    } else {
      assert Effect(k, p, tcp, o, n)[ETH_HLEN..tcp] == p[ETH_HLEN..tcp];
    }
  }

  lemma IpCheckStep(p: seq<Byte>, tcp: nat, from: Addr, to: Addr)
    requires 34 <= tcp && tcp + 20 <= |p| && tcp % 2 == 0
    ensures Congruent(RangeSum(Put16(p, IP_CHECK, Replace32(Word(p, IP_CHECK), from, to)), ETH_HLEN, tcp),
                      RangeSum(p, ETH_HLEN, tcp) + AddrSum(from) - AddrSum(to))
  {
    ReplaceIsResidue32(Word(p, IP_CHECK), from, to);
    SlicePut16(p, ETH_HLEN, tcp, IP_CHECK, Replace32(Word(p, IP_CHECK), from, to));
  }

  lemma SegmentSumStep(p: seq<Byte>, tcp: nat, end: nat, o: Tuple, n: Tuple, k: nat)
    requires 34 <= tcp && tcp + 20 <= end <= |p| && k < HELPERS && tcp % 2 == 0
    requires TupleAt(p, tcp) == TupleAfter(k, o, n)
    ensures Congruent(RangeSum(Effect(k, p, tcp, o, n), tcp, end), RangeSum(p, tcp, end) + SegmentDelta(k, o, n))
  {
    hide RangeSum, AddrSum, Hi, Lo, Replace16, Replace32;
    var check := Word(p, tcp + 16);
    if k == 2 {
      SlicePut16(p, tcp, end, tcp, n.sport);
    } else if k == 3 {
      SlicePut16(p, tcp, end, tcp + 2, n.dport);
    } else if k == 6 {
      ReplaceIsResidueAddr(check, o.saddr, n.saddr);
      TcpCheckStep(p, tcp, end, Replace32(check, o.saddr, n.saddr), AddrSum(o.saddr) - AddrSum(n.saddr));
    } else if k == 7 {
      ReplaceIsResidueAddr(check, o.daddr, n.daddr);
      TcpCheckStep(p, tcp, end, Replace32(check, o.daddr, n.daddr), AddrSum(o.daddr) - AddrSum(n.daddr));
    } else if k == 8 {
      ReplaceIsResidue16(check, o.sport, n.sport);
      TcpCheckStep(p, tcp, end, Replace16(check, o.sport, n.sport), o.sport - n.sport);
    } else if k == 9 {
      ReplaceIsResidue16(check, o.dport, n.dport);
      TcpCheckStep(p, tcp, end, Replace16(check, o.dport, n.dport), o.dport - n.dport);
    } else {
      EffectBelowSegment(p, tcp, end, o, n, k);
    }
  }

  lemma EffectBelowSegment(p: seq<Byte>, tcp: nat, end: nat, o: Tuple, n: Tuple, k: nat)
    requires 34 <= tcp && tcp + 20 <= end <= |p| && k in {0, 1, 4, 5}
    ensures RangeSum(Effect(k, p, tcp, o, n), tcp, end) == RangeSum(p, tcp, end)
  {
    hide Hi, Lo, Replace32, WordSum;
    assert Effect(k, p, tcp, o, n)[tcp..end] == p[tcp..end];
  }

  lemma ReplaceIsResidueAddr(check: Word16, from: Addr, to: Addr)
    ensures Congruent(Replace32(check, from, to), check + AddrSum(from) - AddrSum(to))
  {
    ReplaceIsResidue32(check, from, to);
  }

  lemma TcpCheckStep(p: seq<Byte>, tcp: nat, end: nat, w: Word16, delta: int)
    requires 34 <= tcp && tcp + 20 <= end <= |p| && tcp % 2 == 0
    requires Congruent(w, Word(p, tcp + 16) + delta)
    ensures Congruent(RangeSum(Put16(p, tcp + 16, w), tcp, end), RangeSum(p, tcp, end) + delta)
  {
    SlicePut16(p, tcp, end, tcp + 16, w);
  }

  lemma NotCalledNoDelta(k: nat, o: Tuple, n: Tuple)
    requires k < HELPERS && !Called(k, o, n)
    ensures IpDelta(k, o, n) == 0 && SegmentDelta(k, o, n) == 0
  {
  }

  lemma RewrittenStep(b: seq<Byte>, tcp: nat, n: Tuple, k: nat)
    requires 34 <= tcp && tcp + 20 <= |b| && k < HELPERS
    ensures var o, p := TupleAt(b, tcp), Rewritten(b, tcp, n, k);
            Rewritten(b, tcp, n, k + 1) == if Called(k, o, n) then Effect(k, p, tcp, o, n) else p
  {
  }

  lemma RewrittenNone(b: seq<Byte>, tcp: nat, n: Tuple)
    requires 34 <= tcp && tcp + 20 <= |b|
    ensures Rewritten(b, tcp, n, 0) == b
    ensures IpDrift(0, TupleAt(b, tcp), n) == SegmentDrift(0, TupleAt(b, tcp), n) == 0
  {
  }

  lemma DriftStep(k: nat, o: Tuple, n: Tuple)
    ensures IpDrift(k + 1, o, n) == IpDrift(k, o, n) + IpDelta(k, o, n)
    ensures SegmentDrift(k + 1, o, n) == SegmentDrift(k, o, n) + SegmentDelta(k, o, n)
  {
  }

  lemma CongruentSelf(a: int)
    ensures Congruent(a, a)
  {
  }

  lemma {:induction false} RewriteIpSum(b: seq<Byte>, tcp: nat, n: Tuple, k: nat)
    requires 34 <= tcp && tcp + 20 <= |b| && k <= HELPERS && tcp % 2 == 0
    ensures Congruent(RangeSum(Rewritten(b, tcp, n, k), ETH_HLEN, tcp),
            RangeSum(b, ETH_HLEN, tcp) + IpDrift(k, TupleAt(b, tcp), n))
  {
    hide TupleAt, TupleAfter, Rewritten, Effect, Called, RangeSum, IpDrift, IpDelta, Congruent, SameElsewhere;
    if k == 0 {
      RewrittenNone(b, tcp, n);
      CongruentSelf(RangeSum(b, ETH_HLEN, tcp));
    } else {
      var o, p := TupleAt(b, tcp), Rewritten(b, tcp, n, k - 1);
      var was, drift, delta := RangeSum(b, ETH_HLEN, tcp), IpDrift(k - 1, o, n), IpDelta(k - 1, o, n);
      DriftStep(k - 1, o, n);
      RewriteIpSum(b, tcp, n, k - 1);
      RewrittenStep(b, tcp, n, k - 1);
      if Called(k - 1, o, n) {
        RewriteFrame(b, tcp, n, k - 1);
        IpSumStep(p, tcp, o, n, k - 1);
        CongruentChain(RangeSum(p, ETH_HLEN, tcp), was, RangeSum(Effect(k - 1, p, tcp, o, n), ETH_HLEN, tcp), drift,
            delta);
      } else {
        NotCalledNoDelta(k - 1, o, n);
      }
    }
  }

  lemma {:induction false} RewriteSegmentSum(b: seq<Byte>, tcp: nat, end: nat, n: Tuple, k: nat)
    requires 34 <= tcp && tcp + 20 <= end <= |b| && k <= HELPERS && tcp % 2 == 0
    ensures Congruent(RangeSum(Rewritten(b, tcp, n, k), tcp, end),
            RangeSum(b, tcp, end) + SegmentDrift(k, TupleAt(b, tcp), n))
  {
    hide TupleAt, TupleAfter, Rewritten, Effect, Called, RangeSum, SegmentDrift, SegmentDelta, Congruent, SameElsewhere;
    if k == 0 {
      RewrittenNone(b, tcp, n);
      CongruentSelf(RangeSum(b, tcp, end));
    } else {
      var o, p := TupleAt(b, tcp), Rewritten(b, tcp, n, k - 1);
      var was, drift, delta := RangeSum(b, tcp, end), SegmentDrift(k - 1, o, n), SegmentDelta(k - 1, o, n);
      DriftStep(k - 1, o, n);
      RewriteSegmentSum(b, tcp, end, n, k - 1);
      RewrittenStep(b, tcp, n, k - 1);
      if Called(k - 1, o, n) {
        RewriteFrame(b, tcp, n, k - 1);
        SegmentSumStep(p, tcp, end, o, n, k - 1);
        CongruentChain(RangeSum(p, tcp, end), was, RangeSum(Effect(k - 1, p, tcp, o, n), tcp, end), drift, delta);
      } else {
        NotCalledNoDelta(k - 1, o, n);
      }
    }
  }

  // --- The completed rewrite ---------------------------------------------------------

  function RewriteAll(b: seq<Byte>, n: Tuple): (r: seq<Byte>)
    requires Parse(b).Some?
  {
    Rewritten(b, Parse(b).value, n, HELPERS)
  }

  /** The rewritten frame parses with the same layout to exactly the new tuple; only NAT bytes differ. */
  lemma RewriteReparses(b: seq<Byte>, n: Tuple)
    requires Parse(b).Some?
    ensures Parse(RewriteAll(b, n)) == Parse(b)
    ensures TupleAt(RewriteAll(b, n), Parse(b).value) == n
    ensures SameElsewhere(b, RewriteAll(b, n), Parse(b).value)
  {
    var tcp := Parse(b).value;
    var r := RewriteAll(b, n);
    RewriteFrame(b, tcp, n, HELPERS);
    SameHeaderParses(b, r, tcp);
  }

  /** The header sums to all ones exactly when its plain sum is a multiple of 0xFFFF: the version byte is not zero. */
  lemma IpChecksumValidIff(b: seq<Byte>)
    requires Parse(b).Some?
    ensures IpChecksumValid(b) <==> RangeSum(b, ETH_HLEN, Parse(b).value) % 0xFFFF == 0
  {
    var header := b[ETH_HLEN..Parse(b).value];
    assert header[0] == b[ETH_HLEN];
    WordSumPositive(header, 0);
    AllOnesIff(header);
  }

  lemma RewriteKeepsIpChecksum(b: seq<Byte>, n: Tuple)
    requires Parse(b).Some?
    ensures IpChecksumValid(RewriteAll(b, n)) <==> IpChecksumValid(b)
  {
    hide RangeSum, Parse, Rewritten, IpChecksumValid, TupleAt, IpDrift, Congruent, SameElsewhere;
    var tcp, r := Parse(b).value, RewriteAll(b, n);
    RewriteReparses(b, n);
    RewriteIpSum(b, tcp, n, HELPERS);
    DriftAfterAll(TupleAt(b, tcp), n);
    IpChecksumValidIff(b);
    IpChecksumValidIff(r);
    SameResidue(RangeSum(r, ETH_HLEN, tcp), RangeSum(b, ETH_HLEN, tcp));
  }

  lemma SameHeaderParses(b: seq<Byte>, r: seq<Byte>, tcp: nat)
    requires Parse(b) == Some(tcp) && SameElsewhere(b, r, tcp)
    ensures Parse(r) == Parse(b)
  {
    assert !IsNatByte(tcp, 12) && !IsNatByte(tcp, 13) && !IsNatByte(tcp, 14) && !IsNatByte(tcp, 23) &&
        !IsNatByte(tcp, tcp + 12);
  }

  lemma DriftResidue(after: int, before: int, drift: int)
    requires Congruent(after, before + drift) && before % 0xFFFF == 0
    ensures after % 0xFFFF == 0 <==> drift % 0xFFFF == 0
  {
  }

  lemma SameResidue(a: nat, b: nat)
    requires Congruent(a, b)
    ensures a % 0xFFFF == 0 <==> b % 0xFFFF == 0
  {
  }

  lemma PseudoHeaderSum(t: Tuple, len: Word16)
    ensures WordSum(PseudoHeader(t, len)) == AddrSum(t.saddr) + AddrSum(t.daddr) + IPPROTO_TCP + len
  {
    var a, b, c, d := Bytes16(Hi(t.saddr)), Bytes16(Lo(t.saddr)), Bytes16(Hi(t.daddr)), Bytes16(Lo(t.daddr));
    var p: seq<Byte> := [0, IPPROTO_TCP];
    var l := Bytes16(len);
    WordSumConcat(a, b);
    WordSumConcat(a + b, c);
    WordSumConcat(a + b + c, d);
    WordSumConcat(a + b + c + d, p);
    WordSumConcat(a + b + c + d + p, l);
  }

  /** The sum a TCP receiver computes, in terms of the tuple and the segment. */
  lemma ReceiverSum(t: Tuple, segment: seq<Byte>, len: Word16)
    ensures OnesSum(PseudoHeader(t, len) + segment) == 0xFFFF <==>
            (AddrSum(t.saddr) + AddrSum(t.daddr) + IPPROTO_TCP + len + WordSum(segment)) % 0xFFFF == 0
  {
    var whole := PseudoHeader(t, len) + segment;
    PseudoHeaderSum(t, len);
    WordSumConcat(PseudoHeader(t, len), segment);
    AllOnesIff(whole);
  }

  lemma RewriteKeepsTcpChecksum(b: seq<Byte>, n: Tuple)
    requires Parse(b).Some?
    ensures TcpChecksumValid(RewriteAll(b, n)) <==> TcpChecksumValid(b)
  {
    var tcp := Parse(b).value;
    var r := RewriteAll(b, n);
    RewriteReparses(b, n);
    assert !IsNatByte(tcp, 16) && !IsNatByte(tcp, 17);
    var end := SegmentEnd(b);
    assert SegmentEnd(r) == end;
    if tcp + 20 <= end <= |b| {
      hide OnesSum, WordSum, AddrSum, PseudoHeader, Rewritten;
      RewriteReceiverSum(b, tcp, end, n);
    }
  }

  lemma Balance(before: nat, after: nat, rest: nat, segment: nat, segmentAfter: nat)
    requires Congruent(segmentAfter, segment + (before - after))
    ensures (before + rest + segment) % 0xFFFF == 0 <==> (after + rest + segmentAfter) % 0xFFFF == 0
  {
  }

  lemma RewriteReceiverSum(b: seq<Byte>, tcp: nat, end: nat, n: Tuple)
    requires 34 <= tcp && tcp + 20 <= end <= |b| && tcp % 2 == 0 && end - tcp < 0x1_0000
    ensures var o, r := TupleAt(b, tcp), Rewritten(b, tcp, n, HELPERS);
            OnesSum(PseudoHeader(o, end - tcp) + b[tcp..end]) == 0xFFFF <==>
            OnesSum(PseudoHeader(n, end - tcp) + r[tcp..end]) == 0xFFFF
  {
    var o, r := TupleAt(b, tcp), Rewritten(b, tcp, n, HELPERS);
    var len: Word16 := end - tcp;
    assert RangeSum(b, tcp, end) == WordSum(b[tcp..end]) && RangeSum(r, tcp, end) == WordSum(r[tcp..end]);
    hide *;
    var so, sn, os, ns := AddrSum(o.saddr) + AddrSum(o.daddr), AddrSum(n.saddr) + AddrSum(n.daddr),
        RangeSum(b, tcp, end), RangeSum(r, tcp, end);
    RewriteSegmentSum(b, tcp, end, n, HELPERS);
    DriftAfterAll(o, n);
    ReceiverSum(o, b[tcp..end], len);
    ReceiverSum(n, r[tcp..end], len);
    Balance(so, sn, IPPROTO_TCP + len, os, ns);
  }
}
