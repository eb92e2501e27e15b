/**
 The Internet checksum: ones' complement sums (RFC 1071), their incremental
 update (RFC 1624, section 3) and the arithmetic that connects the two.
 */
module Checksum {
  import opened Net

  /** Ones' complement addition: a carry out of bit 15 is added back in. */
  function OnesAdd(a: Word16, b: Word16): Word16 {
    if a + b >= 0x1_0000 then a + b - 0xFFFF else a + b
  }

  function OnesNot(a: Word16): Word16 {
    0xFFFF - a
  }

  /** The big-endian word at an offset. */
  function Word(b: seq<Byte>, i: nat): Word16
    requires i + 2 <= |b|
  {
    b[i] as int * 0x100 + b[i + 1]
  }

  function Put16(b: seq<Byte>, i: nat, w: Word16): (r: seq<Byte>)
    requires i + 2 <= |b|
    ensures |r| == |b|
  {
    b[i := w / 0x100][i + 1 := w % 0x100]
  }

  function Hi(a: Word32): Word16 {
    a / 0x1_0000
  }

  function Lo(a: Word32): Word16 {
    a % 0x1_0000
  }

  /** The ones' complement sum of a byte string; an odd last byte is padded with a zero byte. */
  function OnesSum(b: seq<Byte>): Word16 {
    if |b| == 0 then 0
    else if |b| == 1 then b[0] * 0x100
    else OnesAdd(Word(b, 0), OnesSum(b[2..]))
  }

  /** The same sum without carries folded in. */
  function WordSum(b: seq<Byte>): nat {
    if |b| == 0 then 0
    else if |b| == 1 then b[0] * 0x100
    else Word(b, 0) + WordSum(b[2..])
  }

  /** Equation 3 of RFC 1624: HC' = ~(~HC + ~m + m'). */
  function Replace16(check: Word16, from: Word16, to: Word16): Word16 {
    OnesNot(OnesAdd(OnesAdd(OnesNot(check), OnesNot(from)), to))
  }

  function Replace32(check: Word16, from: Word32, to: Word32): Word16 {
    Replace16(Replace16(check, Hi(from), Hi(to)), Lo(from), Lo(to))
  }

  ghost predicate Congruent(a: int, b: int) {
    (a - b) % 0xFFFF == 0
  }

  lemma ReplaceIsResidue16(check: Word16, from: Word16, to: Word16)
    ensures Congruent(Replace16(check, from, to), check + from - to)
  {
    var r := Replace16(check, from, to);
    var d := r - (check + from - to);
    assert d == 0 || d == 0xFFFF || d == -0xFFFF || d == 2 * 0xFFFF || d == -2 * 0xFFFF;
  }

  lemma ReplaceIsResidue32(check: Word16, from: Word32, to: Word32)
    ensures Congruent(Replace32(check, from, to), check + Hi(from) + Lo(from) - Hi(to) - Lo(to))
  {
    ReplaceIsResidue16(check, Hi(from), Hi(to));
    ReplaceIsResidue16(Replace16(check, Hi(from), Hi(to)), Lo(from), Lo(to));
  }

  /** The folded sum is zero only for a zero sum, and otherwise the residue in 1..0xFFFF. */
  lemma {:induction false} OnesSumIsResidue(b: seq<Byte>)
    ensures OnesSum(b) == 0 <==> WordSum(b) == 0
    ensures Congruent(OnesSum(b), WordSum(b))
  {
    if |b| >= 2 {
      OnesSumIsResidue(b[2..]);
    }
  }

  /** A string sums to all ones exactly when its plain sum is a positive multiple of 0xFFFF. */
  lemma AllOnesIff(b: seq<Byte>)
    ensures OnesSum(b) == 0xFFFF <==> WordSum(b) > 0 && WordSum(b) % 0xFFFF == 0
  {
    OnesSumIsResidue(b);
  }

  lemma {:induction false} WordSumPut16(b: seq<Byte>, i: nat, w: Word16)
    requires i + 2 <= |b| && i % 2 == 0
    ensures WordSum(Put16(b, i, w)) == WordSum(b) - Word(b, i) + w
  {
    var p := Put16(b, i, w);
    if i == 0 {
      assert p[2..] == b[2..];
    } else {
      WordSumPut16(b[2..], i - 2, w);
      assert p[2..] == Put16(b[2..], i - 2, w);
    }
  }

  lemma {:induction false} WordSumConcat(a: seq<Byte>, b: seq<Byte>)
    requires |a| % 2 == 0
    ensures WordSum(a + b) == WordSum(a) + WordSum(b)
  {
    if |a| == 0 {
      assert a + b == b;
    } else {
      assert (a + b)[2..] == a[2..] + b;
      WordSumConcat(a[2..], b);
    }
  }

  lemma {:induction false} WordSumPositive(b: seq<Byte>, i: nat)
    requires i < |b| && b[i] > 0
    ensures WordSum(b) > 0
  {
    if |b| >= 2 && i >= 2 {
      WordSumPositive(b[2..], i - 2);
    }
  }
}
