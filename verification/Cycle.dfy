/**
 Counters that walk round a range: the SNAT cursor over its ports and the round-robin cursor
 over a backend list.
 */
module Cycle {
  import opened Net
  import opened Tables

  // --- The SNAT cursor ----------------------------------------------------------------

  /** The port of allocation number k when the cursor starts at c. */
  function PortAt(c: Option<Word32>, k: nat): Port {
    SNAT_MIN + (NextPort(c) - SNAT_MIN + k) % SNAT_PORTS
  }

  /** The cursor after k allocations. */
  function CursorAt(c: Option<Word32>, k: nat): Option<Word32> {
    if k == 0 then c else Some(CursorAfter(NextPort(CursorAt(c, k - 1))))
  }

  /** Allocation walks the range cyclically from any starting cursor, absent and out-of-range ones included. */
  lemma {:induction false} AllocationWalksTheRange(c: Option<Word32>, k: nat)
    ensures NextPort(CursorAt(c, k)) == PortAt(c, k)
  {
    hide PortAt, NextPort, CursorAfter;
    if k == 0 {
      PortAtStart(c);
    } else {
      AllocationWalksTheRange(c, k - 1);
      PortAtStep(c, k - 1);
    }
  }

  lemma PortAtStart(c: Option<Word32>)
    ensures PortAt(c, 0) == NextPort(c)
  {
  }

  lemma PortAtStep(c: Option<Word32>, k: nat)
    ensures NextPort(Some(CursorAfter(PortAt(c, k)))) == PortAt(c, k + 1)
  {
  }

  /** Two allocations get the same port exactly when a whole number of rounds lies between them. */
  lemma PortsRepeatIff(c: Option<Word32>, i: nat, j: nat)
    requires i <= j
    ensures PortAt(c, i) == PortAt(c, j) <==> (j - i) % SNAT_PORTS == 0
  {
    var x, d := NextPort(c) - SNAT_MIN + i, j - i;
    assert (x + d) % SNAT_PORTS == x % SNAT_PORTS <==> d % SNAT_PORTS == 0;
  }

  lemma NearbyPortsDiffer(c: Option<Word32>, i: nat, j: nat)
    requires i < j < i + SNAT_PORTS
    ensures PortAt(c, i) != PortAt(c, j)
  {
    PortsRepeatIff(c, i, j);
  }

  /** Any SNAT_PORTS consecutive allocations hand out every port exactly once. */
  lemma EveryPortOncePerRound(c: Option<Word32>, i: nat, p: Port)
    requires IsSnatPort(p)
    ensures exists k: nat :: i <= k < i + SNAT_PORTS && PortAt(c, k) == p &&
                             forall j: nat :: i <= j < i + SNAT_PORTS && PortAt(c, j) == p ==> j == k
  {
    var k: nat := i + (p - SNAT_MIN - (NextPort(c) - SNAT_MIN + i)) % SNAT_PORTS;
    assert PortAt(c, k) == p;
    forall j: nat | i <= j < i + SNAT_PORTS && PortAt(c, j) == p ensures j == k {
      if j < k { NearbyPortsDiffer(c, j, k); } else if k < j { NearbyPortsDiffer(c, k, j); }
    }
  }

  // --- The round-robin cursor ---------------------------------------------------------

  /** How many of m selections pick slot j when the cursor starts at `slot` and the list has n backends. */
  function Hits(slot: Word32, n: Word32, m: nat, j: Word32): nat
    requires slot < n
    decreases m
  {
    if m == 0 then 0 else (if slot == j then 1 else 0) + Hits(NextSlot(slot, n), n, m - 1, j)
  }

  /** q rounds of n selections. */
  function Rounds(q: nat, n: nat): nat {
    if q == 0 then 0 else n + Rounds(q - 1, n)
  }

  lemma {:induction false} RoundsIsProduct(q: nat, n: nat)
    ensures Rounds(q, n) == q * n
  {
    if q > 0 {
      RoundsIsProduct(q - 1, n);
    }
  }

  /** With q whole rounds and r more selections, slot j is picked q times, once more if the partial round reaches it. */
  lemma {:induction false} HitsExactly(slot: Word32, n: Word32, m: nat, j: Word32, q: nat, r: nat)
    requires slot < n && j < n && m == Rounds(q, n) + r && r < n
    ensures var distance := if slot <= j then j - slot else j - slot + n;
            Hits(slot, n, m, j) == q + (if distance < r then 1 else 0)
    decreases m
  {
    if r > 0 {
      HitsExactly(NextSlot(slot, n), n, m - 1, j, q, r - 1);
    } else if q > 0 {
      HitsExactly(NextSlot(slot, n), n, m - 1, j, q - 1, n - 1);
    }
  }

  /** Round robin is fair: every slot is picked floor(m / n) or ceil(m / n) times. */
  lemma RoundRobinIsFair(slot: Word32, n: Word32, m: nat, j: Word32)
    requires slot < n && j < n
    ensures m / n <= Hits(slot, n, m, j) <= m / n + (if m % n == 0 then 0 else 1)
  {
    RoundsIsProduct(m / n, n);
    assert m == m / n * n + m % n;
    HitsExactly(slot, n, m, j, m / n, m % n);
  }
}
