/**
 Telemetry over whole runs: packets, control-plane work and telemetry windows in any order. What
 the counters lose and keep on their way from the packet program into the windows.
 */
module TelemetryRuns {
  import opened Net
  import opened Tables
  import opened CounterLaws
  import opened Runs
  import opened Target
  import opened Telemetry

  // --- The counters of a run ------------------------------------------------------------

  /** A packet is handled by one of the CPUs. */
  predicate OnCpu(e: Event, cpus: nat) {
    e.Packet? ==> e.env.cpu < cpus
  }

  /** The per-CPU counters after an event; only packets count. */
  function CountersAfter(c: D.Counters, w: World, e: Event): D.Counters
    requires OnCpu(e, |c|)
  {
    if e.Packet? then D.Bumped(c, e.env.cpu, PacketStep(w.t, e.t, e.env).bumps) else c
  }

  /** The summed counters are the bumps of the run, in 64-bit arithmetic. */
  ghost predicate CountersFollow(c: D.Counters, m: multiset<nat>) {
    D.CountersValid(c) && forall i: nat :: i < STAT_COUNT ==> SnapshotOf(c)[i] == m[i] % WORD64
  }

  lemma CountersKeepFollowing(c: D.Counters, w: World, e: Event)
    requires CountersFollow(c, w.bumps) && OnCpu(e, |c|)
    ensures CountersFollow(CountersAfter(c, w, e), Next(w, e).bumps)
    ensures |CountersAfter(c, w, e)| == |c|
  {
    hide PacketStep, D.Bumped, D.BumpRow;
    if e.Packet? {
      var m := PacketStep(w.t, e.t, e.env).bumps;
      D.BumpedValid(c, e.env.cpu, m);
      forall i: nat | i < STAT_COUNT ensures SnapshotOf(CountersAfter(c, w, e))[i] == Next(w, e).bumps[i] % WORD64 {
        TotalAfterBumps(c, e.env.cpu, m, i, |c|);
        ModuloInside(m[i], w.bumps[i]);
      }
    }
  }

  lemma NextKeepsLaws(w: World, e: Event)
    requires Laws(w.bumps)
    ensures Laws(Next(w, e).bumps) && w.bumps <= Next(w, e).bumps
  {
    hide PacketStep, Laws;
    if e.Packet? {
      PacketKeepsLaws(w.t, e.t, e.env);
      LawsAddUp(w.bumps, PacketStep(w.t, e.t, e.env).bumps);
    }
  }

  lemma NothingIsLawful()
    ensures Laws(multiset{})
  {
  }

  /** The per-CPU counters after a run. */
  function CountersAfterRun(c: D.Counters, w: World, es: seq<Event>): D.Counters
    requires forall i :: 0 <= i < |es| ==> OnCpu(es[i], |c|)
    decreases |es|
  {
    if es == [] then c
    else
      assert forall i :: 0 <= i < |es[1..]| ==> es[1..][i] == es[i + 1];
      CountersAfterRun(CountersAfter(c, w, es[0]), Next(w, es[0]), es[1..])
  }

  lemma {:induction false} CountersFollowRun(c: D.Counters, w: World, es: seq<Event>)
    requires CountersFollow(c, w.bumps) && Laws(w.bumps) && forall i :: 0 <= i < |es| ==> OnCpu(es[i], |c|)
    ensures CountersFollow(CountersAfterRun(c, w, es), Run(w, es).bumps) && Laws(Run(w, es).bumps)
    decreases |es|
  {
    hide Laws, Next, CountersAfter, CountersFollow, OnCpu;
    if es != [] {
      assert forall i :: 0 <= i < |es[1..]| ==> es[1..][i] == es[i + 1];
      CountersKeepFollowing(c, w, es[0]);
      NextKeepsLaws(w, es[0]);
      CountersFollowRun(CountersAfter(c, w, es[0]), Next(w, es[0]), es[1..]);
    }
  }

  lemma {:induction false} ZeroTotal(c: D.Counters, i: nat, n: nat)
    requires n <= |c| && forall cpu :: 0 <= cpu < n ==> i < |c[cpu]| && c[cpu][i] == 0
    ensures Total(c, i, n) == 0
  {
    if n > 0 { ZeroTotal(c, i, n - 1); }
  }

  /**
   From zeroed counters, whatever happens: the counters summed over the CPUs are the bumps of the
   run, and these keep the counter laws. Telemetry may start on any such world.
   */
  lemma LawsHoldOnEveryRun(c: D.Counters, w: World, es: seq<Event>)
    requires Initial(w) && D.CountersValid(c) && forall cpu, i: nat :: 0 <= cpu < |c| && i < STAT_COUNT ==>
            c[cpu][i] == 0
    requires forall i :: 0 <= i < |es| ==> OnCpu(es[i], |c|)
    ensures CountersFollow(CountersAfterRun(c, w, es), Run(w, es).bumps) && Laws(Run(w, es).bumps)
  {
    NothingIsLawful();
    forall i: nat | i < STAT_COUNT ensures SnapshotOf(c)[i] == 0 {
      ZeroTotal(c, i, |c|);
    }
    hide Laws, SnapshotOf;
    CountersFollowRun(c, w, es);
  }

  // --- Counter vectors ------------------------------------------------------------------

  /** A vector of counts as a multiset of counter indices. */
  function Bag(v: seq<Word64>, n: nat): (m: multiset<nat>)
    requires n <= |v|
    ensures forall i: nat :: m[i] == if i < n then v[i] else 0
  {
    if n == 0 then multiset{} else Bag(v, n - 1)[n - 1 := v[n - 1]]
  }

  ghost predicate VectorLaws(v: Snapshot) {
    Laws(Bag(v, STAT_COUNT))
  }

  /** The growth between two readings that keep the laws keeps them too. */
  lemma GrowthKeepsLaws(m: multiset<nat>, base: multiset<nat>, v: Snapshot)
    requires Laws(m) && Laws(base) && base <= m
    requires forall i: nat :: i < STAT_COUNT ==> v[i] == m[i] - base[i]
    ensures VectorLaws(v)
  {
  }

  /** The sum of a selection of windows: those whose flag is set. */
  function SumOf(ws: seq<Window>, keep: seq<bool>): multiset<nat>
    requires |keep| == |ws|
  {
    if ws == [] then multiset{}
    else
      var n := |ws| - 1;
      SumOf(ws[..n], keep[..n]) + if keep[n] then Bag(ws[n].delta, STAT_COUNT) else multiset{}
  }

  ghost predicate AllLawful(ws: seq<Window>) {
    forall j :: 0 <= j < |ws| ==> VectorLaws(ws[j].delta)
  }

  lemma {:induction false} SelectionsKeepLaws(ws: seq<Window>, keep: seq<bool>)
    requires AllLawful(ws) && |keep| == |ws|
    ensures Laws(SumOf(ws, keep))
  {
    hide Laws, Bag;
    NothingIsLawful();
    if ws != [] {
      var n := |ws| - 1;
      SelectionsKeepLaws(ws[..n], keep[..n]);
      assert VectorLaws(ws[n].delta);
      LawsAddUp(SumOf(ws[..n], keep[..n]), if keep[n] then Bag(ws[n].delta, STAT_COUNT) else multiset{});
    }
  }

  /** What all windows together report for one counter. */
  function DeltaSum(ws: seq<Window>, i: nat): nat
    requires i < STAT_COUNT
  {
    if ws == [] then 0 else DeltaSum(ws[..|ws| - 1], i) + ws[|ws| - 1].delta[i]
  }

  /** The events all windows together consumed. */
  function ConsumedSum(ws: seq<Window>): Summary {
    if ws == [] then NOTHING else Plus(ConsumedSum(ws[..|ws| - 1]), ws[|ws| - 1].consumed)
  }

  /** The backend changes that the rows report. */
  function BackendSum(ws: seq<Window>): int {
    if ws == [] then 0
    else BackendSum(ws[..|ws| - 1]) + if ws[|ws| - 1].row.Some? then ws[|ws| - 1].row.value.backendDelta else 0
  }

  // --- Traces ---------------------------------------------------------------------------

  datatype Step = Happens(e: Event) | Notes(n: Note) | Collects(target: TargetState, f: WindowFault)

  /** A run under telemetry: `base` are the bumps at the latest reading, `noted` everything noted so far. */
  datatype Trace = Trace(w: World, stats: D.Counters, k: Carry, base: multiset<nat>, windows: seq<Window>,
                         noted: Summary)

  predicate Possible(x: Trace, s: Step) {
    s.Happens? ==> OnCpu(s.e, |x.stats|)
  }

  ghost function Advance(x: Trace, s: Step): Trace
    requires D.CountersValid(x.stats)
  {
    if !Possible(x, s) then x
    else match s
      case Happens(e) => x.(w := Next(x.w, e), stats := CountersAfter(x.stats, x.w, e))
      case Notes(n) => x.(k := x.k.(pending := Plus(x.k.pending, Weight(n))), noted := Plus(x.noted, Weight(n)))
      case Collects(target, f) =>
        var stats := SnapshotOf(x.stats);
        match WindowOf(x.k, stats, |x.w.t.ct|, |x.w.t.fwd|, target, f) {
          case None => x
          case Some(window) => x.(k := CarryAfter(x.k, stats, target, f), base := x.w.bumps,
              windows := x.windows + [window])
        }
  }

  /** The trace after the first steps of a sequence; every prefix keeps the counters valid. */
  ghost function Advanced(x: Trace, steps: seq<Step>): (y: Trace)
    requires D.CountersValid(x.stats)
    ensures D.CountersValid(y.stats) && |y.stats| == |x.stats|
  {
    if steps == [] then x
    else
      var y := Advanced(x, steps[..|steps| - 1]);
      AdvanceValid(y, steps[|steps| - 1]);
      Advance(y, steps[|steps| - 1])
  }

  lemma AdvanceValid(x: Trace, s: Step)
    requires D.CountersValid(x.stats)
    ensures D.CountersValid(Advance(x, s).stats) && |Advance(x, s).stats| == |x.stats|
  {
    if s.Happens? && Possible(x, s) && s.e.Packet? {
      D.BumpedValid(x.stats, s.e.env.cpu, PacketStep(x.w.t, s.e.t, s.e.env).bumps);
    }
    hide PacketStep;
  }

  /** Telemetry starts on a world that has run for a while: the baseline is read, nothing is noted. */
  ghost predicate Started(x: Trace) {
    && CountersFollow(x.stats, x.w.bumps) && Laws(x.w.bumps)
    && x.k == Carry(SnapshotOf(x.stats), 0, NOTHING) && x.base == x.w.bumps && x.windows == [] && x.noted == NOTHING
  }

  /** No counter has wrapped. */
  ghost predicate Unwrapped(m: multiset<nat>) {
    forall i: nat :: i < STAT_COUNT ==> m[i] < WORD64
  }

  /** The collector's reading is the bumps at that time, and the windows add up to the growth since the baseline. */
  ghost predicate Conserved(x: Trace, start: multiset<nat>) {
    && CountersFollow(x.stats, x.w.bumps) && Laws(x.w.bumps) && Laws(x.base) && x.base <= x.w.bumps
    && AllLawful(x.windows)
    && forall i: nat :: i < STAT_COUNT ==>
         x.k.previous[i] == x.base[i] && start[i] + DeltaSum(x.windows, i) == x.base[i]
  }

  /** Nothing noted gets lost between two windows, and the backend changes add up to the last total reported. */
  ghost predicate Accounted(x: Trace) {
    x.noted == Plus(ConsumedSum(x.windows), x.k.pending) && BackendSum(x.windows) == x.k.previousBackend
  }

  lemma AdvanceGrows(x: Trace, s: Step)
    requires D.CountersValid(x.stats)
    ensures x.w.bumps <= Advance(x, s).w.bumps
  {
    hide Next;
    if s.Happens? { BumpsGrow(x.w, s.e); }
  }

  lemma BumpsGrow(w: World, e: Event)
    ensures w.bumps <= Next(w, e).bumps
  {
    hide PacketStep;
  }

  /** A reading is the number of bumps, as long as no counter has wrapped. */
  lemma UnwrappedReading(c: D.Counters, m: multiset<nat>)
    requires CountersFollow(c, m) && Unwrapped(m)
    ensures D.CountersValid(c) && forall i: nat :: i < STAT_COUNT ==> SnapshotOf(c)[i] == m[i]
  {
    hide SnapshotOf;
    forall i: nat | i < STAT_COUNT ensures SnapshotOf(c)[i] == m[i] {
      assert m[i] < WORD64;
    }
  }

  lemma DeltaOfReadings(current: Snapshot, previous: Snapshot, m: multiset<nat>, base: multiset<nat>)
    requires base <= m
    requires forall i: nat :: i < STAT_COUNT ==> current[i] == m[i] && previous[i] == base[i]
    ensures forall i: nat :: i < STAT_COUNT ==> DiffOf(current, previous)[i] == m[i] - base[i]
  {
    assert forall i: nat :: base[i] <= m[i];
  }

  /** The difference of two readings is the growth between them, as long as no counter has wrapped. */
  lemma WindowIsGrowth(x: Trace, start: multiset<nat>)
    requires Conserved(x, start) && Unwrapped(x.w.bumps)
    ensures var delta := DiffOf(SnapshotOf(x.stats), x.k.previous);
            && VectorLaws(delta)
            && forall i: nat :: i < STAT_COUNT ==>
                delta[i] == x.w.bumps[i] - x.base[i] && SnapshotOf(x.stats)[i] == x.w.bumps[i]
  {
    hide Laws, SnapshotOf, DiffOf, CountersFollow, Unwrapped, VectorLaws;
    UnwrappedReading(x.stats, x.w.bumps);
    DeltaOfReadings(SnapshotOf(x.stats), x.k.previous, x.w.bumps, x.base);
    GrowthKeepsLaws(x.w.bumps, x.base, DiffOf(SnapshotOf(x.stats), x.k.previous));
  }

  lemma AdvanceConserves(x: Trace, s: Step, start: multiset<nat>)
    requires Conserved(x, start) && Unwrapped(x.w.bumps)
    ensures Conserved(Advance(x, s), start)
  {
    hide Laws, Next, CountersAfter, SnapshotOf, DiffOf, VectorLaws, CountersFollow;
    assert D.CountersValid(x.stats) by { assert CountersFollow(x.stats, x.w.bumps); FollowValid(x.stats, x.w.bumps); }
    match s
    case Happens(e) =>
      if Possible(x, s) {
        CountersKeepFollowing(x.stats, x.w, e);
        NextKeepsLaws(x.w, e);
      }
    case Notes(_) =>
    case Collects(target, f) =>
      var y := Advance(x, s);
      WindowIsGrowth(x, start);
      if y.windows != x.windows {
        var delta := DiffOf(SnapshotOf(x.stats), x.k.previous);
        assert y.windows[..|y.windows| - 1] == x.windows && y.windows[|y.windows| - 1].delta == delta;
        assert y.k.previous == SnapshotOf(x.stats) && y.base == x.w.bumps;
      }
  }

  lemma FollowValid(c: D.Counters, m: multiset<nat>)
    requires CountersFollow(c, m)
    ensures D.CountersValid(c)
  {
  }

  lemma PlusLaws(a: Summary, b: Summary, c: Summary)
    ensures Plus(Plus(a, b), c) == Plus(a, Plus(b, c))
    ensures Plus(a, NOTHING) == a == Plus(NOTHING, a)
  {
  }

  lemma AdvanceAccounts(x: Trace, s: Step)
    requires D.CountersValid(x.stats) && Accounted(x)
    ensures Accounted(Advance(x, s))
  {
    hide Next, CountersAfter, SnapshotOf, DiffOf, Plus, Weight;
    match s
    case Happens(_) =>
    case Notes(n) => PlusLaws(ConsumedSum(x.windows), x.k.pending, Weight(n));
    case Collects(target, f) =>
      var y := Advance(x, s);
      PlusLaws(ConsumedSum(x.windows), x.k.pending, NOTHING);
      PlusLaws(ConsumedSum(x.windows), NOTHING, NOTHING);
      if y.windows != x.windows {
        assert y.windows[..|y.windows| - 1] == x.windows;
        PlusLaws(ConsumedSum(y.windows), NOTHING, NOTHING);
      }
  }

  lemma UnwrappedBefore(m: multiset<nat>, n: multiset<nat>)
    requires m <= n && Unwrapped(n)
    ensures Unwrapped(m)
  {
    assert forall i: nat :: m[i] <= n[i];
  }

  lemma StartConserves(x: Trace)
    requires Started(x) && Unwrapped(x.w.bumps)
    ensures Conserved(x, x.w.bumps)
  {
    hide Laws, SnapshotOf, CountersFollow, Unwrapped, Plus;
    UnwrappedReading(x.stats, x.w.bumps);
  }

  lemma StartAccounts(x: Trace)
    requires Started(x)
    ensures Accounted(x)
  {
    hide Laws, SnapshotOf, CountersFollow, Plus;
    PlusLaws(NOTHING, NOTHING, NOTHING);
  }

  lemma {:induction false} TraceConserves(x: Trace, steps: seq<Step>)
    requires Started(x) && Unwrapped(Advanced(x, steps).w.bumps)
    ensures Conserved(Advanced(x, steps), x.w.bumps) && Accounted(Advanced(x, steps))
    ensures x.w.bumps <= Advanced(x, steps).w.bumps
  {
    if steps == [] {
      StartConserves(x);
      StartAccounts(x);
    } else {
      hide Advance, Conserved, Accounted, Started, Unwrapped;
      var front, last := steps[..|steps| - 1], steps[|steps| - 1];
      var y := Advanced(x, front);
      AdvanceGrows(y, last);
      UnwrappedBefore(y.w.bumps, Advance(y, last).w.bumps);
      TraceConserves(x, front);
      AdvanceConserves(y, last, x.w.bumps);
      AdvanceAccounts(y, last);
    }
  }

  /**
   For every run under telemetry whose counters stay below 2^64: each window's differences, and
   those of any selection of windows together, keep the counter laws; and all windows together
   report exactly what was counted between the baseline and the latest successful reading,
   including the windows whose rows an error lost.
   */
  lemma WindowsReportTheRun(x: Trace, steps: seq<Step>, keep: seq<bool>)
    requires Started(x) && Unwrapped(Advanced(x, steps).w.bumps) && |keep| == |Advanced(x, steps).windows|
    ensures var y := Advanced(x, steps);
            && AllLawful(y.windows) && Laws(SumOf(y.windows, keep))
            && (forall i: nat :: i < STAT_COUNT ==> x.w.bumps[i] + DeltaSum(y.windows, i) == y.base[i] <= y.w.bumps[i])
            && y.noted == Plus(ConsumedSum(y.windows), y.k.pending)
            && BackendSum(y.windows) == y.k.previousBackend
  {
    TraceConserves(x, steps);
    hide Laws, Advanced;
    SelectionsKeepLaws(Advanced(x, steps).windows, keep);
  }

  /**
   The difference of two readings is the true growth exactly when the counter did not pass a multiple
   of 2^64 in between.
   */
  lemma DeltaIsGrowthIff(before: nat, after: nat)
    requires before <= after
    ensures DeltaCell(after % WORD64, before % WORD64) == after - before <==> after / WORD64 == before / WORD64
  {
    assert after == (after / WORD64) * WORD64 + after % WORD64;
    assert before == (before / WORD64) * WORD64 + before % WORD64;
  }
}
