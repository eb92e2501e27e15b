/**
 The counter pipeline (telemetry.go, telemetry_schema.go): snapshots summed over the CPUs, their
 differences per window, and the accumulator of events between two windows.
 */
module Telemetry {
  import opened Net
  import opened Tables
  import opened Target
  import R = Reconciler
  import D = Datapath

  type Snapshot = s: seq<Word64> | |s| == STAT_COUNT witness seq(STAT_COUNT, i => 0)

  // --- Snapshots ----------------------------------------------------------------------

  /** The sum of one counter over the first n CPUs, in 64-bit arithmetic. */
  function Total(c: D.Counters, i: nat, n: nat): Word64
    requires n <= |c| && forall cpu :: 0 <= cpu < n ==> i < |c[cpu]|
  {
    if n == 0 then 0 else (Total(c, i, n - 1) + c[n - 1][i]) % WORD64
  }

  ghost function SnapshotOf(c: D.Counters): Snapshot
    requires D.CountersValid(c)
  {
    seq(STAT_COUNT, i requires 0 <= i < STAT_COUNT => Total(c, i, |c|))
  }

  function Zeros(): Snapshot {
    seq(STAT_COUNT, i => 0)
  }

  /** ReadStatsSnapshot; `fault` is the first index whose lookup fails, if any does. None is its error return. */
  method ReadStatsSnapshot(m: D.NodePortMaps, dryRun: bool, fault: nat) returns (r: Option<Snapshot>)
    requires D.CountersValid(m.stats)
    ensures r == if dryRun then Some(Zeros()) else if fault < STAT_COUNT then None else Some(SnapshotOf(m.stats))
  {
    var snapshot := Zeros();
    if dryRun { return Some(snapshot); }
    var index := 0;
    while index < STAT_COUNT
      invariant 0 <= index <= STAT_COUNT && index <= fault
      invariant forall j :: 0 <= j < index ==> snapshot[j] == Total(m.stats, j, |m.stats|)
    {
      if index == fault { return None; }
      var total: Word64, cpu := 0, 0;
      while cpu < |m.stats|
        invariant 0 <= cpu <= |m.stats| && total == Total(m.stats, index, cpu)
      {
        total := (total + m.stats[cpu][index]) % WORD64;
        cpu := cpu + 1;
      }
      snapshot := snapshot[index := total];
      index := index + 1;
    }
    assert snapshot == SnapshotOf(m.stats);
    return Some(snapshot);
  }

  lemma {:induction false} SameColumnSameTotal(c: D.Counters, d: D.Counters, i: nat, n: nat)
    requires n <= |c| && n <= |d| && forall cpu :: 0 <= cpu < n ==>
            i < |c[cpu]| && i < |d[cpu]| && c[cpu][i] == d[cpu][i]
    ensures Total(c, i, n) == Total(d, i, n)
  {
    if n > 0 { SameColumnSameTotal(c, d, i, n - 1); }
  }

  lemma ModuloShift(x: int, q: int)
    ensures (x - q * WORD64) % WORD64 == x % WORD64
  {
    var d, r := x / WORD64, x % WORD64;
    assert x - q * WORD64 == (d - q) * WORD64 + r;
    assert (x - q * WORD64) / WORD64 == d - q;
  }

  lemma ModuloInside(a: int, b: int)
    ensures (a + b % WORD64) % WORD64 == (a + b) % WORD64
  {
    assert a + b % WORD64 == a + b - (b / WORD64) * WORD64;
    ModuloShift(a + b, b / WORD64);
  }

  lemma AddModulo(a: int, b: int, k: int)
    ensures (a + (b + k) % WORD64) % WORD64 == ((a + b) % WORD64 + k) % WORD64
    ensures ((a + k) % WORD64 + b) % WORD64 == ((a + b) % WORD64 + k) % WORD64
  {
    ModuloInside(a, b + k);
    ModuloInside(k, a + b);
    ModuloInside(b, a + k);
  }

  /** A sum moves by k when one of its two parts does. */
  lemma PartMoves(a: int, b: int, k: int, a': int, b': int)
    requires (a' == a && b' == (b + k) % WORD64) || (a' == (a + k) % WORD64 && b' == b)
    ensures (a' + b') % WORD64 == ((a + b) % WORD64 + k) % WORD64
  {
    AddModulo(a, b, k);
  }

  /** Whichever CPU counts, the sum over the CPUs moves by what was counted. */
  lemma {:induction false} TotalAfterBumps(c: D.Counters, cpu: nat, m: multiset<nat>, i: nat, n: nat)
    requires D.CountersValid(c) && cpu < n <= |c| && i < STAT_COUNT
    ensures var d := D.Bumped(c, cpu, m);
            (forall k :: 0 <= k < n ==> i < |d[k]|) && Total(d, i, n) == (Total(c, i, n) + m[i]) % WORD64
  {
    hide D.Bumped, D.BumpRow;
    var d := D.Bumped(c, cpu, m);
    BumpedColumn(c, cpu, m, i);
    if cpu == n - 1 {
      SameColumnSameTotal(c, d, i, n - 1);
    } else {
      TotalAfterBumps(c, cpu, m, i, n - 1);
    }
    PartMoves(Total(c, i, n - 1), c[n - 1][i], m[i], Total(d, i, n - 1), d[n - 1][i]);
  }

  lemma BumpedColumn(c: D.Counters, cpu: nat, m: multiset<nat>, i: nat)
    requires D.CountersValid(c) && cpu < |c| && i < STAT_COUNT
    ensures var d := D.Bumped(c, cpu, m);
            && D.CountersValid(d) && |d| == |c|
            && forall k :: 0 <= k < |c| ==> d[k][i] == if k == cpu then (c[k][i] + m[i]) % WORD64 else c[k][i]
  {
  }

  // --- Differences --------------------------------------------------------------------

  /** One counter of a window: the growth, or the whole new value when the counter was reset. */
  function DeltaCell(current: Word64, previous: Word64): Word64 {
    if current >= previous then current - previous else current
  }

  function DiffOf(current: Snapshot, previous: Snapshot): Snapshot {
    seq(STAT_COUNT, i requires 0 <= i < STAT_COUNT => DeltaCell(current[i], previous[i]))
  }

  method Diff(current: Snapshot, previous: Snapshot) returns (delta: Snapshot)
    ensures delta == DiffOf(current, previous)
    ensures forall i :: 0 <= i < STAT_COUNT ==>
              delta[i] as int + (if current[i] < previous[i] then 0 else previous[i]) == current[i]
  {
    delta := Zeros();
    var index := 0;
    while index < STAT_COUNT
      invariant 0 <= index <= STAT_COUNT
      invariant forall j :: 0 <= j < index ==> delta[j] == DeltaCell(current[j], previous[j])
    {
      if current[index] >= previous[index] {
        delta := delta[index := current[index] - previous[index]];
      } else {
        delta := delta[index := current[index]];
      }
      index := index + 1;
    }
    assert delta == DiffOf(current, previous);
  }

  /** The sum of the differences between consecutive readings of one counter. */
  function SumOfDeltas(readings: seq<Word64>): nat {
    if |readings| < 2 then 0
    else SumOfDeltas(readings[..|readings| - 1]) + DeltaCell(readings[|readings| - 1], readings[|readings| - 2])
  }

  /** No reading is below the one before it. */
  ghost predicate NeverReset(readings: seq<Word64>) {
    forall k :: 0 < k < |readings| ==> readings[k - 1] <= readings[k]
  }

  /** The readings right before a fall, added up. */
  function LostToFalls(readings: seq<Word64>): nat {
    if |readings| < 2 then 0
    else
      var n := |readings| - 1;
      LostToFalls(readings[..n]) + if readings[n] < readings[n - 1] then readings[n - 1] else 0
  }

  /** What the differences add up to, exactly: last minus first, and once more what each fall started from. */
  lemma {:induction false} DeltasAddUp(readings: seq<Word64>)
    requires readings != []
    ensures readings[0] as int + SumOfDeltas(readings) == readings[|readings| - 1] + LostToFalls(readings)
  {
    if |readings| > 1 { DeltasAddUp(readings[..|readings| - 1]); }
  }

  /** The differences of a counter telescope exactly when it was never seen to fall; otherwise they add up to more. */
  lemma {:induction false} DeltasTelescopeIff(readings: seq<Word64>)
    requires readings != []
    ensures readings[0] as int + SumOfDeltas(readings) >= readings[|readings| - 1]
    ensures readings[0] as int + SumOfDeltas(readings) == readings[|readings| - 1] <==> NeverReset(readings)
  {
    if |readings| > 1 {
      var front := readings[..|readings| - 1];
      DeltasTelescopeIff(front);
      assert forall k :: 0 <= k < |front| ==> front[k] == readings[k];
      assert NeverReset(readings) <==> NeverReset(front) && readings[|readings| - 2] <= readings[|readings| - 1];
    }
  }

  // --- The accumulator ----------------------------------------------------------------

  type Flag = x: int | 0 <= x <= 1

  datatype Summary = Summary(serviceSeen: Flag, sliceSeen: Flag, nodeSeen: Flag, reconciles: int, upserted: int,
                             removed: int,
                             gcRuns: int, gcDeletedCt: int, gcDeletedFwd: int)

  const NOTHING := Summary(0, 0, 0, 0, 0, 0, 0, 0, 0)

  datatype Note = ServiceEvent | SliceEvent | NodeEvent | Reconcile(upserted: int, removed: int) | Gc(deletedCt: int,
      deletedFwd: int)

  function Either(a: Flag, b: Flag): Flag {
    if a == 1 || b == 1 then 1 else 0
  }

  /** Two summaries together: counts add up, flags join. */
  function Plus(a: Summary, b: Summary): Summary {
    Summary(Either(a.serviceSeen, b.serviceSeen), Either(a.sliceSeen, b.sliceSeen), Either(a.nodeSeen, b.nodeSeen),
            a.reconciles + b.reconciles, a.upserted + b.upserted, a.removed + b.removed,
            a.gcRuns + b.gcRuns, a.gcDeletedCt + b.gcDeletedCt, a.gcDeletedFwd + b.gcDeletedFwd)
  }

  /** What a single note amounts to. */
  function Weight(n: Note): Summary {
    match n
    case ServiceEvent => NOTHING.(serviceSeen := 1)
    case SliceEvent => NOTHING.(sliceSeen := 1)
    case NodeEvent => NOTHING.(nodeSeen := 1)
    case Reconcile(upserted, removed) => NOTHING.(reconciles := 1, upserted := upserted, removed := removed)
    case Gc(deletedCt, deletedFwd) => NOTHING.(gcRuns := 1, gcDeletedCt := deletedCt, gcDeletedFwd := deletedFwd)
  }

  class WindowAccumulator {
    var state: Summary

    constructor ()
      ensures state == NOTHING
    {
      state := NOTHING;
    }

    method NoteServiceEvent()
      modifies this
      ensures state == Plus(old(state), Weight(ServiceEvent)) == old(state).(serviceSeen := 1)
    {
      state := state.(serviceSeen := 1);
    }

    method NoteSliceEvent()
      modifies this
      ensures state == Plus(old(state), Weight(SliceEvent)) == old(state).(sliceSeen := 1)
    {
      state := state.(sliceSeen := 1);
    }

    method NoteNodeEvent()
      modifies this
      ensures state == Plus(old(state), Weight(NodeEvent)) == old(state).(nodeSeen := 1)
    {
      state := state.(nodeSeen := 1);
    }

    method NoteReconcile(upserted: int, removed: int)
      modifies this
      ensures state == Plus(old(state), Weight(Reconcile(upserted, removed)))
      ensures state == old(state).(reconciles := old(state).reconciles + 1,
                                   upserted := old(state).upserted + upserted, removed := old(state).removed + removed)
    {
      state := state.(reconciles := state.reconciles + 1, upserted := state.upserted + upserted,
          removed := state.removed + removed);
    }

    method NoteGc(deletedCt: int, deletedFwd: int)
      modifies this
      ensures state == Plus(old(state), Weight(Gc(deletedCt, deletedFwd)))
      ensures state == old(state).(gcRuns := old(state).gcRuns + 1,
                                   gcDeletedCt := old(state).gcDeletedCt + deletedCt,
                                   gcDeletedFwd := old(state).gcDeletedFwd + deletedFwd)
    {
      state := state.(gcRuns := state.gcRuns + 1, gcDeletedCt := state.gcDeletedCt + deletedCt,
          gcDeletedFwd := state.gcDeletedFwd + deletedFwd);
    }

    method Consume() returns (snapshot: Summary)
      modifies this
      ensures snapshot == old(state) && state == NOTHING
    {
      snapshot := state;
      state := NOTHING;
    }
  }

  // --- One window ---------------------------------------------------------------------

  /** The numbers of one telemetry row. */
  datatype Sample = Sample(delta: Snapshot, ctActive: nat, fwdActive: nat, summary: Summary, target: TargetState,
                           backendDelta: int)

  /** Where collecting a window fails, if it does: reading the counters, counting the tables, or labelling. */
  datatype WindowFault = NoFault | StatsFault(index: nat) | CountFault | LabelFault

  /** What the collector carries from one window to the next. */
  datatype Carry = Carry(previous: Snapshot, previousBackend: int, pending: Summary)

  /** What became of a window: its counter differences and events, and the row unless an error lost it. */
  datatype Window = Window(delta: Snapshot, consumed: Summary, row: Option<Sample>)

  function CarryAfter(k: Carry, stats: Snapshot, target: TargetState, f: WindowFault): Carry {
    match f
    case NoFault => Carry(stats, target.total, NOTHING)
    case StatsFault(index) => if index < STAT_COUNT then k else Carry(stats, target.total, NOTHING)
    case CountFault => k.(previous := stats)
    case LabelFault => k.(previous := stats, pending := NOTHING)
  }

  function WindowOf(k: Carry, stats: Snapshot, ctActive: nat, fwdActive: nat, target: TargetState,
                    f: WindowFault): Option<Window> {
    var delta := DiffOf(stats, k.previous);
    var row := Some(Sample(delta, ctActive, fwdActive, k.pending, target, target.total - k.previousBackend));
    match f
    case NoFault => Some(Window(delta, k.pending, row))
    case StatsFault(index) => if index < STAT_COUNT then None else Some(Window(delta, k.pending, row))
    case CountFault => Some(Window(delta, NOTHING, None))
    case LabelFault => Some(Window(delta, k.pending, None))
  }

  class Collector {
    const maps: D.NodePortMaps
    const telemetry: WindowAccumulator
    var previousStats: Snapshot
    var previousBackend: int
    var baselineCaptured: bool

    constructor (maps: D.NodePortMaps, telemetry: WindowAccumulator)
      ensures this.maps == maps && this.telemetry == telemetry && !baselineCaptured && previousBackend == 0
    {
      this.maps, this.telemetry := maps, telemetry;
      previousStats, previousBackend, baselineCaptured := Zeros(), 0, false;
    }

    ghost function State(): Carry
      reads this, telemetry
    {
      Carry(previousStats, previousBackend, telemetry.state)
    }

    method CaptureBaseline(fault: nat) returns (ok: bool)
      requires D.CountersValid(maps.stats)
      modifies this`previousStats, this`baselineCaptured
      ensures ok == (fault >= STAT_COUNT)
      ensures if ok then baselineCaptured && previousStats == SnapshotOf(maps.stats)
              else baselineCaptured == old(baselineCaptured) && previousStats == old(previousStats)
    {
      var stats := ReadStatsSnapshot(maps, false, fault);
      if stats.None? { return false; }
      previousStats, baselineCaptured := stats.value, true;
      return true;
    }

    /** What a window starts from: without a baseline, the snapshot just taken. */
    ghost function Before(stats: Snapshot): Carry
      reads this, telemetry
    {
      if baselineCaptured then State() else State().(previous := stats)
    }

    /**
     collectWindow; `baseFault` is the first index whose lookup fails while a missing baseline is
     captured, `entries` are the applied entries, `port` and `ownIp` what the listers know.
     */
    method CollectWindow(entries: R.Entries, namespace: string, name: string, port: int, ownIp: Option<Addr>,
                         baseFault: nat, f: WindowFault)
      returns (sample: Option<Sample>, ghost target: TargetState)
      requires D.CountersValid(maps.stats)
      modifies this, telemetry
      ensures sample.Some? ==> IsTarget(entries, namespace, name, port, ownIp, target)
      ensures sample.Some? ==>
                && sample.value.ctActive == |maps.ct| && sample.value.fwdActive == |maps.fwd|
                && sample.value.summary == old(telemetry.state) && sample.value.target == target
                && sample.value.backendDelta == target.total - old(previousBackend)
                && (old(baselineCaptured) ==>
                      sample.value.delta == DiffOf(SnapshotOf(maps.stats), old(previousStats)))
                && (!old(baselineCaptured) ==> sample.value.delta == Zeros())
      ensures old(baselineCaptured) && (f.CountFault? || f.LabelFault?) ==>
                && sample == None && previousStats == SnapshotOf(maps.stats) && previousBackend == old(previousBackend)
                && telemetry.state == if f.CountFault? then old(telemetry.state) else NOTHING
      ensures var stats := SnapshotOf(maps.stats);
              if !old(baselineCaptured) && baseFault < STAT_COUNT then
                sample == None && State() == old(State()) && !baselineCaptured
              else
                && baselineCaptured && State() == CarryAfter(old(Before(stats)), stats, target, f)
                && sample == match WindowOf(old(Before(stats)), stats, |maps.ct|, |maps.fwd|, target, f) {
                     case Some(window) => window.row
                     case None => None
                   }
    {
      target := TargetState(None, 0, 0, 0, 0);
      if !baselineCaptured {
        var ok := CaptureBaseline(baseFault);
        if !ok { return None, target; }
      }
      var stats := ReadStatsSnapshot(maps, false, if f.StatsFault? then f.index else STAT_COUNT);
      if stats.None? { return None, target; }
      var delta := Diff(stats.value, previousStats);
      previousStats := stats.value;
      if f.CountFault? { return None, target; }
      var ctActive, fwdActive := |maps.ct|, |maps.fwd|;
      var summary := telemetry.Consume();
      var state := CurrentTarget(entries, namespace, name, port, ownIp);
      target := state;
      if f.LabelFault? { return None, target; }
      var backendDelta := state.total - previousBackend;
      previousBackend := state.total;
      return Some(Sample(delta, ctActive, fwdActive, summary, state, backendDelta)), target;
    }
  }
}
