/**
 Whole runs: packets, control-plane writes and reaps in any order, with the history that the
 safety properties speak about.
 */
module Runs {
  import opened Net
  import opened Tables
  import opened Reaper
  import opened Conntrack
  import opened Cycle
  import opened CounterLaws

  /** The single map operations of the control plane. */
  datatype ControlOp =
    | PutService(fe: Frontend, svc: Service)
    | DelService(fe: Frontend)
    | PutBackend(key: BackendKey, backend: Backend)
    | DelBackend(key: BackendKey)
    | DelRr(fe: Frontend)
    | PutConfig(config: Config)

  function ApplyOp(s: Tables, op: ControlOp): Tables {
    match op
    case PutService(fe, svc) => s.(services := s.services[fe := svc])
    case DelService(fe) => s.(services := s.services - {fe})
    case PutBackend(key, b) => s.(backends := s.backends[key := b])
    case DelBackend(key) => s.(backends := s.backends - {key})
    case DelRr(fe) => s.(rr := s.rr - {fe})
    case PutConfig(c) => s.(config := Some(c))
  }

  /**
   Reap is a reap no packet interrupts; DropCt and DropFwd are single deletes of a reap that packets
   may interrupt.
   */
  datatype Event =
    | Packet(t: Tuple, env: Env)
    | Control(op: ControlOp)
    | Reap(now: Word64, timeout: Word64)
    | DropCt(ck: CtKey)
    | DropFwd(fk: FwdKey)

  /** A packet as it arrived and what was done with it. */
  datatype Handled = Handled(t: Tuple, act: Act)

  /**
   The tables together with their history: the packets so far, the number of SNAT allocations, the
   allocation that last installed each conntrack key, the time of each flow's latest packet in
   either direction, the counters bumped, and the deletions that atomic reaps reported.
   */
  datatype World = World(t: Tables, log: seq<Handled>, allocs: nat, born: map<CtKey, nat>, seen: map<FwdKey, Word64>,
                         bumps: multiset<nat>, reapedCt: nat, reapedFwd: nat)

  /** The history after a packet that led to tables s' by act a. */
  function Record(w: World, t: Tuple, s': Tables, a: Act, bumps: multiset<nat>, now: Word64): World {
    w.(t := s', log := w.log + [Handled(t, a)], bumps := w.bumps + bumps,
       allocs := if Allocates(a) then w.allocs + 1 else w.allocs,
       born := if a.NewFlow? then w.born[a.ck := w.allocs] else w.born,
       seen := if a.Reply? || a.Forward? || a.NewFlow? then w.seen[a.fk := now] else w.seen)
  }

  function Next(w: World, e: Event): World {
    match e
    case Packet(t, env) =>
      var o := PacketStep(w.t, t, env);
      Record(w, t, o.tables, o.act, o.bumps, env.now)
    case Control(op) => w.(t := ApplyOp(w.t, op))
    case Reap(now, timeout) =>
      w.(t := Reaped(w.t, now, timeout),
         reapedCt := w.reapedCt + |StaleCt(w.t.ct, now, timeout)|,
         reapedFwd := w.reapedFwd + |StaleFwd(w.t.ct, w.t.fwd.Keys, now, timeout)|)
    case DropCt(ck) => w.(t := w.t.(ct := w.t.ct - {ck}))
    case DropFwd(fk) => w.(t := w.t.(fwd := w.t.fwd - {fk}))
  }

  function Run(w: World, es: seq<Event>): World
    decreases |es|
  {
    if es == [] then w else Run(Next(w, es[0]), es[1..])
  }

  /** Empty conntrack tables, an arbitrary SNAT cursor, and whatever the control plane installed before. */
  ghost predicate Initial(w: World) {
    w.t.ct == map[] && w.t.fwd == map[] && w.log == [] && w.allocs == 0 && w.born == map[] && w.seen == map[]
    && w.bumps == multiset{} && w.reapedCt == 0 && w.reapedFwd == 0
  }

  // --- The tables stay inverse over every run with timely reaping -----------------------

  /**
   No single deletes, and whenever a packet allocates a port every tracked key was installed
   fewer than SNAT_PORTS allocations ago.
   */
  ghost predicate Timely(w: World, e: Event) {
    match e
    case Packet(t, env) =>
      Allocates(PacketStep(w.t, t, env).act) ==> forall ck :: ck in w.t.ct ==>
          ck in w.born && w.allocs < w.born[ck] + SNAT_PORTS
    case DropCt(_) => false
    case DropFwd(_) => false
    case _ => true
  }

  ghost predicate TimelyRun(w: World, es: seq<Event>)
    decreases |es|
  {
    es == [] || (Timely(w, es[0]) && TimelyRun(Next(w, es[0]), es[1..]))
  }

  /** Tracked keys carry the port of the allocation that installed them, and the cursor stands at the next one. */
  ghost predicate PortsRecorded(w: World, c0: Option<Word32>) {
    && NextPort(w.t.snatCursor) == PortAt(c0, w.allocs)
    && forall ck :: ck in w.t.ct ==> ck in w.born && w.born[ck] < w.allocs && ck.snatPort == PortAt(c0, w.born[ck])
  }

  /** Under timely reaping the next allocation never hits a tracked key. */
  lemma TimelyMeansFresh(w: World, c0: Option<Word32>, t: Tuple, env: Env)
    requires PortsRecorded(w, c0) && Timely(w, Packet(t, env))
    ensures !OverwritesKey(w.t, t, env)
  {
    var a := PacketStep(w.t, t, env).act;
    OverwritesIff(w.t, t, env);
    PacketShape(w.t, t, env);
    hide PacketStep, OverwritesKey, PortAt, NextPort;
    if OverwritesKey(w.t, t, env) {
      FreshKeyIsTcp(w.t, t, a.ck, a.fk);
      NearbyPortsDiffer(c0, w.born[a.ck], w.allocs);
      assert false;
    }
  }

  /** What one packet does to the cursor and the set of tracked keys. */
  lemma PacketPorts(s: Tables, s': Tables, t: Tuple, a: Act, env: Env)
    requires Inverse(s) && Shape(s, s', t, a, env)
    ensures s'.snatCursor == if Allocates(a) then Some(CursorAfter(NextPort(s.snatCursor))) else s.snatCursor
    ensures forall ck :: ck in s'.ct ==> ck in s.ct || (a.NewFlow? && ck == a.ck)
    ensures a.NewFlow? ==> a.ck.snatPort == NextPort(s.snatCursor)
  {
    hide NextPort, CursorAfter, ChosenBackend;
  }

  lemma PortsStayRecorded(w: World, c0: Option<Word32>, e: Event)
    requires PortsRecorded(w, c0) && Inverse(w.t)
    ensures PortsRecorded(Next(w, e), c0)
  {
    hide PacketStep, Shape, PortAt, NextPort, CursorAfter, Inverse, StaleCt, StaleFwd, Record, Allocates;
    if e.Packet? {
      hide PortsRecorded;
      PacketShape(w.t, e.t, e.env);
      var o := PacketStep(w.t, e.t, e.env);
      PacketPorts(w.t, o.tables, e.t, o.act, e.env);
      RecordKeepsPorts(w, c0, e.t, o.tables, o.act, o.bumps, e.env.now);
    }
  }

  lemma RecordKeepsPorts(w: World, c0: Option<Word32>, t: Tuple, s': Tables, a: Act, bumps: multiset<nat>, now: Word64)
    requires PortsRecorded(w, c0)
    requires s'.snatCursor == if Allocates(a) then Some(CursorAfter(NextPort(w.t.snatCursor))) else w.t.snatCursor
    requires forall ck :: ck in s'.ct ==> ck in w.t.ct || (a.NewFlow? && ck == a.ck)
    requires a.NewFlow? ==> a.ck.snatPort == NextPort(w.t.snatCursor)
    ensures PortsRecorded(Record(w, t, s', a, bumps, now), c0)
  {
    PortAtStep(c0, w.allocs);
    hide PortAt, NextPort, CursorAfter;
  }

  lemma StepKeepsInverse(w: World, c0: Option<Word32>, e: Event)
    requires PortsRecorded(w, c0) && Timely(w, e) && Inverse(w.t) && !e.DropCt? && !e.DropFwd?
    ensures Inverse(Next(w, e).t)
  {
    hide OverwritesKey, StaleCt, StaleFwd, PortsRecorded, PacketStep, Timely;
    match e
    case Packet(t, env) =>
      TimelyMeansFresh(w, c0, t, env);
      PacketKeepsInverseIff(w.t, t, env);
    case Control(op) =>
    case Reap(now, timeout) => ReapKeepsInverse(w.t, now, timeout);
  }

  /** Connection accounting: every installed flow is still forwarded or was reported deleted, in pairs. */
  ghost predicate ConnectionsAccounted(w: World) {
    w.bumps[STAT_NEW_CONN] == |w.t.fwd| + w.reapedFwd && w.reapedCt == w.reapedFwd
  }

  lemma ForwardSize(s: Tables, s': Tables, t: Tuple, a: Act, env: Env)
    requires Shape(s, s', t, a, env)
    ensures |s'.fwd| == |s.fwd| + if a.NewFlow? then 1 else 0
  {
    hide ChosenBackend, NextPort, CursorAfter, FreshKey;
  }

  lemma ConnectionsStayAccounted(w: World, e: Event)
    requires ConnectionsAccounted(w) && Inverse(w.t) && !e.DropCt? && !e.DropFwd?
    ensures ConnectionsAccounted(Next(w, e))
  {
    hide StaleCt, StaleFwd;
    match e
    case Packet(t, env) =>
      PacketShape(w.t, t, env);
      PacketKeepsLaws(w.t, t, env);
      var o := PacketStep(w.t, t, env);
      hide PacketStep, Shape, Inverse, Laws;
      ForwardSize(w.t, o.tables, t, o.act, env);
    case Control(op) =>
    case Reap(now, timeout) => ReapDeletesInPairs(w.t, now, timeout);
  }

  ghost predicate Good(w: World, c0: Option<Word32>) {
    PortsRecorded(w, c0) && Inverse(w.t) && ConnectionsAccounted(w)
  }

  lemma {:induction false} GoodRuns(w: World, c0: Option<Word32>, es: seq<Event>)
    requires Good(w, c0) && TimelyRun(w, es)
    ensures Good(Run(w, es), c0)
    decreases |es|
  {
    if es != [] {
      PortsStayRecorded(w, c0, es[0]);
      StepKeepsInverse(w, c0, es[0]);
      ConnectionsStayAccounted(w, es[0]);
      GoodRuns(Next(w, es[0]), c0, es[1..]);
    }
  }

  /**
   From empty tables, every run of packets, control-plane writes and uninterrupted reaps with
   timely reaping keeps the tables inverse and accounts for every connection.
   */
  lemma TimelyRunsStayInverse(w: World, es: seq<Event>)
    requires Initial(w) && TimelyRun(w, es)
    ensures Inverse(Run(w, es).t)
    ensures |Run(w, es).t.ct| == |Run(w, es).t.fwd|
    ensures Run(w, es).bumps[STAT_NEW_CONN] == |Run(w, es).t.fwd| + Run(w, es).reapedFwd
    ensures Run(w, es).reapedCt == Run(w, es).reapedFwd
  {
    GoodRuns(w, w.t.snatCursor, es);
    SameSize(Run(w, es).t);
  }
}
