/**
 Where ports and addresses may appear. Tracked ports always lie in the SNAT range; and when
 frontends, backends and SNAT addresses are disjoint, a packet that was translated once is left
 alone by every later hook it passes, whatever happens in between.
 */
module Placement {
  import opened Net
  import opened Tables
  import opened Conntrack
  import opened Runs
  import opened Reaper
  import History

  // --- SNAT ports -------------------------------------------------------------------------

  /** Every tracked key, and every key a forward entry leads to, has a port in the SNAT range. */
  ghost predicate SnatPorts(s: Tables) {
    && (forall ck :: ck in s.ct ==> IsSnatPort(ck.snatPort))
    && (forall fk :: fk in s.fwd ==> IsSnatPort(TrackOf(s.fwd[fk]).snatPort))
  }

  lemma FreshPort(s: Tables, t: Tuple, ck: CtKey, fk: FwdKey)
    requires FreshFlow(s, t, ck, fk)
    ensures IsSnatPort(ck.snatPort)
  {
  }

  lemma PacketKeepsPorts(s: Tables, s': Tables, t: Tuple, a: Act, env: Env)
    requires SnatPorts(s) && Shape(s, s', t, a, env)
    ensures SnatPorts(s')
  {
    hide FreshFlow, NextPort, CursorAfter;
    if Allocates(a) { FreshPort(s, t, a.ck, a.fk); }
  }

  /** r tracks nothing that s does not track in the same way. */
  ghost predicate TracksLess(s: Tables, r: Tables) {
    && (forall ck :: ck in r.ct ==> ck in s.ct && r.ct[ck] == s.ct[ck])
    && (forall fk :: fk in r.fwd ==> fk in s.fwd && r.fwd[fk] == s.fwd[fk])
  }

  /** Only packets add to the conntrack tables. */
  lemma OnlyPacketsTrack(w: World, e: Event)
    requires !e.Packet?
    ensures TracksLess(w.t, Next(w, e).t)
  {
    hide StaleCt, StaleFwd;
  }

  lemma PacketTables(w: World, t: Tuple, env: Env)
    ensures Next(w, Event.Packet(t, env)).t == PacketStep(w.t, t, env).tables
  {
    hide PacketStep;
  }

  lemma StepKeepsPorts(w: World, e: Event)
    requires SnatPorts(w.t)
    ensures SnatPorts(Next(w, e).t)
  {
    hide PacketStep, Shape, IsSnatPort, Next;
    if e.Packet? {
      hide SnatPorts;
      PacketShape(w.t, e.t, e.env);
      PacketTables(w, e.t, e.env);
      var o := PacketStep(w.t, e.t, e.env);
      PacketKeepsPorts(w.t, o.tables, e.t, o.act, e.env);
    } else {
      OnlyPacketsTrack(w, e);
    }
  }

  lemma {:induction false} PortsOverRun(w: World, es: seq<Event>)
    requires SnatPorts(w.t)
    ensures SnatPorts(Run(w, es).t)
    decreases |es|
  {
    hide SnatPorts, Next;
    if es != [] {
      StepKeepsPorts(w, es[0]);
      PortsOverRun(Next(w, es[0]), es[1..]);
    }
  }

  /**
   On every run from empty tables, with every interleaving and any addresses: a packet to a port
   outside the SNAT range is never taken for a reply, so such NodePorts always reach the request path.
   */
  lemma OtherPortsNeverReverse(w: World, es: seq<Event>, t: Tuple, env: Env)
    requires Initial(w) && !IsSnatPort(t.dport)
    ensures !PacketStep(Run(w, es).t, t, env).act.Reply?
  {
    hide HandleRequest, Run;
    PortsOverRun(w, es);
    assert CtKeyOf(t) !in Run(w, es).t.ct;
    History.NotReply(Run(w, es).t, t, env);
  }

  // --- Addresses --------------------------------------------------------------------------

  datatype AddressPlan = AddressPlan(frontends: set<Addr>, backends: set<Addr>, snats: set<Addr>) {
    ghost predicate Disjoint() {
      frontends !! backends && backends !! snats
    }
  }

  ghost predicate OpFollows(op: ControlOp, plan: AddressPlan) {
    match op
    case PutService(fe, svc) => fe.address in plan.frontends && svc.snatIp in plan.snats
    case PutBackend(_, b) => b.address in plan.backends
    case _ => true
  }

  /** Control-plane writes respect the plan, and no packet goes from a frontend to a frontend. */
  ghost predicate EventFollows(e: Event, plan: AddressPlan) {
    && (e.Control? ==> OpFollows(e.op, plan))
    && (e.Packet? ==> ClientsApart(e.t, plan))
  }

  ghost predicate ClientsApart(t: Tuple, plan: AddressPlan) {
    t.saddr in plan.frontends ==> t.daddr !in plan.frontends
  }

  ghost predicate ControlPlaced(s: Tables, plan: AddressPlan) {
    && (forall fe :: fe in s.services ==> fe.address in plan.frontends && s.services[fe].snatIp in plan.snats)
    && (forall key :: key in s.backends ==> s.backends[key].address in plan.backends)
  }

  /**
   A tracked key has a backend's and a SNAT address and a port in the SNAT range; its flow goes from a
   client to a frontend.
   */
  ghost predicate KeyPlaced(ck: CtKey, fk: FwdKey, plan: AddressPlan) {
    && ck.backendIp in plan.backends && ck.nodeIp in plan.snats && IsSnatPort(ck.snatPort)
    && fk.frontendIp in plan.frontends && fk.clientIp !in plan.frontends
  }

  ghost predicate Placed(s: Tables, plan: AddressPlan) {
    && ControlPlaced(s, plan)
    && (forall ck :: ck in s.ct ==> KeyPlaced(ck, FlowOf(ck, s.ct[ck]), plan))
    && (forall fk :: fk in s.fwd ==> KeyPlaced(TrackOf(s.fwd[fk]), fk, plan))
  }

  lemma FreshKeyPlaced(s: Tables, t: Tuple, ck: CtKey, fk: FwdKey, plan: AddressPlan)
    requires ControlPlaced(s, plan) && FreshFlow(s, t, ck, fk) && ClientsApart(t, plan)
    ensures KeyPlaced(ck, fk, plan)
  {
    hide NextPort;
  }

  lemma PacketKeepsPlacement(s: Tables, s': Tables, t: Tuple, a: Act, env: Env, plan: AddressPlan)
    requires Placed(s, plan) && Shape(s, s', t, a, env) && ClientsApart(t, plan)
    ensures Placed(s', plan)
    ensures Allocates(a) || a.Reply? || a.Forward? ==> KeyPlaced(a.ck, a.fk, plan)
  {
    hide FreshFlow, KeyPlaced, NextPort, CursorAfter;
    if Allocates(a) {
      FreshKeyPlaced(s, t, a.ck, a.fk, plan);
      FreshIsTcp(s, t, a.ck, a.fk);
    }
  }

  lemma FreshIsTcp(s: Tables, t: Tuple, ck: CtKey, fk: FwdKey)
    requires FreshFlow(s, t, ck, fk)
    ensures ck.proto == fk.proto == IPPROTO_TCP
  {
  }

  lemma StepKeepsPlacement(w: World, e: Event, plan: AddressPlan)
    requires Placed(w.t, plan) && EventFollows(e, plan)
    ensures Placed(Next(w, e).t, plan)
  {
    hide PacketStep, Shape, KeyPlaced, ControlPlaced, Next;
    if e.Packet? {
      hide Placed;
      PacketShape(w.t, e.t, e.env);
      PacketTables(w, e.t, e.env);
      var o := PacketStep(w.t, e.t, e.env);
      PacketKeepsPlacement(w.t, o.tables, e.t, o.act, e.env, plan);
    } else {
      OnlyPacketsTrack(w, e);
      ControlKeepsPlan(w, e, plan);
    }
  }

  lemma ControlKeepsPlan(w: World, e: Event, plan: AddressPlan)
    requires ControlPlaced(w.t, plan) && EventFollows(e, plan) && !e.Packet?
    ensures ControlPlaced(Next(w, e).t, plan)
  {
    hide StaleCt, StaleFwd;
  }

  /** Before the first packet only the control plane's rows matter. */
  lemma InitialIsPlaced(w: World, plan: AddressPlan)
    requires Initial(w)
    ensures Placed(w.t, plan) <==> ControlPlaced(w.t, plan)
  {
  }

  lemma {:induction false} PlacementOverRun(w: World, es: seq<Event>, plan: AddressPlan)
    requires Placed(w.t, plan) && forall i :: 0 <= i < |es| ==> EventFollows(es[i], plan)
    ensures Placed(Run(w, es).t, plan)
    decreases |es|
  {
    if es != [] {
      StepKeepsPlacement(w, es[0], plan);
      PlacementOverRun(Next(w, es[0]), es[1..], plan);
    }
  }

  lemma UnmatchedPasses(s: Tables, t: Tuple, env: Env)
    requires CtKeyOf(t) !in s.ct && FrontendOf(t) !in s.services
    ensures var o := PacketStep(s, t, env);
            o.tables == s && o.target == None && o.verdict == Pass && o.act == Unmatched
  {
  }

  /** Where a translated packet is headed under the plan: from a frontend to a client, or to a backend. */
  ghost predicate Delivered(t: Tuple, plan: AddressPlan) {
    || (t.saddr in plan.frontends && t.daddr !in plan.frontends)
    || (t.saddr in plan.snats && t.daddr in plan.backends)
  }

  lemma TargetIsDelivered(s: Tables, t: Tuple, env: Env, plan: AddressPlan)
    requires Placed(s, plan) && ClientsApart(t, plan) && PacketStep(s, t, env).target.Some?
    ensures Delivered(PacketStep(s, t, env).target.value, plan)
  {
    var o := PacketStep(s, t, env);
    PacketShape(s, t, env);
    PacketKeepsPlacement(s, o.tables, t, o.act, env, plan);
    TargetOfAct(s, t, env);
    hide PacketStep, Shape;
    assert KeyPlaced(o.act.ck, o.act.fk, plan);
  }

  lemma DeliveredPasses(s: Tables, n: Tuple, env: Env, plan: AddressPlan)
    requires Placed(s, plan) && plan.Disjoint() && Delivered(n, plan)
    ensures var o := PacketStep(s, n, env);
            o.tables == s && o.target == None && o.verdict == Pass && o.act == Unmatched
  {
    assert CtKeyOf(n) !in s.ct;
    assert FrontendOf(n) !in s.services;
    UnmatchedPasses(s, n, env);
  }

  /**
   A translated packet is a fixed point: after any further events every later hook changes neither
   the packet nor any table, and meeting that hook is itself an event that follows the plan.
   */
  lemma TranslatedPacketIsFixedPoint(w: World, t: Tuple, env: Env, es: seq<Event>, env2: Env, plan: AddressPlan)
    requires Placed(w.t, plan) && plan.Disjoint() && EventFollows(Event.Packet(t, env), plan)
    requires forall i :: 0 <= i < |es| ==> EventFollows(es[i], plan)
    requires PacketStep(w.t, t, env).target.Some?
    ensures var n := PacketStep(w.t, t, env).target.value;
            var later := Run(Next(w, Event.Packet(t, env)), es).t;
            var next := PacketStep(later, n, env2);
            && EventFollows(Event.Packet(n, env2), plan)
            && next.tables == later && next.target == None && next.verdict == Pass && next.act == Unmatched
  {
    hide PacketStep, Placed, Next, Run, Delivered, OpFollows;
    var e := Event.Packet(t, env);
    TargetIsDelivered(w.t, t, env, plan);
    StepKeepsPlacement(w, e, plan);
    PlacementOverRun(Next(w, e), es, plan);
    var n := PacketStep(w.t, t, env).target.value;
    DeliveredPasses(Run(Next(w, e), es).t, n, env2, plan);
    DeliveredFollows(n, plan);
  }

  /** From empty tables: on every run that follows the plan, whatever is translated is never translated again. */
  lemma FixedPointOnEveryRun(w: World, es: seq<Event>, t: Tuple, env: Env, more: seq<Event>, env2: Env,
                             plan: AddressPlan)
    requires Initial(w) && ControlPlaced(w.t, plan) && plan.Disjoint()
    requires forall i :: 0 <= i < |es| ==> EventFollows(es[i], plan)
    requires forall i :: 0 <= i < |more| ==> EventFollows(more[i], plan)
    requires EventFollows(Event.Packet(t, env), plan) && PacketStep(Run(w, es).t, t, env).target.Some?
    ensures var before := Run(w, es);
            var n := PacketStep(before.t, t, env).target.value;
            var later := Run(Next(before, Event.Packet(t, env)), more).t;
            var next := PacketStep(later, n, env2);
            && EventFollows(Event.Packet(n, env2), plan)
            && next.tables == later && next.target == None && next.verdict == Pass && next.act == Unmatched
  {
    InitialIsPlaced(w, plan);
    hide PacketStep, Placed, Initial, ControlPlaced, Next, Run, EventFollows;
    PlacementOverRun(w, es, plan);
    TranslatedPacketIsFixedPoint(Run(w, es), t, env, more, env2, plan);
  }

  lemma DeliveredFollows(n: Tuple, plan: AddressPlan)
    requires plan.Disjoint() && Delivered(n, plan)
    ensures ClientsApart(n, plan)
  {
  }

  /** A translated packet is the product of a reply, a forwarded request or a new flow. */
  lemma TargetOfAct(s: Tables, t: Tuple, env: Env)
    requires PacketStep(s, t, env).target.Some?
    ensures var o := PacketStep(s, t, env);
            || (o.act.Reply? && o.target.value == ToClient(o.act.fk))
            || ((o.act.Forward? || o.act.NewFlow?) && o.target.value == ToBackend(o.act.ck))
  {
    hide TailBumps, TailVerdict, MissBumps, UpdateFits, ChosenBackend, RrAfterChoice, EgressIfindex, NextPort,
         CursorAfter;
  }
}
