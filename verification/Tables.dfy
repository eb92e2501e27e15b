/**
 The BPF maps shared by the packet program and the control plane, and what one packet does
 to them (nodeport_tc.c). Every fallible map update takes its environment's choice as a flag.
 */
module Tables {
  import opened Net
  import P = Packet

  const SNAT_MIN := 40000
  const SNAT_MAX := 60999
  const SNAT_PORTS := SNAT_MAX - SNAT_MIN + 1

  const MAX_SERVICES := 512
  const MAX_CONNTRACK := 16384

  // Counter indices (enum stats_index).
  const STAT_TCP_PACKETS := 0
  const STAT_NODEPORT_HIT := 1
  const STAT_BACKEND_SELECTED := 2
  const STAT_BACKEND_LOOKUP_MISS := 3
  const STAT_RR_UPDATE := 4
  const STAT_SNAT_INSTALL := 5
  const STAT_REQUEST_REWRITE := 6
  const STAT_REVNAT_HIT := 7
  const STAT_CT_LOOKUP_MISS := 8
  const STAT_RESPONSE_REWRITE := 9
  const STAT_SAME_NODE_SKIP := 10
  const STAT_FWD_CT_HIT := 11
  const STAT_NEW_CONN := 12
  const STAT_MAP_MISS := 13
  const STAT_REWRITE_FAIL := 14
  const STAT_REDIRECT_OK := 15
  const STAT_REDIRECT_FAIL := 16
  const STAT_FALLBACK_PASS := 17
  const STAT_COUNT := 18

  datatype Frontend = Frontend(address: Addr, port: Port, proto: Byte)
  datatype Service = Service(backendCount: Word32, flags: Word32, snatIp: Addr)
  datatype BackendKey = BackendKey(service: Frontend, slot: Word32)
  datatype Backend = Backend(address: Addr, port: Port, nodeIp: Addr)
  datatype CtKey = CtKey(backendIp: Addr, nodeIp: Addr, backendPort: Port, snatPort: Port, proto: Byte)
  datatype CtValue = CtValue(clientIp: Addr, frontendIp: Addr, clientPort: Port, frontendPort: Port, lastSeen: Word64)
  datatype FwdKey = FwdKey(clientIp: Addr, frontendIp: Addr, clientPort: Port, frontendPort: Port, proto: Byte)
  datatype FwdValue = FwdValue(backendIp: Addr, snatIp: Addr, backendPort: Port, snatPort: Port, egressIfindex: Word32)
  datatype Config = Config(externalIfindex: Word32, localDeliveryIfindex: Word32, remoteDeliveryIfindex: Word32,
                           routingMode: Word32)

  datatype Tables = Tables(
    services: map<Frontend, Service>,
    backends: map<BackendKey, Backend>,
    rr: map<Frontend, Word32>,
    ct: map<CtKey, CtValue>,
    fwd: map<FwdKey, FwdValue>,
    snatCursor: Option<Word32>,
    config: Option<Config>)

  /** The environment of one packet: the clock, the CPU, and which helper calls fail. */
  datatype Env = Env(now: Word64, cpu: nat, ctFault: bool, fwdFault: bool, rrFault: bool, rewriteFault: int)

  datatype Verdict = Pass | Redirect(ifindex: Word32)

  /** What the program did with a packet; `ok` tells whether the rewrite went through. */
  datatype Act =
    | Unmatched
    | Reply(ck: CtKey, fk: FwdKey, ok: bool)
    | Forward(ck: CtKey, fk: FwdKey, ok: bool)
    | NoBackend(fk: FwdKey)
    | CtRefused(ck: CtKey, fk: FwdKey)
    | FwdRefused(ck: CtKey, fk: FwdKey)
    | NewFlow(ck: CtKey, fk: FwdKey, ok: bool)

  /** The tables afterwards, the verdict, what was done, the target of the rewrite, and the counters bumped. */
  datatype Outcome = Outcome(tables: Tables, verdict: Verdict, act: Act, target: Option<Tuple>, bumps: multiset<nat>)

  // --- Keys --------------------------------------------------------------------------

  function FrontendOf(t: Tuple): Frontend {
    Frontend(t.daddr, t.dport, IPPROTO_TCP)
  }

  /** The forward key of a packet seen as a request. */
  function FwdKeyOf(t: Tuple): FwdKey {
    FwdKey(t.saddr, t.daddr, t.sport, t.dport, IPPROTO_TCP)
  }

  /** The conntrack key of a packet seen as a reply. */
  function CtKeyOf(t: Tuple): CtKey {
    CtKey(t.saddr, t.daddr, t.sport, t.dport, IPPROTO_TCP)
  }

  /** The flow that a conntrack entry names (forwardKeyFromCT in conntrack_gc.go). */
  function FlowOf(ck: CtKey, v: CtValue): FwdKey {
    FwdKey(v.clientIp, v.frontendIp, v.clientPort, v.frontendPort, ck.proto)
  }

  /** The conntrack key that a forward entry points to. */
  function TrackOf(v: FwdValue): CtKey {
    CtKey(v.backendIp, v.snatIp, v.backendPort, v.snatPort, IPPROTO_TCP)
  }

  function CtEntry(fk: FwdKey, now: Word64): CtValue {
    CtValue(fk.clientIp, fk.frontendIp, fk.clientPort, fk.frontendPort, now)
  }

  /** The packet as it leaves towards the backend of a conntrack key. */
  function ToBackend(ck: CtKey): Tuple {
    Tuple(ck.nodeIp, ck.backendIp, ck.snatPort, ck.backendPort)
  }

  /** The packet as it leaves towards the client of a flow. */
  function ToClient(fk: FwdKey): Tuple {
    Tuple(fk.frontendIp, fk.clientIp, fk.frontendPort, fk.clientPort)
  }

  predicate IsSnatPort(p: Port) {
    SNAT_MIN <= p <= SNAT_MAX
  }

  // --- Map updates -------------------------------------------------------------------

  /** A hash map update fails when the environment says so, or when a new key meets a full map. */
  predicate UpdateFits<K, V>(m: map<K, V>, k: K, max: nat, fault: bool) {
    !fault && (k in m || |m| < max)
  }

  function Updated<K, V>(m: map<K, V>, k: K, v: V, max: nat, fault: bool): map<K, V> {
    if UpdateFits(m, k, max, fault) then m[k := v] else m
  }

  // --- Backend choice and SNAT port ---------------------------------------------------

  function CurrentSlot(rr: map<Frontend, Word32>, fe: Frontend, count: Word32): Word32 {
    var slot := if fe in rr then rr[fe] else 0;
    if slot >= count then 0 else slot
  }

  function NextSlot(slot: Word32, count: Word32): Word32
    requires slot < count
  {
    if slot + 1 >= count then 0 else slot + 1
  }

  /** The backend that select_backend picks, if any. */
  function ChosenBackend(s: Tables, fe: Frontend, svc: Service): Option<Backend> {
    if svc.backendCount == 0 then None
    else
      var key := BackendKey(fe, CurrentSlot(s.rr, fe, svc.backendCount));
      if key in s.backends then Some(s.backends[key]) else None
  }

  function RrAfterChoice(s: Tables, fe: Frontend, svc: Service, fault: bool): map<Frontend, Word32> {
    if ChosenBackend(s, fe, svc).None? then s.rr
    else Updated(s.rr, fe, NextSlot(CurrentSlot(s.rr, fe, svc.backendCount), svc.backendCount), MAX_SERVICES, fault)
  }

  /** The port the next allocation hands out. */
  function NextPort(cursor: Option<Word32>): (p: Port)
    ensures SNAT_MIN <= p <= SNAT_MAX
  {
    if cursor.None? || cursor.value < SNAT_MIN || cursor.value > SNAT_MAX then SNAT_MIN else cursor.value
  }

  function CursorAfter(port: Port): Word32
    requires SNAT_MIN <= port <= SNAT_MAX
  {
    if port + 1 > SNAT_MAX then SNAT_MIN else port + 1
  }

  // --- One packet --------------------------------------------------------------------

  function DeliveryVerdict(ifindex: Word32): Verdict {
    if ifindex > 0 then Redirect(ifindex) else Pass
  }

  function DeliveryBumps(ifindex: Word32): multiset<nat> {
    if ifindex > 0 then multiset{STAT_REDIRECT_OK} else multiset{STAT_REDIRECT_FAIL, STAT_FALLBACK_PASS}
  }

  function TailVerdict(ok: bool, ifindex: Word32): Verdict {
    if ok then DeliveryVerdict(ifindex) else Pass
  }

  function TailBumps(ok: bool, ifindex: Word32, done: nat): multiset<nat> {
    if ok then multiset{done} + DeliveryBumps(ifindex) else multiset{STAT_REWRITE_FAIL, STAT_FALLBACK_PASS}
  }

  /** The end of every translating path: rewrite towards n, then deliver or fall back. */
  function Deliver(s: Tables, ok: bool, n: Tuple, ifindex: Word32, act: Act, done: nat, bumps: multiset<nat>): Outcome {
    Outcome(s, TailVerdict(ok, ifindex), act, Some(n), bumps + TailBumps(ok, ifindex, done))
  }

  /** handle_response on a packet whose reverse key is tracked. */
  function HandleReply(s: Tables, t: Tuple, env: Env): Outcome
    requires CtKeyOf(t) in s.ct
  {
    var ck := CtKeyOf(t);
    var fk := FlowOf(ck, s.ct[ck]);
    var s' := s.(ct := Updated(s.ct, ck, CtEntry(fk, env.now), MAX_CONNTRACK, env.ctFault));
    var ifindex := if s.config.Some? then s.config.value.externalIfindex else 0;
    var ok := P.RewriteSucceeds(t, ToClient(fk), env.rewriteFault);
    Deliver(s', ok, ToClient(fk), ifindex, Reply(ck, fk, ok), STAT_RESPONSE_REWRITE, multiset{STAT_REVNAT_HIT})
  }

  /** handle_request on a packet of a flow that is already forwarded. */
  function HandleForward(s: Tables, t: Tuple, env: Env): Outcome
    requires FwdKeyOf(t) in s.fwd
  {
    var fk := FwdKeyOf(t);
    var v := s.fwd[fk];
    var ck := TrackOf(v);
    var s' := s.(ct := Updated(s.ct, ck, CtEntry(fk, env.now), MAX_CONNTRACK, env.ctFault));
    var ok := P.RewriteSucceeds(t, ToBackend(ck), env.rewriteFault);
    Deliver(s', ok, ToBackend(ck), v.egressIfindex, Forward(ck, fk, ok), STAT_REQUEST_REWRITE,
            multiset{STAT_NODEPORT_HIT, STAT_FWD_CT_HIT})
  }

  function EgressIfindex(config: Option<Config>, b: Backend, fe: Frontend): Word32 {
    if config.None? then 0
    else if b.nodeIp == fe.address then config.value.localDeliveryIfindex
    else config.value.remoteDeliveryIfindex
  }

  /** The tables once a backend is chosen and a SNAT port is allocated. */
  function Allocated(s: Tables, fe: Frontend, svc: Service, env: Env): Tables {
    s.(rr := RrAfterChoice(s, fe, svc, env.rrFault), snatCursor := Some(CursorAfter(NextPort(s.snatCursor))))
  }

  /** The conntrack key a new connection to backend b would get. */
  function FreshKey(s: Tables, svc: Service, b: Backend): CtKey {
    CtKey(b.address, svc.snatIp, b.port, NextPort(s.snatCursor), IPPROTO_TCP)
  }

  function Install(ck: CtKey, ifindex: Word32): FwdValue {
    FwdValue(ck.backendIp, ck.nodeIp, ck.backendPort, ck.snatPort, ifindex)
  }

  /** handle_request on a packet of a new flow to an installed frontend. */
  function HandleNew(s: Tables, t: Tuple, env: Env): Outcome
    requires FrontendOf(t) in s.services
  {
    var fe, fk := FrontendOf(t), FwdKeyOf(t);
    var svc := s.services[fe];
    var choice := ChosenBackend(s, fe, svc);
    if choice.None? then
      Outcome(s, Pass, NoBackend(fk), None,
          multiset{STAT_NODEPORT_HIT, STAT_BACKEND_LOOKUP_MISS, STAT_MAP_MISS, STAT_FALLBACK_PASS})
    else
      var chosen := multiset{STAT_NODEPORT_HIT, STAT_RR_UPDATE, STAT_BACKEND_SELECTED};
      var s1 := Allocated(s, fe, svc, env);
      var ck := FreshKey(s, svc, choice.value);
      var ifindex := EgressIfindex(s.config, choice.value, fe);
      if !UpdateFits(s.ct, ck, MAX_CONNTRACK, env.ctFault) then
        Outcome(s1, Pass, CtRefused(ck, fk), None, chosen + multiset{STAT_MAP_MISS, STAT_FALLBACK_PASS})
      else if !UpdateFits(s.fwd, fk, MAX_CONNTRACK, env.fwdFault) then
        Outcome(s1.(ct := s.ct - {ck}), Pass, FwdRefused(ck, fk), None,
                chosen + multiset{STAT_SNAT_INSTALL, STAT_MAP_MISS, STAT_FALLBACK_PASS})
      else
        var s2 := s1.(ct := s.ct[ck := CtEntry(fk, env.now)], fwd := s.fwd[fk := Install(ck, ifindex)]);
        var ok := P.RewriteSucceeds(t, ToBackend(ck), env.rewriteFault);
        Deliver(s2, ok, ToBackend(ck), ifindex, NewFlow(ck, fk, ok), STAT_REQUEST_REWRITE,
                chosen + multiset{STAT_SNAT_INSTALL, STAT_NEW_CONN})
  }

  function HandleRequest(s: Tables, t: Tuple, env: Env): Outcome {
    if FrontendOf(t) !in s.services then Outcome(s, Pass, Unmatched, None, multiset{})
    else if FwdKeyOf(t) in s.fwd then HandleForward(s, t, env)
    else HandleNew(s, t, env)
  }

  function MissBumps(t: Tuple): multiset<nat> {
    if IsSnatPort(t.dport) then multiset{STAT_CT_LOOKUP_MISS, STAT_MAP_MISS, STAT_FALLBACK_PASS} else multiset{}
  }

  /** nodeport_tc on a parsed packet: reverse translation first, then the request path. */
  function PacketStep(s: Tables, t: Tuple, env: Env): Outcome {
    if CtKeyOf(t) in s.ct then
      var r := HandleReply(s, t, env);
      r.(bumps := multiset{STAT_TCP_PACKETS} + r.bumps)
    else
      var r := HandleRequest(s, t, env);
      r.(bumps := multiset{STAT_TCP_PACKETS} + MissBumps(t) + r.bumps)
  }
}
