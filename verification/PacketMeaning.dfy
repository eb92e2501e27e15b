/**
 What one packet does, told by the fields of the packet and of the map rows alone: which path it
 takes, which rows it reads and writes, where it is sent and what is counted.
 */
module PacketMeaning {
  import opened Net
  import opened Tables
  import opened Conntrack
  import P = Packet
  import D = Datapath

  // --- The path ----------------------------------------------------------------------------

  /** The key of the backend row whose turn it is: a cursor that is absent or too large means slot 0. */
  function Turn(s: Tables, fe: Frontend): BackendKey
    requires fe in s.services
  {
    BackendKey(fe, if fe in s.rr && s.rr[fe] < s.services[fe].backendCount then s.rr[fe] else 0)
  }

  /** The packet is no reply and opens a flow to an installed frontend. */
  predicate Opening(s: Tables, t: Tuple) {
    && CtKey(t.saddr, t.daddr, t.sport, t.dport, 6) !in s.ct
    && Frontend(t.daddr, t.dport, 6) in s.services
    && FwdKey(t.saddr, t.daddr, t.sport, t.dport, 6) !in s.fwd
  }

  /** Some backend can take it. */
  predicate Served(s: Tables, fe: Frontend) {
    fe in s.services && s.services[fe].backendCount > 0 && Turn(s, fe) in s.backends
  }

  /** Which path a packet takes up to the choice of a backend, by the rows present. */
  lemma PathIff(s: Tables, t: Tuple, env: Env)
    ensures var a := PacketStep(s, t, env).act;
            var ck, fk := CtKey(t.saddr, t.daddr, t.sport, t.dport, 6), FwdKey(t.saddr, t.daddr, t.sport, t.dport, 6);
            var fe := Frontend(t.daddr, t.dport, 6);
            && (a.Reply? <==> ck in s.ct)
            && (a.Unmatched? <==> ck !in s.ct && fe !in s.services)
            && (a.Forward? <==> ck !in s.ct && fe in s.services && fk in s.fwd)
            && (a.NoBackend? <==> Opening(s, t) && !Served(s, fe))
            && (Allocates(a) <==> Opening(s, t) && Served(s, fe))
  {
    hide HandleReply, HandleForward, HandleNew, MissBumps;
    if CtKeyOf(t) in s.ct {
      ReplyIs(s, t, env);
    } else if FrontendOf(t) in s.services {
      if FwdKeyOf(t) in s.fwd { ForwardIs(s, t, env); } else { NewIs(s, t, env); }
    }
  }

  lemma ReplyIs(s: Tables, t: Tuple, env: Env)
    requires CtKeyOf(t) in s.ct
    ensures HandleReply(s, t, env).act.Reply?
  {
  }

  lemma ForwardIs(s: Tables, t: Tuple, env: Env)
    requires FwdKeyOf(t) in s.fwd
    ensures HandleForward(s, t, env).act.Forward?
  {
  }

  lemma NewIs(s: Tables, t: Tuple, env: Env)
    requires FrontendOf(t) in s.services
    ensures var a := HandleNew(s, t, env).act;
            && (a.NoBackend? <==> !Served(s, FrontendOf(t))) && (Allocates(a) <==> Served(s, FrontendOf(t)))
  {
    hide HandleNew, UpdateFits, EgressIfindex, Allocated, TailBumps, TailVerdict, D.InstallBumps, RrAfterChoice,
         P.RewriteSucceeds, Install;
    var svc := s.services[FrontendOf(t)];
    var choice := ChosenBackend(s, FrontendOf(t), svc);
    if choice.None? { D.NewWithoutBackend(s, t, env); } else { D.NewWithBackend(s, t, env, choice.value); }
  }

  /** Packets that match nothing, or meet no backend, pass and change nothing. */
  lemma OthersPass(s: Tables, t: Tuple, env: Env)
    ensures var o := PacketStep(s, t, env);
            o.act.Unmatched? || o.act.NoBackend? ==> o.tables == s && o.verdict == Pass && o.target == None
  {
    hide HandleReply, HandleForward, HandleNew, MissBumps;
    if CtKeyOf(t) in s.ct {
      ReplyIs(s, t, env);
    } else if FrontendOf(t) in s.services {
      if FwdKeyOf(t) in s.fwd {
        ForwardIs(s, t, env);
      } else {
        NewIs(s, t, env);
        if !Served(s, FrontendOf(t)) { D.NewWithoutBackend(s, t, env); }
      }
    }
  }

  // --- A new flow --------------------------------------------------------------------------

  /** The port handed out next: the cursor's, or the first of the range if the cursor is out of it. */
  function PortNow(s: Tables): Port {
    if s.snatCursor.Some? && 40000 <= s.snatCursor.value <= 60999 then s.snatCursor.value else 40000
  }

  /**
   A selection reads the row whose turn it is: the flow's key carries that row's address and port, the
   service's SNAT address and the next port, and both cursors move on cyclically.
   */
  lemma SelectionReadsCursorSlot(s: Tables, t: Tuple, env: Env)
    ensures var o, fe := PacketStep(s, t, env), Frontend(t.daddr, t.dport, 6);
            Allocates(o.act) ==>
              && Served(s, fe)
              && var row, n := s.backends[Turn(s, fe)], s.services[fe].backendCount;
              && o.act.ck == CtKey(row.address, s.services[fe].snatIp, row.port, PortNow(s), 6)
              && o.act.fk == FwdKey(t.saddr, t.daddr, t.sport, t.dport, 6)
              && o.tables.snatCursor == Some(if PortNow(s) == 60999 then 40000 else PortNow(s) + 1)
              && o.tables.rr == (if !env.rrFault && (fe in s.rr || |s.rr| < 512)
                                 then s.rr[fe := Following(Turn(s, fe).slot, n)] else s.rr)
  {
    PathIff(s, t, env);
    if Allocates(PacketStep(s, t, env).act) {
      assert FrontendOf(t) == Frontend(t.daddr, t.dport, 6);
      var fe := FrontendOf(t);
      assert ChosenBackend(s, fe, s.services[fe]) == Some(s.backends[Turn(s, fe)]);
      RrMoves(s, fe, env.rrFault);
      hide HandleReply, HandleForward, MissBumps, Served;
      NewReads(s, t, env, s.backends[Turn(s, fe)]);
    }
  }

  lemma NewReads(s: Tables, t: Tuple, env: Env, row: Backend)
    requires FrontendOf(t) in s.services && ChosenBackend(s, FrontendOf(t), s.services[FrontendOf(t)]) == Some(row)
    ensures var o, fe := HandleNew(s, t, env), FrontendOf(t);
            && Allocates(o.act) && o.act.fk == FwdKeyOf(t)
            && o.act.ck == CtKey(row.address, s.services[fe].snatIp, row.port, PortNow(s), 6)
            && o.tables.snatCursor == Some(if PortNow(s) == 60999 then 40000 else PortNow(s) + 1)
            && o.tables.rr == RrAfterChoice(s, fe, s.services[fe], env.rrFault)
  {
    hide HandleNew, UpdateFits, EgressIfindex, TailBumps, TailVerdict, D.InstallBumps, P.RewriteSucceeds, Install,
         RrAfterChoice, ChosenBackend;
    D.NewWithBackend(s, t, env, row);
  }

  lemma RrMoves(s: Tables, fe: Frontend, fault: bool)
    requires Served(s, fe)
    ensures RrAfterChoice(s, fe, s.services[fe], fault) ==
            if !fault && (fe in s.rr || |s.rr| < 512)
            then s.rr[fe := Following(Turn(s, fe).slot, s.services[fe].backendCount)] else s.rr
  {
  }

  /** The next slot, the first one after the last. */
  function Following(slot: Word32, n: Word32): Word32
    requires slot < n
  {
    if slot == n - 1 then 0 else slot + 1
  }

  /** Whether an insert into one of the two conntrack tables goes through. */
  predicate Room<K, V>(m: map<K, V>, k: K, fault: bool) {
    !fault && (k in m || |m| < 16384)
  }

  /** The interface a packet leaves by, if its rewrite went through and there is one. */
  function LeavesBy(ok: bool, ifindex: Word32): Verdict {
    if ok && ifindex != 0 then Redirect(ifindex) else Pass
  }

  /** The interface towards a backend: local on the frontend's own node, else remote; none without configuration. */
  function Towards(s: Tables, b: Backend, node: Addr): Word32 {
    match s.config
    case None => 0
    case Some(c) => if b.nodeIp == node then c.localDeliveryIfindex else c.remoteDeliveryIfindex
  }

  /**
   With a backend chosen: both entries are installed and the packet goes to the backend; or the
   first insert is refused and neither table changes; or the second is refused and the first is
   taken back.
   */
  lemma NewFlowMeans(s: Tables, t: Tuple, env: Env)
    requires Opening(s, t) && Served(s, Frontend(t.daddr, t.dport, 6))
    ensures var o, fe := PacketStep(s, t, env), Frontend(t.daddr, t.dport, 6);
            var row, snat := s.backends[Turn(s, fe)], s.services[fe].snatIp;
            var ck := CtKey(row.address, snat, row.port, PortNow(s), 6);
            var fk := FwdKey(t.saddr, t.daddr, t.sport, t.dport, 6);
            if !Room(s.ct, ck, env.ctFault) then
              o.act.CtRefused? && o.tables.ct == s.ct && o.tables.fwd == s.fwd && o.verdict == Pass && o.target == None
            else if !Room(s.fwd, fk, env.fwdFault) then
              && o.act.FwdRefused? && o.tables.ct == s.ct - {ck} && o.tables.fwd == s.fwd
              && o.verdict == Pass && o.target == None
            else
              && o.act.NewFlow?
              && o.tables.ct == s.ct[ck := CtValue(t.saddr, t.daddr, t.sport, t.dport, env.now)]
              && o.tables.fwd ==
                 s.fwd[fk := FwdValue(row.address, snat, row.port, PortNow(s), Towards(s, row, t.daddr))]
              && o.target == Some(Tuple(snat, row.address, PortNow(s), row.port))
              && o.act.ok == P.RewriteSucceeds(t, o.target.value, env.rewriteFault)
              && o.verdict == LeavesBy(o.act.ok, Towards(s, row, t.daddr))
  {
    hide HandleNew, TailBumps, D.InstallBumps, P.RewriteSucceeds, RrAfterChoice;
    D.NewWithBackend(s, t, env, s.backends[Turn(s, FrontendOf(t))]);
  }

  // --- Known flows -------------------------------------------------------------------------

  /** A refresh: the entry under the key is written, with the current time, if there is room. */
  function Refreshes(s: Tables, ck: CtKey, v: CtValue, fault: bool): map<CtKey, CtValue> {
    if Room(s.ct, ck, fault) then s.ct[ck := v] else s.ct
  }

  /** A packet of a forwarded flow is sent where its forward row says, and its conntrack row is written again. */
  lemma ForwardMeans(s: Tables, t: Tuple, env: Env)
    requires PacketStep(s, t, env).act.Forward?
    ensures var o, fk := PacketStep(s, t, env), FwdKey(t.saddr, t.daddr, t.sport, t.dport, 6);
            && fk in s.fwd
            && var v := s.fwd[fk];
            var ck := CtKey(v.backendIp, v.snatIp, v.backendPort, v.snatPort, 6);
            && o.act.ck == ck && o.act.fk == fk
            && o.target == Some(Tuple(v.snatIp, v.backendIp, v.snatPort, v.backendPort))
            && o.act.ok == P.RewriteSucceeds(t, o.target.value, env.rewriteFault)
            && o.verdict == LeavesBy(o.act.ok, v.egressIfindex)
            && o.tables == s.(ct := Refreshes(s, ck, CtValue(t.saddr, t.daddr, t.sport, t.dport, env.now), env.ctFault))
  {
    PathIff(s, t, env);
    hide TailBumps, MissBumps, P.RewriteSucceeds;
  }

  /** A reply is sent to the client of its conntrack row, from the frontend, and refreshes the row. */
  lemma ReplyMeans(s: Tables, t: Tuple, env: Env)
    requires PacketStep(s, t, env).act.Reply?
    ensures var o, ck := PacketStep(s, t, env), CtKey(t.saddr, t.daddr, t.sport, t.dport, 6);
            && ck in s.ct
            && var v := s.ct[ck];
            && o.act.ck == ck && o.act.fk == FwdKey(v.clientIp, v.frontendIp, v.clientPort, v.frontendPort, 6)
            && o.target == Some(Tuple(v.frontendIp, v.clientIp, v.frontendPort, v.clientPort))
            && o.act.ok == P.RewriteSucceeds(t, o.target.value, env.rewriteFault)
            && o.verdict == LeavesBy(o.act.ok, if s.config.Some? then s.config.value.externalIfindex else 0)
            && o.tables == s.(ct := Refreshes(s, ck, v.(lastSeen := env.now), env.ctFault))
  {
    PathIff(s, t, env);
    hide TailBumps, MissBumps, P.RewriteSucceeds;
  }

  // --- Counters ----------------------------------------------------------------------------

  function One(c: bool): nat {
    if c then 1 else 0
  }

  /** The act carries out a rewrite. */
  predicate Translates(a: Act) {
    a.Reply? || a.Forward? || a.NewFlow?
  }

  /** How often each counter is bumped, given whether the packet hit a SNAT port without being a reply. */
  ghost predicate Counted(b: multiset<nat>, a: Act, v: Verdict, miss: bool) {
    && b[STAT_TCP_PACKETS] == 1
    && b[STAT_CT_LOOKUP_MISS] == One(miss)
    && b[STAT_REVNAT_HIT] == One(a.Reply?)
    && b[STAT_NODEPORT_HIT] == One(!a.Reply? && !a.Unmatched?)
    && b[STAT_FWD_CT_HIT] == One(a.Forward?)
    && b[STAT_BACKEND_LOOKUP_MISS] == One(a.NoBackend?)
    && b[STAT_BACKEND_SELECTED] == One(a.CtRefused? || a.FwdRefused? || a.NewFlow?)
    && b[STAT_RR_UPDATE] == One(a.CtRefused? || a.FwdRefused? || a.NewFlow?)
    && b[STAT_SNAT_INSTALL] == One(a.FwdRefused? || a.NewFlow?)
    && b[STAT_NEW_CONN] == One(a.NewFlow?)
    && b[STAT_REQUEST_REWRITE] == One((a.Forward? || a.NewFlow?) && a.ok)
    && b[STAT_RESPONSE_REWRITE] == One(a.Reply? && a.ok)
    && b[STAT_REWRITE_FAIL] == One(Translates(a) && !a.ok)
    && b[STAT_REDIRECT_OK] == One(v.Redirect?)
    && b[STAT_REDIRECT_FAIL] == One(Translates(a) && a.ok && v.Pass?)
    && b[STAT_MAP_MISS] == One(miss) + One(a.NoBackend? || a.CtRefused? || a.FwdRefused?)
    && b[STAT_FALLBACK_PASS] == b[STAT_MAP_MISS] + One(Translates(a) && v.Pass?)
    && forall i: nat :: i == STAT_SAME_NODE_SKIP || i >= STAT_COUNT ==> b[i] == 0
  }

  /** The counters of a miss. */
  function MissCells(miss: bool): multiset<nat> {
    if miss then multiset{STAT_CT_LOOKUP_MISS, STAT_MAP_MISS, STAT_FALLBACK_PASS} else multiset{}
  }

  ghost predicate MissCounted(m: multiset<nat>, miss: bool) {
    forall i: nat :: m[i] == One(miss && i in {STAT_CT_LOOKUP_MISS, STAT_MAP_MISS, STAT_FALLBACK_PASS})
  }

  lemma MissCount(miss: bool)
    ensures MissCounted(MissCells(miss), miss)
  {
  }

  /** The counters of the end of a translating path. */
  ghost predicate TailCounted(m: multiset<nat>, ok: bool, v: Verdict, done: nat) {
    && m[done] == One(ok) && m[STAT_REWRITE_FAIL] == One(!ok) && m[STAT_REDIRECT_OK] == One(v.Redirect?)
    && m[STAT_REDIRECT_FAIL] == One(ok && v.Pass?) && m[STAT_FALLBACK_PASS] == One(v.Pass?)
    && forall i: nat :: i != done && !(STAT_REWRITE_FAIL <= i <= STAT_FALLBACK_PASS) ==> m[i] == 0
  }

  lemma TailCount(ok: bool, ifindex: Word32, done: nat)
    requires done < STAT_REWRITE_FAIL
    ensures TailCounted(TailBumps(ok, ifindex, done), ok, TailVerdict(ok, ifindex), done)
  {
  }

  lemma ReplySum(a: Act, v: Verdict, tail: multiset<nat>)
    requires a.Reply? && TailCounted(tail, a.ok, v, STAT_RESPONSE_REWRITE) && (!a.ok ==> v.Pass?)
    ensures Counted(multiset{STAT_TCP_PACKETS} + (multiset{STAT_REVNAT_HIT} + tail), a, v, false)
  {
  }

  lemma ForwardSum(a: Act, v: Verdict, m: multiset<nat>, tail: multiset<nat>, miss: bool)
    requires a.Forward? && TailCounted(tail, a.ok, v, STAT_REQUEST_REWRITE) && (!a.ok ==> v.Pass?)
    requires MissCounted(m, miss)
    ensures Counted(multiset{STAT_TCP_PACKETS} + m + (multiset{STAT_NODEPORT_HIT, STAT_FWD_CT_HIT} + tail), a, v, miss)
  {
  }

  lemma NoBackendSum(a: Act, m: multiset<nat>, miss: bool)
    requires a.NoBackend? && MissCounted(m, miss)
    ensures Counted(multiset{STAT_TCP_PACKETS} + m +
              multiset{STAT_NODEPORT_HIT, STAT_BACKEND_LOOKUP_MISS, STAT_MAP_MISS, STAT_FALLBACK_PASS}, a, Pass, miss)
  {
  }

  lemma RefusedSum(a: Act, m: multiset<nat>, miss: bool)
    requires (a.CtRefused? || a.FwdRefused?) && MissCounted(m, miss)
    ensures Counted(multiset{STAT_TCP_PACKETS} + m +
              (multiset{STAT_NODEPORT_HIT, STAT_RR_UPDATE, STAT_BACKEND_SELECTED} +
               if a.CtRefused? then multiset{STAT_MAP_MISS, STAT_FALLBACK_PASS}
               else multiset{STAT_SNAT_INSTALL, STAT_MAP_MISS, STAT_FALLBACK_PASS}),
              a, Pass, miss)
  {
  }

  lemma NewFlowSum(a: Act, v: Verdict, m: multiset<nat>, tail: multiset<nat>, miss: bool)
    requires a.NewFlow? && TailCounted(tail, a.ok, v, STAT_REQUEST_REWRITE) && (!a.ok ==> v.Pass?)
    requires MissCounted(m, miss)
    ensures Counted(multiset{STAT_TCP_PACKETS} + m +
              (multiset{STAT_NODEPORT_HIT, STAT_RR_UPDATE, STAT_BACKEND_SELECTED} +
               multiset{STAT_SNAT_INSTALL, STAT_NEW_CONN} + tail), a, v, miss)
  {
  }

  lemma NewCounted(s: Tables, t: Tuple, env: Env, miss: bool)
    requires FrontendOf(t) in s.services
    ensures var o := HandleNew(s, t, env);
            Counted(multiset{STAT_TCP_PACKETS} + MissCells(miss) + o.bumps, o.act, o.verdict, miss)
  {
    hide P.RewriteSucceeds, HandleNew, UpdateFits, EgressIfindex, Allocated, ChosenBackend, RrAfterChoice, FreshKey,
         Install, ToBackend, Counted, TailBumps, TailVerdict, TailCounted, MissCells, MissCounted;
    var fe, fk := FrontendOf(t), FwdKeyOf(t);
    var svc := s.services[fe];
    var choice := ChosenBackend(s, fe, svc);
    var a := HandleNew(s, t, env).act;
    MissCount(miss);
    if choice.None? {
      D.NewWithoutBackend(s, t, env);
      NoBackendSum(a, MissCells(miss), miss);
    } else {
      D.NewWithBackend(s, t, env, choice.value);
      if a.NewFlow? {
        var ifindex := EgressIfindex(s.config, choice.value, fe);
        TailCount(a.ok, ifindex, STAT_REQUEST_REWRITE);
        FailedPasses(a.ok, ifindex);
        var tail := TailBumps(a.ok, ifindex, STAT_REQUEST_REWRITE);
        NewFlowSum(a, TailVerdict(a.ok, ifindex), MissCells(miss), tail, miss);
      } else {
        RefusedSum(a, MissCells(miss), miss);
      }
    }
  }

  /** Every counter of every packet, exactly: by its path, whether its rewrite went through, and its verdict. */
  lemma CountersMean(s: Tables, t: Tuple, env: Env)
    ensures var o := PacketStep(s, t, env);
            var miss := CtKey(t.saddr, t.daddr, t.sport, t.dport, 6) !in s.ct && 40000 <= t.dport <= 60999;
            Counted(o.bumps, o.act, o.verdict, miss)
  {
    hide HandleNew, Counted, TailBumps, TailVerdict, P.RewriteSucceeds, Updated, TailCounted, MissCounted;
    var miss := 40000 <= t.dport <= 60999;
    var a := PacketStep(s, t, env).act;
    assert MissBumps(t) == MissCells(miss);
    if CtKeyOf(t) in s.ct {
      var ifindex := if s.config.Some? then s.config.value.externalIfindex else 0;
      TailCount(a.ok, ifindex, STAT_RESPONSE_REWRITE);
      FailedPasses(a.ok, ifindex);
      ReplySum(a, TailVerdict(a.ok, ifindex), TailBumps(a.ok, ifindex, STAT_RESPONSE_REWRITE));
    } else if FrontendOf(t) !in s.services {
      UnmatchedSum(miss);
    } else if FwdKeyOf(t) in s.fwd {
      var ifindex := s.fwd[FwdKeyOf(t)].egressIfindex;
      MissCount(miss);
      TailCount(a.ok, ifindex, STAT_REQUEST_REWRITE);
      FailedPasses(a.ok, ifindex);
      ForwardSum(a, TailVerdict(a.ok, ifindex), MissCells(miss), TailBumps(a.ok, ifindex, STAT_REQUEST_REWRITE), miss);
    } else {
      NewCounted(s, t, env, miss);
    }
  }

  lemma FailedPasses(ok: bool, ifindex: Word32)
    ensures !ok ==> TailVerdict(ok, ifindex).Pass?
  {
  }

  lemma UnmatchedSum(miss: bool)
    ensures Counted(multiset{STAT_TCP_PACKETS} + MissCells(miss) + multiset{}, Unmatched, Pass, miss)
  {
  }
}
