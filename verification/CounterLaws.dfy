/** Conservation laws between the packet program's counters. */
module CounterLaws {
  import opened Net
  import opened Tables
  import D = Datapath

  /** The laws, on how often each counter was bumped. */
  ghost predicate Laws(m: multiset<nat>) {
    && m[STAT_NODEPORT_HIT] == m[STAT_FWD_CT_HIT] + m[STAT_BACKEND_LOOKUP_MISS] + m[STAT_BACKEND_SELECTED]
    && m[STAT_RR_UPDATE] == m[STAT_BACKEND_SELECTED]
    && m[STAT_MAP_MISS] + m[STAT_NEW_CONN] ==
        m[STAT_CT_LOOKUP_MISS] + m[STAT_BACKEND_LOOKUP_MISS] + m[STAT_BACKEND_SELECTED]
    && m[STAT_FALLBACK_PASS] == m[STAT_MAP_MISS] + m[STAT_REWRITE_FAIL] + m[STAT_REDIRECT_FAIL]
    && m[STAT_REQUEST_REWRITE] + m[STAT_RESPONSE_REWRITE] == m[STAT_REDIRECT_OK] + m[STAT_REDIRECT_FAIL]
    && m[STAT_REDIRECT_OK] + m[STAT_REDIRECT_FAIL] + m[STAT_REWRITE_FAIL] ==
       m[STAT_FWD_CT_HIT] + m[STAT_NEW_CONN] + m[STAT_REVNAT_HIT]
    && m[STAT_SAME_NODE_SKIP] == 0
  }

  lemma LawsAddUp(a: multiset<nat>, b: multiset<nat>)
    requires Laws(a) && Laws(b)
    ensures Laws(a + b)
  {
  }

  /** A counter that the end of a translating path may bump. */
  predicate InTail(i: nat) {
    i in {STAT_REQUEST_REWRITE, STAT_RESPONSE_REWRITE} || STAT_REWRITE_FAIL <= i <= STAT_FALLBACK_PASS
  }

  /** The counters of a path's tail balance one FWD_CT_HIT, NEW_CONN or REVNAT_HIT, and no other counter moves. */
  ghost predicate Balanced(m: multiset<nat>) {
    && m[STAT_REDIRECT_OK] + m[STAT_REDIRECT_FAIL] + m[STAT_REWRITE_FAIL] == 1
    && m[STAT_REQUEST_REWRITE] + m[STAT_RESPONSE_REWRITE] == m[STAT_REDIRECT_OK] + m[STAT_REDIRECT_FAIL]
    && m[STAT_FALLBACK_PASS] == m[STAT_REWRITE_FAIL] + m[STAT_REDIRECT_FAIL]
    && forall i: nat :: i < STAT_COUNT && !InTail(i) ==> m[i] == 0
  }

  lemma TailBalance(ok: bool, ifindex: Word32, done: nat)
    requires done in {STAT_REQUEST_REWRITE, STAT_RESPONSE_REWRITE}
    ensures Balanced(TailBumps(ok, ifindex, done))
  {
  }

  lemma ReplySum(tail: multiset<nat>)
    requires Balanced(tail)
    ensures var m := multiset{STAT_REVNAT_HIT} + tail;
            Laws(m) && m[STAT_NEW_CONN] == 0 && m[STAT_TCP_PACKETS] == 0
  {
  }

  lemma ForwardSum(tail: multiset<nat>)
    requires Balanced(tail)
    ensures var m := multiset{STAT_NODEPORT_HIT, STAT_FWD_CT_HIT} + tail;
            Laws(m) && m[STAT_NEW_CONN] == 0 && m[STAT_TCP_PACKETS] == 0
  {
  }

  lemma ReplyLaws(s: Tables, t: Tuple, env: Env)
    requires CtKeyOf(t) in s.ct
    ensures !HandleReply(s, t, env).act.NewFlow?
    ensures Laws(HandleReply(s, t, env).bumps) && HandleReply(s, t, env).bumps[STAT_NEW_CONN] == 0
    ensures HandleReply(s, t, env).bumps[STAT_TCP_PACKETS] == 0
  {
    hide Laws, Balanced, TailBumps, UpdateFits, Updated, D.Packet.RewriteSucceeds;
    var fk := FlowOf(CtKeyOf(t), s.ct[CtKeyOf(t)]);
    var ok := D.Packet.RewriteSucceeds(t, ToClient(fk), env.rewriteFault);
    var ifindex := if s.config.Some? then s.config.value.externalIfindex else 0;
    TailBalance(ok, ifindex, STAT_RESPONSE_REWRITE);
    ReplySum(TailBumps(ok, ifindex, STAT_RESPONSE_REWRITE));
  }

  lemma ForwardLaws(s: Tables, t: Tuple, env: Env)
    requires FwdKeyOf(t) in s.fwd
    ensures !HandleForward(s, t, env).act.NewFlow?
    ensures Laws(HandleForward(s, t, env).bumps) && HandleForward(s, t, env).bumps[STAT_NEW_CONN] == 0
    ensures HandleForward(s, t, env).bumps[STAT_TCP_PACKETS] == 0
  {
    hide Laws, Balanced, TailBumps, UpdateFits, Updated, D.Packet.RewriteSucceeds;
    var v := s.fwd[FwdKeyOf(t)];
    var ok := D.Packet.RewriteSucceeds(t, ToBackend(TrackOf(v)), env.rewriteFault);
    TailBalance(ok, v.egressIfindex, STAT_REQUEST_REWRITE);
    ForwardSum(TailBumps(ok, v.egressIfindex, STAT_REQUEST_REWRITE));
  }

  lemma NoBackendLaws()
    ensures var bumps := multiset{STAT_NODEPORT_HIT, STAT_BACKEND_LOOKUP_MISS, STAT_MAP_MISS, STAT_FALLBACK_PASS};
            Laws(bumps) && bumps[STAT_TCP_PACKETS] == 0 && bumps[STAT_NEW_CONN] == 0
  {
  }

  lemma InstallLaws(s: Tables, ck: CtKey, fk: FwdKey, env: Env, tail: multiset<nat>)
    requires Balanced(tail)
    ensures var installs := multiset{STAT_NODEPORT_HIT, STAT_RR_UPDATE, STAT_BACKEND_SELECTED} +
            D.InstallBumps(s.ct, s.fwd, ck, fk, env);
            var ctFits, fwdFits := UpdateFits(s.ct, ck, MAX_CONNTRACK, env.ctFault),
                UpdateFits(s.fwd, fk, MAX_CONNTRACK, env.fwdFault);
            var bumps := if ctFits && fwdFits then installs + tail else installs;
            && bumps[STAT_TCP_PACKETS] == 0 && bumps[STAT_NEW_CONN] == (if ctFits && fwdFits then 1 else 0)
            && Laws(bumps)
  {
    hide UpdateFits;
  }

  lemma NewLaws(s: Tables, t: Tuple, env: Env)
    requires FrontendOf(t) in s.services
    ensures Laws(HandleNew(s, t, env).bumps)
    ensures HandleNew(s, t, env).bumps[STAT_TCP_PACKETS] == 0
    ensures HandleNew(s, t, env).bumps[STAT_NEW_CONN] == if HandleNew(s, t, env).act.NewFlow? then 1 else 0
  {
    hide ChosenBackend, RrAfterChoice, NextPort, CursorAfter, EgressIfindex, UpdateFits, FreshKey, HandleNew,
         TailBumps, TailVerdict,
         D.Packet.RewriteSucceeds, Allocated, CtEntry, Install, ToBackend, Laws, Balanced, InTail, D.InstallBumps;
    var fe, fk := FrontendOf(t), FwdKeyOf(t);
    var svc := s.services[fe];
    var choice := ChosenBackend(s, fe, svc);
    if choice.None? {
      D.NewWithoutBackend(s, t, env);
      NoBackendLaws();
    } else {
      D.NewWithBackend(s, t, env, choice.value);
      var ck, ifindex := FreshKey(s, svc, choice.value), EgressIfindex(s.config, choice.value, fe);
      var ok := D.Packet.RewriteSucceeds(t, ToBackend(ck), env.rewriteFault);
      TailBalance(ok, ifindex, STAT_REQUEST_REWRITE);
      var tail := TailBumps(ok, ifindex, STAT_REQUEST_REWRITE);
      InstallLaws(s, ck, fk, env, tail);
    }
  }

  /** Every packet keeps the laws, whatever the tables and the environment; NEW_CONN counts the new flows. */
  lemma PacketKeepsLaws(s: Tables, t: Tuple, env: Env)
    ensures Laws(PacketStep(s, t, env).bumps)
    ensures PacketStep(s, t, env).bumps[STAT_NEW_CONN] == if PacketStep(s, t, env).act.NewFlow? then 1 else 0
    ensures PacketStep(s, t, env).bumps[STAT_TCP_PACKETS] == 1
  {
    hide HandleReply, HandleForward, HandleNew, Laws, MissBumps;
    MissLaws(t);
    if CtKeyOf(t) in s.ct {
      ReplyLaws(s, t, env);
      LawsAddUp(multiset{STAT_TCP_PACKETS}, HandleReply(s, t, env).bumps);
    } else {
      if FrontendOf(t) in s.services {
        if FwdKeyOf(t) in s.fwd { ForwardLaws(s, t, env); } else { NewLaws(s, t, env); }
      }
      LawsAddUp(multiset{STAT_TCP_PACKETS}, MissBumps(t));
      LawsAddUp(multiset{STAT_TCP_PACKETS} + MissBumps(t), HandleRequest(s, t, env).bumps);
    }
  }

  lemma MissLaws(t: Tuple)
    ensures Laws(MissBumps(t)) && MissBumps(t)[STAT_NEW_CONN] == MissBumps(t)[STAT_TCP_PACKETS] == 0
    ensures Laws(multiset{STAT_TCP_PACKETS}) && Laws(multiset{})
  {
  }
}
