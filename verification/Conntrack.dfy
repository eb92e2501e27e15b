/**
 The forward and reverse conntrack tables as inverses of each other, and what one packet or one
 reap does to that.
 */
module Conntrack {
  import opened Net
  import opened Tables
  import opened Reaper
  import P = Packet
  import D = Datapath

  /** Each forward entry's SNAT tuple keys a conntrack entry naming exactly that flow, and conversely. */
  ghost predicate Inverse(s: Tables) {
    && (forall fk :: fk in s.fwd ==>
          TrackOf(s.fwd[fk]) in s.ct && FlowOf(TrackOf(s.fwd[fk]), s.ct[TrackOf(s.fwd[fk])]) == fk)
    && (forall ck :: ck in s.ct ==> FlowOf(ck, s.ct[ck]) in s.fwd && TrackOf(s.fwd[FlowOf(ck, s.ct[ck])]) == ck)
  }

  // --- The shape of one packet step ---------------------------------------------------

  predicate Allocates(a: Act) {
    a.CtRefused? || a.FwdRefused? || a.NewFlow?
  }

  /** What a packet step does to the conntrack tables and the SNAT cursor, by the kind of act. */
  ghost predicate Shape(s: Tables, s': Tables, t: Tuple, a: Act, env: Env) {
    && s'.services == s.services && s'.backends == s.backends && s'.config == s.config
    && (Allocates(a) ==> s'.snatCursor == Some(CursorAfter(NextPort(s.snatCursor))))
    && (!Allocates(a) ==> s'.snatCursor == s.snatCursor)
    && match a
       case Unmatched => s'.ct == s.ct && s'.fwd == s.fwd
       case NoBackend(fk) => s'.ct == s.ct && s'.fwd == s.fwd && fk == FwdKeyOf(t)
       case Reply(ck, fk, _) =>
         && ck == CtKeyOf(t) && ck in s.ct && fk == FlowOf(ck, s.ct[ck])
         && s'.ct == Updated(s.ct, ck, CtEntry(fk, env.now), MAX_CONNTRACK, env.ctFault) && s'.fwd == s.fwd
       case Forward(ck, fk, _) =>
         && fk == FwdKeyOf(t) && fk in s.fwd && ck == TrackOf(s.fwd[fk])
         && s'.ct == Updated(s.ct, ck, CtEntry(fk, env.now), MAX_CONNTRACK, env.ctFault) && s'.fwd == s.fwd
       case CtRefused(ck, fk) =>
         && FreshFlow(s, t, ck, fk) && !UpdateFits(s.ct, ck, MAX_CONNTRACK, env.ctFault)
         && s'.ct == s.ct && s'.fwd == s.fwd
       case FwdRefused(ck, fk) =>
         && FreshFlow(s, t, ck, fk) && UpdateFits(s.ct, ck, MAX_CONNTRACK, env.ctFault)
         && !UpdateFits(s.fwd, fk, MAX_CONNTRACK, env.fwdFault)
         && s'.ct == s.ct - {ck} && s'.fwd == s.fwd
       case NewFlow(ck, fk, _) =>
         && FreshFlow(s, t, ck, fk) && UpdateFits(s.ct, ck, MAX_CONNTRACK, env.ctFault)
         && UpdateFits(s.fwd, fk, MAX_CONNTRACK, env.fwdFault)
         && fk in s'.fwd && TrackOf(s'.fwd[fk]) == ck
         && s'.ct == s.ct[ck := CtEntry(fk, env.now)] && s'.fwd == s.fwd[fk := s'.fwd[fk]]
  }

  /** A packet of a flow not yet forwarded, addressed to an installed frontend, and the key it is to get. */
  ghost predicate FreshFlow(s: Tables, t: Tuple, ck: CtKey, fk: FwdKey) {
    && fk == FwdKeyOf(t) && fk !in s.fwd && FrontendOf(t) in s.services
    && var choice := ChosenBackend(s, FrontendOf(t), s.services[FrontendOf(t)]);
    && choice.Some? && ck == FreshKey(s, s.services[FrontendOf(t)], choice.value)
  }

  lemma PacketShape(s: Tables, t: Tuple, env: Env)
    ensures Shape(s, PacketStep(s, t, env).tables, t, PacketStep(s, t, env).act, env)
  {
    hide HandleReply, HandleForward, HandleNew, MissBumps, Shape;
    if CtKeyOf(t) in s.ct {
      ReplyShape(s, t, env);
    } else if FrontendOf(t) !in s.services {
      UnmatchedShape(s, t, env);
    } else if FwdKeyOf(t) in s.fwd {
      ForwardShape(s, t, env);
    } else {
      NewShape(s, t, env);
    }
  }

  lemma UnmatchedShape(s: Tables, t: Tuple, env: Env)
    ensures Shape(s, s, t, Unmatched, env)
  {
  }

  lemma ReplyShape(s: Tables, t: Tuple, env: Env)
    requires CtKeyOf(t) in s.ct
    ensures Shape(s, HandleReply(s, t, env).tables, t, HandleReply(s, t, env).act, env)
  {
    hide P.RewriteSucceeds, TailBumps, TailVerdict, UpdateFits;
  }

  lemma ForwardShape(s: Tables, t: Tuple, env: Env)
    requires FwdKeyOf(t) in s.fwd
    ensures Shape(s, HandleForward(s, t, env).tables, t, HandleForward(s, t, env).act, env)
  {
    hide P.RewriteSucceeds, TailBumps, TailVerdict, UpdateFits;
  }

  lemma NewShape(s: Tables, t: Tuple, env: Env)
    requires FrontendOf(t) in s.services && FwdKeyOf(t) !in s.fwd
    ensures Shape(s, HandleNew(s, t, env).tables, t, HandleNew(s, t, env).act, env)
  {
    hide P.RewriteSucceeds, ChosenBackend, RrAfterChoice, NextPort, CursorAfter, EgressIfindex, TailBumps,
         TailVerdict, UpdateFits,
         HandleNew, D.InstallBumps, FreshKey;
    var svc := s.services[FrontendOf(t)];
    var choice := ChosenBackend(s, FrontendOf(t), svc);
    if choice.None? {
      D.NewWithoutBackend(s, t, env);
    } else {
      D.NewWithBackend(s, t, env, choice.value);
      FreshKeyTracks(s, svc, choice.value);
    }
  }

  lemma FreshKeyTracks(s: Tables, svc: Service, b: Backend)
    ensures forall ifindex: Word32 :: TrackOf(Install(FreshKey(s, svc, b), ifindex)) == FreshKey(s, svc, b)
  {
  }

  // --- Exactly when a packet keeps the tables inverse ----------------------------------

  /** The packet opens a flow whose conntrack key is already taken, and the update that overwrites it goes through. */
  ghost predicate OverwritesKey(s: Tables, t: Tuple, env: Env) {
    && CtKeyOf(t) !in s.ct && FrontendOf(t) in s.services && FwdKeyOf(t) !in s.fwd && !env.ctFault
    && var choice := ChosenBackend(s, FrontendOf(t), s.services[FrontendOf(t)]);
    && choice.Some? && FreshKey(s, s.services[FrontendOf(t)], choice.value) in s.ct
  }

  /** In terms of the act: a key is installed or rolled back over an entry that was already there. */
  lemma OverwritesIff(s: Tables, t: Tuple, env: Env)
    ensures var a := PacketStep(s, t, env).act;
            OverwritesKey(s, t, env) <==> (a.FwdRefused? || a.NewFlow?) && a.ck in s.ct
  {
    hide P.RewriteSucceeds, ChosenBackend, RrAfterChoice, NextPort, CursorAfter, EgressIfindex, TailBumps,
         TailVerdict, MissBumps;
  }

  lemma RefreshKeepsInverse(s: Tables, s': Tables, ck: CtKey, fk: FwdKey, env: Env)
    requires Inverse(s) && ck in s.ct && fk == FlowOf(ck, s.ct[ck])
    requires s'.ct == Updated(s.ct, ck, CtEntry(fk, env.now), MAX_CONNTRACK, env.ctFault) && s'.fwd == s.fwd
    ensures Inverse(s')
  {
  }

  lemma InstallKeepsInverse(s: Tables, s': Tables, ck: CtKey, fk: FwdKey, now: Word64)
    requires Inverse(s) && ck !in s.ct && fk !in s.fwd && ck.proto == fk.proto == IPPROTO_TCP
    requires fk in s'.fwd && TrackOf(s'.fwd[fk]) == ck
    requires s'.ct == s.ct[ck := CtEntry(fk, now)] && s'.fwd == s.fwd[fk := s'.fwd[fk]]
    ensures Inverse(s')
  {
    assert FlowOf(ck, s'.ct[ck]) == fk;
    forall f | f in s'.fwd
      ensures TrackOf(s'.fwd[f]) in s'.ct && FlowOf(TrackOf(s'.fwd[f]), s'.ct[TrackOf(s'.fwd[f])]) == f
    {
      if f != fk { assert TrackOf(s.fwd[f]) != ck; }
    }
    forall c | c in s'.ct ensures FlowOf(c, s'.ct[c]) in s'.fwd && TrackOf(s'.fwd[FlowOf(c, s'.ct[c])]) == c {
      if c != ck { assert FlowOf(c, s.ct[c]) != fk; }
    }
  }

  /** From inverse tables, a packet leads to inverse tables exactly when it does not overwrite a taken key. */
  lemma PacketKeepsInverseIff(s: Tables, t: Tuple, env: Env)
    requires Inverse(s)
    ensures Inverse(PacketStep(s, t, env).tables) <==> !OverwritesKey(s, t, env)
  {
    PacketShape(s, t, env);
    OverwritesIff(s, t, env);
    var s', a := PacketStep(s, t, env).tables, PacketStep(s, t, env).act;
    hide PacketStep, ChosenBackend, FreshKey, OverwritesKey;
    match a
    case Unmatched =>
    case NoBackend(_) =>
    case Reply(ck, fk, _) => RefreshKeepsInverse(s, s', ck, fk, env);
    case Forward(ck, fk, _) => RefreshKeepsInverse(s, s', ck, fk, env);
    case CtRefused(_, _) =>
    case FwdRefused(ck, fk) =>
      if ck in s.ct {
        assert FlowOf(ck, s.ct[ck]) in s'.fwd && TrackOf(s'.fwd[FlowOf(ck, s.ct[ck])]) !in s'.ct;
      } else {
        assert s'.ct == s.ct;
      }
    case NewFlow(ck, fk, _) =>
      if ck in s.ct {
        var owner := FlowOf(ck, s.ct[ck]);
        assert owner in s'.fwd && TrackOf(s'.fwd[owner]) == ck && FlowOf(ck, s'.ct[ck]) == fk != owner;
      } else {
        FreshKeyIsTcp(s, t, ck, fk);
        InstallKeepsInverse(s, s', ck, fk, env.now);
      }
  }

  /** One flow holds the port at the cursor, and a second client opens a flow to the same backend. */
  function ReusedPort(): Tables {
    var fe, ck := Frontend(1, 80, IPPROTO_TCP), CtKey(2, 3, 8080, SNAT_MIN, IPPROTO_TCP);
    var fk := FwdKey(4, 1, 5, 80, IPPROTO_TCP);
    Tables(map[fe := Service(1, 0, 3)], map[BackendKey(fe, 0) := Backend(2, 8080, 1)], map[],
           map[ck := CtEntry(fk, 0)], map[fk := Install(ck, 0)], Some(SNAT_MIN), None)
  }

  /** allocate_snat_port does not look for a port in use: once the cursor is back, the older flow loses its entry. */
  lemma PortReuseBreaksInverse(env: Env)
    requires !env.ctFault
    ensures Inverse(ReusedPort()) && !Inverse(PacketStep(ReusedPort(), Tuple(6, 1, 7, 80), env).tables)
  {
    var s, t := ReusedPort(), Tuple(6, 1, 7, 80);
    assert Inverse(s);
    assert FreshKey(s, s.services[FrontendOf(t)], Backend(2, 8080, 1)) in s.ct;
    PacketKeepsInverseIff(s, t, env);
    hide PacketStep;
  }

  lemma FreshKeyIsTcp(s: Tables, t: Tuple, ck: CtKey, fk: FwdKey)
    requires FreshFlow(s, t, ck, fk)
    ensures ck.proto == IPPROTO_TCP && ck.snatPort == NextPort(s.snatCursor)
  {
  }

  // --- Reaps --------------------------------------------------------------------------

  /** Under the inverse relation the stale forward keys are exactly the flows of the stale entries. */
  lemma StaleFlowsMatch(s: Tables, now: Word64, timeout: Word64)
    requires Inverse(s)
    ensures StaleFwd(s.ct, s.fwd.Keys, now, timeout) == FlowsOf(s.ct, StaleCt(s.ct, now, timeout))
    ensures forall fk :: fk in s.fwd ==>
              (fk in StaleFwd(s.ct, s.fwd.Keys, now, timeout) <==> TrackOf(s.fwd[fk]) in StaleCt(s.ct, now, timeout))
    ensures StaleFwd(s.ct, s.fwd.Keys, now, timeout) <= s.fwd.Keys
  {
    var stale := StaleCt(s.ct, now, timeout);
    forall fk | fk in s.fwd ensures fk in FlowsOf(s.ct, stale) <==> TrackOf(s.fwd[fk]) in stale {
      var ck := TrackOf(s.fwd[fk]);
      assert FlowOf(ck, s.ct[ck]) == fk;
    }
    forall fk | fk in s.fwd && fk !in ActiveFlows(s.ct, now, timeout) ensures fk in FlowsOf(s.ct, stale) {
      var ck := TrackOf(s.fwd[fk]);
      assert FlowOf(ck, s.ct[ck]) == fk;
      assert ck in stale;
    }
  }

  lemma ReapKeepsInverse(s: Tables, now: Word64, timeout: Word64)
    requires Inverse(s)
    ensures Inverse(Reaped(s, now, timeout))
  {
    StaleFlowsMatch(s, now, timeout);
    var r := Reaped(s, now, timeout);
    forall ck | ck in r.ct ensures FlowOf(ck, r.ct[ck]) in r.fwd && TrackOf(r.fwd[FlowOf(ck, r.ct[ck])]) == ck {
      assert TrackOf(s.fwd[FlowOf(ck, s.ct[ck])]) == ck;
    }
  }

  /** Flows of distinct tracked keys are distinct, so a set of keys has as many flows as members. */
  lemma {:induction false} FlowCount(s: Tables, keys: set<CtKey>)
    requires Inverse(s) && keys <= s.ct.Keys
    ensures |FlowsOf(s.ct, keys)| == |keys|
  {
    if keys != {} {
      var ck :| ck in keys;
      var rest := keys - {ck};
      FlowCount(s, rest);
      assert FlowOf(ck, s.ct[ck]) !in FlowsOf(s.ct, rest);
      assert FlowsOf(s.ct, keys) == FlowsOf(s.ct, rest) + {FlowOf(ck, s.ct[ck])};
    }
  }

  /** Inverse tables have the same size. */
  lemma SameSize(s: Tables)
    requires Inverse(s)
    ensures |s.ct| == |s.fwd|
  {
    FlowCount(s, s.ct.Keys);
    assert FlowsOf(s.ct, s.ct.Keys) == s.fwd.Keys by {
      forall fk | fk in s.fwd ensures fk in FlowsOf(s.ct, s.ct.Keys) {
        assert FlowOf(TrackOf(s.fwd[fk]), s.ct[TrackOf(s.fwd[fk])]) == fk;
      }
    }
    assert |s.ct.Keys| == |s.ct| && |s.fwd.Keys| == |s.fwd|;
  }

  /** A reap of inverse tables deletes as many forward as conntrack entries, all of them present. */
  lemma ReapDeletesInPairs(s: Tables, now: Word64, timeout: Word64)
    requires Inverse(s)
    ensures |StaleCt(s.ct, now, timeout)| == |StaleFwd(s.ct, s.fwd.Keys, now, timeout)|
    ensures |Reaped(s, now, timeout).fwd| + |StaleFwd(s.ct, s.fwd.Keys, now, timeout)| == |s.fwd|
  {
    hide StaleFwd, FlowsOf, Inverse;
    StaleFlowsMatch(s, now, timeout);
    FlowCount(s, StaleCt(s.ct, now, timeout));
    SizeWithout(s.fwd, StaleFwd(s.ct, s.fwd.Keys, now, timeout));
  }

  lemma SizeWithout<K, V>(m: map<K, V>, gone: set<K>)
    requires gone <= m.Keys
    ensures |m - gone| + |gone| == |m|
  {
    assert (m - gone).Keys == m.Keys - gone;
    assert |(m - gone).Keys| == |m - gone| && |m.Keys| == |m|;
  }

  /**
   With inverse tables, a forward insert that follows a successful conntrack insert of a new key never
   meets a full map.
   */
  lemma ForwardInsertNeverMeetsFullMap(s: Tables, t: Tuple, env: Env)
    requires Inverse(s) && !OverwritesKey(s, t, env)
    ensures PacketStep(s, t, env).act.FwdRefused? ==> env.fwdFault
  {
    PacketShape(s, t, env);
    SameSize(s);
  }
}
