/**
 The packet program itself (nodeport_tc.c): methods that update the BPF maps and the packet
 bytes in place, each proved equal to the step functions of module Tables.
 */
module Datapath {
  import opened Net
  import opened Tables
  import Packet

  // --- Per-CPU counters ---------------------------------------------------------------

  type Counters = seq<seq<Word64>>

  ghost predicate CountersValid(c: Counters) {
    forall cpu :: 0 <= cpu < |c| ==> |c[cpu]| == STAT_COUNT
  }

  function BumpRow(row: seq<Word64>, m: multiset<nat>): (r: seq<Word64>)
    ensures |r| == |row|
  {
    seq(|row|, i requires 0 <= i < |row| => (row[i] + m[i]) % WORD64)
  }

  /** The counters after one CPU bumps each index as often as it occurs in m; 64-bit cells wrap. */
  function Bumped(c: Counters, cpu: nat, m: multiset<nat>): Counters
    requires cpu < |c|
  {
    c[cpu := BumpRow(c[cpu], m)]
  }

  lemma BumpNothing(c: Counters, cpu: nat)
    requires cpu < |c|
    ensures Bumped(c, cpu, multiset{}) == c
  {
    assert BumpRow(c[cpu], multiset{}) == c[cpu];
  }

  lemma BumpedValid(c: Counters, cpu: nat, m: multiset<nat>)
    requires CountersValid(c) && cpu < |c|
    ensures CountersValid(Bumped(c, cpu, m)) && |Bumped(c, cpu, m)| == |c|
  {
  }

  lemma BumpOneMore(c: Counters, cpu: nat, m: multiset<nat>, index: nat)
    requires cpu < |c| && index < |c[cpu]|
    ensures var row := BumpRow(c[cpu], m);
            var cell: Word64 := (row[index] + 1) % WORD64;
            c[cpu := row[index := cell]] == Bumped(c, cpu, m + multiset{index})
  {
    var row := BumpRow(c[cpu], m);
    var cell: Word64 := (row[index] + 1) % WORD64;
    assert (c[cpu][index] + m[index] + 1) % WORD64 == cell;
    assert BumpRow(c[cpu], m + multiset{index}) == row[index := cell];
  }

  lemma TwoBumps(done: multiset<nat>, i: nat, j: nat)
    ensures done + multiset{i} + multiset{j} == done + multiset{i, j}
  {
  }

  lemma Regroup(done: multiset<nat>, first: multiset<nat>, second: multiset<nat>)
    ensures done + first + second == done + (first + second)
  {
  }

  lemma RegroupNew(done: multiset<nat>, installs: multiset<nat>, tail: multiset<nat>)
    ensures done + multiset{STAT_NODEPORT_HIT, STAT_RR_UPDATE} + multiset{STAT_BACKEND_SELECTED} + installs + tail ==
            done + (multiset{STAT_NODEPORT_HIT, STAT_RR_UPDATE, STAT_BACKEND_SELECTED} + installs + tail)
    ensures done + multiset{STAT_NODEPORT_HIT, STAT_RR_UPDATE} + multiset{STAT_BACKEND_SELECTED} + installs ==
            done + (multiset{STAT_NODEPORT_HIT, STAT_RR_UPDATE, STAT_BACKEND_SELECTED} + installs)
  {
  }

  lemma NewWithBackend(s: Tables, t: Tuple, env: Env, b: Backend)
    requires FrontendOf(t) in s.services && ChosenBackend(s, FrontendOf(t), s.services[FrontendOf(t)]) == Some(b)
    ensures var fe, fk := FrontendOf(t), FwdKeyOf(t);
            var svc := s.services[fe];
            var ck, ifindex := FreshKey(s, svc, b), EgressIfindex(s.config, b, fe);
            var s1 := Allocated(s, fe, svc, env);
            var bumps := multiset{STAT_NODEPORT_HIT, STAT_RR_UPDATE, STAT_BACKEND_SELECTED} +
                InstallBumps(s.ct, s.fwd, ck, fk, env);
            var ctFits, fwdFits := UpdateFits(s.ct, ck, MAX_CONNTRACK, env.ctFault),
                UpdateFits(s.fwd, fk, MAX_CONNTRACK, env.fwdFault);
            && (!ctFits ==> HandleNew(s, t, env) == Outcome(s1, Pass, CtRefused(ck, fk), None, bumps))
            && (ctFits && !fwdFits ==>
                HandleNew(s, t, env) == Outcome(s1.(ct := s.ct - {ck}), Pass, FwdRefused(ck, fk), None, bumps))
            && (ctFits && fwdFits ==>
                var ok := Packet.RewriteSucceeds(t, ToBackend(ck), env.rewriteFault);
                HandleNew(s, t, env) ==
                Outcome(s1.(ct := s.ct[ck := CtEntry(fk, env.now)], fwd := s.fwd[fk := Install(ck, ifindex)]),
                    TailVerdict(ok, ifindex),
                        NewFlow(ck, fk, ok), Some(ToBackend(ck)), bumps + TailBumps(ok, ifindex, STAT_REQUEST_REWRITE)))
  {
  }

  lemma NewWithoutBackend(s: Tables, t: Tuple, env: Env)
    requires FrontendOf(t) in s.services && ChosenBackend(s, FrontendOf(t), s.services[FrontendOf(t)]).None?
    ensures RrAfterChoice(s, FrontendOf(t), s.services[FrontendOf(t)], env.rrFault) == s.rr
    ensures HandleNew(s, t, env) == Outcome(s, Pass, NoBackend(FwdKeyOf(t)), None,
              multiset{STAT_NODEPORT_HIT, STAT_BACKEND_LOOKUP_MISS, STAT_MAP_MISS, STAT_FALLBACK_PASS})
  {
  }

  function InstallBumps(ct: map<CtKey, CtValue>, fwd: map<FwdKey, FwdValue>, ck: CtKey, fk: FwdKey,
                        env: Env): multiset<nat> {
    if !UpdateFits(ct, ck, MAX_CONNTRACK, env.ctFault) then multiset{STAT_MAP_MISS, STAT_FALLBACK_PASS}
    else if !UpdateFits(fwd, fk, MAX_CONNTRACK, env.fwdFault) then
        multiset{STAT_SNAT_INSTALL, STAT_MAP_MISS, STAT_FALLBACK_PASS}
    else multiset{STAT_SNAT_INSTALL, STAT_NEW_CONN}
  }

  // --- The maps -----------------------------------------------------------------------

  class NodePortMaps {
    var services: map<Frontend, Service>
    var backends: map<BackendKey, Backend>
    var rr: map<Frontend, Word32>
    var ct: map<CtKey, CtValue>
    var fwd: map<FwdKey, FwdValue>
    var snatCursor: Option<Word32>
    var config: Option<Config>
    var stats: Counters

    /**
     Freshly loaded, empty maps on a machine with the given number of CPUs; the SNAT cursor is a zeroed
     array cell.
     */
    constructor (cpus: nat)
      ensures State() == Tables(map[], map[], map[], map[], map[], Some(0), None)
      ensures CountersValid(stats) && |stats| == cpus
      ensures forall cpu, i :: 0 <= cpu < cpus && 0 <= i < STAT_COUNT ==> stats[cpu][i] == 0
    {
      services, backends, rr, ct, fwd := map[], map[], map[], map[], map[];
      snatCursor, config := Some(0), None;
      stats := seq(cpus, _ => seq(STAT_COUNT, _ => 0));
    }

    ghost function State(): Tables
      reads this
    {
      Tables(services, backends, rr, ct, fwd, snatCursor, config)
    }

    /** The counters hold what they held at the start of the packet (`base`) plus the bumps made since. */
    ghost predicate Counting(base: Counters, cpu: nat, bumps: multiset<nat>)
      reads this`stats
    {
      CountersValid(base) && cpu < |base| && stats == Bumped(base, cpu, bumps)
    }

    /** bump_stat; `base` and `done` remember the counters at the start of the packet and the bumps since. */
    method BumpStat(cpu: nat, index: nat, ghost base: Counters,
                    ghost done: multiset<nat>) returns (ghost bumps: multiset<nat>)
      requires Counting(base, cpu, done) && index < STAT_COUNT
      modifies this`stats
      ensures bumps == done + multiset{index} && Counting(base, cpu, bumps)
    {
      BumpOneMore(base, cpu, done, index);
      var row: seq<Word64> := stats[cpu];
      var cell: Word64 := (row[index] + 1) % WORD64;
      row := row[index := cell];
      stats := stats[cpu := row];
      bumps := done + multiset{index};
    }

    /** update_conntrack_entry: a BPF_ANY update stamped with the current time. */
    method UpdateConntrackEntry(ck: CtKey, fk: FwdKey, env: Env) returns (ok: bool)
      modifies this`ct
      ensures ok == UpdateFits(old(ct), ck, MAX_CONNTRACK, env.ctFault)
      ensures ct == Updated(old(ct), ck, CtEntry(fk, env.now), MAX_CONNTRACK, env.ctFault)
    {
      if env.ctFault || (ck !in ct && |ct| >= MAX_CONNTRACK) { return false; }
      ct := ct[ck := CtEntry(fk, env.now)];
      return true;
    }

    /** redirect_or_fallback. */
    method RedirectOrFallback(ifindex: Word32, env: Env, ghost base: Counters, ghost done: multiset<nat>)
      returns (verdict: Verdict, ghost bumps: multiset<nat>)
      requires Counting(base, env.cpu, done)
      modifies this`stats
      ensures verdict == DeliveryVerdict(ifindex) && bumps == done + DeliveryBumps(ifindex)
      ensures Counting(base, env.cpu, bumps)
    {
      if ifindex > 0 {
        bumps := BumpStat(env.cpu, STAT_REDIRECT_OK, base, done);
        return Redirect(ifindex), bumps;
      }
      bumps := BumpStat(env.cpu, STAT_REDIRECT_FAIL, base, done);
      bumps := BumpStat(env.cpu, STAT_FALLBACK_PASS, base, bumps);
      return Pass, bumps;
    }

    /** The shared tail of the translating paths: rewrite the packet, count, deliver or fall back. */
    method RewriteAndDeliver(skb: array<Byte>, tcp: nat, n: Tuple, ifindex: Word32, done: nat, env: Env,
                             ghost b0: seq<Byte>, ghost base: Counters, ghost before: multiset<nat>)
      returns (verdict: Verdict, ghost bumps: multiset<nat>)
      requires skb[..] == b0 && Packet.Parse(b0) == Some(tcp) && done < STAT_COUNT && Counting(base, env.cpu, before)
      modifies this`stats, skb
      ensures var ok := Packet.RewriteSucceeds(Packet.TupleAt(b0, tcp), n, env.rewriteFault);
              verdict == TailVerdict(ok, ifindex) && bumps == before + TailBumps(ok, ifindex, done)
      ensures skb[..] == AfterRewrite(b0, tcp, n, env) && Counting(base, env.cpu, bumps)
    {
      hide Packet.Parse, Packet.TupleAt, Packet.Rewritten, Counting;
      var ok := Packet.RewriteTuple(skb, tcp, n, env.rewriteFault);
      if ok {
        bumps := BumpStat(env.cpu, done, base, before);
        verdict, bumps := RedirectOrFallback(ifindex, env, base, bumps);
        Regroup(before, multiset{done}, DeliveryBumps(ifindex));
      } else {
        bumps := BumpStat(env.cpu, STAT_REWRITE_FAIL, base, before);
        bumps := BumpStat(env.cpu, STAT_FALLBACK_PASS, base, bumps);
        TwoBumps(before, STAT_REWRITE_FAIL, STAT_FALLBACK_PASS);
        verdict := Pass;
      }
    }

    /** select_backend: the slot under the round-robin cursor; the cursor update's result is ignored. */
    method SelectBackend(fe: Frontend, svc: Service, env: Env, ghost base: Counters, ghost done: multiset<nat>)
      returns (choice: Option<Backend>, ghost bumps: multiset<nat>)
      requires Counting(base, env.cpu, done)
      modifies this`rr, this`stats
      ensures choice == old(ChosenBackend(State(), fe, svc))
      ensures rr == old(RrAfterChoice(State(), fe, svc, env.rrFault))
      ensures bumps == if choice.Some? then done + multiset{STAT_RR_UPDATE} else done
      ensures Counting(base, env.cpu, bumps)
    {
      bumps := done;
      if svc.backendCount == 0 { return None, bumps; }
      var slot: Word32 := 0;
      if fe in rr { slot := rr[fe]; }
      if slot >= svc.backendCount { slot := 0; }
      var key := BackendKey(fe, slot);
      if key !in backends { return None, bumps; }
      choice := Some(backends[key]);
      var next: Word32 := 0;
      if slot + 1 < svc.backendCount { next := slot + 1; }
      if !env.rrFault && (fe in rr || |rr| < MAX_SERVICES) {
        rr := rr[fe := next];
      }
      bumps := BumpStat(env.cpu, STAT_RR_UPDATE, base, bumps);
    }

    /** allocate_snat_port. */
    method AllocateSnatPort() returns (port: Port)
      modifies this`snatCursor
      ensures port == NextPort(old(snatCursor)) && snatCursor == Some(CursorAfter(port))
    {
      if snatCursor.None? {
        snatCursor := Some(SNAT_MIN + 1);
        return SNAT_MIN;
      }
      var p: Word32 := snatCursor.value;
      if p < SNAT_MIN || p > SNAT_MAX { p := SNAT_MIN; }
      port := p;
      var next: int := p + 1;
      if next > SNAT_MAX { next := SNAT_MIN; }
      snatCursor := Some(next);
    }

    /** handle_response on a packet that is not a tracked reply. */
    method CountMiss(t: Tuple, env: Env, ghost base: Counters,
                     ghost done: multiset<nat>) returns (ghost bumps: multiset<nat>)
      requires Counting(base, env.cpu, done)
      modifies this`stats
      ensures bumps == done + MissBumps(t) && Counting(base, env.cpu, bumps)
    {
      bumps := done;
      if IsSnatPort(t.dport) {
        bumps := BumpStat(env.cpu, STAT_CT_LOOKUP_MISS, base, bumps);
        bumps := BumpStat(env.cpu, STAT_MAP_MISS, base, bumps);
        bumps := BumpStat(env.cpu, STAT_FALLBACK_PASS, base, bumps);
      }
    }

    /** The whole effect of a packet path: verdict, tables, counters and frame are those of the outcome o. */
    ghost predicate Reached(o: Outcome, verdict: Verdict, b0: seq<Byte>, b: seq<Byte>, tcp: nat, env: Env,
                            done: multiset<nat>, bumps: multiset<nat>)
      requires 34 <= tcp && tcp + 20 <= |b0|
      reads this
    {
      verdict == o.verdict && State() == o.tables && bumps == done + o.bumps && b == FrameAfter(b0, tcp, o, env)
    }

    /** handle_response from the point where the reverse key is found. */
    method TranslateReply(skb: array<Byte>, tcp: nat, t: Tuple, env: Env,
                          ghost s0: Tables, ghost b0: seq<Byte>, ghost base: Counters, ghost done: multiset<nat>)
      returns (verdict: Verdict, ghost bumps: multiset<nat>)
      requires State() == s0 && skb[..] == b0 && Packet.Parse(b0) == Some(tcp) && t == Packet.TupleAt(b0, tcp)
      requires CtKeyOf(t) in ct && Counting(base, env.cpu, done)
      modifies this, skb
      ensures Counting(base, env.cpu, bumps)
      ensures Reached(HandleReply(s0, t, env), verdict, b0, skb[..], tcp, env, done, bumps)
    {
      hide Counting, AfterRewrite, Packet.Parse, Packet.TupleAt, Packet.RewriteSucceeds, TailBumps, TailVerdict;
      var ck := CtKeyOf(t);
      var fk := FlowOf(ck, ct[ck]);
      var _ := UpdateConntrackEntry(ck, fk, env);
      var ifindex := if config.Some? then config.value.externalIfindex else 0;
      bumps := BumpStat(env.cpu, STAT_REVNAT_HIT, base, done);
      verdict, bumps := RewriteAndDeliver(skb, tcp, ToClient(fk), ifindex, STAT_RESPONSE_REWRITE, env, b0, base, bumps);
      Regroup(done, multiset{STAT_REVNAT_HIT},
              TailBumps(Packet.RewriteSucceeds(t, ToClient(fk), env.rewriteFault), ifindex, STAT_RESPONSE_REWRITE));
    }

    /** handle_request from the point where the flow is found in the forward table. */
    method TranslateForward(skb: array<Byte>, tcp: nat, t: Tuple, env: Env,
                            ghost s0: Tables, ghost b0: seq<Byte>, ghost base: Counters, ghost done: multiset<nat>)
      returns (verdict: Verdict, ghost bumps: multiset<nat>)
      requires State() == s0 && skb[..] == b0 && Packet.Parse(b0) == Some(tcp) && t == Packet.TupleAt(b0, tcp)
      requires FwdKeyOf(t) in fwd && Counting(base, env.cpu, done + multiset{STAT_NODEPORT_HIT})
      modifies this, skb
      ensures Counting(base, env.cpu, bumps)
      ensures Reached(HandleForward(s0, t, env), verdict, b0, skb[..], tcp, env, done, bumps)
    {
      hide Counting, AfterRewrite, Packet.Parse, Packet.TupleAt, Packet.RewriteSucceeds, TailBumps, TailVerdict;
      var fk := FwdKeyOf(t);
      var ck := TrackOf(fwd[fk]);
      var ifindex := fwd[fk].egressIfindex;
      bumps := BumpStat(env.cpu, STAT_FWD_CT_HIT, base, done + multiset{STAT_NODEPORT_HIT});
      TwoBumps(done, STAT_NODEPORT_HIT, STAT_FWD_CT_HIT);
      var _ := UpdateConntrackEntry(ck, fk, env);
      verdict, bumps := RewriteAndDeliver(skb, tcp, ToBackend(ck), ifindex, STAT_REQUEST_REWRITE, env, b0, base, bumps);
      Regroup(done, multiset{STAT_NODEPORT_HIT, STAT_FWD_CT_HIT},
              TailBumps(Packet.RewriteSucceeds(t, ToBackend(ck), env.rewriteFault), ifindex, STAT_REQUEST_REWRITE));
    }

    /** The counters of a request whose frontend has no backend to offer. */
    method CountNoBackend(env: Env, ghost base: Counters,
                          ghost done: multiset<nat>) returns (ghost bumps: multiset<nat>)
      requires Counting(base, env.cpu, done + multiset{STAT_NODEPORT_HIT})
      modifies this`stats
      ensures Counting(base, env.cpu, bumps)
      ensures bumps == done + multiset{STAT_NODEPORT_HIT, STAT_BACKEND_LOOKUP_MISS, STAT_MAP_MISS, STAT_FALLBACK_PASS}
    {
      hide Counting;
      bumps := BumpStat(env.cpu, STAT_BACKEND_LOOKUP_MISS, base, done + multiset{STAT_NODEPORT_HIT});
      bumps := BumpStat(env.cpu, STAT_MAP_MISS, base, bumps);
      bumps := BumpStat(env.cpu, STAT_FALLBACK_PASS, base, bumps);
    }

    /** The counters of a refused forward entry. */
    method RefuseForward(env: Env, ghost base: Counters, ghost done: multiset<nat>) returns (ghost bumps: multiset<nat>)
      requires Counting(base, env.cpu, done + multiset{STAT_SNAT_INSTALL})
      modifies this`stats
      ensures Counting(base, env.cpu, bumps)
      ensures bumps == done + multiset{STAT_SNAT_INSTALL, STAT_MAP_MISS, STAT_FALLBACK_PASS}
    {
      bumps := BumpStat(env.cpu, STAT_MAP_MISS, base, done + multiset{STAT_SNAT_INSTALL});
      bumps := BumpStat(env.cpu, STAT_FALLBACK_PASS, base, bumps);
    }

    /** The two conntrack installs of handle_request, with the rollback of the first when the second fails. */
    method InstallEntries(ck: CtKey, fk: FwdKey, v: FwdValue, env: Env, ghost base: Counters, ghost done: multiset<nat>)
      returns (installed: bool, ghost bumps: multiset<nat>)
      requires Counting(base, env.cpu, done)
      modifies this`ct, this`fwd, this`stats
      ensures Counting(base, env.cpu, bumps)
      ensures var ctFits, fwdFits := UpdateFits(old(ct), ck, MAX_CONNTRACK, env.ctFault),
              UpdateFits(old(fwd), fk, MAX_CONNTRACK, env.fwdFault);
              && installed == (ctFits && fwdFits)
              && ct == (if !ctFits then old(ct) else if fwdFits then old(ct)[ck := CtEntry(fk, env.now)]
                  else old(ct) - {ck})
              && fwd == (if installed then old(fwd)[fk := v] else old(fwd))
              && bumps == done + InstallBumps(old(ct), old(fwd), ck, fk, env)
    {
      hide Counting, CountersValid, Bumped, CtEntry;
      ghost var ct0 := ct;
      var tracked := UpdateConntrackEntry(ck, fk, env);
      if !tracked {
        bumps := BumpStat(env.cpu, STAT_MAP_MISS, base, done);
        bumps := BumpStat(env.cpu, STAT_FALLBACK_PASS, base, bumps);
        TwoBumps(done, STAT_MAP_MISS, STAT_FALLBACK_PASS);
        return false, bumps;
      }
      bumps := BumpStat(env.cpu, STAT_SNAT_INSTALL, base, done);
      if env.fwdFault || (fk !in fwd && |fwd| >= MAX_CONNTRACK) {
        ct := ct - {ck};
        bumps := RefuseForward(env, base, done);
        assert ct == ct0 - {ck};
        return false, bumps;
      }
      fwd := fwd[fk := v];
      bumps := BumpStat(env.cpu, STAT_NEW_CONN, base, bumps);
      TwoBumps(done, STAT_SNAT_INSTALL, STAT_NEW_CONN);
      return true, bumps;
    }

    /**
     handle_request from the point where a backend is chosen up to the rewrite: allocate a port, install
     both entries.
     */
    method AllocateAndInstall(fe: Frontend, fk: FwdKey, svc: Service, backend: Backend, env: Env,
                              ghost s0: Tables, ghost base: Counters, ghost done: multiset<nat>)
      returns (installed: bool, ck: CtKey, ifindex: Word32, ghost bumps: multiset<nat>)
      requires State() == s0.(rr := RrAfterChoice(s0, fe, svc, env.rrFault)) && Counting(base, env.cpu, done)
      modifies this
      ensures ck == FreshKey(s0, svc, backend) && ifindex == EgressIfindex(s0.config, backend, fe)
      ensures var ctFits, fwdFits := UpdateFits(s0.ct, ck, MAX_CONNTRACK, env.ctFault),
              UpdateFits(s0.fwd, fk, MAX_CONNTRACK, env.fwdFault);
              && installed == (ctFits && fwdFits)
              && State() == Allocated(s0, fe, svc, env).(
                   ct := if !ctFits then s0.ct else if fwdFits then s0.ct[ck := CtEntry(fk, env.now)] else s0.ct - {ck},
                   fwd := if installed then s0.fwd[fk := Install(ck, ifindex)] else s0.fwd)
      ensures bumps == done + multiset{STAT_BACKEND_SELECTED} + InstallBumps(s0.ct, s0.fwd, ck, fk, env)
      ensures Counting(base, env.cpu, bumps)
    {
      hide Counting, RrAfterChoice, InstallBumps, UpdateFits;
      bumps := BumpStat(env.cpu, STAT_BACKEND_SELECTED, base, done);
      var port := AllocateSnatPort();
      ifindex := 0;
      if config.Some? {
        if backend.nodeIp == fe.address {
          ifindex := config.value.localDeliveryIfindex;
        } else {
          ifindex := config.value.remoteDeliveryIfindex;
        }
      }
      ck := CtKey(backend.address, svc.snatIp, backend.port, port, IPPROTO_TCP);
      installed, bumps := InstallEntries(ck, fk, Install(ck, ifindex), env, base, bumps);
    }

    /** handle_request from the point where a backend is chosen. */
    method InstallFlow(skb: array<Byte>, tcp: nat, t: Tuple, svc: Service, backend: Backend, env: Env,
                       ghost s0: Tables, ghost b0: seq<Byte>, ghost base: Counters, ghost done: multiset<nat>)
      returns (verdict: Verdict, ghost bumps: multiset<nat>)
      requires skb[..] == b0 && Packet.Parse(b0) == Some(tcp) && t == Packet.TupleAt(b0, tcp)
      requires FrontendOf(t) in s0.services && svc == s0.services[FrontendOf(t)]
      requires ChosenBackend(s0, FrontendOf(t), svc) == Some(backend)
      requires State() == s0.(rr := RrAfterChoice(s0, FrontendOf(t), svc, env.rrFault))
      requires Counting(base, env.cpu, done + multiset{STAT_NODEPORT_HIT, STAT_RR_UPDATE})
      modifies this, skb
      ensures Counting(base, env.cpu, bumps)
      ensures Reached(HandleNew(s0, t, env), verdict, b0, skb[..], tcp, env, done, bumps)
    {
      hide Counting, AfterRewrite, Packet.Parse, Packet.TupleAt, Packet.RewriteSucceeds, RrAfterChoice, ChosenBackend,
           TailBumps, TailVerdict, HandleNew, EgressIfindex, FreshKey, InstallBumps, UpdateFits;
      var fe, fk := FrontendOf(t), FwdKeyOf(t);
      NewWithBackend(s0, t, env, backend);
      var installed, ck, ifindex;
      installed, ck, ifindex, bumps := AllocateAndInstall(fe, fk, svc, backend, env, s0, base,
          done + multiset{STAT_NODEPORT_HIT, STAT_RR_UPDATE});
      ghost var installs := InstallBumps(s0.ct, s0.fwd, ck, fk, env);
      if !installed {
        RegroupNew(done, installs, multiset{});
        return Pass, bumps;
      }
      verdict, bumps := RewriteAndDeliver(skb, tcp, ToBackend(ck), ifindex, STAT_REQUEST_REWRITE, env, b0, base, bumps);
      RegroupNew(done, installs, TailBumps(Packet.RewriteSucceeds(t, ToBackend(ck), env.rewriteFault), ifindex,
          STAT_REQUEST_REWRITE));
    }

    /** handle_request on an installed frontend. */
    method TranslateRequest(skb: array<Byte>, tcp: nat, t: Tuple, env: Env,
                            ghost s0: Tables, ghost b0: seq<Byte>, ghost base: Counters, ghost done: multiset<nat>)
      returns (verdict: Verdict, ghost bumps: multiset<nat>)
      requires State() == s0 && skb[..] == b0 && Packet.Parse(b0) == Some(tcp) && t == Packet.TupleAt(b0, tcp)
      requires FrontendOf(t) in services && Counting(base, env.cpu, done)
      modifies this, skb
      ensures Counting(base, env.cpu, bumps)
      ensures Reached(HandleRequest(s0, t, env), verdict, b0, skb[..], tcp, env, done, bumps)
    {
      hide Counting, AfterRewrite, Packet.Parse, Packet.TupleAt, HandleForward, HandleNew, RrAfterChoice, ChosenBackend;
      var fe, fk := FrontendOf(t), FwdKeyOf(t);
      var svc := services[fe];
      bumps := BumpStat(env.cpu, STAT_NODEPORT_HIT, base, done);
      if fk in fwd {
        verdict, bumps := TranslateForward(skb, tcp, t, env, s0, b0, base, done);
        return;
      }
      var choice;
      choice, bumps := SelectBackend(fe, svc, env, base, bumps);
      if choice.None? {
        NewWithoutBackend(s0, t, env);
        bumps := CountNoBackend(env, base, done);
        return Pass, bumps;
      }
      TwoBumps(done, STAT_NODEPORT_HIT, STAT_RR_UPDATE);
      verdict, bumps := InstallFlow(skb, tcp, t, svc, choice.value, env, s0, b0, base, done);
    }

    /** nodeport_tc: one packet, atomically. */
    method HandlePacket(skb: array<Byte>, env: Env) returns (verdict: Verdict)
      requires CountersValid(stats) && env.cpu < |stats|
      modifies this, skb
      ensures CountersValid(stats) && |stats| == old(|stats|)
      ensures match old(Packet.Parse(skb[..]))
              case None => verdict == Pass && State() == old(State()) && stats == old(stats) && skb[..] == old(skb[..])
              case Some(tcp) =>
                && var o := PacketStep(old(State()), old(Packet.TupleAt(skb[..], tcp)), env);
                && verdict == o.verdict && State() == o.tables
                && stats == Bumped(old(stats), env.cpu, o.bumps)
                && skb[..] == FrameAfter(old(skb[..]), tcp, o, env)
    {
      hide Bumped, CountersValid, AfterRewrite, Packet.Parse, Packet.TupleAt, HandleReply, HandleForward, HandleNew,
           MissBumps;
      ghost var base, s0, b0 := stats, State(), skb[..];
      var parsed := Packet.Parse(skb[..]);
      if parsed.None? { return Pass; }
      var tcp := parsed.value;
      var t := Packet.TupleAt(skb[..], tcp);
      BumpNothing(stats, env.cpu);
      ghost var bumps := BumpStat(env.cpu, STAT_TCP_PACKETS, base, multiset{});
      if CtKeyOf(t) in ct {
        verdict, bumps := TranslateReply(skb, tcp, t, env, s0, b0, base, bumps);
      } else {
        bumps := CountMiss(t, env, base, bumps);
        if FrontendOf(t) in services {
          verdict, bumps := TranslateRequest(skb, tcp, t, env, s0, b0, base, bumps);
        } else {
          verdict := Pass;
        }
      }
      assert bumps == PacketStep(s0, t, env).bumps;
      BumpedValid(base, env.cpu, bumps);
    }
  }

  /** The frame after rewrite_tuple ran towards n, complete or cut short by a failing helper call. */
  ghost function AfterRewrite(b: seq<Byte>, tcp: nat, n: Tuple, env: Env): seq<Byte>
    requires 34 <= tcp && tcp + 20 <= |b|
  {
    if Packet.RewriteSucceeds(Packet.TupleAt(b, tcp), n, env.rewriteFault)
    then Packet.Rewritten(b, tcp, n, Packet.HELPERS)
    else Packet.Rewritten(b, tcp, n, env.rewriteFault)
  }

  /** The frame after a packet step with outcome o. */
  ghost function FrameAfter(b: seq<Byte>, tcp: nat, o: Outcome, env: Env): seq<Byte>
    requires 34 <= tcp && tcp + 20 <= |b|
  {
    if o.target.Some? then AfterRewrite(b, tcp, o.target.value, env) else b
  }
}
