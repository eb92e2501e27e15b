/**
 What the code does not prevent, on concrete inputs: runs from empty tables after which a flow is
 reaped although it is in use, an active flow loses its forward entry, a port is handed out while
 in use, or a backend is selected twice in a row; and first reconciles over maps of an earlier
 process that keep a row or a cursor.
 */
module Witnesses {
  import opened Net
  import opened Tables
  import opened Conntrack
  import opened Reaper
  import opened Cycle
  import opened Runs
  import opened Listing
  import opened Reconciler
  import opened Rebuild
  import opened RoundRobin

  // --- One packet on a path that is known --------------------------------------------------

  lemma Opens(s: Tables, t: Tuple, env: Env, b: Backend)
    requires CtKeyOf(t) !in s.ct && FrontendOf(t) in s.services && FwdKeyOf(t) !in s.fwd
    requires ChosenBackend(s, FrontendOf(t), s.services[FrontendOf(t)]) == Some(b)
    ensures var o, ck, fk := PacketStep(s, t, env), FreshKey(s, s.services[FrontendOf(t)], b), FwdKeyOf(t);
            if !UpdateFits(s.ct, ck, MAX_CONNTRACK, env.ctFault) then
              && o.act == CtRefused(ck, fk)
              && o.tables == Allocated(s, FrontendOf(t), s.services[FrontendOf(t)], env)
            else UpdateFits(s.fwd, fk, MAX_CONNTRACK, env.fwdFault) ==>
              && o.act.NewFlow? && o.act.ck == ck && o.act.fk == fk
              && o.tables == Allocated(s, FrontendOf(t), s.services[FrontendOf(t)], env).(
                               ct := s.ct[ck := CtEntry(fk, env.now)],
                               fwd := s.fwd[fk := Install(ck, EgressIfindex(s.config, b, FrontendOf(t)))])
  {
    hide HandleNew, Allocated, UpdateFits, ChosenBackend, FreshKey, EgressIfindex, TailBumps, MissBumps, D.InstallBumps;
    D.NewWithBackend(s, t, env, b);
  }

  lemma Forwards(s: Tables, t: Tuple, env: Env)
    requires CtKeyOf(t) !in s.ct && FrontendOf(t) in s.services && FwdKeyOf(t) in s.fwd
    ensures var o, fk := PacketStep(s, t, env), FwdKeyOf(t);
            && o.act.Forward? && o.act.fk == fk
            && o.tables == s.(ct := Updated(s.ct, TrackOf(s.fwd[fk]), CtEntry(fk, env.now), MAX_CONNTRACK, env.ctFault))
  {
    hide TailBumps, TailVerdict, MissBumps, UpdateFits;
  }

  // --- The sample network --------------------------------------------------------------

  const FRONTEND := Frontend(1, 80, IPPROTO_TCP)
  const BACKEND := Backend(2, 8080, 1)

  /** One service with one backend, nothing tracked, a freshly loaded cursor cell. */
  function Sample(): Tables {
    Tables(map[FRONTEND := Service(1, 0, 3)], map[BackendKey(FRONTEND, 0) := BACKEND], map[], map[], map[], Some(0),
        None)
  }

  function Start(): World {
    World(Sample(), [], 0, map[], map[], multiset{}, 0, 0)
  }

  /** A request of one of two clients. */
  function Request(client: Addr): Tuple {
    Tuple(client, 1, 5, 80)
  }

  function Track(port: Port): CtKey {
    CtKey(2, 3, 8080, port, IPPROTO_TCP)
  }

  /** A packet at a given time; with a fault its conntrack update fails. */
  function Sent(client: Addr, now: Word64, fault: bool): Event {
    Event.Packet(Request(client), Env(now, 0, fault, false, false, -1))
  }

  /** The sample network with other conntrack tables and another cursor. */
  ghost predicate OnSample(s: Tables) {
    && s.services == Sample().services && s.backends == Sample().backends
    && (FRONTEND in s.rr ==> s.rr[FRONTEND] == 0)
    && forall ck :: ck in s.ct ==> ck.snatPort >= SNAT_MIN
  }

  /** The only backend is chosen, and the cursor stays at its slot. */
  lemma SampleChoice(s: Tables, fault: bool)
    requires OnSample(s)
    ensures FRONTEND in s.services && ChosenBackend(s, FRONTEND, s.services[FRONTEND]) == Some(BACKEND)
    ensures var rr := RrAfterChoice(s, FRONTEND, s.services[FRONTEND], fault);
            FRONTEND in rr ==> rr[FRONTEND] == 0
    ensures FreshKey(s, s.services[FRONTEND], BACKEND) == Track(NextPort(s.snatCursor))
  {
    hide NextPort;
  }

  /** On the sample network a client without forward entry opens a flow on the next port, or only uses the port up. */
  lemma ClientOpens(s: Tables, client: Addr, now: Word64, fault: bool)
    requires OnSample(s) && FwdKeyOf(Request(client)) !in s.fwd && |s.ct| < MAX_CONNTRACK && |s.fwd| < MAX_CONNTRACK
    ensures var fk, ck := FwdKeyOf(Request(client)), Track(NextPort(s.snatCursor));
            var e := Sent(client, now, fault);
            var o := PacketStep(s, e.t, e.env);
            && OnSample(o.tables) && o.tables.snatCursor == Some(CursorAfter(NextPort(s.snatCursor)))
            && (if fault then o.act == CtRefused(ck, fk) && o.tables.ct == s.ct && o.tables.fwd == s.fwd
                else
                  && o.act.NewFlow? && o.act.ck == ck && o.act.fk == fk
                  && o.tables.ct == s.ct[ck := CtEntry(fk, now)]
                  && fk in o.tables.fwd && TrackOf(o.tables.fwd[fk]) == ck &&
                      o.tables.fwd == s.fwd[fk := o.tables.fwd[fk]])
  {
    hide PacketStep, NextPort, CursorAfter, EgressIfindex, ChosenBackend, RrAfterChoice, FreshKey, Sample;
    var t, env := Request(client), Env(now, 0, fault, false, false, -1);
    assert FrontendOf(t) == FRONTEND && t.dport == 80;
    assert CtKeyOf(t) !in s.ct;
    SampleChoice(s, env.rrFault);
    Opens(s, t, env, BACKEND);
  }

  /** And with a forward entry, its conntrack entry is refreshed, or put back. */
  lemma ClientForwards(s: Tables, client: Addr, now: Word64, fault: bool)
    requires OnSample(s) && FwdKeyOf(Request(client)) in s.fwd && |s.ct| < MAX_CONNTRACK
    requires TrackOf(s.fwd[FwdKeyOf(Request(client))]).snatPort >= SNAT_MIN
    ensures var fk := FwdKeyOf(Request(client));
            var e := Sent(client, now, fault);
            var o := PacketStep(s, e.t, e.env);
            && OnSample(o.tables) && o.act.Forward? && o.act.fk == fk
            && o.tables == s.(ct := if fault then s.ct else s.ct[TrackOf(s.fwd[fk]) := CtEntry(fk, now)])
  {
    var t, env := Request(client), Env(now, 0, fault, false, false, -1);
    assert FrontendOf(t) == FRONTEND && t.dport == 80;
    assert CtKeyOf(t) !in s.ct;
    Forwards(s, t, env);
    hide PacketStep;
  }

  lemma StartIsInitial()
    ensures Initial(Start()) && OnSample(Start().t) && NextPort(Start().t.snatCursor) == SNAT_MIN
  {
  }

  lemma RunStep(w: World, e: Event, es: seq<Event>)
    ensures Run(w, [e] + es) == Run(Next(w, e), es)
  {
    assert ([e] + es)[0] == e && ([e] + es)[1..] == es;
  }

  lemma RunNothing(w: World)
    ensures Run(w, []) == w
  {
  }

  // --- A failed refresh ------------------------------------------------------------------

  /** A flow opens at time 0 and sends again at time 100, but that refresh fails. */
  function FailedRefresh(): seq<Event> {
    [Sent(4, 0, false)] + ([Sent(4, 100, true)] + [])
  }

  /** A reap at time 100 with timeout 50 removes the flow that just sent a packet. */
  lemma FailedRefreshLosesFlow()
    ensures var v, fk := Run(Start(), FailedRefresh()), FwdKeyOf(Request(4));
            && Initial(Start()) && fk in v.t.fwd && fk in v.seen && v.seen[fk] == 100
            && fk !in Reaped(v.t, 100, 50).fwd && TrackOf(v.t.fwd[fk]) !in Reaped(v.t, 100, 50).ct
  {
    var w0, e1, e2 := Start(), Sent(4, 0, false), Sent(4, 100, true);
    StartIsInitial();
    var w1 := Next(w0, e1);
    var w2 := Next(w1, e2);
    RunStep(w0, e1, [e2] + []);
    RunStep(w1, e2, []);
    RunNothing(w2);
    ClientOpens(w0.t, 4, 0, false);
    ClientForwards(w1.t, 4, 100, true);
    hide PacketStep, OnSample, NextPort, Initial, Run;
    var fk, ck := FwdKeyOf(Request(4)), Track(SNAT_MIN);
    assert w2.t.ct == map[ck := CtEntry(fk, 0)] && TrackOf(w2.t.fwd[fk]) == ck;
    assert ck in StaleCt(w2.t.ct, 100, 50) && FlowOf(ck, w2.t.ct[ck]) == fk;
  }

  // --- A busy flow without forward entry -----------------------------------------------

  /**
   A reap that packets interrupt: it planned to delete flow and entry, and deletes the entry; the
   client's next packet puts it back; the reap deletes the forward entry; the client's next packet
   opens the flow again, on another port.
   */
  function InterruptedReap(): seq<Event> {
    var fk := FwdKeyOf(Request(4));
    [Sent(4, 0, false)] + ([DropCt(Track(SNAT_MIN))] +
        ([Sent(4, 100, false)] + ([DropFwd(fk)] + ([Sent(4, 200, false)] + []))))
  }

  /** Only client 4 has flows: these conntrack entries, this forward entry if any, this port next. */
  ghost predicate At(s: Tables, ct: map<CtKey, CtValue>, track: Option<CtKey>, next: Port) {
    && OnSample(s) && s.ct == ct && NextPort(s.snatCursor) == next && |ct| < 3
    && (if track.None? then s.fwd == map[]
        else s.fwd.Keys == {FwdKeyOf(Request(4))} && TrackOf(s.fwd[FwdKeyOf(Request(4))]) == track.value)
  }

  lemma OpenAt(w: World, ct: map<CtKey, CtValue>, next: Port, now: Word64)
    requires At(w.t, ct, None, next) && SNAT_MIN <= next < SNAT_MAX && |ct| < 2
    ensures var ct' := ct[Track(next) := CtEntry(FwdKeyOf(Request(4)), now)];
            At(Next(w, Sent(4, now, false)).t, ct', Some(Track(next)), next + 1)
  {
    hide PacketStep, OnSample, Track, FwdKeyOf, NextPort, Sample;
    assert w.t.fwd == map[];
    ClientOpens(w.t, 4, now, false);
    SizeAfterPut(ct, Track(next), CtEntry(FwdKeyOf(Request(4)), now));
    NextPortUp(w.t.snatCursor);
    hide CursorAfter;
  }

  lemma SizeAfterPut<K, V>(m: map<K, V>, k: K, v: V)
    ensures |m[k := v]| <= |m| + 1
  {
    assert m[k := v].Keys == m.Keys + {k};
    assert |m[k := v].Keys| == |m[k := v]| && |m.Keys| == |m|;
  }

  lemma NextPortUp(cursor: Option<Word32>)
    requires NextPort(cursor) < SNAT_MAX
    ensures NextPort(Some(CursorAfter(NextPort(cursor)))) == NextPort(cursor) + 1
  {
  }

  lemma ForwardAt(w: World, ct: map<CtKey, CtValue>, track: CtKey, next: Port, now: Word64)
    requires At(w.t, ct, Some(track), next) && track.snatPort >= SNAT_MIN && |ct| < 2
    ensures At(Next(w, Sent(4, now, false)).t, ct[track := CtEntry(FwdKeyOf(Request(4)), now)], Some(track), next)
  {
    ClientForwards(w.t, 4, now, false);
    hide PacketStep, OnSample, NextPort;
  }

  lemma DropsAt(w: World, ct: map<CtKey, CtValue>, track: CtKey, next: Port)
    requires At(w.t, ct, Some(track), next)
    ensures |ct - {track}| <= |ct| ==> At(Next(w, DropCt(track)).t, ct - {track}, Some(track), next)
    ensures At(Next(w, DropFwd(FwdKeyOf(Request(4)))).t, ct, None, next)
  {
    hide NextPort;
  }

  lemma InterruptedReapTables()
    ensures var fk, s := FwdKeyOf(Request(4)), Run(Start(), InterruptedReap()).t;
            && s.ct == map[Track(SNAT_MIN) := CtEntry(fk, 100), Track(SNAT_MIN + 1) := CtEntry(fk, 200)]
            && fk in s.fwd && TrackOf(s.fwd[fk]) == Track(SNAT_MIN + 1)
  {
    hide PacketStep, OnSample, NextPort, CursorAfter, Next, Sample, Track, FwdKeyOf, Run;
    var fk, ck, ck2 := FwdKeyOf(Request(4)), Track(SNAT_MIN), Track(SNAT_MIN + 1);
    var w0, e1, e2, e3, e4, e5 := Start(), Sent(4, 0, false), DropCt(ck), Sent(4, 100, false), DropFwd(fk),
        Sent(4, 200, false);
    var w1 := Next(w0, e1);
    var w2 := Next(w1, e2);
    var w3 := Next(w2, e3);
    var w4 := Next(w3, e4);
    var w5 := Next(w4, e5);
    assert Run(w0, InterruptedReap()) == w5 by {
      RunStep(w0, e1, [e2] + ([e3] + ([e4] + ([e5] + []))));
      RunStep(w1, e2, [e3] + ([e4] + ([e5] + [])));
      RunStep(w2, e3, [e4] + ([e5] + []));
      RunStep(w3, e4, [e5] + []);
      RunStep(w4, e5, []);
      RunNothing(w5);
    }
    hide InterruptedReap;
    StartsAt();
    OpenAt(w0, map[], SNAT_MIN, 0);
    DropsAt(w1, map[ck := CtEntry(fk, 0)], ck, SNAT_MIN + 1);
    assert map[ck := CtEntry(fk, 0)] - {ck} == map[];
    PortsOfTracks();
    ForwardAt(w2, map[], ck, SNAT_MIN + 1, 100);
    DropsAt(w3, map[ck := CtEntry(fk, 100)], ck, SNAT_MIN + 1);
    OpenAt(w4, map[ck := CtEntry(fk, 100)], SNAT_MIN + 1, 200);
  }

  lemma StartsAt()
    ensures At(Start().t, map[], None, SNAT_MIN)
  {
    StartIsInitial();
  }

  lemma PortsOfTracks()
    ensures Track(SNAT_MIN).snatPort == SNAT_MIN && Track(SNAT_MIN) != Track(SNAT_MIN + 1)
  {
  }

  /** A later reap removes the forward entry of the flow, although its entry on the new port is busy and stays. */
  lemma ReapDropsBusyFlow()
    ensures var s, fk := Run(Start(), InterruptedReap()).t, FwdKeyOf(Request(4));
            && Initial(Start()) && fk in s.fwd && fk in ActiveFlows(s.ct, 260, 100)
            && TrackOf(s.fwd[fk]) in Reaped(s, 260, 100).ct && fk !in Reaped(s, 260, 100).fwd
  {
    hide Run, InterruptedReap;
    StartIsInitial();
    InterruptedReapTables();
    var s, fk := Run(Start(), InterruptedReap()).t, FwdKeyOf(Request(4));
    var idle, busy := Track(SNAT_MIN), Track(SNAT_MIN + 1);
    assert FlowOf(busy, s.ct[busy]) == fk && busy in s.ct.Keys - StaleCt(s.ct, 260, 100);
    assert FlowOf(idle, s.ct[idle]) == fk && idle in StaleCt(s.ct, 260, 100);
  }

  // --- A port handed out twice ---------------------------------------------------------

  /** n requests whose conntrack updates fail: each uses a port up. */
  function Refused(n: nat): seq<Event> {
    if n == 0 then [] else [Sent(6, 0, true)] + Refused(n - 1)
  }

  /** One client opens a flow, the other uses up the remaining ports of the range and then opens one as well. */
  function WrappedPorts(): seq<Event> {
    [Sent(4, 0, false)] + (Refused(SNAT_PORTS - 1) + [Sent(6, 0, false)])
  }

  lemma {:induction false} RefusedRun(w: World, n: nat, c0: Option<Word32>, k: nat)
    requires OnSample(w.t) && NextPort(w.t.snatCursor) == PortAt(c0, k) && FwdKeyOf(Request(6)) !in w.t.fwd
    requires |w.t.ct| < MAX_CONNTRACK && |w.t.fwd| < MAX_CONNTRACK
    ensures var v := Run(w, Refused(n)).t;
            && OnSample(v) && v.ct == w.t.ct && v.fwd == w.t.fwd && NextPort(v.snatCursor) == PortAt(c0, k + n)
    decreases n
  {
    hide PacketStep, OnSample, NextPort, CursorAfter, PortAt, Run;
    if n == 0 {
      RunNothing(w);
    } else {
      var e := Sent(6, 0, true);
      ClientOpens(w.t, 6, 0, true);
      PortAtStep(c0, k);
      RunStep(w, e, Refused(n - 1));
      RefusedRun(Next(w, e), n - 1, c0, k + 1);
    }
  }

  /** The second client gets the port of the first, which is still in use: the tables are not inverse. */
  lemma WrappedPortsBreakInverse()
    ensures Initial(Start()) && !Inverse(Run(Start(), WrappedPorts()).t)
  {
    hide PacketStep, OnSample, NextPort, CursorAfter, Next, Sample, FwdKeyOf, Run, PortAt, Refused, At;
    var w0, e1, e2 := Start(), Sent(4, 0, false), Sent(6, 0, false);
    var w1 := Next(w0, e1);
    var w2 := Run(w1, Refused(SNAT_PORTS - 1));
    var w3 := Next(w2, e2);
    StartIsInitial();
    RunStep(w0, e1, Refused(SNAT_PORTS - 1) + [e2]);
    RunConcat(w1, Refused(SNAT_PORTS - 1), e2);
    assert Run(w0, WrappedPorts()) == w3;
    FirstFlow(w0, w1);
    RefusedRun(w1, SNAT_PORTS - 1, w0.t.snatCursor, 1);
    BackAtStart(w0.t.snatCursor);
    SecondFlow(w2, w3);
  }

  lemma {:induction false} RunConcat(w: World, es: seq<Event>, e: Event)
    ensures Run(w, es + [e]) == Next(Run(w, es), e)
    decreases |es|
  {
    hide Next;
    if es == [] {
      assert es + [e] == [e] + [];
      RunStep(w, e, []);
    } else {
      RunConcat(Next(w, es[0]), es[1..], e);
      assert (es + [e])[1..] == es[1..] + [e];
    }
  }

  lemma BackAtStart(c: Option<Word32>)
    ensures PortAt(c, SNAT_PORTS) == NextPort(c)
  {
  }

  lemma FirstFlow(w0: World, w1: World)
    requires w0 == Start() && w1 == Next(w0, Sent(4, 0, false))
    ensures OnSample(w1.t) && NextPort(w1.t.snatCursor) == PortAt(w0.t.snatCursor, 1)
    ensures w1.t.ct.Keys == {Track(SNAT_MIN)} && w1.t.fwd.Keys == {FwdKeyOf(Request(4))}
    ensures TrackOf(w1.t.fwd[FwdKeyOf(Request(4))]) == Track(SNAT_MIN)
    ensures |w1.t.ct| == |w1.t.fwd| == 1 && FwdKeyOf(Request(6)) !in w1.t.fwd
  {
    StartIsInitial();
    ClientOpens(w0.t, 4, 0, false);
    PortAtStart(w0.t.snatCursor);
    PortAtStep(w0.t.snatCursor, 0);
    hide PacketStep, OnSample, PortAt;
    assert |w1.t.ct| == |w1.t.ct.Keys| && |w1.t.fwd| == |w1.t.fwd.Keys|;
  }

  lemma SecondFlow(w2: World, w3: World)
    requires w3 == Next(w2, Sent(6, 0, false)) && OnSample(w2.t) && NextPort(w2.t.snatCursor) == SNAT_MIN
    requires |w2.t.ct| == |w2.t.fwd| == 1 && w2.t.fwd.Keys == {FwdKeyOf(Request(4))}
    requires TrackOf(w2.t.fwd[FwdKeyOf(Request(4))]) == Track(SNAT_MIN)
    ensures !Inverse(w3.t)
  {
    ClientOpens(w2.t, 6, 0, false);
    hide PacketStep, OnSample, NextPort;
    var one, two := FwdKeyOf(Request(4)), FwdKeyOf(Request(6));
    assert one in w3.t.fwd && TrackOf(w3.t.fwd[one]) == Track(SNAT_MIN);
    assert FlowOf(Track(SNAT_MIN), w3.t.ct[Track(SNAT_MIN)]) == two != one;
  }

  // --- A cursor update that is refused ---------------------------------------------------

  const OTHER := Backend(7, 8080, 1)

  /** The sample network with a second backend. */
  function Twin(): World {
    Start().(t := Sample().(services := map[FRONTEND := Service(2, 0, 3)],
                            backends := map[BackendKey(FRONTEND, 0) := BACKEND, BackendKey(FRONTEND, 1) := OTHER]))
  }

  /** A request whose cursor update goes through or not. */
  function Asks(client: Addr, rrFault: bool): Event {
    Event.Packet(Request(client), Env(0, 0, false, false, rrFault, -1))
  }

  /** Two backends, no cursor stored, room for more flows. */
  ghost predicate OnTwin(s: Tables) {
    && s.services == Twin().t.services && s.backends == Twin().t.backends && s.rr == map[]
    && (forall ck :: ck in s.ct ==> ck.snatPort >= SNAT_MIN)
    && |s.ct| < 2 && |s.fwd| < 2
  }

  lemma TwinChoice(s: Tables)
    requires OnTwin(s)
    ensures FRONTEND in s.services && s.services[FRONTEND].backendCount == 2
    ensures ChosenBackend(s, FRONTEND, s.services[FRONTEND]) == Some(BACKEND)
    ensures RrAfterChoice(s, FRONTEND, s.services[FRONTEND], true) == map[]
    ensures FreshKey(s, s.services[FRONTEND], BACKEND) == Track(NextPort(s.snatCursor))
  {
    hide NextPort;
  }

  /** A request of a new client goes to the first backend. */
  lemma AskSelects(s: Tables, client: Addr, rrFault: bool)
    requires OnTwin(s) && FwdKeyOf(Request(client)) !in s.fwd
    ensures var e := Asks(client, rrFault);
            var o := PacketStep(s, e.t, e.env);
            && o.act.NewFlow? && o.act.ck == Track(NextPort(s.snatCursor)) && o.act.fk == FwdKeyOf(e.t)
            && o.tables.ct == s.ct[o.act.ck := CtEntry(o.act.fk, 0)] && o.act.fk in o.tables.fwd
            && o.tables.fwd == s.fwd[o.act.fk := o.tables.fwd[o.act.fk]]
            && o.tables.services == s.services && o.tables.backends == s.backends && (rrFault ==> o.tables.rr == map[])
  {
    var t, env := Request(client), Env(0, 0, false, false, rrFault, -1);
    assert FrontendOf(t) == FRONTEND && t.dport == 80;
    assert CtKeyOf(t) !in s.ct;
    TwinChoice(s);
    hide PacketStep, NextPort, CursorAfter, EgressIfindex, ChosenBackend, RrAfterChoice, FreshKey, Twin, OnTwin;
    Opens(s, t, env, BACKEND);
  }

  lemma TwinAfterAsk(s: Tables, r: Tables, ck: CtKey, fk: FwdKey, v: FwdValue)
    requires OnTwin(s) && s.ct == map[] && s.fwd == map[] && ck.snatPort >= SNAT_MIN
    requires r.ct == s.ct[ck := CtEntry(fk, 0)] && r.fwd == s.fwd[fk := v] && r.rr == map[]
    requires r.services == s.services && r.backends == s.backends
    ensures OnTwin(r) && r.fwd.Keys == {fk}
  {
    hide Twin;
    assert |r.ct| == |r.ct.Keys| == |{ck}| && |r.fwd| == |r.fwd.Keys| == |{fk}|;
  }

  lemma TwinIsInitial()
    ensures Initial(Twin()) && OnTwin(Twin().t) && Twin().t.ct == map[] && Twin().t.fwd == map[]
    ensures NextPort(Twin().t.snatCursor) == SNAT_MIN && Serves(Twin().t, FRONTEND, 2)
  {
    StartIsInitial();
  }

  /** Of two backends the first is selected twice in a row, because the first cursor update is refused. */
  lemma RefusedUpdateRepeatsSlot()
    ensures var w0, e1, e2 := Twin(), Asks(4, true), Asks(6, false);
            var w1 := Next(w0, e1);
            var a1, a2 := PacketStep(w0.t, e1.t, e1.env).act, PacketStep(w1.t, e2.t, e2.env).act;
            && Initial(w0) && Serves(w0.t, FRONTEND, 2) && Serves(w1.t, FRONTEND, 2)
            && Selects(w0, e1, FRONTEND) && Selects(w1, e2, FRONTEND) && a1.NewFlow? && a2.NewFlow?
            && a1.ck.backendIp == a2.ck.backendIp == BACKEND.address
  {
    hide PacketStep, NextPort, OnTwin, Twin;
    var w0, e1, e2 := Twin(), Asks(4, true), Asks(6, false);
    var w1 := Next(w0, e1);
    var o := PacketStep(w0.t, e1.t, e1.env);
    TwinIsInitial();
    AskSelects(w0.t, 4, true);
    TwinAfterAsk(w0.t, o.tables, o.act.ck, o.act.fk, o.tables.fwd[o.act.fk]);
    assert FwdKeyOf(Request(6)) !in o.tables.fwd;
    AskSelects(w1.t, 6, false);
  }

  // --- Maps of an earlier process --------------------------------------------------------

  const ID := ServiceID("default", "web", 80)

  /** One entry with one backend. */
  function OneEntry(): Entries {
    map[ID := Entry(ID, 1, 3, [EntryBackend(2, 8080, 1)])]
  }

  lemma OneEntryIsFirst()
    ensures WellFormed(OneEntry()) && FrontendFor(OneEntry()[ID]) == FRONTEND && |OneEntry()[ID].backends| == 1
    ensures Worklists(map[], OneEntry(), [], [ID]) && Covers(OneEntry(), [ID])
  {
    assert ChangedIds(map[], OneEntry()) == {ID};
    assert Elements([ID]) == {ID};
    assert Elements([]) == RemovedIds(map[], OneEntry());
  }

  /** A second slot of the frontend outlives the first reconcile. */
  lemma OldSlotStays()
    ensures var s := Sample().(services := map[], backends := map[BackendKey(FRONTEND, 1) := OTHER]);
            WellFormed(OneEntry()) && Covers(OneEntry(), [ID])
            && !IsImage(OneEntry(), ApplyAll(s, Plan(map[], OneEntry(), [], [ID])))
  {
    var s := Sample().(services := map[], backends := map[BackendKey(FRONTEND, 1) := OTHER]);
    OneEntryIsFirst();
    hide OneEntry, WellFormed, Worklists, Covers, Plan, ApplyAll, IsImage;
    FirstReconcileIff(OneEntry(), s, [ID]);
    assert BackendKey(FRONTEND, 1) in RowsOf(s).slots;
    assert forall id :: HasSlot(OneEntry(), id, BackendKey(FRONTEND, 1)) ==> id == ID by { hide *; OnlyOne(); }
  }

  lemma OnlyOne()
    ensures OneEntry().Keys == {ID}
  {
  }

  /** An old cursor of the frontend outlives it as well, beyond the only backend. */
  lemma OldCursorStays()
    ensures var s := Sample().(services := map[], backends := map[], rr := map[FRONTEND := 1]);
            WellFormed(OneEntry()) && Covers(OneEntry(), [ID])
            && !CursorFits(ApplyAll(s, Plan(map[], OneEntry(), [], [ID])), FRONTEND)
  {
    var s := Sample().(services := map[], backends := map[], rr := map[FRONTEND := 1]);
    OneEntryIsFirst();
    OnlyOne();
    hide OneEntry, WellFormed, Worklists, Covers, Plan, ApplyAll, CursorFits;
    FirstCursorsIff(OneEntry(), s, [ID]);
    assert ID in OneEntry();
  }
}
