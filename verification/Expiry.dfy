/**
 What a reap removes, over whole runs: the code ignores a failing refresh of a conntrack entry, so
 a flow's age counts from the latest packet whose refresh went through.
 */
module Expiry {
  import opened Net
  import opened Tables
  import opened Conntrack
  import opened Reaper
  import opened Runs
  import opened History

  /** The packet belongs to a flow: a reply, a request of a known flow, or one that opens it. */
  predicate OfFlow(a: Act) {
    a.Reply? || a.Forward? || a.NewFlow?
  }

  /** The time of each flow's latest packet, in either direction, whose conntrack update went through. */
  function RefreshedBy(m: map<FwdKey, Word64>, w: World, e: Event): map<FwdKey, Word64> {
    if e.Packet? && !e.env.ctFault && OfFlow(PacketStep(w.t, e.t, e.env).act)
    then m[PacketStep(w.t, e.t, e.env).act.fk := e.env.now]
    else m
  }

  function Refreshed(m: map<FwdKey, Word64>, w: World, es: seq<Event>): map<FwdKey, Word64>
    decreases |es|
  {
    if es == [] then m else Refreshed(RefreshedBy(m, w, es[0]), Next(w, es[0]), es[1..])
  }

  /** Every flow's time stamp is the recorded time. */
  ghost predicate Stamped(s: Tables, m: map<FwdKey, Word64>) {
    forall fk :: fk in s.fwd && TrackOf(s.fwd[fk]) in s.ct ==> fk in m && s.ct[TrackOf(s.fwd[fk])].lastSeen == m[fk]
  }

  lemma PacketKeepsStamps(s: Tables, s': Tables, m: map<FwdKey, Word64>, t: Tuple, a: Act, env: Env)
    requires Inverse(s) && Inverse(s') && Stamped(s, m) && Shape(s, s', t, a, env)
    ensures Stamped(s', if !env.ctFault && OfFlow(a) then m[a.fk := env.now] else m)
  {
    hide ChosenBackend, NextPort, CursorAfter, FreshKey;
  }

  lemma StepKeepsStamps(w: World, m: map<FwdKey, Word64>, e: Event)
    requires Inverse(w.t) && Inverse(Next(w, e).t) && Stamped(w.t, m)
    ensures Stamped(Next(w, e).t, RefreshedBy(m, w, e))
  {
    hide PacketStep, Shape, StaleCt, StaleFwd, Inverse;
    if e.Packet? {
      hide Stamped;
      PacketShape(w.t, e.t, e.env);
      var o := PacketStep(w.t, e.t, e.env);
      PacketKeepsStamps(w.t, o.tables, m, e.t, o.act, e.env);
    }
  }

  lemma {:induction false} StampsOverRun(w: World, c0: Option<Word32>, m: map<FwdKey, Word64>, es: seq<Event>)
    requires Good(w, c0) && TimelyRun(w, es) && Stamped(w.t, m)
    ensures Stamped(Run(w, es).t, Refreshed(m, w, es))
    decreases |es|
  {
    if es != [] {
      GoodStep(w, c0, es[0]);
      hide Good, Timely, Next, Stamped, RefreshedBy;
      GoodIsInverse(w, c0);
      GoodIsInverse(Next(w, es[0]), c0);
      StepKeepsStamps(w, m, es[0]);
      StampsOverRun(Next(w, es[0]), c0, RefreshedBy(m, w, es[0]), es[1..]);
    }
  }

  lemma GoodStep(w: World, c0: Option<Word32>, e: Event)
    requires Good(w, c0) && Timely(w, e)
    ensures Good(Next(w, e), c0)
  {
    hide Good, Timely, Next;
    GoodRuns(w, c0, [e]) by { assert [e][1..] == []; }
    assert Run(w, [e]) == Next(w, e) by { assert [e][1..] == []; }
  }

  lemma GoodIsInverse(w: World, c0: Option<Word32>)
    requires Good(w, c0)
    ensures Inverse(w.t)
  {
  }

  lemma StampDecides(s: Tables, m: map<FwdKey, Word64>, now: Word64, timeout: Word64, fk: FwdKey)
    requires Inverse(s) && Stamped(s, m) && fk in s.fwd
    ensures fk in m
    ensures var aged := timeout > 0 && m[fk] + timeout < now;
            && (fk !in Reaped(s, now, timeout).fwd <==> aged)
            && (TrackOf(s.fwd[fk]) !in Reaped(s, now, timeout).ct <==> aged)
  {
    StaleFlowsMatch(s, now, timeout);
    hide StaleFwd;
    assert TrackOf(s.fwd[fk]) in s.ct;
  }

  /**
   On every timely run from empty tables, whatever fails: an uninterrupted reap at time `now`
   removes a flow, from both tables, exactly when more than the timeout has passed since the
   latest packet of either direction whose refresh went through.
   */
  lemma ReapRemovesIff(w: World, es: seq<Event>, now: Word64, timeout: Word64, fk: FwdKey)
    requires Initial(w) && TimelyRun(w, es) && fk in Run(w, es).t.fwd
    ensures var v, refreshed := Run(w, es).t, Refreshed(map[], w, es);
            && fk in refreshed
            && var aged := timeout > 0 && refreshed[fk] + timeout < now;
            && (fk !in Reaped(v, now, timeout).fwd <==> aged)
            && (TrackOf(v.fwd[fk]) !in Reaped(v, now, timeout).ct <==> aged)
  {
    InitialIsGood(w);
    InitialIsStamped(w);
    hide Run, TimelyRun, Good, Initial, Reaped, Stamped, Refreshed;
    GoodRuns(w, w.t.snatCursor, es);
    StampsOverRun(w, w.t.snatCursor, map[], es);
    GoodIsInverse(Run(w, es), w.t.snatCursor);
    StampDecides(Run(w, es).t, Refreshed(map[], w, es), now, timeout, fk);
  }

  lemma InitialIsStamped(w: World)
    requires Initial(w)
    ensures Stamped(w.t, map[])
  {
  }

  /**
   Where the refresh of the flow's latest packet went through, the reap removes the flow exactly
   when neither direction has had a packet for more than the timeout.
   */
  lemma ReapRemovesExactlyIdleFlows(w: World, es: seq<Event>, now: Word64, timeout: Word64, fk: FwdKey)
    requires Initial(w) && TimelyRun(w, es) && fk in Run(w, es).t.fwd
    requires fk in Refreshed(map[], w, es) && fk in Run(w, es).seen
    requires Refreshed(map[], w, es)[fk] == Run(w, es).seen[fk]
    ensures var v := Run(w, es);
            var idle := timeout > 0 && v.seen[fk] + timeout < now;
            && (fk !in Reaped(v.t, now, timeout).fwd <==> idle)
            && (TrackOf(v.t.fwd[fk]) !in Reaped(v.t, now, timeout).ct <==> idle)
  {
    ReapRemovesIff(w, es, now, timeout, fk);
    hide Run, Refreshed, Reaped, TimelyRun, Initial;
  }

  /** No conntrack refresh of the run fails. */
  ghost predicate RefreshesSucceed(w: World, es: seq<Event>)
    decreases |es|
  {
    es != [] ==>
      && (es[0].Packet? && OfFlow(PacketStep(w.t, es[0].t, es[0].env).act) ==> !es[0].env.ctFault)
      && RefreshesSucceed(Next(w, es[0]), es[1..])
  }

  /** Without failing refreshes every flow's latest packet is the one its age counts from. */
  lemma {:induction false} RefreshedIsSeen(w: World, es: seq<Event>)
    requires RefreshesSucceed(w, es)
    ensures Refreshed(w.seen, w, es) == Run(w, es).seen
    decreases |es|
  {
    if es != [] {
      SeenStep(w, es[0]);
      hide Next, PacketStep, RefreshedBy;
      RefreshedIsSeen(Next(w, es[0]), es[1..]);
    }
  }

  lemma SeenStep(w: World, e: Event)
    requires e.Packet? && OfFlow(PacketStep(w.t, e.t, e.env).act) ==> !e.env.ctFault
    ensures RefreshedBy(w.seen, w, e) == Next(w, e).seen
  {
    hide PacketStep, StaleCt, StaleFwd;
  }
}
