/**
 Safety over runs in which the reaper's single deletes and packets interleave freely and SNAT
 ports may wrap: replies are only ever delivered to the client that was assigned the SNAT tuple.
 */
module History {
  import opened Net
  import opened Tables
  import opened Conntrack
  import opened Runs
  import opened Reaper

  /** The client of flow fk sent this packet, and it was assigned exactly the SNAT tuple ck. */
  predicate IsGrant(h: Handled, ck: CtKey, fk: FwdKey) {
    h.act.NewFlow? && h.act.ck == ck && h.act.fk == fk && FwdKeyOf(h.t) == fk
  }

  ghost predicate Granted(log: seq<Handled>, ck: CtKey, fk: FwdKey) {
    exists j :: 0 <= j < |log| && IsGrant(log[j], ck, fk)
  }

  ghost predicate EntriesGranted(s: Tables, log: seq<Handled>) {
    && (forall ck :: ck in s.ct ==> Granted(log, ck, FlowOf(ck, s.ct[ck])))
    && (forall fk :: fk in s.fwd ==> Granted(log, TrackOf(s.fwd[fk]), fk))
  }

  /** Whatever is translated under a flow was granted to that flow before. */
  ghost predicate TranslationsGranted(log: seq<Handled>) {
    forall i :: 0 <= i < |log| && (log[i].act.Reply? || log[i].act.Forward?) ==>
        Granted(log[..i], log[i].act.ck, log[i].act.fk)
  }

  lemma GrantedGrows(log: seq<Handled>, h: Handled, ck: CtKey, fk: FwdKey)
    requires Granted(log, ck, fk)
    ensures Granted(log + [h], ck, fk)
  {
    var j :| 0 <= j < |log| && IsGrant(log[j], ck, fk);
    assert (log + [h])[j] == log[j];
  }

  lemma PacketKeepsGrants(s: Tables, s': Tables, log: seq<Handled>, t: Tuple, a: Act, env: Env)
    requires EntriesGranted(s, log) && Shape(s, s', t, a, env)
    ensures EntriesGranted(s', log + [Handled(t, a)])
    ensures a.Reply? || a.Forward? ==> Granted(log, a.ck, a.fk)
  {
    hide Granted, ChosenBackend, NextPort, CursorAfter;
    var h := Handled(t, a);
    forall ck, fk | Granted(log, ck, fk) ensures Granted(log + [h], ck, fk) {
      GrantedGrows(log, h, ck, fk);
    }
    if a.NewFlow? {
      NewGrant(log, h);
    }
  }

  lemma NewGrant(log: seq<Handled>, h: Handled)
    requires h.act.NewFlow? && FwdKeyOf(h.t) == h.act.fk
    ensures Granted(log + [h], h.act.ck, h.act.fk)
  {
    assert (log + [h])[|log|] == h;
    assert IsGrant(h, h.act.ck, h.act.fk);
  }

  lemma StepKeepsGrants(w: World, e: Event)
    requires EntriesGranted(w.t, w.log) && TranslationsGranted(w.log)
    ensures EntriesGranted(Next(w, e).t, Next(w, e).log) && TranslationsGranted(Next(w, e).log)
  {
    hide Granted, PacketStep, Shape, StaleCt, StaleFwd;
    if e.Packet? {
      var o := PacketStep(w.t, e.t, e.env);
      PacketShape(w.t, e.t, e.env);
      PacketKeepsGrants(w.t, o.tables, w.log, e.t, o.act, e.env);
      var h := Handled(e.t, o.act);
      forall i | 0 <= i < |w.log| + 1 && ((w.log + [h])[i].act.Reply? || (w.log + [h])[i].act.Forward?)
        ensures Granted((w.log + [h])[..i], (w.log + [h])[i].act.ck, (w.log + [h])[i].act.fk)
      {
        assert (w.log + [h])[..i] == w.log[..i];
        assert i == |w.log| ==> w.log[..i] == w.log;
      }
    }
  }

  lemma {:induction false} GrantsOverRun(w: World, es: seq<Event>)
    requires EntriesGranted(w.t, w.log) && TranslationsGranted(w.log)
    ensures EntriesGranted(Run(w, es).t, Run(w, es).log) && TranslationsGranted(Run(w, es).log)
    decreases |es|
  {
    if es != [] {
      StepKeepsGrants(w, es[0]);
      GrantsOverRun(Next(w, es[0]), es[1..]);
    }
  }

  /**
   In every run from empty tables, with any interleaving of packets, control-plane writes and
   deletes: a reply that is rewritten towards the client of fk arrived from the backend of ck, and
   that client had sent a request before that was assigned ck.
   */
  lemma RepliesReachOnlyGrantedClients(w: World, es: seq<Event>, i: nat)
    requires Initial(w) && i < |Run(w, es).log| && Run(w, es).log[i].act.Reply?
    ensures var h := Run(w, es).log[i];
            Granted(Run(w, es).log[..i], h.act.ck, h.act.fk)
  {
    GrantsOverRun(w, es);
  }

  /** A reply is rewritten towards the client of its flow and nowhere else. */
  lemma ReplyTarget(s: Tables, t: Tuple, env: Env)
    ensures var o := PacketStep(s, t, env);
            o.act.Reply? ==> o.act.ck == CtKeyOf(t) && o.target == Some(ToClient(o.act.fk))
  {
    hide HandleNew, HandleForward, TailBumps, TailVerdict, MissBumps, UpdateFits;
    if CtKeyOf(t) !in s.ct {
      NotReply(s, t, env);
    }
  }

  lemma NotReply(s: Tables, t: Tuple, env: Env)
    ensures !HandleRequest(s, t, env).act.Reply?
  {
    hide TailBumps, TailVerdict, ChosenBackend, RrAfterChoice, EgressIfindex;
  }

  // --- Forward entries ----------------------------------------------------------------

  /** No event changes a forward entry: it stays as it is or disappears. */
  lemma ForwardEntryIsStable(w: World, e: Event, fk: FwdKey)
    requires fk in w.t.fwd && fk in Next(w, e).t.fwd
    ensures Next(w, e).t.fwd[fk] == w.t.fwd[fk]
  {
    hide StaleCt, StaleFwd, PacketStep, ChosenBackend, NextPort;
    if e.Packet? {
      PacketShape(w.t, e.t, e.env);
    }
  }

  ghost predicate PresentThroughout(w: World, es: seq<Event>, fk: FwdKey)
    decreases |es|
  {
    fk in w.t.fwd && (es == [] || PresentThroughout(Next(w, es[0]), es[1..], fk))
  }

  /** While it is present a flow keeps its backend and SNAT tuple, across any backend and round-robin changes. */
  lemma {:induction false} FlowKeepsItsBackend(w: World, es: seq<Event>, fk: FwdKey)
    requires PresentThroughout(w, es, fk)
    ensures fk in Run(w, es).t.fwd && Run(w, es).t.fwd[fk] == w.t.fwd[fk]
    decreases |es|
  {
    if es != [] {
      ForwardEntryIsStable(w, es[0], fk);
      FlowKeepsItsBackend(Next(w, es[0]), es[1..], fk);
    }
  }

  // --- Round trip ---------------------------------------------------------------------

  /** A request that goes through leaves towards the backend of the flow's tracked key. */
  lemma RequestTarget(s: Tables, t: Tuple, env: Env)
    requires PacketStep(s, t, env).act.Forward? || PacketStep(s, t, env).act.NewFlow?
    ensures var o := PacketStep(s, t, env);
            && o.act.fk == FwdKeyOf(t) && o.target == Some(ToBackend(o.act.ck))
            && o.act.fk in o.tables.fwd && TrackOf(o.tables.fwd[o.act.fk]) == o.act.ck
  {
    hide HandleReply, TailBumps, TailVerdict, MissBumps, UpdateFits, ChosenBackend, RrAfterChoice, EgressIfindex,
         NextPort, CursorAfter;
    if CtKeyOf(t) in s.ct {
      ReplyIsReply(s, t, env);
    }
  }

  lemma ReplyIsReply(s: Tables, t: Tuple, env: Env)
    requires CtKeyOf(t) in s.ct
    ensures HandleReply(s, t, env).act.Reply?
  {
  }

  /**
   NAT round trip: translate a request, let any events pass that do not delete the flow, then
   process the reverse of the translated packet: the result is the exact reverse of the request.
   */
  lemma RoundTrip(w: World, c0: Option<Word32>, t: Tuple, env: Env, es: seq<Event>, env2: Env)
    requires Good(w, c0)
    requires var o := PacketStep(w.t, t, env); o.act.Forward? || o.act.NewFlow?
    requires TimelyRun(w, [Packet(t, env)] + es)
    requires PresentThroughout(Next(w, Packet(t, env)), es, FwdKeyOf(t))
    ensures var o := PacketStep(w.t, t, env);
            var later := Run(Next(w, Packet(t, env)), es).t;
            && o.target.Some?
            && var back := PacketStep(later, o.target.value.Reverse(), env2);
            && back.act.Reply? && back.act.fk == FwdKeyOf(t) && back.target == Some(t.Reverse())
  {
    var e := Packet(t, env);
    var w1 := Next(w, e);
    assert ([e] + es)[0] == e && ([e] + es)[1..] == es;
    RequestTarget(w.t, t, env);
    var o := PacketStep(w.t, t, env);
    GoodRuns(w, c0, [e] + es);
    var w2 := Run(w1, es);
    FlowKeepsItsBackend(w1, es, o.act.fk);
    var r := o.target.value.Reverse();
    assert Inverse(w2.t);
    assert w2.t.fwd[o.act.fk] == w1.t.fwd[o.act.fk];
    assert CtKeyOf(r) == CtKey(o.act.ck.backendIp, o.act.ck.nodeIp, o.act.ck.backendPort, o.act.ck.snatPort,
        IPPROTO_TCP);
    assert o.act.ck.proto == IPPROTO_TCP;
    assert CtKeyOf(r) == o.act.ck;
    ReplyOnTracked(w2.t, r, env2);
  }

  /** The round trip holds from every state that a timely run from empty tables reaches. */
  lemma RoundTripOnEveryRun(w0: World, es0: seq<Event>, t: Tuple, env: Env, es: seq<Event>, env2: Env)
    requires Initial(w0) && TimelyRun(w0, es0)
    requires var o := PacketStep(Run(w0, es0).t, t, env); o.act.Forward? || o.act.NewFlow?
    requires TimelyRun(Run(w0, es0), [Packet(t, env)] + es)
    requires PresentThroughout(Next(Run(w0, es0), Packet(t, env)), es, FwdKeyOf(t))
    ensures var w := Run(w0, es0);
            var o := PacketStep(w.t, t, env);
            var later := Run(Next(w, Packet(t, env)), es).t;
            && o.target.Some?
            && var back := PacketStep(later, o.target.value.Reverse(), env2);
            && back.act.Reply? && back.act.fk == FwdKeyOf(t) && back.target == Some(t.Reverse())
  {
    hide Good, Initial, TimelyRun, PacketStep, Next, PresentThroughout, Run;
    InitialIsGood(w0);
    GoodRuns(w0, w0.t.snatCursor, es0);
    RoundTrip(Run(w0, es0), w0.t.snatCursor, t, env, es, env2);
  }

  lemma InitialIsGood(w: World)
    requires Initial(w)
    ensures Good(w, w.t.snatCursor)
  {
  }

  lemma ReplyOnTracked(s: Tables, t: Tuple, env: Env)
    requires CtKeyOf(t) in s.ct
    ensures var o := PacketStep(s, t, env);
            o.act.Reply? && o.act.fk == FlowOf(CtKeyOf(t), s.ct[CtKeyOf(t)]) && o.target == Some(ToClient(o.act.fk))
  {
    hide UpdateFits, TailBumps, TailVerdict;
  }

  // --- Interfaces ---------------------------------------------------------------------

  function Leaves(ok: bool, ifindex: Word32): Verdict {
    if ok && ifindex > 0 then Redirect(ifindex) else Pass
  }

  /** A new flow to a backend on the frontend's own node leaves by the local interface, else by the remote one. */
  lemma NewFlowInterface(s: Tables, t: Tuple, env: Env)
    requires PacketStep(s, t, env).act.NewFlow?
    ensures var o := PacketStep(s, t, env);
            FrontendOf(t) in s.services && ChosenBackend(s, FrontendOf(t), s.services[FrontendOf(t)]).Some? &&
            var b := ChosenBackend(s, FrontendOf(t), s.services[FrontendOf(t)]).value;
            var ifindex := if s.config.None? then 0
                           else if b.nodeIp == t.daddr then s.config.value.localDeliveryIfindex
                           else s.config.value.remoteDeliveryIfindex;
            && o.act.fk in o.tables.fwd && o.tables.fwd[o.act.fk].egressIfindex == ifindex
            && o.verdict == Leaves(o.act.ok, ifindex)
  {
    hide TailBumps, MissBumps, UpdateFits, ChosenBackend, RrAfterChoice, NextPort, CursorAfter, HandleReply;
    if CtKeyOf(t) in s.ct { ReplyIsReply(s, t, env); }
  }

  /** Later packets of a flow leave by the interface stored with it, replies by the external one; all else passes. */
  lemma OtherInterfaces(s: Tables, t: Tuple, env: Env)
    ensures var o := PacketStep(s, t, env);
            match o.act
            case Forward(_, fk, ok) => fk in s.fwd && o.verdict == Leaves(ok, s.fwd[fk].egressIfindex)
            case Reply(_, _, ok) => o.verdict ==
                Leaves(ok, if s.config.Some? then s.config.value.externalIfindex else 0)
            case NewFlow(_, _, _) => true
            case _ => o.verdict == Pass
  {
    hide TailBumps, MissBumps, UpdateFits, ChosenBackend, RrAfterChoice, NextPort, CursorAfter, EgressIfindex;
  }

  /** Every request of a flow leaves by the interface that was chosen when the flow was opened. */
  lemma FlowKeepsItsInterface(w: World, t: Tuple, env: Env, es: seq<Event>, env2: Env)
    requires PacketStep(w.t, t, env).act.NewFlow? && PacketStep(w.t, t, env).act.ok
    requires PresentThroughout(Next(w, Packet(t, env)), es, FwdKeyOf(t))
    ensures var later := PacketStep(Run(Next(w, Packet(t, env)), es).t, t, env2);
            later.act.Forward? && later.act.ok ==> later.verdict == PacketStep(w.t, t, env).verdict
  {
    var w1 := Next(w, Packet(t, env));
    RequestTarget(w.t, t, env);
    NewFlowInterface(w.t, t, env);
    hide PacketStep, Run, ChosenBackend, PresentThroughout;
    FlowKeepsItsBackend(w1, es, FwdKeyOf(t));
    var s2 := Run(w1, es).t;
    OtherInterfaces(s2, t, env2);
    if PacketStep(s2, t, env2).act.Forward? { RequestTarget(s2, t, env2); }
  }
}
