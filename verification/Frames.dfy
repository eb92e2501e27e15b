/** The packet steps seen on the wire: what the frames hold when a step translates, and at the next hook. */
module Frames {
  import opened Net
  import opened Tables
  import opened Packet
  import opened Rewrite
  import opened PartialRewrite
  import opened Placement
  import opened Runs
  import opened History
  import D = Datapath

  /** The step's rewrite went through. */
  predicate Rewrote(s: Tables, t: Tuple, env: Env) {
    var o := PacketStep(s, t, env);
    o.target.Some? && RewriteSucceeds(t, o.target.value, env.rewriteFault)
  }

  /** The frame as it leaves one packet step. */
  ghost function FrameOut(s: Tables, b: seq<Byte>, env: Env): seq<Byte>
    requires Parse(b).Some?
  {
    D.FrameAfter(b, Parse(b).value, PacketStep(s, TupleAt(b, Parse(b).value), env), env)
  }

  /**
   A step without a target leaves the frame alone; a step whose rewrite goes through leaves a frame
   of the same layout that carries exactly the target and is valid where the old one was.
   */
  lemma TranslatedFrame(s: Tables, b: seq<Byte>, env: Env)
    requires Parse(b).Some?
    ensures var t, r := TupleAt(b, Parse(b).value), FrameOut(s, b, env);
            && (PacketStep(s, t, env).target.None? ==> r == b)
            && (Rewrote(s, t, env) ==>
                && Parse(r) == Parse(b) && TupleAt(r, Parse(b).value) == PacketStep(s, t, env).target.value
                && SameElsewhere(b, r, Parse(b).value)
                && (IpChecksumValid(r) <==> IpChecksumValid(b)) && (TcpChecksumValid(r) <==> TcpChecksumValid(b)))
  {
    var tcp := Parse(b).value;
    var t := TupleAt(b, tcp);
    var o := PacketStep(s, t, env);
    hide PacketStep, Parse, TupleAt, IpChecksumValid, TcpChecksumValid, SameElsewhere, Rewritten, RewriteSucceeds;
    if o.target.Some? {
      RewriteReparses(b, o.target.value);
      RewriteKeepsIpChecksum(b, o.target.value);
      RewriteKeepsTcpChecksum(b, o.target.value);
    }
  }

  /** A step whose rewrite is cut short passes on a frame that is valid only if what is pending cancels out. */
  lemma CutShortFrame(s: Tables, b: seq<Byte>, env: Env)
    requires Parse(b).Some? && !Rewrote(s, TupleAt(b, Parse(b).value), env)
    requires PacketStep(s, TupleAt(b, Parse(b).value), env).target.Some?
    ensures var t, r, k := TupleAt(b, Parse(b).value), FrameOut(s, b, env), env.rewriteFault;
            var n := PacketStep(s, t, env).target.value;
            && PacketStep(s, t, env).verdict == Pass && 0 <= k < HELPERS
            && TupleAt(r, Parse(b).value) == TupleAfter(k, t, n)
            && (IpChecksumValid(b) ==> (IpChecksumValid(r) <==> IpPending(k, t, n) % 0xFFFF == 0))
            && (TcpChecksumValid(b) ==> (TcpChecksumValid(r) <==> TcpPending(k, t, n) % 0xFFFF == 0))
  {
    var tcp := Parse(b).value;
    var t := TupleAt(b, tcp);
    CutShortPasses(s, t, env);
    var n := PacketStep(s, t, env).target.value;
    hide PacketStep, Parse, TupleAt, IpChecksumValid, TcpChecksumValid, Rewritten, TupleAfter, IpPending, TcpPending;
    RewriteFrame(b, tcp, n, env.rewriteFault);
    if IpChecksumValid(b) { PartialRewriteIpIff(b, n, env.rewriteFault); }
    if TcpChecksumValid(b) { PartialRewriteTcpIff(b, n, env.rewriteFault); }
  }

  lemma CutShortPasses(s: Tables, t: Tuple, env: Env)
    requires PacketStep(s, t, env).target.Some? && !Rewrote(s, t, env)
    ensures PacketStep(s, t, env).verdict == Pass
  {
  }

  /**
   With a disjoint address plan a translated frame passes every later hook byte for byte, whatever
   events come in between, and the tables stay as they are.
   */
  lemma SecondHookLeavesFrame(w: World, b: seq<Byte>, env: Env, es: seq<Event>, env2: Env, plan: AddressPlan)
    requires Parse(b).Some? && Placed(w.t, plan) && plan.Disjoint()
    requires var t := TupleAt(b, Parse(b).value);
             EventFollows(Event.Packet(t, env), plan) && Rewrote(w.t, t, env)
    requires forall i :: 0 <= i < |es| ==> EventFollows(es[i], plan)
    ensures var t, r := TupleAt(b, Parse(b).value), FrameOut(w.t, b, env);
            var later := Run(Next(w, Event.Packet(t, env)), es).t;
            && Parse(r) == Parse(b) && EventFollows(Event.Packet(TupleAt(r, Parse(r).value), env2), plan)
            && FrameOut(later, r, env2) == r && PacketStep(later, TupleAt(r, Parse(r).value), env2).tables == later
  {
    TranslatedFrame(w.t, b, env);
    TranslatedPacketIsFixedPoint(w, TupleAt(b, Parse(b).value), env, es, env2, plan);
    hide PacketStep, Parse, TupleAt, IpChecksumValid, TcpChecksumValid, SameElsewhere, RewriteSucceeds, Placed,
         D.AfterRewrite, Next, Run, ClientsApart;
  }

  /**
   The round trip on the wire: a frame b opens or continues a flow, the backend answers the
   translated frame with a frame c, and the client gets c with exactly the reverse of b's tuple.
   */
  lemma ReplyFrameReachesClient(w: World, c0: Option<Word32>, b: seq<Byte>, env: Env, es: seq<Event>, c: seq<Byte>,
                                env2: Env)
    requires Good(w, c0) && Parse(b).Some? && Parse(c).Some?
    requires var t := TupleAt(b, Parse(b).value);
             && (PacketStep(w.t, t, env).act.Forward? || PacketStep(w.t, t, env).act.NewFlow?) && Rewrote(w.t, t, env)
             && TimelyRun(w, [Event.Packet(t, env)] + es) &&
                 PresentThroughout(Next(w, Event.Packet(t, env)), es, FwdKeyOf(t))
    requires var out := FrameOut(w.t, b, env);
             Parse(out).Some? && TupleAt(c, Parse(c).value) == TupleAt(out, Parse(out).value).Reverse()
    ensures var t := TupleAt(b, Parse(b).value);
            var later := Run(Next(w, Event.Packet(t, env)), es).t;
            Rewrote(later, TupleAt(c, Parse(c).value), env2) ==>
            var back := FrameOut(later, c, env2);
            && Parse(back) == Parse(c) && TupleAt(back, Parse(c).value) == t.Reverse()
            && (IpChecksumValid(back) <==> IpChecksumValid(c)) && (TcpChecksumValid(back) <==> TcpChecksumValid(c))
  {
    hide PacketStep, Parse, TupleAt, IpChecksumValid, TcpChecksumValid, SameElsewhere, RewriteSucceeds, Good,
         TimelyRun, PresentThroughout,
         Next, Run, D.FrameAfter;
    var t := TupleAt(b, Parse(b).value);
    TranslatedFrame(w.t, b, env);
    RoundTrip(w, c0, t, env, es, env2);
    TranslatedFrame(Run(Next(w, Event.Packet(t, env)), es).t, c, env2);
  }
}
