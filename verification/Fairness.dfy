/**
 Fairness of the load balancing, told by the backends that flows get: while a frontend's rows stay,
 each of its backends is given its share of the flows.
 */
module Fairness {
  import opened Net
  import opened Tables
  import opened Conntrack
  import opened Runs
  import opened RoundRobin
  import opened PacketMeaning

  /** Frontend fe is installed with exactly these backends, by slot. */
  ghost predicate Installed(s: Tables, fe: Frontend, rows: seq<Backend>) {
    && fe in s.services && s.services[fe].backendCount == |rows|
    && forall j: Word32 :: j < |rows| ==> BackendKey(fe, j) in s.backends && s.backends[BackendKey(fe, j)] == rows[j]
  }

  /** The packet is assigned a backend of fe. */
  predicate Assigned(w: World, e: Event, fe: Frontend) {
    e.Packet? && fe == Frontend(e.t.daddr, e.t.dport, 6) && Allocates(PacketStep(w.t, e.t, e.env).act)
  }

  /** It is assigned the backend with this address and port. */
  predicate GoesTo(w: World, e: Event, fe: Frontend, b: Backend) {
    && Assigned(w, e, fe)
    && var ck := PacketStep(w.t, e.t, e.env).act.ck;
    && ck.backendIp == b.address && ck.backendPort == b.port
  }

  function CountAssigned(w: World, es: seq<Event>, fe: Frontend): nat
    decreases |es|
  {
    if es == [] then 0 else One(Assigned(w, es[0], fe)) + CountAssigned(Next(w, es[0]), es[1..], fe)
  }

  function CountTo(w: World, es: seq<Event>, fe: Frontend, b: Backend): nat
    decreases |es|
  {
    if es == [] then 0 else One(GoesTo(w, es[0], fe, b)) + CountTo(Next(w, es[0]), es[1..], fe, b)
  }

  /**
   Throughout the run the frontend has these backends, its cursor is not reset, and the cursor
   updates of its own flows go through. Anything else may happen.
   */
  ghost predicate Lasting(w: World, es: seq<Event>, fe: Frontend, rows: seq<Backend>)
    decreases |es|
  {
    && Installed(w.t, fe, rows)
    && (es != [] ==>
          && es[0] != Control(DelRr(fe))
          && (Assigned(w, es[0], fe) ==> !es[0].env.rrFault && (fe in w.t.rr || |w.t.rr| < 512))
          && Lasting(Next(w, es[0]), es[1..], fe, rows))
  }

  /** No two of the backends have the same address and port. */
  ghost predicate Apart(rows: seq<Backend>) {
    forall i, j :: 0 <= i < j < |rows| ==> rows[i].address != rows[j].address || rows[i].port != rows[j].port
  }

  lemma {:induction false} LastingIsSteady(w: World, es: seq<Event>, fe: Frontend, rows: seq<Backend>)
    requires |rows| < 0x1_0000_0000 && Lasting(w, es, fe, rows)
    ensures Steady(w, es, fe, |rows|)
    decreases |es|
  {
    hide PacketStep, Next;
    if es != [] {
      LastingIsSteady(Next(w, es[0]), es[1..], fe, rows);
      hide Steady, Lasting;
      assert Selects(w, es[0], fe) ==> Assigned(w, es[0], fe);
    }
  }

  /** A packet goes to the backend in slot j exactly when the cursor stands at j. */
  lemma GoesToSlot(w: World, e: Event, fe: Frontend, rows: seq<Backend>, j: Word32)
    requires Installed(w.t, fe, rows) && Apart(rows) && j < |rows| < 0x1_0000_0000
    ensures GoesTo(w, e, fe, rows[j]) <==> Selects(w, e, fe) && CurrentSlot(w.t.rr, fe, |rows|) == j
    ensures Assigned(w, e, fe) <==> Selects(w, e, fe)
  {
    hide PacketStep;
    if Assigned(w, e, fe) {
      SelectionReadsCursorSlot(w.t, e.t, e.env);
      var slot := Turn(w.t, fe).slot;
      assert slot < |rows| && CurrentSlot(w.t.rr, fe, |rows|) == slot;
      assert w.t.backends[BackendKey(fe, slot)] == rows[slot];
    }
  }

  lemma {:induction false} CountsAgree(w: World, es: seq<Event>, fe: Frontend, rows: seq<Backend>, j: Word32)
    requires Lasting(w, es, fe, rows) && Apart(rows) && j < |rows| < 0x1_0000_0000
    ensures CountTo(w, es, fe, rows[j]) == Picks(w, es, fe, |rows|, j)
    ensures CountAssigned(w, es, fe) == Selections(w, es, fe)
    decreases |es|
  {
    hide Next, GoesTo, Assigned, Selects, CurrentSlot, Installed, Apart;
    if es != [] {
      GoesToSlot(w, es[0], fe, rows, j);
      CountsAgree(Next(w, es[0]), es[1..], fe, rows, j);
      hide Lasting;
    }
  }

  /**
   Over any stretch of a run in which a frontend keeps its n backends: of m flows that are assigned
   one, each backend's address and port gets floor(m / n) or ceil(m / n).
   */
  lemma FlowsAreFair(w: World, es: seq<Event>, fe: Frontend, rows: seq<Backend>, j: Word32)
    requires Lasting(w, es, fe, rows) && Apart(rows) && j < |rows| < 0x1_0000_0000
    ensures var m, n := CountAssigned(w, es, fe), |rows|;
            m / n <= CountTo(w, es, fe, rows[j]) <= m / n + (if m % n == 0 then 0 else 1)
  {
    LastingIsSteady(w, es, fe, rows);
    CountsAgree(w, es, fe, rows, j);
    hide Lasting, Steady;
    SelectionsAreFair(w, es, fe, |rows|, j);
  }
}
