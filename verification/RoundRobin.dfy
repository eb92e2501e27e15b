/**
 The round-robin cursors, shared by the packet program and the reconciler: they stay below the
 backend counts across reconciles with packets in between, and selections are fair.
 */
module RoundRobin {
  import opened Net
  import opened Tables
  import opened Conntrack
  import opened Cycle
  import opened Runs
  import opened Listing
  import opened Reconciler
  import opened Rebuild
  import opened Reaper

  /** Every cursor belongs to an installed frontend and is below its backend count. */
  ghost predicate CursorsFit(s: Tables) {
    forall fe :: fe in s.rr ==> fe in s.services && s.rr[fe] < s.services[fe].backendCount
  }

  /** The same for one frontend. */
  ghost predicate CursorFits(s: Tables, fe: Frontend) {
    fe in s.rr ==> fe in s.services && s.rr[fe] < s.services[fe].backendCount
  }

  // --- What a packet does to the cursors ----------------------------------------------

  lemma PacketCursors(s: Tables, t: Tuple, env: Env)
    ensures var o := PacketStep(s, t, env);
            if Allocates(o.act) then
              && FrontendOf(t) in s.services
              && var svc := s.services[FrontendOf(t)];
              && svc.backendCount > 0
              && o.tables.rr == Updated(s.rr, FrontendOf(t),
                  NextSlot(CurrentSlot(s.rr, FrontendOf(t), svc.backendCount), svc.backendCount), MAX_SERVICES,
                  env.rrFault)
            else o.tables.rr == s.rr
    ensures PacketStep(s, t, env).tables.services == s.services && PacketStep(s, t, env).tables.backends == s.backends
  {
    PacketShape(s, t, env);
    hide TailBumps, TailVerdict, MissBumps, UpdateFits, HandleNew, NextSlot, CurrentSlot, NextPort, CursorAfter;
    if CtKeyOf(t) !in s.ct && FrontendOf(t) in s.services && FwdKeyOf(t) !in s.fwd {
      NewCursors(s, t, env);
    }
  }

  lemma NewCursors(s: Tables, t: Tuple, env: Env)
    requires FrontendOf(t) in s.services
    ensures var o := HandleNew(s, t, env);
            var svc := s.services[FrontendOf(t)];
            if Allocates(o.act) then
              svc.backendCount > 0 &&
              o.tables.rr == Updated(s.rr, FrontendOf(t),
                  NextSlot(CurrentSlot(s.rr, FrontendOf(t), svc.backendCount), svc.backendCount), MAX_SERVICES,
                  env.rrFault)
            else o.tables.rr == s.rr
  {
    hide HandleNew, TailBumps, TailVerdict, UpdateFits, NextSlot, CurrentSlot, EgressIfindex, NextPort, CursorAfter,
         FreshKey, D.InstallBumps, Updated;
    var svc := s.services[FrontendOf(t)];
    var choice := ChosenBackend(s, FrontendOf(t), svc);
    if choice.None? { D.NewWithoutBackend(s, t, env); } else { D.NewWithBackend(s, t, env, choice.value); }
  }

  // --- Fairness -----------------------------------------------------------------------

  /** The packet selects a backend of frontend fe. */
  predicate Selects(w: World, e: Event, fe: Frontend) {
    e.Packet? && FrontendOf(e.t) == fe && Allocates(PacketStep(w.t, e.t, e.env).act)
  }

  /** How many packets of a run select a backend of fe. */
  function Selections(w: World, es: seq<Event>, fe: Frontend): nat
    decreases |es|
  {
    if es == [] then 0 else (if Selects(w, es[0], fe) then 1 else 0) + Selections(Next(w, es[0]), es[1..], fe)
  }

  /** How many of them pick slot j. */
  function Picks(w: World, es: seq<Event>, fe: Frontend, n: Word32, j: Word32): nat
    decreases |es|
  {
    if es == [] then 0
    else
      var first := if Selects(w, es[0], fe) && CurrentSlot(w.t.rr, fe, n) == j then 1 else 0;
      first + Picks(Next(w, es[0]), es[1..], fe, n, j)
  }

  /** The operation installs, removes or resets frontend fe. */
  predicate Relevant(op: ControlOp, fe: Frontend) {
    (op.PutService? && op.fe == fe) || (op.DelService? && op.fe == fe) || (op.DelRr? && op.fe == fe)
  }

  /** The event does not reset the cursor of fe, and if it selects a backend of fe its cursor update goes through. */
  predicate KeepsCursor(w: World, e: Event, fe: Frontend) {
    && e != Control(DelRr(fe))
    && (Selects(w, e, fe) ==> UpdateFits(w.t.rr, fe, MAX_SERVICES, e.env.rrFault))
  }

  ghost predicate Serves(s: Tables, fe: Frontend, n: Word32) {
    fe in s.services && s.services[fe].backendCount == n
  }

  /** Throughout the run frontend fe is installed with n backends and keeps its cursor. Anything else may happen. */
  ghost predicate Steady(w: World, es: seq<Event>, fe: Frontend, n: Word32)
    decreases |es|
  {
    && Serves(w.t, fe, n)
    && (es == [] || (KeepsCursor(w, es[0], fe) && Steady(Next(w, es[0]), es[1..], fe, n)))
  }

  /** A selection that goes through moves the cursor of its frontend one slot on and leaves the other cursors alone. */
  lemma CursorMoves(s: Tables, r: Tables, fe: Frontend, n: Word32, fe2: Frontend, n2: Word32, fault: bool)
    requires n > 0 && n2 > 0 && (fe2 == fe ==> n2 == n && UpdateFits(s.rr, fe, MAX_SERVICES, fault))
    requires r.rr == Updated(s.rr, fe2, NextSlot(CurrentSlot(s.rr, fe2, n2), n2), MAX_SERVICES, fault)
    ensures CurrentSlot(r.rr, fe, n) ==
            if fe2 == fe then NextSlot(CurrentSlot(s.rr, fe, n), n) else CurrentSlot(s.rr, fe, n)
  {
  }

  lemma SteadyStep(w: World, e: Event, fe: Frontend, n: Word32)
    requires n > 0 && Serves(w.t, fe, n) && KeepsCursor(w, e, fe)
    ensures CurrentSlot(Next(w, e).t.rr, fe, n) ==
            if Selects(w, e, fe) then NextSlot(CurrentSlot(w.t.rr, fe, n), n) else CurrentSlot(w.t.rr, fe, n)
  {
    hide PacketStep, Allocates, NextSlot, Updated, StaleCt, StaleFwd, UpdateFits;
    if e.Packet? {
      hide CurrentSlot;
      PacketCursors(w.t, e.t, e.env);
      var o, fe2 := PacketStep(w.t, e.t, e.env), FrontendOf(e.t);
      if Allocates(o.act) {
        CursorMoves(w.t, o.tables, fe, n, fe2, w.t.services[fe2].backendCount, e.env.rrFault);
      }
    }
  }

  /**
   Among several backends, a selection moves the cursor on exactly when its update goes through; else
   the slot repeats.
   */
  lemma CursorMovesIff(w: World, e: Event, fe: Frontend, n: Word32)
    requires n > 1 && Serves(w.t, fe, n) && Selects(w, e, fe)
    ensures var slot, after := CurrentSlot(w.t.rr, fe, n), CurrentSlot(Next(w, e).t.rr, fe, n);
            && (after == NextSlot(slot, n) <==> UpdateFits(w.t.rr, fe, MAX_SERVICES, e.env.rrFault))
            && (after == slot <==> !UpdateFits(w.t.rr, fe, MAX_SERVICES, e.env.rrFault))
  {
    hide PacketStep, Allocates, UpdateFits, CurrentSlot;
    if UpdateFits(w.t.rr, fe, MAX_SERVICES, e.env.rrFault) {
      SteadyStep(w, e, fe, n);
    } else {
      PacketCursors(w.t, e.t, e.env);
    }
  }

  /** The first event of a run, on both sides of the correspondence. */
  lemma FirstPick(w: World, es: seq<Event>, fe: Frontend, n: Word32, j: Word32, slot: Word32, slot2: Word32)
    requires es != [] && slot < n && slot == CurrentSlot(w.t.rr, fe, n)
    requires slot2 == if Selects(w, es[0], fe) then NextSlot(slot, n) else slot
    requires Picks(Next(w, es[0]), es[1..], fe, n, j) == Hits(slot2, n, Selections(Next(w, es[0]), es[1..], fe), j)
    ensures Picks(w, es, fe, n, j) == Hits(slot, n, Selections(w, es, fe), j)
  {
    hide Next, Selects, CurrentSlot, NextSlot;
  }

  lemma {:induction false} PicksFollowTheCursor(w: World, es: seq<Event>, fe: Frontend, n: Word32, j: Word32)
    requires n > 0 && Steady(w, es, fe, n)
    ensures Picks(w, es, fe, n, j) == Hits(CurrentSlot(w.t.rr, fe, n), n, Selections(w, es, fe), j)
    decreases |es|
  {
    hide Next, Selects, NextSlot, KeepsCursor, Serves;
    if es != [] {
      hide Picks, Hits, Selections;
      var w2 := Next(w, es[0]);
      SteadyStep(w, es[0], fe, n);
      PicksFollowTheCursor(w2, es[1..], fe, n, j);
      FirstPick(w, es, fe, n, j, CurrentSlot(w.t.rr, fe, n), CurrentSlot(w2.t.rr, fe, n));
    }
  }

  /**
   Over any stretch of a run in which a frontend keeps n backends, every backend slot is picked
   floor(m / n) or ceil(m / n) times in m selections, whatever happens to packets, other services,
   conntrack entries and backend rows in between.
   */
  lemma SelectionsAreFair(w: World, es: seq<Event>, fe: Frontend, n: Word32, j: Word32)
    requires j < n && Steady(w, es, fe, n)
    ensures var m := Selections(w, es, fe);
            m / n <= Picks(w, es, fe, n, j) <= m / n + (if m % n == 0 then 0 else 1)
  {
    PicksFollowTheCursor(w, es, fe, n, j);
    RoundRobinIsFair(CurrentSlot(w.t.rr, fe, n), n, Selections(w, es, fe), j);
  }

  /** Control-plane writes that do not install, remove or reset fe keep it steady. */
  ghost predicate Elsewhere(w: World, es: seq<Event>, fe: Frontend)
    decreases |es|
  {
    es != [] ==>
      && (es[0].Control? ==> !Relevant(es[0].op, fe))
      && (Selects(w, es[0], fe) ==> UpdateFits(w.t.rr, fe, MAX_SERVICES, es[0].env.rrFault))
      && Elsewhere(Next(w, es[0]), es[1..], fe)
  }

  lemma {:induction false} ElsewhereIsSteady(w: World, es: seq<Event>, fe: Frontend, n: Word32)
    requires Serves(w.t, fe, n) && Elsewhere(w, es, fe)
    ensures Steady(w, es, fe, n)
    decreases |es|
  {
    if es != [] {
      IrrelevantKeepsRow(w, es[0], fe, n);
      hide Next, Selects, Serves;
      ElsewhereIsSteady(Next(w, es[0]), es[1..], fe, n);
    }
  }

  lemma IrrelevantKeepsRow(w: World, e: Event, fe: Frontend, n: Word32)
    requires Serves(w.t, fe, n) && (e.Control? ==> !Relevant(e.op, fe))
    ensures Serves(Next(w, e).t, fe, n)
  {
    hide PacketStep, StaleCt, StaleFwd;
    if e.Packet? { PacketCursors(w.t, e.t, e.env); }
  }

  /** When the cursors fit, the cursor map has room for every installed frontend, so only a fault refuses an update. */
  lemma RoomForCursor(s: Tables, fe: Frontend, fault: bool)
    requires CursorsFit(s) && |s.services| <= MAX_SERVICES && fe in s.services
    ensures UpdateFits(s.rr, fe, MAX_SERVICES, fault) <==> !fault
  {
    if fe !in s.rr {
      assert s.rr.Keys <= s.services.Keys - {fe};
      SubsetSize(s.rr.Keys, s.services.Keys - {fe});
    }
  }

  lemma {:induction false} SubsetSize<T>(a: set<T>, b: set<T>)
    requires a <= b
    ensures |a| <= |b|
  {
    if a != {} {
      var x :| x in a;
      SubsetSize(a - {x}, b - {x});
    }
  }

  // --- Cursors across reconciles ------------------------------------------------------

  predicate Untouched(ops: seq<ControlOp>, fe: Frontend) {
    forall i :: 0 <= i < |ops| ==> !Relevant(ops[i], fe)
  }

  /** The first operation on fe resets its cursor. */
  predicate CursorReset(ops: seq<ControlOp>, fe: Frontend) {
    ops != [] && if Relevant(ops[0], fe) then ops[0] == DelRr(fe) else CursorReset(ops[1..], fe)
  }

  /** The first operation on fe removes its row, the next one resets its cursor. */
  predicate FullReset(ops: seq<ControlOp>, fe: Frontend) {
    ops != [] && if Relevant(ops[0], fe) then ops[0] == DelService(fe) && CursorReset(ops[1..], fe)
        else FullReset(ops[1..], fe)
  }

  /** A frontend that gets installed is left alone afterwards, and with at least one backend. */
  ghost predicate PutsFinal(ops: seq<ControlOp>) {
    forall i :: 0 <= i < |ops| && ops[i].PutService? ==> Untouched(ops[i + 1..], ops[i].fe)
  }

  /** The cursor of a frontend is in order, given the operations still to come. */
  ghost predicate CursorInOrder(s: Tables, ops: seq<ControlOp>, fe: Frontend) {
    && (fe in s.services ==> FullReset(ops, fe) || Untouched(ops, fe))
    && (fe in s.rr && fe !in s.services ==> CursorReset(ops, fe))
    && (fe in s.rr && fe in s.services ==> s.rr[fe] < s.services[fe].backendCount)
  }

  /** The cursor is in order, and installations are final. */
  ghost predicate InOrder(s: Tables, ops: seq<ControlOp>, fe: Frontend) {
    PutsFinal(ops) && CursorInOrder(s, ops, fe)
  }

  lemma PutsFinalTail(ops: seq<ControlOp>)
    requires ops != [] && PutsFinal(ops)
    ensures PutsFinal(ops[1..]) && (ops[0].PutService? ==> Untouched(ops[1..], ops[0].fe))
  {
    hide Untouched;
    var rest := ops[1..];
    assert forall i :: 0 <= i < |rest| ==> rest[i] == ops[i + 1] && rest[i + 1..] == ops[i + 1 + 1..];
    assert ops[0 + 1..] == rest;
  }

  lemma OpKeepsCursor(s: Tables, ops: seq<ControlOp>, fe: Frontend)
    requires ops != [] && CursorInOrder(s, ops, fe) && (ops[0].PutService? ==> Untouched(ops[1..], ops[0].fe))
    ensures CursorInOrder(ApplyOp(s, ops[0]), ops[1..], fe)
  {
    UntouchedSplit(ops, fe);
    hide Untouched;
  }

  lemma OpKeepsOrder(s: Tables, ops: seq<ControlOp>, fe: Frontend)
    requires ops != [] && InOrder(s, ops, fe)
    ensures InOrder(ApplyOp(s, ops[0]), ops[1..], fe)
  {
    hide PutsFinal, CursorInOrder, ApplyOp, Untouched;
    PutsFinalTail(ops);
    OpKeepsCursor(s, ops, fe);
  }

  /** Selections step a cursor within its range; other events leave the cursors and the service rows alone. */
  ghost predicate SameOrder(s: Tables, r: Tables) {
    && r.services == s.services
    && forall fe :: fe in r.rr && (fe !in s.rr || r.rr[fe] != s.rr[fe]) ==>
        fe in s.services && r.rr[fe] < s.services[fe].backendCount
  }

  lemma SameOrderKeepsOrder(s: Tables, r: Tables, ops: seq<ControlOp>, fe: Frontend)
    requires InOrder(s, ops, fe) && SameOrder(s, r)
    ensures InOrder(r, ops, fe)
  {
    hide FullReset, CursorReset, Untouched, PutsFinal;
  }

  lemma PacketKeepsOrder(s: Tables, ops: seq<ControlOp>, t: Tuple, env: Env, fe: Frontend)
    requires InOrder(s, ops, fe)
    ensures InOrder(PacketStep(s, t, env).tables, ops, fe)
  {
    PacketCursors(s, t, env);
    hide PacketStep, InOrder, CurrentSlot, UpdateFits, Allocates;
    SameOrderKeepsOrder(s, PacketStep(s, t, env).tables, ops, fe);
  }

  /** The control operations of a run, in order. */
  function ControlsOf(es: seq<Event>): seq<ControlOp>
    decreases |es|
  {
    if es == [] then [] else (if es[0].Control? then [es[0].op] else []) + ControlsOf(es[1..])
  }

  lemma StepKeepsOrder(w: World, e: Event, ops: seq<ControlOp>, fe: Frontend)
    requires InOrder(w.t, ops, fe) && !e.Control?
    ensures InOrder(Next(w, e).t, ops, fe)
  {
    hide PacketStep, InOrder, StaleCt, StaleFwd;
    if e.Packet? {
      PacketKeepsOrder(w.t, ops, e.t, e.env, fe);
    } else {
      SameOrderKeepsOrder(w.t, Next(w, e).t, ops, fe);
    }
  }

  lemma {:induction false} OrderOverRun(w: World, es: seq<Event>, fe: Frontend)
    requires InOrder(w.t, ControlsOf(es), fe)
    ensures InOrder(Run(w, es).t, [], fe)
    decreases |es|
  {
    hide PacketStep, InOrder, ApplyOp, Record, StaleCt, StaleFwd;
    if es != [] {
      var e, ops := es[0], ControlsOf(es);
      if e.Control? {
        assert ops[1..] == ControlsOf(es[1..]);
        OpKeepsOrder(w.t, ops, fe);
      } else {
        assert ops == ControlsOf(es[1..]);
        StepKeepsOrder(w, e, ops, fe);
      }
      OrderOverRun(Next(w, e), es[1..], fe);
    }
  }

  // --- The plan has the right shape ---------------------------------------------------

  lemma {:induction false} ResetConcat(a: seq<ControlOp>, b: seq<ControlOp>, fe: Frontend)
    ensures CursorReset(a, fe) ==> CursorReset(a + b, fe)
    ensures FullReset(a, fe) ==> FullReset(a + b, fe)
    ensures Untouched(a, fe) && FullReset(b, fe) ==> FullReset(a + b, fe)
    ensures Untouched(a, fe) && CursorReset(b, fe) ==> CursorReset(a + b, fe)
    ensures Untouched(a + b, fe) <==> Untouched(a, fe) && Untouched(b, fe)
    decreases |a|
  {
    if a == [] {
      assert a + b == b;
    } else {
      assert (a + b)[1..] == a[1..] + b && (a + b)[0] == a[0];
      ResetConcat(a[1..], b, fe);
      UntouchedSplit(a, fe);
      UntouchedSplit(a + b, fe);
    }
  }

  lemma UntouchedSplit(a: seq<ControlOp>, fe: Frontend)
    requires a != []
    ensures Untouched(a, fe) <==> !Relevant(a[0], fe) && Untouched(a[1..], fe)
  {
    assert forall i :: 0 < i < |a| ==> a[i] == a[1..][i - 1];
  }

  lemma PutsFinalConcat(a: seq<ControlOp>, b: seq<ControlOp>)
    requires PutsFinal(a) && PutsFinal(b)
    requires forall i :: 0 <= i < |a| && a[i].PutService? ==> Untouched(b, a[i].fe)
    ensures PutsFinal(a + b)
  {
    forall i | 0 <= i < |a + b| && (a + b)[i].PutService? ensures Untouched((a + b)[i + 1..], (a + b)[i].fe) {
      if i < |a| {
        assert (a + b)[i + 1..] == a[i + 1..] + b;
        ResetConcat(a[i + 1..], b, a[i].fe);
      } else {
        assert (a + b)[i + 1..] == b[i - |a| + 1..];
      }
    }
  }

  /** Only operations on the given NodePort, and service rows are only written for frontends of that port. */
  ghost predicate OnPort(ops: seq<ControlOp>, port: int) {
    forall i, fe :: 0 <= i < |ops| && Relevant(ops[i], fe) ==> fe.port == port
  }

  ghost predicate NoPuts(ops: seq<ControlOp>) {
    forall i :: 0 <= i < |ops| ==> !ops[i].PutService?
  }

  lemma {:induction false} DeleteSlotsShape(e: Entry, n: nat, fe: Frontend)
    requires Keyed(e) && n <= |e.backends|
    ensures Untouched(DeleteSlots(e, n), fe) && NoPuts(DeleteSlots(e, n))
  {
    if n > 0 { DeleteSlotsShape(e, n - 1, fe); }
  }

  lemma {:induction false} UpsertSlotsShape(e: Entry, n: nat, fe: Frontend)
    requires Keyed(e) && n <= |e.backends| && BackendsOk(e.backends[..n])
    ensures Untouched(UpsertSlots(e, n), fe) && NoPuts(UpsertSlots(e, n))
  {
    if n > 0 {
      assert forall i :: 0 <= i < n - 1 ==> e.backends[..n - 1][i] == e.backends[..n][i];
      UpsertSlotsShape(e, n - 1, fe);
    }
  }

  lemma DeleteShape(e: Entry)
    requires Keyed(e)
    ensures FullReset(DeleteOps(e), FrontendFor(e)) && NoPuts(DeleteOps(e)) && OnPort(DeleteOps(e), e.id.nodePort)
  {
    var fe, slots := FrontendFor(e), DeleteSlots(e, |e.backends|);
    DeleteSlotsShape(e, |e.backends|, fe);
    var tail := [DelService(fe), DelRr(fe)];
    assert tail[1..] == [DelRr(fe)];
    assert CursorReset(tail[1..], fe);
    assert FullReset(tail, fe);
    ResetConcat(slots, tail, fe);
    forall i, f | 0 <= i < |DeleteOps(e)| && Relevant(DeleteOps(e)[i], f) ensures f.port == e.id.nodePort {
      DeleteSlotsShape(e, |e.backends|, f);
      assert i >= |slots|;
    }
  }

  lemma UpsertShape(e: Entry)
    requires Installable(e)
    ensures PutsFinal(UpsertOps(e)) && OnPort(UpsertOps(e), e.id.nodePort)
  {
    assert e.backends[..|e.backends|] == e.backends;
    var fe, ops := FrontendFor(e), UpsertOps(e);
    var slots := UpsertSlots(e, |e.backends|);
    UpsertSlotsShape(e, |e.backends|, fe);
    assert ops[1..] == slots;
    assert forall i :: 0 < i < |ops| ==> ops[i] == slots[i - 1];
    forall i, f | 0 <= i < |ops| && Relevant(ops[i], f) ensures f.port == e.id.nodePort {
      UpsertSlotsShape(e, |e.backends|, f);
      assert i == 0;
    }
  }

  lemma OtherPortUntouched(ops: seq<ControlOp>, port: int, fe: Frontend)
    requires OnPort(ops, port) && fe.port != port
    ensures Untouched(ops, fe)
  {
  }

  lemma NoPutsFinal(ops: seq<ControlOp>)
    requires NoPuts(ops)
    ensures PutsFinal(ops)
  {
  }

  lemma ReplaceShape(applied: Entries, desired: Entries, id: ServiceID)
    requires id in desired && Installable(desired[id]) && desired[id].id == id
    requires id in applied ==> Installable(applied[id]) && applied[id].id == id
    ensures var ops := ReplaceOps(applied, desired, id);
            && PutsFinal(ops) && OnPort(ops, id.nodePort)
            && (id in applied ==> FullReset(ops, FrontendFor(applied[id])))
  {
    UpsertShape(desired[id]);
    if id in applied {
      DeleteShape(applied[id]);
      NoPutsFinal(DeleteOps(applied[id]));
      hide DeleteOps, UpsertOps, FullReset, PutsFinal;
      PutsFinalConcat(DeleteOps(applied[id]), UpsertOps(desired[id]));
      ResetConcat(DeleteOps(applied[id]), UpsertOps(desired[id]), FrontendFor(applied[id]));
    } else {
      assert ReplaceOps(applied, desired, id) == UpsertOps(desired[id]);
    }
  }

  lemma {:induction false} RemovalShape(applied: Entries, ids: seq<ServiceID>, fe: Frontend)
    requires WellFormed(applied) && Covers(applied, ids)
    ensures NoPuts(RemovalOps(applied, ids))
    ensures (forall id :: id in ids ==> id.nodePort != fe.port) ==> Untouched(RemovalOps(applied, ids), fe)
    ensures (exists id :: id in ids && FrontendFor(applied[id]) == fe) ==> FullReset(RemovalOps(applied, ids), fe)
  {
    if ids != [] {
      var front, last := ids[..|ids| - 1], ids[|ids| - 1];
      RemovalShape(applied, front, fe);
      var a, b := RemovalOps(applied, front), DeleteOps(applied[last]);
      DeleteShape(applied[last]);
      ResetConcat(a, b, fe);
      hide FullReset, CursorReset, DeleteOps;
      assert forall id :: id in ids <==> id in front || id == last;
      if last.nodePort != fe.port {
        OtherPortUntouched(b, last.nodePort, fe);
      } else if FrontendFor(applied[last]) == fe {
        SamePortSameId(applied, front, last, fe);
      }
    }
  }

  /** Among well-formed entries a NodePort names one id. */
  lemma SamePortSameId(es: Entries, ids: seq<ServiceID>, last: ServiceID, fe: Frontend)
    requires WellFormed(es) && Covers(es, ids) && last in es && FrontendFor(es[last]) == fe
    ensures (forall id :: id in ids ==> id.nodePort != fe.port) || (exists id :: id in ids && FrontendFor(es[id]) == fe)
  {
    if last in ids {
    } else {
      forall id | id in ids ensures id.nodePort != fe.port {
        assert id in es && id != last;
      }
    }
  }

  /** Every operation on a frontend carries the NodePort of one of ids. */
  ghost predicate OnPortsOf(ops: seq<ControlOp>, ids: seq<ServiceID>) {
    forall i, f :: 0 <= i < |ops| && Relevant(ops[i], f) ==> exists id :: id in ids && id.nodePort == f.port
  }

  lemma {:induction false} ChangeShape(applied: Entries, desired: Entries, ids: seq<ServiceID>)
    requires WellFormed(applied) && Filed(desired) && Covers(desired, ids) && Distinct(ids)
    ensures PutsFinal(ChangeOps(applied, desired, ids))
    ensures OnPortsOf(ChangeOps(applied, desired, ids), ids)
    ensures forall id ::
      id in ids && id in applied ==> FullReset(ChangeOps(applied, desired, ids), FrontendFor(applied[id]))
  {
    if ids != [] {
      var front, last := ids[..|ids| - 1], ids[|ids| - 1];
      ChangeShape(applied, desired, front);
      ReplaceShape(applied, desired, last);
      var a, b := ChangeOps(applied, desired, front), ReplaceOps(applied, desired, last);
      hide FullReset, CursorReset, ReplaceOps, PutsFinal, Untouched, Installable, Keyed;
      assert forall id :: id in ids <==> id in front || id == last;
      assert last !in front;
      forall i | 0 <= i < |a| && a[i].PutService? ensures Untouched(b, a[i].fe) {
        assert Relevant(a[i], a[i].fe);
        var id :| id in front && id.nodePort == a[i].fe.port;
        assert id in desired && id != last;
        OtherPortUntouched(b, last.nodePort, a[i].fe);
      }
      PutsFinalConcat(a, b);
      forall id | id in ids && id in applied ensures FullReset(a + b, FrontendFor(applied[id])) {
        ResetConcat(a, b, FrontendFor(applied[id]));
        if id == last {
          assert forall id2 :: id2 in front ==> id2.nodePort != last.nodePort;
          PortUntouched(a, front, FrontendFor(applied[id]));
        }
      }
      PortsOneMore(a, b, front, ids);
    }
  }

  lemma PortsOneMore(a: seq<ControlOp>, b: seq<ControlOp>, front: seq<ServiceID>, ids: seq<ServiceID>)
    requires ids != [] && front == ids[..|ids| - 1] && OnPort(b, ids[|ids| - 1].nodePort)
    requires OnPortsOf(a, front)
    ensures OnPortsOf(a + b, ids)
  {
    var last := ids[|ids| - 1];
    assert last in ids;
    assert forall id :: id in front ==> id in ids;
    hide Relevant;
    forall i, f | 0 <= i < |a + b| && Relevant((a + b)[i], f) ensures exists id :: id in ids && id.nodePort == f.port {
      if i < |a| {
        var id :| id in front && id.nodePort == f.port;
        assert id in ids;
      } else {
        assert (a + b)[i] == b[i - |a|];
      }
    }
  }

  lemma PortUntouched(ops: seq<ControlOp>, ids: seq<ServiceID>, fe: Frontend)
    requires OnPortsOf(ops, ids)
    requires forall id :: id in ids ==> id.nodePort != fe.port
    ensures Untouched(ops, fe)
  {
  }

  /** The plan of a reconcile keeps the cursors in order from any quiet state, except those of leftover frontends. */
  lemma PlanKeepsCursorsInOrder(applied: Entries, desired: Entries, left: Leftover, s: Tables,
                                removed: seq<ServiceID>, changed: seq<ServiceID>, fe: Frontend)
    requires IsImageOver(applied, s, left) && Filed(desired)
    requires fe !in left.frontends && CursorFits(s, fe)
    requires Worklists(applied, desired, removed, changed) && Covers(applied, removed) && Covers(desired, changed)
    ensures InOrder(s, Plan(applied, desired, removed, changed), fe)
  {
    var a, b := RemovalOps(applied, removed), ChangeOps(applied, desired, changed);
    ChangeShape(applied, desired, changed);
    RemovalShape(applied, removed, Frontend(0, 0, 0));
    NoPutsFinal(a);
    hide FullReset, CursorReset, RemovalOps, ChangeOps, PutsFinal;
    PutsFinalConcat(a, b) by { assert NoPuts(a); }
    if fe in s.services {
      var id :| HasFrontend(applied, id, fe);
      ServedFrontend(applied, desired, removed, changed, id);
    }
  }

  lemma ServedFrontend(applied: Entries, desired: Entries, removed: seq<ServiceID>, changed: seq<ServiceID>,
                       id: ServiceID)
    requires WellFormed(applied) && Filed(desired) && id in applied
    requires Worklists(applied, desired, removed, changed) && Covers(applied, removed) && Covers(desired, changed)
    ensures var fe, ops := FrontendFor(applied[id]), Plan(applied, desired, removed, changed);
            FullReset(ops, fe) || Untouched(ops, fe)
  {
    var a, b, fe := RemovalOps(applied, removed), ChangeOps(applied, desired, changed), FrontendFor(applied[id]);
    RemovalShape(applied, removed, fe);
    ChangeShape(applied, desired, changed);
    hide FullReset, CursorReset, RemovalOps, ChangeOps, PutsFinal;
    ResetConcat(a, b, fe);
    assert id in removed <==> id in Elements(removed);
    assert id in changed <==> id in Elements(changed);
    if id !in removed {
      assert forall id2 :: id2 in removed ==> id2.nodePort != fe.port;
      if id !in changed {
        assert forall id2 :: id2 in changed ==> id2.nodePort != fe.port;
        PortUntouched(b, changed, fe);
      }
    }
  }

  /** A configuration write before the plan does not touch the cursors. */
  lemma ConfigFirst(s: Tables, config: Config, ops: seq<ControlOp>, fe: Frontend)
    requires InOrder(s, ops, fe)
    ensures InOrder(s, [PutConfig(config)] + ops, fe)
  {
    var all := [PutConfig(config)] + ops;
    assert all[1..] == ops;
    assert forall i :: 0 < i < |all| ==> all[i] == ops[i - 1] && all[i + 1..] == ops[i - 1 + 1..];
    hide Untouched;
    UntouchedSplit(all, fe);
  }

  /**
   With packets, reaps and deletes at any point between the single operations of a reconcile, its
   configuration write included, a cursor that fitted fits the backend count again once it is
   complete. Only frontends with a leftover row are excepted.
   */
  lemma CursorsFitAfterReconcile(applied: Entries, desired: Entries, left: Leftover, w: World, es: seq<Event>,
                                 first: seq<ControlOp>, removed: seq<ServiceID>, changed: seq<ServiceID>, fe: Frontend)
    requires IsImageOver(applied, w.t, left) && Filed(desired)
    requires fe !in left.frontends && CursorFits(w.t, fe)
    requires Worklists(applied, desired, removed, changed) && Covers(applied, removed) && Covers(desired, changed)
    requires first == [] || exists config :: first == [PutConfig(config)]
    requires ControlsOf(es) == first + Plan(applied, desired, removed, changed)
    ensures CursorFits(Run(w, es).t, fe)
  {
    hide ServicesMatch, BackendsMatch, Worklists, Covers, Plan, CursorFits, InOrder, Run;
    var plan := Plan(applied, desired, removed, changed);
    PlanKeepsCursorsInOrder(applied, desired, left, w.t, removed, changed, fe);
    if first == [] {
      assert first + plan == plan;
    } else {
      var config :| first == [PutConfig(config)];
      ConfigFirst(w.t, config, plan, fe);
    }
    OrderOverRun(w, es, fe);
    FitIsInOrder(Run(w, es).t, fe);
  }

  /** With nothing to come, a cursor is in order when it fits. */
  lemma FitIsInOrder(s: Tables, fe: Frontend)
    ensures CursorFits(s, fe) <==> InOrder(s, [], fe)
  {
  }

  // --- Cursors of an earlier process ------------------------------------------------------

  /** The cursors of the entries' frontends fit. */
  ghost predicate EntryCursorsFit(es: Entries, s: Tables)
    requires WellFormed(es)
  {
    forall id :: id in es ==> CursorFits(s, FrontendFor(es[id]))
  }

  /** Every cursor of an entry's frontend, installed or not, is below the entry's backend count. */
  ghost predicate OldCursorsFit(es: Entries, s: Tables)
    requires WellFormed(es)
  {
    forall id :: id in es && FrontendFor(es[id]) in s.rr ==> s.rr[FrontendFor(es[id])] < |es[id].backends|
  }

  /**
   A first reconcile over the maps of an earlier process installs frontends without touching their
   cursors: these fit exactly when every old cursor of a desired frontend is below its new backend
   count.
   */
  lemma FirstCursorsIff(desired: Entries, s: Tables, changed: seq<ServiceID>)
    requires WellFormed(desired) && Worklists(map[], desired, [], changed) && Covers(desired, changed)
    ensures EntryCursorsFit(desired, ApplyAll(s, Plan(map[], desired, [], changed))) <==> OldCursorsFit(desired, s)
  {
    var r := ApplyAll(s, Plan(map[], desired, [], changed));
    NothingIsImage(s, RowsOf(s));
    PlanReachesDesired(map[], desired, s, [], changed, RowsOf(s));
    FirstKeepsCursors(desired, s, changed);
    hide Plan, ApplyAll, Worklists, Covers, BackendsMatch;
    forall id | id in desired ensures
      CursorFits(r, FrontendFor(desired[id])) <==>
      (FrontendFor(desired[id]) in s.rr ==> s.rr[FrontendFor(desired[id])] < |desired[id].backends|) {
      assert r.services[FrontendFor(desired[id])] == ServiceRow(desired[id]);
    }
    hide IsImageOver, WellFormed, CursorFits;
  }

  lemma FirstKeepsCursors(desired: Entries, s: Tables, changed: seq<ServiceID>)
    requires Covers(desired, changed)
    ensures ApplyAll(s, Plan(map[], desired, [], changed)).rr == s.rr
  {
    ChangeRr(map[], desired, s, changed);
    assert Plan(map[], desired, [], changed) == ChangeOps(map[], desired, changed);
    hide ApplyAll, ChangeOps;
    assert FrontendsOf(map[], Elements(changed)) == {};
  }
}
