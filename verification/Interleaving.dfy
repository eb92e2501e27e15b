/**
 Packets between the single map operations of a reconcile: what they can observe of the service
 and backend maps, and which backends they can choose.
 */
module Interleaving {
  import opened Net
  import opened Tables
  import opened Conntrack
  import opened Runs
  import opened Reconciler
  import opened Rebuild
  import opened Reaper

  /** The entry is applied and stays as it is. */
  predicate Unchanged(applied: Entries, desired: Entries, id: ServiceID) {
    id in applied && id in desired && applied[id] == desired[id]
  }

  /** The rows of entry e are complete. */
  ghost predicate RowsIntact(e: Entry, s: Tables)
    requires Installable(e)
  {
    && FrontendFor(e) in s.services && s.services[FrontendFor(e)] == ServiceRow(e)
    && forall i: nat :: i < |e.backends| ==>
         Slot(e, i) in s.backends && s.backends[Slot(e, i)] == BackendRow(e.backends[i])
  }

  /**
   Any state in the middle of a reconcile: unchanged entries are intact, every backend row is an old
   or a new one, or in the slot of a leftover.
   */
  ghost predicate Mixed(applied: Entries, desired: Entries, left: Leftover, s: Tables)
    requires AllInstallable(applied)
  {
    && (forall id :: Unchanged(applied, desired, id) ==> RowsIntact(applied[id], s))
    && (forall key :: key in s.backends && key !in left.slots ==>
          DesiredSlot(applied, key, s.backends[key]) || DesiredSlot(desired, key, s.backends[key]))
  }

  lemma ImageIsMixed(applied: Entries, desired: Entries, left: Leftover, s: Tables)
    requires IsImageOver(applied, s, left)
    ensures Mixed(applied, desired, left, s)
  {
    forall key | key in s.backends && key !in left.slots ensures DesiredSlot(applied, key, s.backends[key]) {
      var id :| HasSlot(applied, id, key);
      assert key == Slot(applied[id], key.slot);
      assert EntrySlot(applied[id], key, s.backends[key]);
    }
  }

  /** An operation on another NodePort leaves the rows of an entry alone. */
  predicate OpPort(op: ControlOp, port: Port) {
    match op
    case PutService(fe, _) => fe.port == port
    case DelService(fe) => fe.port == port
    case PutBackend(key, _) => key.service.port == port
    case DelBackend(key) => key.service.port == port
    case DelRr(fe) => fe.port == port
    case PutConfig(_) => false
  }

  /** An allowed operation on the NodePort of an unchanged entry rewrites one of its own rows, or only the cursor. */
  lemma AllowedOnUnchanged(applied: Entries, desired: Entries, id: ServiceID, op: ControlOp)
    requires WellFormed(applied) && Filed(desired) && Unchanged(applied, desired, id) && Allowed(applied, desired, op)
    requires OpPort(op, id.nodePort)
    ensures (op.PutService? && op.fe == FrontendFor(applied[id]) && op.svc == ServiceRow(applied[id])) ||
            (op.PutBackend? && EntrySlot(applied[id], op.key, op.backend))
  {
  }

  lemma OpKeepsMixed(applied: Entries, desired: Entries, left: Leftover, s: Tables, op: ControlOp)
    requires WellFormed(applied) && Filed(desired) && Mixed(applied, desired, left, s) && Allowed(applied, desired, op)
    ensures Mixed(applied, desired, left, ApplyOp(s, op))
  {
    var r := ApplyOp(s, op);
    hide DesiredSlot;
    forall id | Unchanged(applied, desired, id) ensures RowsIntact(applied[id], r) {
      if OpPort(op, id.nodePort) {
        AllowedOnUnchanged(applied, desired, id, op);
      }
      hide Allowed, WellFormed;
    }
  }

  /** Only the control plane writes service and backend rows. */
  lemma {:induction false} MixedOverRun(applied: Entries, desired: Entries, left: Leftover, w: World,
                                        es: seq<Event>)
    requires WellFormed(applied) && Filed(desired) && Mixed(applied, desired, left, w.t)
    requires forall i :: 0 <= i < |es| && es[i].Control? ==> Allowed(applied, desired, es[i].op)
    ensures Mixed(applied, desired, left, Run(w, es).t)
    decreases |es|
  {
    if es != [] {
      StepKeepsMixed(applied, desired, left, w, es[0]);
      MixedOverRun(applied, desired, left, Next(w, es[0]), es[1..]);
    }
  }

  lemma StepKeepsMixed(applied: Entries, desired: Entries, left: Leftover, w: World, e: Event)
    requires WellFormed(applied) && Filed(desired) && Mixed(applied, desired, left, w.t)
    requires e.Control? ==> Allowed(applied, desired, e.op)
    ensures Mixed(applied, desired, left, Next(w, e).t)
  {
    hide PacketStep, Mixed, WellFormed, Filed, Allowed, ApplyOp, StaleCt, StaleFwd;
    if e.Control? {
      OpKeepsMixed(applied, desired, left, w.t, e.op);
    } else {
      StepKeepsRows(w, e);
      SameRowsStayMixed(applied, desired, left, w.t, Next(w, e).t);
    }
  }

  /** Only control-plane writes change the service and backend maps. */
  lemma StepKeepsRows(w: World, e: Event)
    requires !e.Control?
    ensures Next(w, e).t.services == w.t.services && Next(w, e).t.backends == w.t.backends
  {
    hide PacketStep, Shape, StaleCt, StaleFwd;
    if e.Packet? {
      var o := PacketStep(w.t, e.t, e.env);
      PacketShape(w.t, e.t, e.env);
      ShapeKeepsRows(w.t, o.tables, e.t, o.act, e.env);
    }
  }

  lemma ShapeKeepsRows(s: Tables, s': Tables, t: Tuple, a: Act, env: Env)
    requires Shape(s, s', t, a, env)
    ensures s'.services == s.services && s'.backends == s.backends
  {
  }

  lemma SameRowsStayMixed(applied: Entries, desired: Entries, left: Leftover, s: Tables, r: Tables)
    requires WellFormed(applied) && Filed(desired) && Mixed(applied, desired, left, s)
    requires r.services == s.services && r.backends == s.backends
    ensures Mixed(applied, desired, left, r)
  {
  }

  /** Some entry on the frontend's address and NodePort lists a backend with this address and port. */
  ghost predicate ListsBackend(es: Entries, fe: Frontend, address: Addr, port: Port) {
    exists id, i :: ListedAt(es, id, i, fe, address, port)
  }

  ghost predicate ListedAt(es: Entries, id: ServiceID, i: int, fe: Frontend, address: Addr, port: Port) {
    && id in es && es[id].nodeIp == fe.address && es[id].id.nodePort == fe.port && fe.proto == 6
    && 0 <= i < |es[id].backends| && es[id].backends[i].address == address && es[id].backends[i].port == port
  }

  /** The backend with this address and port is in the old or the new list of the frontend. */
  ghost predicate OldOrNewBackend(applied: Entries, desired: Entries, fe: Frontend, address: Addr, port: Port) {
    ListsBackend(applied, fe, address, port) || ListsBackend(desired, fe, address, port)
  }

  /** The row in a desired slot is one of the entry's backends. */
  lemma DesiredSlotIsListed(es: Entries, key: BackendKey, b: Backend)
    requires DesiredSlot(es, key, b)
    ensures ListsBackend(es, key.service, b.address, b.port)
  {
    var id :| id in es && EntrySlot(es[id], key, b);
    assert ListedAt(es, id, key.slot, key.service, b.address, b.port);
  }

  /**
   With packets, reaps and deletes between the single operations of a reconcile, in any order: a
   newly opened flow goes to a backend of the frontend's old or new list, or to the row in a slot
   that an earlier process left behind.
   */
  lemma NewFlowsUseOldOrNewBackends(applied: Entries, desired: Entries, left: Leftover, w: World, es: seq<Event>,
                                    t: Tuple, env: Env)
    requires IsImageOver(applied, w.t, left) && Filed(desired)
    requires forall i :: 0 <= i < |es| && es[i].Control? ==> Allowed(applied, desired, es[i].op)
    ensures var s := Run(w, es).t;
            var a := PacketStep(s, t, env).act;
            Allocates(a) ==>
              || OldOrNewBackend(applied, desired, FrontendOf(t), a.ck.backendIp, a.ck.backendPort)
              || LeftoverBackend(left, s, FrontendOf(t), a.ck.backendIp, a.ck.backendPort)
  {
    ImageIsMixed(applied, desired, left, w.t);
    MixedOverRun(applied, desired, left, w, es);
    var s := Run(w, es).t;
    PacketShape(s, t, env);
    var a := PacketStep(s, t, env).act;
    hide PacketStep, Run;
    if Allocates(a) { ChoiceIsKnown(applied, desired, left, s, t, a.ck, a.fk); }
  }

  /** The backend with this address and port is in a leftover slot of the frontend. */
  ghost predicate LeftoverBackend(left: Leftover, s: Tables, fe: Frontend, address: Addr, port: Port) {
    exists key :: key in left.slots && key in s.backends && key.service == fe &&
        s.backends[key].address == address && s.backends[key].port == port
  }

  lemma ChoiceIsKnown(applied: Entries, desired: Entries, left: Leftover, s: Tables, t: Tuple, ck: CtKey, fk: FwdKey)
    requires AllInstallable(applied) && Mixed(applied, desired, left, s) && FreshFlow(s, t, ck, fk)
    ensures || OldOrNewBackend(applied, desired, FrontendOf(t), ck.backendIp, ck.backendPort)
            || LeftoverBackend(left, s, FrontendOf(t), ck.backendIp, ck.backendPort)
  {
    hide DesiredSlot;
    var svc := s.services[FrontendOf(t)];
    var b := ChosenBackend(s, FrontendOf(t), svc).value;
    var key := BackendKey(FrontendOf(t), CurrentSlot(s.rr, FrontendOf(t), svc.backendCount));
    assert s.backends[key] == b == Backend(ck.backendIp, ck.backendPort, b.nodeIp);
    if key !in left.slots {
      if DesiredSlot(applied, key, b) { DesiredSlotIsListed(applied, key, b); }
      if DesiredSlot(desired, key, b) { DesiredSlotIsListed(desired, key, b); }
    }
  }

  /** Entries that a reconcile does not change stay completely installed at every moment of it. */
  lemma UnchangedEntriesStayIntact(applied: Entries, desired: Entries, left: Leftover, w: World, es: seq<Event>,
                                   id: ServiceID)
    requires IsImageOver(applied, w.t, left) && Filed(desired) && Unchanged(applied, desired, id)
    requires forall i :: 0 <= i < |es| && es[i].Control? ==> Allowed(applied, desired, es[i].op)
    ensures RowsIntact(applied[id], Run(w, es).t)
  {
    ImageIsMixed(applied, desired, left, w.t);
    MixedOverRun(applied, desired, left, w, es);
  }

  /** With intact rows and at least one backend, backend selection never fails, whatever the cursor holds. */
  lemma IntactFrontendAlwaysSelects(e: Entry, s: Tables)
    requires Installable(e) && RowsIntact(e, s) && e.backends != []
    ensures var fe := FrontendFor(e);
            ChosenBackend(s, fe, s.services[fe]).Some?
  {
    var slot := CurrentSlot(s.rr, FrontendFor(e), |e.backends|);
    assert Slot(e, slot) in s.backends;
  }
}
