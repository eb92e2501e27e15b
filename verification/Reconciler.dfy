/**
 The reconciler (cmd/nodeport-syncer/main.go): it turns the difference between the applied and
 the desired entries into single map operations and carries them out in order.
 */
module Reconciler {
  import opened Net
  import opened Tables
  import opened Runs
  import opened Listing

  datatype ServiceID = ServiceID(namespace: string, name: string, nodePort: int)
  datatype EntryBackend = EntryBackend(address: Addr, port: int, nodeIp: Addr)
  datatype Entry = Entry(id: ServiceID, nodeIp: Addr, snatIp: Addr, backends: seq<EntryBackend>)
  type Entries = map<ServiceID, Entry>

  // --- Rows ---------------------------------------------------------------------------

  /** portBytes accepts it. */
  predicate PortOk(p: int) {
    1 <= p <= 65535
  }

  predicate BackendsOk(bs: seq<EntryBackend>) {
    forall i :: 0 <= i < |bs| ==> PortOk(bs[i].port)
  }

  /** The entry's map keys marshal. */
  predicate Keyed(e: Entry) {
    PortOk(e.id.nodePort) && |e.backends| < 0x1_0000_0000
  }

  /** Every field of the entry marshals. */
  predicate Installable(e: Entry) {
    Keyed(e) && BackendsOk(e.backends)
  }

  function FrontendFor(e: Entry): Frontend
    requires PortOk(e.id.nodePort)
  {
    Frontend(e.nodeIp, e.id.nodePort, IPPROTO_TCP)
  }

  function ServiceRow(e: Entry): Service
    requires |e.backends| < 0x1_0000_0000
  {
    Service(|e.backends|, 0, e.snatIp)
  }

  function BackendRow(b: EntryBackend): Backend
    requires PortOk(b.port)
  {
    Backend(b.address, b.port, b.nodeIp)
  }

  function Slot(e: Entry, i: nat): BackendKey
    requires PortOk(e.id.nodePort) && i < 0x1_0000_0000
  {
    BackendKey(FrontendFor(e), i)
  }

  /** An entry marshals exactly when its NodePort and all its backend ports are port numbers and its slots fit. */
  lemma InstallableIff(e: Entry)
    ensures Installable(e) <==>
            && 1 <= e.id.nodePort <= 65535 && |e.backends| <= 0xFFFF_FFFF
            && forall b :: b in e.backends ==> 1 <= b.port <= 65535
  {
    assert forall i :: 0 <= i < |e.backends| ==> e.backends[i] in e.backends;
  }

  // --- The maps a set of entries stands for -------------------------------------------

  /** Entries are filed under their own id, marshal, and have distinct NodePorts. */
  ghost predicate WellFormed(es: Entries) {
    && (forall id :: id in es ==> es[id].id == id && Installable(es[id]))
    && DistinctPorts(es)
  }

  ghost predicate DistinctPorts(es: Entries) {
    forall id, id2 :: id in es && id2 in es && id != id2 ==> id.nodePort != id2.nodePort
  }

  /** Rows that were in the maps before the first reconcile, left by an earlier process. */
  datatype Leftover = Leftover(frontends: set<Frontend>, slots: set<BackendKey>)

  const NOTHING_LEFT := Leftover({}, {})

  /** Entry id has this frontend. */
  ghost predicate HasFrontend(es: Entries, id: ServiceID, fe: Frontend)
    requires WellFormed(es)
  {
    id in es && FrontendFor(es[id]) == fe
  }

  /** Entry id has a backend in the slot with this key. */
  ghost predicate HasSlot(es: Entries, id: ServiceID, key: BackendKey)
    requires WellFormed(es)
  {
    id in es && FrontendFor(es[id]) == key.service && key.slot < |es[id].backends|
  }

  /** The service map holds exactly one row per entry, apart from leftovers of other frontends. */
  ghost predicate ServicesMatch(es: Entries, services: map<Frontend, Service>, left: Leftover)
    requires WellFormed(es)
  {
    && (forall id :: id in es ==>
          FrontendFor(es[id]) in services && services[FrontendFor(es[id])] == ServiceRow(es[id]))
    && (forall fe :: fe in services ==> fe in left.frontends || exists id :: HasFrontend(es, id, fe))
  }

  /** The backend map holds exactly one row per slot of each entry, apart from leftovers in other slots. */
  ghost predicate BackendsMatch(es: Entries, backends: map<BackendKey, Backend>, left: Leftover)
    requires WellFormed(es)
  {
    && (forall id, i: nat :: id in es && i < |es[id].backends| ==>
          Slot(es[id], i) in backends && backends[Slot(es[id], i)] == BackendRow(es[id].backends[i]))
    && (forall key :: key in backends ==> key in left.slots || exists id :: HasSlot(es, id, key))
  }

  /** Every row of every entry is right, and any other row is a leftover. */
  ghost predicate IsImageOver(es: Entries, s: Tables, left: Leftover) {
    WellFormed(es) && ServicesMatch(es, s.services, left) && BackendsMatch(es, s.backends, left)
  }

  /** The maps hold exactly the rows of the entries. */
  ghost predicate IsImage(es: Entries, s: Tables) {
    IsImageOver(es, s, NOTHING_LEFT)
  }

  ghost predicate SameRows(s: Tables, r: Tables) {
    s.services == r.services && s.backends == r.backends
  }

  lemma RowsDecideImage(es: Entries, s: Tables, r: Tables, left: Leftover)
    requires IsImageOver(es, s, left) && SameRows(s, r)
    ensures IsImageOver(es, r, left)
  {
  }

  /** The entries determine both maps. */
  lemma ImageIsUnique(es: Entries, s: Tables, r: Tables)
    requires IsImage(es, s) && IsImage(es, r)
    ensures s.services == r.services && s.backends == r.backends
  {
    ImageCovers(es, s, r);
    ImageCovers(es, r, s);
  }

  /**
   What the image holds, field by field: for every entry a service row under its node's address and
   its NodePort, and in slot i the address, port and node of backend i. Any other row is a leftover.
   */
  lemma ImageRows(es: Entries, s: Tables, left: Leftover)
    requires IsImageOver(es, s, left)
    ensures forall id :: id in es ==> 1 <= id.nodePort <= 65535 && |es[id].backends| < 0x1_0000_0000
    ensures forall id :: id in es ==>
              var fe := Frontend(es[id].nodeIp, id.nodePort, 6);
              fe in s.services && s.services[fe] == Service(|es[id].backends|, 0, es[id].snatIp)
    ensures forall id, i: nat :: id in es && i < |es[id].backends| ==>
              var key, b := BackendKey(Frontend(es[id].nodeIp, id.nodePort, 6), i), es[id].backends[i];
              && 1 <= b.port <= 65535
              && key in s.backends && s.backends[key] == Backend(b.address, b.port, b.nodeIp)
    ensures forall fe :: fe in s.services && fe !in left.frontends ==>
              exists id :: id in es && fe == Frontend(es[id].nodeIp, id.nodePort, 6)
    ensures forall key :: key in s.backends && key !in left.slots ==>
              exists id :: id in es && key.service == Frontend(es[id].nodeIp, id.nodePort, 6) &&
                  key.slot < |es[id].backends|
  {
    forall id, i: nat | id in es && i < |es[id].backends|
      ensures var key, b := BackendKey(Frontend(es[id].nodeIp, id.nodePort, 6), i), es[id].backends[i];
              && 1 <= b.port <= 65535
              && key in s.backends && s.backends[key] == Backend(b.address, b.port, b.nodeIp)
    {
      assert Slot(es[id], i) in s.backends;
    }
    forall fe | fe in s.services && fe !in left.frontends
      ensures exists id :: id in es && fe == Frontend(es[id].nodeIp, id.nodePort, 6)
    {
      var id :| HasFrontend(es, id, fe);
      assert fe == Frontend(es[id].nodeIp, id.nodePort, 6);
    }
    forall key | key in s.backends && key !in left.slots
      ensures exists id :: id in es && key.service == Frontend(es[id].nodeIp, id.nodePort, 6) &&
                  key.slot < |es[id].backends|
    {
      var id :| HasSlot(es, id, key);
      assert key.service == Frontend(es[id].nodeIp, id.nodePort, 6);
    }
  }

  lemma ImageCovers(es: Entries, s: Tables, r: Tables)
    requires IsImage(es, s) && IsImage(es, r)
    ensures forall fe :: fe in s.services ==> fe in r.services && r.services[fe] == s.services[fe]
    ensures forall key :: key in s.backends ==> key in r.backends && r.backends[key] == s.backends[key]
  {
    forall fe | fe in s.services ensures fe in r.services && r.services[fe] == s.services[fe] {
      var id :| HasFrontend(es, id, fe);
    }
    forall key | key in s.backends ensures key in r.backends && r.backends[key] == s.backends[key] {
      var id :| HasSlot(es, id, key);
      assert key == Slot(es[id], key.slot);
    }
  }

  // --- Operation lists ----------------------------------------------------------------

  function ApplyAll(s: Tables, ops: seq<ControlOp>): Tables {
    if ops == [] then s else ApplyOp(ApplyAll(s, ops[..|ops| - 1]), ops[|ops| - 1])
  }

  lemma ApplyOneMore(s: Tables, ops: seq<ControlOp>, op: ControlOp)
    ensures ApplyAll(s, ops + [op]) == ApplyOp(ApplyAll(s, ops), op)
  {
    assert (ops + [op])[..|ops|] == ops;
  }

  lemma {:induction false} ApplyConcat(s: Tables, a: seq<ControlOp>, b: seq<ControlOp>)
    ensures ApplyAll(s, a + b) == ApplyAll(ApplyAll(s, a), b)
  {
    if b == [] {
      assert a + b == a;
    } else {
      var front, op := b[..|b| - 1], b[|b| - 1];
      ApplyConcat(s, a, front);
      ApplyOneMore(s, a + front, op);
      assert a + b == (a + front) + [op];
    }
  }

  /** DeleteEntry: the slots in order, then the service row, then the round-robin cursor. */
  function DeleteOps(e: Entry): seq<ControlOp>
    requires Keyed(e)
  {
    DeleteSlots(e, |e.backends|) + [DelService(FrontendFor(e)), DelRr(FrontendFor(e))]
  }

  function DeleteSlots(e: Entry, n: nat): seq<ControlOp>
    requires Keyed(e) && n <= |e.backends|
  {
    if n == 0 then [] else DeleteSlots(e, n - 1) + [DelBackend(Slot(e, n - 1))]
  }

  /** UpsertEntry: the service row, then the slots in order. */
  function UpsertOps(e: Entry): seq<ControlOp>
    requires Installable(e)
  {
    assert e.backends[..|e.backends|] == e.backends;
    [PutService(FrontendFor(e), ServiceRow(e))] + UpsertSlots(e, |e.backends|)
  }

  function UpsertSlots(e: Entry, n: nat): seq<ControlOp>
    requires Keyed(e) && n <= |e.backends| && BackendsOk(e.backends[..n])
  {
    if n == 0 then []
    else
      assert e.backends[..n][n - 1] == e.backends[n - 1];
      assert forall i :: 0 <= i < n - 1 ==> e.backends[..n - 1][i] == e.backends[..n][i];
      UpsertSlots(e, n - 1) + [PutBackend(Slot(e, n - 1), BackendRow(e.backends[n - 1]))]
  }

  /** DeleteEntry operation by operation. */
  lemma {:induction false} DeleteSlotsAre(e: Entry, n: nat)
    requires Keyed(e) && n <= |e.backends|
    ensures |DeleteSlots(e, n)| == n
    ensures forall i: nat :: i < n ==>
              DeleteSlots(e, n)[i] == DelBackend(BackendKey(Frontend(e.nodeIp, e.id.nodePort, 6), i))
  {
    if n > 0 { DeleteSlotsAre(e, n - 1); }
  }

  lemma DeletionOrder(e: Entry)
    requires Keyed(e)
    ensures var ops, n, fe := DeleteOps(e), |e.backends|, Frontend(e.nodeIp, e.id.nodePort, 6);
            && |ops| == n + 2 && ops[n] == DelService(fe) && ops[n + 1] == DelRr(fe)
            && forall i: nat :: i < n ==> ops[i] == DelBackend(BackendKey(fe, i))
  {
    DeleteSlotsAre(e, |e.backends|);
  }

  lemma {:induction false} UpsertSlotsAre(e: Entry, n: nat)
    requires Installable(e) && n <= |e.backends|
    requires BackendsOk(e.backends[..n])
    ensures |UpsertSlots(e, n)| == n
    ensures forall i: nat :: i < n ==>
              var b := e.backends[i];
              UpsertSlots(e, n)[i] ==
              PutBackend(BackendKey(Frontend(e.nodeIp, e.id.nodePort, 6), i), Backend(b.address, b.port, b.nodeIp))
  {
    if n > 0 {
      assert e.backends[..n][n - 1] == e.backends[n - 1];
      assert forall i :: 0 <= i < n - 1 ==> e.backends[..n - 1][i] == e.backends[..n][i];
      UpsertSlotsAre(e, n - 1);
    }
  }

  /** UpsertEntry operation by operation. */
  lemma InstallationOrder(e: Entry)
    requires Installable(e)
    ensures var ops, n, fe := UpsertOps(e), |e.backends|, Frontend(e.nodeIp, e.id.nodePort, 6);
            && |ops| == n + 1 && ops[0] == PutService(fe, Service(n, 0, e.snatIp))
            && forall i: nat :: i < n ==>
                 var b := e.backends[i];
                 ops[i + 1] == PutBackend(BackendKey(fe, i), Backend(b.address, b.port, b.nodeIp))
  {
    assert e.backends[..|e.backends|] == e.backends;
    UpsertSlotsAre(e, |e.backends|);
    hide UpsertSlots;
    var slots := UpsertSlots(e, |e.backends|);
    assert forall i: nat :: i < |slots| ==> UpsertOps(e)[i + 1] == slots[i];
  }

  ghost predicate Covers(es: Entries, ids: seq<ServiceID>) {
    forall i :: 0 <= i < |ids| ==> ids[i] in es && Installable(es[ids[i]])
  }

  function RemovalOps(applied: Entries, ids: seq<ServiceID>): seq<ControlOp>
    requires Covers(applied, ids)
  {
    if ids == [] then [] else RemovalOps(applied, ids[..|ids| - 1]) + DeleteOps(applied[ids[|ids| - 1]])
  }

  /** One changed or new entry: the old version goes before the new one comes. */
  function ReplaceOps(applied: Entries, desired: Entries, id: ServiceID): seq<ControlOp>
    requires id in desired && Installable(desired[id]) && (id in applied ==> Installable(applied[id]))
  {
    (if id in applied then DeleteOps(applied[id]) else []) + UpsertOps(desired[id])
  }

  ghost predicate AllInstallable(es: Entries) {
    forall id :: id in es ==> Installable(es[id])
  }

  ghost function ChangeOps(applied: Entries, desired: Entries, ids: seq<ServiceID>): seq<ControlOp>
    requires Covers(desired, ids) && AllInstallable(applied)
  {
    if ids == [] then []
    else ChangeOps(applied, desired, ids[..|ids| - 1]) + ReplaceOps(applied, desired, ids[|ids| - 1])
  }

  /** The ids present before and gone now. */
  function RemovedIds(applied: Entries, desired: Entries): set<ServiceID> {
    applied.Keys - desired.Keys
  }

  /** The ids that are new or whose entry differs. */
  function ChangedIds(applied: Entries, desired: Entries): set<ServiceID> {
    set id | id in desired && (id !in applied || applied[id] != desired[id])
  }

  /** Two listings that a reconcile may work through. */
  ghost predicate Worklists(applied: Entries, desired: Entries, removed: seq<ServiceID>, changed: seq<ServiceID>) {
    Lists(removed, RemovedIds(applied, desired)) && Lists(changed, ChangedIds(applied, desired))
  }

  /** Everything a reconcile does to the service, backend and round-robin maps. */
  ghost function Plan(applied: Entries, desired: Entries, removed: seq<ServiceID>,
                      changed: seq<ServiceID>): seq<ControlOp>
    requires Covers(applied, removed) && Covers(desired, changed) && AllInstallable(applied)
  {
    RemovalOps(applied, removed) + ChangeOps(applied, desired, changed)
  }

  // --- What any operation of a reconcile may be -----------------------------------------

  /** The applied entry does not stay as it is. */
  predicate Retired(applied: Entries, desired: Entries, id: ServiceID) {
    id in applied && (id !in desired || desired[id] != applied[id])
  }

  ghost predicate RetiredFrontend(applied: Entries, desired: Entries, fe: Frontend) {
    exists id :: Retired(applied, desired, id) && Keyed(applied[id]) && fe == FrontendFor(applied[id])
  }

  /** Writes install rows of desired entries, deletes concern frontends of retired entries. */
  ghost predicate Allowed(applied: Entries, desired: Entries, op: ControlOp) {
    match op
    case PutService(fe, svc) =>
      exists id :: id in desired && Keyed(desired[id]) && fe == FrontendFor(desired[id]) &&
          svc == ServiceRow(desired[id])
    case PutBackend(key, b) => DesiredSlot(desired, key, b)
    case DelBackend(key) => RetiredFrontend(applied, desired, key.service)
    case DelService(fe) => RetiredFrontend(applied, desired, fe)
    case DelRr(fe) => RetiredFrontend(applied, desired, fe)
    case PutConfig(_) => true
  }

  /** Some desired entry has backend b in the slot with this key. */
  ghost predicate DesiredSlot(desired: Entries, key: BackendKey, b: Backend) {
    exists id :: id in desired && EntrySlot(desired[id], key, b)
  }

  ghost predicate EntrySlot(e: Entry, key: BackendKey, b: Backend) {
    && Keyed(e) && key.service == FrontendFor(e) && key.slot < |e.backends|
    && PortOk(e.backends[key.slot].port) && b == BackendRow(e.backends[key.slot])
  }

  ghost predicate AllAllowed(applied: Entries, desired: Entries, ops: seq<ControlOp>) {
    forall i :: 0 <= i < |ops| ==> Allowed(applied, desired, ops[i])
  }

  lemma AllowedConcat(applied: Entries, desired: Entries, a: seq<ControlOp>, b: seq<ControlOp>)
    requires AllAllowed(applied, desired, a) && AllAllowed(applied, desired, b)
    ensures AllAllowed(applied, desired, a + b)
  {
  }

  lemma {:induction false} DeleteSlotsAllowed(applied: Entries, desired: Entries, id: ServiceID, n: nat)
    requires Retired(applied, desired, id) && Keyed(applied[id]) && n <= |applied[id].backends|
    ensures AllAllowed(applied, desired, DeleteSlots(applied[id], n))
  {
    if n > 0 {
      DeleteSlotsAllowed(applied, desired, id, n - 1);
      assert RetiredFrontend(applied, desired, Slot(applied[id], n - 1).service);
      AllowedConcat(applied, desired, DeleteSlots(applied[id], n - 1), [DelBackend(Slot(applied[id], n - 1))]);
    }
  }

  lemma DeleteAllowed(applied: Entries, desired: Entries, id: ServiceID, ops: seq<ControlOp>)
    requires Retired(applied, desired, id) && Keyed(applied[id]) && ops <= DeleteOps(applied[id])
    ensures AllAllowed(applied, desired, ops)
  {
    var e := applied[id];
    DeleteSlotsAllowed(applied, desired, id, |e.backends|);
    assert RetiredFrontend(applied, desired, FrontendFor(e));
    AllowedConcat(applied, desired, DeleteSlots(e, |e.backends|), [DelService(FrontendFor(e)), DelRr(FrontendFor(e))]);
    assert forall i :: 0 <= i < |ops| ==> ops[i] == DeleteOps(e)[i];
  }

  lemma {:induction false} UpsertSlotsAllowed(applied: Entries, desired: Entries, id: ServiceID, n: nat)
    requires id in desired && Keyed(desired[id]) && n <= |desired[id].backends| && BackendsOk(desired[id].backends[..n])
    ensures AllAllowed(applied, desired, UpsertSlots(desired[id], n))
  {
    if n > 0 {
      var e := desired[id];
      assert e.backends[..n][n - 1] == e.backends[n - 1];
      assert forall i :: 0 <= i < n - 1 ==> e.backends[..n - 1][i] == e.backends[..n][i];
      UpsertSlotsAllowed(applied, desired, id, n - 1);
      assert EntrySlot(e, Slot(e, n - 1), BackendRow(e.backends[n - 1]));
      AllowedConcat(applied, desired, UpsertSlots(e, n - 1),
          [PutBackend(Slot(e, n - 1), BackendRow(e.backends[n - 1]))]);
    }
  }

  /** What an upsert that stopped early did: nothing, or the service row and the first n slots. */
  ghost predicate UpsertBegun(e: Entry, ops: seq<ControlOp>) {
    ops == [] || (exists n :: UpsertReached(e, ops, n))
  }

  ghost predicate UpsertReached(e: Entry, ops: seq<ControlOp>, n: nat) {
    && Keyed(e) && n <= |e.backends| && BackendsOk(e.backends[..n])
    && ops == [PutService(FrontendFor(e), ServiceRow(e))] + UpsertSlots(e, n)
  }

  lemma UpsertAllowed(applied: Entries, desired: Entries, id: ServiceID, ops: seq<ControlOp>)
    requires id in desired && UpsertBegun(desired[id], ops)
    ensures AllAllowed(applied, desired, ops)
  {
    if ops != [] {
      var e := desired[id];
      var n :| UpsertReached(e, ops, n);
      UpsertSlotsAllowed(applied, desired, id, n);
      AllowedConcat(applied, desired, [PutService(FrontendFor(e), ServiceRow(e))], UpsertSlots(e, n));
    }
  }
}
