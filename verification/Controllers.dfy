/** The controller's methods that carry a reconcile out on the BPF maps (cmd/nodeport-syncer/main.go). */
module Controllers {
  import opened Net
  import opened Tables
  import opened Runs
  import opened Listing
  import opened Order
  import opened Reconciler
  import opened Rebuild
  import Datapath

  const MAX_BACKENDS := 4096

  // --- Which ids to work on -----------------------------------------------------------

  /** sortServiceIDs: by namespace, then name, then NodePort. */
  predicate IdLess(a: ServiceID, b: ServiceID) {
    if a.namespace != b.namespace then TextLess(a.namespace, b.namespace)
    else if a.name != b.name then TextLess(a.name, b.name)
    else a.nodePort < b.nodePort
  }

  lemma IdLessStrictTotal()
    ensures StrictTotal(IdLess)
  {
    hide TextLess;
    forall a: ServiceID, b: ServiceID ensures !IdLess(a, a) && (IdLess(a, b) || IdLess(b, a) || a == b) {
      TextLessTotal(a.namespace, b.namespace);
      TextLessTotal(a.name, b.name);
    }
    forall a: ServiceID, b: ServiceID, c: ServiceID | IdLess(a, b) && IdLess(b, c) ensures IdLess(a, c) {
      IdLessTransitive(a, b, c);
    }
  }

  lemma IdLessTransitive(a: ServiceID, b: ServiceID, c: ServiceID)
    requires IdLess(a, b) && IdLess(b, c)
    ensures IdLess(a, c)
  {
    hide TextLess;
    var ab := if a.name != b.name then TextLess(a.name, b.name) else a.nodePort < b.nodePort;
    var bc := if b.name != c.name then TextLess(b.name, c.name) else b.nodePort < c.nodePort;
    var ac := if a.name != c.name then TextLess(a.name, c.name) else a.nodePort < c.nodePort;
    if ab && bc {
      TextThenTransitive(a.name, b.name, c.name, a.nodePort < b.nodePort, b.nodePort < c.nodePort,
          a.nodePort < c.nodePort);
    }
    TextThenTransitive(a.namespace, b.namespace, c.namespace, ab, bc, ac);
  }

  /** A list in this order ascends by namespace, within it by name, and within it by NodePort. */
  lemma IdsInOrder(ids: seq<ServiceID>, i: nat, j: nat)
    requires Ascending(IdLess, ids) && i < j < |ids|
    ensures ids[i].namespace == ids[j].namespace || TextLess(ids[i].namespace, ids[j].namespace)
    ensures ids[i].namespace == ids[j].namespace ==>
              ids[i].name == ids[j].name || TextLess(ids[i].name, ids[j].name)
    ensures ids[i].namespace == ids[j].namespace && ids[i].name == ids[j].name ==> ids[i].nodePort < ids[j].nodePort
  {
    assert IdLess(ids[i], ids[j]);
  }

  /** nodePortEntry.equal compares field by field and backend by backend; it decides equality. */
  method EntriesEqual(e: Entry, other: Entry) returns (same: bool)
    ensures same <==> e == other
  {
    if e.id != other.id || e.nodeIp != other.nodeIp || e.snatIp != other.snatIp { return false; }
    if |e.backends| != |other.backends| { return false; }
    var i := 0;
    while i < |e.backends|
      invariant 0 <= i <= |e.backends|
      invariant e.backends[..i] == other.backends[..i]
    {
      if e.backends[i] != other.backends[i] { return false; }
      i := i + 1;
    }
    assert e.backends[..i] == e.backends && other.backends[..i] == other.backends;
    return true;
  }

  method SortedRemovedIDs(oldEntries: Entries, newEntries: Entries) returns (ids: seq<ServiceID>)
    ensures Lists(ids, RemovedIds(oldEntries, newEntries)) && Ascending(IdLess, ids)
  {
    var found: seq<ServiceID> := [];
    var rest := oldEntries.Keys;
    while rest != {}
      invariant rest <= oldEntries.Keys
      invariant Lists(found, RemovedIds(oldEntries, newEntries) - rest)
      decreases rest
    {
      var id :| id in rest;
      ghost var before := RemovedIds(oldEntries, newEntries) - rest;
      rest := rest - {id};
      if id !in newEntries {
        ListsAppend(found, before, id);
        found := found + [id];
        assert RemovedIds(oldEntries, newEntries) - rest == before + {id};
      } else {
        assert RemovedIds(oldEntries, newEntries) - rest == before;
      }
    }
    assert RemovedIds(oldEntries, newEntries) - rest == RemovedIds(oldEntries, newEntries);
    IdLessStrictTotal();
    ids := Sort(IdLess, found);
    AscendingIsDistinct(IdLess, ids);
  }

  method SortedChangedIDs(oldEntries: Entries, newEntries: Entries) returns (ids: seq<ServiceID>)
    ensures Lists(ids, ChangedIds(oldEntries, newEntries)) && Ascending(IdLess, ids)
  {
    var found: seq<ServiceID> := [];
    var rest := newEntries.Keys;
    while rest != {}
      invariant rest <= newEntries.Keys
      invariant Lists(found, ChangedIds(oldEntries, newEntries) - rest)
      decreases rest
    {
      var id :| id in rest;
      ghost var before := ChangedIds(oldEntries, newEntries) - rest;
      rest := rest - {id};
      var same := false;
      if id in oldEntries { same := EntriesEqual(oldEntries[id], newEntries[id]); }
      if !same {
        ListsAppend(found, before, id);
        found := found + [id];
        assert ChangedIds(oldEntries, newEntries) - rest == before + {id};
      } else {
        assert ChangedIds(oldEntries, newEntries) - rest == before;
      }
    }
    assert ChangedIds(oldEntries, newEntries) - rest == ChangedIds(oldEntries, newEntries);
    IdLessStrictTotal();
    ids := Sort(IdLess, found);
    AscendingIsDistinct(IdLess, ids);
  }

  // --- Single entries -----------------------------------------------------------------

  /** The operations so far are exactly what happened to the maps since s0. */
  ghost predicate Performed(m: Datapath.NodePortMaps, s0: Tables, ops: seq<ControlOp>)
    reads m
  {
    m.State() == ApplyAll(s0, ops)
  }

  /** DeleteEntry. A missing key is no error; any other failing delete ends the method early. */
  method DeleteEntry(m: Datapath.NodePortMaps, e: Entry, ghost s0: Tables, ghost before: seq<ControlOp>)
    returns (ok: bool, ghost ops: seq<ControlOp>)
    requires |e.backends| < 0x1_0000_0000 && Performed(m, s0, before)
    modifies m`backends, m`services, m`rr
    ensures Performed(m, s0, before + ops)
    ensures if PortOk(e.id.nodePort) then ops <= DeleteOps(e) && (ok ==> ops == DeleteOps(e)) else !ok && ops == []
  {
    hide ApplyAll;
    ops := [];
    assert before + ops == before;
    if !PortOk(e.id.nodePort) { return false, ops; }
    var fe := FrontendFor(e);
    var i := 0;
    while i < |e.backends|
      invariant 0 <= i <= |e.backends|
      invariant ops == DeleteSlots(e, i) && Performed(m, s0, before + ops)
    {
      var failed: bool := *;
      if failed {
        PrefixOfDelete(e, i);
        return false, ops;
      }
      m.backends := m.backends - {Slot(e, i)};
      ops := Append(s0, before, ops, DelBackend(Slot(e, i)));
      i := i + 1;
    }
    PrefixOfDelete(e, i);
    var failed: bool := *;
    if failed { return false, ops; }
    m.services := m.services - {fe};
    ops := Append(s0, before, ops, DelService(fe));
    failed := *;
    if failed { return false, ops; }
    m.rr := m.rr - {fe};
    ops := Append(s0, before, ops, DelRr(fe));
    return true, ops;
  }

  /** Records one more operation. */
  ghost method Append(s0: Tables, before: seq<ControlOp>, ops: seq<ControlOp>,
                      op: ControlOp) returns (more: seq<ControlOp>)
    ensures more == ops + [op] && ApplyAll(s0, before + more) == ApplyOp(ApplyAll(s0, before + ops), op)
  {
    more := ops + [op];
    ApplyOneMore(s0, before + ops, op);
    assert before + more == (before + ops) + [op];
  }

  lemma {:induction false} PrefixOfDelete(e: Entry, n: nat)
    requires Keyed(e) && n <= |e.backends|
    ensures DeleteSlots(e, n) <= DeleteSlots(e, |e.backends|) <= DeleteOps(e)
    decreases |e.backends| - n
  {
    if n < |e.backends| {
      PrefixOfDelete(e, n + 1);
    }
  }

  /** UpsertEntry. A value that does not marshal, a full map or a failing update ends it early. */
  method UpsertEntry(m: Datapath.NodePortMaps, e: Entry, ghost s0: Tables, ghost before: seq<ControlOp>)
    returns (ok: bool, ghost ops: seq<ControlOp>)
    requires |e.backends| < 0x1_0000_0000 && Performed(m, s0, before)
    modifies m`backends, m`services
    ensures Performed(m, s0, before + ops) && UpsertBegun(e, ops)
    ensures ok ==> Installable(e) && ops == UpsertOps(e)
  {
    hide ApplyAll;
    ops := [];
    assert before + ops == before;
    if !PortOk(e.id.nodePort) { return false, ops; }
    var fe := FrontendFor(e);
    var failed: bool := *;
    if failed || (fe !in m.services && |m.services| >= MAX_SERVICES) { return false, ops; }
    m.services := m.services[fe := ServiceRow(e)];
    ghost var put := PutService(fe, ServiceRow(e));
    ops := Append(s0, before, ops, put);
    ghost var n;
    ok, n := UpsertBackends(m, e, s0, before + ops);
    assert before + (ops + UpsertSlots(e, n)) == (before + ops) + UpsertSlots(e, n);
    ops := ops + UpsertSlots(e, n);
    assert UpsertReached(e, ops, n);
    assert ok ==> e.backends[..n] == e.backends;
  }

  /** The loop of UpsertEntry over the backends; n slots are written. */
  method UpsertBackends(m: Datapath.NodePortMaps, e: Entry, ghost s0: Tables, ghost before: seq<ControlOp>)
    returns (ok: bool, ghost n: nat)
    requires Keyed(e) && Performed(m, s0, before)
    modifies m`backends
    ensures n <= |e.backends| && BackendsOk(e.backends[..n]) && (ok ==> n == |e.backends|)
    ensures Performed(m, s0, before + UpsertSlots(e, n))
  {
    hide ApplyAll;
    n := 0;
    var i := 0;
    assert before + UpsertSlots(e, 0) == before;
    while i < |e.backends|
      invariant n == i <= |e.backends| && BackendsOk(e.backends[..i])
      invariant Performed(m, s0, before + UpsertSlots(e, i))
    {
      if !PortOk(e.backends[i].port) { return false, n; }
      var failed: bool := *;
      if failed || (Slot(e, i) !in m.backends && |m.backends| >= MAX_BACKENDS) { return false, n; }
      m.backends := m.backends[Slot(e, i) := BackendRow(e.backends[i])];
      ghost var _ := Append(s0, before, UpsertSlots(e, i), PutBackend(Slot(e, i), BackendRow(e.backends[i])));
      assert forall k :: 0 <= k < i ==> e.backends[..i + 1][k] == e.backends[..i][k];
      i := i + 1;
      n := i;
    }
    return true, n;
  }

  // --- The controller -----------------------------------------------------------------

  // --- How far a reconcile that fails gets ----------------------------------------------

  /** Part of replacing one entry: part of deleting the old version, or all of that and part of writing the new one. */
  ghost predicate ReplaceBegun(applied: Entries, desired: Entries, id: ServiceID, ops: seq<ControlOp>)
    requires AllInstallable(applied) && id in desired
  {
    || (id in applied && ops <= DeleteOps(applied[id]))
    || (var deleted := if id in applied then DeleteOps(applied[id]) else [];
        exists more :: UpsertBegun(desired[id], more) && ops == deleted + more)
  }

  /** Some changed entries replaced, the next one in part. */
  ghost predicate ChangesBegun(applied: Entries, desired: Entries, changed: seq<ServiceID>, k: nat, ops: seq<ControlOp>)
    requires AllInstallable(applied)
  {
    && k < |changed| && changed[k] in desired && Covers(desired, changed[..k])
    && var done := ChangeOps(applied, desired, changed[..k]);
    && done <= ops && ReplaceBegun(applied, desired, changed[k], ops[|done|..])
  }

  /** Part of the removals, or all of them and part of the changes: the plan up to some operation. */
  ghost predicate PlanBegun(applied: Entries, desired: Entries, removed: seq<ServiceID>, changed: seq<ServiceID>,
                            ops: seq<ControlOp>)
    requires AllInstallable(applied) && Covers(applied, removed)
  {
    var removals := RemovalOps(applied, removed);
    || ops <= removals
    || (removals <= ops && exists k: nat :: ChangesBegun(applied, desired, changed, k, ops[|removals|..]))
  }

  lemma {:induction false} PrefixOfRemovals(applied: Entries, ids: seq<ServiceID>, i: nat, more: seq<ControlOp>)
    requires Covers(applied, ids) && i < |ids| && more <= DeleteOps(applied[ids[i]])
    ensures RemovalOps(applied, ids[..i]) + more <= RemovalOps(applied, ids)
    decreases |ids| - i
  {
    hide DeleteOps;
    assert ids[..i + 1][..i] == ids[..i];
    assert RemovalOps(applied, ids[..i]) + more <= RemovalOps(applied, ids[..i + 1]);
    if i + 1 < |ids| {
      PrefixOfRemovals(applied, ids, i + 1, []);
    } else {
      assert ids[..i + 1] == ids;
    }
  }

  class Controller {
    const maps: Datapath.NodePortMaps
    var appliedConfig: Option<Config>
    var appliedEntries: Entries

    constructor (maps: Datapath.NodePortMaps)
      ensures this.maps == maps && appliedConfig == None && appliedEntries == map[] && AllInstallable(appliedEntries)
    {
      this.maps := maps;
      appliedConfig := None;
      appliedEntries := map[];
    }

    /** The first loop of reconcile: delete the entries that are gone. */
    method RemoveEntries(desired: Entries, removed: seq<ServiceID>, ghost s0: Tables, ghost before: seq<ControlOp>)
      returns (ok: bool, ghost ops: seq<ControlOp>)
      requires Covers(appliedEntries, removed) && Performed(maps, s0, before)
      requires forall id :: id in removed ==> Retired(appliedEntries, desired, id)
      modifies maps`backends, maps`services, maps`rr
      ensures Performed(maps, s0, before + ops)
      ensures ops <= RemovalOps(appliedEntries, removed) && (ok ==> ops == RemovalOps(appliedEntries, removed))
      ensures AllAllowed(appliedEntries, desired, ops)
    {
      hide ApplyAll, Allowed, DeleteOps;
      ops := [];
      assert before + ops == before;
      var i := 0;
      while i < |removed|
        invariant 0 <= i <= |removed|
        invariant ops == RemovalOps(appliedEntries, removed[..i]) && Performed(maps, s0, before + ops)
        invariant AllAllowed(appliedEntries, desired, ops)
      {
        var id := removed[i];
        ghost var more;
        ok, more := DeleteEntry(maps, appliedEntries[id], s0, before + ops);
        DeleteAllowed(appliedEntries, desired, id, more);
        PrefixOfRemovals(appliedEntries, removed, i, more);
        AllowedConcat(appliedEntries, desired, ops, more);
        assert before + (ops + more) == (before + ops) + more;
        ops := ops + more;
        if !ok { return; }
        assert removed[..i + 1][..i] == removed[..i];
        i := i + 1;
      }
      assert removed[..i] == removed;
      return true, ops;
    }

    /** One pass of the second loop of reconcile: the old version of an entry goes, the new one comes. */
    method ReplaceEntry(desired: Entries, id: ServiceID, ghost s0: Tables, ghost before: seq<ControlOp>)
      returns (ok: bool, ghost ops: seq<ControlOp>)
      requires AllInstallable(appliedEntries) && id in desired && |desired[id].backends| < 0x1_0000_0000
      requires Performed(maps, s0, before)
      requires id in appliedEntries ==> Retired(appliedEntries, desired, id)
      modifies maps`backends, maps`services, maps`rr
      ensures Performed(maps, s0, before + ops)
      ensures ok ==> Installable(desired[id]) && ops == ReplaceOps(appliedEntries, desired, id)
      ensures !ok ==> ReplaceBegun(appliedEntries, desired, id, ops)
      ensures AllAllowed(appliedEntries, desired, ops)
    {
      hide ApplyAll, Allowed, DeleteOps, UpsertOps, UpsertBegun;
      ops := [];
      assert before + ops == before;
      if id in appliedEntries {
        ok, ops := DeleteEntry(maps, appliedEntries[id], s0, before);
        DeleteAllowed(appliedEntries, desired, id, ops);
        if !ok { return; }
      }
      ghost var more;
      ok, more := UpsertEntry(maps, desired[id], s0, before + ops);
      UpsertAllowed(appliedEntries, desired, id, more);
      AllowedConcat(appliedEntries, desired, ops, more);
      assert before + (ops + more) == (before + ops) + more;
      ops := ops + more;
    }

    /** The second loop of reconcile. */
    method ReplaceEntries(desired: Entries, changed: seq<ServiceID>, ghost s0: Tables, ghost before: seq<ControlOp>)
      returns (ok: bool, ghost ops: seq<ControlOp>)
      requires AllInstallable(appliedEntries) && Performed(maps, s0, before)
      requires forall id :: id in changed ==> id in desired && |desired[id].backends| < 0x1_0000_0000 &&
                                              (id in appliedEntries ==> Retired(appliedEntries, desired, id))
      modifies maps`backends, maps`services, maps`rr
      ensures Performed(maps, s0, before + ops)
      ensures ok ==> Covers(desired, changed) && ops == ChangeOps(appliedEntries, desired, changed)
      ensures !ok ==> exists k: nat :: ChangesBegun(appliedEntries, desired, changed, k, ops)
      ensures AllAllowed(appliedEntries, desired, ops)
    {
      hide ApplyAll, Allowed, ReplaceOps, ReplaceBegun;
      ops := [];
      assert before + ops == before;
      var i := 0;
      while i < |changed|
        invariant 0 <= i <= |changed|
        invariant Covers(desired, changed[..i])
        invariant ops == ChangeOps(appliedEntries, desired, changed[..i]) && Performed(maps, s0, before + ops)
        invariant AllAllowed(appliedEntries, desired, ops)
      {
        ghost var more;
        ok, more := ReplaceEntry(desired, changed[i], s0, before + ops);
        AllowedConcat(appliedEntries, desired, ops, more);
        assert before + (ops + more) == (before + ops) + more;
        assert (ops + more)[|ops|..] == more;
        ops := ops + more;
        if !ok {
          assert ChangesBegun(appliedEntries, desired, changed, i, ops);
          return;
        }
        assert changed[..i + 1][..i] == changed[..i];
        i := i + 1;
      }
      assert changed[..i] == changed;
      return true, ops;
    }

    /** The first part of reconcile: write the delivery configuration if it changed. */
    method SyncConfig(config: Config, ghost s0: Tables) returns (ok: bool, ghost first: seq<ControlOp>)
      requires maps.State() == s0
      modifies this`appliedConfig, maps`config
      ensures Performed(maps, s0, first)
      ensures ok ==> appliedConfig == Some(config)
      ensures if appliedConfig == old(appliedConfig) then first == [] && maps.config == old(maps.config)
              else ok && first == [PutConfig(config)] && maps.config == Some(config)
    {
      first := [];
      NothingDone(s0);
      if appliedConfig == Some(config) { return true, first; }
      var failed: bool := *;
      if failed { return false, first; }
      maps.config := Some(config);
      first := Append(s0, [], [], PutConfig(config));
      assert [] + first == first == [PutConfig(config)];
      appliedConfig := Some(config);
      return true, first;
    }

    /** The rest of reconcile: both worklists and both loops. */
    method ApplyDiff(desired: Entries, ghost s0: Tables, ghost before: seq<ControlOp>)
      returns (ok: bool, ghost ops: seq<ControlOp>, ghost removed: seq<ServiceID>, ghost changed: seq<ServiceID>)
      requires AllInstallable(appliedEntries) && Performed(maps, s0, before)
      requires forall id :: id in desired ==> |desired[id].backends| < 0x1_0000_0000
      modifies maps`backends, maps`services, maps`rr
      ensures Performed(maps, s0, before + ops) && AllAllowed(appliedEntries, desired, ops)
      ensures Worklists(appliedEntries, desired, removed, changed) && Covers(appliedEntries, removed)
      ensures Ascending(IdLess, removed) && Ascending(IdLess, changed)
      ensures ok ==> Covers(desired, changed) && ops == Plan(appliedEntries, desired, removed, changed)
      ensures !ok ==> PlanBegun(appliedEntries, desired, removed, changed, ops)
    {
      hide ApplyAll, RemovalOps, ChangeOps, ChangesBegun, Allowed;
      var removedIDs := SortedRemovedIDs(appliedEntries, desired);
      var changedIDs := SortedChangedIDs(appliedEntries, desired);
      removed, changed := removedIDs, changedIDs;
      WorklistMembers(appliedEntries, desired, removed, changed);
      ok, ops := RemoveEntries(desired, removedIDs, s0, before);
      if !ok { return; }
      ghost var removals, more := ops, [];
      ok, more := ReplaceEntries(desired, changedIDs, s0, before + ops);
      AllowedConcat(appliedEntries, desired, ops, more);
      assert (before + removals) + more == before + (removals + more);
      ops := removals + more;
      assert ops[|removals|..] == more;
    }

    /**
     reconcile, given the delivery configuration and the desired entries, each None when the
     source's lookup fails. `first` and `ops` are the map operations performed, the configuration
     write apart from the others; the worklists are returned for the record.
     */
    method Reconcile(config: Option<Config>, desired: Option<Entries>)
      returns (ok: bool, ghost first: seq<ControlOp>, ghost ops: seq<ControlOp>, ghost removed: seq<ServiceID>,
               ghost changed: seq<ServiceID>)
      requires AllInstallable(appliedEntries)
      requires desired.Some? ==> forall id :: id in desired.value ==> |desired.value[id].backends| < 0x1_0000_0000
      modifies this, maps`backends, maps`services, maps`rr, maps`config
      ensures maps.State() == ApplyAll(old(maps.State()), first + ops)
      ensures if appliedConfig == old(appliedConfig) then first == []
              else config.Some? && appliedConfig == config && first == [PutConfig(config.value)]
      ensures ok ==>
                && config.Some? && desired.Some?
                && appliedConfig == config && appliedEntries == desired.value
                && Worklists(old(appliedEntries), desired.value, removed, changed)
                && Ascending(IdLess, removed) && Ascending(IdLess, changed)
                && Covers(old(appliedEntries), removed) && Covers(desired.value, changed)
                && ops == Plan(old(appliedEntries), desired.value, removed, changed)
      ensures ok && IsImage(old(appliedEntries), old(maps.State())) && Filed(desired.value) ==>
                IsImage(appliedEntries, maps.State())
      ensures AllInstallable(appliedEntries)
      ensures !ok ==>
                && appliedEntries == old(appliedEntries)
                && (ops == [] ||
                    (desired.Some? && appliedConfig == config &&
                     Worklists(appliedEntries, desired.value, removed, changed) && Covers(appliedEntries, removed) &&
                     PlanBegun(appliedEntries, desired.value, removed, changed, ops)))
      ensures desired.Some? ==> AllAllowed(old(appliedEntries), desired.value, first + ops)
    {
      hide ApplyAll, RemovalOps, ChangeOps, IsImage, Filed, PlanBegun, Worklists, Covers, Ascending, Allowed,
           AllInstallable, Plan;
      ghost var s0 := maps.State();
      first, ops, removed, changed := [], [], [], [];
      NothingDone(s0);
      if config.None? { return false, first, ops, removed, changed; }
      ok, first := SyncConfig(config.value, s0);
      assert first + [] == first;
      if !ok || desired.None? { return false, first, ops, removed, changed; }
      ok, ops, removed, changed := ApplyDiff(desired.value, s0, first);
      ConfigAllowed(appliedEntries, desired.value, first);
      AllowedConcat(appliedEntries, desired.value, first, ops);
      if !ok { return; }
      SuccessReachesImage(appliedEntries, desired.value, s0, first, removed, changed);
      ChangedCoverAll(appliedEntries, desired.value, removed, changed);
      appliedEntries := desired.value;
    }
  }

  lemma ConfigAllowed(applied: Entries, desired: Entries, first: seq<ControlOp>)
    requires first == [] || exists config :: first == [PutConfig(config)]
    ensures AllAllowed(applied, desired, first)
  {
  }

  /**
   Once the configuration row is written, the plan leads from the image of the applied entries to that
   of the desired ones.
   */
  lemma SuccessReachesImage(applied: Entries, desired: Entries, s: Tables, first: seq<ControlOp>,
                            removed: seq<ServiceID>, changed: seq<ServiceID>)
    requires AllInstallable(applied) && Worklists(applied, desired, removed, changed) && Covers(applied, removed)
    requires Covers(desired, changed)
    requires first == [] || exists config :: first == [PutConfig(config)]
    ensures IsImage(applied, s) && Filed(desired) ==>
            IsImage(desired, ApplyAll(s, first + Plan(applied, desired, removed, changed)))
  {
    ApplyConcat(s, first, Plan(applied, desired, removed, changed));
    ConfigKeepsImage(applied, s, first);
    hide IsImageOver, Plan, ApplyAll, Worklists, Covers, AllInstallable, Filed;
    if IsImage(applied, s) && Filed(desired) {
      PlanReachesDesired(applied, desired, ApplyAll(s, first), removed, changed, NOTHING_LEFT);
    }
  }

  lemma ConfigKeepsImage(es: Entries, s: Tables, first: seq<ControlOp>)
    requires first == [] || exists config :: first == [PutConfig(config)]
    ensures IsImage(es, s) ==> IsImage(es, ApplyAll(s, first))
  {
    hide IsImageOver;
    ConfigKeepsRows(s, first);
    if IsImage(es, s) { RowsDecideImage(es, s, ApplyAll(s, first), NOTHING_LEFT); }
  }

  lemma ConfigKeepsRows(s: Tables, first: seq<ControlOp>)
    requires first == [] || exists config :: first == [PutConfig(config)]
    ensures SameRows(s, ApplyAll(s, first))
  {
    if first != [] {
      assert first[..0] == [];
      assert ApplyAll(s, first) == ApplyOp(ApplyAll(s, first[..0]), first[0]);
    }
  }

  /** Unchanged entries were installed before, so all desired entries are installable once the changed ones are. */
  lemma ChangedCoverAll(applied: Entries, desired: Entries, removed: seq<ServiceID>, changed: seq<ServiceID>)
    requires AllInstallable(applied) && Worklists(applied, desired, removed, changed) && Covers(desired, changed)
    ensures AllInstallable(desired)
  {
    forall id | id in desired ensures Installable(desired[id]) {
      if id in ChangedIds(applied, desired) {
        assert id in Elements(changed);
      }
    }
  }

  lemma WorklistMembers(applied: Entries, desired: Entries, removed: seq<ServiceID>, changed: seq<ServiceID>)
    requires Worklists(applied, desired, removed, changed)
    ensures forall id :: id in removed ==> id in applied && Retired(applied, desired, id)
    ensures forall id :: id in changed ==> id in desired && (id in applied ==> Retired(applied, desired, id))
  {
    assert forall id :: id in removed <==> id in Elements(removed);
    assert forall id :: id in changed <==> id in Elements(changed);
  }

  lemma NothingDone(s: Tables)
    ensures ApplyAll(s, []) == s && ApplyAll(s, [] + []) == s
  {
    var none: seq<ControlOp> := [];
    assert none + [] == none;
  }
}
