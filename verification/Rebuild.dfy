/**
 An incremental reconcile leaves the maps exactly as a rebuild from nothing would: it takes the
 image of the applied entries to the image of the desired ones.
 */
module Rebuild {
  import opened Tables
  import opened Runs
  import opened Listing
  import opened Reconciler

  // --- Effects of the operation lists --------------------------------------------------

  function SlotKeys(e: Entry, n: nat): set<BackendKey>
    requires Installable(e) && n <= |e.backends|
  {
    set i: nat | i < n :: Slot(e, i)
  }

  lemma DropOneMore(m: map<BackendKey, Backend>, e: Entry, n: nat)
    requires Installable(e) && n < |e.backends|
    ensures m - SlotKeys(e, n + 1) == m - SlotKeys(e, n) - {Slot(e, n)}
  {
    hide Slot;
    assert SlotKeys(e, n + 1) == SlotKeys(e, n) + {Slot(e, n)};
  }

  lemma {:induction false} DeleteSlotsEffect(s: Tables, e: Entry, n: nat)
    requires Installable(e) && n <= |e.backends|
    ensures ApplyAll(s, DeleteSlots(e, n)) == s.(backends := s.backends - SlotKeys(e, n))
  {
    if n == 0 {
      assert s.backends - SlotKeys(e, 0) == s.backends;
    } else {
      DeleteSlotsEffect(s, e, n - 1);
      ApplyOneMore(s, DeleteSlots(e, n - 1), DelBackend(Slot(e, n - 1)));
      DropOneMore(s.backends, e, n - 1);
    }
  }

  lemma DeleteEffect(s: Tables, e: Entry)
    requires Installable(e)
    ensures ApplyAll(s, DeleteOps(e)) ==
            s.(backends := s.backends - SlotKeys(e, |e.backends|), services := s.services - {FrontendFor(e)},
                rr := s.rr - {FrontendFor(e)})
  {
    var slots, fe := DeleteSlots(e, |e.backends|), FrontendFor(e);
    DeleteSlotsEffect(s, e, |e.backends|);
    ApplyOneMore(s, slots, DelService(fe));
    ApplyOneMore(s, slots + [DelService(fe)], DelRr(fe));
    assert slots + [DelService(fe)] + [DelRr(fe)] == DeleteOps(e);
  }

  /** r is s with the first n slots of e written. */
  ghost predicate SlotsWritten(s: Tables, r: Tables, e: Entry, n: nat)
    requires Installable(e) && n <= |e.backends|
  {
    && r == s.(backends := r.backends)
    && (forall i: nat :: i < n ==> Slot(e, i) in r.backends && r.backends[Slot(e, i)] == BackendRow(e.backends[i]))
    && (forall key :: key in r.backends ==>
          (key.service == FrontendFor(e) && key.slot < n) || (key in s.backends && r.backends[key] == s.backends[key]))
    && (forall key :: key in s.backends && !(key.service == FrontendFor(e) && key.slot < n) ==>
        key in r.backends && r.backends[key] == s.backends[key])
  }

  lemma {:induction false} UpsertSlotsEffect(s: Tables, e: Entry, n: nat)
    requires Installable(e) && n <= |e.backends|
    requires BackendsOk(e.backends[..n])
    ensures SlotsWritten(s, ApplyAll(s, UpsertSlots(e, n)), e, n)
  {
    if n > 0 {
      UpsertSlotsEffect(s, e, n - 1);
      ApplyOneMore(s, UpsertSlots(e, n - 1), PutBackend(Slot(e, n - 1), BackendRow(e.backends[n - 1])));
    }
  }

  lemma UpsertEffect(s: Tables, e: Entry)
    requires Installable(e)
    ensures SlotsWritten(s.(services := s.services[FrontendFor(e) := ServiceRow(e)]), ApplyAll(s, UpsertOps(e)), e,
            |e.backends|)
  {
    var put := PutService(FrontendFor(e), ServiceRow(e));
    assert e.backends[..|e.backends|] == e.backends;
    ApplyConcat(s, [put], UpsertSlots(e, |e.backends|));
    ApplyOneMore(s, [], put);
    assert [] + [put] == [put];
    UpsertSlotsEffect(ApplyOp(s, put), e, |e.backends|);
  }

  // --- Images under one entry's operations ---------------------------------------------

  lemma RestIsWellFormed(es: Entries, id: ServiceID)
    requires WellFormed(es) && id in es
    ensures WellFormed(es - {id})
    ensures forall id2 :: id2 in es - {id} ==> FrontendFor(es[id2]) != FrontendFor(es[id])
  {
  }

  lemma ServicesAfterDelete(es: Entries, services: map<Frontend, Service>, id: ServiceID, left: Leftover)
    requires WellFormed(es) && ServicesMatch(es, services, left) && id in es && WellFormed(es - {id})
    ensures ServicesMatch(es - {id}, services - {FrontendFor(es[id])}, left)
  {
    var rest, r := es - {id}, services - {FrontendFor(es[id])};
    RestIsWellFormed(es, id);
    hide WellFormed;
    forall fe | fe in r && fe !in left.frontends ensures exists id2 :: HasFrontend(rest, id2, fe) {
      var id2 :| HasFrontend(es, id2, fe);
      assert HasFrontend(rest, id2, fe);
    }
  }

  lemma BackendsAfterDelete(es: Entries, backends: map<BackendKey, Backend>, id: ServiceID, left: Leftover)
    requires WellFormed(es) && BackendsMatch(es, backends, left) && id in es && WellFormed(es - {id})
    ensures BackendsMatch(es - {id}, backends - SlotKeys(es[id], |es[id].backends|), left)
  {
    var e, rest := es[id], es - {id};
    var r := backends - SlotKeys(e, |e.backends|);
    RestIsWellFormed(es, id);
    forall key | key in r && key !in left.slots ensures exists id2 :: HasSlot(rest, id2, key) {
      var id2 :| HasSlot(es, id2, key);
      assert id2 != id by { assert id2 == id ==> key == Slot(e, key.slot); }
      assert HasSlot(rest, id2, key);
    }
  }

  lemma DeleteFromImage(es: Entries, s: Tables, id: ServiceID, left: Leftover)
    requires IsImageOver(es, s, left) && id in es
    ensures IsImageOver(es - {id}, ApplyAll(s, DeleteOps(es[id])), left)
  {
    RestIsWellFormed(es, id);
    DeleteEffect(s, es[id]);
    ServicesAfterDelete(es, s.services, id, left);
    BackendsAfterDelete(es, s.backends, id, left);
    hide WellFormed, ServicesMatch, BackendsMatch, ApplyAll, DeleteOps, SlotKeys;
  }

  lemma MoreIsWellFormed(es: Entries, e: Entry)
    requires WellFormed(es) && Installable(e) && e.id !in es && forall id :: id in es ==> id.nodePort != e.id.nodePort
    ensures WellFormed(es[e.id := e])
    ensures forall id :: id in es ==> FrontendFor(es[id]) != FrontendFor(e) && es[e.id := e][id] == es[id]
  {
  }

  lemma ServicesAfterPut(es: Entries, services: map<Frontend, Service>, e: Entry, left: Leftover)
    requires WellFormed(es) && ServicesMatch(es, services, left) && Installable(e) && e.id !in es
    requires WellFormed(es[e.id := e])
    requires forall id :: id in es ==> FrontendFor(es[id]) != FrontendFor(e)
    ensures ServicesMatch(es[e.id := e], services[FrontendFor(e) := ServiceRow(e)], left)
  {
    var more, r := es[e.id := e], services[FrontendFor(e) := ServiceRow(e)];
    hide WellFormed;
    forall fe | fe in r && fe !in left.frontends ensures exists id :: HasFrontend(more, id, fe) {
      if fe == FrontendFor(e) {
        assert HasFrontend(more, e.id, fe);
      } else {
        var id :| HasFrontend(es, id, fe);
        assert HasFrontend(more, id, fe);
      }
    }
  }

  lemma BackendsAfterWrite(es: Entries, s: Tables, r: Tables, e: Entry, left: Leftover)
    requires WellFormed(es) && BackendsMatch(es, s.backends, left) && Installable(e) && e.id !in es
    requires WellFormed(es[e.id := e])
    requires forall id :: id in es ==> FrontendFor(es[id]) != FrontendFor(e)
    requires SlotsWritten(s, r, e, |e.backends|)
    ensures BackendsMatch(es[e.id := e], r.backends, left)
  {
    hide WellFormed;
    var more := es[e.id := e];
    forall key | key in r.backends && key !in left.slots ensures exists id :: HasSlot(more, id, key) {
      if key.service == FrontendFor(e) && key.slot < |e.backends| {
        assert HasSlot(more, e.id, key);
      } else {
        var id :| HasSlot(es, id, key);
        assert HasSlot(more, id, key);
      }
    }
    OldRowsStay(es, s, r, e, left);
  }

  lemma OldRowsStay(es: Entries, s: Tables, r: Tables, e: Entry, left: Leftover)
    requires WellFormed(es) && BackendsMatch(es, s.backends, left) && Installable(e)
    requires forall id :: id in es ==> FrontendFor(es[id]) != FrontendFor(e)
    requires SlotsWritten(s, r, e, |e.backends|)
    ensures forall id, i: nat :: id in es && i < |es[id].backends| ==>
              Slot(es[id], i) in r.backends && r.backends[Slot(es[id], i)] == BackendRow(es[id].backends[i])
  {
  }

  lemma UpsertIntoImage(es: Entries, s: Tables, e: Entry, left: Leftover)
    requires IsImageOver(es, s, left) && Installable(e) && e.id !in es
    requires forall id :: id in es ==> id.nodePort != e.id.nodePort
    ensures IsImageOver(es[e.id := e], ApplyAll(s, UpsertOps(e)), left)
  {
    MoreIsWellFormed(es, e);
    UpsertEffect(s, e);
    ServicesAfterPut(es, s.services, e, left);
    var s1, r := s.(services := s.services[FrontendFor(e) := ServiceRow(e)]), ApplyAll(s, UpsertOps(e));
    BackendsAfterWrite(es, s1, r, e, left);
    assert r.services == s1.services;
    hide WellFormed, ServicesMatch, BackendsMatch, ApplyAll, UpsertOps, SlotsWritten;
  }

  // --- The whole plan -------------------------------------------------------------------

  lemma ElementsNone(ids: seq<ServiceID>)
    requires ids == []
    ensures Elements(ids) == {}
  {
  }

  lemma CoversElements(es: Entries, ids: seq<ServiceID>)
    requires Covers(es, ids)
    ensures Elements(ids) <= es.Keys
  {
  }

  lemma NotInFront(ids: seq<ServiceID>)
    requires ids != [] && Distinct(ids)
    ensures var front, id := ids[..|ids| - 1], ids[|ids| - 1];
            Distinct(front) && id !in front && id !in Elements(front) && Elements(ids) == Elements(front) + {id}
  {
    ElementsPrefix(ids, |ids| - 1);
    assert ids[..|ids| - 1 + 1] == ids;
  }

  lemma {:induction false} RemovalImage(applied: Entries, s: Tables, ids: seq<ServiceID>, left: Leftover)
    requires IsImageOver(applied, s, left) && Covers(applied, ids) && Distinct(ids)
    ensures IsImageOver(applied - Elements(ids), ApplyAll(s, RemovalOps(applied, ids)), left)
  {
    hide IsImageOver, Elements, DeleteOps;
    if ids == [] {
      ElementsNone(ids);
      assert applied - Elements(ids) == applied;
    } else {
      var front, id := ids[..|ids| - 1], ids[|ids| - 1];
      RemovalImage(applied, s, front, left);
      var rest := applied - Elements(front);
      NotInFront(ids);
      DeleteFromImage(rest, ApplyAll(s, RemovalOps(applied, front)), id, left);
      ApplyConcat(s, RemovalOps(applied, front), DeleteOps(applied[id]));
      assert applied - Elements(ids) == rest - {id};
    }
  }

  /** The entries whose image is installed once the removals and the first changes are done. */
  function Progress(applied: Entries, desired: Entries, changed: set<ServiceID>): Entries {
    map id | id in desired && (id in changed || id in applied) :: if id in changed then desired[id] else applied[id]
  }

  /** What a reconcile may rely on: desired entries are filed under their ids and have distinct NodePorts. */
  ghost predicate Filed(es: Entries) {
    (forall id :: id in es ==> es[id].id == id) && DistinctPorts(es)
  }

  lemma ReplaceImage(applied: Entries, desired: Entries, s: Tables, changed: set<ServiceID>, id: ServiceID,
                     left: Leftover)
    requires WellFormed(applied) && Filed(desired) && id in desired && id !in changed && changed <= desired.Keys
    requires Installable(desired[id])
    requires IsImageOver(Progress(applied, desired, changed), s, left)
    ensures IsImageOver(Progress(applied, desired, changed + {id}), ApplyAll(s, ReplaceOps(applied, desired, id)), left)
  {
    hide IsImageOver, DeleteOps, UpsertOps, ApplyAll;
    var now, e := Progress(applied, desired, changed), desired[id];
    var base, s1 := now - {id}, if id in applied then ApplyAll(s, DeleteOps(applied[id])) else s;
    if id in applied {
      assert now[id] == applied[id];
      DeleteFromImage(now, s, id, left);
      ApplyConcat(s, DeleteOps(applied[id]), UpsertOps(e));
    } else {
      assert base == now;
      assert [] + UpsertOps(e) == UpsertOps(e);
    }
    forall id2 | id2 in base ensures id2.nodePort != e.id.nodePort {
      assert id2 in desired && id2 != id;
    }
    UpsertIntoImage(base, s1, e, left);
    assert base[id := e] == Progress(applied, desired, changed + {id});
  }

  lemma {:induction false} ChangeImage(applied: Entries, desired: Entries, s: Tables, ids: seq<ServiceID>,
                                       left: Leftover)
    requires WellFormed(applied) && Filed(desired) && Covers(desired, ids) && Distinct(ids)
    requires IsImageOver(Progress(applied, desired, {}), s, left)
    ensures IsImageOver(Progress(applied, desired, Elements(ids)), ApplyAll(s, ChangeOps(applied, desired, ids)), left)
  {
    hide IsImageOver, Elements, ReplaceOps, Progress;
    if ids == [] {
      ElementsNone(ids);
    } else {
      var front, id := ids[..|ids| - 1], ids[|ids| - 1];
      ChangeImage(applied, desired, s, front, left);
      NotInFront(ids);
      CoversElements(desired, front);
      ReplaceImage(applied, desired, ApplyAll(s, ChangeOps(applied, desired, front)), Elements(front), id, left);
      ApplyConcat(s, ChangeOps(applied, desired, front), ReplaceOps(applied, desired, id));
    }
  }

  /**
   The plan takes the image of the applied entries to the image of the desired ones, however its
   worklists are ordered and whatever rows an earlier process left in the maps.
   */
  lemma PlanReachesDesired(applied: Entries, desired: Entries, s: Tables, removed: seq<ServiceID>,
                           changed: seq<ServiceID>, left: Leftover)
    requires IsImageOver(applied, s, left) && Filed(desired)
    requires Worklists(applied, desired, removed, changed) && Covers(applied, removed) && Covers(desired, changed)
    ensures IsImageOver(desired, ApplyAll(s, Plan(applied, desired, removed, changed)), left)
  {
    assert WellFormed(applied);
    ProgressEnds(applied, desired);
    hide IsImageOver, ApplyAll, RemovalOps, ChangeOps, Progress, Elements, Distinct, WellFormed, RemovedIds, ChangedIds,
         Covers;
    RemovalImage(applied, s, removed, left);
    var s1 := ApplyAll(s, RemovalOps(applied, removed));
    ChangeImage(applied, desired, s1, changed, left);
    ApplyConcat(s, RemovalOps(applied, removed), ChangeOps(applied, desired, changed));
  }

  lemma ProgressEnds(applied: Entries, desired: Entries)
    ensures applied - RemovedIds(applied, desired) == Progress(applied, desired, {})
    ensures Progress(applied, desired, ChangedIds(applied, desired)) == desired
  {
  }

  /**
   Incremental equals rebuild: from the image of the applied entries, the plan leaves the service
   and backend maps equal to those built from the desired entries on empty maps.
   */
  lemma IncrementalEqualsRebuild(applied: Entries, desired: Entries, s: Tables, removed: seq<ServiceID>,
                                 changed: seq<ServiceID>,
                                 blank: Tables, all: seq<ServiceID>)
    requires IsImage(applied, s) && Filed(desired)
    requires Worklists(applied, desired, removed, changed) && Covers(applied, removed) && Covers(desired, changed)
    requires blank.services == map[] && blank.backends == map[] && Lists(all, desired.Keys) && Covers(desired, all)
    ensures var incremental := ApplyAll(s, Plan(applied, desired, removed, changed));
            var rebuilt := ApplyAll(blank, Plan(map[], desired, [], all));
            incremental.services == rebuilt.services && incremental.backends == rebuilt.backends
  {
    NothingIsImage(blank, NOTHING_LEFT);
    FirstWorklists(desired, all);
    hide IsImageOver, Worklists, Plan, ApplyAll, Covers, Lists;
    PlanReachesDesired(applied, desired, s, removed, changed, NOTHING_LEFT);
    PlanReachesDesired(map[], desired, blank, [], all, NOTHING_LEFT);
    ImageIsUnique(desired, ApplyAll(s, Plan(applied, desired, removed, changed)),
        ApplyAll(blank, Plan(map[], desired, [], all)));
  }

  lemma FirstWorklists(desired: Entries, all: seq<ServiceID>)
    requires Lists(all, desired.Keys)
    ensures Worklists(map[], desired, [], all) && Covers(map[], [])
  {
    assert ChangedIds(map[], desired) == desired.Keys;
  }

  // --- Rows of an earlier process ----------------------------------------------------------

  /** The rows that are in the maps. */
  ghost function RowsOf(s: Tables): Leftover {
    Leftover(s.services.Keys, s.backends.Keys)
  }

  lemma NothingIsImage(s: Tables, left: Leftover)
    requires s.services.Keys <= left.frontends && s.backends.Keys <= left.slots
    ensures IsImageOver(map[], s, left)
  {
  }

  /** Every leftover service row belongs to a desired frontend, every leftover slot is one of its slots. */
  ghost predicate LeftoversFit(desired: Entries, left: Leftover)
    requires WellFormed(desired)
  {
    && (forall fe :: fe in left.frontends ==> exists id :: HasFrontend(desired, id, fe))
    && (forall key :: key in left.slots ==> exists id :: HasSlot(desired, id, key))
  }

  lemma UpsertKeepsRows(s: Tables, e: Entry)
    requires Installable(e)
    ensures var r := ApplyAll(s, UpsertOps(e));
            s.services.Keys <= r.services.Keys && s.backends.Keys <= r.backends.Keys
  {
    UpsertEffect(s, e);
    hide ApplyAll, UpsertOps;
    var r := ApplyAll(s, UpsertOps(e));
    forall key | key in s.backends ensures key in r.backends {
      assert key.service == FrontendFor(e) && key.slot < |e.backends| ==> key == Slot(e, key.slot);
    }
  }

  /** A first reconcile deletes nothing. */
  lemma {:induction false} FirstKeepsRows(desired: Entries, s: Tables, ids: seq<ServiceID>)
    requires Covers(desired, ids)
    ensures var r := ApplyAll(s, ChangeOps(map[], desired, ids));
            s.services.Keys <= r.services.Keys && s.backends.Keys <= r.backends.Keys
  {
    hide UpsertOps;
    if ids != [] {
      var front, id := ids[..|ids| - 1], ids[|ids| - 1];
      FirstKeepsRows(desired, s, front);
      assert ReplaceOps(map[], desired, id) == UpsertOps(desired[id]);
      ApplyConcat(s, ChangeOps(map[], desired, front), ReplaceOps(map[], desired, id));
      UpsertKeepsRows(ApplyAll(s, ChangeOps(map[], desired, front)), desired[id]);
      hide ApplyAll;
    }
  }

  /**
   A syncer that starts over rows of an earlier process: its first reconcile leaves the maps equal
   to the image of the desired entries exactly when every leftover service row belongs to a desired
   frontend and every leftover slot lies below its backend count.
   */
  lemma FirstReconcileIff(desired: Entries, s: Tables, changed: seq<ServiceID>)
    requires WellFormed(desired) && Worklists(map[], desired, [], changed) && Covers(desired, changed)
    ensures IsImage(desired, ApplyAll(s, Plan(map[], desired, [], changed))) <==> LeftoversFit(desired, RowsOf(s))
  {
    var r := ApplyAll(s, Plan(map[], desired, [], changed));
    NothingIsImage(s, RowsOf(s));
    PlanReachesDesired(map[], desired, s, [], changed, RowsOf(s));
    FirstKeepsRows(desired, s, changed);
    assert Plan(map[], desired, [], changed) == ChangeOps(map[], desired, changed);
    hide Plan, ApplyAll, ChangeOps, Worklists, Covers;
    FitIff(desired, s, r);
  }

  lemma FitIff(desired: Entries, s: Tables, r: Tables)
    requires IsImageOver(desired, r, RowsOf(s))
    requires s.services.Keys <= r.services.Keys && s.backends.Keys <= r.backends.Keys
    ensures IsImage(desired, r) <==> LeftoversFit(desired, RowsOf(s))
  {
    hide WellFormed, HasFrontend, HasSlot;
  }

  // --- The round-robin map ----------------------------------------------------------------

  ghost function FrontendsOf(es: Entries, ids: set<ServiceID>): set<Frontend>
    requires AllInstallable(es)
  {
    set id | id in ids && id in es :: FrontendFor(es[id])
  }

  lemma UpsertKeepsRr(s: Tables, e: Entry)
    requires Installable(e)
    ensures ApplyAll(s, UpsertOps(e)).rr == s.rr
  {
    UpsertEffect(s, e);
  }

  lemma MinusBoth<K, V>(m: map<K, V>, a: set<K>, b: set<K>)
    ensures m - (a + b) == m - a - b
    ensures m - {} == m
  {
  }

  /** The frontends of the last id of a list, if it was applied. */
  ghost function LastFrontend(es: Entries, id: ServiceID): set<Frontend>
    requires AllInstallable(es)
  {
    if id in es then {FrontendFor(es[id])} else {}
  }

  lemma FrontendsOneMore(es: Entries, ids: seq<ServiceID>)
    requires AllInstallable(es) && ids != []
    ensures FrontendsOf(es, Elements(ids)) ==
            FrontendsOf(es, Elements(ids[..|ids| - 1])) + LastFrontend(es, ids[|ids| - 1])
  {
    ElementsPrefix(ids, |ids| - 1);
    assert ids[..|ids| - 1 + 1] == ids;
  }

  lemma FrontendsNone(es: Entries)
    requires AllInstallable(es)
    ensures FrontendsOf(es, Elements([])) == {}
  {
  }

  lemma {:induction false} RemovalRr(applied: Entries, s: Tables, ids: seq<ServiceID>)
    requires Covers(applied, ids) && AllInstallable(applied)
    ensures ApplyAll(s, RemovalOps(applied, ids)).rr == s.rr - FrontendsOf(applied, Elements(ids))
  {
    hide FrontendsOf, Elements, DeleteOps, FrontendFor, ApplyAll;
    if ids == [] {
      FrontendsNone(applied);
      NoOps(s);
    } else {
      var front, id := ids[..|ids| - 1], ids[|ids| - 1];
      RemovalRr(applied, s, front);
      ApplyConcat(s, RemovalOps(applied, front), DeleteOps(applied[id]));
      DeleteEffect(ApplyAll(s, RemovalOps(applied, front)), applied[id]);
      FrontendsOneMore(applied, ids);
      MinusBoth(s.rr, FrontendsOf(applied, Elements(front)), LastFrontend(applied, id));
    }
  }

  lemma NoOps(s: Tables)
    ensures ApplyAll(s, []) == s && s.rr - {} == s.rr
  {
  }

  lemma ReplaceRr(applied: Entries, desired: Entries, s: Tables, id: ServiceID)
    requires AllInstallable(applied) && id in desired && Installable(desired[id])
    ensures ApplyAll(s, ReplaceOps(applied, desired, id)).rr == s.rr - LastFrontend(applied, id)
  {
    hide DeleteOps, UpsertOps, ApplyAll, FrontendFor;
    var clear := if id in applied then DeleteOps(applied[id]) else [];
    ApplyConcat(s, clear, UpsertOps(desired[id]));
    if id in applied { DeleteEffect(s, applied[id]); } else { NoOps(s); }
    UpsertKeepsRr(ApplyAll(s, clear), desired[id]);
  }

  lemma {:induction false} ChangeRr(applied: Entries, desired: Entries, s: Tables, ids: seq<ServiceID>)
    requires AllInstallable(applied) && Covers(desired, ids)
    ensures ApplyAll(s, ChangeOps(applied, desired, ids)).rr == s.rr - FrontendsOf(applied, Elements(ids))
  {
    hide FrontendsOf, Elements, ReplaceOps, LastFrontend, ApplyAll;
    if ids == [] {
      FrontendsNone(applied);
      NoOps(s);
    } else {
      var front, id := ids[..|ids| - 1], ids[|ids| - 1];
      ChangeRr(applied, desired, s, front);
      ApplyConcat(s, ChangeOps(applied, desired, front), ReplaceOps(applied, desired, id));
      ReplaceRr(applied, desired, ApplyAll(s, ChangeOps(applied, desired, front)), id);
      FrontendsOneMore(applied, ids);
      MinusBoth(s.rr, FrontendsOf(applied, Elements(front)), LastFrontend(applied, id));
    }
  }

  /** A reconcile resets the round-robin cursor of exactly the frontends of removed and changed applied entries. */
  lemma PlanResetsCursors(applied: Entries, desired: Entries, s: Tables, removed: seq<ServiceID>,
                          changed: seq<ServiceID>)
    requires AllInstallable(applied) && Covers(applied, removed) && Covers(desired, changed)
    requires Worklists(applied, desired, removed, changed)
    ensures ApplyAll(s, Plan(applied, desired, removed, changed)).rr ==
            s.rr - FrontendsOf(applied, RemovedIds(applied, desired) + ChangedIds(applied, desired))
  {
    FrontendsOfBoth(applied, RemovedIds(applied, desired), ChangedIds(applied, desired));
    hide ApplyAll, RemovalOps, ChangeOps, FrontendsOf, RemovedIds, ChangedIds;
    RemovalRr(applied, s, removed);
    ApplyConcat(s, RemovalOps(applied, removed), ChangeOps(applied, desired, changed));
    ChangeRr(applied, desired, ApplyAll(s, RemovalOps(applied, removed)), changed);
    MinusBoth(s.rr, FrontendsOf(applied, Elements(removed)), FrontendsOf(applied, Elements(changed)));
  }

  lemma FrontendsOfBoth(es: Entries, a: set<ServiceID>, b: set<ServiceID>)
    requires AllInstallable(es)
    ensures FrontendsOf(es, a + b) == FrontendsOf(es, a) + FrontendsOf(es, b)
  {
  }
}
