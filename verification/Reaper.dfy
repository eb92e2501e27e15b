/**
 The conntrack reaper (cmd/nodeport-syncer/conntrack_gc.go): the deletion plan computed from
 snapshots of the two tables, and the deletes that carry it out.
 */
module Reaper {
  import opened Net
  import opened Tables
  import opened Listing
  import Datapath

  /** conntrackExpired; the guard keeps the unsigned subtraction from underflowing. */
  function Expired(now: Word64, lastSeen: Word64, timeout: Word64): (r: bool)
    ensures r <==> timeout > 0 && lastSeen + timeout < now
  {
    if timeout == 0 || now <= lastSeen then false
    else
      var idle: Word64 := now - lastSeen;
      idle > timeout
  }

  lemma ExpiryIsMonotone(now: Word64, later: Word64, lastSeen: Word64, timeout: Word64)
    requires now <= later && Expired(now, lastSeen, timeout)
    ensures Expired(later, lastSeen, timeout)
  {
  }

  function StaleCt(ct: map<CtKey, CtValue>, now: Word64, timeout: Word64): set<CtKey> {
    set k | k in ct && Expired(now, ct[k].lastSeen, timeout)
  }

  /** The flows named by the entries under a set of conntrack keys. */
  function FlowsOf(ct: map<CtKey, CtValue>, keys: set<CtKey>): set<FwdKey>
    requires keys <= ct.Keys
  {
    set k | k in keys :: FlowOf(k, ct[k])
  }

  function ActiveFlows(ct: map<CtKey, CtValue>, now: Word64, timeout: Word64): set<FwdKey> {
    FlowsOf(ct, ct.Keys - StaleCt(ct, now, timeout))
  }

  /** Flows with an expired entry, and forward keys that no active entry names. */
  function StaleFwd(ct: map<CtKey, CtValue>, fwdKeys: set<FwdKey>, now: Word64, timeout: Word64): set<FwdKey> {
    FlowsOf(ct, StaleCt(ct, now, timeout)) + (fwdKeys - ActiveFlows(ct, now, timeout))
  }

  /** Both tables after a reap that no packet interrupts. */
  function Reaped(s: Tables, now: Word64, timeout: Word64): Tables {
    s.(ct := s.ct - StaleCt(s.ct, now, timeout), fwd := s.fwd - StaleFwd(s.ct, s.fwd.Keys, now, timeout))
  }

  // --- Building the plan --------------------------------------------------------------

  datatype GcPlan = GcPlan(activeCt: nat, activeFwd: nat, staleCt: seq<CtKey>, staleFwd: seq<FwdKey>)

  function CountIn(keys: seq<FwdKey>, s: set<FwdKey>): nat {
    if keys == [] then 0 else CountIn(keys[..|keys| - 1], s) + (if keys[|keys| - 1] in s then 1 else 0)
  }

  lemma {:induction false} CountInCounts(keys: seq<FwdKey>, s: set<FwdKey>)
    ensures CountIn(keys, s) == |Filter(keys, (k: FwdKey) => k in s)|
  {
    if keys != [] { CountInCounts(keys[..|keys| - 1], s); }
  }

  /** The count does not depend on the order of the keys. */
  lemma CountInOrderless(keys: seq<FwdKey>, other: seq<FwdKey>, s: set<FwdKey>)
    requires multiset(keys) == multiset(other)
    ensures CountIn(keys, s) == CountIn(other, s)
  {
    CountInCounts(keys, s);
    CountInCounts(other, s);
    FilterAlike(keys, other, (k: FwdKey) => k in s);
  }

  /** Over a listing of a set it is the size of the intersection. */
  lemma {:induction false} CountInListing(keys: seq<FwdKey>, all: set<FwdKey>, s: set<FwdKey>)
    requires Lists(keys, all)
    ensures CountIn(keys, s) == |all * s|
  {
    if keys == [] {
      assert all * s == {};
    } else {
      var front, last := keys[..|keys| - 1], keys[|keys| - 1];
      ElementsAppend(front, last);
      assert keys == front + [last];
      assert last !in front;
      CountInListing(front, all - {last}, s);
      if last in s {
        assert all * s == (all - {last}) * s + {last};
      } else {
        assert all * s == (all - {last}) * s;
      }
    }
  }

  lemma FlowsOfOneMore(ct: map<CtKey, CtValue>, keys: set<CtKey>, key: CtKey)
    requires keys <= ct.Keys && key in ct
    ensures FlowsOf(ct, keys + {key}) == FlowsOf(ct, keys) + {FlowOf(key, ct[key])}
  {
  }

  /** The first loop of buildConntrackGCPlan: expired entries and the flows on either side. */
  method ScanConntrack(now: Word64, timeout: Word64, ctEntries: map<CtKey, CtValue>)
    returns (staleCt: seq<CtKey>, activeCt: nat, activeFwd: set<FwdKey>, staleFwd: set<FwdKey>)
    ensures Lists(staleCt, StaleCt(ctEntries, now, timeout))
    ensures activeCt + |staleCt| == |ctEntries|
    ensures activeFwd == ActiveFlows(ctEntries, now, timeout)
    ensures staleFwd == FlowsOf(ctEntries, StaleCt(ctEntries, now, timeout))
  {
    hide FlowsOf, Expired, Lists, FlowOf;
    staleCt, activeCt, activeFwd, staleFwd := [], 0, {}, {};
    var rest := ctEntries.Keys;
    ghost var stale: set<CtKey>, active: set<CtKey> := {}, {};
    FlowsOfNothing(ctEntries);
    ListsNothing<CtKey>();
    while rest != {}
      invariant rest <= ctEntries.Keys && stale <= ctEntries.Keys && active <= ctEntries.Keys
      invariant forall k :: k in ctEntries ==>
              (k in rest && k !in stale && k !in active) || (k !in rest && (k in stale <==> k !in active))
      invariant forall k :: k in stale ==> Expired(now, ctEntries[k].lastSeen, timeout)
      invariant forall k :: k in active ==> !Expired(now, ctEntries[k].lastSeen, timeout)
      invariant Lists(staleCt, stale) && activeCt == |active|
      invariant activeFwd == FlowsOf(ctEntries, active) && staleFwd == FlowsOf(ctEntries, stale)
      decreases rest
    {
      var key :| key in rest;
      var value := ctEntries[key];
      rest := rest - {key};
      if Expired(now, value.lastSeen, timeout) {
        ListsAppend(staleCt, stale, key);
        FlowsOfOneMore(ctEntries, stale, key);
        staleCt := staleCt + [key];
        staleFwd := staleFwd + {FlowOf(key, value)};
        stale := stale + {key};
      } else {
        FlowsOfOneMore(ctEntries, active, key);
        activeCt := activeCt + 1;
        activeFwd := activeFwd + {FlowOf(key, value)};
        active := active + {key};
      }
    }
    assert stale == StaleCt(ctEntries, now, timeout);
    assert active == ctEntries.Keys - stale;
    ListLength(staleCt, stale);
    PartsAddUp(ctEntries, stale);
  }

  lemma PartsAddUp(ct: map<CtKey, CtValue>, part: set<CtKey>)
    requires part <= ct.Keys
    ensures |ct.Keys - part| + |part| == |ct|
  {
    assert ct.Keys == (ct.Keys - part) + part;
  }

  lemma FlowsOfNothing(ct: map<CtKey, CtValue>)
    ensures FlowsOf(ct, {}) == {}
  {
  }

  /**
   buildConntrackGCPlan. Nothing in the plan but the order of the lists depends on the iteration order
   of the maps.
   */
  method BuildConntrackGCPlan(now: Word64, timeout: int, ctEntries: map<CtKey, CtValue>, fwdKeys: seq<FwdKey>)
    returns (plan: GcPlan)
    requires timeout < 0x8000_0000_0000_0000
    ensures timeout <= 0 ==> plan == GcPlan(|ctEntries|, |fwdKeys|, [], [])
    ensures timeout > 0 ==>
              && Lists(plan.staleCt, StaleCt(ctEntries, now, timeout))
              && Lists(plan.staleFwd, StaleFwd(ctEntries, Elements(fwdKeys), now, timeout))
              && plan.activeCt + |plan.staleCt| == |ctEntries|
              && plan.activeFwd == CountIn(fwdKeys, ActiveFlows(ctEntries, now, timeout))
  {
    if timeout <= 0 {
      return GcPlan(|ctEntries|, |fwdKeys|, [], []);
    }
    var staleCt, activeCt, activeFwd, staleFwd := ScanConntrack(now, timeout, ctEntries);
    ghost var expiredFlows := staleFwd;
    var activeFwdCount := 0;
    var i := 0;
    while i < |fwdKeys|
      invariant 0 <= i <= |fwdKeys|
      invariant activeFwdCount == CountIn(fwdKeys[..i], activeFwd)
      invariant staleFwd == expiredFlows + (Elements(fwdKeys[..i]) - activeFwd)
    {
      assert fwdKeys[..i + 1][..i] == fwdKeys[..i];
      ElementsPrefix(fwdKeys, i);
      if fwdKeys[i] in activeFwd {
        activeFwdCount := activeFwdCount + 1;
      } else {
        staleFwd := staleFwd + {fwdKeys[i]};
      }
      i := i + 1;
    }
    assert fwdKeys[..i] == fwdKeys;
    var staleFwdKeys := ListSet(staleFwd);
    plan := GcPlan(activeCt, activeFwdCount, staleCt, staleFwdKeys);
  }

  // --- Carrying it out ----------------------------------------------------------------

  datatype GcResult = GcResult(activeCt: nat, activeFwd: nat, deletedCt: nat, deletedFwd: nat)

  /** Deletes the planned conntrack keys one by one, until done or until the environment fails a delete. */
  method DeleteConntrackKeys(m: Datapath.NodePortMaps, keys: seq<CtKey>) returns (ok: bool, ghost gone: set<CtKey>)
    modifies m`ct
    ensures exists n :: 0 <= n <= |keys| && gone == Elements(keys[..n]) && (ok <==> n == |keys|)
    ensures m.ct == old(m.ct) - gone
  {
    gone := {};
    var i := 0;
    while i < |keys|
      invariant 0 <= i <= |keys|
      invariant gone == Elements(keys[..i])
      invariant m.ct == old(m.ct) - gone
    {
      var failed: bool := *;
      if failed { return false, gone; }
      ElementsPrefix(keys, i);
      m.ct := m.ct - {keys[i]};
      gone := gone + {keys[i]};
      i := i + 1;
    }
    return true, gone;
  }

  method DeleteForwardKeys(m: Datapath.NodePortMaps, keys: seq<FwdKey>) returns (ok: bool, ghost gone: set<FwdKey>)
    modifies m`fwd
    ensures exists n :: 0 <= n <= |keys| && gone == Elements(keys[..n]) && (ok <==> n == |keys|)
    ensures m.fwd == old(m.fwd) - gone
  {
    gone := {};
    var i := 0;
    while i < |keys|
      invariant 0 <= i <= |keys|
      invariant gone == Elements(keys[..i])
      invariant m.fwd == old(m.fwd) - gone
    {
      var failed: bool := *;
      if failed { return false, gone; }
      ElementsPrefix(keys, i);
      m.fwd := m.fwd - {keys[i]};
      gone := gone + {keys[i]};
      i := i + 1;
    }
    return true, gone;
  }

  /** The counts a reap reports. */
  ghost function ResultOf(s: Tables, now: Word64, timeout: Word64): GcResult {
    var stale := StaleCt(s.ct, now, timeout);
    GcResult(|s.ct.Keys - stale|, |s.fwd.Keys * ActiveFlows(s.ct, now, timeout)|, |stale|,
             |StaleFwd(s.ct, s.fwd.Keys, now, timeout)|)
  }

  lemma PlanCounts(s: Tables, now: Word64, timeout: Word64, fwdKeys: seq<FwdKey>, plan: GcPlan)
    requires Lists(fwdKeys, s.fwd.Keys)
    requires Lists(plan.staleCt, StaleCt(s.ct, now, timeout))
    requires Lists(plan.staleFwd, StaleFwd(s.ct, s.fwd.Keys, now, timeout))
    requires plan.activeCt + |plan.staleCt| == |s.ct|
    requires plan.activeFwd == CountIn(fwdKeys, ActiveFlows(s.ct, now, timeout))
    ensures GcResult(plan.activeCt, plan.activeFwd, |plan.staleCt|, |plan.staleFwd|) == ResultOf(s, now, timeout)
  {
    PartsAddUp(s.ct, StaleCt(s.ct, now, timeout));
    hide StaleCt, StaleFwd, ActiveFlows, CountIn, Distinct;
    ListLength(plan.staleCt, StaleCt(s.ct, now, timeout));
    ListLength(plan.staleFwd, StaleFwd(s.ct, s.fwd.Keys, now, timeout));
    CountInListing(fwdKeys, s.fwd.Keys, ActiveFlows(s.ct, now, timeout));
  }

  lemma PrefixIsPart<T>(keys: seq<T>, s: set<T>, gone: set<T>, done: bool)
    requires Lists(keys, s)
    requires exists n :: 0 <= n <= |keys| && gone == Elements(keys[..n]) && (done <==> n == |keys|)
    ensures gone <= s && (done ==> gone == s)
  {
    var n :| 0 <= n <= |keys| && gone == Elements(keys[..n]) && (done <==> n == |keys|);
    assert done ==> keys[..n] == keys;
    assert forall x :: x in keys[..n] ==> x in keys;
  }

  /** The two deletion loops of ReapConntrack: conntrack keys first, forward keys once these are all gone. */
  method CarryOut(m: Datapath.NodePortMaps, cts: seq<CtKey>, fwds: seq<FwdKey>, ghost staleCt: set<CtKey>,
                  ghost staleFwd: set<FwdKey>)
    returns (ok: bool, ghost ctGone: set<CtKey>, ghost fwdGone: set<FwdKey>)
    requires Lists(cts, staleCt) && Lists(fwds, staleFwd)
    modifies m`ct, m`fwd
    ensures m.ct == old(m.ct) - ctGone && m.fwd == old(m.fwd) - fwdGone
    ensures ctGone <= staleCt && fwdGone <= staleFwd && (fwdGone != {} ==> ctGone == staleCt)
    ensures ok ==> ctGone == staleCt && fwdGone == staleFwd
  {
    hide Lists, Elements;
    fwdGone := {};
    ok, ctGone := DeleteConntrackKeys(m, cts);
    PrefixIsPart(cts, staleCt, ctGone, ok);
    if !ok { return; }
    ok, fwdGone := DeleteForwardKeys(m, fwds);
    PrefixIsPart(fwds, staleFwd, fwdGone, ok);
  }

  /**
   ReapConntrack. None is an error return: reading the maps failed and nothing was deleted, or some
   delete failed after part of the plan was carried out, the conntrack part before the forward part.
   */
  method ReapConntrack(m: Datapath.NodePortMaps, now: Word64, timeout: int, dryRun: bool)
    returns (r: Option<GcResult>, ghost ctGone: set<CtKey>, ghost fwdGone: set<FwdKey>)
    requires timeout < 0x8000_0000_0000_0000
    modifies m`ct, m`fwd
    ensures m.ct == old(m.ct) - ctGone && m.fwd == old(m.fwd) - fwdGone
    ensures dryRun || timeout <= 0 ==> r == Some(GcResult(0, 0, 0, 0)) && ctGone == {} && fwdGone == {}
    ensures !dryRun && timeout > 0 ==>
              && ctGone <= StaleCt(old(m.ct), now, timeout)
              && fwdGone <= StaleFwd(old(m.ct), old(m.fwd).Keys, now, timeout)
              && (fwdGone != {} ==> ctGone == StaleCt(old(m.ct), now, timeout))
    ensures !dryRun && timeout > 0 && r.Some? ==>
              m.State() == Reaped(old(m.State()), now, timeout) && r.value == ResultOf(old(m.State()), now, timeout)
  {
    hide StaleCt, StaleFwd, ActiveFlows, Lists, CountIn, ResultOf, Elements;
    ctGone, fwdGone := {}, {};
    if dryRun || timeout <= 0 {
      return Some(GcResult(0, 0, 0, 0)), {}, {};
    }
    var unreadable: bool := *;
    if unreadable { return None, {}, {}; }
    ghost var s0 := m.State();
    var fwdKeys := ListSet(m.fwd.Keys);
    var plan := BuildConntrackGCPlan(now, timeout, m.ct, fwdKeys);
    ListsElements(fwdKeys, s0.fwd.Keys);
    PlanCounts(s0, now, timeout, fwdKeys, plan);
    var ok;
    ok, ctGone, fwdGone := CarryOut(m, plan.staleCt, plan.staleFwd, StaleCt(s0.ct, now, timeout),
                                    StaleFwd(s0.ct, s0.fwd.Keys, now, timeout));
    if !ok { return None, ctGone, fwdGone; }
    r := Some(GcResult(plan.activeCt, plan.activeFwd, |plan.staleCt|, |plan.staleFwd|));
  }

  lemma ListsElements<T>(xs: seq<T>, s: set<T>)
    requires Lists(xs, s)
    ensures Elements(xs) == s
  {
  }

  // --- What a reap guarantees ---------------------------------------------------------

  /** The entry under ck names flow fk. */
  predicate NamesFlow(s: Tables, ck: CtKey, fk: FwdKey) {
    ck in s.ct && fk == FwdKey(s.ct[ck].clientIp, s.ct[ck].frontendIp, s.ct[ck].clientPort, s.ct[ck].frontendPort,
        ck.proto)
  }

  /** It was last refreshed more than the timeout ago. */
  predicate Outdated(s: Tables, ck: CtKey, now: Word64, timeout: Word64) {
    ck in s.ct && timeout > 0 && s.ct[ck].lastSeen + timeout < now
  }

  /**
   What a reap keeps: the conntrack entries that are not outdated, and the forward entries of flows
   that such an entry names and no outdated entry does.
   */
  lemma ReapedIff(s: Tables, now: Word64, timeout: Word64)
    ensures var r := Reaped(s, now, timeout);
            && r == s.(ct := r.ct, fwd := r.fwd)
            && (forall ck :: ck in r.ct <==> ck in s.ct && !Outdated(s, ck, now, timeout))
            && (forall ck :: ck in r.ct ==> r.ct[ck] == s.ct[ck])
            && (forall fk :: fk in r.fwd <==>
                  && fk in s.fwd
                  && (exists ck :: NamesFlow(s, ck, fk) && !Outdated(s, ck, now, timeout))
                  && forall ck :: NamesFlow(s, ck, fk) ==> !Outdated(s, ck, now, timeout))
            && (forall fk :: fk in r.fwd ==> r.fwd[fk] == s.fwd[fk])
  {
    forall fk ensures fk in FlowsOf(s.ct, StaleCt(s.ct, now, timeout)) <==>
        exists ck :: NamesFlow(s, ck, fk) && Outdated(s, ck, now, timeout) {
      StaleFlowIff(s, now, timeout, fk);
    }
    forall fk ensures fk in ActiveFlows(s.ct, now, timeout) <==>
        exists ck :: NamesFlow(s, ck, fk) && !Outdated(s, ck, now, timeout) {
      ActiveFlowIff(s, now, timeout, fk);
    }
    hide FlowsOf, ActiveFlows, NamesFlow;
  }

  /** What the counts of a reap count. */
  lemma ResultCounts(s: Tables, now: Word64, timeout: Word64)
    ensures var r := ResultOf(s, now, timeout);
            && r.activeCt == |set ck | ck in s.ct && !Outdated(s, ck, now, timeout)|
            && r.deletedCt == |set ck | ck in s.ct && Outdated(s, ck, now, timeout)|
            && r.activeFwd == |set fk | fk in s.fwd && SomeNames(s, fk, now, timeout, false)|
            && r.deletedFwd == |StaleFwd(s.ct, s.fwd.Keys, now, timeout)|
    ensures forall fk :: fk in StaleFwd(s.ct, s.fwd.Keys, now, timeout) <==>
              SomeNames(s, fk, now, timeout, true) || (fk in s.fwd && !SomeNames(s, fk, now, timeout, false))
  {
    forall fk ensures fk in FlowsOf(s.ct, StaleCt(s.ct, now, timeout)) <==> SomeNames(s, fk, now, timeout, true) {
      StaleFlowIff(s, now, timeout, fk);
    }
    forall fk ensures fk in ActiveFlows(s.ct, now, timeout) <==> SomeNames(s, fk, now, timeout, false) {
      ActiveFlowIff(s, now, timeout, fk);
    }
    hide FlowsOf, ActiveFlows, NamesFlow, SomeNames;
    assert s.ct.Keys - StaleCt(s.ct, now, timeout) == set ck | ck in s.ct && !Outdated(s, ck, now, timeout);
    assert StaleCt(s.ct, now, timeout) == set ck | ck in s.ct && Outdated(s, ck, now, timeout);
    assert s.fwd.Keys * ActiveFlows(s.ct, now, timeout) ==
           set fk | fk in s.fwd && SomeNames(s, fk, now, timeout, false);
  }

  /** Some outdated, or some other, entry names the flow. */
  ghost predicate SomeNames(s: Tables, fk: FwdKey, now: Word64, timeout: Word64, outdated: bool) {
    exists ck :: NamesFlow(s, ck, fk) && Outdated(s, ck, now, timeout) == outdated
  }

  lemma StaleFlowIff(s: Tables, now: Word64, timeout: Word64, fk: FwdKey)
    ensures fk in FlowsOf(s.ct, StaleCt(s.ct, now, timeout)) <==>
            exists ck :: NamesFlow(s, ck, fk) && Outdated(s, ck, now, timeout)
  {
    if ck :| NamesFlow(s, ck, fk) && Outdated(s, ck, now, timeout) {
      assert ck in StaleCt(s.ct, now, timeout) && FlowOf(ck, s.ct[ck]) == fk;
    }
    if fk in FlowsOf(s.ct, StaleCt(s.ct, now, timeout)) {
      var ck :| ck in StaleCt(s.ct, now, timeout) && FlowOf(ck, s.ct[ck]) == fk;
      assert NamesFlow(s, ck, fk) && Outdated(s, ck, now, timeout);
    }
  }

  lemma ActiveFlowIff(s: Tables, now: Word64, timeout: Word64, fk: FwdKey)
    ensures fk in ActiveFlows(s.ct, now, timeout) <==>
            exists ck :: NamesFlow(s, ck, fk) && !Outdated(s, ck, now, timeout)
  {
    var young := s.ct.Keys - StaleCt(s.ct, now, timeout);
    if ck :| NamesFlow(s, ck, fk) && !Outdated(s, ck, now, timeout) {
      assert ck in young && FlowOf(ck, s.ct[ck]) == fk;
    }
    if fk in FlowsOf(s.ct, young) {
      var ck :| ck in young && FlowOf(ck, s.ct[ck]) == fk;
      assert NamesFlow(s, ck, fk) && !Outdated(s, ck, now, timeout);
    }
  }

  /** Every surviving forward key is named by a surviving conntrack entry, whatever the tables looked like. */
  lemma SurvivorsAreTracked(s: Tables, now: Word64, timeout: Word64)
    ensures var r := Reaped(s, now, timeout);
            forall fk :: fk in r.fwd ==> exists ck :: ck in r.ct && FlowOf(ck, r.ct[ck]) == fk
  {
    var r := Reaped(s, now, timeout);
    forall fk | fk in r.fwd ensures exists ck :: ck in r.ct && FlowOf(ck, r.ct[ck]) == fk {
      assert fk in ActiveFlows(s.ct, now, timeout);
      var ck :| ck in s.ct.Keys - StaleCt(s.ct, now, timeout) && FlowOf(ck, s.ct[ck]) == fk;
      assert ck in r.ct;
    }
  }

  /** A second reap at the same time finds nothing to delete. */
  lemma ReapIsIdempotent(s: Tables, now: Word64, timeout: Word64)
    ensures var r := Reaped(s, now, timeout);
            && StaleCt(r.ct, now, timeout) == {}
            && StaleFwd(r.ct, r.fwd.Keys, now, timeout) == {}
            && Reaped(r, now, timeout) == r
  {
    var r := Reaped(s, now, timeout);
    assert StaleCt(r.ct, now, timeout) == {};
    forall fk | fk in r.fwd ensures fk in ActiveFlows(r.ct, now, timeout) {
      SurvivorsAreTracked(s, now, timeout);
      var ck :| ck in r.ct && FlowOf(ck, r.ct[ck]) == fk;
      assert ck in r.ct.Keys - StaleCt(r.ct, now, timeout);
    }
    assert r.ct - StaleCt(r.ct, now, timeout) == r.ct;
    assert r.fwd - StaleFwd(r.ct, r.fwd.Keys, now, timeout) == r.fwd;
  }

  /** The forward entry of an active flow survives exactly when no expired entry names the same flow. */
  lemma ActiveFlowSurvivesIff(s: Tables, now: Word64, timeout: Word64, fk: FwdKey)
    requires fk in s.fwd && fk in ActiveFlows(s.ct, now, timeout)
    ensures fk in Reaped(s, now, timeout).fwd <==>
            forall ck :: ck in s.ct && FlowOf(ck, s.ct[ck]) == fk ==> !Expired(now, s.ct[ck].lastSeen, timeout)
  {
    if fk in FlowsOf(s.ct, StaleCt(s.ct, now, timeout)) {
      var ck :| ck in StaleCt(s.ct, now, timeout) && FlowOf(ck, s.ct[ck]) == fk;
      assert Expired(now, s.ct[ck].lastSeen, timeout);
    } else {
      forall ck | ck in s.ct && FlowOf(ck, s.ct[ck]) == fk ensures !Expired(now, s.ct[ck].lastSeen, timeout) {
        assert ck !in StaleCt(s.ct, now, timeout);
      }
    }
  }

  /** Two entries that name one flow, one idle and one busy: the reap removes the busy flow's forward entry. */
  lemma SharedFlowLosesItsForwardEntry()
    ensures var fk := FwdKey(1, 2, 3, 4, IPPROTO_TCP);
            var idle, busy := CtKey(5, 6, 7, SNAT_MIN, IPPROTO_TCP), CtKey(5, 6, 7, SNAT_MIN + 1, IPPROTO_TCP);
            var ct := map[idle := CtEntry(fk, 0), busy := CtEntry(fk, 100)];
            var s := Tables(map[], map[], map[], ct, map[fk := Install(busy, 1)], None, None);
            && fk in ActiveFlows(s.ct, 100, 50) && TrackOf(s.fwd[fk]) in Reaped(s, 100, 50).ct
            && fk !in Reaped(s, 100, 50).fwd
  {
    var fk := FwdKey(1, 2, 3, 4, IPPROTO_TCP);
    var idle, busy := CtKey(5, 6, 7, SNAT_MIN, IPPROTO_TCP), CtKey(5, 6, 7, SNAT_MIN + 1, IPPROTO_TCP);
    var ct := map[idle := CtEntry(fk, 0), busy := CtEntry(fk, 100)];
    assert FlowOf(busy, ct[busy]) == fk && busy in ct.Keys - StaleCt(ct, 100, 50);
    assert FlowOf(idle, ct[idle]) == fk && idle in StaleCt(ct, 100, 50);
  }
}
