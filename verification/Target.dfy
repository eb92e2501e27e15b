/** currentTelemetryTargetState (telemetry.go): which applied entry a telemetry row is about, and its backends. */
module Target {
  import opened Net
  import opened Listing
  import opened Order
  import opened Reconciler
  import Controllers

  /** The address is None when neither an entry nor the node tells it. */
  datatype TargetState = TargetState(nodeIp: Option<Addr>, servicePort: int, total: int, local: int, remote: int)

  function Matches(es: Entries, namespace: string, name: string): set<ServiceID> {
    set id | id in es && id.namespace == namespace && id.name == name
  }

  /** The entry on the service's port if there is one, else the match with the least NodePort. */
  ghost predicate IsChosen(es: Entries, namespace: string, name: string, port: int, chosen: Option<ServiceID>) {
    var matches := Matches(es, namespace, name);
    match chosen
    case None => matches == {}
    case Some(id) =>
      && id in matches
      && if port != 0 && ServiceID(namespace, name, port) in matches then id.nodePort == port
         else forall id2 :: id2 in matches ==> id.nodePort <= id2.nodePort
  }

  /** The choice does not depend on the iteration order of the entries. */
  lemma ChoiceIsUnique(es: Entries, namespace: string, name: string, port: int, a: Option<ServiceID>,
                       b: Option<ServiceID>)
    requires IsChosen(es, namespace, name, port, a) && IsChosen(es, namespace, name, port, b)
    ensures a == b
  {
    if a.Some? && b.Some? {
      assert a.value.nodePort == b.value.nodePort;
    }
  }

  method ListMatches(es: Entries, namespace: string, name: string) returns (ids: seq<ServiceID>)
    ensures Lists(ids, Matches(es, namespace, name)) && Ascending(Controllers.IdLess, ids)
  {
    var found := ListSet(Matches(es, namespace, name));
    Controllers.IdLessStrictTotal();
    ids := Sort(Controllers.IdLess, found);
    AscendingIsDistinct(Controllers.IdLess, ids);
  }

  method ChooseEntry(es: Entries, namespace: string, name: string, port: int) returns (chosen: Option<ServiceID>)
    ensures IsChosen(es, namespace, name, port, chosen)
  {
    var ids := ListMatches(es, namespace, name);
    ghost var matches := Matches(es, namespace, name);
    assert forall i :: 0 <= i < |ids| ==> ids[i] in Elements(ids);
    assert forall id :: id in matches ==> id in Elements(ids);
    if port != 0 {
      var i := 0;
      while i < |ids|
        invariant 0 <= i <= |ids| && forall j :: 0 <= j < i ==> ids[j].nodePort != port
      {
        if ids[i].nodePort == port { return Some(ids[i]); }
        i := i + 1;
      }
      assert ServiceID(namespace, name, port) !in matches;
    }
    if |ids| == 0 { return None; }
    forall id | id in matches ensures ids[0].nodePort <= id.nodePort {
      var j :| 0 <= j < |ids| && ids[j] == id;
      assert j > 0 ==> Controllers.IdLess(ids[0], ids[j]);
    }
    return Some(ids[0]);
  }

  /** How many of the backends run on a node. */
  function OnNode(bs: seq<EntryBackend>, nodeIp: Addr): nat {
    if bs == [] then 0 else OnNode(bs[..|bs| - 1], nodeIp) + if bs[|bs| - 1].nodeIp == nodeIp then 1 else 0
  }

  /** The state of a chosen entry: each of its backends is local or remote. */
  function StateOf(e: Entry): TargetState {
    var local := OnNode(e.backends, e.nodeIp);
    TargetState(Some(e.nodeIp), e.id.nodePort, |e.backends|, local, |e.backends| - local)
  }

  /** The places of the backends on a node, or elsewhere. */
  function Places(bs: seq<EntryBackend>, nodeIp: Addr, here: bool): set<int> {
    set i | 0 <= i < |bs| && (bs[i].nodeIp == nodeIp) == here
  }

  lemma PlacesGrow(bs: seq<EntryBackend>, nodeIp: Addr, here: bool)
    requires bs != []
    ensures var n := |bs| - 1;
            && n !in Places(bs[..n], nodeIp, here)
            && Places(bs, nodeIp, here) ==
               Places(bs[..n], nodeIp, here) + if (bs[n].nodeIp == nodeIp) == here then {n} else {}
  {
  }

  lemma {:induction false} OnNodeCounts(bs: seq<EntryBackend>, nodeIp: Addr)
    ensures OnNode(bs, nodeIp) == |Places(bs, nodeIp, true)|
    ensures |bs| - OnNode(bs, nodeIp) == |Places(bs, nodeIp, false)|
  {
    if bs != [] {
      OnNodeCounts(bs[..|bs| - 1], nodeIp);
      PlacesGrow(bs, nodeIp, true);
      PlacesGrow(bs, nodeIp, false);
      hide Places;
    }
  }

  /** Total, local and remote count the backends, those on the entry's own node, and those elsewhere. */
  lemma StateCounts(e: Entry)
    ensures var st := StateOf(e);
            && st.nodeIp == Some(e.nodeIp) && st.servicePort == e.id.nodePort && st.total == |e.backends|
            && st.local == |set i | 0 <= i < |e.backends| && e.backends[i].nodeIp == e.nodeIp|
            && st.remote == |set i | 0 <= i < |e.backends| && e.backends[i].nodeIp != e.nodeIp|
  {
    OnNodeCounts(e.backends, e.nodeIp);
    assert Places(e.backends, e.nodeIp, true) == set i | 0 <= i < |e.backends| && e.backends[i].nodeIp == e.nodeIp;
    assert Places(e.backends, e.nodeIp, false) == set i | 0 <= i < |e.backends| && e.backends[i].nodeIp != e.nodeIp;
  }

  /**
   The state for an entry chosen from es: of a well-filed entry with a NodePort, its own numbers;
   otherwise the service's port, if any, and the node's own address.
   */
  ghost predicate IsTarget(es: Entries, namespace: string, name: string, port: int, ownIp: Option<Addr>,
                           st: TargetState) {
    exists chosen :: IsChosen(es, namespace, name, port, chosen) && st == TargetFor(es, chosen, port, ownIp)
  }

  function TargetFor(es: Entries, chosen: Option<ServiceID>, port: int, ownIp: Option<Addr>): TargetState {
    if chosen.Some? && chosen.value in es && es[chosen.value].id.nodePort != 0 then StateOf(es[chosen.value])
    else TargetState(ownIp, port, 0, 0, 0)
  }

  method CurrentTarget(es: Entries, namespace: string, name: string, port: int,
                       ownIp: Option<Addr>) returns (st: TargetState)
    ensures IsTarget(es, namespace, name, port, ownIp, st)
    ensures Matches(es, namespace, name) == {} ==> st == TargetState(ownIp, port, 0, 0, 0)
    ensures forall id :: IsChosen(es, namespace, name, port, Some(id)) && es[id].id.nodePort != 0 ==>
              st.nodeIp == Some(es[id].nodeIp) && st.servicePort == es[id].id.nodePort && st == StateOf(es[id])
    ensures st.local + st.remote == st.total
  {
    var chosen := ChooseEntry(es, namespace, name, port);
    st := TargetState(None, port, 0, 0, 0);
    if chosen.Some? && es[chosen.value].id.nodePort != 0 {
      var e := es[chosen.value];
      var local, remote, i := 0, 0, 0;
      while i < |e.backends|
        invariant 0 <= i <= |e.backends| && local == OnNode(e.backends[..i], e.nodeIp) && remote == i - local
      {
        assert e.backends[..i + 1][..i] == e.backends[..i];
        if e.backends[i].nodeIp == e.nodeIp { local := local + 1; } else { remote := remote + 1; }
        i := i + 1;
      }
      assert e.backends[..i] == e.backends;
      st := TargetState(Some(e.nodeIp), e.id.nodePort, |e.backends|, local, remote);
    }
    if st.nodeIp.None? { st := st.(nodeIp := ownIp); }
    assert st == TargetFor(es, chosen, port, ownIp);
    forall id | IsChosen(es, namespace, name, port, Some(id)) ensures chosen == Some(id) {
      ChoiceIsUnique(es, namespace, name, port, chosen, Some(id));
    }
  }
}
