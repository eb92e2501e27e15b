/**
 The watch loop over the real cluster contents: what desiredEntries makes of the cached services,
 nodes and slices is what the BPF maps hold whenever the loop is quiescent.
 */
module ClusterWatch {
  import opened Net
  import opened Backends
  import opened Desired
  import opened Watch
  import opened WatchCursors
  import R = Reconciler
  import RB = Rebuild
  import T = Tables

  /** The contents of one informer cache, as its lister returns them. */
  datatype Content = ServiceList(services: seq<Service>) | NodeList(nodes: seq<Node>) | SliceList(slices: seq<Slice>)

  /** Kubernetes keeps service names unique in a namespace and NodePorts unique in the cluster. */
  ghost predicate ProperServices(services: seq<Service>) {
    && NamesUnique(services, [])
    && (forall s, p, s2, p2 ::
          (s in services && p in s.ports && s2 in services && p2 in s2.ports && Exposed(p) && Exposed(p2) &&
              p.nodePort == p2.nodePort)
          ==> s == s2)
  }

  predicate Typed(caches: seq<Content>) {
    |caches| == KINDS && caches[SERVICES].ServiceList? && caches[NODES].NodeList? && caches[SLICES].SliceList?
  }

  /** desiredEntries and the marshalling of its result; None stands for every error of a reconcile before it is done. */
  ghost function Derived(o: Options, v4: V4, parse: string -> Addr, caches: seq<Content>): Option<R.Entries> {
    if !Typed(caches) then None
    else
      var desired := DesiredOf(o, caches[SERVICES].services, caches[NODES].nodes, caches[SLICES].slices, v4);
      if desired.Some? && R.AllInstallable(Parsed(desired.value, parse))
      then Some(Parsed(desired.value, parse))
      else None
  }

  /** The name that a reconcile keeps: the one it finds, or, if it finds none, the one so far. */
  function Found(o: Options, caches: seq<Content>): string {
    if Typed(caches) && OwnName(o, caches[NODES].nodes).Some? then OwnName(o, caches[NODES].nodes).value
    else o.nodeName
  }

  /** The options with the node name known so far in place of the configured one. */
  function Knowing(o: Options, name: string): Options {
    o.(nodeName := name)
  }

  ghost function ClusterSource(o: Options, v4: V4, parse: string -> Addr): Source<Content> {
    Source((name, caches) => Found(Knowing(o, name), caches),
      (name, caches) => Derived(Knowing(o, name), v4, parse, caches),
      (c: Content) => c.ServiceList? && ProperServices(c.services))
  }

  lemma {:induction false} PortEntriesComeFrom(o: Options, s: Service, n: nat, slices: seq<Slice>, nodeIp: string,
                                               nodeIps: map<string, string>, v4: V4, id: R.ServiceID)
    requires n <= |s.ports| && id in PortEntries(o, s, n, slices, nodeIp, nodeIps, v4)
    ensures exists p :: p in s.ports && Exposed(p) && id == IdOf(s, p)
  {
    hide BackendsOf, Exposed, PortEntries;
    if n == 0 {
      NoPorts(o, s, slices, nodeIp, nodeIps, v4);
    } else {
      OneMorePort(o, s, n - 1, slices, nodeIp, nodeIps, v4);
      if id in PortEntries(o, s, n - 1, slices, nodeIp, nodeIps, v4) {
        PortEntriesComeFrom(o, s, n - 1, slices, nodeIp, nodeIps, v4, id);
      }
    }
  }

  lemma {:induction false} MergedComesFrom<T, K, V>(xs: seq<T>, f: T -> map<K, V>, k: K)
    requires k in Merged(xs, f)
    ensures exists x :: x in xs && k in f(x)
  {
    if k in Merged(xs[..|xs| - 1], f) {
      MergedComesFrom(xs[..|xs| - 1], f, k);
    }
  }

  /** The service port behind a desired entry. */
  lemma EntryComesFrom(o: Options, services: seq<Service>, nodes: seq<Node>, slices: seq<Slice>, v4: V4,
                       id: R.ServiceID)
    requires DesiredOf(o, services, nodes, slices, v4).Some? && id in DesiredOf(o, services, nodes, slices, v4).value
    ensures exists s, p :: s in services && p in s.ports && Exposed(p) && id == IdOf(s, p)
  {
    var nodeIps := Merged(nodes, NodeIp(v4));
    var nodeIp := OwnIp(o, nodes, nodeIps);
    var f := ServiceEntries(o, slices, nodeIp, nodeIps, v4);
    hide PortEntries, SlicesFor, Exposed;
    MergedComesFrom(services, f, id);
    var s :| s in services && id in f(s);
    PortEntriesComeFrom(o, s, |s.ports|, SlicesFor(slices, Ref(s.namespace, s.name)), nodeIp, nodeIps, v4, id);
  }

  /** With proper services, desired entries have distinct NodePorts. */
  lemma DesiredPortsDistinct(o: Options, services: seq<Service>, nodes: seq<Node>, slices: seq<Slice>, v4: V4,
                             id: R.ServiceID, id2: R.ServiceID)
    requires ProperServices(services) && DesiredOf(o, services, nodes, slices, v4).Some?
    requires var es := DesiredOf(o, services, nodes, slices, v4).value; id in es && id2 in es && id != id2
    ensures id.nodePort != id2.nodePort
  {
    EntryComesFrom(o, services, nodes, slices, v4, id);
    EntryComesFrom(o, services, nodes, slices, v4, id2);
    hide DesiredOf, Exposed;
    var s, p :| s in services && p in s.ports && Exposed(p) && id == IdOf(s, p);
    var s2, p2 :| s2 in services && p2 in s2.ports && Exposed(p2) && id2 == IdOf(s2, p2);
  }

  lemma DesiredIdsMatch(o: Options, services: seq<Service>, nodes: seq<Node>, slices: seq<Slice>, v4: V4,
                        id: R.ServiceID)
    requires ProperServices(services)
    requires DesiredOf(o, services, nodes, slices, v4).Some? && id in DesiredOf(o, services, nodes, slices, v4).value
    ensures DesiredOf(o, services, nodes, slices, v4).value[id].id == id
  {
    var nodeIps := Merged(nodes, NodeIp(v4));
    var nodeIp := OwnIp(o, nodes, nodeIps);
    var f := ServiceEntries(o, slices, nodeIp, nodeIps, v4);
    ServicesApart(o, services, [], slices, nodeIp, nodeIps, v4);
    MergedHas(services, f, id);
    var s :| s in services && id in f(s);
    PortEntriesOfService(o, s, |s.ports|, SlicesFor(slices, Ref(s.namespace, s.name)), nodeIp, nodeIps, v4);
  }

  /** A name that was found among the nodes is found there again. */
  lemma FoundAgain(o: Options, nodes: seq<Node>)
    ensures OwnName(o, nodes).Some? ==> OwnName(Knowing(o, OwnName(o, nodes).value), nodes) == OwnName(o, nodes)
  {
    if OwnName(o, nodes).Some? {
      OwnNameIsCandidate(o, nodes);
      var name := OwnName(o, nodes).value;
      if name == "" {
        assert Knowing(o, name) == o;
      } else {
        FoundNameStays(o, nodes, nodes);
      }
    }
  }

  lemma {:induction false} MergedSame<T, K, V>(xs: seq<T>, f: T -> map<K, V>, g: T -> map<K, V>)
    requires forall x :: x in xs ==> f(x) == g(x)
    ensures Merged(xs, f) == Merged(xs, g)
  {
    if xs != [] { MergedSame(xs[..|xs| - 1], f, g); }
  }

  lemma {:induction false} PortEntriesSame(o: Options, name: string, s: Service, n: nat, slices: seq<Slice>,
                                           nodeIp: string, nodeIps: map<string, string>, v4: V4)
    requires n <= |s.ports|
    ensures PortEntries(Knowing(o, name), s, n, slices, nodeIp, nodeIps, v4) ==
            PortEntries(o, s, n, slices, nodeIp, nodeIps, v4)
  {
    hide BackendsOf, Exposed, PortEntries;
    if n == 0 {
      NoPorts(o, s, slices, nodeIp, nodeIps, v4);
      NoPorts(Knowing(o, name), s, slices, nodeIp, nodeIps, v4);
    } else {
      OneMorePort(o, s, n - 1, slices, nodeIp, nodeIps, v4);
      OneMorePort(Knowing(o, name), s, n - 1, slices, nodeIp, nodeIps, v4);
      PortEntriesSame(o, name, s, n - 1, slices, nodeIp, nodeIps, v4);
    }
  }

  /** Deriving again with the name just found gives the same entries. */
  lemma DerivedAgain(o: Options, v4: V4, parse: string -> Addr, caches: seq<Content>)
    ensures Derived(Knowing(o, Found(o, caches)), v4, parse, caches) == Derived(o, v4, parse, caches)
  {
    if Typed(caches) {
      var services, nodes, slices := caches[SERVICES].services, caches[NODES].nodes, caches[SLICES].slices;
      var o2 := Knowing(o, Found(o, caches));
      FoundAgain(o, nodes);
      assert OwnName(o2, nodes) == OwnName(o, nodes) by { assert OwnName(o, nodes).None? ==> o2 == o; }
      var nodeIps := Merged(nodes, NodeIp(v4));
      var nodeIp := OwnIp(o, nodes, nodeIps);
      hide OwnName, PortEntries, R.AllInstallable, Parsed, SlicesFor;
      forall s ensures ServiceEntries(o2, slices, nodeIp, nodeIps, v4)(s) ==
                       ServiceEntries(o, slices, nodeIp, nodeIps, v4)(s) {
        PortEntriesSame(o, o2.nodeName, s, |s.ports|, SlicesFor(slices, Ref(s.namespace, s.name)), nodeIp, nodeIps, v4);
      }
      MergedSame(services, ServiceEntries(o2, slices, nodeIp, nodeIps, v4),
        ServiceEntries(o, slices, nodeIp, nodeIps, v4));
    }
  }

  /**
   Proper services lead to well-formed entries, even when the three caches were read at different
   times, and a node name once found leads to the same entries again.
   */
  lemma ClusterIsSound(o: Options, v4: V4, parse: string -> Addr)
    ensures Sound(ClusterSource(o, v4, parse))
  {
    forall name, caches: seq<Content>
      | Typed(caches) && ProperServices(caches[SERVICES].services) &&
        Derived(Knowing(o, name), v4, parse, caches).Some?
      ensures R.WellFormed(Derived(Knowing(o, name), v4, parse, caches).value)
    {
      DerivedIsWellFormed(Knowing(o, name), v4, parse, caches);
    }
    ClusterIsStable(o, v4, parse);
    hide Derived, ProperServices, R.WellFormed, Stable;
    forall name, caches: seq<Content> ensures Derived(Knowing(o, name), v4, parse, caches).Some? ==> Typed(caches) {
      DerivedIsTyped(Knowing(o, name), v4, parse, caches);
    }
  }

  lemma ClusterIsStable(o: Options, v4: V4, parse: string -> Addr)
    ensures Stable(ClusterSource(o, v4, parse))
  {
    hide Derived, Found;
    forall name, caches: seq<Content>
      ensures Derived(Knowing(o, Found(Knowing(o, name), caches)), v4, parse, caches) ==
              Derived(Knowing(o, name), v4, parse, caches)
    {
      DerivedAgain(Knowing(o, name), v4, parse, caches);
    }
  }

  /** A known node name is never guessed again. */
  lemma ClusterKeepsName(o: Options, v4: V4, parse: string -> Addr)
    ensures Keeps(ClusterSource(o, v4, parse))
  {
    forall name, caches: seq<Content> | name != "" ensures Found(Knowing(o, name), caches) == name {
      if Typed(caches) { OwnNameIsCandidate(Knowing(o, name), caches[NODES].nodes); }
    }
  }

  lemma DerivedIsTyped(o: Options, v4: V4, parse: string -> Addr, caches: seq<Content>)
    ensures Derived(o, v4, parse, caches).Some? ==> Typed(caches)
  {
  }

  lemma DerivedIsWellFormed(o: Options, v4: V4, parse: string -> Addr, caches: seq<Content>)
    requires Typed(caches) && ProperServices(caches[SERVICES].services) && Derived(o, v4, parse, caches).Some?
    ensures R.WellFormed(Derived(o, v4, parse, caches).value)
  {
    hide DesiredOf, ProperServices, R.Installable;
    var services, nodes, slices := caches[SERVICES].services, caches[NODES].nodes, caches[SLICES].slices;
    var es := DesiredOf(o, services, nodes, slices, v4).value;
    forall id | id in es ensures es[id].id == id {
      DesiredIdsMatch(o, services, nodes, slices, v4, id);
    }
    forall id, id2 | id in es && id2 in es && id != id2 ensures id.nodePort != id2.nodePort {
      DesiredPortsDistinct(o, services, nodes, slices, v4, id, id2);
    }
  }

  /**
   End to end: in every quiescent state of every run of the watch loop with packets in between,
   every row of what desiredEntries makes of the current caches is in the maps, any other row was
   there before the start, and from empty maps there is no other. The node name is the configured
   one, with which the worker starts, or, if there was none, the one it found and kept.
   */
  lemma QuiescentMapsMatchCluster(o: Options, v4: V4, parse: string -> Addr, x: Watcher<Content>,
                                  actions: seq<Action<Content>>, y: Watcher<Content>)
    requires Reaches(ClusterSource(o, v4, parse), x, actions, y) && Quiescent(y)
    ensures Typed(y.caches) && (x.name != "" ==> y.name == x.name)
    ensures var desired := DesiredOf(Knowing(o, y.name), y.caches[SERVICES].services, y.caches[NODES].nodes,
            y.caches[SLICES].slices, v4);
            && desired.Some? && y.applied == Parsed(desired.value, parse)
            && R.IsImageOver(y.applied, y.world.t, RB.RowsOf(x.world.t))
            && (x.world.t.services == map[] && x.world.t.backends == map[] ==> R.IsImage(y.applied, y.world.t))
  {
    QuiescentMeansSynced(ClusterSource(o, v4, parse), x, actions, y);
    NameOverRun(o, v4, parse, x, actions, y, RB.RowsOf(x.world.t));
    assert Derived(Knowing(o, y.name), v4, parse, y.caches) == Some(y.applied);
    hide R.IsImageOver, Reaches, Quiescent, DesiredOf, Parsed;
  }

  /**
   The same, row by row: in every quiescent state the maps hold, for every entry that the cached
   cluster asks for, its service row and its backends' addresses, ports and nodes in their slots.
   */
  lemma QuiescentRows(o: Options, v4: V4, parse: string -> Addr, x: Watcher<Content>,
                      actions: seq<Action<Content>>, y: Watcher<Content>, id: R.ServiceID)
    requires Reaches(ClusterSource(o, v4, parse), x, actions, y) && Quiescent(y)
    ensures Typed(y.caches)
    ensures var desired := DesiredOf(Knowing(o, y.name), y.caches[SERVICES].services, y.caches[NODES].nodes,
            y.caches[SLICES].slices, v4);
            && desired.Some?
            && (id in desired.value ==>
                  var e := desired.value[id];
                  && 1 <= id.nodePort <= 65535 && |e.backends| < 0x1_0000_0000
                  && var fe := T.Frontend(parse(e.nodeIp), id.nodePort, 6);
                  && fe in y.world.t.services
                  && y.world.t.services[fe] == T.Service(|e.backends|, 0, parse(e.snatIp))
                  && forall i: nat :: i < |e.backends| ==> RowIs(y.world.t, T.BackendKey(fe, i), e.backends[i], parse))
  {
    QuiescentMapsMatchCluster(o, v4, parse, x, actions, y);
    R.ImageRows(y.applied, y.world.t, RB.RowsOf(x.world.t));
    hide R.IsImageOver, Reaches, Quiescent, DesiredOf;
    var desired := DesiredOf(Knowing(o, y.name), y.caches[SERVICES].services, y.caches[NODES].nodes,
        y.caches[SLICES].slices, v4).value;
    if id in desired {
      var e, n := desired[id], y.applied[id];
      assert n == ParsedEntry(e, parse);
      assert forall i: nat :: i < |e.backends| ==>
          var b := e.backends[i];
          n.backends[i] == R.EntryBackend(parse(b.address), b.port, parse(b.nodeIp));
    }
  }

  /** The backend row under a key holds a backend's address, port and node. */
  ghost predicate RowIs(s: T.Tables, key: T.BackendKey, b: Offer, parse: string -> Addr) {
    && key in s.backends && s.backends[key].address == parse(b.address) && s.backends[key].port == b.port
    && s.backends[key].nodeIp == parse(b.nodeIp)
  }

  lemma NameOverRun(o: Options, v4: V4, parse: string -> Addr, x: Watcher<Content>, actions: seq<Action<Content>>,
                    y: Watcher<Content>, left: R.Leftover)
    requires Reaches(ClusterSource(o, v4, parse), x, actions, y) && left == RB.RowsOf(x.world.t)
    ensures x.name != "" ==> y.name == x.name
  {
    ClusterKeepsName(o, v4, parse);
    FreshIsValid(ClusterSource(o, v4, parse), x);
    if x.name != "" { NameStays(ClusterSource(o, v4, parse), left, x, actions, y); }
  }

  lemma DerivedIsBacked(o: Options, v4: V4, parse: string -> Addr, caches: seq<Content>)
    requires Typed(caches) && ProperServices(caches[SERVICES].services) && Derived(o, v4, parse, caches).Some?
    ensures Backed(Derived(o, v4, parse, caches).value)
  {
    hide DesiredOf, R.Installable;
    var services, nodes, slices := caches[SERVICES].services, caches[NODES].nodes, caches[SLICES].slices;
    var es := DesiredOf(o, services, nodes, slices, v4).value;
    forall id | id in es ensures es[id].backends != [] {
      DesiredAreFiled(o, services, nodes, slices, v4, id);
    }
  }

  lemma ClusterIsBacked(o: Options, v4: V4, parse: string -> Addr)
    ensures Backs(ClusterSource(o, v4, parse))
  {
    forall name, caches: seq<Content>
      | Typed(caches) && ProperServices(caches[SERVICES].services) &&
        Derived(Knowing(o, name), v4, parse, caches).Some?
      ensures Backed(Derived(Knowing(o, name), v4, parse, caches).value)
    {
      DerivedIsBacked(Knowing(o, name), v4, parse, caches);
    }
    hide Derived, ProperServices, Backed;
    forall name, caches: seq<Content> ensures Derived(Knowing(o, name), v4, parse, caches).Some? ==> Typed(caches) {
      DerivedIsTyped(Knowing(o, name), v4, parse, caches);
    }
  }

  /**
   In every state of every run outside a reconcile, whatever an earlier process left in the maps:
   select_backend succeeds for the frontend of every applied entry, and for every installed frontend
   that is not a leftover.
   */
  lemma InstalledFrontendsAlwaysSelect(o: Options, v4: V4, parse: string -> Addr, x: Watcher<Content>,
                                       actions: seq<Action<Content>>, y: Watcher<Content>)
    requires Reaches(ClusterSource(o, v4, parse), x, actions, y) && Outside(y.phase)
    ensures R.WellFormed(y.applied)
    ensures forall id :: id in y.applied ==>
              var fe := R.FrontendFor(y.applied[id]);
              fe in y.world.t.services && T.ChosenBackend(y.world.t, fe, y.world.t.services[fe]).Some?
    ensures forall fe :: fe in y.world.t.services && fe !in x.world.t.services ==>
              T.ChosenBackend(y.world.t, fe, y.world.t.services[fe]).Some?
  {
    ClusterIsBacked(o, v4, parse);
    AppliedAlwaysSelect(ClusterSource(o, v4, parse), x, actions, y);
    hide *;
  }
}
