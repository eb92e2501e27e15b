/**
 What a listing of the cluster asks for (desiredEntries), told by the fields of its objects: which
 node is this one, which services become entries, and what the entries hold.
 */
module EntryMeaning {
  import opened Net
  import opened Listing
  import opened Backends
  import opened Desired
  import R = Reconciler

  // --- Nodes -----------------------------------------------------------------------------------

  /** The address is the node's first internal IPv4 address. */
  ghost predicate FirstInternalIs(n: Node, v4: V4, address: string) {
    exists k :: 0 <= k < |n.addresses| && n.addresses[k] == NodeAddress("InternalIP", address) && v4(address) &&
        forall m :: 0 <= m < k ==> !(n.addresses[m].kind == "InternalIP" && v4(n.addresses[m].address))
  }

  lemma {:induction false} InternalIff(n: Node, v4: V4, address: string)
    requires address != ""
    ensures InternalIp(n.addresses, v4) == address <==> FirstInternalIs(n, v4, address)
    decreases |n.addresses|
  {
    if n.addresses != [] {
      var first, rest := n.addresses[0], n.(addresses := n.addresses[1..]);
      InternalIff(rest, v4, address);
      if first.kind == "InternalIP" && v4(first.address) {
        assert first.address == address ==> FirstInternalIs(n, v4, address);
      } else {
        assert forall k :: 0 <= k < |rest.addresses| ==> rest.addresses[k] == n.addresses[k + 1];
        if FirstInternalIs(n, v4, address) {
          var k :| 0 <= k < |n.addresses| && n.addresses[k] == NodeAddress("InternalIP", address) && v4(address) &&
              forall m :: 0 <= m < k ==> !(n.addresses[m].kind == "InternalIP" && v4(n.addresses[m].address));
          assert rest.addresses[k - 1] == n.addresses[k];
        }
        if FirstInternalIs(rest, v4, address) {
          var k :| 0 <= k < |rest.addresses| && rest.addresses[k] == NodeAddress("InternalIP", address) &&
              v4(address) && forall m :: 0 <= m < k ==>
                !(rest.addresses[m].kind == "InternalIP" && v4(rest.addresses[m].address));
          assert n.addresses[k + 1] == rest.addresses[k];
          assert forall m :: 0 < m < k + 1 ==> n.addresses[m] == rest.addresses[m - 1];
        }
      }
    }
  }

  /** The last listed node of this name that has an internal IPv4 address has this one. */
  ghost predicate NodeHasIp(nodes: seq<Node>, v4: V4, name: string, address: string) {
    exists i :: 0 <= i < |nodes| && nodes[i].name == name && FirstInternalIs(nodes[i], v4, address) &&
        forall j :: i < j < |nodes| && nodes[j].name == name ==> !HasInternal(nodes[j], v4)
  }

  ghost predicate HasInternal(n: Node, v4: V4) {
    exists a :: FirstInternalIs(n, v4, a)
  }

  lemma NodeIpIs(n: Node, v4: V4)
    requires !v4("")
    ensures HasInternal(n, v4) <==> InternalIp(n.addresses, v4) != ""
    ensures forall a :: FirstInternalIs(n, v4, a) <==> a != "" && InternalIp(n.addresses, v4) == a
  {
    forall a ensures FirstInternalIs(n, v4, a) <==> a != "" && InternalIp(n.addresses, v4) == a {
      if a != "" { InternalIff(n, v4, a); }
    }
    hide FirstInternalIs;
    if InternalIp(n.addresses, v4) != "" { assert FirstInternalIs(n, v4, InternalIp(n.addresses, v4)); }
  }

  /** buildNodeInternalIPs holds exactly the nodes' first internal IPv4 addresses. */
  lemma {:induction false} NodeIpsIff(nodes: seq<Node>, v4: V4, name: string, address: string)
    requires !v4("")
    ensures var ips := Merged(nodes, NodeIp(v4));
            (name in ips && ips[name] == address) <==> NodeHasIp(nodes, v4, name, address)
  {
    hide FirstInternalIs, InternalIp, HasInternal, NodeHasIp;
    if nodes == [] {
      NoNodes(v4, name, address);
    } else {
      var last := nodes[|nodes| - 1];
      NodeIpsIff(nodes[..|nodes| - 1], v4, name, address);
      NodeIpIs(last, v4);
      NodesGrow(nodes, v4, name, address);
    }
  }

  lemma NoNodes(v4: V4, name: string, address: string)
    ensures !NodeHasIp([], v4, name, address)
  {
  }

  lemma NodesGrow(nodes: seq<Node>, v4: V4, name: string, address: string)
    requires nodes != []
    ensures var front, last := nodes[..|nodes| - 1], nodes[|nodes| - 1];
            NodeHasIp(nodes, v4, name, address) <==>
            if last.name == name && HasInternal(last, v4) then FirstInternalIs(last, v4, address)
            else NodeHasIp(front, v4, name, address)
  {
    var front, last := nodes[..|nodes| - 1], nodes[|nodes| - 1];
    assert FirstInternalIs(last, v4, address) ==> HasInternal(last, v4);
    hide FirstInternalIs, HasInternal;
    assert forall i :: 0 <= i < |front| ==> front[i] == nodes[i];
    assert nodes[|nodes| - 1] == last;
  }

  /** The node may be this one: by the wanted name, or without one because one name is a prefix of the other. */
  ghost predicate IsSelf(o: Options, n: Node) {
    if o.nodeName != "" then n.name == o.nodeName
    else exists rest :: o.hostname == n.name + rest || n.name == o.hostname + rest
  }

  lemma SelfIff(o: Options, n: Node)
    ensures MayBeSelf(o, n) <==> IsSelf(o, n)
  {
    if o.nodeName == "" {
      if n.name <= o.hostname { assert o.hostname == n.name + o.hostname[|n.name|..]; }
      if o.hostname <= n.name { assert n.name == o.hostname + n.name[|o.hostname|..]; }
    }
  }

  /** The first node listed that may be this one has this name. */
  ghost predicate FirstSelf(o: Options, nodes: seq<Node>, name: string) {
    exists i :: 0 <= i < |nodes| && nodes[i].name == name && IsSelf(o, nodes[i]) &&
        forall j :: 0 <= j < i ==> !IsSelf(o, nodes[j])
  }

  lemma {:induction false} OwnNameIff(o: Options, nodes: seq<Node>, name: string)
    ensures OwnName(o, nodes) == Some(name) <==> FirstSelf(o, nodes, name)
  {
    hide MayBeSelf, IsSelf;
    if nodes != [] {
      var rest := nodes[1..];
      OwnNameIff(o, rest, name);
      SelfIff(o, nodes[0]);
      assert forall i :: 0 <= i < |rest| ==> rest[i] == nodes[i + 1];
      if IsSelf(o, nodes[0]) {
        assert nodes[0].name == name ==> FirstSelf(o, nodes, name);
      } else {
        if FirstSelf(o, nodes, name) {
          var i :| 0 <= i < |nodes| && nodes[i].name == name && IsSelf(o, nodes[i]) &&
              forall j :: 0 <= j < i ==> !IsSelf(o, nodes[j]);
          assert rest[i - 1] == nodes[i];
        }
        if FirstSelf(o, rest, name) {
          var i :| 0 <= i < |rest| && rest[i].name == name && IsSelf(o, rest[i]) &&
              forall j :: 0 <= j < i ==> !IsSelf(o, rest[j]);
          assert nodes[i + 1] == rest[i];
          assert forall j :: 0 < j < i + 1 ==> nodes[j] == rest[j - 1];
        }
      }
    }
  }

  // --- Entries -----------------------------------------------------------------------------------

  /** The slices labelled with a service, in order. */
  function SlicesOf(slices: seq<Slice>, s: Service): seq<Slice> {
    Filter(slices, (x: Slice) =>
      x.namespace != "" && x.serviceName != "" && x.namespace == s.namespace && x.serviceName == s.name)
  }

  lemma {:induction false} FilterSame<T(!new)>(xs: seq<T>, p: T -> bool, q: T -> bool)
    requires forall x :: p(x) <==> q(x)
    ensures Filter(xs, p) == Filter(xs, q)
  {
    if xs != [] { FilterSame(xs[..|xs| - 1], p, q); }
  }

  lemma SlicesAreOf(slices: seq<Slice>, s: Service)
    ensures SlicesFor(slices, Ref(s.namespace, s.name)) == SlicesOf(slices, s)
  {
    FilterSame(slices, Belongs(Ref(s.namespace, s.name)), (x: Slice) =>
      x.namespace != "" && x.serviceName != "" && x.namespace == s.namespace && x.serviceName == s.name);
  }

  /** The backends of the service's k-th port. */
  ghost function BackendsAt(s: Service, k: nat, slices: seq<Slice>, nodeIps: map<string, string>, v4: V4): seq<Offer>
    requires k < |s.ports|
  {
    BackendsOf(s.ports[k], SlicesOf(slices, s), nodeIps, v4)
  }

  /** The service is one that a NodePort entry is made for. */
  predicate Balanced(o: Options, s: Service) {
    && (o.selector == None || o.selector == Some(Ref(s.namespace, s.name)))
    && s.kind == "NodePort" && (s.policy == "" || s.policy == "Cluster")
  }

  /** Its k-th port is a TCP port on this NodePort and has backends. */
  ghost predicate PortAsks(s: Service, k: nat, id: R.ServiceID, slices: seq<Slice>, nodeIps: map<string, string>,
                           v4: V4) {
    && k < |s.ports| && id == R.ServiceID(s.namespace, s.name, s.ports[k].nodePort)
    && (s.ports[k].protocol == "" || s.ports[k].protocol == "TCP") && s.ports[k].nodePort != 0
    && BackendsAt(s, k, slices, nodeIps, v4) != []
  }

  ghost predicate SomePortAsks(s: Service, n: nat, id: R.ServiceID, slices: seq<Slice>, nodeIps: map<string, string>,
                               v4: V4) {
    exists k: nat :: k < n && PortAsks(s, k, id, slices, nodeIps, v4)
  }

  /** The k-th port is the last of the first n to ask for the entry, and has these backends. */
  ghost predicate LastToAsk(s: Service, n: nat, k: nat, id: R.ServiceID, slices: seq<Slice>,
                            nodeIps: map<string, string>, v4: V4, backends: seq<Offer>) {
    && k < n && PortAsks(s, k, id, slices, nodeIps, v4) && backends == BackendsAt(s, k, slices, nodeIps, v4)
    && forall m: nat :: k < m < n ==> !PortAsks(s, m, id, slices, nodeIps, v4)
  }

  ghost predicate AskedFor(s: Service, n: nat, id: R.ServiceID, slices: seq<Slice>, nodeIps: map<string, string>,
                           v4: V4, backends: seq<Offer>) {
    exists k: nat :: LastToAsk(s, n, k, id, slices, nodeIps, v4, backends)
  }

  /** What one more port does to the question who asked last. */
  lemma OneMoreAsks(s: Service, n: nat, id: R.ServiceID, slices: seq<Slice>, nodeIps: map<string, string>, v4: V4,
                    backends: seq<Offer>)
    requires n < |s.ports|
    ensures SomePortAsks(s, n + 1, id, slices, nodeIps, v4) <==>
            SomePortAsks(s, n, id, slices, nodeIps, v4) || PortAsks(s, n, id, slices, nodeIps, v4)
    ensures PortAsks(s, n, id, slices, nodeIps, v4) && backends == BackendsAt(s, n, slices, nodeIps, v4) ==>
            AskedFor(s, n + 1, id, slices, nodeIps, v4, backends)
    ensures !PortAsks(s, n, id, slices, nodeIps, v4) && AskedFor(s, n, id, slices, nodeIps, v4, backends) ==>
            AskedFor(s, n + 1, id, slices, nodeIps, v4, backends)
  {
    hide PortAsks, BackendsAt;
    if PortAsks(s, n, id, slices, nodeIps, v4) && backends == BackendsAt(s, n, slices, nodeIps, v4) {
      assert LastToAsk(s, n + 1, n, id, slices, nodeIps, v4, backends);
    }
    if !PortAsks(s, n, id, slices, nodeIps, v4) && AskedFor(s, n, id, slices, nodeIps, v4, backends) {
      var k: nat :| LastToAsk(s, n, k, id, slices, nodeIps, v4, backends);
      assert LastToAsk(s, n + 1, k, id, slices, nodeIps, v4, backends);
    }
  }

  lemma {:induction false} PortEntriesAre(o: Options, s: Service, n: nat, slices: seq<Slice>, nodeIp: string,
                                          nodeIps: map<string, string>, v4: V4, id: R.ServiceID)
    requires n <= |s.ports|
    ensures var es := PortEntries(o, s, n, SlicesOf(slices, s), nodeIp, nodeIps, v4);
            && (id in es <==> SomePortAsks(s, n, id, slices, nodeIps, v4))
            && (id in es ==>
                  && AskedFor(s, n, id, slices, nodeIps, v4, es[id].backends)
                  && es[id] == TextEntry(id, nodeIp, o.snatIp, es[id].backends))
  {
    hide SomePortAsks, AskedFor, PortEntries, PortAsks, BackendsAt, SlicesOf;
    var related := SlicesOf(slices, s);
    if n == 0 {
      NoPorts(o, s, related, nodeIp, nodeIps, v4);
      NoneAsks(s, id, slices, nodeIps, v4);
    } else {
      PortEntriesAre(o, s, n - 1, slices, nodeIp, nodeIps, v4, id);
      var before, es := PortEntries(o, s, n - 1, related, nodeIp, nodeIps, v4),
          PortEntries(o, s, n, related, nodeIp, nodeIps, v4);
      EntryStep(o, s, n - 1, slices, nodeIp, nodeIps, v4, id);
      if id in es { OneMoreAsks(s, n - 1, id, slices, nodeIps, v4, es[id].backends); }
      OneMoreAsks(s, n - 1, id, slices, nodeIps, v4, []);
    }
  }

  lemma NoneAsks(s: Service, id: R.ServiceID, slices: seq<Slice>, nodeIps: map<string, string>, v4: V4)
    ensures !SomePortAsks(s, 0, id, slices, nodeIps, v4)
  {
  }

  lemma EntryStep(o: Options, s: Service, n: nat, slices: seq<Slice>, nodeIp: string, nodeIps: map<string, string>,
                  v4: V4, id: R.ServiceID)
    requires n < |s.ports|
    ensures var before, es := PortEntries(o, s, n, SlicesOf(slices, s), nodeIp, nodeIps, v4),
            PortEntries(o, s, n + 1, SlicesOf(slices, s), nodeIp, nodeIps, v4);
            if PortAsks(s, n, id, slices, nodeIps, v4)
            then id in es && es[id] == TextEntry(id, nodeIp, o.snatIp, BackendsAt(s, n, slices, nodeIps, v4))
            else (id in es <==> id in before) && (id in es ==> es[id] == before[id])
  {
    hide BackendsOf, SlicesOf, PortEntries;
    OneMorePort(o, s, n, SlicesOf(slices, s), nodeIp, nodeIps, v4);
  }

  lemma {:induction false} MergedKeys<T, K, V>(xs: seq<T>, f: T -> map<K, V>, k: K)
    ensures k in Merged(xs, f) <==> exists x :: x in xs && k in f(x)
  {
    if xs != [] {
      var front, last := xs[..|xs| - 1], xs[|xs| - 1];
      MergedKeys(front, f, k);
      assert xs == front + [last];
      assert forall x :: x in xs <==> x in front || x == last;
    }
  }

  /** The address under which this node serves. */
  ghost predicate OwnAddress(o: Options, nodes: seq<Node>, v4: V4, address: string) {
    exists name :: FirstSelf(o, nodes, name) && NodeHasIp(nodes, v4, name, address)
  }

  lemma OwnAddressIff(o: Options, nodes: seq<Node>, v4: V4, address: string)
    requires !v4("") && address != ""
    ensures OwnIp(o, nodes, Merged(nodes, NodeIp(v4))) == address <==> OwnAddress(o, nodes, v4, address)
  {
    forall name ensures OwnName(o, nodes) == Some(name) <==> FirstSelf(o, nodes, name) {
      OwnNameIff(o, nodes, name);
    }
    forall name
      ensures var ips := Merged(nodes, NodeIp(v4));
              (name in ips && ips[name] == address) <==> NodeHasIp(nodes, v4, name, address)
    {
      NodeIpsIff(nodes, v4, name, address);
    }
    hide OwnName, FirstSelf, NodeHasIp, Merged;
    if OwnIp(o, nodes, Merged(nodes, NodeIp(v4))) == address {
      assert FirstSelf(o, nodes, OwnName(o, nodes).value);
    }
  }

  /** desiredEntries fails exactly when this node, or its address, cannot be found. */
  lemma DesiredErrIff(o: Options, services: seq<Service>, nodes: seq<Node>, slices: seq<Slice>, v4: V4)
    requires !v4("")
    ensures DesiredOf(o, services, nodes, slices, v4) == None <==> forall a :: a != "" ==> !OwnAddress(o, nodes, v4, a)
  {
    forall a | a != ""
      ensures OwnIp(o, nodes, Merged(nodes, NodeIp(v4))) == a <==> OwnAddress(o, nodes, v4, a)
    {
      OwnAddressIff(o, nodes, v4, a);
    }
    hide OwnIp, OwnAddress, Merged;
    var own := OwnIp(o, nodes, Merged(nodes, NodeIp(v4)));
    assert own != "" ==> OwnAddress(o, nodes, v4, own);
  }

  /** The service asks for the entry. */
  ghost predicate Asks(o: Options, s: Service, id: R.ServiceID, slices: seq<Slice>, nodeIps: map<string, string>,
                       v4: V4) {
    Balanced(o, s) && SomePortAsks(s, |s.ports|, id, slices, nodeIps, v4)
  }

  lemma ServiceEntriesAre(o: Options, s: Service, slices: seq<Slice>, nodeIp: string, nodeIps: map<string, string>,
                          v4: V4, id: R.ServiceID)
    ensures var es := ServiceEntries(o, slices, nodeIp, nodeIps, v4)(s);
            && (id in es <==> Asks(o, s, id, slices, nodeIps, v4))
            && (id in es ==>
                  && AskedFor(s, |s.ports|, id, slices, nodeIps, v4, es[id].backends)
                  && es[id] == TextEntry(id, nodeIp, o.snatIp, es[id].backends))
  {
    SlicesAreOf(slices, s);
    PortEntriesAre(o, s, |s.ports|, slices, nodeIp, nodeIps, v4, id);
    if SlicesOf(slices, s) == [] { NothingAsked(s, id, slices, nodeIps, v4); }
    assert Wanted(o, s) <==> Balanced(o, s);
    hide PortEntries, SlicesOf, SlicesFor, Wanted, Balanced, SomePortAsks, AskedFor;
  }

  lemma NothingAsked(s: Service, id: R.ServiceID, slices: seq<Slice>, nodeIps: map<string, string>, v4: V4)
    requires SlicesOf(slices, s) == []
    ensures !SomePortAsks(s, |s.ports|, id, slices, nodeIps, v4)
  {
    forall k: nat | k < |s.ports| ensures BackendsAt(s, k, slices, nodeIps, v4) == [] {
      assert FirstOffers(Offers(s.ports[k], [], nodeIps, v4)) == [];
      NoElements(BackendsAt(s, k, slices, nodeIps, v4));
    }
    hide BackendsAt;
  }

  lemma NoElements<T>(xs: seq<T>)
    requires Elements(xs) == {}
    ensures xs == []
  {
    if xs != [] { FirstElement(xs); }
  }

  lemma FirstElement<T>(xs: seq<T>)
    requires xs != []
    ensures xs[0] in Elements(xs)
  {
  }

  /**
   Which entries desiredEntries makes: those for the TCP NodePorts with backends of the selected
   services of type NodePort that balance over the whole cluster.
   */
  lemma EntriesIff(o: Options, services: seq<Service>, nodes: seq<Node>, slices: seq<Slice>, v4: V4, id: R.ServiceID)
    requires DesiredOf(o, services, nodes, slices, v4).Some?
    ensures id in DesiredOf(o, services, nodes, slices, v4).value <==>
            exists s :: s in services && Asks(o, s, id, slices, Merged(nodes, NodeIp(v4)), v4)
  {
    var nodeIps := Merged(nodes, NodeIp(v4));
    var nodeIp := OwnIp(o, nodes, nodeIps);
    var f := ServiceEntries(o, slices, nodeIp, nodeIps, v4);
    MergedKeys(services, f, id);
    forall s ensures id in f(s) <==> Asks(o, s, id, slices, nodeIps, v4) {
      ServiceEntriesAre(o, s, slices, nodeIp, nodeIps, v4, id);
    }
    hide ServiceEntries, Asks, Merged, OwnIp;
  }

  /** And what they hold: this node's address, the SNAT address, and the backends of the port that asked last. */
  lemma EntryMeans(o: Options, services: seq<Service>, nodes: seq<Node>, slices: seq<Slice>, v4: V4,
                   id: R.ServiceID)
    requires !v4("") && NamesUnique(services, [])
    requires DesiredOf(o, services, nodes, slices, v4).Some? && id in DesiredOf(o, services, nodes, slices, v4).value
    ensures var e, nodeIps := DesiredOf(o, services, nodes, slices, v4).value[id], Merged(nodes, NodeIp(v4));
            && e.id == id && e.snatIp == o.snatIp && OwnAddress(o, nodes, v4, e.nodeIp)
            && exists s :: s in services && AskedFor(s, |s.ports|, id, slices, nodeIps, v4, e.backends)
  {
    var nodeIps := Merged(nodes, NodeIp(v4));
    var nodeIp := OwnIp(o, nodes, nodeIps);
    var f := ServiceEntries(o, slices, nodeIp, nodeIps, v4);
    OwnAddressIff(o, nodes, v4, nodeIp);
    ServicesApart(o, services, [], slices, nodeIp, nodeIps, v4);
    MergedHas(services, f, id);
    hide ServiceEntries, Merged, OwnIp, Apart, NamesUnique, AskedFor, OwnAddress;
    var s :| s in services && id in f(s);
    ServiceEntriesAre(o, s, slices, nodeIp, nodeIps, v4, id);
  }
}
