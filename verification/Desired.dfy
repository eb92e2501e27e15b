/** desiredEntries (main.go): the entries that a listing of services, nodes and slices asks for. */
module Desired {
  import opened Net
  import opened Listing
  import opened Order
  import opened Backends
  import opened Canonical
  import R = Reconciler

  datatype Service = Service(namespace: string, name: string, kind: string, policy: string, ports: seq<ServicePort>)
  datatype NodeAddress = NodeAddress(kind: string, address: string)
  datatype Node = Node(name: string, addresses: seq<NodeAddress>)
  datatype Ref = Ref(namespace: string, name: string)

  /** A nodePortEntry, addresses as text. */
  datatype TextEntry = TextEntry(id: R.ServiceID, nodeIp: string, snatIp: string, backends: seq<Offer>)
  type TextEntries = map<R.ServiceID, TextEntry>

  /**
   What a reconcile uses: the selected service if any, the node name so far, the host's name, and the
   SNAT address.
   */
  datatype Options = Options(selector: Option<Ref>, nodeName: string, hostname: string, snatIp: string)

  // --- Merging maps of separate keys ------------------------------------------------------

  function Merged<T, K, V>(xs: seq<T>, f: T -> map<K, V>): map<K, V> {
    if xs == [] then map[] else Merged(xs[..|xs| - 1], f) + f(xs[|xs| - 1])
  }

  /** Different elements contribute different keys. */
  ghost predicate Apart<T(!new), K, V>(xs: seq<T>, f: T -> map<K, V>) {
    forall x, y :: x in xs && y in xs && x != y ==> f(x).Keys !! f(y).Keys
  }

  lemma {:induction false} MergedHas<T(!new), K, V>(xs: seq<T>, f: T -> map<K, V>, k: K)
    requires Apart(xs, f)
    ensures k in Merged(xs, f) <==> exists x :: x in xs && k in f(x)
    ensures forall x :: x in xs && k in f(x) ==> k in Merged(xs, f) && Merged(xs, f)[k] == f(x)[k]
  {
    if xs != [] {
      var front, last := xs[..|xs| - 1], xs[|xs| - 1];
      assert xs == front + [last];
      assert forall x :: x in xs <==> x in front || x == last;
      MergedHas(front, f, k);
    }
  }

  /** The merge does not depend on the order. */
  lemma MergedOrderless<T(!new), K(!new), V>(xs: seq<T>, ys: seq<T>, f: T -> map<K, V>)
    requires Apart(xs, f) && Elements(xs) == Elements(ys)
    ensures Merged(xs, f) == Merged(ys, f)
  {
    assert forall x :: x in xs <==> x in Elements(xs);
    assert forall x :: x in ys <==> x in Elements(ys);
    forall k ensures k in Merged(xs, f) <==> k in Merged(ys, f) {
      MergedHas(xs, f, k);
      MergedHas(ys, f, k);
    }
    forall k | k in Merged(xs, f) ensures Merged(xs, f)[k] == Merged(ys, f)[k] {
      MergedHas(xs, f, k);
      MergedHas(ys, f, k);
    }
  }

  lemma MergedOneMore<T, K, V>(xs: seq<T>, i: nat, f: T -> map<K, V>)
    requires i < |xs|
    ensures Merged(xs[..i + 1], f) == Merged(xs[..i], f) + f(xs[i])
  {
    assert xs[..i + 1][..i] == xs[..i];
  }

  // --- Nodes and slices -------------------------------------------------------------------

  function InternalIp(addresses: seq<NodeAddress>, v4: V4): string {
    if addresses == [] then ""
    else if addresses[0].kind == "InternalIP" && v4(addresses[0].address) then addresses[0].address
    else InternalIp(addresses[1..], v4)
  }

  function NodeIp(v4: V4): Node -> map<string, string> {
    (n: Node) => if InternalIp(n.addresses, v4) == "" then map[] else map[n.name := InternalIp(n.addresses, v4)]
  }

  /** The inner loop of buildNodeInternalIPs: record the first internal IPv4 address, if any. */
  method RecordNode(n: Node, v4: V4, r0: map<string, string>) returns (r: map<string, string>)
    requires !v4("")
    ensures r == r0 + NodeIp(v4)(n)
  {
    r := r0;
    var j := 0;
    while j < |n.addresses|
      invariant 0 <= j <= |n.addresses| && InternalIp(n.addresses, v4) == InternalIp(n.addresses[j..], v4)
    {
      if n.addresses[j].kind == "InternalIP" && v4(n.addresses[j].address) {
        return r[n.name := n.addresses[j].address];
      }
      assert n.addresses[j..][1..] == n.addresses[j + 1..];
      j := j + 1;
    }
    assert r0 + map[] == r0;
  }

  /** buildNodeInternalIPs; the empty text is not an IPv4 address. */
  method BuildNodeInternalIPs(nodes: seq<Node>, v4: V4) returns (r: map<string, string>)
    requires !v4("")
    ensures r == Merged(nodes, NodeIp(v4))
  {
    hide NodeIp;
    r := map[];
    var i := 0;
    while i < |nodes|
      invariant 0 <= i <= |nodes| && r == Merged(nodes[..i], NodeIp(v4))
    {
      r := RecordNode(nodes[i], v4, r);
      MergedOneMore(nodes, i, NodeIp(v4));
      i := i + 1;
    }
    assert nodes[..i] == nodes;
  }

  predicate Indexed(s: Slice) {
    s.namespace != "" && s.serviceName != ""
  }

  function Belongs(ref: Ref): Slice -> bool {
    (s: Slice) => Indexed(s) && s.namespace == ref.namespace && s.serviceName == ref.name
  }

  function SlicesFor(slices: seq<Slice>, ref: Ref): seq<Slice> {
    Filter(slices, Belongs(ref))
  }

  function Lookup(index: map<Ref, seq<Slice>>, ref: Ref): seq<Slice> {
    if ref in index then index[ref] else []
  }

  method BuildSliceIndex(slices: seq<Slice>) returns (index: map<Ref, seq<Slice>>)
    ensures forall ref :: Lookup(index, ref) == SlicesFor(slices, ref)
  {
    hide Lookup, Indexed, Belongs;
    index := map[];
    NoIndex();
    var i := 0;
    while i < |slices|
      invariant 0 <= i <= |slices| && forall ref :: Lookup(index, ref) == SlicesFor(slices[..i], ref)
    {
      ghost var before := index;
      var s := slices[i];
      if Indexed(s) {
        index := index[Ref(s.namespace, s.serviceName) := Lookup(index, Ref(s.namespace, s.serviceName)) + [s]];
      }
      forall ref ensures Lookup(index, ref) == SlicesFor(slices[..i + 1], ref) {
        OneMoreSliceFor(slices, i, ref);
        IndexStep(before, slices[i], ref);
        assert Lookup(before, ref) == SlicesFor(slices[..i], ref);
      }
      i := i + 1;
    }
    assert slices[..i] == slices;
  }

  lemma NoIndex()
    ensures forall ref :: Lookup(map[], ref) == []
  {
  }

  lemma IndexStep(index: map<Ref, seq<Slice>>, s: Slice, ref: Ref)
    ensures var own := Ref(s.namespace, s.serviceName);
            var after := if Indexed(s) then index[own := Lookup(index, own) + [s]] else index;
            Lookup(after, ref) == Lookup(index, ref) + if Belongs(ref)(s) then [s] else []
  {
  }

  lemma OneMoreSliceFor(slices: seq<Slice>, i: nat, ref: Ref)
    requires i < |slices|
    ensures SlicesFor(slices[..i + 1], ref) ==
            SlicesFor(slices[..i], ref) + if Belongs(ref)(slices[i]) then [slices[i]] else []
  {
    assert slices[..i + 1][..i] == slices[..i];
  }

  // --- Entries ------------------------------------------------------------------------------

  /** The service is selected, of type NodePort, and balances over the whole cluster. */
  predicate Wanted(o: Options, s: Service) {
    && (o.selector.None? || o.selector.value == Ref(s.namespace, s.name))
    && s.kind == "NodePort" && s.policy in ["", "Cluster"]
  }

  predicate Exposed(p: ServicePort) {
    p.protocol in ["", TCP] && p.nodePort != 0
  }

  function IdOf(s: Service, p: ServicePort): R.ServiceID {
    R.ServiceID(s.namespace, s.name, p.nodePort)
  }

  /** The entries of the first n ports of a service. */
  ghost function PortEntries(o: Options, s: Service, n: nat, slices: seq<Slice>, nodeIp: string,
                             nodeIps: map<string, string>, v4: V4): TextEntries
    requires n <= |s.ports|
  {
    if n == 0 then map[]
    else
      var before, p := PortEntries(o, s, n - 1, slices, nodeIp, nodeIps, v4), s.ports[n - 1];
      var backends := BackendsOf(p, slices, nodeIps, v4);
      if Exposed(p) && backends != []
      then before[IdOf(s, p) := TextEntry(IdOf(s, p), nodeIp, o.snatIp, backends)]
      else before
  }

  ghost function ServiceEntries(o: Options, slices: seq<Slice>, nodeIp: string, nodeIps: map<string, string>,
                                v4: V4): Service -> TextEntries {
    (s: Service) =>
      var related := SlicesFor(slices, Ref(s.namespace, s.name));
      if Wanted(o, s) && related != [] then PortEntries(o, s, |s.ports|, related, nodeIp, nodeIps, v4) else map[]
  }

  // --- The node's own name ------------------------------------------------------------------

  /** A node that may be this one: its name is the wanted one, or, without one, matches the host name up to a prefix. */
  predicate MayBeSelf(o: Options, n: Node) {
    if o.nodeName != "" then n.name == o.nodeName else n.name <= o.hostname || o.hostname <= n.name
  }

  /** resolveNodeName: the first candidate of the listing. */
  function OwnName(o: Options, nodes: seq<Node>): Option<string> {
    if nodes == [] then None else if MayBeSelf(o, nodes[0]) then Some(nodes[0].name) else OwnName(o, nodes[1..])
  }

  method ResolveNodeName(o: Options, nodes: seq<Node>) returns (name: Option<string>)
    ensures name == OwnName(o, nodes)
  {
    var i := 0;
    while i < |nodes|
      invariant 0 <= i <= |nodes| && OwnName(o, nodes) == OwnName(o, nodes[i..])
    {
      if o.nodeName != "" {
        if nodes[i].name == o.nodeName { return Some(o.nodeName); }
      } else if nodes[i].name == o.hostname || o.hostname <= nodes[i].name || nodes[i].name <= o.hostname {
        return Some(nodes[i].name);
      }
      assert nodes[i..][1..] == nodes[i + 1..];
      i := i + 1;
    }
    return None;
  }

  lemma {:induction false} OwnNameIsCandidate(o: Options, nodes: seq<Node>)
    ensures match OwnName(o, nodes)
            case None => forall n :: n in nodes ==> !MayBeSelf(o, n)
            case Some(name) => exists n :: n in nodes && MayBeSelf(o, n) && n.name == name
  {
    hide MayBeSelf;
    if nodes != [] {
      OwnNameIsCandidate(o, nodes[1..]);
      assert forall n :: n in nodes <==> n == nodes[0] || n in nodes[1..];
    }
  }

  /** All candidates have one name. */
  ghost predicate OneCandidate(o: Options, nodes: seq<Node>) {
    forall n, n2 :: n in nodes && n2 in nodes && MayBeSelf(o, n) && MayBeSelf(o, n2) ==> n.name == n2.name
  }

  lemma OwnNameOrderless(o: Options, nodes: seq<Node>, other: seq<Node>)
    requires OneCandidate(o, nodes) && Elements(nodes) == Elements(other)
    ensures OwnName(o, other) == OwnName(o, nodes)
  {
    hide MayBeSelf;
    assert forall n :: n in nodes <==> n in Elements(nodes);
    assert forall n :: n in other <==> n in Elements(other);
    OwnNameIsCandidate(o, nodes);
    OwnNameIsCandidate(o, other);
  }

  /** The name does not depend on the order of the listing exactly when all candidates have one name. */
  lemma OwnNameOrderlessIff(o: Options, nodes: seq<Node>)
    ensures (forall other: seq<Node> ::
               multiset(other) == multiset(nodes) ==> OwnName(o, other) == OwnName(o, nodes)) <==>
            OneCandidate(o, nodes)
  {
    if OneCandidate(o, nodes) {
      forall other: seq<Node> | multiset(other) == multiset(nodes) ensures OwnName(o, other) == OwnName(o, nodes) {
        PermutedLength(other, nodes);
        OwnNameOrderless(o, nodes, other);
      }
    } else {
      var n, n2 :| n in nodes && n2 in nodes && MayBeSelf(o, n) && MayBeSelf(o, n2) && n.name != n2.name;
      var one := CandidateFirst(o, nodes, n);
      var two := CandidateFirst(o, nodes, n2);
      hide OwnName, MayBeSelf;
      assert OwnName(o, one) != OwnName(o, nodes) || OwnName(o, two) != OwnName(o, nodes);
    }
  }

  /** Any candidate can come first. */
  lemma CandidateFirst(o: Options, nodes: seq<Node>, n: Node) returns (other: seq<Node>)
    requires n in nodes && MayBeSelf(o, n)
    ensures multiset(other) == multiset(nodes) && OwnName(o, other) == Some(n.name)
  {
    var rest := MovedToFront(nodes, n);
    other := [n] + rest;
  }

  /** Two nodes of one cluster that the host name cannot tell apart: the first one listed is taken. */
  lemma GuessDependsOnOrder()
    ensures var o := Options(None, "", "node", "");
            var a, b := Node("node-a", []), Node("node-b", []);
            && OwnName(o, [a, b]) == Some("node-a") && OwnName(o, [b, a]) == Some("node-b")
            && !OneCandidate(o, [a, b])
  {
    var o := Options(None, "", "node", "");
    var a, b := Node("node-a", []), Node("node-b", []);
    assert "node" <= "node-a" && "node" <= "node-b";
    assert "node-a"[5] != "node-b"[5];
    assert MayBeSelf(o, a) && MayBeSelf(o, b) && a in [a, b] && b in [a, b];
  }

  /** The node's own address, if the node is listed and has one. */
  function OwnIp(o: Options, nodes: seq<Node>, nodeIps: map<string, string>): string {
    match OwnName(o, nodes)
    case None => ""
    case Some(name) => if name in nodeIps then nodeIps[name] else ""
  }

  /** What desiredEntries returns; None is its error. */
  ghost function DesiredOf(o: Options, services: seq<Service>, nodes: seq<Node>, slices: seq<Slice>,
                           v4: V4): Option<TextEntries> {
    var nodeIps := Merged(nodes, NodeIp(v4));
    var nodeIp := OwnIp(o, nodes, nodeIps);
    if nodeIp == "" then None else Some(Merged(services, ServiceEntries(o, slices, nodeIp, nodeIps, v4)))
  }

  method AddService(o: Options, s: Service, slices: seq<Slice>, nodeIp: string, nodeIps: map<string, string>, v4: V4,
                    entries0: TextEntries)
    returns (entries: TextEntries)
    ensures entries == entries0 + PortEntries(o, s, |s.ports|, slices, nodeIp, nodeIps, v4)
  {
    hide BackendsOf, Exposed, PortEntries;
    entries := entries0;
    NoPorts(o, s, slices, nodeIp, nodeIps, v4);
    assert entries0 + map[] == entries0;
    var i := 0;
    while i < |s.ports|
      invariant 0 <= i <= |s.ports| && entries == entries0 + PortEntries(o, s, i, slices, nodeIp, nodeIps, v4)
    {
      var p := s.ports[i];
      OneMorePort(o, s, i, slices, nodeIp, nodeIps, v4);
      if Exposed(p) {
        var backends := CollectBackends(p, slices, nodeIps, v4);
        if |backends| != 0 {
          var e := TextEntry(IdOf(s, p), nodeIp, o.snatIp, backends);
          UnionPut(entries0, PortEntries(o, s, i, slices, nodeIp, nodeIps, v4), IdOf(s, p), e);
          entries := entries[IdOf(s, p) := e];
        }
      }
      i := i + 1;
    }
  }

  lemma NoPorts(o: Options, s: Service, slices: seq<Slice>, nodeIp: string, nodeIps: map<string, string>, v4: V4)
    ensures PortEntries(o, s, 0, slices, nodeIp, nodeIps, v4) == map[]
  {
  }

  lemma OneMorePort(o: Options, s: Service, i: nat, slices: seq<Slice>, nodeIp: string, nodeIps: map<string, string>,
                    v4: V4)
    requires i < |s.ports|
    ensures var before, p := PortEntries(o, s, i, slices, nodeIp, nodeIps, v4), s.ports[i];
            var backends := BackendsOf(p, slices, nodeIps, v4);
            PortEntries(o, s, i + 1, slices, nodeIp, nodeIps, v4) ==
            if Exposed(p) && |backends| != 0
            then before[IdOf(s, p) := TextEntry(IdOf(s, p), nodeIp, o.snatIp, backends)]
            else before
  {
    hide BackendsOf, Exposed;
  }

  lemma UnionPut<K, V>(a: map<K, V>, b: map<K, V>, k: K, v: V)
    ensures a + b[k := v] == (a + b)[k := v]
  {
  }

  /** desiredEntries; the node name it found is kept for the next reconcile, even if the node has no address. */
  method DesiredEntries(o: Options, services: seq<Service>, nodes: seq<Node>, slices: seq<Slice>, v4: V4)
    returns (r: Option<TextEntries>, nodeName: string)
    requires !v4("")
    ensures r == DesiredOf(o, services, nodes, slices, v4)
    ensures nodeName == if OwnName(o, nodes).Some? then OwnName(o, nodes).value else o.nodeName
  {
    hide PortEntries, Wanted, OwnName;
    nodeName := o.nodeName;
    var name := ResolveNodeName(o, nodes);
    if name.None? { return None, nodeName; }
    nodeName := name.value;
    var nodeIps := BuildNodeInternalIPs(nodes, v4);
    if nodeName !in nodeIps || nodeIps[nodeName] == "" { return None, nodeName; }
    var nodeIp := nodeIps[nodeName];
    var index := BuildSliceIndex(slices);
    ghost var f := ServiceEntries(o, slices, nodeIp, nodeIps, v4);
    var entries: TextEntries := map[];
    var i := 0;
    while i < |services|
      invariant 0 <= i <= |services| && entries == Merged(services[..i], f)
    {
      var s := services[i];
      MergedOneMore(services, i, f);
      var related := Lookup(index, Ref(s.namespace, s.name));
      if Wanted(o, s) && |related| != 0 {
        entries := AddService(o, s, related, nodeIp, nodeIps, v4, entries);
      }
      i := i + 1;
    }
    assert services[..i] == services;
    return Some(entries), nodeName;
  }

  /** Once a name is found, the next reconcile looks for exactly that node. */
  lemma FoundNameStays(o: Options, nodes: seq<Node>, later: seq<Node>)
    requires OwnName(o, nodes).Some? && OwnName(o, nodes).value != ""
    ensures var found := o.(nodeName := OwnName(o, nodes).value);
            OwnName(found, later) ==
            if exists n :: n in later && n.name == found.nodeName then Some(found.nodeName) else None
    ensures OneCandidate(o.(nodeName := OwnName(o, nodes).value), later)
  {
    OwnNameIsCandidate(o.(nodeName := OwnName(o, nodes).value), later);
  }

  // --- Filed entries --------------------------------------------------------------------------

  /** Entries are filed under their own id, belong to the service, and have strictly sorted backends, at least one. */
  ghost predicate OfService(es: TextEntries, s: Service) {
    forall id :: id in es ==>
      && id.namespace == s.namespace && id.name == s.name && es[id].id == id
      && es[id].backends != [] && Ascending(OfferLess, es[id].backends)
  }

  lemma {:induction false} PortEntriesOfService(o: Options, s: Service, n: nat, slices: seq<Slice>, nodeIp: string,
                                                nodeIps: map<string, string>, v4: V4)
    requires n <= |s.ports|
    ensures OfService(PortEntries(o, s, n, slices, nodeIp, nodeIps, v4), s)
  {
    hide OfferLess, Ascending, Offers, FirstOffers;
    if n > 0 {
      PortEntriesOfService(o, s, n - 1, slices, nodeIp, nodeIps, v4);
      var backends := BackendsOf(s.ports[n - 1], slices, nodeIps, v4);
      assert Ascending(OfferLess, backends);
    }
  }

  ghost predicate NamesUnique(services: seq<Service>, nodes: seq<Node>) {
    && (forall s, s2 :: s in services && s2 in services && s != s2 ==> s.namespace != s2.namespace || s.name != s2.name)
    && (forall n, n2 :: n in nodes && n2 in nodes && n != n2 ==> n.name != n2.name)
  }

  lemma ServicesApart(o: Options, services: seq<Service>, nodes: seq<Node>, slices: seq<Slice>, nodeIp: string,
                      nodeIps: map<string, string>, v4: V4)
    requires NamesUnique(services, nodes)
    ensures Apart(services, ServiceEntries(o, slices, nodeIp, nodeIps, v4))
  {
    var f := ServiceEntries(o, slices, nodeIp, nodeIps, v4);
    forall s ensures OfService(f(s), s) {
      PortEntriesOfService(o, s, |s.ports|, SlicesFor(slices, Ref(s.namespace, s.name)), nodeIp, nodeIps, v4);
    }
    hide PortEntries, SlicesFor, Wanted;
  }

  /** Every desired entry is filed under its own id and has a nonempty, strictly sorted backend list. */
  lemma DesiredAreFiled(o: Options, services: seq<Service>, nodes: seq<Node>, slices: seq<Slice>, v4: V4,
                        id: R.ServiceID)
    requires NamesUnique(services, [])
    requires DesiredOf(o, services, nodes, slices, v4).Some? && id in DesiredOf(o, services, nodes, slices, v4).value
    ensures var e := DesiredOf(o, services, nodes, slices, v4).value[id];
            e.id == id && e.backends != [] && Ascending(OfferLess, e.backends)
  {
    var nodeIps := Merged(nodes, NodeIp(v4));
    var nodeIp := OwnIp(o, nodes, nodeIps);
    var f := ServiceEntries(o, slices, nodeIp, nodeIps, v4);
    ServicesApart(o, services, [], slices, nodeIp, nodeIps, v4);
    MergedHas(services, f, id);
    var s :| s in services && id in f(s);
    PortEntriesOfService(o, s, |s.ports|, SlicesFor(slices, Ref(s.namespace, s.name)), nodeIp, nodeIps, v4);
  }

  // --- Order of the listings --------------------------------------------------------------------

  lemma {:induction false} FilterSimilar(c: seq<Slice>, b: seq<Slice>, ref: Ref)
    requires PairwiseSimilar(c, b)
    ensures PairwiseSimilar(SlicesFor(c, ref), SlicesFor(b, ref))
  {
    if c != [] {
      FilterSimilar(c[..|c| - 1], b[..|b| - 1], ref);
    }
  }

  lemma SlicesForReordered(a: seq<Slice>, b: seq<Slice>, ref: Ref)
    requires Reordered(a, b)
    ensures Reordered(SlicesFor(a, ref), SlicesFor(b, ref)) && |SlicesFor(a, ref)| == |SlicesFor(b, ref)|
  {
    var c: seq<Slice> :| multiset(c) == multiset(a) && PairwiseSimilar(c, b);
    FilterAlike(c, a, Belongs(ref));
    FilterSimilar(c, b, ref);
  }

  /** Each service port sees every address and port on one node. */
  ghost predicate AllConsistent(services: seq<Service>, slices: seq<Slice>, nodeIps: map<string, string>, v4: V4) {
    forall s, p :: s in services && p in s.ports ==> PortConsistent(s, p, slices, nodeIps, v4)
  }

  ghost predicate PortConsistent(s: Service, p: ServicePort, slices: seq<Slice>, nodeIps: map<string, string>, v4: V4) {
    Consistent(Elements(Offers(p, SlicesFor(slices, Ref(s.namespace, s.name)), nodeIps, v4)))
  }

  lemma {:induction false} PortEntriesReordered(o: Options, s: Service, n: nat, a: seq<Slice>, b: seq<Slice>,
                                                nodeIp: string, nodeIps: map<string, string>, v4: V4)
    requires n <= |s.ports| && Reordered(a, b)
    requires forall p :: p in s.ports ==> Consistent(Elements(Offers(p, a, nodeIps, v4)))
    ensures PortEntries(o, s, n, a, nodeIp, nodeIps, v4) == PortEntries(o, s, n, b, nodeIp, nodeIps, v4)
  {
    hide Consistent, Offers, BackendsOf, Reordered;
    if n > 0 {
      PortEntriesReordered(o, s, n - 1, a, b, nodeIp, nodeIps, v4);
      ReorderedBackendsSame(s.ports[n - 1], a, b, nodeIps, v4);
    }
  }

  lemma ServiceEntriesReordered(o: Options, s: Service, a: seq<Slice>, b: seq<Slice>, nodeIp: string,
                                nodeIps: map<string, string>, v4: V4)
    requires Reordered(a, b) && forall p :: p in s.ports ==> PortConsistent(s, p, a, nodeIps, v4)
    ensures ServiceEntries(o, a, nodeIp, nodeIps, v4)(s) == ServiceEntries(o, b, nodeIp, nodeIps, v4)(s)
  {
    var ref := Ref(s.namespace, s.name);
    SlicesForReordered(a, b, ref);
    forall p | p in s.ports ensures Consistent(Elements(Offers(p, SlicesFor(a, ref), nodeIps, v4))) {
      assert PortConsistent(s, p, a, nodeIps, v4);
    }
    hide Consistent, Offers, SlicesFor, Reordered, PortConsistent;
    PortEntriesReordered(o, s, |s.ports|, SlicesFor(a, ref), SlicesFor(b, ref), nodeIp, nodeIps, v4);
  }

  lemma {:induction false} MergedSame<T(!new), K, V>(xs: seq<T>, f: T -> map<K, V>, g: T -> map<K, V>)
    requires forall x :: x in xs ==> f(x) == g(x)
    ensures Merged(xs, f) == Merged(xs, g)
  {
    if xs != [] { MergedSame(xs[..|xs| - 1], f, g); }
  }

  /** Another listing of the same cluster. */
  ghost predicate Relisted(services: seq<Service>, nodes: seq<Node>, slices: seq<Slice>, services2: seq<Service>,
                           nodes2: seq<Node>, slices2: seq<Slice>) {
    Elements(services) == Elements(services2) && Elements(nodes) == Elements(nodes2) && Reordered(slices, slices2)
  }

  lemma NodesOrderless(o: Options, services: seq<Service>, nodes: seq<Node>, nodes2: seq<Node>, v4: V4)
    requires NamesUnique(services, nodes) && Elements(nodes) == Elements(nodes2) && OneCandidate(o, nodes)
    ensures Merged(nodes, NodeIp(v4)) == Merged(nodes2, NodeIp(v4))
    ensures OwnIp(o, nodes, Merged(nodes, NodeIp(v4))) == OwnIp(o, nodes2, Merged(nodes2, NodeIp(v4)))
  {
    MergedOrderless(nodes, nodes2, NodeIp(v4));
    OwnNameOrderless(o, nodes, nodes2);
    hide Merged, OwnName;
  }

  /** Two listings of a consistent cluster ask for the same entries. */
  lemma DesiredOrderless(o: Options, services: seq<Service>, nodes: seq<Node>, slices: seq<Slice>,
                         services2: seq<Service>, nodes2: seq<Node>, slices2: seq<Slice>, v4: V4)
    requires NamesUnique(services, nodes) && Relisted(services, nodes, slices, services2, nodes2, slices2)
    requires AllConsistent(services, slices, Merged(nodes, NodeIp(v4)), v4) && OneCandidate(o, nodes)
    ensures DesiredOf(o, services, nodes, slices, v4) == DesiredOf(o, services2, nodes2, slices2, v4)
  {
    var nodeIps := Merged(nodes, NodeIp(v4));
    var nodeIp := OwnIp(o, nodes, nodeIps);
    NodesOrderless(o, services, nodes, nodes2, v4);
    var f, g := ServiceEntries(o, slices, nodeIp, nodeIps, v4), ServiceEntries(o, slices2, nodeIp, nodeIps, v4);
    ServicesApart(o, services, nodes, slices, nodeIp, nodeIps, v4);
    hide Merged, PortConsistent, Reordered, OwnIp, ServiceEntries, Apart;
    MergedOrderless(services, services2, f);
    forall s | s in services2 ensures f(s) == g(s) {
      assert s in Elements(services);
      ServiceEntriesReordered(o, s, slices, slices2, nodeIp, nodeIps, v4);
    }
    MergedSame(services2, f, g);
  }

  // --- No writes for a reordered listing ----------------------------------------------------------

  /** The entries with their addresses read as numbers. */
  function Parsed(es: TextEntries, parse: string -> Addr): R.Entries {
    map id | id in es :: ParsedEntry(es[id], parse)
  }

  function ParsedEntry(e: TextEntry, parse: string -> Addr): R.Entry {
    R.Entry(e.id, parse(e.nodeIp), parse(e.snatIp),
            seq(|e.backends|, i requires 0 <= i < |e.backends| =>
              R.EntryBackend(parse(e.backends[i].address), e.backends[i].port, parse(e.backends[i].nodeIp))))
  }

  lemma NothingToDo(es: R.Entries, removed: seq<R.ServiceID>, changed: seq<R.ServiceID>)
    requires R.AllInstallable(es) && R.Worklists(es, es, removed, changed)
    ensures removed == [] && changed == [] && R.Plan(es, es, removed, changed) == []
  {
    assert R.RemovedIds(es, es) == {} && R.ChangedIds(es, es) == {};
    ListLength(removed, {});
    ListLength(changed, {});
  }

  /** Reconciling another listing of an unchanged, consistent cluster touches no service, backend or cursor row. */
  lemma RelistingWritesNothing(o: Options, services: seq<Service>, nodes: seq<Node>, slices: seq<Slice>,
                               services2: seq<Service>, nodes2: seq<Node>, slices2: seq<Slice>, v4: V4,
                               parse: string -> Addr, removed: seq<R.ServiceID>, changed: seq<R.ServiceID>)
    requires NamesUnique(services, nodes) && Relisted(services, nodes, slices, services2, nodes2, slices2)
    requires AllConsistent(services, slices, Merged(nodes, NodeIp(v4)), v4) && OneCandidate(o, nodes)
    requires var before, after := DesiredOf(o, services, nodes, slices, v4),
            DesiredOf(o, services2, nodes2, slices2, v4);
             && before.Some? && R.AllInstallable(Parsed(before.value, parse))
             && (after.Some? ==> R.Worklists(Parsed(before.value, parse), Parsed(after.value, parse), removed, changed))
    ensures var before, after := DesiredOf(o, services, nodes, slices, v4),
            DesiredOf(o, services2, nodes2, slices2, v4);
            && after == before && removed == [] && changed == []
            && R.Plan(Parsed(before.value, parse), Parsed(after.value, parse), removed, changed) == []
  {
    DesiredOrderless(o, services, nodes, slices, services2, nodes2, slices2, v4);
    hide *;
    NothingToDo(Parsed(DesiredOf(o, services, nodes, slices, v4).value, parse), removed, changed);
  }
}
