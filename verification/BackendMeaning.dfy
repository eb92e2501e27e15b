/** Which ports and endpoints become backends (collectBackends), told by the fields of the cluster's objects. */
module BackendMeaning {
  import opened Net
  import opened Listing
  import opened Order
  import opened Backends
  import opened Canonical

  // --- Slice ports -------------------------------------------------------------------------

  /** The port speaks TCP, which is the default, and has a number. */
  predicate Speaks(p: SlicePort) {
    (p.protocol == None || p.protocol == Some("TCP")) && p.port != None
  }

  ghost predicate SomeNamed(ports: seq<SlicePort>, name: string) {
    exists p :: p in ports && Speaks(p) && p.name == Some(name)
  }

  ghost predicate SomeNumbered(ports: seq<SlicePort>, number: int) {
    exists p :: p in ports && Speaks(p) && p.port == Some(number)
  }

  ghost predicate OnlyOne(ports: seq<SlicePort>) {
    exists i :: OnlyAt(ports, i)
  }

  predicate OnlyAt(ports: seq<SlicePort>, i: int) {
    0 <= i < |ports| && Speaks(ports[i]) && forall j :: 0 <= j < |ports| && j != i ==> !Speaks(ports[j])
  }

  /**
   A service port is served by the TCP ports of its name; if there are none, by those with the
   target's number; else by the only one; else by those with the service port's own number.
   */
  ghost predicate ServedBy(sp: ServicePort, ports: seq<SlicePort>, p: SlicePort) {
    && p in ports && Speaks(p)
    && if sp.name != "" && SomeNamed(ports, sp.name) then p.name == Some(sp.name)
       else if sp.target.Number? && sp.target.port != 0 && SomeNumbered(ports, sp.target.port)
       then p.port == Some(sp.target.port)
       else OnlyOne(ports) || p.port == Some(sp.port)
  }

  predicate Lone<T>(xs: seq<T>, p: T -> bool, i: int) {
    0 <= i < |xs| && p(xs[i]) && forall j :: 0 <= j < |xs| && j != i ==> !p(xs[j])
  }

  lemma {:induction false} FilterSizes<T>(xs: seq<T>, p: T -> bool)
    ensures |Filter(xs, p)| == 0 <==> forall i :: 0 <= i < |xs| ==> !p(xs[i])
    ensures |Filter(xs, p)| == 1 <==> exists i :: Lone(xs, p, i)
  {
    if xs != [] {
      var front, last := xs[..|xs| - 1], xs[|xs| - 1];
      FilterSizes(front, p);
      assert forall i :: 0 <= i < |front| ==> front[i] == xs[i];
      if |Filter(xs, p)| == 1 {
        if p(last) {
          assert |Filter(front, p)| == 0;
          assert Lone(xs, p, |xs| - 1);
        } else {
          var i :| Lone(front, p, i);
          assert Lone(xs, p, i);
        }
      }
      if i :| Lone(xs, p, i) {
        if i < |front| { assert Lone(front, p, i); }
      }
    }
  }

  lemma FilterEmptyIff<T>(xs: seq<T>, p: T -> bool)
    ensures |Filter(xs, p)| > 0 <==> exists x :: x in xs && p(x)
  {
    FilterSizes(xs, p);
    if x :| x in xs && p(x) {
      var i :| 0 <= i < |xs| && xs[i] == x;
    }
  }

  lemma TcpPorts(ports: seq<SlicePort>)
    ensures forall p :: p in Filter(ports, IsTcp) <==> p in ports && Speaks(p)
    ensures |Filter(ports, IsTcp)| == 1 <==> OnlyOne(ports)
  {
    FilterKeeps(ports, IsTcp);
    forall q ensures IsTcp(q) <==> Speaks(q) {
    }
    hide IsTcp, Speaks, OnlyOne;
    OneTcpPort(ports);
  }

  lemma OneTcpPort(ports: seq<SlicePort>)
    ensures |Filter(ports, IsTcp)| == 1 <==> OnlyOne(ports)
  {
    FilterSizes(ports, IsTcp);
    forall i ensures Lone(ports, IsTcp, i) <==> OnlyAt(ports, i) {
      LoneTcp(ports, i);
    }
    hide Filter, Lone, OnlyAt;
  }

  lemma LoneTcp(ports: seq<SlicePort>, i: int)
    ensures Lone(ports, IsTcp, i) <==> OnlyAt(ports, i)
  {
    forall q ensures IsTcp(q) <==> Speaks(q) {
    }
    hide IsTcp, Speaks;
  }

  lemma NamedPorts(sp: ServicePort, ports: seq<SlicePort>)
    ensures var named := Filter(Filter(ports, IsTcp), Named(sp));
            && (forall p :: p in named <==> p in ports && Speaks(p) && p.name == Some(sp.name))
            && (|named| > 0 <==> SomeNamed(ports, sp.name))
  {
    TcpPorts(ports);
    FilterKeeps(Filter(ports, IsTcp), Named(sp));
    FilterEmptyIff(Filter(ports, IsTcp), Named(sp));
    hide Filter, Speaks, IsTcp, OnlyOne;
  }

  lemma TargetedPorts(sp: ServicePort, ports: seq<SlicePort>)
    requires sp.target.Number?
    ensures var targeted := Filter(Filter(ports, IsTcp), Targeted(sp));
            && (forall p :: p in targeted <==> p in ports && Speaks(p) && p.port == Some(sp.target.port))
            && (|targeted| > 0 <==> SomeNumbered(ports, sp.target.port))
  {
    TcpPorts(ports);
    FilterKeeps(Filter(ports, IsTcp), Targeted(sp));
    FilterEmptyIff(Filter(ports, IsTcp), Targeted(sp));
    hide Filter, Speaks, IsTcp, OnlyOne;
  }

  lemma SamePorts(sp: ServicePort, ports: seq<SlicePort>)
    ensures forall p :: p in Filter(Filter(ports, IsTcp), SamePort(sp)) <==>
                        p in ports && Speaks(p) && p.port == Some(sp.port)
  {
    TcpPorts(ports);
    FilterKeeps(Filter(ports, IsTcp), SamePort(sp));
    hide Filter, Speaks, IsTcp, OnlyOne;
  }

  /** matchingSlicePorts returns exactly the ports that serve. */
  lemma MatchingIff(sp: ServicePort, ports: seq<SlicePort>, p: SlicePort)
    ensures p in MatchingPorts(sp, ports) <==> ServedBy(sp, ports, p)
  {
    TcpPorts(ports);
    NamedPorts(sp, ports);
    if sp.target.Number? { TargetedPorts(sp, ports); }
    SamePorts(sp, ports);
    hide Filter, Speaks, IsTcp, OnlyOne, SomeNamed, SomeNumbered;
    OnlyMember(Filter(ports, IsTcp), p);
  }

  lemma OnlyMember<T>(xs: seq<T>, x: T)
    ensures |xs| == 1 && x in xs ==> xs == [x]
  {
  }

  // --- Backends ------------------------------------------------------------------------------

  /** The address is the endpoint's first IPv4 address. */
  ghost predicate FirstV4Is(addresses: seq<string>, v4: V4, address: string) {
    exists k :: 0 <= k < |addresses| && addresses[k] == address && v4(address) &&
        forall m :: 0 <= m < k ==> !v4(addresses[m])
  }

  /** Endpoint e serves on this address and port, on the node with this address. */
  ghost predicate Serves(sp: ServicePort, s: Slice, e: Endpoint, nodeIps: map<string, string>, v4: V4, o: Offer) {
    && e.ready != Some(false) && e.serving != Some(false) && e.terminating != Some(true)
    && (e.targetKind == None || e.targetKind == Some("") || e.targetKind == Some("Pod"))
    && e.nodeName.Some? && e.nodeName.value != ""
    && e.nodeName.value in nodeIps && nodeIps[e.nodeName.value] == o.nodeIp && o.nodeIp != ""
    && FirstV4Is(e.addresses, v4, o.address) && o.address != ""
    && exists p :: ServedBy(sp, s.ports, p) && p.port == Some(o.port)
  }

  /** It serves on this address and port at all. */
  ghost predicate ServesKey(sp: ServicePort, s: Slice, e: Endpoint, nodeIps: map<string, string>, v4: V4, o: Offer) {
    exists nodeIp :: Serves(sp, s, e, nodeIps, v4, o.(nodeIp := nodeIp))
  }

  lemma {:induction false} FirstV4Iff(addresses: seq<string>, v4: V4, address: string)
    requires address != ""
    ensures FirstV4(addresses, v4) == address <==> FirstV4Is(addresses, v4, address)
  {
    if addresses != [] {
      FirstV4Iff(addresses[1..], v4, address);
      if v4(addresses[0]) {
        assert addresses[0] == address ==> FirstV4Is(addresses, v4, address);
      } else {
        assert forall k :: 0 <= k < |addresses[1..]| ==> addresses[1..][k] == addresses[k + 1];
        if FirstV4Is(addresses, v4, address) {
          var k :| 0 <= k < |addresses| && addresses[k] == address && v4(address) &&
              forall m :: 0 <= m < k ==> !v4(addresses[m]);
          assert addresses[1..][k - 1] == address;
        }
        if FirstV4Is(addresses[1..], v4, address) {
          var k :| 0 <= k < |addresses[1..]| && addresses[1..][k] == address && v4(address) &&
              forall m :: 0 <= m < k ==> !v4(addresses[1..][m]);
          assert addresses[k + 1] == address;
          assert forall m :: 0 < m < k + 1 ==> !v4(addresses[m]) by {
            assert forall m :: 0 < m < k + 1 ==> addresses[m] == addresses[1..][m - 1];
          }
        }
      }
    }
  }

  lemma FirstV4None(addresses: seq<string>, v4: V4)
    ensures FirstV4(addresses, v4) == "" || FirstV4Is(addresses, v4, FirstV4(addresses, v4))
  {
    if FirstV4(addresses, v4) != "" { FirstV4Iff(addresses, v4, FirstV4(addresses, v4)); }
  }

  /** One endpoint's offers are what it serves. */
  lemma EndpointServes(sp: ServicePort, s: Slice, e: Endpoint, nodeIps: map<string, string>, v4: V4, o: Offer)
    requires forall p :: p in MatchingPorts(sp, s.ports) ==> p.port.Some?
    ensures o in EndpointOffers(e, MatchingPorts(sp, s.ports), nodeIps, v4) <==> Serves(sp, s, e, nodeIps, v4, o)
  {
    var ports := MatchingPorts(sp, s.ports);
    forall p ensures p in ports <==> ServedBy(sp, s.ports, p) {
      MatchingIff(sp, s.ports, p);
    }
    FirstV4None(e.addresses, v4);
    if o.address != "" { FirstV4Iff(e.addresses, v4, o.address); }
    hide FirstV4, FirstV4Is, MatchingPorts, ServedBy;
    var offers := EndpointOffers(e, ports, nodeIps, v4);
    if Serves(sp, s, e, nodeIps, v4, o) {
      var p :| ServedBy(sp, s.ports, p) && p.port == Some(o.port);
      var i :| 0 <= i < |ports| && ports[i] == p;
      assert offers[i] == o;
    }
  }

  /** One endpoint offers every key once. */
  lemma EndpointFirsts(e: Endpoint, ports: seq<SlicePort>, nodeIps: map<string, string>, v4: V4, o: Offer)
    requires forall p :: p in ports ==> p.port.Some?
    ensures var offers := EndpointOffers(e, ports, nodeIps, v4);
            && (o in FirstOffers(offers) <==> o in offers)
            && (KeyOf(o) in KeysOf(offers) <==> exists nodeIp :: o.(nodeIp := nodeIp) in offers)
  {
    var offers := EndpointOffers(e, ports, nodeIps, v4);
    assert forall i, j :: 0 <= i < |offers| && 0 <= j < |offers| && KeyOf(offers[i]) == KeyOf(offers[j]) ==>
        offers[i] == offers[j];
    hide Located, EndpointOffers;
    SameKeySameOffer(offers, o);
    KeyIsOffered(offers, o);
  }

  lemma {:induction false} SameKeySameOffer(offers: seq<Offer>, o: Offer)
    requires forall i, j :: 0 <= i < |offers| && 0 <= j < |offers| && KeyOf(offers[i]) == KeyOf(offers[j]) ==>
               offers[i] == offers[j]
    ensures o in FirstOffers(offers) <==> o in offers
  {
    hide KeyOf;
    if offers != [] {
      var front, last := offers[..|offers| - 1], offers[|offers| - 1];
      assert forall i :: 0 <= i < |front| ==> front[i] == offers[i];
      SameKeySameOffer(front, o);
      assert offers == front + [last];
      if KeyOf(last) in KeysOf(front) {
        var i :| 0 <= i < |front| && KeyOf(front[i]) == KeyOf(last);
        assert offers[i] == offers[|offers| - 1];
      }
    }
  }

  lemma KeyIsOffered(offers: seq<Offer>, o: Offer)
    ensures KeyOf(o) in KeysOf(offers) <==> exists nodeIp :: o.(nodeIp := nodeIp) in offers
  {
    if KeyOf(o) in KeysOf(offers) {
      var i :| 0 <= i < |offers| && KeyOf(offers[i]) == KeyOf(o);
      assert o.(nodeIp := offers[i].nodeIp) == offers[i];
    }
    KnownKeys(offers);
    if nodeIp :| o.(nodeIp := nodeIp) in offers {
      assert KeyOf(o.(nodeIp := nodeIp)) == KeyOf(o);
    }
  }

  /** The first offers of two lists: those of the first, and those of the second whose keys are new. */
  lemma {:induction false} FirstsOfBoth(a: seq<Offer>, b: seq<Offer>, o: Offer)
    ensures o in FirstOffers(a + b) <==> o in FirstOffers(a) || (KeyOf(o) !in KeysOf(a) && o in FirstOffers(b))
    ensures KeyOf(o) in KeysOf(a + b) <==> KeyOf(o) in KeysOf(a) || KeyOf(o) in KeysOf(b)
  {
    hide KeyOf;
    if b == [] {
      assert a + b == a;
    } else {
      var front, last := b[..|b| - 1], b[|b| - 1];
      FirstsOfBoth(a, front, o);
      FirstsOfBoth(a, front, last);
      assert a + b == (a + front) + [last] && b == front + [last];
      FirstOffersOneMore(a + front, last);
      FirstOffersOneMore(front, last);
      KeysOneMore(a + front, last);
      KeysOneMore(front, last);
      hide FirstOffers, KeysOf;
    }
  }

  /** The first endpoint of the list to serve on this address and port does so as o. */
  ghost predicate FirstOfList(sp: ServicePort, s: Slice, es: seq<Endpoint>, nodeIps: map<string, string>, v4: V4,
                              o: Offer) {
    exists j :: 0 <= j < |es| && Serves(sp, s, es[j], nodeIps, v4, o) &&
        forall m :: 0 <= m < j ==> !ServesKey(sp, s, es[m], nodeIps, v4, o)
  }

  ghost predicate ListServes(sp: ServicePort, s: Slice, es: seq<Endpoint>, nodeIps: map<string, string>, v4: V4,
                             o: Offer) {
    exists j :: 0 <= j < |es| && ServesKey(sp, s, es[j], nodeIps, v4, o)
  }

  lemma {:induction false} ListFirsts(sp: ServicePort, s: Slice, es: seq<Endpoint>, nodeIps: map<string, string>,
                                      v4: V4, o: Offer)
    requires forall p :: p in MatchingPorts(sp, s.ports) ==> p.port.Some?
    ensures var offers := ListOffers(es, MatchingPorts(sp, s.ports), nodeIps, v4);
            && (o in FirstOffers(offers) <==> FirstOfList(sp, s, es, nodeIps, v4, o))
            && (KeyOf(o) in KeysOf(offers) <==> ListServes(sp, s, es, nodeIps, v4, o))
  {
    hide MatchingPorts, EndpointOffers, Serves, FirstOffers, KeyOf;
    var ports := MatchingPorts(sp, s.ports);
    if es == [] {
      NothingFirst();
    } else {
      var front, last := es[..|es| - 1], es[|es| - 1];
      ListFirsts(sp, s, front, nodeIps, v4, o);
      FirstsOfBoth(ListOffers(front, ports, nodeIps, v4), EndpointOffers(last, ports, nodeIps, v4), o);
      EndpointFirsts(last, ports, nodeIps, v4, o);
      EndpointServes(sp, s, last, nodeIps, v4, o);
      forall nodeIp
        ensures o.(nodeIp := nodeIp) in EndpointOffers(last, ports, nodeIps, v4) <==>
                Serves(sp, s, last, nodeIps, v4, o.(nodeIp := nodeIp))
      {
        EndpointServes(sp, s, last, nodeIps, v4, o.(nodeIp := nodeIp));
      }
      hide KeysOf, ListOffers;
      ListGrows(sp, s, es, nodeIps, v4, o);
    }
  }

  lemma NothingFirst()
    ensures FirstOffers([]) == [] && KeysOf([]) == {}
  {
  }

  lemma ListGrows(sp: ServicePort, s: Slice, es: seq<Endpoint>, nodeIps: map<string, string>, v4: V4, o: Offer)
    requires es != []
    ensures var front, last := es[..|es| - 1], es[|es| - 1];
            && (ListServes(sp, s, es, nodeIps, v4, o) <==>
                ListServes(sp, s, front, nodeIps, v4, o) || ServesKey(sp, s, last, nodeIps, v4, o))
            && (FirstOfList(sp, s, es, nodeIps, v4, o) <==>
                FirstOfList(sp, s, front, nodeIps, v4, o) ||
                (!ListServes(sp, s, front, nodeIps, v4, o) && Serves(sp, s, last, nodeIps, v4, o)))
  {
    hide Serves, ServesKey;
    var front, last := es[..|es| - 1], es[|es| - 1];
    assert forall j :: 0 <= j < |front| ==> front[j] == es[j];
    assert es[|es| - 1] == last;
  }

  // --- All slices ------------------------------------------------------------------------------

  /** The first slice, and in it the first endpoint, to serve on this address and port does so as o. */
  ghost predicate FirstToServe(sp: ServicePort, slices: seq<Slice>, nodeIps: map<string, string>, v4: V4, o: Offer) {
    exists i :: 0 <= i < |slices| && FirstOfList(sp, slices[i], slices[i].endpoints, nodeIps, v4, o) &&
        forall m :: 0 <= m < i ==> !ListServes(sp, slices[m], slices[m].endpoints, nodeIps, v4, o)
  }

  ghost predicate AnyServes(sp: ServicePort, slices: seq<Slice>, nodeIps: map<string, string>, v4: V4, o: Offer) {
    exists i :: 0 <= i < |slices| && ListServes(sp, slices[i], slices[i].endpoints, nodeIps, v4, o)
  }

  lemma SliceFirsts(sp: ServicePort, s: Slice, nodeIps: map<string, string>, v4: V4, o: Offer)
    ensures var offers := SliceOffers(sp, s, nodeIps, v4);
            && (o in FirstOffers(offers) <==> FirstOfList(sp, s, s.endpoints, nodeIps, v4, o))
            && (KeyOf(o) in KeysOf(offers) <==> ListServes(sp, s, s.endpoints, nodeIps, v4, o))
  {
    MatchingAreTcp(sp, s.ports);
    TcpHasPort(MatchingPorts(sp, s.ports));
    ListFirsts(sp, s, s.endpoints, nodeIps, v4, o);
  }

  lemma {:induction false} OffersFirsts(sp: ServicePort, slices: seq<Slice>, nodeIps: map<string, string>, v4: V4,
                                        o: Offer)
    ensures o in FirstOffers(Offers(sp, slices, nodeIps, v4)) <==> FirstToServe(sp, slices, nodeIps, v4, o)
    ensures KeyOf(o) in KeysOf(Offers(sp, slices, nodeIps, v4)) <==> AnyServes(sp, slices, nodeIps, v4, o)
  {
    hide SliceOffers, FirstOffers, KeyOf, KeysOf, FirstOfList, ListServes;
    if slices == [] {
      NothingFirst();
    } else {
      var front, last := slices[..|slices| - 1], slices[|slices| - 1];
      OffersFirsts(sp, front, nodeIps, v4, o);
      FirstsOfBoth(Offers(sp, front, nodeIps, v4), SliceOffers(sp, last, nodeIps, v4), o);
      SliceFirsts(sp, last, nodeIps, v4, o);
      assert forall j :: 0 <= j < |front| ==> front[j] == slices[j];
      hide Offers;
    }
  }

  /** collectBackends returns exactly the first backend to serve on each address and port. */
  lemma BackendsIff(sp: ServicePort, slices: seq<Slice>, nodeIps: map<string, string>, v4: V4, o: Offer)
    ensures o in BackendsOf(sp, slices, nodeIps, v4) <==> FirstToServe(sp, slices, nodeIps, v4, o)
  {
    var backends := BackendsOf(sp, slices, nodeIps, v4);
    assert o in backends <==> o in Elements(backends);
    OffersFirsts(sp, slices, nodeIps, v4, o);
    hide FirstOffers, Offers, FirstToServe;
  }

  /** They come in ascending order of address, then port. */
  lemma BackendsInOrder(sp: ServicePort, slices: seq<Slice>, nodeIps: map<string, string>, v4: V4)
    ensures var bs := BackendsOf(sp, slices, nodeIps, v4);
            forall i, j :: 0 <= i < j < |bs| ==>
              TextLess(bs[i].address, bs[j].address) || (bs[i].address == bs[j].address && bs[i].port < bs[j].port)
  {
    hide TextLess, Offers, FirstOffers;
    var bs, firsts := BackendsOf(sp, slices, nodeIps, v4), FirstOffers(Offers(sp, slices, nodeIps, v4));
    forall i, j | 0 <= i < j < |bs|
      ensures TextLess(bs[i].address, bs[j].address) || (bs[i].address == bs[j].address && bs[i].port < bs[j].port)
    {
      assert OfferLess(bs[i], bs[j]);
      assert bs[i] in Elements(bs) && bs[j] in Elements(bs);
      if bs[i].address == bs[j].address && bs[i].port == bs[j].port {
        FirstOffersConsistent(Offers(sp, slices, nodeIps, v4));
        assert bs[i] in Elements(firsts) && bs[j] in Elements(firsts);
        TextLessTotal(bs[i].nodeIp, bs[i].nodeIp);
      }
    }
  }
}
