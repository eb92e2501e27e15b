/** When the backends of a service port do not depend on the order in which the cluster is listed. */
module Canonical {
  import opened Net
  import opened Listing
  import opened Order
  import opened Backends

  // --- What is offered --------------------------------------------------------------------

  /** Endpoint e serves on slice port p as offer o. */
  predicate Makes(sp: ServicePort, s: Slice, e: Endpoint, p: SlicePort, nodeIps: map<string, string>, v4: V4,
                  o: Offer) {
    && e in s.endpoints && p in MatchingPorts(sp, s.ports)
    && Located(e, nodeIps, v4) == Some((o.address, o.nodeIp)) && p.port == Some(o.port)
  }

  ghost predicate SliceMakes(sp: ServicePort, s: Slice, nodeIps: map<string, string>, v4: V4, o: Offer) {
    exists e, p :: Makes(sp, s, e, p, nodeIps, v4, o)
  }

  lemma EndpointOffersAre(e: Endpoint, ports: seq<SlicePort>, nodeIps: map<string, string>, v4: V4, o: Offer)
    requires forall p :: p in ports ==> p.port.Some?
    ensures o in EndpointOffers(e, ports, nodeIps, v4) <==>
            Located(e, nodeIps, v4) == Some((o.address, o.nodeIp)) && exists p :: p in ports && p.port == Some(o.port)
  {
    var offers := EndpointOffers(e, ports, nodeIps, v4);
    if Located(e, nodeIps, v4) == Some((o.address, o.nodeIp)) && exists p :: p in ports && p.port == Some(o.port) {
      var p :| p in ports && p.port == Some(o.port);
      var i :| 0 <= i < |ports| && ports[i] == p;
      assert offers[i] == o;
    }
    hide Located;
  }

  lemma {:induction false} ListOffersAre(es: seq<Endpoint>, ports: seq<SlicePort>, nodeIps: map<string, string>,
                                         v4: V4, o: Offer)
    requires forall p :: p in ports ==> p.port.Some?
    ensures o in ListOffers(es, ports, nodeIps, v4) <==>
            exists e :: e in es && o in EndpointOffers(e, ports, nodeIps, v4)
  {
    hide EndpointOffers;
    if es != [] {
      var front, last := es[..|es| - 1], es[|es| - 1];
      ListOffersAre(front, ports, nodeIps, v4, o);
      assert es == front + [last];
      assert forall e :: e in es <==> e in front || e == last;
    }
  }

  lemma SliceOffersAre(sp: ServicePort, s: Slice, nodeIps: map<string, string>, v4: V4, o: Offer)
    ensures o in SliceOffers(sp, s, nodeIps, v4) <==> SliceMakes(sp, s, nodeIps, v4, o)
  {
    hide Located, MatchingPorts, IsTcp, ListOffers, EndpointOffers;
    var ports := MatchingPorts(sp, s.ports);
    MatchingAreTcp(sp, s.ports);
    TcpHasPort(ports);
    ListOffersAre(s.endpoints, ports, nodeIps, v4, o);
    forall e: Endpoint
      ensures o in EndpointOffers(e, ports, nodeIps, v4) <==>
              Located(e, nodeIps, v4) == Some((o.address, o.nodeIp)) && exists p :: p in ports && p.port == Some(o.port)
    {
      EndpointOffersAre(e, ports, nodeIps, v4, o);
    }
    if SliceMakes(sp, s, nodeIps, v4, o) {
      var e, p :| Makes(sp, s, e, p, nodeIps, v4, o);
      assert o in EndpointOffers(e, ports, nodeIps, v4);
    }
    if o in SliceOffers(sp, s, nodeIps, v4) {
      var e :| e in s.endpoints && o in EndpointOffers(e, ports, nodeIps, v4);
      var p :| p in ports && p.port == Some(o.port);
      assert Makes(sp, s, e, p, nodeIps, v4, o);
    }
  }

  lemma {:induction false} OffersAre(sp: ServicePort, slices: seq<Slice>, nodeIps: map<string, string>, v4: V4,
                                     o: Offer)
    ensures o in Offers(sp, slices, nodeIps, v4) <==> exists s :: s in slices && SliceMakes(sp, s, nodeIps, v4, o)
  {
    hide SliceOffers, SliceMakes;
    if slices != [] {
      var front, last := slices[..|slices| - 1], slices[|slices| - 1];
      OffersAre(sp, front, nodeIps, v4, o);
      SliceOffersAre(sp, last, nodeIps, v4, o);
      assert slices == front + [last];
      assert forall s :: s in slices <==> s in front || s == last;
    }
  }

  // --- Reordered listings -----------------------------------------------------------------

  /** The same slice with its ports and endpoints in another order. */
  ghost predicate Similar(s: Slice, t: Slice) {
    && s.namespace == t.namespace && s.serviceName == t.serviceName
    && multiset(s.ports) == multiset(t.ports) && multiset(s.endpoints) == multiset(t.endpoints)
  }

  ghost predicate PairwiseSimilar(a: seq<Slice>, b: seq<Slice>) {
    |a| == |b| && forall i :: 0 <= i < |a| ==> Similar(a[i], b[i])
  }

  /** Another listing of the same slices: permuted, and reordered inside each slice. */
  ghost predicate Reordered(a: seq<Slice>, b: seq<Slice>) {
    exists c: seq<Slice> :: multiset(c) == multiset(a) && PairwiseSimilar(c, b)
  }

  lemma SimilarMakesSame(sp: ServicePort, s: Slice, t: Slice, nodeIps: map<string, string>, v4: V4, o: Offer)
    requires Similar(s, t)
    ensures SliceMakes(sp, s, nodeIps, v4, o) <==> SliceMakes(sp, t, nodeIps, v4, o)
  {
    MatchingPermuted(sp, s.ports, t.ports);
    PermutedLength(MatchingPorts(sp, s.ports), MatchingPorts(sp, t.ports));
    PermutedLength(s.endpoints, t.endpoints);
    hide MatchingPorts, Located;
    forall e, p ensures Makes(sp, s, e, p, nodeIps, v4, o) <==> Makes(sp, t, e, p, nodeIps, v4, o) {
    }
  }

  ghost predicate SomeMakes(sp: ServicePort, slices: seq<Slice>, nodeIps: map<string, string>, v4: V4, o: Offer) {
    exists i :: 0 <= i < |slices| && SliceMakes(sp, slices[i], nodeIps, v4, o)
  }

  lemma SimilarOffersSame(sp: ServicePort, c: seq<Slice>, b: seq<Slice>, nodeIps: map<string, string>, v4: V4, o: Offer)
    requires PairwiseSimilar(c, b)
    ensures SomeMakes(sp, c, nodeIps, v4, o) <==> SomeMakes(sp, b, nodeIps, v4, o)
  {
    hide SliceMakes, Similar;
    forall i | 0 <= i < |b| ensures SliceMakes(sp, c[i], nodeIps, v4, o) <==> SliceMakes(sp, b[i], nodeIps, v4, o) {
      SimilarMakesSame(sp, c[i], b[i], nodeIps, v4, o);
    }
  }

  lemma OffersAreMade(sp: ServicePort, slices: seq<Slice>, nodeIps: map<string, string>, v4: V4, o: Offer)
    ensures o in Offers(sp, slices, nodeIps, v4) <==> SomeMakes(sp, slices, nodeIps, v4, o)
  {
    OffersAre(sp, slices, nodeIps, v4, o);
    hide SliceMakes, Offers;
    assert forall i :: 0 <= i < |slices| ==> slices[i] in slices;
  }

  lemma PermutedMakesSame(sp: ServicePort, a: seq<Slice>, c: seq<Slice>, nodeIps: map<string, string>, v4: V4, o: Offer)
    requires multiset(a) == multiset(c)
    ensures SomeMakes(sp, a, nodeIps, v4, o) <==> SomeMakes(sp, c, nodeIps, v4, o)
  {
    hide SliceMakes;
    PermutedLength(a, c);
    assert forall i :: 0 <= i < |a| ==> a[i] in c;
    assert forall i :: 0 <= i < |c| ==> c[i] in a;
  }

  lemma ReorderedOffersSame(sp: ServicePort, a: seq<Slice>, b: seq<Slice>, nodeIps: map<string, string>, v4: V4)
    requires Reordered(a, b)
    ensures Elements(Offers(sp, a, nodeIps, v4)) == Elements(Offers(sp, b, nodeIps, v4))
  {
    hide SomeMakes, PairwiseSimilar, Offers;
    var c: seq<Slice> :| multiset(c) == multiset(a) && PairwiseSimilar(c, b);
    forall o ensures o in Offers(sp, a, nodeIps, v4) <==> o in Offers(sp, b, nodeIps, v4) {
      OffersAreMade(sp, a, nodeIps, v4, o);
      OffersAreMade(sp, b, nodeIps, v4, o);
      PermutedMakesSame(sp, a, c, nodeIps, v4, o);
      SimilarOffersSame(sp, c, b, nodeIps, v4, o);
    }
  }

  // --- Consistency ------------------------------------------------------------------------

  /** Every address and port is reported on one node. */
  ghost predicate Consistent(offers: set<Offer>) {
    forall o, o2 :: o in offers && o2 in offers && KeyOf(o) == KeyOf(o2) ==> o == o2
  }

  lemma {:induction false} FirstOffersCoverKeys(offers: seq<Offer>, o: Offer)
    requires o in offers
    ensures exists first :: first in FirstOffers(offers) && KeyOf(first) == KeyOf(o)
  {
    var front, last := offers[..|offers| - 1], offers[|offers| - 1];
    if o in front {
      FirstOffersCoverKeys(front, o);
    } else if KeyOf(last) in KeysOf(front) {
      var i :| 0 <= i < |front| && KeyOf(front[i]) == KeyOf(last);
      FirstOffersCoverKeys(front, front[i]);
    } else {
      assert last in FirstOffers(offers);
    }
  }

  lemma {:induction false} FirstOffersConsistent(offers: seq<Offer>)
    ensures Consistent(Elements(FirstOffers(offers)))
  {
    if offers != [] {
      var front, last := offers[..|offers| - 1], offers[|offers| - 1];
      FirstOffersConsistent(front);
      FirstOffersDistinct(front);
      KnownKeys(front);
      assert forall o :: o in FirstOffers(front) ==> o in Elements(FirstOffers(front)) && KeyOf(o) in KeysOf(front);
    }
  }

  lemma ConsistentKeepsAll(offers: seq<Offer>)
    requires Consistent(Elements(offers))
    ensures Elements(FirstOffers(offers)) == Elements(offers)
  {
    FirstOffersDistinct(offers);
    forall o | o in offers ensures o in FirstOffers(offers) {
      FirstOffersCoverKeys(offers, o);
      var first :| first in FirstOffers(offers) && KeyOf(first) == KeyOf(o);
      assert first in Elements(offers) && o in Elements(offers);
    }
  }

  lemma ReorderedBackendsSame(sp: ServicePort, a: seq<Slice>, b: seq<Slice>, nodeIps: map<string, string>, v4: V4)
    requires Reordered(a, b) && Consistent(Elements(Offers(sp, a, nodeIps, v4)))
    ensures BackendsOf(sp, b, nodeIps, v4) == BackendsOf(sp, a, nodeIps, v4)
  {
    hide Offers, Reordered, Consistent, FirstOffers;
    ReorderedOffersSame(sp, a, b, nodeIps, v4);
    ConsistentKeepsAll(Offers(sp, a, nodeIps, v4));
    ConsistentKeepsAll(Offers(sp, b, nodeIps, v4));
    OfferLessStrictTotal();
    AscendingIsUnique(OfferLess, BackendsOf(sp, b, nodeIps, v4), BackendsOf(sp, a, nodeIps, v4));
  }

  // --- The converse: any offer can come first ------------------------------------------------

  lemma {:induction false} ListOffersConcat(a: seq<Endpoint>, b: seq<Endpoint>, ports: seq<SlicePort>,
                                            nodeIps: map<string, string>, v4: V4)
    requires forall p :: p in ports ==> p.port.Some?
    ensures ListOffers(a + b, ports, nodeIps, v4) ==
            ListOffers(a, ports, nodeIps, v4) + ListOffers(b, ports, nodeIps, v4)
  {
    hide EndpointOffers;
    if b == [] {
      assert a + b == a;
    } else {
      ListOffersConcat(a, b[..|b| - 1], ports, nodeIps, v4);
      assert (a + b)[..|a + b| - 1] == a + b[..|b| - 1];
    }
  }

  lemma {:induction false} OffersConcat(sp: ServicePort, a: seq<Slice>, b: seq<Slice>, nodeIps: map<string, string>,
                                        v4: V4)
    ensures Offers(sp, a + b, nodeIps, v4) == Offers(sp, a, nodeIps, v4) + Offers(sp, b, nodeIps, v4)
  {
    hide SliceOffers;
    if b == [] {
      assert a + b == a;
    } else {
      OffersConcat(sp, a, b[..|b| - 1], nodeIps, v4);
      assert (a + b)[..|a + b| - 1] == a + b[..|b| - 1];
    }
  }

  lemma {:induction false} FirstOffersPrefix(a: seq<Offer>, b: seq<Offer>)
    ensures FirstOffers(a) <= FirstOffers(a + b)
  {
    if b == [] {
      assert a + b == a;
    } else {
      FirstOffersPrefix(a, b[..|b| - 1]);
      assert (a + b)[..|a + b| - 1] == a + b[..|b| - 1];
    }
  }

  /** x moved to the front. */
  lemma MovedToFront<T>(xs: seq<T>, x: T) returns (rest: seq<T>)
    requires x in xs
    ensures multiset([x] + rest) == multiset(xs)
  {
    var i :| 0 <= i < |xs| && xs[i] == x;
    rest := xs[..i] + xs[i + 1..];
    assert xs == xs[..i] + [xs[i]] + xs[i + 1..];
  }

  lemma FirstEndpointLeads(sp: ServicePort, s: Slice, e: Endpoint, more: seq<Endpoint>, nodeIps: map<string, string>,
                           v4: V4)
    requires s.endpoints == [e] + more && forall p :: p in MatchingPorts(sp, s.ports) ==> p.port.Some?
    ensures EndpointOffers(e, MatchingPorts(sp, s.ports), nodeIps, v4) <= SliceOffers(sp, s, nodeIps, v4)
  {
    var ports := MatchingPorts(sp, s.ports);
    ListOffersConcat([e], more, ports, nodeIps, v4);
    hide EndpointOffers, MatchingPorts;
    assert [e][..0] == [];
    assert ListOffers([e], ports, nodeIps, v4) == EndpointOffers(e, ports, nodeIps, v4);
  }

  lemma FirstSliceLeads(sp: ServicePort, s: Slice, more: seq<Slice>, nodeIps: map<string, string>, v4: V4)
    ensures SliceOffers(sp, s, nodeIps, v4) <= Offers(sp, [s] + more, nodeIps, v4)
  {
    OffersConcat(sp, [s], more, nodeIps, v4);
    hide SliceOffers;
    assert [s][..0] == [];
    assert Offers(sp, [s], nodeIps, v4) == SliceOffers(sp, s, nodeIps, v4);
  }

  /** One endpoint's offers agree on the node. */
  lemma EndpointConsistent(e: Endpoint, ports: seq<SlicePort>, nodeIps: map<string, string>, v4: V4)
    requires forall p :: p in ports ==> p.port.Some?
    ensures Consistent(Elements(EndpointOffers(e, ports, nodeIps, v4)))
  {
    hide Located;
  }

  /** Some reordering of the listing puts a given offer first among those with its key. */
  lemma AnyOfferCanWin(sp: ServicePort, a: seq<Slice>, nodeIps: map<string, string>, v4: V4,
                       o: Offer) returns (b: seq<Slice>)
    requires o in Offers(sp, a, nodeIps, v4)
    ensures Reordered(a, b) && o in FirstOffers(Offers(sp, b, nodeIps, v4))
  {
    hide Located, MatchingPorts, IsTcp, Offers, SliceOffers, FirstOffers, EndpointOffers, Consistent;
    OffersAre(sp, a, nodeIps, v4, o);
    var s :| s in a && SliceMakes(sp, s, nodeIps, v4, o);
    var e, p :| Makes(sp, s, e, p, nodeIps, v4, o);
    var others := MovedToFront(a, s);
    var more := MovedToFront(s.endpoints, e);
    var t := s.(endpoints := [e] + more);
    b := [t] + others;
    assert PairwiseSimilar([s] + others, b);
    var ports := MatchingPorts(sp, t.ports);
    MatchingAreTcp(sp, t.ports);
    TcpHasPort(ports);
    FirstEndpointLeads(sp, t, e, more, nodeIps, v4);
    FirstSliceLeads(sp, t, others, nodeIps, v4);
    var head, all := EndpointOffers(e, ports, nodeIps, v4), Offers(sp, b, nodeIps, v4);
    EndpointOffersAre(e, ports, nodeIps, v4, o);
    EndpointConsistent(e, ports, nodeIps, v4);
    ConsistentKeepsAll(head);
    assert o in Elements(head);
    FirstOffersPrefix(head, all[|head|..]);
    assert head + all[|head|..] == all;
  }

  lemma BothWinsMeansEqual(offers: seq<Offer>, o: Offer, o2: Offer)
    requires o in FirstOffers(offers) && o2 in FirstOffers(offers) && KeyOf(o) == KeyOf(o2)
    ensures o == o2
  {
    FirstOffersConsistent(offers);
    assert o in Elements(FirstOffers(offers)) && o2 in Elements(FirstOffers(offers));
  }

  /**
   The backends do not depend on the order of the listing exactly when every address and port is
   reported on one node.
   */
  lemma OrderIrrelevantIff(sp: ServicePort, a: seq<Slice>, nodeIps: map<string, string>, v4: V4)
    ensures (forall b :: Reordered(a, b) ==> BackendsOf(sp, b, nodeIps, v4) == BackendsOf(sp, a, nodeIps, v4)) <==>
            Consistent(Elements(Offers(sp, a, nodeIps, v4)))
  {
    hide Offers, Reordered, BackendsOf, FirstOffers;
    if Consistent(Elements(Offers(sp, a, nodeIps, v4))) {
      hide Consistent;
      forall b | Reordered(a, b) ensures BackendsOf(sp, b, nodeIps, v4) == BackendsOf(sp, a, nodeIps, v4) {
        ReorderedBackendsSame(sp, a, b, nodeIps, v4);
      }
    } else if forall b :: Reordered(a, b) ==> BackendsOf(sp, b, nodeIps, v4) == BackendsOf(sp, a, nodeIps, v4) {
      var offers := Offers(sp, a, nodeIps, v4);
      var o, o2 :| o in Elements(offers) && o2 in Elements(offers) && KeyOf(o) == KeyOf(o2) && o != o2;
      WinnersAreBackends(sp, a, nodeIps, v4, o);
      WinnersAreBackends(sp, a, nodeIps, v4, o2);
      BothWinsMeansEqual(offers, o, o2);
      assert false;
    }
  }

  lemma WinnersAreBackends(sp: ServicePort, a: seq<Slice>, nodeIps: map<string, string>, v4: V4, o: Offer)
    requires o in Offers(sp, a, nodeIps, v4)
    requires forall b :: Reordered(a, b) ==> BackendsOf(sp, b, nodeIps, v4) == BackendsOf(sp, a, nodeIps, v4)
    ensures o in FirstOffers(Offers(sp, a, nodeIps, v4))
  {
    hide Offers, Reordered, FirstOffers, BackendsOf;
    var b := AnyOfferCanWin(sp, a, nodeIps, v4, o);
    assert o in Elements(FirstOffers(Offers(sp, b, nodeIps, v4)));
    assert o in Elements(BackendsOf(sp, a, nodeIps, v4));
  }
}
