/**
 collectBackends (main.go): the backends of one service port, from EndpointSlices that a lister
 returns in no particular order.
 */
module Backends {
  import opened Net
  import opened Listing
  import opened Order

  datatype SlicePort = SlicePort(name: Option<string>, protocol: Option<string>, port: Option<int>)
  datatype Endpoint = Endpoint(addresses: seq<string>, ready: Option<bool>, serving: Option<bool>,
                               terminating: Option<bool>,
                               targetKind: Option<string>, nodeName: Option<string>)
  datatype Slice = Slice(namespace: string, serviceName: string, ports: seq<SlicePort>, endpoints: seq<Endpoint>)
  datatype Target = Number(port: int) | Name(name: string)
  datatype ServicePort = ServicePort(name: string, protocol: string, port: int, nodePort: int, target: Target)

  /** A backend as the cluster spells it. */
  datatype Offer = Offer(address: string, port: int, nodeIp: string)

  /** Tells whether net.ParseIP(text).To4() finds an IPv4 address. */
  type V4 = string -> bool

  const TCP := "TCP"

  // --- Ports ------------------------------------------------------------------------------

  predicate IsTcp(p: SlicePort) {
    (p.protocol.None? || p.protocol.value == TCP) && p.port.Some?
  }

  function Named(sp: ServicePort): SlicePort -> bool {
    (p: SlicePort) => p.name == Some(sp.name)
  }

  function Targeted(sp: ServicePort): SlicePort -> bool {
    (p: SlicePort) => sp.target.Number? && p.port == Some(sp.target.port)
  }

  function SamePort(sp: ServicePort): SlicePort -> bool {
    (p: SlicePort) => p.port == Some(sp.port)
  }

  /**
   The slice ports a service port is served on: by name, else by target number, else the only one, else
   by service port.
   */
  function MatchingPorts(sp: ServicePort, ports: seq<SlicePort>): seq<SlicePort> {
    var tcp := Filter(ports, IsTcp);
    Choice(sp, tcp, Filter(tcp, Named(sp)), Filter(tcp, Targeted(sp)), Filter(tcp, SamePort(sp)))
  }

  function Choice<P>(sp: ServicePort, tcp: seq<P>, named: seq<P>, targeted: seq<P>, same: seq<P>): seq<P> {
    if sp.name != "" && |named| > 0 then named
    else if sp.target.Number? && sp.target.port != 0 && |targeted| > 0 then targeted
    else if |tcp| == 1 then tcp
    else same
  }

  /** FilterPorts is a loop of matchingSlicePorts: it keeps the ports with the wanted property, in order. */
  method FilterPorts(ports: seq<SlicePort>, keep: SlicePort -> bool) returns (kept: seq<SlicePort>)
    ensures kept == Filter(ports, keep)
  {
    kept := [];
    var i := 0;
    while i < |ports|
      invariant 0 <= i <= |ports| && kept == Filter(ports[..i], keep)
    {
      assert ports[..i + 1][..i] == ports[..i];
      if keep(ports[i]) { kept := kept + [ports[i]]; }
      i := i + 1;
    }
    assert ports[..i] == ports;
  }

  method MatchingSlicePorts(sp: ServicePort, slice: Slice) returns (ports: seq<SlicePort>)
    ensures ports == MatchingPorts(sp, slice.ports)
  {
    var tcp := FilterPorts(slice.ports, IsTcp);
    if |tcp| == 0 { return []; }
    if sp.name != "" {
      var named := FilterPorts(tcp, Named(sp));
      if |named| > 0 { return named; }
    }
    if sp.target.Number? && sp.target.port != 0 {
      var targeted := FilterPorts(tcp, Targeted(sp));
      if |targeted| > 0 { return targeted; }
    }
    if |tcp| == 1 { return tcp; }
    ports := FilterPorts(tcp, SamePort(sp));
  }

  lemma MatchingAreTcp(sp: ServicePort, ports: seq<SlicePort>)
    ensures forall p :: p in MatchingPorts(sp, ports) ==> IsTcp(p)
  {
    var tcp := Filter(ports, IsTcp);
    FilterKeeps(ports, IsTcp);
    FilterKeeps(tcp, Named(sp));
    FilterKeeps(tcp, Targeted(sp));
    FilterKeeps(tcp, SamePort(sp));
  }

  lemma MatchingPermuted(sp: ServicePort, ports: seq<SlicePort>, other: seq<SlicePort>)
    requires multiset(ports) == multiset(other)
    ensures multiset(MatchingPorts(sp, ports)) == multiset(MatchingPorts(sp, other))
  {
    var tcp, tcp2 := Filter(ports, IsTcp), Filter(other, IsTcp);
    FilterAlike(ports, other, IsTcp);
    FilterAlike(tcp, tcp2, Named(sp));
    FilterAlike(tcp, tcp2, Targeted(sp));
    FilterAlike(tcp, tcp2, SamePort(sp));
    hide Filter, Named, Targeted, SamePort;
  }

  // --- Endpoints --------------------------------------------------------------------------

  /**
   eligibleEndpoint: ready, serving, not terminating, backed by a pod, on a named node; absent
   conditions count as good.
   */
  predicate Eligible(e: Endpoint) {
    && e.ready != Some(false) && e.serving != Some(false) && e.terminating != Some(true)
    && (e.targetKind.None? || e.targetKind.value in ["", "Pod"])
    && e.nodeName.Some? && e.nodeName.value != ""
  }

  function FirstV4(addresses: seq<string>, v4: V4): string {
    if addresses == [] then "" else if v4(addresses[0]) then addresses[0] else FirstV4(addresses[1..], v4)
  }

  method FirstIPv4Address(e: Endpoint, v4: V4) returns (address: string)
    ensures address == FirstV4(e.addresses, v4)
  {
    var i := 0;
    while i < |e.addresses|
      invariant 0 <= i <= |e.addresses| && FirstV4(e.addresses, v4) == FirstV4(e.addresses[i..], v4)
    {
      if v4(e.addresses[i]) { return e.addresses[i]; }
      assert e.addresses[i..][1..] == e.addresses[i + 1..];
      i := i + 1;
    }
    return "";
  }

  /** Address and node address of an endpoint that serves, if it does. */
  function Located(e: Endpoint, nodeIps: map<string, string>, v4: V4): Option<(string, string)> {
    var address := FirstV4(e.addresses, v4);
    if Eligible(e) && address != "" && e.nodeName.value in nodeIps && nodeIps[e.nodeName.value] != ""
    then Some((address, nodeIps[e.nodeName.value]))
    else None
  }

  // --- Offers -----------------------------------------------------------------------------

  /** What an endpoint offers on the matching ports, in order. */
  function EndpointOffers(e: Endpoint, ports: seq<SlicePort>, nodeIps: map<string, string>, v4: V4): seq<Offer>
    requires forall p :: p in ports ==> p.port.Some?
  {
    var at := Located(e, nodeIps, v4);
    if at.None? then []
    else seq(|ports|, i requires 0 <= i < |ports| => Offer(at.value.0, ports[i].port.value, at.value.1))
  }

  function ListOffers(es: seq<Endpoint>, ports: seq<SlicePort>, nodeIps: map<string, string>, v4: V4): seq<Offer>
    requires forall p :: p in ports ==> p.port.Some?
  {
    if es == [] then []
    else ListOffers(es[..|es| - 1], ports, nodeIps, v4) + EndpointOffers(es[|es| - 1], ports, nodeIps, v4)
  }

  function SliceOffers(sp: ServicePort, s: Slice, nodeIps: map<string, string>, v4: V4): seq<Offer> {
    MatchingAreTcp(sp, s.ports);
    ListOffers(s.endpoints, MatchingPorts(sp, s.ports), nodeIps, v4)
  }

  /** Everything the slices offer, in the order of the listing. */
  function Offers(sp: ServicePort, slices: seq<Slice>, nodeIps: map<string, string>, v4: V4): seq<Offer> {
    if slices == [] then []
    else Offers(sp, slices[..|slices| - 1], nodeIps, v4) + SliceOffers(sp, slices[|slices| - 1], nodeIps, v4)
  }

  /** The text "address:port"; the port has no colon, so it determines both. */
  type Key = (string, int)

  function KeyOf(o: Offer): Key {
    (o.address, o.port)
  }

  function KeysOf(offers: seq<Offer>): set<Key> {
    set i | 0 <= i < |offers| :: KeyOf(offers[i])
  }

  /** The first offer for each key. */
  function FirstOffers(offers: seq<Offer>): seq<Offer> {
    if offers == [] then []
    else
      var front, last := offers[..|offers| - 1], offers[|offers| - 1];
      FirstOffers(front) + if KeyOf(last) in KeysOf(front) then [] else [last]
  }

  predicate OfferLess(a: Offer, b: Offer) {
    if a.address != b.address then TextLess(a.address, b.address)
    else if a.port != b.port then a.port < b.port
    else TextLess(a.nodeIp, b.nodeIp)
  }

  lemma OfferLessStrictTotal()
    ensures StrictTotal(OfferLess)
  {
    TextLessStrictTotal();
  }

  /** The backends of a service port: the first offers, in ascending order. */
  ghost function BackendsOf(sp: ServicePort, slices: seq<Slice>, nodeIps: map<string, string>, v4: V4): (r: seq<Offer>)
    ensures Ascending(OfferLess, r) && Elements(r) == Elements(FirstOffers(Offers(sp, slices, nodeIps, v4)))
  {
    OfferLessStrictTotal();
    Ordered(OfferLess, Elements(FirstOffers(Offers(sp, slices, nodeIps, v4))))
  }

  lemma KeysOneMore(offers: seq<Offer>, o: Offer)
    ensures KeysOf(offers + [o]) == KeysOf(offers) + {KeyOf(o)}
  {
    var more := offers + [o];
    forall k ensures k in KeysOf(more) <==> k in KeysOf(offers) || k == KeyOf(o) {
      if k in KeysOf(offers) {
        var i :| 0 <= i < |offers| && KeyOf(offers[i]) == k;
        assert KeyOf(more[i]) == k;
      }
      if k == KeyOf(o) { assert KeyOf(more[|offers|]) == k; }
    }
  }

  lemma KnownKeys(offers: seq<Offer>)
    ensures forall o :: o in offers ==> KeyOf(o) in KeysOf(offers)
  {
    assert forall i :: 0 <= i < |offers| ==> KeyOf(offers[i]) in KeysOf(offers);
  }

  lemma {:induction false} FirstOffersDistinct(offers: seq<Offer>)
    ensures Distinct(FirstOffers(offers))
    ensures forall o :: o in FirstOffers(offers) ==> o in offers
  {
    if offers != [] {
      var front, last := offers[..|offers| - 1], offers[|offers| - 1];
      FirstOffersDistinct(front);
      KnownKeys(front);
    }
  }

  /** One more offer of the loop: skipped when its key was seen, else appended. */
  lemma FirstOffersOneMore(offers: seq<Offer>, o: Offer)
    ensures FirstOffers(offers + [o]) == FirstOffers(offers) + if KeyOf(o) in KeysOf(offers) then [] else [o]
  {
    assert (offers + [o])[..|offers|] == offers;
  }

  /** The inner loops of collectBackends: one endpoint's offers, skipping seen keys. */
  method AddEndpoint(e: Endpoint, ports: seq<SlicePort>, nodeIps: map<string, string>, v4: V4, ghost done: seq<Offer>,
                     seen0: set<Key>, backends0: seq<Offer>)
    returns (seen: set<Key>, backends: seq<Offer>)
    requires forall p :: p in ports ==> p.port.Some?
    requires Tracking(done, seen0, backends0)
    ensures Tracking(done + EndpointOffers(e, ports, nodeIps, v4), seen, backends)
  {
    hide Tracking, IsTcp;
    seen, backends := seen0, backends0;
    ghost var offers := done;
    assert done + [] == done;
    if !Eligible(e) { return; }
    var address := FirstIPv4Address(e, v4);
    if address == "" || e.nodeName.value !in nodeIps || nodeIps[e.nodeName.value] == "" { return; }
    var nodeIp := nodeIps[e.nodeName.value];
    var i := 0;
    while i < |ports|
      invariant 0 <= i <= |ports| && Tracking(offers, seen, backends)
      invariant offers == done + EndpointOffers(e, ports, nodeIps, v4)[..i]
    {
      var o := Offer(address, ports[i].port.value, nodeIp);
      TrackOne(offers, seen, backends, o);
      if KeyOf(o) in seen {
        assert seen + {KeyOf(o)} == seen && backends + [] == backends;
      } else {
        seen := seen + {KeyOf(o)};
        backends := backends + [o];
      }
      offers := offers + [o];
      i := i + 1;
    }
    assert EndpointOffers(e, ports, nodeIps, v4)[..i] == EndpointOffers(e, ports, nodeIps, v4);
  }

  /** The loop state after some offers: their keys, and the first offer for each. */
  ghost predicate Tracking(offers: seq<Offer>, seen: set<Key>, backends: seq<Offer>) {
    seen == KeysOf(offers) && backends == FirstOffers(offers)
  }

  lemma TrackOne(offers: seq<Offer>, seen: set<Key>, backends: seq<Offer>, o: Offer)
    requires Tracking(offers, seen, backends)
    ensures Tracking(offers + [o], seen + {KeyOf(o)}, backends + if KeyOf(o) in seen then [] else [o])
  {
    FirstOffersOneMore(offers, o);
    KeysOneMore(offers, o);
  }

  lemma OneMoreEndpoint(es: seq<Endpoint>, j: nat, ports: seq<SlicePort>, nodeIps: map<string, string>, v4: V4)
    requires j < |es| && forall p :: p in ports ==> p.port.Some?
    ensures ListOffers(es[..j + 1], ports, nodeIps, v4) ==
            ListOffers(es[..j], ports, nodeIps, v4) + EndpointOffers(es[j], ports, nodeIps, v4)
  {
    assert es[..j + 1][..j] == es[..j];
  }

  lemma OneMoreSlice(sp: ServicePort, slices: seq<Slice>, i: nat, nodeIps: map<string, string>, v4: V4)
    requires i < |slices|
    ensures Offers(sp, slices[..i + 1], nodeIps, v4) ==
            Offers(sp, slices[..i], nodeIps, v4) + SliceOffers(sp, slices[i], nodeIps, v4)
  {
    assert slices[..i + 1][..i] == slices[..i];
  }

  method AddSlice(sp: ServicePort, s: Slice, nodeIps: map<string, string>, v4: V4, ghost done: seq<Offer>,
                  seen0: set<Key>, backends0: seq<Offer>)
    returns (seen: set<Key>, backends: seq<Offer>)
    requires Tracking(done, seen0, backends0)
    ensures Tracking(done + SliceOffers(sp, s, nodeIps, v4), seen, backends)
  {
    hide Tracking, Eligible, Located, MatchingPorts, IsTcp, EndpointOffers;
    seen, backends := seen0, backends0;
    var ports := MatchingSlicePorts(sp, s);
    MatchingAreTcp(sp, s.ports);
    TcpHasPort(ports);
    ghost var offers := done;
    var j := 0;
    while j < |s.endpoints|
      invariant 0 <= j <= |s.endpoints| && Tracking(offers, seen, backends)
      invariant offers == done + ListOffers(s.endpoints[..j], ports, nodeIps, v4)
    {
      seen, backends := AddEndpoint(s.endpoints[j], ports, nodeIps, v4, offers, seen, backends);
      offers := offers + EndpointOffers(s.endpoints[j], ports, nodeIps, v4);
      OneMoreEndpoint(s.endpoints, j, ports, nodeIps, v4);
      j := j + 1;
    }
    assert s.endpoints[..j] == s.endpoints;
  }

  lemma TcpHasPort(ports: seq<SlicePort>)
    requires forall p :: p in ports ==> IsTcp(p)
    ensures forall p :: p in ports ==> p.port.Some?
  {
  }

  method CollectBackends(sp: ServicePort, slices: seq<Slice>, nodeIps: map<string, string>,
                         v4: V4) returns (backends: seq<Offer>)
    ensures backends == BackendsOf(sp, slices, nodeIps, v4)
  {
    hide SliceOffers, MatchingPorts, OfferLess, StrictTotal, FirstOffers, KeysOf;
    var seen: set<Key> := {};
    backends := [];
    ghost var offers: seq<Offer> := [];
    NothingTracked();
    var i := 0;
    while i < |slices|
      invariant 0 <= i <= |slices| && offers == Offers(sp, slices[..i], nodeIps, v4)
      invariant Tracking(offers, seen, backends)
    {
      seen, backends := AddSlice(sp, slices[i], nodeIps, v4, offers, seen, backends);
      offers := offers + SliceOffers(sp, slices[i], nodeIps, v4);
      OneMoreSlice(sp, slices, i, nodeIps, v4);
      i := i + 1;
    }
    assert slices[..i] == slices;
    FirstOffersDistinct(offers);
    OfferLessStrictTotal();
    backends := Sort(OfferLess, backends);
    AscendingIsUnique(OfferLess, backends, BackendsOf(sp, slices, nodeIps, v4));
  }

  lemma NothingTracked()
    ensures Tracking([], {}, [])
  {
  }
}
