/** An attempt at delivery, from the exchangers on record to the contacts it makes. */
module ExchangerWalk {
  import opened Wrappers
  import opened Strings
  import opened DeliveryErrors
  import opened MX = MxResolver
  import opened Delivery
  import opened QueueModel

  predicate Usable(dns: Dns, host: string, a: string) {
    dns.addresses(host).Some? && a in dns.addresses(host).value && dns.kind(a) != NotAnIP
  }

  /** Each contact of the route is at a usable address of the record that owns it, the records in
      order, IPv4 first; every usable address of every record is on the route. */
  ghost predicate RouteOf(records: seq<MXRecord>, dns: Dns, route: seq<(string, string)>, owner: seq<nat>) {
    && |owner| == |route|
    && (forall p :: 0 <= p < |route| ==>
          owner[p] < |records| && route[p].1 == records[owner[p]].host && Usable(dns, route[p].1, route[p].0))
    && (forall p, q :: 0 <= p < q < |route| ==> owner[p] <= owner[q])
    && (forall p, q :: 0 <= p < q < |route| && owner[p] == owner[q] && dns.kind(route[q].0) == IPv4 ==>
          dns.kind(route[p].0) == IPv4)
    && (forall k: nat, a :: k < |records| && Usable(dns, records[k].host, a) ==> OnRoute(route, owner, k, a))
  }

  predicate OnRoute(route: seq<(string, string)>, owner: seq<nat>, k: nat, a: string)
    requires |owner| == |route|
  {
    exists p :: 0 <= p < |route| && owner[p] == k && route[p].0 == a
  }

  // ----- the route in terms of the hosts -----

  /** Each contact is at an address of its host, hosts and their addresses in order, none left out. */
  ghost predicate FlatOf(hosts: seq<MXHost>, route: seq<(string, string)>, which: seq<nat>) {
    && |which| == |route|
    && (forall p :: 0 <= p < |route| ==>
          which[p] < |hosts| && route[p].1 == hosts[which[p]].host && route[p].0 in hosts[which[p]].addresses)
    && (forall p, q :: 0 <= p < q < |route| ==> which[p] <= which[q])
    && (forall p, q :: 0 <= p < q < |route| && which[p] == which[q] ==>
          Precedes(hosts[which[p]].addresses, route[p].0, route[q].0))
    && (forall i: nat, a :: i < |hosts| && a in hosts[i].addresses ==> OnRoute(route, which, i, a))
  }

  predicate Precedes(addresses: seq<string>, a: string, b: string) {
    exists x, y :: 0 <= x < y < |addresses| && addresses[x] == a && addresses[y] == b
  }

  function Repeated(i: nat, n: nat): seq<nat> {
    seq(n, _ => i)
  }

  lemma OnLongerRoute(route: seq<(string, string)>, owner: seq<nat>, more: seq<(string, string)>, owners: seq<nat>, k: nat,
                      a: string)
    requires |owner| == |route| && |owners| == |more| && OnRoute(route, owner, k, a)
    ensures OnRoute(route + more, owner + owners, k, a)
  {
    var p :| 0 <= p < |route| && owner[p] == k && route[p].0 == a;
    assert (route + more)[p] == route[p] && (owner + owners)[p] == k;
  }

  lemma FlatMore(hosts: seq<MXHost>, route: seq<(string, string)>, which: seq<nat>, h: MXHost)
    requires FlatOf(hosts, route, which)
    ensures FlatOf(hosts + [h], route + AddressesOf(h), which + Repeated(|hosts|, |h.addresses|))
  {
    hide OnRoute, Precedes;
    var hosts', route', which' := hosts + [h], route + AddressesOf(h), which + Repeated(|hosts|, |h.addresses|);
    forall i: nat, a | i < |hosts'| && a in hosts'[i].addresses ensures OnRoute(route', which', i, a) {
      if i < |hosts| {
        OnLongerRoute(route, which, AddressesOf(h), Repeated(|hosts|, |h.addresses|), i, a);
      } else {
        LastOnRoute(hosts, route, which, h, a);
      }
    }
    forall p, q | 0 <= p < q < |route'| && which'[p] == which'[q]
      ensures Precedes(hosts'[which'[p]].addresses, route'[p].0, route'[q].0)
    {
      if p >= |route| { PrecedesHere(h.addresses, p - |route|, q - |route|); }
    }
  }

  lemma PrecedesHere(addresses: seq<string>, x: nat, y: nat)
    requires x < y < |addresses|
    ensures Precedes(addresses, addresses[x], addresses[y])
  {
  }

  lemma LastOnRoute(hosts: seq<MXHost>, route: seq<(string, string)>, which: seq<nat>, h: MXHost, a: string)
    requires |which| == |route| && a in h.addresses
    ensures OnRoute(route + AddressesOf(h), which + Repeated(|hosts|, |h.addresses|), |hosts|, a)
  {
    var x :| 0 <= x < |h.addresses| && h.addresses[x] == a;
    var p := |route| + x;
    assert (route + AddressesOf(h))[p].0 == a && (which + Repeated(|hosts|, |h.addresses|))[p] == |hosts|;
  }

  lemma {:induction false} FlatExactly(hosts: seq<MXHost>) returns (which: seq<nat>)
    ensures FlatOf(hosts, Flat(hosts), which)
  {
    if hosts == [] {
      which := [];
    } else {
      hide FlatOf;
      var front, h := hosts[..|hosts| - 1], hosts[|hosts| - 1];
      which := FlatExactly(front);
      FlatMore(front, Flat(front), which, h);
      assert hosts == front + [h];
      which := which + Repeated(|front|, |h.addresses|);
    }
  }

  // ----- the route in terms of the records -----

  lemma HostUsable(h: MXHost, mx: MXRecord, dns: Dns, a: string)
    requires HostFor(h, mx, dns)
    ensures h.host == mx.host && (a in h.addresses ==> Usable(dns, mx.host, a))
    ensures Usable(dns, mx.host, a) ==> a in h.addresses
  {
  }

  function OwnersOf(at: seq<nat>, which: seq<nat>): seq<nat> {
    seq(|which|, p requires 0 <= p < |which| => if which[p] < |at| then at[which[p]] else 0)
  }

  /** Every record whose name resolves is on the route with all its addresses, in order. */
  lemma RouteExactly(records: seq<MXRecord>, dns: Dns) returns (owner: seq<nat>)
    ensures RouteOf(records, dns, Flat(Hosts(records, dns)), owner)
  {
    hide Hosts, Flat, HostsAt, FlatOf;
    var hosts := Hosts(records, dns);
    var at := HostsExactly(records, dns);
    var which := FlatExactly(hosts);
    owner := OwnersOf(at, which);
    ContactsUsable(records, dns, hosts, at, Flat(hosts), which);
    OwnersInOrder(records, dns, hosts, at, Flat(hosts), which);
    NoneLeftOut(records, dns, hosts, at, Flat(hosts), which);
  }

  lemma ContactsUsable(records: seq<MXRecord>, dns: Dns, hosts: seq<MXHost>, at: seq<nat>, route: seq<(string, string)>,
                       which: seq<nat>)
    requires HostsAt(records, hosts, at, dns) && FlatOf(hosts, route, which)
    ensures |OwnersOf(at, which)| == |route|
    ensures forall p :: 0 <= p < |route| ==>
              OwnersOf(at, which)[p] < |records| && route[p].1 == records[OwnersOf(at, which)[p]].host
              && Usable(dns, route[p].1, route[p].0)
  {
    hide HostFor, Picks, Usable;
    forall p | 0 <= p < |route|
      ensures OwnersOf(at, which)[p] < |records| && route[p].1 == records[OwnersOf(at, which)[p]].host
              && Usable(dns, route[p].1, route[p].0)
    {
      HostUsable(hosts[which[p]], records[at[which[p]]], dns, route[p].0);
    }
  }

  lemma OwnersInOrder(records: seq<MXRecord>, dns: Dns, hosts: seq<MXHost>, at: seq<nat>, route: seq<(string, string)>,
                      which: seq<nat>)
    requires HostsAt(records, hosts, at, dns) && FlatOf(hosts, route, which)
    ensures var owner := OwnersOf(at, which);
            && (forall p, q :: 0 <= p < q < |route| ==> owner[p] <= owner[q])
            && (forall p, q :: 0 <= p < q < |route| && owner[p] == owner[q] && dns.kind(route[q].0) == IPv4 ==>
                  dns.kind(route[p].0) == IPv4)
  {
    hide HostFor, OnRoute, Precedes;
    var owner := OwnersOf(at, which);
    forall p, q | 0 <= p < q < |route| && owner[p] == owner[q] && dns.kind(route[q].0) == IPv4
      ensures dns.kind(route[p].0) == IPv4
    {
      assert which[p] == which[q];
      FirstIPv4(hosts[which[p]], records[at[which[p]]], dns, route[p].0, route[q].0);
    }
  }

  lemma FirstIPv4(h: MXHost, mx: MXRecord, dns: Dns, a: string, b: string)
    requires HostFor(h, mx, dns) && Precedes(h.addresses, a, b) && dns.kind(b) == IPv4
    ensures dns.kind(a) == IPv4
  {
  }

  lemma NoneLeftOut(records: seq<MXRecord>, dns: Dns, hosts: seq<MXHost>, at: seq<nat>, route: seq<(string, string)>,
                    which: seq<nat>)
    requires HostsAt(records, hosts, at, dns) && FlatOf(hosts, route, which)
    ensures forall k: nat, a :: k < |records| && Usable(dns, records[k].host, a) ==>
              OnRoute(route, OwnersOf(at, which), k, a)
  {
    hide HostFor;
    forall k: nat, a | k < |records| && Usable(dns, records[k].host, a) ensures OnRoute(route, OwnersOf(at, which), k, a) {
      UsableResolves(dns, records[k].host, a);
      assert k in at;
      var i: nat :| i < |at| && at[i] == k;
      HostUsable(hosts[i], records[k], dns, a);
      assert OnRoute(route, which, i, a);
      var p :| 0 <= p < |route| && which[p] == i && route[p].0 == a;
      assert OwnersOf(at, which)[p] == k;
    }
  }

  lemma UsableResolves(dns: Dns, host: string, a: string)
    requires Usable(dns, host, a)
    ensures Resolves(host, dns)
  {
  }

  // ----- the attempt -----

  /** The records the attempt goes by: those on record for the domain. */
  predicate OnRecord(files: map<string, int>, cache: map<string, CachedMX>, m: Message, net: Net, records: seq<MXRecord>) {
    var domain := Lower(TrimSpace(m.domain));
    m.path in files && net.relay.None? && domain != "" && domain in cache && records == cache[domain].records
  }

  predicate SomeUsable(records: seq<MXRecord>, dns: Dns) {
    exists k :: 0 <= k < |records| && Resolves(records[k].host, dns)
  }

  /** With an exchanger that resolves, an attempt walks the whole route until the first answer that is
      no temporary failure: it succeeds exactly when that answer accepts the message, and fails for
      good exactly when that answer is a permanent failure. */
  lemma AttemptExact(files: map<string, int>, cache: map<string, CachedMX>, m: Message, net: Net, err: Option<GoError>,
                     records: seq<MXRecord>)
    returns (route: seq<(string, string)>, owner: seq<nat>)
    requires Attempted(files, cache, m, net, err) && OnRecord(files, cache, m, net, records) && SomeUsable(records, net.dns)
    ensures RouteOf(records, net.dns, route, owner)
    ensures err.None? <==>
            exists p: nat | p < |route| :: Answer(route, net.deliver, p).None? && AllTemporary(route, net.deliver, p)
    ensures err.Some? && IsPermanentError(err.value) <==>
            exists p: nat | p < |route| ::
              && Answer(route, net.deliver, p).Some? && IsPermanentError(Answer(route, net.deliver, p).value)
              && AllTemporary(route, net.deliver, p)
  {
    hide RouteOf, Flat, Walked, IsPermanentError, Hosts;
    var hosts := Hosts(records, net.dns);
    route := Flat(hosts);
    owner := RouteExactly(records, net.dns);
    SomeHost(records, net.dns);
    assert TriedSome(hosts, net.deliver, err);
    var contacts: nat :| contacts <= |route| && Walked(route, net.deliver, err, contacts);
    WalkExact(route, net.deliver, err, contacts);
  }

  lemma SomeHost(records: seq<MXRecord>, dns: Dns)
    requires SomeUsable(records, dns)
    ensures Hosts(records, dns) != []
  {
    hide HostFor, Resolves, Hosts;
    var at := HostsExactly(records, dns);
    var k :| 0 <= k < |records| && Resolves(records[k].host, dns);
    assert k in at;
  }

  /** The address accepts whenever it is contacted. */
  ghost predicate Accepts(deliver: Contact, a: string, host: string) {
    forall n: nat :: deliver(n, a, host).None?
  }

  ghost predicate NeverPermanent(deliver: Contact, a: string, host: string) {
    forall n: nat :: deliver(n, a, host).Some? ==> !IsPermanentError(deliver(n, a, host).value)
  }

  /** If some exchanger on record has an address that accepts, and no address of an exchanger up to it
      ever answers with a permanent failure, the attempt succeeds, whichever exchangers fail to
      resolve or fail temporarily before it. */
  lemma BackupReached(files: map<string, int>, cache: map<string, CachedMX>, m: Message, net: Net, err: Option<GoError>,
                      records: seq<MXRecord>, k: nat, a: string)
    requires Attempted(files, cache, m, net, err) && OnRecord(files, cache, m, net, records)
    requires k < |records| && Usable(net.dns, records[k].host, a) && Accepts(net.deliver, a, records[k].host)
    requires forall i: nat, b | i <= k && Usable(net.dns, records[i].host, b) :: NeverPermanent(net.deliver, b, records[i].host)
    ensures err.None?
  {
    hide IsPermanentError, Usable, RouteOf, Attempted, Answer, NeverPermanent, Accepts, Resolves;
    UsableResolves(net.dns, records[k].host, a);
    var route, owner := AttemptExact(files, cache, m, net, err, records);
    var p := AcceptingContact(records, net.dns, route, owner, net.deliver, k, a);
    var q := FirstAccepted(route, net.deliver, p);
  }

  lemma AcceptingContact(records: seq<MXRecord>, dns: Dns, route: seq<(string, string)>, owner: seq<nat>, deliver: Contact,
                         k: nat, a: string) returns (p: nat)
    requires RouteOf(records, dns, route, owner)
    requires k < |records| && Usable(dns, records[k].host, a) && Accepts(deliver, a, records[k].host)
    requires forall i: nat, b | i <= k && Usable(dns, records[i].host, b) :: NeverPermanent(deliver, b, records[i].host)
    ensures p < |route| && Answer(route, deliver, p).None?
    ensures forall j: nat | j <= p && Answer(route, deliver, j).Some? :: !IsPermanentError(Answer(route, deliver, j).value)
  {
    hide IsPermanentError, Usable;
    assert OnRoute(route, owner, k, a);
    p :| p < |route| && owner[p] == k && route[p].0 == a;
    forall q: nat | q <= p && Answer(route, deliver, q).Some? ensures !IsPermanentError(Answer(route, deliver, q).value) {
      assert owner[q] <= k && NeverPermanent(deliver, route[q].0, route[q].1);
    }
  }

  /** Among contacts that never fail permanently, the first that is accepted. */
  lemma {:induction false} FirstAccepted(route: seq<(string, string)>, deliver: Contact, p: nat) returns (q: nat)
    requires p < |route| && Answer(route, deliver, p).None?
    requires forall j: nat | j <= p && Answer(route, deliver, j).Some? :: !IsPermanentError(Answer(route, deliver, j).value)
    ensures q <= p && Answer(route, deliver, q).None? && AllTemporary(route, deliver, q)
  {
    hide IsPermanentError, Answer;
    if j: nat :| j < p && Answer(route, deliver, j).None? {
      q := FirstAccepted(route, deliver, j);
    } else {
      q := p;
    }
  }

  /** An attempt that succeeds was accepted at an address of an exchanger on record. */
  lemma AcceptedSomewhere(files: map<string, int>, cache: map<string, CachedMX>, m: Message, net: Net, records: seq<MXRecord>)
    returns (k: nat, a: string, n: nat)
    requires Attempted(files, cache, m, net, None) && OnRecord(files, cache, m, net, records)
    ensures k < |records| && Usable(net.dns, records[k].host, a) && net.deliver(n, a, records[k].host).None?
  {
    hide IsPermanentError, Usable, Hosts;
    NoHostNoRoute(records, net.dns);
    var route, owner := AttemptExact(files, cache, m, net, None, records);
    var p: nat :| p < |route| && Answer(route, net.deliver, p).None?;
    k, a, n := owner[p], route[p].0, p;
  }

  lemma NoHostNoRoute(records: seq<MXRecord>, dns: Dns)
    requires Hosts(records, dns) != []
    ensures SomeUsable(records, dns)
  {
    hide HostFor, Resolves, Hosts;
    var at := HostsExactly(records, dns);
    assert at[0] in at;
    assert Resolves(records[at[0]].host, dns);
  }
}
