/** Mail exchanger lookup with its cache (internal/smtp/delivery/mx.go). */
module MxResolver {
  import opened Wrappers
  import opened Strings

  datatype MXRecord = MXRecord(host: string, preference: nat, expiresAt: int)

  datatype CachedMX = CachedMX(records: seq<MXRecord>, expiresAt: int)

  datatype MXHost = MXHost(host: string, preference: nat, addresses: seq<string>)

  datatype LookupError = InvalidDomain | NoMXRecords | DnsError

  /** The name server: the answer for the exchangers of a name, the addresses of a name, and what
      an address text parses to. */
  datatype MXAnswer = Exchangers(list: seq<(string, nat)>) | NoSuchName | Failing
  datatype IPKind = IPv4 | IPv6 | NotAnIP
  datatype Dns = Dns(mx: string -> MXAnswer, addresses: string -> Option<seq<string>>, kind: string -> IPKind)

  function TrimDot(host: string): string {
    if host != "" && host[|host| - 1] == '.' then host[..|host| - 1] else host
  }

  predicate Sorted(records: seq<MXRecord>) {
    forall i, j :: 0 <= i < j < |records| ==> records[i].preference <= records[j].preference
  }

  function Named(list: seq<(string, nat)>): seq<MXRecord> {
    seq(|list|, i requires 0 <= i < |list| => MXRecord(TrimDot(list[i].0), list[i].1, 0))
  }

  function Stamped(records: seq<MXRecord>, expiresAt: int): seq<MXRecord> {
    seq(|records|, i requires 0 <= i < |records| => records[i].(expiresAt := expiresAt))
  }

  /** The records a fresh lookup may give: the exchangers in some order of preference, or the name
      itself when there are none but it has addresses. */
  predicate Fresh(dns: Dns, domain: string, records: seq<MXRecord>) {
    Sorted(records) && records != []
    && match dns.mx(domain)
       case Exchangers(list) =>
         if list == [] then HasAddress(dns, domain) && records == [MXRecord(domain, 0, 0)]
         else multiset(records) == multiset(Named(list))
       case NoSuchName => HasAddress(dns, domain) && records == [MXRecord(domain, 0, 0)]
       case Failing => false
  }

  predicate HasAddress(dns: Dns, domain: string) {
    dns.addresses(domain).Some? && dns.addresses(domain).value != []
  }

  predicate Resolvable(dns: Dns, domain: string) {
    match dns.mx(domain)
    case Exchangers(list) => list != [] || HasAddress(dns, domain)
    case NoSuchName => HasAddress(dns, domain)
    case Failing => false
  }

  // ----- hosts -----

  function OfKind(addrs: seq<string>, kind: string -> IPKind, k: IPKind): seq<string> {
    if addrs == [] then []
    else
      var rest := OfKind(addrs[..|addrs| - 1], kind, k);
      if kind(addrs[|addrs| - 1]) == k then rest + [addrs[|addrs| - 1]] else rest
  }

  /** IPv4 before IPv6; texts that are no addresses are dropped. */
  function Ordered(addrs: seq<string>, kind: string -> IPKind): seq<string> {
    OfKind(addrs, kind, IPv4) + OfKind(addrs, kind, IPv6)
  }

  /** The hosts of the records that resolve to at least one address, in the order of the records. */
  function Hosts(records: seq<MXRecord>, dns: Dns): seq<MXHost> {
    if records == [] then []
    else
      var rest := Hosts(records[..|records| - 1], dns);
      var mx := records[|records| - 1];
      var addrs := dns.addresses(mx.host);
      if addrs.None? || Ordered(addrs.value, dns.kind) == [] then rest
      else rest + [MXHost(mx.host, mx.preference, Ordered(addrs.value, dns.kind))]
  }

  function Inserted(records: seq<MXRecord>, k: nat, mx: MXRecord): seq<MXRecord>
    requires k <= |records|
  {
    records[..k] + [mx] + records[k..]
  }

  lemma InsertSorted(records: seq<MXRecord>, k: nat, mx: MXRecord)
    requires Sorted(records) && k <= |records|
    requires k > 0 ==> records[k - 1].preference <= mx.preference
    requires k < |records| ==> mx.preference <= records[k].preference
    ensures Sorted(Inserted(records, k, mx))
  {
    var longer := Inserted(records, k, mx);
    assert forall i | 0 <= i < |longer| :: longer[i] == if i < k then records[i] else if i == k then mx else records[i - 1];
    hide Inserted;
  }

  lemma InsertSame(records: seq<MXRecord>, k: nat, mx: MXRecord)
    requires k <= |records|
    ensures multiset(Inserted(records, k, mx)) == multiset(records) + multiset{mx}
  {
    assert records == records[..k] + records[k..];
  }

  class MXResolver {
    var cache: map<string, CachedMX>
    const ttl: int

    constructor (ttl: int)
      ensures this.ttl == ttl && cache == map[] && Valid()
    {
      this.ttl := ttl;
      cache := map[];
    }

    predicate Valid()
      reads this
    {
      forall d :: d in cache ==> Sorted(cache[d].records) && cache[d].records != []
    }

    /** A live entry answers without the name server; a dead one is dropped, and a fresh answer
        stored until the time to live is over. */
    method Lookup(name: string, now: int, dns: Dns) returns (r: Result<seq<MXRecord>, LookupError>)
      requires Valid()
      modifies this
      ensures Valid()
      ensures r.Ok? ==> Lower(TrimSpace(name)) in cache && cache[Lower(TrimSpace(name))].records == r.value
      ensures var domain := Lower(TrimSpace(name));
              if domain == "" then r == Err(InvalidDomain) && cache == old(cache)
              else if old(domain in cache && now < cache[domain].expiresAt)
              then r == Ok(old(cache)[domain].records) && cache == old(cache)
              else
                && (r.Ok? <==> Resolvable(dns, domain))
                && (r.Err? ==> cache == old(cache) - {domain})
                && (r.Ok? ==>
                      && (exists records :: Fresh(dns, domain, records) && r.value == Stamped(records, now + ttl))
                      && cache == old(cache)[domain := CachedMX(r.value, now + ttl)])
    {
      var domain := Lower(TrimSpace(name));
      if domain == "" {
        return Err(InvalidDomain);
      }
      if domain in cache {
        var c := cache[domain];
        if now < c.expiresAt {
          return Ok(c.records);
        }
        cache := cache - {domain};
      }
      var records :- LookupMX(domain, dns);
      var expiresAt := now + ttl;
      var stamped := records;
      for i := 0 to |records|
        invariant |stamped| == |records|
        invariant forall k :: 0 <= k < |records| ==>
                    stamped[k] == if k < i then records[k].(expiresAt := expiresAt) else records[k]
      {
        stamped := stamped[i := stamped[i].(expiresAt := expiresAt)];
      }
      assert stamped == Stamped(records, expiresAt);
      assert Sorted(stamped);
      cache := cache[domain := CachedMX(stamped, expiresAt)];
      r := Ok(stamped);
    }

    method LookupMX(domain: string, dns: Dns) returns (r: Result<seq<MXRecord>, LookupError>)
      ensures r.Ok? <==> Resolvable(dns, domain)
      ensures r.Ok? ==> Fresh(dns, domain, r.value)
    {
      match dns.mx(domain)
      case Failing => r := Err(DnsError);
      case NoSuchName => r := LookupAFallback(domain, dns);
      case Exchangers(list) =>
        if |list| == 0 {
          r := LookupAFallback(domain, dns);
          return;
        }
        var records: seq<MXRecord> := [];
        for i := 0 to |list|
          invariant |records| == i
          invariant forall k :: 0 <= k < i ==> records[k] == MXRecord(TrimDot(list[k].0), list[k].1, 0)
        {
          records := records + [MXRecord(TrimDot(list[i].0), list[i].1, 0)];
        }
        assert records == Named(list);
        records := SortByPreference(records);
        r := Ok(records);
    }

    method LookupAFallback(domain: string, dns: Dns) returns (r: Result<seq<MXRecord>, LookupError>)
      ensures r == if HasAddress(dns, domain) then Ok([MXRecord(domain, 0, 0)]) else Err(NoMXRecords)
    {
      var addrs := dns.addresses(domain);
      if addrs.None? || |addrs.value| == 0 {
        return Err(NoMXRecords);
      }
      r := Ok([MXRecord(domain, 0, 0)]);
    }

    /** Some sorted permutation, as the library sort promises. */
    static method SortByPreference(records: seq<MXRecord>) returns (sorted: seq<MXRecord>)
      ensures Sorted(sorted) && multiset(sorted) == multiset(records) && |sorted| == |records|
    {
      sorted := [];
      assert records[..|records|] == records;
      for i := 0 to |records|
        invariant Sorted(sorted) && |sorted| == i && multiset(sorted) == multiset(records[..i])
      {
        assert records[..i + 1] == records[..i] + [records[i]];
        sorted := Insert(sorted, records[i]);
      }
    }

    static method Insert(records: seq<MXRecord>, mx: MXRecord) returns (longer: seq<MXRecord>)
      requires Sorted(records)
      ensures Sorted(longer) && multiset(longer) == multiset(records) + multiset{mx} && |longer| == |records| + 1
    {
      var k := |records|;
      while k > 0 && mx.preference < records[k - 1].preference
        invariant 0 <= k <= |records|
        invariant k < |records| ==> mx.preference < records[k].preference
      {
        k := k - 1;
      }
      longer := Inserted(records, k, mx);
      InsertSorted(records, k, mx);
      InsertSame(records, k, mx);
    }

    method LookupWithFallback(name: string, now: int, dns: Dns) returns (r: Result<seq<MXHost>, LookupError>)
      requires Valid()
      modifies this
      ensures Valid()
      ensures r.Ok? ==> r.value != []
      ensures var domain := Lower(TrimSpace(name));
              && (domain == "" ==> r.Err?)
              && (old(domain in cache && now < cache[domain].expiresAt) ==> cache == old(cache))
              && (r.Ok? ==> domain in cache && r.value == Hosts(cache[domain].records, dns))
              && (domain != "" && r.Err? ==>
                    || (domain !in cache && !Resolvable(dns, domain))
                    || (domain in cache && Hosts(cache[domain].records, dns) == []))
    {
      var mxRecords :- Lookup(name, now, dns);
      var hosts: seq<MXHost> := [];
      ghost var cached := cache;
      for i := 0 to |mxRecords|
        invariant hosts == Hosts(mxRecords[..i], dns)
        invariant cache == cached
      {
        var mx := mxRecords[i];
        assert mxRecords[..i + 1][..i] == mxRecords[..i];
        var addrs := dns.addresses(mx.host);
        if addrs.None? {
          continue;
        }
        var allAddrs := Arrange(addrs.value, dns);
        if |allAddrs| > 0 {
          hosts := hosts + [MXHost(mx.host, mx.preference, allAddrs)];
        }
      }
      assert mxRecords[..|mxRecords|] == mxRecords;
      if |hosts| == 0 {
        return Err(NoMXRecords);
      }
      r := Ok(hosts);
    }

    static method Arrange(addrs: seq<string>, dns: Dns) returns (all: seq<string>)
      ensures all == Ordered(addrs, dns.kind)
    {
      var ipv4: seq<string>, ipv6: seq<string> := [], [];
      for i := 0 to |addrs|
        invariant ipv4 == OfKind(addrs[..i], dns.kind, IPv4) && ipv6 == OfKind(addrs[..i], dns.kind, IPv6)
      {
        assert addrs[..i + 1][..i] == addrs[..i];
        var addr := addrs[i];
        var kind := dns.kind(addr);
        if kind != NotAnIP {
          if kind == IPv4 {
            ipv4 := ipv4 + [addr];
          } else {
            ipv6 := ipv6 + [addr];
          }
        }
      }
      assert addrs[..|addrs|] == addrs;
      all := ipv4 + ipv6;
    }
  }

  // ----- what the delivery loop may rely on -----

  predicate HostOk(h: MXHost, dns: Dns) {
    && h.addresses != []
    && (forall i, j :: 0 <= i < j < |h.addresses| && dns.kind(h.addresses[j]) == IPv4 ==> dns.kind(h.addresses[i]) == IPv4)
    && dns.addresses(h.host).Some?
    && (forall a :: a in h.addresses ==> a in dns.addresses(h.host).value && dns.kind(a) != NotAnIP)
    && (forall a :: a in dns.addresses(h.host).value && dns.kind(a) != NotAnIP ==> a in h.addresses)
  }

  lemma {:induction false} OfKindMeans(addrs: seq<string>, kind: string -> IPKind, k: IPKind)
    ensures forall a :: a in OfKind(addrs, kind, k) <==> a in addrs && kind(a) == k
  {
    if addrs != [] {
      OfKindMeans(addrs[..|addrs| - 1], kind, k);
      assert addrs == addrs[..|addrs| - 1] + [addrs[|addrs| - 1]];
    }
  }

  lemma OrderedOk(h: MXHost, dns: Dns)
    requires dns.addresses(h.host).Some? && h.addresses == Ordered(dns.addresses(h.host).value, dns.kind) != []
    ensures HostOk(h, dns)
  {
    var addrs := dns.addresses(h.host).value;
    OfKindMeans(addrs, dns.kind, IPv4);
    OfKindMeans(addrs, dns.kind, IPv6);
    var v4, v6 := OfKind(addrs, dns.kind, IPv4), OfKind(addrs, dns.kind, IPv6);
    assert forall t | |v4| <= t < |h.addresses| :: h.addresses[t] == v6[t - |v4|] && v6[t - |v4|] in v6;
    assert forall t | 0 <= t < |v4| :: h.addresses[t] == v4[t] && v4[t] in v4;
  }

  /** The host stems from one of the records. */
  predicate Stems(h: MXHost, records: seq<MXRecord>) {
    exists k | 0 <= k < |records| :: records[k].host == h.host && records[k].preference == h.preference
  }

  lemma StemsLater(h: MXHost, records: seq<MXRecord>)
    requires records != [] && Stems(h, records[..|records| - 1])
    ensures Stems(h, records)
  {
    var front := records[..|records| - 1];
    var k :| 0 <= k < |front| && front[k].host == h.host && front[k].preference == h.preference;
    assert records[k] == front[k];
  }

  lemma StemsSorted(h: MXHost, records: seq<MXRecord>)
    requires records != [] && Sorted(records) && Stems(h, records)
    ensures h.preference <= records[|records| - 1].preference
  {
  }

  /** Hosts come in order of preference; each stems from a record and has at least one address,
      all of its own, IPv4 first. */
  lemma {:induction false} HostsOrdered(records: seq<MXRecord>, dns: Dns)
    requires Sorted(records)
    ensures var hosts := Hosts(records, dns);
            && (forall h :: h in hosts ==> HostOk(h, dns) && Stems(h, records))
            && (forall i, j :: 0 <= i < j < |hosts| ==> hosts[i].preference <= hosts[j].preference)
  {
    hide HostOk, Ordered, Stems;
    if records == [] {
    } else {
      var front, mx := records[..|records| - 1], records[|records| - 1];
      HostsOrdered(front, dns);
      var rest, all := Hosts(front, dns), Hosts(records, dns);
      forall h | h in rest ensures Stems(h, records) && h.preference <= mx.preference {
        StemsLater(h, records);
        StemsSorted(h, records);
      }
      if all != rest {
        var last := all[|rest|];
        assert all == rest + [last];
        OrderedOk(last, dns);
        StemsHere(last, records);
      }
    }
  }

  lemma StemsHere(h: MXHost, records: seq<MXRecord>)
    requires records != [] && records[|records| - 1].host == h.host && records[|records| - 1].preference == h.preference
    ensures Stems(h, records)
  {
  }

  // ----- what goes on record -----

  /** The record of an exchanger: its preference, and its name without the dot at the end. */
  predicate RecordFor(mx: MXRecord, x: (string, nat), expiresAt: int) {
    && mx.preference == x.1 && mx.expiresAt == expiresAt
    && (mx.host + "." == x.0 || (mx.host == x.0 && (x.0 == "" || x.0[|x.0| - 1] != '.')))
  }

  /** A fresh answer puts every exchanger of the name on record, and nothing else. */
  lemma ExchangersKept(dns: Dns, domain: string, records: seq<MXRecord>, expiresAt: int)
    requires Fresh(dns, domain, records) && dns.mx(domain).Exchangers? && dns.mx(domain).list != []
    ensures var list, kept := dns.mx(domain).list, Stamped(records, expiresAt);
            && |kept| == |list| && Sorted(kept)
            && (forall x :: x in list ==> exists mx :: mx in kept && RecordFor(mx, x, expiresAt))
            && (forall mx :: mx in kept ==> exists x :: x in list && RecordFor(mx, x, expiresAt))
  {
    hide Sorted;
    var list, kept := dns.mx(domain).list, Stamped(records, expiresAt);
    var named := Named(list);
    assert |multiset(named)| == |multiset(records)|;
    forall x | x in list ensures exists mx :: mx in kept && RecordFor(mx, x, expiresAt) {
      var i :| 0 <= i < |list| && list[i] == x;
      assert named[i] in multiset(records);
      var j :| 0 <= j < |records| && records[j] == named[i];
      NamedRecord(x, expiresAt);
      assert kept[j] in kept;
    }
    forall mx | mx in kept ensures exists x :: x in list && RecordFor(mx, x, expiresAt) {
      var j :| 0 <= j < |kept| && kept[j] == mx;
      assert records[j] in multiset(named);
      var i :| 0 <= i < |list| && named[i] == records[j];
      NamedRecord(list[i], expiresAt);
    }
    StampedSorted(records, expiresAt);
  }

  lemma NamedRecord(x: (string, nat), expiresAt: int)
    ensures RecordFor(MXRecord(TrimDot(x.0), x.1, 0).(expiresAt := expiresAt), x, expiresAt)
  {
    if x.0 != "" && x.0[|x.0| - 1] == '.' {
      assert x.0 == x.0[..|x.0| - 1] + ".";
    }
  }

  lemma StampedSorted(records: seq<MXRecord>, expiresAt: int)
    requires Sorted(records)
    ensures Sorted(Stamped(records, expiresAt))
  {
  }

  // ----- every exchanger that resolves is there -----

  /** In order, exactly the positions whose element satisfies p. */
  ghost predicate Picks<T>(whole: seq<T>, at: seq<nat>, p: T -> bool) {
    && (forall i, j :: 0 <= i < j < |at| ==> at[i] < at[j])
    && (forall k: nat :: k in at <==> k < |whole| && p(whole[k]))
  }

  lemma PicksMore<T>(whole: seq<T>, at: seq<nat>, p: T -> bool, x: T)
    requires Picks(whole, at, p)
    ensures Picks(whole + [x], if p(x) then at + [|whole|] else at, p)
  {
    assert forall i | 0 <= i < |at| :: at[i] in at;
  }

  function IsKind(kind: string -> IPKind, k: IPKind): string -> bool {
    (a: string) => kind(a) == k
  }

  ghost predicate Picked<T>(whole: seq<T>, part: seq<T>, at: seq<nat>, p: T -> bool) {
    Picks(whole, at, p) && |part| == |at| && forall i :: 0 <= i < |at| ==> at[i] < |whole| && part[i] == whole[at[i]]
  }

  lemma PickedMore<T>(whole: seq<T>, part: seq<T>, at: seq<nat>, p: T -> bool, x: T)
    requires Picked(whole, part, at, p)
    ensures p(x) ==> Picked(whole + [x], part + [x], at + [|whole|], p)
    ensures !p(x) ==> Picked(whole + [x], part, at, p)
  {
    hide Picks;
    PicksMore(whole, at, p, x);
  }

  lemma NothingPicked<T>(p: T -> bool)
    ensures Picked([], [], [], p)
  {
  }

  /** The addresses of a kind, each as often as it occurs, in their order. */
  lemma {:induction false} OfKindExactly(addrs: seq<string>, kind: string -> IPKind, k: IPKind) returns (at: seq<nat>)
    ensures Picked(addrs, OfKind(addrs, kind, k), at, IsKind(kind, k))
  {
    hide Picked;
    NothingPicked(IsKind(kind, k));
    if addrs == [] {
      at := [];
    } else {
      var front, last := addrs[..|addrs| - 1], addrs[|addrs| - 1];
      at := OfKindExactly(front, kind, k);
      assert addrs == front + [last];
      PickedMore(front, OfKind(front, kind, k), at, IsKind(kind, k), last);
      if kind(last) == k { at := at + [|front|]; }
    }
  }

  /** The name has an address that a message can be sent to. */
  predicate Resolves(host: string, dns: Dns) {
    dns.addresses(host).Some? && exists a :: a in dns.addresses(host).value && dns.kind(a) != NotAnIP
  }

  function Resolving(dns: Dns): MXRecord -> bool {
    (mx: MXRecord) => Resolves(mx.host, dns)
  }

  lemma ResolvesMeans(host: string, dns: Dns)
    requires dns.addresses(host).Some?
    ensures Resolves(host, dns) <==> Ordered(dns.addresses(host).value, dns.kind) != []
  {
    var addrs := dns.addresses(host).value;
    OfKindMeans(addrs, dns.kind, IPv4);
    OfKindMeans(addrs, dns.kind, IPv6);
    var all := Ordered(addrs, dns.kind);
    if all != [] { assert all[0] in all; }
  }

  /** The host of a record: its name, its preference and all its addresses, IPv4 first. */
  predicate HostFor(h: MXHost, mx: MXRecord, dns: Dns) {
    h.host == mx.host && h.preference == mx.preference && HostOk(h, dns)
  }

  lemma OneMoreHost(front: seq<MXRecord>, mx: MXRecord, dns: Dns)
    ensures var hosts, all := Hosts(front, dns), Hosts(front + [mx], dns);
            if Resolves(mx.host, dns) then |all| == |hosts| + 1 && all[..|hosts|] == hosts && HostFor(all[|hosts|], mx, dns)
            else all == hosts
  {
    hide HostOk, Ordered, Resolves;
    assert (front + [mx])[..|front|] == front;
    NeverResolves(mx.host, dns);
    if dns.addresses(mx.host).Some? { ResolvesMeans(mx.host, dns); }
    if Resolves(mx.host, dns) { OrderedOk(Hosts(front + [mx], dns)[|Hosts(front, dns)|], dns); }
  }

  lemma NeverResolves(host: string, dns: Dns)
    ensures Resolves(host, dns) ==> dns.addresses(host).Some?
  {
  }

  /** The hosts are those of the records at these positions, which are the ones that resolve. */
  ghost predicate HostsAt(records: seq<MXRecord>, hosts: seq<MXHost>, at: seq<nat>, dns: Dns) {
    && Picks(records, at, Resolving(dns))
    && |hosts| == |at|
    && forall i :: 0 <= i < |at| ==> at[i] < |records| && HostFor(hosts[i], records[at[i]], dns)
  }

  lemma HostsAtMore(front: seq<MXRecord>, hosts: seq<MXHost>, at: seq<nat>, dns: Dns, mx: MXRecord, h: MXHost)
    requires HostsAt(front, hosts, at, dns)
    ensures Resolves(mx.host, dns) && HostFor(h, mx, dns) ==> HostsAt(front + [mx], hosts + [h], at + [|front|], dns)
    ensures !Resolves(mx.host, dns) ==> HostsAt(front + [mx], hosts, at, dns)
  {
    hide Picks, HostFor, Resolves;
    PicksMore(front, at, Resolving(dns), mx);
  }

  lemma NoHosts(dns: Dns)
    ensures HostsAt([], Hosts([], dns), [], dns)
  {
  }

  /** Every record whose name resolves gives its host, in the order of the records; no other does. */
  lemma {:induction false} HostsExactly(records: seq<MXRecord>, dns: Dns) returns (at: seq<nat>)
    ensures HostsAt(records, Hosts(records, dns), at, dns)
  {
    hide HostsAt, HostFor, Resolves, Hosts;
    if records == [] {
      at := [];
      NoHosts(dns);
    } else {
      var front, mx := records[..|records| - 1], records[|records| - 1];
      at := HostsExactly(front, dns);
      assert records == front + [mx];
      OneMoreHost(front, mx, dns);
      var hosts, all := Hosts(front, dns), Hosts(records, dns);
      if Resolves(mx.host, dns) {
        var h := all[|hosts|];
        assert all == hosts + [h];
        HostsAtMore(front, hosts, at, dns, mx, h);
        at := at + [|front|];
      } else {
        HostsAtMore(front, hosts, at, dns, mx, MXHost("", 0, []));
      }
    }
  }
}
