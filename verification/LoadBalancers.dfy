/** The load balancer services of a cluster, as the strings "name:namespace:address"
    that a MetallbScan passes around, and what becomes of those without an address. */
module LoadBalancers {
  import opened StatusLists
  import opened GoStrings
  import opened FailureMessages
  import opened StaleServices
  import M = MetallbScan

  /** `specIp` and `ingress` are spec.loadBalancerIP and the addresses of
      status.loadBalancer.ingress. */
  datatype KubeService = KubeService(name: string, ns: string, balancer: bool, specIp: string,
                                     ingress: Option<seq<string>>)
  {
    predicate HasIp() {
      balancer && (specIp != "" || (ingress.Some? && exists ip :: ip in ingress.value && ip != ""))
    }

    /** The requested address, or the reported ones when none is requested. */
    predicate Address(ip: string) {
      balancer && if specIp != "" then ip == specIp else ingress.Some? && ip in ingress.value && ip != ""
    }

    predicate WithoutIp() {
      balancer && specIp == "" && ingress.None?
    }
  }

  function Entry(name: string, ns: string, ip: string): string {
    name + ":" + ns + ":" + ip
  }

  function IngressEntries(s: KubeService, ips: seq<string>): seq<string> {
    if ips == [] then []
    else
      var ip := ips[|ips| - 1];
      IngressEntries(s, ips[..|ips| - 1]) + if ip != "" then [Entry(s.name, s.ns, ip)] else []
  }

  function EntriesOf(s: KubeService): seq<string> {
    if !s.balancer then []
    else if s.specIp != "" then [Entry(s.name, s.ns, s.specIp)]
    else if s.ingress.Some? then IngressEntries(s, s.ingress.value)
    else []
  }

  function Entries(all: seq<KubeService>): seq<string> {
    if all == [] then [] else Entries(all[..|all| - 1]) + EntriesOf(all[|all| - 1])
  }

  function NoIpEntries(all: seq<KubeService>): seq<string> {
    if all == [] then []
    else
      var s := all[|all| - 1];
      NoIpEntries(all[..|all| - 1]) + if s.WithoutIp() then [s.name + ":" + s.ns] else []
  }

  method GetLoadBalancerServices(all: seq<KubeService>) returns (services: seq<string>, noIp: seq<string>)
    ensures services == Entries(all) && noIp == NoIpEntries(all)
  {
    services, noIp := [], [];
    for i := 0 to |all|
      invariant services == Entries(all[..i]) && noIp == NoIpEntries(all[..i])
    {
      var svc := all[i];
      assert all[..i + 1][..i] == all[..i];
      if svc.balancer {
        if svc.specIp != "" {
          services := services + [Entry(svc.name, svc.ns, svc.specIp)];
        } else if svc.ingress.Some? {
          var ips := svc.ingress.value;
          for k := 0 to |ips|
            invariant services == Entries(all[..i]) + IngressEntries(svc, ips[..k])
          {
            assert ips[..k + 1][..k] == ips[..k];
            if ips[k] != "" {
              services := services + [Entry(svc.name, svc.ns, ips[k])];
            }
          }
          assert ips[..|ips|] == ips;
        } else {
          noIp := noIp + [svc.name + ":" + svc.ns];
        }
      }
    }
    assert all[..|all|] == all;
  }

  /** The clean-up's list of service names. */
  method LiveServices(entries: seq<string>) returns (live: seq<string>)
    ensures live == LiveNames(entries)
  {
    live := [];
    for i := 0 to |entries|
      invariant live == LiveNames(entries)[..i]
    {
      live := live + [Split(entries[i], ':')[0]];
    }
  }

  function LiveNames(entries: seq<string>): (r: seq<string>)
    ensures |r| == |entries| && forall i :: 0 <= i < |r| ==> r[i] == Split(entries[i], ':')[0]
  {
    seq(|entries|, i requires 0 <= i < |entries| => Split(entries[i], ':')[0])
  }

  // ----- what the strings still tell

  predicate Plain(s: KubeService) {
    ':' !in s.name && ':' !in s.ns
  }

  /** Splitting an entry yields the name and the namespace, and in third place the
      address exactly when it has no colon: an IPv6 address is cut short. */
  lemma EntryParses(s: KubeService, ip: string)
    requires Plain(s)
    ensures var f := Split(Entry(s.name, s.ns, ip), ':');
            |f| >= 3 && f[0] == s.name && f[1] == s.ns && (f[2] == ip <==> ':' !in ip)
  {
    assert Entry(s.name, s.ns, ip) == s.name + ":" + (s.ns + ":" + ip);
    SplitPrefix(s.name, s.ns + ":" + ip, ':');
    SplitPrefix(s.ns, ip, ':');
    assert Split(ip, ':')[0] in Split(ip, ':');
  }

  lemma {:induction false} IngressMembers(s: KubeService, ips: seq<string>, e: string)
    ensures e in IngressEntries(s, ips) <==> exists ip :: ip in ips && ip != "" && e == Entry(s.name, s.ns, ip)
  {
    if ips != [] {
      var front, last := ips[..|ips| - 1], ips[|ips| - 1];
      assert ips == front + [last];
      IngressMembers(s, front, e);
    }
  }

  lemma HasIpIff(s: KubeService)
    ensures EntriesOf(s) != [] <==> s.HasIp()
    ensures forall e :: e in EntriesOf(s) ==> exists ip :: e == Entry(s.name, s.ns, ip)
  {
    if s.balancer && s.specIp == "" && s.ingress.Some? {
      forall e | e in EntriesOf(s)
        ensures exists ip :: ip in s.ingress.value && ip != "" && e == Entry(s.name, s.ns, ip) {
        IngressMembers(s, s.ingress.value, e);
      }
      if EntriesOf(s) != [] { IngressMembers(s, s.ingress.value, EntriesOf(s)[0]); }
      if s.HasIp() {
        var ip :| ip in s.ingress.value && ip != "";
        IngressMembers(s, s.ingress.value, Entry(s.name, s.ns, ip));
      }
    }
  }

  /** An entry names an address of the service: the requested one if there is one, else a
      reported one. */
  lemma AddressIff(s: KubeService, ip: string)
    ensures Entry(s.name, s.ns, ip) in EntriesOf(s) <==> s.Address(ip)
  {
    if s.balancer && s.specIp != "" {
      SameAddress(s, ip, s.specIp);
    } else if s.balancer && s.ingress.Some? {
      IngressMembers(s, s.ingress.value, Entry(s.name, s.ns, ip));
      forall other | Entry(s.name, s.ns, ip) == Entry(s.name, s.ns, other) ensures other == ip {
        SameAddress(s, ip, other);
      }
    }
  }

  lemma SameAddress(s: KubeService, a: string, b: string)
    ensures Entry(s.name, s.ns, a) == Entry(s.name, s.ns, b) <==> a == b
  {
    var head := s.name + ":" + s.ns + ":";
    assert Entry(s.name, s.ns, a) == head + a && Entry(s.name, s.ns, b) == head + b;
    assert (head + a)[|head|..] == a && (head + b)[|head|..] == b;
  }

  lemma {:induction false} EntryMembers(all: seq<KubeService>, e: string)
    ensures e in Entries(all) <==> exists s :: s in all && e in EntriesOf(s)
  {
    if all != [] {
      var front, last := all[..|all| - 1], all[|all| - 1];
      assert all == front + [last];
      EntryMembers(front, e);
    }
  }

  /** A name is live iff some load balancer service of that name, in whatever namespace,
      has an address. */
  lemma LiveIff(all: seq<KubeService>, name: string)
    requires forall s :: s in all ==> Plain(s)
    ensures name in LiveNames(Entries(all)) <==> exists s :: s in all && s.HasIp() && s.name == name
  {
    var entries, live := Entries(all), LiveNames(Entries(all));
    if name in live {
      var i :| 0 <= i < |live| && live[i] == name;
      EntryMembers(all, entries[i]);
      var s :| s in all && entries[i] in EntriesOf(s);
      HasIpIff(s);
      var ip :| entries[i] == Entry(s.name, s.ns, ip);
      EntryParses(s, ip);
    }
    if s :| s in all && s.HasIp() && s.name == name {
      HasIpIff(s);
      var e := EntriesOf(s)[0];
      assert e in EntriesOf(s);
      EntryMembers(all, e);
      var ip :| e == Entry(s.name, s.ns, ip);
      EntryParses(s, ip);
      var i :| 0 <= i < |entries| && entries[i] == e;
      assert live[i] == name;
    }
  }

  // ----- services without an address

  lemma {:induction false} SplitAtSeparator(s: string, sep: char)
    requires sep in s
    ensures |Split(s, sep)| >= 2
  {
    if s[0] != sep { SplitAtSeparator(s[1..], sep); }
  }

  /** What a scan prints of such an entry: its first two fields. */
  function RefOf(entry: string): M.SvcRef
    requires ':' in entry
  {
    SplitAtSeparator(entry, ':');
    M.SvcRef(Split(entry, ':')[0], Split(entry, ':')[1])
  }

  lemma {:induction false} NoIpMembers(all: seq<KubeService>, e: string)
    ensures e in NoIpEntries(all) <==> exists s :: s in all && s.WithoutIp() && e == s.name + ":" + s.ns
  {
    if all != [] {
      var front, last := all[..|all| - 1], all[|all| - 1];
      assert all == front + [last];
      NoIpMembers(front, e);
    }
  }

  lemma NoIpSeparated(all: seq<KubeService>)
    ensures forall e :: e in NoIpEntries(all) ==> ':' in e
  {
    forall e | e in NoIpEntries(all) ensures ':' in e {
      NoIpMembers(all, e);
      var s :| s in all && e == s.name + ":" + s.ns;
      assert e[|s.name|] == ':';
    }
  }

  /** The services without an address as a scan of the cluster records them. */
  function NoIpRefs(all: seq<KubeService>): (r: seq<M.SvcRef>)
    ensures forall e :: e in NoIpEntries(all) ==> ':' in e
    ensures |r| == |NoIpEntries(all)| && forall i :: 0 <= i < |r| ==> r[i] == RefOf(NoIpEntries(all)[i])
  {
    NoIpSeparated(all);
    var entries := NoIpEntries(all);
    seq(|entries|, i requires 0 <= i < |entries| => assert entries[i] in entries; RefOf(entries[i]))
  }

  /** An entry without an address splits into the name and the namespace it was made of. */
  lemma NoIpParses(s: KubeService)
    requires Plain(s)
    ensures RefOf(s.name + ":" + s.ns) == M.SvcRef(s.name, s.ns)
  {
    SplitPrefix(s.name, s.ns, ':');
    assert Join([s.ns], ':') == s.ns;
    SplitJoin([s.ns], ':');
  }

  /** A scan records exactly the load balancer services with neither a requested nor a
      reported address. */
  lemma NoIpRefIff(all: seq<KubeService>, name: string, ns: string)
    requires forall s :: s in all ==> Plain(s)
    ensures M.SvcRef(name, ns) in NoIpRefs(all) <==>
              exists s :: s in all && s.WithoutIp() && s.name == name && s.ns == ns
  {
    var entries, refs, x := NoIpEntries(all), NoIpRefs(all), M.SvcRef(name, ns);
    if x in refs {
      var i :| 0 <= i < |refs| && refs[i] == x;
      NoIpMembers(all, entries[i]);
      var s :| s in all && s.WithoutIp() && entries[i] == s.name + ":" + s.ns;
      NoIpParses(s);
    }
    if s :| s in all && s.WithoutIp() && s.name == name && s.ns == ns {
      NoIpMembers(all, s.name + ":" + s.ns);
      var i :| 0 <= i < |entries| && entries[i] == s.name + ":" + s.ns;
      NoIpParses(s);
      assert refs[i] == x;
    }
  }

  /** The failure recorded for a service without an address is stale in the same
      cluster, unless a service of the same name has one. */
  lemma NoIpStaleIff(all: seq<KubeService>, s: KubeService)
    requires s.WithoutIp() && NoIp(s.name, s.ns).WellNamed() && forall t :: t in all ==> Plain(t)
    ensures IsStale(NoIp(s.name, s.ns).Render(), LiveNames(Entries(all))) <==>
              !exists t :: t in all && t.HasIp() && t.name == s.name
  {
    StaleMeaning(NoIp(s.name, s.ns), LiveNames(Entries(all)));
    LiveIff(all, s.name);
  }
}
