/** From the cluster to the list: what a completed elapsed scan lists, said of the address
    pools, the advertisements, the nodes and the endpoints themselves. */
module MetallbCluster {
  import opened StatusLists
  import opened GoStrings
  import opened FailureMessages
  import H = HopScanners
  import opened IpPools
  import opened BgpConfig
  import opened LoadBalancers
  import opened HopRecords
  import R = RouteRecords
  import opened MetallbPhases
  import opened MetallbScan
  import opened MetallbEntries
  import opened MetallbOutcome
  import opened MetallbVerdicts
  import opened MetallbSpeakers
  import opened SvcEndPoints

  // ----- address pools

  /** The peer records are those of the services' look-ups. */
  ghost predicate FromPools(o: Observation, services: seq<Service>, pools: seq<IpPools.Pool>,
                            parseIP: string -> Option<nat>, parse: string -> Option<Block>) {
    IpPools.Plain(pools) && BgpConfig.Peers(services, LookIn(pools, parseIP, parse)) == Ok(o.peers)
  }

  /** A service is listed as in no pool iff no pool holds its address, and it is still
      there. */
  lemma PoolListed(after: seq<string>, before: seq<string>, o: Observation, cfg: Config, services: seq<Service>,
                   pools: seq<IpPools.Pool>, parseIP: string -> Option<nat>, parse: string -> Option<Block>, s: Service)
    requires ListsObserved(after, before, o, cfg) && FromPools(o, services, pools, parseIP, parse) && s in services
    requires PeersAgree(o.peers) && forall q :: q in o.peers ==> Name(q.name) && Name(q.ns)
    ensures NotInPool(s.name, s.ns).Render() in after <==>
              !InPool(pools, s.ip, parseIP, parse) && (o.live == [] || s.name in o.live)
  {
    PeerRecords(services, pools, parseIP, parse);
    var i :| 0 <= i < |services| && services[i] == s;
    assert o.peers[i] in o.peers && TellsPool(o.peers[i], s, pools, parseIP, parse);
    PeerListed(after, before, o, cfg, o.peers[i]);
  }

  /** The records agree when a service's addresses are all in pools or all in none. */
  lemma PoolsAgree(o: Observation, services: seq<Service>, pools: seq<IpPools.Pool>, parseIP: string -> Option<nat>,
                   parse: string -> Option<Block>)
    requires FromPools(o, services, pools, parseIP, parse)
    ensures PeersAgree(o.peers) <==>
              forall s, t :: s in services && t in services && s.name == t.name && s.ns == t.ns ==>
                (InPool(pools, s.ip, parseIP, parse) <==> InPool(pools, t.ip, parseIP, parse))
  {
    PeerRecords(services, pools, parseIP, parse);
    forall i | 0 <= i < |services| ensures TellsPool(o.peers[i], services[i], pools, parseIP, parse) {}
    if PeersAgree(o.peers) {
      forall s, t | s in services && t in services && s.name == t.name && s.ns == t.ns
        ensures InPool(pools, s.ip, parseIP, parse) <==> InPool(pools, t.ip, parseIP, parse) {
        var i :| 0 <= i < |services| && services[i] == s;
        var j :| 0 <= j < |services| && services[j] == t;
        assert o.peers[i] in o.peers && o.peers[j] in o.peers;
      }
    } else {
      var p, q :| p in o.peers && q in o.peers && p.name == q.name && p.ns == q.ns && p.conPool != q.conPool;
      var i :| 0 <= i < |o.peers| && o.peers[i] == p;
      var j :| 0 <= j < |o.peers| && o.peers[j] == q;
      assert services[i] in services && services[j] in services;
    }
  }

  /** Splitting an entry of the cluster's services yields the service with its address, if
      that has no colon. */
  function ServiceOf(entry: string): Service {
    var f := Split(entry, ':');
    BgpConfig.Service.Service(f[0], if |f| > 1 then f[1] else "", if |f| > 2 then f[2] else "")
  }

  function ServicesOf(entries: seq<string>): (r: seq<Service>)
    ensures |r| == |entries| && forall i :: 0 <= i < |r| ==> r[i] == ServiceOf(entries[i])
  {
    seq(|entries|, i requires 0 <= i < |entries| => ServiceOf(entries[i]))
  }

  /** Said of a service of the cluster: with the address `ip`, it is listed iff no pool
      holds that. */
  lemma ClusterPoolListed(after: seq<string>, before: seq<string>, o: Observation, cfg: Config, all: seq<KubeService>,
                          pools: seq<IpPools.Pool>, parseIP: string -> Option<nat>, parse: string -> Option<Block>,
                          t: KubeService, ip: string)
    requires ListsObserved(after, before, o, cfg) && FromServices(o, all)
    requires FromPools(o, ServicesOf(Entries(all)), pools, parseIP, parse)
    requires t in all && t.Address(ip) && ':' !in ip
    requires PeersAgree(o.peers) && forall q :: q in o.peers ==> Name(q.name) && Name(q.ns)
    ensures NotInPool(t.name, t.ns).Render() in after <==> !InPool(pools, ip, parseIP, parse)
  {
    var entries, e, svc := Entries(all), Entry(t.name, t.ns, ip), BgpConfig.Service.Service(t.name, t.ns, ip);
    AddressIff(t, ip);
    EntryMembers(all, e);
    EntryParses(t, ip);
    var i :| 0 <= i < |entries| && entries[i] == e;
    assert ServicesOf(entries)[i] == svc && o.live[i] == t.name;
    assert svc in ServicesOf(entries) && t.name in o.live;
    PoolListed(after, before, o, cfg, ServicesOf(entries), pools, parseIP, parse, svc);
  }

  // ----- advertisements

  /** Of the pool of a service, the advertisement that answers for it is listed iff it has
      no peers. */
  lemma AdvertisementListed(after: seq<string>, before: seq<string>, o: Observation, cfg: Config, p: Peer,
                            advs: seq<BgpConfig.Advertisement>, pools: seq<IpPools.Pool>, k: int)
    requires ListsObserved(after, before, o, cfg) && FromPeers(o, advs, pools)
    requires p in o.peers && HasPool(p) && Answers(advs, pools, p.pool, k)
    requires AdsAgree(o.ads) && forall b :: b in o.ads ==> NamedAd(b)
    ensures NoPeers(advs[k].name).Render() in after <==> advs[k].peers.None?
  {
    AdRecords(o.peers, advs, pools, p, k);
    AdListed(after, before, o, cfg, Ad(p.name, p.ns, p.pool, true, advs[k].name, advs[k].peers));
  }

  // ----- worker nodes

  /** A next hop that a running speaker names, with a session, is listed as not established
      iff the session is neither established nor active. */
  lemma SessionListed(after: seq<string>, before: seq<string>, o: Observation, cfg: Config, nodes: seq<NodeAnswer>,
                      n: NodeAnswer, entry: string, session: Session)
    requires ListsObserved(after, before, o, cfg) && FromWalk(o, nodes) && !WalkAll(nodes).over
    requires n in nodes && n.speaker.Some? && n.entries.Done? && entry in n.entries.value
    requires n.session(H.AddressOf(entry)) == Some(session) && session.remoteAs != 0
    requires HopsAgree(o.hops, false) && forall g :: g in o.hops ==> Name(g.ip) && Name(g.node)
    ensures NotEstablished(H.AddressOf(entry), n.node).Render() in after <==>
              session.state != "Established" && session.state != "Active"
    ensures BadBfd(H.AddressOf(entry), n.node).Render() in after <==>
              && session.bfd != "" && session.bfd != "Up"
              && (!cfg.ignoreBfd || BadBfd(H.AddressOf(entry), n.node).Render() in before)
  {
    var h := Hop(n.node, H.AddressOf(entry), true, session.state, session.bfd);
    assert h in HopOf(n, entry) && HasSession(n, h);
    RecordsOfWalk(nodes, h);
    HopListed(after, before, o, cfg, h);
    BfdListed(after, before, o, cfg, h);
  }

  /** A speaker that could be asked is listed without hops iff it names none and that is
      not ignored, or it names none, that is ignored, and it was listed. */
  lemma SpeakerHopsListed(after: seq<string>, before: seq<string>, o: Observation, cfg: Config,
                          nodes: seq<NodeAnswer>, k: nat)
    requires ListsObserved(after, before, o, cfg) && FromWalk(o, nodes) && k < |o.workers| && k < |nodes|
    requires DistinctNodes(o.workers) && NamedWorkers(o.workers, cfg)
    requires nodes[k].speaker.Some? && nodes[k].entries.Done?
    ensures var m := NoHops(nodes[k].speaker.value, nodes[k].node).Render();
            m in after <==> nodes[k].entries.value == [] && (!cfg.ignoreNoHop || m in before)
  {
    WorkersOfWalk(nodes);
    assert Visited(o.workers[k], nodes[k]);
    HopsListed(after, before, o, cfg, k);
  }

  /** A visited node the clean-up of neighbors does not look at is listed without a speaker
      iff none runs there and the daemonset is short of pods, or none runs and it was
      listed. */
  lemma NodeListed(after: seq<string>, before: seq<string>, o: Observation, cfg: Config, nodes: seq<NodeAnswer>,
                   k: nat)
    requires ListsObserved(after, before, o, cfg) && FromWalk(o, nodes) && k < |o.workers| && k < |nodes|
    requires DistinctNodes(o.workers) && NamedWorkers(o.workers, cfg) && LastLook(o.neighbors, nodes[k].node).None?
    ensures var m := NoSpeaker(nodes[k].node, cfg.metalNs).Render();
            m in after <==> nodes[k].speaker.None? && (nodes[k].daemonset == Some(false) || m in before)
  {
    WorkersOfWalk(nodes);
    assert Visited(o.workers[k], nodes[k]);
    SpeakerListed(after, before, o, cfg, k);
  }

  // ----- endpoints

  /** When every service can be read, one is listed for a pod that is not running iff a
      service of its name has one, or it was listed and some service has one. */
  lemma PodsListed(after: seq<string>, before: seq<string>, o: Observation, cfg: Config, services: seq<Service>,
                   api: Api, s: Service)
    requires ListsObserved(after, before, o, cfg) && o.services == ReadRecords(services, api)
    requires AllReadable(services, api) && s in services
    requires forall t :: t in services ==> Name(t.name) && Name(t.ns)
    ensures var m := PodNotRunning(s.name, s.ns).Render();
            m in after <==>
              || (exists t :: t in services && t.name == s.name && HasDownPod(t, api))
              || (m in before && exists t :: t in services && HasDownPod(t, api))
  {
    RecordsMember(services, api, Record(s, api));
    ByEndpoints(after, before, o, cfg, s.name, s.ns);
    DownInCluster(Alone(PodNotRunning(s.name, s.ns), before), services, api, s);
  }

  // ----- routes

  /** The route records and the nodes probed are those of a walk over the endpoints. */
  ghost predicate FromRoutes(o: Observation, services: seq<R.Balanced>) {
    var w := R.WalkLooks(R.Looks(services));
    o.probes == w.probes && o.routes == w.routes && o.routesPanic == w.panicked
  }

  /** When every table can be read, the route to a service's address is listed as not
      advertised by a speaker iff the speaker's table does not list it, and as not the best
      iff the table does not mark it so. */
  lemma TableRouteListed(after: seq<string>, before: seq<string>, o: Observation, cfg: Config,
                         services: seq<R.Balanced>, l: R.Look, pod: string, text: string)
    requires ListsObserved(after, before, o, cfg) && FromRoutes(o, services)
    requires l in R.Looks(services) && l.visit.speaker == Some(pod) && l.visit.table == Some(text)
    requires forall x :: x in R.Looks(services) ==> !R.Cuts(x)
    requires RoutesAgree(o.routes) && forall q :: q in o.routes ==> NamedRouteRecord(q)
    ensures var lines, route := Split(text, '\n'), l.svc.lbip + "/32";
            && (RouteNotAdvertised(l.svc.name, l.svc.lbip, pod, l.visit.node).Render() in after <==>
                  !H.RouteListed(lines, route, false))
            && (RouteNotBest(l.svc.name, l.svc.lbip, l.svc.ns, pod, l.visit.node).Render() in after <==>
                  !H.RouteListed(lines, route, true))
  {
    var found := H.RouteIn(l.visit.table, l.svc.lbip).value;
    var r := R.RouteOf(l, pod, found);
    H.TableMeaning(Split(text, '\n'), l.svc.lbip + "/32");
    assert R.Answers(l, r);
    R.RoutesOfWalk(R.Looks(services), r);
    RouteListed(after, before, o, cfg, r);
    BestRouteListed(after, before, o, cfg, r);
  }

  lemma {:induction false} LastProbeAt(ps: seq<Probe>, k: nat)
    requires k < |ps| && forall j :: k < j < |ps| ==> ps[j].node != ps[k].node
    ensures LastProbe(ps, ps[k].node) == Some(ps[k].running)
  {
    if k < |ps| - 1 { LastProbeAt(ps[..|ps| - 1], k); }
  }

  /** An endpoint's node is listed without a running speaker iff none ran when the walk last
      came to it. */
  lemma EndpointNodeListed(after: seq<string>, before: seq<string>, o: Observation, cfg: Config,
                           services: seq<R.Balanced>, k: nat)
    requires ListsObserved(after, before, o, cfg) && FromRoutes(o, services) && k < |o.probes|
    requires k < |R.Looks(services)| && forall j :: k < j < |o.probes| ==> o.probes[j].node != o.probes[k].node
    requires Name(cfg.metalNs) && forall p :: p in o.probes ==> Name(p.node)
    ensures var v := R.Looks(services)[k].visit;
            NoRunningSpeaker(v.node, cfg.metalNs).Render() in after <==> v.speaker.None?
  {
    R.RoutesOfWalk(R.Looks(services), MetallbPhases.Route.Route("", "", "", "", "", false, false));
    assert o.probes[k] in o.probes;
    LastProbeAt(o.probes, k);
    ProbeListed(after, before, o, cfg, o.probes[k].node);
  }
}
