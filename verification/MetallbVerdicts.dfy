/** What a completed scan lists about each hop, route, service and node it observed. */
module MetallbVerdicts {
  import opened StatusLists
  import opened FailureMessages
  import opened StaleServices
  import opened BgpConfig
  import opened LoadBalancers
  import opened MetallbPhases
  import opened MetallbScan
  import opened MetallbEntries
  import opened MetallbSchedules
  import opened MetallbSpeakers
  import opened MetallbOutcome
  import opened SvcEndPoints

  /** An elapsed scan, as scheduled, that reaches its last clean-up with at most one stale
      failure. */
  ghost predicate Elapsed(l: Lists, run: seq<ScanStep>, o: Observation, cfg: Config) {
    && Clean(l) && Observed(o, cfg) && Agreeing(o, cfg)
    && Scheduled(run, PlainSteps(o, cfg, false)) && RunSteps(l, run, cfg, false).Going?
    && (o.live == [] || OneStale(RunSteps(l, run, cfg, false).lists.failed, o.live))
  }

  /** The clean-up finds the service of the failure gone. */
  predicate Forgotten(f: Failure, o: Observation) {
    o.live != [] && NamesMissingService(f, o.live)
  }

  /** The failure's final verdict is to list it, and its service is not gone. */
  ghost predicate Observes(f: Failure, before: seq<string>, o: Observation, cfg: Config) {
    FinalVerdict(f, f.Render() in before, o, cfg) && !Forgotten(f, o)
  }

  /** The failures `after` the scan: those whose final verdict says so, from whether they
      were listed `before`, and whose service is not gone. */
  ghost predicate ListsObserved(after: seq<string>, before: seq<string>, o: Observation, cfg: Config) {
    forall f: Failure {:trigger Observes(f, before, o, cfg)} :: f.WellNamed() && !f.McpUpdating? ==>
      (f.Render() in after <==> Observes(f, before, o, cfg))
  }

  /** Such a scan completes, and what it lists is what it observed. */
  lemma ElapsedOutcome(l: Lists, run: seq<ScanStep>, o: Observation, cfg: Config)
    requires Elapsed(l, run, o, cfg)
    ensures var all := run + [DeletedServices(o.live)];
            && Scheduled(all, ScanSteps(o, cfg, false)) && RunSteps(l, all, cfg, false).Going?
            && ListsObserved(RunSteps(l, all, cfg, false).lists.failed, l.failed, o, cfg)
  {
    ElapsedOrderly(o, cfg);
    ScanEnd(o, cfg, false);
    var r := RunSteps(l, run + [DeletedServices(o.live)], cfg, false);
    forall f: Failure | f.WellNamed() && !f.McpUpdating?
      ensures r.Going? && (f.Render() in r.lists.failed <==> Observes(f, l.failed, o, cfg))
    {
      ElapsedScanLists(l, run, o, cfg, f);
    }
    assert r.Going? by {
      AdvertisementNamed("");
      assert NoPeers("").WellNamed();
    }
  }

  /** The failure on its own, if it was listed. */
  function Alone(f: Failure, before: seq<string>): seq<string> {
    if f.Render() in before then [f.Render()] else []
  }

  lemma ByPhase(after: seq<string>, before: seq<string>, o: Observation, cfg: Config, f: Failure, bodies: seq<Body>)
    requires ListsObserved(after, before, o, cfg) && f.WellNamed() && !f.McpUpdating? && LookedAt(f, o, cfg).None?
    requires StepOf(f, o, cfg, false) == Bodies(bodies)
    ensures f.Render() in after <==> f.Render() in Run(Alone(f, before), PhaseOps(bodies, false)) && !Forgotten(f, o)
  {
    assert f.Render() in after <==> Observes(f, before, o, cfg);
    TouchAllFailed(Lists(Alone(f, before), []), PhaseOps(bodies, false), cfg.notify, cfg.incident);
  }

  lemma ByLoop(after: seq<string>, before: seq<string>, o: Observation, cfg: Config, f: Failure,
               ops: seq<Op<Failure>>, notify: bool)
    requires ListsObserved(after, before, o, cfg) && f.WellNamed() && !f.McpUpdating? && LookedAt(f, o, cfg).None?
    requires StepOf(f, o, cfg, false) == Loop(ops, notify)
    ensures f.Render() in after <==> f.Render() in Run(Alone(f, before), RenderOps(ops)) && !Forgotten(f, o)
  {
    assert f.Render() in after <==> Observes(f, before, o, cfg);
    TouchAllFailed(Lists(Alone(f, before), []), RenderOps(ops), notify && cfg.notify, cfg.incident);
  }

  /** A hop is listed as not established iff its state says so. */
  lemma HopListed(after: seq<string>, before: seq<string>, o: Observation, cfg: Config, h: Hop)
    requires ListsObserved(after, before, o, cfg) && h in o.hops
    requires HopsAgree(o.hops, false) && forall g :: g in o.hops ==> Name(g.ip) && Name(g.node)
    ensures NotEstablished(h.ip, h.node).Render() in after <==> !Up(h)
  {
    var f := NotEstablished(h.ip, h.node);
    HopNamed(h.ip, h.node);
    ByPhase(after, before, o, cfg, f, HopBodies(o.hops, cfg.ignoreBfd));
    HopPhase(Alone(f, before), o.hops, cfg.ignoreBfd, h);
  }

  /** It is listed for BFD iff its session is bad and not ignored, or ignored and listed
      before. */
  lemma BfdListed(after: seq<string>, before: seq<string>, o: Observation, cfg: Config, h: Hop)
    requires ListsObserved(after, before, o, cfg) && h in o.hops
    requires HopsAgree(o.hops, false) && forall g :: g in o.hops ==> Name(g.ip) && Name(g.node)
    ensures BadBfd(h.ip, h.node).Render() in after <==>
              BfdBad(h) && (!cfg.ignoreBfd || BadBfd(h.ip, h.node).Render() in before)
  {
    var f := BadBfd(h.ip, h.node);
    HopNamed(h.ip, h.node);
    ByPhase(after, before, o, cfg, f, HopBodies(o.hops, cfg.ignoreBfd));
    HopPhase(Alone(f, before), o.hops, cfg.ignoreBfd, h);
  }

  /** A route is listed as not advertised iff it is not. */
  lemma RouteListed(after: seq<string>, before: seq<string>, o: Observation, cfg: Config, r: Route)
    requires ListsObserved(after, before, o, cfg) && r in o.routes
    requires RoutesAgree(o.routes) && forall q :: q in o.routes ==> NamedRouteRecord(q)
    ensures RouteNotAdvertised(r.svc, r.ip, r.pod, r.node).Render() in after <==> !r.advertised
  {
    var f := RouteNotAdvertised(r.svc, r.ip, r.pod, r.node);
    RouteNamed(r.svc, r.ip, r.ns, r.pod, r.node);
    ByPhase(after, before, o, cfg, f, RouteBodies(o.routes));
    RoutePhase(Alone(f, before), o.routes, r);
  }

  /** It is listed as not the best iff it is not. */
  lemma BestRouteListed(after: seq<string>, before: seq<string>, o: Observation, cfg: Config, r: Route)
    requires ListsObserved(after, before, o, cfg) && r in o.routes
    requires RoutesAgree(o.routes) && forall q :: q in o.routes ==> NamedRouteRecord(q)
    ensures RouteNotBest(r.svc, r.ip, r.ns, r.pod, r.node).Render() in after <==> !r.validBest
  {
    var f := RouteNotBest(r.svc, r.ip, r.ns, r.pod, r.node);
    RouteNamed(r.svc, r.ip, r.ns, r.pod, r.node);
    ByPhase(after, before, o, cfg, f, RouteBodies(o.routes));
    RoutePhase(Alone(f, before), o.routes, r);
  }

  /** A service is listed as in no pool iff it is in none and still there. */
  lemma PeerListed(after: seq<string>, before: seq<string>, o: Observation, cfg: Config, p: Peer)
    requires ListsObserved(after, before, o, cfg) && p in o.peers
    requires PeersAgree(o.peers) && forall q :: q in o.peers ==> Name(q.name) && Name(q.ns)
    ensures NotInPool(p.name, p.ns).Render() in after <==> !p.conPool && (o.live == [] || p.name in o.live)
  {
    var f := NotInPool(p.name, p.ns);
    ServiceNamed(p.name, p.ns);
    ByPhase(after, before, o, cfg, f, PeerBodies(o.peers));
    PeerPhase(Alone(f, before), o.peers, p);
  }

  /** An advertisement is listed without peers iff it has none. */
  lemma AdListed(after: seq<string>, before: seq<string>, o: Observation, cfg: Config, a: Ad)
    requires ListsObserved(after, before, o, cfg) && a in o.ads && a.advName != ""
    requires AdsAgree(o.ads) && forall b :: b in o.ads ==> NamedAd(b)
    ensures NoPeers(a.advName).Render() in after <==> a.peers.None?
  {
    var f := NoPeers(a.advName);
    AdvertisementNamed(a.advName);
    ByPhase(after, before, o, cfg, f, AdBodies(o.ads));
    AdPhase(Alone(f, before), o.ads, a);
  }

  ghost predicate SomePodDown(services: seq<LbService>) {
    exists t :: t in services && false in t.running
  }

  ghost predicate SomeUntargeted(services: seq<LbService>) {
    exists t :: t in services && !t.hasTargets
  }

  lemma EndpointAlone(services: seq<LbService>, s: LbService, before: seq<string>)
    requires s in services && NamedServices(services)
    ensures var f := PodNotRunning(s.name, s.ns);
            f.Render() in Run(Alone(f, before), PhaseOps(EndpointBodies(services, false), false)) <==>
              SomeDown(services, s.name) || (f.Render() in before && SomePodDown(services))
  {
    EndpointPhase(Alone(PodNotRunning(s.name, s.ns), before), services, s);
  }

  lemma TargetAlone(services: seq<LbService>, s: LbService, before: seq<string>)
    requires s in services && NamedServices(services)
    ensures var f := NoTargetPods(s.name, s.ns);
            f.Render() in Run(Alone(f, before), PhaseOps(TargetBodies(services, false), false)) <==>
              SomeMissing(services, s.name) || (f.Render() in before && SomeUntargeted(services))
  {
    TargetPhase(Alone(NoTargetPods(s.name, s.ns), before), services, s);
  }

  lemma ByEndpoints(after: seq<string>, before: seq<string>, o: Observation, cfg: Config, svc: string, ns: string)
    requires ListsObserved(after, before, o, cfg) && Name(svc) && Name(ns)
    ensures var f := PodNotRunning(svc, ns);
            f.Render() in after <==>
              f.Render() in Run(Alone(f, before), PhaseOps(EndpointBodies(o.services, false), false))
  {
    ServiceNamed(svc, ns);
    ByPhase(after, before, o, cfg, PodNotRunning(svc, ns), EndpointBodies(o.services, false));
  }

  /** A service is listed as having a pod that is not running iff one of its name has, or
      it was listed and some service has one. */
  lemma DownListed(after: seq<string>, before: seq<string>, o: Observation, cfg: Config, s: LbService)
    requires ListsObserved(after, before, o, cfg) && s in o.services && NamedServices(o.services)
    ensures var m := PodNotRunning(s.name, s.ns).Render();
            m in after <==> SomeDown(o.services, s.name) || (m in before && SomePodDown(o.services))
  {
    ByEndpoints(after, before, o, cfg, s.name, s.ns);
    EndpointAlone(o.services, s, before);
  }

  lemma ByTargets(after: seq<string>, before: seq<string>, o: Observation, cfg: Config, svc: string, ns: string)
    requires ListsObserved(after, before, o, cfg) && Name(svc) && Name(ns)
    ensures var f := NoTargetPods(svc, ns);
            f.Render() in after <==>
              (o.live == [] || svc in o.live) &&
              f.Render() in Run(Alone(f, before), PhaseOps(TargetBodies(o.services, false), false))
  {
    ServiceNamed(svc, ns);
    ByPhase(after, before, o, cfg, NoTargetPods(svc, ns), TargetBodies(o.services, false));
  }

  /** The same for target pods, while the service is still there. */
  lemma MissingListed(after: seq<string>, before: seq<string>, o: Observation, cfg: Config, s: LbService)
    requires ListsObserved(after, before, o, cfg) && s in o.services && NamedServices(o.services)
    ensures var m := NoTargetPods(s.name, s.ns).Render();
            m in after <==> (o.live == [] || s.name in o.live) &&
                            (SomeMissing(o.services, s.name) || (m in before && SomeUntargeted(o.services)))
  {
    ByTargets(after, before, o, cfg, s.name, s.ns);
    TargetAlone(o.services, s, before);
  }

  /** A speaker is listed without hops iff none were found and that is not ignored, or the
      search failed or is ignored and it was listed. */
  lemma HopsListed(after: seq<string>, before: seq<string>, o: Observation, cfg: Config, k: nat)
    requires ListsObserved(after, before, o, cfg) && k < |o.workers| && o.workers[k].speaker.Some?
    requires DistinctNodes(o.workers) && NamedWorkers(o.workers, cfg)
    ensures var w := o.workers[k];
            var m := NoHops(w.speaker.value, w.node).Render();
            m in after <==> if w.hops.None? || (!w.hops.value && cfg.ignoreNoHop) then m in before else !w.hops.value
  {
    var w := o.workers[k];
    assert w in o.workers;
    var f := NoHops(w.speaker.value, w.node);
    assert f.Render() in after <==> f.Render() in Run(Alone(f, before), RenderOps(WorkersOps(o.workers, cfg))) by {
      NodeNamed(w.speaker.value, w.node);
      ByLoop(after, before, o, cfg, f, WorkersOps(o.workers, cfg), false);
    }
    WorkerPhase(Alone(f, before), o.workers, cfg, k);
  }

  /** A node is listed without a speaker iff the clean-up of neighbors found none there at
      its last look; when it did not look, iff the node has none and the daemonset is short
      of pods, or has none and was listed. */
  lemma SpeakerListed(after: seq<string>, before: seq<string>, o: Observation, cfg: Config, k: nat)
    requires ListsObserved(after, before, o, cfg) && k < |o.workers|
    requires DistinctNodes(o.workers) && NamedWorkers(o.workers, cfg)
    ensures var w := o.workers[k];
            var m := NoSpeaker(w.node, cfg.metalNs).Render();
            m in after <==> match LastLook(o.neighbors, w.node)
                            case Some(missing) => missing
                            case None => w.speaker.None? && (w.daemonset == Some(false) || m in before)
  {
    var w := o.workers[k];
    assert w in o.workers;
    var f := NoSpeaker(w.node, cfg.metalNs);
    NodeNamed(w.node, cfg.metalNs);
    if LastLook(o.neighbors, w.node).None? {
      ByLoop(after, before, o, cfg, f, WorkersOps(o.workers, cfg), false);
      WorkerPhase(Alone(f, before), o.workers, cfg, k);
    } else {
      assert f.Render() in after <==> Observes(f, before, o, cfg);
    }
  }

  /** A node is listed without a running speaker iff its last probe found none, or it was
      not probed and was listed. */
  lemma ProbeListed(after: seq<string>, before: seq<string>, o: Observation, cfg: Config, node: string)
    requires ListsObserved(after, before, o, cfg) && Name(node)
    requires Name(cfg.metalNs) && forall p :: p in o.probes ==> Name(p.node)
    ensures var m := NoRunningSpeaker(node, cfg.metalNs).Render();
            m in after <==> match LastProbe(o.probes, node) case None => m in before case Some(up) => !up
  {
    var f := NoRunningSpeaker(node, cfg.metalNs);
    NodeNamed(node, cfg.metalNs);
    ByLoop(after, before, o, cfg, f, ProbeOps(o.probes, cfg), false);
    ProbePhase(Alone(f, before), o.probes, cfg, node);
  }

  // ----- services without an IP

  lemma {:induction false} NoIpSaid(noIp: seq<SvcRef>, f: Failure)
    requires f.NoIp?
    ensures LastOp(NoIpOps(noIp), f) == if SvcRef(f.svc, f.ns) in noIp then Some(Add(f)) else None
  {
    if noIp != [] {
      var front, last := noIp[..|noIp| - 1], noIp[|noIp| - 1];
      assert noIp == front + [last];
      assert NoIpOps(noIp)[..|noIp| - 1] == NoIpOps(front);
      NoIpSaid(front, f);
    }
  }

  lemma NoIpLoop(s: seq<string>, noIp: seq<SvcRef>, f: Failure)
    requires NoDup(s) && f.NoIp? && f.WellNamed() && forall x :: x in noIp ==> Name(x.name) && Name(x.ns)
    ensures f.Render() in Run(s, RenderOps(NoIpOps(noIp))) <==> SvcRef(f.svc, f.ns) in noIp || f.Render() in s
  {
    forall op | op in NoIpOps(noIp) ensures op.key.WellNamed() {
      var i :| 0 <= i < |noIp| && NoIpOps(noIp)[i] == op;
      assert noIp[i] in noIp;
      ServiceNamed(noIp[i].name, noIp[i].ns);
    }
    ListedByLastOp(s, NoIpOps(noIp), f);
    NoIpSaid(noIp, f);
  }

  /** A service without an IP, recorded by this scan or listed before, is listed at its end
      iff its name is live then. */
  lemma NoIpListed(after: seq<string>, before: seq<string>, o: Observation, cfg: Config, svc: string, ns: string)
    requires ListsObserved(after, before, o, cfg) && Name(svc) && Name(ns)
    requires forall x :: x in o.noIp ==> Name(x.name) && Name(x.ns)
    ensures var m := NoIp(svc, ns).Render();
            m in after <==> (SvcRef(svc, ns) in o.noIp || m in before) && (o.live == [] || svc in o.live)
  {
    var f := NoIp(svc, ns);
    ServiceNamed(svc, ns);
    ByLoop(after, before, o, cfg, f, NoIpOps(o.noIp), true);
    NoIpLoop(Alone(f, before), o.noIp, f);
  }

  /** Nothing of the services of the cluster changes while the scan runs. */
  ghost predicate FromServices(o: Observation, all: seq<KubeService>) {
    && (forall t :: t in all ==> LoadBalancers.Plain(t))
    && o.noIp == NoIpRefs(all) && o.live == LiveNames(Entries(all))
  }

  lemma LiveAtAll(all: seq<KubeService>)
    requires forall t :: t in all ==> LoadBalancers.Plain(t)
    ensures LiveNames(Entries(all)) != [] <==> exists t :: t in all && t.HasIp()
  {
    if Entries(all) == [] {
      forall t | t in all ensures !t.HasIp() { LiveIff(all, t.name); }
    } else {
      var e := Entries(all)[0];
      assert e in Entries(all);
      EntryMembers(all, e);
      var t :| t in all && e in EntriesOf(t);
      HasIpIff(t);
    }
  }

  /** A service of the cluster without an address, which the scan therefore records, is
      listed at its end iff a service of the same name has one, or no service has. */
  lemma NoIpForgotten(after: seq<string>, before: seq<string>, o: Observation, cfg: Config, all: seq<KubeService>,
                      s: KubeService)
    requires ListsObserved(after, before, o, cfg) && Name(s.name) && Name(s.ns)
    requires forall x :: x in o.noIp ==> Name(x.name) && Name(x.ns)
    requires FromServices(o, all) && s in all && s.WithoutIp()
    ensures NoIp(s.name, s.ns).Render() in after <==>
              || (exists t :: t in all && t.HasIp() && t.name == s.name)
              || !exists t :: t in all && t.HasIp()
  {
    NoIpRefIff(all, s.name, s.ns);
    NoIpListed(after, before, o, cfg, s.name, s.ns);
    LiveIff(all, s.name);
    LiveAtAll(all);
  }

  // ----- the first scan

  /** Kinds a walk over nodes clears even in a first scan. */
  predicate WalkKind(f: Failure) {
    f.NoSpeaker? || f.NoHops? || f.NoRunningSpeaker?
  }

  lemma FirstBodiesSay(bodies: seq<Body>, f: Failure)
    ensures SaidByBodies(bodies, f, true) ==
              if exists b :: b in bodies && Add(f) in BodyOps(b, true) then Some(true) else None
  {
    forall b | b in bodies ensures Drop(f) !in BodyOps(b, true) { FirstScanAdds(b); }
  }

  lemma FirstOwnSays(o: Observation, cfg: Config, f: Failure)
    requires !f.McpUpdating? && !WalkKind(f) && Orderly(StepOf(f, o, cfg, true), cfg, true)
    ensures var own := StepOf(f, o, cfg, true);
            Says(own, f, cfg, true) == if Adds(own, f, cfg, true) then Some(true) else None
  {
    var own := StepOf(f, o, cfg, true);
    match own
    case Bodies(bodies) => FirstBodiesSay(bodies, f);
    case Loop(_, _) =>
      LastOpSound(NoIpOps(o.noIp), f);
      NoIpSaid(o.noIp, f);
    case _ =>
  }

  lemma AddsAbout(o: Observation, cfg: Config, step: ScanStep, f: Failure)
    requires step in ScanSteps(o, cfg, true) && !f.McpUpdating? && Adds(step, f, cfg, true)
    ensures step == StepOf(f, o, cfg, true)
  {
    StepsMarkerQuiet(o, cfg, true);
    assert Add(f).key == f;
    if step.Bodies? {
      var b :| b in step.bodies && Add(f) in BodyOps(b, true);
      BodyKeys(b, true, Add(f));
    }
    assert StepAbout(step, f);
    AboutOwn(o, cfg, true, step, f);
  }

  /** A first scan that completes lists what was listed and everything its observation
      records, and nothing else; the three kinds of the walks over nodes aside, which it
      also clears. */
  lemma FirstScanRecords(l: Lists, run: seq<ScanStep>, o: Observation, cfg: Config, f: Failure)
    requires Clean(l) && Observed(o, cfg) && f.WellNamed() && !f.McpUpdating? && !WalkKind(f)
    requires Scheduled(run, ScanSteps(o, cfg, true)) && RunSteps(l, run, cfg, true).Going?
    ensures f.Render() in RunSteps(l, run, cfg, true).lists.failed <==>
              f.Render() in l.failed || exists step :: step in ScanSteps(o, cfg, true) && Adds(step, f, cfg, true)
  {
    var own := StepOf(f, o, cfg, true);
    FirstOrderly(o, cfg);
    ScanEnd(o, cfg, true);
    OwnStepThere(o, cfg, true, f);
    FirstOwnSays(o, cfg, f);
    ScanLists(l, run, o, cfg, true, f);
    StepTells(Lists(Alone(f, l.failed), []), own, cfg, true, f);
    if step :| step in ScanSteps(o, cfg, true) && Adds(step, f, cfg, true) { AddsAbout(o, cfg, step, f); }
  }
}
