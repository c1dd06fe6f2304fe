/** When an elapsed scan ends Healthy, and what it has then forgotten. */
module MetallbHealth {
  import opened StatusLists
  import opened FailureMessages
  import opened StaleServices
  import opened GoStrings
  import opened BgpConfig
  import H = HopScanners
  import opened HopRecords
  import opened LoadBalancers
  import opened MetallbPhases
  import opened MetallbScan
  import opened MetallbRuns
  import opened MetallbEntries
  import opened MetallbSchedules
  import opened MetallbOutcome
  import opened MetallbVerdicts
  import opened MetallbStops
  import opened ScheduleVerdicts

  // ----- the verdict, from what was observed

  lemma PrintedAtEnd(l: Lists, all: seq<ScanStep>, o: Observation, cfg: Config)
    requires Clean(l) && Printed(l.failed) && Observed(o, cfg) && Scheduled(all, ScanSteps(o, cfg, false))
    ensures Printed(RunSteps(l, all, cfg, false).lists.failed)
  {
    forall step | step in all ensures AddsRecordable(step, cfg, false) { ScheduledAdds(o, cfg, false, all, step); }
    ScanPrinted(l, all, cfg, false);
  }

  /** Nothing the scan observed is listed at its end. */
  ghost predicate NothingObserved(before: seq<string>, o: Observation, cfg: Config) {
    forall f: Failure {:trigger Observes(f, before, o, cfg)} :: Recordable(f) && !f.McpUpdating? ==>
      !Observes(f, before, o, cfg)
  }

  lemma EmptyIff(after: seq<string>, before: seq<string>, o: Observation, cfg: Config)
    requires ListsObserved(after, before, o, cfg) && Printed(after) && McpUpdating.Render() !in after
    ensures after == [] <==> NothingObserved(before, o, cfg)
  {
    if after == [] {
      forall f: Failure | Recordable(f) && !f.McpUpdating? ensures !Observes(f, before, o, cfg) {
        assert f.Render() in after <==> Observes(f, before, o, cfg);
      }
    } else {
      assert after[0] in after;
      var f: Failure :| Recordable(f) && after[0] == f.Render();
      assert f.Render() in after <==> Observes(f, before, o, cfg);
    }
  }

  /** An elapsed scan with at most one stale failure ends Healthy if and only if nothing it
      observed is to be listed, failures of services that are gone aside. */
  lemma ElapsedHealthyIff(s: MetallbScan.Status, i: Input, run: seq<ScanStep>)
    requires Scans(s, i) && s.lastRun.Some? && Printed(s.lists.failed) && Elapsed(s.lists, run, i.obs, i.cfg)
    ensures Reconcile(s, i, run + [DeletedServices(i.obs.live)]).healthy <==>
              NothingObserved(s.lists.failed, i.obs, i.cfg)
  {
    var all := run + [DeletedServices(i.obs.live)];
    ElapsedOutcome(s.lists, run, i.obs, i.cfg);
    PrintedAtEnd(s.lists, all, i.obs, i.cfg);
    UpdateMarker(s.lists, all, i.obs, i.cfg, false);
    EmptyIff(RunSteps(s.lists, all, i.cfg, false).lists.failed, s.lists.failed, i.obs, i.cfg);
    CompletedVerdict(s, Turn(i, all));
  }

  // ----- all is well but for one service

  /** Whatever else can be recorded, nothing of it is to be listed. */
  ghost predicate OnlyListed(g: Failure, before: seq<string>, o: Observation, cfg: Config) {
    forall f: Failure {:trigger FinalVerdict(f, f.Render() in before, o, cfg)} ::
      Recordable(f) && !f.McpUpdating? && f != g ==> !FinalVerdict(f, f.Render() in before, o, cfg)
  }

  lemma PrintedBeforeCleanup(l: Lists, run: seq<ScanStep>, o: Observation, cfg: Config)
    requires Clean(l) && Printed(l.failed) && Observed(o, cfg) && Scheduled(run, PlainSteps(o, cfg, false))
    ensures Printed(RunSteps(l, run, cfg, false).lists.failed)
  {
    var all := run + [DeletedServices(o.live)];
    ScanEnd(o, cfg, false);
    forall step | step in run ensures AddsRecordable(step, cfg, false) {
      assert step in all;
      ScheduledAdds(o, cfg, false, all, step);
    }
    ScanPrinted(l, run, cfg, false);
  }

  lemma StaleKind(f: Failure, live: seq<string>)
    requires f.WellNamed() && IsStale(f.Render(), live)
    ensures !f.McpUpdating?
  {
    StaleMeaning(f, live);
  }

  lemma ListedIsIt(l: Lists, run: seq<ScanStep>, o: Observation, cfg: Config, g: Failure, f: Failure)
    requires Clean(l) && Observed(o, cfg) && Agreeing(o, cfg)
    requires Scheduled(run, PlainSteps(o, cfg, false)) && RunSteps(l, run, cfg, false).Going?
    requires OnlyListed(g, l.failed, o, cfg) && Recordable(f) && !f.McpUpdating?
    requires f.Render() in RunSteps(l, run, cfg, false).lists.failed
    ensures f == g
  {
    ElapsedOrderly(o, cfg);
    FinalLists(l, run, o, cfg, f);
  }

  /** What is stale before the last clean-up is the one failure. */
  lemma StaleIsIt(l: Lists, run: seq<ScanStep>, o: Observation, cfg: Config, g: Failure, m: string)
    requires Clean(l) && Printed(l.failed) && Observed(o, cfg) && Agreeing(o, cfg)
    requires Scheduled(run, PlainSteps(o, cfg, false)) && RunSteps(l, run, cfg, false).Going?
    requires OnlyListed(g, l.failed, o, cfg)
    requires m in RunSteps(l, run, cfg, false).lists.failed && IsStale(m, o.live)
    ensures m == g.Render()
  {
    PrintedBeforeCleanup(l, run, o, cfg);
    var f: Failure :| Recordable(f) && m == f.Render();
    StaleKind(f, o.live);
    ListedIsIt(l, run, o, cfg, g, f);
  }

  /** So such a scan is one with at most one stale failure. */
  lemma AtMostOneStale(l: Lists, run: seq<ScanStep>, o: Observation, cfg: Config, g: Failure)
    requires Clean(l) && Printed(l.failed) && Observed(o, cfg) && Agreeing(o, cfg) && Unstopped(o, false)
    requires Scheduled(run, PlainSteps(o, cfg, false)) && OnlyListed(g, l.failed, o, cfg)
    ensures Elapsed(l, run, o, cfg)
  {
    ReachesEndIff(l, run, o, cfg, false);
    RunStepsClean(l, run, cfg, false);
    var m := RunSteps(l, run, cfg, false).lists.failed;
    forall x | x in m && IsStale(x, o.live) ensures x == g.Render() { StaleIsIt(l, run, o, cfg, g, x); }
    assert OneStale(m, o.live);
  }

  /** Nothing stops the scan, and of all that can be listed only the failure of a service
      that is gone is to be: every schedule ends Healthy. */
  lemma HealthyWithGone(s: MetallbScan.Status, i: Input, run: seq<ScanStep>, g: Failure)
    requires Scans(s, i) && s.lastRun.Some? && Clean(s.lists) && Printed(s.lists.failed)
    requires Observed(i.obs, i.cfg) && Agreeing(i.obs, i.cfg) && Unstopped(i.obs, false)
    requires Scheduled(run, PlainSteps(i.obs, i.cfg, false)) && OnlyListed(g, s.lists.failed, i.obs, i.cfg)
    requires Forgotten(g, i.obs)
    ensures Reconcile(s, i, run + [DeletedServices(i.obs.live)]).healthy
  {
    AtMostOneStale(s.lists, run, i.obs, i.cfg, g);
    forall f: Failure | Recordable(f) && !f.McpUpdating? ensures !Observes(f, s.lists.failed, i.obs, i.cfg) {
    }
    ElapsedHealthyIff(s, i, run);
  }

  lemma NoIpVerdict(o: Observation, cfg: Config, before: bool, x: SvcRef)
    requires Name(x.name) && Name(x.ns) && forall y :: y in o.noIp ==> Name(y.name) && Name(y.ns)
    ensures FinalVerdict(NoIp(x.name, x.ns), before, o, cfg) <==> x in o.noIp || before
  {
    var f := NoIp(x.name, x.ns);
    var alone := if before then [f.Render()] else [];
    ServiceNamed(x.name, x.ns);
    TouchAllFailed(Lists(alone, []), RenderOps(NoIpOps(o.noIp)), cfg.notify, cfg.incident);
    NoIpLoop(alone, o.noIp, f);
  }

  /** A load balancer service has no address, nor has another of its name, and some other
      service has one.  The scan records it; if nothing else is to be listed, whatever was
      observed of the rest of the cluster, the scan ends Healthy all the same. */
  lemma HealthyWithoutIp(s: MetallbScan.Status, i: Input, run: seq<ScanStep>, all: seq<KubeService>, svc: KubeService)
    requires Scans(s, i) && s.lastRun.Some? && Clean(s.lists) && Printed(s.lists.failed)
    requires Observed(i.obs, i.cfg) && Agreeing(i.obs, i.cfg) && Unstopped(i.obs, false) && FromServices(i.obs, all)
    requires svc in all && svc.WithoutIp() && (exists t :: t in all && t.HasIp())
    requires !exists t :: t in all && t.HasIp() && t.name == svc.name
    requires Scheduled(run, PlainSteps(i.obs, i.cfg, false))
    requires OnlyListed(NoIp(svc.name, svc.ns), s.lists.failed, i.obs, i.cfg)
    ensures var m := RunSteps(s.lists, run, i.cfg, false);
            m.Going? && NoIp(svc.name, svc.ns).Render() in m.lists.failed
    ensures Reconcile(s, i, run + [DeletedServices(i.obs.live)]).healthy
  {
    var f, x := NoIp(svc.name, svc.ns), SvcRef(svc.name, svc.ns);
    NoIpRefIff(all, svc.name, svc.ns);
    assert x in i.obs.noIp;
    ServiceNamed(svc.name, svc.ns);
    LiveAtAll(all);
    LiveIff(all, svc.name);
    HealthyWithGone(s, i, run, f);
    NoIpVerdict(i.obs, i.cfg, f.Render() in s.lists.failed, x);
    ReachesEndIff(s.lists, run, i.obs, i.cfg, false);
    ElapsedOrderly(i.obs, i.cfg);
    FinalLists(s.lists, run, i.obs, i.cfg, f);
  }

  // ----- a cluster in which the rest is as it should be

  predicate WellHop(h: Hop) {
    Up(h) && !BfdBad(h)
  }

  /** Every service is in a pool and has running target pods, every advertisement has peers,
      every worker a speaker with hops, every session is up, and every route is advertised
      and the best. */
  ghost predicate AllWell(o: Observation) {
    && (forall p :: p in o.peers ==> p.conPool)
    && (forall a :: a in o.ads ==> NamedAd(a) && a.advertised && a.peers.Some?)
    && (forall t :: t in o.services ==> false !in t.running && t.hasTargets)
    && (forall w :: w in o.workers ==> w.speaker.Some? && w.hops == Some(true))
    && (forall h :: h in o.hops ==> WellHop(h))
    && (forall n :: n in o.neighbors ==> n.AtNode? && !n.missing)
    && (forall p :: p in o.probes ==> p.running)
    && (forall r :: r in o.routes ==> r.advertised && r.validBest)
  }

  lemma WellAgrees(o: Observation, cfg: Config)
    requires Observed(o, cfg) && AllWell(o)
    ensures Agreeing(o, cfg)
  {
    RecordsObserved(o, cfg);
  }

  lemma {:induction false} NoneDown(services: seq<LbService>)
    requires forall t :: t in services ==> false !in t.running && t.hasTargets
    ensures DownNames(services) == [] && MissingNames(services) == []
  {
    if services != [] {
      var t := services[|services| - 1];
      assert t in services;
      NoneDown(services[..|services| - 1]);
      NoneDownAt(t, |t.running|);
    }
  }

  lemma {:induction false} NoneDownAt(t: LbService, n: nat)
    requires n <= |t.running| && false !in t.running
    ensures NamePerPod(t, n) == []
  {
    if n > 0 {
      assert t.running[n - 1] in t.running;
      NoneDownAt(t, n - 1);
    }
  }

  lemma {:induction false} WorkersNeverAdd(ws: seq<Worker>, cfg: Config, f: Failure)
    requires forall w :: w in ws ==> w.speaker.Some? && w.hops == Some(true)
    ensures Add(f) !in WorkersOps(ws, cfg)
  {
    if ws != [] {
      assert ws[|ws| - 1] in ws;
      WorkersNeverAdd(ws[..|ws| - 1], cfg, f);
    }
  }

  predicate WellBody(b: Body) {
    match b
    case PeerBody(p) => p.conPool
    case AdBody(a) => a.advertised && a.peers.Some?
    case DownBody(_, _) => false
    case MissingBody(_, _) => false
    case HopBody(h, _) => WellHop(h) && h.valid
    case RouteBody(r) => r.advertised && r.validBest
    case _ => true
  }

  lemma WellBodyNeverAdds(b: Body, f: Failure)
    requires WellBody(b)
    ensures Add(f) !in BodyOps(b, false)
  {
  }

  lemma ServiceBodiesWell(services: seq<LbService>)
    requires forall t :: t in services ==> false !in t.running && t.hasTargets
    ensures forall b :: b in EndpointBodies(services, false) || b in TargetBodies(services, false) ==> WellBody(b)
  {
    NoneDown(services);
  }

  lemma RecordBodiesWell(o: Observation, cfg: Config)
    requires Observed(o, cfg) && AllWell(o)
    ensures forall b :: b in PeerBodies(o.peers) || b in AdBodies(o.ads) ==> WellBody(b)
    ensures forall b :: b in RouteBodies(o.routes) || b in HopBodies(o.hops, cfg.ignoreBfd) ==> WellBody(b)
  {
    RecordsObserved(o, cfg);
  }

  lemma OwnBodiesWell(o: Observation, cfg: Config, f: Failure)
    requires Observed(o, cfg) && AllWell(o) && StepOf(f, o, cfg, false).Bodies?
    ensures forall b :: b in StepOf(f, o, cfg, false).bodies ==> WellBody(b)
  {
    ServiceBodiesWell(o.services);
    RecordBodiesWell(o, cfg);
  }

  lemma OwnLoopWell(o: Observation, cfg: Config, f: Failure)
    requires AllWell(o) && StepOf(f, o, cfg, false).Loop? && Add(f) in StepOf(f, o, cfg, false).ops
    ensures f.NoIp? && SvcRef(f.svc, f.ns) in o.noIp
  {
    WorkersNeverAdd(o.workers, cfg, f);
    assert Add(f) !in ProbeOps(o.probes, cfg);
    var k :| 0 <= k < |NoIpOps(o.noIp)| && NoIpOps(o.noIp)[k] == Add(f);
    assert o.noIp[k] == SvcRef(f.svc, f.ns);
  }

  /** No step of the scan adds anything but services without an address. */
  lemma WellStep(o: Observation, cfg: Config, f: Failure)
    requires Observed(o, cfg) && AllWell(o) && !f.McpUpdating? && Adds(StepOf(f, o, cfg, false), f, cfg, false)
    ensures f.NoIp? && SvcRef(f.svc, f.ns) in o.noIp
  {
    var own := StepOf(f, o, cfg, false);
    match own
    case Bodies(bodies) =>
      OwnBodiesWell(o, cfg, f);
      var b :| b in bodies && Add(f) in BodyOps(b, false);
      WellBodyNeverAdds(b, f);
    case Loop(_, _) => OwnLoopWell(o, cfg, f);
  }

  /** From an empty list a failure's own step lists it only if it adds it. */
  lemma OwnAdds(o: Observation, cfg: Config, f: Failure)
    requires Observed(o, cfg) && f.WellNamed() && OwnVerdict(f, false, o, cfg, false)
    ensures Adds(StepOf(f, o, cfg, false), f, cfg, false)
  {
    var own := StepOf(f, o, cfg, false);
    ScanEnd(o, cfg, false);
    OwnStepThere(o, cfg, false, f);
    StepAdds(o, cfg, false, own);
    ListedByStep(EMPTY, own, cfg, false, f.Render());
    var g :| Adds(own, g, cfg, false) && f.Render() == g.Render();
    RenderInjective(f, g);
  }

  lemma {:induction false} NeverMissing(steps: seq<NeighborStep>, node: string)
    requires forall n :: n in steps ==> n.AtNode? && !n.missing
    ensures LastLook(steps, node) != Some(true)
  {
    if steps != [] {
      assert steps[|steps| - 1] in steps;
      NeverMissing(steps[..|steps| - 1], node);
    }
  }

  lemma OnlyNoIp(o: Observation, cfg: Config, f: Failure)
    requires Observed(o, cfg) && AllWell(o) && f.WellNamed() && !f.McpUpdating?
    requires FinalVerdict(f, false, o, cfg)
    ensures f.NoIp? && SvcRef(f.svc, f.ns) in o.noIp
  {
    if f.NoSpeaker? { NeverMissing(o.neighbors, f.node); }
    OwnAdds(o, cfg, f);
    WellStep(o, cfg, f);
  }

  /** In such a cluster, from an empty list: one service has no address, and its name is
      that of no service with one.  The scan records it and ends Healthy. */
  lemma HealthyCluster(s: MetallbScan.Status, i: Input, run: seq<ScanStep>, all: seq<KubeService>, svc: KubeService)
    requires Scans(s, i) && s.lastRun.Some? && s.lists == EMPTY
    requires Observed(i.obs, i.cfg) && AllWell(i.obs) && Unstopped(i.obs, false) && FromServices(i.obs, all)
    requires svc in all && svc.WithoutIp() && (exists t :: t in all && t.HasIp())
    requires forall t :: t in all && t.WithoutIp() ==> t.name == svc.name && t.ns == svc.ns
    requires !exists t :: t in all && t.HasIp() && t.name == svc.name
    requires Scheduled(run, PlainSteps(i.obs, i.cfg, false))
    ensures var m := RunSteps(s.lists, run, i.cfg, false);
            m.Going? && NoIp(svc.name, svc.ns).Render() in m.lists.failed
    ensures Reconcile(s, i, run + [DeletedServices(i.obs.live)]).healthy
  {
    var g := NoIp(svc.name, svc.ns);
    WellAgrees(i.obs, i.cfg);
    forall f: Failure | Recordable(f) && !f.McpUpdating? && f != g
      ensures !FinalVerdict(f, f.Render() in s.lists.failed, i.obs, i.cfg)
    {
      if FinalVerdict(f, false, i.obs, i.cfg) {
        OnlyNoIp(i.obs, i.cfg, f);
        NoIpRefIff(all, f.svc, f.ns);
      }
    }
    HealthyWithoutIp(s, i, run, all, svc);
  }

  // ----- such clusters

  /** The names in a cluster of one worker: `web` has the address `ip`, and `api` none. */
  datatype Small = Small(web: string, api: string, ns: string, ip: string, pool: string, adv: string,
                         node: string, speaker: string, hop: string)
  {
    predicate Proper() {
      && web != api && ip != "" && pool != "" && adv != ""
      && ':' !in web && ':' !in api && ':' !in ns && ':' !in hop
      && Name(web) && Name(api) && Name(ns) && Name(ip) && Name(pool) && Name(adv)
      && Name(node) && Name(speaker) && Name(hop)
    }

    function Web(): KubeService { KubeService(web, ns, true, ip, None) }

    function Api(): KubeService { KubeService(api, ns, true, "", None) }

    function Adv(): BgpConfig.Advertisement { BgpConfig.Advertisement.Advertisement(adv, [pool], [], Some([hop])) }

    function PeerOfWeb(): Peer { Peer(web, ns, pool, pool, true) }

    function Node(session: Session): NodeAnswer {
      NodeAnswer(node, true, Some(speaker), None, H.Done([hop]), _ => Some(session))
    }

    function Observed(): Observation {
      Observation(false, true, NoIpRefs([Web(), Api()]), false, [PeerOfWeb()],
                  [Ad(web, ns, pool, true, adv, Some([hop]))],
                  false, [LbService(web, ns, [true], true)],
                  false, [MetallbScan.Worker.Worker(node, Some(speaker), None, Some(true))], false,
                  [Hop(node, hop, true, "Established", "Up")], [AtNode(node, false)], false,
                  false, [Probe(node, true)], false,
                  [MetallbPhases.Route.Route(web, ns, ip, speaker, node, true, true)],
                  LiveNames(Entries([Web(), Api()])))
    }
  }

  /** A walk over one node whose only hop has a session. */
  lemma WalkOfOne(n: NodeAnswer, entry: string, session: Session)
    requires n.listed && n.speaker.Some? && n.entries == H.Done([entry])
    requires n.session(H.AddressOf(entry)) == Some(session) && session.remoteAs != 0
    ensures WalkAll([n]) ==
            Walk([MetallbScan.Worker.Worker(n.node, n.speaker, None, Some(true))],
                 [Hop(n.node, H.AddressOf(entry), true, session.state, session.bfd)], false, false)
  {
    assert [entry][..0] == [] && HopsOf(n, []) == [];
    assert HopsOf(n, [entry]) == HopOf(n, entry);
    assert [n][..0] == [] && WalkAll([n]) == Visit(WalkAll([]), n);
  }

  lemma NoColon(address: string)
    requires ':' !in address
    ensures H.AddressOf(address) == address
  {
    assert Join([address], ':') == address;
    SplitJoin([address], ':');
  }

  lemma SmallWalk(c: Small)
    requires c.Proper()
    ensures FromWalk(c.Observed(), [c.Node(Session(64512, "Established", "Up"))])
  {
    NoColon(c.hop);
    WalkOfOne(c.Node(Session(64512, "Established", "Up")), c.hop, Session(64512, "Established", "Up"));
  }

  lemma SmallAds(c: Small)
    requires c.Proper()
    ensures FromPeers(c.Observed(), [c.Adv()], [])
  {
    assert c.pool in c.Adv().pools && Names(c.Adv(), c.pool);
    assert NamingFrom([c.Adv()], c.pool, 0) == Some(Yes(c.Adv()));
    var peers := [c.PeerOfWeb()];
    assert peers[..0] == [] && Ads(peers, [c.Adv()], []) == [AdFor(peers[0], [c.Adv()], [])];
  }

  lemma SmallServices(c: Small)
    requires c.Proper()
    ensures c.Observed().noIp == [SvcRef(c.api, c.ns)] && FromServices(c.Observed(), [c.Web(), c.Api()])
  {
    OneWithout(c.Web(), c.Api());
  }

  lemma OneWithout(web: KubeService, api: KubeService)
    requires web.HasIp() && api.WithoutIp() && LoadBalancers.Plain(web) && LoadBalancers.Plain(api)
    ensures NoIpRefs([web, api]) == [SvcRef(api.name, api.ns)]
  {
    assert [web, api][..1] == [web] && [web][..0] == [];
    assert NoIpEntries([]) == [] && NoIpEntries([web]) == [];
    assert NoIpEntries([web, api]) == [api.name + ":" + api.ns];
    NoIpParses(api);
  }

  ghost predicate EarlyNamed(o: Observation) {
    && (forall x :: x in o.noIp ==> Name(x.name) && Name(x.ns))
    && (forall p :: p in o.peers ==> Name(p.name) && Name(p.ns))
    && (forall a :: a in o.ads ==> Name(a.advName))
    && (forall s :: s in o.services ==> Name(s.name) && Name(s.ns))
  }

  ghost predicate LateNamed(o: Observation) {
    && (forall w :: w in o.workers ==> Name(w.node) && (w.speaker.Some? ==> Name(w.speaker.value)))
    && (forall h :: h in o.hops ==> Name(h.ip) && Name(h.node))
    && (forall n :: n in o.neighbors && n.AtNode? ==> Name(n.node))
    && (forall p :: p in o.probes ==> Name(p.node))
    && (forall r :: r in o.routes ==> Name(r.svc) && Name(r.ip) && Name(r.ns) && Name(r.pod) && Name(r.node))
  }

  lemma ObservedOf(o: Observation, cfg: Config, nodes: seq<NodeAnswer>, advs: seq<BgpConfig.Advertisement>)
    requires Name(cfg.metalNs) && FromWalk(o, nodes) && FromPeers(o, advs, []) && EarlyNamed(o) && LateNamed(o)
    ensures Observed(o, cfg)
  {
  }

  lemma SmallEarlyNamed(c: Small)
    requires c.Proper()
    ensures EarlyNamed(c.Observed())
  {
    SmallServices(c);
  }

  lemma SmallLateNamed(c: Small)
    requires c.Proper()
    ensures LateNamed(c.Observed())
  {
  }

  lemma SmallObserved(c: Small, cfg: Config)
    requires c.Proper() && Name(cfg.metalNs)
    ensures Observed(c.Observed(), cfg)
  {
    SmallWalk(c);
    SmallAds(c);
    SmallEarlyNamed(c);
    SmallLateNamed(c);
    ObservedOf(c.Observed(), cfg, [c.Node(Session(64512, "Established", "Up"))], [c.Adv()]);
  }

  lemma SmallWell(c: Small)
    requires c.Proper()
    ensures AllWell(c.Observed()) && Unstopped(c.Observed(), false)
  {
  }

  lemma PairHealthy(s: MetallbScan.Status, i: Input, web: KubeService, api: KubeService)
    requires Scans(s, i) && s.lastRun.Some? && s.lists == EMPTY
    requires Observed(i.obs, i.cfg) && AllWell(i.obs) && Unstopped(i.obs, false) && FromServices(i.obs, [web, api])
    requires web.HasIp() && api.WithoutIp() && web.name != api.name
    ensures Reconcile(s, i, ScanSteps(i.obs, i.cfg, false)).healthy
  {
    assert web in [web, api] && api in [web, api];
    HealthyCluster(s, i, PlainSteps(i.obs, i.cfg, false), [web, api], api);
    ScanEnd(i.obs, i.cfg, false);
  }

  /** All this is met by clusters of one worker, whatever their names: an elapsed scan of
      them from an empty list ends Healthy. */
  lemma SmallHealthy(s: MetallbScan.Status, i: Input, c: Small)
    requires Scans(s, i) && s.lastRun.Some? && s.lists == EMPTY
    requires c.Proper() && i.obs == c.Observed() && Name(i.cfg.metalNs)
    ensures Observed(i.obs, i.cfg) && AllWell(i.obs) && FromServices(i.obs, [c.Web(), c.Api()])
    ensures Reconcile(s, i, ScanSteps(i.obs, i.cfg, false)).healthy
  {
    SmallObserved(c, i.cfg);
    SmallWell(c);
    SmallServices(c);
    PairHealthy(s, i, c.Web(), c.Api());
  }
}
