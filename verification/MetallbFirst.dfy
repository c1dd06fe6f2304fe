/** What a first scan lists, and what an elapsed one newly lists, said of the records each
    failure is about. */
module MetallbFirst {
  import opened StatusLists
  import opened FailureMessages
  import opened BgpConfig
  import opened MetallbPhases
  import opened MetallbScan
  import opened MetallbEntries
  import opened MetallbSpeakers
  import opened MetallbOutcome
  import opened MetallbVerdicts
  import opened SvcEndPoints

  // ----- the records that speak for a failure

  /** Some record of the observation speaks for the failure. */
  ghost predicate Evidence(o: Observation, cfg: Config, f: Failure) {
    match f
    case NoIp(svc, ns) => SvcRef(svc, ns) in o.noIp
    case NotInPool(svc, ns) => exists p :: p in o.peers && p.name == svc && p.ns == ns && !p.conPool
    case PoolNotAdvertised(svc, ns, pool) =>
      exists a :: a in o.ads && a.advName != "" && a.svc == svc && a.ns == ns && a.pool == pool && !a.advertised
    case NoPeers(adv) => exists a :: a in o.ads && a.advName == adv && adv != "" && a.peers.None?
    case PodNotRunning(svc, ns) =>
      (exists t :: t in o.services && t.name == svc && t.ns == ns) && SomeDown(o.services, svc)
    case NoTargetPods(svc, ns) =>
      (exists t :: t in o.services && t.name == svc && t.ns == ns) && SomeMissing(o.services, svc)
    case NotEstablished(hop, node) => exists h :: h in o.hops && h.ip == hop && h.node == node && !Up(h)
    case NotValid(hop, node) => exists h :: h in o.hops && h.ip == hop && h.node == node && !h.valid
    case BadBfd(hop, node) =>
      !cfg.ignoreBfd && exists h :: h in o.hops && h.ip == hop && h.node == node && BfdBad(h)
    case RouteNotAdvertised(svc, ip, pod, node) =>
      exists r :: r in o.routes && r.svc == svc && r.ip == ip && r.pod == pod && r.node == node && !r.advertised
    case RouteNotBest(svc, ip, ns, pod, node) =>
      exists r :: r in o.routes && r.svc == svc && r.ip == ip && r.ns == ns && r.pod == pod && r.node == node
                  && !r.validBest
    case _ => false
  }

  ghost predicate SomeAdds(bodies: seq<Body>, f: Failure, first: bool) {
    exists b :: b in bodies && Add(f) in BodyOps(b, first)
  }

  lemma PeersSpeak(peers: seq<Peer>, f: Failure, first: bool)
    requires f.NotInPool?
    ensures SomeAdds(PeerBodies(peers), f, first) <==>
              exists p :: p in peers && p.name == f.svc && p.ns == f.ns && !p.conPool
  {
    if p :| p in peers && p.name == f.svc && p.ns == f.ns && !p.conPool {
      var i :| 0 <= i < |peers| && peers[i] == p;
      assert PeerBodies(peers)[i] in PeerBodies(peers) && BodyOps(PeerBody(p), first)[0] == Add(f);
    }
  }

  lemma AdOps(a: Ad, f: Failure, first: bool)
    ensures Add(f) in BodyOps(AdBody(a), first) <==>
              a.advName != "" && ((f == PoolNotAdvertised(a.svc, a.ns, a.pool) && !a.advertised)
                                  || (f == NoPeers(a.advName) && a.peers.None?))
  {
    var x, y := Check(PoolNotAdvertised(a.svc, a.ns, a.pool), !a.advertised, first),
                Check(NoPeers(a.advName), a.peers.None?, first);
    assert Add(f) in x <==> !a.advertised && f == PoolNotAdvertised(a.svc, a.ns, a.pool);
    assert Add(f) in y <==> a.peers.None? && f == NoPeers(a.advName);
    assert Add(f) in x + y <==> Add(f) in x || Add(f) in y;
  }

  lemma AdsSpeak(ads: seq<Ad>, f: Failure, first: bool)
    ensures SomeAdds(AdBodies(ads), f, first) <==> exists a :: a in ads && Add(f) in BodyOps(AdBody(a), first)
  {
    if a :| a in ads && Add(f) in BodyOps(AdBody(a), first) {
      var i :| 0 <= i < |ads| && ads[i] == a;
      assert AdBodies(ads)[i] in AdBodies(ads);
    }
  }

  lemma HopOps(h: Hop, ignoreBfd: bool, f: Failure, first: bool)
    ensures Add(f) in BodyOps(HopBody(h, ignoreBfd), first) <==>
              || (f == NotEstablished(h.ip, h.node) && !Up(h))
              || (f == NotValid(h.ip, h.node) && !h.valid)
              || (f == BadBfd(h.ip, h.node) && BfdBad(h) && !ignoreBfd)
  {
    var x, y, z := Check(NotEstablished(h.ip, h.node), !Up(h), first), Check(NotValid(h.ip, h.node), !h.valid, first),
                   BfdOps(h, ignoreBfd, first);
    assert Add(f) in x <==> !Up(h) && f == NotEstablished(h.ip, h.node);
    assert Add(f) in y <==> !h.valid && f == NotValid(h.ip, h.node);
    assert Add(f) in z <==> f == BadBfd(h.ip, h.node) && BfdBad(h) && !ignoreBfd;
    assert Add(f) in x + y + z <==> Add(f) in x || Add(f) in y || Add(f) in z;
  }

  lemma HopsSpeak(hops: seq<Hop>, ignoreBfd: bool, f: Failure, first: bool)
    ensures SomeAdds(HopBodies(hops, ignoreBfd), f, first) <==>
              exists h :: h in hops && Add(f) in BodyOps(HopBody(h, ignoreBfd), first)
  {
    if h :| h in hops && Add(f) in BodyOps(HopBody(h, ignoreBfd), first) {
      var i :| 0 <= i < |hops| && hops[i] == h;
      assert HopBodies(hops, ignoreBfd)[i] in HopBodies(hops, ignoreBfd);
    }
  }

  lemma RouteBodyOps(r: Route, f: Failure, first: bool)
    ensures Add(f) in BodyOps(RouteBody(r), first) <==>
              || (f == RouteNotAdvertised(r.svc, r.ip, r.pod, r.node) && !r.advertised)
              || (f == RouteNotBest(r.svc, r.ip, r.ns, r.pod, r.node) && !r.validBest)
  {
    var x, y := Check(RouteNotAdvertised(r.svc, r.ip, r.pod, r.node), !r.advertised, first),
                Check(RouteNotBest(r.svc, r.ip, r.ns, r.pod, r.node), !r.validBest, first);
    assert Add(f) in x <==> !r.advertised && f == RouteNotAdvertised(r.svc, r.ip, r.pod, r.node);
    assert Add(f) in y <==> !r.validBest && f == RouteNotBest(r.svc, r.ip, r.ns, r.pod, r.node);
    assert Add(f) in x + y <==> Add(f) in x || Add(f) in y;
  }

  lemma RoutesSpeak(routes: seq<Route>, f: Failure, first: bool)
    ensures SomeAdds(RouteBodies(routes), f, first) <==>
              exists r :: r in routes && Add(f) in BodyOps(RouteBody(r), first)
  {
    if r :| r in routes && Add(f) in BodyOps(RouteBody(r), first) {
      var i :| 0 <= i < |routes| && routes[i] == r;
      assert RouteBodies(routes)[i] in RouteBodies(routes);
    }
  }

  lemma EndpointsSpeak(services: seq<LbService>, f: Failure, first: bool)
    requires f.PodNotRunning?
    ensures SomeAdds(EndpointBodies(services, first), f, first) <==>
              (exists t :: t in services && t.name == f.svc && t.ns == f.ns) && SomeDown(services, f.svc)
  {
    if t :| t in services && t.name == f.svc && t.ns == f.ns { EndpointAdds(services, t, first); }
    if b :| b in EndpointBodies(services, first) && Add(f) in BodyOps(b, first) {
      assert b.DownBody?;
      DownOpsMember(b.svcName, services, Add(f));
    }
  }

  lemma TargetsSpeak(services: seq<LbService>, f: Failure, first: bool)
    requires f.NoTargetPods?
    ensures SomeAdds(TargetBodies(services, first), f, first) <==>
              (exists t :: t in services && t.name == f.svc && t.ns == f.ns) && SomeMissing(services, f.svc)
  {
    if t :| t in services && t.name == f.svc && t.ns == f.ns { TargetAdds(services, t, first); }
    if b :| b in TargetBodies(services, first) && Add(f) in BodyOps(b, first) {
      assert b.MissingBody?;
      MissingOpsMember(b.svcName, services, Add(f));
    }
  }

  lemma NoIpsSpeak(noIp: seq<SvcRef>, f: Failure)
    requires f.NoIp?
    ensures Add(f) in NoIpOps(noIp) <==> SvcRef(f.svc, f.ns) in noIp
  {
    if SvcRef(f.svc, f.ns) in noIp {
      var i :| 0 <= i < |noIp| && noIp[i] == SvcRef(f.svc, f.ns);
      assert NoIpOps(noIp)[i] == Add(f);
    }
  }

  /** A failure's own step records it iff some record speaks for it. */
  lemma AddsIffEvidence(o: Observation, cfg: Config, first: bool, f: Failure)
    requires !f.McpUpdating? && !WalkKind(f)
    ensures Adds(StepOf(f, o, cfg, first), f, cfg, first) <==> Evidence(o, cfg, f)
  {
    match f
    case NoIp(_, _) => NoIpsSpeak(o.noIp, f);
    case NotInPool(_, _) => PeersSpeak(o.peers, f, first);
    case PodNotRunning(_, _) => EndpointsSpeak(o.services, f, first);
    case NoTargetPods(_, _) => TargetsSpeak(o.services, f, first);
    case _ => RecordsSpeak(o, cfg, first, f);
  }

  lemma RecordsSpeak(o: Observation, cfg: Config, first: bool, f: Failure)
    requires f.PoolNotAdvertised? || f.NoPeers? || f.NotEstablished? || f.NotValid? || f.BadBfd?
             || f.RouteNotAdvertised? || f.RouteNotBest?
    ensures Adds(StepOf(f, o, cfg, first), f, cfg, first) <==> Evidence(o, cfg, f)
  {
    if f.PoolNotAdvertised? || f.NoPeers? {
      AdRecordsSpeak(o, cfg, first, f);
    } else if f.RouteNotAdvertised? || f.RouteNotBest? {
      RouteRecordsSpeak(o, cfg, first, f);
    } else {
      HopRecordsSpeak(o, cfg, first, f);
    }
  }

  lemma AdRecordsSpeak(o: Observation, cfg: Config, first: bool, f: Failure)
    requires f.PoolNotAdvertised? || f.NoPeers?
    ensures SomeAdds(AdBodies(o.ads), f, first) <==> Evidence(o, cfg, f)
  {
    AdsSpeak(o.ads, f, first);
    forall a | a in o.ads { AdOps(a, f, first); }
  }

  lemma RouteRecordsSpeak(o: Observation, cfg: Config, first: bool, f: Failure)
    requires f.RouteNotAdvertised? || f.RouteNotBest?
    ensures SomeAdds(RouteBodies(o.routes), f, first) <==> Evidence(o, cfg, f)
  {
    RoutesSpeak(o.routes, f, first);
    forall r | r in o.routes { RouteBodyOps(r, f, first); }
  }

  lemma HopRecordsSpeak(o: Observation, cfg: Config, first: bool, f: Failure)
    requires f.NotEstablished? || f.NotValid? || f.BadBfd?
    ensures SomeAdds(HopBodies(o.hops, cfg.ignoreBfd), f, first) <==> Evidence(o, cfg, f)
  {
    HopsSpeak(o.hops, cfg.ignoreBfd, f, first);
    forall h | h in o.hops { HopOps(h, cfg.ignoreBfd, f, first); }
  }

  // ----- the first scan

  lemma AddsOwn(o: Observation, cfg: Config, f: Failure)
    requires !f.McpUpdating?
    ensures (exists step :: step in ScanSteps(o, cfg, true) && Adds(step, f, cfg, true)) <==>
              Adds(StepOf(f, o, cfg, true), f, cfg, true)
  {
    ScanEnd(o, cfg, true);
    OwnStepThere(o, cfg, true, f);
    if step :| step in ScanSteps(o, cfg, true) && Adds(step, f, cfg, true) { AddsAbout(o, cfg, step, f); }
  }

  /** A first scan, as scheduled, that completes. */
  ghost predicate FirstCompletes(l: Lists, run: seq<ScanStep>, o: Observation, cfg: Config) {
    && Clean(l) && Observed(o, cfg)
    && Scheduled(run, ScanSteps(o, cfg, true)) && RunSteps(l, run, cfg, true).Going?
  }

  /** It lists what was listed and what some record speaks for, the walks over the nodes
      aside. */
  lemma FirstScanLists(l: Lists, run: seq<ScanStep>, o: Observation, cfg: Config, f: Failure)
    requires FirstCompletes(l, run, o, cfg) && f.WellNamed() && !f.McpUpdating? && !WalkKind(f)
    ensures f.Render() in RunSteps(l, run, cfg, true).lists.failed <==> f.Render() in l.failed || Evidence(o, cfg, f)
  {
    FirstScanRecords(l, run, o, cfg, f);
    AddsOwn(o, cfg, f);
    AddsIffEvidence(o, cfg, true, f);
  }

  /** A first scan does not look at neighbors. */
  lemma WithoutNeighbors(o: Observation, cfg: Config)
    ensures PlainSteps(o.(neighbors := []), cfg, true) == PlainSteps(o, cfg, true)
  {
  }

  function WalkOps(f: Failure, o: Observation, cfg: Config): seq<Op<Failure>> {
    if f.NoRunningSpeaker? then ProbeOps(o.probes, cfg) else WorkersOps(o.workers, cfg)
  }

  /** The walk the failure is about, run on its own, lists it. */
  ghost predicate WalkVerdict(f: Failure, before: seq<string>, o: Observation, cfg: Config) {
    f.Render() in Run(Alone(f, before), RenderOps(WalkOps(f, o, cfg)))
  }

  /** Of the failures the walks over the nodes are about, `after` lists what the walks do. */
  ghost predicate WalksListed(after: seq<string>, before: seq<string>, o: Observation, cfg: Config) {
    forall f: Failure {:trigger WalkVerdict(f, before, o, cfg)} :: f.WellNamed() && WalkKind(f) ==>
      (f.Render() in after <==> WalkVerdict(f, before, o, cfg))
  }

  lemma FirstOwn(l: Lists, run: seq<ScanStep>, o: Observation, cfg: Config, f: Failure)
    requires Clean(l) && f.WellNamed() && WalkKind(f) && OrderlySteps(PlainSteps(o, cfg, true), cfg, true)
    requires Scheduled(run, PlainSteps(o, cfg, true)) && RunSteps(l, run, cfg, true).Going?
    ensures f.Render() in RunSteps(l, run, cfg, true).lists.failed <==>
              OwnVerdict(f, f.Render() in l.failed, o, cfg, true)
  {
    WithoutNeighbors(o, cfg);
    ScanLists(l, run, o.(neighbors := []), cfg, true, f);
    WalkStep(o, cfg, f);
    WalkStep(o.(neighbors := []), cfg, f);
  }

  lemma WalkStep(o: Observation, cfg: Config, f: Failure)
    requires WalkKind(f)
    ensures StepOf(f, o, cfg, true) == Loop(WalkOps(f, o, cfg), false)
  {
  }

  lemma LoopAlone(l: Lists, ops: seq<Op<Failure>>, cfg: Config)
    ensures Perform(l, Loop(ops, false), cfg, true).lists.failed == Run(l.failed, RenderOps(ops))
  {
    TouchAllFailed(l, RenderOps(ops), false, cfg.incident);
  }

  lemma WalkOwn(before: seq<string>, o: Observation, cfg: Config, f: Failure)
    requires WalkKind(f)
    ensures OwnVerdict(f, f.Render() in before, o, cfg, true) <==> WalkVerdict(f, before, o, cfg)
  {
    WalkStep(o, cfg, f);
    LoopAlone(Lists(Alone(f, before), []), WalkOps(f, o, cfg), cfg);
  }

  lemma FirstWalk(l: Lists, run: seq<ScanStep>, o: Observation, cfg: Config, f: Failure)
    requires FirstCompletes(l, run, o, cfg) && f.WellNamed() && WalkKind(f)
    ensures f.Render() in RunSteps(l, run, cfg, true).lists.failed <==> WalkVerdict(f, l.failed, o, cfg)
  {
    FirstOrderly(o, cfg);
    ScanEnd(o, cfg, true);
    FirstOwn(l, run, o, cfg, f);
    WalkOwn(l.failed, o, cfg, f);
  }

  /** So does a completed first scan. */
  lemma FirstWalks(l: Lists, run: seq<ScanStep>, o: Observation, cfg: Config)
    requires FirstCompletes(l, run, o, cfg)
    ensures WalksListed(RunSteps(l, run, cfg, true).lists.failed, l.failed, o, cfg)
  {
    forall f: Failure | f.WellNamed() && WalkKind(f)
      ensures f.Render() in RunSteps(l, run, cfg, true).lists.failed <==> WalkVerdict(f, l.failed, o, cfg) {
      FirstWalk(l, run, o, cfg, f);
    }
  }

  /** A node is then listed without a speaker iff it has none and the daemonset is short of
      pods, or has none and was listed; a speaker without hops as in an elapsed scan. */
  lemma FirstSpeakers(after: seq<string>, before: seq<string>, o: Observation, cfg: Config, k: nat)
    requires WalksListed(after, before, o, cfg) && k < |o.workers|
    requires DistinctNodes(o.workers) && NamedWorkers(o.workers, cfg)
    ensures var w := o.workers[k];
            && (NoSpeaker(w.node, cfg.metalNs).Render() in after <==>
                  w.speaker.None? && (w.daemonset == Some(false) || NoSpeaker(w.node, cfg.metalNs).Render() in before))
            && (w.speaker.Some? ==>
                  var m := NoHops(w.speaker.value, w.node).Render();
                  (m in after <==>
                     if w.hops.None? || (!w.hops.value && cfg.ignoreNoHop) then m in before else !w.hops.value))
  {
    var w := o.workers[k];
    assert w in o.workers;
    var f := NoSpeaker(w.node, cfg.metalNs);
    NodeNamed(w.node, cfg.metalNs);
    assert f.Render() in after <==> WalkVerdict(f, before, o, cfg);
    WorkerPhase(Alone(f, before), o.workers, cfg, k);
    if w.speaker.Some? {
      var g := NoHops(w.speaker.value, w.node);
      NodeNamed(w.speaker.value, w.node);
      assert g.Render() in after <==> WalkVerdict(g, before, o, cfg);
      WorkerPhase(Alone(g, before), o.workers, cfg, k);
    }
  }

  /** And a node without a running speaker iff its last probe found none, or it was not
      probed and was listed. */
  lemma FirstProbes(after: seq<string>, before: seq<string>, o: Observation, cfg: Config, node: string)
    requires WalksListed(after, before, o, cfg) && Name(node)
    requires Name(cfg.metalNs) && forall p :: p in o.probes ==> Name(p.node)
    ensures var m := NoRunningSpeaker(node, cfg.metalNs).Render();
            m in after <==> match LastProbe(o.probes, node) case None => m in before case Some(up) => !up
  {
    var f := NoRunningSpeaker(node, cfg.metalNs);
    NodeNamed(node, cfg.metalNs);
    assert f.Render() in after <==> WalkVerdict(f, before, o, cfg);
    ProbePhase(Alone(f, before), o.probes, cfg, node);
  }
}
