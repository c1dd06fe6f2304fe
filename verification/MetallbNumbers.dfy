/** What a reconcile of a MetallbScan makes of the incident of each failure, said of the
    records it observed, and the incidents that outlive their failures. */
module MetallbNumbers {
  import opened StatusLists
  import opened FailureMessages
  import opened IpPools
  import opened BgpConfig
  import opened LoadBalancers
  import opened MetallbPhases
  import opened MetallbScan
  import opened MetallbRuns
  import opened MetallbEntries
  import opened MetallbOutcome
  import opened MetallbVerdicts
  import opened MetallbStops
  import opened MetallbCluster
  import opened MetallbHealth
  import opened MetallbIncidents
  import opened ScheduleVerdicts

  /** An elapsed scan that reaches its last clean-up, where `m` is what is listed. */
  ghost predicate EndsWith(s: MetallbScan.Status, i: Input, run: seq<ScanStep>, m: seq<string>) {
    && Scans(s, i) && s.lastRun.Some? && Clean(s.lists) && Observed(i.obs, i.cfg) && Agreeing(i.obs, i.cfg)
    && Scheduled(run, PlainSteps(i.obs, i.cfg, false))
    && RunSteps(s.lists, run, i.cfg, false).Going? && RunSteps(s.lists, run, i.cfg, false).lists.failed == m
  }

  /** The reconcile that runs that scan and its clean-up. */
  function After(s: MetallbScan.Status, i: Input, run: seq<ScanStep>): MetallbScan.Status {
    Reconcile(s, i, run + [DeletedServices(i.obs.live)])
  }

  lemma CleanupKeepsNumbers(l: Lists, live: seq<string>, cfg: Config)
    ensures Perform(l, DeletedServices(live), cfg, false).lists.incidents == l.incidents
  {
  }

  lemma ScanLeaves(s: MetallbScan.Status, i: Input, run: seq<ScanStep>)
    requires Scans(s, i)
    ensures Reconcile(s, i, run).lists == RunSteps(s.lists, run, i.cfg, s.lastRun.None?).lists
  {
  }

  lemma NumbersAfter(s: MetallbScan.Status, i: Input, run: seq<ScanStep>)
    requires Scans(s, i) && s.lastRun.Some? && RunSteps(s.lists, run, i.cfg, false).Going?
    ensures After(s, i, run).lists.incidents == RunSteps(s.lists, run, i.cfg, false).lists.incidents
  {
    ScanLeaves(s, i, run + [DeletedServices(i.obs.live)]);
    CleanupLast(s.lists, run, i.obs.live, i.cfg);
    CleanupKeepsNumbers(RunSteps(s.lists, run, i.cfg, false).lists, i.obs.live, i.cfg);
  }

  lemma PlainIncidents(l: Lists, run: seq<ScanStep>, o: Observation, cfg: Config, first: bool, id: string)
    requires Clean(l) && OrderlySteps(PlainSteps(o, cfg, first), cfg, first) && cfg.notify
    requires Scheduled(run, PlainSteps(o, cfg, first)) && RunSteps(l, run, cfg, first).Going?
    ensures IncidentsFollow(l, RunSteps(l, run, cfg, first).lists, cfg.incident, id)
  {
    var steps := PlainSteps(o, cfg, first);
    assert steps[..|steps|] == steps;
    ScanIncidents(l, run, o, cfg, first, |steps|, id);
  }

  /** After an elapsed scan a number is listed iff a failure that has it was newly listed, or
      it was listed and no failure that has it was cleared; numbers both of a failure that was
      recorded and of one that was cleared are set apart.  With notifications off all stay. */
  lemma ReconcileIncidents(s: MetallbScan.Status, i: Input, run: seq<ScanStep>, m: seq<string>, id: string)
    requires EndsWith(s, i, run, m)
    ensures var brought, taken := NewlyListed(s.lists.failed, m, i.cfg.incident, id),
                                  Cleared(s.lists.failed, m, i.cfg.incident, id);
            i.cfg.notify && !(brought && taken) ==>
              Follows(id, s.lists.incidents, After(s, i, run).lists.incidents, brought, taken)
    ensures !i.cfg.notify ==> After(s, i, run).lists.incidents == s.lists.incidents
  {
    ElapsedOrderly(i.obs, i.cfg);
    NumbersAfter(s, i, run);
    if i.cfg.notify { PlainIncidents(s.lists, run, i.obs, i.cfg, false, id); }
    else { SilentScan(s.lists, run, i.cfg, false); }
  }

  /** The same for a first scan that completes; it clears none of these failures. */
  lemma FirstIncidents(s: MetallbScan.Status, i: Input, run: seq<ScanStep>, id: string)
    requires Scans(s, i) && s.lastRun.None? && Clean(s.lists) && Observed(i.obs, i.cfg) && i.cfg.notify
    requires Scheduled(run, ScanSteps(i.obs, i.cfg, true)) && RunSteps(s.lists, run, i.cfg, true).Going?
    ensures var r := Reconcile(s, i, run).lists;
            id in r.incidents <==>
              (NewlyListed(s.lists.failed, r.failed, i.cfg.incident, id) && Numbered(id)) || id in s.lists.incidents
  {
    var r := RunSteps(s.lists, run, i.cfg, true).lists;
    ScanEnd(i.obs, i.cfg, true);
    FirstOrderly(i.obs, i.cfg);
    PlainIncidents(s.lists, run, i.obs, i.cfg, true, id);
    ScanLeaves(s, i, run);
    forall f: Failure | f.WellNamed() && Notified(f) && f.Render() in s.lists.failed ensures f.Render() in r.failed {
      FirstScanRecords(s.lists, run, i.obs, i.cfg, f);
    }
  }

  // ----- one failure

  /** No other failure that the scan records or clears has the number of this one. */
  ghost predicate Unshared(f: Failure, before: seq<string>, m: seq<string>, incident: string -> string) {
    forall g: Failure {:trigger g.Render()} ::
      g.WellNamed() && Notified(g) && g != f && (g.Render() in before) != (g.Render() in m) ==>
        incident(g.Render()) != incident(f.Render())
  }

  /** The number of a failure comes in when the failure is new, goes when it is cleared, and
      otherwise stays as it was. */
  ghost predicate NumberTells(id: string, listed: bool, toList: bool, before: seq<string>, after: seq<string>) {
    id in after <==> if toList && !listed then Numbered(id) else toList == listed && id in before
  }

  lemma OnlyItsNumber(f: Failure, before: seq<string>, m: seq<string>, incident: string -> string)
    requires f.WellNamed() && Notified(f) && Unshared(f, before, m, incident)
    ensures NewlyListed(before, m, incident, incident(f.Render())) <==> f.Render() !in before && f.Render() in m
    ensures Cleared(before, m, incident, incident(f.Render())) <==> f.Render() in before && f.Render() !in m
  {
  }

  lemma FailureNumber(s: MetallbScan.Status, i: Input, run: seq<ScanStep>, m: seq<string>, f: Failure)
    requires EndsWith(s, i, run, m) && i.cfg.notify && f.WellNamed() && Notified(f)
    requires Unshared(f, s.lists.failed, m, i.cfg.incident)
    ensures NumberTells(i.cfg.incident(f.Render()), f.Render() in s.lists.failed, f.Render() in m,
                        s.lists.incidents, After(s, i, run).lists.incidents)
  {
    OnlyItsNumber(f, s.lists.failed, m, i.cfg.incident);
    ReconcileIncidents(s, i, run, m, i.cfg.incident(f.Render()));
    NumbersListed(s.lists);
  }

  lemma NumbersListed(l: Lists)
    requires Clean(l)
    ensures forall id :: id in l.incidents ==> Numbered(id)
  {
  }

  /** What is listed before the clean-up is what a scan without live names would list. */
  lemma ListedBeforeCleanup(s: MetallbScan.Status, i: Input, run: seq<ScanStep>, m: seq<string>)
    requires EndsWith(s, i, run, m)
    ensures ListsObserved(m, s.lists.failed, i.obs.(live := []), i.cfg)
  {
    var o := i.obs.(live := []);
    ElapsedOrderly(i.obs, i.cfg);
    forall f: Failure | f.WellNamed() && !f.McpUpdating?
      ensures f.Render() in m <==> Observes(f, s.lists.failed, o, i.cfg) {
      FinalLists(s.lists, run, i.obs, i.cfg, f);
      SameVerdict(f, f.Render() in s.lists.failed, i.obs, i.cfg);
    }
  }

  lemma SameVerdict(f: Failure, before: bool, o: Observation, cfg: Config)
    ensures FinalVerdict(f, before, o.(live := []), cfg) == FinalVerdict(f, before, o, cfg)
  {
    assert StepOf(f, o.(live := []), cfg, false) == StepOf(f, o, cfg, false);
  }

  /** A service without a pool brings in its number, one that is in a pool again takes it
      out. */
  lemma PoolNumber(s: MetallbScan.Status, i: Input, run: seq<ScanStep>, m: seq<string>, services: seq<Service>,
                   pools: seq<IpPools.Pool>, parseIP: string -> Option<nat>, parse: string -> Option<Block>,
                   svc: Service)
    requires EndsWith(s, i, run, m) && i.cfg.notify
    requires FromPools(i.obs, services, pools, parseIP, parse) && svc in services
    requires Unshared(NotInPool(svc.name, svc.ns), s.lists.failed, m, i.cfg.incident)
    ensures var k := NotInPool(svc.name, svc.ns).Render();
            NumberTells(i.cfg.incident(k), k in s.lists.failed, !InPool(pools, svc.ip, parseIP, parse),
                        s.lists.incidents, After(s, i, run).lists.incidents)
  {
    ListedBeforeCleanup(s, i, run, m);
    PoolListed(m, s.lists.failed, i.obs.(live := []), i.cfg, services, pools, parseIP, parse, svc);
    PooledNamed(i.obs, i.cfg, services, pools, parseIP, parse, svc);
    FailureNumber(s, i, run, m, NotInPool(svc.name, svc.ns));
  }

  lemma PooledNamed(o: Observation, cfg: Config, services: seq<Service>, pools: seq<IpPools.Pool>,
                    parseIP: string -> Option<nat>, parse: string -> Option<Block>, svc: Service)
    requires Observed(o, cfg) && FromPools(o, services, pools, parseIP, parse) && svc in services
    ensures NotInPool(svc.name, svc.ns).WellNamed()
  {
    PeerRecords(services, pools, parseIP, parse);
    var n :| 0 <= n < |services| && services[n] == svc;
    assert o.peers[n] in o.peers && TellsPool(o.peers[n], svc, pools, parseIP, parse);
    ServiceNamed(svc.name, svc.ns);
  }

  /** A hop that is down brings in its number, one that is up again takes it out. */
  lemma HopNumber(s: MetallbScan.Status, i: Input, run: seq<ScanStep>, m: seq<string>, h: Hop)
    requires EndsWith(s, i, run, m) && i.cfg.notify && h in i.obs.hops
    requires Unshared(NotEstablished(h.ip, h.node), s.lists.failed, m, i.cfg.incident)
    ensures var k := NotEstablished(h.ip, h.node).Render();
            NumberTells(i.cfg.incident(k), k in s.lists.failed, !Up(h), s.lists.incidents,
                        After(s, i, run).lists.incidents)
  {
    HopNamed(h.ip, h.node);
    ListedBeforeCleanup(s, i, run, m);
    HopListed(m, s.lists.failed, i.obs.(live := []), i.cfg, h);
    FailureNumber(s, i, run, m, NotEstablished(h.ip, h.node));
  }

  /** The same for a route that is not advertised. */
  lemma RouteNumber(s: MetallbScan.Status, i: Input, run: seq<ScanStep>, m: seq<string>, r: MetallbPhases.Route)
    requires EndsWith(s, i, run, m) && i.cfg.notify && r in i.obs.routes
    requires Unshared(RouteNotAdvertised(r.svc, r.ip, r.pod, r.node), s.lists.failed, m, i.cfg.incident)
    ensures var k := RouteNotAdvertised(r.svc, r.ip, r.pod, r.node).Render();
            NumberTells(i.cfg.incident(k), k in s.lists.failed, !r.advertised, s.lists.incidents,
                        After(s, i, run).lists.incidents)
  {
    RouteNamed(r.svc, r.ip, r.ns, r.pod, r.node);
    ListedBeforeCleanup(s, i, run, m);
    RouteListed(m, s.lists.failed, i.obs.(live := []), i.cfg, r);
    FailureNumber(s, i, run, m, RouteNotAdvertised(r.svc, r.ip, r.pod, r.node));
  }

  /** And for an advertisement without peers. */
  lemma AdNumber(s: MetallbScan.Status, i: Input, run: seq<ScanStep>, m: seq<string>, a: Ad)
    requires EndsWith(s, i, run, m) && i.cfg.notify && a in i.obs.ads && a.advName != ""
    requires Unshared(NoPeers(a.advName), s.lists.failed, m, i.cfg.incident)
    ensures var k := NoPeers(a.advName).Render();
            NumberTells(i.cfg.incident(k), k in s.lists.failed, a.peers.None?, s.lists.incidents,
                        After(s, i, run).lists.incidents)
  {
    AdvertisementNamed(a.advName);
    ListedBeforeCleanup(s, i, run, m);
    AdListed(m, s.lists.failed, i.obs.(live := []), i.cfg, a);
    FailureNumber(s, i, run, m, NoPeers(a.advName));
  }

  // ----- incidents that outlive their failures

  /** The number of a service without an address comes in with its failure, and no scan ever
      takes it out: none clears such a failure. */
  lemma NoIpNumber(s: MetallbScan.Status, i: Input, run: seq<ScanStep>, m: seq<string>, x: SvcRef)
    requires EndsWith(s, i, run, m) && i.cfg.notify && Name(x.name) && Name(x.ns)
    requires Unshared(NoIp(x.name, x.ns), s.lists.failed, m, i.cfg.incident)
    ensures var k := NoIp(x.name, x.ns).Render();
            i.cfg.incident(k) in After(s, i, run).lists.incidents <==>
              || (x in i.obs.noIp && k !in s.lists.failed && Numbered(i.cfg.incident(k)))
              || i.cfg.incident(k) in s.lists.incidents
  {
    var f, o := NoIp(x.name, x.ns), i.obs.(live := []);
    ServiceNamed(x.name, x.ns);
    ListedBeforeCleanup(s, i, run, m);
    NoIpListed(m, s.lists.failed, o, i.cfg, x.name, x.ns);
    FailureNumber(s, i, run, m, f);
    RunStepsClean(s.lists, run, i.cfg, false);
  }

  /** The clean-up takes a failure off the list and leaves its number: the scan that ends
      Healthy although a service has no address keeps the incident it has just recorded. */
  lemma HealthyKeepsNumber(s: MetallbScan.Status, i: Input, run: seq<ScanStep>, all: seq<KubeService>, svc: KubeService)
    requires Scans(s, i) && s.lastRun.Some? && s.lists == EMPTY && i.cfg.notify
    requires Observed(i.obs, i.cfg) && AllWell(i.obs) && Unstopped(i.obs, false) && FromServices(i.obs, all)
    requires svc in all && svc.WithoutIp() && (exists t :: t in all && t.HasIp())
    requires forall t :: t in all && t.WithoutIp() ==> t.name == svc.name && t.ns == svc.ns
    requires !exists t :: t in all && t.HasIp() && t.name == svc.name
    requires Scheduled(run, PlainSteps(i.obs, i.cfg, false))
    ensures var id := i.cfg.incident(NoIp(svc.name, svc.ns).Render());
            After(s, i, run).healthy && (Numbered(id) ==> id in After(s, i, run).lists.incidents)
  {
    var f := NoIp(svc.name, svc.ns);
    HealthyCluster(s, i, run, all, svc);
    WellAgrees(i.obs, i.cfg);
    WithoutIpNamed(i.obs, i.cfg, all, svc);
    FromEmpty(s, i, run, f);
  }

  lemma WithoutIpNamed(o: Observation, cfg: Config, all: seq<KubeService>, svc: KubeService)
    requires Observed(o, cfg) && FromServices(o, all) && svc in all && svc.WithoutIp()
    ensures NoIp(svc.name, svc.ns).WellNamed()
  {
    NoIpRefIff(all, svc.name, svc.ns);
    assert SvcRef(svc.name, svc.ns) in o.noIp;
    ServiceNamed(svc.name, svc.ns);
  }

  lemma FromEmpty(s: MetallbScan.Status, i: Input, run: seq<ScanStep>, f: Failure)
    requires s.lists == EMPTY && i.cfg.notify && f.WellNamed() && Notified(f)
    requires RunSteps(s.lists, run, i.cfg, false).Going?
    requires EndsWith(s, i, run, RunSteps(s.lists, run, i.cfg, false).lists.failed)
    requires f.Render() in RunSteps(s.lists, run, i.cfg, false).lists.failed
    ensures var id := i.cfg.incident(f.Render()); Numbered(id) ==> id in After(s, i, run).lists.incidents
  {
    var m, id := RunSteps(s.lists, run, i.cfg, false).lists.failed, i.cfg.incident(f.Render());
    ReconcileIncidents(s, i, run, m, id);
    assert NewlyListed(s.lists.failed, m, i.cfg.incident, id) && !Cleared(s.lists.failed, m, i.cfg.incident, id);
  }
}
