/** Which failures a MetallbScan can list: what each step adds, the kinds no run ever
    records, the update marker, and the services without an IP. */
module MetallbEntries {
  import opened StatusLists
  import opened GoStrings
  import opened FailureMessages
  import opened CleanupLoop
  import opened CleanupOrders
  import opened IpPools
  import opened BgpConfig
  import opened HopRecords
  import opened MetallbPhases
  import opened MetallbScan
  import opened MetallbRuns

  // ----- what one step adds and clears

  ghost predicate Adds(step: ScanStep, f: Failure, cfg: Config, first: bool) {
    match step
    case Gate(updating) => updating && f == McpUpdating
    case Services(_) => false
    case Reading(_) => false
    case Bodies(bodies) => exists b :: b in bodies && Add(f) in BodyOps(b, first)
    case Loop(ops, _) => Add(f) in ops
    case Neighbors(steps, _) => exists n :: AtNode(n, true) in steps && f == NoSpeaker(n, cfg.metalNs)
    case DeletedServices(_) => false
  }

  lemma AddedKey(s: seq<string>, ops: seq<Op<string>>, m: string)
    requires NoDup(s) && m in Run(s, ops)
    ensures m in s || Add(m) in ops
  {
    RunMembership(s, ops, m);
    LastOpSound(ops, m);
  }

  lemma RenderedAdd(ops: seq<Op<Failure>>, m: string)
    requires Add(m) in RenderOps(ops)
    ensures exists f: Failure :: Add(f) in ops && m == f.Render()
  {
    var i :| 0 <= i < |ops| && RenderOps(ops)[i] == Add(m);
    assert ops[i] == Add(ops[i].key) && ops[i] in ops;
  }

  lemma {:induction false} NeighborAdds(l: Lists, steps: seq<NeighborStep>, metalNs: string, m: string)
    requires Clean(l) && m in NeighborEffects(l, steps, metalNs).failed
    ensures m in l.failed || exists n :: AtNode(n, true) in steps && m == NoSpeaker(n, metalNs).Render()
  {
    if steps != [] {
      var before, s := NeighborEffects(l, steps[..|steps| - 1], metalNs), steps[|steps| - 1];
      NeighborsClean(l, steps[..|steps| - 1], metalNs);
      if m in before.failed {
        NeighborAdds(l, steps[..|steps| - 1], metalNs, m);
      } else if s.AtNode? {
        assert s.missing && m == NoSpeaker(s.node, metalNs).Render() by {
          ApplyMembers(before.failed, RenderOp(NeighborOp(s.node, s.missing, metalNs)));
        }
        assert s == AtNode(s.node, true) && s in steps;
      }
    }
  }

  /** A listed message was listed before the step, or is one the step adds. */
  lemma ListedByStep(l: Lists, step: ScanStep, cfg: Config, first: bool, m: string)
    requires Clean(l) && m in Perform(l, step, cfg, first).lists.failed
    ensures m in l.failed || exists f :: Adds(step, f, cfg, first) && m == f.Render()
  {
    match step
    case Gate(updating) =>
      var ops := GateOps(updating, first);
      TouchAllFailed(l, RenderOps(ops), false, cfg.incident);
      AddedKey(l.failed, RenderOps(ops), m);
      if m !in l.failed { RenderedAdd(ops, m); }
    case Services(_) =>
    case Reading(_) =>
    case Bodies(bodies) =>
      TouchAllFailed(l, PhaseOps(bodies, first), cfg.notify, cfg.incident);
      AddedKey(l.failed, PhaseOps(bodies, first), m);
      if m !in l.failed {
        PhaseKey(bodies, first, Add(m));
        var b, op :| b in bodies && op in BodyOps(b, first) && Add(m) == RenderOp(op);
        assert Adds(step, op.key, cfg, first);
      }
    case Loop(ops, notify) =>
      TouchAllFailed(l, RenderOps(ops), notify && cfg.notify, cfg.incident);
      AddedKey(l.failed, RenderOps(ops), m);
      if m !in l.failed { RenderedAdd(ops, m); }
    case Neighbors(steps, _) => NeighborAdds(l, steps, cfg.metalNs, m);
    case DeletedServices(live) => CleanResultKeeps(l.failed, StaleIn(live));
  }

  // ----- the kinds that are recorded

  /** Kinds with a branch that records them and no observation that reaches it. */
  predicate DeadKind(f: Failure) {
    f.PoolNotAdvertised? || f.NotValid?
  }

  ghost predicate Recordable(f: Failure) {
    f.WellNamed() && !DeadKind(f)
  }

  ghost predicate AddsRecordable(step: ScanStep, cfg: Config, first: bool) {
    forall f :: Adds(step, f, cfg, first) ==> Recordable(f)
  }

  ghost predicate Printed(failed: seq<string>) {
    forall m :: m in failed ==> exists f: Failure :: Recordable(f) && m == f.Render()
  }

  lemma {:induction false} ScanPrinted(l: Lists, run: seq<ScanStep>, cfg: Config, first: bool)
    requires Clean(l) && Printed(l.failed) && forall s :: s in run ==> AddsRecordable(s, cfg, first)
    ensures Printed(RunSteps(l, run, cfg, first).lists.failed)
  {
    if run != [] {
      var st, step := RunSteps(l, run[..|run| - 1], cfg, first), run[|run| - 1];
      assert step in run;
      ScanPrinted(l, run[..|run| - 1], cfg, first);
      RunStepsClean(l, run[..|run| - 1], cfg, first);
      if st.Going? {
        forall m | m in Perform(st.lists, step, cfg, first).lists.failed
          ensures exists f: Failure :: Recordable(f) && m == f.Render() {
          ListedByStep(st.lists, step, cfg, first, m);
        }
      }
    }
  }

  // ----- what the environment reports

  /** The hop records and the workers visited are those of a walk over the nodes. */
  ghost predicate FromWalk(o: Observation, nodes: seq<NodeAnswer>) {
    var w := WalkAll(nodes);
    o.workers == w.workers && o.hopsPanic == w.panicked && o.hops == if w.over then [] else w.hops
  }

  /** The advertisement records are those `GetBGPIPAd` builds for the peer records. */
  ghost predicate FromPeers(o: Observation, advs: seq<Advertisement>, pools: seq<Pool>) {
    o.ads == Ads(o.peers, advs, pools)
  }

  /** What a scan can observe: records are as their functions build them, and every name
      that is printed is a name. */
  ghost predicate Observed(o: Observation, cfg: Config) {
    && Name(cfg.metalNs)
    && (exists nodes :: FromWalk(o, nodes))
    && (o.ads == [] || exists advs, pools :: FromPeers(o, advs, pools))
    && (forall x :: x in o.noIp ==> Name(x.name) && Name(x.ns))
    && (forall p :: p in o.peers ==> Name(p.name) && Name(p.ns))
    && (forall a :: a in o.ads ==> Name(a.advName))
    && (forall s :: s in o.services ==> Name(s.name) && Name(s.ns))
    && (forall w :: w in o.workers ==> Name(w.node) && (w.speaker.Some? ==> Name(w.speaker.value)))
    && (forall h :: h in o.hops ==> Name(h.ip) && Name(h.node))
    && (forall n :: n in o.neighbors && n.AtNode? ==> Name(n.node))
    && (forall p :: p in o.probes ==> Name(p.node))
    && (forall r :: r in o.routes ==> Name(r.svc) && Name(r.ip) && Name(r.ns) && Name(r.pod) && Name(r.node))
  }

  /** So hops are always valid, and a record without an advertisement's name is the only
      kind that is not advertised. */
  lemma RecordsObserved(o: Observation, cfg: Config)
    requires Observed(o, cfg)
    ensures forall h :: h in o.hops ==> h.valid
    ensures forall a :: a in o.ads ==> (a.advertised <==> a.advName != "")
  {
    var nodes :| FromWalk(o, nodes);
    forall h | h in o.hops ensures h.valid { RecordsOfWalk(nodes, h); }
    if o.ads != [] {
      var advs, pools :| FromPeers(o, advs, pools);
      forall a | a in o.ads ensures a.advertised <==> a.advName != ""
        { RecordsNameAdvertised(o.peers, advs, pools, a); }
    }
  }

  lemma {:induction false} DownAdds(name: string, services: seq<LbService>, f: Failure)
    requires Add(f) in DownOps(name, services) || Add(f) in MissingOps(name, services)
    ensures exists s :: s in services && (f == PodNotRunning(s.name, s.ns) || f == NoTargetPods(s.name, s.ns))
  {
    if services != [] {
      var front, s := services[..|services| - 1], services[|services| - 1];
      if Add(f) in DownOps(name, front) || Add(f) in MissingOps(name, front) { DownAdds(name, front, f); }
    }
  }

  ghost predicate BodyAddsRecordable(b: Body, first: bool) {
    forall f :: Add(f) in BodyOps(b, first) ==> Recordable(f)
  }

  lemma ConfigurationBodies(o: Observation, cfg: Config, first: bool)
    requires Observed(o, cfg)
    ensures forall p :: p in o.peers ==> BodyAddsRecordable(PeerBody(p), first)
    ensures forall a :: a in o.ads ==> BodyAddsRecordable(AdBody(a), first)
  {
    RecordsObserved(o, cfg);
    forall p | p in o.peers ensures BodyAddsRecordable(PeerBody(p), first) { ServiceNamed(p.name, p.ns); }
    forall a | a in o.ads ensures BodyAddsRecordable(AdBody(a), first) { AdvertisementNamed(a.advName); }
  }

  lemma ServiceBodyAdds(b: Body, services: seq<LbService>, first: bool)
    requires (b.DownBody? || b.MissingBody?) && b.services == services
    requires forall s :: s in services ==> Name(s.name) && Name(s.ns)
    ensures BodyAddsRecordable(b, first)
  {
    forall f | Add(f) in BodyOps(b, first) ensures Recordable(f) {
      DownAdds(b.svcName, services, f);
      var s :| s in services && (f == PodNotRunning(s.name, s.ns) || f == NoTargetPods(s.name, s.ns));
      ServiceNamed(s.name, s.ns);
    }
  }

  lemma EndpointBodyAdds(services: seq<LbService>, first: bool, b: Body)
    requires forall s :: s in services ==> Name(s.name) && Name(s.ns)
    requires b in EndpointBodies(services, first) || b in TargetBodies(services, first)
    ensures BodyAddsRecordable(b, first)
  {
    if b.DownBody? || b.MissingBody? { ServiceBodyAdds(b, services, first); }
  }

  lemma HopBodyAdds(h: Hop, ignoreBfd: bool, first: bool)
    requires Name(h.ip) && Name(h.node) && h.valid
    ensures BodyAddsRecordable(HopBody(h, ignoreBfd), first)
  {
    HopNamed(h.ip, h.node);
  }

  lemma RouteBodyAdds(r: Route, first: bool)
    requires Name(r.svc) && Name(r.ip) && Name(r.ns) && Name(r.pod) && Name(r.node)
    ensures BodyAddsRecordable(RouteBody(r), first)
  {
    RouteNamed(r.svc, r.ip, r.ns, r.pod, r.node);
  }

  lemma HopAndRouteBodies(o: Observation, cfg: Config, first: bool)
    requires Observed(o, cfg)
    ensures forall h :: h in o.hops ==> BodyAddsRecordable(HopBody(h, cfg.ignoreBfd), first)
    ensures forall r :: r in o.routes ==> BodyAddsRecordable(RouteBody(r), first)
  {
    RecordsObserved(o, cfg);
    forall h | h in o.hops ensures BodyAddsRecordable(HopBody(h, cfg.ignoreBfd), first) {
      HopBodyAdds(h, cfg.ignoreBfd, first);
    }
    forall r | r in o.routes ensures BodyAddsRecordable(RouteBody(r), first) { RouteBodyAdds(r, first); }
  }

  lemma {:induction false} WorkersAdd(ws: seq<Worker>, cfg: Config, f: Failure)
    requires Name(cfg.metalNs) && forall w :: w in ws ==> Name(w.node) && (w.speaker.Some? ==> Name(w.speaker.value))
    requires Add(f) in WorkersOps(ws, cfg)
    ensures Recordable(f)
  {
    var front, w := ws[..|ws| - 1], ws[|ws| - 1];
    assert w in ws;
    if Add(f) in WorkersOps(front, cfg) {
      WorkersAdd(front, cfg, f);
    } else {
      NodeNamed(w.node, cfg.metalNs);
      if w.speaker.Some? { NodeNamed(w.speaker.value, w.node); }
    }
  }

  lemma LoopsAdd(o: Observation, cfg: Config, first: bool)
    requires Observed(o, cfg)
    ensures AddsRecordable(Loop(NoIpOps(o.noIp), true), cfg, first)
    ensures AddsRecordable(Loop(WorkersOps(o.workers, cfg), false), cfg, first)
    ensures AddsRecordable(Loop(ProbeOps(o.probes, cfg), false), cfg, first)
    ensures AddsRecordable(Neighbors(o.neighbors, o.neighborsPanic), cfg, first)
  {
    forall f | Add(f) in NoIpOps(o.noIp) ensures Recordable(f) { ServiceNamed(f.svc, f.ns); }
    forall f | Add(f) in WorkersOps(o.workers, cfg) ensures Recordable(f) { WorkersAdd(o.workers, cfg, f); }
    forall f | Add(f) in ProbeOps(o.probes, cfg) ensures Recordable(f) {
      var i :| 0 <= i < |o.probes| && ProbeOps(o.probes, cfg)[i] == Add(f);
      assert o.probes[i] in o.probes;
      NodeNamed(o.probes[i].node, cfg.metalNs);
    }
    forall n | AtNode(n, true) in o.neighbors ensures Recordable(NoSpeaker(n, cfg.metalNs))
      { NodeNamed(n, cfg.metalNs); }
  }

  lemma BodiesAdd(bodies: seq<Body>, cfg: Config, first: bool)
    requires forall b :: b in bodies ==> BodyAddsRecordable(b, first)
    ensures AddsRecordable(Bodies(bodies), cfg, first)
  {
  }

  lemma ConfigurationAdds(o: Observation, cfg: Config, first: bool)
    requires Observed(o, cfg)
    ensures forall step :: step in ConfigurationSteps(o) ==> AddsRecordable(step, cfg, first)
  {
    AdvertisementNamed("");
    LoopsAdd(o, cfg, first);
    ConfigurationBodies(o, cfg, first);
    BodiesAdd(PeerBodies(o.peers), cfg, first);
    BodiesAdd(AdBodies(o.ads), cfg, first);
  }

  lemma EndpointsAdd(o: Observation, cfg: Config, first: bool)
    requires Observed(o, cfg)
    ensures forall step :: step in EndpointSteps(o, first) ==> AddsRecordable(step, cfg, first)
  {
    AdvertisementNamed("");
    forall b | b in EndpointBodies(o.services, first) || b in TargetBodies(o.services, first)
      ensures BodyAddsRecordable(b, first) { EndpointBodyAdds(o.services, first, b); }
    BodiesAdd(EndpointBodies(o.services, first), cfg, first);
    BodiesAdd(TargetBodies(o.services, first), cfg, first);
  }

  lemma HopsAdd(o: Observation, cfg: Config, first: bool)
    requires Observed(o, cfg)
    ensures forall step :: step in HopSteps(o, cfg, first) ==> AddsRecordable(step, cfg, first)
  {
    AdvertisementNamed("");
    LoopsAdd(o, cfg, first);
    HopAndRouteBodies(o, cfg, first);
    BodiesAdd(HopBodies(o.hops, cfg.ignoreBfd), cfg, first);
  }

  lemma RoutesAdd(o: Observation, cfg: Config, first: bool)
    requires Observed(o, cfg)
    ensures forall step :: step in RouteSteps(o, cfg, first) ==> AddsRecordable(step, cfg, first)
  {
    AdvertisementNamed("");
    LoopsAdd(o, cfg, first);
    HopAndRouteBodies(o, cfg, first);
    BodiesAdd(RouteBodies(o.routes), cfg, first);
  }

  lemma StepAdds(o: Observation, cfg: Config, first: bool, step: ScanStep)
    requires Observed(o, cfg) && step in ScanSteps(o, cfg, first)
    ensures AddsRecordable(step, cfg, first)
  {
    if step in ConfigurationSteps(o) { ConfigurationAdds(o, cfg, first); }
    else if step in EndpointSteps(o, first) { EndpointsAdd(o, cfg, first); }
    else if step in HopSteps(o, cfg, first) { HopsAdd(o, cfg, first); }
    else { RoutesAdd(o, cfg, first); }
  }

  lemma ScheduledAdds(o: Observation, cfg: Config, first: bool, run: seq<ScanStep>, step: ScanStep)
    requires Observed(o, cfg) && Scheduled(run, ScanSteps(o, cfg, first)) && step in run
    ensures AddsRecordable(step, cfg, first)
  {
    var steps := ScanSteps(o, cfg, first);
    var i :| 0 <= i < |run| && run[i] == step;
    assert SameStep(run[i], steps[i]);
    StepAdds(o, cfg, first, steps[i]);
    if step.Bodies? {
      forall b | b in step.bodies ensures b in steps[i].bodies { ScheduleMembers(step.bodies, steps[i].bodies, b); }
      assert forall f :: Adds(step, f, cfg, first) ==> Adds(steps[i], f, cfg, first);
    }
  }

  // ----- over whole runs

  /** Runs of scheduled scans of such observations. */
  ghost predicate History(turns: seq<Turn>) {
    turns == [] ||
    (var t := turns[|turns| - 1];
     && History(turns[..|turns| - 1])
     && Observed(t.input.obs, t.input.cfg)
     && Scheduled(t.run, ScanSteps(t.input.obs, t.input.cfg, RunAll(turns[..|turns| - 1]).lastRun.None?)))
  }

  lemma TurnPrinted(s: MetallbScan.Status, t: Turn)
    requires Clean(s.lists) && Printed(s.lists.failed) && Observed(t.input.obs, t.input.cfg)
    requires Scheduled(t.run, ScanSteps(t.input.obs, t.input.cfg, s.lastRun.None?))
    ensures Printed(RunSteps(s.lists, t.run, t.input.cfg, s.lastRun.None?).lists.failed)
  {
    forall step | step in t.run ensures AddsRecordable(step, t.input.cfg, s.lastRun.None?) {
      ScheduledAdds(t.input.obs, t.input.cfg, s.lastRun.None?, t.run, step);
    }
    ScanPrinted(s.lists, t.run, t.input.cfg, s.lastRun.None?);
  }

  lemma {:induction false} HistoryPrinted(turns: seq<Turn>)
    requires History(turns)
    ensures Printed(RunAll(turns).lists.failed)
  {
    if turns != [] {
      var front, t := turns[..|turns| - 1], turns[|turns| - 1];
      HistoryPrinted(front);
      ReachableClean(front);
      TurnPrinted(RunAll(front), t);
      ReconcileLists(RunAll(front), t);
    }
  }

  /** A reconcile leaves the lists alone or as its scan leaves them. */
  lemma ReconcileLists(s: MetallbScan.Status, t: Turn)
    ensures Reconcile(s, t.input, t.run).lists in
            {s.lists, RunSteps(s.lists, t.run, t.input.cfg, s.lastRun.None?).lists}
  {
  }

  /** No run ever lists a pool as not advertised or a neighbor as not valid. */
  lemma DeadKindsNeverListed(turns: seq<Turn>, f: Failure)
    requires History(turns) && f.WellNamed() && DeadKind(f)
    ensures f.Render() !in RunAll(turns).lists.failed
  {
    HistoryPrinted(turns);
    if f.Render() in RunAll(turns).lists.failed {
      var g: Failure :| Recordable(g) && f.Render() == g.Render();
      RenderInjective(f, g);
      assert false;
    }
  }

  // ----- the update marker

  /** No other message starts like the update marker, whatever its arguments. */
  lemma MarkerLetter(f: Failure)
    ensures f.Render() == McpUpdating.Render() <==> f == McpUpdating
  {
    FirstLetter(f);
    FirstLetter(McpUpdating);
  }

  predicate Head(w: Word) {
    w.MachineConfigPool? || w.Service? || w.BGP? || w.One? || w.No?
  }

  lemma HeadToken(f: Failure)
    ensures Head(f.Tokens()[0]) && (f.Tokens()[0].MachineConfigPool? <==> f.McpUpdating?)
  {
  }

  lemma HeadLetter(w: Word)
    requires Head(w)
    ensures Spell(w) != [] && (Spell(w)[0] == 'M' <==> w.MachineConfigPool?)
  {
  }

  lemma FirstLetter(f: Failure)
    ensures f.Render() != [] && (f.Render()[0] == 'M' <==> f.McpUpdating?)
  {
    HeadToken(f);
    HeadLetter(f.Tokens()[0]);
    JoinStep(Spelled(f.Tokens()), ' ');
  }

  ghost predicate OffMarker(ops: seq<Op<Failure>>) {
    forall op :: op in ops ==> op.key != McpUpdating
  }

  lemma MarkerKept(s: seq<string>, ops: seq<Op<string>>)
    requires NoDup(s) && forall op :: op in ops ==> op.key != McpUpdating.Render()
    ensures McpUpdating.Render() in Run(s, ops) <==> McpUpdating.Render() in s
  {
    RunMembership(s, ops, McpUpdating.Render());
    LastOpSound(ops, McpUpdating.Render());
  }

  lemma OffMarkerText(ops: seq<Op<Failure>>)
    requires OffMarker(ops)
    ensures forall op :: op in RenderOps(ops) ==> op.key != McpUpdating.Render()
  {
    forall op | op in RenderOps(ops) ensures op.key != McpUpdating.Render() {
      var i :| 0 <= i < |ops| && RenderOps(ops)[i] == op;
      assert ops[i] in ops;
      MarkerLetter(ops[i].key);
    }
  }

  lemma OffMarkerPhase(bodies: seq<Body>, first: bool)
    requires forall b :: b in bodies ==> OffMarker(BodyOps(b, first))
    ensures forall op :: op in PhaseOps(bodies, first) ==> op.key != McpUpdating.Render()
  {
    forall op | op in PhaseOps(bodies, first) ensures op.key != McpUpdating.Render() {
      PhaseKey(bodies, first, op);
      var b, f :| b in bodies && f in BodyOps(b, first) && op == RenderOp(f);
      MarkerLetter(f.key);
    }
  }

  lemma {:induction false} DownOffMarker(name: string, services: seq<LbService>)
    ensures OffMarker(DownOps(name, services)) && OffMarker(MissingOps(name, services))
  {
    if services != [] { DownOffMarker(name, services[..|services| - 1]); }
  }

  lemma HopOffMarker(h: Hop, ignoreBfd: bool, first: bool)
    ensures OffMarker(StateOps(h, first)) && OffMarker(BfdOps(h, ignoreBfd, first))
  {
  }

  lemma BodyOffMarker(b: Body, first: bool)
    ensures OffMarker(BodyOps(b, first))
  {
    if b.DownBody? || b.MissingBody? { DownOffMarker(b.svcName, b.services); }
    if b.HopBody? { HopOffMarker(b.hop, b.ignoreBfd, first); }
  }

  lemma {:induction false} WorkersOffMarker(ws: seq<Worker>, cfg: Config)
    ensures OffMarker(WorkersOps(ws, cfg))
  {
    if ws != [] { WorkersOffMarker(ws[..|ws| - 1], cfg); }
  }

  /** A step that is not a gate leaves the update marker alone, but for a clean-up that
      may delete it. */
  ghost predicate MarkerQuiet(step: ScanStep) {
    step.Loop? ==> OffMarker(step.ops)
  }

  lemma NeighborsMarker(l: Lists, steps: seq<NeighborStep>, metalNs: string)
    requires Clean(l) && McpUpdating.Render() in NeighborEffects(l, steps, metalNs).failed
    ensures McpUpdating.Render() in l.failed
  {
    NeighborAdds(l, steps, metalNs, McpUpdating.Render());
    if McpUpdating.Render() !in l.failed {
      var n :| AtNode(n, true) in steps && McpUpdating.Render() == NoSpeaker(n, metalNs).Render();
      MarkerLetter(NoSpeaker(n, metalNs));
      assert false;
    }
  }

  lemma MarkerGate(l: Lists, cfg: Config, first: bool)
    requires Clean(l)
    ensures var m := Perform(l, Gate(false), cfg, first).lists;
            McpUpdating.Render() in m.failed <==> first && McpUpdating.Render() in l.failed
  {
    var ops := RenderOps(GateOps(false, first));
    TouchAllFailed(l, ops, false, cfg.incident);
    if first {
      assert ops == [];
    } else {
      assert ops == [Drop(McpUpdating.Render())];
      RunOne(l.failed, ops[0]);
      ApplyMembers(l.failed, ops[0]);
    }
  }

  lemma MarkerStep(l: Lists, step: ScanStep, cfg: Config, first: bool)
    requires Clean(l) && MarkerQuiet(step) && Perform(l, step, cfg, first).Going?
    requires first ==> !step.Neighbors? && !step.DeletedServices?
    ensures var m := Perform(l, step, cfg, first).lists;
            && (McpUpdating.Render() in m.failed ==> McpUpdating.Render() in l.failed)
            && (first && McpUpdating.Render() in l.failed ==> McpUpdating.Render() in m.failed)
  {
    match step
    case Gate(_) => MarkerGate(l, cfg, first);
    case Services(_) =>
    case Reading(_) =>
    case Bodies(bodies) =>
      forall b | b in bodies ensures OffMarker(BodyOps(b, first)) { BodyOffMarker(b, first); }
      OffMarkerPhase(bodies, first);
      TouchAllFailed(l, PhaseOps(bodies, first), cfg.notify, cfg.incident);
      MarkerKept(l.failed, PhaseOps(bodies, first));
    case Loop(ops, notify) =>
      OffMarkerText(ops);
      TouchAllFailed(l, RenderOps(ops), notify && cfg.notify, cfg.incident);
      MarkerKept(l.failed, RenderOps(ops));
    case Neighbors(steps, _) =>
      if McpUpdating.Render() in Perform(l, step, cfg, first).lists.failed { NeighborsMarker(l, steps, cfg.metalNs); }
    case DeletedServices(live) => CleanResultKeeps(l.failed, StaleIn(live));
  }

  lemma {:induction false} MarkerRun(l: Lists, run: seq<ScanStep>, cfg: Config, first: bool)
    requires Clean(l) && RunSteps(l, run, cfg, first).Going? && run != [] && run[0].Gate?
    requires forall s :: s in run ==> MarkerQuiet(s) && (first ==> !s.Neighbors? && !s.DeletedServices?)
    ensures McpUpdating.Render() in RunSteps(l, run, cfg, first).lists.failed <==>
              first && McpUpdating.Render() in l.failed
  {
    var front, step := run[..|run| - 1], run[|run| - 1];
    assert step in run;
    RunStepsClean(l, front, cfg, first);
    if front == [] {
      assert RunSteps(l, front, cfg, first) == Going(l);
      MarkerGate(l, cfg, first);
    } else {
      MarkerRun(l, front, cfg, first);
      MarkerStep(RunSteps(l, front, cfg, first).lists, step, cfg, first);
    }
  }

  ghost predicate QuietSteps(steps: seq<ScanStep>, first: bool) {
    forall s :: s in steps ==> MarkerQuiet(s) && (first ==> !s.Neighbors? && !s.DeletedServices?)
  }

  lemma EarlyStepsQuiet(o: Observation, first: bool)
    ensures QuietSteps(ConfigurationSteps(o) + EndpointSteps(o, first), first)
  {
    assert OffMarker(NoIpOps(o.noIp));
  }

  lemma LateStepsQuiet(o: Observation, cfg: Config, first: bool)
    ensures QuietSteps(HopSteps(o, cfg, first), first) && QuietSteps(RouteSteps(o, cfg, first), first)
  {
    WorkersOffMarker(o.workers, cfg);
    assert OffMarker(ProbeOps(o.probes, cfg));
  }

  lemma StepsMarkerQuiet(o: Observation, cfg: Config, first: bool)
    ensures QuietSteps(ScanSteps(o, cfg, first), first)
  {
    EarlyStepsQuiet(o, first);
    LateStepsQuiet(o, cfg, first);
  }

  /** A completed elapsed scan never lists the update marker.  A completed first scan
      lists it iff it was listed before: a first scan that stopped for an update leaves
      it behind, and the first scan that completes fails because of it. */
  lemma UpdateMarker(l: Lists, run: seq<ScanStep>, o: Observation, cfg: Config, first: bool)
    requires Clean(l) && Scheduled(run, ScanSteps(o, cfg, first))
    ensures RunSteps(l, run, cfg, first).Going? ==>
              (McpUpdating.Render() in RunSteps(l, run, cfg, first).lists.failed <==>
                first && McpUpdating.Render() in l.failed)
  {
    var steps := ScanSteps(o, cfg, first);
    StepsMarkerQuiet(o, cfg, first);
    assert steps[0] == Gate(o.updating1) && SameStep(run[0], steps[0]);
    forall s | s in run ensures MarkerQuiet(s) && (first ==> !s.Neighbors? && !s.DeletedServices?) {
      var i :| 0 <= i < |run| && run[i] == s;
      assert SameStep(run[i], steps[i]) && steps[i] in steps;
    }
    if RunSteps(l, run, cfg, first).Going? { MarkerRun(l, run, cfg, first); }
  }

  // ----- services without an IP

  /** What an elapsed scan that completes lists when at most one failure was stale
      before the deleted services were cleaned up. */
  lemma OneStaleCleaned(l: Lists, run: seq<ScanStep>, live: seq<string>, cfg: Config)
    requires Clean(l) && live != [] && RunSteps(l, run, cfg, false).Going?
    requires OneStaleAtMost(RunSteps(l, run, cfg, false).lists.failed, StaleIn(live))
    ensures var m := RunSteps(l, run, cfg, false).lists;
            RunSteps(l, run + [DeletedServices(live)], cfg, false) ==
              Going(m.(failed := Filter(m.failed, Live(StaleIn(live)))))
  {
    var m := RunSteps(l, run, cfg, false).lists;
    RunStepsClean(l, run, cfg, false);
    OneStaleIsCleaned(m.failed, StaleIn(live));
    assert (run + [DeletedServices(live)])[..|run|] == run;
  }
}
