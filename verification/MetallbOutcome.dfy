/** What a whole scan lists.  Each failure belongs to one step of the scan, and a scan
    that completes lists it iff that step, run on its own, does. */
module MetallbOutcome {
  import opened StatusLists
  import opened FailureMessages
  import opened StaleServices
  import opened CleanupLoop
  import opened MetallbPhases
  import opened MetallbScan
  import opened MetallbRuns
  import opened MetallbEntries
  import opened MetallbSchedules
  import opened MetallbSpeakers
  import opened SvcEndPoints

  // ----- what one step says about a failure

  function NeighborOps(steps: seq<NeighborStep>, metalNs: string): (r: seq<Op<Failure>>)
    requires forall s :: s in steps ==> s.AtNode?
    ensures |r| == |steps|
    ensures forall i :: 0 <= i < |r| ==> r[i] == NeighborOp(steps[i].node, steps[i].missing, metalNs)
  {
    seq(|steps|, i requires 0 <= i < |steps| =>
      assert steps[i] in steps;
      NeighborOp(steps[i].node, steps[i].missing, metalNs))
  }

  /** Steps whose effect on the set of failures is decided by their operations alone. */
  ghost predicate Orderly(step: ScanStep, cfg: Config, first: bool) {
    match step
    case Bodies(bodies) => WellNamedBodies(bodies, first) && BodiesAgree(bodies, first)
    case Loop(ops, _) => WellNamedOps(ops)
    case Neighbors(steps, _) => (forall s :: s in steps ==> s.AtNode? && Name(s.node)) && Name(cfg.metalNs)
    case DeletedServices(_) => false
    case _ => true
  }

  ghost function SaidByBodies(bodies: seq<Body>, f: Failure, first: bool): Option<bool> {
    if exists b :: b in bodies && Add(f) in BodyOps(b, first) then Some(true)
    else if exists b :: b in bodies && Drop(f) in BodyOps(b, first) then Some(false)
    else None
  }

  function SaidByOps(ops: seq<Op<Failure>>, f: Failure): Option<bool> {
    match LastOp(ops, f)
    case None => None
    case Some(op) => Some(op.Add?)
  }

  /** Whether the step lists the failure, clears it, or leaves it. */
  ghost function Says(step: ScanStep, f: Failure, cfg: Config, first: bool): Option<bool>
    requires Orderly(step, cfg, first)
  {
    match step
    case Gate(updating) => SaidByOps(GateOps(updating, first), f)
    case Bodies(bodies) => SaidByBodies(bodies, f, first)
    case Loop(ops, _) => SaidByOps(ops, f)
    case Neighbors(steps, _) => SaidByOps(NeighborOps(steps, cfg.metalNs), f)
    case _ => None
  }

  predicate Told(said: Option<bool>, before: bool) {
    match said
    case None => before
    case Some(listed) => listed
  }

  lemma OpsTell(s: seq<string>, ops: seq<Op<Failure>>, f: Failure)
    requires NoDup(s) && WellNamedOps(ops) && f.WellNamed()
    ensures f.Render() in Run(s, RenderOps(ops)) <==> Told(SaidByOps(ops, f), f.Render() in s)
  {
    ListedByLastOp(s, ops, f);
  }

  lemma {:induction false} NeighborsAreOps(l: Lists, steps: seq<NeighborStep>, metalNs: string)
    requires forall s :: s in steps ==> s.AtNode?
    ensures NeighborEffects(l, steps, metalNs).failed == Run(l.failed, RenderOps(NeighborOps(steps, metalNs)))
  {
    if steps != [] {
      var front, last := steps[..|steps| - 1], steps[|steps| - 1];
      assert last in steps;
      NeighborsAreOps(l, front, metalNs);
      var ops := RenderOps(NeighborOps(steps, metalNs));
      assert ops[..|ops| - 1] == RenderOps(NeighborOps(front, metalNs));
    }
  }

  lemma NeighborOpsNamed(steps: seq<NeighborStep>, metalNs: string)
    requires Name(metalNs) && forall s :: s in steps ==> s.AtNode? && Name(s.node)
    ensures WellNamedOps(NeighborOps(steps, metalNs))
  {
    forall op | op in NeighborOps(steps, metalNs) ensures op.key.WellNamed() {
      var i :| 0 <= i < |steps| && NeighborOps(steps, metalNs)[i] == op;
      assert steps[i] in steps;
      NodeNamed(steps[i].node, metalNs);
    }
  }

  lemma GateTells(l: Lists, updating: bool, cfg: Config, first: bool, f: Failure)
    requires Clean(l) && f.WellNamed()
    ensures f.Render() in Perform(l, Gate(updating), cfg, first).lists.failed
            <==> Told(SaidByOps(GateOps(updating, first), f), f.Render() in l.failed)
  {
    AdvertisementNamed("");
    TouchAllFailed(l, RenderOps(GateOps(updating, first)), false, cfg.incident);
    OpsTell(l.failed, GateOps(updating, first), f);
  }

  lemma BodiesTell(l: Lists, bodies: seq<Body>, cfg: Config, first: bool, f: Failure)
    requires Clean(l) && WellNamedBodies(bodies, first) && BodiesAgree(bodies, first) && f.WellNamed()
    ensures f.Render() in Perform(l, Bodies(bodies), cfg, first).lists.failed
            <==> Told(SaidByBodies(bodies, f, first), f.Render() in l.failed)
  {
    TouchAllFailed(l, PhaseOps(bodies, first), cfg.notify, cfg.incident);
    PhaseResult(l.failed, bodies, first, f);
  }

  lemma LoopTells(l: Lists, ops: seq<Op<Failure>>, notify: bool, cfg: Config, first: bool, f: Failure)
    requires Clean(l) && WellNamedOps(ops) && f.WellNamed()
    ensures f.Render() in Perform(l, Loop(ops, notify), cfg, first).lists.failed
            <==> Told(SaidByOps(ops, f), f.Render() in l.failed)
  {
    TouchAllFailed(l, RenderOps(ops), notify && cfg.notify, cfg.incident);
    OpsTell(l.failed, ops, f);
  }

  lemma NeighborsTell(l: Lists, steps: seq<NeighborStep>, metalNs: string, f: Failure)
    requires Clean(l) && f.WellNamed() && Name(metalNs) && forall s :: s in steps ==> s.AtNode? && Name(s.node)
    ensures f.Render() in NeighborEffects(l, steps, metalNs).failed
            <==> Told(SaidByOps(NeighborOps(steps, metalNs), f), f.Render() in l.failed)
  {
    NeighborsAreOps(l, steps, metalNs);
    NeighborOpsNamed(steps, metalNs);
    OpsTell(l.failed, NeighborOps(steps, metalNs), f);
  }

  lemma StepTells(l: Lists, step: ScanStep, cfg: Config, first: bool, f: Failure)
    requires Clean(l) && f.WellNamed() && Orderly(step, cfg, first)
    ensures f.Render() in Perform(l, step, cfg, first).lists.failed <==>
              Told(Says(step, f, cfg, first), f.Render() in l.failed)
  {
    match step
    case Gate(updating) => GateTells(l, updating, cfg, first, f);
    case Bodies(bodies) => BodiesTell(l, bodies, cfg, first, f);
    case Loop(ops, notify) => LoopTells(l, ops, notify, cfg, first, f);
    case Neighbors(steps, _) => NeighborsTell(l, steps, cfg.metalNs, f);
    case _ =>
  }

  // ----- what a run says

  ghost predicate OrderlySteps(steps: seq<ScanStep>, cfg: Config, first: bool) {
    forall s :: s in steps ==> Orderly(s, cfg, first)
  }

  ghost function LastSays(steps: seq<ScanStep>, f: Failure, cfg: Config, first: bool): Option<bool>
    requires OrderlySteps(steps, cfg, first)
  {
    if steps == [] then None
    else
      var said := Says(steps[|steps| - 1], f, cfg, first);
      if said.Some? then said else LastSays(steps[..|steps| - 1], f, cfg, first)
  }

  /** After a run that was not stopped, the last step with a say has its way. */
  lemma {:induction false} RunTells(l: Lists, run: seq<ScanStep>, cfg: Config, first: bool, f: Failure)
    requires Clean(l) && f.WellNamed() && OrderlySteps(run, cfg, first) && RunSteps(l, run, cfg, first).Going?
    ensures f.Render() in RunSteps(l, run, cfg, first).lists.failed <==>
              Told(LastSays(run, f, cfg, first), f.Render() in l.failed)
  {
    if run != [] {
      var front := run[..|run| - 1];
      RunTells(l, front, cfg, first, f);
      RunStepsClean(l, front, cfg, first);
      StepTells(RunSteps(l, front, cfg, first).lists, run[|run| - 1], cfg, first, f);
    }
  }

  lemma {:induction false} OneStepSays(steps: seq<ScanStep>, own: ScanStep, f: Failure, cfg: Config, first: bool)
    requires OrderlySteps(steps, cfg, first) && Orderly(own, cfg, first)
    requires forall s :: s in steps && Says(s, f, cfg, first).Some? ==> s == own
    ensures LastSays(steps, f, cfg, first) == if own in steps then Says(own, f, cfg, first) else None
  {
    if steps != [] {
      var front, last := steps[..|steps| - 1], steps[|steps| - 1];
      assert steps == front + [last] && last in steps;
      OneStepSays(front, own, f, cfg, first);
    }
  }

  lemma SameSays(a: ScanStep, b: ScanStep, f: Failure, cfg: Config, first: bool)
    requires SameStep(a, b) && Orderly(b, cfg, first)
    ensures Orderly(a, cfg, first) && Says(a, f, cfg, first) == Says(b, f, cfg, first)
  {
    if a.Bodies? {
      forall c ensures c in a.bodies <==> c in b.bodies {
        if b.Bodies? && IsSchedule(a.bodies, b.bodies) { ScheduleMembers(a.bodies, b.bodies, c); }
      }
    }
  }

  lemma {:induction false} ScheduleSays(run: seq<ScanStep>, steps: seq<ScanStep>, f: Failure, cfg: Config, first: bool)
    requires Scheduled(run, steps) && OrderlySteps(steps, cfg, first)
    ensures OrderlySteps(run, cfg, first) && LastSays(run, f, cfg, first) == LastSays(steps, f, cfg, first)
    decreases |run|
  {
    forall s | s in run ensures Orderly(s, cfg, first) {
      var i :| 0 <= i < |run| && run[i] == s;
      assert steps[i] in steps && SameStep(run[i], steps[i]);
      SameSays(run[i], steps[i], f, cfg, first);
    }
    if run != [] {
      var n := |run| - 1;
      assert steps[n] in steps && SameStep(run[n], steps[n]);
      SameSays(run[n], steps[n], f, cfg, first);
      ScheduleSays(run[..n], steps[..n], f, cfg, first);
    }
  }

  // ----- each failure belongs to one step

  /** The steps of a scan behind the hops, but for its last clean-up. */
  function BehindHops(o: Observation, cfg: Config): seq<ScanStep> {
    [Gate(o.updating4), Loop(ProbeOps(o.probes, cfg), false), Reading(o.routesPanic), Bodies(RouteBodies(o.routes))]
  }

  /** The steps of a plain scan behind the endpoint phases. */
  function LateSteps(o: Observation, cfg: Config, first: bool): seq<ScanStep> {
    HopSteps(o, cfg, first) + BehindHops(o, cfg)
  }

  /** The scan without its last clean-up. */
  function PlainSteps(o: Observation, cfg: Config, first: bool): seq<ScanStep> {
    ConfigurationSteps(o) + EndpointSteps(o, first) + LateSteps(o, cfg, first)
  }

  lemma ScanEnd(o: Observation, cfg: Config, first: bool)
    ensures ScanSteps(o, cfg, first) == PlainSteps(o, cfg, first) + if first then [] else [DeletedServices(o.live)]
  {
  }

  /** Speakers found missing by the clean-up of neighbors are no failures of the walk. */
  ghost predicate OwnStep(f: Failure, o: Observation) {
    !f.McpUpdating? && (f.NoSpeaker? ==> forall n :: n in o.neighbors ==> n.AtNode? && n.node != f.node)
  }

  function StepOf(f: Failure, o: Observation, cfg: Config, first: bool): ScanStep {
    match f
    case McpUpdating => Gate(o.updating1)
    case NoIp(_, _) => Loop(NoIpOps(o.noIp), true)
    case NotInPool(_, _) => Bodies(PeerBodies(o.peers))
    case PoolNotAdvertised(_, _, _) => Bodies(AdBodies(o.ads))
    case NoPeers(_) => Bodies(AdBodies(o.ads))
    case PodNotRunning(_, _) => Bodies(EndpointBodies(o.services, first))
    case NoTargetPods(_, _) => Bodies(TargetBodies(o.services, first))
    case NotEstablished(_, _) => Bodies(HopBodies(o.hops, cfg.ignoreBfd))
    case NotValid(_, _) => Bodies(HopBodies(o.hops, cfg.ignoreBfd))
    case BadBfd(_, _) => Bodies(HopBodies(o.hops, cfg.ignoreBfd))
    case RouteNotAdvertised(_, _, _, _) => Bodies(RouteBodies(o.routes))
    case RouteNotBest(_, _, _, _, _) => Bodies(RouteBodies(o.routes))
    case NoRunningSpeaker(_, _) => Loop(ProbeOps(o.probes, cfg), false)
    case NoSpeaker(_, _) => Loop(WorkersOps(o.workers, cfg), false)
    case NoHops(_, _) => Loop(WorkersOps(o.workers, cfg), false)
  }

  lemma SaidKey(ops: seq<Op<Failure>>, f: Failure)
    requires SaidByOps(ops, f).Some?
    ensures exists op :: op in ops && op.key == f
  {
    LastOpSound(ops, f);
  }

  lemma SaidBody(bodies: seq<Body>, f: Failure, first: bool)
    requires SaidByBodies(bodies, f, first).Some?
    ensures exists b, op :: b in bodies && op in BodyOps(b, first) && op.key == f
  {
    if b :| b in bodies && Add(f) in BodyOps(b, first) {
      assert Add(f).key == f;
    } else {
      var b :| b in bodies && Drop(f) in BodyOps(b, first);
      assert Drop(f).key == f;
    }
  }

  lemma {:induction false} WorkersKeys(ws: seq<Worker>, cfg: Config)
    ensures forall op :: op in WorkersOps(ws, cfg) ==> op.key.NoSpeaker? || op.key.NoHops?
  {
    if ws != [] { WorkersKeys(ws[..|ws| - 1], cfg); }
  }

  lemma LoopKeys(o: Observation, cfg: Config)
    ensures forall op :: op in NoIpOps(o.noIp) ==> op.key.NoIp?
    ensures forall op :: op in WorkersOps(o.workers, cfg) ==> op.key.NoSpeaker? || op.key.NoHops?
    ensures forall op :: op in ProbeOps(o.probes, cfg) ==> op.key.NoRunningSpeaker?
  {
    WorkersKeys(o.workers, cfg);
  }

  lemma {:induction false} ServiceLoopKeys(name: string, services: seq<LbService>)
    ensures forall op :: op in DownOps(name, services) ==> op.key.PodNotRunning?
    ensures forall op :: op in MissingOps(name, services) ==> op.key.NoTargetPods?
  {
    if services != [] { ServiceLoopKeys(name, services[..|services| - 1]); }
  }

  /** The kinds of failure a body is about. */
  predicate BodyAbout(b: Body, f: Failure) {
    match b
    case PeerBody(_) => f.NotInPool?
    case AdBody(_) => f.PoolNotAdvertised? || f.NoPeers?
    case DownBody(_, _) => f.PodNotRunning?
    case MissingBody(_, _) => f.NoTargetPods?
    case UpBody(_) => f.PodNotRunning?
    case TargetsBody(_) => f.NoTargetPods?
    case HopBody(_, _) => f.NotEstablished? || f.NotValid? || f.BadBfd?
    case RouteBody(_) => f.RouteNotAdvertised? || f.RouteNotBest?
  }

  lemma HopKeys(h: Hop, ignoreBfd: bool, first: bool)
    ensures forall op :: op in BodyOps(HopBody(h, ignoreBfd), first) ==> BodyAbout(HopBody(h, ignoreBfd), op.key)
  {
  }

  lemma BodyKeys(b: Body, first: bool, op: Op<Failure>)
    requires op in BodyOps(b, first)
    ensures BodyAbout(b, op.key)
  {
    if b.DownBody? || b.MissingBody? { ServiceLoopKeys(b.svcName, b.services); }
    if b.HopBody? { HopKeys(b.hop, b.ignoreBfd, first); }
  }

  lemma BodiesAbout(bodies: seq<Body>, f: Failure, first: bool)
    requires SaidByBodies(bodies, f, first).Some?
    ensures exists b :: b in bodies && BodyAbout(b, f)
  {
    SaidBody(bodies, f, first);
    var b, op :| b in bodies && op in BodyOps(b, first) && op.key == f;
    BodyKeys(b, first, op);
  }

  lemma GateSays(updating: bool, first: bool, f: Failure)
    requires !f.McpUpdating?
    ensures SaidByOps(GateOps(updating, first), f) == None
  {
    LastOpSound(GateOps(updating, first), f);
  }

  lemma NeighborsOwn(o: Observation, cfg: Config, f: Failure)
    requires OwnStep(f, o) && forall s :: s in o.neighbors ==> s.AtNode?
    ensures SaidByOps(NeighborOps(o.neighbors, cfg.metalNs), f) == None
  {
    var ops := NeighborOps(o.neighbors, cfg.metalNs);
    forall op | op in ops ensures op.key != f {
      var i :| 0 <= i < |ops| && ops[i] == op;
      assert o.neighbors[i] in o.neighbors;
    }
    LastOpSound(ops, f);
  }

  /** The kinds a step is about. */
  ghost predicate StepAbout(step: ScanStep, f: Failure) {
    match step
    case Bodies(bodies) => exists b :: b in bodies && BodyAbout(b, f)
    case Loop(ops, _) => exists op :: op in ops && op.key == f
    case _ => false
  }

  lemma SaysAbout(o: Observation, cfg: Config, first: bool, step: ScanStep, f: Failure)
    requires Orderly(step, cfg, first) && !f.McpUpdating? && Says(step, f, cfg, first).Some?
    requires step.Neighbors? ==> OwnStep(f, o) && step.steps == o.neighbors
    ensures StepAbout(step, f)
  {
    match step
    case Gate(updating) => GateSays(updating, first, f);
    case Loop(ops, _) => SaidKey(ops, f);
    case Bodies(bodies) => BodiesAbout(bodies, f, first);
    case Neighbors(_, _) => NeighborsOwn(o, cfg, f);
    case _ =>
  }

  lemma ConfigurationOwn(o: Observation, cfg: Config, first: bool, step: ScanStep, f: Failure)
    requires step in ConfigurationSteps(o) && StepAbout(step, f)
    ensures step == StepOf(f, o, cfg, first)
  {
    LoopKeys(o, cfg);
  }

  lemma EndpointKinds(services: seq<LbService>, first: bool)
    ensures forall b :: b in EndpointBodies(services, first) ==> b.DownBody? || b.UpBody?
    ensures forall b :: b in TargetBodies(services, first) ==> b.MissingBody? || b.TargetsBody?
  {
  }

  lemma EndpointOwn(o: Observation, cfg: Config, first: bool, step: ScanStep, f: Failure)
    requires step in EndpointSteps(o, first) && StepAbout(step, f)
    ensures step == StepOf(f, o, cfg, first)
  {
    EndpointKinds(o.services, first);
  }

  lemma HopOwn(o: Observation, cfg: Config, first: bool, step: ScanStep, f: Failure)
    requires step in HopSteps(o, cfg, first) && StepAbout(step, f)
    ensures step == StepOf(f, o, cfg, first)
  {
    LoopKeys(o, cfg);
  }

  lemma RouteOwn(o: Observation, cfg: Config, first: bool, step: ScanStep, f: Failure)
    requires step in RouteSteps(o, cfg, first) && StepAbout(step, f)
    ensures step == StepOf(f, o, cfg, first)
  {
    LoopKeys(o, cfg);
  }

  lemma AboutOwn(o: Observation, cfg: Config, first: bool, step: ScanStep, f: Failure)
    requires step in ScanSteps(o, cfg, first) && StepAbout(step, f)
    ensures step == StepOf(f, o, cfg, first)
  {
    if step in ConfigurationSteps(o) { ConfigurationOwn(o, cfg, first, step, f); }
    else if step in EndpointSteps(o, first) { EndpointOwn(o, cfg, first, step, f); }
    else if step in HopSteps(o, cfg, first) { HopOwn(o, cfg, first, step, f); }
    else { RouteOwn(o, cfg, first, step, f); }
  }

  lemma NeighborsOfScan(o: Observation, cfg: Config, first: bool, step: ScanStep)
    requires step in ScanSteps(o, cfg, first) && step.Neighbors?
    ensures step.steps == o.neighbors
  {
  }

  lemma OwnStepOnly(o: Observation, cfg: Config, first: bool, step: ScanStep, f: Failure)
    requires step in ScanSteps(o, cfg, first) && Orderly(step, cfg, first)
    requires !f.McpUpdating? && (step.Neighbors? ==> OwnStep(f, o))
    requires Says(step, f, cfg, first).Some?
    ensures step == StepOf(f, o, cfg, first)
  {
    if step.Neighbors? { NeighborsOfScan(o, cfg, first, step); }
    SaysAbout(o, cfg, first, step, f);
    AboutOwn(o, cfg, first, step, f);
  }

  lemma EarlyStepsThere(o: Observation, first: bool)
    ensures var c, e := ConfigurationSteps(o), EndpointSteps(o, first);
            && Gate(o.updating1) in c && Loop(NoIpOps(o.noIp), true) in c
            && Bodies(PeerBodies(o.peers)) in c && Bodies(AdBodies(o.ads)) in c
            && Bodies(EndpointBodies(o.services, first)) in e && Bodies(TargetBodies(o.services, first)) in e
  {
    var c, e := ConfigurationSteps(o), EndpointSteps(o, first);
    assert c[0] in c && c[2] in c && c[4] in c && c[5] in c && e[1] in e && e[2] in e;
  }

  lemma LateStepsThere(o: Observation, cfg: Config, first: bool)
    ensures var t := LateSteps(o, cfg, first);
            && Loop(WorkersOps(o.workers, cfg), false) in t && Bodies(HopBodies(o.hops, cfg.ignoreBfd)) in t
            && Loop(ProbeOps(o.probes, cfg), false) in t && Bodies(RouteBodies(o.routes)) in t
  {
    var h, t := HopSteps(o, cfg, first), LateSteps(o, cfg, first);
    assert t[1] in t && t[3] in t && t[|h| + 1] in t && t[|h| + 3] in t;
  }

  lemma OwnStepThere(o: Observation, cfg: Config, first: bool, f: Failure)
    ensures StepOf(f, o, cfg, first) in PlainSteps(o, cfg, first)
  {
    EarlyStepsThere(o, first);
    LateStepsThere(o, cfg, first);
    var own := StepOf(f, o, cfg, first);
    if f.PodNotRunning? || f.NoTargetPods? {
      assert own in EndpointSteps(o, first);
    } else if f.McpUpdating? || f.NoIp? || f.NotInPool? || f.PoolNotAdvertised? || f.NoPeers? {
      assert own in ConfigurationSteps(o);
    } else {
      assert own in LateSteps(o, cfg, first);
    }
  }

  // ----- what a whole scan lists

  /** What a failure's own step makes of it, from whether it was listed before. */
  ghost predicate OwnVerdict(f: Failure, before: bool, o: Observation, cfg: Config, first: bool) {
    f.Render() in Perform(Lists(if before then [f.Render()] else [], []),
        StepOf(f, o, cfg, first), cfg, first).lists.failed
  }

  /** A scan that reaches its end lists a failure, before the last clean-up, iff the
      failure's own step does: no other step adds it or takes it away. */
  lemma ScanLists(l: Lists, run: seq<ScanStep>, o: Observation, cfg: Config, first: bool, f: Failure)
    requires Clean(l) && f.WellNamed() && OwnStep(f, o)
    requires Scheduled(run, PlainSteps(o, cfg, first)) && OrderlySteps(PlainSteps(o, cfg, first), cfg, first)
    requires RunSteps(l, run, cfg, first).Going?
    ensures f.Render() in RunSteps(l, run, cfg, first).lists.failed <==>
              OwnVerdict(f, f.Render() in l.failed, o, cfg, first)
  {
    var steps := PlainSteps(o, cfg, first);
    assert steps[..|steps|] == steps;
    OwnStepThere(o, cfg, first, f);
    PrefixLists(l, run, o, cfg, first, |steps|, f);
  }

  /** What the steps up to `n` say about a failure is what its own step says. */
  lemma PrefixSays(o: Observation, cfg: Config, first: bool, n: nat, f: Failure)
    requires n <= |PlainSteps(o, cfg, first)| && OrderlySteps(PlainSteps(o, cfg, first), cfg, first) && OwnStep(f, o)
    ensures var steps, own := PlainSteps(o, cfg, first), StepOf(f, o, cfg, first);
            && OrderlySteps(steps[..n], cfg, first) && Orderly(own, cfg, first)
            && LastSays(steps[..n], f, cfg, first) == if own in steps[..n] then Says(own, f, cfg, first) else None
  {
    var steps, own := PlainSteps(o, cfg, first), StepOf(f, o, cfg, first);
    ScanEnd(o, cfg, first);
    OwnStepThere(o, cfg, first, f);
    forall s | s in steps[..n] && Says(s, f, cfg, first).Some? ensures s == own {
      assert s in steps;
      OwnStepOnly(o, cfg, first, s, f);
    }
    OneStepSays(steps[..n], own, f, cfg, first);
  }

  lemma PrefixScheduled(run: seq<ScanStep>, steps: seq<ScanStep>, n: nat)
    requires n < |steps| && Scheduled(run, steps[..n + 1])
    ensures Scheduled(run[..n], steps[..n])
  {
    forall i | 0 <= i < n ensures SameStep(run[..n][i], steps[..n][i]) {
      assert SameStep(run[i], steps[..n + 1][i]);
    }
  }
  /** A scan that has got this far lists a failure iff the failure's own step does, if that
      is behind it, and iff it was listed before otherwise. */
  lemma PrefixLists(l: Lists, run: seq<ScanStep>, o: Observation, cfg: Config, first: bool, n: nat, f: Failure)
    requires Clean(l) && f.WellNamed() && OwnStep(f, o) && n <= |PlainSteps(o, cfg, first)|
    requires Scheduled(run, PlainSteps(o, cfg, first)[..n]) && OrderlySteps(PlainSteps(o, cfg, first), cfg, first)
    requires RunSteps(l, run, cfg, first).Going?
    ensures var before := f.Render() in l.failed;
            f.Render() in RunSteps(l, run, cfg, first).lists.failed <==>
              if StepOf(f, o, cfg, first) in PlainSteps(o, cfg, first)[..n] then OwnVerdict(f, before, o, cfg, first)
              else before
  {
    PrefixSays(o, cfg, first, n, f);
    ScheduleSays(run, PlainSteps(o, cfg, first)[..n], f, cfg, first);
    RunTells(l, run, cfg, first, f);
    StepTells(Lists(if f.Render() in l.failed then [f.Render()] else [], []), StepOf(f, o, cfg, first), cfg, first, f);
  }

  // ----- speakers the clean-up of neighbors looks for again

  /** Whether the last look at the node found no speaker there. */
  function LastLook(steps: seq<NeighborStep>, node: string): Option<bool> {
    if steps == [] then None
    else
      var s := steps[|steps| - 1];
      if s.AtNode? && s.node == node then Some(s.missing) else LastLook(steps[..|steps| - 1], node)
  }

  function LookedAt(f: Failure, o: Observation, cfg: Config): Option<bool> {
    if f.NoSpeaker? && f.ns == cfg.metalNs then LastLook(o.neighbors, f.node) else None
  }

  lemma {:induction false} LookSaid(steps: seq<NeighborStep>, node: string, metalNs: string)
    requires forall s :: s in steps ==> s.AtNode?
    ensures SaidByOps(NeighborOps(steps, metalNs), NoSpeaker(node, metalNs)) == LastLook(steps, node)
  {
    if steps != [] {
      var front, last := steps[..|steps| - 1], steps[|steps| - 1];
      assert last in steps;
      LookSaid(front, node, metalNs);
      assert NeighborOps(steps, metalNs)[..|front|] == NeighborOps(front, metalNs);
    }
  }

  lemma NeighborsSaid(o: Observation, cfg: Config, f: Failure)
    requires forall s :: s in o.neighbors ==> s.AtNode?
    ensures SaidByOps(NeighborOps(o.neighbors, cfg.metalNs), f) == LookedAt(f, o, cfg)
  {
    if f.NoSpeaker? && f.ns == cfg.metalNs {
      LookSaid(o.neighbors, f.node, cfg.metalNs);
    } else {
      LastOpSound(NeighborOps(o.neighbors, cfg.metalNs), f);
    }
  }

  /** What an elapsed scan makes of a failure before its last clean-up: a speaker the
      clean-up of neighbors looked for is judged by that, everything else by its own step. */
  ghost predicate FinalVerdict(f: Failure, before: bool, o: Observation, cfg: Config) {
    match LookedAt(f, o, cfg)
    case Some(missing) => missing
    case None => OwnVerdict(f, before, o, cfg, false)
  }

  lemma {:induction false} LastSaysAppend(a: seq<ScanStep>, b: seq<ScanStep>, f: Failure, cfg: Config, first: bool)
    requires OrderlySteps(a, cfg, first) && OrderlySteps(b, cfg, first)
    ensures OrderlySteps(a + b, cfg, first)
    ensures LastSays(a + b, f, cfg, first) ==
              if LastSays(b, f, cfg, first).Some? then LastSays(b, f, cfg, first) else LastSays(a, f, cfg, first)
  {
    OrderlyAppend(a, b, cfg, first);
    if b == [] {
      assert a + b == a;
    } else {
      assert (a + b)[..|a + b| - 1] == a + b[..|b| - 1];
      LastSaysAppend(a, b[..|b| - 1], f, cfg, first);
    }
  }

  /** The hop phases before the clean-up of neighbors. */
  function HopWalk(o: Observation, cfg: Config): seq<ScanStep> {
    [Gate(o.updating3), Loop(WorkersOps(o.workers, cfg), false), Reading(o.hopsPanic),
     Bodies(HopBodies(o.hops, cfg.ignoreBfd))]
  }

  function UpToHops(o: Observation, cfg: Config): seq<ScanStep> {
    ConfigurationSteps(o) + EndpointSteps(o, false) + HopWalk(o, cfg)
  }

  lemma AroundNeighbors(o: Observation, cfg: Config)
    ensures PlainSteps(o, cfg, false) ==
            UpToHops(o, cfg) + [Neighbors(o.neighbors, o.neighborsPanic)] + BehindHops(o, cfg)
  {
    assert HopSteps(o, cfg, false) == HopWalk(o, cfg) + [Neighbors(o.neighbors, o.neighborsPanic)];
  }

  lemma NoNeighborsBefore(o: Observation, cfg: Config, s: ScanStep)
    requires s in UpToHops(o, cfg)
    ensures s in ScanSteps(o, cfg, false) && !s.Neighbors?
  {
    AroundNeighbors(o, cfg);
    ScanEnd(o, cfg, false);
    assert s in PlainSteps(o, cfg, false);
    EarlyPlain(o, s);
  }

  lemma EarlyPlain(o: Observation, s: ScanStep)
    ensures s.Neighbors? ==> s !in ConfigurationSteps(o) && s !in EndpointSteps(o, false)
  {
  }

  lemma WalkBefore(o: Observation, cfg: Config)
    ensures Loop(WorkersOps(o.workers, cfg), false) in UpToHops(o, cfg)
  {
    assert HopWalk(o, cfg)[1] in HopWalk(o, cfg);
  }

  lemma {:induction false} SilentSteps(steps: seq<ScanStep>, f: Failure, cfg: Config, first: bool)
    requires OrderlySteps(steps, cfg, first) && forall s :: s in steps ==> Says(s, f, cfg, first).None?
    ensures LastSays(steps, f, cfg, first) == None
  {
    if steps != [] {
      assert steps[|steps| - 1] in steps;
      SilentSteps(steps[..|steps| - 1], f, cfg, first);
    }
  }

  lemma SilentBehind(o: Observation, cfg: Config, f: Failure)
    requires f.NoSpeaker? && OrderlySteps(BehindHops(o, cfg), cfg, false)
    ensures LastSays(BehindHops(o, cfg), f, cfg, false) == None
  {
    var routes := Bodies(RouteBodies(o.routes));
    assert Says(routes, f, cfg, false).None? by {
      if Says(routes, f, cfg, false).Some? { BodiesAbout(RouteBodies(o.routes), f, false); }
    }
    GateSays(o.updating4, false, f);
    LastOpSound(ProbeOps(o.probes, cfg), f);
    SilentSteps(BehindHops(o, cfg), f, cfg, false);
  }

  lemma UpToHopsSays(o: Observation, cfg: Config, f: Failure)
    requires f.NoSpeaker? && OrderlySteps(UpToHops(o, cfg), cfg, false)
    ensures var own := StepOf(f, o, cfg, false);
            Orderly(own, cfg, false) && LastSays(UpToHops(o, cfg), f, cfg, false) == Says(own, f, cfg, false)
  {
    var a, own := UpToHops(o, cfg), StepOf(f, o, cfg, false);
    WalkBefore(o, cfg);
    forall s | s in a && Says(s, f, cfg, false).Some? ensures s == own {
      NoNeighborsBefore(o, cfg, s);
      OwnStepOnly(o, cfg, false, s, f);
    }
    OneStepSays(a, own, f, cfg, false);
  }

  lemma SpeakerSteps(o: Observation, cfg: Config, f: Failure)
    requires f.NoSpeaker? && (forall s :: s in o.neighbors ==> s.AtNode?)
    requires OrderlySteps(PlainSteps(o, cfg, false), cfg, false)
    ensures var own := StepOf(f, o, cfg, false);
            Orderly(own, cfg, false) &&
            LastSays(PlainSteps(o, cfg, false), f, cfg, false) ==
              if LookedAt(f, o, cfg).Some? then LookedAt(f, o, cfg) else Says(own, f, cfg, false)
  {
    var a, n, b := UpToHops(o, cfg), [Neighbors(o.neighbors, o.neighborsPanic)], BehindHops(o, cfg);
    AroundNeighbors(o, cfg);
    assert OrderlySteps(a, cfg, false) && OrderlySteps(n, cfg, false) && OrderlySteps(b, cfg, false) by {
      PartsOrderly(a, n, b, cfg);
    }
    UpToHopsSays(o, cfg, f);
    SilentBehind(o, cfg, f);
    NeighborsSaid(o, cfg, f);
    LastSaysAppend(a, n, f, cfg, false);
    LastSaysAppend(a + n, b, f, cfg, false);
    assert n[..0] == [] && LastSays(n, f, cfg, false) == LookedAt(f, o, cfg);
  }

  lemma PartsOrderly(a: seq<ScanStep>, b: seq<ScanStep>, c: seq<ScanStep>, cfg: Config)
    requires OrderlySteps(a + b + c, cfg, false)
    ensures OrderlySteps(a, cfg, false) && OrderlySteps(b, cfg, false) && OrderlySteps(c, cfg, false)
  {
    assert forall s :: s in a || s in b || s in c ==> s in a + b + c;
  }

  lemma SpeakerLists(l: Lists, run: seq<ScanStep>, o: Observation, cfg: Config, f: Failure)
    requires Clean(l) && f.WellNamed() && f.NoSpeaker? && (forall s :: s in o.neighbors ==> s.AtNode?)
    requires Scheduled(run, PlainSteps(o, cfg, false)) && OrderlySteps(PlainSteps(o, cfg, false), cfg, false)
    requires RunSteps(l, run, cfg, false).Going?
    ensures f.Render() in RunSteps(l, run, cfg, false).lists.failed <==>
              FinalVerdict(f, f.Render() in l.failed, o, cfg)
  {
    SpeakerSteps(o, cfg, f);
    ScheduleSays(run, PlainSteps(o, cfg, false), f, cfg, false);
    RunTells(l, run, cfg, false, f);
    StepTells(Lists(if f.Render() in l.failed then [f.Render()] else [], []), StepOf(f, o, cfg, false), cfg, false, f);
  }

  /** An elapsed scan that reaches its last clean-up lists a failure there iff its final
      verdict says so. */
  lemma FinalLists(l: Lists, run: seq<ScanStep>, o: Observation, cfg: Config, f: Failure)
    requires Clean(l) && f.WellNamed() && !f.McpUpdating? && (forall s :: s in o.neighbors ==> s.AtNode?)
    requires Scheduled(run, PlainSteps(o, cfg, false)) && OrderlySteps(PlainSteps(o, cfg, false), cfg, false)
    requires RunSteps(l, run, cfg, false).Going?
    ensures f.Render() in RunSteps(l, run, cfg, false).lists.failed <==>
              FinalVerdict(f, f.Render() in l.failed, o, cfg)
  {
    if f.NoSpeaker? { SpeakerLists(l, run, o, cfg, f); } else { ScanLists(l, run, o, cfg, false, f); }
  }

  /** The whole elapsed scan, when at most one failure is stale before its last clean-up:
      that one goes as well. */
  lemma ElapsedScanLists(l: Lists, run: seq<ScanStep>, o: Observation, cfg: Config, f: Failure)
    requires Clean(l) && f.WellNamed() && !f.McpUpdating? && (forall s :: s in o.neighbors ==> s.AtNode?)
    requires Scheduled(run, PlainSteps(o, cfg, false)) && OrderlySteps(PlainSteps(o, cfg, false), cfg, false)
    requires RunSteps(l, run, cfg, false).Going?
    requires o.live == [] || OneStale(RunSteps(l, run, cfg, false).lists.failed, o.live)
    ensures var r := RunSteps(l, run + [DeletedServices(o.live)], cfg, false);
            && r.Going?
            && (f.Render() in r.lists.failed <==>
                  FinalVerdict(f, f.Render() in l.failed, o, cfg)
                    && (o.live == [] || !NamesMissingService(f, o.live)))
  {
    FinalLists(l, run, o, cfg, f);
    LastCleanup(l, run, o.live, cfg, f);
  }

  lemma LastCleanup(l: Lists, run: seq<ScanStep>, live: seq<string>, cfg: Config, f: Failure)
    requires Clean(l) && f.WellNamed()
    requires RunSteps(l, run, cfg, false).Going?
    requires live == [] || OneStale(RunSteps(l, run, cfg, false).lists.failed, live)
    ensures var m, r := RunSteps(l, run, cfg, false).lists.failed,
                    RunSteps(l, run + [DeletedServices(live)], cfg, false);
            && r.Going?
            && (f.Render() in r.lists.failed <==> f.Render() in m && (live == [] || !NamesMissingService(f, live)))
  {
    assert (run + [DeletedServices(live)])[..|run|] == run;
    if live != [] {
      OneStaleCleaned(l, run, live, cfg);
      StaysIff(RunSteps(l, run, cfg, false).lists.failed, live, f);
    }
  }

  lemma StaysIff(m: seq<string>, live: seq<string>, f: Failure)
    requires f.WellNamed()
    ensures f.Render() in Filter(m, Live(StaleIn(live))) <==> f.Render() in m && !NamesMissingService(f, live)
  {
    StaleMeaning(f, live);
    assert Live(StaleIn(live))(f.Render()) == !IsStale(f.Render(), live);
  }

  // ----- observations whose phases agree

  /** No two records that share a message disagree, no neighbor is deleted by index, and
      pools have names too. */
  ghost predicate Agreeing(o: Observation, cfg: Config) {
    && PeersAgree(o.peers) && AdsAgree(o.ads) && HopsAgree(o.hops, false) && RoutesAgree(o.routes)
    && (forall n :: n in o.neighbors ==> n.AtNode?)
    && (forall a :: a in o.ads ==> NamedAd(a))
  }

  lemma PeersOrderly(o: Observation, cfg: Config)
    requires Observed(o, cfg) && Agreeing(o, cfg)
    ensures Orderly(Bodies(PeerBodies(o.peers)), cfg, false)
  {
    var bodies := PeerBodies(o.peers);
    PeersAgreeIff(o.peers);
    forall b | b in bodies ensures WellNamedOps(BodyOps(b, false)) { ServiceNamed(b.peer.name, b.peer.ns); }
  }

  lemma AdsOrderly(o: Observation, cfg: Config)
    requires Observed(o, cfg) && Agreeing(o, cfg)
    ensures Orderly(Bodies(AdBodies(o.ads)), cfg, false)
  {
    AdsAgreeIff(o.ads);
    AdsWellNamed(o.ads);
  }

  lemma HopsAgreeEitherWay(hops: seq<Hop>, ignoreBfd: bool)
    requires HopsAgree(hops, false)
    ensures HopsAgree(hops, ignoreBfd)
  {
  }

  lemma HopsOrderly(hops: seq<Hop>, cfg: Config)
    requires HopsAgree(hops, false) && forall h :: h in hops ==> Name(h.ip) && Name(h.node)
    ensures Orderly(Bodies(HopBodies(hops, cfg.ignoreBfd)), cfg, false)
  {
    HopsAgreeEitherWay(hops, cfg.ignoreBfd);
    HopsAgreeIff(hops, cfg.ignoreBfd);
    HopsWellNamed(hops, cfg.ignoreBfd);
  }

  lemma RoutesOrderly(o: Observation, cfg: Config)
    requires Observed(o, cfg) && Agreeing(o, cfg)
    ensures Orderly(Bodies(RouteBodies(o.routes)), cfg, false)
  {
    RoutesAgreeIff(o.routes);
    RoutesWellNamed(o.routes);
  }

  lemma EndpointsOrderly(o: Observation, cfg: Config)
    requires Observed(o, cfg)
    ensures Orderly(Bodies(EndpointBodies(o.services, false)), cfg, false)
    ensures Orderly(Bodies(TargetBodies(o.services, false)), cfg, false)
  {
    EndpointBodiesWellNamed(o.services);
    EndpointsAgree(o.services);
    TargetBodiesWellNamed(o.services);
    TargetsAgree(o.services);
  }

  lemma LoopsOrderly(o: Observation, cfg: Config, first: bool)
    requires Observed(o, cfg)
    ensures Orderly(Loop(NoIpOps(o.noIp), true), cfg, first)
    ensures Orderly(Loop(WorkersOps(o.workers, cfg), false), cfg, first)
    ensures Orderly(Loop(ProbeOps(o.probes, cfg), false), cfg, first)
  {
    forall op | op in NoIpOps(o.noIp) ensures op.key.WellNamed() {
      var i :| 0 <= i < |o.noIp| && NoIpOps(o.noIp)[i] == op;
      assert o.noIp[i] in o.noIp;
      ServiceNamed(o.noIp[i].name, o.noIp[i].ns);
    }
    WorkersWellNamed(o.workers, cfg);
    ProbesWellNamed(o.probes, cfg);
  }

  lemma OrderlyAppend(a: seq<ScanStep>, b: seq<ScanStep>, cfg: Config, first: bool)
    requires OrderlySteps(a, cfg, first) && OrderlySteps(b, cfg, first)
    ensures OrderlySteps(a + b, cfg, first)
  {
  }

  lemma EarlyOrderly(o: Observation, cfg: Config)
    requires Observed(o, cfg) && Agreeing(o, cfg)
    ensures OrderlySteps(ConfigurationSteps(o) + EndpointSteps(o, false), cfg, false)
  {
    PeersOrderly(o, cfg);
    AdsOrderly(o, cfg);
    LoopsOrderly(o, cfg, false);
    EndpointsOrderly(o, cfg);
    OrderlyAppend(ConfigurationSteps(o), EndpointSteps(o, false), cfg, false);
  }

  lemma LateOrderly(o: Observation, cfg: Config)
    requires Observed(o, cfg) && Agreeing(o, cfg)
    ensures OrderlySteps(LateSteps(o, cfg, false), cfg, false)
  {
    var h := HopSteps(o, cfg, false);
    assert OrderlySteps(h, cfg, false) by { HopStepsOrderly(o, cfg); }
    assert OrderlySteps(LateSteps(o, cfg, false)[|h|..], cfg, false) by { RouteStepsOrderly(o, cfg); }
    OrderlyAppend(h, LateSteps(o, cfg, false)[|h|..], cfg, false);
    assert LateSteps(o, cfg, false) == h + LateSteps(o, cfg, false)[|h|..];
  }

  lemma HopStepsOrderly(o: Observation, cfg: Config)
    requires Observed(o, cfg) && Agreeing(o, cfg)
    ensures OrderlySteps(HopSteps(o, cfg, false), cfg, false)
  {
    HopsOrderly(o.hops, cfg);
    LoopsOrderly(o, cfg, false);
  }

  lemma RouteStepsOrderly(o: Observation, cfg: Config)
    requires Observed(o, cfg) && Agreeing(o, cfg)
    ensures OrderlySteps(LateSteps(o, cfg, false)[|HopSteps(o, cfg, false)|..], cfg, false)
  {
    RoutesOrderly(o, cfg);
    LoopsOrderly(o, cfg, false);
  }

  lemma ElapsedOrderly(o: Observation, cfg: Config)
    requires Observed(o, cfg) && Agreeing(o, cfg)
    ensures OrderlySteps(PlainSteps(o, cfg, false), cfg, false)
  {
    EarlyOrderly(o, cfg);
    LateOrderly(o, cfg);
    OrderlyAppend(ConfigurationSteps(o) + EndpointSteps(o, false), LateSteps(o, cfg, false), cfg, false);
  }

  /** A first scan only adds, so its phases always agree. */
  lemma FirstOrderly(o: Observation, cfg: Config)
    requires Observed(o, cfg)
    ensures OrderlySteps(PlainSteps(o, cfg, true), cfg, true)
  {
    ScanEnd(o, cfg, true);
    FirstScanSettled(o, cfg);
    LoopsOrderly(o, cfg, true);
    StepsMarkerQuiet(o, cfg, true);
    forall s | s in ScanSteps(o, cfg, true) ensures Orderly(s, cfg, true) { FirstStepOrderly(o, cfg, s); }
  }

  lemma FirstStepOrderly(o: Observation, cfg: Config, s: ScanStep)
    requires s in ScanSteps(o, cfg, true) && Settled(s, true) && !s.Neighbors?
    requires Orderly(Loop(NoIpOps(o.noIp), true), cfg, true)
    requires Orderly(Loop(WorkersOps(o.workers, cfg), false), cfg, true)
    requires Orderly(Loop(ProbeOps(o.probes, cfg), false), cfg, true)
    ensures Orderly(s, cfg, true)
  {
    if s.Loop? { LoopOfScan(o, cfg, true, s); }
  }

  lemma LoopOfScan(o: Observation, cfg: Config, first: bool, s: ScanStep)
    requires s in ScanSteps(o, cfg, first) && s.Loop?
    ensures s in {Loop(NoIpOps(o.noIp), true), Loop(WorkersOps(o.workers, cfg), false),
                  Loop(ProbeOps(o.probes, cfg), false)}
  {
    if s in ConfigurationSteps(o) {
      assert s == Loop(NoIpOps(o.noIp), true);
    } else if s in HopSteps(o, cfg, first) {
      assert s == Loop(WorkersOps(o.workers, cfg), false);
    } else {
      assert s !in EndpointSteps(o, first);
    }
  }
}
