/** The MetallbScan reconciler: the phases in their order, the early returns between
    them, the clean-up, and the verdict. */
module MetallbScan {
  import opened StatusLists
  import opened Conditions
  import opened FailureMessages
  import opened StaleServices
  import opened CleanupLoop
  import opened BgpConfig
  import opened MetallbPhases

  // ----- the failures and the incidents

  datatype Lists = Lists(failed: seq<string>, incidents: seq<string>)

  /** `incident` is what the external system answers for a message's fingerprint. */
  datatype Config = Config(notify: bool, incident: string -> string, ignoreBfd: bool, ignoreNoHop: bool,
                           metalNs: string)

  function DropIncident(ids: seq<string>, id: string): seq<string> {
    if id in ids && id != "" && id != "[Pending]" then DeleteAt(ids, IndexOf(ids, id)) else ids
  }

  /** Record or clear one failure; the incident list follows when the check notifies. */
  function Touch(l: Lists, op: Op<string>, notify: bool, incident: string -> string): Lists {
    match op
    case Add(k) =>
      if k in l.failed then l
      else Lists(l.failed + [k], if notify then WithIncident(l.incidents, incident(k)) else l.incidents)
    case Drop(k) =>
      if k in l.failed
      then Lists(DeleteAt(l.failed, IndexOf(l.failed, k)),
                 if notify then DropIncident(l.incidents, incident(k)) else l.incidents)
      else l
  }

  function TouchAll(l: Lists, ops: seq<Op<string>>, notify: bool, incident: string -> string): Lists {
    if ops == [] then l else Touch(TouchAll(l, ops[..|ops| - 1], notify, incident), ops[|ops| - 1], notify, incident)
  }

  lemma {:induction false} TouchAllFailed(l: Lists, ops: seq<Op<string>>, notify: bool, incident: string -> string)
    ensures TouchAll(l, ops, notify, incident).failed == Run(l.failed, ops)
  {
    if ops != [] { TouchAllFailed(l, ops[..|ops| - 1], notify, incident); }
  }

  lemma {:induction false} TouchAllAppend(l: Lists, a: seq<Op<string>>, b: seq<Op<string>>, notify: bool,
                                          incident: string -> string)
    ensures TouchAll(l, a + b, notify, incident) == TouchAll(TouchAll(l, a, notify, incident), b, notify, incident)
  {
    if b == [] {
      assert a + b == a;
    } else {
      assert (a + b)[..|a + b| - 1] == a + b[..|b| - 1];
      TouchAllAppend(l, a, b[..|b| - 1], notify, incident);
    }
  }

  ghost predicate Clean(l: Lists) {
    NoDup(l.failed) && NoDup(l.incidents) && "" !in l.incidents && "[Pending]" !in l.incidents
  }

  lemma {:induction false} TouchAllClean(l: Lists, ops: seq<Op<string>>, notify: bool, incident: string -> string)
    requires Clean(l)
    ensures Clean(TouchAll(l, ops, notify, incident))
  {
    if ops != [] {
      var mid, op := TouchAll(l, ops[..|ops| - 1], notify, incident), ops[|ops| - 1];
      TouchAllClean(l, ops[..|ops| - 1], notify, incident);
      ApplyMembers(mid.failed, op);
      ApplyMembers(mid.incidents, Drop(incident(op.key)));
    }
  }

  predicate Numbered(id: string) {
    id != "" && id != "[Pending]"
  }

  /** Recording a new failure brings in its incident, clearing a listed one takes it
      out, and nothing else happens to the incidents. */
  lemma IncidentFollows(l: Lists, op: Op<string>, notify: bool, incident: string -> string, id: string)
    requires Clean(l)
    ensures var m := Touch(l, op, notify, incident);
            id in m.incidents <==>
              if m.failed == l.failed || !notify || id != incident(op.key) then id in l.incidents
              else op.Add? && Numbered(id)
  {
    ApplyMembers(l.failed, op);
    ApplyMembers(l.incidents, Drop(incident(op.key)));
  }

  // ----- what a scan observes

  datatype SvcRef = SvcRef(name: string, ns: string)

  /** One node of CheckBGPHopWorkers: its running speaker pod; whether the daemonset is
      at full size, asked when there is none; whether hops were found.  A None of
      `daemonset` is an error that is logged, one of `hops` an error that ends the walk. */
  datatype Worker = Worker(node: string, speaker: Option<string>, daemonset: Option<bool>, hops: Option<bool>)

  /** One endpoint node of GetBGPIPRoute. */
  datatype Probe = Probe(node: string, running: bool)

  /** What CheckIfBGPHopExists may do to the list at one step. */
  datatype NeighborStep = DeleteIndex(i: nat) | AtNode(node: string, missing: bool)

  /** The four checks for an update in progress, what each part of the scan reads, and
      whether reading the pools, the next hops, the neighbors or the routes panics. */
  datatype Observation = Observation(
    updating1: bool, hasServices: bool, noIp: seq<SvcRef>, poolsPanic: bool, peers: seq<Peer>, ads: seq<Ad>,
    updating2: bool, services: seq<LbService>,
    updating3: bool, workers: seq<Worker>, hopsPanic: bool, hops: seq<Hop>,
    neighbors: seq<NeighborStep>, neighborsPanic: bool,
    updating4: bool, probes: seq<Probe>, routesPanic: bool, routes: seq<Route>, live: seq<string>)

  // ----- the steps of a scan

  /** Bodies run in the order given here; every order is a step of its own. */
  datatype ScanStep =
    | Gate(updating: bool)
    | Services(any: bool)
    | Reading(panics: bool)
    | Bodies(bodies: seq<Body>)
    | Loop(ops: seq<Op<Failure>>, notify: bool)
    | Neighbors(steps: seq<NeighborStep>, panics: bool)
    | DeletedServices(live: seq<string>)

  function NoIpOps(noIp: seq<SvcRef>): (r: seq<Op<Failure>>)
    ensures |r| == |noIp| && forall i :: 0 <= i < |r| ==> r[i] == Add(NoIp(noIp[i].name, noIp[i].ns))
  {
    seq(|noIp|, i requires 0 <= i < |noIp| => Add(NoIp(noIp[i].name, noIp[i].ns)))
  }

  /** A service's name once for each of its pods that is not running. */
  function DownNames(services: seq<LbService>): seq<string> {
    if services == [] then []
    else DownNames(services[..|services| - 1])
         + NamePerPod(services[|services| - 1], |services[|services| - 1].running|)
  }

  function NamePerPod(s: LbService, n: nat): seq<string>
    requires n <= |s.running|
  {
    if n == 0 then [] else NamePerPod(s, n - 1) + if s.running[n - 1] then [] else [s.name]
  }

  function MissingNames(services: seq<LbService>): seq<string> {
    if services == [] then []
    else
      var s := services[|services| - 1];
      MissingNames(services[..|services| - 1]) + if s.hasTargets then [] else [s.name]
  }

  function EndpointBodies(services: seq<LbService>, first: bool): seq<Body> {
    var down := DownNames(services);
    if down != [] then seq(|down|, i requires 0 <= i < |down| => DownBody(down[i], services))
    else if first then []
    else seq(|services|, i requires 0 <= i < |services| => UpBody(services[i]))
  }

  function TargetBodies(services: seq<LbService>, first: bool): seq<Body> {
    var missing := MissingNames(services);
    if missing != [] then seq(|missing|, i requires 0 <= i < |missing| => MissingBody(missing[i], services))
    else if first then []
    else seq(|services|, i requires 0 <= i < |services| => TargetsBody(services[i]))
  }

  function WorkerOps(w: Worker, cfg: Config): seq<Op<Failure>> {
    match w.speaker
    case None => if w.daemonset == Some(false) then [Add(NoSpeaker(w.node, cfg.metalNs))] else []
    case Some(pod) =>
      [Drop(NoSpeaker(w.node, cfg.metalNs))] +
      if w.hops == Some(true) then [Drop(NoHops(pod, w.node))]
      else if w.hops == Some(false) && !cfg.ignoreNoHop then [Add(NoHops(pod, w.node))]
      else []
  }

  function WorkersOps(ws: seq<Worker>, cfg: Config): seq<Op<Failure>> {
    if ws == [] then [] else WorkersOps(ws[..|ws| - 1], cfg) + WorkerOps(ws[|ws| - 1], cfg)
  }

  function ProbeOp(p: Probe, cfg: Config): Op<Failure> {
    if p.running then Drop(NoRunningSpeaker(p.node, cfg.metalNs)) else Add(NoRunningSpeaker(p.node, cfg.metalNs))
  }

  function ProbeOps(ps: seq<Probe>, cfg: Config): (r: seq<Op<Failure>>)
    ensures |r| == |ps| && forall i :: 0 <= i < |r| ==> r[i] == ProbeOp(ps[i], cfg)
  {
    seq(|ps|, i requires 0 <= i < |ps| => ProbeOp(ps[i], cfg))
  }

  function ConfigurationSteps(o: Observation): seq<ScanStep> {
    [Gate(o.updating1), Services(o.hasServices), Loop(NoIpOps(o.noIp), true), Reading(o.poolsPanic),
     Bodies(PeerBodies(o.peers)), Bodies(AdBodies(o.ads))]
  }

  function EndpointSteps(o: Observation, first: bool): seq<ScanStep> {
    [Gate(o.updating2), Bodies(EndpointBodies(o.services, first)), Bodies(TargetBodies(o.services, first))]
  }

  function HopSteps(o: Observation, cfg: Config, first: bool): seq<ScanStep> {
    [Gate(o.updating3), Loop(WorkersOps(o.workers, cfg), false), Reading(o.hopsPanic),
     Bodies(HopBodies(o.hops, cfg.ignoreBfd))]
    + if first then [] else [Neighbors(o.neighbors, o.neighborsPanic)]
  }

  function RouteSteps(o: Observation, cfg: Config, first: bool): seq<ScanStep> {
    [Gate(o.updating4), Loop(ProbeOps(o.probes, cfg), false), Reading(o.routesPanic), Bodies(RouteBodies(o.routes))]
    + if first then [] else [DeletedServices(o.live)]
  }

  function ScanSteps(o: Observation, cfg: Config, first: bool): seq<ScanStep> {
    ConfigurationSteps(o) + EndpointSteps(o, first) + HopSteps(o, cfg, first) + RouteSteps(o, cfg, first)
  }

  // ----- what a step does

  datatype Stage = Going(lists: Lists) | Stopped(lists: Lists, panicked: bool)

  /** A list found by the clean-up loop: stale is what the loop deletes. */
  function StaleIn(live: seq<string>): string -> bool {
    check => IsStale(check, live)
  }

  function NeighborOp(node: string, missing: bool, metalNs: string): Op<Failure> {
    if missing then Add(NoSpeaker(node, metalNs)) else Drop(NoSpeaker(node, metalNs))
  }

  function NeighborEffect(l: Lists, s: NeighborStep, metalNs: string): Lists {
    match s
    case DeleteIndex(i) => if i < |l.failed| then l.(failed := DeleteAt(l.failed, i)) else l
    case AtNode(node, missing) =>
      l.(failed := Apply(l.failed, RenderOp(NeighborOp(node, missing, metalNs))))
  }

  function NeighborEffects(l: Lists, steps: seq<NeighborStep>, metalNs: string): Lists {
    if steps == [] then l
    else NeighborEffect(NeighborEffects(l, steps[..|steps| - 1], metalNs), steps[|steps| - 1], metalNs)
  }

  /** While an update is in progress the scan ends; an elapsed scan clears the marker
      otherwise, a first scan does not. */
  function GateOps(updating: bool, first: bool): seq<Op<Failure>> {
    Check(McpUpdating, updating, first)
  }

  function Perform(l: Lists, step: ScanStep, cfg: Config, first: bool): Stage {
    match step
    case Gate(updating) =>
      var m := TouchAll(l, RenderOps(GateOps(updating, first)), false, cfg.incident);
      if updating then Stopped(m, false) else Going(m)
    case Services(any) => if any then Going(l) else Stopped(l, false)
    case Reading(panics) => if panics then Stopped(l, true) else Going(l)
    case Bodies(bodies) => Going(TouchAll(l, PhaseOps(bodies, first), cfg.notify, cfg.incident))
    case Loop(ops, notify) => Going(TouchAll(l, RenderOps(ops), notify && cfg.notify, cfg.incident))
    case Neighbors(steps, panics) =>
      var m := NeighborEffects(l, steps, cfg.metalNs);
      if panics then Stopped(m, true) else Going(m)
    case DeletedServices(live) =>
      if live == [] then Going(l)
      else
        var m := l.(failed := CleanResult(l.failed, StaleIn(live)));
        if OutOfRange(l.failed, StaleIn(live)) then Stopped(m, true) else Going(m)
  }

  function Next(st: Stage, step: ScanStep, cfg: Config, first: bool): Stage {
    match st
    case Going(l) => Perform(l, step, cfg, first)
    case Stopped(_, _) => st
  }

  /** The stage after some steps; a stopped scan stays as it is. */
  function RunSteps(l: Lists, steps: seq<ScanStep>, cfg: Config, first: bool): Stage {
    if steps == [] then Going(l)
    else Next(RunSteps(l, steps[..|steps| - 1], cfg, first), steps[|steps| - 1], cfg, first)
  }

  lemma {:induction false} RunStepsAppend(l: Lists, a: seq<ScanStep>, b: seq<ScanStep>, cfg: Config, first: bool)
    ensures RunSteps(l, a + b, cfg, first) ==
            var st := RunSteps(l, a, cfg, first);
            if st.Going? then RunSteps(st.lists, b, cfg, first) else st
  {
    if b == [] {
      assert a + b == a;
    } else {
      assert (a + b)[..|a + b| - 1] == a + b[..|b| - 1];
      RunStepsAppend(l, a, b[..|b| - 1], cfg, first);
    }
  }

  /** The same steps, with the bodies of each phase in any order. */
  ghost predicate SameStep(s: ScanStep, t: ScanStep) {
    s == t || (s.Bodies? && t.Bodies? && IsSchedule(s.bodies, t.bodies))
  }

  ghost predicate Scheduled(run: seq<ScanStep>, steps: seq<ScanStep>) {
    |run| == |steps| && forall i :: 0 <= i < |run| ==> SameStep(run[i], steps[i])
  }

  // ----- one reconcile

  const READY := "Ready"
  const REASON := "MetallbScanReconciler"

  datatype Status = Status(lists: Lists, healthy: bool, lastRun: Option<int>, lastSuccess: Option<int>,
                           conditions: seq<Condition>)

  const INITIAL := Status.Status(Lists([], []), false, None, None, [])

  /** `clusterError`: no cluster client.  `nameError`: the API name was not found, and
      its error is still set should the scan panic.  `error` is the text of either.
      `now` is read before the scan, the other two times after it. */
  datatype Input = Input(cfg: Config, clusterError: bool, nameError: bool, error: string, suspended: bool,
                         interval: nat, now: int, ended: int, reported: int, obs: Observation)

  function Report(s: Status, status: string, message: string, i: Input): Status {
    s.(conditions := SetReady(s.conditions, READY, status, REASON, message, i.reported))
  }

  const FAILING := "Some checks are failing, please check status.FailedChecks for list of failures."
  const COMPLETED := "All healthchecks are completed successfully."

  /** The end of a completed scan. */
  function Finish(s: Status, l: Lists, i: Input): Status {
    if l.failed == [] then
      Report(s.(lists := l, lastRun := Some(i.ended), healthy := true, lastSuccess := Some(i.reported)),
             "True", COMPLETED, i)
    else
      Report(s.(lists := l, lastRun := Some(i.ended), healthy := false), "False", FAILING, i)
  }

  predicate Scans(s: Status, i: Input) {
    && Find(s.conditions, READY) >= 0 && !i.clusterError && !i.suspended
    && (s.lastRun.None? || s.lastRun.value < i.now - i.interval)
  }

  /** `run` is the scan's steps as scheduled. */
  function Reconcile(s: Status, i: Input, run: seq<ScanStep>): Status {
    if Find(s.conditions, READY) < 0 then Report(s, "Unknown", "First Seen", i)
    else if i.clusterError then Report(s, "False", Trouble(i), i)
    else if !Scans(s, i) then s
    else AfterScan(s, i, RunSteps(s.lists, run, i.cfg, s.lastRun.None?))
  }

  function AfterScan(s: Status, i: Input, st: Stage): Status {
    match st
    case Going(l) => Finish(s, l, i)
    case Stopped(l, panicked) =>
      if panicked && i.nameError then Report(s.(lists := l), "False", Trouble(i), i) else s.(lists := l)
  }

  function Trouble(i: Input): string {
    "Trouble checking load balancer type services - error message to be improved: " + i.error
  }
}
