/** When the order in which the bodies of a phase run decides the verdict of a scan that
    cleans up several stale failures. */
module ScheduleVerdicts {
  import opened StatusLists
  import opened FailureMessages
  import opened StaleServices
  import opened CleanupLoop
  import opened CleanupOrders
  import opened BgpConfig
  import opened MetallbPhases
  import opened MetallbScan
  import opened MetallbRuns
  import opened MetallbEntries
  import opened MetallbOutcome

  // ----- bodies that record one failure each

  predicate Records(b: Body) {
    var ops := BodyOps(b, false);
    |ops| == 1 && ops[0].Add?
  }

  function Message(b: Body): string {
    var ops := BodyOps(b, false);
    if ops == [] then "" else ops[0].key.Render()
  }

  /** The messages of the bodies, in the order the bodies run in. */
  function Messages(bodies: seq<Body>): seq<string> {
    Texts(bodies, Message)
  }

  lemma RecordText(b: Body)
    requires Records(b)
    ensures RenderOps(BodyOps(b, false)) == [Add(Message(b))]
  {
  }

  lemma PhaseSnoc(front: seq<Body>, b: Body)
    ensures PhaseOps(front + [b], false) == PhaseOps(front, false) + RenderOps(BodyOps(b, false))
  {
    var lists := TextLists(front + [b], false);
    assert lists[..|front|] == TextLists(front, false) && lists[|front|] == RenderOps(BodyOps(b, false));
  }

  lemma LastApart(m: seq<string>)
    requires NoDup(m) && m != []
    ensures NoDup(m[..|m| - 1]) && m[|m| - 1] !in m[..|m| - 1]
  {
  }

  /** From an empty list a phase of such bodies, no two of which record the same failure,
      leaves their messages in the order they ran in. */
  lemma {:induction false} PhaseLists(bodies: seq<Body>)
    requires (forall b :: b in bodies ==> Records(b)) && NoDup(Messages(bodies))
    ensures Run([], PhaseOps(bodies, false)) == Messages(bodies)
  {
    if bodies != [] {
      var front, b := bodies[..|bodies| - 1], bodies[|bodies| - 1];
      assert bodies == front + [b];
      TextsSnoc(bodies, Message);
      LastApart(Messages(bodies));
      assert Messages(bodies)[..|front|] == Messages(front);
      PhaseLists(front);
      PhaseSnoc(front, b);
      RecordText(b);
      RunAppend([], PhaseOps(front, false), [Add(Message(b))]);
      RunOne(Messages(front), Add(Message(b)));
    }
  }

  /** What the clean-up makes of what the bodies record in this order. */
  function PhaseVerdict(bodies: seq<Body>, live: seq<string>): Verdict {
    VerdictOf(Run([], PhaseOps(bodies, false)), StaleIn(live))
  }

  lemma ScheduleLists(a: seq<Body>, bodies: seq<Body>)
    requires IsSchedule(a, bodies) && (forall b :: b in bodies ==> Records(b)) && NoDup(Messages(bodies))
    ensures Run([], PhaseOps(a, false)) == Messages(a) && NoDup(Messages(a))
  {
    forall b | b in a ensures Records(b) { ScheduleMembers(a, bodies, b); }
    TextsRearranged(a, bodies, Message);
    NoDupRearranged(Messages(a), Messages(bodies));
    PhaseLists(a);
  }

  ghost predicate PhaseVerdictFree(bodies: seq<Body>, live: seq<string>) {
    forall a :: IsSchedule(a, bodies) ==> PhaseVerdict(a, live) == PhaseVerdict(bodies, live)
  }

  /** For a phase of bodies that each record a failure of their own, from an empty list, the
      schedule is irrelevant for what the clean-up makes of it if and only if at most one of
      the failures is stale or all of them are. */
  lemma PhaseVerdictFreeIff(bodies: seq<Body>, live: seq<string>)
    requires (forall b :: b in bodies ==> Records(b)) && NoDup(Messages(bodies))
    ensures PhaseVerdictFree(bodies, live) <==>
              OneStaleAtMost(Messages(bodies), StaleIn(live)) || AllStale(Messages(bodies), StaleIn(live))
  {
    var m := Messages(bodies);
    OrderFreeVerdictIff(m, StaleIn(live));
    ScheduleLists(bodies, bodies);
    if OrderFreeVerdict(m, StaleIn(live)) {
      forall a | IsSchedule(a, bodies) ensures PhaseVerdict(a, live) == PhaseVerdict(bodies, live) {
        ScheduleLists(a, bodies);
        TextsRearranged(a, bodies, Message);
      }
    } else {
      var p :| multiset(p) == multiset(m) && VerdictOf(p, StaleIn(live)) != VerdictOf(m, StaleIn(live));
      var a := RearrangedFrom(bodies, Message, p);
      ScheduleLists(a, bodies);
      assert PhaseVerdict(a, live) != PhaseVerdict(bodies, live);
    }
  }

  // ----- a whole scan

  /** Services, and nothing else to report about them than their pools. */
  function OnlyPeers(peers: seq<Peer>, live: seq<string>): Observation {
    Observation(false, true, [], false, peers, [], false, [], false, [],
                false, [], [], false, false, [], false, [], live)
  }

  predicate Quiet(step: ScanStep) {
    match step
    case Gate(updating) => !updating
    case Services(any) => any
    case Reading(panics) => !panics
    case Bodies(bodies) => bodies == []
    case Loop(ops, _) => ops == []
    case Neighbors(steps, panics) => steps == [] && !panics
    case DeletedServices(_) => false
  }

  ghost predicate AllQuiet(steps: seq<ScanStep>) {
    forall s :: s in steps ==> Quiet(s)
  }

  lemma QuietGate(l: Lists, cfg: Config)
    requires McpUpdating.Render() !in l.failed
    ensures Perform(l, Gate(false), cfg, false) == Going(l)
  {
    var ops := RenderOps(GateOps(false, false));
    assert ops == [Drop(McpUpdating.Render())] && ops[..0] == [];
    assert TouchAll(l, [], false, cfg.incident) == l;
  }

  lemma QuietPerform(l: Lists, step: ScanStep, cfg: Config)
    requires McpUpdating.Render() !in l.failed && Quiet(step)
    ensures Perform(l, step, cfg, false) == Going(l)
  {
    assert PhaseOps([], false) == [] && RenderOps([]) == [];
    if step.Gate? { QuietGate(l, cfg); }
  }

  lemma {:induction false} QuietRun(l: Lists, run: seq<ScanStep>, cfg: Config)
    requires McpUpdating.Render() !in l.failed && AllQuiet(run)
    ensures RunSteps(l, run, cfg, false) == Going(l)
  {
    if run != [] {
      assert run[|run| - 1] in run;
      QuietRun(l, run[..|run| - 1], cfg);
      QuietPerform(l, run[|run| - 1], cfg);
    }
  }

  lemma QuietSchedule(run: seq<ScanStep>, steps: seq<ScanStep>)
    requires Scheduled(run, steps) && AllQuiet(steps)
    ensures AllQuiet(run)
  {
    forall s | s in run ensures Quiet(s) {
      var i :| 0 <= i < |run| && run[i] == s;
      assert SameStep(run[i], steps[i]) && steps[i] in steps;
      if s.Bodies? && steps[i].Bodies? && s.bodies != [] {
        ScheduleMembers(s.bodies, steps[i].bodies, s.bodies[0]);
      }
    }
  }

  /** The steps before and behind the phase of the peers, up to the last clean-up. */
  function Before(): seq<ScanStep> {
    [Gate(false), Services(true), Loop([], true), Reading(false)]
  }

  lemma StepsOfScan(peers: seq<Peer>, live: seq<string>, cfg: Config) returns (after: seq<ScanStep>)
    ensures ScanSteps(OnlyPeers(peers, live), cfg, false) ==
            Before() + [Bodies(PeerBodies(peers))] + after + [DeletedServices(live)]
    ensures AllQuiet(after)
  {
    var o := OnlyPeers(peers, live);
    ScanEnd(o, cfg, false);
    after := [Bodies(AdBodies(o.ads))] + EndpointSteps(o, false) + LateSteps(o, cfg, false);
    assert NoIpOps([]) == [] && WorkersOps([], cfg) == [] && ProbeOps([], cfg) == [];
    assert ConfigurationSteps(o) == Before() + [Bodies(PeerBodies(peers))] + [Bodies(AdBodies(o.ads))];
  }

  function ScanVerdict(st: Stage): Verdict {
    match st
    case Stopped(_, _) => Panics
    case Going(l) => if l.failed == [] then Healthy else Failing
  }

  const EMPTY := Lists([], [])

  lemma OneStep(l: Lists, step: ScanStep, cfg: Config)
    ensures RunSteps(l, [step], cfg, false) == Perform(l, step, cfg, false)
  {
    assert [step][..0] == [] && RunSteps(l, [], cfg, false) == Going(l);
  }

  /** What the phase leaves, when its bodies run in this order, reaches the clean-up. */
  lemma PhaseInScan(first: seq<ScanStep>, a: seq<Body>, after: seq<ScanStep>, cfg: Config) returns (m: Lists)
    requires AllQuiet(first) && AllQuiet(after)
    requires McpUpdating.Render() !in Run([], PhaseOps(a, false))
    ensures RunSteps(EMPTY, first + [Bodies(a)] + after, cfg, false) == Going(m)
    ensures m.failed == Run([], PhaseOps(a, false))
  {
    m := TouchAll(EMPTY, PhaseOps(a, false), cfg.notify, cfg.incident);
    TouchAllFailed(EMPTY, PhaseOps(a, false), cfg.notify, cfg.incident);
    QuietRun(EMPTY, first, cfg);
    OneStep(EMPTY, Bodies(a), cfg);
    RunStepsAppend(EMPTY, first, [Bodies(a)], cfg, false);
    QuietRun(m, after, cfg);
    RunStepsAppend(EMPTY, first + [Bodies(a)], after, cfg, false);
  }

  /** The clean-up decides the verdict of the scan. */
  lemma CleanupInScan(run: seq<ScanStep>, m: Lists, live: seq<string>, cfg: Config)
    requires RunSteps(EMPTY, run, cfg, false) == Going(m) && live != []
    ensures ScanVerdict(RunSteps(EMPTY, run + [DeletedServices(live)], cfg, false))
            == VerdictOf(m.failed, StaleIn(live))
  {
    assert (run + [DeletedServices(live)])[..|run|] == run;
  }

  lemma NoMarker(bodies: seq<Body>)
    requires forall b :: b in bodies ==> b.PeerBody?
    ensures McpUpdating.Render() !in Run([], PhaseOps(bodies, false))
  {
    forall b | b in bodies ensures OffMarker(BodyOps(b, false)) { BodyOffMarker(b, false); }
    OffMarkerPhase(bodies, false);
    MarkerKept([], PhaseOps(bodies, false));
  }

  lemma PeersStay(a: seq<Body>, peers: seq<Peer>)
    requires IsSchedule(a, PeerBodies(peers))
    ensures forall b :: b in a ==> b.PeerBody?
  {
    forall b | b in a ensures b.PeerBody? { ScheduleMembers(a, PeerBodies(peers), b); }
  }

  lemma ScheduledScan(a: seq<Body>, peers: seq<Peer>, first: seq<ScanStep>, after: seq<ScanStep>, live: seq<string>,
                      cfg: Config)
    requires IsSchedule(a, PeerBodies(peers)) && live != [] && AllQuiet(first) && AllQuiet(after)
    ensures ScanVerdict(RunSteps(EMPTY, first + [Bodies(a)] + after + [DeletedServices(live)], cfg, false))
            == PhaseVerdict(a, live)
  {
    PeersStay(a, peers);
    NoMarker(a);
    var m := PhaseInScan(first, a, after, cfg);
    CleanupInScan(first + [Bodies(a)] + after, m, live, cfg);
  }

  lemma ScheduledPart(run: seq<ScanStep>, steps: seq<ScanStep>, from: nat, to: nat)
    requires Scheduled(run, steps) && from <= to <= |steps|
    ensures Scheduled(run[from..to], steps[from..to])
  {
  }

  /** A scheduled run of these steps, part by part. */
  lemma RunParts(run: seq<ScanStep>, first: seq<ScanStep>, phase: ScanStep, after: seq<ScanStep>, last: ScanStep)
    requires Scheduled(run, first + [phase] + after + [last]) && AllQuiet(first) && AllQuiet(after)
    ensures var k, n := |first|, |run|;
            && n == k + |after| + 2 && AllQuiet(run[..k]) && AllQuiet(run[k + 1..n - 1])
            && SameStep(run[k], phase) && SameStep(run[n - 1], last)
            && run == run[..k] + [run[k]] + run[k + 1..n - 1] + [run[n - 1]]
  {
    var steps, k := first + [phase] + after + [last], |first|;
    var n := |steps|;
    assert steps[..k] == first && steps[k + 1..n - 1] == after && steps[k] == phase && steps[n - 1] == last;
    ScheduledPart(run, steps, 0, k);
    ScheduledPart(run, steps, k + 1, n - 1);
    assert run[0..k] == run[..k] && steps[0..k] == steps[..k];
    QuietSchedule(run[..k], first);
    QuietSchedule(run[k + 1..n - 1], after);
  }

  /** A run of such a scan is the scan with the phase's bodies in some order. */
  lemma RunOfScan(run: seq<ScanStep>, peers: seq<Peer>, live: seq<string>, cfg: Config) returns (a: seq<Body>)
    requires Scheduled(run, ScanSteps(OnlyPeers(peers, live), cfg, false)) && live != []
    ensures IsSchedule(a, PeerBodies(peers)) && ScanVerdict(RunSteps(EMPTY, run, cfg, false)) == PhaseVerdict(a, live)
  {
    var after := StepsOfScan(peers, live, cfg);
    RunParts(run, Before(), Bodies(PeerBodies(peers)), after, DeletedServices(live));
    a := run[4].bodies;
    ScheduledScan(a, peers, run[..4], run[5..|run| - 1], live, cfg);
  }

  lemma Reordered(first: seq<ScanStep>, a: seq<Body>, bodies: seq<Body>, after: seq<ScanStep>)
    requires IsSchedule(a, bodies)
    ensures Scheduled(first + [Bodies(a)] + after, first + [Bodies(bodies)] + after)
  {
  }

  lemma ScanOfOrder(a: seq<Body>, peers: seq<Peer>, live: seq<string>, cfg: Config) returns (run: seq<ScanStep>)
    requires IsSchedule(a, PeerBodies(peers)) && live != []
    ensures Scheduled(run, ScanSteps(OnlyPeers(peers, live), cfg, false))
    ensures ScanVerdict(RunSteps(EMPTY, run, cfg, false)) == PhaseVerdict(a, live)
  {
    var after := StepsOfScan(peers, live, cfg);
    run := Before() + [Bodies(a)] + after + [DeletedServices(live)];
    Reordered(Before(), a, PeerBodies(peers), after + [DeletedServices(live)]);
    assert run == Before() + [Bodies(a)] + (after + [DeletedServices(live)]);
    ScheduledScan(a, peers, Before(), after, live, cfg);
  }

  // ----- the exact condition, for services in no pool

  predicate Unpooled(p: Peer) {
    !p.conPool && Name(p.name) && Name(p.ns)
  }

  ghost predicate UnpooledApart(peers: seq<Peer>) {
    && (forall p :: p in peers ==> Unpooled(p))
    && forall i, j :: 0 <= i < j < |peers| ==> peers[i].name != peers[j].name || peers[i].ns != peers[j].ns
  }

  lemma PeerMessage(p: Peer, live: seq<string>)
    requires Unpooled(p)
    ensures Records(PeerBody(p)) && Message(PeerBody(p)) == NotInPool(p.name, p.ns).Render()
    ensures StaleIn(live)(Message(PeerBody(p))) <==> p.name !in live
  {
    ServiceNamed(p.name, p.ns);
    StaleMeaning(NotInPool(p.name, p.ns), live);
  }

  lemma PeersApart(p: Peer, q: Peer)
    requires Unpooled(p) && Unpooled(q) && Message(PeerBody(p)) == Message(PeerBody(q))
    ensures p.name == q.name && p.ns == q.ns
  {
    PeerMessage(p, []);
    PeerMessage(q, []);
    ServiceNamed(p.name, p.ns);
    ServiceNamed(q.name, q.ns);
    RenderInjective(NotInPool(p.name, p.ns), NotInPool(q.name, q.ns));
  }

  function PeerMessages(peers: seq<Peer>): seq<string> {
    Messages(PeerBodies(peers))
  }

  lemma PeerMessagesApart(peers: seq<Peer>)
    requires UnpooledApart(peers)
    ensures NoDup(PeerMessages(peers)) && forall b :: b in PeerBodies(peers) ==> Records(b)
  {
    forall i, j | 0 <= i < j < |peers| ensures PeerMessages(peers)[i] != PeerMessages(peers)[j] {
      assert peers[i] in peers && peers[j] in peers;
      if PeerMessages(peers)[i] == PeerMessages(peers)[j] { PeersApart(peers[i], peers[j]); }
    }
    forall b | b in PeerBodies(peers) ensures Records(b) { PeerMessage(b.peer, []); }
  }

  /** At most one of the services is gone when the deleted services are cleaned up. */
  ghost predicate OneGone(peers: seq<Peer>, live: seq<string>) {
    forall i, j :: 0 <= i < |peers| && 0 <= j < |peers| && peers[i].name !in live && peers[j].name !in live ==> i == j
  }

  ghost predicate AllGone(peers: seq<Peer>, live: seq<string>) {
    forall i :: 0 <= i < |peers| ==> peers[i].name !in live
  }

  lemma StalePeers(peers: seq<Peer>, live: seq<string>)
    requires UnpooledApart(peers)
    ensures OneStaleAtMost(PeerMessages(peers), StaleIn(live)) <==> OneGone(peers, live)
    ensures AllStale(PeerMessages(peers), StaleIn(live)) <==> AllGone(peers, live)
  {
    var m := PeerMessages(peers);
    PeerMessagesApart(peers);
    forall i | 0 <= i < |peers| ensures StaleIn(live)(m[i]) <==> peers[i].name !in live {
      assert peers[i] in peers;
      PeerMessage(peers[i], live);
    }
    if OneStaleAtMost(m, StaleIn(live)) {
      forall i, j | 0 <= i < |peers| && 0 <= j < |peers| && peers[i].name !in live && peers[j].name !in live
        ensures i == j {
        assert m[i] in m && m[j] in m;
      }
    }
    if OneGone(peers, live) {
      forall x, y | x in m && y in m && StaleIn(live)(x) && StaleIn(live)(y) ensures x == y {
        var i :| 0 <= i < |m| && m[i] == x;
        var j :| 0 <= j < |m| && m[j] == y;
      }
    }
  }

  ghost predicate ScanVerdictFree(steps: seq<ScanStep>, cfg: Config) {
    forall a, b :: Scheduled(a, steps) && Scheduled(b, steps) ==>
      ScanVerdict(RunSteps(EMPTY, a, cfg, false)) == ScanVerdict(RunSteps(EMPTY, b, cfg, false))
  }

  lemma PhaseDecidesScan(peers: seq<Peer>, live: seq<string>, cfg: Config)
    requires live != []
    ensures ScanVerdictFree(ScanSteps(OnlyPeers(peers, live), cfg, false), cfg) <==>
              PhaseVerdictFree(PeerBodies(peers), live)
  {
    var steps, bodies := ScanSteps(OnlyPeers(peers, live), cfg, false), PeerBodies(peers);
    if PhaseVerdictFree(bodies, live) {
      forall a, b | Scheduled(a, steps) && Scheduled(b, steps)
        ensures ScanVerdict(RunSteps(EMPTY, a, cfg, false)) == ScanVerdict(RunSteps(EMPTY, b, cfg, false)) {
        var x := RunOfScan(a, peers, live, cfg);
        var y := RunOfScan(b, peers, live, cfg);
      }
    }
    if ScanVerdictFree(steps, cfg) {
      forall x | IsSchedule(x, bodies) ensures PhaseVerdict(x, live) == PhaseVerdict(bodies, live) {
        var a := ScanOfOrder(x, peers, live, cfg);
        var b := ScanOfOrder(bodies, peers, live, cfg);
      }
    }
  }

  /** An elapsed scan from an empty list that finds services in no pool, each listed once,
      reaches the same verdict under every schedule if and only if at most one of them is
      gone when the deleted services are cleaned up, or all of them are. */
  lemma ScanVerdictFreeIff(peers: seq<Peer>, live: seq<string>, cfg: Config)
    requires UnpooledApart(peers) && live != []
    ensures ScanVerdictFree(ScanSteps(OnlyPeers(peers, live), cfg, false), cfg) <==>
              OneGone(peers, live) || AllGone(peers, live)
  {
    PeerMessagesApart(peers);
    PhaseDecidesScan(peers, live, cfg);
    PhaseVerdictFreeIff(PeerBodies(peers), live);
    StalePeers(peers, live);
  }

  // ----- two schedules of one scan, one Healthy and one not

  lemma PhaseOfThree(p: Peer, q: Peer, r: Peer)
    requires UnpooledApart([p, q, r])
    ensures Run([], PhaseOps(PeerBodies([p, q, r]), false)) ==
            [Message(PeerBody(p)), Message(PeerBody(q)), Message(PeerBody(r))]
  {
    PeerMessagesApart([p, q, r]);
    PhaseLists(PeerBodies([p, q, r]));
    assert PeerBodies([p, q, r]) == [PeerBody(p), PeerBody(q), PeerBody(r)];
  }

  lemma Swapped(p: Peer, q: Peer, r: Peer)
    ensures IsSchedule(PeerBodies([p, r, q]), PeerBodies([p, q, r]))
  {
    var x, y, z := PeerBody(p), PeerBody(q), PeerBody(r);
    assert PeerBodies([p, r, q]) == [x] + ([z] + [y]) && PeerBodies([p, q, r]) == [x] + ([y] + [z]);
  }

  /** Three services in no pool, two of them gone before the clean-up: `a` and `b` are two
      schedules of one elapsed scan, and one of them ends Healthy. */
  lemma OrderDecides(s: MetallbScan.Status, i: Input, p: Peer, q: Peer, r: Peer, live: seq<string>)
    returns (a: seq<ScanStep>, b: seq<ScanStep>)
    requires Scans(s, i) && s.lastRun.Some? && s.lists == EMPTY && i.obs == OnlyPeers([p, q, r], live)
    requires UnpooledApart([p, q, r]) && p.name !in live && q.name !in live && r.name in live
    ensures Scheduled(a, ScanSteps(i.obs, i.cfg, false)) && Scheduled(b, ScanSteps(i.obs, i.cfg, false))
    ensures Reconcile(s, i, a).healthy && !Reconcile(s, i, b).healthy
  {
    Swapped(p, q, r);
    a := ScanOfOrder(PeerBodies([p, r, q]), [p, q, r], live, i.cfg);
    b := ScanOfOrder(PeerBodies([p, q, r]), [p, q, r], live, i.cfg);
    VerdictsOfThree(p, q, r, live);
    CompletedVerdict(s, Turn(i, a));
    CompletedVerdict(s, Turn(i, b));
  }

  lemma VerdictsOfThree(p: Peer, q: Peer, r: Peer, live: seq<string>)
    requires UnpooledApart([p, q, r]) && p.name !in live && q.name !in live && r.name in live
    ensures PhaseVerdict(PeerBodies([p, r, q]), live) == Healthy && PhaseVerdict(PeerBodies([p, q, r]), live) == Failing
  {
    var three := [p, q, r];
    assert three[0] in three && three[1] in three && three[2] in three;
    PhaseOfThree(p, q, r);
    PhaseOfThree(p, r, q);
    PeerMessage(p, live);
    PeerMessage(q, live);
    PeerMessage(r, live);
    ShortOrders(Message(PeerBody(p)), Message(PeerBody(q)), Message(PeerBody(r)), StaleIn(live));
  }
}
