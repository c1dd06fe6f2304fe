/** The MetallbScan reconciler as it runs: it updates the two lists in place, launches
    the bodies of a phase, which then run one after the other in any order, and
    returns early between the phases. */
module MetallbReconciler {
  import opened StatusLists
  import opened Conditions
  import opened FailureMessages
  import opened CleanupLoop
  import opened BgpConfig
  import opened MetallbPhases
  import opened MetallbScan

  // ----- operations one after the other

  lemma RenderAppend(a: seq<Op<Failure>>, b: seq<Op<Failure>>)
    ensures RenderOps(a + b) == RenderOps(a) + RenderOps(b)
  {
  }

  lemma DoneThen(l: Lists, a: seq<Op<Failure>>, b: seq<Op<Failure>>, notify: bool, incident: string -> string)
    ensures TouchAll(l, RenderOps(a + b), notify, incident) ==
            TouchAll(TouchAll(l, RenderOps(a), notify, incident), RenderOps(b), notify, incident)
  {
    RenderAppend(a, b);
    TouchAllAppend(l, RenderOps(a), RenderOps(b), notify, incident);
  }

  lemma DoneOne(l: Lists, op: Op<Failure>, notify: bool, incident: string -> string)
    ensures TouchAll(l, RenderOps([op]), notify, incident) == Touch(l, RenderOp(op), notify, incident)
  {
    var ops := RenderOps([op]);
    assert ops == [RenderOp(op)] && ops[..0] == [];
    assert TouchAll(l, [], notify, incident) == l;
  }

  lemma DoneBody(l: Lists, order: seq<Body>, b: Body, first: bool, notify: bool, incident: string -> string)
    ensures TouchAll(l, PhaseOps(order + [b], first), notify, incident) ==
            TouchAll(TouchAll(l, PhaseOps(order, first), notify, incident),
                     RenderOps(BodyOps(b, first)), notify, incident)
  {
    var lists := TextLists(order + [b], first);
    assert lists[..|order|] == TextLists(order, first) && lists[|order|] == RenderOps(BodyOps(b, first));
    TouchAllAppend(l, PhaseOps(order, first), RenderOps(BodyOps(b, first)), notify, incident);
  }

  lemma NoIpStep(noIp: seq<SvcRef>, i: nat)
    requires i < |noIp|
    ensures NoIpOps(noIp[..i + 1]) == NoIpOps(noIp[..i]) + [Add(NoIp(noIp[i].name, noIp[i].ns))]
  {
  }

  lemma TakeOne(order: seq<Body>, pending: seq<Body>, k: nat)
    requires k < |pending|
    ensures multiset(order + [pending[k]]) + multiset(DeleteAt(pending, k)) == multiset(order) + multiset(pending)
  {
    assert pending == pending[..k] + [pending[k]] + pending[k + 1..];
  }

  // ----- steps one after the other

  /** `run`, a schedule of `steps`, leads from `l` to `st`. */
  ghost predicate Ran(l: Lists, run: seq<ScanStep>, steps: seq<ScanStep>, st: Stage, cfg: Config, first: bool) {
    Scheduled(run, steps) && RunSteps(l, run, cfg, first) == st
  }

  lemma RanOne(l: Lists, s: ScanStep, t: ScanStep, cfg: Config, first: bool)
    requires SameStep(s, t)
    ensures Ran(l, [s], [t], Perform(l, s, cfg, first), cfg, first)
  {
    assert [s][..0] == [];
    assert RunSteps(l, [], cfg, first) == Going(l);
  }

  lemma ScheduledThen(a: seq<ScanStep>, x: seq<ScanStep>, b: seq<ScanStep>, y: seq<ScanStep>)
    requires Scheduled(a, x) && Scheduled(b, y)
    ensures Scheduled(a + b, x + y)
  {
    forall i | 0 <= i < |a + b| ensures SameStep((a + b)[i], (x + y)[i]) {
      if i >= |a| { assert SameStep(b[i - |a|], y[i - |a|]); }
    }
  }

  lemma RanThen(l: Lists, a: seq<ScanStep>, x: seq<ScanStep>, m: Lists, b: seq<ScanStep>, y: seq<ScanStep>, st: Stage,
                cfg: Config, first: bool)
    requires Ran(l, a, x, Going(m), cfg, first) && Ran(m, b, y, st, cfg, first)
    ensures Ran(l, a + b, x + y, st, cfg, first)
  {
    ScheduledThen(a, x, b, y);
    RunStepsAppend(l, a, b, cfg, first);
  }

  lemma RanStopped(l: Lists, a: seq<ScanStep>, x: seq<ScanStep>, st: Stage, y: seq<ScanStep>, cfg: Config, first: bool)
    requires Ran(l, a, x, st, cfg, first) && st.Stopped?
    ensures Ran(l, a + y, x + y, st, cfg, first)
  {
    ScheduledThen(a, x, y, y);
    RunStepsAppend(l, a, y, cfg, first);
  }

  lemma RanReading(l: Lists, a: seq<ScanStep>, x: seq<ScanStep>, m: Lists, panics: bool, cfg: Config, first: bool)
    requires Ran(l, a, x, Going(m), cfg, first)
    ensures Ran(l, a + [Reading(panics)], x + [Reading(panics)], StageOf(m, panics, panics), cfg, first)
  {
    RanOne(m, Reading(panics), Reading(panics), cfg, first);
    RanThen(l, a, x, m, [Reading(panics)], [Reading(panics)], StageOf(m, panics, panics), cfg, first);
  }

  function StageOf(l: Lists, stopped: bool, panicked: bool): Stage {
    if stopped then Stopped(l, panicked) else Going(l)
  }

  class MetallbScanStatus {
    var failedChecks: seq<string>
    var incidentID: seq<string>

    constructor ()
      ensures Value() == Lists([], [])
    {
      failedChecks, incidentID := [], [];
    }

    function Value(): Lists
      reads this
    {
      Lists(failedChecks, incidentID)
    }

    // ----- one failure

    method Record(check: string, notify: bool, incident: string -> string)
      modifies this
      ensures Value() == Touch(old(Value()), Add(check), notify, incident)
    {
      if check !in failedChecks {
        failedChecks := failedChecks + [check];
        if notify {
          var id := incident(check);
          if id !in incidentID && id != "" && id != "[Pending]" {
            incidentID := incidentID + [id];
          }
        }
      }
    }

    method Clear(check: string, notify: bool, incident: string -> string)
      modifies this
      ensures Value() == Touch(old(Value()), Drop(check), notify, incident)
    {
      if check in failedChecks {
        failedChecks := DeleteAt(failedChecks, IndexOf(failedChecks, check));
        if notify {
          var id := incident(check);
          if id in incidentID && id != "" && id != "[Pending]" {
            incidentID := DeleteAt(incidentID, IndexOf(incidentID, id));
          }
        }
      }
    }

    method RecordOrClear(f: Failure, bad: bool, first: bool, notify: bool, incident: string -> string)
      modifies this
      ensures Value() == TouchAll(old(Value()), RenderOps(Check(f, bad, first)), notify, incident)
    {
      ghost var l := Value();
      if bad {
        DoneOne(l, Add(f), notify, incident);
        Record(f.Render(), notify, incident);
      } else if !first {
        DoneOne(l, Drop(f), notify, incident);
        Clear(f.Render(), notify, incident);
      } else {
        assert RenderOps([]) == [];
      }
    }

    // ----- the bodies of the phases

    method CheckAd(a: Ad, first: bool, cfg: Config)
      modifies this
      ensures Value() == TouchAll(old(Value()), RenderOps(BodyOps(AdBody(a), first)), cfg.notify, cfg.incident)
    {
      if a.advName != "" {
        DoneThen(Value(), Check(PoolNotAdvertised(a.svc, a.ns, a.pool), !a.advertised, first),
                 Check(NoPeers(a.advName), a.peers.None?, first), cfg.notify, cfg.incident);
        RecordOrClear(PoolNotAdvertised(a.svc, a.ns, a.pool), !a.advertised, first, cfg.notify, cfg.incident);
        RecordOrClear(NoPeers(a.advName), a.peers.None?, first, cfg.notify, cfg.incident);
      } else {
        assert RenderOps([]) == [];
      }
    }

    method RecordDown(name: string, services: seq<LbService>, cfg: Config)
      modifies this
      ensures Value() == TouchAll(old(Value()), RenderOps(DownOps(name, services)), cfg.notify, cfg.incident)
    {
      ghost var l := Value();
      assert RenderOps([]) == [];
      for i := 0 to |services|
        invariant Value() == TouchAll(l, RenderOps(DownOps(name, services[..i])), cfg.notify, cfg.incident)
      {
        var svc := services[i];
        assert services[..i + 1][..i] == services[..i];
        if svc.name == name {
          DoneThen(l, DownOps(name, services[..i]), [Add(PodNotRunning(svc.name, svc.ns))], cfg.notify, cfg.incident);
          DoneOne(Value(), Add(PodNotRunning(svc.name, svc.ns)), cfg.notify, cfg.incident);
          Record(PodNotRunning(svc.name, svc.ns).Render(), cfg.notify, cfg.incident);
        } else {
          assert DownOps(name, services[..i + 1]) == DownOps(name, services[..i]);
        }
      }
      assert services[..|services|] == services;
    }

    method RecordMissing(name: string, services: seq<LbService>, cfg: Config)
      modifies this
      ensures Value() == TouchAll(old(Value()), RenderOps(MissingOps(name, services)), cfg.notify, cfg.incident)
    {
      ghost var l := Value();
      assert RenderOps([]) == [];
      for i := 0 to |services|
        invariant Value() == TouchAll(l, RenderOps(MissingOps(name, services[..i])), cfg.notify, cfg.incident)
      {
        var svc := services[i];
        assert services[..i + 1][..i] == services[..i];
        if svc.name == name {
          DoneThen(l, MissingOps(name, services[..i]), [Add(NoTargetPods(svc.name, svc.ns))], cfg.notify, cfg.incident);
          DoneOne(Value(), Add(NoTargetPods(svc.name, svc.ns)), cfg.notify, cfg.incident);
          Record(NoTargetPods(svc.name, svc.ns).Render(), cfg.notify, cfg.incident);
        } else {
          assert MissingOps(name, services[..i + 1]) == MissingOps(name, services[..i]);
        }
      }
      assert services[..|services|] == services;
    }

    method CheckState(h: Hop, first: bool, cfg: Config)
      modifies this
      ensures Value() == TouchAll(old(Value()), RenderOps(StateOps(h, first)), cfg.notify, cfg.incident)
    {
      DoneThen(Value(), Check(NotEstablished(h.ip, h.node), !Up(h), first),
               Check(NotValid(h.ip, h.node), !h.valid, first), cfg.notify, cfg.incident);
      RecordOrClear(NotEstablished(h.ip, h.node), !Up(h), first, cfg.notify, cfg.incident);
      RecordOrClear(NotValid(h.ip, h.node), !h.valid, first, cfg.notify, cfg.incident);
    }

    method CheckBfd(h: Hop, ignoreBfd: bool, first: bool, cfg: Config)
      modifies this
      ensures Value() == TouchAll(old(Value()), RenderOps(BfdOps(h, ignoreBfd, first)), cfg.notify, cfg.incident)
    {
      if BfdBad(h) && ignoreBfd {
        assert RenderOps([]) == [];
      } else {
        RecordOrClear(BadBfd(h.ip, h.node), BfdBad(h), first, cfg.notify, cfg.incident);
      }
    }

    method CheckHop(h: Hop, ignoreBfd: bool, first: bool, cfg: Config)
      modifies this
      ensures Value() == TouchAll(old(Value()), RenderOps(StateOps(h, first) + BfdOps(h, ignoreBfd, first)),
                                  cfg.notify, cfg.incident)
    {
      DoneThen(Value(), StateOps(h, first), BfdOps(h, ignoreBfd, first), cfg.notify, cfg.incident);
      CheckState(h, first, cfg);
      CheckBfd(h, ignoreBfd, first, cfg);
    }

    method CheckRoute(r: Route, first: bool, cfg: Config)
      modifies this
      ensures Value() == TouchAll(old(Value()), RenderOps(RouteOps(r, first)), cfg.notify, cfg.incident)
    {
      DoneThen(Value(), Check(RouteNotAdvertised(r.svc, r.ip, r.pod, r.node), !r.advertised, first),
               Check(RouteNotBest(r.svc, r.ip, r.ns, r.pod, r.node), !r.validBest, first), cfg.notify, cfg.incident);
      RecordOrClear(RouteNotAdvertised(r.svc, r.ip, r.pod, r.node), !r.advertised, first, cfg.notify, cfg.incident);
      RecordOrClear(RouteNotBest(r.svc, r.ip, r.ns, r.pod, r.node), !r.validBest, first, cfg.notify, cfg.incident);
    }

    method RunServiceBody(b: Body, first: bool, cfg: Config)
      requires b.DownBody? || b.MissingBody? || b.UpBody? || b.TargetsBody?
      modifies this
      ensures Value() == TouchAll(old(Value()), RenderOps(BodyOps(b, first)), cfg.notify, cfg.incident)
    {
      match b {
        case DownBody(name, services) => RecordDown(name, services, cfg);
        case MissingBody(name, services) => RecordMissing(name, services, cfg);
        case UpBody(s) => RecordOrClear(PodNotRunning(s.name, s.ns), false, first, cfg.notify, cfg.incident);
        case TargetsBody(s) => RecordOrClear(NoTargetPods(s.name, s.ns), false, first, cfg.notify, cfg.incident);
      }
    }

    method RunBody(b: Body, first: bool, cfg: Config)
      modifies this
      ensures Value() == TouchAll(old(Value()), RenderOps(BodyOps(b, first)), cfg.notify, cfg.incident)
    {
      if b.DownBody? || b.MissingBody? || b.UpBody? || b.TargetsBody? {
        RunServiceBody(b, first, cfg);
        return;
      }
      match b {
        case PeerBody(p) => RecordOrClear(NotInPool(p.name, p.ns), !p.conPool, first, cfg.notify, cfg.incident);
        case AdBody(a) => CheckAd(a, first, cfg);
        case HopBody(h, ignoreBfd) => CheckHop(h, ignoreBfd, first, cfg);
        case RouteBody(r) => CheckRoute(r, first, cfg);
      }
    }

    /** Launch the bodies and wait: they run one at a time, in any order. */
    method RunConcurrently(bodies: seq<Body>, first: bool, cfg: Config) returns (ghost order: seq<Body>)
      modifies this
      ensures IsSchedule(order, bodies)
      ensures Value() == TouchAll(old(Value()), PhaseOps(order, first), cfg.notify, cfg.incident)
    {
      ghost var l := Value();
      var pending := bodies;
      order := [];
      while pending != []
        invariant multiset(order) + multiset(pending) == multiset(bodies)
        invariant Value() == TouchAll(l, PhaseOps(order, first), cfg.notify, cfg.incident)
        decreases |pending|
      {
        var k :| 0 <= k < |pending|;
        DoneBody(l, order, pending[k], first, cfg.notify, cfg.incident);
        RunBody(pending[k], first, cfg);
        TakeOne(order, pending, k);
        order := order + [pending[k]];
        pending := DeleteAt(pending, k);
      }
    }

    method RunPhase(bodies: seq<Body>, first: bool, cfg: Config) returns (ghost step: ScanStep)
      modifies this
      ensures SameStep(step, Bodies(bodies))
      ensures Perform(old(Value()), step, cfg, first) == Going(Value())
    {
      ghost var order := RunConcurrently(bodies, first, cfg);
      step := Bodies(order);
    }

    // ----- the other steps

    method McpGate(updating: bool, first: bool, cfg: Config) returns (stopped: bool)
      modifies this
      ensures Perform(old(Value()), Gate(updating), cfg, first) == StageOf(Value(), stopped, false)
    {
      RecordOrClear(McpUpdating, updating, first, false, cfg.incident);
      stopped := updating;
    }

    method RecordNoIp(svc: SvcRef, cfg: Config)
      modifies this
      ensures Value() == TouchAll(old(Value()), RenderOps([Add(NoIp(svc.name, svc.ns))]), cfg.notify, cfg.incident)
    {
      DoneOne(Value(), Add(NoIp(svc.name, svc.ns)), cfg.notify, cfg.incident);
      Record(NoIp(svc.name, svc.ns).Render(), cfg.notify, cfg.incident);
    }

    method RecordNoIps(noIp: seq<SvcRef>, first: bool, cfg: Config)
      modifies this
      ensures Perform(old(Value()), Loop(NoIpOps(noIp), true), cfg, first) == Going(Value())
    {
      ghost var l := Value();
      assert RenderOps(NoIpOps(noIp[..0])) == [];
      for i := 0 to |noIp|
        invariant Value() == TouchAll(l, RenderOps(NoIpOps(noIp[..i])), cfg.notify, cfg.incident)
      {
        NoIpStep(noIp, i);
        DoneThen(l, NoIpOps(noIp[..i]), [Add(NoIp(noIp[i].name, noIp[i].ns))], cfg.notify, cfg.incident);
        RecordNoIp(noIp[i], cfg);
      }
      assert noIp[..|noIp|] == noIp;
    }

    method CheckWorker(w: Worker, cfg: Config)
      modifies this
      ensures Value() == TouchAll(old(Value()), RenderOps(WorkerOps(w, cfg)), false, cfg.incident)
    {
      ghost var l := Value();
      assert RenderOps([]) == [];
      if w.speaker.None? {
        if w.daemonset == Some(false) {
          DoneOne(l, Add(NoSpeaker(w.node, cfg.metalNs)), false, cfg.incident);
          Record(NoSpeaker(w.node, cfg.metalNs).Render(), false, cfg.incident);
        }
      } else {
        var pod := w.speaker.value;
        ghost var found := [Drop(NoSpeaker(w.node, cfg.metalNs))];
        DoneOne(l, found[0], false, cfg.incident);
        Clear(NoSpeaker(w.node, cfg.metalNs).Render(), false, cfg.incident);
        ghost var m := Value();
        if w.hops == Some(true) {
          DoneThen(l, found, [Drop(NoHops(pod, w.node))], false, cfg.incident);
          DoneOne(m, Drop(NoHops(pod, w.node)), false, cfg.incident);
          Clear(NoHops(pod, w.node).Render(), false, cfg.incident);
        } else if w.hops == Some(false) && !cfg.ignoreNoHop {
          DoneThen(l, found, [Add(NoHops(pod, w.node))], false, cfg.incident);
          DoneOne(m, Add(NoHops(pod, w.node)), false, cfg.incident);
          Record(NoHops(pod, w.node).Render(), false, cfg.incident);
        } else {
          assert found + [] == found;
        }
      }
    }

    method CheckWorkers(workers: seq<Worker>, first: bool, cfg: Config)
      modifies this
      ensures Perform(old(Value()), Loop(WorkersOps(workers, cfg), false), cfg, first) == Going(Value())
    {
      ghost var l := Value();
      assert RenderOps([]) == [];
      for i := 0 to |workers|
        invariant Value() == TouchAll(l, RenderOps(WorkersOps(workers[..i], cfg)), false, cfg.incident)
      {
        assert workers[..i + 1][..i] == workers[..i];
        DoneThen(l, WorkersOps(workers[..i], cfg), WorkerOps(workers[i], cfg), false, cfg.incident);
        CheckWorker(workers[i], cfg);
      }
      assert workers[..|workers|] == workers;
    }

    method CheckProbe(p: Probe, cfg: Config)
      modifies this
      ensures Value() == TouchAll(old(Value()), RenderOps([ProbeOp(p, cfg)]), false, cfg.incident)
    {
      DoneOne(Value(), ProbeOp(p, cfg), false, cfg.incident);
      if p.running {
        Clear(NoRunningSpeaker(p.node, cfg.metalNs).Render(), false, cfg.incident);
      } else {
        Record(NoRunningSpeaker(p.node, cfg.metalNs).Render(), false, cfg.incident);
      }
    }

    method CheckProbes(probes: seq<Probe>, first: bool, cfg: Config)
      modifies this
      ensures Perform(old(Value()), Loop(ProbeOps(probes, cfg), false), cfg, first) == Going(Value())
    {
      ghost var l := Value();
      assert RenderOps(ProbeOps(probes[..0], cfg)) == [];
      for i := 0 to |probes|
        invariant Value() == TouchAll(l, RenderOps(ProbeOps(probes[..i], cfg)), false, cfg.incident)
      {
        var p := probes[i];
        assert ProbeOps(probes[..i + 1], cfg) == ProbeOps(probes[..i], cfg) + [ProbeOp(p, cfg)];
        DoneThen(l, ProbeOps(probes[..i], cfg), [ProbeOp(p, cfg)], false, cfg.incident);
        CheckProbe(p, cfg);
      }
      assert probes[..|probes|] == probes;
    }

    method CleanNeighbor(step: NeighborStep, metalNs: string)
      modifies this
      ensures Value() == NeighborEffect(old(Value()), step, metalNs)
    {
      match step {
        case DeleteIndex(i) =>
          if i < |failedChecks| {
            failedChecks := DeleteAt(failedChecks, i);
          }
        case AtNode(node, missing) =>
          var check := NoSpeaker(node, metalNs).Render();
          if missing && check !in failedChecks {
            failedChecks := failedChecks + [check];
          } else if !missing && check in failedChecks {
            failedChecks := DeleteAt(failedChecks, IndexOf(failedChecks, check));
          }
      }
    }

    method CleanNeighbors(steps: seq<NeighborStep>, panics: bool, first: bool, cfg: Config)
      modifies this
      ensures Perform(old(Value()), Neighbors(steps, panics), cfg, first) == StageOf(Value(), panics, true)
    {
      ghost var l := Value();
      for k := 0 to |steps|
        invariant Value() == NeighborEffects(l, steps[..k], cfg.metalNs)
      {
        assert steps[..k + 1][..k] == steps[..k];
        CleanNeighbor(steps[k], cfg.metalNs);
      }
      assert steps[..|steps|] == steps;
    }

    /** The clean-up of deleted services, on the slice's own array. */
    method CleanDeletedServices(live: seq<string>, first: bool, cfg: Config) returns (panicked: bool)
      modifies this
      ensures Perform(old(Value()), DeletedServices(live), cfg, first) == StageOf(Value(), panicked, true)
    {
      panicked := false;
      if |live| > 0 {
        if |failedChecks| > 0 {
          var s := failedChecks;
          var a := new string[|s|](i requires 0 <= i < |s| => s[i]);
          assert a[..] == s;
          var n;
          n, panicked := CleanRange(a, StaleIn(live));
          failedChecks := a[..n];
        }
      }
    }

    // ----- the parts of a scan, each behind its gate

    method ConfigurationChecks(o: Observation, first: bool, cfg: Config)
      returns (stopped: bool, panicked: bool, ghost run: seq<ScanStep>)
      modifies this
      ensures Ran(old(Value()), run, ConfigurationSteps(o), StageOf(Value(), stopped, panicked), cfg, first)
    {
      ghost var l := Value();
      ghost var steps := ConfigurationSteps(o);
      assert steps == [steps[0]] + steps[1..] == [steps[0]] + [steps[1]] + steps[2..];
      panicked := false;
      stopped := McpGate(o.updating1, first, cfg);
      RanOne(l, steps[0], steps[0], cfg, first);
      if stopped {
        run := steps;
        RanStopped(l, [steps[0]], [steps[0]], Stopped(Value(), false), steps[1..], cfg, first);
        return;
      }
      ghost var m := Value();
      stopped := !o.hasServices;
      RanOne(m, steps[1], steps[1], cfg, first);
      RanThen(l, [steps[0]], [steps[0]], m, [steps[1]], [steps[1]], StageOf(m, stopped, false), cfg, first);
      run := [steps[0]] + [steps[1]];
      if stopped {
        RanStopped(l, run, run, Stopped(m, false), steps[2..], cfg, first);
        run := steps;
        return;
      }
      ghost var rest;
      panicked, rest := ConfigurationPhases(o, first, cfg);
      stopped := panicked;
      RanThen(l, run, run, m, rest, steps[2..], StageOf(Value(), stopped, panicked), cfg, first);
      run := run + rest;
    }

    method ConfigurationPhases(o: Observation, first: bool, cfg: Config)
      returns (panicked: bool, ghost run: seq<ScanStep>)
      modifies this
      ensures Ran(old(Value()), run, ConfigurationSteps(o)[2..], StageOf(Value(), panicked, panicked), cfg, first)
    {
      ghost var l := Value();
      ghost var loop, pools := Loop(NoIpOps(o.noIp), true), [Bodies(PeerBodies(o.peers))] + [Bodies(AdBodies(o.ads))];
      assert ConfigurationSteps(o)[2..] == [loop] + [Reading(o.poolsPanic)] + pools;
      RecordNoIps(o.noIp, first, cfg);
      panicked := o.poolsPanic;
      RanOne(l, loop, loop, cfg, first);
      RanReading(l, [loop], [loop], Value(), panicked, cfg, first);
      run := [loop] + [Reading(panicked)];
      if panicked {
        RanStopped(l, run, run, Stopped(Value(), true), pools, cfg, first);
        run := run + pools;
        return;
      }
      ghost var m := Value();
      ghost var rest := PoolPhases(o, first, cfg);
      RanThen(l, run, run, m, rest, pools, Going(Value()), cfg, first);
      run := run + rest;
    }

    method PoolPhases(o: Observation, first: bool, cfg: Config) returns (ghost run: seq<ScanStep>)
      modifies this
      ensures Ran(old(Value()), run, [Bodies(PeerBodies(o.peers))] + [Bodies(AdBodies(o.ads))],
                  Going(Value()), cfg, first)
    {
      ghost var l := Value();
      ghost var peers := RunPhase(PeerBodies(o.peers), first, cfg);
      RanOne(l, peers, Bodies(PeerBodies(o.peers)), cfg, first);
      ghost var m := Value();
      ghost var ads := RunPhase(AdBodies(o.ads), first, cfg);
      RanOne(m, ads, Bodies(AdBodies(o.ads)), cfg, first);
      RanThen(l, [peers], [Bodies(PeerBodies(o.peers))], m, [ads], [Bodies(AdBodies(o.ads))], Going(Value()), cfg,
              first);
      run := [peers] + [ads];
    }

    method EndpointChecks(o: Observation, first: bool, cfg: Config) returns (stopped: bool, ghost run: seq<ScanStep>)
      modifies this
      ensures Ran(old(Value()), run, EndpointSteps(o, first), StageOf(Value(), stopped, false), cfg, first)
    {
      ghost var l := Value();
      ghost var steps := EndpointSteps(o, first);
      assert |steps| == 3 && steps == [steps[0]] + [steps[1]] + [steps[2]];
      stopped := McpGate(o.updating2, first, cfg);
      RanOne(l, steps[0], steps[0], cfg, first);
      if stopped {
        run := steps;
        RanStopped(l, [steps[0]], [steps[0]], Stopped(Value(), false), [steps[1]] + [steps[2]], cfg, first);
        assert steps == [steps[0]] + ([steps[1]] + [steps[2]]);
        return;
      }
      ghost var m := Value();
      ghost var pods := RunPhase(EndpointBodies(o.services, first), first, cfg);
      RanOne(m, pods, steps[1], cfg, first);
      run := [steps[0]] + [pods];
      RanThen(l, [steps[0]], [steps[0]], m, [pods], [steps[1]], Going(Value()), cfg, first);
      m := Value();
      ghost var targets := RunPhase(TargetBodies(o.services, first), first, cfg);
      RanOne(m, targets, steps[2], cfg, first);
      RanThen(l, run, [steps[0]] + [steps[1]], m, [targets], [steps[2]], Going(Value()), cfg, first);
      run := run + [targets];
    }

    method HopPhases(o: Observation, first: bool, cfg: Config) returns (panicked: bool, ghost run: seq<ScanStep>)
      modifies this
      ensures Ran(old(Value()), run, [Loop(WorkersOps(o.workers, cfg), false)] + [Reading(o.hopsPanic)] +
                                      [Bodies(HopBodies(o.hops, cfg.ignoreBfd))],
                  StageOf(Value(), panicked, panicked), cfg, first)
    {
      ghost var l := Value();
      ghost var loop, phase := Loop(WorkersOps(o.workers, cfg), false), Bodies(HopBodies(o.hops, cfg.ignoreBfd));
      CheckWorkers(o.workers, first, cfg);
      panicked := o.hopsPanic;
      RanOne(l, loop, loop, cfg, first);
      RanReading(l, [loop], [loop], Value(), panicked, cfg, first);
      run := [loop] + [Reading(panicked)];
      if panicked {
        RanStopped(l, run, run, Stopped(Value(), true), [phase], cfg, first);
        run := run + [phase];
        return;
      }
      ghost var m := Value();
      ghost var hops := RunPhase(HopBodies(o.hops, cfg.ignoreBfd), first, cfg);
      RanOne(m, hops, phase, cfg, first);
      RanThen(l, run, run, m, [hops], [phase], Going(Value()), cfg, first);
      run := run + [hops];
    }

    method HopChecks(o: Observation, first: bool, cfg: Config)
      returns (stopped: bool, panicked: bool, ghost run: seq<ScanStep>)
      modifies this
      ensures Ran(old(Value()), run, HopSteps(o, cfg, first), StageOf(Value(), stopped, panicked), cfg, first)
    {
      ghost var l := Value();
      ghost var gate := Gate(o.updating3);
      ghost var phases := [Loop(WorkersOps(o.workers, cfg), false)] + [Reading(o.hopsPanic)] +
                          [Bodies(HopBodies(o.hops, cfg.ignoreBfd))];
      ghost var last := if first then [] else [Neighbors(o.neighbors, o.neighborsPanic)];
      assert HopSteps(o, cfg, first) == [gate] + phases + last == [gate] + (phases + last);
      panicked := false;
      stopped := McpGate(o.updating3, first, cfg);
      RanOne(l, gate, gate, cfg, first);
      if stopped {
        run := [gate] + (phases + last);
        RanStopped(l, [gate], [gate], Stopped(Value(), false), phases + last, cfg, first);
        return;
      }
      ghost var m, done := Value(), [];
      panicked, done := HopPhases(o, first, cfg);
      stopped := panicked;
      RanThen(l, [gate], [gate], m, done, phases, StageOf(Value(), stopped, panicked), cfg, first);
      run := [gate] + done;
      if panicked {
        RanStopped(l, run, [gate] + phases, Stopped(Value(), true), last, cfg, first);
        run := run + last;
        return;
      }
      if !first {
        m := Value();
        CleanNeighbors(o.neighbors, o.neighborsPanic, first, cfg);
        stopped, panicked := o.neighborsPanic, o.neighborsPanic;
        RanOne(m, last[0], last[0], cfg, first);
        RanThen(l, run, [gate] + phases, m, last, last, StageOf(Value(), stopped, panicked), cfg, first);
        run := run + last;
      } else {
        assert [gate] + phases + last == [gate] + phases;
      }
    }

    method RoutePhases(o: Observation, first: bool, cfg: Config) returns (panicked: bool, ghost run: seq<ScanStep>)
      modifies this
      ensures Ran(old(Value()), run, [Loop(ProbeOps(o.probes, cfg), false)] + [Reading(o.routesPanic)] +
                                      [Bodies(RouteBodies(o.routes))],
                  StageOf(Value(), panicked, panicked), cfg, first)
    {
      ghost var l := Value();
      ghost var loop, phase := Loop(ProbeOps(o.probes, cfg), false), Bodies(RouteBodies(o.routes));
      CheckProbes(o.probes, first, cfg);
      panicked := o.routesPanic;
      RanOne(l, loop, loop, cfg, first);
      RanReading(l, [loop], [loop], Value(), panicked, cfg, first);
      run := [loop] + [Reading(panicked)];
      if panicked {
        RanStopped(l, run, run, Stopped(Value(), true), [phase], cfg, first);
        run := run + [phase];
        return;
      }
      ghost var m := Value();
      ghost var routes := RunPhase(RouteBodies(o.routes), first, cfg);
      RanOne(m, routes, phase, cfg, first);
      RanThen(l, run, run, m, [routes], [phase], Going(Value()), cfg, first);
      run := run + [routes];
    }

    method RouteChecks(o: Observation, first: bool, cfg: Config)
      returns (stopped: bool, panicked: bool, ghost run: seq<ScanStep>)
      modifies this
      ensures Ran(old(Value()), run, RouteSteps(o, cfg, first), StageOf(Value(), stopped, panicked), cfg, first)
    {
      ghost var l := Value();
      ghost var gate := Gate(o.updating4);
      ghost var phases := [Loop(ProbeOps(o.probes, cfg), false)] + [Reading(o.routesPanic)] +
                          [Bodies(RouteBodies(o.routes))];
      ghost var last := if first then [] else [DeletedServices(o.live)];
      assert RouteSteps(o, cfg, first) == [gate] + phases + last == [gate] + (phases + last);
      panicked := false;
      stopped := McpGate(o.updating4, first, cfg);
      RanOne(l, gate, gate, cfg, first);
      if stopped {
        run := [gate] + (phases + last);
        RanStopped(l, [gate], [gate], Stopped(Value(), false), phases + last, cfg, first);
        return;
      }
      ghost var m, done := Value(), [];
      panicked, done := RoutePhases(o, first, cfg);
      stopped := panicked;
      RanThen(l, [gate], [gate], m, done, phases, StageOf(Value(), stopped, panicked), cfg, first);
      run := [gate] + done;
      if panicked {
        RanStopped(l, run, [gate] + phases, Stopped(Value(), true), last, cfg, first);
        run := run + last;
        return;
      }
      if !first {
        m := Value();
        panicked := CleanDeletedServices(o.live, first, cfg);
        stopped := panicked;
        RanOne(m, last[0], last[0], cfg, first);
        RanThen(l, run, [gate] + phases, m, last, last, StageOf(Value(), stopped, panicked), cfg, first);
        run := run + last;
      } else {
        assert [gate] + phases + last == [gate] + phases;
      }
    }

    method EarlyChecks(o: Observation, first: bool, cfg: Config)
      returns (stopped: bool, panicked: bool, ghost run: seq<ScanStep>)
      modifies this
      ensures Ran(old(Value()), run, ConfigurationSteps(o) + EndpointSteps(o, first),
                  StageOf(Value(), stopped, panicked), cfg, first)
    {
      ghost var l := Value();
      stopped, panicked, run := ConfigurationChecks(o, first, cfg);
      if stopped {
        RanStopped(l, run, ConfigurationSteps(o), Stopped(Value(), panicked), EndpointSteps(o, first), cfg, first);
        run := run + EndpointSteps(o, first);
        return;
      }
      ghost var m, rest := Value(), [];
      panicked := false;
      stopped, rest := EndpointChecks(o, first, cfg);
      RanThen(l, run, ConfigurationSteps(o), m, rest, EndpointSteps(o, first), StageOf(Value(), stopped, false), cfg,
              first);
      run := run + rest;
    }

    method LateChecks(o: Observation, first: bool, cfg: Config)
      returns (stopped: bool, panicked: bool, ghost run: seq<ScanStep>)
      modifies this
      ensures Ran(old(Value()), run, HopSteps(o, cfg, first) + RouteSteps(o, cfg, first),
                  StageOf(Value(), stopped, panicked), cfg, first)
    {
      ghost var l := Value();
      stopped, panicked, run := HopChecks(o, first, cfg);
      if stopped {
        RanStopped(l, run, HopSteps(o, cfg, first), Stopped(Value(), panicked), RouteSteps(o, cfg, first), cfg, first);
        run := run + RouteSteps(o, cfg, first);
        return;
      }
      ghost var m, rest := Value(), [];
      stopped, panicked, rest := RouteChecks(o, first, cfg);
      RanThen(l, run, HopSteps(o, cfg, first), m, rest, RouteSteps(o, cfg, first), StageOf(Value(), stopped, panicked),
              cfg, first);
      run := run + rest;
    }

    /** One whole scan: `run` is the schedule it happened to take. */
    method Scan(o: Observation, first: bool, cfg: Config)
      returns (stopped: bool, panicked: bool, ghost run: seq<ScanStep>)
      modifies this
      ensures Ran(old(Value()), run, ScanSteps(o, cfg, first), StageOf(Value(), stopped, panicked), cfg, first)
    {
      ghost var l := Value();
      ghost var early, late := ConfigurationSteps(o) + EndpointSteps(o, first),
                HopSteps(o, cfg, first) + RouteSteps(o, cfg, first);
      assert ScanSteps(o, cfg, first) == early + late;
      stopped, panicked, run := EarlyChecks(o, first, cfg);
      if stopped {
        RanStopped(l, run, early, Stopped(Value(), panicked), late, cfg, first);
        run := run + late;
        return;
      }
      ghost var m, rest := Value(), [];
      stopped, panicked, rest := LateChecks(o, first, cfg);
      RanThen(l, run, early, m, rest, late, StageOf(Value(), stopped, panicked), cfg, first);
      run := run + rest;
    }
  }

  class MetallbScanReconciler {
    const status: MetallbScanStatus
    const conditions: ConditionList
    var healthy: bool
    var lastRunTime: Option<int>
    var lastSuccessfulRunTime: Option<int>

    constructor (status: MetallbScanStatus, conditions: ConditionList)
      requires status.Value() == Lists([], []) && conditions.conditions == []
      ensures this.status == status && this.conditions == conditions && Value() == INITIAL
    {
      this.status, this.conditions := status, conditions;
      healthy, lastRunTime, lastSuccessfulRunTime := false, None, None;
    }

    function Value(): MetallbScan.Status
      reads this, status, conditions
    {
      MetallbScan.Status.Status(status.Value(), healthy, lastRunTime, lastSuccessfulRunTime, conditions.conditions)
    }

    method FinishScan(i: Input)
      modifies this, conditions
      ensures Value() == Finish(old(Value()), status.Value(), i)
    {
      lastRunTime := Some(i.ended);
      if |status.failedChecks| < 1 {
        healthy := true;
        lastSuccessfulRunTime := Some(i.reported);
        conditions.SetReadyCondition(READY, "True", REASON, COMPLETED, i.reported);
      } else {
        healthy := false;
        conditions.SetReadyCondition(READY, "False", REASON, FAILING, i.reported);
      }
    }

    method ScanAndFinish(i: Input) returns (ghost run: seq<ScanStep>)
      requires Scans(Value(), i)
      modifies this, status, conditions
      ensures Scheduled(run, ScanSteps(i.obs, i.cfg, old(lastRunTime).None?))
      ensures Value() == Reconcile(old(Value()), i, run)
    {
      var stopped, panicked;
      stopped, panicked, run := status.Scan(i.obs, lastRunTime.None?, i.cfg);
      if !stopped {
        FinishScan(i);
      } else if panicked && i.nameError {
        conditions.SetReadyCondition(READY, "False", REASON, Trouble(i), i.reported);
      }
    }

    method ScanIfDue(i: Input) returns (ghost run: seq<ScanStep>)
      requires Find(conditions.conditions, READY) >= 0 && !i.clusterError && !i.suspended
      modifies this, status, conditions
      ensures Scheduled(run, ScanSteps(i.obs, i.cfg, old(lastRunTime).None?))
      ensures Value() == Reconcile(old(Value()), i, run)
    {
      run := ScanSteps(i.obs, i.cfg, lastRunTime.None?);
      if lastRunTime.None? {
        run := ScanAndFinish(i);
      } else {
        var pastTime := i.now - i.interval;
        if lastRunTime.value < pastTime {
          run := ScanAndFinish(i);
        }
      }
    }

    method ReconcileOnce(i: Input) returns (ghost run: seq<ScanStep>)
      modifies this, status, conditions
      ensures Scheduled(run, ScanSteps(i.obs, i.cfg, old(lastRunTime).None?))
      ensures Value() == Reconcile(old(Value()), i, run)
    {
      run := ScanSteps(i.obs, i.cfg, lastRunTime.None?);
      var ready := Find(conditions.conditions, READY);
      if ready < 0 {
        conditions.SetReadyCondition(READY, "Unknown", REASON, "First Seen", i.reported);
        return;
      }
      if i.clusterError {
        conditions.SetReadyCondition(READY, "False", REASON, Trouble(i), i.reported);
        return;
      }
      if i.suspended {
        return;
      }
      run := ScanIfDue(i);
    }
  }
}
