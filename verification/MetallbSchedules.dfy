/** The order in which the bodies of each phase happen to run does not decide the
    verdict of a whole scan, as long as no phase holds two records that share a message
    and disagree about it. */
module MetallbSchedules {
  import opened StatusLists
  import opened CleanupLoop
  import opened CleanupOrders
  import opened MetallbPhases
  import opened MetallbScan
  import opened MetallbRuns
  import opened MetallbEntries

  lemma RunSets(s: seq<string>, t: seq<string>, ops: seq<Op<string>>)
    requires NoDup(s) && NoDup(t) && SameElements(s, t)
    ensures SameElements(Run(s, ops), Run(t, ops))
  {
    forall k ensures k in Run(s, ops) <==> k in Run(t, ops) {
      RunMembership(s, ops, k);
      RunMembership(t, ops, k);
    }
  }

  lemma PhaseOpsOfSchedule(a: seq<Body>, b: seq<Body>, first: bool, op: Op<string>)
    requires IsSchedule(a, b) && op in PhaseOps(a, first)
    ensures op in PhaseOps(b, first)
  {
    FlattenMembers(TextLists(a, first), op);
    var i :| 0 <= i < |a| && op in TextLists(a, first)[i];
    ScheduleMembers(a, b, a[i]);
    var j :| 0 <= j < |b| && b[j] == a[i];
    assert TextLists(b, first)[j] == TextLists(a, first)[i];
    FlattenMembers(TextLists(b, first), op);
  }

  lemma PhaseSets(s: seq<string>, t: seq<string>, a: seq<Body>, b: seq<Body>, first: bool)
    requires NoDup(s) && NoDup(t) && SameElements(s, t)
    requires IsSchedule(a, b) && WellNamedBodies(b, first) && BodiesAgree(b, first)
    ensures SameElements(Run(s, PhaseOps(a, first)), Run(t, PhaseOps(b, first)))
  {
    var p, q := PhaseOps(a, first), PhaseOps(b, first);
    AgreeOnMessages(b, first);
    forall op ensures op in p <==> op in q {
      if op in p { PhaseOpsOfSchedule(a, b, first, op); }
      if op in q { PhaseOpsOfSchedule(b, a, first, op); }
    }
    forall k ensures k in Run(s, p) <==> k in Run(t, q) {
      RunMembership(s, p, k);
      RunMembership(t, q, k);
      LastOpSound(p, k);
      LastOpSound(q, k);
    }
  }

  lemma {:induction false} NeighborSets(l: Lists, m: Lists, steps: seq<NeighborStep>, metalNs: string)
    requires Clean(l) && Clean(m) && SameElements(l.failed, m.failed)
    requires forall s :: s in steps ==> s.AtNode?
    ensures SameElements(NeighborEffects(l, steps, metalNs).failed, NeighborEffects(m, steps, metalNs).failed)
  {
    if steps != [] {
      var front, s := steps[..|steps| - 1], steps[|steps| - 1];
      NeighborSets(l, m, front, metalNs);
      NeighborsClean(l, front, metalNs);
      NeighborsClean(m, front, metalNs);
      assert s in steps;
      var op := RenderOp(NeighborOp(s.node, s.missing, metalNs));
      ApplyMembers(NeighborEffects(l, front, metalNs).failed, op);
      ApplyMembers(NeighborEffects(m, front, metalNs).failed, op);
    }
  }

  /** A step whose effect on the set of failures does not hang on an order. */
  ghost predicate Settled(step: ScanStep, first: bool) {
    match step
    case Bodies(bodies) => WellNamedBodies(bodies, first) && BodiesAgree(bodies, first)
    case Neighbors(steps, _) => forall s :: s in steps ==> s.AtNode?
    case DeletedServices(_) => false
    case _ => true
  }

  lemma StepConverges(l: Lists, m: Lists, a: ScanStep, b: ScanStep, cfg: Config, first: bool)
    requires Clean(l) && Clean(m) && SameElements(l.failed, m.failed)
    requires SameStep(a, b) && Settled(b, first)
    ensures var x, y := Perform(l, a, cfg, first), Perform(m, b, cfg, first);
            (x.Going? <==> y.Going?) && SameElements(x.lists.failed, y.lists.failed)
  {
    match b
    case Gate(updating) =>
      var ops := RenderOps(GateOps(updating, first));
      TouchAllFailed(l, ops, false, cfg.incident);
      TouchAllFailed(m, ops, false, cfg.incident);
      RunSets(l.failed, m.failed, ops);
    case Services(_) =>
    case Reading(_) =>
    case Bodies(bodies) =>
      TouchAllFailed(l, PhaseOps(a.bodies, first), cfg.notify, cfg.incident);
      TouchAllFailed(m, PhaseOps(bodies, first), cfg.notify, cfg.incident);
      PhaseSets(l.failed, m.failed, a.bodies, bodies, first);
    case Loop(ops, notify) =>
      TouchAllFailed(l, RenderOps(ops), notify && cfg.notify, cfg.incident);
      TouchAllFailed(m, RenderOps(ops), notify && cfg.notify, cfg.incident);
      RunSets(l.failed, m.failed, RenderOps(ops));
    case Neighbors(steps, _) => NeighborSets(l, m, steps, cfg.metalNs);
  }

  /** Two schedules of the same steps go equally far and list the same failures. */
  lemma {:induction false} SchedulesAgree(l: Lists, a: seq<ScanStep>, b: seq<ScanStep>, cfg: Config, first: bool)
    requires Clean(l) && Scheduled(a, b) && forall s :: s in b ==> Settled(s, first)
    ensures var x, y := RunSteps(l, a, cfg, first), RunSteps(l, b, cfg, first);
            (x.Going? <==> y.Going?) && SameElements(x.lists.failed, y.lists.failed)
  {
    if a != [] {
      var n := |a| - 1;
      assert b[n] in b && SameStep(a[n], b[n]);
      SchedulesAgree(l, a[..n], b[..n], cfg, first);
      RunStepsClean(l, a[..n], cfg, first);
      RunStepsClean(l, b[..n], cfg, first);
      StepConverges(RunSteps(l, a[..n], cfg, first).lists, RunSteps(l, b[..n], cfg, first).lists, a[n], b[n], cfg,
                    first);
    }
  }

  ghost predicate OneStale(failed: seq<string>, live: seq<string>) {
    OneStaleAtMost(failed, StaleIn(live))
  }

  lemma SameOneStale(x: seq<string>, y: seq<string>, stale: string -> bool)
    requires SameElements(x, y) && NoDup(x) && OneStaleAtMost(y, stale)
    ensures OneStaleAtMost(x, stale)
  {
  }

  lemma OneStaleAlike(l: Lists, m: Lists, live: seq<string>, cfg: Config)
    requires Clean(l) && Clean(m) && SameElements(l.failed, m.failed) && live != [] && OneStale(m.failed, live)
    ensures var x, y := Perform(l, DeletedServices(live), cfg, false), Perform(m, DeletedServices(live), cfg, false);
            x.Going? && y.Going? && SameElements(x.lists.failed, y.lists.failed)
  {
    SameOneStale(l.failed, m.failed, StaleIn(live));
    OneStaleIsCleaned(l.failed, StaleIn(live));
    OneStaleIsCleaned(m.failed, StaleIn(live));
  }

  /** The same for an elapsed scan up to its end, when at most one failure is stale. */
  lemma CleanedSchedulesAgree(l: Lists, a: seq<ScanStep>, b: seq<ScanStep>, live: seq<string>, cfg: Config)
    requires Clean(l) && Scheduled(a, b) && forall s :: s in b ==> Settled(s, false)
    requires live == [] || OneStale(RunSteps(l, b, cfg, false).lists.failed, live)
    ensures var x, y := RunSteps(l, a + [DeletedServices(live)], cfg, false),
                    RunSteps(l, b + [DeletedServices(live)], cfg, false);
            (x.Going? <==> y.Going?) && SameElements(x.lists.failed, y.lists.failed)
  {
    SchedulesAgree(l, a, b, cfg, false);
    assert (a + [DeletedServices(live)])[..|a|] == a && (b + [DeletedServices(live)])[..|b|] == b;
    if live != [] && RunSteps(l, b, cfg, false).Going? {
      RunStepsClean(l, a, cfg, false);
      RunStepsClean(l, b, cfg, false);
      OneStaleAlike(RunSteps(l, a, cfg, false).lists, RunSteps(l, b, cfg, false).lists, live, cfg);
    }
  }

  lemma {:induction false} ServiceLoopsAdd(name: string, services: seq<LbService>)
    ensures forall op :: op in DownOps(name, services) || op in MissingOps(name, services) ==> op.Add?
  {
    if services != [] { ServiceLoopsAdd(name, services[..|services| - 1]); }
  }

  /** A first scan records and never clears, so its phases cannot disagree. */
  lemma FirstScanAdds(b: Body)
    ensures forall op :: op in BodyOps(b, true) ==> op.Add?
  {
    if b.DownBody? || b.MissingBody? { ServiceLoopsAdd(b.svcName, b.services); }
  }

  lemma FirstPhaseSettled(bodies: seq<Body>, cfg: Config)
    requires AddsRecordable(Bodies(bodies), cfg, true)
    ensures Settled(Bodies(bodies), true)
  {
    forall b | b in bodies ensures WellNamedOps(BodyOps(b, true)) && forall f :: Drop(f) !in BodyOps(b, true) {
      FirstScanAdds(b);
      forall op | op in BodyOps(b, true) ensures op.key.WellNamed() {
        assert op == Add(op.key) && Adds(Bodies(bodies), op.key, cfg, true);
      }
    }
  }

  lemma FirstScanSettled(o: Observation, cfg: Config)
    requires Observed(o, cfg)
    ensures forall step :: step in ScanSteps(o, cfg, true) ==> Settled(step, true)
  {
    StepsMarkerQuiet(o, cfg, true);
    forall step | step in ScanSteps(o, cfg, true) ensures Settled(step, true) {
      StepAdds(o, cfg, true, step);
      if step.Bodies? { FirstPhaseSettled(step.bodies, cfg); }
    }
  }

  lemma VerdictByEmptiness(s: Status, i: Input, x: Stage, y: Stage)
    requires (x.Going? <==> y.Going?) && SameElements(x.lists.failed, y.lists.failed)
    ensures AfterScan(s, i, x).healthy == AfterScan(s, i, y).healthy
    ensures AfterScan(s, i, x).lists == x.lists && AfterScan(s, i, y).lists == y.lists
  {
    EmptyAlike(x.lists.failed, y.lists.failed);
  }

  /** The verdict of a reconcile that runs the first scan is the same for every schedule,
      whatever was observed. */
  lemma FirstVerdictScheduleFree(s: Status, i: Input, a: seq<ScanStep>, b: seq<ScanStep>)
    requires Clean(s.lists) && s.lastRun.None? && Observed(i.obs, i.cfg)
    requires Scheduled(a, b) && b == ScanSteps(i.obs, i.cfg, true)
    ensures Reconcile(s, i, a).healthy == Reconcile(s, i, b).healthy
    ensures SameElements(Reconcile(s, i, a).lists.failed, Reconcile(s, i, b).lists.failed)
  {
    FirstScanSettled(i.obs, i.cfg);
    SchedulesAgree(s.lists, a, b, i.cfg, true);
    VerdictByEmptiness(s, i, RunSteps(s.lists, a, i.cfg, true), RunSteps(s.lists, b, i.cfg, true));
  }

  lemma EmptyAlike(s: seq<string>, t: seq<string>)
    requires SameElements(s, t)
    ensures s == [] <==> t == []
  {
    if s != [] { assert s[0] in t; }
    if t != [] { assert t[0] in s; }
  }

  lemma SameEntriesStale(x: seq<string>, y: seq<string>, stale: string -> bool)
    requires NoDup(x) && NoDup(y) && SameElements(x, y) && AllStale(y, stale)
    ensures |x| == |y| && AllStale(x, stale)
  {
    SameEntries(x, y);
    assert |x| == |multiset(x)| == |y|;
    forall k | 0 <= k < |x| ensures stale(x[k]) { assert x[k] in y; }
  }

  lemma AllStaleAlike(l: Lists, m: Lists, live: seq<string>, cfg: Config)
    requires NoDup(l.failed) && NoDup(m.failed) && SameElements(l.failed, m.failed) && live != []
    requires AllStale(m.failed, StaleIn(live))
    ensures var x, y := Perform(l, DeletedServices(live), cfg, false), Perform(m, DeletedServices(live), cfg, false);
            (x.Going? <==> y.Going?) && (x.Going? ==> x.lists.failed == [] && y.lists.failed == [])
  {
    SameEntriesStale(l.failed, m.failed, StaleIn(live));
    AllStaleVerdict(l.failed, StaleIn(live));
    AllStaleVerdict(m.failed, StaleIn(live));
  }

  /** The same for an elapsed scan that finds every failure stale: it ends empty, or the
      clean-up panics, whatever the schedule. */
  lemma StaleSchedulesAgree(l: Lists, a: seq<ScanStep>, b: seq<ScanStep>, live: seq<string>, cfg: Config)
    requires Clean(l) && Scheduled(a, b) && (forall s :: s in b ==> Settled(s, false)) && live != []
    requires AllStale(RunSteps(l, b, cfg, false).lists.failed, StaleIn(live))
    ensures var x, y := RunSteps(l, a + [DeletedServices(live)], cfg, false),
                    RunSteps(l, b + [DeletedServices(live)], cfg, false);
            (x.Going? <==> y.Going?) && (x.Going? ==> x.lists.failed == [] && y.lists.failed == [])
  {
    SchedulesAgree(l, a, b, cfg, false);
    RunStepsClean(l, a, cfg, false);
    RunStepsClean(l, b, cfg, false);
    assert (a + [DeletedServices(live)])[..|a|] == a && (b + [DeletedServices(live)])[..|b|] == b;
    if RunSteps(l, b, cfg, false).Going? {
      AllStaleAlike(RunSteps(l, a, cfg, false).lists, RunSteps(l, b, cfg, false).lists, live, cfg);
    }
  }

  /** The verdict of an elapsed scan is the same for every schedule when its phases agree,
      no neighbor was deleted by index, and at most one failure was stale or all of them
      were when the deleted services were cleaned up. */
  lemma ElapsedVerdictScheduleFree(s: Status, i: Input, a: seq<ScanStep>, b: seq<ScanStep>, live: seq<string>)
    requires Clean(s.lists) && s.lastRun.Some?
    requires Scheduled(a, b) && forall step :: step in b ==> Settled(step, false)
    requires var m := RunSteps(s.lists, b, i.cfg, false).lists.failed;
             live == [] || OneStale(m, live) || AllStale(m, StaleIn(live))
    ensures var x, y := Reconcile(s, i, a + [DeletedServices(live)]), Reconcile(s, i, b + [DeletedServices(live)]);
            && x.healthy == y.healthy
            && (live == [] || OneStale(RunSteps(s.lists, b, i.cfg, false).lists.failed, live) ==>
                  SameElements(x.lists.failed, y.lists.failed))
  {
    var x, y := RunSteps(s.lists, a + [DeletedServices(live)], i.cfg, false),
                RunSteps(s.lists, b + [DeletedServices(live)], i.cfg, false);
    if live == [] || OneStale(RunSteps(s.lists, b, i.cfg, false).lists.failed, live) {
      CleanedSchedulesAgree(s.lists, a, b, live, i.cfg);
      VerdictByEmptiness(s, i, x, y);
    } else {
      StaleSchedulesAgree(s.lists, a, b, live, i.cfg);
      EmptyVerdicts(s, i, x, y);
    }
  }

  lemma EmptyVerdicts(s: Status, i: Input, x: Stage, y: Stage)
    requires (x.Going? <==> y.Going?) && (x.Going? ==> x.lists.failed == [] && y.lists.failed == [])
    ensures AfterScan(s, i, x).healthy == AfterScan(s, i, y).healthy
  {
  }
}
