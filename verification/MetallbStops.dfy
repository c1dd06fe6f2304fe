/** Where a MetallbScan ends early, and what it has then done. */
module MetallbStops {
  import opened StatusLists
  import opened Conditions
  import opened FailureMessages
  import opened CleanupLoop
  import opened MetallbPhases
  import opened MetallbScan
  import opened MetallbRuns
  import opened MetallbEntries
  import opened MetallbOutcome

  // ----- when a reconcile scans

  /** Before the interval is over, and while suspended, nothing is scanned: the lists, the
      verdict and the times stay, and without a cluster error the conditions too. */
  lemma ShutGate(s: Status, i: Input, run: seq<ScanStep>)
    requires Find(s.conditions, READY) >= 0
    requires i.suspended || (s.lastRun.Some? && i.now - s.lastRun.value <= i.interval)
    ensures var r := Reconcile(s, i, run);
            && r.lists == s.lists && r.healthy == s.healthy && r.lastRun == s.lastRun && r.lastSuccess == s.lastSuccess
            && (!i.clusterError ==> r == s)
  {
  }

  /** Otherwise the scan runs, a first one until one has completed, and its lists are kept
      however far it gets. */
  lemma OpenGate(s: Status, i: Input, run: seq<ScanStep>)
    requires Find(s.conditions, READY) >= 0 && !i.clusterError && !i.suspended
    requires s.lastRun.None? || i.now - s.lastRun.value > i.interval
    ensures var st, r := RunSteps(s.lists, run, i.cfg, s.lastRun.None?), Reconcile(s, i, run);
            && r.lists == st.lists
            && r.lastRun == (if st.Going? then Some(i.ended) else s.lastRun)
            && (st.Going? ==> (r.healthy <==> r.lists.failed == []))
  {
  }

  // ----- which scans complete

  predicate Ends(step: ScanStep) {
    match step
    case Gate(updating) => updating
    case Services(any) => !any
    case Reading(panics) => panics
    case Neighbors(_, panics) => panics
    case _ => false
  }

  lemma PerformEnds(l: Lists, step: ScanStep, cfg: Config, first: bool)
    requires !step.DeletedServices?
    ensures Perform(l, step, cfg, first).Going? <==> !Ends(step)
  {
  }

  /** A run goes on exactly as long as none of its steps ends it. */
  lemma {:induction false} GoingIff(l: Lists, run: seq<ScanStep>, cfg: Config, first: bool)
    requires forall s :: s in run ==> !s.DeletedServices?
    ensures RunSteps(l, run, cfg, first).Going? <==> forall s :: s in run ==> !Ends(s)
  {
    if run != [] {
      var front, last := run[..|run| - 1], run[|run| - 1];
      assert run == front + [last] && last in run;
      GoingIff(l, front, cfg, first);
      if RunSteps(l, front, cfg, first).Going? { PerformEnds(RunSteps(l, front, cfg, first).lists, last, cfg, first); }
    }
  }

  /** What keeps a first scan from ending early; it does not clean up neighbors. */
  predicate Unstopped(o: Observation, first: bool) {
    && !o.updating1 && !o.updating2 && !o.updating3 && !o.updating4 && o.hasServices
    && !o.poolsPanic && !o.hopsPanic && (first || !o.neighborsPanic) && !o.routesPanic
  }

  lemma EarlyEnds(o: Observation, first: bool)
    ensures (forall s :: s in ConfigurationSteps(o) ==> !Ends(s)) <==> !o.updating1 && o.hasServices && !o.poolsPanic
    ensures (forall s :: s in EndpointSteps(o, first) ==> !Ends(s)) <==> !o.updating2
  {
    var c, e := ConfigurationSteps(o), EndpointSteps(o, first);
    assert c[0] in c && c[1] in c && c[3] in c && e[0] in e;
  }

  lemma LateEnds(o: Observation, cfg: Config, first: bool)
    ensures (forall s :: s in HopSteps(o, cfg, first) ==> !Ends(s)) <==>
              !o.updating3 && !o.hopsPanic && (first || !o.neighborsPanic)
    ensures (forall s :: s in BehindHops(o, cfg) ==> !Ends(s)) <==> !o.updating4 && !o.routesPanic
  {
    var h, b := HopSteps(o, cfg, first), BehindHops(o, cfg);
    assert h[0] in h && h[2] in h && b[0] in b && b[2] in b;
    if !first { assert h[4] in h; }
  }

  lemma PlainEnds(o: Observation, cfg: Config, first: bool)
    ensures (forall s :: s in PlainSteps(o, cfg, first) ==> !Ends(s)) <==> Unstopped(o, first)
  {
    var c, e, h, b := ConfigurationSteps(o), EndpointSteps(o, first), HopSteps(o, cfg, first), BehindHops(o, cfg);
    EarlyEnds(o, first);
    LateEnds(o, cfg, first);
    assert forall s :: s in PlainSteps(o, cfg, first) <==> s in c || s in e || s in h || s in b;
  }

  lemma ScheduleEnds(run: seq<ScanStep>, steps: seq<ScanStep>)
    requires Scheduled(run, steps) && forall s :: s in steps ==> !s.DeletedServices?
    ensures forall s :: s in run ==> !s.DeletedServices?
    ensures (forall s :: s in run ==> !Ends(s)) <==> forall s :: s in steps ==> !Ends(s)
  {
    forall i | 0 <= i < |run| ensures run[i] in run && steps[i] in steps && (Ends(run[i]) <==> Ends(steps[i]))
                                      && !run[i].DeletedServices? {
      assert SameStep(run[i], steps[i]);
    }
  }

  /** A scan reaches its last clean-up if and only if no update is in progress at any of its
      four checks, there are load balancer services, and nothing it reads panics. */
  lemma ReachesEndIff(l: Lists, run: seq<ScanStep>, o: Observation, cfg: Config, first: bool)
    requires Scheduled(run, PlainSteps(o, cfg, first))
    ensures RunSteps(l, run, cfg, first).Going? <==> Unstopped(o, first)
  {
    PlainWithoutCleanup(o, cfg, first);
    ScheduleEnds(run, PlainSteps(o, cfg, first));
    GoingIff(l, run, cfg, first);
    PlainEnds(o, cfg, first);
  }

  lemma PlainWithoutCleanup(o: Observation, cfg: Config, first: bool)
    ensures forall s :: s in PlainSteps(o, cfg, first) ==> !s.DeletedServices?
  {
  }

  lemma CleanupLast(l: Lists, run: seq<ScanStep>, live: seq<string>, cfg: Config)
    requires RunSteps(l, run, cfg, false).Going?
    ensures RunSteps(l, run + [DeletedServices(live)], cfg, false) ==
            Perform(RunSteps(l, run, cfg, false).lists, DeletedServices(live), cfg, false)
  {
    assert (run + [DeletedServices(live)])[..|run|] == run;
  }

  lemma CleanupGoes(l: Lists, live: seq<string>, cfg: Config)
    ensures Perform(l, DeletedServices(live), cfg, false).Going? <==>
              live == [] || !OutOfRange(l.failed, StaleIn(live))
  {
  }

  /** It then completes unless the clean-up deletes out of range. */
  lemma CompletesIff(l: Lists, run: seq<ScanStep>, o: Observation, cfg: Config)
    requires Scheduled(run, PlainSteps(o, cfg, false))
    ensures RunSteps(l, run + [DeletedServices(o.live)], cfg, false).Going? <==>
              && Unstopped(o, false)
              && (o.live == [] || !OutOfRange(RunSteps(l, run, cfg, false).lists.failed, StaleIn(o.live)))
  {
    ReachesEndIff(l, run, o, cfg, false);
    if RunSteps(l, run, cfg, false).Going? {
      CleanupLast(l, run, o.live, cfg);
      CleanupGoes(RunSteps(l, run, cfg, false).lists, o.live, cfg);
    } else {
      assert (run + [DeletedServices(o.live)])[..|run|] == run;
      StaysStopped(l, run + [DeletedServices(o.live)], cfg, false, |run|);
    }
  }

  // ----- where it ends

  /** The first step that ends a run. */
  function EndOf(run: seq<ScanStep>): (n: nat)
    ensures n <= |run| && (forall k :: 0 <= k < n ==> !Ends(run[k])) && (n < |run| ==> Ends(run[n]))
  {
    if run == [] || Ends(run[0]) then 0 else 1 + EndOf(run[1..])
  }

  lemma {:induction false} StaysStopped(l: Lists, run: seq<ScanStep>, cfg: Config, first: bool, n: nat)
    requires n <= |run| && RunSteps(l, run[..n], cfg, first).Stopped?
    ensures RunSteps(l, run, cfg, first) == RunSteps(l, run[..n], cfg, first)
  {
    if n < |run| {
      assert run[..|run| - 1][..n] == run[..n];
      StaysStopped(l, run[..|run| - 1], cfg, first, n);
    } else {
      assert run[..n] == run;
    }
  }

  lemma EndsThere(l: Lists, run: seq<ScanStep>, cfg: Config, first: bool)
    requires (forall s :: s in run ==> !s.DeletedServices?) && EndOf(run) < |run|
    ensures var n := EndOf(run);
            && RunSteps(l, run[..n], cfg, first).Going?
            && RunSteps(l, run, cfg, first) == Perform(RunSteps(l, run[..n], cfg, first).lists, run[n], cfg, first)
  {
    var n := EndOf(run);
    GoingIff(l, run[..n], cfg, first);
    assert run[..n + 1][..n] == run[..n] && run[n] in run;
    PerformEnds(RunSteps(l, run[..n], cfg, first).lists, run[n], cfg, first);
    StaysStopped(l, run, cfg, first, n + 1);
  }

  /** A scan that ends at an update lists the marker besides what it had listed so far and
      does not panic; one that ends for lack of services leaves the lists as they are; every
      other end is a panic. */
  lemma EndLists(l: Lists, run: seq<ScanStep>, cfg: Config, first: bool)
    requires Clean(l) && (forall s :: s in run ==> !s.DeletedServices?) && EndOf(run) < |run|
    ensures var n := EndOf(run);
            var mid, st := RunSteps(l, run[..n], cfg, first), RunSteps(l, run, cfg, first);
            && mid.Going? && st.Stopped? && (st.panicked <==> run[n].Reading? || run[n].Neighbors?)
            && (run[n].Gate? ==>
                  forall x :: x in st.lists.failed <==> x in mid.lists.failed || x == McpUpdating.Render())
            && (run[n].Gate? ==> st.lists.incidents == mid.lists.incidents)
            && (run[n].Services? || run[n].Reading? ==> st.lists == mid.lists)
  {
    var n := EndOf(run);
    EndsThere(l, run, cfg, first);
    RunStepsClean(l, run[..n], cfg, first);
    if run[n].Gate? { UpdateRecorded(RunSteps(l, run[..n], cfg, first).lists, cfg, first); }
  }

  lemma UpdateRecorded(l: Lists, cfg: Config, first: bool)
    requires Clean(l)
    ensures var m := Perform(l, Gate(true), cfg, first).lists;
            && m.incidents == l.incidents
            && forall x :: x in m.failed <==> x in l.failed || x == McpUpdating.Render()
  {
    var ops := RenderOps(GateOps(true, first));
    assert ops == [Add(McpUpdating.Render())] && ops[..0] == [];
    assert TouchAll(l, [], false, cfg.incident) == l;
    ApplyMembers(l.failed, ops[0]);
  }

  /** A failure whose own step lies behind that end has its verdict all the same, and all
      others are listed as they were before the scan. */
  lemma StoppedLists(l: Lists, run: seq<ScanStep>, o: Observation, cfg: Config, first: bool, f: Failure)
    requires Clean(l) && f.WellNamed() && OwnStep(f, o)
    requires Scheduled(run, PlainSteps(o, cfg, first)) && OrderlySteps(PlainSteps(o, cfg, first), cfg, first)
    requires EndOf(run) < |run| && !run[EndOf(run)].Neighbors?
    ensures var n, before := EndOf(run), f.Render() in l.failed;
            f.Render() in RunSteps(l, run, cfg, first).lists.failed <==>
              if StepOf(f, o, cfg, first) in PlainSteps(o, cfg, first)[..n] then OwnVerdict(f, before, o, cfg, first)
              else before
  {
    var steps, n := PlainSteps(o, cfg, first), EndOf(run);
    PlainWithoutCleanup(o, cfg, first);
    ScheduleEnds(run, steps);
    EndLists(l, run, cfg, first);
    assert SameStep(run[n], steps[n]);
    MarkerLetter(f);
    ScheduledPrefix(run, steps, n);
    PrefixLists(l, run[..n], o, cfg, first, n, f);
  }

  lemma ScheduledPrefix(run: seq<ScanStep>, steps: seq<ScanStep>, n: nat)
    requires Scheduled(run, steps) && n <= |run|
    ensures Scheduled(run[..n], steps[..n])
  {
  }
}
