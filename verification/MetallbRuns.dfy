/** What every run of the MetallbScan reconciler keeps, over all observations and all
    execution orders of the bodies of each phase. */
module MetallbRuns {
  import opened StatusLists
  import opened Conditions
  import opened CleanupLoop
  import opened MetallbPhases
  import opened MetallbScan

  /** One reconcile: its input and the steps of its scan as they were scheduled. */
  datatype Turn = Turn(input: Input, run: seq<ScanStep>)

  function RunAll(turns: seq<Turn>): Status {
    if turns == [] then INITIAL
    else
      var t := turns[|turns| - 1];
      Reconcile(RunAll(turns[..|turns| - 1]), t.input, t.run)
  }

  // ----- no duplicates

  lemma {:induction false} NeighborsClean(l: Lists, steps: seq<NeighborStep>, metalNs: string)
    requires Clean(l)
    ensures Clean(NeighborEffects(l, steps, metalNs))
  {
    if steps != [] {
      var m, s := NeighborEffects(l, steps[..|steps| - 1], metalNs), steps[|steps| - 1];
      NeighborsClean(l, steps[..|steps| - 1], metalNs);
      match s
      case DeleteIndex(i) => if i < |m.failed| { DeleteNoDup(m.failed, i); }
      case AtNode(node, missing) =>
        ApplyMembers(m.failed, RenderOp(NeighborOp(node, missing, metalNs)));
    }
  }

  lemma PerformClean(l: Lists, step: ScanStep, cfg: Config, first: bool)
    requires Clean(l)
    ensures Clean(Perform(l, step, cfg, first).lists)
  {
    match step
    case Gate(updating) => TouchAllClean(l, RenderOps(GateOps(updating, first)), false, cfg.incident);
    case Services(_) =>
    case Reading(_) =>
    case Bodies(bodies) => TouchAllClean(l, PhaseOps(bodies, first), cfg.notify, cfg.incident);
    case Loop(ops, notify) => TouchAllClean(l, RenderOps(ops), notify && cfg.notify, cfg.incident);
    case Neighbors(steps, _) => NeighborsClean(l, steps, cfg.metalNs);
    case DeletedServices(live) => CleanResultKeeps(l.failed, StaleIn(live));
  }

  lemma {:induction false} RunStepsClean(l: Lists, steps: seq<ScanStep>, cfg: Config, first: bool)
    requires Clean(l)
    ensures Clean(RunSteps(l, steps, cfg, first).lists)
  {
    if steps != [] {
      RunStepsClean(l, steps[..|steps| - 1], cfg, first);
      PerformClean(RunSteps(l, steps[..|steps| - 1], cfg, first).lists, steps[|steps| - 1], cfg, first);
    }
  }

  /** In every reachable state neither list holds a duplicate, and no incident is empty
      or pending. */
  lemma {:induction false} ReachableClean(turns: seq<Turn>)
    ensures Clean(RunAll(turns).lists)
  {
    if turns != [] {
      var s, t := RunAll(turns[..|turns| - 1]), turns[|turns| - 1];
      ReachableClean(turns[..|turns| - 1]);
      RunStepsClean(s.lists, t.run, t.input.cfg, s.lastRun.None?);
    }
  }

  // ----- the verdict

  ghost predicate Completes(s: Status, t: Turn) {
    Scans(s, t.input) && RunSteps(s.lists, t.run, t.input.cfg, s.lastRun.None?).Going?
  }

  function ReadyStatus(s: Status): string {
    var i := Find(s.conditions, READY);
    if i < 0 then "" else s.conditions[i].status
  }

  lemma ReportedStatus(s: Status, status: string, message: string, i: Input)
    ensures ReadyStatus(Report(s, status, message, i)) == status
    ensures Find(Report(s, status, message, i).conditions, READY) >= 0
  {
    var cs := Report(s, status, message, i).conditions;
    var k := Find(s.conditions, READY);
    assert cs[if k < 0 then |s.conditions| else k].kind == READY;
    assert forall j :: 0 <= j < |s.conditions| ==> cs[j].kind == s.conditions[j].kind;
  }

  /** A completed scan is Healthy iff nothing is listed iff Ready is True, and then
      only does the time of the last success move; the next scan waits out the
      interval. */
  lemma CompletedVerdict(s: Status, t: Turn)
    requires Completes(s, t)
    ensures var r := Reconcile(s, t.input, t.run);
            && (r.healthy <==> r.lists.failed == [])
            && ReadyStatus(r) == (if r.healthy then "True" else "False")
            && r.lastRun == Some(t.input.ended)
            && r.lastSuccess == (if r.healthy then Some(t.input.reported) else s.lastSuccess)
            && (s.lastRun.Some? ==> s.lastRun.value + t.input.interval < t.input.now)
  {
    var l := RunSteps(s.lists, t.run, t.input.cfg, s.lastRun.None?).lists;
    var done := s.(lists := l, lastRun := Some(t.input.ended));
    ReportedStatus(done.(healthy := true, lastSuccess := Some(t.input.reported)), "True", COMPLETED, t.input);
    ReportedStatus(s.(lists := l, lastRun := Some(t.input.ended), healthy := false), "False", FAILING, t.input);
  }

  /** Every other reconcile leaves the verdict and both run times alone, and without an
      error the conditions too once Ready is there. */
  lemma EarlyReturn(s: Status, t: Turn)
    requires !Completes(s, t)
    ensures var r := Reconcile(s, t.input, t.run);
            && r.healthy == s.healthy && r.lastRun == s.lastRun && r.lastSuccess == s.lastSuccess
            && (ReadyStatus(r) != ReadyStatus(s) ==>
                  || (Find(s.conditions, READY) < 0 && ReadyStatus(r) == "Unknown")
                  || ((t.input.clusterError || t.input.nameError) && ReadyStatus(r) == "False"))
  {
    ReportedStatus(s, "Unknown", "First Seen", t.input);
    ReportedStatus(s, "False", Trouble(t.input), t.input);
    ReportedStatus(s.(lists := RunSteps(s.lists, t.run, t.input.cfg, s.lastRun.None?).lists), "False",
                   Trouble(t.input), t.input);
  }

  /** What the last completed scan found: None when none has completed. */
  ghost function Verdict(turns: seq<Turn>): Option<bool> {
    if turns == [] then None
    else
      var s, t := RunAll(turns[..|turns| - 1]), turns[|turns| - 1];
      if Completes(s, t) then Some(RunSteps(s.lists, t.run, t.input.cfg, s.lastRun.None?).lists.failed == [])
      else Verdict(turns[..|turns| - 1])
  }

  ghost predicate ErrorFree(turns: seq<Turn>) {
    forall t :: t in turns ==> !t.input.clusterError && !t.input.nameError
  }

  /** Over every run Healthy is the verdict of the last completed scan, and a run has
      a run time iff a scan has completed; without errors Ready says the same. */
  lemma {:induction false} HealthyIsLastVerdict(turns: seq<Turn>)
    ensures var s := RunAll(turns);
            && (s.healthy <==> Verdict(turns) == Some(true))
            && (s.lastRun.Some? <==> Verdict(turns).Some?)
            && (s.healthy ==> s.lastSuccess.Some?)
            && (turns != [] ==> Find(s.conditions, READY) >= 0)
            && (turns != [] && ErrorFree(turns) ==>
                  ReadyStatus(s) == match Verdict(turns) case None => "Unknown"
                      case Some(ok) => if ok then "True" else "False")
  {
    if turns != [] {
      var front, t := turns[..|turns| - 1], turns[|turns| - 1];
      var s := RunAll(front);
      HealthyIsLastVerdict(front);
      assert ErrorFree(turns) ==> ErrorFree(front) && !t.input.clusterError && !t.input.nameError;
      ReadyStays(s, t);
      if Completes(s, t) { CompletedVerdict(s, t); } else { EarlyReturn(s, t); }
      if front == [] { ReportedStatus(INITIAL, "Unknown", "First Seen", t.input); }
    }
  }

  lemma ReadyStays(s: Status, t: Turn)
    ensures Find(Reconcile(s, t.input, t.run).conditions, READY) >= 0
  {
    var l := RunSteps(s.lists, t.run, t.input.cfg, s.lastRun.None?).lists;
    ReportedStatus(s, "Unknown", "First Seen", t.input);
    ReportedStatus(s, "False", Trouble(t.input), t.input);
    ReportedStatus(s.(lists := l), "False", Trouble(t.input), t.input);
    if Completes(s, t) { CompletedVerdict(s, t); }
  }
}
