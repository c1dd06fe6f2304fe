/** The ContainerScan reconciler: per namespace it forgets vanished pods and folds the
    container states of the listed pods into `AffectedPods`. */
module ContainerScan {
  import opened StatusLists
  import opened VanishedPods

  datatype State = Terminated(code: int) | Waiting(reason: string) | Running

  datatype Container = Container(name: string, state: State)

  datatype Pod = Pod(name: string, containers: seq<Container>)

  predicate Failing(c: Container) {
    (c.state.Terminated? && c.state.code != 0) || c.state == Waiting("CrashLoopBackOff")
  }

  predicate Completed(c: Container) {
    c.state == Terminated(0)
  }

  predicate HasFailing(p: Pod) {
    exists c :: c in p.containers && Failing(c)
  }

  /** What one container does to the list; a first scan never deletes. */
  function ContainerOps(key: string, c: Container, first: bool): (ops: seq<Op<string>>)
    ensures forall op :: op in ops ==> op.key == key
  {
    if Failing(c) then [Add(key)] else if Completed(c) && !first then [Drop(key)] else []
  }

  function PodOps(key: string, cs: seq<Container>, first: bool): (ops: seq<Op<string>>)
    ensures forall op :: op in ops ==> op.key == key
  {
    if cs == [] then [] else PodOps(key, cs[..|cs| - 1], first) + ContainerOps(key, cs[|cs| - 1], first)
  }

  function NamespaceOps(pods: seq<Pod>, ns: string, first: bool): seq<Op<string>> {
    if pods == [] then []
    else
      var p := pods[|pods| - 1];
      NamespaceOps(pods[..|pods| - 1], ns, first) + PodOps(Key(p.name, ns), p.containers, first)
  }

  predicate AnyFailing(pods: seq<Pod>) {
    exists p :: p in pods && HasFailing(p)
  }

  lemma AnyFailingStep(pods: seq<Pod>, i: nat)
    requires i < |pods|
    ensures AnyFailing(pods[..i + 1]) <==> AnyFailing(pods[..i]) || HasFailing(pods[i])
  {
    assert pods[..i + 1] == pods[..i] + [pods[i]];
  }

  /** What the API answers for one namespace: whether it exists, which pod names are
      gone from it, its pods unless listing fails, and the time. */
  datatype Answers = Answers(found: bool, gone: string -> bool, listed: Option<seq<Pod>>, now: int)

  datatype Outcome = Passed | ContainersFailing | ApiError

  function NamespaceResult(affected: seq<string>, ns: string, a: Answers, first: bool): seq<string> {
    if !a.found then affected
    else if a.listed.None? then Pass(affected, ns, a.gone)
    else Run(Pass(affected, ns, a.gone), NamespaceOps(a.listed.value, ns, first))
  }

  function NamespaceOutcome(a: Answers): Outcome {
    if !a.found || a.listed.None? then ApiError
    else if AnyFailing(a.listed.value) then ContainersFailing
    else Passed
  }

  // ----- the loop over the namespaces

  datatype Scan = Scan(affected: seq<string>, lastRun: Option<int>, outcome: Outcome)

  /** Namespaces are scanned until one does not pass. */
  function ScanFrom(affected: seq<string>, lastRun: Option<int>, nss: seq<string>, answers: seq<Answers>,
                    first: bool): Scan
    requires |answers| == |nss|
    decreases |nss|
  {
    if nss == [] then Scan(affected, lastRun, Passed)
    else
      var r, o := NamespaceResult(affected, nss[0], answers[0], first), NamespaceOutcome(answers[0]);
      if o != Passed then Scan(r, lastRun, o)
      else ScanFrom(r, Some(answers[0].now), nss[1..], answers[1..], first)
  }

  /** `incident` is what the external system answers for a namespace, a pod and a
      container. */
  datatype Config = Config(mailOn: bool, notify: bool, aggregate: bool,
                           incident: (string, string, string) -> string)

  // ----- the incidents

  /** `IncidentID`, and whether something was notified since a namespace last passed. */
  datatype Notes = Notes(incidents: seq<string>, notified: bool)

  function NoteContainer(n: Notes, cfg: Config, ns: string, pod: string, c: Container, first: bool): Notes {
    if !cfg.notify then n
    else if Failing(c) then Notes(WithIncident(n.incidents, cfg.incident(ns, pod, c.name)), true)
    else if Completed(c) && !first && n.notified then
      n.(incidents := Apply(n.incidents, Drop(cfg.incident(ns, pod, c.name))))
    else n
  }

  function NotePod(n: Notes, cfg: Config, ns: string, pod: string, cs: seq<Container>, first: bool): Notes {
    if cs == [] then n
    else NoteContainer(NotePod(n, cfg, ns, pod, cs[..|cs| - 1], first), cfg, ns, pod, cs[|cs| - 1], first)
  }

  function NotePods(n: Notes, cfg: Config, ns: string, pods: seq<Pod>, first: bool): Notes {
    if pods == [] then n
    else
      var p := pods[|pods| - 1];
      NotePod(NotePods(n, cfg, ns, pods[..|pods| - 1], first), cfg, ns, p.name, p.containers, first)
  }

  function NoteNamespace(n: Notes, cfg: Config, ns: string, a: Answers, first: bool): Notes {
    if !a.found || a.listed.None? then n
    else
      var m := NotePods(n, cfg, ns, a.listed.value, first);
      if AnyFailing(a.listed.value) then m else m.(notified := false)
  }

  function NoteFrom(n: Notes, cfg: Config, nss: seq<string>, answers: seq<Answers>, first: bool): Notes
    requires |answers| == |nss|
    decreases |nss|
  {
    if nss == [] then n
    else
      var m := NoteNamespace(n, cfg, nss[0], answers[0], first);
      if NamespaceOutcome(answers[0]) == Passed then NoteFrom(m, cfg, nss[1..], answers[1..], first) else m
  }

  predicate CrashLoops(c: Container) {
    c.state == Waiting("CrashLoopBackOff")
  }

  /** How many of the containers wait in CrashLoopBackOff. */
  function CrashesIn(cs: seq<Container>): nat {
    if cs == [] then 0 else CrashesIn(cs[..|cs| - 1]) + if CrashLoops(cs[|cs| - 1]) then 1 else 0
  }

  function CrashesOf(pods: seq<Pod>): nat {
    if pods == [] then 0 else CrashesOf(pods[..|pods| - 1]) + CrashesIn(pods[|pods| - 1].containers)
  }

  function CrashesAt(a: Answers): nat {
    if a.found && a.listed.Some? then CrashesOf(a.listed.value) else 0
  }

  /** The same over the namespaces a scan gets to. */
  function Crashes(answers: seq<Answers>): nat {
    if answers == [] then 0
    else CrashesAt(answers[0]) + if NamespaceOutcome(answers[0]) == Passed then Crashes(answers[1..]) else 0
  }

  /** Does a scan mail about containers in CrashLoopBackOff? */
  predicate Alerts(cfg: Config, first: bool) {
    first && !cfg.aggregate && cfg.mailOn
  }

  lemma ContainerStep(list: seq<string>, n: Notes, cfg: Config, ns: string, pod: string, cs: seq<Container>, i: nat,
                      first: bool)
    requires i < |cs|
    ensures Run(list, PodOps(Key(pod, ns), cs[..i + 1], first)) ==
            Run(Run(list, PodOps(Key(pod, ns), cs[..i], first)), ContainerOps(Key(pod, ns), cs[i], first))
    ensures NotePod(n, cfg, ns, pod, cs[..i + 1], first) ==
            NoteContainer(NotePod(n, cfg, ns, pod, cs[..i], first), cfg, ns, pod, cs[i], first)
    ensures CrashesIn(cs[..i + 1]) == CrashesIn(cs[..i]) + if CrashLoops(cs[i]) then 1 else 0
    ensures forall c :: c in cs[..i + 1] <==> c in cs[..i] || c == cs[i]
  {
    assert cs[..i + 1] == cs[..i] + [cs[i]] && cs[..i + 1][..i] == cs[..i];
    RunAppend(list, PodOps(Key(pod, ns), cs[..i], first), ContainerOps(Key(pod, ns), cs[i], first));
  }

  class ContainerScanStatus {
    var affectedPods: seq<string>
    var incidentID: seq<string>
    var externalNotified: bool
    var lastRunTime: Option<int>
    /** Calls of SendEmailAlert and SendEmailRecoverAlert so far. */
    var mailCalls: nat

    constructor ()
      ensures affectedPods == [] && lastRunTime == None && mailCalls == 0 && Unique() && IncidentsClean()
    {
      affectedPods, incidentID, externalNotified, lastRunTime, mailCalls := [], [], false, None, 0;
    }

    function Noted(): Notes
      reads this
    {
      Notes(incidentID, externalNotified)
    }

    predicate IncidentsClean()
      reads this
    {
      "" !in incidentID && "[Pending]" !in incidentID
    }

    method AddIncident(id: string)
      modifies this`incidentID
      ensures incidentID == WithIncident(old(incidentID), id)
      ensures NoDup(old(incidentID)) ==> NoDup(incidentID)
      ensures old(IncidentsClean()) ==> IncidentsClean()
    {
      if id !in incidentID && id != "" && id != "[Pending]" {
        incidentID := incidentID + [id];
      }
    }

    method DropIncident(id: string)
      modifies this`incidentID
      ensures incidentID == Apply(old(incidentID), Drop(id))
    {
      if id in incidentID {
        incidentID := DeleteAt(incidentID, IndexOf(incidentID, id));
      }
    }

    /** SendEmailAlert behind its guard. */
    method AlertUnlessListed(cfg: Config, key: string)
      modifies this`mailCalls
      ensures mailCalls == old(mailCalls) + if key !in affectedPods && cfg.mailOn then 1 else 0
    {
      if key !in affectedPods {
        if cfg.mailOn {
          mailCalls := mailCalls + 1;
        }
      }
    }

    /** SendEmailRecoverAlert behind its guard. */
    method RecoverIfListed(cfg: Config, key: string)
      modifies this`mailCalls
      ensures mailCalls == old(mailCalls) + if key in affectedPods && cfg.mailOn then 1 else 0
    {
      if key in affectedPods {
        if cfg.mailOn {
          mailCalls := mailCalls + 1;
        }
      }
    }

    method HandleFailing(cfg: Config, ns: string, pod: string, c: Container, first: bool)
      modifies this
      ensures affectedPods == Apply(old(affectedPods), Add(Key(pod, ns)))
      ensures lastRunTime == old(lastRunTime)
      ensures mailCalls == old(mailCalls) + if Alerts(cfg, first) && c.state.Waiting? then 1 else 0
      ensures Noted() == if cfg.notify then Notes(WithIncident(old(incidentID), cfg.incident(ns, pod, c.name)), true)
                         else old(Noted())
      ensures NoDup(old(incidentID)) ==> NoDup(incidentID)
      ensures old(IncidentsClean()) ==> IncidentsClean()
    {
      var key := Key(pod, ns);
      if key !in affectedPods {
        affectedPods := affectedPods + [key];
      }
      if first && !cfg.aggregate && c.state.Waiting? {
        // the one alert that is sent without looking at the list
        if cfg.mailOn {
          mailCalls := mailCalls + 1;
        }
      } else {
        AlertUnlessListed(cfg, key);
      }
      if cfg.notify {
        AddIncident(cfg.incident(ns, pod, c.name));
        externalNotified := true;
      }
    }

    method HandleCompleted(cfg: Config, ns: string, pod: string, c: Container)
      requires NoDup(affectedPods) && NoDup(incidentID)
      modifies this
      ensures affectedPods == Apply(old(affectedPods), Drop(Key(pod, ns)))
      ensures lastRunTime == old(lastRunTime)
      ensures mailCalls == old(mailCalls)
      ensures Noted() == if cfg.notify && old(externalNotified)
                         then Notes(Apply(old(incidentID), Drop(cfg.incident(ns, pod, c.name))), old(externalNotified))
                         else old(Noted())
      ensures NoDup(incidentID)
      ensures old(IncidentsClean()) ==> IncidentsClean()
    {
      var key := Key(pod, ns);
      ApplyMembers(affectedPods, Drop(key));
      ApplyMembers(incidentID, Drop(cfg.incident(ns, pod, c.name)));
      if key in affectedPods {
        affectedPods := DeleteAt(affectedPods, IndexOf(affectedPods, key));
      }
      RecoverIfListed(cfg, key);
      if cfg.notify && externalNotified {
        DropIncident(cfg.incident(ns, pod, c.name));
      }
    }

    /** The lists an elapsed scan relies on: without duplicates a delete by index
        really removes the value. */
    ghost predicate Unique()
      reads this
    {
      NoDup(affectedPods) && NoDup(incidentID)
    }

    method HandleContainer(cfg: Config, ns: string, pod: string, c: Container, first: bool)
      requires Unique()
      modifies this
      ensures affectedPods == Run(old(affectedPods), ContainerOps(Key(pod, ns), c, first)) && Unique()
      ensures Noted() == NoteContainer(old(Noted()), cfg, ns, pod, c, first)
      ensures lastRunTime == old(lastRunTime)
      ensures mailCalls == old(mailCalls) + if Alerts(cfg, first) && CrashLoops(c) then 1 else 0
      ensures old(IncidentsClean()) ==> IncidentsClean()
    {
      if Failing(c) {
        RunOne(affectedPods, Add(Key(pod, ns)));
        HandleFailing(cfg, ns, pod, c, first);
      } else if Completed(c) && !first {
        RunOne(affectedPods, Drop(Key(pod, ns)));
        ApplyMembers(affectedPods, Drop(Key(pod, ns)));
        HandleCompleted(cfg, ns, pod, c);
      }
    }

    method ScanPod(cfg: Config, ns: string, pod: Pod, first: bool) returns (failing: bool)
      requires Unique()
      modifies this
      ensures affectedPods == Run(old(affectedPods), PodOps(Key(pod.name, ns), pod.containers, first)) && Unique()
      ensures Noted() == NotePod(old(Noted()), cfg, ns, pod.name, pod.containers, first)
      ensures failing <==> exists c :: c in pod.containers && Failing(c)
      ensures lastRunTime == old(lastRunTime)
      ensures mailCalls == old(mailCalls) + if Alerts(cfg, first) then CrashesIn(pod.containers) else 0
      ensures old(IncidentsClean()) ==> IncidentsClean()
    {
      var key, cs := Key(pod.name, ns), pod.containers;
      ghost var list, notes := affectedPods, Noted();
      failing := false;
      for i := 0 to |cs|
        invariant affectedPods == Run(list, PodOps(key, cs[..i], first)) && Unique()
        invariant Noted() == NotePod(notes, cfg, ns, pod.name, cs[..i], first)
        invariant failing <==> exists c :: c in cs[..i] && Failing(c)
        invariant lastRunTime == old(lastRunTime)
        invariant mailCalls == old(mailCalls) + if Alerts(cfg, first) then CrashesIn(cs[..i]) else 0
        invariant old(IncidentsClean()) ==> IncidentsClean()
      {
        ContainerStep(list, notes, cfg, ns, pod.name, cs, i, first);
        HandleContainer(cfg, ns, pod.name, cs[i], first);
        failing := failing || Failing(cs[i]);
      }
      assert cs[..|cs|] == cs;
    }

    method ForgetVanished(ns: string, gone: string -> bool)
      modifies this`affectedPods
      ensures affectedPods == Pass(old(affectedPods), ns, gone)
    {
      if |affectedPods| > 0 {
        var list := affectedPods;
        var backing := new string[|list|](i requires 0 <= i < |list| => list[i]);
        assert backing[..] == list;
        var n := VanishedPodPass(backing, ns, gone);
        affectedPods := backing[..n];
      }
    }

    method ScanPods(cfg: Config, ns: string, pods: seq<Pod>, first: bool) returns (anyFailing: bool)
      requires Unique()
      modifies this
      ensures affectedPods == Run(old(affectedPods), NamespaceOps(pods, ns, first)) && Unique()
      ensures Noted() == NotePods(old(Noted()), cfg, ns, pods, first)
      ensures anyFailing == AnyFailing(pods)
      ensures lastRunTime == old(lastRunTime)
      ensures mailCalls == old(mailCalls) + if Alerts(cfg, first) then CrashesOf(pods) else 0
      ensures old(IncidentsClean()) ==> IncidentsClean()
    {
      ghost var before := affectedPods;
      anyFailing := false;
      for i := 0 to |pods|
        invariant affectedPods == Run(before, NamespaceOps(pods[..i], ns, first)) && Unique()
        invariant Noted() == NotePods(old(Noted()), cfg, ns, pods[..i], first)
        invariant anyFailing <==> AnyFailing(pods[..i])
        invariant lastRunTime == old(lastRunTime)
        invariant mailCalls == old(mailCalls) + if Alerts(cfg, first) then CrashesOf(pods[..i]) else 0
        invariant old(IncidentsClean()) ==> IncidentsClean()
      {
        AnyFailingStep(pods, i);
        assert pods[..i + 1][..i] == pods[..i];
        RunAppend(before, NamespaceOps(pods[..i], ns, first), PodOps(Key(pods[i].name, ns), pods[i].containers, first));
        var failing := ScanPod(cfg, ns, pods[i], first);
        anyFailing := anyFailing || failing;
      }
      assert pods[..|pods|] == pods;
    }

    method ScanNamespace(cfg: Config, ns: string, a: Answers, first: bool) returns (outcome: Outcome)
      requires Entries(affectedPods) && Unique()
      modifies this
      ensures affectedPods == NamespaceResult(old(affectedPods), ns, a, first)
      ensures Noted() == NoteNamespace(old(Noted()), cfg, ns, a, first)
      ensures outcome == NamespaceOutcome(a)
      ensures lastRunTime == if outcome == Passed then Some(a.now) else old(lastRunTime)
      ensures Unique()
      ensures mailCalls == old(mailCalls) + if Alerts(cfg, first) then CrashesAt(a) else 0
      ensures old(IncidentsClean()) ==> IncidentsClean()
    {
      if !a.found {
        return ApiError;
      }
      PassLaw(affectedPods, ns, a.gone);
      ForgetVanished(ns, a.gone);
      if a.listed.None? {
        return ApiError;
      }
      var anyFailing := ScanPods(cfg, ns, a.listed.value, first);
      if anyFailing {
        return ContainersFailing;
      }
      lastRunTime := Some(a.now);
      externalNotified := false;
      return Passed;
    }

    /** The loop over the namespaces: it returns at the first one that does not pass. */
    method ScanNamespaces(cfg: Config, nss: seq<string>, answers: seq<Answers>, first: bool) returns (outcome: Outcome)
      requires |answers| == |nss| && Entries(affectedPods) && Unique()
      requires forall a :: a in answers && a.listed.Some? ==> PodNames(a.listed.value)
      modifies this
      ensures Scan(affectedPods, lastRunTime, outcome) ==
              ScanFrom(old(affectedPods), old(lastRunTime), nss, answers, first)
      ensures Noted() == NoteFrom(old(Noted()), cfg, nss, answers, first)
      ensures Entries(affectedPods) && Unique()
      ensures mailCalls == old(mailCalls) + if Alerts(cfg, first) then Crashes(answers) else 0
      ensures old(IncidentsClean()) ==> IncidentsClean()
    {
      for i := 0 to |nss|
        invariant ScanFrom(affectedPods, lastRunTime, nss[i..], answers[i..], first)
                  == ScanFrom(old(affectedPods), old(lastRunTime), nss, answers, first)
        invariant NoteFrom(Noted(), cfg, nss[i..], answers[i..], first)
                  == NoteFrom(old(Noted()), cfg, nss, answers, first)
        invariant Entries(affectedPods) && Unique()
        invariant mailCalls + (if Alerts(cfg, first) then Crashes(answers[i..]) else 0)
                  == old(mailCalls) + if Alerts(cfg, first) then Crashes(answers) else 0
        invariant old(IncidentsClean()) ==> IncidentsClean()
      {
        assert nss[i..][1..] == nss[i + 1..] && answers[i..][1..] == answers[i + 1..];
        assert answers[i] in answers;
        NamespaceKeepsEntries(affectedPods, nss[i], answers[i], first);
        outcome := ScanNamespace(cfg, nss[i], answers[i], first);
        if outcome != Passed {
          return;
        }
      }
      outcome := Passed;
    }

    /** The gate of the scan interval; `now` is read before the scan. */
    method Reconcile(cfg: Config, interval: nat, now: int, nss: seq<string>, answers: seq<Answers>)
      returns (outcome: Outcome)
      requires |answers| == |nss| && Entries(affectedPods) && Unique()
      requires forall a :: a in answers && a.listed.Some? ==> PodNames(a.listed.value)
      modifies this
      ensures var s := Scan(old(affectedPods), old(lastRunTime), Passed);
              Scan(affectedPods, lastRunTime, outcome) ==
              if s.lastRun.None? then ScanFrom(s.affected, s.lastRun, nss, answers, true)
              else if s.lastRun.value < now - interval then ScanFrom(s.affected, s.lastRun, nss, answers, false)
              else s
      ensures Noted() ==
              if old(lastRunTime).None? || old(lastRunTime).value < now - interval
              then NoteFrom(old(Noted()), cfg, nss, answers, old(lastRunTime).None?) else old(Noted())
      ensures Entries(affectedPods) && Unique()
      ensures mailCalls == old(mailCalls) + if Alerts(cfg, old(lastRunTime).None?) then Crashes(answers) else 0
      ensures old(IncidentsClean()) ==> IncidentsClean()
    {
      outcome := Passed;
      if lastRunTime.None? {
        outcome := ScanNamespaces(cfg, nss, answers, true);
      } else {
        var pastTime := now - interval;
        if lastRunTime.value < pastTime {
          outcome := ScanNamespaces(cfg, nss, answers, false);
        }
      }
    }
  }

  predicate PodNames(pods: seq<Pod>) {
    forall p :: p in pods ==> ':' !in p.name
  }

  lemma {:induction false} NamespaceOpsKeys(pods: seq<Pod>, ns: string, first: bool, op: Op<string>)
    requires op in NamespaceOps(pods, ns, first)
    ensures exists p :: p in pods && op.key == Key(p.name, ns)
  {
    if pods != [] {
      var front, last := pods[..|pods| - 1], pods[|pods| - 1];
      assert pods == front + [last];
      if op in NamespaceOps(front, ns, first) { NamespaceOpsKeys(front, ns, first, op); }
    }
  }

  lemma NamespaceKeepsEntries(affected: seq<string>, ns: string, a: Answers, first: bool)
    requires Entries(affected) && (a.listed.Some? ==> PodNames(a.listed.value))
    ensures Entries(NamespaceResult(affected, ns, a, first))
  {
    PassLaw(affected, ns, a.gone);
    if a.found && a.listed.Some? {
      var s, ops := Pass(affected, ns, a.gone), NamespaceOps(a.listed.value, ns, first);
      RunNoDup(s, ops);
      forall e | e in Run(s, ops) ensures WellFormed(e) {
        RunMembership(s, ops, e);
        if LastOp(ops, e).Some? {
          LastOpSound(ops, e);
          NamespaceOpsKeys(a.listed.value, ns, first, LastOp(ops, e).value);
          var p :| p in a.listed.value && e == Key(p.name, ns);
          PodOfKey(p.name, ns);
        }
      }
    }
  }

  // ----- what an elapsed scan decides

  /** Does the last container that decides anything add its pod? */
  function LastDecisive(cs: seq<Container>): Option<bool> {
    if cs == [] then None
    else
      var c := cs[|cs| - 1];
      if Failing(c) then Some(true) else if Completed(c) then Some(false) else LastDecisive(cs[..|cs| - 1])
  }

  lemma {:induction false} LastPodOp(key: string, cs: seq<Container>)
    ensures LastOp(PodOps(key, cs, false), key) ==
              match LastDecisive(cs) { case None => None case Some(add) => Some(if add then Add(key) else Drop(key)) }
  {
    if cs != [] {
      var front, c := cs[..|cs| - 1], cs[|cs| - 1];
      LastPodOp(key, front);
      LastOpAppend(PodOps(key, front, false), ContainerOps(key, c, false), key);
      assert [Add(key)][..0] == [] && [Drop(key)][..0] == [];
    }
  }

  lemma NoOpOnOtherKey(key: string, cs: seq<Container>, other: string)
    requires key != other
    ensures LastOp(PodOps(key, cs, false), other) == None
  {
    LastOpSound(PodOps(key, cs, false), other);
  }

  lemma KeyInjective(p: string, q: string, ns: string, ms: string)
    requires ':' !in p && ':' !in q && Key(p, ns) == Key(q, ms)
    ensures p == q && ns == ms
  {
    PodOfKey(p, ns);
    PodOfKey(q, ms);
    assert ns == Key(p, ns)[|p + MARK|..] == ms;
  }

  ghost predicate DistinctPods(pods: seq<Pod>) {
    forall i, j :: 0 <= i < j < |pods| ==> pods[i].name != pods[j].name
  }

  lemma NoOpOnNewPod(pods: seq<Pod>, ns: string, name: string)
    requires PodNames(pods) && ':' !in name && forall i :: 0 <= i < |pods| ==> pods[i].name != name
    ensures LastOp(NamespaceOps(pods, ns, false), Key(name, ns)) == None
  {
    var ops, key := NamespaceOps(pods, ns, false), Key(name, ns);
    LastOpSound(ops, key);
    if LastOp(ops, key).Some? {
      NamespaceOpsKeys(pods, ns, false, LastOp(ops, key).value);
      var p :| p in pods && key == Key(p.name, ns);
      KeyInjective(p.name, name, ns, ns);
      assert false;
    }
  }

  lemma {:induction false} LastNamespaceOp(pods: seq<Pod>, ns: string, k: nat)
    requires PodNames(pods) && DistinctPods(pods) && k < |pods|
    ensures var key := Key(pods[k].name, ns);
            LastOp(NamespaceOps(pods, ns, false), key) == LastOp(PodOps(key, pods[k].containers, false), key)
  {
    var n := |pods| - 1;
    var front, last, key := pods[..n], pods[n], Key(pods[k].name, ns);
    LastOpAppend(NamespaceOps(front, ns, false), PodOps(Key(last.name, ns), last.containers, false), key);
    if k == n {
      assert pods[n] in pods && forall p :: p in front ==> p in pods;
      NoOpOnNewPod(front, ns, last.name);
    } else {
      assert pods[k] in pods && last in pods && front[k] == pods[k];
      if Key(last.name, ns) == key { KeyInjective(last.name, pods[k].name, ns, ns); }
      NoOpOnOtherKey(Key(last.name, ns), last.containers, key);
      LastNamespaceOp(front, ns, k);
    }
  }

  /** After an elapsed scan of a namespace a listed pod is affected iff the last
      container that decides anything is failing, or none decides and the pod was
      affected before. */
  lemma PodAffectedIff(affected: seq<string>, ns: string, a: Answers, k: nat)
    requires Entries(affected) && a.found && a.listed.Some? && k < |a.listed.value|
    requires PodNames(a.listed.value) && DistinctPods(a.listed.value)
    requires !a.gone(a.listed.value[k].name)
    ensures var pod := a.listed.value[k];
            Key(pod.name, ns) in NamespaceResult(affected, ns, a, false) <==>
              match LastDecisive(pod.containers)
              case None => Key(pod.name, ns) in affected
              case Some(add) => add
  {
    var pods := a.listed.value;
    var key, s := Key(pods[k].name, ns), Pass(affected, ns, a.gone);
    assert pods[k] in pods;
    PodOfKey(pods[k].name, ns);
    PassLaw(affected, ns, a.gone);
    assert key in s <==> key in Filter(s, Present(ns, a.gone));
    assert key in affected <==> key in Filter(affected, Present(ns, a.gone));
    RunMembership(s, NamespaceOps(pods, ns, false), key);
    LastNamespaceOp(pods, ns, k);
    LastPodOp(key, pods[k].containers);
  }

  lemma {:induction false} FirstPodOp(key: string, cs: seq<Container>)
    ensures LastOp(PodOps(key, cs, true), key) == if exists c :: c in cs && Failing(c) then Some(Add(key)) else None
  {
    if cs != [] {
      var front, c := cs[..|cs| - 1], cs[|cs| - 1];
      assert cs == front + [c];
      FirstPodOp(key, front);
      LastOpAppend(PodOps(key, front, true), ContainerOps(key, c, true), key);
      assert [Add(key)][..0] == [];
    }
  }

  lemma {:induction false} FirstNamespaceAdds(pods: seq<Pod>, ns: string, key: string)
    ensures LastOp(NamespaceOps(pods, ns, true), key) ==
              if exists p :: p in pods && key == Key(p.name, ns) && HasFailing(p) then Some(Add(key)) else None
  {
    if pods != [] {
      var front, p := pods[..|pods| - 1], pods[|pods| - 1];
      assert pods == front + [p];
      FirstNamespaceAdds(front, ns, key);
      LastOpAppend(NamespaceOps(front, ns, true), PodOps(Key(p.name, ns), p.containers, true), key);
      FirstPodOp(Key(p.name, ns), p.containers);
      LastOpSound(PodOps(Key(p.name, ns), p.containers, true), key);
    }
  }

  /** A first scan only adds: a pod that exists is affected afterwards iff one of its
      containers is failing or it was affected before. */
  lemma FirstScanAffectedIff(affected: seq<string>, ns: string, a: Answers, pod: string)
    requires Entries(affected) && a.found && a.listed.Some? && ':' !in pod && !a.gone(pod)
    ensures Key(pod, ns) in NamespaceResult(affected, ns, a, true) <==>
              || Key(pod, ns) in affected
              || exists p :: p in a.listed.value && Key(pod, ns) == Key(p.name, ns) && HasFailing(p)
  {
    var key, s := Key(pod, ns), Pass(affected, ns, a.gone);
    PodOfKey(pod, ns);
    PassLaw(affected, ns, a.gone);
    assert key in s <==> key in Filter(s, Present(ns, a.gone));
    assert key in affected <==> key in Filter(affected, Present(ns, a.gone));
    RunMembership(s, NamespaceOps(a.listed.value, ns, true), key);
    FirstNamespaceAdds(a.listed.value, ns, key);
  }

  /** Scanning a namespace does not touch the entries of any other. */
  lemma OtherNamespaceKept(affected: seq<string>, ns: string, a: Answers, first: bool, pod: string, other: string)
    requires Entries(affected) && (a.listed.Some? ==> PodNames(a.listed.value))
    requires ns != other && ':' !in pod
    ensures Key(pod, other) in NamespaceResult(affected, ns, a, first) <==> Key(pod, other) in affected
  {
    var key, s := Key(pod, other), Pass(affected, ns, a.gone);
    PodOfKey(pod, other);
    PassLaw(affected, ns, a.gone);
    if Vanished(key, ns, a.gone) { KeyInjective(pod, pod, other, ns); }
    assert key in s <==> key in Filter(s, Present(ns, a.gone));
    assert key in affected <==> key in Filter(affected, Present(ns, a.gone));
    if a.found && a.listed.Some? {
      var ops := NamespaceOps(a.listed.value, ns, first);
      RunMembership(s, ops, key);
      LastOpSound(ops, key);
      if LastOp(ops, key).Some? {
        NamespaceOpsKeys(a.listed.value, ns, first, LastOp(ops, key).value);
        var p :| p in a.listed.value && key == Key(p.name, ns);
        KeyInjective(pod, p.name, other, ns);
        assert false;
      }
    }
  }

  /** Index of the first namespace that does not pass. */
  function FirstBad(answers: seq<Answers>): (i: nat)
    ensures i <= |answers|
    ensures i < |answers| ==> NamespaceOutcome(answers[i]) != Passed
    ensures forall j :: 0 <= j < i ==> NamespaceOutcome(answers[j]) == Passed
  {
    if answers == [] || NamespaceOutcome(answers[0]) != Passed then 0 else 1 + FirstBad(answers[1..])
  }

  lemma {:induction false} CrashFails(cs: seq<Container>)
    requires CrashesIn(cs) > 0
    ensures exists c :: c in cs && Failing(c)
  {
    var front, c := cs[..|cs| - 1], cs[|cs| - 1];
    assert c in cs;
    if !CrashLoops(c) { CrashFails(front); }
  }

  lemma {:induction false} CrashesFail(pods: seq<Pod>)
    requires CrashesOf(pods) > 0
    ensures AnyFailing(pods)
  {
    var front, p := pods[..|pods| - 1], pods[|pods| - 1];
    assert p in pods;
    if CrashesIn(p.containers) > 0 {
      CrashFails(p.containers);
      assert HasFailing(p);
    } else {
      CrashesFail(front);
      var q :| q in front && HasFailing(q);
      assert q in pods;
    }
  }

  /** The containers a scan mails about are all in the first namespace that does not pass:
      no other namespace it gets to has any. */
  lemma {:induction false} CrashesOfFirstBad(answers: seq<Answers>)
    ensures var b := FirstBad(answers); Crashes(answers) == if b < |answers| then CrashesAt(answers[b]) else 0
  {
    if answers != [] && NamespaceOutcome(answers[0]) == Passed {
      if CrashesAt(answers[0]) > 0 { CrashesFail(answers[0].listed.value); }
      CrashesOfFirstBad(answers[1..]);
    }
  }

  lemma {:induction false} EndsAtFirstBad(affected: seq<string>, lastRun: Option<int>, nss: seq<string>,
                                          answers: seq<Answers>, first: bool)
    requires |answers| == |nss|
    ensures var r, b := ScanFrom(affected, lastRun, nss, answers, first), FirstBad(answers);
            && r.outcome == (if b < |answers| then NamespaceOutcome(answers[b]) else Passed)
            && r.lastRun == (if b == 0 then lastRun else Some(answers[b - 1].now))
    decreases |nss|
  {
    if nss != [] && NamespaceOutcome(answers[0]) == Passed {
      EndsAtFirstBad(NamespaceResult(affected, nss[0], answers[0], first), Some(answers[0].now), nss[1..],
                     answers[1..], first);
    }
  }

  lemma {:induction false} UnscannedKept(affected: seq<string>, lastRun: Option<int>, nss: seq<string>,
                                         answers: seq<Answers>, first: bool, pod: string, other: string)
    requires |answers| == |nss| && Entries(affected) && ':' !in pod
    requires forall a :: a in answers && a.listed.Some? ==> PodNames(a.listed.value)
    requires forall i :: 0 <= i < |nss| && i <= FirstBad(answers) ==> nss[i] != other
    ensures Key(pod, other) in ScanFrom(affected, lastRun, nss, answers, first).affected <==>
              Key(pod, other) in affected
    decreases |nss|
  {
    if nss != [] {
      var next := NamespaceResult(affected, nss[0], answers[0], first);
      assert answers[0] in answers && nss[0] != other;
      NamespaceKeepsEntries(affected, nss[0], answers[0], first);
      OtherNamespaceKept(affected, nss[0], answers[0], first, pod, other);
      if NamespaceOutcome(answers[0]) == Passed {
        forall i | 0 <= i < |nss[1..]| && i <= FirstBad(answers[1..]) ensures nss[1..][i] != other {
          assert nss[1..][i] == nss[i + 1];
        }
        UnscannedKept(next, Some(answers[0].now), nss[1..], answers[1..], first, pod, other);
      }
    }
  }

  /** The run ends at the first namespace that does not pass, with that namespace's
      outcome; entries of namespaces behind it, or not scanned at all, stay as they
      were; LastRunTime is that of the last namespace that passed. */
  lemma StopsAtFirstBad(affected: seq<string>, lastRun: Option<int>, nss: seq<string>, answers: seq<Answers>,
                        first: bool, pod: string, other: string)
    requires |answers| == |nss| && Entries(affected) && ':' !in pod
    requires forall a :: a in answers && a.listed.Some? ==> PodNames(a.listed.value)
    ensures var r, b := ScanFrom(affected, lastRun, nss, answers, first), FirstBad(answers);
            && r.outcome == (if b < |answers| then NamespaceOutcome(answers[b]) else Passed)
            && r.lastRun == (if b == 0 then lastRun else Some(answers[b - 1].now))
            && ((forall i :: 0 <= i < |nss| && i <= b ==> nss[i] != other) ==>
                  (Key(pod, other) in r.affected <==> Key(pod, other) in affected))
  {
    EndsAtFirstBad(affected, lastRun, nss, answers, first);
    if forall i :: 0 <= i < |nss| && i <= FirstBad(answers) ==> nss[i] != other {
      UnscannedKept(affected, lastRun, nss, answers, first, pod, other);
    }
  }
}
