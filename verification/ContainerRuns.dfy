/** What a whole ContainerScan lists: each pod by the scan of its own namespace. */
module ContainerRuns {
  import opened StatusLists
  import opened VanishedPods
  import opened ContainerScan

  /** Every pod list holds pod names, and names each pod once. */
  ghost predicate Listings(answers: seq<Answers>) {
    forall a :: a in answers && a.listed.Some? ==>
      PodNames(a.listed.value) && ContainerScan.DistinctPods(a.listed.value)
  }

  lemma PassKeepsExisting(affected: seq<string>, ns: string, gone: string -> bool, pod: string)
    requires Entries(affected) && ':' !in pod && !gone(pod)
    ensures Key(pod, ns) in Pass(affected, ns, gone) <==> Key(pod, ns) in affected
  {
    var key := Key(pod, ns);
    PodOfKey(pod, ns);
    PassLaw(affected, ns, gone);
    assert key in Pass(affected, ns, gone) <==> key in Filter(Pass(affected, ns, gone), Present(ns, gone));
    assert key in affected <==> key in Filter(affected, Present(ns, gone));
  }

  /** Exited with a non-zero code, or waiting in CrashLoopBackOff. */
  predicate Bad(state: State) {
    match state
    case Terminated(code) => code != 0
    case Waiting(reason) => reason == "CrashLoopBackOff"
    case Running => false
  }

  /** What the scan of its namespace says of a pod that exists. */
  ghost predicate PodSaid(cs: seq<Container>, before: bool, first: bool) {
    if first then before || exists c :: c in cs && Bad(c.state)
    else match LastDecisive(cs) case None => before case Some(failing) => failing
  }

  lemma NamespacePod(affected: seq<string>, ns: string, a: Answers, first: bool, k: nat)
    requires Entries(affected) && a.found && a.listed.Some? && k < |a.listed.value|
    requires PodNames(a.listed.value) && ContainerScan.DistinctPods(a.listed.value)
    requires !a.gone(a.listed.value[k].name)
    ensures var pod := a.listed.value[k];
            Key(pod.name, ns) in NamespaceResult(affected, ns, a, first) <==>
              PodSaid(pod.containers, Key(pod.name, ns) in affected, first)
  {
    var pods := a.listed.value;
    assert pods[k] in pods;
    if first {
      FirstScanAffectedIff(affected, ns, a, pods[k].name);
      forall p | p in pods && Key(pods[k].name, ns) == Key(p.name, ns) ensures p == pods[k] {
        KeyInjective(pods[k].name, p.name, ns, ns);
      }
      assert forall c: Container :: Failing(c) <==> Bad(c.state);
    } else {
      PodAffectedIff(affected, ns, a, k);
    }
  }

  lemma UnlistedPod(affected: seq<string>, ns: string, a: Answers, first: bool, pod: string)
    requires Entries(affected) && ':' !in pod && !a.gone(pod)
    requires a.listed.Some? ==> PodNames(a.listed.value) && forall p :: p in a.listed.value ==> p.name != pod
    ensures Key(pod, ns) in NamespaceResult(affected, ns, a, first) <==> Key(pod, ns) in affected
  {
    var key := Key(pod, ns);
    PassKeepsExisting(affected, ns, a.gone, pod);
    PassLaw(affected, ns, a.gone);
    if a.found && a.listed.Some? {
      var ops := NamespaceOps(a.listed.value, ns, first);
      RunMembership(Pass(affected, ns, a.gone), ops, key);
      LastOpSound(ops, key);
      if LastOp(ops, key).Some? {
        NamespaceOpsKeys(a.listed.value, ns, first, LastOp(ops, key).value);
        var p :| p in a.listed.value && key == Key(p.name, ns);
        KeyInjective(pod, p.name, ns, ns);
        assert false;
      }
    }
  }

  /** The namespaces behind the first leave the first one's entries alone. */
  lemma RestKeeps(affected: seq<string>, lastRun: Option<int>, nss: seq<string>, answers: seq<Answers>, first: bool,
                  pod: string, ns: string)
    requires |answers| == |nss| && Entries(affected) && ':' !in pod && ns !in nss && Listings(answers)
    ensures Key(pod, ns) in ScanFrom(affected, lastRun, nss, answers, first).affected <==> Key(pod, ns) in affected
  {
    StopsAtFirstBad(affected, lastRun, nss, answers, first, pod, ns);
  }

  /** The scan comes to namespace `i`, which exists and whose pods are listed. */
  ghost predicate Reaches(nss: seq<string>, answers: seq<Answers>, i: nat) {
    |answers| == |nss| && i < |nss| && i <= FirstBad(answers) && answers[i].found && answers[i].listed.Some?
  }

  /** At the end of a scan of different namespaces, in each of them it came to, a listed pod
      that exists is affected iff its containers say so: in an elapsed scan the last one
      that decides anything, in a first scan any failing one; if none does, iff it was
      affected before. */
  lemma {:induction false} ScanListed(affected: seq<string>, lastRun: Option<int>, nss: seq<string>,
                                      answers: seq<Answers>, first: bool, i: nat, k: nat)
    requires Reaches(nss, answers, i) && NoDup(nss) && Entries(affected) && Listings(answers)
    requires k < |answers[i].listed.value| && !answers[i].gone(answers[i].listed.value[k].name)
    ensures var pod := answers[i].listed.value[k];
            Key(pod.name, nss[i]) in ScanFrom(affected, lastRun, nss, answers, first).affected <==>
              PodSaid(pod.containers, Key(pod.name, nss[i]) in affected, first)
    decreases |nss|
  {
    var pods := answers[i].listed.value;
    assert answers[0] in answers && answers[i] in answers && pods[k] in pods;
    var next := NamespaceResult(affected, nss[0], answers[0], first);
    NamespaceKeepsEntries(affected, nss[0], answers[0], first);
    if i == 0 {
      NamespacePod(affected, nss[0], answers[0], first, k);
      if NamespaceOutcome(answers[0]) == Passed {
        RestKeeps(next, Some(answers[0].now), nss[1..], answers[1..], first, pods[k].name, nss[0]);
      }
    } else {
      OtherNamespaceKept(affected, nss[0], answers[0], first, pods[k].name, nss[i]);
      ScanListed(next, Some(answers[0].now), nss[1..], answers[1..], first, i - 1, k);
    }
  }

  /** A pod that exists and is not listed keeps its place, wherever the scan comes to. */
  lemma {:induction false} ScanUnlisted(affected: seq<string>, lastRun: Option<int>, nss: seq<string>,
                                        answers: seq<Answers>, first: bool, ns: string, pod: string)
    requires |answers| == |nss| && Entries(affected) && Listings(answers) && ':' !in pod
    requires forall i :: 0 <= i < |nss| && nss[i] == ns ==>
               && !answers[i].gone(pod)
               && (answers[i].listed.Some? ==> forall p :: p in answers[i].listed.value ==> p.name != pod)
    ensures Key(pod, ns) in ScanFrom(affected, lastRun, nss, answers, first).affected <==> Key(pod, ns) in affected
    decreases |nss|
  {
    if nss != [] {
      assert answers[0] in answers;
      NamespaceKeepsEntries(affected, nss[0], answers[0], first);
      if nss[0] == ns { UnlistedPod(affected, ns, answers[0], first, pod); }
      else { OtherNamespaceKept(affected, nss[0], answers[0], first, pod, ns); }
      if NamespaceOutcome(answers[0]) == Passed {
        ScanUnlisted(NamespaceResult(affected, nss[0], answers[0], first), Some(answers[0].now), nss[1..],
                     answers[1..], first, ns, pod);
      }
    }
  }

  // ----- which containers decide

  /** A namespace passes iff it exists, its pods are listed, and none of their containers is
      bad; otherwise the scan ends there. */
  lemma PassedIff(a: Answers)
    ensures NamespaceOutcome(a) == Passed <==>
              && a.found && a.listed.Some?
              && forall p, c :: p in a.listed.value && c in p.containers ==> !Bad(c.state)
  {
    if a.found && a.listed.Some? {
      if AnyFailing(a.listed.value) {
        var p :| p in a.listed.value && HasFailing(p);
        var c :| c in p.containers && Failing(c);
        assert Bad(c.state);
      }
      if p, c :| p in a.listed.value && c in p.containers && Bad(c.state) { assert Failing(c) && HasFailing(p); }
    }
  }

  /** A container that is running or waiting for another reason decides nothing; of the
      others the last one decides, and only one that has completed with code zero clears. */
  lemma {:induction false} LastDecides(cs: seq<Container>, k: nat)
    requires k < |cs| && (Bad(cs[k].state) || cs[k].state == Terminated(0))
    requires forall j :: k < j < |cs| ==> !Bad(cs[j].state) && cs[j].state != Terminated(0)
    ensures LastDecisive(cs) == Some(Bad(cs[k].state))
  {
    if k < |cs| - 1 { LastDecides(cs[..|cs| - 1], k); }
  }

  lemma {:induction false} NoneDecides(cs: seq<Container>)
    requires forall c :: c in cs ==> !Bad(c.state) && c.state != Terminated(0)
    ensures LastDecisive(cs) == None
  {
    if cs != [] {
      assert cs[|cs| - 1] in cs;
      NoneDecides(cs[..|cs| - 1]);
    }
  }

  // ----- the incidents

  /** The containers of a namespace in the order they are looked at, with their pods. */
  datatype Look = Look(pod: string, c: Container)

  function LooksOf(pod: string, cs: seq<Container>): (r: seq<Look>)
    ensures |r| == |cs| && forall i :: 0 <= i < |r| ==> r[i] == Look(pod, cs[i])
  {
    seq(|cs|, i requires 0 <= i < |cs| => Look(pod, cs[i]))
  }

  function Looks(pods: seq<Pod>): seq<Look> {
    if pods == [] then []
    else Looks(pods[..|pods| - 1]) + LooksOf(pods[|pods| - 1].name, pods[|pods| - 1].containers)
  }

  function NoteLooks(n: Notes, cfg: Config, ns: string, looks: seq<Look>, first: bool): Notes {
    if looks == [] then n
    else
      var l := looks[|looks| - 1];
      NoteContainer(NoteLooks(n, cfg, ns, looks[..|looks| - 1], first), cfg, ns, l.pod, l.c, first)
  }

  lemma {:induction false} NoteLooksAppend(n: Notes, cfg: Config, ns: string, a: seq<Look>, b: seq<Look>, first: bool)
    ensures NoteLooks(n, cfg, ns, a + b, first) == NoteLooks(NoteLooks(n, cfg, ns, a, first), cfg, ns, b, first)
  {
    if b == [] {
      assert a + b == a;
    } else {
      assert (a + b)[..|a + b| - 1] == a + b[..|b| - 1];
      NoteLooksAppend(n, cfg, ns, a, b[..|b| - 1], first);
    }
  }

  lemma {:induction false} PodLooks(n: Notes, cfg: Config, ns: string, pod: string, cs: seq<Container>, first: bool)
    ensures NotePod(n, cfg, ns, pod, cs, first) == NoteLooks(n, cfg, ns, LooksOf(pod, cs), first)
  {
    if cs != [] {
      assert LooksOf(pod, cs)[..|cs| - 1] == LooksOf(pod, cs[..|cs| - 1]);
      PodLooks(n, cfg, ns, pod, cs[..|cs| - 1], first);
    }
  }

  lemma {:induction false} PodsLooks(n: Notes, cfg: Config, ns: string, pods: seq<Pod>, first: bool)
    ensures NotePods(n, cfg, ns, pods, first) == NoteLooks(n, cfg, ns, Looks(pods), first)
  {
    if pods != [] {
      var front, p := pods[..|pods| - 1], pods[|pods| - 1];
      PodsLooks(n, cfg, ns, front, first);
      PodLooks(NotePods(n, cfg, ns, front, first), cfg, ns, p.name, p.containers, first);
      NoteLooksAppend(n, cfg, ns, Looks(front), LooksOf(p.name, p.containers), first);
    }
  }

  predicate Numbered(id: string) {
    id != "" && id != "[Pending]"
  }

  ghost predicate NumbersOnly(ids: seq<string>) {
    NoDup(ids) && forall id :: id in ids ==> Numbered(id)
  }

  /** The look brings the number in: its container is bad. */
  predicate Brings(cfg: Config, ns: string, l: Look, id: string) {
    Bad(l.c.state) && cfg.incident(ns, l.pod, l.c.name) == id
  }

  /** The look takes the number out: its container has completed with code zero, the scan
      has elapsed, and something was notified since a namespace last passed. */
  ghost predicate Takes(n: Notes, cfg: Config, ns: string, looks: seq<Look>, k: int, first: bool, id: string)
    requires 0 <= k < |looks|
  {
    && looks[k].c.state == Terminated(0) && !first && cfg.incident(ns, looks[k].pod, looks[k].c.name) == id
    && (n.notified || exists j :: 0 <= j < k && Bad(looks[j].c.state))
  }

  lemma {:induction false} NotedSoFar(n: Notes, cfg: Config, ns: string, looks: seq<Look>, first: bool)
    requires NumbersOnly(n.incidents) && cfg.notify
    ensures var m := NoteLooks(n, cfg, ns, looks, first);
            NumbersOnly(m.incidents) &&
            (m.notified <==> n.notified || exists j :: 0 <= j < |looks| && Bad(looks[j].c.state))
  {
    if looks != [] {
      var front, l := looks[..|looks| - 1], looks[|looks| - 1];
      var m := NoteLooks(n, cfg, ns, front, first);
      NotedSoFar(n, cfg, ns, front, first);
      ApplyMembers(m.incidents, Drop(cfg.incident(ns, l.pod, l.c.name)));
      if j :| 0 <= j < |front| && Bad(front[j].c.state) { assert Bad(looks[j].c.state); }
      if j :| 0 <= j < |looks| && Bad(looks[j].c.state) { assert j < |front| ==> Bad(front[j].c.state); }
      assert Failing(l.c) <==> Bad(l.c.state);
    }
  }

  lemma {:induction false} NumberMoves(n: Notes, cfg: Config, ns: string, looks: seq<Look>, first: bool, id: string)
    requires NumbersOnly(n.incidents) && cfg.notify && looks != []
    ensures var k, m := |looks| - 1, NoteLooks(n, cfg, ns, looks[..|looks| - 1], first);
            id in NoteLooks(n, cfg, ns, looks, first).incidents <==>
              if Brings(cfg, ns, looks[k], id) then Numbered(id)
              else id in m.incidents && !Takes(n, cfg, ns, looks, k, first, id)
  {
    var front, l := looks[..|looks| - 1], looks[|looks| - 1];
    var m := NoteLooks(n, cfg, ns, front, first);
    NotedSoFar(n, cfg, ns, front, first);
    ApplyMembers(m.incidents, Drop(cfg.incident(ns, l.pod, l.c.name)));
    assert Failing(l.c) <==> Bad(l.c.state);
    if j :| 0 <= j < |front| && Bad(front[j].c.state) { assert Bad(looks[j].c.state); }
    if j :| 0 <= j < |looks| - 1 && Bad(looks[j].c.state) { assert Bad(front[j].c.state); }
  }

  /** Nothing at `k` or behind it moves the number. */
  ghost predicate Still(n: Notes, cfg: Config, ns: string, looks: seq<Look>, k: int, first: bool, id: string)
    requires 0 <= k
  {
    forall j :: k <= j < |looks| ==> !Brings(cfg, ns, looks[j], id) && !Takes(n, cfg, ns, looks, j, first, id)
  }

  /** With notifications on, the last container that moves a number decides whether it is
      listed when the namespace has been scanned: a bad one brings it in, a completed one
      takes it out; if none moves it, it stays as it was. */
  lemma {:induction false} NumberDecided(n: Notes, cfg: Config, ns: string, looks: seq<Look>, first: bool, k: int,
                                         id: string)
    requires NumbersOnly(n.incidents) && cfg.notify && -1 <= k < |looks| && Still(n, cfg, ns, looks, k + 1, first, id)
    requires k >= 0 ==> Brings(cfg, ns, looks[k], id) || Takes(n, cfg, ns, looks, k, first, id)
    ensures id in NoteLooks(n, cfg, ns, looks, first).incidents <==>
              if k < 0 then id in n.incidents else Brings(cfg, ns, looks[k], id) && Numbered(id)
  {
    if looks != [] {
      NumberMoves(n, cfg, ns, looks, first, id);
      if k < |looks| - 1 {
        var front := looks[..|looks| - 1];
        assert !Takes(n, cfg, ns, looks, |looks| - 1, first, id);
        forall j | 0 <= j < |front|
          ensures Takes(n, cfg, ns, front, j, first, id) <==> Takes(n, cfg, ns, looks, j, first, id) {
          assert forall x :: 0 <= x < j ==> front[x] == looks[x];
        }
        NumberDecided(n, cfg, ns, front, first, k, id);
      }
    }
  }

  /** A scan of a namespace moves numbers as its containers do. */
  lemma NamespaceNumbers(n: Notes, cfg: Config, ns: string, a: Answers, first: bool)
    ensures var m := NoteNamespace(n, cfg, ns, a, first);
            && (a.found && a.listed.Some? ==>
                  m.incidents == NoteLooks(n, cfg, ns, Looks(a.listed.value), first).incidents)
            && (!(a.found && a.listed.Some?) ==> m == n)
            && (NamespaceOutcome(a) == Passed ==> !m.notified)
  {
    if a.found && a.listed.Some? { PodsLooks(n, cfg, ns, a.listed.value, first); }
  }

  lemma {:induction false} LooksMember(pods: seq<Pod>, l: Look)
    requires l in Looks(pods)
    ensures exists p :: p in pods && l.pod == p.name && l.c in p.containers
  {
    var front, p := pods[..|pods| - 1], pods[|pods| - 1];
    assert pods == front + [p];
    if l in Looks(front) {
      LooksMember(front, l);
    } else {
      var i :| 0 <= i < |p.containers| && LooksOf(p.name, p.containers)[i] == l;
      assert p.containers[i] in p.containers;
    }
  }

  lemma {:induction false} NothingNoted(n: Notes, cfg: Config, ns: string, looks: seq<Look>, first: bool)
    requires !n.notified && forall l :: l in looks ==> !Bad(l.c.state)
    ensures NoteLooks(n, cfg, ns, looks, first) == n
  {
    if looks != [] {
      assert looks[|looks| - 1] in looks;
      NothingNoted(n, cfg, ns, looks[..|looks| - 1], first);
    }
  }

  /** Once a namespace has passed, one that passes after it changes no number: the
      containers that have recovered there keep their incidents. */
  lemma PassedKeepsNumbers(n: Notes, cfg: Config, ns: string, a: Answers, first: bool)
    requires !n.notified && NamespaceOutcome(a) == Passed
    ensures NoteNamespace(n, cfg, ns, a, first) == n
  {
    PassedIff(a);
    NamespaceNumbers(n, cfg, ns, a, first);
    forall l | l in Looks(a.listed.value) ensures !Bad(l.c.state) { LooksMember(a.listed.value, l); }
    NothingNoted(n, cfg, ns, Looks(a.listed.value), first);
  }

  lemma {:induction false} PassedOnly(n: Notes, cfg: Config, nss: seq<string>, answers: seq<Answers>, first: bool)
    requires |answers| == |nss| && !n.notified
    ensures var b := FirstBad(answers);
            NoteFrom(n, cfg, nss, answers, first) ==
              if b < |nss| then NoteNamespace(n, cfg, nss[b], answers[b], first) else n
    decreases |nss|
  {
    if nss != [] && NamespaceOutcome(answers[0]) == Passed {
      PassedKeepsNumbers(n, cfg, nss[0], answers[0], first);
      PassedOnly(n, cfg, nss[1..], answers[1..], first);
    }
  }

  /** So of all namespaces a scan comes to only the first one and the one it ends at move
      numbers. */
  lemma ScanNumbers(n: Notes, cfg: Config, nss: seq<string>, answers: seq<Answers>, first: bool)
    requires |answers| == |nss| && nss != []
    ensures var b, m := FirstBad(answers), NoteNamespace(n, cfg, nss[0], answers[0], first);
            NoteFrom(n, cfg, nss, answers, first) ==
              if 0 < b < |nss| then NoteNamespace(m, cfg, nss[b], answers[b], first) else m
  {
    if NamespaceOutcome(answers[0]) == Passed {
      NamespaceNumbers(n, cfg, nss[0], answers[0], first);
      PassedOnly(NoteNamespace(n, cfg, nss[0], answers[0], first), cfg, nss[1..], answers[1..], first);
    }
  }

  // ----- pods that are gone

  lemma {:induction false} CountOfMembers(s: seq<string>, t: seq<string>, ns: string, gone: string -> bool)
    requires NoDup(s) && forall e :: e in s && Vanished(e, ns, gone) ==> e in t
    ensures Count(s, ns, gone) <= Count(t, ns, gone)
  {
    if s != [] {
      if Vanished(s[0], ns, gone) {
        assert s[0] in s;
        var v :| 0 <= v < |t| && t[v] == s[0];
        forall e | e in s[1..] && Vanished(e, ns, gone) ensures e in DeleteAt(t, v) { StillThere(t, v, e); }
        CountDelete(t, v, ns, gone);
        CountOfMembers(s[1..], DeleteAt(t, v), ns, gone);
      } else {
        CountOfMembers(s[1..], t, ns, gone);
      }
    }
  }

  lemma StillThere(t: seq<string>, v: nat, e: string)
    requires v < |t| && e in t && e != t[v]
    ensures e in DeleteAt(t, v)
  {
    var j :| 0 <= j < |t| && t[j] == e;
    assert DeleteAt(t, v)[if j < v then j else j - 1] == e;
  }

  /** Pods that are listed exist. */
  ghost predicate ListedExist(a: Answers) {
    a.listed.Some? ==> forall p :: p in a.listed.value ==> !a.gone(p.name)
  }

  /** Scanning a namespace forgets at least half of its pods that are gone. */
  lemma NamespaceForgets(affected: seq<string>, ns: string, a: Answers, first: bool)
    requires Entries(affected) && a.found && (a.listed.Some? ==> PodNames(a.listed.value)) && ListedExist(a)
    ensures Count(NamespaceResult(affected, ns, a, first), ns, a.gone) <= Count(affected, ns, a.gone) / 2
  {
    var s, r := Pass(affected, ns, a.gone), NamespaceResult(affected, ns, a, first);
    PassLaw(affected, ns, a.gone);
    NamespaceKeepsEntries(affected, ns, a, first);
    if a.listed.Some? {
      forall e | e in r && Vanished(e, ns, a.gone) ensures e in s { GoneNotAdded(s, ns, a, first, e); }
    }
    CountOfMembers(r, s, ns, a.gone);
  }

  lemma GoneNotAdded(s: seq<string>, ns: string, a: Answers, first: bool, e: string)
    requires NoDup(s) && a.listed.Some? && PodNames(a.listed.value) && ListedExist(a) && Vanished(e, ns, a.gone)
    ensures e in Run(s, NamespaceOps(a.listed.value, ns, first)) ==> e in s
  {
    var ops := NamespaceOps(a.listed.value, ns, first);
    RunMembership(s, ops, e);
    LastOpSound(ops, e);
    if LastOp(ops, e).Some? {
      NamespaceOpsKeys(a.listed.value, ns, first, LastOp(ops, e).value);
      var p :| p in a.listed.value && e == Key(p.name, ns);
      PodOfKey(p.name, ns);
      assert false;
    }
  }

  lemma OthersKeepCount(affected: seq<string>, r: seq<string>, ns: string, gone: string -> bool)
    requires Entries(affected) && Entries(r)
    requires forall pod :: ':' !in pod ==> (Key(pod, ns) in r ==> Key(pod, ns) in affected)
    ensures Count(r, ns, gone) <= Count(affected, ns, gone)
  {
    forall e | e in r && Vanished(e, ns, gone) ensures e in affected {
      assert WellFormed(e) && e == Key(PodOf(e), ns);
    }
    CountOfMembers(r, affected, ns, gone);
  }

  /** At the end of a scan at most half of the pods that are gone from a namespace it came
      to are left. */
  lemma {:induction false} ScanForgets(affected: seq<string>, lastRun: Option<int>, nss: seq<string>,
                                       answers: seq<Answers>, first: bool, i: nat)
    requires |answers| == |nss| && i < |nss| && i <= FirstBad(answers) && answers[i].found && ListedExist(answers[i])
    requires NoDup(nss) && Entries(affected) && Listings(answers)
    ensures var r := ScanFrom(affected, lastRun, nss, answers, first).affected;
            Entries(r) && Count(r, nss[i], answers[i].gone) <= Count(affected, nss[i], answers[i].gone) / 2
    decreases |nss|
  {
    assert answers[0] in answers;
    var next := NamespaceResult(affected, nss[0], answers[0], first);
    NamespaceKeepsEntries(affected, nss[0], answers[0], first);
    if i == 0 {
      NamespaceForgets(affected, nss[0], answers[0], first);
      if NamespaceOutcome(answers[0]) == Passed {
        var r := ScanFrom(next, Some(answers[0].now), nss[1..], answers[1..], first).affected;
        ScanEntries(next, Some(answers[0].now), nss[1..], answers[1..], first);
        forall pod | ':' !in pod ensures Key(pod, nss[0]) in r ==> Key(pod, nss[0]) in next {
          RestKeeps(next, Some(answers[0].now), nss[1..], answers[1..], first, pod, nss[0]);
        }
        OthersKeepCount(next, r, nss[0], answers[0].gone);
      }
    } else {
      forall pod | ':' !in pod ensures Key(pod, nss[i]) in next ==> Key(pod, nss[i]) in affected {
        OtherNamespaceKept(affected, nss[0], answers[0], first, pod, nss[i]);
      }
      OthersKeepCount(affected, next, nss[i], answers[i].gone);
      ScanForgets(next, Some(answers[0].now), nss[1..], answers[1..], first, i - 1);
    }
  }

  lemma {:induction false} ScanEntries(affected: seq<string>, lastRun: Option<int>, nss: seq<string>,
                                       answers: seq<Answers>, first: bool)
    requires |answers| == |nss| && Entries(affected) && Listings(answers)
    ensures Entries(ScanFrom(affected, lastRun, nss, answers, first).affected)
    decreases |nss|
  {
    if nss != [] {
      assert answers[0] in answers;
      NamespaceKeepsEntries(affected, nss[0], answers[0], first);
      if NamespaceOutcome(answers[0]) == Passed {
        ScanEntries(NamespaceResult(affected, nss[0], answers[0], first), Some(answers[0].now), nss[1..],
                    answers[1..], first);
      }
    }
  }
}
