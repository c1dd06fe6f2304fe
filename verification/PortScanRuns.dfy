/** What PortScan scans do over whole runs. */
module PortScanRuns {
  import opened StatusLists
  import opened PortScan
  import F = Fingerprints

  // ----- the affected targets after one scan

  function ScanOps(targets: seq<Target>, answers: seq<Answers>): (ops: seq<Op<string>>)
    requires |answers| == |targets|
    ensures |ops| == |targets|
    ensures forall i :: 0 <= i < |ops| ==>
      ops[i] == if answers[i].reachable then Drop(targets[i].text) else Add(targets[i].text)
  {
    seq(|targets|, i requires 0 <= i < |targets| =>
      if answers[i].reachable then Drop(targets[i].text) else Add(targets[i].text))
  }

  lemma TargetIsOp(cfg: Config, st: Port, t: Target, a: Answers)
    ensures ScanTarget(cfg, st, t, a, false).affected ==
            Apply(st.affected, if a.reachable then Drop(t.text) else Add(t.text))
  {
  }

  /** An elapsed scan changes the list as if there were no mail, post or marker. */
  lemma {:induction false} ScanIsRun(cfg: Config, st: Port, targets: seq<Target>, answers: seq<Answers>)
    requires |answers| == |targets|
    ensures ScanAll(cfg, st, targets, answers, false).affected == Run(st.affected, ScanOps(targets, answers))
  {
    if targets != [] {
      var n := |targets| - 1;
      ScanIsRun(cfg, st, targets[..n], answers[..n]);
      assert ScanOps(targets, answers)[..n] == ScanOps(targets[..n], answers[..n]);
      TargetIsOp(cfg, ScanAll(cfg, st, targets[..n], answers[..n], false), targets[n], answers[n]);
    }
  }

  /** Whether the last entry for a target was reached; None when it is not configured. */
  function LastAnswer(targets: seq<Target>, answers: seq<Answers>, x: string): Option<bool>
    requires |answers| == |targets|
  {
    if targets == [] then None
    else
      var n := |targets| - 1;
      if targets[n].text == x then Some(answers[n].reachable) else LastAnswer(targets[..n], answers[..n], x)
  }

  lemma {:induction false} LastScanOp(targets: seq<Target>, answers: seq<Answers>, x: string)
    requires |answers| == |targets|
    ensures LastOp(ScanOps(targets, answers), x) ==
              match LastAnswer(targets, answers, x) { case None => None
                                                  case Some(up) => Some(if up then Drop(x) else Add(x)) }
  {
    if targets != [] {
      var n := |targets| - 1;
      assert ScanOps(targets, answers)[..n] == ScanOps(targets[..n], answers[..n]);
      LastScanOp(targets[..n], answers[..n], x);
    }
  }

  /** After an elapsed scan a target is affected iff its last answer says so, or it is not
      configured and was affected. */
  lemma ElapsedAffected(cfg: Config, st: Port, targets: seq<Target>, answers: seq<Answers>)
    requires |answers| == |targets| && NoDup(st.affected)
    ensures var r := ScanAll(cfg, st, targets, answers, false).affected;
            && NoDup(r)
            && forall x :: x in r <==>
                 match LastAnswer(targets, answers, x) case None => x in st.affected case Some(up) => !up
  {
    var ops := ScanOps(targets, answers);
    ScanIsRun(cfg, st, targets, answers);
    RunNoDup(st.affected, ops);
    forall x ensures x in Run(st.affected, ops) <==>
                       match LastAnswer(targets, answers, x) case None => x in st.affected case Some(up) => !up {
      LastScanOp(targets, answers, x);
      RunMembership(st.affected, ops, x);
    }
  }

  // ----- targets that are named once

  ghost predicate Distinct(targets: seq<Target>) {
    forall i, j :: 0 <= i < j < |targets| ==> targets[i].text != targets[j].text
  }

  ghost predicate FailedNow(targets: seq<Target>, answers: seq<Answers>, x: string)
    requires |answers| == |targets|
  {
    exists i :: 0 <= i < |targets| && targets[i].text == x && !answers[i].reachable
  }

  ghost predicate Configured(targets: seq<Target>, x: string) {
    exists i :: 0 <= i < |targets| && targets[i].text == x
  }

  lemma OpsOnTarget(targets: seq<Target>, answers: seq<Answers>, x: string)
    requires |answers| == |targets| && Distinct(targets)
    ensures Add(x) in ScanOps(targets, answers) <==> FailedNow(targets, answers, x)
    ensures Drop(x) in ScanOps(targets, answers) <==> Configured(targets, x) && !FailedNow(targets, answers, x)
  {
    var ops := ScanOps(targets, answers);
    if Configured(targets, x) {
      var i :| 0 <= i < |targets| && targets[i].text == x;
      assert ops[i] in ops;
    }
  }

  /** An elapsed scan of targets named once leaves exactly the old entries that are not
      configured and the configured targets that failed now: the former and the targets
      that keep failing in their old order, then the newly failing ones. */
  lemma DistinctAffected(cfg: Config, st: Port, targets: seq<Target>, answers: seq<Answers>)
    requires |answers| == |targets| && Distinct(targets) && NoDup(st.affected)
    ensures var r := ScanAll(cfg, st, targets, answers, false).affected;
            && (forall x :: x in r <==> (x in st.affected && !Configured(targets, x)) || FailedNow(targets, answers, x))
            && r == Filter(st.affected, NotDropped(ScanOps(targets, answers)))
                    + Fresh(st.affected, ScanOps(targets, answers))
  {
    var ops := ScanOps(targets, answers);
    ScanIsRun(cfg, st, targets, answers);
    forall x ensures !(Add(x) in ops && Drop(x) in ops) { OpsOnTarget(targets, answers, x); }
    SettledForm(st.affected, ops);
    forall x ensures x in Run(st.affected, ops) <==>
                       (x in st.affected && !Configured(targets, x)) || FailedNow(targets, answers, x) {
      OpsOnTarget(targets, answers, x);
      RunMembership(st.affected, ops, x);
      LastOpSound(ops, x);
    }
  }

  // ----- alert and recovery mails of one marker file

  /** The last of the path's alert attempts and successful recoveries is an alert. */
  predicate Pending(log: seq<Event>, path: string) {
    if log == [] then false
    else
      match log[|log| - 1]
      case AlertMail(p, _) => p == path || Pending(log[..|log| - 1], path)
      case RecoveryMail(p, ok) => !(p == path && ok) && Pending(log[..|log| - 1], path)
      case Posted(_, _, _, _) => Pending(log[..|log| - 1], path)
  }

  /** Alerts are attempted only when none is pending, recoveries only when one is. */
  ghost predicate MailLawful(log: seq<Event>) {
    forall i :: 0 <= i < |log| ==>
      && (log[i].AlertMail? ==> !Pending(log[..i], log[i].path))
      && (log[i].RecoveryMail? ==> Pending(log[..i], log[i].path))
  }

  predicate HoldsSent(files: map<string, string>, path: string) {
    path in files && files[path] == "sent"
  }

  /** No marker file is the fingerprint file of a target. */
  ghost predicate Separate(ts: set<Target>) {
    forall t, u :: t in ts && u in ts ==> t.marker != u.ext
  }

  ghost predicate MailInv(st: Port, ts: set<Target>) {
    MailLawful(st.log) && forall t :: t in ts ==> (Pending(st.log, t.marker) <==> HoldsSent(st.files, t.marker))
  }

  lemma ExtendLog(log: seq<Event>, e: Event)
    requires MailLawful(log)
    requires e.AlertMail? ==> !Pending(log, e.path)
    requires e.RecoveryMail? ==> Pending(log, e.path)
    ensures MailLawful(log + [e])
    ensures forall p :: Pending(log + [e], p) ==
                          if e.AlertMail? && e.path == p then true
                          else if e.RecoveryMail? && e.ok && e.path == p then false
                          else Pending(log, p)
  {
    var l := log + [e];
    assert l[..|log|] == log;
    forall i | 0 <= i < |log| ensures l[..i] == log[..i] {}
  }

  lemma AlertKeepsInv(st: Port, ts: set<Target>, t: Target, a: Answers)
    requires MailInv(st, ts) && t in ts
    ensures MailInv(SendAlert(st, t.marker, a), ts)
  {
    if !HoldsSent(st.files, t.marker) {
      if a.writeOk { AlertMailed(st, ts, t, a); } else { AlertUnwritten(st, ts, t); }
    }
  }

  lemma AlertMailed(st: Port, ts: set<Target>, t: Target, a: Answers)
    requires MailInv(st, ts) && t in ts && !HoldsSent(st.files, t.marker)
    ensures MailInv(st.(files := st.files[t.marker := "sent"], log := st.log + [AlertMail(t.marker, a.mailOk)]), ts)
  {
    ExtendLog(st.log, AlertMail(t.marker, a.mailOk));
  }

  lemma AlertUnwritten(st: Port, ts: set<Target>, t: Target)
    requires MailInv(st, ts) && t in ts && !HoldsSent(st.files, t.marker)
    ensures MailInv(st.(files := st.files[t.marker := ""]), ts)
  {
    assert MailLawful(st.log);
  }

  lemma RecoveryKeepsInv(st: Port, ts: set<Target>, t: Target, a: Answers)
    requires MailInv(st, ts) && t in ts
    ensures MailInv(SendRecovered(st, t.marker, a), ts)
  {
    if HoldsSent(st.files, t.marker) { ExtendLog(st.log, RecoveryMail(t.marker, a.mailOk)); }
  }

  lemma PostsKeepInv(st: Port, ts: set<Target>, t: Target, a: Answers)
    requires MailInv(st, ts) && t in ts && Separate(ts)
    ensures MailInv(PostFiring(st, t.ext, a), ts)
    ensures MailInv(PostResolved(st, t.marker, a), ts)
  {
    ExtendLog(st.log, Posted(t.ext, false, a.random, F.Accepted(a.reply)));
    ExtendLog(st.log, Posted(t.marker, true, FileText(st.files, t.marker), F.Accepted(a.reply)));
  }

  lemma FailedKeepsInv(cfg: Config, st: Port, ts: set<Target>, t: Target, a: Answers)
    requires MailInv(st, ts) && t in ts && Separate(ts)
    ensures MailInv(Failed(cfg, st, t, a), ts)
  {
    var s1 := st.(affected := st.affected + [t.text]);
    AlertKeepsInv(s1, ts, t, a);
    PostsKeepInv(if cfg.mailOn then SendAlert(s1, t.marker, a) else s1, ts, t, a);
  }

  lemma RecoveredKeepsInv(cfg: Config, st: Port, ts: set<Target>, t: Target, a: Answers)
    requires MailInv(st, ts) && t in ts && Separate(ts)
    ensures MailInv(Recovered(cfg, st, t, a), ts)
  {
    RecoveryKeepsInv(st, ts, t, a);
    var s1 := MailRecovered(cfg, st, t, a);
    PostsKeepInv(s1.(incidents := DropIncident(s1.incidents, a.incident)), ts, t, a);
    ForgetKeepsInv(NotifyRecovered(cfg, s1, t, a), ts, t);
  }

  lemma ForgetKeepsInv(st: Port, ts: set<Target>, t: Target)
    requires MailInv(st, ts) && t in ts && Separate(ts)
    ensures MailInv(Forget(st, t), ts)
  {
  }

  // ----- the other lists and the resolved posts

  ghost predicate IncidentsClean(ids: seq<string>) {
    NoDup(ids) && "" !in ids && "[Pending]" !in ids
  }

  /** Marker files hold "sent" or nothing, and so does every resolved post. */
  ghost predicate PostsSent(st: Port, ts: set<Target>) {
    && (forall t :: t in ts ==> FileText(st.files, t.marker) in {"", "sent"})
    && (forall i :: 0 <= i < |st.log| && st.log[i].Posted? && st.log[i].resolving ==> st.log[i].fp == "sent")
  }

  ghost predicate Good(st: Port, ts: set<Target>) {
    && MailInv(st, ts) && PostsSent(st, ts)
    && NoDup(st.affected) && IncidentsClean(st.incidents)
  }

  lemma FailedKeepsRest(cfg: Config, st: Port, ts: set<Target>, t: Target, a: Answers)
    requires PostsSent(st, ts) && NoDup(st.affected) && IncidentsClean(st.incidents) && t in ts && Separate(ts)
    ensures var r := Failed(cfg, st, t, a);
            PostsSent(r, ts) && NoDup(r.affected) && IncidentsClean(r.incidents)
  {
    var s1 := st.(affected := st.affected + [t.text]);
    var s2 := if cfg.mailOn then SendAlert(s1, t.marker, a) else s1;
    AlertKeepsSent(s1, ts, t, a);
    FiringKeepsSent(s2, ts, t, a);
  }

  lemma AlertKeepsSent(st: Port, ts: set<Target>, t: Target, a: Answers)
    requires PostsSent(st, ts)
    ensures PostsSent(SendAlert(st, t.marker, a), ts)
  {
  }

  lemma FiringKeepsSent(st: Port, ts: set<Target>, t: Target, a: Answers)
    requires PostsSent(st, ts) && t in ts && Separate(ts)
    ensures PostsSent(PostFiring(st, t.ext, a), ts)
  {
  }

  lemma RecoveredKeepsRest(cfg: Config, st: Port, ts: set<Target>, t: Target, a: Answers)
    requires PostsSent(st, ts) && NoDup(st.affected) && IncidentsClean(st.incidents) && t in ts && Separate(ts)
    ensures var r := Recovered(cfg, st, t, a);
            PostsSent(r, ts) && NoDup(r.affected) && IncidentsClean(r.incidents)
  {
    var s1 := MailRecovered(cfg, st, t, a);
    assert PostsSent(s1, ts);
    ApplyMembers(st.incidents, Drop(a.incident));
    ApplyMembers(st.affected, Drop(t.text));
    assert PostsSent(NotifyRecovered(cfg, s1, t, a), ts);
  }

  lemma TargetKeepsGood(cfg: Config, st: Port, ts: set<Target>, t: Target, a: Answers, first: bool)
    requires Good(st, ts) && t in ts && Separate(ts)
    ensures Good(ScanTarget(cfg, st, t, a, first), ts)
  {
    if !a.reachable {
      FailedKeepsInv(cfg, st, ts, t, a);
      FailedKeepsRest(cfg, st, ts, t, a);
    } else if t.marker !in st.files {
      ApplyMembers(st.affected, Drop(t.text));
    } else {
      RecoveredKeepsInv(cfg, st, ts, t, a);
      RecoveredKeepsRest(cfg, st, ts, t, a);
    }
  }

  lemma {:induction false} ScanKeepsGood(cfg: Config, st: Port, ts: set<Target>, targets: seq<Target>,
                                         answers: seq<Answers>, first: bool)
    requires |answers| == |targets| && Separate(ts) && Good(st, ts)
    requires forall t :: t in targets ==> t in ts
    ensures Good(ScanAll(cfg, st, targets, answers, first), ts)
  {
    if targets != [] {
      var n := |targets| - 1;
      ScanKeepsGood(cfg, st, ts, targets[..n], answers[..n], first);
      TargetKeepsGood(cfg, ScanAll(cfg, st, targets[..n], answers[..n], first), ts, targets[n], answers[n], first);
    }
  }

  // ----- whole runs

  const START := Status(Port([], [], false, map[], []), None, [])

  ghost predicate Inputs(inputs: seq<Input>, ts: set<Target>) {
    forall i :: i in inputs ==> i.Valid() && forall t :: t in i.targets ==> t in ts
  }

  ghost predicate Sized(inputs: seq<Input>) {
    forall i :: i in inputs ==> |i.answers| == |i.targets|
  }

  ghost function RunAll(inputs: seq<Input>): Status
    requires Sized(inputs)
  {
    if inputs == [] then START else Reconcile(RunAll(inputs[..|inputs| - 1]), inputs[|inputs| - 1])
  }

  lemma ReconcileKeepsGood(s: Status, input: Input, ts: set<Target>)
    requires Good(s.port, ts) && Separate(ts) && input.Valid() && forall t :: t in input.targets ==> t in ts
    ensures Good(Reconcile(s, input).port, ts)
  {
    ScanKeepsGood(input.cfg, s.port, ts, input.targets, input.answers, true);
    ScanKeepsGood(input.cfg, s.port, ts, input.targets, input.answers, false);
  }

  /** In every reachable state the mails of each marker file alternate, the marker says
      whether an alert is pending, resolved posts only ever carry the text "sent", and
      the two lists hold no duplicates and no placeholder. */
  lemma {:induction false} RunKeepsGood(inputs: seq<Input>, ts: set<Target>)
    requires Inputs(inputs, ts) && Separate(ts)
    ensures Good(RunAll(inputs).port, ts)
  {
    if inputs != [] {
      var front, input := inputs[..|inputs| - 1], inputs[|inputs| - 1];
      RunKeepsGood(front, ts);
      assert input in inputs;
      ReconcileKeepsGood(RunAll(front), input, ts);
    }
  }

  ghost predicate AlertAt(log: seq<Event>, i: nat, path: string) {
    i < |log| && log[i].AlertMail? && log[i].path == path
  }

  ghost predicate RecoveryAt(log: seq<Event>, i: nat, path: string) {
    i < |log| && log[i].RecoveryMail? && log[i].path == path && log[i].ok
  }

  lemma {:induction false} PendingMeaning(log: seq<Event>, path: string)
    ensures Pending(log, path) ==>
              exists i: nat :: AlertAt(log, i, path) && forall k: nat :: i < k ==> !RecoveryAt(log, k, path)
    ensures !Pending(log, path) ==>
              forall i: nat :: AlertAt(log, i, path) ==> exists k: nat :: i < k && RecoveryAt(log, k, path)
  {
    if log != [] {
      var n := |log| - 1;
      var front := log[..n];
      PendingMeaning(front, path);
      assert forall i: nat :: i < n ==> (AlertAt(front, i, path) <==> AlertAt(log, i, path));
      assert forall i: nat :: i < n ==> (RecoveryAt(front, i, path) <==> RecoveryAt(log, i, path));
      if Pending(log, path) {
        if AlertAt(log, n, path) {
          assert forall k: nat :: n < k ==> !RecoveryAt(log, k, path);
        } else {
          var i: nat :| AlertAt(front, i, path) && forall k: nat :: i < k ==> !RecoveryAt(front, k, path);
          forall k: nat | i < k ensures !RecoveryAt(log, k, path) {
            if k < n { assert !RecoveryAt(front, k, path); }
          }
          assert AlertAt(log, i, path);
        }
      } else {
        forall i: nat | AlertAt(log, i, path) ensures exists k: nat :: i < k && RecoveryAt(log, k, path) {
          if RecoveryAt(log, n, path) {
            assert i < n && RecoveryAt(log, n, path);
          } else {
            assert i < n && AlertAt(front, i, path);
            var k: nat :| i < k && RecoveryAt(front, k, path);
            assert RecoveryAt(log, k, path);
          }
        }
      }
    }
  }

  /** Between two alert attempts of a marker file lies a successful recovery mail, and
      before each successful recovery an alert no earlier recovery has answered. */
  lemma MailsAlternate(inputs: seq<Input>, ts: set<Target>, t: Target, i: nat, j: nat)
    requires Inputs(inputs, ts) && Separate(ts) && t in ts && i < j
    ensures var log := RunAll(inputs).port.log;
            AlertAt(log, i, t.marker) && AlertAt(log, j, t.marker) ==>
              exists k: nat :: i < k < j && RecoveryAt(log, k, t.marker)
    ensures var log := RunAll(inputs).port.log;
            RecoveryAt(log, i, t.marker) && RecoveryAt(log, j, t.marker) ==>
              exists k: nat :: i < k < j && AlertAt(log, k, t.marker)
  {
    RunKeepsGood(inputs, ts);
    var log := RunAll(inputs).port.log;
    if j < |log| {
      var past := log[..j];
      PendingMeaning(past, t.marker);
      assert forall k: nat :: k < j ==> (AlertAt(past, k, t.marker) <==> AlertAt(log, k, t.marker));
      assert forall k: nat :: k < j ==> (RecoveryAt(past, k, t.marker) <==> RecoveryAt(log, k, t.marker));
      if AlertAt(log, i, t.marker) && AlertAt(log, j, t.marker) {
        assert AlertAt(past, i, t.marker);
        var k: nat :| i < k && RecoveryAt(past, k, t.marker);
        assert i < k < j && RecoveryAt(log, k, t.marker);
      }
      if RecoveryAt(log, i, t.marker) && RecoveryAt(log, j, t.marker) {
        var k: nat :| AlertAt(past, k, t.marker) && forall m: nat :: k < m ==> !RecoveryAt(past, m, t.marker);
        assert RecoveryAt(past, i, t.marker) && k != i;
        assert i < k < j && AlertAt(log, k, t.marker);
      }
    }
  }

  // ----- mail on and working: the list and the markers tell the same story

  /** A target is listed exactly when its marker holds "sent". */
  ghost predicate Consistent(st: Port, ts: set<Target>) {
    forall t :: t in ts ==> (t.text in st.affected <==> HoldsSent(st.files, t.marker))
  }

  ghost predicate MarkersDistinct(ts: set<Target>) {
    forall t, u :: t in ts && u in ts && t != u ==> t.marker != u.marker && t.text != u.text
  }

  predicate MailWorks(cfg: Config, a: Answers) {
    cfg.mailOn && a.writeOk && a.mailOk
  }

  lemma TargetKeepsConsistent(cfg: Config, st: Port, ts: set<Target>, t: Target, a: Answers, first: bool)
    requires Consistent(st, ts) && MarkersDistinct(ts) && Separate(ts) && t in ts
    requires MailWorks(cfg, a) && NoDup(st.affected)
    ensures Consistent(ScanTarget(cfg, st, t, a, first), ts)
  {
    if !a.reachable {
      var s2 := SendAlert(st.(affected := st.affected + [t.text]), t.marker, a);
      if t.text !in st.affected { assert Consistent(s2, ts); }
    } else {
      ApplyMembers(st.affected, Drop(t.text));
      if t.marker in st.files && t.text in st.affected {
        var s1 := SendRecovered(st, t.marker, a);
        assert t.marker !in s1.files;
        assert NotifyRecovered(cfg, s1, t, a).files == s1.files;
      }
    }
  }

  lemma {:induction false} ScanKeepsConsistent(cfg: Config, st: Port, ts: set<Target>, targets: seq<Target>,
                                               answers: seq<Answers>, first: bool)
    requires |answers| == |targets| && MarkersDistinct(ts) && Separate(ts)
    requires Consistent(st, ts) && Good(st, ts)
    requires forall t :: t in targets ==> t in ts
    requires forall a :: a in answers ==> MailWorks(cfg, a)
    ensures Consistent(ScanAll(cfg, st, targets, answers, first), ts)
  {
    if targets != [] {
      var n := |targets| - 1;
      assert answers[n] in answers && targets[n] in targets;
      ScanKeepsConsistent(cfg, st, ts, targets[..n], answers[..n], first);
      ScanKeepsGood(cfg, st, ts, targets[..n], answers[..n], first);
      TargetKeepsConsistent(cfg, ScanAll(cfg, st, targets[..n], answers[..n], first), ts, targets[n], answers[n],
                            first);
    }
  }

  lemma ReconcileKeepsConsistent(s: Status, input: Input, ts: set<Target>)
    requires Good(s.port, ts) && Consistent(s.port, ts) && Separate(ts) && MarkersDistinct(ts)
    requires input.Valid() && forall t :: t in input.targets ==> t in ts
    requires forall a :: a in input.answers ==> MailWorks(input.cfg, a)
    ensures Consistent(Reconcile(s, input).port, ts)
  {
    ScanKeepsConsistent(input.cfg, s.port, ts, input.targets, input.answers, true);
    ScanKeepsConsistent(input.cfg, s.port, ts, input.targets, input.answers, false);
  }

  /** With mail on and working and distinct markers, in every reachable state a target
      is affected exactly when its marker file holds "sent". */
  lemma {:induction false} RunKeepsConsistent(inputs: seq<Input>, ts: set<Target>)
    requires Inputs(inputs, ts) && Separate(ts) && MarkersDistinct(ts)
    requires forall i :: i in inputs ==> forall a :: a in i.answers ==> MailWorks(i.cfg, a)
    ensures Consistent(RunAll(inputs).port, ts)
  {
    if inputs != [] {
      var front, input := inputs[..|inputs| - 1], inputs[|inputs| - 1];
      assert input in inputs;
      RunKeepsConsistent(front, ts);
      RunKeepsGood(front, ts);
      ReconcileKeepsConsistent(RunAll(front), input, ts);
    }
  }

  // ----- resolved posts

  ghost predicate NoResolved(log: seq<Event>) {
    forall e :: e in log && e.Posted? ==> !e.resolving
  }

  /** A target that is reached again sends a resolved post iff it is listed with a marker
      that says "sent", something was fired, and its recovery mail is off or fails: a mail
      that is sent removes the marker the post goes by. */
  lemma ResolvedPostIff(cfg: Config, st: Port, ts: set<Target>, t: Target, a: Answers, first: bool)
    requires Good(st, ts) && t in ts
    ensures NoResolved(ScanTarget(cfg, st, t, a, first).log) <==>
              && NoResolved(st.log)
              && !(&& a.reachable && t.text in st.affected && HoldsSent(st.files, t.marker)
                   && cfg.notify && st.notified && !(cfg.mailOn && a.mailOk))
  {
  }

  predicate MailSent(cfg: Config, a: Answers) {
    cfg.mailOn && a.mailOk
  }

  lemma {:induction false} ScanNeverResolves(cfg: Config, st: Port, ts: set<Target>, targets: seq<Target>,
                                             answers: seq<Answers>, first: bool)
    requires |answers| == |targets| && Separate(ts) && Good(st, ts) && NoResolved(st.log)
    requires (forall t :: t in targets ==> t in ts) && forall a :: a in answers ==> MailSent(cfg, a)
    ensures NoResolved(ScanAll(cfg, st, targets, answers, first).log)
  {
    if targets != [] {
      var n := |targets| - 1;
      assert answers[n] in answers && targets[n] in targets;
      ScanNeverResolves(cfg, st, ts, targets[..n], answers[..n], first);
      ScanKeepsGood(cfg, st, ts, targets[..n], answers[..n], first);
      ResolvedPostIff(cfg, ScanAll(cfg, st, targets[..n], answers[..n], first), ts, targets[n], answers[n], first);
    }
  }

  /** So while mail is on and every mail is sent, no run ever posts a recovery. */
  lemma {:induction false} RunNeverResolves(inputs: seq<Input>, ts: set<Target>)
    requires Inputs(inputs, ts) && Separate(ts)
    requires forall i :: i in inputs ==> forall a :: a in i.answers ==> MailSent(i.cfg, a)
    ensures NoResolved(RunAll(inputs).port.log)
  {
    if inputs != [] {
      var front, input := inputs[..|inputs| - 1], inputs[|inputs| - 1];
      assert input in inputs;
      RunNeverResolves(front, ts);
      RunKeepsGood(front, ts);
      ScanNeverResolves(input.cfg, RunAll(front).port, ts, input.targets, input.answers, true);
      ScanNeverResolves(input.cfg, RunAll(front).port, ts, input.targets, input.answers, false);
    }
  }

  // ----- the scan interval

  /** LastPollTime moves only when every target was reached, to the time after the
      scan, and by more than the interval; otherwise it stays. */
  lemma PollMoves(s: Status, input: Input)
    requires input.Valid()
    ensures var r := Reconcile(s, input);
            r.lastPoll != s.lastPoll ==>
              && !AnyFailed(input.answers) && r.lastPoll == Some(input.later)
              && (s.lastPoll.Some? ==> input.later - s.lastPoll.value > input.interval)
    ensures var r := Reconcile(s, input);
            AnyFailed(input.answers) ==> r.lastPoll == s.lastPoll
  {
  }

  /** The recorded successes of a run, oldest first. */
  ghost function Successes(inputs: seq<Input>): seq<int>
    requires Sized(inputs)
  {
    if inputs == [] then []
    else
      var front := inputs[..|inputs| - 1];
      if RunAll(inputs).lastPoll != RunAll(front).lastPoll && RunAll(inputs).lastPoll.Some?
      then Successes(front) + [RunAll(inputs).lastPoll.value] else Successes(front)
  }

  /** Recorded successes lie more than the interval apart. */
  lemma {:induction false} SuccessesApart(inputs: seq<Input>, interval: nat)
    requires Sized(inputs) && forall i :: i in inputs ==> i.Valid() && i.interval == interval
    ensures forall k :: 0 < k < |Successes(inputs)| ==> Successes(inputs)[k] - Successes(inputs)[k - 1] > interval
    ensures RunAll(inputs).lastPoll ==
            if Successes(inputs) == [] then None else Some(Successes(inputs)[|Successes(inputs)| - 1])
  {
    if inputs != [] {
      var front, input := inputs[..|inputs| - 1], inputs[|inputs| - 1];
      assert input in inputs;
      SuccessesApart(front, interval);
      PollMoves(RunAll(front), input);
    }
  }
}
