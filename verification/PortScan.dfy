/** The PortScan reconciler: the list of unreachable targets, the mail-marker file and
    the fingerprint file of each target, and the gate of the scan interval. */
module PortScan {
  import opened StatusLists
  import opened Conditions
  import F = Fingerprints

  /** An entry of spec.Target with its mail-marker file and its fingerprint file. */
  datatype Target = Target(text: string, marker: string, ext: string)

  /** Mails attempted and posts sent, in order, with the file each belongs to. */
  datatype Event =
    | AlertMail(path: string, ok: bool)
    | RecoveryMail(path: string, ok: bool)
    | Posted(path: string, resolving: bool, fp: string, accepted: bool)

  datatype Port = Port(affected: seq<string>, incidents: seq<string>, notified: bool, files: map<string, string>,
                       log: seq<Event>)

  datatype Config = Config(mailOn: bool, notify: bool)

  /** What the environment answers while one target is handled. */
  datatype Answers = Answers(reachable: bool, writeOk: bool, mailOk: bool, random: string, reply: F.Reply,
                             incident: string)

  // ----- the mail-marker protocol

  function SendAlert(st: Port, path: string, a: Answers): Port {
    if path in st.files && st.files[path] == "sent" then st
    else if a.writeOk then st.(files := st.files[path := "sent"], log := st.log + [AlertMail(path, a.mailOk)])
    else if path in st.files then st.(files := st.files[path := ""])
    else st
  }

  function SendRecovered(st: Port, path: string, a: Answers): Port {
    if path in st.files && st.files[path] == "sent" then
      st.(files := if a.mailOk then st.files - {path} else st.files, log := st.log + [RecoveryMail(path, a.mailOk)])
    else st
  }

  // ----- the fingerprint protocol, on a file of the same map

  function FileText(files: map<string, string>, path: string): string {
    if path in files then files[path] else ""
  }

  function PostFiring(st: Port, path: string, a: Answers): Port {
    if FileText(st.files, path) != "" then st
    else
      st.(files := if F.Accepted(a.reply) then st.files[path := a.random] else st.files,
          notified := st.notified || F.Accepted(a.reply),
          log := st.log + [Posted(path, false, a.random, F.Accepted(a.reply))])
  }

  function PostResolved(st: Port, path: string, a: Answers): Port {
    var fp := FileText(st.files, path);
    if fp == "" then st
    else
      st.(files := if F.Accepted(a.reply) then st.files[path := fp] else st.files,
          notified := st.notified || F.Accepted(a.reply),
          log := st.log + [Posted(path, true, fp, F.Accepted(a.reply))])
  }

  function DropIncident(ids: seq<string>, id: string): seq<string> {
    Apply(ids, Drop(id))
  }

  // ----- one target

  function Failed(cfg: Config, st: Port, t: Target, a: Answers): Port {
    if t.text in st.affected then st
    else
      var s1 := st.(affected := st.affected + [t.text]);
      var s2 := if cfg.mailOn then SendAlert(s1, t.marker, a) else s1;
      if !cfg.notify then s2
      else
        var s3 := PostFiring(s2, t.ext, a);
        s3.(incidents := WithIncident(s3.incidents, a.incident), notified := true)
  }

  function MailRecovered(cfg: Config, st: Port, t: Target, a: Answers): Port {
    if cfg.mailOn then SendRecovered(st, t.marker, a) else st
  }

  /** The resolved post goes by the mail-marker file, not by the fingerprint file. */
  function NotifyRecovered(cfg: Config, st: Port, t: Target, a: Answers): Port {
    if cfg.notify && st.notified
    then PostResolved(st.(incidents := DropIncident(st.incidents, a.incident)), t.marker, a) else st
  }

  function Forget(st: Port, t: Target): Port {
    Port(Apply(st.affected, Drop(t.text)), st.incidents, st.notified, st.files - {t.ext}, st.log)
  }

  function Recovered(cfg: Config, st: Port, t: Target, a: Answers): Port {
    Forget(NotifyRecovered(cfg, MailRecovered(cfg, st, t, a), t, a), t)
  }

  /** The body of both scan loops; the first scan leaves a target alone that has no
      marker file. */
  function ScanTarget(cfg: Config, st: Port, t: Target, a: Answers, first: bool): Port {
    if !a.reachable then Failed(cfg, st, t, a)
    else if t.marker !in st.files then
      if first then st else st.(affected := Apply(st.affected, Drop(t.text)))
    else if t.text in st.affected then Recovered(cfg, st, t, a)
    else st
  }

  function ScanAll(cfg: Config, st: Port, targets: seq<Target>, answers: seq<Answers>, first: bool): Port
    requires |answers| == |targets|
  {
    if targets == [] then st
    else
      var n := |targets| - 1;
      ScanTarget(cfg, ScanAll(cfg, st, targets[..n], answers[..n], first), targets[n], answers[n], first)
  }

  // ----- one reconcile

  datatype Status = Status(port: Port, lastPoll: Option<int>, conditions: seq<Condition>)

  /** `now` is read before the scan and `later` after it. */
  datatype Input = Input(cfg: Config, suspended: bool, interval: nat, now: int, later: int,
                         targets: seq<Target>, answers: seq<Answers>)
  {
    ghost predicate Valid() { |answers| == |targets| && now <= later }
  }

  const READY := "Ready"
  const REASON := "PortScanReconciler"

  const TROUBLE := "Trouble reaching the one of the target or all targets: one of the target or all are unreachable"

  function AllReachable(first: bool): string {
    if first then "Success. All targets are reachable." else "Success. All configured targets are reachable."
  }

  predicate AnyFailed(answers: seq<Answers>) {
    exists i :: 0 <= i < |answers| && !answers[i].reachable
  }

  function FinishScan(s: Status, input: Input, first: bool): Status
    requires |input.answers| == |input.targets|
  {
    var port := ScanAll(input.cfg, s.port, input.targets, input.answers, first);
    if AnyFailed(input.answers) then
      Status(port, s.lastPoll, SetReady(s.conditions, READY, "False", REASON, TROUBLE, input.later))
    else
      Status(port, Some(input.later), SetReady(s.conditions, READY, "True", REASON, AllReachable(first), input.later))
  }

  function Reconcile(s: Status, input: Input): Status
    requires |input.answers| == |input.targets|
  {
    if Find(s.conditions, READY) < 0 then
      s.(conditions := SetReady(s.conditions, READY, "Unknown", REASON, "First Seen", input.later))
    else if input.suspended then s
    else if s.lastPoll.None? then FinishScan(s, input, true)
    else if s.lastPoll.value < input.now - input.interval then FinishScan(s, input, false)
    else s
  }

  // ----- the reconciler's status object

  class PortScanStatus {
    var affectedTargets: seq<string>
    var incidentID: seq<string>
    var externalNotified: bool
    var files: map<string, string>
    var log: seq<Event>

    function Value(): Port
      reads this
    {
      Port(affectedTargets, incidentID, externalNotified, files, log)
    }

    method SendEmailAlert(path: string, a: Answers)
      modifies this
      ensures Value() == SendAlert(old(Value()), path, a)
    {
      if path !in files {
        if !a.writeOk {
          return;
        }
        files := files[path := "sent"];
        log := log + [AlertMail(path, a.mailOk)];
      } else {
        var data := files[path];
        if data != "sent" {
          files := files[path := ""];
          if !a.writeOk {
            return;
          }
          files := files[path := "sent"];
          log := log + [AlertMail(path, a.mailOk)];
        }
      }
    }

    method SendEmailRecoveredAlert(path: string, a: Answers)
      modifies this
      ensures Value() == SendRecovered(old(Value()), path, a)
    {
      if path in files {
        if files[path] == "sent" {
          log := log + [RecoveryMail(path, a.mailOk)];
          if !a.mailOk {
            return;
          }
          files := files - {path};
        }
      }
    }

    method NotifyFiring(path: string, a: Answers)
      modifies this
      ensures Value() == PostFiring(old(Value()), path, a)
    {
      if FileText(files, path) != "" {
        return;
      }
      log := log + [Posted(path, false, a.random, F.Accepted(a.reply))];
      if F.Accepted(a.reply) {
        files := files[path := a.random];
        externalNotified := true;
      }
    }

    method NotifyResolved(path: string, a: Answers)
      modifies this
      ensures Value() == PostResolved(old(Value()), path, a)
    {
      var fingerprint := FileText(files, path);
      if fingerprint == "" {
        return;
      }
      log := log + [Posted(path, true, fingerprint, F.Accepted(a.reply))];
      if F.Accepted(a.reply) {
        files := files[path := fingerprint];
        externalNotified := true;
      }
    }

    method HandleFailed(cfg: Config, t: Target, a: Answers)
      modifies this
      ensures Value() == Failed(cfg, old(Value()), t, a)
    {
      if t.text !in affectedTargets {
        affectedTargets := affectedTargets + [t.text];
        if cfg.mailOn {
          SendEmailAlert(t.marker, a);
        }
        if cfg.notify {
          NotifyFiring(t.ext, a);
          if a.incident !in incidentID && a.incident != "" && a.incident != "[Pending]" {
            incidentID := incidentID + [a.incident];
          }
          externalNotified := true;
        }
      }
    }

    method MailRecovery(cfg: Config, t: Target, a: Answers)
      modifies this
      ensures Value() == MailRecovered(cfg, old(Value()), t, a)
    {
      if cfg.mailOn {
        SendEmailRecoveredAlert(t.marker, a);
      }
    }

    method NotifyRecovery(cfg: Config, t: Target, a: Answers)
      modifies this
      ensures Value() == NotifyRecovered(cfg, old(Value()), t, a)
    {
      if cfg.notify && externalNotified {
        if a.incident in incidentID {
          incidentID := DeleteAt(incidentID, IndexOf(incidentID, a.incident));
        }
        NotifyResolved(t.marker, a);
      }
    }

    method HandleRecovered(cfg: Config, t: Target, a: Answers)
      modifies this
      ensures Value() == Recovered(cfg, old(Value()), t, a)
    {
      MailRecovery(cfg, t, a);
      NotifyRecovery(cfg, t, a);
      if t.text in affectedTargets {
        affectedTargets := DeleteAt(affectedTargets, IndexOf(affectedTargets, t.text));
      }
      files := files - {t.ext};
    }

    method HandleTarget(cfg: Config, t: Target, a: Answers, first: bool)
      modifies this
      ensures Value() == ScanTarget(cfg, old(Value()), t, a, first)
    {
      var target := t.text;
      if !a.reachable {
        HandleFailed(cfg, t, a);
      } else if t.marker !in files {
        if !first && target in affectedTargets {
          affectedTargets := DeleteAt(affectedTargets, IndexOf(affectedTargets, target));
        }
      } else if target in affectedTargets {
        HandleRecovered(cfg, t, a);
      }
    }

    /** Both scan loops; `failed` is the length test on errorp. */
    method Scan(cfg: Config, targets: seq<Target>, answers: seq<Answers>, first: bool) returns (failed: bool)
      requires |answers| == |targets|
      modifies this
      ensures Value() == ScanAll(cfg, old(Value()), targets, answers, first)
      ensures failed <==> exists i :: 0 <= i < |answers| && !answers[i].reachable
    {
      failed := false;
      for i := 0 to |targets|
        invariant Value() == ScanAll(cfg, old(Value()), targets[..i], answers[..i], first)
        invariant failed <==> exists k :: 0 <= k < i && !answers[k].reachable
      {
        assert targets[..i + 1][..i] == targets[..i] && answers[..i + 1][..i] == answers[..i];
        HandleTarget(cfg, targets[i], answers[i], first);
        if !answers[i].reachable {
          failed := true;
        }
      }
      assert targets[..|targets|] == targets && answers[..|answers|] == answers;
    }
  }

  class PortScanReconciler {
    const status: PortScanStatus
    const conditions: ConditionList
    var lastPollTime: Option<int>

    constructor (status: PortScanStatus, conditions: ConditionList)
      ensures this.status == status && this.conditions == conditions && lastPollTime == None
    {
      this.status, this.conditions := status, conditions;
      lastPollTime := None;
    }

    function Value(): Status
      reads this, status, conditions
    {
      Status(status.Value(), lastPollTime, conditions.conditions)
    }

    method RunScan(input: Input, first: bool)
      requires |input.answers| == |input.targets|
      modifies this, status, conditions
      ensures Value() == FinishScan(old(Value()), input, first)
    {
      var failed := status.Scan(input.cfg, input.targets, input.answers, first);
      if failed {
        conditions.SetReadyCondition(READY, "False", REASON, TROUBLE, input.later);
      } else {
        lastPollTime := Some(input.later);
        conditions.SetReadyCondition(READY, "True", REASON, AllReachable(first), input.later);
      }
    }

    method ReconcileOnce(input: Input)
      requires |input.answers| == |input.targets|
      modifies this, status, conditions
      ensures Value() == Reconcile(old(Value()), input)
    {
      var ready := Find(conditions.conditions, READY);
      if ready < 0 {
        conditions.SetReadyCondition(READY, "Unknown", REASON, "First Seen", input.later);
        return;
      }
      if input.suspended {
        return;
      }
      if lastPollTime.None? {
        RunScan(input, true);
      } else {
        var pastTime := input.now - input.interval;
        if lastPollTime.value < pastTime {
          RunScan(input, false);
        }
      }
    }
  }
}
