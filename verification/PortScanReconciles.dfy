/** What one reconcile of a PortScan does: which scan it runs, what that lists and
    records, and which mails and posts a target gives rise to. */
module PortScanReconciles {
  import opened StatusLists
  import opened Conditions
  import opened PortScan
  import opened PortScanRuns
  import F = Fingerprints

  function ReadyStatus(s: Status): string {
    var i := Find(s.conditions, READY);
    if i < 0 then "" else s.conditions[i].status
  }

  lemma ReadyAfter(cs: seq<Condition>, status: string, message: string, now: int)
    ensures var r := SetReady(cs, READY, status, REASON, message, now);
            Find(r, READY) >= 0 && r[Find(r, READY)].status == status
  {
    var r := SetReady(cs, READY, status, REASON, message, now);
    assert r[if Find(cs, READY) < 0 then |cs| else Find(cs, READY)].kind == READY;
    assert forall j :: 0 <= j < |cs| ==> r[j].kind == cs[j].kind;
  }

  /** The first reconcile of an object only says so. */
  lemma FirstSeen(s: Status, input: Input)
    requires input.Valid() && Find(s.conditions, READY) < 0
    ensures var r := Reconcile(s, input);
            r.port == s.port && r.lastPoll == s.lastPoll && ReadyStatus(r) == "Unknown"
  {
    ReadyAfter(s.conditions, "Unknown", "First Seen", input.later);
  }

  /** A suspended one, and one before the interval is over, leaves everything as it is. */
  lemma IdleReconcile(s: Status, input: Input)
    requires input.Valid() && Find(s.conditions, READY) >= 0
    requires input.suspended || (s.lastPoll.Some? && input.now - s.lastPoll.value <= input.interval)
    ensures Reconcile(s, input) == s
  {
  }

  /** Ready and the time of the last success tell whether every target was reached. */
  ghost predicate Reported(s: Status, input: Input, r: Status) {
    if exists a :: a in input.answers && !a.reachable
    then ReadyStatus(r) == "False" && r.lastPoll == s.lastPoll
    else ReadyStatus(r) == "True" && r.lastPoll == Some(input.later)
  }

  lemma FinishReports(s: Status, input: Input, first: bool)
    requires input.Valid()
    ensures Reported(s, input, FinishScan(s, input, first))
  {
    ReadyAfter(s.conditions, "False", TROUBLE, input.later);
    ReadyAfter(s.conditions, "True", AllReachable(first), input.later);
  }

  /** Once the interval is over a target is affected iff its last answer says so, or it is
      not configured and was affected. */
  lemma ElapsedReconcile(s: Status, input: Input)
    requires input.Valid() && Find(s.conditions, READY) >= 0 && !input.suspended && NoDup(s.port.affected)
    requires s.lastPoll.Some? && input.now - s.lastPoll.value > input.interval
    ensures var r := Reconcile(s, input);
            && NoDup(r.port.affected) && Reported(s, input, r)
            && forall x :: x in r.port.affected <==>
                 match LastAnswer(input.targets, input.answers, x)
                 case None => x in s.port.affected
                 case Some(up) => !up
  {
    ElapsedAffected(input.cfg, s.port, input.targets, input.answers);
    FinishReports(s, input, false);
  }

  // ----- the first scan

  /** What a first scan does to a target depends on its marker file when its turn comes. */
  ghost predicate FirstLists(st: Port, t: Target, a: Answers, x: string) {
    !a.reachable || (x in st.affected && t.marker !in st.files)
  }

  lemma FirstTarget(cfg: Config, st: Port, t: Target, a: Answers)
    requires NoDup(st.affected)
    ensures var r := ScanTarget(cfg, st, t, a, true).affected;
            && NoDup(r)
            && forall x :: x in r <==> if x == t.text then FirstLists(st, t, a, x) else x in st.affected
  {
    ApplyMembers(st.affected, Drop(t.text));
  }

  /** After a first scan of targets named once, a target is affected iff it was not reached,
      or it was affected and had no marker file when its turn came. */
  lemma {:induction false} FirstAffected(cfg: Config, st: Port, targets: seq<Target>, answers: seq<Answers>)
    requires |answers| == |targets| && Distinct(targets) && NoDup(st.affected)
    ensures var r := ScanAll(cfg, st, targets, answers, true).affected;
            && NoDup(r)
            && (forall x :: !Configured(targets, x) ==> (x in r <==> x in st.affected))
            && forall i :: 0 <= i < |targets| ==>
                 (targets[i].text in r <==>
                   || !answers[i].reachable
                   || (targets[i].text in st.affected
                       && targets[i].marker !in ScanAll(cfg, st, targets[..i], answers[..i], true).files))
  {
    if targets != [] {
      var n := |targets| - 1;
      var mid := ScanAll(cfg, st, targets[..n], answers[..n], true);
      FirstAffected(cfg, st, targets[..n], answers[..n]);
      FirstTarget(cfg, mid, targets[n], answers[n]);
      assert !Configured(targets[..n], targets[n].text);
      forall i | 0 <= i < n ensures targets[..n][..i] == targets[..i] && answers[..n][..i] == answers[..i] {}
      forall x | !Configured(targets, x) ensures x != targets[n].text && !Configured(targets[..n], x) {}
    }
  }

  /** No target's files are another's. */
  ghost predicate OwnFiles(targets: seq<Target>) {
    forall i, j :: 0 <= i < |targets| && 0 <= j < |targets| ==>
      targets[i].marker != targets[j].ext && (i != j ==> targets[i].marker != targets[j].marker)
  }

  lemma DownOtherMarker(cfg: Config, st: Port, t: Target, a: Answers, marker: string)
    requires marker != t.marker && marker != t.ext
    ensures marker in Failed(cfg, st, t, a).files <==> marker in st.files
  {
  }

  lemma BackOtherMarker(cfg: Config, st: Port, t: Target, a: Answers, marker: string)
    requires marker != t.marker && marker != t.ext
    ensures marker in Recovered(cfg, st, t, a).files <==> marker in st.files
  {
    var s1 := MailRecovered(cfg, st, t, a);
    assert marker in s1.files <==> marker in st.files;
    assert marker in NotifyRecovered(cfg, s1, t, a).files <==> marker in s1.files;
  }

  lemma OtherMarker(cfg: Config, st: Port, t: Target, a: Answers, first: bool, marker: string)
    requires marker != t.marker && marker != t.ext
    ensures marker in ScanTarget(cfg, st, t, a, first).files <==> marker in st.files
  {
    DownOtherMarker(cfg, st, t, a, marker);
    BackOtherMarker(cfg, st, t, a, marker);
  }

  lemma {:induction false} MarkerUntouched(cfg: Config, st: Port, targets: seq<Target>, answers: seq<Answers>,
                                           first: bool, marker: string)
    requires |answers| == |targets| && forall t :: t in targets ==> marker != t.marker && marker != t.ext
    ensures marker in ScanAll(cfg, st, targets, answers, first).files <==> marker in st.files
  {
    if targets != [] {
      var n := |targets| - 1;
      assert targets[n] in targets;
      MarkerUntouched(cfg, st, targets[..n], answers[..n], first, marker);
      OtherMarker(cfg, ScanAll(cfg, st, targets[..n], answers[..n], first), targets[n], answers[n], first, marker);
    }
  }

  /** Until every target has been reached once, a reconcile runs the first scan: with files
      of its own a target is affected iff it was not reached, or it was affected and has no
      marker file. */
  lemma FirstReconcile(s: Status, input: Input)
    requires input.Valid() && Find(s.conditions, READY) >= 0 && !input.suspended && s.lastPoll.None?
    requires NoDup(s.port.affected) && Distinct(input.targets) && OwnFiles(input.targets)
    ensures var r := Reconcile(s, input);
            && NoDup(r.port.affected) && Reported(s, input, r)
            && (forall x :: !Configured(input.targets, x) ==> (x in r.port.affected <==> x in s.port.affected))
            && forall i :: 0 <= i < |input.targets| ==>
                 var t := input.targets[i];
                 (t.text in r.port.affected <==>
                   !input.answers[i].reachable || (t.text in s.port.affected && t.marker !in s.port.files))
  {
    var targets, answers := input.targets, input.answers;
    FirstAffected(input.cfg, s.port, targets, answers);
    FinishReports(s, input, true);
    forall i | 0 <= i < |targets|
      ensures targets[i].marker in ScanAll(input.cfg, s.port, targets[..i], answers[..i], true).files
              <==> targets[i].marker in s.port.files
    {
      MarkerUntouched(input.cfg, s.port, targets[..i], answers[..i], true, targets[i].marker);
    }
  }

  // ----- the mails and posts of one target

  /** The target has just become unreachable. */
  predicate Down(st: Port, t: Target, a: Answers) {
    !a.reachable && t.text !in st.affected
  }

  /** It was listed with a marker file and is reached again. */
  predicate Back(st: Port, t: Target, a: Answers) {
    a.reachable && t.text in st.affected && t.marker in st.files
  }

  function When(made: bool, e: Event): seq<Event> {
    if made then [e] else []
  }

  /** What is mailed and posted, from the list, the mails so far and the fingerprint file. */
  function Events(cfg: Config, st: Port, t: Target, a: Answers): seq<Event> {
    var down, back, pending := Down(st, t, a), Back(st, t, a), Pending(st.log, t.marker);
    When(down && cfg.mailOn && a.writeOk && !pending, AlertMail(t.marker, a.mailOk))
    + When(down && cfg.notify && FileText(st.files, t.ext) == "",
           Posted(t.ext, false, a.random, F.Accepted(a.reply)))
    + When(back && cfg.mailOn && pending, RecoveryMail(t.marker, a.mailOk))
    + When(back && cfg.notify && st.notified && pending && !(cfg.mailOn && a.mailOk),
           Posted(t.marker, true, "sent", F.Accepted(a.reply)))
  }

  lemma DownEvents(cfg: Config, st: Port, ts: set<Target>, t: Target, a: Answers)
    requires Good(st, ts) && t in ts && Separate(ts) && Down(st, t, a)
    ensures Failed(cfg, st, t, a).log == st.log + Events(cfg, st, t, a)
  {
    assert Pending(st.log, t.marker) <==> HoldsSent(st.files, t.marker);
    assert t.marker != t.ext;
  }

  lemma BackEvents(cfg: Config, st: Port, ts: set<Target>, t: Target, a: Answers)
    requires Good(st, ts) && t in ts && Back(st, t, a)
    ensures Recovered(cfg, st, t, a).log == st.log + Events(cfg, st, t, a)
  {
    assert Pending(st.log, t.marker) <==> HoldsSent(st.files, t.marker);
    assert FileText(st.files, t.marker) in {"", "sent"};
  }

  /** Handling a target in any reachable state: an alert is mailed iff it has just become
      unreachable, mail is on and none is pending, a firing post is made iff no fingerprint
      is stored, a recovery mail iff an alert is pending, a resolved post iff moreover that
      mail is not sent. */
  lemma TargetEvents(cfg: Config, st: Port, ts: set<Target>, t: Target, a: Answers, first: bool)
    requires Good(st, ts) && t in ts && Separate(ts)
    ensures ScanTarget(cfg, st, t, a, first).log == st.log + Events(cfg, st, t, a)
  {
    if Down(st, t, a) { DownEvents(cfg, st, ts, t, a); } else if Back(st, t, a) { BackEvents(cfg, st, ts, t, a); }
  }

  predicate Numbered(id: string) {
    id != "" && id != "[Pending]"
  }

  /** What handling a target makes of the incident `id` and of the target's fingerprint
      file. */
  ghost predicate Noted(st: Port, t: Target, a: Answers, r: Port, id: string) {
    var down, back := Down(st, t, a), Back(st, t, a);
    && (id in r.incidents <==>
          if id == a.incident && down then Numbered(id) || id in st.incidents
          else id in st.incidents && !(id == a.incident && back && st.notified))
    && r.notified == (st.notified || down)
    && FileText(r.files, t.ext) ==
         if back then ""
         else if down && FileText(st.files, t.ext) == "" && F.Accepted(a.reply) then a.random
         else FileText(st.files, t.ext)
  }

  lemma DownNoted(cfg: Config, st: Port, t: Target, a: Answers, id: string)
    requires t.marker != t.ext && cfg.notify && Down(st, t, a)
    ensures Noted(st, t, a, Failed(cfg, st, t, a), id)
  {
    var s1 := st.(affected := st.affected + [t.text]);
    var s2 := if cfg.mailOn then SendAlert(s1, t.marker, a) else s1;
    assert FileText(s2.files, t.ext) == FileText(st.files, t.ext);
    assert s2.incidents == st.incidents && s2.notified == st.notified;
  }

  lemma BackNoted(cfg: Config, st: Port, t: Target, a: Answers, id: string)
    requires NoDup(st.incidents) && cfg.notify && Back(st, t, a)
    ensures Noted(st, t, a, Recovered(cfg, st, t, a), id)
  {
    ApplyMembers(st.incidents, Drop(a.incident));
    var s1 := MailRecovered(cfg, st, t, a);
    assert s1.incidents == st.incidents && s1.notified == st.notified;
    var s2 := NotifyRecovered(cfg, s1, t, a);
    assert s2.incidents == if st.notified then DropIncident(st.incidents, a.incident) else st.incidents;
  }

  /** A new failure that is notified brings in its numbered incident, a recovery takes its
      incident out, and the fingerprint file holds the text of an accepted firing post until
      the target is back. */
  lemma TargetIncidents(cfg: Config, st: Port, t: Target, a: Answers, first: bool, id: string)
    requires NoDup(st.incidents) && t.marker != t.ext && cfg.notify
    ensures Noted(st, t, a, ScanTarget(cfg, st, t, a, first), id)
  {
    if Down(st, t, a) { DownNoted(cfg, st, t, a, id); } else if Back(st, t, a) { BackNoted(cfg, st, t, a, id); }
  }

  /** Without notifications nothing of that changes. */
  lemma QuietTarget(cfg: Config, st: Port, t: Target, a: Answers, first: bool)
    requires !cfg.notify
    ensures var r := ScanTarget(cfg, st, t, a, first);
            r.incidents == st.incidents && r.notified == st.notified
            && forall e :: e in r.log && e.Posted? ==> e in st.log
  {
  }
}
