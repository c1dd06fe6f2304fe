/** What a MetallbScan does to `IncidentID`: the numbers of the failures it newly lists
    come in, those of the failures it clears go, and all others stay. */
module MetallbIncidents {
  import opened StatusLists
  import opened FailureMessages
  import opened CleanupOrders
  import opened MetallbPhases
  import opened MetallbScan
  import opened MetallbRuns
  import opened MetallbOutcome
  import opened MetallbVerdicts

  // ----- operations that agree

  /** A failure with that number is listed now and was not before. */
  ghost predicate Brought(before: seq<string>, after: seq<string>, incident: string -> string, id: string) {
    exists k :: k !in before && k in after && incident(k) == id
  }

  /** A failure with that number was listed before and is not now. */
  ghost predicate Taken(before: seq<string>, after: seq<string>, incident: string -> string, id: string) {
    exists k :: k in before && k !in after && incident(k) == id
  }

  /** The number is listed afterwards iff it was brought in, or was listed and not taken
      out. */
  ghost predicate Follows(id: string, before: seq<string>, after: seq<string>, brought: bool, taken: bool) {
    id in after <==> (brought && Numbered(id)) || (id in before && !taken)
  }

  /** Agreeing operations change a message at most once. */
  lemma ChangedOnce(s: seq<string>, ops: seq<Op<string>>, last: Op<string>, k: string)
    requires NoDup(s) && Agree(ops + [last])
    ensures var mid, end := Run(s, ops), Run(s, ops + [last]);
            && ((k in s) != (k in mid) ==> (k in mid) == (k in end))
            && (k != last.key ==> (k in mid) == (k in end))
            && (last.key in end <==> last.Add?)
  {
    var all := ops + [last];
    assert all[..|ops|] == ops && last in all;
    assert forall op :: op in ops ==> op in all;
    RunNoDup(s, ops);
    ApplyMembers(Run(s, ops), last);
    RunMembership(s, ops, k);
    LastOpSound(ops, k);
  }

  lemma Composed(s: seq<string>, mid: seq<string>, end: seq<string>, incident: string -> string, id: string)
    requires forall k :: (k in s) != (k in mid) ==> (k in mid) == (k in end)
    ensures Brought(s, end, incident, id) <==> Brought(s, mid, incident, id) || Brought(mid, end, incident, id)
    ensures Taken(s, end, incident, id) <==> Taken(s, mid, incident, id) || Taken(mid, end, incident, id)
  {
  }

  lemma TouchFollows(l: Lists, op: Op<string>, incident: string -> string, id: string)
    requires Clean(l)
    ensures var m := Touch(l, op, true, incident);
            Follows(id, l.incidents, m.incidents, Brought(l.failed, m.failed, incident, id),
                    Taken(l.failed, m.failed, incident, id))
  {
    var m := Touch(l, op, true, incident);
    ApplyMembers(l.failed, op);
    IncidentFollows(l, op, true, incident, id);
    assert forall k :: k != op.key ==> (k in l.failed <==> k in m.failed);
    assert m.failed != l.failed ==> (op.key in l.failed) != (op.key in m.failed);
  }

  /** Operations that agree bring in the numbers of what they newly list and take out those
      of what they clear, unless one number is both. */
  lemma {:induction false} AgreeingFollow(l: Lists, ops: seq<Op<string>>, incident: string -> string, id: string)
    requires Clean(l) && Agree(ops)
    ensures var m := TouchAll(l, ops, true, incident);
            var brought, taken := Brought(l.failed, m.failed, incident, id), Taken(l.failed, m.failed, incident, id);
            !(brought && taken) ==> Follows(id, l.incidents, m.incidents, brought, taken)
  {
    if ops != [] {
      var front, last := ops[..|ops| - 1], ops[|ops| - 1];
      var mid := TouchAll(l, front, true, incident);
      assert ops == front + [last];
      assert forall op :: op in front ==> op in ops;
      AgreeingFollow(l, front, incident, id);
      TouchAllClean(l, front, true, incident);
      TouchAllFailed(l, front, true, incident);
      TouchAllFailed(l, ops, true, incident);
      TouchFollows(mid, last, incident, id);
      var m := TouchAll(l, ops, true, incident);
      forall k | (k in l.failed) != (k in mid.failed) ensures (k in mid.failed) == (k in m.failed) {
        ChangedOnce(l.failed, front, last, k);
      }
      Composed(l.failed, mid.failed, m.failed, incident, id);
    }
  }

  lemma {:induction false} QuietOps(l: Lists, ops: seq<Op<string>>, incident: string -> string)
    ensures TouchAll(l, ops, false, incident).incidents == l.incidents
  {
    if ops != [] { QuietOps(l, ops[..|ops| - 1], incident); }
  }

  // ----- a phase, in every execution order

  /** Whatever the order of agreeing bodies: with notifications on, a number is listed
      afterwards iff a failure that has it is newly listed and it is a number, or it was
      listed and no failure that has it is cleared; with notifications off nothing changes.
      Numbers shared by a failure that is recorded and one that is cleared are set apart. */
  lemma PhaseIncidents(l: Lists, order: seq<Body>, bodies: seq<Body>, cfg: Config, first: bool, id: string)
    requires Clean(l) && IsSchedule(order, bodies) && WellNamedBodies(bodies, first) && BodiesAgree(bodies, first)
    ensures var m := Perform(l, Bodies(order), cfg, first).lists;
            var brought, taken := Brought(l.failed, m.failed, cfg.incident, id),
                                  Taken(l.failed, m.failed, cfg.incident, id);
            && (cfg.notify && !(brought && taken) ==> Follows(id, l.incidents, m.incidents, brought, taken))
            && (!cfg.notify ==> m.incidents == l.incidents)
  {
    SameSays(Bodies(order), Bodies(bodies), McpUpdating, cfg, first);
    AgreeOnMessages(order, first);
    if cfg.notify { AgreeingFollow(l, PhaseOps(order, first), cfg.incident, id); }
    else { QuietOps(l, PhaseOps(order, first), cfg.incident); }
  }

  // ----- numbers shared by a new failure and a cleared one

  /** Bodies of one operation each, as those of the pools are. */
  predicate OneOp(b: Body, first: bool) {
    |BodyOps(b, first)| == 1
  }

  function OpOf(b: Body, first: bool): Op<string> {
    var ops := BodyOps(b, first);
    if ops == [] then Drop("") else RenderOp(ops[0])
  }

  function KeyOf(first: bool): Body -> string {
    b => OpOf(b, first).key
  }

  lemma PhaseSnoc(front: seq<Body>, b: Body, first: bool)
    ensures PhaseOps(front + [b], first) == PhaseOps(front, first) + RenderOps(BodyOps(b, first))
  {
    var lists := TextLists(front + [b], first);
    assert lists[..|front|] == TextLists(front, first) && lists[|front|] == RenderOps(BodyOps(b, first));
  }

  lemma OnesSnoc(front: seq<Body>, b: Body, first: bool)
    requires OneOp(b, first)
    ensures PhaseOps(front + [b], first) == PhaseOps(front, first) + [OpOf(b, first)]
  {
    PhaseSnoc(front, b, first);
    assert RenderOps(BodyOps(b, first)) == [OpOf(b, first)];
  }

  lemma {:induction false} PhaseOfOnes(bodies: seq<Body>, first: bool)
    requires forall b :: b in bodies ==> OneOp(b, first)
    ensures |PhaseOps(bodies, first)| == |bodies|
    ensures forall i :: 0 <= i < |bodies| ==> PhaseOps(bodies, first)[i] == OpOf(bodies[i], first)
  {
    if bodies != [] {
      var front, b := bodies[..|bodies| - 1], bodies[|bodies| - 1];
      assert bodies == front + [b];
      PhaseOfOnes(front, first);
      OnesSnoc(front, b, first);
    }
  }

  /** No two of the bodies are about the same failure. */
  ghost predicate Apart(bodies: seq<Body>, first: bool) {
    (forall b :: b in bodies ==> OneOp(b, first)) && NoDup(Texts(bodies, KeyOf(first)))
  }

  lemma ApartOrder(order: seq<Body>, bodies: seq<Body>, first: bool)
    requires IsSchedule(order, bodies) && Apart(bodies, first)
    ensures Apart(order, first)
  {
    forall b | b in order ensures OneOp(b, first) { ScheduleMembers(order, bodies, b); }
    TextsRearranged(order, bodies, KeyOf(first));
    NoDupRearranged(Texts(order, KeyOf(first)), Texts(bodies, KeyOf(first)));
  }

  lemma ApartKeys(bodies: seq<Body>, first: bool)
    requires Apart(bodies, first)
    ensures OncePerKey(PhaseOps(bodies, first)) && |PhaseOps(bodies, first)| == |bodies|
  {
    var ops := PhaseOps(bodies, first);
    PhaseOfOnes(bodies, first);
    forall i, j | 0 <= i < j < |ops| ensures ops[i].key != ops[j].key {
      assert Texts(bodies, KeyOf(first))[i] != Texts(bodies, KeyOf(first))[j];
    }
  }

  lemma ApartAgree(bodies: seq<Body>, first: bool)
    requires Apart(bodies, first)
    ensures Agree(PhaseOps(bodies, first))
  {
    ApartKeys(bodies, first);
  }

  /** A body records a failure with that number that is not listed. */
  ghost predicate Recording(s: seq<string>, bodies: seq<Body>, first: bool, incident: string -> string, id: string) {
    exists b :: b in bodies && OpOf(b, first).Add? && OpOf(b, first).key !in s && incident(OpOf(b, first).key) == id
  }

  /** A body clears a failure with that number that is listed. */
  ghost predicate Clearing(s: seq<string>, bodies: seq<Body>, first: bool, incident: string -> string, id: string) {
    exists b :: b in bodies && OpOf(b, first).Drop? && OpOf(b, first).key in s && incident(OpOf(b, first).key) == id
  }

  lemma OpsOfOnes(bodies: seq<Body>, first: bool, op: Op<string>)
    requires forall b :: b in bodies ==> OneOp(b, first)
    ensures op in PhaseOps(bodies, first) <==> exists b :: b in bodies && OpOf(b, first) == op
  {
    PhaseOfOnes(bodies, first);
    if op in PhaseOps(bodies, first) {
      var i :| 0 <= i < |bodies| && PhaseOps(bodies, first)[i] == op;
      assert bodies[i] in bodies;
    }
    if b :| b in bodies && OpOf(b, first) == op {
      var i :| 0 <= i < |bodies| && bodies[i] == b;
      assert PhaseOps(bodies, first)[i] == op;
    }
  }

  lemma ApartChanges(s: seq<string>, bodies: seq<Body>, first: bool, incident: string -> string, id: string)
    requires NoDup(s) && Apart(bodies, first)
    ensures var m := Run(s, PhaseOps(bodies, first));
            && (Brought(s, m, incident, id) <==> Recording(s, bodies, first, incident, id))
            && (Taken(s, m, incident, id) <==> Clearing(s, bodies, first, incident, id))
  {
    var ops := PhaseOps(bodies, first);
    ApartAgree(bodies, first);
    forall k ensures k in Run(s, ops) <==> Add(k) in ops || (k in s && Drop(k) !in ops) {
      RunMembership(s, ops, k);
      LastOpSound(ops, k);
    }
    forall op ensures op in ops <==> exists b :: b in bodies && OpOf(b, first) == op { OpsOfOnes(bodies, first, op); }
    forall k | Add(k) in ops ensures exists b :: b in bodies && OpOf(b, first).Add? && OpOf(b, first).key == k {}
    forall k | Drop(k) in ops ensures exists b :: b in bodies && OpOf(b, first).Drop? && OpOf(b, first).key == k {}
  }

  /** An operation whose failure no earlier one names finds that failure as it was. */
  lemma LastOpNumber(l: Lists, ops: seq<Op<string>>, op: Op<string>, incident: string -> string)
    requires Clean(l) && Numbered(incident(op.key)) && (op.Add? <==> op.key !in l.failed)
    requires forall other :: other in ops ==> other.key != op.key
    ensures incident(op.key) in Touch(TouchAll(l, ops, true, incident), op, true, incident).incidents <==> op.Add?
  {
    var mid := TouchAll(l, ops, true, incident);
    TouchAllFailed(l, ops, true, incident);
    TouchAllClean(l, ops, true, incident);
    RunMembership(l.failed, ops, op.key);
    LastOpSound(ops, op.key);
    IncidentFollows(mid, op, true, incident, incident(op.key));
    ApplyMembers(mid.failed, op);
  }

  lemma LastIs(order: seq<Body>, first: bool) returns (ops: seq<Op<string>>)
    requires order != [] && Apart(order, first)
    ensures PhaseOps(order, first) == ops + [OpOf(order[|order| - 1], first)]
    ensures forall other :: other in ops ==> other.key != OpOf(order[|order| - 1], first).key
  {
    PhaseOfOnes(order, first);
    ApartKeys(order, first);
    ops := PhaseOps(order, first)[..|order| - 1];
    SplitLast(PhaseOps(order, first), OpOf(order[|order| - 1], first));
  }

  lemma SplitLast(all: seq<Op<string>>, op: Op<string>)
    requires all != [] && all[|all| - 1] == op && OncePerKey(all)
    ensures all == all[..|all| - 1] + [op] && forall other :: other in all[..|all| - 1] ==> other.key != op.key
  {
  }

  /** The body that runs last has the last word about its number. */
  lemma LastHasIt(l: Lists, order: seq<Body>, ops: seq<Op<string>>, op: Op<string>, cfg: Config, first: bool)
    requires Clean(l) && cfg.notify && PhaseOps(order, first) == ops + [op]
    requires Numbered(cfg.incident(op.key)) && (op.Add? <==> op.key !in l.failed)
    requires forall other :: other in ops ==> other.key != op.key
    ensures cfg.incident(op.key) in Perform(l, Bodies(order), cfg, first).lists.incidents <==> op.Add?
  {
    assert (ops + [op])[..|ops|] == ops;
    LastOpNumber(l, ops, op, cfg.incident);
  }

  ghost predicate NumberOrderFree(l: Lists, bodies: seq<Body>, cfg: Config, first: bool, id: string) {
    forall a, b :: IsSchedule(a, bodies) && IsSchedule(b, bodies) ==>
      (id in Perform(l, Bodies(a), cfg, first).lists.incidents <==>
        id in Perform(l, Bodies(b), cfg, first).lists.incidents)
  }

  lemma ApartFollow(l: Lists, order: seq<Body>, bodies: seq<Body>, cfg: Config, first: bool, id: string)
    requires Clean(l) && cfg.notify && Apart(bodies, first) && IsSchedule(order, bodies)
    ensures var recording, clearing := Recording(l.failed, bodies, first, cfg.incident, id),
                                       Clearing(l.failed, bodies, first, cfg.incident, id);
            !(recording && clearing) ==>
              Follows(id, l.incidents, Perform(l, Bodies(order), cfg, first).lists.incidents, recording, clearing)
  {
    ApartOrder(order, bodies, first);
    ApartAgree(order, first);
    forall b ensures b in order <==> b in bodies { ScheduleMembers(order, bodies, b); }
    AgreeingFollow(l, PhaseOps(order, first), cfg.incident, id);
    TouchAllFailed(l, PhaseOps(order, first), true, cfg.incident);
    ApartChanges(l.failed, order, first, cfg.incident, id);
  }

  /** Among bodies about different failures the schedule decides whether a number is listed
      afterwards if and only if one of them records a new failure that has it and another
      clears a listed failure that has it. */
  lemma NumberOrderFreeIff(l: Lists, bodies: seq<Body>, cfg: Config, first: bool, id: string)
    requires Clean(l) && cfg.notify && Numbered(id) && Apart(bodies, first)
    ensures NumberOrderFree(l, bodies, cfg, first, id) <==>
              !(Recording(l.failed, bodies, first, cfg.incident, id)
                && Clearing(l.failed, bodies, first, cfg.incident, id))
  {
    if Recording(l.failed, bodies, first, cfg.incident, id) && Clearing(l.failed, bodies, first, cfg.incident, id) {
      var x :| x in bodies && OpOf(x, first).Add? && OpOf(x, first).key !in l.failed
               && cfg.incident(OpOf(x, first).key) == id;
      var y :| y in bodies && OpOf(y, first).Drop? && OpOf(y, first).key in l.failed
               && cfg.incident(OpOf(y, first).key) == id;
      var a := RunsLast(bodies, x);
      var b := RunsLast(bodies, y);
      ApartOrder(a, bodies, first);
      ApartOrder(b, bodies, first);
      var before := LastIs(a, first);
      LastHasIt(l, a, before, OpOf(x, first), cfg, first);
      before := LastIs(b, first);
      LastHasIt(l, b, before, OpOf(y, first), cfg, first);
    } else {
      forall a, b | IsSchedule(a, bodies) && IsSchedule(b, bodies)
        ensures id in Perform(l, Bodies(a), cfg, first).lists.incidents <==>
                  id in Perform(l, Bodies(b), cfg, first).lists.incidents {
        ApartFollow(l, a, bodies, cfg, first, id);
        ApartFollow(l, b, bodies, cfg, first, id);
      }
    }
  }

  lemma RunsLast(bodies: seq<Body>, x: Body) returns (order: seq<Body>)
    requires x in bodies
    ensures IsSchedule(order, bodies) && order != [] && order[|order| - 1] == x
  {
    var i :| 0 <= i < |bodies| && bodies[i] == x;
    order := bodies[..i] + bodies[i + 1..] + [x];
    assert bodies == bodies[..i] + [x] + bodies[i + 1..];
  }

  // ----- a whole scan

  /** Failures that are notified: not the update marker, and not those of the walks over
      the nodes. */
  predicate Notified(f: Failure) {
    !f.McpUpdating? && !WalkKind(f)
  }

  ghost predicate NotifiedText(k: string) {
    exists f: Failure :: f.WellNamed() && Notified(f) && f.Render() == k
  }

  ghost predicate NewlyListed(before: seq<string>, after: seq<string>, incident: string -> string, id: string) {
    exists f: Failure :: f.WellNamed() && Notified(f) && f.Render() !in before && f.Render() in after
      && incident(f.Render()) == id
  }

  ghost predicate Cleared(before: seq<string>, after: seq<string>, incident: string -> string, id: string) {
    exists f: Failure :: f.WellNamed() && Notified(f) && f.Render() in before && f.Render() !in after
      && incident(f.Render()) == id
  }

  /** The rule of this module for what happened between two moments of a scan. */
  ghost predicate IncidentsFollow(l: Lists, m: Lists, incident: string -> string, id: string) {
    var brought, taken := NewlyListed(l.failed, m.failed, incident, id), Cleared(l.failed, m.failed, incident, id);
    !(brought && taken) ==> Follows(id, l.incidents, m.incidents, brought, taken)
  }

  /** When only notified failures change. */
  lemma OnlyNotified(before: seq<string>, after: seq<string>, incident: string -> string, id: string)
    requires forall k :: (k in before) != (k in after) ==> NotifiedText(k)
    ensures NewlyListed(before, after, incident, id) <==> Brought(before, after, incident, id)
    ensures Cleared(before, after, incident, id) <==> Taken(before, after, incident, id)
  {
  }

  lemma BodyNotified(b: Body, first: bool, op: Op<Failure>)
    requires op in BodyOps(b, first)
    ensures Notified(op.key)
  {
    BodyKeys(b, first, op);
  }

  lemma PhaseChanges(s: seq<string>, bodies: seq<Body>, first: bool, k: string)
    requires NoDup(s) && WellNamedBodies(bodies, first) && (k in s) != (k in Run(s, PhaseOps(bodies, first)))
    ensures NotifiedText(k)
  {
    var ops := PhaseOps(bodies, first);
    RunMembership(s, ops, k);
    LastOpSound(ops, k);
    var op := LastOp(ops, k).value;
    PhaseKey(bodies, first, op);
    var b, f :| b in bodies && f in BodyOps(b, first) && op == RenderOp(f);
    BodyNotified(b, first, f);
    assert f.key.WellNamed() && f.key.Render() == k;
  }

  lemma BodiesFollow(l: Lists, bodies: seq<Body>, cfg: Config, first: bool, id: string)
    requires Clean(l) && WellNamedBodies(bodies, first) && BodiesAgree(bodies, first) && cfg.notify
    ensures IncidentsFollow(l, Perform(l, Bodies(bodies), cfg, first).lists, cfg.incident, id)
  {
    var m := Perform(l, Bodies(bodies), cfg, first).lists;
    PhaseIncidents(l, bodies, bodies, cfg, first, id);
    TouchAllFailed(l, PhaseOps(bodies, first), cfg.notify, cfg.incident);
    forall k | (k in l.failed) != (k in m.failed) ensures NotifiedText(k) { PhaseChanges(l.failed, bodies, first, k); }
    OnlyNotified(l.failed, m.failed, cfg.incident, id);
  }

  lemma NoIpsAgree(noIp: seq<SvcRef>)
    ensures Agree(RenderOps(NoIpOps(noIp)))
  {
    assert forall op :: op in RenderOps(NoIpOps(noIp)) ==> op.Add?;
  }

  lemma NoIpChanges(s: seq<string>, noIp: seq<SvcRef>, k: string)
    requires NoDup(s) && WellNamedOps(NoIpOps(noIp)) && (k in s) != (k in Run(s, RenderOps(NoIpOps(noIp))))
    ensures NotifiedText(k)
  {
    var ops := RenderOps(NoIpOps(noIp));
    RunMembership(s, ops, k);
    LastOpSound(ops, k);
    var i :| 0 <= i < |ops| && ops[i] == LastOp(ops, k).value;
    NoIpNotified(noIp, i);
  }

  lemma NoIpNotified(noIp: seq<SvcRef>, i: nat)
    requires i < |noIp| && WellNamedOps(NoIpOps(noIp))
    ensures NotifiedText(RenderOps(NoIpOps(noIp))[i].key)
  {
    var f := NoIpOps(noIp)[i].key;
    assert NoIpOps(noIp)[i] in NoIpOps(noIp);
    assert f.WellNamed() && Notified(f) && f.Render() == RenderOps(NoIpOps(noIp))[i].key;
  }

  lemma NoIpsFollow(l: Lists, noIp: seq<SvcRef>, cfg: Config, first: bool, id: string)
    requires Clean(l) && WellNamedOps(NoIpOps(noIp)) && cfg.notify
    ensures IncidentsFollow(l, Perform(l, Loop(NoIpOps(noIp), true), cfg, first).lists, cfg.incident, id)
  {
    var ops := RenderOps(NoIpOps(noIp));
    var m := TouchAll(l, ops, true, cfg.incident);
    NoIpsAgree(noIp);
    AgreeingFollow(l, ops, cfg.incident, id);
    TouchAllFailed(l, ops, true, cfg.incident);
    forall k | (k in l.failed) != (k in m.failed) ensures NotifiedText(k) { NoIpChanges(l.failed, noIp, k); }
    OnlyNotified(l.failed, m.failed, cfg.incident, id);
  }

  /** Steps that notify nobody leave the numbers alone. */
  lemma {:induction false} NeighborsQuiet(l: Lists, steps: seq<NeighborStep>, metalNs: string)
    ensures NeighborEffects(l, steps, metalNs).incidents == l.incidents
  {
    if steps != [] { NeighborsQuiet(l, steps[..|steps| - 1], metalNs); }
  }

  predicate Notifies(step: ScanStep) {
    step.Bodies? || (step.Loop? && step.notify)
  }

  lemma QuietStep(l: Lists, step: ScanStep, cfg: Config, first: bool)
    requires !Notifies(step) || !cfg.notify
    ensures Perform(l, step, cfg, first).lists.incidents == l.incidents
  {
    match step
    case Gate(updating) => QuietOps(l, RenderOps(GateOps(updating, first)), cfg.incident);
    case Bodies(bodies) => QuietOps(l, PhaseOps(bodies, first), cfg.incident);
    case Loop(ops, _) => QuietOps(l, RenderOps(ops), cfg.incident);
    case Neighbors(steps, _) => NeighborsQuiet(l, steps, cfg.metalNs);
    case _ =>
  }

  /** With notifications off no scan changes `IncidentID`, however far it gets. */
  lemma {:induction false} SilentScan(l: Lists, run: seq<ScanStep>, cfg: Config, first: bool)
    requires !cfg.notify
    ensures RunSteps(l, run, cfg, first).lists.incidents == l.incidents
  {
    if run != [] {
      var st := RunSteps(l, run[..|run| - 1], cfg, first);
      SilentScan(l, run[..|run| - 1], cfg, first);
      if st.Going? { QuietStep(st.lists, run[|run| - 1], cfg, first); }
    }
  }

  lemma OwnNotifies(f: Failure, o: Observation, cfg: Config, first: bool)
    requires Notified(f)
    ensures OwnStep(f, o) && Notifies(StepOf(f, o, cfg, first))
  {
  }

  /** A step that notifies nobody says nothing about a notified failure. */
  lemma QuietSays(o: Observation, cfg: Config, first: bool, step: ScanStep, f: Failure)
    requires step in ScanSteps(o, cfg, first) && Orderly(step, cfg, first) && !Notifies(step) && Notified(f)
    ensures Says(step, f, cfg, first).None?
  {
    OwnNotifies(f, o, cfg, first);
    if Says(step, f, cfg, first).Some? {
      OwnStepOnly(o, cfg, first, step, f);
      assert false;
    }
  }

  lemma QuietFollows(l: Lists, o: Observation, cfg: Config, first: bool, step: ScanStep, id: string)
    requires Clean(l) && step in ScanSteps(o, cfg, first) && Orderly(step, cfg, first) && !Notifies(step)
    ensures IncidentsFollow(l, Perform(l, step, cfg, first).lists, cfg.incident, id)
  {
    var m := Perform(l, step, cfg, first).lists;
    QuietStep(l, step, cfg, first);
    forall f: Failure | f.WellNamed() && Notified(f) ensures f.Render() in l.failed <==> f.Render() in m.failed {
      QuietSays(o, cfg, first, step, f);
      StepTells(l, step, cfg, first, f);
    }
    assert !NewlyListed(l.failed, m.failed, cfg.incident, id) && !Cleared(l.failed, m.failed, cfg.incident, id);
  }

  lemma StepFollows(l: Lists, o: Observation, cfg: Config, first: bool, a: ScanStep, b: ScanStep, id: string)
    requires Clean(l) && b in ScanSteps(o, cfg, first) && SameStep(a, b) && Orderly(b, cfg, first) && cfg.notify
    ensures IncidentsFollow(l, Perform(l, a, cfg, first).lists, cfg.incident, id)
  {
    SameSays(a, b, McpUpdating, cfg, first);
    if a.Bodies? {
      BodiesFollow(l, a.bodies, cfg, first, id);
    } else if Notifies(a) {
      LoopOfScan(o, cfg, first, b);
      NoIpsFollow(l, o.noIp, cfg, first, id);
    } else {
      QuietFollows(l, o, cfg, first, b, id);
    }
  }

  /** A notified failure changes in at most one step of a scan. */
  lemma NotedOnce(l: Lists, run: seq<ScanStep>, o: Observation, cfg: Config, first: bool, n: nat, f: Failure)
    requires Clean(l) && n < |PlainSteps(o, cfg, first)| && OrderlySteps(PlainSteps(o, cfg, first), cfg, first)
    requires Scheduled(run, PlainSteps(o, cfg, first)[..n + 1]) && RunSteps(l, run[..n], cfg, first).Going?
    requires f.WellNamed() && Notified(f)
    ensures var mid := RunSteps(l, run[..n], cfg, first).lists;
            var m := Perform(mid, run[n], cfg, first).lists;
            (f.Render() in l.failed) != (f.Render() in mid.failed) ==>
              (f.Render() in mid.failed) == (f.Render() in m.failed)
  {
    var steps, own := PlainSteps(o, cfg, first), StepOf(f, o, cfg, first);
    assert Scheduled(run[..n], steps[..n]) && SameStep(run[n], steps[n]) && steps[n] in steps;
    OwnNotifies(f, o, cfg, first);
    PrefixSays(o, cfg, first, n, f);
    ScheduleSays(run[..n], steps[..n], f, cfg, first);
    RunTells(l, run[..n], cfg, first, f);
    RunStepsClean(l, run[..n], cfg, first);
    SameSays(run[n], steps[n], f, cfg, first);
    StepTells(RunSteps(l, run[..n], cfg, first).lists, run[n], cfg, first, f);
    if Says(steps[n], f, cfg, first).Some? {
      ScanEnd(o, cfg, first);
      OwnStepOnly(o, cfg, first, steps[n], f);
    }
  }

  lemma ComposedNoted(s: seq<string>, mid: seq<string>, end: seq<string>, incident: string -> string, id: string)
    requires forall f: Failure {:trigger f.Render()} :: f.WellNamed() && Notified(f) ==>
               (f.Render() in s) != (f.Render() in mid) ==> (f.Render() in mid) == (f.Render() in end)
    ensures NewlyListed(s, end, incident, id) <==>
              NewlyListed(s, mid, incident, id) || NewlyListed(mid, end, incident, id)
    ensures Cleared(s, end, incident, id) <==> Cleared(s, mid, incident, id) || Cleared(mid, end, incident, id)
  {
  }

  lemma ThenFollows(l: Lists, mid: Lists, m: Lists, incident: string -> string, id: string)
    requires Clean(l) && IncidentsFollow(l, mid, incident, id) && IncidentsFollow(mid, m, incident, id)
    requires forall f: Failure {:trigger f.Render()} :: f.WellNamed() && Notified(f) ==>
               (f.Render() in l.failed) != (f.Render() in mid.failed) ==>
                 (f.Render() in mid.failed) == (f.Render() in m.failed)
    ensures IncidentsFollow(l, m, incident, id)
  {
    ComposedNoted(l.failed, mid.failed, m.failed, incident, id);
  }

  lemma NextFollows(l: Lists, run: seq<ScanStep>, o: Observation, cfg: Config, first: bool, n: nat, id: string)
    requires Clean(l) && n < |PlainSteps(o, cfg, first)| && OrderlySteps(PlainSteps(o, cfg, first), cfg, first)
    requires Scheduled(run, PlainSteps(o, cfg, first)[..n + 1]) && RunSteps(l, run[..n], cfg, first).Going?
    requires cfg.notify && IncidentsFollow(l, RunSteps(l, run[..n], cfg, first).lists, cfg.incident, id)
    ensures var mid := RunSteps(l, run[..n], cfg, first).lists;
            IncidentsFollow(l, Perform(mid, run[n], cfg, first).lists, cfg.incident, id)
  {
    var steps, mid := PlainSteps(o, cfg, first), RunSteps(l, run[..n], cfg, first).lists;
    var m := Perform(mid, run[n], cfg, first).lists;
    assert steps[n] in steps && SameStep(run[n], steps[..n + 1][n]);
    ScanEnd(o, cfg, first);
    RunStepsClean(l, run[..n], cfg, first);
    StepFollows(mid, o, cfg, first, run[n], steps[n], id);
    forall f: Failure | f.WellNamed() && Notified(f)
      ensures (f.Render() in l.failed) != (f.Render() in mid.failed) ==>
                (f.Render() in mid.failed) == (f.Render() in m.failed) {
      NotedOnce(l, run, o, cfg, first, n, f);
    }
    ThenFollows(l, mid, m, cfg.incident, id);
  }

  /** With notifications on, a scan that gets this far has brought in the numbers of the
      failures it has newly listed and taken out those of the failures it has cleared, and
      left all others, in every execution order. */
  lemma {:induction false} ScanIncidents(l: Lists, run: seq<ScanStep>, o: Observation, cfg: Config, first: bool,
                                         n: nat, id: string)
    requires Clean(l) && n <= |PlainSteps(o, cfg, first)| && OrderlySteps(PlainSteps(o, cfg, first), cfg, first)
    requires Scheduled(run, PlainSteps(o, cfg, first)[..n]) && RunSteps(l, run, cfg, first).Going? && cfg.notify
    ensures IncidentsFollow(l, RunSteps(l, run, cfg, first).lists, cfg.incident, id)
  {
    if n > 0 {
      PrefixScheduled(run, PlainSteps(o, cfg, first), n - 1);
      ScanIncidents(l, run[..n - 1], o, cfg, first, n - 1, id);
      NextFollows(l, run, o, cfg, first, n - 1, id);
    }
  }
}
