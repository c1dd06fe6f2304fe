/** The walk over the nodes of the endpoints that asks each speaker pod for the routes to
    the load balancer addresses. */
module RouteRecords {
  import opened StatusLists
  import H = HopScanners
  import opened MetallbPhases
  import opened MetallbScan

  /** A node of a service's endpoints: its first running speaker pod, and what that prints
      for `show ip bgp`, None when the output cannot be kept or read back. */
  datatype Visit = Visit(node: string, speaker: Option<string>, table: Option<string>)

  datatype Balanced = Balanced(name: string, ns: string, lbip: string, visits: seq<Visit>)

  /** The nodes probed, the records so far, and whether the walk has ended early. */
  datatype RouteWalk = RouteWalk(probes: seq<Probe>, routes: seq<MetallbPhases.Route>, over: bool, panicked: bool)

  const START := RouteWalk([], [], false, false)

  datatype Look = Look(svc: Balanced, visit: Visit)

  function LooksOf(s: Balanced, visits: seq<Visit>): (r: seq<Look>)
    ensures s.lbip != "" ==> |r| == |visits| && forall i :: 0 <= i < |r| ==> r[i] == Look(s, visits[i])
    ensures s.lbip == "" ==> r == []
  {
    if s.lbip == "" then [] else seq(|visits|, i requires 0 <= i < |visits| => Look(s, visits[i]))
  }

  /** Every service's nodes in order, for services that have an address. */
  function Looks(services: seq<Balanced>): seq<Look> {
    if services == [] then []
    else
      var s := services[|services| - 1];
      Looks(services[..|services| - 1]) + LooksOf(s, s.visits)
  }

  function RouteOf(l: Look, pod: string, r: H.RouteStatus): MetallbPhases.Route {
    MetallbPhases.Route.Route(l.svc.name, l.svc.ns, l.svc.lbip, pod, l.visit.node, r.advertised, r.validBest)
  }

  function Step(w: RouteWalk, l: Look): RouteWalk {
    if w.over then w
    else
      match l.visit.speaker
      case None => w.(probes := w.probes + [Probe(l.visit.node, false)])
      case Some(pod) =>
        var probes := w.probes + [Probe(l.visit.node, true)];
        match H.RouteIn(l.visit.table, l.svc.lbip)
        case ReadFailed => RouteWalk(probes, [], true, false)
        case Panicked => RouteWalk(probes, [], true, true)
        case Done(r) => RouteWalk(probes, w.routes + [RouteOf(l, pod, r)], false, false)
  }

  function WalkLooks(looks: seq<Look>): RouteWalk {
    if looks == [] then START else Step(WalkLooks(looks[..|looks| - 1]), looks[|looks| - 1])
  }

  lemma {:induction false} OverStays(a: seq<Look>, b: seq<Look>)
    requires WalkLooks(a).over
    ensures WalkLooks(a + b) == WalkLooks(a)
  {
    if b == [] {
      assert a + b == a;
    } else {
      assert (a + b)[..|a + b| - 1] == a + b[..|b| - 1];
      OverStays(a, b[..|b| - 1]);
    }
  }

  lemma WalkSnoc(a: seq<Look>, l: Look)
    ensures WalkLooks(a + [l]) == Step(WalkLooks(a), l)
  {
    assert (a + [l])[..|a|] == a;
  }

  method VisitNode(w: RouteWalk, l: Look) returns (r: RouteWalk)
    requires !w.over
    ensures r == Step(w, l)
  {
    if l.visit.speaker.None? {
      return w.(probes := w.probes + [Probe(l.visit.node, false)]);
    }
    var pod, probes := l.visit.speaker.value, w.probes + [Probe(l.visit.node, true)];
    var status := H.CheckLBIPRoute(l.visit.table, l.svc.lbip);
    if !status.Done? {
      return RouteWalk(probes, [], true, status.Panicked?);
    }
    var found := status.value;
    return RouteWalk(probes, w.routes + [RouteOf(l, pod, found)], false, false);
  }

  lemma NextLook(s: Balanced, before: seq<Look>, i: nat)
    requires i < |s.visits| && s.lbip != ""
    ensures var done, look := before + LooksOf(s, s.visits[..i]), Look(s, s.visits[i]);
            && before + LooksOf(s, s.visits[..i + 1]) == done + [look]
            && WalkLooks(before + LooksOf(s, s.visits[..i + 1])) == Step(WalkLooks(done), look)
  {
    var done, look := before + LooksOf(s, s.visits[..i]), Look(s, s.visits[i]);
    assert LooksOf(s, s.visits[..i + 1]) == LooksOf(s, s.visits[..i]) + [look];
    assert before + LooksOf(s, s.visits[..i + 1]) == done + [look];
    WalkSnoc(done, look);
  }

  lemma RestSkipped(s: Balanced, before: seq<Look>, i: nat)
    requires i <= |s.visits| && s.lbip != "" && WalkLooks(before + LooksOf(s, s.visits[..i])).over
    ensures WalkLooks(before + LooksOf(s, s.visits)) == WalkLooks(before + LooksOf(s, s.visits[..i]))
  {
    var done, all := LooksOf(s, s.visits[..i]), LooksOf(s, s.visits);
    assert before + all == (before + done) + all[i..];
    OverStays(before + done, all[i..]);
  }

  method VisitNodes(s: Balanced, ghost before: seq<Look>, walk: RouteWalk) returns (w: RouteWalk)
    requires walk == WalkLooks(before) && !walk.over && s.lbip != ""
    ensures w == WalkLooks(before + LooksOf(s, s.visits))
  {
    w := walk;
    assert before + LooksOf(s, []) == before;
    for i := 0 to |s.visits|
      invariant w == WalkLooks(before + LooksOf(s, s.visits[..i])) && !w.over
    {
      NextLook(s, before, i);
      w := VisitNode(w, Look(s, s.visits[i]));
      if w.over {
        RestSkipped(s, before, i + 1);
        return;
      }
    }
    assert s.visits[..|s.visits|] == s.visits;
  }

  /** GetBGPIPRoute; its calls on `FailedChecks` are those of the nodes probed. */
  method GetBGPIPRoute(services: seq<Balanced>) returns (w: RouteWalk)
    ensures w == WalkLooks(Looks(services))
  {
    w := START;
    for i := 0 to |services|
      invariant w == WalkLooks(Looks(services[..i])) && !w.over
    {
      var s := services[i];
      assert services[..i + 1][..i] == services[..i];
      assert Looks(services[..i + 1]) == Looks(services[..i]) + LooksOf(s, s.visits);
      if s.lbip != "" {
        w := VisitNodes(s, Looks(services[..i]), w);
        if w.over {
          LooksPrefix(services, i + 1);
          OverStays(Looks(services[..i + 1]), Looks(services)[|Looks(services[..i + 1])|..]);
          return;
        }
      } else {
        assert Looks(services[..i]) + [] == Looks(services[..i]);
      }
    }
    assert services[..|services|] == services;
  }

  lemma {:induction false} LooksPrefix(services: seq<Balanced>, i: nat)
    requires i <= |services|
    ensures var a, all := Looks(services[..i]), Looks(services); |a| <= |all| && all == a + all[|a|..]
  {
    if i < |services| {
      var front := services[..|services| - 1];
      assert front[..i] == services[..i];
      LooksPrefix(front, i);
    } else {
      assert services[..i] == services;
    }
  }

  // ----- what the records say

  ghost predicate Cuts(l: Look) {
    l.visit.speaker.Some? && !H.RouteIn(l.visit.table, l.svc.lbip).Done?
  }

  /** Some speaker of the look answers with this record. */
  ghost predicate Answers(l: Look, r: MetallbPhases.Route) {
    && l.visit.speaker == Some(r.pod) && r.svc == l.svc.name && r.ns == l.svc.ns && r.ip == l.svc.lbip
    && r.node == l.visit.node
    && H.RouteIn(l.visit.table, l.svc.lbip).Done?
    && H.RouteIn(l.visit.table, l.svc.lbip).value.advertised == r.advertised
    && H.RouteIn(l.visit.table, l.svc.lbip).value.validBest == r.validBest
  }

  lemma StepMeaning(w: RouteWalk, l: Look, r: MetallbPhases.Route)
    requires !w.over
    ensures Step(w, l).over <==> Cuts(l)
    ensures Step(w, l).over ==> Step(w, l).routes == []
    ensures !Step(w, l).over ==> (r in Step(w, l).routes <==> r in w.routes || Answers(l, r))
    ensures Step(w, l).probes == w.probes + [Probe(l.visit.node, l.visit.speaker.Some?)]
  {
  }

  /** A walk that is not cut short by output that cannot be read has a record for exactly
      what each running speaker answers, and has probed every node in order; one that is cut
      short has none. */
  lemma {:induction false} RoutesOfWalk(looks: seq<Look>, r: MetallbPhases.Route)
    ensures var w := WalkLooks(looks);
            && (w.over <==> exists l :: l in looks && Cuts(l))
            && (if w.over then w.routes == [] else (r in w.routes <==> exists l :: l in looks && Answers(l, r)))
            && |w.probes| <= |looks| && (!w.over ==> |w.probes| == |looks|)
            && forall i :: 0 <= i < |w.probes| ==>
                 w.probes[i] == Probe(looks[i].visit.node, looks[i].visit.speaker.Some?)
  {
    if looks != [] {
      var front, l := looks[..|looks| - 1], looks[|looks| - 1];
      assert looks == front + [l];
      RoutesOfWalk(front, r);
      if !WalkLooks(front).over { StepMeaning(WalkLooks(front), l, r); }
    }
  }
}
