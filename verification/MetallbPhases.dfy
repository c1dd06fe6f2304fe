/** The phases of a MetallbScan: every goroutine body adds or removes failures by
    their messages, and the bodies of a phase may run in any order. */
module MetallbPhases {
  import opened StatusLists
  import opened FailureMessages
  import opened BgpConfig

  datatype LbService = LbService(name: string, ns: string, running: seq<bool>, hasTargets: bool)

  datatype Hop = Hop(node: string, ip: string, valid: bool, established: string, bfd: string)

  datatype Route = Route(svc: string, ns: string, ip: string, pod: string, node: string, advertised: bool,
                         validBest: bool)

  /** One concurrently launched body. */
  datatype Body =
    | PeerBody(peer: Peer)
    | AdBody(ad: Ad)
    | DownBody(svcName: string, services: seq<LbService>)
    | MissingBody(svcName: string, services: seq<LbService>)
    | UpBody(svc: LbService)
    | TargetsBody(svc: LbService)
    | HopBody(hop: Hop, ignoreBfd: bool)
    | RouteBody(route: Route)

  /** Record a bad check; clear a good one, which a first scan does not do. */
  function Check(f: Failure, bad: bool, first: bool): seq<Op<Failure>> {
    if bad then [Add(f)] else if first then [] else [Drop(f)]
  }

  predicate Up(h: Hop) {
    h.established == "Established" || h.established == "Active"
  }

  predicate BfdBad(h: Hop) {
    h.bfd != "" && h.bfd != "Up"
  }

  /** "One of the target pods ..." for every service of that name. */
  function DownOps(name: string, services: seq<LbService>): seq<Op<Failure>> {
    if services == [] then []
    else
      var s := services[|services| - 1];
      DownOps(name, services[..|services| - 1]) + if s.name == name then [Add(PodNotRunning(s.name, s.ns))] else []
  }

  /** "... doesn't have any target pods" for every service of that name. */
  function MissingOps(name: string, services: seq<LbService>): seq<Op<Failure>> {
    if services == [] then []
    else
      var s := services[|services| - 1];
      MissingOps(name, services[..|services| - 1]) + if s.name == name then [Add(NoTargetPods(s.name, s.ns))] else []
  }

  /** A bad BFD session that is ignored is neither recorded nor cleared. */
  function BfdOps(h: Hop, ignoreBfd: bool, first: bool): seq<Op<Failure>> {
    if BfdBad(h) && ignoreBfd then [] else Check(BadBfd(h.ip, h.node), BfdBad(h), first)
  }

  function StateOps(h: Hop, first: bool): seq<Op<Failure>> {
    Check(NotEstablished(h.ip, h.node), !Up(h), first) + Check(NotValid(h.ip, h.node), !h.valid, first)
  }

  function RouteOps(r: Route, first: bool): seq<Op<Failure>> {
    Check(RouteNotAdvertised(r.svc, r.ip, r.pod, r.node), !r.advertised, first)
    + Check(RouteNotBest(r.svc, r.ip, r.ns, r.pod, r.node), !r.validBest, first)
  }

  function BodyOps(b: Body, first: bool): seq<Op<Failure>> {
    match b
    case PeerBody(p) => Check(NotInPool(p.name, p.ns), !p.conPool, first)
    case AdBody(a) =>
      if a.advName == "" then []
      else Check(PoolNotAdvertised(a.svc, a.ns, a.pool), !a.advertised, first)
           + Check(NoPeers(a.advName), a.peers.None?, first)
    case DownBody(name, services) => DownOps(name, services)
    case MissingBody(name, services) => MissingOps(name, services)
    case UpBody(s) => Check(PodNotRunning(s.name, s.ns), false, first)
    case TargetsBody(s) => Check(NoTargetPods(s.name, s.ns), false, first)
    case HopBody(h, ignoreBfd) => StateOps(h, first) + BfdOps(h, ignoreBfd, first)
    case RouteBody(r) => RouteOps(r, first)
  }

  // ----- operations on failures and on their messages

  function RenderOp(op: Op<Failure>): Op<string> {
    match op
    case Add(f) => Add(f.Render())
    case Drop(f) => Drop(f.Render())
  }

  function RenderOps(ops: seq<Op<Failure>>): (r: seq<Op<string>>)
    ensures |r| == |ops| && forall i :: 0 <= i < |ops| ==> r[i] == RenderOp(ops[i])
  {
    seq(|ops|, i requires 0 <= i < |ops| => RenderOp(ops[i]))
  }

  /** Each body's operations, on messages. */
  function TextLists(bodies: seq<Body>, first: bool): (r: seq<seq<Op<string>>>)
    ensures |r| == |bodies| && forall i :: 0 <= i < |bodies| ==> r[i] == RenderOps(BodyOps(bodies[i], first))
  {
    seq(|bodies|, i requires 0 <= i < |bodies| => RenderOps(BodyOps(bodies[i], first)))
  }

  /** What a phase does when its bodies run in this order. */
  function PhaseOps(bodies: seq<Body>, first: bool): seq<Op<string>> {
    Flatten(TextLists(bodies, first))
  }

  ghost predicate WellNamedOps(ops: seq<Op<Failure>>) {
    forall op :: op in ops ==> op.key.WellNamed()
  }

  ghost predicate WellNamedBodies(bodies: seq<Body>, first: bool) {
    forall b :: b in bodies ==> WellNamedOps(BodyOps(b, first))
  }

  lemma RenderedMember(ops: seq<Op<Failure>>, op: Op<Failure>)
    requires WellNamedOps(ops) && op.key.WellNamed()
    ensures RenderOp(op) in RenderOps(ops) <==> op in ops
  {
    if op in ops {
      var i :| 0 <= i < |ops| && ops[i] == op;
      assert RenderOps(ops)[i] == RenderOp(op);
    }
    if RenderOp(op) in RenderOps(ops) {
      var i :| 0 <= i < |ops| && RenderOps(ops)[i] == RenderOp(op);
      assert ops[i] in ops;
      RenderInjective(ops[i].key, op.key);
    }
  }

  /** A phase adds or drops a message iff one of its bodies does so to the failure. */
  lemma PhaseMember(bodies: seq<Body>, first: bool, op: Op<Failure>)
    requires WellNamedBodies(bodies, first) && op.key.WellNamed()
    ensures RenderOp(op) in PhaseOps(bodies, first) <==> exists b :: b in bodies && op in BodyOps(b, first)
  {
    var lists := TextLists(bodies, first);
    FlattenMembers(lists, RenderOp(op));
    if RenderOp(op) in PhaseOps(bodies, first) {
      var i :| 0 <= i < |lists| && RenderOp(op) in lists[i];
      assert bodies[i] in bodies;
      RenderedMember(BodyOps(bodies[i], first), op);
    }
    if b :| b in bodies && op in BodyOps(b, first) {
      var i :| 0 <= i < |bodies| && bodies[i] == b;
      RenderedMember(BodyOps(b, first), op);
      assert RenderOp(op) in lists[i];
    }
  }

  lemma PhaseKey(bodies: seq<Body>, first: bool, op: Op<string>)
    requires op in PhaseOps(bodies, first)
    ensures exists b, f :: b in bodies && f in BodyOps(b, first) && op == RenderOp(f)
  {
    var lists := TextLists(bodies, first);
    FlattenMembers(lists, op);
    var i :| 0 <= i < |lists| && op in lists[i];
    var j :| 0 <= j < |lists[i]| && lists[i][j] == op;
    assert bodies[i] in bodies && BodyOps(bodies[i], first)[j] in BodyOps(bodies[i], first);
  }

  /** No body records a failure that another body of the phase clears. */
  ghost predicate BodiesAgree(bodies: seq<Body>, first: bool) {
    forall b, c, f :: b in bodies && c in bodies && Add(f) in BodyOps(b, first) ==> Drop(f) !in BodyOps(c, first)
  }

  lemma AgreeOnMessages(bodies: seq<Body>, first: bool)
    requires WellNamedBodies(bodies, first)
    ensures Agree(PhaseOps(bodies, first)) <==> BodiesAgree(bodies, first)
  {
    if BodiesAgree(bodies, first) {
      forall k ensures !(Add(k) in PhaseOps(bodies, first) && Drop(k) in PhaseOps(bodies, first)) {
        if Add(k) in PhaseOps(bodies, first) && Drop(k) in PhaseOps(bodies, first) {
          PhaseKey(bodies, first, Add(k));
          PhaseKey(bodies, first, Drop(k));
          var b, f :| b in bodies && f in BodyOps(b, first) && Add(k) == RenderOp(f);
          var c, g :| c in bodies && g in BodyOps(c, first) && Drop(k) == RenderOp(g);
          RenderInjective(f.key, g.key);
          assert false;
        }
      }
    }
    if Agree(PhaseOps(bodies, first)) {
      forall b, c, f | b in bodies && c in bodies && Add(f) in BodyOps(b, first) ensures Drop(f) !in BodyOps(c, first) {
        if Drop(f) in BodyOps(c, first) {
          assert Add(f).key.WellNamed();
          PhaseMember(bodies, first, Add(f));
          PhaseMember(bodies, first, Drop(f));
          assert false;
        }
      }
    }
  }

  // ----- every execution order

  lemma RenderOncePerKey(ops: seq<Op<Failure>>)
    requires WellNamedOps(ops) && OncePerKey(ops)
    ensures OncePerKey(RenderOps(ops))
  {
    var r := RenderOps(ops);
    forall i, j | 0 <= i < j < |r| ensures r[i].key != r[j].key {
      assert ops[i] in ops && ops[j] in ops;
      if r[i].key == r[j].key { RenderInjective(ops[i].key, ops[j].key); }
    }
  }

  lemma HopOncePerKey(h: Hop, ignoreBfd: bool, first: bool)
    ensures OncePerKey(StateOps(h, first) + BfdOps(h, ignoreBfd, first))
  {
  }

  lemma BodyOncePerKey(b: Body, first: bool)
    requires !b.DownBody? && !b.MissingBody?
    ensures OncePerKey(BodyOps(b, first))
  {
    if b.HopBody? { HopOncePerKey(b.hop, b.ignoreBfd, first); }
  }

  /** The order of a phase's bodies is irrelevant exactly when no body records a failure
      that another one clears. */
  lemma PhaseOrderFreeIff(s: seq<string>, bodies: seq<Body>, first: bool)
    requires NoDup(s) && WellNamedBodies(bodies, first) && forall b :: b in bodies ==> !b.DownBody? && !b.MissingBody?
    ensures OrderFree(s, TextLists(bodies, first)) <==> BodiesAgree(bodies, first)
  {
    var lists := TextLists(bodies, first);
    forall l | l in lists ensures OncePerKey(l) {
      var i :| 0 <= i < |lists| && lists[i] == l;
      assert bodies[i] in bodies;
      BodyOncePerKey(bodies[i], first);
      RenderOncePerKey(BodyOps(bodies[i], first));
    }
    OrderFreeIffAgree(s, lists);
    AgreeOnMessages(bodies, first);
  }

  function PeerBodies(peers: seq<Peer>): (r: seq<Body>)
    ensures |r| == |peers| && forall i :: 0 <= i < |r| ==> r[i] == PeerBody(peers[i])
  {
    seq(|peers|, i requires 0 <= i < |peers| => PeerBody(peers[i]))
  }

  function AdBodies(ads: seq<Ad>): (r: seq<Body>)
    ensures |r| == |ads| && forall i :: 0 <= i < |r| ==> r[i] == AdBody(ads[i])
  {
    seq(|ads|, i requires 0 <= i < |ads| => AdBody(ads[i]))
  }

  function HopBodies(hops: seq<Hop>, ignoreBfd: bool): (r: seq<Body>)
    ensures |r| == |hops| && forall i :: 0 <= i < |r| ==> r[i] == HopBody(hops[i], ignoreBfd)
  {
    seq(|hops|, i requires 0 <= i < |hops| => HopBody(hops[i], ignoreBfd))
  }

  function RouteBodies(routes: seq<Route>): (r: seq<Body>)
    ensures |r| == |routes| && forall i :: 0 <= i < |r| ==> r[i] == RouteBody(routes[i])
  {
    seq(|routes|, i requires 0 <= i < |routes| => RouteBody(routes[i]))
  }

  // Records that share a message must share its outcome.

  ghost predicate PeersAgree(peers: seq<Peer>) {
    forall p, q :: p in peers && q in peers && p.name == q.name && p.ns == q.ns ==> p.conPool == q.conPool
  }

  ghost predicate AdsAgree(ads: seq<Ad>) {
    forall a, b :: a in ads && b in ads && a.advName != "" && b.advName != "" ==>
      && (a.svc == b.svc && a.ns == b.ns && a.pool == b.pool ==> a.advertised == b.advertised)
      && (a.advName == b.advName ==> a.peers.None? == b.peers.None?)
  }

  ghost predicate HopsAgree(hops: seq<Hop>, ignoreBfd: bool) {
    forall h, g :: h in hops && g in hops && h.ip == g.ip && h.node == g.node ==>
      Up(h) == Up(g) && h.valid == g.valid && (!ignoreBfd ==> BfdBad(h) == BfdBad(g))
  }

  predicate SameKey(r: Route, q: Route) {
    r.svc == q.svc && r.ip == q.ip && r.pod == q.pod && r.node == q.node
  }

  ghost predicate RoutesAgree(routes: seq<Route>) {
    forall r, q :: r in routes && q in routes && SameKey(r, q) ==>
      r.advertised == q.advertised && (r.ns == q.ns ==> r.validBest == q.validBest)
  }

  lemma PeersAgreeIff(peers: seq<Peer>)
    ensures BodiesAgree(PeerBodies(peers), false) <==> PeersAgree(peers)
  {
    var bodies := PeerBodies(peers);
    forall p | p in peers ensures PeerBody(p) in bodies {
      var i :| 0 <= i < |peers| && peers[i] == p;
      assert bodies[i] == PeerBody(p);
    }
    if BodiesAgree(bodies, false) {
      forall p, q | p in peers && q in peers && p.name == q.name && p.ns == q.ns && !p.conPool ensures !q.conPool {
        assert Add(NotInPool(p.name, p.ns)) in BodyOps(PeerBody(p), false);
      }
    }
  }

  lemma AdsAgreeIff(ads: seq<Ad>)
    ensures BodiesAgree(AdBodies(ads), false) <==> AdsAgree(ads)
  {
    var bodies := AdBodies(ads);
    forall a | a in ads ensures AdBody(a) in bodies {
      var i :| 0 <= i < |ads| && ads[i] == a;
      assert bodies[i] == AdBody(a);
    }
    if BodiesAgree(bodies, false) {
      forall a, b | a in ads && b in ads && a.advName != "" && b.advName != ""
        ensures a.svc == b.svc && a.ns == b.ns && a.pool == b.pool && !a.advertised ==> !b.advertised
        ensures a.advName == b.advName && a.peers.None? ==> b.peers.None?
      {
        if !a.advertised { assert Add(PoolNotAdvertised(a.svc, a.ns, a.pool)) in BodyOps(AdBody(a), false); }
        if a.peers.None? { assert Add(NoPeers(a.advName)) in BodyOps(AdBody(a), false); }
      }
    }
  }

  /** The operations of a hop's body on its own three failures. */
  lemma HopBodyOps(h: Hop, ignoreBfd: bool)
    ensures var ops := BodyOps(HopBody(h, ignoreBfd), false);
            && (Add(NotEstablished(h.ip, h.node)) in ops <==> !Up(h))
            && (Drop(NotEstablished(h.ip, h.node)) in ops <==> Up(h))
            && (Add(NotValid(h.ip, h.node)) in ops <==> !h.valid)
            && (Drop(NotValid(h.ip, h.node)) in ops <==> h.valid)
            && (Add(BadBfd(h.ip, h.node)) in ops <==> BfdBad(h) && !ignoreBfd)
            && (Drop(BadBfd(h.ip, h.node)) in ops <==> !BfdBad(h))
  {
    var ops := BodyOps(HopBody(h, ignoreBfd), false);
    assert ops[0] in ops && ops[1] in ops;
    if !(BfdBad(h) && ignoreBfd) { assert ops[2] in ops; }
  }

  lemma HopsDisagree(hops: seq<Hop>, ignoreBfd: bool, h: Hop, g: Hop)
    requires BodiesAgree(HopBodies(hops, ignoreBfd), false)
    requires h in hops && g in hops && h.ip == g.ip && h.node == g.node
    ensures (!Up(h) ==> !Up(g)) && (!h.valid ==> !g.valid) && (!ignoreBfd && BfdBad(h) ==> BfdBad(g))
  {
    var bodies := HopBodies(hops, ignoreBfd);
    var i :| 0 <= i < |hops| && hops[i] == h;
    var j :| 0 <= j < |hops| && hops[j] == g;
    assert bodies[i] in bodies && bodies[j] in bodies;
    HopBodyOps(h, ignoreBfd);
    HopBodyOps(g, ignoreBfd);
  }

  lemma TwoHopsAgree(h: Hop, g: Hop, ignoreBfd: bool, f: Failure)
    requires h.ip == g.ip && h.node == g.node ==>
               Up(h) == Up(g) && h.valid == g.valid && (!ignoreBfd ==> BfdBad(h) == BfdBad(g))
    requires Add(f) in BodyOps(HopBody(h, ignoreBfd), false)
    ensures Drop(f) !in BodyOps(HopBody(g, ignoreBfd), false)
  {
    HopBodyKeys(h, ignoreBfd, Add(f));
    if Drop(f) in BodyOps(HopBody(g, ignoreBfd), false) { HopBodyKeys(g, ignoreBfd, Drop(f)); }
    HopBodyOps(h, ignoreBfd);
    HopBodyOps(g, ignoreBfd);
  }

  lemma HopsDisagreeing(hops: seq<Hop>, ignoreBfd: bool)
    requires BodiesAgree(HopBodies(hops, ignoreBfd), false)
    ensures HopsAgree(hops, ignoreBfd)
  {
    forall h, g | h in hops && g in hops && h.ip == g.ip && h.node == g.node
      ensures Up(h) == Up(g) && h.valid == g.valid && (!ignoreBfd ==> BfdBad(h) == BfdBad(g))
    {
      HopsDisagree(hops, ignoreBfd, h, g);
      HopsDisagree(hops, ignoreBfd, g, h);
    }
  }

  lemma HopsAgreeing(hops: seq<Hop>, ignoreBfd: bool)
    requires HopsAgree(hops, ignoreBfd)
    ensures BodiesAgree(HopBodies(hops, ignoreBfd), false)
  {
    var bodies := HopBodies(hops, ignoreBfd);
    forall b, c, f | b in bodies && c in bodies && Add(f) in BodyOps(b, false) ensures Drop(f) !in BodyOps(c, false) {
      var i :| 0 <= i < |hops| && bodies[i] == b;
      var j :| 0 <= j < |hops| && bodies[j] == c;
      assert hops[i] in hops && hops[j] in hops;
      TwoHopsAgree(hops[i], hops[j], ignoreBfd, f);
    }
  }

  lemma HopsAgreeIff(hops: seq<Hop>, ignoreBfd: bool)
    ensures BodiesAgree(HopBodies(hops, ignoreBfd), false) <==> HopsAgree(hops, ignoreBfd)
  {
    if BodiesAgree(HopBodies(hops, ignoreBfd), false) {
      HopsDisagreeing(hops, ignoreBfd);
    } else if HopsAgree(hops, ignoreBfd) {
      HopsAgreeing(hops, ignoreBfd);
    }
  }

  lemma RoutesAgreeIff(routes: seq<Route>)
    ensures BodiesAgree(RouteBodies(routes), false) <==> RoutesAgree(routes)
  {
    var bodies := RouteBodies(routes);
    forall r | r in routes ensures RouteBody(r) in bodies {
      var i :| 0 <= i < |routes| && routes[i] == r;
      assert bodies[i] == RouteBody(r);
    }
    if BodiesAgree(bodies, false) {
      forall r, q | r in routes && q in routes && SameKey(r, q)
        ensures !r.advertised ==> !q.advertised
        ensures r.ns == q.ns && !r.validBest ==> !q.validBest
      {
        if !r.advertised { assert Add(RouteNotAdvertised(r.svc, r.ip, r.pod, r.node)) in BodyOps(RouteBody(r), false); }
        if !r.validBest { assert Add(RouteNotBest(r.svc, r.ip, r.ns, r.pod, r.node)) in BodyOps(RouteBody(r), false); }
      }
    }
  }

  // ----- the result of a phase

  /** Whatever the order of the bodies: a failure is listed afterwards iff some body
      records it, or none clears it and it was listed; the entries that stay keep their
      order and stand before the new ones. */
  lemma PhaseResult(s: seq<string>, bodies: seq<Body>, first: bool, f: Failure)
    requires NoDup(s) && WellNamedBodies(bodies, first) && BodiesAgree(bodies, first) && f.WellNamed()
    ensures f.Render() in Run(s, PhaseOps(bodies, first)) <==>
              || (exists b :: b in bodies && Add(f) in BodyOps(b, first))
              || (f.Render() in s && forall b :: b in bodies ==> Drop(f) !in BodyOps(b, first))
    ensures Run(s, PhaseOps(bodies, first)) == Filter(s, NotDropped(PhaseOps(bodies, first)))
            + Fresh(s, PhaseOps(bodies, first))
  {
    AgreeOnMessages(bodies, first);
    SettledForm(s, PhaseOps(bodies, first));
    assert Add(f).key == Drop(f).key == f;
    PhaseMember(bodies, first, Add(f));
    PhaseMember(bodies, first, Drop(f));
    RunMembership(s, PhaseOps(bodies, first), f.Render());
    LastOpSound(PhaseOps(bodies, first), f.Render());
  }

  lemma HopsWellNamed(hops: seq<Hop>, ignoreBfd: bool)
    requires forall g :: g in hops ==> Name(g.ip) && Name(g.node)
    ensures WellNamedBodies(HopBodies(hops, ignoreBfd), false)
  {
    var bodies := HopBodies(hops, ignoreBfd);
    forall b | b in bodies ensures WellNamedOps(BodyOps(b, false)) {
      var i :| 0 <= i < |bodies| && bodies[i] == b;
      assert hops[i] in hops;
      HopNamed(hops[i].ip, hops[i].node);
    }
  }

  predicate HopFailure(f: Failure, h: Hop) {
    f == NotEstablished(h.ip, h.node) || f == NotValid(h.ip, h.node) || f == BadBfd(h.ip, h.node)
  }

  lemma HopBodyKeys(h: Hop, ignoreBfd: bool, op: Op<Failure>)
    requires op in BodyOps(HopBody(h, ignoreBfd), false)
    ensures HopFailure(op.key, h)
  {
  }

  /** What a body may do to the failures of a hop. */
  predicate SpeaksFor(b: Body, h: Hop, ignoreBfd: bool) {
    var ops := BodyOps(b, false);
    && (Add(NotEstablished(h.ip, h.node)) in ops ==> !Up(h))
    && (Drop(NotEstablished(h.ip, h.node)) in ops ==> Up(h))
    && (Add(NotValid(h.ip, h.node)) in ops ==> !h.valid)
    && (Drop(NotValid(h.ip, h.node)) in ops ==> h.valid)
    && (Add(BadBfd(h.ip, h.node)) in ops ==> BfdBad(h) && !ignoreBfd)
    && (Drop(BadBfd(h.ip, h.node)) in ops ==> !BfdBad(h))
  }

  lemma OtherHopSilent(g: Hop, h: Hop, ignoreBfd: bool)
    requires g.ip != h.ip || g.node != h.node
    ensures SpeaksFor(HopBody(g, ignoreBfd), h, ignoreBfd)
  {
  }

  lemma HopBodySpeaks(hops: seq<Hop>, ignoreBfd: bool, h: Hop, b: Body)
    requires HopsAgree(hops, false) && h in hops && b in HopBodies(hops, ignoreBfd)
    ensures SpeaksFor(b, h, ignoreBfd)
  {
    var j :| 0 <= j < |hops| && HopBodies(hops, ignoreBfd)[j] == b;
    var g := hops[j];
    assert g in hops;
    HopBodyOps(g, ignoreBfd);
    if g.ip != h.ip || g.node != h.node { OtherHopSilent(g, h, ignoreBfd); }
  }

  lemma HopFailureWellNamed(f: Failure, h: Hop)
    requires Name(h.ip) && Name(h.node) && HopFailure(f, h)
    ensures f.WellNamed()
  {
    HopNamed(h.ip, h.node);
  }

  lemma SameAsOwnBody(b: Body, h: Hop, ignoreBfd: bool, f: Failure)
    requires SpeaksFor(b, h, ignoreBfd) && HopFailure(f, h)
    ensures Add(f) in BodyOps(b, false) ==> Add(f) in BodyOps(HopBody(h, ignoreBfd), false)
    ensures Drop(f) in BodyOps(b, false) ==> Drop(f) in BodyOps(HopBody(h, ignoreBfd), false)
  {
    HopBodyOps(h, ignoreBfd);
  }

  /** The hop's own body decides about its failures. */
  lemma OwnBodyDecides(s: seq<string>, hops: seq<Hop>, ignoreBfd: bool, h: Hop, f: Failure)
    requires NoDup(s) && HopsAgree(hops, false) && h in hops && HopFailure(f, h)
    requires forall g :: g in hops ==> Name(g.ip) && Name(g.node)
    ensures var own := BodyOps(HopBody(h, ignoreBfd), false);
            f.Render() in Run(s, PhaseOps(HopBodies(hops, ignoreBfd), false)) <==>
              Add(f) in own || (f.Render() in s && Drop(f) !in own)
  {
    var bodies := HopBodies(hops, ignoreBfd);
    assert HopsAgree(hops, ignoreBfd);
    HopsAgreeIff(hops, ignoreBfd);
    HopsWellNamed(hops, ignoreBfd);
    HopFailureWellNamed(f, h);
    var i :| 0 <= i < |hops| && hops[i] == h;
    assert bodies[i] in bodies && bodies[i] == HopBody(h, ignoreBfd);
    forall b | b in bodies
      ensures Add(f) in BodyOps(b, false) ==> Add(f) in BodyOps(HopBody(h, ignoreBfd), false)
      ensures Drop(f) in BodyOps(b, false) ==> Drop(f) in BodyOps(HopBody(h, ignoreBfd), false)
    {
      HopBodySpeaks(hops, ignoreBfd, h, b);
      SameAsOwnBody(b, h, ignoreBfd, f);
    }
    PhaseResult(s, bodies, false, f);
  }

  /** After the hop phase of an elapsed scan, in every order of its bodies, the three
      failures of each hop say what the hop's state says; a bad BFD session that is
      ignored leaves its failure as it was. */
  lemma HopPhase(s: seq<string>, hops: seq<Hop>, ignoreBfd: bool, h: Hop)
    requires NoDup(s) && HopsAgree(hops, false) && h in hops
    requires forall g :: g in hops ==> Name(g.ip) && Name(g.node)
    ensures var r := Run(s, PhaseOps(HopBodies(hops, ignoreBfd), false));
            && (NotEstablished(h.ip, h.node).Render() in r <==> !Up(h))
            && (NotValid(h.ip, h.node).Render() in r <==> !h.valid)
            && (BadBfd(h.ip, h.node).Render() in r <==> BfdBad(h) && (!ignoreBfd || BadBfd(h.ip, h.node).Render() in s))
  {
    HopBodyOps(h, ignoreBfd);
    OwnBodyDecides(s, hops, ignoreBfd, h, NotEstablished(h.ip, h.node));
    OwnBodyDecides(s, hops, ignoreBfd, h, NotValid(h.ip, h.node));
    OwnBodyDecides(s, hops, ignoreBfd, h, BadBfd(h.ip, h.node));
  }

  /** Failures that are not of these hops are listed after the phase iff before, and
      with the failures the phase does not clear they stand in their old order. */
  lemma HopPhaseFrame(s: seq<string>, hops: seq<Hop>, ignoreBfd: bool, f: Failure)
    requires NoDup(s) && HopsAgree(hops, ignoreBfd) && f.WellNamed()
    requires forall g :: g in hops ==> Name(g.ip) && Name(g.node) && !HopFailure(f, g)
    ensures var ops := PhaseOps(HopBodies(hops, ignoreBfd), false);
            && (f.Render() in Run(s, ops) <==> f.Render() in s)
            && Run(s, ops) == Filter(s, NotDropped(ops)) + Fresh(s, ops)
  {
    var bodies := HopBodies(hops, ignoreBfd);
    HopsAgreeIff(hops, ignoreBfd);
    HopsWellNamed(hops, ignoreBfd);
    forall b | b in bodies ensures Add(f) !in BodyOps(b, false) && Drop(f) !in BodyOps(b, false) {
      var j :| 0 <= j < |bodies| && bodies[j] == b;
      assert hops[j] in hops;
      forall op | op in BodyOps(b, false) ensures HopFailure(op.key, hops[j]) { HopBodyKeys(hops[j], ignoreBfd, op); }
      assert Add(f).key == Drop(f).key == f;
    }
    PhaseResult(s, bodies, false, f);
  }

  // ----- the phases whose records each decide their own failures

  lemma DecidedByBody(s: seq<string>, bodies: seq<Body>, b: Body, f: Failure, bad: bool)
    requires NoDup(s) && WellNamedBodies(bodies, false) && BodiesAgree(bodies, false) && f.WellNamed()
    requires b in bodies && (if bad then Add(f) else Drop(f)) in BodyOps(b, false)
    ensures f.Render() in Run(s, PhaseOps(bodies, false)) <==> bad
  {
    PhaseResult(s, bodies, false, f);
  }

  lemma PeerPhase(s: seq<string>, peers: seq<Peer>, p: Peer)
    requires NoDup(s) && PeersAgree(peers) && p in peers && forall q :: q in peers ==> Name(q.name) && Name(q.ns)
    ensures NotInPool(p.name, p.ns).Render() in Run(s, PhaseOps(PeerBodies(peers), false)) <==> !p.conPool
  {
    var bodies := PeerBodies(peers);
    PeersAgreeIff(peers);
    forall b | b in bodies ensures WellNamedOps(BodyOps(b, false)) { ServiceNamed(b.peer.name, b.peer.ns); }
    ServiceNamed(p.name, p.ns);
    var i :| 0 <= i < |peers| && peers[i] == p;
    assert bodies[i] == PeerBody(p) && BodyOps(PeerBody(p), false)[0].key == NotInPool(p.name, p.ns);
    DecidedByBody(s, bodies, PeerBody(p), NotInPool(p.name, p.ns), !p.conPool);
  }

  predicate NamedRouteRecord(r: Route) {
    Name(r.svc) && Name(r.ns) && Name(r.ip) && Name(r.pod) && Name(r.node)
  }

  lemma RouteBodyOps(r: Route)
    ensures (if r.advertised then Drop(RouteNotAdvertised(r.svc, r.ip, r.pod, r.node))
             else Add(RouteNotAdvertised(r.svc, r.ip, r.pod, r.node))) in BodyOps(RouteBody(r), false)
    ensures (if r.validBest then Drop(RouteNotBest(r.svc, r.ip, r.ns, r.pod, r.node))
             else Add(RouteNotBest(r.svc, r.ip, r.ns, r.pod, r.node))) in BodyOps(RouteBody(r), false)
  {
    var ops := BodyOps(RouteBody(r), false);
    assert ops[0] in ops && ops[1] in ops;
  }

  lemma RoutesWellNamed(routes: seq<Route>)
    requires forall q :: q in routes ==> NamedRouteRecord(q)
    ensures WellNamedBodies(RouteBodies(routes), false)
  {
    var bodies := RouteBodies(routes);
    forall b | b in bodies ensures WellNamedOps(BodyOps(b, false)) {
      var i :| 0 <= i < |routes| && bodies[i] == b;
      assert NamedRouteRecord(routes[i]);
      RouteNamed(b.route.svc, b.route.ip, b.route.ns, b.route.pod, b.route.node);
    }
  }

  lemma RoutePhase(s: seq<string>, routes: seq<Route>, r: Route)
    requires NoDup(s) && RoutesAgree(routes) && r in routes && forall q :: q in routes ==> NamedRouteRecord(q)
    ensures var l := Run(s, PhaseOps(RouteBodies(routes), false));
            && (RouteNotAdvertised(r.svc, r.ip, r.pod, r.node).Render() in l <==> !r.advertised)
            && (RouteNotBest(r.svc, r.ip, r.ns, r.pod, r.node).Render() in l <==> !r.validBest)
  {
    var bodies := RouteBodies(routes);
    RoutesAgreeIff(routes);
    RoutesWellNamed(routes);
    RouteNamed(r.svc, r.ip, r.ns, r.pod, r.node);
    RouteBodyOps(r);
    var i :| 0 <= i < |routes| && routes[i] == r;
    assert bodies[i] == RouteBody(r);
    DecidedByBody(s, bodies, RouteBody(r), RouteNotAdvertised(r.svc, r.ip, r.pod, r.node), !r.advertised);
    DecidedByBody(s, bodies, RouteBody(r), RouteNotBest(r.svc, r.ip, r.ns, r.pod, r.node), !r.validBest);
  }

  predicate NamedAd(a: Ad) {
    Name(a.svc) && Name(a.ns) && Name(a.pool) && Name(a.advName)
  }

  lemma AdBodyOps(a: Ad)
    requires a.advName != ""
    ensures (if a.advertised then Drop(PoolNotAdvertised(a.svc, a.ns, a.pool))
             else Add(PoolNotAdvertised(a.svc, a.ns, a.pool))) in BodyOps(AdBody(a), false)
    ensures (if a.peers.None? then Add(NoPeers(a.advName)) else Drop(NoPeers(a.advName))) in BodyOps(AdBody(a), false)
  {
    var ops := BodyOps(AdBody(a), false);
    assert ops[0] in ops && ops[1] in ops;
  }

  lemma AdsWellNamed(ads: seq<Ad>)
    requires forall b :: b in ads ==> NamedAd(b)
    ensures WellNamedBodies(AdBodies(ads), false)
  {
    var bodies := AdBodies(ads);
    forall b | b in bodies ensures WellNamedOps(BodyOps(b, false)) {
      var i :| 0 <= i < |ads| && bodies[i] == b;
      assert NamedAd(ads[i]);
      PoolNamed(b.ad.svc, b.ad.ns, b.ad.pool);
      AdvertisementNamed(b.ad.advName);
    }
  }

  /** Only records that carry an advertisement's name decide anything. */
  lemma AdPhase(s: seq<string>, ads: seq<Ad>, a: Ad)
    requires NoDup(s) && AdsAgree(ads) && a in ads && a.advName != "" && forall b :: b in ads ==> NamedAd(b)
    ensures var l := Run(s, PhaseOps(AdBodies(ads), false));
            && (PoolNotAdvertised(a.svc, a.ns, a.pool).Render() in l <==> !a.advertised)
            && (NoPeers(a.advName).Render() in l <==> a.peers.None?)
  {
    var bodies := AdBodies(ads);
    AdsAgreeIff(ads);
    AdsWellNamed(ads);
    PoolNamed(a.svc, a.ns, a.pool);
    AdvertisementNamed(a.advName);
    AdBodyOps(a);
    var i :| 0 <= i < |ads| && ads[i] == a;
    assert bodies[i] == AdBody(a);
    DecidedByBody(s, bodies, AdBody(a), PoolNotAdvertised(a.svc, a.ns, a.pool), !a.advertised);
    DecidedByBody(s, bodies, AdBody(a), NoPeers(a.advName), a.peers.None?);
  }
}
