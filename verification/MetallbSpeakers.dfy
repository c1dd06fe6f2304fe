/** What an elapsed scan finds out about the speaker pods: the walk over the worker
    nodes and the walk over the nodes of the endpoints. */
module MetallbSpeakers {
  import opened StatusLists
  import opened FailureMessages
  import opened MetallbPhases
  import opened MetallbScan

  /** On messages the last operation is the last one on the failure. */
  lemma {:induction false} RenderedLastOp(ops: seq<Op<Failure>>, f: Failure)
    requires WellNamedOps(ops) && f.WellNamed()
    ensures LastOp(RenderOps(ops), f.Render()) ==
              match LastOp(ops, f) { case None => None case Some(op) => Some(RenderOp(op)) }
  {
    if ops != [] {
      var front, last := ops[..|ops| - 1], ops[|ops| - 1];
      assert ops == front + [last] && last in ops;
      assert RenderOps(ops)[..|ops| - 1] == RenderOps(front);
      RenderedLastOp(front, f);
      if last.key.Render() == f.Render() { RenderInjective(last.key, f); }
    }
  }

  lemma ListedByLastOp(s: seq<string>, ops: seq<Op<Failure>>, f: Failure)
    requires NoDup(s) && WellNamedOps(ops) && f.WellNamed()
    ensures f.Render() in Run(s, RenderOps(ops)) <==>
              match LastOp(ops, f) case None => f.Render() in s case Some(op) => op.Add?
  {
    RenderedLastOp(ops, f);
    RunMembership(s, RenderOps(ops), f.Render());
  }

  // ----- worker nodes

  ghost predicate NamedWorkers(ws: seq<Worker>, cfg: Config) {
    Name(cfg.metalNs) && forall w :: w in ws ==> Name(w.node) && (w.speaker.Some? ==> Name(w.speaker.value))
  }

  ghost predicate DistinctNodes(ws: seq<Worker>) {
    forall i, j :: 0 <= i < j < |ws| ==> ws[i].node != ws[j].node
  }

  lemma {:induction false} WorkersWellNamed(ws: seq<Worker>, cfg: Config)
    requires NamedWorkers(ws, cfg)
    ensures WellNamedOps(WorkersOps(ws, cfg))
  {
    if ws != [] {
      var front, w := ws[..|ws| - 1], ws[|ws| - 1];
      assert w in ws;
      WorkersWellNamed(front, cfg);
      NodeNamed(w.node, cfg.metalNs);
      if w.speaker.Some? { NodeNamed(w.speaker.value, w.node); }
    }
  }

  predicate AboutNode(f: Failure, node: string) {
    (f.NoSpeaker? || f.NoHops?) && f.node == node
  }

  lemma WorkerOpsNode(w: Worker, cfg: Config, f: Failure, node: string)
    requires AboutNode(f, node) && w.node != node
    ensures LastOp(WorkerOps(w, cfg), f) == None
  {
    LastOpSound(WorkerOps(w, cfg), f);
  }

  lemma {:induction false} WorkerDecidesAlone(ws: seq<Worker>, cfg: Config, k: nat, f: Failure)
    requires DistinctNodes(ws) && k < |ws| && AboutNode(f, ws[k].node)
    ensures LastOp(WorkersOps(ws, cfg), f) == LastOp(WorkerOps(ws[k], cfg), f)
  {
    var n := |ws| - 1;
    LastOpAppend(WorkersOps(ws[..n], cfg), WorkerOps(ws[n], cfg), f);
    if k < n {
      WorkerOpsNode(ws[n], cfg, f, ws[k].node);
      WorkerDecidesAlone(ws[..n], cfg, k, f);
    } else {
      OtherWorkersSilent(ws[..n], cfg, f, ws[n].node);
    }
  }

  lemma {:induction false} OtherWorkersSilent(ws: seq<Worker>, cfg: Config, f: Failure, node: string)
    requires AboutNode(f, node) && forall i :: 0 <= i < |ws| ==> ws[i].node != node
    ensures LastOp(WorkersOps(ws, cfg), f) == None
  {
    if ws != [] {
      var n := |ws| - 1;
      LastOpAppend(WorkersOps(ws[..n], cfg), WorkerOps(ws[n], cfg), f);
      WorkerOpsNode(ws[n], cfg, f, node);
      OtherWorkersSilent(ws[..n], cfg, f, node);
    }
  }

  lemma OwnWorkerOps(w: Worker, cfg: Config)
    ensures LastOp(WorkerOps(w, cfg), NoSpeaker(w.node, cfg.metalNs)) ==
              if w.speaker.Some? then Some(Drop(NoSpeaker(w.node, cfg.metalNs)))
              else if w.daemonset == Some(false) then Some(Add(NoSpeaker(w.node, cfg.metalNs)))
              else None
    ensures w.speaker.Some? ==>
              var f := NoHops(w.speaker.value, w.node);
              LastOp(WorkerOps(w, cfg), f) ==
                if w.hops == Some(true) then Some(Drop(f))
                else if w.hops == Some(false) && !cfg.ignoreNoHop then Some(Add(f))
                else None
  {
    var ops := WorkerOps(w, cfg);
    if |ops| == 2 { assert ops[..1] == [ops[0]] && ops[..1][..0] == []; }
    if |ops| == 1 { assert ops[..0] == []; }
  }

  /** After the walk over the workers, a node is listed without a speaker iff it has
      none and the daemonset is short of pods, or it has none, the daemonset is not
      known to be short, and it was listed; a speaker is listed without hops iff none
      were found and that is not ignored, or the search failed or is ignored and it was
      listed. */
  lemma WorkerPhase(s: seq<string>, ws: seq<Worker>, cfg: Config, k: nat)
    requires NoDup(s) && NamedWorkers(ws, cfg) && DistinctNodes(ws) && k < |ws|
    ensures var w, r := ws[k], Run(s, RenderOps(WorkersOps(ws, cfg)));
            && (NoSpeaker(w.node, cfg.metalNs).Render() in r <==>
                  w.speaker.None? && (w.daemonset == Some(false) || NoSpeaker(w.node, cfg.metalNs).Render() in s))
            && (w.speaker.Some? ==>
                  var m := NoHops(w.speaker.value, w.node).Render();
                  (m in r <==> if w.hops.None? || (!w.hops.value && cfg.ignoreNoHop) then m in s else !w.hops.value))
  {
    var w := ws[k];
    assert w in ws;
    WorkersWellNamed(ws, cfg);
    NodeNamed(w.node, cfg.metalNs);
    OwnWorkerOps(w, cfg);
    WorkerDecidesAlone(ws, cfg, k, NoSpeaker(w.node, cfg.metalNs));
    ListedByLastOp(s, WorkersOps(ws, cfg), NoSpeaker(w.node, cfg.metalNs));
    if w.speaker.Some? {
      NodeNamed(w.speaker.value, w.node);
      WorkerDecidesAlone(ws, cfg, k, NoHops(w.speaker.value, w.node));
      ListedByLastOp(s, WorkersOps(ws, cfg), NoHops(w.speaker.value, w.node));
    }
  }

  // ----- nodes of the endpoints

  /** What the last probe of a node saw. */
  function LastProbe(ps: seq<Probe>, node: string): Option<bool> {
    if ps == [] then None
    else if ps[|ps| - 1].node == node then Some(ps[|ps| - 1].running)
    else LastProbe(ps[..|ps| - 1], node)
  }

  lemma ProbesWellNamed(ps: seq<Probe>, cfg: Config)
    requires Name(cfg.metalNs) && forall p :: p in ps ==> Name(p.node)
    ensures WellNamedOps(ProbeOps(ps, cfg))
  {
    forall op | op in ProbeOps(ps, cfg) ensures op.key.WellNamed() {
      var i :| 0 <= i < |ps| && ProbeOps(ps, cfg)[i] == op;
      assert ps[i] in ps;
      NodeNamed(ps[i].node, cfg.metalNs);
    }
  }

  lemma {:induction false} LastProbeOp(ps: seq<Probe>, cfg: Config, node: string)
    ensures var f := NoRunningSpeaker(node, cfg.metalNs);
            LastOp(ProbeOps(ps, cfg), f) ==
              match LastProbe(ps, node) { case None => None case Some(up) => Some(if up then Drop(f) else Add(f)) }
  {
    if ps != [] {
      assert ProbeOps(ps, cfg)[..|ps| - 1] == ProbeOps(ps[..|ps| - 1], cfg);
      LastProbeOp(ps[..|ps| - 1], cfg, node);
    }
  }

  /** After the walk over the endpoints' nodes, a node is listed without a running
      speaker iff its last probe found none, or it was not probed and was listed. */
  lemma ProbePhase(s: seq<string>, ps: seq<Probe>, cfg: Config, node: string)
    requires NoDup(s) && Name(cfg.metalNs) && Name(node) && forall p :: p in ps ==> Name(p.node)
    ensures NoRunningSpeaker(node, cfg.metalNs).Render() in Run(s, RenderOps(ProbeOps(ps, cfg))) <==>
              match LastProbe(ps, node)
              case None => NoRunningSpeaker(node, cfg.metalNs).Render() in s
              case Some(up) => !up
  {
    ProbesWellNamed(ps, cfg);
    NodeNamed(node, cfg.metalNs);
    LastProbeOp(ps, cfg, node);
    ListedByLastOp(s, ProbeOps(ps, cfg), NoRunningSpeaker(node, cfg.metalNs));
  }
}
