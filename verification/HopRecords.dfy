/** The walk over the worker nodes that asks each speaker pod for its next hops and
    builds one record for each hop with a session. */
module HopRecords {
  import opened StatusLists
  import H = HopScanners
  import opened MetallbPhases
  import opened MetallbScan

  /** The parsed answer of `show ip bgp neighbor`. */
  datatype Session = Session(remoteAs: int, state: string, bfd: string)

  /** What the API and the speaker pod of a node answer: `listed` is false when the API
      does not list its pods, and a session of None is an error. */
  datatype NodeAnswer = NodeAnswer(
    node: string, listed: bool, speaker: Option<string>, daemonset: Option<bool>,
    entries: H.Outcome<seq<string>>, session: string -> Option<Session>)

  /** The nodes visited, the records so far, and whether the walk has ended early. */
  datatype Walk = Walk(workers: seq<Worker>, hops: seq<Hop>, over: bool, panicked: bool)

  function HopOf(n: NodeAnswer, entry: string): seq<Hop> {
    var ip := H.AddressOf(entry);
    match n.session(ip)
    case None => []
    case Some(s) => if s.remoteAs != 0 then [Hop(n.node, ip, true, s.state, s.bfd)] else []
  }

  predicate Answered(n: NodeAnswer, entry: string) {
    n.session(H.AddressOf(entry)).Some?
  }

  function HopsOf(n: NodeAnswer, entries: seq<string>): seq<Hop> {
    if entries == [] then [] else HopsOf(n, entries[..|entries| - 1]) + HopOf(n, entries[|entries| - 1])
  }

  function Visit(w: Walk, n: NodeAnswer): Walk {
    if w.over then w
    else if !n.listed then Walk(w.workers, [], true, false)
    else if n.speaker.None? then
      w.(workers := w.workers + [Worker(n.node, None, n.daemonset, None)])
    else
      match n.entries
      case Panicked => Walk(w.workers + [Worker(n.node, n.speaker, None, None)], [], true, true)
      case ReadFailed => Walk(w.workers + [Worker(n.node, n.speaker, None, None)], [], true, false)
      case Done(entries) =>
        var workers := w.workers + [Worker(n.node, n.speaker, None, Some(entries != []))];
        if exists e | e in entries :: !Answered(n, e) then Walk(workers, [], true, false)
        else Walk(workers, w.hops + HopsOf(n, entries), false, false)
  }

  function WalkAll(nodes: seq<NodeAnswer>): Walk {
    if nodes == [] then Walk([], [], false, false) else Visit(WalkAll(nodes[..|nodes| - 1]), nodes[|nodes| - 1])
  }

  method CollectHops(n: NodeAnswer, entries: seq<string>) returns (r: Option<seq<Hop>>)
    ensures r == if exists e | e in entries :: !Answered(n, e) then None else Some(HopsOf(n, entries))
  {
    var hops := [];
    for i := 0 to |entries|
      invariant hops == HopsOf(n, entries[..i])
      invariant forall k :: 0 <= k < i ==> Answered(n, entries[k])
    {
      assert entries[..i + 1][..i] == entries[..i];
      var ip := H.AddressOf(entries[i]);
      var status := n.session(ip);
      if status.None? {
        assert entries[i] in entries && !Answered(n, entries[i]);
        return None;
      }
      if status.value.remoteAs != 0 {
        hops := hops + [Hop(n.node, ip, true, status.value.state, status.value.bfd)];
      } else {
        assert HopOf(n, entries[i]) == [];
      }
    }
    assert entries[..|entries|] == entries;
    return Some(hops);
  }

  method VisitNode(w: Walk, n: NodeAnswer) returns (r: Walk)
    requires !w.over
    ensures r == Visit(w, n)
  {
    if !n.listed {
      return Walk(w.workers, [], true, false);
    }
    if n.speaker.None? {
      return w.(workers := w.workers + [Worker(n.node, None, n.daemonset, None)]);
    }
    if !n.entries.Done? {
      return Walk(w.workers + [Worker(n.node, n.speaker, None, None)], [], true, n.entries.Panicked?);
    }
    var entries := n.entries.value;
    var workers := w.workers + [Worker(n.node, n.speaker, None, Some(|entries| != 0))];
    var hops := CollectHops(n, entries);
    if hops.None? {
      return Walk(workers, [], true, false);
    }
    return Walk(workers, w.hops + hops.value, false, false);
  }

  /** CheckBGPHopWorkers; its calls on `FailedChecks` are those of the workers visited. */
  method CheckBGPHopWorkers(nodes: seq<NodeAnswer>) returns (w: Walk)
    ensures w == WalkAll(nodes)
  {
    w := Walk([], [], false, false);
    for i := 0 to |nodes|
      invariant w == WalkAll(nodes[..i]) && !w.over
    {
      assert nodes[..i + 1][..i] == nodes[..i];
      w := VisitNode(w, nodes[i]);
      if w.over {
        OverStays(nodes, i + 1);
        return;
      }
    }
    assert nodes[..|nodes|] == nodes;
  }

  lemma {:induction false} OverStays(nodes: seq<NodeAnswer>, i: nat)
    requires i <= |nodes| && WalkAll(nodes[..i]).over
    ensures WalkAll(nodes) == WalkAll(nodes[..i])
  {
    if i < |nodes| {
      assert nodes[..|nodes| - 1][..i] == nodes[..i];
      OverStays(nodes[..|nodes| - 1], i);
    } else {
      assert nodes[..i] == nodes;
    }
  }

  // ----- what the records say

  ghost predicate HasSession(n: NodeAnswer, h: Hop) {
    n.speaker.Some? && n.entries.Done? && exists e :: e in n.entries.value && h in HopOf(n, e)
  }

  lemma {:induction false} HopsOfMember(n: NodeAnswer, entries: seq<string>, h: Hop)
    ensures h in HopsOf(n, entries) <==> exists e :: e in entries && h in HopOf(n, e)
  {
    if entries != [] {
      var front, last := entries[..|entries| - 1], entries[|entries| - 1];
      assert entries == front + [last];
      HopsOfMember(n, front, h);
    }
  }

  /** A walk that is not cut short has a record for exactly the listed hops of running
      speakers that have a session, and every record is marked valid. */
  lemma {:induction false} RecordsOfWalk(nodes: seq<NodeAnswer>, h: Hop)
    ensures h in WalkAll(nodes).hops ==> h.valid
    ensures !WalkAll(nodes).over ==> (h in WalkAll(nodes).hops <==> exists n :: n in nodes && HasSession(n, h))
  {
    if nodes != [] {
      var front, n := nodes[..|nodes| - 1], nodes[|nodes| - 1];
      assert nodes == front + [n];
      RecordsOfWalk(front, h);
      if n.entries.Done? { HopsOfMember(n, n.entries.value, h); }
      assert WalkAll(nodes) == Visit(WalkAll(front), n);
      if !WalkAll(nodes).over {
        assert h in WalkAll(nodes).hops <==> h in WalkAll(front).hops || HasSession(n, h);
      }
    }
  }

  /** What the walk notes about a node. */
  ghost predicate Visited(w: Worker, n: NodeAnswer) {
    && w.node == n.node && w.speaker == n.speaker && (n.speaker.None? ==> w.daemonset == n.daemonset)
    && (w.hops.Some? <==> n.speaker.Some? && n.entries.Done?)
    && (w.hops.Some? ==> (w.hops.value <==> n.entries.value != []))
  }

  ghost predicate Cuts(n: NodeAnswer) {
    || !n.listed
    || (n.speaker.Some? && !n.entries.Done?)
    || (n.speaker.Some? && n.entries.Done? && exists e :: e in n.entries.value && !Answered(n, e))
  }

  lemma VisitWorkers(w: Walk, n: NodeAnswer)
    requires !w.over
    ensures var v := Visit(w, n);
            && (v.over <==> Cuts(n)) && (v.over ==> v.hops == [])
            && (v.workers == w.workers || (|v.workers| == |w.workers| + 1 && v.workers[..|w.workers|] == w.workers
                                           && Visited(v.workers[|w.workers|], n)))
            && (!v.over ==> |v.workers| == |w.workers| + 1)
  {
  }

  /** The walk visits the nodes in order, and all of them unless it is cut short: by a node
      whose pods are not listed, a speaker that cannot be asked, or a session that cannot be
      read.  Then there are no hop records at all. */
  lemma {:induction false} WorkersOfWalk(nodes: seq<NodeAnswer>)
    ensures var w := WalkAll(nodes);
            && |w.workers| <= |nodes| && (forall i :: 0 <= i < |w.workers| ==> Visited(w.workers[i], nodes[i]))
            && (if w.over then w.hops == [] else |w.workers| == |nodes|)
            && (w.over <==> exists n :: n in nodes && Cuts(n))
  {
    if nodes != [] {
      var front, n := nodes[..|nodes| - 1], nodes[|nodes| - 1];
      assert nodes == front + [n];
      WorkersOfWalk(front);
      assert WalkAll(nodes) == Visit(WalkAll(front), n);
      if !WalkAll(front).over {
        VisitWorkers(WalkAll(front), n);
        assert WalkAll(nodes).over <==> Cuts(n);
      }
    }
  }
}
