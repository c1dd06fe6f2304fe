/** The VmScan reconciler: it groups controller VMIs by node, namespace after
    namespace, and looks at every node after each namespace. */
module VmScan {
  import opened StatusLists
  import opened VanishedPods

  datatype Vmi = Vmi(name: string, node: string, controller: bool, migrating: Option<bool>)

  type Grouping = map<string, seq<string>>

  /** vmiNodes[node], nil when the node has no entry. */
  function At(m: Grouping, node: string): seq<string> {
    if node in m then m[node] else []
  }

  /** A VMI counts when its name holds "controller". */
  function Group(m: Grouping, vmis: seq<Vmi>): Grouping {
    if vmis == [] then m
    else
      var g, v := Group(m, vmis[..|vmis| - 1]), vmis[|vmis| - 1];
      if v.controller then g[v.node := At(g, v.node) + [v.name]] else g
  }

  // ----- grouping loses nothing

  /** The names of the controller VMIs on a node, in the order they are listed. */
  function NamesOn(vmis: seq<Vmi>, node: string): seq<string> {
    if vmis == [] then []
    else
      var v := vmis[|vmis| - 1];
      NamesOn(vmis[..|vmis| - 1], node) + if v.controller && v.node == node then [v.name] else []
  }

  function Controllers(vmis: seq<Vmi>): nat {
    if vmis == [] then 0
    else Controllers(vmis[..|vmis| - 1]) + if vmis[|vmis| - 1].controller then 1 else 0
  }

  /** The lengths of all lists of a grouping, summed. */
  ghost function Total(m: Grouping): nat
    decreases |m|
  {
    if m == map[] then 0
    else
      var k :| k in m;
      |m[k]| + Total(m - {k})
  }

  lemma {:induction false} TotalMinus(m: Grouping, k: string)
    requires k in m
    ensures Total(m) == |m[k]| + Total(m - {k})
    decreases |m|
  {
    var j :| j in m && Total(m) == |m[j]| + Total(m - {j});
    if j != k {
      TotalMinus(m - {j}, k);
      TotalMinus(m - {k}, j);
      assert m - {j} - {k} == m - {k} - {j};
    }
  }

  lemma TotalUpdate(m: Grouping, k: string, x: string)
    ensures Total(m[k := At(m, k) + [x]]) == Total(m) + 1
  {
    var n := m[k := At(m, k) + [x]];
    TotalMinus(n, k);
    if k in m {
      TotalMinus(m, k);
      assert n - {k} == m - {k};
    } else {
      assert n - {k} == m;
    }
  }

  /** The map holds, per node, the concatenation of what was listed so far, and the
      lengths of all its lists sum to the number of controller VMIs. */
  lemma {:induction false} GroupConserves(m: Grouping, vmis: seq<Vmi>, node: string)
    ensures At(Group(m, vmis), node) == At(m, node) + NamesOn(vmis, node)
    ensures Total(Group(m, vmis)) == Total(m) + Controllers(vmis)
  {
    if vmis != [] {
      var front, v := vmis[..|vmis| - 1], vmis[|vmis| - 1];
      GroupConserves(m, front, node);
      TotalUpdate(Group(m, front), v.node, v.name);
    }
  }

  // ----- node steps

  /** What the loop carries from node to node. */
  datatype Verdict = Verdict(isAffected: bool, affected: seq<string>)

  function NodeOps(node: string, names: seq<string>): (ops: seq<Op<string>>)
    ensures |ops| == |names| && forall i :: 0 <= i < |names| ==> ops[i] == Add(Key(node, names[i]))
  {
    seq(|names|, i requires 0 <= i < |names| => Add(Key(node, names[i])))
  }

  function VisitNode(v: Verdict, node: string, names: seq<string>): Verdict {
    if |names| > 1 then Verdict(true, Run(v.affected, NodeOps(node, names))) else Verdict(false, [])
  }

  function VisitNodes(v: Verdict, nodes: seq<string>, m: Grouping): Verdict {
    if nodes == [] then v
    else VisitNode(VisitNodes(v, nodes[..|nodes| - 1], m), nodes[|nodes| - 1], At(m, nodes[|nodes| - 1]))
  }

  /** The scan: after each namespace's VMIs are grouped every node is visited.  A
      listing error ends it with the list as it is then. */
  datatype Scan = Scan(verdict: Verdict, m: Grouping, complete: bool)

  function ScanNamespaces(s: Verdict, listings: seq<Option<seq<Vmi>>>, nodes: seq<string>): Scan {
    if listings == [] then Scan(s, map[], true)
    else
      var r, last := ScanNamespaces(s, listings[..|listings| - 1], nodes), listings[|listings| - 1];
      if !r.complete || last.None? then Scan(r.verdict, r.m, false)
      else
        var m := Group(r.m, last.value);
        Scan(VisitNodes(r.verdict, nodes, m), m, true)
  }

  // ----- what the verdict says

  /** The node steps of a complete scan, each with the VMIs the node had then. */
  datatype Visit = Visit(node: string, names: seq<string>)

  function VisitsOf(nodes: seq<string>, m: Grouping): (r: seq<Visit>)
    ensures |r| == |nodes| && forall i :: 0 <= i < |r| ==> r[i] == Visit(nodes[i], At(m, nodes[i]))
  {
    seq(|nodes|, i requires 0 <= i < |nodes| => Visit(nodes[i], At(m, nodes[i])))
  }

  function Visits(listings: seq<Option<seq<Vmi>>>, nodes: seq<string>): seq<Visit> {
    if listings == [] then []
    else
      Visits(listings[..|listings| - 1], nodes) + VisitsOf(nodes, ScanNamespaces(Verdict(false, []), listings, nodes).m)
  }

  predicate Crowded(v: Visit) {
    |v.names| > 1
  }

  function Replay(s: Verdict, visits: seq<Visit>): Verdict {
    if visits == [] then s
    else VisitNode(Replay(s, visits[..|visits| - 1]), visits[|visits| - 1].node, visits[|visits| - 1].names)
  }

  /** The additions made since the last visit of a node that is not crowded. */
  function SinceClean(visits: seq<Visit>): seq<Op<string>> {
    if visits == [] || !Crowded(visits[|visits| - 1]) then []
    else SinceClean(visits[..|visits| - 1]) + NodeOps(visits[|visits| - 1].node, visits[|visits| - 1].names)
  }

  /** A violation is reported iff the last node visited is crowded, and the list holds
      exactly what was added since the last clean visit, on top of the prior entries
      when there was none. */
  lemma {:induction false} ReplayVerdict(s: Verdict, visits: seq<Visit>)
    ensures var r := Replay(s, visits);
            && r.isAffected == (if visits == [] then s.isAffected else Crowded(visits[|visits| - 1]))
            && r.affected == Run(if forall v :: v in visits ==> Crowded(v) then s.affected else [], SinceClean(visits))
  {
    if visits != [] {
      var front, last := visits[..|visits| - 1], visits[|visits| - 1];
      assert visits == front + [last];
      ReplayVerdict(s, front);
      if Crowded(last) {
        RunAppend(if forall v :: v in front ==> Crowded(v) then s.affected else [], SinceClean(front),
                  NodeOps(last.node, last.names));
      }
    }
  }

  lemma {:induction false} ReplayAppend(s: Verdict, a: seq<Visit>, b: seq<Visit>)
    ensures Replay(s, a + b) == Replay(Replay(s, a), b)
  {
    if b == [] {
      assert a + b == a;
    } else {
      assert (a + b)[..|a + b| - 1] == a + b[..|b| - 1];
      ReplayAppend(s, a, b[..|b| - 1]);
    }
  }

  lemma {:induction false} NodesAreVisits(v: Verdict, nodes: seq<string>, m: Grouping)
    ensures VisitNodes(v, nodes, m) == Replay(v, VisitsOf(nodes, m))
  {
    if nodes != [] {
      NodesAreVisits(v, nodes[..|nodes| - 1], m);
      assert VisitsOf(nodes, m)[..|nodes| - 1] == VisitsOf(nodes[..|nodes| - 1], m);
    }
  }

  ghost predicate Complete(listings: seq<Option<seq<Vmi>>>) {
    forall i :: 0 <= i < |listings| ==> listings[i].Some?
  }

  function AllVmis(listings: seq<Option<seq<Vmi>>>): seq<Vmi>
    requires forall i :: 0 <= i < |listings| ==> listings[i].Some?
  {
    if listings == [] then [] else AllVmis(listings[..|listings| - 1]) + listings[|listings| - 1].value
  }

  lemma {:induction false} GroupAppend(m: Grouping, a: seq<Vmi>, b: seq<Vmi>)
    ensures Group(m, a + b) == Group(Group(m, a), b)
  {
    if b == [] {
      assert a + b == a;
    } else {
      assert (a + b)[..|a + b| - 1] == a + b[..|b| - 1];
      GroupAppend(m, a, b[..|b| - 1]);
    }
  }

  /** A scan without listing errors is the replay of its visits, and its map groups
      everything listed. */
  lemma {:induction false} ScanIsReplay(s: Verdict, listings: seq<Option<seq<Vmi>>>, nodes: seq<string>)
    requires Complete(listings)
    ensures var r := ScanNamespaces(s, listings, nodes);
            r.complete && r.m == Group(map[], AllVmis(listings)) && r.verdict == Replay(s, Visits(listings, nodes))
    decreases |listings|
  {
    if listings != [] {
      var front, last := listings[..|listings| - 1], listings[|listings| - 1].value;
      ScanIsReplay(s, front, nodes);
      ScanIsReplay(Verdict(false, []), front, nodes);
      GroupAppend(map[], AllVmis(front), last);
      var m := Group(map[], AllVmis(listings));
      NodesAreVisits(Replay(s, Visits(front, nodes)), nodes, m);
      ReplayAppend(s, Visits(front, nodes), VisitsOf(nodes, m));
      assert ScanNamespaces(Verdict(false, []), listings, nodes).m == m;
    }
  }

  lemma LastVisit(listings: seq<Option<seq<Vmi>>>, nodes: seq<string>)
    requires Complete(listings) && listings != [] && nodes != []
    ensures var vs, n := Visits(listings, nodes), nodes[|nodes| - 1];
            vs != [] && vs[|vs| - 1] == Visit(n, NamesOn(AllVmis(listings), n))
  {
    ScanIsReplay(Verdict(false, []), listings, nodes);
    GroupConserves(map[], AllVmis(listings), nodes[|nodes| - 1]);
    assert At(map[], nodes[|nodes| - 1]) == [];
  }

  /** A complete scan reports a violation iff the node listed last hosts two or more
      controller VMIs; a scan whose last node does not ends with an empty list,
      whatever the other nodes host. */
  lemma ScanVerdict(s: Verdict, listings: seq<Option<seq<Vmi>>>, nodes: seq<string>)
    requires Complete(listings) && listings != [] && nodes != []
    ensures var v, n := ScanNamespaces(s, listings, nodes).verdict, nodes[|nodes| - 1];
            && (v.isAffected <==> |NamesOn(AllVmis(listings), n)| > 1)
            && (!v.isAffected ==> v.affected == [])
            && v.affected == Run(if forall x :: x in Visits(listings, nodes) ==> Crowded(x) then s.affected else [],
                                 SinceClean(Visits(listings, nodes)))
  {
    ScanIsReplay(s, listings, nodes);
    ReplayVerdict(s, Visits(listings, nodes));
    LastVisit(listings, nodes);
  }

  /** The visit lists the entry, and every visit from there on is of a crowded node. */
  ghost predicate ListedFrom(visits: seq<Visit>, m: int, e: string) {
    && 0 <= m < |visits| && (forall i :: m <= i < |visits| ==> Crowded(visits[i]))
    && exists x :: x in visits[m].names && e == visits[m].node + MARK + x
  }

  ghost predicate Listed(visits: seq<Visit>, e: string) {
    exists m :: ListedFrom(visits, m, e)
  }

  lemma NodeOpsMember(node: string, names: seq<string>, e: string)
    ensures Add(e) in NodeOps(node, names) <==> exists x :: x in names && e == node + MARK + x
  {
    if x :| x in names && e == node + MARK + x {
      var i :| 0 <= i < |names| && names[i] == x;
      assert NodeOps(node, names)[i] == Add(e);
    }
  }

  lemma {:induction false} SinceCleanMember(visits: seq<Visit>, e: string)
    ensures Add(e) in SinceClean(visits) <==> Listed(visits, e)
    ensures Drop(e) !in SinceClean(visits)
  {
    if visits != [] {
      var front, last := visits[..|visits| - 1], visits[|visits| - 1];
      assert visits == front + [last];
      SinceCleanMember(front, e);
      NodeOpsMember(last.node, last.names, e);
      if m :| ListedFrom(front, m, e) && Crowded(last) { assert ListedFrom(visits, m, e); }
      if m :| ListedFrom(visits, m, e) {
        if m < |front| { assert ListedFrom(front, m, e) && Crowded(visits[|front|]); }
      }
      if Crowded(last) && Add(e) in NodeOps(last.node, last.names) { assert ListedFrom(visits, |front|, e); }
    }
  }

  lemma ReplayMembers(s: Verdict, visits: seq<Visit>, e: string)
    requires NoDup(s.affected)
    ensures e in Replay(s, visits).affected <==>
              Listed(visits, e) || (e in s.affected && forall v :: v in visits ==> Crowded(v))
  {
    var base := if forall v :: v in visits ==> Crowded(v) then s.affected else [];
    ReplayVerdict(s, visits);
    SinceCleanMember(visits, e);
    RunMembership(base, SinceClean(visits), e);
    LastOpSound(SinceClean(visits), e);
  }

  /** A node and all nodes behind it in the list host two or more controller VMIs. */
  ghost predicate CrowdedFrom(vmis: seq<Vmi>, nodes: seq<string>, j: int) {
    0 <= j < |nodes| && forall i :: j <= i < |nodes| ==> |NamesOn(vmis, nodes[i])| > 1
  }

  /** The entry is that of a VMI on such a node. */
  ghost predicate EntryOn(vmis: seq<Vmi>, nodes: seq<string>, e: string) {
    exists j, x :: CrowdedFrom(vmis, nodes, j) && x in NamesOn(vmis, nodes[j]) && e == nodes[j] + MARK + x
  }

  lemma {:induction false} NamesAppend(a: seq<Vmi>, b: seq<Vmi>, node: string)
    ensures NamesOn(a + b, node) == NamesOn(a, node) + NamesOn(b, node)
  {
    if b == [] {
      assert a + b == a;
    } else {
      assert (a + b)[..|a + b| - 1] == a + b[..|b| - 1];
      NamesAppend(a, b[..|b| - 1], node);
    }
  }

  /** The visits after a namespace see what is listed so far. */
  lemma RoundVisits(listings: seq<Option<seq<Vmi>>>, nodes: seq<string>)
    requires Complete(listings) && listings != []
    ensures var front, round := Visits(listings[..|listings| - 1], nodes),
                                VisitsOf(nodes, ScanNamespaces(Verdict(false, []), listings, nodes).m);
            Visits(listings, nodes) == front + round && Round(AllVmis(listings), nodes, round)
  {
    ScanIsReplay(Verdict(false, []), listings, nodes);
    forall i | 0 <= i < |nodes|
      ensures At(Group(map[], AllVmis(listings)), nodes[i]) == NamesOn(AllVmis(listings), nodes[i]) {
      GroupConserves(map[], AllVmis(listings), nodes[i]);
    }
  }

  /** The visits of a round that sees these VMIs. */
  ghost predicate Round(vmis: seq<Vmi>, nodes: seq<string>, round: seq<Visit>) {
    |round| == |nodes| && forall i :: 0 <= i < |nodes| ==> round[i] == Visit(nodes[i], NamesOn(vmis, nodes[i]))
  }

  ghost predicate AllCrowded(vmis: seq<Vmi>, nodes: seq<string>) {
    forall n :: n in nodes ==> |NamesOn(vmis, n)| > 1
  }

  lemma RoundCrowded(vmis: seq<Vmi>, nodes: seq<string>, round: seq<Visit>)
    requires Round(vmis, nodes, round)
    ensures (forall v :: v in round ==> Crowded(v)) <==> AllCrowded(vmis, nodes)
  {
    if forall v :: v in round ==> Crowded(v) {
      forall n | n in nodes ensures |NamesOn(vmis, n)| > 1 {
        var i :| 0 <= i < |nodes| && nodes[i] == n;
        assert round[i] in round;
      }
    }
    if AllCrowded(vmis, nodes) {
      forall v | v in round ensures Crowded(v) {
        var i :| 0 <= i < |round| && round[i] == v;
        assert nodes[i] in nodes;
      }
    }
  }

  lemma {:induction false} ListedAppend(front: seq<Visit>, round: seq<Visit>, e: string)
    ensures Listed(front + round, e) <==>
              Listed(round, e)
              || (Listed(front, e) && forall v :: v in round ==> Crowded(v))
  {
    SinceCleanMember(front + round, e);
    SinceCleanMember(round, e);
    SinceCleanMember(front, e);
    SinceCleanAppend(front, round);
  }

  lemma {:induction false} SinceCleanAppend(a: seq<Visit>, b: seq<Visit>)
    ensures SinceClean(a + b) ==
            (if forall v :: v in b ==> Crowded(v) then SinceClean(a) else []) + SinceClean(b)
  {
    if b == [] {
      assert a + b == a;
    } else {
      var front, last := b[..|b| - 1], b[|b| - 1];
      assert b == front + [last] && (a + b)[..|a + b| - 1] == a + front;
      SinceCleanAppend(a, front);
    }
  }

  lemma RoundListed(vmis: seq<Vmi>, nodes: seq<string>, round: seq<Visit>, e: string)
    requires Round(vmis, nodes, round)
    ensures Listed(round, e) <==> EntryOn(vmis, nodes, e)
  {
    if m :| ListedFrom(round, m, e) {
      var x :| x in round[m].names && e == round[m].node + MARK + x;
      assert CrowdedFrom(vmis, nodes, m) && x in NamesOn(vmis, nodes[m]);
    }
    if EntryOn(vmis, nodes, e) {
      var j, x :| CrowdedFrom(vmis, nodes, j) && x in NamesOn(vmis, nodes[j]) && e == nodes[j] + MARK + x;
      assert ListedFrom(round, j, e);
    }
  }

  /** What is listed after a round: its own entries, and the earlier ones when all its
      nodes are crowded. */
  lemma RoundAdds(listings: seq<Option<seq<Vmi>>>, nodes: seq<string>, e: string)
    requires Complete(listings) && listings != []
    ensures Listed(Visits(listings, nodes), e) <==>
              || EntryOn(AllVmis(listings), nodes, e)
              || (Listed(Visits(listings[..|listings| - 1], nodes), e)
                  && AllCrowded(AllVmis(listings), nodes))
  {
    var round := VisitsOf(nodes, ScanNamespaces(Verdict(false, []), listings, nodes).m);
    RoundVisits(listings, nodes);
    ListedAppend(Visits(listings[..|listings| - 1], nodes), round, e);
    RoundListed(AllVmis(listings), nodes, round, e);
    RoundCrowded(AllVmis(listings), nodes, round);
  }

  lemma EntryStays(vmis: seq<Vmi>, rest: seq<Vmi>, nodes: seq<string>, e: string)
    requires EntryOn(vmis, nodes, e)
    ensures EntryOn(vmis + rest, nodes, e)
  {
    var j, x :| CrowdedFrom(vmis, nodes, j) && x in NamesOn(vmis, nodes[j]) && e == nodes[j] + MARK + x;
    forall i | j <= i < |nodes| ensures |NamesOn(vmis + rest, nodes[i])| > 1 { NamesAppend(vmis, rest, nodes[i]); }
    NamesAppend(vmis, rest, nodes[j]);
    assert CrowdedFrom(vmis + rest, nodes, j) && x in NamesOn(vmis + rest, nodes[j]);
  }

  /** What any round lists belongs to a VMI on crowded nodes in the end. */
  lemma {:induction false} EarlierListed(listings: seq<Option<seq<Vmi>>>, nodes: seq<string>, e: string)
    requires Complete(listings) && Listed(Visits(listings, nodes), e)
    ensures EntryOn(AllVmis(listings), nodes, e)
  {
    var front, last := listings[..|listings| - 1], listings[|listings| - 1].value;
    RoundAdds(listings, nodes, e);
    if !EntryOn(AllVmis(listings), nodes, e) {
      EarlierListed(front, nodes, e);
      EntryStays(AllVmis(front), last, nodes, e);
    }
  }

  lemma {:induction false} AllCrowdedIff(listings: seq<Option<seq<Vmi>>>, nodes: seq<string>)
    requires Complete(listings) && listings != []
    ensures (forall v :: v in Visits(listings, nodes) ==> Crowded(v)) <==> AllCrowded(listings[0].value, nodes)
  {
    var front, first := listings[..|listings| - 1], listings[0].value;
    var all, round := AllVmis(listings), VisitsOf(nodes, ScanNamespaces(Verdict(false, []), listings, nodes).m);
    RoundVisits(listings, nodes);
    RoundCrowded(all, nodes, round);
    if front == [] {
      assert AllVmis(front) == [] && all == first && Visits(front, nodes) == [];
    } else {
      AllCrowdedIff(front, nodes);
      var rest := FirstFirst(listings);
      forall n ensures |NamesOn(all, n)| >= |NamesOn(first, n)| { NamesAppend(first, rest, n); }
      assert forall v :: v in Visits(listings, nodes) <==> v in Visits(front, nodes) || v in round;
    }
  }

  lemma {:induction false} FirstFirst(listings: seq<Option<seq<Vmi>>>) returns (rest: seq<Vmi>)
    requires Complete(listings) && listings != []
    ensures AllVmis(listings) == listings[0].value + rest
  {
    var front, last := listings[..|listings| - 1], listings[|listings| - 1].value;
    if front == [] {
      rest := [];
      assert AllVmis(front) == [] && AllVmis(listings) == [] + last == last + [];
    } else {
      var more := FirstFirst(front);
      rest := more + last;
    }
  }

  /** After a complete scan the list holds exactly the controller VMIs of the nodes at the
      end of the node list that are crowded without a break, and the old entries only when
      every node was crowded from the first namespace on. */
  lemma AffectedIff(s: Verdict, listings: seq<Option<seq<Vmi>>>, nodes: seq<string>, e: string)
    requires Complete(listings) && listings != [] && NoDup(s.affected)
    ensures e in ScanNamespaces(s, listings, nodes).verdict.affected <==>
              || EntryOn(AllVmis(listings), nodes, e)
              || (e in s.affected && AllCrowded(listings[0].value, nodes))
  {
    ScanIsReplay(s, listings, nodes);
    ReplayMembers(s, Visits(listings, nodes), e);
    AllCrowdedIff(listings, nodes);
    RoundAdds(listings, nodes, e);
    if Listed(Visits(listings, nodes), e) { EarlierListed(listings, nodes, e); }
  }

  /** The promise: some node hosts two or more controller VMIs. */
  ghost predicate Violated(vmis: seq<Vmi>, nodes: seq<string>) {
    exists n :: n in nodes && |NamesOn(vmis, n)| > 1
  }

  /** The report is right exactly when no node is crowded or the last one is. */
  lemma ReportRightIff(s: Verdict, listings: seq<Option<seq<Vmi>>>, nodes: seq<string>)
    requires Complete(listings) && listings != [] && nodes != []
    ensures (ScanNamespaces(s, listings, nodes).verdict.isAffected <==> Violated(AllVmis(listings), nodes)) <==>
              || (forall n :: n in nodes ==> |NamesOn(AllVmis(listings), n)| <= 1)
              || |NamesOn(AllVmis(listings), nodes[|nodes| - 1])| > 1
  {
    ScanVerdict(s, listings, nodes);
    assert nodes[|nodes| - 1] in nodes;
  }

  /** Two controllers on the first of two nodes go unreported. */
  lemma ViolationMissed(s: Verdict, a: string, b: string)
    requires a != b
    ensures var vmis := [Vmi("controller-0", a, true, None), Vmi("controller-1", a, true, None)];
            Violated(vmis, [a, b]) && !ScanNamespaces(s, [Some(vmis)], [a, b]).verdict.isAffected
  {
    var vmis := [Vmi("controller-0", a, true, None), Vmi("controller-1", a, true, None)];
    assert vmis[..1] == [vmis[0]] && vmis[..1][..0] == [];
    assert NamesOn(vmis[..1], a) == ["controller-0"] && NamesOn(vmis[..1], b) == [];
    assert |NamesOn(vmis, a)| == 2 && |NamesOn(vmis, b)| == 0;
    var listings: seq<Option<seq<Vmi>>> := [Some(vmis)];
    assert AllVmis(listings) == vmis by {
      assert listings[..0] == [] && AllVmis(listings[..0]) == [] && [] + vmis == vmis;
    }
    assert a in [a, b];
    ScanVerdict(s, listings, [a, b]);
  }

  // ----- migrations

  /** A controller VMI with a migration is added while the migration runs and deleted
      when it is complete. */
  function MigrationOp(v: Vmi, ns: string): seq<Op<string>> {
    if v.controller && v.migrating.Some?
    then [if v.migrating.value then Add(v.name + ":" + ns) else Drop(v.name + ":" + ns)] else []
  }

  function MigrationOps(vmis: seq<Vmi>, ns: string): seq<Op<string>> {
    if vmis == [] then [] else MigrationOps(vmis[..|vmis| - 1], ns) + MigrationOp(vmis[|vmis| - 1], ns)
  }

  function AllMigrationOps(nss: seq<string>, migrating: seq<seq<Vmi>>): seq<Op<string>>
    requires |migrating| == |nss|
  {
    if nss == [] then []
    else
      var n := |nss| - 1;
      AllMigrationOps(nss[..n], migrating[..n]) + MigrationOps(migrating[n], nss[n])
  }

  /** The last migration state listed for the controller VMI `name` of a namespace. */
  function LastStateIn(vmis: seq<Vmi>, name: string): Option<bool> {
    if vmis == [] then None
    else
      var v := vmis[|vmis| - 1];
      if v.controller && v.migrating.Some? && v.name == name then v.migrating else LastStateIn(vmis[..|vmis| - 1], name)
  }

  function LastState(nss: seq<string>, migrating: seq<seq<Vmi>>, name: string, ns: string): Option<bool>
    requires |migrating| == |nss|
  {
    if nss == [] then None
    else
      var n := |nss| - 1;
      if nss[n] == ns && LastStateIn(migrating[n], name).Some? then LastStateIn(migrating[n], name)
      else LastState(nss[..n], migrating[..n], name, ns)
  }

  predicate VmiNames(vmis: seq<Vmi>) {
    forall v :: v in vmis ==> ':' !in v.name
  }

  function StateOp(state: Option<bool>, key: string): Option<Op<string>> {
    match state
    case None => None
    case Some(running) => Some(if running then Add(key) else Drop(key))
  }

  lemma {:induction false} LastStateInOp(vmis: seq<Vmi>, ms: string, name: string, ns: string)
    requires ':' !in name && VmiNames(vmis)
    ensures var op := LastOp(MigrationOps(vmis, ms), name + ":" + ns);
            op == if ms != ns then None else
              StateOp(LastStateIn(vmis, name), name + ":" + ns)
  {
    if vmis != [] {
      var front, v := vmis[..|vmis| - 1], vmis[|vmis| - 1];
      assert v in vmis;
      LastStateInOp(front, ms, name, ns);
      if v.controller && v.migrating.Some? {
        var ops, op := MigrationOps(front, ms),
                       if v.migrating.value then Add(v.name + ":" + ms) else Drop(v.name + ":" + ms);
        LastOpAppend(ops, [op], name + ":" + ns);
        assert [op][..0] == [];
        if op.key == name + ":" + ns { SameMigration(v.name, ms, name, ns); }
      } else {
        assert MigrationOps(front, ms) + [] == MigrationOps(front, ms);
      }
    }
  }

  lemma SameMigration(a: string, ms: string, b: string, ns: string)
    requires ':' !in a && ':' !in b && a + ":" + ms == b + ":" + ns
    ensures a == b && ms == ns
  {
    var t := a + ":" + ms;
    assert t[|a|] == ':' && t[|b|] == ':';
    assert forall i :: 0 <= i < |a| ==> t[i] == a[i] != ':';
    assert forall i :: 0 <= i < |b| ==> t[i] == b[i] != ':';
    assert a == t[..|a|] == t[..|b|] == b;
    assert ms == t[|a| + 1..] == t[|b| + 1..] == ns;
  }

  lemma {:induction false} LastStateOp(nss: seq<string>, migrating: seq<seq<Vmi>>, name: string, ns: string)
    requires |migrating| == |nss| && ':' !in name && forall l :: l in migrating ==> VmiNames(l)
    ensures LastOp(AllMigrationOps(nss, migrating), name + ":" + ns) ==
              StateOp(LastState(nss, migrating, name, ns), name + ":" + ns)
    decreases |nss|
  {
    if nss != [] {
      var n := |nss| - 1;
      assert migrating[n] in migrating && forall l :: l in migrating[..n] ==> l in migrating;
      LastStateOp(nss[..n], migrating[..n], name, ns);
      LastStateInOp(migrating[n], nss[n], name, ns);
      LastOpAppend(AllMigrationOps(nss[..n], migrating[..n]), MigrationOps(migrating[n], nss[n]), name + ":" + ns);
    }
  }

  /** A migration stays listed while the last state seen for its VMI is running. */
  lemma MigrationListedIff(s: seq<string>, nss: seq<string>, migrating: seq<seq<Vmi>>, name: string, ns: string)
    requires NoDup(s) && |migrating| == |nss| && ':' !in name && forall l :: l in migrating ==> VmiNames(l)
    ensures name + ":" + ns in Run(s, AllMigrationOps(nss, migrating)) <==>
              match LastState(nss, migrating, name, ns)
              case None => name + ":" + ns in s
              case Some(running) => running
  {
    RunMembership(s, AllMigrationOps(nss, migrating), name + ":" + ns);
    LastStateOp(nss, migrating, name, ns);
  }

  // ----- the reconciler's status object

  datatype Config = Config(notify: bool, incident: string -> string, extExists: string -> bool)

  class VmScanStatus {
    var affectedTargets: seq<string>
    var migrations: seq<string>
    var incidentID: seq<string>
    var externalNotified: bool
    var lastPollTime: Option<int>

    constructor ()
      ensures affectedTargets == migrations == [] && lastPollTime == None && Unique()
    {
      affectedTargets, migrations, incidentID, externalNotified, lastPollTime := [], [], [], false, None;
    }

    ghost predicate Unique()
      reads this
    {
      NoDup(affectedTargets) && NoDup(migrations) && NoDup(incidentID)
      && "" !in incidentID && "[Pending]" !in incidentID
    }

    method ScanMigration(v: Vmi, ns: string)
      requires Unique()
      modifies this`migrations
      ensures migrations == Run(old(migrations), MigrationOp(v, ns)) && Unique()
    {
      if v.controller && v.migrating.Some? {
        var key := v.name + ":" + ns;
        ghost var op := if v.migrating.value then Add(key) else Drop(key);
        RunOne(migrations, op);
        ApplyMembers(migrations, op);
        if v.migrating.value {
          if key !in migrations {
            migrations := migrations + [key];
          }
        } else {
          if key in migrations {
            migrations := DeleteAt(migrations, IndexOf(migrations, key));
          }
        }
      }
    }

    method ScanMigrations(vmis: seq<Vmi>, ns: string)
      requires Unique()
      modifies this`migrations
      ensures migrations == Run(old(migrations), MigrationOps(vmis, ns)) && Unique()
    {
      for i := 0 to |vmis|
        invariant migrations == Run(old(migrations), MigrationOps(vmis[..i], ns)) && Unique()
      {
        assert vmis[..i + 1][..i] == vmis[..i];
        RunAppend(old(migrations), MigrationOps(vmis[..i], ns), MigrationOp(vmis[i], ns));
        ScanMigration(vmis[i], ns);
      }
      assert vmis[..|vmis|] == vmis;
    }

    method CrowdedNode(cfg: Config, node: string, names: seq<string>)
      requires Unique()
      modifies this
      ensures affectedTargets == Run(old(affectedTargets), NodeOps(node, names)) && Unique()
      ensures migrations == old(migrations) && lastPollTime == old(lastPollTime)
    {
      for i := 0 to |names|
        invariant affectedTargets == Run(old(affectedTargets), NodeOps(node, names)[..i]) && Unique()
        invariant migrations == old(migrations) && lastPollTime == old(lastPollTime)
      {
        assert NodeOps(node, names)[..i + 1] == NodeOps(node, names)[..i] + [NodeOps(node, names)[i]];
        RunAppend(old(affectedTargets), NodeOps(node, names)[..i], [NodeOps(node, names)[i]]);
        RunOne(affectedTargets, NodeOps(node, names)[i]);
        ApplyMembers(affectedTargets, NodeOps(node, names)[i]);
        if Key(node, names[i]) !in affectedTargets {
          affectedTargets := affectedTargets + [Key(node, names[i])];
        }
        if cfg.notify && !externalNotified {
          var id := cfg.incident(node);
          if id !in incidentID && id != "" && id != "[Pending]" {
            incidentID := incidentID + [id];
          }
          externalNotified := true;
        }
      }
      assert NodeOps(node, names)[..|names|] == NodeOps(node, names);
    }

    method CleanNode(cfg: Config, node: string)
      requires Unique()
      modifies this
      ensures affectedTargets == [] && Unique()
      ensures migrations == old(migrations) && lastPollTime == old(lastPollTime)
    {
      affectedTargets := [];
      if cfg.extExists(node) {
        if cfg.notify && externalNotified {
          var id := cfg.incident(node);
          if id in incidentID {
            ApplyMembers(incidentID, Drop(id));
            incidentID := DeleteAt(incidentID, IndexOf(incidentID, id));
          }
        }
      }
    }

    method VisitAll(cfg: Config, nodes: seq<string>, vmiNodes: Grouping, wasAffected: bool) returns (isAffected: bool)
      requires Unique()
      modifies this
      ensures Verdict(isAffected, affectedTargets) ==
              VisitNodes(Verdict(wasAffected, old(affectedTargets)), nodes, vmiNodes)
      ensures Unique() && migrations == old(migrations) && lastPollTime == old(lastPollTime)
    {
      isAffected := wasAffected;
      for i := 0 to |nodes|
        invariant Verdict(isAffected, affectedTargets) ==
                  VisitNodes(Verdict(wasAffected, old(affectedTargets)), nodes[..i], vmiNodes)
        invariant Unique() && migrations == old(migrations) && lastPollTime == old(lastPollTime)
      {
        assert nodes[..i + 1][..i] == nodes[..i];
        var names := At(vmiNodes, nodes[i]);
        if |names| > 1 {
          isAffected := true;
          CrowdedNode(cfg, nodes[i], names);
        } else {
          isAffected := false;
          CleanNode(cfg, nodes[i]);
        }
      }
      assert nodes[..|nodes|] == nodes;
    }

    /** The placement check of both scan branches; a violation or a listing error leaves
        LastPollTime alone. */
    method CheckPlacement(cfg: Config, listings: seq<Option<seq<Vmi>>>, nodes: seq<string>, now: int)
      returns (error: bool)
      requires Unique()
      modifies this
      ensures var s := ScanNamespaces(Verdict(false, old(affectedTargets)), listings, nodes);
              && affectedTargets == s.verdict.affected
              && (error <==> !s.complete || s.verdict.isAffected)
              && lastPollTime == if error then old(lastPollTime) else Some(now)
      ensures Unique() && migrations == old(migrations)
    {
      var vmiNodes: Grouping := map[];
      var isAffected := false;
      ghost var start := Verdict(false, affectedTargets);
      for i := 0 to |listings|
        invariant ScanNamespaces(start, listings[..i], nodes) ==
                  Scan(Verdict(isAffected, affectedTargets), vmiNodes, true)
        invariant Unique() && migrations == old(migrations) && lastPollTime == old(lastPollTime)
      {
        assert listings[..i + 1][..i] == listings[..i];
        if listings[i].None? {
          IncompleteStays(start, listings, nodes, i);
          return true;
        }
        vmiNodes := GroupVmis(vmiNodes, listings[i].value);
        isAffected := VisitAll(cfg, nodes, vmiNodes, isAffected);
      }
      assert listings[..|listings|] == listings;
      if isAffected {
        return true;
      }
      lastPollTime := Some(now);
      externalNotified := false;
      return false;
    }

    /** The migrations of every target namespace; one whose listing fails lists none. */
    method CheckMigrations(nss: seq<string>, migrating: seq<seq<Vmi>>)
      requires Unique() && |migrating| == |nss|
      modifies this`migrations
      ensures migrations == Run(old(migrations), AllMigrationOps(nss, migrating)) && Unique()
    {
      for i := 0 to |nss|
        invariant migrations == Run(old(migrations), AllMigrationOps(nss[..i], migrating[..i])) && Unique()
      {
        assert nss[..i + 1][..i] == nss[..i] && migrating[..i + 1][..i] == migrating[..i];
        RunAppend(old(migrations), AllMigrationOps(nss[..i], migrating[..i]), MigrationOps(migrating[i], nss[i]));
        ScanMigrations(migrating[i], nss[i]);
      }
      assert nss[..|nss|] == nss && migrating[..|migrating|] == migrating;
    }

    /** The gate of the scan interval; `now` is read before the scan, `later` after it. */
    method Reconcile(cfg: Config, interval: nat, now: int, later: int, nss: seq<string>, migrating: seq<seq<Vmi>>,
                     listings: seq<Option<seq<Vmi>>>, nodes: seq<string>) returns (error: bool)
      requires Unique() && |migrating| == |nss|
      modifies this
      ensures var s := ScanNamespaces(Verdict(false, old(affectedTargets)), listings, nodes);
              if old(lastPollTime).None? || old(lastPollTime).value < now - interval then
                && affectedTargets == s.verdict.affected
                && (error <==> !s.complete || s.verdict.isAffected)
                && lastPollTime == (if error then old(lastPollTime) else Some(later))
                && migrations == Run(old(migrations), AllMigrationOps(nss, migrating))
              else
                !error && affectedTargets == old(affectedTargets) && migrations == old(migrations)
                && lastPollTime == old(lastPollTime)
      ensures Unique()
    {
      error := false;
      if lastPollTime.None? {
        CheckMigrations(nss, migrating);
        error := CheckPlacement(cfg, listings, nodes, later);
      } else {
        var pastTime := now - interval;
        if lastPollTime.value < pastTime {
          CheckMigrations(nss, migrating);
          error := CheckPlacement(cfg, listings, nodes, later);
        }
      }
    }
  }

  method GroupVmis(m: Grouping, vmis: seq<Vmi>) returns (g: Grouping)
    ensures g == Group(m, vmis)
  {
    g := m;
    for i := 0 to |vmis|
      invariant g == Group(m, vmis[..i])
    {
      assert vmis[..i + 1][..i] == vmis[..i];
      var v := vmis[i];
      if v.controller {
        g := g[v.node := At(g, v.node) + [v.name]];
      }
    }
    assert vmis[..|vmis|] == vmis;
  }

  lemma {:induction false} IncompleteStays(s: Verdict, listings: seq<Option<seq<Vmi>>>, nodes: seq<string>, i: nat)
    requires i < |listings| && listings[i].None?
    ensures var r := ScanNamespaces(s, listings, nodes);
            !r.complete && r.verdict == ScanNamespaces(s, listings[..i], nodes).verdict
    decreases |listings|
  {
    var front := listings[..|listings| - 1];
    if i < |front| {
      IncompleteStays(s, front, nodes, i);
      assert front[..i] == listings[..i];
    }
  }
}
