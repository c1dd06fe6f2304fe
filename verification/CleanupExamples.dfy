/** Lists of printed failures on which the clean-up of deleted services goes wrong. */
module CleanupExamples {
  import opened StatusLists
  import opened FailureMessages
  import opened StaleServices
  import opened CleanupLoop
  import opened MetallbScan

  lemma NoIpStale(svc: string, ns: string, live: seq<string>)
    requires Name(svc) && Name(ns) && svc !in live
    ensures StaleIn(live)(NoIp(svc, ns).Render())
  {
    ServiceNamed(svc, ns);
    StaleMeaning(NoIp(svc, ns), live);
  }

  lemma HopNotStale(hop: string, node: string, live: seq<string>)
    requires Name(hop) && Name(node)
    ensures !StaleIn(live)(NotEstablished(hop, node).Render())
  {
    HopNamed(hop, node);
    StaleMeaning(NotEstablished(hop, node), live);
  }

  predicate Gone(svc: string, ns: string, live: seq<string>) {
    Name(svc) && Name(ns) && svc !in live
  }

  /** Between the failures of two deleted services that of a neighbor is lost, and the scan
      takes the cluster for healthy. */
  lemma LivePrintedLost(a: string, an: string, b: string, bn: string, hop: string, node: string, live: seq<string>)
    requires Gone(a, an, live) && Gone(b, bn, live) && Name(hop) && Name(node)
    ensures var s := [NoIp(a, an).Render(), NotEstablished(hop, node).Render(), NoIp(b, bn).Render()];
            && !OutOfRange(s, StaleIn(live)) && CleanResult(s, StaleIn(live)) == []
            && Filter(s, Live(StaleIn(live))) == [NotEstablished(hop, node).Render()]
  {
    NoIpStale(a, an, live);
    NoIpStale(b, bn, live);
    HopNotStale(hop, node, live);
    LiveFailureLost(NoIp(a, an).Render(), NotEstablished(hop, node).Render(), NoIp(b, bn).Render(), StaleIn(live));
  }

  lemma StaleKept(a: string, b: string, x: string, stale: string -> bool)
    requires stale(a) && stale(b) && !stale(x)
    ensures !OutOfRange([a, b, x], stale) && CleanResult([a, b, x], stale) == [b, x]
  {
    var s := [a, b, x];
    assert s[2..] == [x] && Survivors([x], stale) == [x];
  }

  lemma Panics(x: string, a: string, b: string, stale: string -> bool)
    requires !stale(x) && stale(a) && stale(b)
    ensures OutOfRange([x, a, b], stale)
  {
    var s := [x, a, b];
    assert stale(s[1]) && stale(s[|s| - 1]);
  }

  /** Of the failures of two deleted services in a row the second stays listed. */
  lemma StalePrintedKept(a: string, an: string, b: string, bn: string, hop: string, node: string, live: seq<string>)
    requires Gone(a, an, live) && Gone(b, bn, live) && Name(hop) && Name(node)
    ensures var x := NotEstablished(hop, node).Render();
            var s := [NoIp(a, an).Render(), NoIp(b, bn).Render(), x];
            && !OutOfRange(s, StaleIn(live)) && CleanResult(s, StaleIn(live)) == [NoIp(b, bn).Render(), x]
            && IsStale(NoIp(b, bn).Render(), live)
  {
    NoIpStale(a, an, live);
    NoIpStale(b, bn, live);
    HopNotStale(hop, node, live);
    StaleKept(NoIp(a, an).Render(), NoIp(b, bn).Render(), NotEstablished(hop, node).Render(), StaleIn(live));
  }

  /** With both at the end the clean-up panics. */
  lemma PrintedPanics(a: string, an: string, b: string, bn: string, hop: string, node: string, live: seq<string>)
    requires Gone(a, an, live) && Gone(b, bn, live) && Name(hop) && Name(node)
    ensures OutOfRange([NotEstablished(hop, node).Render(), NoIp(a, an).Render(), NoIp(b, bn).Render()], StaleIn(live))
  {
    NoIpStale(a, an, live);
    NoIpStale(b, bn, live);
    HopNotStale(hop, node, live);
    Panics(NotEstablished(hop, node).Render(), NoIp(a, an).Render(), NoIp(b, bn).Render(), StaleIn(live));
  }
}
