/** The names of a target's marker and fingerprint files. */
module PortScanNames {
  import opened StatusLists
  import opened GoStrings
  import opened PortScan
  import opened PortScanRuns

  const DIR := "/home/golanguser/files/port/."

  predicate Kept(c: char) {
    'a' <= c <= 'z' || 'A' <= c <= 'Z' || '0' <= c <= '9' || c == ' '
  }

  /** Keep letters, digits and spaces. */
  function HandleCNString(s: string): (r: string)
    ensures '-' !in r
  {
    Filter(s, Kept)
  }

  function Stem(host: string, port: string): string {
    DIR + (HandleCNString(host) + "-" + port)
  }

  function MarkerFile(host: string, port: string): string {
    Stem(host, port) + ".txt"
  }

  function ExtFile(host: string, port: string): string {
    Stem(host, port) + "-ext.txt"
  }

  function FromSpec(host: string, port: string): Target {
    Target(host + ":" + port, MarkerFile(host, port), ExtFile(host, port))
  }

  lemma CutAtDash(a: string, p: string, b: string, q: string)
    requires '-' !in a && '-' !in b && a + "-" + p == b + "-" + q
    ensures a == b && p == q
  {
    var s, t := a + "-" + p, b + "-" + q;
    assert s[|a|] == '-' && t[|b|] == '-';
    assert forall i | 0 <= i < |a| :: s[i] == a[i] && s[i] != '-';
    assert forall i | 0 <= i < |b| :: t[i] == b[i] && t[i] != '-';
    assert |a| == |b|;
    assert a == s[..|a|] && b == t[..|b|];
    assert p == s[|a| + 1..] && q == t[|b| + 1..];
  }

  /** Two targets share a marker file exactly when they have the same port and hosts
      that differ only in characters the file name drops. */
  lemma MarkerShared(h1: string, p1: string, h2: string, p2: string)
    ensures MarkerFile(h1, p1) == MarkerFile(h2, p2) <==> p1 == p2 && HandleCNString(h1) == HandleCNString(h2)
  {
    var a, b := HandleCNString(h1) + "-" + p1, HandleCNString(h2) + "-" + p2;
    if MarkerFile(h1, p1) == MarkerFile(h2, p2) {
      var s := MarkerFile(h1, p1);
      assert s == DIR + a + ".txt" && s == DIR + b + ".txt";
      assert a == s[|DIR|..|s| - 4] == b;
      CutAtDash(HandleCNString(h1), p1, HandleCNString(h2), p2);
    }
  }

  predicate PortNumber(p: string) {
    p != "" && forall i :: 0 <= i < |p| ==> '0' <= p[i] <= '9'
  }

  /** With port numbers no marker file is a fingerprint file. */
  lemma MarkerIsNotExt(h1: string, p1: string, h2: string, p2: string)
    requires PortNumber(p1)
    ensures MarkerFile(h1, p1) != ExtFile(h2, p2)
  {
    var m, e := MarkerFile(h1, p1), ExtFile(h2, p2);
    var s := Stem(h1, p1);
    assert m[|m| - 5] == s[|s| - 1] == p1[|p1| - 1];
    assert e[|e| - 5] == "-ext.txt"[3] == 't';
  }

  /** Hosts that differ in a dot only collide. */
  lemma DotsCollide(host: string, rest: string, port: string)
    ensures MarkerFile(host + "." + rest, port) == MarkerFile(host + rest, port)
  {
    assert host + "." + rest == host + ("." + rest);
    FilterAppend(host, "." + rest, Kept);
    FilterAppend(".", rest, Kept);
    FilterAppend(host, rest, Kept);
    assert Filter(".", Kept) == "";
  }

  // ----- the targets of a spec

  /** An entry "host:port", cut at its first colon. */
  predicate Host(h: string) {
    ':' !in h
  }

  ghost predicate FromSpecs(ts: set<Target>) {
    forall t :: t in ts ==> exists h, p :: Host(h) && PortNumber(p) && t == FromSpec(h, p)
  }

  lemma SameText(h1: string, p1: string, h2: string, p2: string)
    requires Host(h1) && Host(h2) && h1 + ":" + p1 == h2 + ":" + p2
    ensures h1 == h2 && p1 == p2
  {
    SplitPrefix(h1, p1, ':');
    SplitPrefix(h2, p2, ':');
    assert h1 == Split(h1 + ":" + p1, ':')[0] == h2;
    assert p1 == (h1 + ":" + p1)[|h1| + 1..] == p2;
  }

  /** No marker file of a spec's targets is a fingerprint file of one. */
  lemma SpecsSeparate(ts: set<Target>)
    requires FromSpecs(ts)
    ensures Separate(ts)
  {
    forall t, u | t in ts && u in ts ensures t.marker != u.ext {
      var h1, p1 :| Host(h1) && PortNumber(p1) && t == FromSpec(h1, p1);
      var h2, p2 :| Host(h2) && PortNumber(p2) && u == FromSpec(h2, p2);
      MarkerIsNotExt(h1, p1, h2, p2);
    }
  }

  /** No two hosts with the same port differ in dropped characters only. */
  ghost predicate HostsApart(ts: set<Target>) {
    forall h1, h2, p :: Alike(ts, h1, h2, p) ==> h1 == h2
  }

  predicate Alike(ts: set<Target>, h1: string, h2: string, p: string) {
    && Host(h1) && Host(h2) && FromSpec(h1, p) in ts && FromSpec(h2, p) in ts
    && HandleCNString(h1) == HandleCNString(h2)
  }

  lemma SpecsDistinctIff(ts: set<Target>)
    requires FromSpecs(ts)
    ensures MarkersDistinct(ts) <==> HostsApart(ts)
  {
    if HostsApart(ts) {
      forall t, u | t in ts && u in ts && t != u ensures t.marker != u.marker && t.text != u.text {
        var h1, p1 :| Host(h1) && PortNumber(p1) && t == FromSpec(h1, p1);
        var h2, p2 :| Host(h2) && PortNumber(p2) && u == FromSpec(h2, p2);
        MarkerShared(h1, p1, h2, p2);
        if t.text == u.text { SameText(h1, p1, h2, p2); }
        if t.marker == u.marker { assert Alike(ts, h1, h2, p1); }
      }
    }
    if MarkersDistinct(ts) {
      forall h1, h2, p | Alike(ts, h1, h2, p) ensures h1 == h2 {
        MarkerShared(h1, p, h2, p);
        if FromSpec(h1, p) == FromSpec(h2, p) { SameText(h1, p, h2, p); }
      }
    }
  }

  /** So for the targets of specs the runs need no assumption about files, but for hosts
      that share a marker. */
  lemma SpecRuns(inputs: seq<Input>, ts: set<Target>)
    requires Inputs(inputs, ts) && FromSpecs(ts)
    ensures Good(PortScanRuns.RunAll(inputs).port, ts)
    ensures HostsApart(ts) && (forall i :: i in inputs ==> forall a :: a in i.answers ==> MailWorks(i.cfg, a)) ==>
              Consistent(PortScanRuns.RunAll(inputs).port, ts)
    ensures (forall i :: i in inputs ==> forall a :: a in i.answers ==> MailSent(i.cfg, a)) ==>
              NoResolved(PortScanRuns.RunAll(inputs).port.log)
  {
    SpecsSeparate(ts);
    SpecsDistinctIff(ts);
    RunKeepsGood(inputs, ts);
    if forall i :: i in inputs ==> forall a :: a in i.answers ==> MailSent(i.cfg, a) { RunNeverResolves(inputs, ts); }
    if HostsApart(ts) && forall i :: i in inputs ==> forall a :: a in i.answers ==> MailWorks(i.cfg, a) {
      RunKeepsConsistent(inputs, ts);
    }
  }
}
