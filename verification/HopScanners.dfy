/** The scanners that read what a speaker pod prints: the next hops of
    `show ip bgp nexthop`, twice, and the route of a load balancer address in
    `show ip bgp`. */
module HopScanners {
  import opened StatusLists
  import opened GoStrings
  import opened AddressPatterns

  datatype Outcome<+T> = Done(value: T) | ReadFailed | Panicked

  // ----- next hops

  function FieldsOf(line: string): (f: seq<string>)
    ensures |f| >= 1 && forall x :: x in f ==> ' ' !in x
  {
    Split(Trim(line, ' '), ' ')
  }

  /** The line and its first field both look like an address. */
  predicate Accepted(line: string) {
    IsAddress(Trim(line, ' ')) && IsAddress(FieldsOf(line)[0])
  }

  predicate Lacking(line: string) {
    Accepted(line) && |FieldsOf(line)| == 1
  }

  /** The accepted first fields, in order. */
  function Hops(lines: seq<string>): seq<string> {
    if lines == [] then []
    else
      var last := lines[|lines| - 1];
      Hops(lines[..|lines| - 1]) + (if Accepted(last) then [FieldsOf(last)[0]] else [])
  }

  /** The accepted first fields, each with the second field behind a colon. */
  function HopEntries(lines: seq<string>): seq<string> {
    if lines == [] then []
    else HopEntries(lines[..|lines| - 1]) + EntryOf(lines[|lines| - 1])
  }

  /** The two tests both scanners make on a line. */
  method ScanLine(line: string) returns (fields: seq<string>, accepted: bool)
    ensures fields == FieldsOf(line) && accepted == Accepted(line)
  {
    var trimmed := Trim(line, ' ');
    fields := Split(trimmed, ' ');
    accepted := false;
    if IsAddress(trimmed) {
      if IsAddress(fields[0]) {
        accepted := true;
      }
    }
  }

  /** The entry of one line, if it is accepted. */
  function EntryOf(line: string): seq<string> {
    var f := FieldsOf(line);
    if Accepted(line) && |f| > 1 then [f[0] + ":" + f[1]] else []
  }

  method ScanEntry(line: string) returns (entry: seq<string>, panicked: bool)
    ensures panicked == Lacking(line) && entry == EntryOf(line)
  {
    var fields, accepted := ScanLine(line);
    entry, panicked := [], false;
    if accepted {
      if |fields| == 1 {
        panicked := true;
      } else {
        entry := [fields[0] + ":" + fields[1]];
      }
    }
  }

  predicate SomeLacking(lines: seq<string>) {
    lines != [] && (SomeLacking(lines[..|lines| - 1]) || Lacking(lines[|lines| - 1]))
  }

  lemma {:induction false} SomeLackingIff(lines: seq<string>)
    ensures SomeLacking(lines) <==> exists l :: l in lines && Lacking(l)
  {
    if lines != [] {
      var front, last := lines[..|lines| - 1], lines[|lines| - 1];
      assert lines == front + [last];
      SomeLackingIff(front);
    }
  }

  lemma {:induction false} LackingStays(lines: seq<string>, i: nat)
    requires i <= |lines| && SomeLacking(lines[..i])
    ensures SomeLacking(lines)
  {
    if i < |lines| {
      assert lines[..|lines| - 1][..i] == lines[..i];
      LackingStays(lines[..|lines| - 1], i);
    } else {
      assert lines[..i] == lines;
    }
  }

  method ScanEntries(lines: seq<string>) returns (hops: seq<string>, panicked: bool)
    ensures panicked <==> SomeLacking(lines)
    ensures !panicked ==> hops == HopEntries(lines)
  {
    hops := [];
    for i := 0 to |lines|
      invariant hops == HopEntries(lines[..i]) && !SomeLacking(lines[..i])
    {
      assert lines[..i + 1][..i] == lines[..i];
      var entry;
      entry, panicked := ScanEntry(lines[i]);
      if panicked {
        LackingStays(lines, i + 1);
        return;
      }
      hops := hops + entry;
    }
    panicked := false;
    assert lines[..|lines|] == lines;
  }

  method RetrieveBGPHop(content: Option<string>) returns (r: Outcome<seq<string>>)
    ensures content.None? ==> r == ReadFailed
    ensures content.Some? ==>
              var lines := Split(content.value, '\n');
              r == if exists l :: l in lines && Lacking(l) then Panicked else Done(HopEntries(lines))
  {
    if content.None? {
      return ReadFailed;
    }
    SomeLackingIff(Split(content.value, '\n'));
    var hops, panicked := ScanEntries(Split(content.value, '\n'));
    r := if panicked then Panicked else Done(hops);
  }

  method IsExistBGPHop(content: Option<string>, hop: string) returns (r: Outcome<bool>)
    ensures content.None? ==> r == ReadFailed
    ensures content.Some? ==> r == Done(hop in Hops(Split(content.value, '\n')))
  {
    if content.None? {
      return ReadFailed;
    }
    var lines := Split(content.value, '\n');
    var hops := [];
    for i := 0 to |lines|
      invariant hops == Hops(lines[..i])
    {
      assert lines[..i + 1][..i] == lines[..i];
      var fields, accepted := ScanLine(lines[i]);
      if accepted {
        hops := hops + [fields[0]];
      }
    }
    assert lines[..|lines|] == lines;
    return Done(hop in hops);
  }

  /** The address a caller takes from an entry: strings.Split(entry, ":")[0]. */
  function AddressOf(entry: string): string {
    Split(entry, ':')[0]
  }

  ghost predicate Retrieved(lines: seq<string>, hop: string) {
    exists e :: e in HopEntries(lines) && AddressOf(e) == hop
  }

  lemma {:induction false} EntriesMatchHops(lines: seq<string>)
    requires forall l :: l in lines ==> !Lacking(l)
    ensures |HopEntries(lines)| == |Hops(lines)|
    ensures forall i :: 0 <= i < |Hops(lines)| ==>
      AddressOf(HopEntries(lines)[i]) == AddressOf(Hops(lines)[i])
  {
    if lines != [] {
      var front, last := lines[..|lines| - 1], lines[|lines| - 1];
      assert lines == front + [last];
      EntriesMatchHops(front);
      assert last in lines;
      if Accepted(last) { FirstPart(FieldsOf(last)[0], FieldsOf(last)[1]); }
    }
  }

  lemma {:induction false} FirstPart(f: string, g: string)
    ensures AddressOf(f + ":" + g) == AddressOf(f)
  {
    var t := f + ":" + g;
    if f == "" {
      assert t[0] == ':';
      assert Split(t, ':') == [""] + Split(t[1..], ':');
    } else {
      assert t[1..] == f[1..] + ":" + g;
      FirstPart(f[1..], g);
    }
  }

  /** The two scanners name the same hops exactly when no accepted field holds a colon,
      which the address patterns allow because `.` matches it. */
  lemma ScannersAgree(lines: seq<string>)
    requires forall l :: l in lines ==> !Lacking(l)
    ensures (forall hop :: hop in Hops(lines) <==> Retrieved(lines, hop)) <==>
              (forall h :: h in Hops(lines) ==> ':' !in h)
  {
    var hops, entries := Hops(lines), HopEntries(lines);
    EntriesMatchHops(lines);
    if forall h :: h in hops ==> ':' !in h {
      forall hop ensures hop in hops <==> Retrieved(lines, hop) {
        if hop in hops {
          var i :| 0 <= i < |hops| && hops[i] == hop;
          assert AddressOf(entries[i]) == AddressOf(hops[i]) == hop;
        }
        if Retrieved(lines, hop) {
          var i :| 0 <= i < |entries| && AddressOf(entries[i]) == hop;
          assert hops[i] in hops;
        }
      }
    }
    if forall hop :: hop in hops <==> Retrieved(lines, hop) {
      forall h | h in hops ensures ':' !in h {
        var e :| e in entries && AddressOf(e) == h;
        assert h in Split(e, ':');
      }
    }
  }

  /** For an address without a colon the retrieving scanner finds whatever the other
      finds; the converse needs the accepted fields to be free of colons. */
  lemma RetrievesMore(lines: seq<string>, hop: string)
    requires (forall l :: l in lines ==> !Lacking(l)) && ':' !in hop
    ensures hop in Hops(lines) ==> Retrieved(lines, hop)
    ensures Retrieved(lines, hop) && (forall h :: h in Hops(lines) ==> ':' !in h) ==> hop in Hops(lines)
  {
    var hops, entries := Hops(lines), HopEntries(lines);
    EntriesMatchHops(lines);
    if hop in hops {
      var i :| 0 <= i < |hops| && hops[i] == hop;
      assert AddressOf(entries[i]) == AddressOf(hops[i]) == hop;
    }
    if Retrieved(lines, hop) {
      var i :| 0 <= i < |entries| && AddressOf(entries[i]) == hop;
      assert hops[i] in hops;
    }
  }

  lemma SplitHead(s: string, sep: char)
    ensures Split(s, sep)[0] <= s
  {
    JoinSplit(s, sep);
    var parts := Split(s, sep);
    if |parts| > 1 { JoinStep(parts, sep); }
  }

  /** The first field decides: the test on the whole line adds nothing. */
  lemma FirstFieldDecides(line: string)
    ensures Accepted(line) <==> IsAddress(FieldsOf(line)[0])
  {
    SplitHead(Trim(line, ' '), ' ');
    if IsAddress(FieldsOf(line)[0]) { PartOfText(FieldsOf(line)[0], Trim(line, ' ')); }
  }

  lemma {:induction false} TrimTail(w: string, rest: string)
    requires w != "" && ' ' !in w
    ensures exists kept :: kept <= rest && Trim(w + rest, ' ') == w + kept
    decreases |rest|
  {
    var s := w + rest;
    assert s[0] == w[0] && w[0] in w;
    if rest == "" {
      assert s == w && w[|w| - 1] in w;
      assert Trim(s, ' ') == w + "";
    } else if s[|s| - 1] == ' ' {
      var front := rest[..|rest| - 1];
      assert s[..|s| - 1] == w + front;
      TrimTail(w, front);
      var kept :| kept <= front && Trim(w + front, ' ') == w + kept;
      assert kept <= rest;
    } else {
      assert Trim(s, ' ') == w + rest;
    }
  }

  /** A next hop printed at the start of a line is picked up iff the patterns accept
      its octets; 10.1.1.1 is not. */
  lemma PrintedHopAccepted(o1: string, o2: string, o3: string, o4: string, rest: string)
    requires Octet(o1) && Octet(o2) && Octet(o3) && Octet(o4)
    ensures FieldsOf(Quad(o1, o2, o3, o4) + " " + rest)[0] == Quad(o1, o2, o3, o4)
    ensures Accepted(Quad(o1, o2, o3, o4) + " " + rest) <==>
              && |o1| >= 2 && |o2| >= 2 && |o3| >= 2
              && (|o2| == 2 && |o3| == 2 ==> |o4| >= 2)
  {
    var q := Quad(o1, o2, o3, o4);
    assert ' ' !in q by {
      forall k | 0 <= k < |q| ensures q[k] != ' ' { QuadDots(o1, o2, o3, o4, k); }
    }
    assert q + " " + rest == q + (" " + rest);
    TrimTail(q, " " + rest);
    var kept :| kept <= " " + rest && Trim(q + (" " + rest), ' ') == q + kept;
    if kept == "" {
      assert q + kept == q;
    } else {
      assert kept[0] == ' ';
      assert q + kept == q + [' '] + kept[1..];
      SplitPrefix(q, kept[1..], ' ');
    }
    FirstFieldDecides(q + " " + rest);
    QuadAccepted(o1, o2, o3, o4);
  }

  // ----- the route of a load balancer address

  datatype RouteStatus = RouteStatus(advertised: bool, validBest: bool, status: string)

  const NO_ROUTE := RouteStatus(false, false, "")

  /** A line of the table whose second field is the route. */
  predicate Lists(line: string, route: string) {
    var flds := Split(line, ' ');
    |flds| > 1 && flds[1] == route
  }

  /** What the first line that contains the route yields. */
  function Reading(line: string, route: string): Outcome<RouteStatus> {
    var flds := Split(line, ' ');
    if |flds| == 1 then Panicked
    else if flds[1] == route then Done(RouteStatus(true, flds[0] == "*>", flds[0]))
    else Done(NO_ROUTE)
  }

  ghost predicate FirstMention(lines: seq<string>, route: string, k: int) {
    && 0 <= k < |lines| && Contains(lines[k], route)
    && forall j :: 0 <= j < k ==> !Contains(lines[j], route)
  }

  /** What the table says of a route from its `i`-th line on. */
  function ReadTable(lines: seq<string>, route: string, i: nat): Outcome<RouteStatus>
    requires i <= |lines|
    decreases |lines| - i
  {
    if i == |lines| then Done(NO_ROUTE)
    else if Contains(lines[i], route) then Reading(lines[i], route)
    else ReadTable(lines, route, i + 1)
  }

  function RouteIn(content: Option<string>, lbip: string): Outcome<RouteStatus> {
    if content.None? then ReadFailed else ReadTable(Split(content.value, '\n'), lbip + "/32", 0)
  }

  method CheckLBIPRoute(content: Option<string>, lbip: string) returns (r: Outcome<RouteStatus>)
    ensures r == RouteIn(content, lbip)
    ensures content.None? ==> r == ReadFailed
    ensures content.Some? ==>
              var lines, route := Split(content.value, '\n'), lbip + "/32";
              && (forall k :: FirstMention(lines, route, k) ==> r == Reading(lines[k], route))
              && ((forall k :: !FirstMention(lines, route, k)) ==> r == Done(NO_ROUTE))
  {
    if content.None? {
      return ReadFailed;
    }
    var route := lbip + "/32";
    var lines := Split(content.value, '\n');
    for i := 0 to |lines|
      invariant forall k :: 0 <= k < i ==> !Contains(lines[k], route)
      invariant ReadTable(lines, route, 0) == ReadTable(lines, route, i)
    {
      if Contains(lines[i], route) {
        assert FirstMention(lines, route, i);
        var flds := Split(lines[i], ' ');
        if |flds| == 1 {
          return Panicked;
        }
        if flds[0] == "*>" && flds[1] == route {
          return Done(RouteStatus(true, true, flds[0]));
        } else if flds[0] != "*>" && flds[1] == route {
          return Done(RouteStatus(true, false, flds[0]));
        } else {
          return Done(NO_ROUTE);
        }
      }
    }
    return Done(NO_ROUTE);
  }

  lemma ListedIsMentioned(line: string, route: string)
    requires Lists(line, route)
    ensures Contains(line, route)
  {
    var flds := Split(line, ' ');
    assert flds[1..2] == [route];
    WindowContained(flds, [route], 1, ' ');
    JoinSplit(line, ' ');
  }

  /** A route is found iff some line lists it and no earlier line contains its text,
      as the line of a longer address with the same ending does. */
  lemma RouteFoundIff(lines: seq<string>, route: string, k: int)
    requires FirstMention(lines, route, k) && Reading(lines[k], route).Done?
    ensures Reading(lines[k], route).value.advertised <==>
              exists i :: 0 <= i < |lines| && Lists(lines[i], route) &&
                forall j :: 0 <= j < i ==> !Contains(lines[j], route)
    ensures (exists i :: 0 <= i < |lines| && Lists(lines[i], route)) && !Reading(lines[k], route).value.advertised ==>
              Contains(lines[k], route) && !Lists(lines[k], route)
  {
    forall i | 0 <= i < |lines| && Lists(lines[i], route) ensures Contains(lines[i], route) {
      ListedIsMentioned(lines[i], route);
    }
  }

  lemma StarFirst(line: string)
    requires |Split(line, ' ')| > 1
    ensures Split(line, ' ')[0] == "*>" <==> |line| >= 3 && line[..3] == "*> "
  {
    var flds := Split(line, ' ');
    JoinSplit(line, ' ');
    assert line == flds[0] + [' '] + Join(flds[1..], ' ');
    if |line| >= 3 && line[..3] == "*> " {
      assert line == "*>" + [' '] + line[3..];
      SplitPrefix("*>", line[3..], ' ');
    }
  }

  /** A route is found as the best iff the first line that mentions it lists it and starts
      with the mark of the best route. */
  lemma BestRouteIff(lines: seq<string>, route: string, k: int)
    requires FirstMention(lines, route, k) && Reading(lines[k], route).Done?
    ensures Reading(lines[k], route).value.validBest <==>
              Lists(lines[k], route) && |lines[k]| >= 3 && lines[k][..3] == "*> "
    ensures Reading(lines[k], route).value.advertised <==> Lists(lines[k], route)
  {
    if |Split(lines[k], ' ')| > 1 { StarFirst(lines[k]); }
  }

  /** Some line lists the route, and no earlier one contains its text. */
  ghost predicate RouteListed(lines: seq<string>, route: string, best: bool) {
    exists i :: 0 <= i < |lines| && Lists(lines[i], route) && (best ==> |lines[i]| >= 3 && lines[i][..3] == "*> ") &&
      forall j :: 0 <= j < i ==> !Contains(lines[j], route)
  }

  lemma {:induction false} TableFrom(lines: seq<string>, route: string, i: nat)
    requires i <= |lines| && (forall j :: 0 <= j < i ==> !Contains(lines[j], route))
    requires ReadTable(lines, route, i).Done?
    ensures var r := ReadTable(lines, route, i).value;
            (r.advertised <==> RouteListed(lines, route, false)) && (r.validBest <==> RouteListed(lines, route, true))
    decreases |lines| - i
  {
    forall k | 0 <= k < |lines| && Lists(lines[k], route) ensures Contains(lines[k], route) {
      ListedIsMentioned(lines[k], route);
    }
    if i < |lines| {
      if Contains(lines[i], route) { BestRouteIff(lines, route, i); } else { TableFrom(lines, route, i + 1); }
    }
  }

  /** The table answers that the route is advertised, or the best, iff it is listed so. */
  lemma TableMeaning(lines: seq<string>, route: string)
    requires ReadTable(lines, route, 0).Done?
    ensures var r := ReadTable(lines, route, 0).value;
            (r.advertised <==> RouteListed(lines, route, false)) && (r.validBest <==> RouteListed(lines, route, true))
  {
    TableFrom(lines, route, 0);
  }
}
