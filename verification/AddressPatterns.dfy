/** The fourteen unanchored patterns that decide whether text is an IPv4 address. */
module AddressPatterns {

  /** `[0-9]`, and `.`, which matches any character but a newline. */
  datatype Token = Digit | Any

  predicate IsDigit(c: char) {
    '0' <= c <= '9'
  }

  predicate TokenMatches(t: Token, c: char) {
    if t.Digit? then IsDigit(c) else c != '\n'
  }

  /** Four groups of digits with `.` between them. */
  function Pattern(a: nat, b: nat, c: nat, d: nat): (p: seq<Token>)
    ensures |p| == a + b + c + d + 3
    ensures forall k :: 0 <= k < |p| ==>
      p[k] == if k == a || k == a + 1 + b || k == a + 2 + b + c then Any else Digit
  {
    seq(a, _ => Digit) + [Any] + seq(b, _ => Digit) + [Any] + seq(c, _ => Digit) + [Any] + seq(d, _ => Digit)
  }

  predicate MatchesAt(p: seq<Token>, s: string, i: nat) {
    i + |p| <= |s| && forall k :: 0 <= k < |p| ==> TokenMatches(p[k], s[i + k])
  }

  /** regexp.Match without anchors */
  predicate Matches(p: seq<Token>, s: string) {
    exists i | 0 <= i <= |s| :: MatchesAt(p, s, i)
  }

  predicate IsAddress(s: string) {
    || Matches(Pattern(3, 3, 3, 3), s)
    || Matches(Pattern(2, 2, 2, 2), s)
    || Matches(Pattern(2, 2, 3, 3), s)
    || Matches(Pattern(2, 2, 3, 2), s)
    || Matches(Pattern(2, 3, 3, 3), s)
    || Matches(Pattern(3, 2, 2, 2), s)
    || Matches(Pattern(3, 3, 2, 3), s)
    || Matches(Pattern(3, 3, 3, 2), s)
    || Matches(Pattern(2, 3, 2, 2), s)
    || Matches(Pattern(2, 3, 2, 1), s)
    || Matches(Pattern(2, 2, 3, 1), s)
    || Matches(Pattern(2, 3, 2, 1), s)
    || Matches(Pattern(2, 3, 3, 1), s)
    || Matches(Pattern(3, 3, 3, 1), s)
  }

  /** Outer groups that are longer than needed add nothing to an unanchored match. */
  lemma Shorter(a: nat, b: nat, c: nat, d: nat, a': nat, d': nat, s: string)
    requires a' <= a && d' <= d && Matches(Pattern(a, b, c, d), s)
    ensures Matches(Pattern(a', b, c, d'), s)
  {
    var p, q := Pattern(a, b, c, d), Pattern(a', b, c, d');
    var i :| 0 <= i <= |s| && MatchesAt(p, s, i);
    var j := i + (a - a');
    forall k | 0 <= k < |q| ensures TokenMatches(q[k], s[j + k]) {
      assert q[k] == p[k + (a - a')];
      assert s[i + (k + (a - a'))] == s[j + k];
    }
    assert MatchesAt(q, s, j);
  }

  predicate MatchesFour(s: string) {
    || Matches(Pattern(2, 2, 2, 2), s)
    || Matches(Pattern(2, 2, 3, 1), s)
    || Matches(Pattern(2, 3, 2, 1), s)
    || Matches(Pattern(2, 3, 3, 1), s)
  }

  /** Four of the fourteen patterns accept everything the fourteen accept. */
  lemma FourPatterns(s: string)
    ensures IsAddress(s) <==> MatchesFour(s)
  {
    if Matches(Pattern(3, 2, 2, 2), s) { Shorter(3, 2, 2, 2, 2, 2, s); }
    if Matches(Pattern(2, 2, 3, 3), s) { Shorter(2, 2, 3, 3, 2, 1, s); }
    if Matches(Pattern(2, 2, 3, 2), s) { Shorter(2, 2, 3, 2, 2, 1, s); }
    if Matches(Pattern(3, 3, 2, 3), s) { Shorter(3, 3, 2, 3, 2, 1, s); }
    if Matches(Pattern(2, 3, 2, 2), s) { Shorter(2, 3, 2, 2, 2, 1, s); }
    if Matches(Pattern(3, 3, 3, 3), s) { Shorter(3, 3, 3, 3, 2, 1, s); }
    if Matches(Pattern(2, 3, 3, 3), s) { Shorter(2, 3, 3, 3, 2, 1, s); }
    if Matches(Pattern(3, 3, 3, 2), s) { Shorter(3, 3, 3, 2, 2, 1, s); }
    if Matches(Pattern(3, 3, 3, 1), s) { Shorter(3, 3, 3, 1, 2, 1, s); }
  }

  // ----- dotted quads

  predicate Octet(o: string) {
    1 <= |o| <= 3 && forall k :: 0 <= k < |o| ==> IsDigit(o[k])
  }

  function Quad(o1: string, o2: string, o3: string, o4: string): string {
    o1 + "." + o2 + "." + o3 + "." + o4
  }

  lemma QuadDots(o1: string, o2: string, o3: string, o4: string, k: nat)
    requires Octet(o1) && Octet(o2) && Octet(o3) && Octet(o4)
    requires k < |Quad(o1, o2, o3, o4)|
    ensures var c := Quad(o1, o2, o3, o4)[k];
            if k == |o1| || k == |o1| + 1 + |o2| || k == |o1| + 2 + |o2| + |o3| then c == '.' else IsDigit(c)
  {
  }

  /** Position `dot` of the text is outside the match or under a wildcard. */
  predicate UnderWildcard(a: nat, b: nat, c: nat, d: nat, i: nat, dot: nat) {
    || dot < i || dot >= i + a + b + c + d + 3
    || dot == i + a || dot == i + a + 1 + b || dot == i + a + 2 + b + c
  }

  lemma DotUnderWildcard(a: nat, b: nat, c: nat, d: nat, s: string, i: nat, dot: nat)
    requires MatchesAt(Pattern(a, b, c, d), s, i) && dot < |s| && s[dot] == '.'
    ensures UnderWildcard(a, b, c, d, i, dot)
  {
    var p := Pattern(a, b, c, d);
    if i <= dot < i + |p| {
      assert TokenMatches(p[dot - i], s[i + (dot - i)]);
    }
  }

  lemma DotsLineUp(a: nat, b: nat, c: nat, d: nat, l1: nat, l2: nat, l3: nat, l4: nat, i: nat)
    requires 1 <= l1 <= 3 && 1 <= l2 <= 3 && 1 <= l3 <= 3 && 1 <= l4 <= 3
    requires a == 2 && 2 <= b <= 3 && 2 <= c <= 3 && 1 <= d <= 2
    requires i + a + b + c + d <= l1 + l2 + l3 + l4
    requires UnderWildcard(a, b, c, d, i, l1)
    requires UnderWildcard(a, b, c, d, i, l1 + 1 + l2)
    requires UnderWildcard(a, b, c, d, i, l1 + 2 + l2 + l3)
    ensures i + a == l1 && b == l2 && c == l3 && d <= l4
  {
  }

  /** A match with inner groups of at least two digits lines its wildcards up with the
      quad's dots: a run of five or more digits does not fit between two dots. */
  lemma MatchLinesUp(a: nat, b: nat, c: nat, d: nat, o1: string, o2: string, o3: string, o4: string, i: nat)
    requires Octet(o1) && Octet(o2) && Octet(o3) && Octet(o4)
    requires a == 2 && 2 <= b <= 3 && 2 <= c <= 3 && 1 <= d <= 2
    requires MatchesAt(Pattern(a, b, c, d), Quad(o1, o2, o3, o4), i)
    ensures i + a == |o1| && b == |o2| && c == |o3| && d <= |o4|
  {
    var s := Quad(o1, o2, o3, o4);
    QuadDots(o1, o2, o3, o4, |o1|);
    QuadDots(o1, o2, o3, o4, |o1| + 1 + |o2|);
    QuadDots(o1, o2, o3, o4, |o1| + 2 + |o2| + |o3|);
    DotUnderWildcard(a, b, c, d, s, i, |o1|);
    DotUnderWildcard(a, b, c, d, s, i, |o1| + 1 + |o2|);
    DotUnderWildcard(a, b, c, d, s, i, |o1| + 2 + |o2| + |o3|);
    DotsLineUp(a, b, c, d, |o1|, |o2|, |o3|, |o4|, i);
  }

  lemma QuadMatches(a: nat, b: nat, c: nat, d: nat, o1: string, o2: string, o3: string, o4: string)
    requires Octet(o1) && Octet(o2) && Octet(o3) && Octet(o4)
    requires a == 2 && 2 <= b <= 3 && 2 <= c <= 3 && 1 <= d <= 2
    ensures Matches(Pattern(a, b, c, d), Quad(o1, o2, o3, o4)) <==>
              |o1| >= a && |o2| == b && |o3| == c && |o4| >= d
  {
    var p, s := Pattern(a, b, c, d), Quad(o1, o2, o3, o4);
    if Matches(p, s) {
      var i :| 0 <= i <= |s| && MatchesAt(p, s, i);
      MatchLinesUp(a, b, c, d, o1, o2, o3, o4, i);
    }
    if |o1| >= a && |o2| == b && |o3| == c && |o4| >= d {
      var i := |o1| - a;
      forall k | 0 <= k < |p| ensures TokenMatches(p[k], s[i + k]) {
        QuadDots(o1, o2, o3, o4, i + k);
      }
      assert MatchesAt(p, s, i);
    }
  }

  /** Which dotted quads count as addresses: octets of one digit are only allowed last,
      and there only behind an octet of three digits. */
  lemma QuadAccepted(o1: string, o2: string, o3: string, o4: string)
    requires Octet(o1) && Octet(o2) && Octet(o3) && Octet(o4)
    ensures IsAddress(Quad(o1, o2, o3, o4)) <==>
              && |o1| >= 2 && |o2| >= 2 && |o3| >= 2
              && (|o2| == 2 && |o3| == 2 ==> |o4| >= 2)
  {
    FourPatterns(Quad(o1, o2, o3, o4));
    QuadMatches(2, 2, 2, 2, o1, o2, o3, o4);
    QuadMatches(2, 2, 3, 1, o1, o2, o3, o4);
    QuadMatches(2, 3, 2, 1, o1, o2, o3, o4);
    QuadMatches(2, 3, 3, 1, o1, o2, o3, o4);
  }

  /** What is accepted as part of a text is accepted in the whole text. */
  lemma PartOfText(s: string, t: string)
    requires IsAddress(s) && s <= t
    ensures IsAddress(t)
  {
    FourPatterns(s);
    FourPatterns(t);
    forall p | Matches(p, s) ensures Matches(p, t) {
      var i :| 0 <= i <= |s| && MatchesAt(p, s, i);
      assert MatchesAt(p, t, i);
    }
  }
}
