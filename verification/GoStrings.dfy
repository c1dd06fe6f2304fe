/** The parts of Go's `strings` package that the scans use to print a failure,
    to recognise it again, and to parse its arguments back. */
module GoStrings {

  /** strings.Split on a one-character separator. */
  function Split(s: string, sep: char): (parts: seq<string>)
    ensures |parts| >= 1
    ensures forall p :: p in parts ==> sep !in p
    ensures sep !in s ==> parts == [s]
    ensures sep in s ==> |parts| >= 2
  {
    if s == "" then [""]
    else
      var rest := Split(s[1..], sep);
      assert [s[0]] + s[1..] == s;
      if s[0] == sep then [""] + rest else [[s[0]] + rest[0]] + rest[1..]
  }

  function Join(words: seq<string>, sep: char): string
    requires words != []
  {
    if |words| == 1 then words[0] else words[0] + [sep] + Join(words[1..], sep)
  }

  predicate FreeOf(words: seq<string>, c: char) {
    forall w :: w in words ==> c !in w
  }

  /** strings.Contains */
  predicate Contains(s: string, sub: string) {
    exists i | 0 <= i <= |s| :: OccursAt(s, sub, i)
  }

  predicate OccursAt(s: string, sub: string, i: nat)
    requires i <= |s|
  {
    sub <= s[i..]
  }

  /** strings.Index */
  function Index(s: string, sub: string): (i: int)
    ensures -1 <= i <= |s|
    ensures i >= 0 ==> OccursAt(s, sub, i)
    ensures i >= 0 ==> forall j | 0 <= j < i :: !OccursAt(s, sub, j)
    ensures i < 0 ==> !Contains(s, sub)
  {
    if sub <= s then assert s[0..] == s; 0
    else if s == "" then assert s[0..] == s; -1
    else
      var i := Index(s[1..], sub);
      assert forall j | 0 < j <= |s| :: s[j..] == s[1..][j - 1..];
      assert s[0..] == s;
      assert forall j | 0 < j <= |s| :: OccursAt(s, sub, j) <==> OccursAt(s[1..], sub, j - 1);
      if i < 0 then -1 else i + 1
  }

  /** The part of `s` before the first `sub`, or all of `s`: the first result of
      strings.Cut, and the first element of strings.SplitN(s, sub, 2). */
  function Before(s: string, sub: string): string {
    var i := Index(s, sub);
    if i < 0 then s else s[..i]
  }

  /** strings.Trim(s, c) for one cut character */
  function Trim(s: string, c: char): string
    decreases |s|
  {
    if s != "" && s[0] == c then Trim(s[1..], c)
    else if s != "" && s[|s| - 1] == c then Trim(s[..|s| - 1], c)
    else s
  }

  // ----- Split and Join are inverse

  lemma {:induction false} SplitPrefix(w: string, s: string, sep: char)
    requires sep !in w
    ensures Split(w + [sep] + s, sep) == [w] + Split(s, sep)
  {
    var t := w + [sep] + s;
    if w == "" {
      assert t[1..] == s;
    } else {
      assert t[1..] == w[1..] + [sep] + s;
      SplitPrefix(w[1..], s, sep);
      assert [w[0]] + w[1..] == w;
    }
  }

  lemma {:induction false} SplitJoin(words: seq<string>, sep: char)
    requires words != [] && FreeOf(words, sep)
    ensures Split(Join(words, sep), sep) == words
  {
    if |words| > 1 {
      SplitPrefix(words[0], Join(words[1..], sep), sep);
      SplitJoin(words[1..], sep);
    } else {
      assert words == [words[0]];
    }
  }

  lemma JoinLonger(c: char, words: seq<string>, sep: char)
    requires words != []
    ensures Join([[c] + words[0]] + words[1..], sep) == [c] + Join(words, sep)
  {
    var longer := [[c] + words[0]] + words[1..];
    assert longer[1..] == words[1..];
  }

  lemma JoinEmptyFirst(words: seq<string>, sep: char)
    requires words != []
    ensures Join([""] + words, sep) == [sep] + Join(words, sep)
  {
    assert ([""] + words)[1..] == words;
  }

  lemma {:induction false} JoinSplit(s: string, sep: char)
    ensures Join(Split(s, sep), sep) == s
  {
    if s != "" {
      JoinSplit(s[1..], sep);
      JoinEmptyFirst(Split(s[1..], sep), sep);
      JoinLonger(s[0], Split(s[1..], sep), sep);
    }
  }

  // ----- what a substring test on joined words means

  lemma JoinStep(words: seq<string>, sep: char)
    requires |words| > 1
    ensures |Join(words, sep)| > |words[0]|
    ensures Join(words, sep)[|words[0]|] == sep
    ensures Join(words, sep)[..|words[0]|] == words[0]
    ensures Join(words, sep)[|words[0]| + 1..] == Join(words[1..], sep)
  {
  }

  /** `pat` occurs at word `j` of `words`: its first word may be the end of a word
      and its last word the start of one, the others match exactly. */
  predicate WordsAt(words: seq<string>, pat: seq<string>, j: nat)
    requires |pat| >= 2
  {
    && j + |pat| <= |words|
    && |pat[0]| <= |words[j]| && words[j][|words[j]| - |pat[0]|..] == pat[0]
    && (forall k :: 0 < k < |pat| - 1 ==> words[j + k] == pat[k])
    && pat[|pat| - 1] <= words[j + |pat| - 1]
  }

  lemma {:induction false} PrefixWords(words: seq<string>, pat: seq<string>, sep: char)
    requires words != [] && pat != [] && FreeOf(words, sep) && FreeOf(pat, sep)
    requires Join(pat, sep) <= Join(words, sep)
    ensures |pat| <= |words|
    ensures forall k :: 0 <= k < |pat| - 1 ==> words[k] == pat[k]
    ensures pat[|pat| - 1] <= words[|pat| - 1]
  {
    var w, p := Join(words, sep), Join(pat, sep);
    assert sep !in words[0] && sep !in pat[0] by { assert words[0] in words && pat[0] in pat; }
    var m, n := |words[0]|, |pat[0]|;
    if |pat| > 1 { JoinStep(pat, sep); }
    if |words| > 1 { JoinStep(words, sep); }
    assert forall i | 0 <= i < m :: w[i] == words[0][i] && w[i] != sep;
    assert forall i | 0 <= i < n :: p[i] == pat[0][i] && p[i] == w[i] && w[i] != sep;
    assert n <= m;
    assert pat[0] == p[..n] == w[..n] == words[0][..n];
    if |pat| > 1 {
      assert w[n] == p[n] == sep;
      assert n == m && |words| > 1;
      assert p[n + 1..] <= w[n + 1..];
      PrefixWords(words[1..], pat[1..], sep);
      forall k | 0 <= k < |pat| - 1 ensures words[k] == pat[k] {
        if k > 0 { assert words[1..][k - 1] == pat[1..][k - 1]; }
      }
    }
  }

  lemma WordsAtShift(words: seq<string>, pat: seq<string>, j: nat)
    requires |pat| >= 2 && words != [] && WordsAt(words[1..], pat, j)
    ensures WordsAt(words, pat, j + 1)
  {
    forall k | 0 < k < |pat| - 1 ensures words[j + 1 + k] == pat[k] {
      assert words[1..][j + k] == pat[k];
    }
  }

  /** An occurrence that starts inside the first word starts with the end of it. */
  lemma OccursInHead(words: seq<string>, pat: seq<string>, sep: char, i: nat)
    requires words != [] && |pat| >= 2 && FreeOf(words, sep) && FreeOf(pat, sep)
    requires i <= |words[0]| && Join(pat, sep) <= Join(words, sep)[i..]
    ensures WordsAt(words, pat, 0)
  {
    var tail := [words[0][i..]] + words[1..];
    assert tail[1..] == words[1..];
    assert Join(tail, sep) == Join(words, sep)[i..];
    forall w | w in tail ensures sep !in w {
      if w != words[0][i..] { assert w in words; } else { assert words[0] in words; }
    }
    PrefixWords(tail, pat, sep);
    assert tail[0] == pat[0];
    forall k | 0 < k < |pat| - 1 ensures words[k] == pat[k] { assert tail[k] == pat[k]; }
  }

  lemma {:induction false} ContainsWords(words: seq<string>, pat: seq<string>, sep: char)
    requires words != [] && |pat| >= 2 && FreeOf(words, sep) && FreeOf(pat, sep)
    requires Contains(Join(words, sep), Join(pat, sep))
    ensures exists j: nat :: WordsAt(words, pat, j)
  {
    var s, p := Join(words, sep), Join(pat, sep);
    var i :| 0 <= i <= |s| && OccursAt(s, p, i);
    var n := |words[0]|;
    if i > n {
      JoinStep(words, sep);
      assert s[i..] == Join(words[1..], sep)[i - n - 1..];
      assert OccursAt(Join(words[1..], sep), p, i - n - 1);
      ContainsWords(words[1..], pat, sep);
      var j: nat :| WordsAt(words[1..], pat, j);
      WordsAtShift(words, pat, j);
    } else {
      OccursInHead(words, pat, sep, i);
    }
  }

  lemma {:induction false} JoinAppend(a: seq<string>, b: seq<string>, sep: char)
    requires a != [] && b != []
    ensures Join(a + b, sep) == Join(a, sep) + [sep] + Join(b, sep)
  {
    assert (a + b)[1..] == a[1..] + b;
    if |a| > 1 {
      JoinAppend(a[1..], b, sep);
    }
  }

  /** Consecutive words are found by the substring test. */
  lemma WindowContained(words: seq<string>, pat: seq<string>, j: nat, sep: char)
    requires pat != [] && j + |pat| <= |words| && words[j..j + |pat|] == pat
    ensures Contains(Join(words, sep), Join(pat, sep))
  {
    var pre, post := words[..j], words[j + |pat|..];
    assert words == pre + (pat + post);
    var t := Join(pat + post, sep);
    assert Join(pat, sep) <= t by {
      if post != [] { JoinAppend(pat, post, sep); } else { assert pat + post == pat; }
    }
    if pre != [] {
      JoinAppend(pre, pat + post, sep);
      assert OccursAt(Join(words, sep), Join(pat, sep), |Join(pre, sep)| + 1);
    } else {
      assert words == pat + post;
      assert OccursAt(Join(words, sep), Join(pat, sep), 0);
    }
  }

  /** Text free of the first character of `sub` survives being cut from `sub`. */
  lemma BeforeSuffix(s: string, sub: string, rest: string)
    requires sub != "" && sub[0] !in s
    ensures Before(s + sub + rest, sub) == s
  {
    var t := s + sub + rest;
    assert t[|s|..] == sub + rest;
    assert OccursAt(t, sub, |s|);
    forall j | 0 <= j < |s| ensures !OccursAt(t, sub, j) {
      assert t[j..][0] == s[j];
    }
  }
}
