/** When one vanished-pod pass does its whole job. */
module VanishedExact {
  import opened StatusLists
  import opened GoSlices
  import opened VanishedPods

  // ----- one deletion, for any test on the entries

  /** Behind iteration `i` nothing is stale, but for a last entry that was skipped and
      whose copy is read next. */
  ghost predicate Behind(b: seq<string>, n: nat, i: nat, stale: string -> bool) {
    n <= |b| && forall j :: 0 <= j < i && j < n && stale(b[j]) ==> j + 1 == n == i < |b| && b[n] == b[j]
  }

  /** Ahead of it no two neighbors are stale, but for the last two. */
  ghost predicate Ahead(b: seq<string>, n: nat, i: nat, stale: string -> bool) {
    n <= |b| && forall j :: i <= j < n - 2 ==> !(stale(b[j]) && stale(b[j + 1]))
  }

  /** Iteration `i` deletes index `v`: a stale entry, and the entry read if that one is
      stale and still in the slice. */
  ghost predicate Deletes(b: seq<string>, n: nat, i: nat, v: nat, stale: string -> bool) {
    && v < n <= |b| && i < |b| && NoDup(b[..n]) && stale(b[v])
    && (stale(b[i]) && b[i] in b[..n] ==> b[v] == b[i])
  }

  lemma ShiftAt(b: seq<string>, n: nat, v: nat, j: nat)
    requires v < n <= |b| && j < |b|
    ensures Shift(b, n, v)[j] == if v <= j < n - 1 then b[j + 1] else b[j]
  {
  }

  lemma SameIndex(b: seq<string>, n: nat, j: nat, k: nat)
    requires n <= |b| && NoDup(b[..n]) && j < n && k < n && b[j] == b[k]
    ensures j == k
  {
    assert b[..n][j] == b[..n][k];
  }

  /** A deletion never happens behind the entry that is read. */
  lemma DeletesAhead(b: seq<string>, n: nat, i: nat, v: nat, stale: string -> bool)
    requires Behind(b, n, i, stale) && Deletes(b, n, i, v, stale)
    ensures i < n ==> i <= v && (v > i ==> !stale(b[i]))
    ensures i >= n ==> v == n - 1
  {
    if i < n && stale(b[i]) {
      assert b[..n][i] == b[i];
      SameIndex(b, n, v, i);
    }
  }

  lemma BehindDeleted(b: seq<string>, n: nat, i: nat, v: nat, stale: string -> bool)
    requires Behind(b, n, i, stale) && Ahead(b, n, i, stale) && Deletes(b, n, i, v, stale)
    ensures Behind(Shift(b, n, v), n - 1, i + 1, stale)
  {
    var c := Shift(b, n, v);
    DeletesAhead(b, n, i, v, stale);
    forall j | 0 <= j < i + 1 && j < n - 1 && stale(c[j]) ensures j + 1 == n - 1 == i + 1 < |c| && c[n - 1] == c[j] {
      ShiftAt(b, n, v, j);
      ShiftAt(b, n, v, n - 1);
    }
  }

  lemma AheadDeleted(b: seq<string>, n: nat, i: nat, v: nat, stale: string -> bool)
    requires Behind(b, n, i, stale) && Ahead(b, n, i, stale) && Deletes(b, n, i, v, stale)
    ensures Ahead(Shift(b, n, v), n - 1, i + 1, stale)
  {
    var c := Shift(b, n, v);
    forall j | i + 1 <= j < n - 3 ensures !(stale(c[j]) && stale(c[j + 1])) {
      ShiftAt(b, n, v, j);
      ShiftAt(b, n, v, j + 1);
      assert !(stale(b[j]) && stale(b[j + 1])) && !(stale(b[j + 1]) && stale(b[j + 2]));
    }
  }

  lemma BehindRead(b: seq<string>, n: nat, i: nat, stale: string -> bool)
    requires Behind(b, n, i, stale) && i < |b| && (stale(b[i]) ==> b[i] !in b[..n])
    ensures Behind(b, n, i + 1, stale)
  {
    if i < n {
      assert b[..n][i] == b[i];
    } else if n > 0 {
      assert b[..n][n - 1] == b[n - 1];
    }
  }

  // ----- without vanished neighbors the pass cleans every list

  function Gone(ns: string, gone: string -> bool): string -> bool {
    e => Vanished(e, ns, gone)
  }

  /** Two neighbors are stale, and there is an entry behind them. */
  predicate Neighbors(s: seq<string>, stale: string -> bool) {
    exists i :: 0 <= i < |s| - 2 && stale(s[i]) && stale(s[i + 1])
  }

  lemma VictimDeletes(b: seq<string>, n: nat, i: nat, ns: string, gone: string -> bool)
    requires Sound(b, n) && i < |b|
    ensures var v := Victim(b[..n], b[i], ns, gone);
            if v >= 0 then Deletes(b, n, i, v, Gone(ns, gone))
            else Gone(ns, gone)(b[i]) ==> b[i] !in b[..n]
  {
    assert b[i] in b;
    var v := Victim(b[..n], b[i], ns, gone);
    if v >= 0 { VictimVanished(b[..n], b[i], ns, gone); }
  }

  ghost predicate NoneLeft(r: (seq<string>, nat), stale: string -> bool) {
    r.1 <= |r.0| && forall j :: 0 <= j < r.1 ==> !stale(r.0[j])
  }

  ghost predicate Spaced(b: seq<string>, n: nat, i: nat, ns: string, gone: string -> bool) {
    Sound(b, n) && i <= |b| && Behind(b, n, i, Gone(ns, gone)) && Ahead(b, n, i, Gone(ns, gone))
  }

  lemma SpacedRead(b: seq<string>, n: nat, i: nat, ns: string, gone: string -> bool)
    requires Spaced(b, n, i, ns, gone) && i < |b| && Victim(b[..n], b[i], ns, gone) < 0
    ensures Spaced(b, n, i + 1, ns, gone)
  {
    VictimDeletes(b, n, i, ns, gone);
    BehindRead(b, n, i, Gone(ns, gone));
  }

  lemma SpacedDelete(b: seq<string>, n: nat, i: nat, v: nat, ns: string, gone: string -> bool)
    requires Spaced(b, n, i, ns, gone) && i < |b| && Victim(b[..n], b[i], ns, gone) == v
    ensures v < n && Spaced(Shift(b, n, v), n - 1, i + 1, ns, gone)
  {
    VictimDeletes(b, n, i, ns, gone);
    DeletionSound(b, n, i, ns, gone);
    BehindDeleted(b, n, i, v, Gone(ns, gone));
    AheadDeleted(b, n, i, v, Gone(ns, gone));
  }

  lemma SpacedAtEnd(b: seq<string>, n: nat, ns: string, gone: string -> bool)
    requires Spaced(b, n, |b|, ns, gone)
    ensures NoneLeft((b, n), Gone(ns, gone))
  {
  }

  ghost predicate Cleans(b: seq<string>, n: nat, i: nat, ns: string, gone: string -> bool) {
    n <= |b| && i <= |b| && NoneLeft(PassFrom(b, n, i, ns, gone), Gone(ns, gone))
  }

  lemma {:induction false} SpacedCleans(b: seq<string>, n: nat, i: nat, ns: string, gone: string -> bool)
    requires Spaced(b, n, i, ns, gone)
    ensures Cleans(b, n, i, ns, gone)
    decreases |b| - i, 1
  {
    if i == |b| {
      SpacedAtEnd(b, n, ns, gone);
    } else if Victim(b[..n], b[i], ns, gone) < 0 {
      SpacedCleansReading(b, n, i, ns, gone);
    } else {
      SpacedCleansDeleting(b, n, i, ns, gone);
    }
  }

  lemma {:induction false} SpacedCleansReading(b: seq<string>, n: nat, i: nat, ns: string, gone: string -> bool)
    requires Spaced(b, n, i, ns, gone) && i < |b| && Victim(b[..n], b[i], ns, gone) < 0
    ensures Cleans(b, n, i, ns, gone)
    decreases |b| - i, 0
  {
    SpacedRead(b, n, i, ns, gone);
    SpacedCleans(b, n, i + 1, ns, gone);
  }

  lemma {:induction false} SpacedCleansDeleting(b: seq<string>, n: nat, i: nat, ns: string, gone: string -> bool)
    requires Spaced(b, n, i, ns, gone) && i < |b| && Victim(b[..n], b[i], ns, gone) >= 0
    ensures Cleans(b, n, i, ns, gone)
    decreases |b| - i, 0
  {
    var v := Victim(b[..n], b[i], ns, gone);
    SpacedDelete(b, n, i, v, ns, gone);
    SpacedCleans(Shift(b, n, v), n - 1, i + 1, ns, gone);
  }

  /** One pass over a list without vanished neighbors, the last two entries aside,
      leaves exactly the entries that have not vanished, in their old order. */
  lemma PassCleansSpaced(s: seq<string>, ns: string, gone: string -> bool)
    requires Entries(s) && !Neighbors(s, Gone(ns, gone))
    ensures Pass(s, ns, gone) == Filter(s, Present(ns, gone))
  {
    assert s[..|s|] == s;
    SpacedCleans(s, |s|, 0, ns, gone);
    PassLaw(s, ns, gone);
    var r := Pass(s, ns, gone);
    forall e | e in r ensures Present(ns, gone)(e) {
      var j :| 0 <= j < |r| && r[j] == e;
    }
    FilterAll(r, Present(ns, gone));
  }

  // ----- with them it leaves some, when every pod is listed once

  ghost predicate DistinctPods(s: seq<string>) {
    forall i, j :: 0 <= i < j < |s| ==> PodOf(s[i]) != PodOf(s[j])
  }

  /** What a pass leaves when every pod is listed once: the entry behind a deleted one is
      skipped, and only if it is the last one is its copy read afterwards. */
  function Kept(s: seq<string>, stale: string -> bool): seq<string> {
    if s == [] then []
    else if !stale(s[0]) then [s[0]] + Kept(s[1..], stale)
    else if |s| == 1 then []
    else if |s| == 2 then if stale(s[1]) then [] else [s[1]]
    else [s[1]] + Kept(s[2..], stale)
  }

  /** An entry read at `i` or later that names the pod of a listed entry is that entry. */
  ghost predicate OwnPods(b: seq<string>, n: nat, i: nat) {
    n <= |b| && forall j, k :: 0 <= j < n && i <= k < |b| && PodOf(b[j]) == PodOf(b[k]) ==> b[j] == b[k]
  }

  lemma OwnVictim(b: seq<string>, n: nat, i: nat, ns: string, gone: string -> bool)
    requires Sound(b, n) && OwnPods(b, n, i) && i < |b|
    ensures var v := Victim(b[..n], b[i], ns, gone);
            v >= 0 <==> Gone(ns, gone)(b[i]) && b[i] in b[..n]
    ensures var v := Victim(b[..n], b[i], ns, gone);
            v >= 0 ==> b[v] == b[i]
  {
    var v := Victim(b[..n], b[i], ns, gone);
    assert b[i] in b;
    if v >= 0 {
      PodOfKey(PodOf(b[i]), ns);
      assert b[..n][v] == Key(PodOf(b[i]), ns);
    }
  }

  lemma OwnPodsDeleted(b: seq<string>, n: nat, i: nat, v: nat)
    requires OwnPods(b, n, i) && v < n && i < |b|
    requires i < n ==> v == i
    ensures OwnPods(Shift(b, n, v), n - 1, i + 1)
  {
    var c := Shift(b, n, v);
    forall j, k | 0 <= j < n - 1 && i + 1 <= k < |b| && PodOf(c[j]) == PodOf(c[k]) ensures c[j] == c[k] {
      ShiftAt(b, n, v, j);
      ShiftAt(b, n, v, k);
    }
  }

  /** Behind the slice nothing is deleted once no copy of a listed vanished entry is
      left. */
  lemma {:induction false} TailRead(b: seq<string>, n: nat, i: nat, ns: string, gone: string -> bool)
    requires Sound(b, n) && OwnPods(b, n, i) && n <= i <= |b|
    requires forall k :: i <= k < |b| ==> !(Gone(ns, gone)(b[k]) && b[k] in b[..n])
    ensures PassFrom(b, n, i, ns, gone) == (b, n)
    decreases |b| - i
  {
    if i < |b| {
      OwnVictim(b, n, i, ns, gone);
      TailRead(b, n, i + 1, ns, gone);
    }
  }

  ghost predicate EndsAs(r: (seq<string>, nat), t: seq<string>) {
    r.1 <= |r.0| && r.0[..r.1] == t
  }

  /** Before iteration `i` the last listed entry is still there, and its copies fill the
      array behind it. */
  ghost predicate Distinct(b: seq<string>, n: nat, i: nat) {
    && Sound(b, n) && i < n && OwnPods(b, n, i)
    && forall j :: n - 1 <= j < |b| ==> b[j] == b[n - 1]
  }

  /** From iteration `i` on, the pass keeps what is behind it and Kept of the rest. */
  ghost predicate AsKept(b: seq<string>, n: nat, i: nat, ns: string, gone: string -> bool) {
    i <= n <= |b| && EndsAs(PassFrom(b, n, i, ns, gone), b[..i] + Kept(b[i..n], Gone(ns, gone)))
  }

  lemma DistinctDeleted(b: seq<string>, n: nat, i: nat, ns: string, gone: string -> bool)
    requires Distinct(b, n, i) && Gone(ns, gone)(b[i])
    ensures Victim(b[..n], b[i], ns, gone) == i
    ensures var c := Shift(b, n, i);
            Sound(c, n - 1) && OwnPods(c, n - 1, i + 1) && forall j :: n - 1 <= j < |b| ==> c[j] == b[n - 1]
  {
    assert b[..n][i] == b[i];
    OwnVictim(b, n, i, ns, gone);
    SameIndex(b, n, Victim(b[..n], b[i], ns, gone), i);
    DeletionSound(b, n, i, ns, gone);
    OwnPodsDeleted(b, n, i, i);
    forall j | n - 1 <= j < |b| ensures Shift(b, n, i)[j] == b[n - 1] { ShiftAt(b, n, i, j); }
  }

  lemma PassLast(b: seq<string>, n: nat, i: nat, ns: string, gone: string -> bool)
    requires Distinct(b, n, i) && i + 1 == n
    ensures AsKept(b, n, i, ns, gone)
  {
    assert b[i..n] == [b[i]] && b[..n] == b[..i] + [b[i]];
    if Gone(ns, gone)(b[i]) {
      DistinctDeleted(b, n, i, ns, gone);
      var c := Shift(b, n, i);
      assert c[..n - 1] == b[..i];
      assert b[i] !in b[..i];
      TailRead(c, n - 1, i + 1, ns, gone);
    } else {
      OwnVictim(b, n, i, ns, gone);
      TailRead(b, n, i + 1, ns, gone);
    }
  }

  lemma SkipsLast(b: seq<string>, n: nat, i: nat, ns: string, gone: string -> bool)
    requires Distinct(b, n, i) && i + 2 == n && Gone(ns, gone)(b[i])
    ensures var c, last := Shift(b, n, i), b[n - 1];
            && Victim(b[..n], b[i], ns, gone) == i && b[i..n] == [b[i], last]
            && Sound(c, n - 1) && OwnPods(c, n - 1, n - 1)
            && c[..n - 1] == b[..i] + [last] && forall j :: n - 2 <= j < |b| ==> c[j] == last
  {
    DistinctDeleted(b, n, i, ns, gone);
    ShiftSlices(b, n, i);
    assert Shift(b, n, i)[..n - 1][n - 2] == b[n - 1];
  }

  lemma PassLastTwo(b: seq<string>, n: nat, i: nat, ns: string, gone: string -> bool)
    requires Distinct(b, n, i) && i + 2 == n && Gone(ns, gone)(b[i])
    ensures AsKept(b, n, i, ns, gone)
  {
    var c := Shift(b, n, i);
    SkipsLast(b, n, i, ns, gone);
    OwnVictim(c, n - 1, n - 1, ns, gone);
    if Gone(ns, gone)(b[n - 1]) {
      assert c[..n - 1][n - 2] == c[n - 1];
      SameIndex(c, n - 1, Victim(c[..n - 1], c[n - 1], ns, gone), n - 2);
      SkippedLast(c, n - 1, ns, gone);
    } else {
      TailRead(c, n - 1, n, ns, gone);
    }
  }

  lemma LastOnce(b: seq<string>, n: nat)
    requires Sound(b, n) && n > 0
    ensures b[n - 1] !in b[..n - 1]
  {
    if b[n - 1] in b[..n - 1] {
      var j :| 0 <= j < n - 1 && b[..n - 1][j] == b[n - 1];
      SameIndex(b, n, j, n - 1);
    }
  }

  /** A vanished last entry whose copy is read right behind the slice. */
  lemma SkippedLast(c: seq<string>, n: nat, ns: string, gone: string -> bool)
    requires Sound(c, n) && 0 < n < |c| && OwnPods(c, n, n)
    requires (forall j :: n - 1 <= j < |c| ==> c[j] == c[n - 1]) && Victim(c[..n], c[n], ns, gone) == n - 1
    ensures EndsAs(PassFrom(c, n, n, ns, gone), c[..n - 1])
  {
    LastOnce(c, n);
    DeletionSound(c, n, n, ns, gone);
    OwnPodsDeleted(c, n, n, n - 1);
    ShiftLast(c, n);
    TailRead(c, n - 1, n + 1, ns, gone);
  }

  lemma ShiftLast(c: seq<string>, n: nat)
    requires 0 < n <= |c|
    ensures Shift(c, n, n - 1) == c
  {
    forall j | 0 <= j < |c| ensures Shift(c, n, n - 1)[j] == c[j] { ShiftAt(c, n, n - 1, j); }
  }

  lemma PassReads(b: seq<string>, n: nat, i: nat, ns: string, gone: string -> bool)
    requires Distinct(b, n, i) && i + 1 < n && !Gone(ns, gone)(b[i])
    requires AsKept(b, n, i + 1, ns, gone)
    ensures AsKept(b, n, i, ns, gone)
  {
    OwnVictim(b, n, i, ns, gone);
    KeptReads(b, n, i, Gone(ns, gone));
    assert PassFrom(b, n, i, ns, gone) == PassFrom(b, n, i + 1, ns, gone);
  }

  lemma KeptReads(b: seq<string>, n: nat, i: nat, stale: string -> bool)
    requires i + 1 < n <= |b| && !stale(b[i])
    ensures b[..i + 1] + Kept(b[i + 1..n], stale) == b[..i] + Kept(b[i..n], stale)
  {
    assert b[i..n][0] == b[i] && b[i..n][1..] == b[i + 1..n];
    assert b[..i + 1] == b[..i] + [b[i]];
  }

  /** Iteration `i` deletes its entry, which leaves `c`. */
  ghost predicate Skips(b: seq<string>, c: seq<string>, n: nat, i: nat, ns: string, gone: string -> bool) {
    Distinct(b, n, i) && i + 2 < n && Gone(ns, gone)(b[i]) && c == Shift(b, n, i)
  }

  lemma PassSkips(b: seq<string>, c: seq<string>, n: nat, i: nat, ns: string, gone: string -> bool)
    requires Skips(b, c, n, i, ns, gone) && AsKept(c, n - 1, i + 1, ns, gone)
    ensures AsKept(b, n, i, ns, gone)
  {
    DistinctDeleted(b, n, i, ns, gone);
    KeptSkips(b, n, i, Gone(ns, gone));
    assert PassFrom(b, n, i, ns, gone) == PassFrom(c, n - 1, i + 1, ns, gone);
  }

  lemma KeptSkips(b: seq<string>, n: nat, i: nat, stale: string -> bool)
    requires i + 2 < n <= |b| && stale(b[i])
    ensures var c := Shift(b, n, i);
            |c| == |b| && c[..i + 1] + Kept(c[i + 1..n - 1], stale) == b[..i] + Kept(b[i..n], stale)
  {
    ShiftSlices(b, n, i);
    var rest := b[i..n];
    assert rest[0] == b[i] && rest[1] == b[i + 1];
    assert Kept(rest, stale) == [b[i + 1]] + Kept(rest[2..], stale);
  }

  lemma DistinctNext(b: seq<string>, n: nat, i: nat)
    requires Distinct(b, n, i) && i + 1 < n
    ensures Distinct(b, n, i + 1)
  {
  }

  lemma DistinctAfter(b: seq<string>, n: nat, i: nat, ns: string, gone: string -> bool) returns (c: seq<string>)
    requires Distinct(b, n, i) && i + 2 < n && Gone(ns, gone)(b[i])
    ensures Skips(b, c, n, i, ns, gone) && |c| == |b| && Distinct(c, n - 1, i + 1)
  {
    c := Shift(b, n, i);
    DistinctDeleted(b, n, i, ns, gone);
    ShiftAt(b, n, i, n - 2);
  }

  /** With every pod listed once the pass computes Kept. */
  lemma {:induction false} PassIsKept(b: seq<string>, n: nat, i: nat, ns: string, gone: string -> bool, left: nat)
    requires Distinct(b, n, i) && left == |b| - i
    ensures AsKept(b, n, i, ns, gone)
    decreases left, 1
  {
    if i + 1 == n {
      PassLast(b, n, i, ns, gone);
    } else if !Gone(ns, gone)(b[i]) {
      PassIsKeptReading(b, n, i, ns, gone, left);
    } else if i + 2 == n {
      PassLastTwo(b, n, i, ns, gone);
    } else {
      PassIsKeptSkipping(b, n, i, ns, gone, left);
    }
  }

  lemma {:induction false} PassIsKeptReading(b: seq<string>, n: nat, i: nat, ns: string, gone: string -> bool,
                                             left: nat)
    requires Distinct(b, n, i) && i + 1 < n && !Gone(ns, gone)(b[i]) && left == |b| - i
    ensures AsKept(b, n, i, ns, gone)
    decreases left, 0
  {
    DistinctNext(b, n, i);
    PassIsKept(b, n, i + 1, ns, gone, left - 1);
    PassReads(b, n, i, ns, gone);
  }

  lemma {:induction false} PassIsKeptSkipping(b: seq<string>, n: nat, i: nat, ns: string, gone: string -> bool,
                                              left: nat)
    requires Distinct(b, n, i) && i + 2 < n && Gone(ns, gone)(b[i]) && left == |b| - i
    ensures AsKept(b, n, i, ns, gone)
    decreases left, 0
  {
    var c := DistinctAfter(b, n, i, ns, gone);
    PassIsKept(c, n - 1, i + 1, ns, gone, left - 1);
    PassSkips(b, c, n, i, ns, gone);
  }

  lemma {:induction false} KeptTooMuch(s: seq<string>, stale: string -> bool)
    ensures |Kept(s, stale)| >= |Filter(s, x => !stale(x))|
    ensures Neighbors(s, stale) ==> |Kept(s, stale)| > |Filter(s, x => !stale(x))|
  {
    if |s| > 1 {
      NeighborsTail(s, stale);
      if !stale(s[0]) {
        KeptTooMuch(s[1..], stale);
      } else if |s| > 2 {
        assert s[1..][1..] == s[2..];
        NeighborsTail(s[1..], stale);
        KeptTooMuch(s[2..], stale);
      }
    }
  }

  lemma NeighborsTail(s: seq<string>, stale: string -> bool)
    requires s != []
    ensures Neighbors(s, stale) <==> (|s| > 2 && stale(s[0]) && stale(s[1])) || Neighbors(s[1..], stale)
  {
    if Neighbors(s, stale) {
      var i :| 0 <= i < |s| - 2 && stale(s[i]) && stale(s[i + 1]);
      if i > 0 { assert stale(s[1..][i - 1]) && stale(s[1..][i - 1 + 1]); }
    }
    if Neighbors(s[1..], stale) {
      var i :| 0 <= i < |s[1..]| - 2 && stale(s[1..][i]) && stale(s[1..][i + 1]);
      assert stale(s[i + 1]) && stale(s[i + 1 + 1]);
    }
  }

  /** When every pod is listed once, a pass leaves exactly the entries that have not
      vanished if and only if no two neighbors have vanished, the last two aside. */
  lemma PassExact(s: seq<string>, ns: string, gone: string -> bool)
    requires Entries(s) && DistinctPods(s)
    ensures Pass(s, ns, gone) == Filter(s, Present(ns, gone)) <==> !Neighbors(s, Gone(ns, gone))
  {
    if s != [] {
      assert s[..|s|] == s && s[0..|s|] == s && s[..0] == [];
      PassIsKept(s, |s|, 0, ns, gone, |s|);
      KeptTooMuch(s, Gone(ns, gone));
      FilterSame(s, Present(ns, gone), x => !Gone(ns, gone)(x));
    }
    if !Neighbors(s, Gone(ns, gone)) { PassCleansSpaced(s, ns, gone); }
  }

  /** Entries of one namespace name their pods once. */
  lemma OneNamespace(s: seq<string>, ns: string)
    requires Entries(s) && forall e :: e in s ==> e == Key(PodOf(e), ns)
    ensures DistinctPods(s)
  {
    forall i, j | 0 <= i < j < |s| ensures PodOf(s[i]) != PodOf(s[j]) {
      assert s[i] in s && s[j] in s;
    }
  }

  /** So for entries of one namespace a pass does its whole job if and only if no two pods
      listed next to each other are gone, the last two aside. */
  lemma OneNamespaceExact(s: seq<string>, ns: string, gone: string -> bool)
    requires Entries(s) && forall e :: e in s ==> e == Key(PodOf(e), ns)
    ensures Pass(s, ns, gone) == Filter(s, Present(ns, gone)) <==>
              !exists i :: 0 <= i < |s| - 2 && gone(PodOf(s[i])) && gone(PodOf(s[i + 1]))
  {
    OneNamespace(s, ns);
    PassExact(s, ns, gone);
    NeighborPods(s, ns, gone);
  }

  lemma NeighborPods(s: seq<string>, ns: string, gone: string -> bool)
    requires forall e :: e in s ==> e == Key(PodOf(e), ns)
    ensures Neighbors(s, Gone(ns, gone)) <==>
              exists i :: 0 <= i < |s| - 2 && gone(PodOf(s[i])) && gone(PodOf(s[i + 1]))
  {
    forall k | 0 <= k < |s| ensures Gone(ns, gone)(s[k]) <==> gone(PodOf(s[k])) { assert s[k] in s; }
    if Neighbors(s, Gone(ns, gone)) {
      var i :| 0 <= i < |s| - 2 && Gone(ns, gone)(s[i]) && Gone(ns, gone)(s[i + 1]);
      assert gone(PodOf(s[i])) && gone(PodOf(s[i + 1]));
    }
  }

  ghost predicate Twins(a: string, b: string, t: string, ns: string, gone: string -> bool) {
    && a != b && t != a && t != b
    && a == Key(PodOf(a), ns) && b == Key(PodOf(b), ns) && PodOf(t) == PodOf(b)
    && gone(PodOf(a)) && gone(PodOf(b))
  }

  lemma TwinPass(a: string, b: string, t: string, ns: string, gone: string -> bool)
    requires Twins(a, b, t, ns, gone)
    ensures Pass([a, b, t], ns, gone) == [t]
  {
    var s0, s1, s2 := [a, b, t], [b, t, t], [t, t, t];
    assert s0[..3] == s0 && Shift(s0, 3, 0) == s1;
    assert s1[..2] == [b, t] && IndexOf([b, t], b) == 0 && Shift(s1, 2, 0) == s2;
    assert s2[..1] == [t] && IndexOf([t], b) == -1;
    assert PassFrom(s2, 1, 2, ns, gone) == (s2, 1);
    assert PassFrom(s1, 2, 1, ns, gone) == (s2, 1);
    assert PassFrom(s0, 3, 0, ns, gone) == (s2, 1);
  }

  lemma TwinFilter(a: string, b: string, t: string, ns: string, gone: string -> bool)
    requires Twins(a, b, t, ns, gone)
    ensures Filter([a, b, t], Present(ns, gone)) == [t] && Neighbors([a, b, t], Gone(ns, gone))
  {
    var s := [a, b, t];
    assert s == [a] + [b] + [t] && Gone(ns, gone)(s[0]) && Gone(ns, gone)(s[0 + 1]);
    FilterAppend([a] + [b], [t], Present(ns, gone));
    FilterAppend([a], [b], Present(ns, gone));
  }

  /** A pod listed in two namespaces: reading the entry of the other one deletes the
      skipped neighbor, so the condition is not needed there. */
  lemma TwinCleans(x: string, y: string, gone: string -> bool)
    requires x != y && gone("a") && gone("b")
    ensures var s := [Key("a", x), Key("b", x), Key("b", y)];
            Neighbors(s, Gone(x, gone)) && Pass(s, x, gone) == Filter(s, Present(x, gone)) == [Key("b", y)]
  {
    var a, b, t := Key("a", x), Key("b", x), Key("b", y);
    PodOfKey("a", x);
    PodOfKey("b", x);
    PodOfKey("b", y);
    assert PodOf(a) != PodOf(b);
    assert b[|"b" + MARK|..] == x && t[|"b" + MARK|..] == y;
    TwinPass(a, b, t, x, gone);
    TwinFilter(a, b, t, x, gone);
  }
}
