/** The loop that deletes stale failures from `FailedChecks` while it ranges over it.
    The range header keeps the original length; every deletion shifts the array the
    loop is still reading, so the element after a deleted one is never looked at and
    the tail is looked at twice. */
module CleanupLoop {
  import opened StatusLists
  import opened GoSlices

  /** What survives: the entry after a deleted one is kept unseen. */
  function Survivors(s: seq<string>, stale: string -> bool): seq<string> {
    if s == [] then []
    else if !stale(s[0]) then [s[0]] + Survivors(s[1..], stale)
    else if |s| == 1 then []
    else [s[1]] + Survivors(s[2..], stale)
  }

  /** A short list whose stale last entry is read again when one entry is left: the
      list is then set to nil. */
  predicate WipedOut(s: seq<string>, stale: string -> bool) {
    || (|s| == 2 && stale(s[0]) && stale(s[1]))
    || (|s| == 3 && stale(s[0]) && stale(s[2]))
  }

  /** The loop deletes at an index the shortened slice no longer has. */
  predicate OutOfRange(s: seq<string>, stale: string -> bool) {
    && |s| > 2 && stale(s[|s| - 1])
    && (exists i :: 0 <= i < |s| - 1 && stale(s[i]))
    && !WipedOut(s, stale)
  }

  function CleanResult(s: seq<string>, stale: string -> bool): seq<string> {
    if WipedOut(s, stale) then [] else Survivors(s, stale)
  }

  // ----- what the loop has read so far

  /** The array `b` and slice length `n` before iteration `i`, for the original `s`:
      the entries still ahead have moved down by the number of deletions, and behind
      the slice only copies of the last entry are left. */
  ghost predicate Reading(b: seq<string>, s: seq<string>, n: nat, i: nat, stale: string -> bool) {
    && |b| == |s| && n <= |s| && i <= |s|
    && (forall j :: n <= j < |s| ==> b[j] == s[|s| - 1])
    && (if i < n then
          && b[i..n] == s[i + (|s| - n)..]
          && Survivors(s, stale) == b[..i] + Survivors(b[i..n], stale)
        else
          Survivors(s, stale) == b[..n])
  }

  lemma ReadingKept(b: seq<string>, s: seq<string>, n: nat, i: nat, stale: string -> bool)
    requires Reading(b, s, n, i, stale) && i < |s| && !stale(b[i])
    ensures Reading(b, s, n, i + 1, stale)
  {
    if i < n {
      assert b[i..n][0] == b[i] && b[i..n][1..] == b[i + 1..n];
      assert s[i + (|s| - n)..][1..] == s[i + 1 + (|s| - n)..];
      assert b[..i + 1] == b[..i] + [b[i]];
    }
  }

  /** Behind the shortened slice there are only copies of the last entry. */
  lemma ShiftedTail(b: seq<string>, s: seq<string>, n: nat, i: nat, stale: string -> bool)
    requires Reading(b, s, n, i, stale) && i < n
    ensures forall j :: n - 1 <= j < |s| ==> Shift(b, n, i)[j] == s[|s| - 1]
  {
    var c := Shift(b, n, i);
    assert b[i..n][n - i - 1] == b[n - 1];
    assert s[i + (|s| - n)..][n - i - 1] == s[|s| - 1];
    forall j | n - 1 <= j < |s| ensures c[j] == s[|s| - 1] {
      assert c[j] == b[j];
    }
  }

  lemma SuffixOfSuffix(s: seq<string>, k: nat, m: nat)
    requires k + m <= |s|
    ensures s[k..][m..] == s[k + m..]
  {
  }

  lemma SurvivorsPastStale(before: seq<string>, rest: seq<string>, stale: string -> bool)
    requires |rest| > 1 && stale(rest[0])
    ensures before + Survivors(rest, stale) == before + [rest[1]] + Survivors(rest[2..], stale)
  {
  }

  /** The entries ahead have moved down by one more, and the first of them is kept. */
  lemma ShiftedAhead(b: seq<string>, s: seq<string>, n: nat, i: nat, stale: string -> bool)
    requires Reading(b, s, n, i, stale) && i + 1 < n && stale(b[i])
    ensures var c := Shift(b, n, i);
            && c[i + 1..n - 1] == s[i + 1 + (|s| - (n - 1))..]
            && Survivors(s, stale) == c[..i + 1] + Survivors(c[i + 1..n - 1], stale)
  {
    ShiftSlices(b, n, i);
    SuffixOfSuffix(s, i + (|s| - n), 2);
    SurvivorsPastStale(b[..i], b[i..n], stale);
  }

  lemma ReadingDeleted(b: seq<string>, s: seq<string>, n: nat, i: nat, stale: string -> bool)
    requires Reading(b, s, n, i, stale) && i < n && stale(b[i])
    ensures Reading(Shift(b, n, i), s, n - 1, i + 1, stale)
  {
    var c := Shift(b, n, i);
    ShiftedTail(b, s, n, i, stale);
    if i + 1 < n {
      ShiftedAhead(b, s, n, i, stale);
      if i + 2 == n { assert c[i + 1..n - 1] == []; }
    } else {
      assert c[..n - 1] == b[..i];
    }
  }

  /** How many deletions are possible before iteration `i`. */
  ghost predicate Deletions(s: seq<string>, n: nat, i: nat, stale: string -> bool) {
    && n <= |s| && |s| - n <= i <= |s| && 2 * (|s| - n) <= |s| + 1
    && (n == |s| ==> forall p :: 0 <= p < i ==> !stale(s[p]))
    && (n < |s| ==> exists p :: 0 <= p < i && stale(s[p]))
  }

  /** What the first iterations have done to lists of two and three entries. */
  ghost predicate ShortList(s: seq<string>, n: nat, i: nat, stale: string -> bool) {
    && (|s| == 2 && i == 1 ==> n == if stale(s[0]) then 1 else 2)
    && (|s| == 3 && i == 1 ==> n == if stale(s[0]) then 2 else 3)
    && (|s| == 3 && i == 2 && n == 1 ==> stale(s[0]) && stale(s[2]))
    && (|s| == 3 && i == 2 && stale(s[0]) ==> n == if stale(s[2]) then 1 else 2)
  }

  ghost predicate LastAlone(s: seq<string>, n: nat, i: nat, stale: string -> bool) {
    i == |s| && n < |s| && stale(s[|s| - 1]) ==> forall p :: 0 <= p < |s| - 1 ==> !stale(s[p])
  }

  ghost predicate Counted(s: seq<string>, n: nat, i: nat, stale: string -> bool) {
    Deletions(s, n, i, stale) && ShortList(s, n, i, stale) && LastAlone(s, n, i, stale)
  }

  lemma ReadsOriginal(b: seq<string>, s: seq<string>, n: nat, i: nat, stale: string -> bool)
    requires Reading(b, s, n, i, stale) && i < |s|
    ensures b[i] == if i < n then s[i + (|s| - n)] else s[|s| - 1]
  {
    if i < n { assert b[i..n][0] == s[i + (|s| - n)..][0]; }
  }

  lemma CountedKept(b: seq<string>, s: seq<string>, n: nat, i: nat, stale: string -> bool)
    requires Reading(b, s, n, i, stale) && Counted(s, n, i, stale) && i < |s| && !stale(b[i])
    ensures Counted(s, n, i + 1, stale)
  {
    ReadsOriginal(b, s, n, i, stale);
  }

  lemma CountedDeleted(b: seq<string>, s: seq<string>, n: nat, i: nat, stale: string -> bool)
    requires Reading(b, s, n, i, stale) && Counted(s, n, i, stale)
    requires i < n && stale(b[i]) && n > 1
    ensures Counted(s, n - 1, i + 1, stale)
  {
    ReadsOriginal(b, s, n, i, stale);
    DeletionsDeleted(s, n, i, stale);
    ShortDeleted(s, n, i, stale);
  }

  lemma DeletionsDeleted(s: seq<string>, n: nat, i: nat, stale: string -> bool)
    requires Deletions(s, n, i, stale) && i < n && stale(s[i + (|s| - n)]) && n > 1
    ensures Deletions(s, n - 1, i + 1, stale)
  {
    assert exists p :: 0 <= p < i + 1 && stale(s[p]) by {
      if n == |s| { assert stale(s[i]); }
    }
  }

  lemma ShortDeleted(s: seq<string>, n: nat, i: nat, stale: string -> bool)
    requires Counted(s, n, i, stale) && i < n && stale(s[i + (|s| - n)]) && n > 1
    ensures ShortList(s, n - 1, i + 1, stale) && LastAlone(s, n - 1, i + 1, stale)
  {
  }

  /** A stale entry read when one entry is left. */
  lemma AtOne(b: seq<string>, s: seq<string>, i: nat, stale: string -> bool)
    requires |s| >= 1 && Reading(b, s, 1, i, stale) && Counted(s, 1, i, stale) && i < |s| && stale(b[i])
    ensures |s| == 1 || (WipedOut(s, stale) && i + 1 == |s|)
  {
  }

  lemma AtPanic(b: seq<string>, s: seq<string>, n: nat, i: nat, stale: string -> bool)
    requires Reading(b, s, n, i, stale) && Counted(s, n, i, stale)
    requires n <= i < |s| && n != 1 && stale(b[i])
    ensures OutOfRange(s, stale) && b[..n] == CleanResult(s, stale)
  {
  }

  lemma AtEnd(b: seq<string>, s: seq<string>, n: nat, stale: string -> bool)
    requires Reading(b, s, n, |s|, stale) && Counted(s, n, |s|, stale)
    ensures !OutOfRange(s, stale) && b[..n] == CleanResult(s, stale)
  {
  }

  ghost predicate Inv(b: seq<string>, s: seq<string>, n: nat, i: nat, stale: string -> bool) {
    || (Reading(b, s, n, i, stale) && Counted(s, n, i, stale))
    || (|b| == |s| == i && n == 0 && WipedOut(s, stale))
  }

  /** One iteration: the backing array, the slice length, and whether it panics. */
  function Step(b: seq<string>, n: nat, i: nat, stale: string -> bool): (seq<string>, nat, bool)
    requires n <= |b| && i < |b|
  {
    if !stale(b[i]) then (b, n, false)
    else if n == 1 then (b, 0, false)
    else if i + 1 > n then (b, n, true)
    else (Shift(b, n, i), n - 1, false)
  }

  /** An iteration keeps the invariant or panics with the final list. */
  ghost predicate StepDone(s: seq<string>, r: (seq<string>, nat, bool), i: nat, stale: string -> bool) {
    if r.2 then r.1 <= |r.0| && OutOfRange(s, stale) && r.0[..r.1] == CleanResult(s, stale)
    else Inv(r.0, s, r.1, i + 1, stale)
  }

  lemma StepReads(b: seq<string>, s: seq<string>, n: nat, i: nat, stale: string -> bool)
    requires Reading(b, s, n, i, stale) && Counted(s, n, i, stale) && i < |s| && !stale(b[i])
    ensures StepDone(s, Step(b, n, i, stale), i, stale)
  {
    ReadingKept(b, s, n, i, stale);
    CountedKept(b, s, n, i, stale);
  }

  lemma StepDeletes(b: seq<string>, s: seq<string>, n: nat, i: nat, stale: string -> bool)
    requires Reading(b, s, n, i, stale) && Counted(s, n, i, stale) && i < n && stale(b[i]) && n > 1
    ensures StepDone(s, Step(b, n, i, stale), i, stale)
  {
    ReadingDeleted(b, s, n, i, stale);
    CountedDeleted(b, s, n, i, stale);
  }

  lemma StepEmpties(b: seq<string>, s: seq<string>, i: nat, stale: string -> bool)
    requires |s| >= 1 && Reading(b, s, 1, i, stale) && Counted(s, 1, i, stale) && i < |s| && stale(b[i])
    ensures StepDone(s, Step(b, 1, i, stale), i, stale)
  {
    AtOne(b, s, i, stale);
  }

  lemma StepPanics(b: seq<string>, s: seq<string>, n: nat, i: nat, stale: string -> bool)
    requires Reading(b, s, n, i, stale) && Counted(s, n, i, stale) && n <= i < |s| && n != 1 && stale(b[i])
    ensures StepDone(s, Step(b, n, i, stale), i, stale)
  {
    AtPanic(b, s, n, i, stale);
  }

  lemma StepKeepsInv(b: seq<string>, s: seq<string>, n: nat, i: nat, stale: string -> bool)
    requires Inv(b, s, n, i, stale) && i < |s|
    ensures n <= |b| == |s| && StepDone(s, Step(b, n, i, stale), i, stale)
  {
    if !stale(b[i]) {
      StepReads(b, s, n, i, stale);
    } else if n == 1 {
      StepEmpties(b, s, i, stale);
    } else if i + 1 > n {
      StepPanics(b, s, n, i, stale);
    } else {
      StepDeletes(b, s, n, i, stale);
    }
  }

  lemma InvAtStart(s: seq<string>, stale: string -> bool)
    ensures Inv(s, s, |s|, 0, stale)
  {
    assert s[0..] == s && s[..0] == [] && s[0..|s|] == s;
  }

  lemma InvAtEnd(b: seq<string>, s: seq<string>, n: nat, stale: string -> bool)
    requires Inv(b, s, n, |s|, stale)
    ensures n <= |b| && !OutOfRange(s, stale) && b[..n] == CleanResult(s, stale)
  {
    if Reading(b, s, n, |s|, stale) && Counted(s, n, |s|, stale) { AtEnd(b, s, n, stale); }
  }

  method CleanStep(a: array<string>, n: nat, i: nat, stale: string -> bool) returns (m: nat, panicked: bool)
    requires n <= a.Length && i < a.Length
    modifies a
    ensures (a[..], m, panicked) == Step(old(a[..]), n, i, stale)
  {
    m, panicked := n, false;
    if stale(a[i]) {
      if n == 1 {
        m := 0;
      } else if i + 1 > n {
        panicked := true;
      } else {
        m := DeleteElementSlice(a, n, i);
      }
    }
  }

  /** The loop from iteration `i` on. */
  function CleanFrom(b: seq<string>, n: nat, i: nat, stale: string -> bool): (r: (seq<string>, nat, bool))
    requires n <= |b| && i <= |b|
    ensures r.1 <= |r.0| == |b|
    decreases |b| - i
  {
    if i == |b| then (b, n, false)
    else
      var (c, m, panicked) := Step(b, n, i, stale);
      if panicked then (c, m, true) else CleanFrom(c, m, i + 1, stale)
  }

  ghost predicate EndsAs(r: (seq<string>, nat, bool), s: seq<string>, stale: string -> bool) {
    && r.1 <= |r.0|
    && (r.2 <==> OutOfRange(s, stale))
    && r.0[..r.1] == CleanResult(s, stale)
  }

  lemma {:induction false} CleanFromEnds(b: seq<string>, s: seq<string>, n: nat, i: nat, stale: string -> bool)
    requires n <= |b| == |s| && i <= |s| && Inv(b, s, n, i, stale)
    ensures EndsAs(CleanFrom(b, n, i, stale), s, stale)
    decreases |s| - i
  {
    if i == |s| {
      InvAtEnd(b, s, n, stale);
    } else {
      StepKeepsInv(b, s, n, i, stale);
      var (c, m, panicked) := Step(b, n, i, stale);
      if !panicked { CleanFromEnds(c, s, m, i + 1, stale); }
    }
  }

  /** The clean-up loop on the backing array of `FailedChecks`; `n` is the length of
      the slice it leaves, also when it panics. */
  method CleanRange(a: array<string>, stale: string -> bool) returns (n: nat, panicked: bool)
    modifies a
    ensures n <= a.Length
    ensures panicked <==> OutOfRange(old(a[..]), stale)
    ensures a[..n] == CleanResult(old(a[..]), stale)
  {
    ghost var s := a[..];
    InvAtStart(s, stale);
    CleanFromEnds(s, s, |s|, 0, stale);
    n, panicked := CleanAll(a, stale);
  }

  method CleanAll(a: array<string>, stale: string -> bool) returns (n: nat, panicked: bool)
    modifies a
    ensures (a[..], n, panicked) == CleanFrom(old(a[..]), a.Length, 0, stale)
  {
    ghost var s := a[..];
    n := a.Length;
    panicked := false;
    for i := 0 to a.Length
      invariant n <= a.Length == |s| && !panicked
      invariant CleanFrom(a[..], n, i, stale) == CleanFrom(s, |s|, 0, stale)
    {
      n, panicked := CleanStep(a, n, i, stale);
      if panicked {
        return;
      }
    }
  }

  // ----- when the clean-up does its job

  predicate Adjacent(s: seq<string>, stale: string -> bool) {
    exists i :: 0 <= i < |s| - 1 && stale(s[i]) && stale(s[i + 1])
  }

  predicate OnlyLast(s: seq<string>, stale: string -> bool) {
    s != [] && forall i :: 0 <= i < |s| - 1 ==> !stale(s[i])
  }

  function Live(stale: string -> bool): string -> bool {
    x => !stale(x)
  }

  lemma {:induction false} SurvivorsAreLive(s: seq<string>, stale: string -> bool)
    ensures Survivors(s, stale) == Filter(s, Live(stale)) <==> !Adjacent(s, stale)
    ensures |Survivors(s, stale)| >= |Filter(s, Live(stale))|
  {
    if s == [] {
    } else if !stale(s[0]) {
      SurvivorsAreLive(s[1..], stale);
      AdjacentTail(s, stale);
      assert Survivors(s, stale)[1..] == Survivors(s[1..], stale);
      assert Filter(s, Live(stale))[1..] == Filter(s[1..], Live(stale));
    } else if |s| > 1 {
      assert s[1..][1..] == s[2..];
      SurvivorsAreLive(s[2..], stale);
      if stale(s[1]) {
        assert Adjacent(s, stale) by { assert stale(s[0]) && stale(s[0 + 1]); }
        assert |Survivors(s, stale)| > |Filter(s, Live(stale))|;
      } else {
        AdjacentTail(s, stale);
        AdjacentTail(s[1..], stale);
      }
    }
  }

  lemma AdjacentTail(s: seq<string>, stale: string -> bool)
    requires s != []
    ensures Adjacent(s, stale) <==>
              (|s| > 1 && stale(s[0]) && stale(s[1])) || Adjacent(s[1..], stale)
  {
    if Adjacent(s, stale) {
      var i :| 0 <= i < |s| - 1 && stale(s[i]) && stale(s[i + 1]);
      if i > 0 { assert stale(s[1..][i - 1]) && stale(s[1..][i - 1 + 1]); }
    }
    if Adjacent(s[1..], stale) {
      var i :| 0 <= i < |s[1..]| - 1 && stale(s[1..][i]) && stale(s[1..][i + 1]);
      assert stale(s[i + 1]) && stale(s[i + 1 + 1]);
    }
  }

  predicate AllStale(s: seq<string>, stale: string -> bool) {
    forall i :: 0 <= i < |s| ==> stale(s[i])
  }

  /** The clean-up neither panics nor leaves or loses the wrong entry, that is, it
      leaves exactly the entries that are not stale in their old order, if and only
      if no two neighbours are stale and the last entry is stale only when it is the
      only one that is, or the list is all stale and has two or three entries. */
  lemma CleanupExact(s: seq<string>, stale: string -> bool)
    ensures !OutOfRange(s, stale) && CleanResult(s, stale) == Filter(s, Live(stale)) <==>
              || (!Adjacent(s, stale) && (OnlyLast(s, stale) || s == [] || !stale(s[|s| - 1])))
              || (2 <= |s| <= 3 && AllStale(s, stale))
  {
    SurvivorsAreLive(s, stale);
    if WipedOut(s, stale) {
      if |s| == 3 && !stale(s[1]) {
        assert s[1] in Filter(s, Live(stale));
      } else {
        assert AllStale(s, stale);
        assert forall x :: x !in Filter(s, Live(stale));
        assert Filter(s, Live(stale)) == [];
        assert stale(s[0]) && stale(s[0 + 1]);
      }
    } else if 2 <= |s| <= 3 && AllStale(s, stale) {
      assert false;
    }
  }

  /** With at most one stale entry the clean-up always does its job. */
  lemma OneStaleIsCleaned(s: seq<string>, stale: string -> bool)
    requires forall i, j :: 0 <= i < |s| && 0 <= j < |s| && stale(s[i]) && stale(s[j]) ==> i == j
    ensures !OutOfRange(s, stale) && CleanResult(s, stale) == Filter(s, Live(stale))
  {
    CleanupExact(s, stale);
  }

  /** A live failure between two stale ones is lost, and the list ends empty. */
  lemma LiveFailureLost(a: string, x: string, b: string, stale: string -> bool)
    requires stale(a) && !stale(x) && stale(b)
    ensures !OutOfRange([a, x, b], stale) && CleanResult([a, x, b], stale) == []
    ensures Filter([a, x, b], Live(stale)) == [x]
  {
    var s := [a, x, b];
    assert s == [a] + [x] + [b];
    FilterAppend([a] + [x], [b], Live(stale));
    FilterAppend([a], [x], Live(stale));
  }

  lemma {:induction false} SurvivorsKeep(s: seq<string>, stale: string -> bool)
    requires NoDup(s)
    ensures NoDup(Survivors(s, stale))
    ensures forall x :: x in Survivors(s, stale) ==> x in s
  {
    if s == [] {
    } else if !stale(s[0]) {
      SurvivorsKeep(s[1..], stale);
      assert s[0] !in s[1..];
    } else if |s| > 1 {
      SurvivorsKeep(s[2..], stale);
      assert s[1] !in s[2..];
    }
  }

  /** Whatever happens, the clean-up adds nothing and duplicates nothing. */
  lemma CleanResultKeeps(s: seq<string>, stale: string -> bool)
    requires NoDup(s)
    ensures NoDup(CleanResult(s, stale))
    ensures forall x :: x in CleanResult(s, stale) ==> x in s
  {
    SurvivorsKeep(s, stale);
  }
}
