/** When the order of the list decides what the clean-up of deleted services makes of it. */
module CleanupOrders {
  import opened StatusLists
  import opened CleanupLoop

  datatype Verdict = Panics | Healthy | Failing

  /** What a scan concludes from the clean-up of this list. */
  function VerdictOf(s: seq<string>, stale: string -> bool): Verdict {
    if OutOfRange(s, stale) then Panics else if CleanResult(s, stale) == [] then Healthy else Failing
  }

  ghost predicate OneStaleAtMost(m: seq<string>, stale: string -> bool) {
    forall x, y :: x in m && y in m && stale(x) && stale(y) ==> x == y
  }

  /** Every order of the list leads to the same verdict. */
  ghost predicate OrderFreeVerdict(m: seq<string>, stale: string -> bool) {
    forall p :: multiset(p) == multiset(m) ==> VerdictOf(p, stale) == VerdictOf(m, stale)
  }

  lemma TakenOut<T>(m: seq<T>, i: nat)
    requires i < |m|
    ensures multiset(m) == multiset{m[i]} + multiset(DeleteAt(m, i))
  {
    assert m == m[..i] + [m[i]] + m[i + 1..];
  }

  lemma SameMembers<T>(p: seq<T>, m: seq<T>, x: T)
    requires multiset(p) == multiset(m)
    ensures x in p <==> x in m
  {
    assert x in p <==> x in multiset(p);
    assert x in m <==> x in multiset(m);
  }

  lemma TwiceCounted(s: seq<string>, i: nat, j: nat)
    requires i < j < |s| && s[i] == s[j]
    ensures multiset(s)[s[i]] >= 2
  {
    assert s == s[..j] + s[j..];
    assert s[i] in s[..j] && s[i] in s[j..];
    assert s[..j][i] == s[i] && s[j..][0] == s[i];
    assert s[i] in multiset(s[..j]) && s[i] in multiset(s[j..]);
  }

  lemma {:induction false} CountedOnce(s: seq<string>, x: string)
    requires NoDup(s)
    ensures multiset(s)[x] <= 1
  {
    if s != [] {
      var front, last := s[..|s| - 1], s[|s| - 1];
      assert s == front + [last];
      CountedOnce(front, x);
      if x == last { assert x !in multiset(front); }
    }
  }

  /** A rearrangement of a list without duplicates has none. */
  lemma NoDupRearranged(p: seq<string>, m: seq<string>)
    requires NoDup(m) && multiset(p) == multiset(m)
    ensures NoDup(p)
  {
    if i, j :| 0 <= i < j < |p| && p[i] == p[j] {
      TwiceCounted(p, i, j);
      CountedOnce(m, p[i]);
      assert false;
    }
  }

  /** Lists without duplicates that hold the same entries are rearrangements. */
  lemma SameEntries(s: seq<string>, t: seq<string>)
    requires NoDup(s) && NoDup(t) && SameElements(s, t)
    ensures multiset(s) == multiset(t)
  {
    forall x ensures multiset(s)[x] == multiset(t)[x] {
      CountedOnce(s, x);
      CountedOnce(t, x);
      assert x in multiset(s) <==> x in s;
      assert x in multiset(t) <==> x in t;
    }
  }

  // ----- lists whose verdict does not depend on the order

  lemma OneStaleVerdict(m: seq<string>, stale: string -> bool)
    requires NoDup(m) && OneStaleAtMost(m, stale)
    ensures VerdictOf(m, stale) == if exists x :: x in m && !stale(x) then Failing else Healthy
  {
    OneStaleIsCleaned(m, stale);
    var r := Filter(m, Live(stale));
    assert forall x :: x in r <==> x in m && !stale(x);
    assert r == [] <==> forall x :: x !in r by {
      if |r| > 0 { assert r[0] in r; }
    }
  }

  lemma AllStaleVerdict(m: seq<string>, stale: string -> bool)
    requires AllStale(m, stale)
    ensures VerdictOf(m, stale) == if |m| >= 4 then Panics else Healthy
  {
    if |m| >= 4 { assert stale(m[0]) && stale(m[|m| - 1]); }
    if |m| == 1 { assert Survivors(m, stale) == []; }
  }

  lemma OrderFree(m: seq<string>, stale: string -> bool)
    requires NoDup(m) && (OneStaleAtMost(m, stale) || AllStale(m, stale))
    ensures OrderFreeVerdict(m, stale)
  {
    forall p | multiset(p) == multiset(m) ensures VerdictOf(p, stale) == VerdictOf(m, stale) {
      NoDupRearranged(p, m);
      forall x ensures x in p <==> x in m { SameMembers(p, m, x); }
      if OneStaleAtMost(m, stale) {
        OneStaleVerdict(p, stale);
        OneStaleVerdict(m, stale);
      } else {
        assert |p| == |multiset(p)| == |multiset(m)| == |m|;
        assert forall i :: 0 <= i < |p| ==> p[i] in p;
        AllStaleVerdict(p, stale);
        AllStaleVerdict(m, stale);
      }
    }
  }

  // ----- lists whose verdict does

  function MoveLast<T>(m: seq<T>, k: nat): (p: seq<T>)
    requires k < |m|
    ensures multiset(p) == multiset(m) && |p| == |m| && p[|p| - 1] == m[k]
  {
    assert m == m[..k] + [m[k]] + m[k + 1..];
    m[..k] + m[k + 1..] + [m[k]]
  }

  /** Four or more entries, two of them stale and one not: with a stale one at the end the
      clean-up panics, with the other there it does not. */
  lemma LongOrders(m: seq<string>, stale: string -> bool, i: nat, j: nat, k: nat)
    requires |m| >= 4 && i < |m| && j < |m| && k < |m| && i != j && stale(m[i]) && stale(m[j]) && !stale(m[k])
    ensures VerdictOf(MoveLast(m, i), stale) == Panics && VerdictOf(MoveLast(m, k), stale) != Panics
  {
    var p := MoveLast(m, i);
    var at := if j < i then j else j - 1;
    assert p[at] == m[j] && at < |p| - 1;
  }

  lemma ShortOrders(a: string, b: string, x: string, stale: string -> bool)
    requires stale(a) && stale(b) && !stale(x)
    ensures VerdictOf([a, x, b], stale) == Healthy && VerdictOf([a, b, x], stale) == Failing
  {
    LiveFailureLost(a, x, b, stale);
    var s := [a, b, x];
    assert s[2..] == [x] && Survivors([x], stale) == [x];
  }

  lemma Three(a: string, b: string, c: string)
    ensures multiset([a, b, c]) == multiset{a} + multiset{b} + multiset{c}
  {
    assert [a, b, c] == [a] + [b] + [c];
  }

  function Behind(i: nat, j: nat): int {
    if j < i then j else j - 1
  }

  lemma StillAt(m: seq<string>, i: nat, j: nat)
    requires i < |m| && j < |m| && i != j
    ensures |DeleteAt(m, i)| == |m| - 1 && 0 <= Behind(i, j) < |m| - 1 && DeleteAt(m, i)[Behind(i, j)] == m[j]
  {
  }

  lemma ThreeEntries(m: seq<string>, i: nat, j: nat, k: nat)
    requires |m| == 3 && i < 3 && j < 3 && k < 3 && i != j && i != k && j != k
    ensures multiset(m) == multiset{m[i]} + multiset{m[j]} + multiset{m[k]}
  {
    StillAt(m, i, j);
    StillAt(m, i, k);
    var two := DeleteAt(m, i);
    var at, other := Behind(i, j), Behind(i, k);
    StillAt(two, at, other);
    var one := DeleteAt(two, at);
    assert one == [m[k]];
    TakenOut(m, i);
    TakenOut(two, at);
  }

  lemma ThreeOrders(m: seq<string>, i: nat, j: nat, k: nat)
    requires |m| == 3 && i < 3 && j < 3 && k < 3 && i != j && i != k && j != k
    ensures multiset([m[i], m[k], m[j]]) == multiset(m) == multiset([m[i], m[j], m[k]])
  {
    ThreeEntries(m, i, j, k);
    Three(m[i], m[k], m[j]);
    Three(m[i], m[j], m[k]);
  }

  lemma OrderBound(m: seq<string>, stale: string -> bool)
    requires !OneStaleAtMost(m, stale) && !AllStale(m, stale)
    ensures !OrderFreeVerdict(m, stale)
  {
    var x, y :| x in m && y in m && stale(x) && stale(y) && x != y;
    var i :| 0 <= i < |m| && m[i] == x;
    var j :| 0 <= j < |m| && m[j] == y;
    var k :| 0 <= k < |m| && !stale(m[k]);
    if |m| >= 4 {
      LongOrders(m, stale, i, j, k);
    } else {
      ThreeOrders(m, i, j, k);
      ShortOrders(m[i], m[j], m[k], stale);
    }
  }

  /** Every order of a list leads to the same verdict if and only if at most one of its
      entries is stale or all of them are. */
  lemma OrderFreeVerdictIff(m: seq<string>, stale: string -> bool)
    requires NoDup(m)
    ensures OrderFreeVerdict(m, stale) <==> OneStaleAtMost(m, stale) || AllStale(m, stale)
  {
    if OneStaleAtMost(m, stale) || AllStale(m, stale) {
      OrderFree(m, stale);
    } else {
      OrderBound(m, stale);
    }
  }

  // ----- rearranging what a list is computed from

  function Texts<T>(s: seq<T>, f: T -> string): (r: seq<string>)
    ensures |r| == |s| && forall i :: 0 <= i < |r| ==> r[i] == f(s[i])
  {
    seq(|s|, i requires 0 <= i < |s| => f(s[i]))
  }

  lemma TextsWithout<T>(s: seq<T>, f: T -> string, k: nat)
    requires k < |s|
    ensures Texts(DeleteAt(s, k), f) == DeleteAt(Texts(s, f), k)
  {
  }

  lemma TextsSnoc<T>(s: seq<T>, f: T -> string)
    requires s != []
    ensures Texts(s, f) == Texts(s[..|s| - 1], f) + [f(s[|s| - 1])]
  {
  }

  lemma CancelLast<T>(a: seq<T>, s: seq<T>, k: nat)
    requires a != [] && multiset(a) == multiset(s) && k < |s| && s[k] == a[|a| - 1]
    ensures multiset(a[..|a| - 1]) == multiset(DeleteAt(s, k))
  {
    var front, last := a[..|a| - 1], a[|a| - 1];
    assert a == front + [last];
    TakenOut(s, k);
    assert multiset(front) == multiset(a) - multiset{last};
    assert multiset(DeleteAt(s, k)) == multiset(s) - multiset{last};
  }

  lemma {:induction false} TextsRearranged<T>(a: seq<T>, s: seq<T>, f: T -> string)
    requires multiset(a) == multiset(s)
    ensures multiset(Texts(a, f)) == multiset(Texts(s, f))
    decreases |a|
  {
    if a == [] {
      assert |multiset(s)| == |s| == 0;
    } else {
      var front, last := a[..|a| - 1], a[|a| - 1];
      SameMembers(a, s, last);
      var k :| 0 <= k < |s| && s[k] == last;
      CancelLast(a, s, k);
      TextsRearranged(front, DeleteAt(s, k), f);
      TextsSnoc(a, f);
      TextsWithout(s, f, k);
      TakenOut(Texts(s, f), k);
    }
  }

  lemma PutLast<T>(s: seq<T>, f: T -> string, k: nat, b: seq<T>) returns (a: seq<T>)
    requires k < |s| && multiset(b) == multiset(DeleteAt(s, k))
    ensures multiset(a) == multiset(s) && Texts(a, f) == Texts(b, f) + [f(s[k])]
  {
    a := b + [s[k]];
    TakenOut(s, k);
    TextsSnoc(a, f);
    assert a[..|a| - 1] == b;
  }

  /** Every rearrangement of the texts comes from one of the list. */
  lemma {:induction false} RearrangedFrom<T>(s: seq<T>, f: T -> string, p: seq<string>) returns (a: seq<T>)
    requires multiset(p) == multiset(Texts(s, f))
    ensures multiset(a) == multiset(s) && Texts(a, f) == p
    decreases |p|
  {
    assert |p| == |multiset(p)| == |Texts(s, f)|;
    if p == [] {
      a := [];
    } else {
      var front, last := p[..|p| - 1], p[|p| - 1];
      SameMembers(p, Texts(s, f), last);
      var k :| 0 <= k < |s| && Texts(s, f)[k] == last;
      CancelLast(p, Texts(s, f), k);
      TextsWithout(s, f, k);
      var b := RearrangedFrom(DeleteAt(s, k), f, front);
      a := PutLast(s, f, k, b);
      assert p == front + [last];
    }
  }
}
