/** The ContainerScan pass that forgets pods which no longer exist.  It ranges over
    `AffectedPods` while deleting from it, and looks entries up by a key it rebuilds
    from the pod name and the namespace being scanned. */
module VanishedPods {
  import opened StatusLists
  import opened GoStrings
  import opened GoSlices

  const MARK := ":ns:"

  function Key(pod: string, ns: string): string {
    pod + MARK + ns
  }

  /** strings.SplitN(p, ":ns:", 2)[0] */
  function PodOf(entry: string): string {
    Before(entry, MARK)
  }

  /** Pod names hold no colon. */
  predicate WellFormed(entry: string) {
    ':' !in PodOf(entry)
  }

  lemma PodOfKey(pod: string, ns: string)
    requires ':' !in pod
    ensures PodOf(Key(pod, ns)) == pod && WellFormed(Key(pod, ns))
  {
    BeforeSuffix(pod, MARK, ns);
  }

  /** An entry of the scanned namespace whose pod the API no longer returns. */
  predicate Vanished(entry: string, ns: string, gone: string -> bool) {
    entry == Key(PodOf(entry), ns) && gone(PodOf(entry))
  }

  /** The index one iteration deletes when it reads `entry`, or -1. */
  function Victim(cur: seq<string>, entry: string, ns: string, gone: string -> bool): (v: int)
    ensures -1 <= v < |cur|
  {
    if gone(PodOf(entry)) then IndexOf(cur, Key(PodOf(entry), ns)) else -1
  }

  /** The loop from iteration `i` on: `b` is the backing array the header ranges over,
      `n` the length of the current slice. */
  function PassFrom(b: seq<string>, n: nat, i: nat, ns: string, gone: string -> bool): (r: (seq<string>, nat))
    requires n <= |b| && i <= |b|
    ensures r.1 <= |r.0| == |b|
    decreases |b| - i
  {
    if i == |b| then (b, n)
    else
      var v := Victim(b[..n], b[i], ns, gone);
      if v < 0 then PassFrom(b, n, i + 1, ns, gone)
      else PassFrom(Shift(b, n, v), n - 1, i + 1, ns, gone)
  }

  function Pass(s: seq<string>, ns: string, gone: string -> bool): seq<string> {
    var (b, n) := PassFrom(s, |s|, 0, ns, gone);
    b[..n]
  }

  /** The array and the slice length after one iteration. */
  function ForgetOne(b: seq<string>, n: nat, i: nat, ns: string, gone: string -> bool): (r: (seq<string>, nat))
    requires n <= |b| && i < |b|
    ensures r.1 <= |r.0| == |b|
  {
    var v := Victim(b[..n], b[i], ns, gone);
    if v < 0 then (b, n) else (Shift(b, n, v), n - 1)
  }

  lemma PassFromStep(b: seq<string>, n: nat, i: nat, ns: string, gone: string -> bool)
    requires n <= |b| && i < |b|
    ensures var (c, m) := ForgetOne(b, n, i, ns, gone);
            PassFrom(b, n, i, ns, gone) == PassFrom(c, m, i + 1, ns, gone)
  {
  }

  method ForgetIfGone(a: array<string>, n: nat, i: nat, ns: string, gone: string -> bool) returns (m: nat)
    requires n <= a.Length && i < a.Length
    modifies a
    ensures (a[..], m) == ForgetOne(old(a[..]), n, i, ns, gone)
  {
    m := n;
    assert a[..][..n] == a[..n];
    var pod := PodOf(a[i]);
    if gone(pod) {
      var index := IndexOf(a[..n], Key(pod, ns));
      if index >= 0 {
        m := DeleteElementSlice(a, n, index);
      }
    }
  }

  /** The range loop over the backing array of `AffectedPods`. */
  method VanishedPodPass(a: array<string>, ns: string, gone: string -> bool) returns (n: nat)
    modifies a
    ensures n <= a.Length && a[..n] == Pass(old(a[..]), ns, gone)
  {
    n := a.Length;
    ghost var s := a[..];
    for i := 0 to a.Length
      invariant n <= a.Length
      invariant PassFrom(a[..], n, i, ns, gone) == PassFrom(s, |s|, 0, ns, gone)
    {
      PassFromStep(a[..], n, i, ns, gone);
      n := ForgetIfGone(a, n, i, ns, gone);
    }
    assert a[..] == PassFrom(s, |s|, 0, ns, gone).0;
  }

  // ----- what a pass keeps

  function Present(ns: string, gone: string -> bool): string -> bool {
    e => !Vanished(e, ns, gone)
  }

  lemma VictimVanished(cur: seq<string>, entry: string, ns: string, gone: string -> bool)
    requires WellFormed(entry) && Victim(cur, entry, ns, gone) >= 0
    ensures Vanished(cur[Victim(cur, entry, ns, gone)], ns, gone)
  {
    PodOfKey(PodOf(entry), ns);
  }

  lemma ShiftMembers(b: seq<string>, n: nat, v: nat)
    requires v < n <= |b| && forall e :: e in b ==> WellFormed(e)
    ensures forall e :: e in Shift(b, n, v) ==> WellFormed(e)
  {
    forall e | e in Shift(b, n, v) ensures WellFormed(e) {
      var j :| 0 <= j < |b| && Shift(b, n, v)[j] == e;
      assert e == if v <= j < n - 1 then b[j + 1] else b[j];
    }
  }

  ghost predicate Sound(b: seq<string>, n: nat) {
    n <= |b| && NoDup(b[..n]) && forall e :: e in b ==> WellFormed(e)
  }

  lemma DeletionSound(b: seq<string>, n: nat, i: nat, ns: string, gone: string -> bool)
    requires Sound(b, n) && i < |b| && Victim(b[..n], b[i], ns, gone) >= 0
    ensures var c := Shift(b, n, Victim(b[..n], b[i], ns, gone));
            Sound(c, n - 1) && Filter(c[..n - 1], Present(ns, gone)) == Filter(b[..n], Present(ns, gone))
  {
    var v := Victim(b[..n], b[i], ns, gone);
    assert b[i] in b;
    VictimVanished(b[..n], b[i], ns, gone);
    FilterDelete(b[..n], v, Present(ns, gone));
    DeleteNoDup(b[..n], v);
    ShiftMembers(b, n, v);
  }

  /** What a pass leaves is sound and keeps the entries that were present. */
  ghost predicate Keeps(r: (seq<string>, nat), present: seq<string>, ns: string, gone: string -> bool) {
    Sound(r.0, r.1) && Filter(r.0[..r.1], Present(ns, gone)) == present
  }

  /** No pass removes a pod that still exists, and the entries it keeps stay in order
      and unique. */
  lemma {:induction false} PassFromKeeps(b: seq<string>, n: nat, i: nat, ns: string, gone: string -> bool)
    requires Sound(b, n) && i <= |b|
    ensures Keeps(PassFrom(b, n, i, ns, gone), Filter(b[..n], Present(ns, gone)), ns, gone)
    decreases |b| - i
  {
    if i < |b| {
      var v := Victim(b[..n], b[i], ns, gone);
      if v < 0 {
        PassFromKeeps(b, n, i + 1, ns, gone);
      } else {
        DeletionSound(b, n, i, ns, gone);
        PassFromKeeps(Shift(b, n, v), n - 1, i + 1, ns, gone);
      }
    }
  }

  // ----- how much a pass removes

  function Count(s: seq<string>, ns: string, gone: string -> bool): (c: nat)
    ensures c <= |s|
  {
    if s == [] then 0
    else (if Vanished(s[0], ns, gone) then 1 else 0) + Count(s[1..], ns, gone)
  }

  lemma {:induction false} CountAppend(a: seq<string>, b: seq<string>, ns: string, gone: string -> bool)
    ensures Count(a + b, ns, gone) == Count(a, ns, gone) + Count(b, ns, gone)
  {
    if a == [] {
      assert a + b == b;
    } else {
      assert (a + b)[1..] == a[1..] + b;
      CountAppend(a[1..], b, ns, gone);
    }
  }

  lemma CountSplit(s: seq<string>, i: nat, ns: string, gone: string -> bool)
    requires i <= |s|
    ensures Count(s, ns, gone) == Count(s[..i], ns, gone) + Count(s[i..], ns, gone)
  {
    assert s == s[..i] + s[i..];
    CountAppend(s[..i], s[i..], ns, gone);
  }

  /** Vanished entries the loop has gone past, and those it still has ahead. */
  function Passed(b: seq<string>, n: nat, i: nat, ns: string, gone: string -> bool): nat
    requires n <= |b|
  {
    if i < n then Count(b[..i], ns, gone) else Count(b[..n], ns, gone)
  }

  function Ahead(b: seq<string>, n: nat, i: nat, ns: string, gone: string -> bool): nat
    requires n <= |b|
  {
    if i < n then Count(b[i..n], ns, gone) else 0
  }

  /** Reading an entry without deleting one: it was not a vanished entry itself. */
  lemma ReadOnly(b: seq<string>, n: nat, i: nat, ns: string, gone: string -> bool)
    requires Sound(b, n) && i < |b| && Victim(b[..n], b[i], ns, gone) < 0
    ensures Passed(b, n, i + 1, ns, gone) == Passed(b, n, i, ns, gone)
    ensures Ahead(b, n, i + 1, ns, gone) == Ahead(b, n, i, ns, gone)
  {
    if i < n {
      assert b[i] in b[..n];
      CountSplit(b[i..n], 1, ns, gone);
      assert b[i..n][..1] == [b[i]] && b[i..n][1..] == b[i + 1..n];
      CountAppend(b[..i], [b[i]], ns, gone);
      assert b[..i + 1] == b[..i] + [b[i]];
    }
  }

  lemma CountPrefix(s: seq<string>, i: nat, j: nat, ns: string, gone: string -> bool)
    requires i <= j <= |s|
    ensures Count(s[..i], ns, gone) <= Count(s[..j], ns, gone) <= Count(s[..i], ns, gone) + (j - i)
  {
    CountSplit(s[..j], i, ns, gone);
    assert s[..j][..i] == s[..i];
  }

  lemma CountDelete(s: seq<string>, v: nat, ns: string, gone: string -> bool)
    requires v < |s| && Vanished(s[v], ns, gone)
    ensures Count(DeleteAt(s, v), ns, gone) == Count(s, ns, gone) - 1
  {
    CountSplit(s, v, ns, gone);
    CountAppend(s[..v], s[v + 1..], ns, gone);
    assert s[v..][1..] == s[v + 1..];
  }

  lemma Totals(b: seq<string>, n: nat, i: nat, ns: string, gone: string -> bool)
    requires n <= |b|
    ensures Passed(b, n, i, ns, gone) + Ahead(b, n, i, ns, gone) == Count(b[..n], ns, gone)
  {
    if i < n {
      CountSplit(b[..n], i, ns, gone);
      assert b[..n][..i] == b[..i] && b[..n][i..] == b[i..n];
    }
  }

  /** A deletion lets at most one vanished entry slip past. */
  lemma DeletionSkips(b: seq<string>, n: nat, i: nat, v: nat, ns: string, gone: string -> bool)
    requires v < n <= |b| && i < |b| && Vanished(b[v], ns, gone)
    ensures Passed(Shift(b, n, v), n - 1, i + 1, ns, gone) <= Passed(b, n, i, ns, gone) + 1
  {
    var c := Shift(b, n, v);
    var k, p := if i + 1 < n - 1 then i + 1 else n - 1, if i < n then i else n;
    assert Passed(b, n, i, ns, gone) == Count(b[..p], ns, gone);
    assert Passed(c, n - 1, i + 1, ns, gone) == Count(c[..k], ns, gone);
    if v >= k {
      assert c[..k] == b[..k];
      if p <= k { CountPrefix(b, p, k, ns, gone); } else { CountPrefix(b, k, p, ns, gone); }
    } else {
      assert c[..k] == DeleteAt(b[..k + 1], v);
      CountDelete(b[..k + 1], v, ns, gone);
      CountPrefix(b, p, k + 1, ns, gone);
    }
  }

  lemma DeletionPays(b: seq<string>, n: nat, i: nat, ns: string, gone: string -> bool)
    requires Sound(b, n) && i < |b| && Victim(b[..n], b[i], ns, gone) >= 0
    ensures var c := Shift(b, n, Victim(b[..n], b[i], ns, gone));
            Passed(c, n - 1, i + 1, ns, gone) + Ahead(c, n - 1, i + 1, ns, gone) / 2
            <= Passed(b, n, i, ns, gone) + Ahead(b, n, i, ns, gone) / 2
  {
    var v := Victim(b[..n], b[i], ns, gone);
    assert b[i] in b;
    VictimVanished(b[..n], b[i], ns, gone);
    CountDelete(b[..n], v, ns, gone);
    Totals(b, n, i, ns, gone);
    Totals(Shift(b, n, v), n - 1, i + 1, ns, gone);
    DeletionSkips(b, n, i, v, ns, gone);
  }

  /** At the end no more entries have slipped past than half of those still ahead. */
  lemma {:induction false} PassFromHalves(b: seq<string>, n: nat, i: nat, ns: string, gone: string -> bool)
    requires Sound(b, n) && i <= |b|
    ensures var (c, m) := PassFrom(b, n, i, ns, gone);
            Count(c[..m], ns, gone) <= Passed(b, n, i, ns, gone) + Ahead(b, n, i, ns, gone) / 2
    decreases |b| - i
  {
    var v := if i < |b| then Victim(b[..n], b[i], ns, gone) else -1;
    if i == |b| {
    } else if v < 0 {
      ReadOnly(b, n, i, ns, gone);
      PassFromHalves(b, n, i + 1, ns, gone);
    } else {
      DeletionSound(b, n, i, ns, gone);
      DeletionPays(b, n, i, ns, gone);
      PassFromHalves(Shift(b, n, v), n - 1, i + 1, ns, gone);
    }
  }

  ghost predicate Entries(s: seq<string>) {
    NoDup(s) && forall e :: e in s ==> WellFormed(e)
  }

  /** One pass keeps every pod that still exists, in order, and leaves at most half of
      the vanished entries of the scanned namespace. */
  lemma PassLaw(s: seq<string>, ns: string, gone: string -> bool)
    requires Entries(s)
    ensures Entries(Pass(s, ns, gone))
    ensures Filter(Pass(s, ns, gone), Present(ns, gone)) == Filter(s, Present(ns, gone))
    ensures Count(Pass(s, ns, gone), ns, gone) <= Count(s, ns, gone) / 2
  {
    assert s[..|s|] == s && s[0..|s|] == s;
    PassFromKeeps(s, |s|, 0, ns, gone);
    PassFromHalves(s, |s|, 0, ns, gone);
    var (b, n) := PassFrom(s, |s|, 0, ns, gone);
    forall e | e in b[..n] ensures WellFormed(e) { assert e in b; }
  }

  // ----- repeated passes

  function Passes(s: seq<string>, k: nat, ns: string, gone: string -> bool): seq<string>
    decreases k
  {
    if k == 0 then s else Passes(Pass(s, ns, gone), k - 1, ns, gone)
  }

  /** floor(log2 m) + 1, and 0 for m == 0 */
  function Rounds(m: nat): nat {
    if m == 0 then 0 else Rounds(m / 2) + 1
  }

  lemma {:induction false} RoundsMonotonic(m: nat, k: nat)
    requires m <= k
    ensures Rounds(m) <= Rounds(k)
  {
    if m > 0 { RoundsMonotonic(m / 2, k / 2); }
  }

  lemma {:induction false} NoneVanished(s: seq<string>, ns: string, gone: string -> bool)
    requires Count(s, ns, gone) == 0
    ensures forall e :: e in s ==> !Vanished(e, ns, gone)
  {
    if s != [] { NoneVanished(s[1..], ns, gone); }
  }

  /** floor(log2 m) + 1 passes over a list with m vanished entries leave exactly the
      entries that are not vanished, in their old order. */
  lemma {:induction false} PassesSuffice(s: seq<string>, k: nat, ns: string, gone: string -> bool)
    requires Entries(s) && k >= Rounds(Count(s, ns, gone))
    ensures Passes(s, k, ns, gone) == Filter(s, Present(ns, gone))
    decreases k
  {
    if k == 0 {
      NoneVanished(s, ns, gone);
      FilterAll(s, Present(ns, gone));
    } else {
      PassLaw(s, ns, gone);
      RoundsMonotonic(Count(Pass(s, ns, gone), ns, gone), Count(s, ns, gone) / 2);
      PassesSuffice(Pass(s, ns, gone), k - 1, ns, gone);
    }
  }

  /** The bound is reached: of three vanished entries the middle one stays. */
  lemma MiddleOneStays(ns: string, gone: string -> bool)
    requires gone("a") && gone("b") && gone("c")
    ensures Pass([Key("a", ns), Key("b", ns), Key("c", ns)], ns, gone) == [Key("b", ns)]
    ensures Rounds(3) == 2
  {
    var a, b, c := Key("a", ns), Key("b", ns), Key("c", ns);
    PodOfKey("a", ns);
    PodOfKey("b", ns);
    PodOfKey("c", ns);
    assert a[0] == 'a' && b[0] == 'b' && c[0] == 'c';
    var s0 := [a, b, c];
    assert s0[..3] == s0;
    var s1 := [b, c, c];
    assert Shift(s0, 3, 0) == s1;
    assert s1[..2] == [b, c];
    assert IndexOf([b, c], c) == 1;
    assert Shift(s1, 2, 1) == s1;
    assert s1[..1] == [b];
    assert IndexOf([b], c) == -1;
    assert PassFrom(s1, 1, 2, ns, gone) == (s1, 1);
    assert PassFrom(s1, 2, 1, ns, gone) == (s1, 1);
    assert PassFrom(s0, 3, 0, ns, gone) == (s1, 1);
  }
}
