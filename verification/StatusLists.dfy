/** The string lists a scan keeps in its status object, and the two ways every
    reconciler changes one: append a key that is absent, delete a key that is
    present.  All four scan loops are runs of these two operations. */
module StatusLists {

  datatype Option<+T> = None | Some(value: T)

  ghost predicate NoDup<T>(s: seq<T>) {
    forall i, j :: 0 <= i < j < |s| ==> s[i] != s[j]
  }

  /** slices.Index */
  function IndexOf<T(==)>(s: seq<T>, x: T): (i: int)
    ensures -1 <= i < |s|
    ensures i == -1 <==> x !in s
    ensures i >= 0 ==> s[i] == x && x !in s[..i]
  {
    if s == [] then -1
    else if s[0] == x then 0
    else
      var i := IndexOf(s[1..], x);
      if i == -1 then -1 else i + 1
  }

  /** The value of `append(s[:i], s[i+1:]...)`. */
  function DeleteAt<T>(s: seq<T>, i: nat): (r: seq<T>)
    requires i < |s|
  {
    s[..i] + s[i + 1..]
  }

  function Filter<T(!new)>(s: seq<T>, p: T -> bool): (r: seq<T>)
    ensures forall x :: x in r <==> x in s && p(x)
    ensures |r| <= |s|
  {
    if s == [] then []
    else if p(s[0]) then [s[0]] + Filter(s[1..], p)
    else Filter(s[1..], p)
  }

  datatype Op<T> = Add(key: T) | Drop(key: T)

  function Apply<T(==)>(s: seq<T>, op: Op<T>): seq<T> {
    match op
    case Add(k) => if k in s then s else s + [k]
    case Drop(k) => if k in s then DeleteAt(s, IndexOf(s, k)) else s
  }

  function Run<T(==)>(s: seq<T>, ops: seq<Op<T>>): seq<T> {
    if ops == [] then s else Apply(Run(s, ops[..|ops| - 1]), ops[|ops| - 1])
  }

  /** The last operation of a run that names `k`. */
  function LastOp<T(==)>(ops: seq<Op<T>>, k: T): Option<Op<T>> {
    if ops == [] then None
    else if ops[|ops| - 1].key == k then Some(ops[|ops| - 1])
    else LastOp(ops[..|ops| - 1], k)
  }

  /** An incident of the external system is recorded once it has a number. */
  function WithIncident(ids: seq<string>, id: string): seq<string> {
    if id in ids || id == "" || id == "[Pending]" then ids else ids + [id]
  }

  // ----- one operation

  lemma DeleteMembers<T>(s: seq<T>, i: nat, x: T)
    requires NoDup(s) && i < |s|
    ensures x in DeleteAt(s, i) <==> x in s && x != s[i]
  {
    var r := DeleteAt(s, i);
    if x in s && x != s[i] {
      var j :| 0 <= j < |s| && s[j] == x;
      assert r[if j < i then j else j - 1] == x;
    }
    if x in r {
      var j :| 0 <= j < |r| && r[j] == x;
      assert s[if j < i then j else j + 1] == x;
    }
  }

  lemma DeleteNoDup<T>(s: seq<T>, i: nat)
    requires NoDup(s) && i < |s|
    ensures NoDup(DeleteAt(s, i))
  {
    var r := DeleteAt(s, i);
    forall j, k | 0 <= j < k < |r| ensures r[j] != r[k] {
      assert r[j] == s[if j < i then j else j + 1];
      assert r[k] == s[if k < i then k else k + 1];
    }
  }

  lemma ApplyMembers<T(!new)>(s: seq<T>, op: Op<T>)
    requires NoDup(s)
    ensures NoDup(Apply(s, op))
    ensures op.Add? ==> forall x :: x in Apply(s, op) <==> x in s || x == op.key
    ensures op.Drop? ==> forall x :: x in Apply(s, op) <==> x in s && x != op.key
  {
    if op.Drop? && op.key in s {
      var i := IndexOf(s, op.key);
      DeleteNoDup(s, i);
      forall x ensures x in Apply(s, op) <==> x in s && x != op.key {
        DeleteMembers(s, i, x);
      }
    }
  }

  // ----- whole runs

  lemma {:induction false} RunNoDup<T(!new)>(s: seq<T>, ops: seq<Op<T>>)
    requires NoDup(s)
    ensures NoDup(Run(s, ops))
  {
    if ops != [] {
      var front := ops[..|ops| - 1];
      RunNoDup(s, front);
      ApplyMembers(Run(s, front), ops[|ops| - 1]);
    }
  }

  lemma RunOne<T>(s: seq<T>, op: Op<T>)
    ensures Run(s, [op]) == Apply(s, op)
  {
    assert [op][..0] == [];
  }

  lemma {:induction false} RunAppend<T>(s: seq<T>, a: seq<Op<T>>, b: seq<Op<T>>)
    ensures Run(s, a + b) == Run(Run(s, a), b)
  {
    if b == [] {
      assert a + b == a;
    } else {
      var front := b[..|b| - 1];
      assert (a + b)[..|a + b| - 1] == a + front;
      RunAppend(s, a, front);
    }
  }

  /** After any run a key is listed iff the last operation on it added it, or no
      operation named it and it was listed before. */
  lemma {:induction false} RunMembership<T(!new)>(s: seq<T>, ops: seq<Op<T>>, k: T)
    requires NoDup(s)
    ensures k in Run(s, ops) <==>
            match LastOp(ops, k)
            case None => k in s
            case Some(op) => op.Add?
  {
    if ops != [] {
      var front := ops[..|ops| - 1];
      RunMembership(s, front, k);
      RunNoDup(s, front);
      ApplyMembers(Run(s, front), ops[|ops| - 1]);
    }
  }

  lemma {:induction false} LastOpSound<T>(ops: seq<Op<T>>, k: T)
    ensures LastOp(ops, k).Some? <==> Add(k) in ops || Drop(k) in ops
    ensures LastOp(ops, k).Some? ==> LastOp(ops, k).value in ops && LastOp(ops, k).value.key == k
  {
    if ops != [] {
      var front, last := ops[..|ops| - 1], ops[|ops| - 1];
      assert ops == front + [last];
      LastOpSound(front, k);
    }
  }

  lemma {:induction false} LastOpAppend<T>(a: seq<Op<T>>, b: seq<Op<T>>, k: T)
    ensures LastOp(a + b, k) == if LastOp(b, k).Some? then LastOp(b, k) else LastOp(a, k)
  {
    if b == [] {
      assert a + b == a;
    } else {
      assert (a + b)[..|a + b| - 1] == a + b[..|b| - 1];
      LastOpAppend(a, b[..|b| - 1], k);
    }
  }

  // ----- runs whose operations do not contradict each other

  /** No key is both added and dropped. */
  ghost predicate Agree<T(!new)>(ops: seq<Op<T>>) {
    forall k :: !(Add(k) in ops && Drop(k) in ops)
  }

  /** The keys a run appends to `s`, in the order it appends them. */
  function Fresh<T(==,!new)>(s: seq<T>, ops: seq<Op<T>>): (r: seq<T>)
    ensures forall k :: k in r ==> k !in s && Add(k) in ops
    ensures NoDup(r)
  {
    if ops == [] then []
    else
      var r, op := Fresh(s, ops[..|ops| - 1]), ops[|ops| - 1];
      if op.Add? && op.key !in s && op.key !in r then r + [op.key] else r
  }

  lemma {:induction false} FilterAppend<T(!new)>(a: seq<T>, b: seq<T>, p: T -> bool)
    ensures Filter(a + b, p) == Filter(a, p) + Filter(b, p)
  {
    if a == [] {
      assert a + b == b;
    } else {
      assert (a + b)[1..] == a[1..] + b;
      FilterAppend(a[1..], b, p);
    }
  }

  lemma {:induction false} FilterSame<T(!new)>(s: seq<T>, p: T -> bool, q: T -> bool)
    requires forall x :: x in s ==> p(x) == q(x)
    ensures Filter(s, p) == Filter(s, q)
  {
    if s != [] { FilterSame(s[1..], p, q); }
  }

  lemma {:induction false} FilterAll<T(!new)>(s: seq<T>, p: T -> bool)
    requires forall x :: x in s ==> p(x)
    ensures Filter(s, p) == s
  {
    if s != [] { FilterAll(s[1..], p); }
  }

  lemma {:induction false} FilterFilter<T(!new)>(s: seq<T>, p: T -> bool, q: T -> bool)
    ensures Filter(Filter(s, p), q) == Filter(s, x => p(x) && q(x))
  {
    if s != [] {
      FilterFilter(s[1..], p, q);
      if p(s[0]) { FilterAppend([s[0]], Filter(s[1..], p), q); }
    }
  }

  lemma {:induction false} FilterNoDup<T(!new)>(s: seq<T>, p: T -> bool)
    requires NoDup(s)
    ensures NoDup(Filter(s, p))
  {
    if s != [] {
      assert forall i :: 0 < i < |s| ==> s[i] != s[0];
      FilterNoDup(s[1..], p);
    }
  }

  /** Deleting the one occurrence of `k` is filtering it out. */
  lemma DeleteIsFilter<T(!new)>(s: seq<T>, k: T)
    requires NoDup(s) && k in s
    ensures DeleteAt(s, IndexOf(s, k)) == Filter(s, x => x != k)
  {
    var i, p := IndexOf(s, k), x => x != k;
    assert s == s[..i] + ([s[i]] + s[i + 1..]);
    FilterAppend(s[..i], [s[i]] + s[i + 1..], p);
    FilterAppend([s[i]], s[i + 1..], p);
    FilterAll(s[..i], p);
    FilterAll(s[i + 1..], p);
  }

  lemma {:induction false} FilterDelete<T(!new)>(s: seq<T>, i: nat, p: T -> bool)
    requires i < |s| && !p(s[i])
    ensures Filter(DeleteAt(s, i), p) == Filter(s, p)
  {
    if i == 0 {
      assert DeleteAt(s, 0) == s[1..];
    } else {
      assert DeleteAt(s, i)[1..] == DeleteAt(s[1..], i - 1);
      FilterDelete(s[1..], i - 1, p);
    }
  }

  function NotDropped<T(==,!new)>(ops: seq<Op<T>>): T -> bool {
    k => Drop(k) !in ops
  }

  /** Operations that agree leave the entries no operation drops, in their old
      order, followed by the keys that are new. */
  lemma {:induction false} SettledForm<T(!new)>(s: seq<T>, ops: seq<Op<T>>)
    requires NoDup(s) && Agree(ops)
    ensures Run(s, ops) == Filter(s, NotDropped(ops)) + Fresh(s, ops)
  {
    if ops == [] {
      FilterAll(s, NotDropped(ops));
    } else {
      var front, last := ops[..|ops| - 1], ops[|ops| - 1];
      assert ops == front + [last];
      SettledForm(s, front);
      var kept, added := Filter(s, NotDropped(front)), Fresh(s, front);
      if last.Add? {
        assert Drop(last.key) !in ops;
        FilterSame(s, NotDropped(front), NotDropped(ops));
      } else {
        assert last in ops;
        assert Add(last.key) !in ops;
        assert last.key !in added;
        RunNoDup(s, front);
        var p := x => x != last.key;
        FilterFilter(s, NotDropped(front), p);
        FilterSame(s, x => NotDropped(front)(x) && p(x), NotDropped(ops));
        FilterAppend(kept, added, p);
        FilterAll(added, p);
        if last.key in kept + added {
          DeleteIsFilter(kept + added, last.key);
        } else {
          FilterAll(kept + added, p);
        }
      }
    }
  }

  // ----- schedules: bodies that run in any order, each one atomically

  function Flatten<T>(bodies: seq<seq<T>>): seq<T> {
    if bodies == [] then [] else Flatten(bodies[..|bodies| - 1]) + bodies[|bodies| - 1]
  }

  lemma {:induction false} FlattenMembers<T>(bodies: seq<seq<T>>, x: T)
    ensures x in Flatten(bodies) <==> exists b :: b in bodies && x in b
  {
    if bodies != [] {
      var front, last := bodies[..|bodies| - 1], bodies[|bodies| - 1];
      assert bodies == front + [last];
      FlattenMembers(front, x);
    }
  }

  lemma {:induction false} FlattenAppend<T>(a: seq<seq<T>>, b: seq<seq<T>>)
    ensures Flatten(a + b) == Flatten(a) + Flatten(b)
  {
    if b == [] {
      assert a + b == a;
    } else {
      assert (a + b)[..|a + b| - 1] == a + b[..|b| - 1];
      FlattenAppend(a, b[..|b| - 1]);
    }
  }

  ghost predicate IsSchedule<T>(order: seq<T>, bodies: seq<T>) {
    multiset(order) == multiset(bodies)
  }

  lemma ScheduleMembers<T>(order: seq<T>, bodies: seq<T>, x: T)
    requires IsSchedule(order, bodies)
    ensures x in order <==> x in bodies
  {
    assert x in order <==> x in multiset(order);
    assert x in bodies <==> x in multiset(bodies);
  }

  lemma ScheduleOps<T(!new)>(order: seq<seq<Op<T>>>, bodies: seq<seq<Op<T>>>, op: Op<T>)
    requires IsSchedule(order, bodies)
    ensures op in Flatten(order) <==> op in Flatten(bodies)
  {
    FlattenMembers(order, op);
    FlattenMembers(bodies, op);
    forall b ensures b in order <==> b in bodies { ScheduleMembers(order, bodies, b); }
  }

  ghost predicate SameElements<T(!new)>(a: seq<T>, b: seq<T>) {
    forall k :: k in a <==> k in b
  }

  /** Every execution order of the bodies leaves the same set of keys. */
  ghost predicate OrderFree<T(!new)>(s: seq<T>, bodies: seq<seq<Op<T>>>) {
    forall o1, o2 :: IsSchedule(o1, bodies) && IsSchedule(o2, bodies) ==>
      SameElements(Run(s, Flatten(o1)), Run(s, Flatten(o2)))
  }

  /** One body names each key at most once. */
  ghost predicate OncePerKey<T>(body: seq<Op<T>>) {
    forall i, j :: 0 <= i < j < |body| ==> body[i].key != body[j].key
  }

  /** Two schedules of agreeing bodies end with the same old entries in the same
      order, and with the same set of entries altogether. */
  lemma SchedulesConverge<T(!new)>(s: seq<T>, bodies: seq<seq<Op<T>>>, order: seq<seq<Op<T>>>)
    requires NoDup(s) && Agree(Flatten(bodies)) && IsSchedule(order, bodies)
    ensures Run(s, Flatten(order)) == Filter(s, NotDropped(Flatten(bodies))) + Fresh(s, Flatten(order))
    ensures forall k :: k in Run(s, Flatten(order)) <==>
                        Add(k) in Flatten(bodies) || (k in s && Drop(k) !in Flatten(bodies))
  {
    forall op ensures op in Flatten(order) <==> op in Flatten(bodies) { ScheduleOps(order, bodies, op); }
    SettledForm(s, Flatten(order));
    FilterSame(s, NotDropped(Flatten(order)), NotDropped(Flatten(bodies)));
    forall k ensures k in Run(s, Flatten(order)) <==>
                     Add(k) in Flatten(bodies) || (k in s && Drop(k) !in Flatten(bodies)) {
      RunMembership(s, Flatten(order), k);
      LastOpSound(Flatten(order), k);
    }
  }

  lemma OnlyOpOnKey<T>(body: seq<Op<T>>, op: Op<T>)
    requires OncePerKey(body) && op in body
    ensures LastOp(body, op.key) == Some(op)
  {
    LastOpSound(body, op.key);
    var last := LastOp(body, op.key).value;
    var i :| 0 <= i < |body| && body[i] == op;
    var j :| 0 <= j < |body| && body[j] == last;
    assert i == j;
  }

  lemma BodyLast<T>(bodies: seq<seq<Op<T>>>, i: nat) returns (order: seq<seq<Op<T>>>)
    requires i < |bodies|
    ensures IsSchedule(order, bodies)
    ensures order != [] && order[|order| - 1] == bodies[i]
  {
    order := bodies[..i] + bodies[i + 1..] + [bodies[i]];
    assert bodies == bodies[..i] + [bodies[i]] + bodies[i + 1..];
  }

  lemma LastBodyDecides<T(!new)>(s: seq<T>, order: seq<seq<Op<T>>>, op: Op<T>)
    requires NoDup(s) && order != []
    requires OncePerKey(order[|order| - 1]) && op in order[|order| - 1]
    ensures op.key in Run(s, Flatten(order)) <==> op.Add?
  {
    var last := order[|order| - 1];
    OnlyOpOnKey(last, op);
    LastOpAppend(Flatten(order[..|order| - 1]), last, op.key);
    RunMembership(s, Flatten(order), op.key);
  }

  /** The order of the bodies is irrelevant exactly when no two of them disagree
      about a key. */
  lemma OrderFreeIffAgree<T(!new)>(s: seq<T>, bodies: seq<seq<Op<T>>>)
    requires NoDup(s)
    requires forall b :: b in bodies ==> OncePerKey(b)
    ensures OrderFree(s, bodies) <==> Agree(Flatten(bodies))
  {
    if Agree(Flatten(bodies)) {
      forall o1, o2 | IsSchedule(o1, bodies) && IsSchedule(o2, bodies)
        ensures SameElements(Run(s, Flatten(o1)), Run(s, Flatten(o2)))
      {
        SchedulesConverge(s, bodies, o1);
        SchedulesConverge(s, bodies, o2);
      }
    } else {
      var k :| Add(k) in Flatten(bodies) && Drop(k) in Flatten(bodies);
      FlattenMembers(bodies, Add(k));
      FlattenMembers(bodies, Drop(k));
      var i :| 0 <= i < |bodies| && Add(k) in bodies[i];
      var j :| 0 <= j < |bodies| && Drop(k) in bodies[j];
      var o1 := BodyLast(bodies, i);
      var o2 := BodyLast(bodies, j);
      LastBodyDecides(s, o1, Add(k));
      LastBodyDecides(s, o2, Drop(k));
      assert !SameElements(Run(s, Flatten(o1)), Run(s, Flatten(o2)));
    }
  }
}
