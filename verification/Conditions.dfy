/** The condition list of a status object.  The four `SetReadyCondition` functions (one
    is called `SetNonViolationCondition`) do the same with their own condition type. */
module Conditions {
  import opened StatusLists

  datatype Condition = Condition(kind: string, status: string, reason: string, message: string, since: Option<int>)

  /** The index of the first condition of a kind. */
  function Find(cs: seq<Condition>, kind: string): (i: int)
    ensures -1 <= i < |cs|
    ensures i >= 0 ==> cs[i].kind == kind && forall j :: 0 <= j < i ==> cs[j].kind != kind
    ensures i < 0 ==> forall j :: 0 <= j < |cs| ==> cs[j].kind != kind
  {
    if cs == [] then -1
    else if cs[0].kind == kind then 0
    else
      var i := Find(cs[1..], kind);
      if i < 0 then -1 else i + 1
  }

  function Updated(c: Condition, status: string, reason: string, message: string, now: int): Condition {
    Condition(c.kind, status, reason, message, if c.status != status then Some(now) else c.since)
  }

  function SetReady(cs: seq<Condition>, kind: string, status: string, reason: string, message: string,
                    now: int): seq<Condition> {
    var i := Find(cs, kind);
    if i < 0 then cs + [Updated(Condition(kind, "", "", "", None), status, reason, message, now)]
    else cs[i := Updated(cs[i], status, reason, message, now)]
  }

  class ConditionList {
    var conditions: seq<Condition>

    method SetReadyCondition(kind: string, status: string, reason: string, message: string, now: int)
      modifies this
      ensures conditions == SetReady(old(conditions), kind, status, reason, message, now)
    {
      var found := Find(conditions, kind);
      var ready := Condition(kind, "", "", "", None);
      if found >= 0 {
        ready := conditions[found];
      } else {
        conditions := conditions + [ready];
      }
      if ready.status != status {
        ready := ready.(status := status, since := Some(now));
      }
      ready := ready.(reason := reason, message := message);
      var i := 0;
      while i < |conditions|
        invariant 0 <= i <= |conditions|
        invariant conditions == if found >= 0 then old(conditions)
                                  else old(conditions) + [Condition(kind, "", "", "", None)]
        invariant forall j :: 0 <= j < i ==> conditions[j].kind != kind
      {
        if conditions[i].kind == kind {
          conditions := conditions[i := ready];
          return;
        }
        i := i + 1;
      }
    }
  }

  // ----- sequences of calls

  datatype Call = Call(status: string, reason: string, message: string, now: int)

  function SetAll(cs: seq<Condition>, kind: string, calls: seq<Call>): seq<Condition> {
    if calls == [] then cs
    else
      var c := calls[|calls| - 1];
      SetReady(SetAll(cs, kind, calls[..|calls| - 1]), kind, c.status, c.reason, c.message, c.now)
  }

  /** The last call whose status differs from that of the call before it; the first
      call counts when its status is not empty. */
  function LastChange(calls: seq<Call>): int
    requires calls != []
    ensures -1 <= LastChange(calls) < |calls|
  {
    var n := |calls| - 1;
    if calls[n].status != (if n == 0 then "" else calls[n - 1].status) then n
    else if n == 0 then -1
    else LastChange(calls[..n])
  }

  /** After any calls on a list without that kind there is exactly one such condition,
      behind the unchanged old ones; it carries the last call's fields and the time of
      the last call that changed the status. */
  lemma {:induction false} OneReadyCondition(cs: seq<Condition>, kind: string, calls: seq<Call>)
    requires Find(cs, kind) < 0 && calls != []
    ensures var last := calls[|calls| - 1];
            SetAll(cs, kind, calls) ==
            cs + [Condition(kind, last.status, last.reason, last.message,
                            if LastChange(calls) < 0 then None else Some(calls[LastChange(calls)].now))]
  {
    var front, last := calls[..|calls| - 1], calls[|calls| - 1];
    if front == [] {
      assert SetAll(cs, kind, front) == cs;
    } else {
      OneReadyCondition(cs, kind, front);
      var before := SetAll(cs, kind, front);
      assert before[|cs|].kind == kind && forall j | 0 <= j < |cs| :: before[j] == cs[j];
      assert Find(before, kind) == |cs|;
      assert calls[|calls| - 2] == front[|front| - 1];
    }
  }

  /** A call keeps the conditions of other kinds where they are. */
  lemma OthersUntouched(cs: seq<Condition>, kind: string, c: Call, i: nat)
    requires i < |cs| && cs[i].kind != kind
    ensures i < |SetReady(cs, kind, c.status, c.reason, c.message, c.now)|
    ensures SetReady(cs, kind, c.status, c.reason, c.message, c.now)[i] == cs[i]
  {
  }
}
