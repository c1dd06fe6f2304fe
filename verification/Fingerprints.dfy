/** The fingerprint-file protocol.  An accepted firing post leaves its random
    fingerprint in a file; a resolved post reads it back; the controller removes the
    file when the failure is cleared. */
module Fingerprints {
  import opened StatusLists

  /** What the HTTP client reports: no answer, or a status code. */
  datatype Reply = NoAnswer | Status(code: int)

  predicate Accepted(r: Reply) {
    r == Status(200)
  }

  /** The posts sent and the removals made, in order.  `Misrouted` is a resolved post
      sent by NotifyExternalSystem, which makes up a fingerprint of its own. */
  datatype Event =
    | Fired(fp: string, accepted: bool)
    | Resolved(fp: string, accepted: bool)
    | Misrouted(fp: string, accepted: bool)
    | Removed

  datatype State = State(content: Option<string>, log: seq<Event>)

  const EMPTY := State(None, [])

  /** ReadFile with its error dropped. */
  function Text(content: Option<string>): string {
    if content.Some? then content.value else ""
  }

  /** `random` is the result of randomString(10). */
  function SubNotify(st: State, resolving: bool, random: string, reply: Reply): State {
    if resolving then
      if Text(st.content) == "" then st
      else State(st.content, st.log + [Resolved(Text(st.content), Accepted(reply))])
    else if Text(st.content) != "" then st
    else State(if Accepted(reply) then Some(random) else st.content, st.log + [Fired(random, Accepted(reply))])
  }

  function Notify(st: State, resolving: bool, random: string, reply: Reply): State {
    if Text(st.content) != "" then st
    else
      State(if Accepted(reply) then Some(random) else st.content,
            st.log + [if resolving then Misrouted(random, Accepted(reply)) else Fired(random, Accepted(reply))])
  }

  function Remove(st: State): State {
    State(None, st.log + [Removed])
  }

  /** One fingerprint file, with the posts made for it. */
  class FingerprintFile {
    var content: Option<string>
    var log: seq<Event>

    function Value(): State
      reads this
    {
      State(content, log)
    }

    constructor ()
      ensures Value() == EMPTY
    {
      content, log := None, [];
    }

    /** err is the returned error; a rejected post returns none. */
    method SubNotifyExternalSystem(resolving: bool, random: string, reply: Reply) returns (err: bool)
      modifies this
      ensures Value() == SubNotify(old(Value()), resolving, random, reply)
      ensures err <==> if resolving && Text(old(content)) == "" then true
                       else reply == NoAnswer && log != old(log)
    {
      var fingerprint := Text(content);
      if resolving {
        if content.None? || fingerprint == "" {
          return true;
        }
      } else {
        if fingerprint != "" {
          return false;
        }
        fingerprint := random;
      }
      log := log + [if resolving then Resolved(fingerprint, Accepted(reply)) else Fired(fingerprint, Accepted(reply))];
      if reply.NoAnswer? {
        return true;
      }
      if reply.code != 200 {
        return false;
      }
      content := Some(fingerprint);
      return false;
    }

    method NotifyExternalSystem(resolving: bool, random: string, reply: Reply) returns (err: bool)
      modifies this
      ensures Value() == Notify(old(Value()), resolving, random, reply)
      ensures err <==> reply == NoAnswer && log != old(log)
    {
      if Text(content) != "" {
        return false;
      }
      log := log + [if resolving then Misrouted(random, Accepted(reply)) else Fired(random, Accepted(reply))];
      if reply.NoAnswer? {
        return true;
      }
      if reply.code != 200 {
        return false;
      }
      content := Some(random);
      return false;
    }

    method RemoveFile()
      modifies this
      ensures Value() == Remove(old(Value()))
    {
      content := None;
      log := log + [Removed];
    }

    /** One step of a reconcile on the file. */
    method Take(step: Step) returns (err: bool)
      modifies this
      ensures Value() == Next(old(Value()), step)
    {
      err := false;
      match step {
        case Fire(viaSub, random, reply) =>
          if viaSub {
            err := SubNotifyExternalSystem(false, random, reply);
          } else {
            err := NotifyExternalSystem(false, random, reply);
          }
        case Resolve(reply) =>
          err := SubNotifyExternalSystem(true, "", reply);
        case RecoverMisrouted(random, reply) =>
          err := NotifyExternalSystem(true, random, reply);
          RemoveFile();
        case Clear =>
          RemoveFile();
      }
    }
  }

  // ----- runs

  /** What a reconcile does to a fingerprint file.  A recovery that goes through
      NotifyExternalSystem removes the file at once. */
  datatype Step =
    | Fire(viaSub: bool, random: string, reply: Reply)
    | Resolve(reply: Reply)
    | RecoverMisrouted(random: string, reply: Reply)
    | Clear

  function Next(st: State, step: Step): State {
    match step
    case Fire(viaSub, random, reply) =>
      if viaSub then SubNotify(st, false, random, reply) else Notify(st, false, random, reply)
    case Resolve(reply) => SubNotify(st, true, "", reply)
    case RecoverMisrouted(random, reply) => Remove(Notify(st, true, random, reply))
    case Clear => Remove(st)
  }

  function Run(steps: seq<Step>): State {
    if steps == [] then EMPTY else Next(Run(steps[..|steps| - 1]), steps[|steps| - 1])
  }

  /** randomString never returns the empty string. */
  predicate RandomNonEmpty(steps: seq<Step>) {
    forall s :: s in steps && (s.Fire? || s.RecoverMisrouted?) ==> s.random != ""
  }

  /** The fingerprint of the accepted firing post that is still outstanding. */
  function Outstanding(log: seq<Event>): Option<string> {
    if log == [] then None
    else
      match log[|log| - 1]
      case Removed => None
      case Fired(fp, true) => Some(fp)
      case _ => Outstanding(log[..|log| - 1])
  }

  ghost predicate Lawful(log: seq<Event>) {
    forall i :: 0 <= i < |log| ==>
      match log[i]
      case Resolved(fp, _) => Outstanding(log[..i]) == Some(fp)
      case Fired(_, accepted) => accepted ==> Outstanding(log[..i]) == None
      case Misrouted(_, _) => Outstanding(log[..i]) == None
      case Removed => true
  }

  /** The file holds the outstanding fingerprint and nothing else. */
  ghost predicate FileMatches(st: State) {
    Outstanding(st.log) == if Text(st.content) == "" then None else st.content
  }

  lemma Extend(log: seq<Event>, e: Event)
    requires Lawful(log)
    requires e.Resolved? ==> Outstanding(log) == Some(e.fp)
    requires e.Misrouted? || (e.Fired? && e.accepted) ==> Outstanding(log) == None
    ensures Lawful(log + [e])
    ensures Outstanding(log + [e]) ==
              if e.Removed? then None else if e.Fired? && e.accepted then Some(e.fp) else Outstanding(log)
  {
    var l := log + [e];
    assert l[..|log|] == log;
    forall i | 0 <= i < |log| ensures l[..i] == log[..i] {}
  }

  lemma StepLawful(st: State, step: Step)
    requires Lawful(st.log) && FileMatches(st)
    requires step.Fire? || step.RecoverMisrouted? ==> step.random != ""
    ensures Lawful(Next(st, step).log) && FileMatches(Next(st, step))
  {
    match step {
      case Fire(_, random, reply) =>
        if Text(st.content) == "" { Extend(st.log, Fired(random, Accepted(reply))); }
      case Resolve(reply) =>
        if Text(st.content) != "" { Extend(st.log, Resolved(Text(st.content), Accepted(reply))); }
      case RecoverMisrouted(random, reply) =>
        var mid := Notify(st, true, random, reply);
        if Text(st.content) == "" { Extend(st.log, Misrouted(random, Accepted(reply))); }
        Extend(mid.log, Removed);
      case Clear =>
        Extend(st.log, Removed);
    }
  }

  /** In every run each resolved post carries the fingerprint of the accepted firing
      post that is outstanding, no firing post is accepted while one is outstanding,
      and a misrouted recovery is only sent when nothing is outstanding. */
  lemma {:induction false} RunLawful(steps: seq<Step>)
    requires RandomNonEmpty(steps)
    ensures Lawful(Run(steps).log) && FileMatches(Run(steps))
  {
    if steps != [] {
      RunLawful(steps[..|steps| - 1]);
      StepLawful(Run(steps[..|steps| - 1]), steps[|steps| - 1]);
    }
  }

  // ----- which posts are made

  /** What the next step posts, from what is outstanding. */
  function Made(outstanding: Option<string>, step: Step): seq<Event> {
    match step
    case Fire(_, random, reply) => if outstanding.None? then [Fired(random, Accepted(reply))] else []
    case Resolve(reply) => if outstanding.Some? then [Resolved(outstanding.value, Accepted(reply))] else []
    case RecoverMisrouted(random, reply) =>
      (if outstanding.None? then [Misrouted(random, Accepted(reply))] else []) + [Removed]
    case Clear => [Removed]
  }

  predicate RandomStep(step: Step) {
    step.Fire? || step.RecoverMisrouted? ==> step.random != ""
  }

  /** What is outstanding after the step. */
  function Left(outstanding: Option<string>, step: Step): Option<string> {
    match step
    case Fire(_, random, reply) => if outstanding.None? && Accepted(reply) then Some(random) else outstanding
    case Resolve(_) => outstanding
    case RecoverMisrouted(_, _) => None
    case Clear => None
  }

  lemma NextMakes(st: State, step: Step)
    requires Lawful(st.log) && FileMatches(st) && RandomStep(step)
    ensures Next(st, step).log == st.log + Made(Outstanding(st.log), step)
  {
  }

  lemma {:induction false} OutstandingSnoc(log: seq<Event>, e: Event)
    ensures Outstanding(log + [e]) ==
              if e.Removed? then None else if e.Fired? && e.accepted then Some(e.fp) else Outstanding(log)
  {
    assert (log + [e])[..|log|] == log;
  }

  lemma MadeLeaves(log: seq<Event>, step: Step)
    ensures Outstanding(log + Made(Outstanding(log), step)) == Left(Outstanding(log), step)
  {
    match step
    case Fire(_, random, reply) =>
      assert log + [] == log;
      OutstandingSnoc(log, Fired(random, Accepted(reply)));
    case Resolve(reply) =>
      assert log + [] == log;
      if Outstanding(log).Some? { OutstandingSnoc(log, Resolved(Outstanding(log).value, Accepted(reply))); }
    case RecoverMisrouted(random, reply) =>
      var made := if Outstanding(log).None? then [Misrouted(random, Accepted(reply))] else [];
      assert log + (made + [Removed]) == (log + made) + [Removed];
      OutstandingSnoc(log + made, Removed);
    case Clear => OutstandingSnoc(log, Removed);
  }

  /** In every run a firing step, by either variant, makes its one post if and only if
      nothing is outstanding, and a resolving step if and only if something is; an accepted
      firing post leaves its text outstanding, and only a removal ends that. */
  lemma StepPosts(steps: seq<Step>, step: Step)
    requires RandomNonEmpty(steps) && RandomStep(step)
    ensures var log, after := Run(steps).log, Run(steps + [step]).log;
            after == log + Made(Outstanding(log), step) && Outstanding(after) == Left(Outstanding(log), step)
  {
    assert (steps + [step])[..|steps|] == steps;
    RunLawful(steps);
    NextMakes(Run(steps), step);
    MadeLeaves(Run(steps).log, step);
  }

  /** The posts a run makes, from the outstanding fingerprints alone. */
  function AllMade(steps: seq<Step>): seq<Event> {
    if steps == [] then []
    else AllMade(steps[..|steps| - 1]) + Made(Outstanding(AllMade(steps[..|steps| - 1])), steps[|steps| - 1])
  }

  /** So a run is told by its steps: its posts are these, and the file holds what they leave
      outstanding. */
  lemma {:induction false} RunMakes(steps: seq<Step>)
    requires RandomNonEmpty(steps)
    ensures Run(steps).log == AllMade(steps)
    ensures Outstanding(AllMade(steps)) == if Text(Run(steps).content) == "" then None else Run(steps).content
  {
    RunLawful(steps);
    if steps != [] {
      var front, step := steps[..|steps| - 1], steps[|steps| - 1];
      assert steps == front + [step] && step in steps;
      RunMakes(front);
      StepPosts(front, step);
    }
  }

  predicate Keeps(step: Step) {
    step.Fire? || step.Resolve?
  }

  /** One resolved post for each resolving step. */
  function Resolutions(fp: string, steps: seq<Step>): seq<Event> {
    if steps == [] then []
    else
      var last := steps[|steps| - 1];
      Resolutions(fp, steps[..|steps| - 1]) + if last.Resolve? then [Resolved(fp, Accepted(last.reply))] else []
  }

  /** While a fingerprint is outstanding no firing post is made at all, and every resolving
      step posts that fingerprint, until the file is removed. */
  lemma {:induction false} StaysOutstanding(steps: seq<Step>, later: seq<Step>, fp: string)
    requires RandomNonEmpty(steps) && RandomNonEmpty(later) && Outstanding(Run(steps).log) == Some(fp)
    requires forall s :: s in later ==> Keeps(s)
    ensures Run(steps + later).log == Run(steps).log + Resolutions(fp, later)
    ensures Outstanding(Run(steps + later).log) == Some(fp)
  {
    if later == [] {
      assert steps + later == steps;
    } else {
      var front, step := later[..|later| - 1], later[|later| - 1];
      assert steps + later == (steps + front) + [step] && step in later;
      StaysOutstanding(steps, front, fp);
      StepPosts(steps + front, step);
    }
  }

  // ----- what "outstanding" means

  ghost predicate NoRemoval(log: seq<Event>, from: nat, to: nat) {
    forall k :: from <= k < to <= |log| ==> !log[k].Removed?
  }

  lemma {:induction false} OutstandingMeaning(log: seq<Event>, fp: string)
    ensures Outstanding(log) == Some(fp) ==>
              exists j :: 0 <= j < |log| && log[j] == Fired(fp, true) && NoRemoval(log, j, |log|)
    ensures Outstanding(log) == None ==>
              forall j :: 0 <= j < |log| && log[j].Fired? && log[j].accepted ==> !NoRemoval(log, j, |log|)
  {
    if log != [] {
      var front, last := log[..|log| - 1], log[|log| - 1];
      OutstandingMeaning(front, fp);
      if Outstanding(log) == Some(fp) {
        if last == Fired(fp, true) {
          assert NoRemoval(log, |log| - 1, |log|);
        } else {
          var j :| 0 <= j < |front| && front[j] == Fired(fp, true) && NoRemoval(front, j, |front|);
          forall k | j <= k < |log| ensures !log[k].Removed? {
            if k < |front| { assert log[k] == front[k]; }
          }
          assert log[j] == Fired(fp, true) && NoRemoval(log, j, |log|);
        }
      }
      if Outstanding(log) == None {
        forall j | 0 <= j < |log| && log[j].Fired? && log[j].accepted ensures !NoRemoval(log, j, |log|) {
          if last.Removed? {
            assert log[|log| - 1].Removed?;
          } else {
            assert front[j] == log[j];
            var k :| j <= k < |front| && front[k].Removed?;
            assert log[k].Removed?;
          }
        }
      }
    }
  }

  /** Every resolved post carries the fingerprint of an accepted firing post since the
      last removal, and between two removals at most one firing post is accepted. */
  lemma ResolvedCarriesFired(steps: seq<Step>, i: nat)
    requires RandomNonEmpty(steps) && i < |Run(steps).log|
    ensures var log := Run(steps).log;
            log[i].Resolved? ==> exists j :: 0 <= j < i && log[j] == Fired(log[i].fp, true) && NoRemoval(log, j, i)
    ensures var log := Run(steps).log;
            log[i].Fired? && log[i].accepted ==>
              forall j :: 0 <= j < i && log[j].Fired? && log[j].accepted ==> !NoRemoval(log, j, i)
    ensures var log := Run(steps).log;
            log[i].Misrouted? ==>
              forall j :: 0 <= j < i && log[j].Fired? && log[j].accepted ==> !NoRemoval(log, j, i)
  {
    RunLawful(steps);
    var log := Run(steps).log;
    var past := log[..i];
    OutstandingMeaning(past, if log[i].Removed? then "" else log[i].fp);
    if log[i].Resolved? {
      var j :| 0 <= j < i && past[j] == Fired(log[i].fp, true) && NoRemoval(past, j, i);
      assert forall k :: j <= k < i ==> past[k] == log[k];
      assert log[j] == Fired(log[i].fp, true) && NoRemoval(log, j, i);
    } else if Outstanding(past) == None {
      forall j | 0 <= j < i && log[j].Fired? && log[j].accepted ensures !NoRemoval(log, j, i) {
        assert past[j] == log[j];
        var k :| j <= k < |past| && past[k].Removed?;
        assert log[k].Removed?;
      }
    }
  }

  /** A failure whose recovery never removes the file, as that of an unestablished BGP
      neighbor, is fired with success at most once however often it comes back. */
  lemma FiresOnce(steps: seq<Step>, i: nat, j: nat)
    requires RandomNonEmpty(steps) && (forall s :: s in steps ==> s.Fire? || s.Resolve?)
    requires j < i < |Run(steps).log|
    ensures !(Run(steps).log[i].Fired? && Run(steps).log[i].accepted
              && Run(steps).log[j].Fired? && Run(steps).log[j].accepted)
  {
    NeverRemoved(steps);
    ResolvedCarriesFired(steps, i);
  }

  lemma {:induction false} NeverRemoved(steps: seq<Step>)
    requires forall s :: s in steps ==> s.Fire? || s.Resolve?
    ensures forall k :: 0 <= k < |Run(steps).log| ==> !Run(steps).log[k].Removed?
  {
    if steps != [] {
      assert steps[|steps| - 1] in steps;
      NeverRemoved(steps[..|steps| - 1]);
    }
  }
}
