/** The target pods of the load balancer services, and what the two endpoint phases of
    an elapsed scan make of them. */
module SvcEndPoints {
  import opened StatusLists
  import opened FailureMessages
  import opened BgpConfig
  import opened MetallbPhases
  import opened MetallbScan

  datatype Address = Address(kind: string, pod: string, ns: string)

  /** `addresses` is None when no address of the subset is ready. */
  datatype Subset = Subset(addresses: Option<seq<Address>>)

  /** What the API answers: a service's endpoints, and whether a pod runs. */
  datatype Api = Api(endpoints: Service -> Option<seq<Subset>>, running: (string, string) -> Option<bool>)

  // ----- one service

  predicate AddressReadable(a: Address, api: Api) {
    a.kind == "Pod" ==> api.running(a.pod, a.ns).Some?
  }

  predicate SubsetReadable(s: Subset, api: Api) {
    s.addresses.Some? && forall a :: a in s.addresses.value ==> AddressReadable(a, api)
  }

  predicate Readable(s: Service, api: Api) {
    api.endpoints(s).Some? && forall u :: u in api.endpoints(s).value ==> SubsetReadable(u, api)
  }

  predicate Runs(a: Address, api: Api) {
    api.running(a.pod, a.ns).Some? && api.running(a.pod, a.ns).value
  }

  function PodStates(adds: seq<Address>, api: Api): seq<bool> {
    if adds == [] then []
    else
      var a := adds[|adds| - 1];
      PodStates(adds[..|adds| - 1], api) + if a.kind == "Pod" then [Runs(a, api)] else []
  }

  function SubsetStates(subs: seq<Subset>, api: Api): seq<bool> {
    if subs == [] then []
    else
      var s := subs[|subs| - 1];
      SubsetStates(subs[..|subs| - 1], api) + if s.addresses.Some? then PodStates(s.addresses.value, api) else []
  }

  function Record(s: Service, api: Api): LbService {
    var states := if api.endpoints(s).Some? then SubsetStates(api.endpoints(s).value, api) else [];
    LbService(s.name, s.ns, states, states != [])
  }

  method ReadSubset(sub: Subset, api: Api) returns (r: Option<seq<bool>>)
    ensures r.Some? <==> SubsetReadable(sub, api)
    ensures r.Some? ==> r.value == PodStates(sub.addresses.value, api)
  {
    if sub.addresses.None? {
      return None;
    }
    var adds, states := sub.addresses.value, [];
    for i := 0 to |adds|
      invariant states == PodStates(adds[..i], api)
      invariant forall a :: a in adds[..i] ==> AddressReadable(a, api)
    {
      assert adds[..i + 1] == adds[..i] + [adds[i]] && adds[..i + 1][..i] == adds[..i];
      if adds[i].kind == "Pod" {
        var running := api.running(adds[i].pod, adds[i].ns);
        if running.None? {
          assert adds[i] in adds && !AddressReadable(adds[i], api);
          return None;
        }
        states := states + [running.value];
      } else {
        assert states + [] == states;
      }
    }
    assert adds[..|adds|] == adds;
    return Some(states);
  }

  method ReadService(s: Service, api: Api) returns (r: Option<LbService>)
    ensures r.Some? <==> Readable(s, api)
    ensures r.Some? ==> r.value == Record(s, api)
  {
    if api.endpoints(s).None? {
      return None;
    }
    var subs, states := api.endpoints(s).value, [];
    for i := 0 to |subs|
      invariant states == SubsetStates(subs[..i], api)
      invariant forall u :: u in subs[..i] ==> SubsetReadable(u, api)
    {
      assert subs[..i + 1] == subs[..i] + [subs[i]];
      var sub := ReadSubset(subs[i], api);
      if sub.None? {
        assert subs[i] in subs;
        return None;
      }
      states := states + sub.value;
    }
    assert subs[..|subs|] == subs;
    return Some(LbService(s.name, s.ns, states, |states| > 0));
  }

  function Records(services: seq<Service>, api: Api): (r: seq<LbService>)
    ensures |r| == |services| && forall i :: 0 <= i < |r| ==> r[i] == Record(services[i], api)
  {
    seq(|services|, i requires 0 <= i < |services| => Record(services[i], api))
  }

  predicate AllReadable(services: seq<Service>, api: Api) {
    forall s :: s in services ==> Readable(s, api)
  }

  /** The records a scan works with. */
  function ReadRecords(services: seq<Service>, api: Api): seq<LbService> {
    if AllReadable(services, api) then Records(services, api) else []
  }

  /** GetSvcEndPoints.  One service that cannot be read, or has a subset without ready
      addresses, discards the records of all; the scan then goes on with none. */
  method GetSvcEndPoints(services: seq<Service>, api: Api) returns (r: seq<LbService>)
    ensures r == ReadRecords(services, api)
  {
    r := [];
    for i := 0 to |services|
      invariant r == Records(services[..i], api)
      invariant AllReadable(services[..i], api)
    {
      assert services[..i + 1] == services[..i] + [services[i]];
      var record := ReadService(services[i], api);
      if record.None? {
        assert services[i] in services;
        return [];
      }
      r := r + [record.value];
    }
    assert services[..|services|] == services;
  }

  /** One service that cannot be read, say for a subset without ready addresses, keeps both
      endpoint phases of the scan from recording or clearing anything about any service. */
  lemma DiscardedRecordsFreeze(services: seq<Service>, api: Api, s: Service, l: Lists, cfg: Config, first: bool)
    requires s in services && !Readable(s, api)
    ensures var records := ReadRecords(services, api);
            && records == []
            && Perform(l, Bodies(EndpointBodies(records, first)), cfg, first) == Going(l)
            && Perform(l, Bodies(TargetBodies(records, first)), cfg, first) == Going(l)
  {
    assert PhaseOps([], first) == [];
  }

  // ----- what the records say

  /** Some address of the service names a pod that does not run. */
  ghost predicate HasDownPod(s: Service, api: Api) {
    api.endpoints(s).Some? && exists u, a :: u in api.endpoints(s).value && PodOfSubset(u, a) && !Runs(a, api)
  }

  ghost predicate HasPod(s: Service, api: Api) {
    api.endpoints(s).Some? && exists u, a :: u in api.endpoints(s).value && PodOfSubset(u, a)
  }

  predicate PodOfSubset(u: Subset, a: Address) {
    u.addresses.Some? && a in u.addresses.value && a.kind == "Pod"
  }

  lemma {:induction false} PodStatesMeaning(adds: seq<Address>, api: Api)
    ensures false in PodStates(adds, api) <==> exists a :: a in adds && a.kind == "Pod" && !Runs(a, api)
    ensures PodStates(adds, api) == [] <==> !exists a :: a in adds && a.kind == "Pod"
  {
    if adds != [] {
      var front, last := adds[..|adds| - 1], adds[|adds| - 1];
      assert adds == front + [last];
      PodStatesMeaning(front, api);
    }
  }

  lemma {:induction false} SubsetStatesMeaning(subs: seq<Subset>, api: Api)
    ensures false in SubsetStates(subs, api) <==> exists u, a :: u in subs && PodOfSubset(u, a) && !Runs(a, api)
    ensures SubsetStates(subs, api) == [] <==> !exists u, a :: u in subs && PodOfSubset(u, a)
  {
    if subs != [] {
      var front, last := subs[..|subs| - 1], subs[|subs| - 1];
      assert subs == front + [last];
      SubsetStatesMeaning(front, api);
      if last.addresses.Some? {
        PodStatesMeaning(last.addresses.value, api);
        assert forall a :: PodOfSubset(last, a) <==> a in last.addresses.value && a.kind == "Pod";
      }
    }
  }

  lemma RecordMeaning(s: Service, api: Api)
    ensures false in Record(s, api).running <==> HasDownPod(s, api)
    ensures Record(s, api).hasTargets <==> HasPod(s, api)
  {
    if api.endpoints(s).Some? { SubsetStatesMeaning(api.endpoints(s).value, api); }
  }

  // ----- the phase of the pods that are not running

  ghost predicate SomeDown(services: seq<LbService>, name: string) {
    exists t :: t in services && t.name == name && false in t.running
  }

  lemma {:induction false} NamePerPodMember(s: LbService, n: nat, name: string)
    requires n <= |s.running|
    ensures name in NamePerPod(s, n) <==> name == s.name && false in s.running[..n]
  {
    if n > 0 {
      NamePerPodMember(s, n - 1, name);
      assert s.running[..n] == s.running[..n - 1] + [s.running[n - 1]];
    }
  }

  lemma {:induction false} DownNamesMember(services: seq<LbService>, name: string)
    ensures name in DownNames(services) <==> SomeDown(services, name)
  {
    if services != [] {
      var front, last := services[..|services| - 1], services[|services| - 1];
      assert services == front + [last];
      DownNamesMember(front, name);
      NamePerPodMember(last, |last.running|, name);
      assert last.running[..|last.running|] == last.running;
    }
  }

  lemma {:induction false} DownOpsMember(name: string, services: seq<LbService>, op: Op<Failure>)
    ensures op in DownOps(name, services) <==>
              exists t :: t in services && t.name == name && op == Add(PodNotRunning(t.name, t.ns))
  {
    if services != [] {
      var front, last := services[..|services| - 1], services[|services| - 1];
      assert services == front + [last];
      DownOpsMember(name, front, op);
    }
  }

  ghost predicate NamedServices(services: seq<LbService>) {
    forall t :: t in services ==> Name(t.name) && Name(t.ns)
  }

  lemma EndpointBodiesWellNamed(services: seq<LbService>)
    requires NamedServices(services)
    ensures WellNamedBodies(EndpointBodies(services, false), false)
  {
    var bodies := EndpointBodies(services, false);
    forall b | b in bodies ensures WellNamedOps(BodyOps(b, false)) {
      forall op | op in BodyOps(b, false) ensures op.key.WellNamed() {
        if b.DownBody? {
          DownOpsMember(b.svcName, services, op);
          var t :| t in services && op == Add(PodNotRunning(t.name, t.ns));
          ServiceNamed(t.name, t.ns);
        } else {
          ServiceNamed(b.svc.name, b.svc.ns);
        }
      }
    }
  }

  lemma EndpointAdds(services: seq<LbService>, s: LbService, first: bool)
    requires s in services
    ensures (exists b :: b in EndpointBodies(services, first) && Add(PodNotRunning(s.name, s.ns)) in BodyOps(b, first))
            <==> SomeDown(services, s.name)
  {
    var bodies, f := EndpointBodies(services, first), PodNotRunning(s.name, s.ns);
    DownNamesMember(services, s.name);
    if b :| b in bodies && Add(f) in BodyOps(b, first) {
      assert b.DownBody?;
      DownOpsMember(b.svcName, services, Add(f));
      assert b.svcName == s.name;
    }
    if SomeDown(services, s.name) {
      var i :| 0 <= i < |DownNames(services)| && DownNames(services)[i] == s.name;
      assert bodies[i] == DownBody(s.name, services) && bodies[i] in bodies;
      DownOpsMember(s.name, services, Add(f));
    }
  }

  lemma EndpointDrops(services: seq<LbService>, s: LbService)
    requires s in services
    ensures (exists b :: b in EndpointBodies(services, false) && Drop(PodNotRunning(s.name, s.ns)) in BodyOps(b, false))
            <==> DownNames(services) == []
  {
    var bodies, f := EndpointBodies(services, false), PodNotRunning(s.name, s.ns);
    if b :| b in bodies && Drop(f) in BodyOps(b, false) {
      if b.DownBody? {
        DownOpsMember(b.svcName, services, Drop(f));
        assert false;
      }
    }
    if DownNames(services) == [] {
      var i :| 0 <= i < |services| && services[i] == s;
      assert bodies[i] == UpBody(s) && bodies[i] in bodies;
      assert BodyOps(UpBody(s), false)[0] == Drop(f);
    }
  }

  lemma EndpointsAgree(services: seq<LbService>)
    ensures BodiesAgree(EndpointBodies(services, false), false)
  {
    forall b, c, f | b in EndpointBodies(services, false) && c in EndpointBodies(services, false)
                     && Add(f) in BodyOps(b, false)
      ensures Drop(f) !in BodyOps(c, false)
    {
      if c.DownBody? { DownOpsMember(c.svcName, services, Drop(f)); }
    }
  }

  /** After the phase a service is listed as having a pod that is not running iff a
      service of its name, in whatever namespace, has one, or it was listed and some
      service has one: one bad service keeps the others from recovering. */
  lemma EndpointPhase(s: seq<string>, services: seq<LbService>, svc: LbService)
    requires NoDup(s) && NamedServices(services) && svc in services
    ensures PodNotRunning(svc.name, svc.ns).Render() in Run(s, PhaseOps(EndpointBodies(services, false), false)) <==>
              || SomeDown(services, svc.name)
              || (PodNotRunning(svc.name, svc.ns).Render() in s && exists t :: t in services && false in t.running)
  {
    var f := PodNotRunning(svc.name, svc.ns);
    ServiceNamed(svc.name, svc.ns);
    EndpointBodiesWellNamed(services);
    EndpointsAgree(services);
    EndpointAdds(services, svc, false);
    EndpointDrops(services, svc);
    PhaseResult(s, EndpointBodies(services, false), false, f);
    if DownNames(services) != [] {
      DownNamesMember(services, DownNames(services)[0]);
    }
    if t :| t in services && false in t.running {
      DownNamesMember(services, t.name);
    }
  }

  // ----- the phase of the services without target pods

  ghost predicate SomeMissing(services: seq<LbService>, name: string) {
    exists t :: t in services && t.name == name && !t.hasTargets
  }

  lemma {:induction false} MissingNamesMember(services: seq<LbService>, name: string)
    ensures name in MissingNames(services) <==> SomeMissing(services, name)
  {
    if services != [] {
      var front, last := services[..|services| - 1], services[|services| - 1];
      assert services == front + [last];
      MissingNamesMember(front, name);
    }
  }

  lemma {:induction false} MissingOpsMember(name: string, services: seq<LbService>, op: Op<Failure>)
    ensures op in MissingOps(name, services) <==>
              exists t :: t in services && t.name == name && op == Add(NoTargetPods(t.name, t.ns))
  {
    if services != [] {
      var front, last := services[..|services| - 1], services[|services| - 1];
      assert services == front + [last];
      MissingOpsMember(name, front, op);
    }
  }

  lemma TargetBodiesWellNamed(services: seq<LbService>)
    requires NamedServices(services)
    ensures WellNamedBodies(TargetBodies(services, false), false)
  {
    var bodies := TargetBodies(services, false);
    forall b | b in bodies ensures WellNamedOps(BodyOps(b, false)) {
      forall op | op in BodyOps(b, false) ensures op.key.WellNamed() {
        if b.MissingBody? {
          MissingOpsMember(b.svcName, services, op);
          var t :| t in services && op == Add(NoTargetPods(t.name, t.ns));
          ServiceNamed(t.name, t.ns);
        } else {
          ServiceNamed(b.svc.name, b.svc.ns);
        }
      }
    }
  }

  lemma TargetAdds(services: seq<LbService>, s: LbService, first: bool)
    requires s in services
    ensures (exists b :: b in TargetBodies(services, first) && Add(NoTargetPods(s.name, s.ns)) in BodyOps(b, first))
            <==> SomeMissing(services, s.name)
  {
    var bodies, f := TargetBodies(services, first), NoTargetPods(s.name, s.ns);
    MissingNamesMember(services, s.name);
    if b :| b in bodies && Add(f) in BodyOps(b, first) {
      assert b.MissingBody?;
      MissingOpsMember(b.svcName, services, Add(f));
      assert b.svcName == s.name;
    }
    if SomeMissing(services, s.name) {
      var i :| 0 <= i < |MissingNames(services)| && MissingNames(services)[i] == s.name;
      assert bodies[i] == MissingBody(s.name, services) && bodies[i] in bodies;
      MissingOpsMember(s.name, services, Add(f));
    }
  }

  lemma TargetDrops(services: seq<LbService>, s: LbService)
    requires s in services
    ensures (exists b :: b in TargetBodies(services, false) && Drop(NoTargetPods(s.name, s.ns)) in BodyOps(b, false))
            <==> MissingNames(services) == []
  {
    var bodies, f := TargetBodies(services, false), NoTargetPods(s.name, s.ns);
    if b :| b in bodies && Drop(f) in BodyOps(b, false) {
      if b.MissingBody? {
        MissingOpsMember(b.svcName, services, Drop(f));
        assert false;
      }
    }
    if MissingNames(services) == [] {
      var i :| 0 <= i < |services| && services[i] == s;
      assert bodies[i] == TargetsBody(s) && bodies[i] in bodies;
      assert BodyOps(TargetsBody(s), false)[0] == Drop(f);
    }
  }

  lemma TargetsAgree(services: seq<LbService>)
    ensures BodiesAgree(TargetBodies(services, false), false)
  {
    forall b, c, f | b in TargetBodies(services, false) && c in TargetBodies(services, false)
                     && Add(f) in BodyOps(b, false)
      ensures Drop(f) !in BodyOps(c, false)
    {
      if c.MissingBody? { MissingOpsMember(c.svcName, services, Drop(f)); }
    }
  }

  /** The same for a service without target pods. */
  lemma TargetPhase(s: seq<string>, services: seq<LbService>, svc: LbService)
    requires NoDup(s) && NamedServices(services) && svc in services
    ensures NoTargetPods(svc.name, svc.ns).Render() in Run(s, PhaseOps(TargetBodies(services, false), false)) <==>
              || SomeMissing(services, svc.name)
              || (NoTargetPods(svc.name, svc.ns).Render() in s && exists t :: t in services && !t.hasTargets)
  {
    var f := NoTargetPods(svc.name, svc.ns);
    ServiceNamed(svc.name, svc.ns);
    TargetBodiesWellNamed(services);
    TargetsAgree(services);
    TargetAdds(services, svc, false);
    TargetDrops(services, svc);
    PhaseResult(s, TargetBodies(services, false), false, f);
    if MissingNames(services) != [] {
      MissingNamesMember(services, MissingNames(services)[0]);
    }
    if t :| t in services && !t.hasTargets {
      MissingNamesMember(services, t.name);
    }
  }

  // ----- from the cluster to the list

  lemma RecordsMember(services: seq<Service>, api: Api, t: LbService)
    ensures t in Records(services, api) <==> exists s :: s in services && t == Record(s, api)
  {
    var r := Records(services, api);
    if t in r {
      var i :| 0 <= i < |r| && r[i] == t;
      assert services[i] in services;
    }
    if s :| s in services && t == Record(s, api) {
      var i :| 0 <= i < |services| && services[i] == s;
      assert r[i] == t;
    }
  }

  lemma DownRecords(services: seq<Service>, api: Api, name: string)
    ensures SomeDown(Records(services, api), name) <==>
            exists s :: s in services && s.name == name && HasDownPod(s, api)
    ensures (exists t :: t in Records(services, api) && false in t.running) <==>
            exists s :: s in services && HasDownPod(s, api)
  {
    var r := Records(services, api);
    forall t | t in r && false in t.running
      ensures exists s :: s in services && s.name == t.name && HasDownPod(s, api) {
      RecordsMember(services, api, t);
      var s :| s in services && t == Record(s, api);
      RecordMeaning(s, api);
    }
    forall s | s in services && HasDownPod(s, api) ensures Record(s, api) in r && false in Record(s, api).running {
      RecordsMember(services, api, Record(s, api));
      RecordMeaning(s, api);
    }
  }

  /** When every service can be read, one is listed as having a pod that is not running
      iff a service of its name has one in the cluster, or it was listed and some service
      has one. */
  lemma DownInCluster(s: seq<string>, services: seq<Service>, api: Api, svc: Service)
    requires NoDup(s) && AllReadable(services, api) && svc in services
    requires forall t :: t in services ==> Name(t.name) && Name(t.ns)
    ensures var m := PodNotRunning(svc.name, svc.ns).Render();
            m in Run(s, PhaseOps(EndpointBodies(ReadRecords(services, api), false), false)) <==>
              || (exists t :: t in services && t.name == svc.name && HasDownPod(t, api))
              || (m in s && exists t :: t in services && HasDownPod(t, api))
  {
    var r := Records(services, api);
    RecordsMember(services, api, Record(svc, api));
    forall t | t in r ensures Name(t.name) && Name(t.ns) { RecordsMember(services, api, t); }
    EndpointPhase(s, r, Record(svc, api));
    DownRecords(services, api, svc.name);
  }

  lemma MissingRecords(services: seq<Service>, api: Api, name: string)
    ensures SomeMissing(Records(services, api), name) <==>
            exists s :: s in services && s.name == name && !HasPod(s, api)
    ensures (exists t :: t in Records(services, api) && !t.hasTargets) <==> exists s :: s in services && !HasPod(s, api)
  {
    var r := Records(services, api);
    forall t | t in r && !t.hasTargets
      ensures exists s :: s in services && s.name == t.name && !HasPod(s, api) {
      RecordsMember(services, api, t);
      var s :| s in services && t == Record(s, api);
      RecordMeaning(s, api);
    }
    forall s | s in services && !HasPod(s, api) ensures Record(s, api) in r && !Record(s, api).hasTargets {
      RecordsMember(services, api, Record(s, api));
      RecordMeaning(s, api);
    }
  }

  /** The same for services without target pods. */
  lemma MissingInCluster(s: seq<string>, services: seq<Service>, api: Api, svc: Service)
    requires NoDup(s) && AllReadable(services, api) && svc in services
    requires forall t :: t in services ==> Name(t.name) && Name(t.ns)
    ensures var m := NoTargetPods(svc.name, svc.ns).Render();
            m in Run(s, PhaseOps(TargetBodies(ReadRecords(services, api), false), false)) <==>
              || (exists t :: t in services && t.name == svc.name && !HasPod(t, api))
              || (m in s && exists t :: t in services && !HasPod(t, api))
  {
    var r := Records(services, api);
    RecordsMember(services, api, Record(svc, api));
    forall t | t in r ensures Name(t.name) && Name(t.ns) { RecordsMember(services, api, t); }
    TargetPhase(s, r, Record(svc, api));
    MissingRecords(services, api, svc.name);
  }
}
