/** The records a MetallbScan builds from the pools and advertisements before it
    records failures: one per service address. */
module BgpConfig {
  import opened StatusLists
  import opened IpPools

  datatype Service = Service(name: string, ns: string, ip: string)

  datatype Peer = Peer(name: string, ns: string, block: string, pool: string, conPool: bool)

  /** A look-up error discards the whole list; a panic ends the reconcile. */
  datatype Result<+T> = Ok(value: T) | Error | Panic

  function PeerFor(s: Service, l: Lookup): Peer {
    if l.Found? then Peer(s.name, s.ns, l.text, l.pool, true) else Peer(s.name, s.ns, "", "", false)
  }

  /** The records of the services in order; the first look-up that is not answered
      decides. */
  function Peers(services: seq<Service>, look: string -> Lookup): Result<seq<Peer>> {
    if services == [] then Ok([])
    else
      var front, s := Peers(services[..|services| - 1], look), services[|services| - 1];
      if !front.Ok? then front
      else if look(s.ip).Panicked? then Panic
      else if !Answered(look(s.ip)) then Error
      else Ok(front.value + [PeerFor(s, look(s.ip))])
  }

  function LookIn(pools: seq<IpPools.Pool>, parseIP: string -> Option<nat>,
                  parse: string -> Option<Block>): string -> Lookup {
    ip => Resolve(pools, ip, parseIP, parse)
  }

  method GetBGPIPPoolsPeer(services: seq<Service>, pools: seq<IpPools.Pool>,
                           parseIP: string -> Option<nat>, parse: string -> Option<Block>)
                             returns (r: Result<seq<Peer>>)
    ensures r == Peers(services, LookIn(pools, parseIP, parse))
  {
    ghost var look := LookIn(pools, parseIP, parse);
    var peers: seq<Peer> := [];
    for i := 0 to |services|
      invariant Peers(services[..i], look) == Ok(peers)
    {
      assert services[..i + 1][..i] == services[..i];
      var answer := CheckIpPool(pools, services[i].ip, parseIP, parse);
      assert answer == look(services[i].ip);
      if !Answered(answer) {
        FirstProblem(services, look, i + 1);
        return if answer.Panicked? then Panic else Error;
      }
      peers := peers + [PeerFor(services[i], answer)];
    }
    assert services[..|services|] == services;
    return Ok(peers);
  }

  lemma {:induction false} FirstProblem(services: seq<Service>, look: string -> Lookup, i: nat)
    requires i <= |services| && !Peers(services[..i], look).Ok?
    ensures Peers(services, look) == Peers(services[..i], look)
  {
    if i < |services| {
      assert services[..|services| - 1][..i] == services[..i];
      FirstProblem(services[..|services| - 1], look, i);
    } else {
      assert services[..i] == services;
    }
  }

  /** The record says of a service what its look-up answered. */
  ghost predicate Recorded(p: Peer, s: Service, l: Lookup) {
    && p.name == s.name && p.ns == s.ns && (p.conPool <==> l.Found?)
    && p.pool == (if l.Found? then l.pool else "") && p.block == (if l.Found? then l.text else "")
  }

  /** There is a record for every service, in order, unless some look-up is not
      answered; then there is none. */
  lemma {:induction false} PeersMeaning(services: seq<Service>, look: string -> Lookup)
    ensures var r := Peers(services, look);
            && (r.Ok? <==> forall i :: 0 <= i < |services| ==> Answered(look(services[i].ip)))
            && (r.Ok? ==> |r.value| == |services|)
            && (r.Ok? ==> forall i :: 0 <= i < |services| ==> Recorded(r.value[i], services[i], look(services[i].ip)))
  {
    if services != [] {
      PeersMeaning(services[..|services| - 1], look);
    }
  }

  /** A record says that its service is in a pool iff the pools hold the service's address,
      and then names such a pool and the entry that holds it. */
  ghost predicate TellsPool(p: Peer, s: Service, pools: seq<IpPools.Pool>, parseIP: string -> Option<nat>,
                            parse: string -> Option<Block>) {
    && p.name == s.name && p.ns == s.ns && (p.conPool <==> InPool(pools, s.ip, parseIP, parse))
    && if p.conPool then PoolEntry(pools, p.pool, p.block, s.ip, parseIP, parse) else p.pool == "" && p.block == ""
  }

  /** The records of the services tell their pools, in order. */
  lemma PeerRecords(services: seq<Service>, pools: seq<IpPools.Pool>, parseIP: string -> Option<nat>,
                    parse: string -> Option<Block>)
    requires IpPools.Plain(pools)
    ensures var r := Peers(services, LookIn(pools, parseIP, parse));
            r.Ok? ==> |r.value| == |services| &&
                      forall i :: 0 <= i < |services| ==> TellsPool(r.value[i], services[i], pools, parseIP, parse)
  {
    var look := LookIn(pools, parseIP, parse);
    PeersMeaning(services, look);
    var r := Peers(services, look);
    if r.Ok? {
      forall i | 0 <= i < |services| ensures TellsPool(r.value[i], services[i], pools, parseIP, parse) {
        AnsweredLookup(pools, services[i].ip, parseIP, parse);
      }
    }
  }

  /** Without any pool address there are no records at all, so no service is found to be in
      no pool. */
  lemma NoPoolsNoRecords(services: seq<Service>, pools: seq<IpPools.Pool>, parseIP: string -> Option<nat>,
                         parse: string -> Option<Block>)
    requires services != [] && Singles(pools) == [] && Blocks(pools) == []
    ensures Peers(services, LookIn(pools, parseIP, parse)) == Error
  {
    var look, n := LookIn(pools, parseIP, parse), |services|;
    assert look(services[0].ip) == NoPools;
    assert services[..1][..0] == [];
    assert Peers(services[..1], look) == Error;
    FirstProblem(services, look, 1);
  }

  // ----- advertisements

  type Labels = map<string, string>

  datatype Advertisement = Advertisement(name: string, pools: seq<string>, selectors: seq<Labels>,
                                         peers: Option<seq<string>>)

  datatype Answer = Answer(contains: bool, name: string, peers: Option<seq<string>>)

  const NOT_ADVERTISED := Answer(false, "", None)

  /** The labels of the first pool with that name. */
  function PoolLabels(pools: seq<IpPools.Pool>, name: string): Option<Labels> {
    if pools == [] then None
    else if pools[0].name == name then pools[0].labels
    else PoolLabels(pools[1..], name)
  }

  /** A pool with that name, and no earlier one has it. */
  ghost predicate FirstPool(pools: seq<IpPools.Pool>, name: string, k: int) {
    0 <= k < |pools| && pools[k].name == name && forall j :: 0 <= j < k ==> pools[j].name != name
  }

  lemma {:induction false} LabelsOfFirst(pools: seq<IpPools.Pool>, name: string)
    ensures forall k :: FirstPool(pools, name, k) ==> PoolLabels(pools, name) == pools[k].labels
    ensures (forall p :: p in pools ==> p.name != name) ==> PoolLabels(pools, name) == None
  {
    if pools != [] {
      LabelsOfFirst(pools[1..], name);
      forall k | FirstPool(pools, name, k) ensures PoolLabels(pools, name) == pools[k].labels {
        if k > 0 {
          forall j | 0 <= j < k - 1 ensures pools[1..][j].name != name { assert pools[1..][j] == pools[j + 1]; }
          assert FirstPool(pools[1..], name, k - 1);
        }
      }
    }
  }

  /** Some label of the pool appears in some selector. */
  predicate Selects(adv: Advertisement, labels: Labels) {
    exists lab | lab in adv.selectors :: exists k | k in labels :: k in lab && lab[k] == labels[k]
  }

  predicate Names(adv: Advertisement, pool: string) {
    adv.name != "" && pool in adv.pools
  }

  function Yes(adv: Advertisement): Answer {
    Answer(true, adv.name, adv.peers)
  }

  /** The first advertisement from the `i`-th on that names the pool. */
  function NamingFrom(advs: seq<Advertisement>, pool: string, i: nat): Option<Answer>
    requires i <= |advs|
    decreases |advs| - i
  {
    if i == |advs| then None
    else if Names(advs[i], pool) then Some(Yes(advs[i]))
    else NamingFrom(advs, pool, i + 1)
  }

  /** The first named advertisement from the `i`-th on that selects the labels. */
  function SelectingFrom(advs: seq<Advertisement>, labels: Labels, i: nat): Option<Answer>
    requires i <= |advs|
    decreases |advs| - i
  {
    if i == |advs| then None
    else if advs[i].name != "" && Selects(advs[i], labels) then Some(Yes(advs[i]))
    else SelectingFrom(advs, labels, i + 1)
  }

  function AdvertisementOf(advs: seq<Advertisement>, pools: seq<IpPools.Pool>, pool: string): Answer {
    match NamingFrom(advs, pool, 0)
    case Some(r) => r
    case None =>
      match PoolLabels(pools, pool)
      case None => NOT_ADVERTISED
      case Some(labels) =>
        match SelectingFrom(advs, labels, 0)
        case Some(r) => r
        case None => NOT_ADVERTISED
  }

  method CheckBgpAdvertisement(advs: seq<Advertisement>, pools: seq<IpPools.Pool>, pool: string) returns (r: Answer)
    ensures r == AdvertisementOf(advs, pools, pool)
  {
    for i := 0 to |advs|
      invariant NamingFrom(advs, pool, 0) == NamingFrom(advs, pool, i)
    {
      if advs[i].name != "" {
        if pool in advs[i].pools {
          return Answer(true, advs[i].name, advs[i].peers);
        }
      }
    }
    var labels := PoolLabels(pools, pool);
    for i := 0 to |advs|
      invariant labels.Some? ==> SelectingFrom(advs, labels.value, 0) == SelectingFrom(advs, labels.value, i)
    {
      if advs[i].name != "" {
        if labels.None? {
          return NOT_ADVERTISED;
        }
        if Selects(advs[i], labels.value) {
          return Answer(true, advs[i].name, advs[i].peers);
        }
      }
    }
    return NOT_ADVERTISED;
  }

  ghost predicate SomeNaming(advs: seq<Advertisement>, pool: string, i: nat) {
    exists k :: i <= k < |advs| && Names(advs[k], pool)
  }

  ghost predicate SomeSelecting(advs: seq<Advertisement>, labels: Labels, i: nat) {
    exists k :: i <= k < |advs| && advs[k].name != "" && Selects(advs[k], labels)
  }

  lemma {:induction false} NamingMeaning(advs: seq<Advertisement>, pool: string, i: nat)
    requires i <= |advs|
    ensures NamingFrom(advs, pool, i).Some? <==> SomeNaming(advs, pool, i)
    ensures NamingFrom(advs, pool, i).Some? ==>
              NamingFrom(advs, pool, i).value.contains && NamingFrom(advs, pool, i).value.name != ""
    decreases |advs| - i
  {
    if i < |advs| && !Names(advs[i], pool) {
      NamingMeaning(advs, pool, i + 1);
    }
  }

  lemma {:induction false} SelectingMeaning(advs: seq<Advertisement>, labels: Labels, i: nat)
    requires i <= |advs|
    ensures SelectingFrom(advs, labels, i).Some? <==> SomeSelecting(advs, labels, i)
    ensures SelectingFrom(advs, labels, i).Some? ==>
              SelectingFrom(advs, labels, i).value.contains && SelectingFrom(advs, labels, i).value.name != ""
    decreases |advs| - i
  {
    if i < |advs| && !(advs[i].name != "" && Selects(advs[i], labels)) {
      SelectingMeaning(advs, labels, i + 1);
    }
  }

  /** A pool is advertised iff a named advertisement lists it, or one selects a label of
      it; the answer carries a name exactly then. */
  lemma AdvertisedIff(advs: seq<Advertisement>, pools: seq<IpPools.Pool>, pool: string)
    ensures var r := AdvertisementOf(advs, pools, pool);
            && (r.contains <==> SomeNaming(advs, pool, 0)
                                || (PoolLabels(pools, pool).Some?
                                    && SomeSelecting(advs, PoolLabels(pools, pool).value, 0)))
            && (r.contains <==> r.name != "")
  {
    NamingMeaning(advs, pool, 0);
    if PoolLabels(pools, pool).Some? { SelectingMeaning(advs, PoolLabels(pools, pool).value, 0); }
  }

  /** The first advertisement that names the pool. */
  ghost predicate FirstNaming(advs: seq<Advertisement>, pool: string, k: int) {
    0 <= k < |advs| && Names(advs[k], pool) && forall j :: 0 <= j < k ==> !Names(advs[j], pool)
  }

  predicate NamedSelects(adv: Advertisement, labels: Labels) {
    adv.name != "" && exists lab, key :: lab in adv.selectors && key in labels && key in lab && lab[key] == labels[key]
  }

  /** The first named advertisement that selects a label. */
  ghost predicate FirstSelecting(advs: seq<Advertisement>, labels: Labels, k: int) {
    0 <= k < |advs| && NamedSelects(advs[k], labels) && forall j :: 0 <= j < k ==> !NamedSelects(advs[j], labels)
  }

  /** The advertisement at `k` is the one that answers for the pool: the first that names
      it; only if none does, the first that selects a label of it. */
  ghost predicate Answers(advs: seq<Advertisement>, pools: seq<IpPools.Pool>, pool: string, k: int) {
    || FirstNaming(advs, pool, k)
    || ((forall j :: 0 <= j < |advs| ==> !Names(advs[j], pool)) && PoolLabels(pools, pool).Some?
        && FirstSelecting(advs, PoolLabels(pools, pool).value, k))
  }

  lemma {:induction false} NamingIsFirst(advs: seq<Advertisement>, pool: string, i: nat, k: int)
    requires i <= |advs| && FirstNaming(advs, pool, k) && i <= k
    ensures NamingFrom(advs, pool, i) == Some(Answer(true, advs[k].name, advs[k].peers))
    decreases |advs| - i
  {
    if i < k { NamingIsFirst(advs, pool, i + 1, k); }
  }

  lemma {:induction false} SelectingIsFirst(advs: seq<Advertisement>, labels: Labels, i: nat, k: int)
    requires i <= |advs| && FirstSelecting(advs, labels, k) && i <= k
    ensures SelectingFrom(advs, labels, i) == Some(Answer(true, advs[k].name, advs[k].peers))
    decreases |advs| - i
  {
    if i < k { SelectingIsFirst(advs, labels, i + 1, k); }
  }

  /** The answer is that advertisement's, with its peers; without one there is none. */
  lemma AnswerOfFirst(advs: seq<Advertisement>, pools: seq<IpPools.Pool>, pool: string)
    ensures var r := AdvertisementOf(advs, pools, pool);
            && (forall k :: Answers(advs, pools, pool, k) ==> r == Answer(true, advs[k].name, advs[k].peers))
            && (r.contains ==> exists k :: Answers(advs, pools, pool, k))
            && (!r.contains ==> r.name == "" && r.peers == None)
  {
    AdvertisedIff(advs, pools, pool);
    NamingMeaning(advs, pool, 0);
    forall k | FirstNaming(advs, pool, k)
      ensures NamingFrom(advs, pool, 0) == Some(Answer(true, advs[k].name, advs[k].peers)) {
      NamingIsFirst(advs, pool, 0, k);
    }
    if SomeNaming(advs, pool, 0) {
      var k := FirstNamed(advs, pool);
      assert Answers(advs, pools, pool, k);
    } else if PoolLabels(pools, pool).Some? {
      SelectingAnswers(advs, pools, pool, PoolLabels(pools, pool).value);
    }
  }

  lemma SelectingAnswers(advs: seq<Advertisement>, pools: seq<IpPools.Pool>, pool: string, labels: Labels)
    requires PoolLabels(pools, pool) == Some(labels) && !SomeNaming(advs, pool, 0)
    ensures var r := SelectingFrom(advs, labels, 0);
            && (forall k :: FirstSelecting(advs, labels, k) ==> r == Some(Answer(true, advs[k].name, advs[k].peers)))
            && (r.Some? ==> exists k :: Answers(advs, pools, pool, k))
  {
    SelectingMeaning(advs, labels, 0);
    forall k | FirstSelecting(advs, labels, k)
      ensures SelectingFrom(advs, labels, 0) == Some(Answer(true, advs[k].name, advs[k].peers)) {
      SelectingIsFirst(advs, labels, 0, k);
    }
    if SomeSelecting(advs, labels, 0) {
      var k := FirstSelected(advs, labels);
      assert Answers(advs, pools, pool, k);
    }
  }

  lemma FirstNamed(advs: seq<Advertisement>, pool: string) returns (k: nat)
    requires SomeNaming(advs, pool, 0)
    ensures FirstNaming(advs, pool, k)
  {
    k := 0;
    while !Names(advs[k], pool)
      invariant k < |advs| && (exists j :: k <= j < |advs| && Names(advs[j], pool))
      invariant forall j :: 0 <= j < k ==> !Names(advs[j], pool)
      decreases |advs| - k
    {
      k := k + 1;
    }
  }

  lemma FirstSelected(advs: seq<Advertisement>, labels: Labels) returns (k: nat)
    requires SomeSelecting(advs, labels, 0)
    ensures FirstSelecting(advs, labels, k)
  {
    k := 0;
    while !NamedSelects(advs[k], labels)
      invariant k < |advs| && (exists j :: k <= j < |advs| && NamedSelects(advs[j], labels))
      invariant forall j :: 0 <= j < k ==> !NamedSelects(advs[j], labels)
      decreases |advs| - k
    {
      k := k + 1;
    }
  }

  datatype Ad = Ad(svc: string, ns: string, pool: string, advertised: bool, advName: string, peers: Option<seq<string>>)

  predicate HasPool(p: Peer) {
    p.pool != "" || p.block != ""
  }

  function AdFor(p: Peer, advs: seq<Advertisement>, pools: seq<IpPools.Pool>): Ad {
    var answer := AdvertisementOf(advs, pools, p.pool);
    Ad(p.name, p.ns, p.pool, answer.contains, answer.name, answer.peers)
  }

  /** One record for each service address that is in a pool. */
  function Ads(peers: seq<Peer>, advs: seq<Advertisement>, pools: seq<IpPools.Pool>): seq<Ad> {
    if peers == [] then []
    else
      var p := peers[|peers| - 1];
      Ads(peers[..|peers| - 1], advs, pools) + if HasPool(p) then [AdFor(p, advs, pools)] else []
  }

  method GetBGPIPAd(peers: seq<Peer>, advs: seq<Advertisement>, pools: seq<IpPools.Pool>) returns (ads: seq<Ad>)
    ensures ads == Ads(peers, advs, pools)
  {
    ads := [];
    for i := 0 to |peers|
      invariant ads == Ads(peers[..i], advs, pools)
    {
      assert peers[..i + 1][..i] == peers[..i];
      var bgp := peers[i];
      if HasPool(bgp) {
        var answer := CheckBgpAdvertisement(advs, pools, bgp.pool);
        ads := ads + [Ad(bgp.name, bgp.ns, bgp.pool, answer.contains, answer.name, answer.peers)];
      }
    }
    assert peers[..|peers|] == peers;
  }

  /** The records of `GetBGPIPAd` carry an advertisement's name exactly when the pool is
      advertised, so the branch that would record "not advertised" is never reached. */
  lemma {:induction false} RecordsNameAdvertised(peers: seq<Peer>, advs: seq<Advertisement>, pools: seq<IpPools.Pool>,
                                                 ad: Ad)
    ensures ad in Ads(peers, advs, pools) <==> exists p :: p in peers && HasPool(p) && ad == AdFor(p, advs, pools)
    ensures ad in Ads(peers, advs, pools) ==> (ad.advertised <==> ad.advName != "")
  {
    if peers != [] {
      var front, last := peers[..|peers| - 1], peers[|peers| - 1];
      assert peers == front + [last];
      RecordsNameAdvertised(front, advs, pools, ad);
      AdvertisedIff(advs, pools, last.pool);
    }
  }

  /** For every peer record with a pool there is an advertisement record with the name and
      the peers of the advertisement that answers for the pool. */
  lemma AdRecords(peers: seq<Peer>, advs: seq<Advertisement>, pools: seq<IpPools.Pool>, p: Peer, k: int)
    requires p in peers && HasPool(p) && Answers(advs, pools, p.pool, k)
    ensures Ad(p.name, p.ns, p.pool, true, advs[k].name, advs[k].peers) in Ads(peers, advs, pools)
  {
    AnswerOfFirst(advs, pools, p.pool);
    RecordsNameAdvertised(peers, advs, pools, AdFor(p, advs, pools));
  }
}
