/** The failures a MetallbScan records.  A failure is kept as the message it prints,
    and that message is its only identity: scans look it up by equality, classify it
    by substring and parse its arguments back by position. */
module FailureMessages {
  import opened GoStrings

  datatype Failure =
    | McpUpdating
    | NoIp(svc: string, ns: string)
    | NotInPool(svc: string, ns: string)
    | PoolNotAdvertised(svc: string, ns: string, pool: string)
    | NoPeers(adv: string)
    | PodNotRunning(svc: string, ns: string)
    | NoTargetPods(svc: string, ns: string)
    | NotEstablished(hop: string, node: string)
    | NotValid(hop: string, node: string)
    | BadBfd(hop: string, node: string)
    | RouteNotAdvertised(svc: string, ip: string, pod: string, node: string)
    | RouteNotBest(svc: string, ip: string, ns: string, pod: string, node: string)
    | NoRunningSpeaker(node: string, ns: string)
    | NoSpeaker(node: string, ns: string)
    | NoHops(pod: string, node: string)
  {
    /** Every argument the message prints is a name. */
    predicate WellNamed() {
      forall i | 0 <= i < |Tokens()| :: Tokens()[i].Fixed() || Name(Tokens()[i].name)
    }

    /** The printed message, word by word. */
    function Tokens(): (w: seq<Word>)
      ensures |w| >= 5
    {
      match this
      case McpUpdating => [MachineConfigPool, Update, Is, In, Progress]
      case NoIp(svc, ns) => [Service, Arg(svc), Is, Found, With, No, Valid, IP, In, Namespace, Arg(ns)]
      case NotInPool(svc, ns) => [Service, Arg(svc), Configured, In, Namespace, Arg(ns), Is, Not, Part, Of, Any,
                                  Configured, IP, Pools, Nothing]
      case PoolNotAdvertised(svc, ns, pool) => [Service, Poss(svc), In, Namespace, Arg(ns), Is, Part, Of, IP, Pool,
                                                Arg(pool), IpAddressPools, Is, Not, Configured, To, Be, Advertised,
                                                BgpAdvertisements]
      case NoPeers(adv) => [BGP, IP, Advertisement, Arg(adv), BgpAdvertisements, Doesnt, Have, Any, Valid, Peers,
                            Configured]
      case PodNotRunning(svc, ns) => [One, Of, The, Target, Pods, Of, Service, Arg(svc), In, Namespace, Arg(ns), Is,
                                      Not, Running]
      case NoTargetPods(svc, ns) => [Service, Arg(svc), In, Namespace, Arg(ns), Doesnt, Have, Any, Target, Pods]
      case NotEstablished(hop, node) => [BGP, Neighbor, Arg(hop), Connectivity, Is, Not, Established, From, Worker,
                                         Poss(node), Speaker, Pod]
      case NotValid(hop, node) => [BGP, Neighbor, Arg(hop), Doesnt, Have, A, Valid, Status, In, Worker, Poss(node),
                                   Speaker, Pod]
      case BadBfd(hop, node) => [BGP, Neighbor, Poss(hop), BFD, Doesnt, Have, A, Valid, Status, In, Worker, Poss(node),
                                 Speaker, Pod]
      case RouteNotAdvertised(svc, ip, pod, node) => [Service, Poss(svc), External, IP, Arg(ip), Is, Not, Advertised,
                                                      By, Speaker, Pod, Arg(pod), Running, In, Node, Arg(node)]
      case RouteNotBest(svc, ip, ns, pod, node) => [Service, Poss(svc), External, IP, Arg(ip), In, Namespace, Arg(ns),
                                                    Doesnt, Have, The, Best, Route, Advertised, By, Speaker, Pod,
                                                    Arg(pod), Running, In, Node, Arg(node)]
      case NoRunningSpeaker(node, ns) => [No, Speaker, Pod, Is, In, Running, Status, In, Node, Arg(node), In,
                                          Namespace, Arg(ns)]
      case NoSpeaker(node, ns) => [No, Speaker, Pod, Is, Found, In, Node, Arg(node), In, Namespace, Arg(ns)]
      case NoHops(pod, node) => [No, Configured, Hops, Are, Found, In, Speaker, Pod, Arg(pod), Running, In, Node,
                                 Arg(node)]
    }

    function Render(): string {
      Join(Spelled(Tokens()), ' ')
    }
  }

  /** Kubernetes object names and addresses hold neither spaces nor apostrophes. */
  predicate Name(s: string) {
    ' ' !in s && '\'' !in s
  }

  /** A word of a message: an argument, an argument printed with "'s", or fixed text. */
  datatype Word =
    | Arg(name: string) | Poss(name: string)
    | A | Advertised | Advertisement | Any | Are | BFD | BGP | Be | Best | BgpAdvertisements | By
    | Configured | Connectivity | Doesnt | Established | External | Found | From | Have | Hops | IP | In
    | IpAddressPools | Is | MachineConfigPool | Namespace | Neighbor | No | Node | Not | Nothing | Of
    | One | Part | Peers | Pod | Pods | Pool | Pools | Progress | Route | Running | Service | Speaker
    | Status | Target | The | To | Update | Valid | With | Worker
  {
    predicate Fixed() { !Arg? && !Poss? }
  }

  function Spell(w: Word): string {
    match w
    case Arg(s) => s
    case Poss(s) => s + "'s"
    case A => "a"
    case Advertised => "advertised"
    case Advertisement => "advertisement"
    case Any => "any"
    case Are => "are"
    case BFD => "BFD"
    case BGP => "BGP"
    case Be => "be"
    case Best => "best"
    case BgpAdvertisements => "bgpadvertisements" + ".metallb.io/v1beta1"
    case By => "by"
    case Configured => "configured"
    case Connectivity => "connectivity"
    case Doesnt => "doesn't"
    case Established => "established"
    case External => "external"
    case Found => "found"
    case From => "from"
    case Have => "have"
    case Hops => "hops"
    case IP => "IP"
    case In => "in"
    case IpAddressPools => "ipaddresspools" + ".metallb.io/v1beta1"
    case Is => "is"
    case MachineConfigPool => "MachineConfigPool"
    case Namespace => "namespace"
    case Neighbor => "neighbor"
    case No => "no"
    case Node => "node"
    case Not => "not"
    case Nothing => ""
    case Of => "of"
    case One => "One"
    case Part => "part"
    case Peers => "peers"
    case Pod => "pod"
    case Pods => "pods"
    case Pool => "pool"
    case Pools => "pools"
    case Progress => "progress"
    case Route => "route"
    case Running => "running"
    case Service => "Service"
    case Speaker => "speaker"
    case Status => "status"
    case Target => "target"
    case The => "the"
    case To => "to"
    case Update => "update"
    case Valid => "valid"
    case With => "with"
    case Worker => "worker"
  }

  function Spelled(ws: seq<Word>): (r: seq<string>)
    ensures |r| == |ws| && forall i :: 0 <= i < |ws| ==> r[i] == Spell(ws[i])
  {
    seq(|ws|, i requires 0 <= i < |ws| => Spell(ws[i]))
  }

  // The vocabulary in parts, so that each spelling is checked in a small query.

  predicate Plain(s: string) {
    forall i | 0 <= i < |s| :: s[i] > '\''
  }

  predicate InPart(w: Word, part: nat) {
    match w
    case A | Advertised | Advertisement | Any | Are | BFD | BGP | Be | Best | By | Configured => part == 0
    case Connectivity | Doesnt | Established | External | Found | From | Have | Hops => part == 1
    case IP | In | Is | MachineConfigPool | Namespace | Neighbor | No | Node | Not | Nothing | Of | One => part == 2
    case Part | Peers | Pod | Pods | Pool | Pools | Progress | Route | Running | Service | Speaker => part == 3
    case Status | Target | The | To | Update | Valid | With | Worker => part == 4
    case BgpAdvertisements => part == 5
    case IpAddressPools => part == 6
    case _ => false
  }

  /** The length and the first two letters of a text. */
  function Code(s: string): int
    requires |s| >= 2
  {
    |s| * 1000000 + s[0] as int * 1000 + s[1] as int
  }

  /** Code of a fixed word of two letters or more. */
  function Shape(w: Word): int {
    match w
    case Advertised => 10097100
    case Advertisement => 13097100
    case Any => 3097110
    case Are => 3097114
    case BFD => 3066070
    case BGP => 3066071
    case Be => 2098101
    case Best => 4098101
    case BgpAdvertisements => 36098103
    case By => 2098121
    case Configured => 10099111
    case Connectivity => 12099111
    case Doesnt => 7100111
    case Established => 11101115
    case External => 8101120
    case Found => 5102111
    case From => 4102114
    case Have => 4104097
    case Hops => 4104111
    case IP => 2073080
    case In => 2105110
    case IpAddressPools => 33105112
    case Is => 2105115
    case MachineConfigPool => 17077097
    case Namespace => 9110097
    case Neighbor => 8110101
    case No => 2110111
    case Node => 4110111
    case Not => 3110111
    case Of => 2111102
    case One => 3079110
    case Part => 4112097
    case Peers => 5112101
    case Pod => 3112111
    case Pods | Pool => 4112111
    case Pools => 5112111
    case Progress => 8112114
    case Route => 5114111
    case Running => 7114117
    case Service => 7083101
    case Speaker => 7115112
    case Status => 6115116
    case Target => 6116097
    case The => 3116104
    case To => 2116111
    case Update => 6117112
    case Valid => 5118097
    case With => 4119105
    case Worker => 6119111
    case _ => 32032
  }

  predicate Shaped(w: Word) {
    var s := Spell(w);
    if w == A || w == Nothing then |s| < 2 else |s| >= 2 && Shape(w) == Code(s)
  }

  lemma PlainPart0(w: Word)
    requires InPart(w, 0)
    ensures (w == Doesnt || Plain(Spell(w))) && Shaped(w)
  {
  }

  lemma PlainPart1(w: Word)
    requires InPart(w, 1)
    ensures (w == Doesnt || Plain(Spell(w))) && Shaped(w)
  {
  }

  lemma PlainPart2(w: Word)
    requires InPart(w, 2)
    ensures (w == Doesnt || Plain(Spell(w))) && Shaped(w)
  {
  }

  lemma PlainPart3(w: Word)
    requires InPart(w, 3)
    ensures (w == Doesnt || Plain(Spell(w))) && Shaped(w)
  {
  }

  lemma PlainPart4(w: Word)
    requires InPart(w, 4)
    ensures (w == Doesnt || Plain(Spell(w))) && Shaped(w)
  {
  }

  lemma PlainPart5(w: Word)
    requires InPart(w, 5)
    ensures (w == Doesnt || Plain(Spell(w))) && Shaped(w)
  {
  }

  lemma PlainPart6(w: Word)
    requires InPart(w, 6)
    ensures (w == Doesnt || Plain(Spell(w))) && Shaped(w)
  {
  }

  lemma FixedWord(w: Word)
    requires w.Fixed()
    ensures (w == Doesnt || Plain(Spell(w))) && Shaped(w)
  {
    if InPart(w, 0) { PlainPart0(w); }
    else if InPart(w, 1) { PlainPart1(w); }
    else if InPart(w, 2) { PlainPart2(w); }
    else if InPart(w, 3) { PlainPart3(w); }
    else if InPart(w, 4) { PlainPart4(w); }
    else if InPart(w, 5) { PlainPart5(w); }
    else { PlainPart6(w); }
  }

  lemma SpellFree(w: Word)
    requires w.Arg? || w.Poss? ==> Name(w.name)
    ensures ' ' !in Spell(w)
    ensures !w.Poss? && w != Doesnt ==> '\'' !in Spell(w)
  {
    if w.Fixed() { FixedWord(w); }
  }

  // The words by whose neighbors a message is recognised have a code of their own.

  lemma OwnShapeEarly(w: Word, x: Word)
    requires w.Fixed() && x in {Any, Configured, Established} && Shape(w) == Shape(x)
    ensures w == x
  {
  }

  lemma OwnShapeMiddle(w: Word, x: Word)
    requires w.Fixed() && x in {Found, Not, Part} && Shape(w) == Shape(x)
    ensures w == x
  {
  }

  lemma OwnShapeLate(w: Word, x: Word)
    requires w.Fixed() && x in {Target, To, With} && Shape(w) == Shape(x)
    ensures w == x
  {
  }

  predicate Telling(w: Word) {
    w in {Any, Configured, Established} || w in {Found, Not, Part} || w in {Target, To, With}
  }

  /** No other fixed word is spelled like a telling one. */
  lemma Told(w: Word, x: Word)
    requires w.Fixed() && Telling(x) && Spell(w) == Spell(x)
    ensures w == x
  {
    FixedWord(w);
    FixedWord(x);
    if x in {Any, Configured, Established} { OwnShapeEarly(w, x); }
    else if x in {Found, Not, Part} { OwnShapeMiddle(w, x); }
    else { OwnShapeLate(w, x); }
  }

  // ----- messages are unambiguous

  lemma MessageSplits(f: Failure)
    requires f.WellNamed()
    ensures FreeOf(Spelled(f.Tokens()), ' ')
    ensures Split(f.Render(), ' ') == Spelled(f.Tokens())
  {
    var w := Spelled(f.Tokens());
    forall x | x in w ensures ' ' !in x {
      var i :| 0 <= i < |w| && w[i] == x;
      SpellFree(f.Tokens()[i]);
    }
    SplitJoin(w, ' ');
  }

  function Kind(f: Failure): nat {
    match f
    case McpUpdating => 0
    case NoIp(_, _) => 1
    case NotInPool(_, _) => 2
    case PoolNotAdvertised(_, _, _) => 3
    case NoPeers(_) => 4
    case PodNotRunning(_, _) => 5
    case NoTargetPods(_, _) => 6
    case NotEstablished(_, _) => 7
    case NotValid(_, _) => 8
    case BadBfd(_, _) => 9
    case RouteNotAdvertised(_, _, _, _) => 10
    case RouteNotBest(_, _, _, _, _) => 11
    case NoRunningSpeaker(_, _) => 12
    case NoSpeaker(_, _) => 13
    case NoHops(_, _) => 14
  }

  lemma HeadsDiffer(v: Word, w: Word)
    requires v in {MachineConfigPool, Service, BGP, One, No} && w in {MachineConfigPool, Service, BGP, One, No}
    requires Spell(v) == Spell(w)
    ensures v == w
  {
    assert |Spell(v)| == |Spell(w)| && Spell(v)[0] == Spell(w)[0];
  }

  lemma SecondsDiffer(v: Word, w: Word)
    requires v in {Speaker, Configured} && w in {Speaker, Configured} && Spell(v) == Spell(w)
    ensures v == w
  {
    assert |Spell(v)| == |Spell(w)|;
  }

  predicate SpeltAlike(v: seq<Word>, w: seq<Word>) {
    |v| == |w| && forall i {:trigger Spell(v[i])} | 0 <= i < |v| :: Spell(v[i]) == Spell(w[i])
  }

  /** The first word and the word count identify the kind, or else the second word. */
  function KindBy(head: Word, count: int, second: Word): nat {
    if head == MachineConfigPool then 0
    else if head == One then 5
    else if head == BGP then if count == 11 then 4 else if count == 12 then 7 else if count == 13 then 8 else 9
    else if head == No then if count == 11 then 13 else if second == Speaker then 12 else 14
    else if count == 10 then 6
    else if count == 11 then 1
    else if count == 15 then 2
    else if count == 16 then 10
    else if count == 19 then 3
    else 11
  }

  lemma KindRead(f: Failure)
    ensures var v := f.Tokens();
            && v[0] in {MachineConfigPool, Service, BGP, One, No}
            && (v[0] == No && |v| == 13 ==> v[1] in {Speaker, Configured})
            && Kind(f) == KindBy(v[0], |v|, v[1])
  {
  }

  lemma KindDetermined(f: Failure, g: Failure)
    requires SpeltAlike(f.Tokens(), g.Tokens())
    ensures Kind(f) == Kind(g)
  {
    var v, w := f.Tokens(), g.Tokens();
    KindRead(f);
    KindRead(g);
    HeadsDiffer(v[0], w[0]);
    if v[0] == No && |v| == 13 { SecondsDiffer(v[1], w[1]); }
  }

  lemma SameName(v: Word, w: Word)
    requires Spell(v) == Spell(w) && v.Arg? == w.Arg? && v.Poss? == w.Poss? && !v.Fixed()
    ensures v == w
  {
    if v.Poss? {
      assert v.name == Spell(v)[..|Spell(v)| - 2] == Spell(w)[..|Spell(w)| - 2] == w.name;
    }
  }

  lemma PoolArguments(f: Failure, g: Failure)
    requires SpeltAlike(f.Tokens(), g.Tokens()) && Kind(f) == Kind(g)
    requires Kind(f) <= 2
    ensures f == g
  {
    var v, w := f.Tokens(), g.Tokens();
    if f.NoIp? { SameName(v[1], w[1]); SameName(v[10], w[10]); }
    if f.NotInPool? { SameName(v[1], w[1]); SameName(v[5], w[5]); }
  }

  lemma AdvertisedArguments(f: Failure, g: Failure)
    requires SpeltAlike(f.Tokens(), g.Tokens()) && f.PoolNotAdvertised? && g.PoolNotAdvertised?
    ensures f == g
  {
    var v, w := f.Tokens(), g.Tokens();
    assert f.svc == g.svc by { SameName(v[1], w[1]); }
    assert f.ns == g.ns by { SameName(v[4], w[4]); }
    assert f.pool == g.pool by { SameName(v[10], w[10]); }
  }

  lemma EndpointArguments(f: Failure, g: Failure)
    requires SpeltAlike(f.Tokens(), g.Tokens()) && Kind(f) == Kind(g)
    requires 4 <= Kind(f) <= 6
    ensures f == g
  {
    var v, w := f.Tokens(), g.Tokens();
    if f.NoPeers? { SameName(v[3], w[3]); }
    if f.PodNotRunning? { SameName(v[7], w[7]); SameName(v[10], w[10]); }
    if f.NoTargetPods? { SameName(v[1], w[1]); SameName(v[4], w[4]); }
  }

  lemma NeighborArguments(f: Failure, g: Failure)
    requires SpeltAlike(f.Tokens(), g.Tokens()) && Kind(f) == Kind(g)
    requires 7 <= Kind(f) <= 9
    ensures f == g
  {
    var v, w := f.Tokens(), g.Tokens();
    if f.NotEstablished? { SameName(v[2], w[2]); SameName(v[9], w[9]); }
    if f.NotValid? { SameName(v[2], w[2]); SameName(v[10], w[10]); }
    if f.BadBfd? { SameName(v[2], w[2]); SameName(v[11], w[11]); }
  }

  lemma RouteArguments(f: Failure, g: Failure)
    requires SpeltAlike(f.Tokens(), g.Tokens()) && f.RouteNotAdvertised? && g.RouteNotAdvertised?
    ensures f == g
  {
    var v, w := f.Tokens(), g.Tokens();
    SameName(v[1], w[1]);
    SameName(v[4], w[4]);
    SameName(v[11], w[11]);
    SameName(v[15], w[15]);
  }

  lemma BestRouteArguments(f: Failure, g: Failure)
    requires SpeltAlike(f.Tokens(), g.Tokens()) && f.RouteNotBest? && g.RouteNotBest?
    ensures f == g
  {
    var v, w := f.Tokens(), g.Tokens();
    assert f.svc == g.svc by { SameName(v[1], w[1]); }
    assert f.ip == g.ip by { SameName(v[4], w[4]); }
    assert f.ns == g.ns by { SameName(v[7], w[7]); }
    assert f.pod == g.pod by { SameName(v[17], w[17]); }
    assert f.node == g.node by { SameName(v[21], w[21]); }
  }

  lemma SpeakerArguments(f: Failure, g: Failure)
    requires SpeltAlike(f.Tokens(), g.Tokens()) && Kind(f) == Kind(g)
    requires 12 <= Kind(f)
    ensures f == g
  {
    var v, w := f.Tokens(), g.Tokens();
    if f.NoRunningSpeaker? { SameName(v[9], w[9]); SameName(v[12], w[12]); }
    if f.NoSpeaker? { SameName(v[7], w[7]); SameName(v[10], w[10]); }
    if f.NoHops? { SameName(v[8], w[8]); SameName(v[12], w[12]); }
  }

  /** Messages are keys: distinct failures print distinct messages. */
  lemma RenderInjective(f: Failure, g: Failure)
    requires f.WellNamed() && g.WellNamed()
    requires f.Render() == g.Render()
    ensures f == g
  {
    MessageSplits(f);
    MessageSplits(g);
    var v, w := f.Tokens(), g.Tokens();
    assert |Spelled(v)| == |Spelled(w)|;
    forall i | 0 <= i < |v| ensures Spell(v[i]) == Spell(w[i]) {
      assert Spelled(v)[i] == Spelled(w)[i];
    }
    KindDetermined(f, g);
    if Kind(f) <= 2 { PoolArguments(f, g); }
    else if Kind(f) == 3 { AdvertisedArguments(f, g); }
    else if Kind(f) <= 6 { EndpointArguments(f, g); }
    else if Kind(f) <= 9 { NeighborArguments(f, g); }
    else if Kind(f) == 10 { RouteArguments(f, g); }
    else if Kind(f) == 11 { BestRouteArguments(f, g); }
    else { SpeakerArguments(f, g); }
  }

  // ----- failures whose arguments are names

  lemma ServiceNamed(svc: string, ns: string)
    requires Name(svc) && Name(ns)
    ensures NoIp(svc, ns).WellNamed() && NotInPool(svc, ns).WellNamed()
    ensures PodNotRunning(svc, ns).WellNamed() && NoTargetPods(svc, ns).WellNamed()
  {
  }

  lemma NodeNamed(a: string, b: string)
    requires Name(a) && Name(b)
    ensures NoSpeaker(a, b).WellNamed() && NoRunningSpeaker(a, b).WellNamed() && NoHops(a, b).WellNamed()
  {
  }

  lemma HopNamed(hop: string, node: string)
    requires Name(hop) && Name(node)
    ensures NotEstablished(hop, node).WellNamed() && NotValid(hop, node).WellNamed() && BadBfd(hop, node).WellNamed()
  {
  }

  lemma RouteNamed(svc: string, ip: string, ns: string, pod: string, node: string)
    requires Name(svc) && Name(ip) && Name(ns) && Name(pod) && Name(node)
    ensures RouteNotAdvertised(svc, ip, pod, node).WellNamed() && RouteNotBest(svc, ip, ns, pod, node).WellNamed()
  {
  }

  lemma PoolNamed(svc: string, ns: string, pool: string)
    requires Name(svc) && Name(ns) && Name(pool)
    ensures PoolNotAdvertised(svc, ns, pool).WellNamed()
  {
  }

  lemma AdvertisementNamed(adv: string)
    requires Name(adv)
    ensures McpUpdating.WellNamed() && NoPeers(adv).WellNamed()
  {
  }
}
