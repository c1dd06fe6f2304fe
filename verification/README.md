# Alert state of the scan operator, in Dafny

The operator runs four reconcilers (MetallbScan, ContainerScan, PortScan, VmScan).
Each keeps alert state between runs: lists of failing things in a status object,
marker and fingerprint files on disk, and a condition list. Every scan observes the
cluster and brings that state in step with what it saw. This project models that core
and proves what the state means, over all observations, all runs and, where goroutines
are involved, all execution orders.

How the source's forms appear here:

- A failure of a MetallbScan is kept by the source as a printed message, which is its
  only key. `FailureMessages.Failure` is a datatype with a renderer; rendering is
  proved injective, and the clean-ups that parse messages back are proved to recover
  what was printed.
- Each goroutine body is one atomic step. `MetallbReconciler` launches the bodies of a
  phase and picks the next one arbitrarily; the theorems hold for every order.
- The reconcilers are classes whose methods update the lists as the source does. Each
  method's postcondition equates the new state with a function of the old one, and the
  theorems are about those functions.
- The two loops that delete from the slice they range over run on an array and a slice
  length, with the range header evaluated once.
- The cluster, the clock, mail, HTTP and file-system results are inputs.

## Where the code departs from what it sets out to do

These are theorems, each with the exact condition where there is one.

- The deleted-service clean-up loses live failures, keeps stale ones or panics unless
  its stale entries are spaced apart (`CleanupLoop.CleanupExact`); printed failures that
  lead to each of the three are in `CleanupExamples` (`LivePrintedLost`,
  `StalePrintedKept`, `PrintedPanics`). The order of the list decides between Healthy,
  failing and a panic if and only if at least two of its entries are stale and at least
  one is not (`CleanupOrders.OrderFreeVerdictIff`). Goroutines append in whatever order
  they happen to run in: the schedule of a scan that finds services in no pool decides its
  verdict if and only if two or more of them, but not all, are gone
  (`ScheduleVerdicts.ScanVerdictFreeIff`, `ScheduleVerdicts.OrderDecides`).
- One vanished-pod pass does its whole job iff no two neighboring entries have vanished,
  the last two aside, when every pod is listed once (`VanishedExact.PassExact`); the
  condition suffices for every list (`VanishedExact.PassCleansSpaced`), and is not
  needed where another namespace lists a pod of the same name
  (`VanishedExact.TwinCleans`). At worst half of the vanished pods stay
  (`VanishedPods.MiddleOneStays`); floor(log2 m) + 1 passes suffice.
- A service without an IP is forgotten by the same scan that records it, unless a service
  of the same name has one (`MetallbVerdicts.NoIpForgotten`). If nothing else the scan
  observed is to be listed, it ends Healthy (`MetallbHealth.HealthyWithoutIp`), as it does
  for every cluster in which all else is well (`MetallbHealth.HealthyCluster`; clusters of
  one worker are such, `MetallbHealth.SmallHealthy`). The recovery loop at
  internal/controller/metallbscan_controller.go:1061 ranges over an empty list, and the
  clean-up takes the failure for that of a deleted service. The clean-up never touches
  `IncidentID`, so the incident outlives the failure (`MetallbNumbers.HealthyKeepsNumber`),
  and no scan takes it out again (`MetallbNumbers.NoIpNumber`).
- When a phase records one failure and clears another with the same incident number, the
  order of its goroutines decides whether the number stays
  (`MetallbIncidents.NumberOrderFreeIff`).
- Without any address in any pool the look-up is an error and the pool phase has no records,
  so no service is then found to be in no pool (`BgpConfig.NoPoolsNoRecords`).
- The kinds "not configured to be advertised" and "doesn't have a valid status" have a
  branch that records them and are never recorded (`MetallbEntries.DeadKindsNeverListed`):
  no record built for them ever reaches it (`HopRecords.RecordsOfWalk`,
  `BgpConfig.RecordsNameAdvertised`).
- A first scan that stops for a machine config update leaves the update marker behind,
  and the first scan that completes fails because of it (`MetallbEntries.UpdateMarker`).
- One service whose endpoints cannot be read, or hold a subset without ready addresses,
  keeps the endpoint phases from doing anything about any service
  (`SvcEndPoints.DiscardedRecordsFreeze`); one bad service keeps the others from
  recovering (`SvcEndPoints.DownInCluster`).
- The fingerprint file of an unestablished neighbor is never removed, so that alert is
  accepted at most once ever (`Fingerprints.FiresOnce`).
- PortScan sends "resolved" by the mail-marker file, so such a post carries the text
  "sent" (`PortScanRuns.RunKeepsGood`), and none is posted when the recovery mail is sent,
  which removes the marker first (`PortScanRuns.ResolvedPostIff`); hosts that differ in a dot share their marker
  (`PortScanNames.DotsCollide`), and sharing is all that can go wrong with a spec's
  marker files (`PortScanNames.SpecsDistinctIff`).
- ContainerScan mails only about containers in CrashLoopBackOff, only from a first scan in
  per-container mode (`ContainerScan.ContainerScanStatus.Reconcile`), and only for the
  first namespace that does not pass (`ContainerScan.CrashesOfFirstBad`): the other mails
  stand behind a test on the list that was changed just before.
- ContainerScan takes out the incidents of recovered containers only in the first namespace
  it comes to: once one has passed, the others keep theirs (`ContainerRuns.ScanNumbers`,
  `ContainerRuns.PassedKeepsNumbers`).
- VmScan reports the last node it visits (`VmScan.ReportRightIff`, `VmScan.ViolationMissed`), and
  lists only the crowded nodes at the end of the node list (`VmScan.AffectedIff`).
- The address patterns accept 14 shapes where 4 decide, and reject 10.1.1.1
  (`AddressPatterns.FourPatterns`, `AddressPatterns.QuadAccepted`).
- Only the two ends of an address range are looked up (`IpPools.RangeInteriorMissed`).

## Model

| member | source | states |
|---|---|---|
| StatusLists.RunMembership | internal/controller/metallbscan_controller.go:1101-1160 | after any run of guarded appends and deletes a key is listed iff the last operation on it added it, or none named it and it was listed |
| StatusLists.SettledForm | internal/controller/metallbscan_controller.go:1513-1682 | operations that do not contradict each other leave the entries none of them deletes, in old order, then the new ones |
| StatusLists.SchedulesConverge | internal/controller/metallbscan_controller.go:1101-1160 | every execution order of agreeing bodies ends with the same old entries in the same order and the same set of entries |
| StatusLists.OrderFreeIffAgree | internal/controller/metallbscan_controller.go:1723-1838 | the order of the bodies is irrelevant iff no two disagree about a key |
| GoStrings.JoinSplit | internal/metallbscan/util/util.go:475-476 | joining what Split returns gives the text back |
| GoStrings.ContainsWords | internal/controller/metallbscan_controller.go:1879-1879 | a text of several words is found in a text only where its words line up with whole words |
| GoSlices.DeleteElementSlice | internal/controller/containerscan_controller.go:688-690 | append(s[:i], s[i+1:]...) moves the tail down in the shared array and leaves the last element behind the slice |
| FailureMessages.RenderInjective | internal/controller/metallbscan_controller.go:1106-1106 | for arguments without spaces or apostrophes, different failures print different messages |
| StaleServices.MentionsExactly | internal/controller/metallbscan_controller.go:1879-1888 | each substring test picks exactly the intended kind of failure |
| StaleServices.StaleMeaning | internal/controller/metallbscan_controller.go:1876-1901 | the clean-up's tests on a printed failure hold iff it is of one of the four service kinds and its service is not listed |
| StaleServices.HopParse | internal/controller/metallbscan_controller.go:2247-2251 | positional parsing of a not-established message yields the printed hop and worker |
| CleanupLoop.CleanRange | internal/controller/metallbscan_controller.go:1876-1901 | the loop on the aliased array panics iff OutOfRange and leaves CleanResult |
| CleanupLoop.CleanupExact | internal/controller/metallbscan_controller.go:1876-1901 | it leaves exactly the non-stale entries in order, without panic, iff no two stale entries are neighbors and a stale last entry is the only one, or all of two or three entries are stale |
| CleanupLoop.OneStaleIsCleaned | internal/controller/metallbscan_controller.go:1876-1901 | with at most one stale entry it stays in bounds and is the order-preserving filter |
| CleanupExamples.LivePrintedLost | internal/controller/metallbscan_controller.go:1876-1886 | a not-established failure between those of two deleted services is lost |
| CleanupExamples.StalePrintedKept | internal/controller/metallbscan_controller.go:1876-1886 | of the failures of two deleted services in a row the second stays |
| CleanupExamples.PrintedPanics | internal/controller/metallbscan_controller.go:1876-1886 | with both at the end of the list the clean-up panics |
| CleanupOrders.OrderFreeVerdictIff | internal/controller/metallbscan_controller.go:1876-1916 | for a list without duplicates every order of it ends alike (Healthy, failing or panic) iff at most one entry is stale or all are |
| VanishedPods.VanishedPodPass | internal/controller/containerscan_controller.go:403-428 | the range loop on the backing array computes Pass |
| VanishedPods.PassLaw | internal/controller/containerscan_controller.go:403-428 | one pass keeps every pod that exists, in order, and leaves at most half of the vanished entries of its namespace |
| VanishedPods.PassesSuffice | internal/controller/containerscan_controller.go:403-428 | floor(log2 m) + 1 passes leave exactly the entries that are not vanished |
| VanishedPods.MiddleOneStays | internal/controller/containerscan_controller.go:403-428 | of three vanished entries one pass leaves the middle one |
| VanishedExact.PassExact | internal/controller/containerscan_controller.go:403-428 | with every pod listed once, one pass leaves exactly the entries that exist iff no two neighbors have vanished, the last two aside |
| VanishedExact.OneNamespaceExact | internal/controller/containerscan_controller.go:403-428 | for entries of one namespace: iff no two pods listed next to each other are gone, the last two aside |
| VanishedExact.PassCleansSpaced | internal/controller/containerscan_controller.go:403-428 | the same condition suffices for every list |
| VanishedExact.TwinCleans | internal/controller/containerscan_controller.go:403-428 | a pod listed in two namespaces: the pass cleans a list that breaks the condition |
| AddressPatterns.FourPatterns | internal/metallbscan/util/util.go:456-469 | the fourteen patterns accept what four of them accept |
| AddressPatterns.QuadAccepted | internal/metallbscan/util/util.go:479-481 | which dotted quads are accepted, by the lengths of their octets |
| HopScanners.RetrieveBGPHop | internal/metallbscan/util/util.go:455-488 | the entries returned, and that it panics iff some accepted line has one field |
| HopScanners.IsExistBGPHop | internal/metallbscan/util/util.go:490-526 | true iff the hop is an accepted first field |
| HopScanners.ScannersAgree | internal/metallbscan/util/util.go:471-526 | the scanners name the same hops iff no accepted first field holds a colon |
| HopScanners.RetrievesMore | internal/metallbscan/util/util.go:471-526 | for a text without a colon what one scanner finds the other finds, and conversely under the condition stated |
| HopScanners.FirstFieldDecides | internal/metallbscan/util/util.go:479-481 | the test on the whole line adds nothing to the test on its first field |
| HopScanners.PrintedHopAccepted | internal/metallbscan/util/util.go:476-484 | a hop printed first on a line is picked up iff the patterns accept its octets |
| HopScanners.CheckLBIPRoute | internal/metallbscan/util/util.go:528-550 | the answer is that of the first line containing the route text |
| HopScanners.RouteFoundIff | internal/metallbscan/util/util.go:535-548 | a route is found iff a line lists it and no earlier line contains its text |
| HopScanners.BestRouteIff | internal/metallbscan/util/util.go:535-548 | a route is found as the best iff the first line that mentions it lists it and starts with "*> " |
| HopScanners.TableMeaning | internal/metallbscan/util/util.go:528-550 | the table answers advertised, or best, iff it lists the route so with no earlier mention |
| IpPools.BlockIsInterval | internal/controller/metallbscan_controller.go:1970-1972 | a block in prefix notation (section 3.1 of RFC 4632) holds exactly an interval of addresses |
| IpPools.CheckIpPool | internal/controller/metallbscan_controller.go:1931-1980 | although the trie accumulates earlier blocks, the answer is that of testing each block alone |
| IpPools.LookupFinds | internal/controller/metallbscan_controller.go:1940-1980 | found iff listed as a single address or range end, or inside a listed block; the pool named is such a pool |
| IpPools.AnsweredLookup | internal/controller/metallbscan_controller.go:1940-1980 | whatever parses and whatever does not: an answered look-up finds the address iff it is in a pool, and names an entry that holds it |
| IpPools.FirstEntryNamed | internal/controller/metallbscan_controller.go:1962-1979 | it names the first exact entry, else the first block that contains the address |
| IpPools.RangeInteriorMissed | internal/controller/metallbscan_controller.go:1944-1948 | an address strictly inside a range is not found |
| BgpConfig.GetBGPIPPoolsPeer | internal/controller/metallbscan_controller.go:1982-2009 | the records, or the first look-up problem, of the services in order |
| BgpConfig.PeersMeaning | internal/controller/metallbscan_controller.go:1982-2009 | a record for every service address, in order, with name, namespace and what its look-up answered, or none at all if a look-up is not answered |
| BgpConfig.PeerRecords | internal/controller/metallbscan_controller.go:1982-2009 | a record says that its service is in a pool iff the pools hold the address, and names such a pool and entry |
| BgpConfig.NoPoolsNoRecords | internal/controller/metallbscan_controller.go:1959-1961 | without any pool address there are no records at all |
| BgpConfig.CheckBgpAdvertisement | internal/controller/metallbscan_controller.go:2059-2091 | the first advertisement that names the pool, else the first whose selectors match its labels |
| BgpConfig.AdvertisedIff | internal/controller/metallbscan_controller.go:2059-2091 | a pool is advertised iff some named advertisement lists it or selects a label of it; the answer carries a name exactly then |
| BgpConfig.AnswerOfFirst | internal/controller/metallbscan_controller.go:2059-2091 | the answer is that of the first advertisement that names the pool, else of the first that selects a label of it, with its peers |
| BgpConfig.LabelsOfFirst | internal/controller/metallbscan_controller.go:2044-2057 | the labels are those of the first pool of that name |
| BgpConfig.AdRecords | internal/controller/metallbscan_controller.go:2011-2042 | each peer record with a pool has an advertisement record with the name and the peers of the advertisement that answers |
| BgpConfig.GetBGPIPAd | internal/controller/metallbscan_controller.go:2011-2042 | one record for each service address that is in a pool |
| BgpConfig.RecordsNameAdvertised | internal/controller/metallbscan_controller.go:1172-1177 | a record carries an advertisement's name iff its pool is advertised, so "not advertised" is never reached |
| LoadBalancers.GetLoadBalancerServices | internal/metallbscan/util/util.go:412-435 | the entries of the services with an address and of those without |
| LoadBalancers.LiveServices | internal/controller/metallbscan_controller.go:1866-1875 | the names the clean-up takes for live, one for each entry |
| LoadBalancers.EntryParses | internal/controller/metallbscan_controller.go:1985-1986 | splitting an entry yields name and namespace, and the address iff it has no colon |
| LoadBalancers.LiveIff | internal/controller/metallbscan_controller.go:1866-1875 | a name is live iff a service of that name, in any namespace, has an address |
| LoadBalancers.AddressIff | internal/metallbscan/util/util.go:412-435 | the entries of a service name its requested address if there is one, else the reported ones |
| LoadBalancers.NoIpRefIff | internal/controller/metallbscan_controller.go:1034-1038 | splitting the entries names exactly the load balancer services with neither a requested nor a reported address |
| LoadBalancers.NoIpStaleIff | internal/controller/metallbscan_controller.go:1866-1886 | the failure of a service without an address is stale iff no service of its name has one |
| SvcEndPoints.GetSvcEndPoints | internal/controller/metallbscan_controller.go:2122-2168 | the record of every service, or none at all if one cannot be read or has an unready subset |
| SvcEndPoints.DiscardedRecordsFreeze | internal/controller/metallbscan_controller.go:1319-1476 | if one service is unreadable no record is left and both endpoint phases leave the lists as they were |
| SvcEndPoints.DownInCluster | internal/controller/metallbscan_controller.go:1319-1409 | if all are readable, one is listed as not running iff one of its name has a pod down in the cluster, or it was listed and some service has one |
| SvcEndPoints.MissingInCluster | internal/controller/metallbscan_controller.go:1319-1476 | the same for services without target pods |
| SvcEndPoints.EndpointPhase | internal/controller/metallbscan_controller.go:1339-1409 | listed as not running iff a service of that name has a pod down, or it was listed and some service has one |
| SvcEndPoints.TargetPhase | internal/controller/metallbscan_controller.go:1411-1476 | the same for services without target pods |
| MetallbPhases.PhaseOrderFreeIff | internal/controller/metallbscan_controller.go:1101-1160 | a phase's result is the same set in every order iff no body records what another clears |
| MetallbPhases.PeersAgreeIff | internal/controller/metallbscan_controller.go:1101-1160 | the pool phase agrees iff records of one service agree |
| MetallbPhases.AdsAgreeIff | internal/controller/metallbscan_controller.go:1171-1286 | the advertisement phase agrees iff records sharing a message agree |
| MetallbPhases.HopsAgreeIff | internal/controller/metallbscan_controller.go:1513-1682 | the hop phase agrees iff records of one hop agree |
| MetallbPhases.RoutesAgreeIff | internal/controller/metallbscan_controller.go:1723-1838 | the route phase agrees iff records sharing a message agree |
| MetallbPhases.PhaseResult | internal/controller/metallbscan_controller.go:1513-1682 | which failures are listed after an agreeing phase, and in what order |
| MetallbPhases.HopPhase | internal/controller/metallbscan_controller.go:1512-1683 | the three failures of each hop say what its state says; an ignored bad BFD leaves its failure as it was |
| MetallbPhases.HopPhaseFrame | internal/controller/metallbscan_controller.go:1512-1683 | failures of other hops and kinds survive in their order |
| MetallbPhases.PeerPhase | internal/controller/metallbscan_controller.go:1101-1160 | a service is listed as in no pool iff it is in none |
| MetallbPhases.AdPhase | internal/controller/metallbscan_controller.go:1171-1286 | an advertisement is listed without peers iff it has none |
| MetallbPhases.RoutePhase | internal/controller/metallbscan_controller.go:1723-1838 | the two failures of each route say what its state says |
| HopRecords.CheckBGPHopWorkers | internal/controller/metallbscan_controller.go:2300-2399 | the nodes visited and the records built, up to the first error or panic |
| HopRecords.RecordsOfWalk | internal/controller/metallbscan_controller.go:2349-2383 | a walk not cut short has a record for exactly the listed hops with a session, and every record is valid |
| HopRecords.WorkersOfWalk | internal/controller/metallbscan_controller.go:2300-2398 | the nodes are visited in order, each with its speaker and whether it names hops, and when the walk is cut short, which leaves no hop records |
| RouteRecords.GetBGPIPRoute | internal/controller/metallbscan_controller.go:2170-2224 | the walk over the nodes of the endpoints: the nodes probed and the route records, none if a table cannot be read |
| RouteRecords.RoutesOfWalk | internal/controller/metallbscan_controller.go:2170-2224 | a record for exactly what each running speaker answers, every node probed in order, and when the walk is cut short |
| MetallbSpeakers.WorkerPhase | internal/controller/metallbscan_controller.go:2308-2398 | which nodes are listed without a speaker and which speakers without hops |
| MetallbSpeakers.ProbePhase | internal/controller/metallbscan_controller.go:2174-2196 | a node is listed without a running speaker iff its last probe found none, or it was not probed and was listed |
| MetallbScan.IncidentFollows | internal/controller/metallbscan_controller.go:1113-1152 | a new failure brings in its incident, clearing it takes it out, other incidents stay |
| MetallbIncidents.PhaseIncidents | internal/controller/metallbscan_controller.go:1099-1162 | in every order of agreeing bodies a number is listed afterwards iff a failure that has it is newly listed, or it was listed and no failure that has it is cleared; with notifications off nothing changes |
| MetallbIncidents.NumberOrderFreeIff | internal/controller/metallbscan_controller.go:1099-1162 | among bodies about different failures the schedule decides about a number iff one records a new failure that has it and another clears a listed one that has it |
| MetallbIncidents.ScanIncidents | internal/controller/metallbscan_controller.go:993-1838 | the same rule over a whole scan, as far as it gets, for every schedule |
| MetallbNumbers.ReconcileIncidents | internal/controller/metallbscan_controller.go:993-1917 | the same of an elapsed reconcile; with notifications off `IncidentID` stays |
| MetallbNumbers.FirstIncidents | internal/controller/metallbscan_controller.go:469-945 | a first scan brings in the numbers of what it newly lists and takes none out |
| MetallbNumbers.PoolNumber | internal/controller/metallbscan_controller.go:1101-1160 | a service without a pool brings in its number, one that is in a pool again takes it out |
| MetallbNumbers.HopNumber | internal/controller/metallbscan_controller.go:1517-1569 | a hop that is down brings in its number, one that is up takes it out |
| MetallbNumbers.RouteNumber | internal/controller/metallbscan_controller.go:1723-1781 | a route that is not advertised brings in its number, one that is takes it out |
| MetallbNumbers.AdNumber | internal/controller/metallbscan_controller.go:1178-1286 | an advertisement without peers brings in its number, one with peers takes it out |
| MetallbNumbers.NoIpNumber | internal/controller/metallbscan_controller.go:1034-1091 | the number of a service without an address comes in and no scan takes it out |
| MetallbNumbers.HealthyKeepsNumber | internal/controller/metallbscan_controller.go:1034-1916 | a scan that ends Healthy although a service has no address keeps the incident it has just recorded |
| MetallbRuns.ReachableClean | internal/controller/metallbscan_controller.go:1034-1161 | in every reachable state FailedChecks and IncidentID hold no duplicates and no empty or pending incident |
| MetallbRuns.CompletedVerdict | internal/controller/metallbscan_controller.go:1903-1916 | a completed scan is Healthy iff FailedChecks is empty iff Ready is True, and which times move |
| MetallbRuns.EarlyReturn | internal/controller/metallbscan_controller.go:1005-1013 | every other reconcile leaves Healthy and both run times alone, and Ready unless first seen or in error |
| MetallbStops.ShutGate | internal/controller/metallbscan_controller.go:423-963 | before the interval is over, and while suspended, lists, verdict and times stay |
| MetallbStops.OpenGate | internal/controller/metallbscan_controller.go:469-1917 | otherwise the scan runs and its lists are kept however far it gets; LastRunTime moves iff it completes |
| MetallbStops.ReachesEndIff | internal/controller/metallbscan_controller.go:993-1838 | a scan reaches its last clean-up iff no update is in progress at any check, there are services, and nothing read panics |
| MetallbStops.CompletesIff | internal/controller/metallbscan_controller.go:993-1916 | it then completes iff the clean-up does not delete out of range |
| MetallbStops.EndLists | internal/controller/metallbscan_controller.go:1005-1023 | a scan that ends at an update lists the marker besides what it had listed; every end but that and a lack of services is a panic |
| MetallbStops.StoppedLists | internal/controller/metallbscan_controller.go:1005-1838 | a failure whose own step lies before that end has its verdict, all others are as before the scan |
| MetallbRuns.HealthyIsLastVerdict | internal/controller/metallbscan_controller.go:946-959 | over every run Healthy is the verdict of the last completed scan, and without errors so is Ready |
| MetallbEntries.DeadKindsNeverListed | internal/controller/metallbscan_controller.go:1177-1177 | in no reachable state is a pool listed as not advertised or a neighbor as not valid |
| MetallbEntries.UpdateMarker | internal/controller/metallbscan_controller.go:1005-1023 | a completed elapsed scan never lists the update marker; a completed first scan lists it iff it was listed before |
| MetallbEntries.OneStaleCleaned | internal/controller/metallbscan_controller.go:1866-1901 | an elapsed scan with at most one stale failure ends with exactly the others |
| MetallbOutcome.ScanLists | internal/controller/metallbscan_controller.go:1034-1838 | after a scan whose phases agree a failure is listed iff its own step, run on its own, lists it: no other step adds it or takes it away |
| MetallbOutcome.FinalLists | internal/controller/metallbscan_controller.go:993-1838 | before its last clean-up an elapsed scan lists a failure iff its own step lists it, a node the clean-up of neighbors looked at for a speaker being judged by the last look |
| MetallbVerdicts.ElapsedOutcome | internal/controller/metallbscan_controller.go:993-1917 | such an elapsed scan with at most one stale failure completes and lists what its steps say, but for failures of deleted services |
| MetallbVerdicts.HopListed | internal/controller/metallbscan_controller.go:1517-1569 | at the end a hop is listed as not established iff it is not |
| MetallbVerdicts.BfdListed | internal/controller/metallbscan_controller.go:1623-1680 | and for BFD iff its session is bad and not ignored, or ignored and listed before |
| MetallbVerdicts.RouteListed | internal/controller/metallbscan_controller.go:1723-1781 | a route is listed as not advertised iff it is not |
| MetallbVerdicts.BestRouteListed | internal/controller/metallbscan_controller.go:1782-1838 | a route is listed as not the best iff it is not |
| MetallbVerdicts.PeerListed | internal/controller/metallbscan_controller.go:1101-1160 | a service is listed as in no pool iff it is in none and still there |
| MetallbVerdicts.AdListed | internal/controller/metallbscan_controller.go:1171-1286 | an advertisement is listed without peers iff it has none |
| MetallbVerdicts.DownListed | internal/controller/metallbscan_controller.go:1339-1409 | what is listed about pods that are not running |
| MetallbVerdicts.MissingListed | internal/controller/metallbscan_controller.go:1411-1476 | what is listed about services without target pods |
| MetallbVerdicts.HopsListed | internal/controller/metallbscan_controller.go:2345-2396 | which speakers are listed without hops |
| MetallbVerdicts.SpeakerListed | internal/controller/metallbscan_controller.go:2219-2398 | which nodes are listed without a speaker: by the last look of the clean-up of neighbors, else by the walk over the workers |
| MetallbVerdicts.ProbeListed | internal/controller/metallbscan_controller.go:2174-2196 | which nodes are listed without a running speaker |
| MetallbVerdicts.NoIpListed | internal/controller/metallbscan_controller.go:1034-1060 | a service without an IP is listed at the end iff its name is live then |
| MetallbVerdicts.NoIpForgotten | internal/controller/metallbscan_controller.go:1034-1086 | recorded by this scan, it is listed at its end iff a service of its name has an address, or none has |
| MetallbCluster.PoolListed | internal/controller/metallbscan_controller.go:1092-1160 | at the end of an elapsed scan a service is listed as in no pool iff no pool holds its address and it is still there |
| MetallbCluster.PoolsAgree | internal/controller/metallbscan_controller.go:1101-1160 | the records agree iff the addresses of each service are all in pools or all in none |
| MetallbCluster.ClusterPoolListed | internal/controller/metallbscan_controller.go:1092-1160 | said of a service of the cluster with an address that has no colon: listed iff no pool holds that |
| MetallbCluster.AdvertisementListed | internal/controller/metallbscan_controller.go:1162-1286 | the advertisement that answers for a service's pool is listed iff it has no peers |
| MetallbCluster.SessionListed | internal/controller/metallbscan_controller.go:1517-1680 | a next hop with a session is listed by the state of that session |
| MetallbCluster.SpeakerHopsListed | internal/controller/metallbscan_controller.go:2345-2396 | a speaker is listed without hops iff it names none, and that is not ignored or it was listed |
| MetallbCluster.NodeListed | internal/controller/metallbscan_controller.go:2314-2338 | a visited node is listed without a speaker iff none runs, and the daemonset is short or it was listed |
| MetallbCluster.PodsListed | internal/controller/metallbscan_controller.go:1339-1409 | pods that are not running, said of the endpoints in the cluster |
| MetallbCluster.TableRouteListed | internal/controller/metallbscan_controller.go:1723-1838 | a route is listed as not advertised, or not the best, iff the speaker's table does not list it so |
| MetallbCluster.EndpointNodeListed | internal/controller/metallbscan_controller.go:2174-2196 | an endpoint's node is listed iff no speaker ran when the walk last came to it |
| MetallbHealth.ElapsedHealthyIff | internal/controller/metallbscan_controller.go:993-1917 | an elapsed scan with at most one stale failure ends Healthy iff nothing it observed is to be listed, failures of services that are gone aside |
| MetallbHealth.HealthyWithoutIp | internal/controller/metallbscan_controller.go:1034-1916 | a service without an address is recorded and the scan ends Healthy, whatever was observed, if nothing else is to be listed |
| MetallbHealth.HealthyCluster | internal/controller/metallbscan_controller.go:1034-1916 | so it does, in every schedule, for every cluster whose peers, advertisements, endpoints, workers, hops, probes and routes are all as they should be |
| MetallbHealth.SmallHealthy | internal/controller/metallbscan_controller.go:1034-1916 | clusters of one worker meet all those conditions, whatever their names |
| MetallbVerdicts.FirstScanRecords | internal/controller/metallbscan_controller.go:469-945 | a completed first scan lists exactly what was listed and what its observation records, the node walks aside |
| MetallbFirst.AddsIffEvidence | internal/controller/metallbscan_controller.go:469-945 | a failure's own step records it iff some record speaks for it, in a first scan and in an elapsed one |
| MetallbFirst.FirstScanLists | internal/controller/metallbscan_controller.go:469-945 | so a completed first scan lists what was listed and what some record speaks for |
| MetallbFirst.FirstWalks | internal/controller/metallbscan_controller.go:2300-2398 | the walks over the nodes do in a first scan what they do on their own |
| MetallbFirst.FirstSpeakers | internal/controller/metallbscan_controller.go:2314-2396 | which nodes and speakers a first scan lists |
| MetallbFirst.FirstProbes | internal/controller/metallbscan_controller.go:2174-2196 | which nodes without a running speaker a first scan lists |
| MetallbSchedules.SchedulesAgree | internal/controller/metallbscan_controller.go:1092-1838 | two schedules of whole scans with agreeing phases stop or complete alike and list the same failures |
| MetallbSchedules.FirstVerdictScheduleFree | internal/controller/metallbscan_controller.go:469-959 | the verdict of a first scan is the same for every schedule |
| MetallbSchedules.ElapsedVerdictScheduleFree | internal/controller/metallbscan_controller.go:993-1917 | so is that of an elapsed scan whose phases agree, with at most one stale failure or all of them stale, and no neighbor deleted by index |
| ScheduleVerdicts.PhaseVerdictFreeIff | internal/controller/metallbscan_controller.go:1101-1160 | for a phase of bodies that each record a failure of their own, from an empty list, the schedule is irrelevant for what the clean-up makes of it iff at most one of the failures is stale or all are |
| ScheduleVerdicts.ScanVerdictFreeIff | internal/controller/metallbscan_controller.go:993-1917 | for scans that find services in no pool: every schedule of the whole scan ends alike iff at most one of the services is gone or all are |
| ScheduleVerdicts.OrderDecides | internal/controller/metallbscan_controller.go:993-1917 | when two of three such services are gone, one schedule of the scan ends Healthy and another does not |
| MetallbReconciler.MetallbScanStatus.RunConcurrently | internal/controller/metallbscan_controller.go:1099-1162 | launched bodies run in some order, and the lists are those of that order |
| MetallbReconciler.MetallbScanStatus.CleanDeletedServices | internal/controller/metallbscan_controller.go:1876-1901 | the clean-up step, on the slice's own array |
| MetallbReconciler.MetallbScanStatus.Scan | internal/controller/metallbscan_controller.go:993-1901 | a whole scan is some schedule of its steps, up to the step that stops it |
| MetallbReconciler.MetallbScanReconciler.ReconcileOnce | internal/controller/metallbscan_controller.go:398-1920 | one reconcile takes the status to Reconcile of it for some schedule of the scan |
| Fingerprints.FingerprintFile.SubNotifyExternalSystem | internal/metallbscan/util/util.go:253-305 | the posts made and the file left behind |
| Fingerprints.FingerprintFile.NotifyExternalSystem | internal/metallbscan/util/util.go:307-351 | the same for the other variant, silent while a fingerprint is stored |
| Fingerprints.RunLawful | internal/metallbscan/util/util.go:253-351 | in every run the file holds the outstanding fingerprint, resolved posts carry it, and no second firing post is accepted meanwhile |
| Fingerprints.StepPosts | internal/metallbscan/util/util.go:253-351 | a firing step makes its one post iff nothing is outstanding, a resolving step iff something is; what is then outstanding |
| Fingerprints.RunMakes | internal/metallbscan/util/util.go:253-351 | so the steps alone tell all posts of a run and what the file holds |
| Fingerprints.StaysOutstanding | internal/metallbscan/util/util.go:253-351 | until a removal no firing post is made and every resolving step posts the outstanding fingerprint |
| Fingerprints.FingerprintFile.Take | internal/controller/metallbscan_controller.go:1110-1156 | the steps a reconcile takes on a file, as functions of its state |
| Fingerprints.ResolvedCarriesFired | internal/metallbscan/util/util.go:253-351 | each resolved post carries the fingerprint of an accepted firing post since the last removal, and between two removals at most one firing post is accepted |
| Fingerprints.FiresOnce | internal/controller/metallbscan_controller.go:1541-1568 | a failure whose recovery keeps the file is fired with success at most once |
| Conditions.ConditionList.SetReadyCondition | internal/metallbscan/util/util.go:171-193 | one call, as a function of the list |
| Conditions.OneReadyCondition | internal/metallbscan/util/util.go:155-193 | after any calls there is one such condition, with the last fields and the time of the last change of status |
| Conditions.OthersUntouched | internal/portscan/portutil/util.go:160-181 | conditions of other types stay where they are |
| PortScan.PortScanStatus.SendEmailAlert | internal/portscan/portutil/util.go:361-397 | the mail attempted and the marker left behind |
| PortScan.PortScanStatus.SendEmailRecoveredAlert | internal/portscan/portutil/util.go:413-433 | the recovery mail and whether the marker goes |
| PortScan.PortScanStatus.Scan | internal/controller/portscan_controller.go:196-362 | both scan loops, and that they fail iff a target is unreachable |
| PortScan.PortScanReconciler.ReconcileOnce | internal/controller/portscan_controller.go:160-366 | one reconcile takes the status to Reconcile of it |
| PortScanReconciles.FirstSeen | internal/controller/portscan_controller.go:163-166 | the first reconcile of an object only says so |
| PortScanReconciles.IdleReconcile | internal/controller/portscan_controller.go:174-362 | a suspended one, or one before the interval is over, changes nothing |
| PortScanReconciles.ElapsedReconcile | internal/controller/portscan_controller.go:275-366 | once the interval is over a target is affected iff its last answer says so, or it is not configured and was; Ready and LastPollTime tell whether all were reached |
| PortScanReconciles.FirstReconcile | internal/controller/portscan_controller.go:196-273 | until all targets have been reached once: affected iff not reached, or affected before and without a marker file |
| PortScanReconciles.FirstAffected | internal/controller/portscan_controller.go:196-262 | the same when targets share files, by the files at the target's turn |
| PortScanReconciles.TargetEvents | internal/controller/portscan_controller.go:196-353 | in every reachable state, which mails and posts handling a target makes |
| PortScanReconciles.TargetIncidents | internal/controller/portscan_controller.go:196-353 | a new failure brings in its incident, a recovery takes it out, and what the fingerprint file holds |
| PortScanRuns.ElapsedAffected | internal/controller/portscan_controller.go:276-362 | after an elapsed scan a target is affected iff its last answer says so, or it is not configured and was affected, whatever mails, posts and markers do |
| PortScanRuns.DistinctAffected | internal/controller/portscan_controller.go:276-362 | for targets named once: exactly the old entries not configured and the targets that failed now, in which order |
| PortScanRuns.RunKeepsGood | internal/portscan/portutil/util.go:361-433 | in every reachable state mails alternate, markers say whether one is pending, resolved posts carry "sent", lists hold no duplicates |
| PortScanRuns.ResolvedPostIff | internal/controller/portscan_controller.go:276-325 | a target that is reached again sends a resolved post iff it is listed, its marker says "sent", something was fired, and its recovery mail is off or fails |
| PortScanRuns.RunNeverResolves | internal/controller/portscan_controller.go:196-353 | while mail is on and every mail is sent, no run ever posts a recovery |
| PortScanRuns.MailsAlternate | internal/portscan/portutil/util.go:361-433 | alert attempts and successful recovery mails of a marker file strictly alternate |
| PortScanRuns.RunKeepsConsistent | internal/controller/portscan_controller.go:196-353 | with mail on and working and distinct markers a target is affected iff its marker holds "sent" |
| PortScanRuns.PollMoves | internal/controller/portscan_controller.go:266-362 | LastPollTime moves only when every target was reached, and by more than the interval |
| PortScanRuns.SuccessesApart | internal/controller/portscan_controller.go:276-362 | recorded successes lie more than the interval apart |
| PortScanNames.MarkerShared | internal/portscan/portutil/util.go:451-454 | two targets share a marker iff same port and hosts that differ in dropped characters only |
| PortScanNames.MarkerIsNotExt | internal/controller/portscan_controller.go:205-212 | no marker file is a fingerprint file |
| PortScanNames.SpecsSeparate | internal/controller/portscan_controller.go:205-212 | for every set of a spec's targets no marker file is a fingerprint file |
| PortScanNames.SpecsDistinctIff | internal/portscan/portutil/util.go:451-454 | their marker files are distinct iff no two hosts of a port differ in dropped characters only |
| PortScanNames.SpecRuns | internal/controller/portscan_controller.go:196-353 | so the run theorems hold for every spec, the one on list and markers but for hosts that share a marker |
| PortScanNames.DotsCollide | internal/portscan/portutil/util.go:451-454 | hosts that differ in a dot share a marker |
| ContainerScan.ContainerScanStatus.ScanNamespaces | internal/controller/containerscan_controller.go:398-652 | the loop over namespaces computes ScanFrom and the incidents, in aggregate and per-container mode alike; the mails are one for each container in CrashLoopBackOff it gets to in a first per-container scan with mail on, and none otherwise |
| ContainerScan.ContainerScanStatus.Reconcile | internal/controller/containerscan_controller.go:191-652 | the gate of the interval, the mails and the lists' invariants |
| ContainerScan.PodAffectedIff | internal/controller/containerscan_controller.go:433-625 | a listed pod is affected iff its last decisive container fails, or none decides and it was affected |
| ContainerScan.FirstScanAffectedIff | internal/controller/containerscan_controller.go:195-386 | a first scan only adds: an existing pod is affected iff a container of it fails or it was affected |
| ContainerScan.OtherNamespaceKept | internal/controller/containerscan_controller.go:403-625 | scanning a namespace leaves the entries of others |
| ContainerScan.CrashesOfFirstBad | internal/controller/containerscan_controller.go:195-386 | the containers a scan mails about are all in the first namespace that does not pass |
| ContainerScan.StopsAtFirstBad | internal/controller/containerscan_controller.go:398-652 | the run ends at the first namespace that does not pass and leaves later ones alone |
| ContainerRuns.ScanListed | internal/controller/containerscan_controller.go:191-652 | at the end of a scan of different namespaces, a listed pod that exists is affected iff its containers say so or, if none does, it was affected |
| ContainerRuns.ScanUnlisted | internal/controller/containerscan_controller.go:191-652 | a pod that exists and is not listed stays as it was |
| ContainerRuns.ScanForgets | internal/controller/containerscan_controller.go:403-428 | at most half of the pods that are gone from a namespace the scan came to are left |
| ContainerRuns.PassedIff | internal/controller/containerscan_controller.go:433-652 | a namespace passes iff it exists, its pods are listed, and no container has failed or is in CrashLoopBackOff |
| ContainerRuns.LastDecides | internal/controller/containerscan_controller.go:433-625 | of the containers that have failed or completed the last one decides |
| ContainerRuns.NumberDecided | internal/controller/containerscan_controller.go:433-625 | the last container that moves an incident number decides whether it is listed |
| ContainerRuns.NamespaceNumbers | internal/controller/containerscan_controller.go:433-648 | a namespace moves the numbers as its containers do in order, and resets the notification when it passes |
| ContainerRuns.ScanNumbers | internal/controller/containerscan_controller.go:398-652 | of all namespaces a scan comes to only the first and the one it ends at move numbers |
| ContainerRuns.PassedKeepsNumbers | internal/controller/containerscan_controller.go:398-652 | once a namespace has passed, one that passes after it changes no number |
| VmScan.GroupConserves | internal/controller/vmscan_controller.go:333-337 | per node the map holds the concatenation of the VMIs listed, and the lengths sum to their count |
| VmScan.ScanVerdict | internal/controller/vmscan_controller.go:325-410 | a violation is reported iff the last node hosts two or more; what the list then holds |
| VmScan.ReportRightIff | internal/controller/vmscan_controller.go:338-372 | the report is right iff no node is crowded or the last one is |
| VmScan.AffectedIff | internal/controller/vmscan_controller.go:325-410 | the list holds exactly the VMIs of the nodes at the end of the node list that are crowded without a break, and old entries only if all nodes were crowded from the first namespace on |
| VmScan.ViolationMissed | internal/controller/vmscan_controller.go:372-372 | two controllers on the first of two nodes go unreported |
| VmScan.MigrationListedIff | internal/controller/vmscan_controller.go:302-324 | a migration is listed iff the last state seen is running, or none was seen and it was listed |
| VmScan.VmScanStatus.CheckPlacement | internal/controller/vmscan_controller.go:325-414 | the placement check, its list, its error and LastPollTime |
| VmScan.VmScanStatus.Reconcile | internal/controller/vmscan_controller.go:181-414 | the gate of the interval, with the lists' invariants |

## Left out

- Interleavings below a goroutine body, and the data races they allow: a body is one atomic step.
- Kubernetes API calls, exec streams, HTTP and TLS set-up, JSON, `nc` and `sendmail`: inputs, which may fail arbitrarily.
- Failing writes and removals of fingerprint files: `Fingerprints` takes them as succeeding. Failing writes of mail markers are modelled.
- Mails and posts of MetallbScan inside its scan: the lists do not depend on them, and the two protocols are modelled on their own.
- The incident number of a failure is a function of its message for the length of one scan; it may differ from scan to scan.
- `CheckIfBGPHopExists` deletes by an index that drifts and carries the hop over from earlier messages: its effect is any sequence of deletions by index and speaker updates, and only its parsing is stated.
- MetallbSchedules.ElapsedVerdictScheduleFree: not for scans that delete a neighbor by index, nor for those where at least two failures are stale and not all: there the verdict may hang on the order, and does for failures recorded side by side (`ScheduleVerdicts.ScanVerdictFreeIff`).
- ScheduleVerdicts.ScanVerdictFreeIff: the whole scan is that of a cluster with nothing else to report, from an empty list; for a phase alone, of any recording bodies, see `ScheduleVerdicts.PhaseVerdictFreeIff`.
- MetallbIncidents.ScanIncidents: says nothing of a number both of a failure that is newly listed and of one that is cleared; there the order decides (`MetallbIncidents.NumberOrderFreeIff`).
- VanishedExact.PassExact: the exact condition is for lists that name every pod once, as those of one namespace do; with namesakes in other namespaces it is proved sufficient.
- Panics while pools, next hops or routes are read are an input of each scan; which answers lead to one is stated with the scanners and look-ups themselves.
- Parsing of addresses and of prefix notation is a parameter; the address library's trie is the set of networks inserted so far. IPv4 only.
- Text is a sequence of characters, not of bytes or UTF-8 runes.
- Whether a pod exists does not change during one vanished-pod pass.
- Target references without a pod, targets without ":", route lines with one field and unset option pointers: taken as present, except that both scanners model the line with one field.
- The condition reports of ContainerScan and VmScan: the condition list is modelled for all four, their calls only for MetallbScan and PortScan. The suspend switch, secret and client errors likewise.
- Incidents of VmScan beyond being free of duplicates and placeholders.
- MetallbScan's message tests at internal/controller/metallbscan_controller.go:1840-1865: no full message equals the fragment they look for.
- Webhooks, main program, generated code and configuration.
- Status-update conflicts, time serialisation and duration overflow.
