# A verified model of the ingress proxy

This project models, in Dafny, the parts of the ingress proxy whose correctness depends on state kept
across many calls, on several goroutines, or on a transformation that must not change meaning. The
files follow the components of the program.

| file | component |
|---|---|
| `Divisibility.dfy`, `RoundRobin.dfy`, `Balancers.dfy` | the gcd-stepping weighted round robin of the TCP and UDP load balancers |
| `Propagation.dfy` | the propagation of health from TCP balancers to their parents, and how the service builder wires them; the balancer objects in `Balancers.dfy` are proved against it |
| `Outages.dfy` | which runs of health reports take these balancers down, make parents and children disagree, or keep a pick from ending |
| `Interleaving.dfy` | the same propagation in lock-sized steps, with any number of reports and picks under way at once |
| `Connections.dfy` | the way of connections from routers through these balancers, while reports arrive |
| `Watcher.dfy` | the configuration watcher: a receiver and an applier over channels |
| `HealthCheck.dfy` | the two workers and two queues of an active health checker |
| `PassiveHealth.dfy` | the sliding failure window of the passive health checker |
| `PathNormalization.dfy` | normalisation of request paths after RFC 3986 |
| `Rules.dfy` | compilation of rule expressions to trees, with in-place inversion |
| `Strings.dfy`, `Certificates.dfy` | certificate choice by server name, with a shared cache |
| `Aggregator.dfy`, `ModelApplication.dfy` | merging the configurations of all providers, and applying entry point models to routers |
| `ProviderMerge.dfy` | merging several configurations of one provider |
| `UdpSessions.dfy` | UDP sessions over one socket, and the shutdown of the listener |
| `OcspCache.dfy` | the lifetime of OCSP staples |

Goroutines are state machines: an action is what runs between two points where a goroutine can wait,
and the theorems range over every interleaving of actions. Objects that the program updates in place
are classes. Maps that the program ranges over are visited in an arbitrary order. A clock reading, the
result of a probe and the eviction of a cache entry are parameters or free choices.

Some expected properties do not hold of the program as written. In each case the model keeps the
program's behaviour, shows the failure and proves when the property does hold:

- The TCP pick loop does not exit when some server is listed as up and some server has a positive
  weight but none has both (`TcpBalancer.PickLoopExits`; two `Add` calls and one report lead there,
  `TcpBalancer.PickLoopHangs`). It keeps the lock of its balancer all the time, so reports from below
  wait for ever (`Connections.SpinningPickBlocks`). A connection gets to a child only through a pick of
  its parent, which never returns an entry of weight zero. For every build, reports and connections can
  always come to an end, with all locks given back and no connection waiting, if and only if no balancer to
  which entries of positive weight lead from a router has a name without weight next to names of positive
  weight that can all go down (`Connections.ComesToRestIff`). Such a balancer behind an entry of weight zero
  does no harm (`Connections.ShieldedComesToRest`). Where names are unique and every server is checked, the
  balancers that can spin are the checked ones with a child of weight zero next to one of positive weight
  (`Outages.CanSpinIffMixed`).
- Checkers are kept by the name of the service as it is mentioned, so only the last build under a name is
  checked, and every router builds its service anew. With two routers on one checked service, connections of
  the first router still get servers that the checker reported down (`Connections.TwoRoutersFail`). No pick
  returns a server that the checker of its service name last reported down, if and only if that checker
  reports to every balancer that a connection can be handed to and that has one of the servers it reports on
  (`Connections.PicksHeedIff`); where each name stands for one service, that is, if and only if the checker of
  every checked balancer with servers that a connection can be handed to is launched
  (`Connections.PicksHeedIffWatched`).
- A parent lists a child exactly when the child has something up, after every run of health reports, if
  and only if every balancer that reports to a parent was given a server or a child, and two children of a
  checked parent share a name only if neither can go down (`Outages.AlwaysConsistentIff`; for reports
  that propagate at the same time, `Interleaving.RestsConsistentIff`). A balancer can go down if and only if
  it has servers and its checker is launched, or it has children and each of their names is in the slot of a
  child that can go down (`Outages.GoesDownIff`). The builder reaches both failures. It skips malformed
  addresses, so a child with only such addresses is listed as up for ever
  (`Outages.MalformedChildStaysUp`). A weighted service may list one service twice, and when the child
  built last goes down the parent forgets the other (`Outages.ListedTwiceFails`).
- For a name without commas and without a trailing dot, the scan picks a most specific certificate, whatever
  certificates there are, if and only if the first label of the name is not `*` and every label is empty,
  is `*`, starts above `*`, or starts with `*` and goes on with a character above `.`
  (`Certificates.ChoiceIsRightIffProper`); the same names are the ones always answered right, cached or not
  (`Certificates.PlainAlwaysRightIff`). The cache is shared with the lookup by domains, which joins names with
  commas. A name with a comma whose labels are non-empty and start above `*` is always answered right if and
  only if one of its comma-separated parts matches it and it does not read like a sorted list of several
  domains one of which has no comma (`Certificates.CommaAlwaysRightIff`, `Certificates.MisledByCache`).
- The passive health checker counts like the full history exactly when no failure happened since the last
  success, or the newest failure is inside the window and no overlapping request with a later window has cut
  off a failure inside it (`PassiveHealth.CountIsExact`). Failures keep counting when all of them are older
  than the window (`PassiveHealth.StaleVerdict`); the program reaches this only when that much time passes
  between recording a failure and judging it (pkg/healthcheck/healthcheck.go, lines 395 and 441). The start
  of the window is read before the lock is taken, so overlapping requests can miss failures
  (`PassiveHealth.OverlappingVerdict`).
- The normal form of a raw path is canonical for all bytes, but it decodes to the same octets, and
  normalising again changes nothing, if and only if the path is ASCII: a byte that is not ASCII is written as
  a character of two bytes (`PathNormalization.NormalFormDecodesAlike`, `PathNormalization.NormalizeTwice`).
- The merge of all providers does not depend on the order of visits if and only if providers that qualify to
  the same name agree (`Aggregator.OrderFreeIffAgreeing`), and the splitting of routers by entry point models
  if and only if routers that clash in a generated name are equal there and no router takes its rule syntax
  from internal models that differ in it (`ModelApplication.FirstPassOrderFreeIff`).
- Closing a UDP session deletes its address from the listener's map, whichever session is there by then.
  A second Close is routine: the proxy handler closes each session itself and through its copy loop
  (pkg/udp/proxy.go, lines 26 and 57), and the session's own read loop closes it again at its idle
  timeout. Open sessions are always the mapped ones if and only if no deletion hits the address of another
  open session (`UdpSessions.AlwaysMappedIffHarmless`, `UdpSessions.SecondCloseOrphans`).
- Apart from the order of servers with different URLs, a merged service is the same for every order of the
  configurations if and only if its definitions agree on the fields that merging does not compare and on
  the servers they list for each URL they share (`ProviderMerge.OrderFreeIffAlike`). The list of servers
  itself follows the order of the configurations.

## Model

| member | source | states |
|---|---|---|
| `Divisibility.GcdGreatest` | pkg/tcp/wrr_load_balancer.go:184-189 | Euclid's loop gives a common divisor that every common divisor divides |
| `Divisibility.ComputeGcd` | pkg/tcp/wrr_load_balancer.go:184-189 | the loop computes that gcd |
| `Divisibility.MaxOfIsMax` | pkg/tcp/wrr_load_balancer.go:162-170 | the maximum is a weight and no weight exceeds it |
| `Divisibility.ComputeMax` | pkg/tcp/wrr_load_balancer.go:162-170 | the loop computes the maximum, -1 without servers |
| `Divisibility.GcdOfIsGcd` | pkg/tcp/wrr_load_balancer.go:172-182 | with a positive weight the folded gcd is the greatest common divisor of all weights, zeros included |
| `Divisibility.ComputeGcdOf` | pkg/tcp/wrr_load_balancer.go:172-182 | the loop computes the folded gcd, -1 without servers |
| `RoundRobin.TickAligned` | pkg/tcp/wrr_load_balancer.go:146-153 | one iteration keeps the current weight a multiple of the gcd within bounds, and a miss comes closer to a hit |
| `RoundRobin.UnitCycle` | pkg/tcp/wrr_load_balancer.go:146-158 | with gcd 1, n*max iterations from any reachable state hit each up server exactly weight times and return to the state |
| `RoundRobin.PicksAreHits` | pkg/tcp/wrr_load_balancer.go:125-160 | consecutive picks return exactly the hits of the iterations, in order |
| `RoundRobin.CycleRepeats` | pkg/tcp/wrr_load_balancer.go:146-153 | index and current weight come back after n*(max/gcd) iterations |
| `RoundRobin.Periodic` | pkg/tcp/wrr_load_balancer.go:125-160 | from the first pick on, the scheduler state repeats with every window of picks |
| `RoundRobin.FairWindow` | pkg/tcp/wrr_load_balancer.go:125-160 | from any reachable state, (sum of up weights)/gcd consecutive picks return each up server weight/gcd times and no down server, and from the first pick on the scheduler state repeats with this period |
| `RoundRobin.WindowReturns` | pkg/tcp/wrr_load_balancer.go:125-160 | one window of picks returns exactly the servers that are up with a positive weight |
| `RoundRobin.LoopExits` | pkg/tcp/wrr_load_balancer.go:146-159 | the loop exits if and only if some up server has positive weight, then within n*(max/gcd) iterations |
| `RoundRobin.LoopExitsInOneLap` | pkg/udp/wrr_load_balancer.go:107-123 | with a server of maximal weight up, the loop exits within n iterations |
| `Pools.AppendKeepsSettled` | pkg/tcp/wrr_load_balancer.go:64-74 | adding a server between picks leaves the scheduler in a state the fairness theorem covers |
| `TcpBalancer.Balancer.constructor` | pkg/tcp/wrr_load_balancer.go:41-47 | a new balancer is empty, at index -1 |
| `TcpBalancer.Balancer.Add` | pkg/tcp/wrr_load_balancer.go:64-74 | appends the server, weight 1 by default, lists it as up, and keeps the scheduler invariant |
| `TcpBalancer.Balancer.RegisterStatusUpdater` | pkg/tcp/wrr_load_balancer.go:116-123 | adds a hook, or fails without a health check configuration |
| `TcpBalancer.Balancer.NextServer` | pkg/tcp/wrr_load_balancer.go:125-160 | the two error cases, else an up server of positive weight, the state of one pick and its exact number of iterations |
| `TcpBalancer.Balancer.Spin` | pkg/tcp/wrr_load_balancer.go:146-159 | the loop with remainders refines the scheduler function |
| `TcpBalancer.PicksAreFair` | pkg/tcp/wrr_load_balancer.go:125-160 | exact weighted fairness and periodicity of every balancer, whatever its history of additions, reports and picks |
| `TcpBalancer.PickLoopExits` | pkg/tcp/wrr_load_balancer.go:129-160 | past the error returns the loop exits if and only if some listed server is up with positive weight |
| `TcpBalancer.PickLoopHangs` | pkg/tcp/wrr_load_balancer.go:125-160 | a balancer built and reported on like any other, on which no iteration of the loop ever hits |
| `Propagation.SetReaches` | pkg/tcp/wrr_load_balancer.go:77-114 | a report sets one name of its balancer, touches only the balancer and those before it, and moves every status one way |
| `Propagation.FlipAgrees` | pkg/tcp/wrr_load_balancer.go:106-113 | a balancer that flips brings every parent into agreement, even where two hooks share a slot |
| `Propagation.SetKeeps` | pkg/tcp/wrr_load_balancer.go:77-114 | a report loses no agreement of a hook with a slot of its own, and changes its slot only if the reporting balancer changes |
| `Propagation.SetUntouched` | pkg/tcp/wrr_load_balancer.go:77-114 | a balancer that nothing reports to changes only by reports to itself |
| `Propagation.BuiltOk` | pkg/server/service/tcp/service.go:57-159 | after any sequence of build steps: no cycles, every hook's balancer listed by its parent, a balancer lists something exactly when it was given something |
| `Propagation.BuiltSound` | pkg/server/service/tcp/service.go:57-159 | every build: hooks lead to earlier, checked weighted balancers and to names of their pools, and a name whose slot no child that can go down has is listed |
| `Propagation.BuiltWired` | pkg/server/service/tcp/service.go:110-151 | when children share a name only if neither can go down, the hook of every balancer that can go down has a slot of its own |
| `Propagation.SetSound` | pkg/tcp/wrr_load_balancer.go:77-114 | a report of a launched checker, with all it sets off, leaves every name listed whose slot no child that can go down has, and something up in every balancer that cannot go down |
| `Outages.Falls` | pkg/tcp/wrr_load_balancer.go:77-114 | a balancer that can go down does: some run of reports empties it, and the balancers not under it see one report that it is down and nothing else |
| `Outages.GoesDownIff` | pkg/tcp/wrr_load_balancer.go:77-114 | a balancer that was given something goes down after some run of reports, if and only if it has servers and its checker is launched, or each name of its pool is in the slot of a child that can go down |
| `Outages.LosesNameIff` | pkg/tcp/wrr_load_balancer.go:77-114 | a weighted balancer loses a name after some run of reports, if and only if a child in its slot can go down |
| `Propagation.ReportKeeps` | pkg/tcp/wrr_load_balancer.go:77-114 | a health report keeps a consistent net consistent |
| `Propagation.ConsistentIffPopulated` | pkg/server/service/tcp/service.go:57-159 | when children share a name only harmlessly: after any one run of health reports every parent lists a child exactly when the child has something up, if and only if every reporting balancer was given a server or a child |
| `Outages.AlwaysConsistentIff` | pkg/server/service/tcp/service.go:57-170 | a build is consistent after every run of reports that its launched checkers can make, if and only if every reporting balancer was given a server or a child, and two children of a checked parent share a name only if neither can go down |
| `Propagation.UpMeansLive` | pkg/tcp/wrr_load_balancer.go:77-114 | in a consistent net a balancer has a child up exactly when something below it is up |
| `Outages.SetStaysOnPath` | pkg/tcp/wrr_load_balancer.go:77-114 | when every balancer has at most one hook, a report changes only the balancer and those above it |
| `Outages.SharedSlotFails` | pkg/server/service/tcp/service.go:110-147 | whenever two children of a checked parent share a name and one of them can go down, some run of health reports leaves the net inconsistent |
| `Outages.ListedTwiceFails` | pkg/server/service/tcp/service.go:110-147 | a weighted service that lists a service twice: only the child built last is checked; it goes down and the parent forgets the other, which is up |
| `Outages.BuiltAgainStaysConsistent` | pkg/server/service/tcp/service.go:110-118 | when the service is then built once more, no child is checked any more and the net stays consistent although the names clash |
| `Outages.MalformedChildStaysUp` | pkg/server/service/tcp/service.go:75-83 | a child all of whose addresses are malformed builds, lists nothing and is listed as up for ever |
| `Outages.NeverSpins` | pkg/tcp/wrr_load_balancer.go:125-160 | a pick ends, whatever was reported, unless its balancer has a name without weight and one with, and all its names with a positive weight can go down |
| `Outages.SpinReports` | pkg/tcp/wrr_load_balancer.go:125-160 | each such balancer is led by some run of reports to where a pick does not end |
| `Outages.CanSpinIffMixed` | pkg/tcp/wrr_load_balancer.go:125-160 | with unique child names and every server checked these are the checked weighted balancers with a child of weight zero and one of positive weight |
| `TcpBalancer.Balancer.SetStatus` | pkg/tcp/wrr_load_balancer.go:77-114 | on objects: the net after the report, for any wiring without cycles |
| `TcpBalancer.Balancer.Notify` | pkg/tcp/wrr_load_balancer.go:109-113 | on objects: the net after all hooks ran, in order |
| `TcpBalancer.Create` | pkg/server/service/tcp/service.go:59-59 | on objects: a new balancer |
| `TcpBalancer.AddServer` | pkg/server/service/tcp/service.go:75-108 | on objects: a server added to a balancer |
| `TcpBalancer.AddChild` | pkg/server/service/tcp/service.go:125-147 | on objects: a child added to its parent, with a hook for a checked parent |
| `TcpBalancer.Assemble` | pkg/server/service/tcp/service.go:57-159 | a whole build on objects gives the net of its steps |
| `TcpBalancer.PickEndsIff` | pkg/tcp/wrr_load_balancer.go:125-160 | on objects: a pick ends, with an error or at a hit of its loop, exactly when the pick of its cell in the net does |
| `TcpBalancer.ChoosableIsPicked` | pkg/tcp/wrr_load_balancer.go:125-160 | on objects: the entries that a pick may return according to the net are exactly those that the next window of picks returns |
| `TcpBalancer.BuildAndReport` | pkg/tcp/wrr_load_balancer.go:64-123 | a build and a run of reports on objects gives the net of both; when children share names only harmlessly it is consistent if and only if populated, and when either fails some run of reports of the launched checkers is inconsistent |
| `Interleaving.StepKeepsLocks` | pkg/tcp/wrr_load_balancer.go:50-160 | in every net that can be built, every lock-sized step keeps: locks of one propagation lead from child to parent, only balancers that can go down have a flip to report, no lock is taken by a report and a pick, and connections are only where entries of positive weight lead from a router |
| `Interleaving.StepKeepsInv` | pkg/tcp/wrr_load_balancer.go:77-160 | and, where children share names only harmlessly, a parent lists a child as it was before a flip it has not been told of |
| `Interleaving.AgreesWhenFree` | pkg/tcp/wrr_load_balancer.go:77-160 | in every interleaving of reports and picks, every hook whose child's lock is free agrees with its parent; with no report under way the net is consistent |
| `Interleaving.ReportAlone` | pkg/tcp/wrr_load_balancer.go:77-114 | the steps of a report that nothing interrupts lead to the net of the recursive `Set` |
| `Interleaving.RestsConsistentIff` | pkg/server/service/tcp/service.go:57-170 | every interleaving that ends with no report under way ends consistent, under exactly the same condition on the build as for reports one after the other |
| `Interleaving.NoDeadlock` | pkg/tcp/wrr_load_balancer.go:77-160 | unless a pick spins: while some lock is taken, some goroutine that has one can go on |
| `Interleaving.ReportsEnd` | pkg/tcp/wrr_load_balancer.go:77-160 | without new reports and picks the goroutines take a bounded number of steps, and unless a pick spins they stop only when no lock is taken |
| `Interleaving.SpinsForever` | pkg/tcp/wrr_load_balancer.go:125-160 | a pick whose loop does not end keeps the lock of its balancer in every continuation |
| `Interleaving.BlockedForever` | pkg/tcp/wrr_load_balancer.go:77-114 | a report that waits for the lock of such a balancer waits in every continuation, and keeps its own |
| `Interleaving.CanRestIff` | pkg/tcp/wrr_load_balancer.go:77-160 | all locks can be given back if and only if no pick spins |
| `Connections.Travel` | pkg/tcp/wrr_load_balancer.go:50-61 | before any report, a connection can be brought to every balancer to which entries of positive weight lead from a router |
| `Connections.AllEnd` | pkg/tcp/wrr_load_balancer.go:50-160 | without such balancers that can spin, and without new reports and connections, the goroutines take a bounded number of steps, and stop only when no lock is taken and every connection has got a server or an error |
| `Connections.SpinReached` | pkg/tcp/wrr_load_balancer.go:50-160 | a connection that can be handed to a balancer that can spin does spin there in some run |
| `Connections.ComesToRestIff` | pkg/tcp/wrr_load_balancer.go:50-160 | for every build: every interleaving of reports and connections can come to an end, with no lock taken and with no connection waiting, if and only if no balancer to which entries of positive weight lead from a router has a name without weight next to names of positive weight that can all go down |
| `Connections.SpinningPickBlocks` | pkg/tcp/wrr_load_balancer.go:77-160 | a run of a build with unique names: the child with weight goes down, a pick at the parent spins, and the next report that the child is up is blocked |
| `Connections.ShieldedComesToRest` | pkg/tcp/wrr_load_balancer.go:50-160 | a build with a balancer that can spin behind an entry of weight zero: every interleaving can come to an end |
| `Connections.ListsWhatWasSaid` | pkg/tcp/wrr_load_balancer.go:77-114 | in every interleaving, a balancer whose checker is launched lists exactly the servers that the checker did not last report down |
| `Connections.PicksHeedIff` | pkg/server/service/tcp/service.go:110-118 | for every build: no pick of any interleaving returns a server that the checker of its service name last reported down, if and only if that checker reports to every balancer that a connection can be handed to and that has one of the servers it reports on |
| `Connections.PicksHeedIffWatched` | pkg/server/service/tcp/service.go:110-118 | where each name stands for one service, this is so if and only if the checker of every checked balancer with servers that a connection can be handed to is launched |
| `Connections.TwoRoutersFail` | pkg/server/router/tcp/manager.go:410-429 | two routers on one checked service: a run in which a connection of the first gets a server that the checker last reported down |
| `UdpBalancer.Balancer.constructor` | pkg/udp/wrr_load_balancer.go:25-29 | a new balancer is empty, at index -1 |
| `UdpBalancer.Balancer.AddWeightedServer` | pkg/udp/wrr_load_balancer.go:53-62 | appends the server, weight 1 by default, and keeps the scheduler invariant |
| `UdpBalancer.Balancer.NextServer` | pkg/udp/wrr_load_balancer.go:93-124 | the two error cases, else the pick of the all-up wheel, within as many iterations as servers |
| `UdpBalancer.Balancer.Spin` | pkg/udp/wrr_load_balancer.go:107-123 | the loop refines the scheduler function |
| `UdpBalancer.PicksAreFair` | pkg/udp/wrr_load_balancer.go:93-124 | exact weighted fairness and periodicity, with every server up |
| `Watcher.ListenersSeeLatestViews` | pkg/server/configurationwatcher.go:94-187 | every set given to listeners is the transformed latest-per-provider view of a prefix of the messages, has the required provider, differs from the one before; prefixes strictly grow |
| `Watcher.QuiescentMeansConverged` | pkg/server/configurationwatcher.go:94-187 | when nothing is queued, armed or held, the last applied set is the view of everything received |
| `Watcher.InternalStepUsesWork` | pkg/server/configurationwatcher.go:100-151 | every step of the two goroutines uses up work, and only a quiescent state has no step left |
| `Watcher.InternalRunBounded` | pkg/server/configurationwatcher.go:100-186 | without new messages the goroutines take a bounded number of steps |
| `Watcher.InternalRunReceives` | pkg/server/configurationwatcher.go:112-115 | the receiver takes the queued messages in order and loses none |
| `Watcher.NothingIsLost` | pkg/server/configurationwatcher.go:94-187 | once providers stop, the goroutines come to rest with the view of all published messages applied |
| `HealthCheck.TargetsAreConserved` | pkg/healthcheck/healthcheck.go:110-210 | in every interleaving each target is in exactly one queue, batch or hand (at most one after cancellation); the workers never hold the same one; a drain ends within n receives |
| `HealthCheck.RequeueNeverBlocks` | pkg/healthcheck/healthcheck.go:193-200 | no requeue ever blocks on the capacity of a queue |
| `HealthCheck.QueuesMatchStatus` | pkg/healthcheck/healthcheck_tcp.go:128-160 | a target in the healthy queue is up in the balancer, one in the unhealthy queue is down |
| `HealthCheck.SchedulerStaysSettled` | pkg/tcp/wrr_load_balancer.go:125-160 | along every run the scheduler of the checked balancer stands where picks leave it |
| `HealthCheck.PicksWhileSomeUp` | pkg/tcp/wrr_load_balancer.go:125-160 | the balancer of a checker, whose servers may list an address twice, can pick exactly while some target is up |
| `HealthCheck.NoPickWhileDown` | pkg/healthcheck/healthcheck_tcp.go:137-160 | no pick of the scheduler returns a target between its down report and its next up report |
| `PassiveHealth.CutsTheOld` | pkg/healthcheck/healthcheck.go:446-453 | with the newest failure inside the window, what is left is exactly the failures inside it |
| `PassiveHealth.DroppedAndKept` | pkg/healthcheck/healthcheck.go:387-457 | in every interleaving of requests what was cut off and what is kept make up all failures since the last success, and a look never empties the list |
| `PassiveHealth.DroppedIffForgot` | pkg/healthcheck/healthcheck.go:440-453 | a failure inside a window has been cut off exactly when a look with a later window did so since the last success, a newer failure staying |
| `PassiveHealth.CountIsExact` | pkg/healthcheck/healthcheck.go:387-457 | in every interleaving of requests the truncated list counts like the full history if and only if there was no failure since the last success, or the newest is inside the window and no look with a later window has cut off one inside |
| `PassiveHealth.VerdictRefines` | pkg/healthcheck/healthcheck.go:440-457 | with window starts that do not go back and the newest failure inside: unhealthy if and only if the failures since the last success inside the window reach the maximum |
| `PassiveHealth.OwnFailureJudged` | pkg/healthcheck/healthcheck.go:394-400 | a request that judges the target within the window of its own failure, whatever others did in between, counts like the full history unless one of them cut off a failure inside its window |
| `PassiveHealth.CountIsOff` | pkg/healthcheck/healthcheck.go:446-456 | the list is short by exactly what was cut off inside the window; when all failures are too old the history counts none but the checker all it kept |
| `PassiveHealth.OneOldFailure` | pkg/healthcheck/healthcheck.go:446-456 | the case of one old failure |
| `PassiveHealth.StaleVerdict` | pkg/healthcheck/healthcheck.go:394-400 | a recorded failure judged after the window has passed makes the target unhealthy |
| `PassiveHealth.OverlappingVerdict` | pkg/healthcheck/healthcheck.go:394-457 | two requests that overlap: the one that read its clock first finds the target healthy although as many failures as the maximum are inside its window |
| `PassiveHealth.FirstInside` | pkg/healthcheck/healthcheck.go:447-453 | the loop finds where the list is cut |
| `PassiveHealth.Checker.constructor` | pkg/healthcheck/healthcheck.go:356-366 | a new checker has no events at any target |
| `PassiveHealth.Checker.RecordSuccess` | pkg/healthcheck/healthcheck.go:387-392 | a success becomes the latest event of its target and no other |
| `PassiveHealth.Checker.RecordFailure` | pkg/healthcheck/healthcheck.go:394-396 | a failure becomes the latest event of its target and no other |
| `PassiveHealth.Checker.Healthy` | pkg/healthcheck/healthcheck.go:440-457 | the verdict, its agreement with the full history when the count is exact, and the look as an event |
| `PathNormalization.Normalize` | pkg/server/server_entrypoint_tcp.go:842-878 | on bytes: the loop computes the normal form, or fails on a truncated triplet |
| `PathNormalization.WellFormedTriplets` | pkg/server/server_entrypoint_tcp.go:861-866 | every well-formed path has only ASCII triplets, as the loop needs |
| `PathNormalization.TableIsSection23` | pkg/server/server_entrypoint_tcp.go:820-837 | the table holds exactly the unreserved octets of section 2.3 of RFC 3986 |
| `PathNormalization.NormalizedIsRendering` | pkg/server/server_entrypoint_tcp.go:842-878 | the normal form is the rendering of what the path reads as, with bytes that are not ASCII written as characters |
| `PathNormalization.ReadRender` | pkg/server/server_entrypoint_tcp.go:842-878 | reading a rendering gives the tokens back |
| `PathNormalization.WidenInjective` | pkg/server/server_entrypoint_tcp.go:856-859 | writing bytes as characters confuses no two paths |
| `PathNormalization.NormalFormIsCanonical` | pkg/server/server_entrypoint_tcp.go:842-878 | two well-formed paths, of any bytes, normalise alike if and only if they read as the same tokens |
| `PathNormalization.NormalFormDecodesAlike` | pkg/server/server_entrypoint_tcp.go:842-878 | the normal form is well-formed, and percent-decodes to the same octets if and only if the path is ASCII |
| `PathNormalization.PassDoubles` | pkg/server/server_entrypoint_tcp.go:855-876 | each pass doubles the bytes that are not ASCII |
| `PathNormalization.NormalizeTwice` | pkg/server/server_entrypoint_tcp.go:842-878 | normalising an accepted path twice changes nothing if and only if the path is ASCII |
| `Rules.InvertedNegates` | pkg/rules/parser.go:79-94 | an inverted tree evaluates to the negation, under every valuation |
| `Rules.InvertedTwice` | pkg/rules/parser.go:79-94 | inversion is an involution |
| `Rules.CompilationPreservesMeaning` | pkg/rules/parser.go:59-100 | the compiled tree evaluates like the expression under every valuation |
| `Rules.InversionKeepsArguments` | pkg/rules/parser.go:79-114 | inversion leaves the collected arguments alone |
| `Rules.ArgumentsIgnoreNegation` | pkg/rules/parser.go:103-114 | an expression and the same without its nots yield the same arguments |
| `Rules.Invert` | pkg/rules/parser.go:79-94 | the in-place inversion gives the inverted tree, with negation on leaves only and every object in place |
| `Rules.InvertChildren` | pkg/rules/parser.go:83-88 | inverting one child in place does not disturb the other |
| `Rules.ParseMatchers` | pkg/rules/parser.go:103-114 | collects the lower-cased arguments of the chosen matchers, left to right |
| `Rules.LowerAll` | pkg/rules/parser.go:131-138 | lower-cases every value, in order |
| `Rules.Build` | pkg/rules/parser.go:59-100 | the builders return the compiled tree, made of fresh objects none of which occurs twice |
| `Certificates.MatchDomain` | pkg/tls/certificate_store.go:273-292 | true exactly when the names are equal or the pattern, without trailing dots, stars some leading labels of the name |
| `Certificates.FewerStarsIsGreater` | pkg/tls/certificate_store.go:113-122 | of two patterns that match a name whose labels keep their rank, the one that stars fewer labels is the greater string |
| `Certificates.GreatestIsMostSpecific` | pkg/tls/certificate_store.go:113-122 | picking the lexicographic maximum picks a most specific pattern |
| `Certificates.ExactIsMostSpecific` | pkg/tls/certificate_store.go:104-122 | a certificate with the name itself is most specific |
| `Certificates.CachedByDomains` | pkg/tls/certificate_store.go:145-172 | what the lookup by domains caches under a proper name is right for the lookup by name |
| `Certificates.ProperIsAlwaysRight` | pkg/tls/certificate_store.go:89-172 | whatever certificates there are, whatever either lookup may answer or cache for a proper name is most specific |
| `Certificates.Store.constructor` | pkg/tls/certificate_store.go:24-42 | a new store has an empty cache |
| `Certificates.Store.ResetCache` | pkg/tls/certificate_store.go:178-183 | empties the cache |
| `Certificates.Store.Evict` | pkg/tls/certificate_store.go:38-38 | dropping any entry, as its expiry does, keeps the cache right |
| `Certificates.Store.MatchedCerts` | pkg/tls/certificate_store.go:102-111 | finds exactly the matching patterns, each with a certificate that bears it |
| `Certificates.Store.AddMatches` | pkg/tls/certificate_store.go:105-109 | adds exactly the matching patterns of one certificate |
| `Certificates.Store.Greatest` | pkg/tls/certificate_store.go:114-122 | sorting the keys and taking the last gives the greatest pattern |
| `Certificates.Store.GetBestCertificate` | pkg/tls/certificate_store.go:89-136 | cached or not, a most specific certificate for proper names and for all others that are always answered right; none only if nothing matches; the cache keeps only possible answers |
| `Certificates.Store.CountMatches` | pkg/tls/certificate_store.go:159-166 | counts the pairs of equal names |
| `Certificates.Store.GetCertificate` | pkg/tls/certificate_store.go:140-176 | a cached answer or a covering certificate; none only if nothing covers; the shared cache stays right |
| `Certificates.AppendCertificate` | pkg/tls/certificate_store.go:207-230 | every entry there stays, and a store can then match exactly the patterns in the certificate's key besides those it could before |
| `Certificates.LoadCertificates` | pkg/tls/tlsmanager.go:128-174 | a store knows a pattern exactly when a certificate configured for it, or for no store if it is the default one, has it in its key; the patterns are the names when there are some and none has a comma |
| `Certificates.CommaAlwaysRightIff` | pkg/tls/certificate_store.go:89-172 | for every name with a comma, with non-empty labels above the star: it is always answered right if and only if one of its comma-separated parts matches it and it does not read like a sorted list of several domains one of which has no comma |
| `Certificates.NoPartMisleads` | pkg/tls/certificate_store.go:145-172 | every name none of whose parts matches it can be answered with a certificate that does not match it |
| `Certificates.ReadsMisleads` | pkg/tls/certificate_store.go:156-171 | so can every name that reads like such a list |
| `Certificates.MisledByCache` | pkg/tls/certificate_store.go:89-172 | in each such case a run of the two lookups ends with that answer although nothing matches |
| `Certificates.UnrankedLoses` | pkg/tls/certificate_store.go:113-122 | for every label that sorts below a star or what may follow one there are two certificates of which the scan picks the less specific |
| `Certificates.WildFirstLoses` | pkg/tls/certificate_store.go:273-292 | for every name whose first label is a star, the scan prefers the name with a trailing dot to the name itself |
| `Certificates.ChoiceIsRightIffProper` | pkg/tls/certificate_store.go:102-122 | for every name without commas and trailing dot: the scan is most specific for every set of certificates if and only if the first label is not a star and every label is empty, a star, above the star, or a star followed by a character above the dot |
| `Certificates.PlainAlwaysRightIff` | pkg/tls/certificate_store.go:89-172 | the same condition is exact for all answers, cached or not |
| `Aggregator.PlainProvidersUnambiguous` | pkg/server/provider/provider.go:42-45 | provider names without "@" make qualified names injective |
| `Aggregator.AmbiguousProviders` | pkg/server/provider/provider.go:42-45 | a provider name with "@" can make two names collide |
| `Aggregator.ContributionsDisjoint` | pkg/server/aggregator.go:46-155 | no two providers contribute under one name |
| `Aggregator.MergeResources` | pkg/server/aggregator.go:47-125 | one provider's resources, in any order, add its contribution: qualified names, default entry points, qualified parents |
| `Aggregator.MergeCertificates` | pkg/server/aggregator.go:128-134 | appends the certificates except ACME challenge ones of other providers |
| `Aggregator.MergeProvider` | pkg/server/aggregator.go:46-155 | one round of the loop over providers |
| `Aggregator.VisitedIsMerged` | pkg/server/aggregator.go:46-155 | any order of visits gives the union of the contributions visited, where they agree |
| `Aggregator.MergeConfiguration` | pkg/server/aggregator.go:16-172 | the result of some order of visits; where providers that qualify to one name agree, the order-free merge: union of resources, certificates as a multiset, default entries |
| `Aggregator.DefaultsExist` | pkg/server/aggregator.go:157-169 | default TLS options exist if and only if at most one provider defines them, a default store if and only if exactly one does |
| `Aggregator.MergeIsOrderIndependent` | pkg/server/aggregator.go:44-171 | two order-free merges of the same providers agree, certificates as multisets |
| `Aggregator.OrderFreeIffAgreeing` | pkg/server/aggregator.go:44-171 | the merge is the same for every order of visits if and only if providers that qualify to the same name agree on the resource |
| `Aggregator.PlainProvidersOrderFree` | pkg/server/aggregator.go:44-171 | so it is when no provider name has an "@" |
| `ModelApplication.SplitRouter` | pkg/server/aggregator.go:199-253 | one router per modelled entry point, one for the others, and the generated names |
| `ModelApplication.ChooseSyntax` | pkg/server/aggregator.go:188-197 | the router's own rule syntax, or that of some internal model |
| `ModelApplication.SplitRouters` | pkg/server/aggregator.go:179-254 | every router is replaced by its part, a later part over an earlier one: a result the first pass may have for some order of routers and models; without clashes all parts are there |
| `ModelApplication.EntryPointKeepsSettings` | pkg/server/aggregator.go:199-253 | at every entry point of a root router a request meets a router with its service, rule, own settings and own middlewares |
| `ModelApplication.ClashesDecide` | pkg/server/aggregator.go:179-254 | given the rule syntax of every router, the result of the first pass is the same for every order of routers if and only if routers that clash in a name put the same router there |
| `ModelApplication.FirstPassOrderFreeIff` | pkg/server/aggregator.go:179-254 | the first pass gives the same for every order of routers and models if and only if no router takes its rule syntax from internal models that differ in it, and clashing routers put the same router there |
| `ModelApplication.ClashLosesRouter` | pkg/server/aggregator.go:241-247 | where two routers clash with different values, the entry points a root router has there are served, if at all, by the other's routers |
| `ModelApplication.RewriteRefs` | pkg/server/aggregator.go:261-271 | the new references of one child |
| `ModelApplication.RewriteAll` | pkg/server/aggregator.go:256-274 | references are rewritten in any order, nothing else changes |
| `ModelApplication.ApplyModel` | pkg/server/aggregator.go:174-277 | both passes; without models nothing changes; without clashes all parts are there |
| `ModelApplication.EntryPointsArePartitioned` | pkg/server/aggregator.go:199-253 | a root router's entry points are exactly partitioned among the routers derived from it |
| `ModelApplication.NoEntryPointsNoRouter` | pkg/server/aggregator.go:199-253 | a root router without entry points disappears |
| `ModelApplication.RefsNameOutputs` | pkg/server/aggregator.go:256-274 | every rewritten reference names an output router |
| `ModelApplication.RefsCoverEntryPoints` | pkg/server/aggregator.go:256-274 | a child's new references cover every entry point of each original root parent |
| `ProviderMerge.ServersLoadBalancer.constructor` | pkg/config/dynamic/http_config.go:360-376 | a balancer with its servers and its other settings |
| `ProviderMerge.ServersLoadBalancer.Mergeable` | pkg/config/dynamic/http_config.go:409-423 | compares all settings but the servers and restores both lists |
| `ProviderMerge.ServersLoadBalancer.Merge` | pkg/config/dynamic/http_config.go:380-398 | succeeds exactly for equal settings; then the URLs are the union, servers already there stay first; else nothing changes |
| `ProviderMerge.TryMergeMerges` | pkg/provider/merge.go:177-203 | a merge succeeds exactly for compatible definitions, unites server URLs and stays compatible with the same definitions |
| `ProviderMerge.CompatibleIsEquivalence` | pkg/config/dynamic/http_config.go:74-80 | compatibility is an equivalence |
| `ProviderMerge.Define` | pkg/provider/merge.go:150-172 | one definition under either strategy |
| `ProviderMerge.KeptNext` | pkg/provider/merge.go:150-172 | slots of one source map do not affect each other |
| `ProviderMerge.MergeResourceMap` | pkg/provider/merge.go:141-173 | a source map in any order of keys: what is kept and what is marked |
| `ProviderMerge.SurvivorsAreAgreed` | pkg/provider/merge.go:64-218 | a key survives exactly when it is defined and all its definitions are mutually compatible; its URLs are then those of all definitions |
| `ProviderMerge.SlotIsOrderIndependent` | pkg/provider/merge.go:64-218 | survival and server URLs depend only on which maps are merged |
| `ProviderMerge.MergeIsOrderIndependent` | pkg/provider/merge.go:64-264 | merged results of permuted configurations have the same keys, the same server URLs, the same certificates and the same stores for each certificate |
| `ProviderMerge.FirstDefinitionsDecide` | pkg/config/dynamic/http_config.go:74-80 | a survivor has the uncompared fields of its first definition and, for each URL, the servers of the first definition that has it |
| `ProviderMerge.OrderFreeIffAlike` | pkg/config/dynamic/http_config.go:380-398 | a survivor is the same service for every order if and only if its definitions agree on the uncompared fields and on their servers for each shared URL |
| `ProviderMerge.DisagreementDependsOnOrder` | pkg/config/dynamic/http_config.go:380-398 | any two definitions that merge but do not so agree give a result that depends on the order |
| `ProviderMerge.RepeatedUrlsAreNotAlike` | pkg/config/dynamic/http_config.go:386-394 | a URL listed once and one listed twice is such a case |
| `ProviderMerge.FirstWins` | pkg/provider/merge.go:164-171 | skipping duplicates keeps the first definition of every key and deletes nothing |
| `ProviderMerge.MergeStores` | pkg/provider/merge.go:250-264 | the union of two store lists, the first unchanged in front, without new duplicates |
| `ProviderMerge.MergeCertificate` | pkg/provider/merge.go:222-244 | one certificate merged, skipped or appended |
| `ProviderMerge.MergeCertificates` | pkg/provider/merge.go:221-247 | merging unites the certificate-to-store relations; skipping keeps the stores of the first mention |
| `ProviderMerge.Merge` | pkg/provider/merge.go:64-109 | the loop over configurations computes the survivors, keeps every certificate, and under each strategy the stores of each |
| `UdpSessions.ChannelIsSafe` | pkg/udp/conn.go:106-192 | in every run the accept channel is closed at most once, never sent on after that, and hands out each session once, in order |
| `UdpSessions.NoSessionAfterShutdown` | pkg/udp/conn.go:106-113 | once Shutdown has begun no session is added |
| `UdpSessions.ReadsAreInOrder` | pkg/udp/conn.go:227-305 | after k Reads the first k datagrams were returned, each cut to its buffer, the rest is queued; an open session has received all that was routed to it but the one in hand |
| `UdpSessions.MappedUnlessEvicted` | pkg/udp/conn.go:174-192 | in every run an open session is the one in the map for its address if and only if no Close deleted that address while it was |
| `UdpSessions.OpenMappedIffEvictedClosed` | pkg/udp/conn.go:253-260 | all open sessions are mapped if and only if every session so evicted has been closed |
| `UdpSessions.RemoveKeepsMapped` | pkg/udp/conn.go:256-258 | one deletion keeps open sessions mapped if and only if the address is free or belongs to a closed session |
| `UdpSessions.AlwaysMappedIffHarmless` | pkg/udp/conn.go:253-260 | open sessions are mapped all along a run if and only if every deletion of the run is harmless |
| `UdpSessions.OpenAfterCloseWasEvicted` | pkg/udp/conn.go:132-142 | a session still open after the listener is closed was evicted before |
| `UdpSessions.SecondCloseOrphans` | pkg/udp/conn.go:253-260 | a run with a second Close that ends with the listener closed and a session open |
| `OcspCache.Stapler.constructor` | pkg/tls/ocsp.go:38-45 | a new stapler has an empty cache |
| `OcspCache.RunDecides` | pkg/tls/ocsp.go:75-127 | after any run the cache holds for every key what the history of updates, cleanings and fetches says |
| `OcspCache.Stapler.GetStaple` | pkg/tls/ocsp.go:75-82 | an answer exactly when the latest update loaded the key or an update dropped it at most a day ago; it is the latest staple fetched for its entry |
| `OcspCache.Stapler.Upsert` | pkg/tls/ocsp.go:86-113 | an error without OCSP server, else a live entry loses its deadline or a new one is made with overridden responders |
| `OcspCache.Stapler.ResetTTL` | pkg/tls/ocsp.go:119-127 | entries without deadline get one, other deadlines stay |
| `OcspCache.Stapler.UpdateConfigs` | pkg/tls/tlsmanager.go:122-160 | an update resets all deadlines, then loads what is configured, and becomes part of the history |
| `OcspCache.Stapler.StoreStaple` | pkg/tls/ocsp.go:129-194 | a staple reaches the entry that its fetch began with, if that is still there, and becomes part of the history |
| `OcspCache.MadeLater` | pkg/tls/ocsp.go:91-112 | a key loaded again after it expired has a new entry, which a staple fetched for the old one does not reach |
| `OcspCache.Stapler.DeleteExpired` | pkg/tls/ocsp.go:41-41 | the cleaning of expired entries becomes part of the history |
| `OcspCache.LoadedKeys` | pkg/tls/tlsmanager.go:128-160 | what loading certificates does to one key |
| `OcspCache.UpdateSetsDeadlines` | pkg/tls/tlsmanager.go:122-160 | after an update the entries without deadline are those it loaded; others keep their deadline or get a day; a live entry keeps its staple |
| `OcspCache.PermanentIsLatest` | pkg/tls/ocsp.go:86-127 | after any run the entries without deadline are exactly those of the latest update |
| `OcspCache.DroppedUntilDeadline` | pkg/tls/ocsp.go:115-127 | a dropped entry is served up to its first deadline and no longer, whatever later updates drop it again |
| `OcspCache.ResuppliedKeepsStaple` | pkg/tls/ocsp.go:91-94 | a certificate supplied again keeps its staple exactly when that happens within a day of being dropped |

## Left out

- NextServer: the TCP pick requires that, past its error returns, some up server has positive weight; otherwise the loop of the source does not exit, which `PickLoopExits` states.
- Normalize: triplets with bytes that are not ASCII are not modelled, since the library accepts no such path; neither is the path cleaning that follows.
- MergeConfiguration: qualified names are the resource name, "@" and the provider name; sharing of pointers is not modelled.
- ApplyModel: the TCP half and the default observability model are not modelled; how a child's references are rewritten is related to entry points only without clashes.
- Build: requires that no matcher is named "and" or "or"; parsing the rule text and the library behind it are not modelled.
- RecordFailure: times come from a clock that does not go back, read under the lock as in the source.
- Healthy: the setting of statuses and the recovery timers are not modelled; a timer is stored from the goroutine it starts, so "at most one timer for each target" does not hold in every interleaving.
- AlwaysConsistentIff: assumes that no balancer is attached to a parent twice, since the builder makes a new one for every mention of a service (pkg/server/service/tcp/service.go, line 126); the same holds for GoesDownIff, RestsConsistentIff and ComesToRestIff. A service whose build fails gets no checker, like one without a health check, and no router has it.
- ComesToRestIff: a pick may return any entry that is up with a positive weight; which one the scheduler returns next is in `NextServer`, and `ChoosableIsPicked` relates the two. Connections that their clients close early go on to the end of their pick.
- ChoiceIsRightIffProper: names that end in a dot are not covered; TLS does not allow them as server names.
- CommaAlwaysRightIff: names with a comma and a label that is empty or does not start above a star are not covered, except by NoPartMisleads.
- GetCertificate: its cached answers may differ from a fresh scan, since the cache is shared with wildcard answers; only its effect on `GetBestCertificate` is proved.
- GetBestCertificate: lower-casing of the server name, the fallback to the local address and the staple attached to the answer are not modelled.
- UpdateConfigs: one clock reading stands for the whole update; the stores and TLS options it also builds are not modelled.
- ParseMatchers: lower-casing is an arbitrary function of the value.
- MergeResourceMap: sharing of pointers between the merged and the source configurations is not modelled; resources are values.
- ChannelIsSafe: whether each blocking send on the accept channel eventually completes is not modelled.
- Negative weights: weights are natural numbers.
- The methods that add servers run as one step each, as the balancer's mutex makes them; servers are added before connections arrive.
- Closing the watcher's channels on Stop, and cancellation of its goroutines.
- The server status shown in the API, which is written after a target is requeued and may lag behind.
- The idle timeout of UDP sessions: a session may be closed at any time.
- The TCP and UDP Merge methods in pkg/config/dynamic, which repeat the HTTP one.
- Sockets, TLS handshakes, x509 parsing, probes, the network fetch of staples, file reading, logging and metrics.
- API handlers, dashboard, plugins, command line, static configuration, access logs and HTTP middlewares.
