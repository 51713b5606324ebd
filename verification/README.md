# Verified model of the v2rayE backend

A Dafny model of the parts of `backend-go` where state, text formats and
concurrency meet, with proofs about every input, every run or every reachable
state. `dafny verify dfyconfig.toml` checks the project.

| files | what they model |
|---|---|
| `Address`, `AddressTexts`, `PolicyRules`, `RuleTable`, `PolicyPlan`, `PolicyMeaning`, `PolicyRouting`, `PolicyDesired`, `PolicyRebuild`, `PolicyOwned` | TUN policy routing: what the bypass list holds, its rules in a bounded priority window, `ip rule show` text printed and parsed, which rules count as the service's own, clearing, comparing, rebuilding once and again, and where packets go |
| `Lifecycle`, `LifecycleProof`, `LifecycleJobs`, `LifecycleOutcomes`, `LifecycleRestarts` | start, stop, restart, watchdog, reconciliation and spontaneous core death as threads of a step machine over `coreOpMu`, `switchMu` and `mu`; what each kind of job does over every run, and what each operation comes to when nothing interrupts it |
| `Restart`, `Watchdog` | the delays of the watchdog and the restore on boot; the chain of starts that follows a crash |
| `Streams`, `Nonce`, `Shadowsocks`, `ShadowsocksWire`, `WebSocket`, `WebSocketEnd`, `Socks` | the embedded stream codecs: counter nonces, AEAD chunks, frames of RFC 6455 and how a stream of them ends, addresses of RFC 1928; the bytes on the wire |
| `RoutingRules`, `RoutingTest`, `RoutingGuards`, `RoutingMatches`, `RoutingLayers` | the routing rule compiler, the two-pass simulator, what one rule means, and what the layers of the compiled list decide |
| `Store`, `StoreMeaning` | normalisation of the configuration map, what it says setting by setting, and the cache in front of its file |
| `RouteText`, `Takeover`, `TakeoverHints` | taking over the default route and giving it back, with route lines as text, and what is noted for later |
| `Profiles` | deduplication of imported profiles |
| `Options`, `Numbers`, `Text` | options; shared arithmetic; strings as Go's `strings` and `strconv` treat them |

How the source's parts appear:

* Objects that methods update are classes (`Kernel`, `BypassBuilder`, `TunPolicy`,
  both `Conn` classes, `Wire`, `ConfigStore`, `Routing`, the watchdog's
  `Service`); loops are methods with
  invariants; each is proved equal to a function of the inputs or the old state,
  and the laws are lemmas about those functions.
* The kernel is an ordered rule table for each family, with `ip rule add` (a
  duplicate is refused), `ip rule del priority` (the first rule of the slot) and
  `ip rule show` (host prefixes without a length, zero-length destinations not at
  all), and a table of default routes keyed by metric.
* Each critical section of `mu` and each external command is one atomic step;
  `coreOpMu` and `switchMu` are held across steps. Outcomes of commands and values
  of settings are choices of the environment.
* AEAD sealing, DNS lookup, CIDR and geo membership, random masks and the text form
  of IPv6 addresses are arbitrary functions, with the laws that are needed as
  preconditions (`Sound`, `Faithful`).

Places where the code does not do what one would expect, each with the exact
condition:

* From any table, repeated rebuilds of a list without zero-length entries arrive where
  the whole plan is in place, nothing is stale and missing is what lies beyond the 998th
  entry (`PolicyRebuild.RebuildsConverge`, `PolicyRebuild.InPlaceMeans`).
* The comparison looks at bypass targets only, so it can be clean while the mark or the
  catch-all rule is not there. A foreign rule that stood in the slot of a bypass is
  deleted in its place; the installation then aborts at that bypass, the catch-all is
  gone, no packet goes into the device, and no later tick repairs it
  (`PolicyRebuild.CleanWithoutCatchAll`, `PolicyRebuild.TicksSettle`). A rebuild leaves the
  plan in force exactly if every rule that its installation did not reach survived the
  clearing (`PolicyRebuild.RebuiltInForceIff`).
* An entry of length zero is never found installed, so a list with one is never found
  clean (`PolicyRebuild.ZeroLengthNeverSettles`); once installed, its rule is not
  recognised, and no rebuild of that list goes through again
  (`PolicyRebuild.ReinstallableIff`, `PolicyRebuild.ZeroLengthStopsRebuilds`, with the IPv4
  list of 0.0.0.0/0 in `PolicyRebuild.EverythingInstallsOnce`).
* The comment at service.go:2905-2909 says that clearing deletes only what the
  service owns. The deletion is by slot: it is an ownership filter exactly if no
  foreign rule stands before a managed one in the same slot, and otherwise costs one
  foreign rule for each managed one that it leaves (`RuleTable.ClearedIsForeignIff`,
  `RuleTable.ClearCostsForeign`, `PolicyMeaning.InstallThenClear`).
* A start that commits resets the retry counter, ready or not (service.go:247). Without
  a commit a crash is followed by exactly as many starts as the limit leaves
  (`Watchdog.AllFailed`); if every start comes up degraded there is no end to them, with
  any limit but one, and with a limit of one exactly if a tick always falls before the
  result is seen (`Watchdog.DegradedEndlessIff`); if the core always dies at once there
  is none with any limit (`Watchdog.DyingIsEndless`).
* Managed rules that a killed process leaves in the kernel stay until a step clears
  them: creating the service does not (`LifecycleProof.NoOrphanedRules`,
  `LifecycleProof.RulesLeftAtBoot`).
* The boot delays are min(max, base * 2^k) exactly if doubling reaches the maximum
  before 64 bits overflow (`Restart.BootDelayClosedFormIff`).
* An empty WebSocket data frame reads as end of file, and only that one
  (`WebSocket.EmptyFrameReadsAsEndIff`).
* Whatever arrives together with the upgrade response is read undecoded: with whole
  frames the stream is right exactly if there are none, and with a frame cut in two at
  most by coincidence (`WebSocket.BufferedFramesReadRawIff`,
  `WebSocket.BufferedPrefixReadsRaw`).
* A port rule with more than one value never matches in the simulator, and the
  "tcp,udp" rule of direct mode matches only that literal protocol
  (`RoutingGuards.PortRuleMatchesIff`, `RoutingGuards.DirectModeIsDirect`).
* After SaveConfig the cache agrees with the file exactly if the normalised map has
  every default key (`Store.SaveIsCoherentIff`, `Store.SavedMapIsCompleteIff`).
* Two takeovers of the default route before one restore forget the displaced
  metric-0 route exactly if there was another default route beside it
  (`Takeover.TwiceTakenIff`), with or without a restart, and with one that loses the
  device.

## Model

| member | source | states |
|---|---|---|
| Address.PrefixRoundTrip | backend-go/internal/service/native/service.go:2861-2881 | the canonical text of every valid prefix of a family parses back to that prefix |
| Address.PrefixTextInjective | backend-go/internal/service/native/service.go:2861-2881 | different prefixes have different texts, so comparing texts compares prefixes |
| Address.KernelPrefixRoundTrip | backend-go/internal/service/native/service.go:3156-3179 | the kernel's text of a prefix, where a host has no length, reads back as the same prefix |
| Address.V4IsFaithful | backend-go/internal/service/native/service.go:3346-3370 | dotted-decimal IPv4 meets the assumptions on an address format: print and parse are inverse and print without separators |
| AddressTexts.CandidateIff | backend-go/internal/service/native/service.go:2861-2881 | a candidate stands for a prefix if and only if, without the white space around it and not being a URL, it is an address with a decimal length within the family and without leading zeros, or an address alone, which stands for its full-length prefix |
| AddressTexts.V4ParsesIff | backend-go/internal/service/native/service.go:2861-2881 | the only text that reads as an IPv4 address is the one it prints as |
| PolicyRules.LineFields | backend-go/internal/service/native/service.go:3185-3204 | the fields of a printed rule line are its label and selectors, token by token |
| PolicyRules.ShowLines | backend-go/internal/service/native/service.go:3160-3164 | splitting the output of `ip rule show` at line ends gives one line for each rule, in order, and an empty end |
| PolicyRules.MarkRuleIsManaged | backend-go/internal/service/native/service.go:3245-3258 | the installed mark rule prints to a line recognised as the service's own, with no bypass target, although the mark is printed in hexadecimal |
| PolicyRules.CatchAllRuleIsManaged | backend-go/internal/service/native/service.go:3185-3204 | the installed catch-all rule prints to a line recognised as the service's own, with no bypass target |
| PolicyRules.BypassRuleReadsBack | backend-go/internal/service/native/service.go:3160-3204 | a bypass rule's line is recognised and gives back its canonical prefix if and only if the prefix length is positive |
| PolicyOwned.ManagedIff | backend-go/internal/service/native/service.go:3185-3204 | a rule of the kernel counts as the service's own if and only if its priority is 10000 to 10999, it selects no source, and it looks up table 20230, or main for the mark 0x2d11 or for some destination; other selectors do not matter |
| PolicyOwned.BypassIff | backend-go/internal/service/native/service.go:3160-3179 | it reads as a bypass if and only if it is such a rule that leads into main for some destination, and then as one for that destination |
| PolicyOwned.MarkIff | backend-go/internal/service/native/service.go:3245-3258 | the printed mark of a rule is the service's if and only if the mark is 0x2d11 |
| RuleTable.ClearedIsForeignIff | backend-go/internal/service/native/service.go:2901-2952 | deleting by slot, once for each managed line, leaves exactly the non-managed rules in order if and only if no foreign rule precedes a managed one in its slot |
| RuleTable.ClearCostsForeign | backend-go/internal/service/native/service.go:2901-2952 | clearing costs exactly as many foreign rules as it leaves managed ones behind, and leaves some behind if and only if a foreign rule preceded a managed one in its slot |
| PolicyPlan.AddTargetsIsBypassList | backend-go/internal/service/native/service.go:2768-2810 | the bypass list has no duplicates and only canonical prefixes |
| PolicyPlan.AddTargetsMember | backend-go/internal/service/native/service.go:2771-2785 | a prefix is listed if and only if some candidate stands for it |
| PolicyPlan.AddTargetsExtends | backend-go/internal/service/native/service.go:2786-2809 | candidates added first keep their places at the front |
| PolicyPlan.PlanShape | backend-go/internal/service/native/service.go:2431-2462 | an installation is the mark rule, the first 998 bypasses in order, the catch-all |
| PolicyPlan.PlanPriorities | backend-go/internal/service/native/service.go:2436-2456 | its priorities are consecutive from 10000, hence distinct, and inside the window |
| PolicyPlan.DriftAfterInstall | backend-go/internal/service/native/service.go:3115-3179 | after an installation (built, installed, printed, parsed, compared) nothing is stale and missing is exactly what lies beyond the 998th entry or has length zero |
| PolicyPlan.ConvergesIff | backend-go/internal/service/native/service.go:3115-3179 | the comparison is clean if and only if the list has at most 998 entries, all of positive length |
| PolicyMeaning.InstalledPolicyMeans | backend-go/internal/service/native/service.go:2431-2462 | for every packet the plan looks up main if it is marked or goes to an installed prefix, and table 20230 otherwise; and after installation the plan decides if and only if no applicable foreign rule of the window stands at its slot or before |
| PolicyMeaning.FirstCandidatesSurvive | backend-go/internal/service/native/service.go:2786-2791 | if the proxy server has at most 998 prefixes, they are bypassed whatever else is listed and truncated |
| PolicyMeaning.InstallationCaptures | backend-go/internal/service/native/service.go:2431-2462 | after a complete installation with the default of table 20230 on the device, every packet that no other rule of the window takes leaves through the device, except that marked packets and those for the first 998 prefixes go by the main table |
| PolicyMeaning.TakenDecides | backend-go/internal/service/native/service.go:2431-2462 | a packet that another rule takes is decided by a rule that was there before the installation |
| PolicyMeaning.InstallThenClear | backend-go/internal/service/native/service.go:2901-2952 | on a table without managed rules, installing and clearing gives back the table if and only if no entry among the first 998 has length zero and no foreign rule sits in a slot of the plan |
| PolicyRouting.BypassBuilder.Add | backend-go/internal/service/native/service.go:2769-2785 | one candidate is normalised, and appended unless it is invalid or listed |
| PolicyRouting.ResolveServer | backend-go/internal/service/native/service.go:2824-2855 | the server's literal prefix, or its distinct resolved addresses of the family as host prefixes |
| PolicyRouting.BuildBypassRules | backend-go/internal/service/native/service.go:2768-2810 | the loops over server, DNS settings and main table build the list that the inputs call for; what that list holds, and in which order, is stated by PolicyDesired.DesiredIff and PolicyDesired.DesiredInOrder |
| PolicyRouting.DesiredIsBypassList | backend-go/internal/service/native/service.go:2768-2810 | that list is a bypass list for every main table, DNS list, profile and lookup |
| PolicyDesired.DesiredIff | backend-go/internal/service/native/service.go:2768-2855 | a prefix is on the list if and only if it is the server's literal, an address of the family that the server's name resolves to, an entry of either DNS setting, or the first field, other than "default", of a line of the main table |
| PolicyDesired.DesiredInOrder | backend-go/internal/service/native/service.go:2786-2809 | entries stand in the order of first occurrence: server, DNS list, DNS servers, main table, and within each source from first to last |
| PolicyDesired.ServerLeads | backend-go/internal/service/native/service.go:2786-2791 | the server's prefixes are exactly the front of the list |
| PolicyDesired.ServerIsBypassed | backend-go/internal/service/native/service.go:2786-2791 | with at most 998 prefixes of its own, every packet to the server is bypassed whatever else is listed |
| PolicyRouting.Install | backend-go/internal/service/native/service.go:2431-2462 | the plan is inserted up to the first command that fails, because its rule is there already or its target does not parse; it succeeds if and only if none does |
| PolicyRouting.ClearManaged | backend-go/internal/service/native/service.go:2901-2952 | the loop over the listed text deletes one slot for each managed rule and removes the device's default from table 20230 |
| PolicyRouting.ReadInstalled | backend-go/internal/service/native/service.go:3160-3179 | the targets parsed from the text are exactly those of the rules in the table |
| PolicyRouting.DriftForFamily | backend-go/internal/service/native/service.go:3115-3146 | missing and stale are the set differences of desired and installed prefixes |
| PolicyRouting.RebuiltDrift | backend-go/internal/service/native/service.go:2392-2429 | after any rebuild of any table, missing is what neither survived the clearing nor was reached by the installation, and stale is what survived without being listed; if no foreign rule preceded a managed one and every command succeeded, nothing is stale, missing is exactly the unrepresentable entries, and it settles if and only if there are none |
| PolicyRouting.TunPolicy.Setup | backend-go/internal/service/native/service.go:2392-2429 | both families are cleared, IPv4 is rebuilt, and IPv6 too if that succeeds and it has a default route; both tables, the default of table 20230 in both families and the success are stated for every outcome; after a success each rebuilt family sends into the device every packet that no other rule takes, except marked ones and those for the first 998 prefixes |
| PolicyRouting.TunPolicy.Reconcile | backend-go/internal/service/native/service.go:2979-3034 | nothing is touched if and only if every managed family is settled; otherwise both tables and both defaults of table 20230 are stated, failed rebuilds included, and after a success the families capture what they should and the next comparison finds only unrepresentable entries wherever no foreign rule preceded a managed one |
| PolicyRebuild.InstallableIff | backend-go/internal/service/native/service.go:2431-2462 | a bypass list installs completely if and only if none of its planned rules is there yet |
| PolicyRebuild.RebuiltInForceIff | backend-go/internal/service/native/service.go:2392-2462 | a rebuild leaves the whole plan in force if and only if every rule that its installation did not reach survived the clearing; the mark rule is always there, and the catch-all if and only if every command succeeded or it survived |
| PolicyRebuild.InForceThoughOneSurvived | backend-go/internal/service/native/service.go:2431-2462 | success of the commands is not needed for that: a table on which the installation fails at the surviving catch-all rule and the whole plan is in force |
| PolicyRebuild.CleanWithoutCatchAll | backend-go/internal/service/native/service.go:3014-3028 | with a foreign rule in front of the only bypass in its slot, and anything of the service behind, a rebuild ends with the mark rule and the bypass alone, without the catch-all, and the comparison is clean |
| PolicyRebuild.ReinstallableIff | backend-go/internal/service/native/service.go:2392-2429 | after an installation and a clearing the list installs again if and only if none of its first 998 entries has length zero |
| PolicyRebuild.ZeroLengthEntryLeaksIff | backend-go/internal/service/native/service.go:3185-3204 | clearing leaves the rule of an installed entry behind if it has length zero, and only then if no foreign rule shares a managed slot |
| PolicyRebuild.ZeroLengthStopsRebuilds | backend-go/internal/service/native/service.go:2392-2429 | once a list with a zero-length entry that fits was installed, no rebuild of it goes through again, in any number of rebuilds and with any foreign rules; the catch-all is there for as many rebuilds as foreign rules stood in its slot, and never again after |
| PolicyRebuild.AbortedTableStays | backend-go/internal/service/native/service.go:2392-2429 | if no foreign rule sits in a slot of the plan, the table is the same after every further rebuild |
| PolicyRebuild.EverythingInstallsOnce | backend-go/internal/service/native/service.go:2861-2881 | a concrete list of that kind: the IPv4 list of 0.0.0.0/0 installs on an empty table once, and every rebuild leaves no catch-all |
| PolicyRebuild.ZeroLengthNeverSettles | backend-go/internal/service/native/service.go:3115-3204 | a listed entry of length zero is missing on every table whose rules use the word "to" for destinations only, so the comparison is never clean |
| PolicyRebuild.RoundCostsForeign | backend-go/internal/service/native/service.go:2392-2429 | a rebuild costs at least one foreign rule if and only if one stands before a managed rule in its slot |
| PolicyRebuild.RebuildsConverge | backend-go/internal/service/native/service.go:2392-2429 | from any table, after at most one rebuild more than there are foreign rules the whole plan is in place on foreign rules only: mark, bypasses and catch-all are there, nothing is stale, missing is exactly what lies beyond 998, and the comparison is clean if and only if nothing does; for lists without zero-length entries among the first 998 |
| PolicyRebuild.InPlaceMeans | backend-go/internal/service/native/service.go:2431-2462 | what such a table does to every packet: the plan decides if and only if no applicable foreign rule of the window stands at its slot or before, and it sends into the device exactly what is neither marked nor bound for a listed prefix |
| PolicyRebuild.InPlaceCaptures | backend-go/internal/service/native/service.go:2431-2462 | with the default of table 20230 on the device, such a table sends every packet that no other rule takes into the device, except marked ones and those for the first 998 prefixes |
| PolicyRebuild.TicksSettle | backend-go/internal/service/native/service.go:2979-3034 | ticks that rebuild only when the comparison is not clean come to rest: after at most one more than there are foreign rules it is clean, and the table never changes again, whether the plan is in force or not |
| LifecycleProof.NoOrphanedRules | backend-go/internal/service/native/service.go:1783-1836 | over every run of any threads, from a boot with or without leftover rules: when `coreOpMu` is free and nobody owes a cleanup, managed rules in the kernel imply a running core, or they were there at boot and have been there ever since |
| LifecycleProof.RulesLeftAtBoot | backend-go/internal/service/native/service.go:73-84 | the exception is real: a killed process's rules are there at boot without a core |
| LifecycleProof.AtMostOneCore | backend-go/internal/service/native/service.go:120-347 | over every run at most one core instance is alive |
| LifecycleProof.FieldsMoveTogether | backend-go/internal/service/native/service.go:1783-1797 | over every run `running`, the held core and the held tracker agree; no tracker is started or closed twice |
| LifecycleProof.CleanupSparesNewCore | backend-go/internal/service/native/service.go:1803-1821 | over every run a pending cleanup about to clear, and a start about to commit, find no running core |
| LifecycleProof.StartSlotIsFree | backend-go/internal/service/native/service.go:120-170 | over every run the `starting` flag is free wherever startCore tests it under the lock |
| LifecycleProof.DeadlockFree | backend-go/internal/service/native/service.go:349-401 | in every reachable state with an unfinished operation some thread can step; `coreOpMu` and `switchMu` are locks of the machine, sections of `mu` are single steps, so the last place of `mu` in the lock order holds by construction |
| LifecycleProof.StepsAreBounded | backend-go/internal/service/native/service.go:120-401 | every step brings its thread closer to its end, at most thirty steps away |
| LifecycleJobs.StopLeavesNothing | backend-go/internal/service/native/service.go:299-347 | over every run a stop takes the steps of stopCore only and then gives the lock back; when it does, no core runs, is held or is alive, no tracker is left, and no managed rule is in the kernel |
| LifecycleJobs.RestartStartsAgain | backend-go/internal/service/native/service.go:349-355 | over every run a restart that has left the steps of stopCore has entered startCore since |
| LifecycleJobs.StartSparesRunningCore | backend-go/internal/service/native/service.go:120-131 | over every run a start takes no step of stopCore, and where it finds a core running and alive it changes nothing and answers whether that core is degraded |
| LifecycleJobs.ReadyWasSeen | backend-go/internal/service/native/service.go:1987-2031 | over every run a job that reports a ready core has looked at it and found it running and not degraded, and has only been on its way out since |
| LifecycleJobs.LastLookDecides | backend-go/internal/service/native/service.go:1823-1836 | over every run what the last look of startCore finds, running and not degraded, is what is reported |
| LifecycleJobs.BusyTickEnds | backend-go/internal/service/native/service.go:2991-2996 | over every run a reconciliation that begins while a core starts, or without one, ends at once and changes nothing |
| LifecycleOutcomes.AloneToTheEnd | backend-go/internal/service/native/service.go:120-401 | the steps of an undisturbed operation lead to its end, with both locks given back and the fields of the tables below |
| LifecycleOutcomes.UserJobEnds | backend-go/internal/service/native/service.go:114-355 | what a start, a stop and a restart come to, for every state and every outcome of their commands: which core, tracker, rules, degradation and watchdog state they leave |
| LifecycleOutcomes.StatusEndsAs | backend-go/internal/service/native/service.go:101-112 | CoreStatus forgets a core that has died, with its tracker and its rules, and changes nothing else |
| LifecycleOutcomes.WatchEndsAs | backend-go/internal/service/native/service.go:1922-1985 | a tick of the watchdog also plans a restart, for a core that has died or is degraded, unless one is pending or the limit is reached; only one for a degraded core may stop a running core |
| LifecycleOutcomes.ReconcileEndsAs | backend-go/internal/service/native/service.go:2979-3034 | a tick of the reconciliation changes the rules only, only if a core runs and there is drift, and then to those of the rebuild |
| LifecycleOutcomes.SwitchEndsAs | backend-go/internal/service/native/service.go:357-401 | a change of selection, configuration or routing stops or restarts a running core and does nothing without one |
| LifecycleOutcomes.ConfigEndsAs | backend-go/internal/service/native/service.go:1415-1437 | a configuration change that turns TUN off clears the rules first |
| LifecycleOutcomes.RepairEndsAs | backend-go/internal/service/native/service.go:1694-1739 | a repair clears the rules, and unless the device cannot be removed restarts the core if it was running and starts it otherwise |
| LifecycleOutcomes.AutoEndsAs | backend-go/internal/service/native/service.go:1987-2031 | a planned restart does nothing if it was called off, is dropped for a running core that it may not stop, and otherwise starts the core; a ready result clears the counter, another one plans the next restart unless one is planned |
| LifecycleRestarts.StepCountsRestarts | backend-go/internal/service/native/service.go:1946-1985 | outside commits, user stops and ready restarts, the attempt counter counts exactly the restarts launched |
| LifecycleRestarts.RestartsAreBounded | backend-go/internal/service/native/service.go:1922-2031 | along every schedule without such a step a positive retry limit bounds the restarts launched |
| LifecycleRestarts.LimitIsReached | backend-go/internal/service/native/service.go:1922-2031 | the bound is exact: with failing starts and nobody else acting, as many restarts are launched as the limit leaves, from every state with a scheduled restart |
| LifecycleRestarts.CommitsLiftTheLimit | backend-go/internal/service/native/service.go:244-260 | with commits there is no bound: for every limit and number there is a schedule with that many restarts in which nobody begins anything |
| LifecycleRestarts.ScheduleIsRun | backend-go/internal/service/native/service.go:120-401 | every schedule of turns, deaths and operations that an API call or a ticker begins is a run of the machine |
| LifecycleRestarts.LimitIsReachedFromBoot | backend-go/internal/service/native/service.go:1922-2031 | for every limit there is a run from the start of the service in which a crash is followed by exactly as many restarts as the limit |
| LifecycleRestarts.RestartsAreUnboundedFromBoot | backend-go/internal/service/native/service.go:244-260 | for every limit and number there is such a run with one restart more than that number |
| Restart.AutoRestartDelay | backend-go/internal/service/native/service.go:1963-1980 | the delay before attempt k is min(30 s, base * 2^(k-1)), the base being the setting kept between 100 ms and 30 s |
| Restart.DefaultRestartDelays | backend-go/internal/service/native/service.go:1963-1980 | with the default of 500 ms the delays are half a second, doubling up to 16 s, then 30 s |
| Watchdog.Service.Schedule | backend-go/internal/service/native/service.go:1946-1985 | a restart is scheduled, and counted, if and only if restarts are enabled and the counter is below a positive limit |
| Watchdog.Service.Tick | backend-go/internal/service/native/service.go:1922-1944 | a tick schedules a restart for a core found dead or degraded, unless one is scheduled or under way |
| Watchdog.Service.RunScheduled | backend-go/internal/service/native/service.go:1987-2031 | a scheduled restart is dropped if a core is running that it may not stop; otherwise it starts the core, and schedules the next if that is not ready |
| Watchdog.Service.Crash | backend-go/internal/service/native/service.go:1922-2031 | the starts after a crash, each failed, dead at once, degraded or ready, have the attempt numbers of the chain and the delays in closed form, and stop only where the chain ends |
| Watchdog.AllFailed | backend-go/internal/service/native/service.go:1946-1985 | without a commit there are exactly as many starts as the limit leaves, with attempt numbers counting up |
| Watchdog.BetweenCommits | backend-go/internal/service/native/service.go:244-260 | after a commit that is not ready the count begins again at 1, or at 2 once the restart of a degraded core was dropped, and failures follow up to the limit |
| Watchdog.DegradedEndlessIff | backend-go/internal/service/native/service.go:1987-2031 | if every start is degraded the chain is endless if and only if the limit is not one or every result is seen after a tick |
| Watchdog.DyingIsEndless | backend-go/internal/service/native/service.go:1946-2031 | if every start commits and the core dies at once the chain is endless with any limit |
| Restart.BootRetryDelay | backend-go/internal/launcher/server.go:187-205 | the loop with early exits is repeated 64-bit doubling, cut off at the maximum |
| Restart.BootDelayClosedFormIff | backend-go/internal/launcher/server.go:187-205 | every delay is min(max, base * 2^k) if and only if doubling reaches max before it overflows |
| Restart.DefaultBootDelays | backend-go/internal/launcher/server.go:112-151 | two seconds doubling up to thirty never overflows |
| Restart.RestoreCoreOnBoot | backend-go/internal/launcher/server.go:112-151 | starts never exceed the limit, stop at the first ready one, and are separated by those delays; nothing is started after a cancellation, and nothing else stops it early |
| Nonce.IncNonce | backend-go/internal/service/native/embedded_outbound.go:464-471 | the in-place loop is addition of one with carry |
| Nonce.NonceCounts | backend-go/internal/service/native/embedded_outbound.go:464-471 | after k calls from zero the array holds k mod 256^len, least significant byte first |
| Nonce.NoncesAreDistinct | backend-go/internal/service/native/embedded_outbound.go:447-451 | the nonces of n uses are pairwise distinct if and only if n is at most 256^len |
| Nonce.FirstByteFirst | backend-go/internal/service/native/embedded_outbound.go:464-471 | the first byte counts every use, the others only its carries |
| Shadowsocks.Conn.Write | backend-go/internal/service/native/embedded_outbound.go:430-462 | the wire gains the salt once and then the sealed chunks of at most 16383 bytes; the nonce advances twice for each chunk |
| Shadowsocks.PlainSuiteIsSound | backend-go/internal/service/native/embedded_outbound.go:345-366 | the laws that the round trip asks of a cipher can be met, at the lengths of aes-128-gcm |
| Shadowsocks.Conn.Read | backend-go/internal/service/native/embedded_outbound.go:389-428 | a read is the receiver function: key set-up, sealed length, sealed payload, buffer |
| Shadowsocks.ReadChunkFollows | backend-go/internal/service/native/embedded_outbound.go:398-428 | at every chunk boundary the receive nonce is the one the next chunk was sealed with; a failed read means a used-up wire |
| Shadowsocks.WritesCompose | backend-go/internal/service/native/embedded_outbound.go:430-462 | write after write the wire holds the stream of all writes, and the send nonce is the one that their chunks leave |
| Shadowsocks.StreamRoundTrip | backend-go/internal/service/native/embedded_outbound.go:372-462 | for any writes, any cut of the wire and any read sizes, the bytes read are a prefix of the bytes written, and equal them once an uncut wire is drained |
| Shadowsocks.SealNoncesAreDistinct | backend-go/internal/service/native/embedded_outbound.go:447-451 | the wire of all writes of a connection is the salt and what its Seal calls seal, two for each chunk, and no two of those calls share a nonce if and only if there are at most 256^len |
| Shadowsocks.WireIsSealed | backend-go/internal/service/native/embedded_outbound.go:447-456 | a stream of chunks on the wire is the concatenation of its Seal calls |
| ShadowsocksWire.ChunkAt | backend-go/internal/service/native/embedded_outbound.go:438-446 | chunk k of a write is its bytes from 16383 k on, 16383 of them or the rest |
| ShadowsocksWire.ChunkCount | backend-go/internal/service/native/embedded_outbound.go:438-446 | and there are as many chunks as are needed |
| ShadowsocksWire.CallsOfChunk | backend-go/internal/service/native/embedded_outbound.go:447-451 | chunk k takes two Seal calls: its length in two bytes, most significant first, under the nonce of use 2k, then its bytes under that of use 2k + 1 |
| ShadowsocksWire.ChunkReadIff | backend-go/internal/service/native/embedded_outbound.go:398-428 | on any wire at all a chunk is read if and only if its length and then its payload open, each under its own nonce; then exactly that payload is buffered, and otherwise nothing |
| ShadowsocksWire.ZeroLengthEnds | backend-go/internal/service/native/embedded_outbound.go:413-416 | a sealed length of zero ends the stream |
| ShadowsocksWire.SaltFirst | backend-go/internal/service/native/embedded_outbound.go:372-387 | the front of the wire is the salt, which gives the key, and the nonce starts at zero |
| WebSocket.ExtendedLength | backend-go/internal/service/native/embedded_ws.go:155-162 | the 64-bit length loop, which starts from 127, gives the big-endian value as a signed number |
| WebSocket.MaskedTwice | backend-go/internal/service/native/embedded_ws.go:177-181 | masking is its own inverse |
| WebSocket.Unmask | backend-go/internal/service/native/embedded_ws.go:177-181 | the in-place loop masks every byte with its key byte |
| WebSocket.FrameRoundTrip | backend-go/internal/service/native/embedded_ws.go:138-181 | parsing inverts the framing of RFC 6455 section 5.2 for every payload below 2^63, masked or not, in all three length forms, leaves what follows, and sees a cut frame as short |
| WebSocket.Conn.BuildClientFrame | backend-go/internal/service/native/embedded_ws.go:213-242 | the bytes appended are the frame with the next mask; refused if and only if a control payload exceeds 125 bytes |
| WebSocket.Conn.TakeFrame | backend-go/internal/service/native/embedded_ws.go:138-181 | the reading steps take one frame off the wire as the parse says |
| WebSocket.Conn.ReadNext | backend-go/internal/service/native/embedded_ws.go:138-203 | the recursive reader is the frame function, which terminates because each call consumes wire bytes |
| WebSocket.Conn.Read | backend-go/internal/service/native/embedded_ws.go:104-111 | a read serves the buffer, after a frame if it is empty |
| WebSocket.Conn.Write | backend-go/internal/service/native/embedded_ws.go:113-136 | the wire gains the frames of the chunks of at most 16384 bytes, with the masks in turn |
| WebSocket.ReadFrameFollows | backend-go/internal/service/native/embedded_ws.go:183-203 | a readFrame passes over pings and pongs to the next data, and answers each ping of at most 125 bytes once |
| WebSocket.InterleavedRoundTrip | backend-go/internal/service/native/embedded_ws.go:104-203 | for any mix of non-empty data frames with pings and pongs, reads deliver a prefix of the data in order, all of it on an uncut wire, and every ping has had its pong |
| WebSocket.WriteReadsBack | backend-go/internal/service/native/embedded_ws.go:104-136 | what Write sends, reads return byte for byte, whatever the sizes |
| WebSocket.EmptyFrameReadsAsEndIff | backend-go/internal/service/native/embedded_ws.go:104-111 | a non-empty read of a data frame reports end of file if and only if the frame is empty, and the stream goes on behind it |
| WebSocket.BufferedFramesReadRawIff | backend-go/internal/service/native/embedded_ws.go:86-94 | what the HTTP reader had buffered is read as it is, so reads give the data of all frames if and only if none came with the upgrade response |
| WebSocket.BufferedPrefixReadsRaw | backend-go/internal/service/native/embedded_ws.go:86-94 | any buffered front of the stream, cut inside a frame or not, is read raw, followed by what the rest of the wire parses to; the data can come out right only if its first byte is a head byte |
| WebSocket.RawBytesMayCoincide | backend-go/internal/service/native/embedded_ws.go:86-94 | a stream cut inside a frame that comes out right all the same |
| WebSocketEnd.EndingFrameTaken | backend-go/internal/service/native/embedded_ws.go:183-203 | for every opcode other than 0x0, 0x2, 0x9 and 0xA, a close frame among them, readFrame stops: nothing is buffered or sent, and what follows stays on the wire |
| WebSocketEnd.EndingFrameReadsAsEnd | backend-go/internal/service/native/embedded_ws.go:104-111 | a read with nothing buffered reports the end there, whatever its size |
| WebSocketEnd.StreamEndsAtEndingFrame | backend-go/internal/service/native/embedded_ws.go:104-203 | for any frames that carry data with pings and pongs between them, then such a frame, then anything: non-empty reads deliver exactly the data before it, come to the end, and every ping before it has had its pong |
| WebSocketEnd.HugeLengthCrashes | backend-go/internal/service/native/embedded_ws.go:155-176 | a 64-bit length of 2^63 or more crashes the reader where it makes the buffer |
| WebSocketEnd.FramesOfWrite | backend-go/internal/service/native/embedded_ws.go:113-136 | frame k of a write is final, binary, masked with the next mask, and holds the bytes from 16384 k on, 16384 of them or the rest |
| WebSocketEnd.FrameCount | backend-go/internal/service/native/embedded_ws.go:113-136 | and there are as many frames as are needed |
| WebSocketEnd.MaskedBits | backend-go/internal/service/native/embedded_ws.go:177-181 | masking is the exclusive or, bit by bit |
| WebSocketEnd.HelloExample | backend-go/internal/service/native/embedded_ws.go:213-242 | the bytes of the "Hello" frames of section 5.7 of RFC 6455 |
| WebSocketEnd.LengthExamples | backend-go/internal/service/native/embedded_ws.go:224-234 | the heads of its messages of 256 bytes and 64 KiB |
| Socks.SerializeSocksAddr | backend-go/internal/service/native/embedded_outbound.go:252-289 | the buffer filled is the encoded address, with brackets stripped, domains cut at 255 bytes and ports out of range as 80 |
| Socks.ReadSocksAddr | backend-go/internal/service/native/embedded_core.go:272-305 | the reads take exactly the address off the stream, or fail |
| Socks.AddressRoundTripIff | backend-go/internal/service/native/embedded_core.go:272-305 | reading inverts sending if and only if the port has 16 bits and a domain has at most 255 bytes and no brackets at its ends; what follows is left unread |
| Socks.Layout | backend-go/internal/service/native/embedded_outbound.go:252-289 | types 1, 3 and 4 of section 5 of RFC 1928, the length of a name in one byte, the port last with its most significant byte first |
| Socks.SentName | backend-go/internal/service/native/embedded_outbound.go:278-281 | brackets around a name are not sent, and a name longer than 255 bytes is cut |
| RoutingRules.BuildRoutingRules | backend-go/internal/service/native/config_gen.go:549-677 | the appending loops with skips build guard layer, mode rules, user rules and defaults, in that order |
| RoutingLayers.UserRulesInOrder | backend-go/internal/service/native/config_gen.go:638-674 | user rules are compiled one by one, in order |
| RoutingLayers.UserDomainRule | backend-go/internal/service/native/config_gen.go:644-645 | a user rule of kind "domain" decides by its pattern, and otherwise the proxy is the default |
| RoutingLayers.UserIpRule | backend-go/internal/service/native/config_gen.go:646-647 | a user rule of kind "ip" decides by its pattern |
| RoutingLayers.UserGeoipRule | backend-go/internal/service/native/config_gen.go:648-656 | one of kind "geoip" by the pattern with that word in front, and never without the data |
| RoutingLayers.UserGeositeRule | backend-go/internal/service/native/config_gen.go:657-665 | one of kind "geosite" likewise |
| RoutingLayers.UserPortRule | backend-go/internal/service/native/config_gen.go:666-667 | one of kind "port", of one port, by that port |
| RoutingLayers.UserProtocolRule | backend-go/internal/service/native/config_gen.go:668-669 | one of kind "protocol" by the protocols that it lists |
| RoutingLayers.UserUnknownRule | backend-go/internal/service/native/config_gen.go:638-674 | one of another kind decides nothing |
| RoutingLayers.BypassCnDecides | backend-go/internal/service/native/config_gen.go:585-619 | in the mode "bypass_cn" private and Chinese addresses go direct whatever the user rules say; without geo data private means eight prefixes |
| RoutingLayers.BypassCnOtherwise | backend-go/internal/service/native/config_gen.go:585-619 | without user rules every other address goes to the proxy |
| RoutingLayers.BypassCnOfName | backend-go/internal/service/native/config_gen.go:620-627 | names under cn go direct if there are data for names, and other names to the proxy |
| RoutingLayers.ForceProxyIff | backend-go/internal/service/native/config_gen.go:188-196 | four words force the local proxy, whatever their case, and nothing else does |
| RoutingLayers.ApiDecides | backend-go/internal/service/native/config_gen.go:553-558 | on the api inbound everything goes to the api |
| RoutingTest.FirstMatchIff | backend-go/internal/service/native/routing_test_tool.go:52-60 | the rule found is the least index of a match |
| RoutingTest.DeferredOnly | backend-go/internal/service/native/routing_test_tool.go:223-242 | rules are deferred only for domain targets under IPIfNonMatch |
| RoutingTest.SkippedRuleStaysUnmatched | backend-go/internal/service/native/routing_test_tool.go:248-293 | a rule neither matched nor deferred in the first pass matches no resolved addresses |
| RoutingTest.TestRouting | backend-go/internal/service/native/routing_test_tool.go:28-113 | the two loops with a deferred list give the verdict of whole-list evaluation, for every rule list and world |
| RoutingMatches.DomainRuleMeans | backend-go/internal/service/native/routing_test_tool.go:425-462 | the verdict of a list of one domain pattern, for every name: "full:" asks for that name, "domain:" and a bare pattern for it and everything below it, "keyword:" for an occurrence, "geosite:cn" for names below cn; "regexp:" and an empty pattern are never met |
| RoutingMatches.DomainRuleNeedsName | backend-go/internal/service/native/routing_test_tool.go:425-429 | an address, or no name, meets no domain pattern |
| RoutingMatches.AddressRuleMeans | backend-go/internal/service/native/routing_test_tool.go:464-493 | the verdict of a list of one address pattern, for every address: "geoip:private", "geoip:cn", another code, a CIDR and a single address each ask their own oracle |
| RoutingMatches.AddressRuleMeansOfName | backend-go/internal/service/native/routing_test_tool.go:223-245 | for a name the same rule is met if and only if the oracle says so of an address that it resolves to, under IPOnDemand and IPIfNonMatch, and never under another strategy |
| RoutingMatches.PortRuleMeans | backend-go/internal/service/native/routing_test_tool.go:396-423 | a rule of one port is met by that port only |
| RoutingMatches.PortRangeRuleMeans | backend-go/internal/service/native/routing_test_tool.go:396-423 | a rule of a range is met within it, both ends included |
| RoutingMatches.NoPortRuleMeans | backend-go/internal/service/native/routing_test_tool.go:396-423 | a text that is neither is never met |
| RoutingMatches.ProtocolRuleMeans | backend-go/internal/service/native/routing_test_tool.go:367-378 | a rule of protocols or networks is met by those that it lists, whatever their case |
| RoutingMatches.InboundRuleMeans | backend-go/internal/service/native/routing_test_tool.go:380-394 | a rule of inbounds is met by those that it lists, and never without an inbound |
| RoutingMatches.RuleIsConjunction | backend-go/internal/service/native/routing_test_tool.go:159-187 | a rule matches if and only if none of the conditions that it states is refused and it states one; it reports the last of them, and the proxy if it names no outbound |
| RoutingMatches.PatternIsReported | backend-go/internal/service/native/routing_test_tool.go:295-308 | what is reported for a domain pattern is that pattern |
| RoutingMatches.AddressesReported | backend-go/internal/service/native/routing_test_tool.go:78-84 | the addresses looked up are reported if and only if no rule matched the target, some rule was deferred, and the lookup went well |
| RoutingGuards.SecondPassIsRerun | backend-go/internal/service/native/routing_test_tool.go:52-103 | under IPIfNonMatch the second pass equals running the whole list again on the resolved addresses |
| RoutingGuards.NonIpMatchBeatsIpMatches | backend-go/internal/service/native/routing_test_tool.go:52-76 | a rule that matches without addresses beats every address rule, wherever they stand, and the verdict is the same under every name service |
| RoutingGuards.DomainAndAddressRuleNeverMatches | backend-go/internal/service/native/routing_test_tool.go:193-245 | a rule with both conditions matches no target in either pass |
| RoutingGuards.GuardsDecide | backend-go/internal/service/native/config_gen.go:549-582 | for every mode, strategy, geo data and user rules, off the api inbound: local bypass sends local targets direct; forced local proxy sends everything else on http and socks inbounds to the proxy |
| RoutingGuards.PortRuleMatchesIff | backend-go/internal/service/native/config_gen.go:666-667 | a compiled port rule is met if and only if it has one value and that is met |
| RoutingGuards.DirectModeIsDirect | backend-go/internal/service/native/routing_test_tool.go:105-110 | in direct mode what no other rule matches goes direct, by the closing rule if and only if the protocol is literally "tcp,udp" |
| Store.NormalizeStringSliceValue | backend-go/internal/storage/store.go:395-427 | the tokens are trimmed, non-empty and distinct, in order of first appearance |
| StoreMeaning.CleanIff | backend-go/internal/storage/store.go:395-427 | a token is there if and only if it is not empty and some part gives it once trimmed |
| StoreMeaning.PiecesJoin | backend-go/internal/storage/store.go:411-414 | a text is split at commas, semicolons and line ends |
| Store.NormalizeConfigMap | backend-go/internal/storage/store.go:336-393 | rewriting key by key gives, for every key, the declared normal value |
| StoreMeaning.GivenModeDecides | backend-go/internal/storage/store.go:355-375 | a given TUN mode stands for itself if it is "mixed", "system" or "gvisor", is off for four words, and "mixed" for every other |
| StoreMeaning.OlderSwitchDecides | backend-go/internal/storage/store.go:355-375 | without one the older switch decides, as a flag or as the text "true", with the mode of the older stack setting, which cannot turn it off |
| StoreMeaning.TunKeysAgree | backend-go/internal/storage/store.go:355-391 | afterwards the switch is on if and only if the mode is not off, and then the stack is the mode |
| StoreMeaning.HijackNeedsExplicit | backend-go/internal/storage/store.go:376-379 | the default route is taken over only if the user said so explicitly |
| StoreMeaning.SystemProxyModeMeans | backend-go/internal/storage/store.go:445-456 | seven words set the system proxy, "pac" is kept, and everything else clears it |
| StoreMeaning.LocalProxyModeMeans | backend-go/internal/storage/store.go:458-467 | four words force local traffic through the proxy |
| StoreMeaning.OtherKeys | backend-go/internal/storage/store.go:341-354 | the DNS list takes over the older key unless it is there itself, the engine is fixed, and unknown keys stay |
| Store.NormalIsIdempotent | backend-go/internal/storage/store.go:336-393 | normalising twice is normalising once |
| Store.NormalCommutesWithJson | backend-go/internal/storage/store.go:336-393 | normalising before or after a trip through JSON is the same |
| Store.ConfigStore.LoadConfig | backend-go/internal/storage/store.go:261-297 | answers the cache or what a fresh process reads, and caches it unless the file is unreadable |
| StoreMeaning.OnlyFailuresAreRetried | backend-go/internal/storage/store.go:276-287 | a file that could not be read is tried again, and what was read is kept |
| StoreMeaning.FreshInstallation | backend-go/internal/storage/store.go:225-256 | without a file the service listens on the loopback address only, verifies certificates, leaves proxy and routes alone, and restarts a crashed core at most five times |
| StoreMeaning.FileDecides | backend-go/internal/storage/store.go:288-297 | a file decides every key that it has in normal form, and the others have their defaults |
| Store.ConfigStore.SaveConfig | backend-go/internal/storage/store.go:300-310 | file and cache become the normalised map, or neither changes |
| Store.SaveIsCoherentIff | backend-go/internal/storage/store.go:300-310 | after a save the cache agrees with the file if and only if the normalised map has every default key |
| Store.SavedMapIsCompleteIff | backend-go/internal/storage/store.go:336-393 | which keys the saved map itself must have for that |
| Store.RunsStayCoherent | backend-go/internal/storage/store.go:261-310 | along every run of loads and saves of such maps, failing ones included, a load answers what a fresh process would read |
| RouteText.LineReadsBack | backend-go/internal/service/native/service.go:2588-2594 | a printed route line, split into arguments, replaces the same route, where `ip route replace` accepts the words printed |
| RouteText.Sanitize | backend-go/internal/service/native/service.go:2687-2702 | the loop keeps each line once, in order of first appearance |
| RouteText.SanitizedIff | backend-go/internal/service/native/service.go:2687-2702 | exactly the trimmed non-empty lines that do not use the device are kept |
| RouteText.KeepsLineIff | backend-go/internal/service/native/service.go:2704-2719 | a printed default route is dropped if and only if it uses the device |
| Takeover.Routing.SetupTunRouting | backend-go/internal/service/native/service.go:2352-2383 | refused without a route to restore; otherwise the device takes metric 0 and the routes are kept in memory and in the file |
| TakeoverHints.DeviceComesFirst | backend-go/internal/service/native/service.go:2352-2383 | after a takeover the first default route is the device's, without a metric, and behind it are the routes that had one |
| TakeoverHints.RefusedIff | backend-go/internal/service/native/service.go:2352-2383 | it is refused, and changes nothing, if and only if there is no default route or none to go back to |
| TakeoverHints.TakeoverNotesHint | backend-go/internal/service/native/service.go:2664-2685 | a takeover notes device and gateway of the first default route |
| Takeover.Routing.ClearTunRouting | backend-go/internal/service/native/service.go:2553-2611 | the first of memory, file and hint that gives routes is restored, the device's routes go, and what was kept is forgotten |
| TakeoverHints.RestoreForgets | backend-go/internal/service/native/service.go:2606-2621 | a restore forgets the routes in memory and in the file and both hints |
| TakeoverHints.HintsRestore | backend-go/internal/service/native/service.go:2652-2662 | with nothing kept but the hints, a restore sets the default route through that gateway and device |
| Takeover.TakeoverUndone | backend-go/internal/service/native/service.go:2352-2383 | from any non-empty table not using the device, takeover then restore gives back exactly that table, with nothing in between, with a restart, and with a restart that loses the device and its route |
| Takeover.TwiceTakenIff | backend-go/internal/service/native/service.go:2642-2650 | two takeovers and one restore give it back if and only if no metric-0 default stood beside another default, in each of the same three cases |
| Takeover.NeverRestoresTheDevice | backend-go/internal/service/native/service.go:2613-2640 | what is kept in memory or in the file never uses the device, and no route through it is left after a restore |
| Profiles.DedupeImportedProfiles | backend-go/internal/service/native/service.go:1615-1635 | the loop with an index map gives one entry for each key, at its first place, with its last content; entries without a key all stay |
| Profiles.OnlyServerCounts | backend-go/internal/service/native/service.go:1654-1666 | only the server identifies a profile: of two for one server the later stays, two for different servers both stay |
| Profiles.OneEntryPerKey | backend-go/internal/service/native/service.go:1615-1635 | every key of the input is there exactly once |
| Profiles.DedupeIsIdempotent | backend-go/internal/service/native/service.go:1615-1635 | deduplicating twice is deduplicating once |

## Left out

- IPv6 text and zones: IPv6 addresses print and parse by any function that meets `Faithful`; only dotted-decimal IPv4 is spelled out.
- The drift report: missing and stale are sets, not sorted lists; the reporting, throttling and logging around them.
- Failing `ip` commands other than a refused duplicate or an unreadable target, and other server instances.
- The wait for the interface and the reading of the main table, in `PolicyRouting`: when either fails, a set-up gives up before its clearing. The step machine has that return (`other` at `StartRoute` and `ReconClear` in `Lifecycle`).
- Drift and rebuild in one reconcile tick are given the same main table, DNS settings and lookup answers.
- PolicyDesired.DesiredIff: for lookups whose addresses fit the width that they claim, as every lookup's do.
- PolicyOwned.ManagedIff: for rules none of whose values is one of the words "from", "to", "fwmark" and "lookup", such as a table of that name, and whose mark has no mask.
- PolicyRebuild.RebuildsConverge: for lists without zero-length entries among the first 998; for the others PolicyRebuild.ZeroLengthStopsRebuilds and PolicyRebuild.ZeroLengthNeverSettles say what happens instead.
- PolicyRebuild.AbortedTableStays: needs that no foreign rule sits in a slot of the plan, because such a rule is deleted in place of a planned one.
- PolicyRebuild.ZeroLengthNeverSettles: for tables where "to" stands for nothing but a destination; an interface of that name is not covered.
- LifecycleRestarts.RestartsAreBounded: up to a commit, a user stop or a ready restart, because each of these resets the counter (service.go:247).
- LifecycleOutcomes.AloneToTheEnd: the outcome tables are for operations that nothing interrupts; what holds under every interleaving is in LifecycleProof and LifecycleJobs.
- A stop by the user between the watchdog's gate and its lock is part of the runs, so nothing is claimed about starts after a stop.
- Watchdog.Service.Crash: observed for a given number of starts, because the chain can be endless; nobody else acts, and a tick falls at most between a start and the look at its result.
- Log text, timestamps, status formatting, statistics polling and the log buffer.
- AEAD, HKDF and hash internals, TLS, dialling, the WebSocket upgrade, and the random source, which never fails here.
- WebSocketEnd.StreamEndsAtEndingFrame: a close frame, an unsupported opcode and a broken connection all read as the end of the stream; the text of the error is not kept.
- Reads that block, deadlines, and errors of writing to a connection.
- Allocation limits: a WebSocket length up to 2^63 is taken as allocatable.
- The host text of a socket address: `Socks` starts from the split host and port and ends before they are joined.
- RoutingLayers.UserDomainRule: the user rule is the only one beside the api rule, so that its own effect shows; where rules compete, RoutingTest.FirstMatchIff and RoutingGuards say which wins. The same goes for the lemmas on the other kinds.
- RoutingLayers.BypassCnOtherwise: without user rules and with the guards off, and for lists of Chinese addresses that are not empty; RoutingLayers.BypassCnOfName likewise, and under the strategies that resolve nothing.
- `parseRoutingTarget`, notes and rule names of the simulator; DNS answers enter already distinct; case folding is ASCII.
- Nested JSON objects and invalid UTF-8 in the configuration, and the precision of numbers above 2^53.
- Store.ConfigStore.SaveConfig: the file is replaced whole or left, as the temporary file and rename of `saveJSON` are meant to do; a crash between those file steps is not modelled.
- The other files of the store, which repeat load and save without normalisation.
- RouteText.LineReadsBack: takes for granted that `ip route replace` accepts every word that `ip route show` prints; a flag such as `linkdown` is printed and refused, and a displaced route with it would not come back.
- A TUN device called "metric", and several default routes of one metric.
- The other parts of the repository: the terminal UI, the HTTP API, desktop proxies, subscription parsing, geo data files and outbound JSON.
