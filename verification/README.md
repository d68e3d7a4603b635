# Spillway, verified

Spillway is a proxy that takes whole API groups out of a Kubernetes cluster and serves them from kcp
workspaces. Around the plumbing it has a few small state machines and caches that must agree with simpler
references. This project models them in Dafny and proves that they do.

| file | what it is about |
|---|---|
| Groups.dfy, Configuration.dfy | patterns naming a workspace's groups; the workspaces file; fingerprints |
| ResourceCaches.dfy, Merging.dfy | what one workspace serves; the first-wins merge of several |
| Router.dfy | the merge cached under a sum of counters and a revision, calls being atomic |
| RouterInterleaving.dfy | the same cache with each atomic load, store and lock its own step |
| RouterProgress.dfy | the lock, that no call is stuck, and that the cache is used |
| RouterMispairing.dfy | two runs in which the key pairs a set with another set's revision |
| Signals.dfy | the one-slot channel that asks for refreshes |
| Breakers.dfy | the circuit breaker and the retries |
| PatchAdmission.dfy | admitting a patch between a fetch and a guarded PUT, while others write |
| Registrar.dfy | the reconciler of APIServices and its guard against foreign groups |
| WorkspaceManager.dfy | replacing running workspaces in place when launches can fail |
| Paths.dfy | canonical request paths and where they are forwarded |
| Discovery.dfy | nesting flat discovery into the aggregated form |
| Text.dfy, Wrappers.dfy | strings as Go's `strings` package treats them; option and result types |

Types whose methods update fields are classes here (the matcher, a resource cache, the router, a workspace,
the breaker, the cluster, kcp's store, the manager), and loops are loops; each such method is proved against
a function or a step relation, and the main results are about those: for all inputs, all runs or all
interleavings. Maps are gone through in any order. Versions, counters and times are unbounded integers.

Where the code and its comments differ, the model follows the code:

- "One probe at a time" (pkg/apiserver/backend.go:105) holds within one half-open episode
  (`Breakers.OneProbePerEpisode`), but an episode can end under its probe: a second one can go out beside it exactly
  when some other request was in flight (`Breakers.OneProbeAtATime`).
- A doubled slash is said to be refused (pkg/apiserver/proxy.go:171); of all such paths "//" is
  accepted, and goes to the location itself (`Paths.OnlyDoubleSlash`).
- A workspace is said to be stopped only after its replacement is serving
  (pkg/apiserver/workspacemanager.go:220-222); the code stops it before it replaces the router's set
  (lines 186-201). In between, the router names a stopped workspace exactly when the round removes or replaces
  one (`WorkspaceManager.StoppedWhileRouted`, and `WorkspaceManager.Manager.LaunchAndStop` for the code); rounds that
  only add or keep leave no gap.
- A re-read configuration is said to be applied as it now reads (pkg/apiserver/workspacemanager.go:130); a
  change of order alone is not (`WorkspaceManager.ReorderIsNotApplied`, `WorkspaceManager.AppliedExactly`).
- A mutated patch is said to be guarded by the version it was derived from (pkg/apiserver/admission.go:106-108);
  one that creates the object has no such version, and where the old object could not be read the guard is whatever
  the webhooks left of the dry run's. Exactly when the guard is good is `PatchAdmission.SafeIfGuarded`.
- The merged view is keyed by a sum over a set and a revision, loaded one after the other, and a replacement stores
  the set and the revision one after the other (pkg/apiserver/router.go:82-83, 192). A reader can pair a set with
  another set's revision in two ways, and either can leave or find a stale view under a valid key
  (`RouterMispairing.ReplaceBetweenKeyLoads`, `RouterMispairing.CallBetweenStores`). With every key rightly paired
  all calls are current (`RouterInterleaving.EveryCallIsCurrent`); with a single one of either kind let in, not
  (`RouterMispairing.CurrentExactlyIfPaired`).
- A resource list is held for every version kcp lists under a covered group, even one of another group
  (`ResourceCaches.StrayVersion`; `ResourceCaches.ResourcesOfHeldGroups` says when there is none).
- A matcher is said to be printed the way it was configured (pkg/kcp/groups.go:171); read back, that is so exactly for
  patterns without commas (`Groups.PrintThenParseExactly`).

## Model

| member | source | states |
|---|---|---|
| Groups.GroupMatcher.Exclude | pkg/kcp/groups.go:97-113 | An exclusion adds exactly its own entry to the matcher, or is refused for its own reason and changes nothing |
| Groups.ParseGroupMatcher | pkg/kcp/groups.go:39-88 | The loop gives the matcher, or the first error, of reading the patterns one by one |
| Groups.ParsedDeclares | pkg/kcp/groups.go:39-88 | A list is accepted if and only if every pattern is well formed and one of them names something to serve; the matcher holds exactly what the patterns declare |
| Groups.MatchesAsDeclared | pkg/kcp/groups.go:116-145 | What matches, read off the patterns alone: named or under a wildcard, and not excluded either way |
| Groups.AcceptedExactly | pkg/kcp/groups.go:47-112 | Exactly which patterns are accepted, by their text: names without slash or star, "*" before a domain of two labels or more outside `.k8s.io`, and, after "!", any name or "*" before any domain |
| Groups.RefusedForAReason | pkg/kcp/groups.go:54-112 | The reason given for refusing a pattern holds of its text |
| Groups.MatchesAsWritten | pkg/kcp/groups.go:116-145 | For every accepted list: a group is served if and only if it is listed by its name, or is anything at all before a listed domain, and neither "!" before it nor "!*" before a domain of its is listed |
| Groups.OrderIsIrrelevant | pkg/kcp/groups.go:43-52 | Every permutation of a list is accepted alike and matches the same groups |
| Groups.WildcardsStayOut | pkg/kcp/groups.go:67-81 | In every accepted list, a group under `.k8s.io` or with fewer than two dots matches only if it is named in full |
| Groups.PrintThenParse | pkg/kcp/groups.go:172-187 | For comma-free patterns, splitting the printed matcher on commas and parsing again gives that matcher back |
| Groups.PrintThenParseExactly | pkg/kcp/groups.go:172-187 | For every accepted list: it is read back if and only if no pattern has a comma |
| Groups.PrintInjective | pkg/kcp/groups.go:172-187 | Comma-free lists that print alike are the same matcher |
| Groups.CommaBreaksPrinting | pkg/kcp/groups.go:60-61 | Commas are accepted in names, and then printing is ambiguous: for any two names a < b, the lists `[a, b]` and `["a,b"]` print alike and match differently |
| Configuration.LoadWorkspaces | pkg/cmd/server/workspaces.go:53-132 | The file is accepted if and only if it has entries, all well formed, with distinct names and disjoint exact groups; each setting given in an entry is the one loaded, and each other is the flag's; a refusal names the first entry at fault and a true reason |
| Configuration.CheckEntry | pkg/cmd/server/workspaces.go:80-126 | One entry against the names and groups taken so far: no fault if and only if it is well formed and takes nothing taken |
| Configuration.AcceptedServeOnce | pkg/cmd/server/workspaces.go:67-100 | Entries well formed and named apart are accepted if and only if no group is both named in full and matched by two of them |
| Configuration.FingerprintSound | pkg/apiserver/workspacemanager.go:54-59 | Equal fingerprints of NUL-free and comma-free entries mean equal settings, hence equal matching |
| ResourceCaches.ResourceCache.Refresh | pkg/kcp/discovery.go:154-188 | All or nothing: it succeeds if and only if every version listed under a covered group can be read and has its resources; then the snapshot is what was answered and the counter is one more, and else snapshot, synced and counter are as before |
| ResourceCaches.ReadExactly | pkg/kcp/discovery.go:160-182 | A read holds the covered groups with their versions as reported, and for every version listed under them the resources answered for it last, and nothing else |
| ResourceCaches.ParseExactly | pkg/kcp/discovery.go:172-175 | Which texts are read as which group and version, and that all others fail |
| ResourceCaches.ReadCovers | pkg/kcp/discovery.go:165-181 | A snapshot holds a group if and only if kcp listed it and the matcher covers it |
| ResourceCaches.RefreshKeepsValid | pkg/kcp/discovery.go:154-188 | Every refresh, succeeding or failing, keeps: only covered groups are held, under their own names, and synced says whether there has been a success |
| ResourceCaches.ResourcesOfHeldGroups | pkg/kcp/discovery.go:171-181 | The versions held are exactly those listed under covered groups; all are of groups held if and only if each listed one names a covered and listed group |
| ResourceCaches.OwnVersionsAreHeld | pkg/kcp/discovery.go:171-181 | So it is when every version is listed under its own group |
| ResourceCaches.StrayVersion | pkg/kcp/discovery.go:171-181 | Otherwise not: for any covered group listing a version of another, resources are held of a group that is not |
| ResourceCaches.EqualTotals | pkg/apiserver/router.go:95-103 | Counters that only rise and have the same sum are the same counters |
| Merging.MergeOwnership | pkg/apiserver/router.go:215-235 | Each merged group comes whole from the first snapshot that has it, entry and resources, never from two |
| Merging.MergeExtends | pkg/apiserver/router.go:215-235 | One more workspace adds the groups not taken yet and the resources of those alone: the loop computes the first-wins merge |
| Router.HitIsFresh | pkg/apiserver/router.go:191-203 | A hit under the key of the sum and the revision is what merging from scratch would give now |
| Router.CacheRefinesRecomputation | pkg/apiserver/router.go:191-239 | Over every run of replacements, refreshes that succeed or fail, and reads, the answer equals a merge from scratch: groups, resources and owners |
| Router.OwnershipInEveryRun | pkg/apiserver/router.go:215-235 | In every reachable state each group is the first listed workspace's that has it, that workspace's matcher covers it, and its resources are exactly that workspace's |
| Router.ServingNotBeforeConfigured | pkg/apiserver/router.go:123-152 | The workspace serving a group is never listed before the one configured for it, and is that one if it has the group |
| Router.Routes.constructor | pkg/apiserver/router.go:71-75 | A new router is the start of a run, at revision 1 |
| Router.Routes.Replace | pkg/apiserver/router.go:78-84 | Stores the set and counts the replacement, leaving the held merge to its key |
| Router.Routes.RefreshRouted | pkg/kcp/discovery.go:208-235 | A refresh of a routed workspace takes the router's view one step along its run, when caches are not shared |
| Router.Routes.Generation | pkg/apiserver/router.go:97-103 | The sum of all the counters |
| Router.Routes.HasSynced | pkg/apiserver/router.go:108-115 | True if and only if every workspace has been read |
| Router.Routes.ConfiguredFor | pkg/apiserver/router.go:125-132 | The first workspace whose matcher covers the group, nobody if none does |
| Router.Routes.Current | pkg/apiserver/router.go:191-239 | Answers, and leaves the router, as a run's read does |
| Router.Routes.ServingFor | pkg/apiserver/router.go:150-152 | The owner of the group in that answer, nobody if it has none |
| Router.Routes.Rebuild | pkg/apiserver/router.go:205-235 | The nested loops compute the merge from scratch, whatever order the maps are gone through in |
| Router.TakeGroups | pkg/apiserver/router.go:217-228 | Groups not taken are added with their owner; those taken stay as they are |
| Router.TakeResources | pkg/apiserver/router.go:229-234 | Exactly the resources of the groups this workspace owns are added |
| RouterInterleaving.HitCovers | pkg/apiserver/router.go:192-203 | An entry under the key a reader added up, counter by counter and at different moments, covers every refresh whose bump preceded the call |
| RouterInterleaving.BuiltOk | pkg/apiserver/router.go:205-238 | So does what that reader rebuilds itself, snapshot by snapshot |
| RouterInterleaving.StepKeepsInv | pkg/apiserver/router.go:78-84 | Every atomic load, store and lock step of every reader and cache, and each of the two stores of a replacement, keeps the invariant, provided a reader loads the revision its set is meant for |
| RouterInterleaving.EveryCallIsCurrent | pkg/apiserver/router.go:191-239 | In every interleaving in which each reader loads the revision its set is meant for, each call returns, for each workspace, a view including every refresh whose bump precedes its start: on the lock-free hit, the hit under the lock and the rebuild |
| RouterInterleaving.QuietReplacementsSuffice | pkg/apiserver/router.go:78-84 | The same, if no reader is between its two key loads when a set is stored, and none begins before the revision is |
| RouterProgress.LockIsHeldInside | pkg/apiserver/router.go:197-198 | In every run, whatever the keys: the lock is held if and only if a reader is between locking and unlocking, and by one at most |
| RouterProgress.NoCallWedges | pkg/apiserver/router.go:191-239 | In every run a reader in a call can go on, or waits for exactly one other, which is inside and can go on |
| RouterProgress.LeavingUnlocks | pkg/apiserver/router.go:197-203 | Once the one inside is answered, by a hit under the lock or its own rebuild, one that waits can lock |
| RouterProgress.EveryCallCanReturn | pkg/apiserver/router.go:191-239 | In every run every call under way can be answered, by its own steps and those of the reader inside alone |
| RouterProgress.RebuiltIsHeld | pkg/apiserver/router.go:237-238 | What was rebuilt is returned and held |
| RouterProgress.UnmovedIsHit | pkg/apiserver/router.go:192-195 | While nothing has moved since a view was put in place, a call is handed that very view, without locking or merging |
| RouterMispairing.ReplaceBetweenKeyLoads | pkg/apiserver/router.go:192 | A replacement between the key loads: a run, for any snapshots and with one wrongly paired key, in which the old set's sum is paired with the new revision and a later call is handed the older snapshot |
| RouterMispairing.CallBetweenStores | pkg/apiserver/router.go:82-83 | Key loads between the two stores of a replacement: a run, for any snapshots and with that one wrongly paired key, in which the new set's sum is paired with the old revision and the call is handed the old set's older snapshot |
| RouterMispairing.CurrentExactlyIfPaired | pkg/apiserver/router.go:191-239 | Of all bounds on how many keys a run may pair with a later, or an earlier, revision than their set's, every call of every run is current if and only if both bounds are zero |
| Signals.NoLostWakeup | pkg/kcp/watch.go:123-132 | In every run in which refreshes succeed, a notified change not yet reflected has a signal in the channel, taken for a read not begun, or a read under way that began after it, although full sends are dropped |
| Signals.DueIsTaken | pkg/kcp/discovery.go:217-230 | In every run a refresh is due with a signal exactly if a signal, not the backstop, asked for it last |
| Signals.TakenWereSent | pkg/kcp/watch.go:97-102 | In every run the signals taken and the one waiting are no more than were sent |
| Signals.LostOnlyAfterFailure | pkg/kcp/discovery.go:216-239 | In any run, a change can be forgotten only while the latest refresh to finish is a failed one |
| Signals.FailureConsumesSignal | pkg/kcp/discovery.go:232-235 | It does happen: a run that forgets a change |
| Signals.SuccessRepairs | pkg/kcp/discovery.go:232-238 | After whatever failures, one successful refresh leaves every notified change reflected or signalled |
| Breakers.Breaker.constructor | pkg/apiserver/backend.go:78-80 | A new breaker is closed, with nothing counted |
| Breakers.Breaker.Allow | pkg/apiserver/backend.go:92-114 | A closed circuit admits at any time and stays as it is; an open one admits exactly after its cooldown and a half-open one exactly without a probe, and is then half-open and probing; a refusal changes nothing |
| Breakers.Breaker.Record | pkg/apiserver/backend.go:117-137 | A success closes the circuit with nothing counted; a failure opens it for a cooldown if it was half-open or completes the threshold, and else is only counted |
| Breakers.RoundTripWithRetries | pkg/apiserver/backend.go:193-230 | A request with a body, or that changes state, is sent once; another until an answer, the retries are used up or the caller is gone; returns the last attempt, all before it having failed |
| Breakers.RoundTrip | pkg/apiserver/backend.go:170-191 | Refused requests send nothing and change nothing. Admitted ones are recorded once: an answer below 500, a 4xx included, leaves the circuit closed and nothing counted, and any other outcome counts one more failure or opens it |
| Breakers.NeverWedges | pkg/apiserver/backend.go:92-137 | Over all interleavings of admitted requests and their records: half-open if and only if probing, then the probe is in flight and owes its record, and failures stay below the threshold |
| Breakers.AdmitsWhenDrained | pkg/apiserver/backend.go:96-110 | With nothing in flight and the cooldown over, a request is admitted |
| Breakers.BreakerIsItsHistory | pkg/apiserver/backend.go:85-137 | Circuit, failures and openUntil are what the history says: failures since the last success or trip, a trip exactly when that run reaches the threshold or a failure lands half-open |
| Breakers.ProbesAreSpaced | pkg/apiserver/backend.go:92-137 | Two admissions while the circuit is not closed, with no success between them, are at least a cooldown apart |
| Breakers.ProbesAreFew | pkg/apiserver/backend.go:92-137 | A stretch of length W without a success lets at most 1 + W/cooldown of them through |
| Breakers.OneProbePerEpisode | pkg/apiserver/backend.go:104-110 | Between two probes some request was recorded: one probe an episode |
| Breakers.OneProbeAtATime | pkg/apiserver/backend.go:104-110 | Once half-open, no continuation lets a second probe through beside the one that is out if and only if nothing else is in flight |
| Breakers.TwoProbesInFlight | pkg/apiserver/backend.go:104-110 | Two probes can be out at once, for any cooldown: a run in which a late failure ends an episode under its probe |
| PatchAdmission.StepKeepsInv | pkg/apiserver/admission.go:139-207 | Every step of the request and of other writers keeps what each phase knows about the store's past |
| PatchAdmission.NoLostUpdate | pkg/apiserver/admission.go:139-207 | For every interleaving: a replacement PUT accepted after the old object was read means nothing changed from fetch to PUT, the dry run resolved that object, and the store is as after one atomic patch-then-mutate; one not accepted leaves it alone |
| PatchAdmission.NoLostUpdateSinceDryRun | pkg/apiserver/admission.go:157-207 | With the old object unread and the dry run's version left in place by the webhooks, the same from the dry run on |
| PatchAdmission.SafeIfGuarded | pkg/apiserver/admission.go:197-207 | In every reachable state with a replacement to send: whatever others do, its PUT is taken only on the object the dry run resolved, and is then one atomic patch-then-mutate, if and only if the version it carries is that object's or one no object will have again, or it carries none where kcp takes none |
| PatchAdmission.GuardsByCase | pkg/apiserver/admission.go:157-207 | That guard always holds when the old object was read, and when the webhooks left the dry run's version alone; with a version dropped, or a create, it depends on what kcp takes without one |
| PatchAdmission.MutatedCreateIsUnguarded | pkg/apiserver/admission.go:157-207 | A mutated patch that creates has no guard: it is written if and only if kcp takes a PUT without a version there, and overwrites a racing create if and only if it takes one on existing objects |
| PatchAdmission.ForwardedAtMostOnce | pkg/apiserver/proxy.go:251-265 | The patch reaches kcp at most once, and never after a refusal |
| PatchAdmission.UnmutatedIsTransparent | pkg/apiserver/admission.go:180-195 | When admission changes nothing, every run takes the store through exactly what the client's own patch at the moment of forwarding would, and a refusal writes nothing |
| PatchAdmission.StoresAdmittedExactly | pkg/apiserver/admission.go:191-195 | In every reachable state with an admitted patch to forward: whatever others do, it is rejected or stores what admission saw, if and only if it gives that content or is rejected on every object others can leave |
| PatchAdmission.VersionedPatchStoresAdmitted | pkg/apiserver/admission.go:191-195 | So it does when it applies to no object but the one the dry run saw |
| PatchAdmission.SeenIfAdmitted | pkg/apiserver/admission.go:139-195 | In every run, a patch about to be forwarded was admitted if and only if the run has an admission in it |
| PatchAdmission.UnadmittedIsStored | pkg/apiserver/admission.go:141-155 | A failed dry run lets a patch through unadmitted: for every patch and object, a run that stores what the webhooks refuse in every case, and the one with the dry run answered, which stores nothing |
| PatchAdmission.RunPatch | pkg/apiserver/admission.go:109-208 | Whatever others do between its round trips, the code takes the steps of a run. An unknown caller is refused, a request admission does not concern is forwarded, and for the others: forwarded unadmitted if and only if the dry run gave no answer or did not resolve, refused if and only if the webhooks refuse, forwarded admitted if and only if they change nothing |
| PatchAdmission.ServePatch | pkg/apiserver/proxy.go:245-266 | Forwarding included: the handler ends as a run does, and stores what its decision says if kcp takes it, also when the answer is lost; with an unknown caller, or a refusal, nothing of the request's is stored |
| PatchAdmission.GateOf | pkg/apiserver/admission.go:110-136 | Admission is skipped if and only if there is none, the request is no patch of a resource, nothing watches it or nothing handles writes; and else refused if and only if the caller is unknown |
| PatchAdmission.UnknownCallerIsRefused | pkg/apiserver/admission.go:133-136 | In every run with an unknown caller the request is never forwarded or replaced, and the store moves by others' steps alone |
| PatchAdmission.SkippedIsForwarded | pkg/apiserver/admission.go:110-131 | In every run of a request admission does not concern, it is never refused by it, and the store moves as with the client's own patch |
| PatchAdmission.UnadmittedExactly | pkg/apiserver/admission.go:141-155 | In every run where admission runs, a patch about to go out was not admitted if and only if its dry run gave no answer or did not resolve |
| Registrar.ComputeForeign | pkg/apiserver/clusterapis.go:62-72 | Exactly the listed group versions whose APIService does not point at spillway's Service |
| Registrar.ForeignExactly | pkg/apiserver/clusterapis.go:62-84 | A group version is foreign if and only if the cluster lists it and the APIService of its name is missing or points elsewhere |
| Registrar.ComputeWanted | pkg/apiserver/apiservices.go:217-225 | An APIService for each served version that is not foreign, and for nothing else |
| Registrar.VisitExisting | pkg/apiserver/apiservices.go:238-272 | For an APIService that exists: the one write it calls for, if any, and whether it is counted |
| Registrar.ApplyExisting | pkg/apiserver/apiservices.go:236-272 | The first loop brings every existing name to its final state and no other |
| Registrar.ApplyMissing | pkg/apiserver/apiservices.go:274-285 | The second loop brings the missing names to theirs, keeping the first loop's |
| Registrar.Apply | pkg/apiserver/apiservices.go:232-288 | The whole new cluster, the count, the errors and the number of writes, for any writes refused and any other writer getting to a name first |
| Registrar.Reconcile | pkg/apiserver/apiservices.go:191-288 | Writes only if this replica leads, the workspaces have been read, and the CA bundle, the cluster's own API and the APIServices are known; otherwise nothing is touched. The guard acts on its read of the APIServices and the round on its own, whatever others did between. Finding a name taken, or gone, is no error of a creation, or a deletion |
| Registrar.NamesInjective | pkg/apiserver/apiservices.go:335 | Versions without dots have names of their own |
| Registrar.NamesShared | pkg/apiserver/apiservices.go:335 | Two group versions share a name if and only if one's version is the other's with a dot and a part more, which the other's group begins with |
| Registrar.ForeignWithdrawnOnly | pkg/apiserver/apiservices.go:217-288 | No round creates or updates the APIService of a group version the guard read as served without spillway, and it deletes it if and only if its own read finds it labelled and pointing at spillway |
| Registrar.ForeignUntouched | pkg/apiserver/apiservices.go:217-288 | So where the two reads agree, as under one consistent read, no round creates, updates or deletes it |
| Registrar.WritesOnlyItsOwn | pkg/apiserver/apiservices.go:245-285 | Over what other writers do: every update is of an APIService read labelled and unchanged since, and keeps its other parts; every deletion of one read labelled and pointing at spillway; every creation of a wanted one that is missing |
| Registrar.RemovesAnothers | pkg/apiserver/apiservices.go:260-268 | A deletion names no version: a round removes an APIService that is unlabelled or points elsewhere if and only if another writer put it in place of one read as spillway's and no longer wanted |
| Registrar.WriteExactly | pkg/apiserver/apiservices.go:242-285 | The write a name calls for is an update if and only if it is wanted, was read labelled, and its spec differs in any part; a deletion if and only if it is not wanted, and was read labelled and pointing at spillway; a creation if and only if it is wanted and missing |
| Registrar.CleanRoundIsRight | pkg/apiserver/apiservices.go:217-288 | After a round without errors or races every served group version that is not foreign has its APIService; if labelled, that says group, version, Service, CA bundle and priorities as configured; nothing else labelled points at spillway; and what was read unlabelled is as it was |
| Registrar.Settled | pkg/apiserver/apiservices.go:227-288 | A round without errors or races leaves nothing to write and a count equal to the labelled wanted APIServices |
| Registrar.OnlyRacesRemain | pkg/apiserver/apiservices.go:251-285 | A round without errors leaves work only at names another writer got to |
| Registrar.SecondRoundWritesNothing | pkg/apiserver/apiservices.go:191-288 | A second round with the same snapshot, and a discovery differing only in group versions now routed to or withdrawn by spillway, makes no write and reports the same count |
| WorkspaceManager.Manager.Build | pkg/apiserver/workspacemanager.go:80-91 | A workspace built for the entry and read once, holding only groups the entry covers, or nothing if that read fails |
| WorkspaceManager.Manager.Launch | pkg/apiserver/workspacemanager.go:80-106 | Comes up if and only if it is built, kcp answers all of its first read, and its watch starts; what started without its watch is cancelled again |
| WorkspaceManager.Manager.LaunchAll | pkg/apiserver/workspacemanager.go:64-72 | Every entry launched in order, or a stop at the first failure |
| WorkspaceManager.Manager.Start | pkg/apiserver/workspacemanager.go:64-76 | Succeeds if and only if every launch does; then live equals routed, in the order of the configuration |
| WorkspaceManager.IndexByName | pkg/apiserver/workspacemanager.go:147-150 | The map finds for every name the running workspace of that name |
| WorkspaceManager.Manager.Place | pkg/apiserver/workspacemanager.go:156-184 | One entry: the old workspace stays if unchanged or irreplaceable, else the launched one takes its place |
| WorkspaceManager.Manager.LaunchChanged | pkg/apiserver/workspacemanager.go:152-184 | The loop yields the next set, the kept names and the number of launches |
| WorkspaceManager.Manager.StopOthers | pkg/apiserver/workspacemanager.go:186-195 | Stops exactly the running workspaces not kept, and counts those not in the next set |
| WorkspaceManager.Manager.LaunchAndStop | pkg/apiserver/workspacemanager.go:152-195 | What is launched and stopped before the set is replaced; at that moment a stopped workspace is routed if and only if some running one is not kept |
| WorkspaceManager.Manager.Adopt | pkg/apiserver/workspacemanager.go:144-209 | The whole new fleet, the number of changes, and a replacement of the set only if there is one |
| WorkspaceManager.Manager.Reconcile | pkg/apiserver/workspacemanager.go:138-209 | A configuration that cannot be loaded changes nothing; any other keeps live equal to routed and leaves the fleet as specified |
| WorkspaceManager.ReconcileKeepsSound | pkg/apiserver/workspacemanager.go:138-209 | Whatever fails to launch, the launched and not cancelled workspaces are exactly the routed ones, and names stay distinct |
| WorkspaceManager.RoutedByName | pkg/apiserver/workspacemanager.go:156-184 | By name: the launched workspace if there is one, otherwise the very object that ran before, and nothing for names not configured |
| WorkspaceManager.NextSplits | pkg/apiserver/workspacemanager.go:152-184 | Each entry's workspace stands where the entry stands, a failed relaunch included |
| WorkspaceManager.UnchangedSet | pkg/apiserver/workspacemanager.go:186-199 | No changes are counted if and only if the next set has the same workspaces as the current one |
| WorkspaceManager.RunsStaySound | pkg/apiserver/workspacemanager.go:109-128 | Live equals routed after any run of rounds |
| WorkspaceManager.UnchangedSurvives | pkg/apiserver/workspacemanager.go:157-162 | An entry that does not change keeps the same object, running, through every run |
| WorkspaceManager.Converges | pkg/apiserver/workspacemanager.go:138-209 | Once the launches a round needs succeed, exactly the configured workspaces run as configured, and a further round has nothing to do |
| WorkspaceManager.ReorderIsNotApplied | pkg/apiserver/workspacemanager.go:197-199 | A configuration asking for exactly the running workspaces, in any order, counts as no change, and the router keeps the old order |
| WorkspaceManager.AppliedExactly | pkg/apiserver/workspacemanager.go:186-201 | The router ends with the configured set in the configured order if and only if the members differ or the order does not |
| WorkspaceManager.StoppedWhileRouted | pkg/apiserver/workspacemanager.go:186-201 | Between stopping and replacing, the router names a stopped workspace if and only if the round removes or replaces one |
| WorkspaceManager.ReplacedIsStoppedFirst | pkg/apiserver/workspacemanager.go:186-201 | Every replaced workspace is stopped while the router still names it |
| WorkspaceManager.UnchangedMeansSameSettings | pkg/apiserver/workspacemanager.go:157-162 | A workspace is kept as unchanged if and only if the settings it was built from are those now configured |
| Paths.CanonicalExactly | pkg/apiserver/proxy.go:178-184 | A path beginning with a slash is accepted if and only if it is names, none empty, "." or "..", each after one slash, with at most one slash more; "//" is accepted |
| Paths.OnlyDoubleSlash | pkg/apiserver/proxy.go:171-184 | Of all paths with two slashes in a row only "//" is accepted, and it goes to the location itself, as "/" does |
| Paths.TargetFollows | pkg/apiserver/proxy.go:151-156 | The target is the location's segments followed by the request's, one by one |
| Paths.TargetConfined | pkg/apiserver/proxy.go:151-184 | Every accepted path goes to the cleaned location or below it on a segment boundary, and passes the prefix check whenever the location is clean |
| Paths.TargetInjective | pkg/apiserver/proxy.go:151-156 | Two accepted paths have one target if and only if they are written with the same names |
| Paths.PrefixAloneIsNotEnough | pkg/apiserver/proxy.go:278-285 | For every workspace, the prefix check by itself lets ".." through to a sibling whose name begins like this one's; the refusal of such paths is what confines |
| Paths.UnrootedEscapes | pkg/apiserver/proxy.go:178-184 | Of `canonicalPath` by itself: it accepts some paths that do not begin with a slash and leave the workspace |
| Paths.UnrootedExactly | pkg/apiserver/proxy.go:178-184 | It accepts a path without a slash in front if and only if it is ".", or any number of ".." and then names, perhaps with a slash after them |
| Discovery.AggregatedVersion | pkg/apiserver/discovery.go:226-272 | The two loops and their maps compute the nested list |
| Discovery.File | pkg/apiserver/discovery.go:227-258 | The first loop files every resource under its name, the later one winning, every subresource under its parent, and the parents in order |
| Discovery.Assemble | pkg/apiserver/discovery.go:260-265 | The second loop puts each parent, in order, with its own subresources |
| Discovery.NestedInOrder | pkg/apiserver/discovery.go:226-272 | With distinct parent names: parents in input order, and under each its subresources in input order |
| Discovery.NestedSays | pkg/apiserver/discovery.go:243-286 | Every resource of the nested list says, field by field, what was listed of it last, and every subresource what was listed of it; a kind with neither group nor version is of the list's |
| Discovery.NestedConservesExactly | pkg/apiserver/discovery.go:226-272 | For every list: flattening gives back every parent and every subresource that has a parent exactly once if and only if names listed twice are listed alike and have no subresources |
| Discovery.NestedConserves | pkg/apiserver/discovery.go:226-272 | So it does for distinct parent names |
| Discovery.NothingLostWithoutOrphans | pkg/apiserver/discovery.go:226-272 | Flattening gives back the whole list, up to order, if and only if every subresource's parent is in it |

## Left out

- RouterInterleaving.EveryCallIsCurrent: replacements do not overlap, as only the manager's one loop makes them.
- Router.Routes.Current: a call is atomic here; the lock, the second look at the held merge and what other
  threads do meanwhile are in RouterInterleaving.dfy, on values rather than in place.
- Configuration.FingerprintSound: Go's printing of integers and durations is taken to be injective and free of NUL.
- Breakers.ProbesAreSpaced: times are taken not to decrease in the order in which the lock is taken.
- PatchAdmission.NoLostUpdate: whether kcp takes a PUT without a version is a parameter, and so are the patch and
  the webhooks; semantic equality of objects is equality. A client's own dry run is not modelled.
- PatchAdmission.ServePatch: the webhooks edit the resolved object in place in the code; here they return another.
- Registrar.Reconcile: what other writers do to names the round has no turn at, after its read, is not modelled. Semantic
  equality of specs is equality. A registrar without the guard (a nil `clusterAPIs`) is one with an empty listing.
- Registrar.SecondRoundWritesNothing: both reads of a round are taken to agree, and versions to have no dots,
  without which names collide (`Registrar.NamesShared`).
- WorkspaceManager.Manager.Launch: the refresh loop and the credential reload it starts are left to run on their
  own; a workspace counts as live from launch to cancellation.
- admission of creates, updates and deletes (`run`), owner references and body inspection: one pass without
  interleaving, easy once objects are abstract.
- the OpenAPI document cache and the conversion between versions: read-through caches, not modelled.
- publishing discovery into the server's own lists: not modelled beyond the nesting of one version.
- the namespace mirror: repeats the breaker's spacing argument in an easier form.
- the filter on CRDs and bindings in the watch: only decides which changes notify.
- HTTP, TLS, credentials, impersonation, leader election, metrics, logging and flags: input and output, or library code.
- wrap-around of 64-bit counters: counters are unbounded.
