# Verified model of the endpoint platform's log-and-fold cores

The repository keeps append-only rows (JSONL logs, SQL counters) and derives state from them,
and it ranks and gates decisions. This project models those parts in Dafny and proves what they
promise, for all inputs and over all runs.

| file | what it models |
|---|---|
| `Clustering.dfy`, `ClusteringLaws.dfy`, `ClusteringWindow.dfy`, `ClusteringOrder.dfy`, `ClusteringPatterns.dfy` | incident clustering: grouping, the greedy gap split, what it computes, and what it computes whatever the digest |
| `PlatformMetrics.dfy` | the cluster part of the platform metrics |
| `RemediationPolicy.dfy`, `Remediation.dfy`, `RemediationLaws.dfy`, `RemediationPlatform.dfy` | ingest, preview and execute: roles, registry, policy and allowlist; the state machine over five logs; its laws; the handlers, which keep its invariant |
| `OrderFlow.dfy`, `OrderHistory.dfy` | the order-flow simulator and its audit log; its table read from the audit rows |
| `Logs.dfy`, `IncidentLifecycle.dfy`, `FleetStore.dfy` | latest-row-wins logs, incident lifecycle, fleet heartbeats |
| `UsageQuota.dfy` | monthly usage under plan limits that may change |
| `EdgeSignals.dfy`, `EdgeScenarios.dfy`, `EdgeEvidence.dfy`, `EdgePolicy.dfy`, `EdgeReasoning.dfy` | the edge pipeline: normalise, rank, gate, and what each signal is worth |
| `Attribution.dfy`, `EventBus.dfy` | attribution scorer, event reader |
| `PrometheusExporter.dfy`, `PrometheusRegistry.dfy` | sample names and their reader; the labelled counters and the page they fill |
| `Ordering.dfy`, `Text.dfy` | stable sorting, sorted sets, ASCII string operations |

Code that changes state is a class or a method with loops, proved against a function of the old
state; the laws are lemmas about that function. Pure code is a function.

SHA-256, UUID5, ISO formatting, `strip`, `float` parsing, the clock, fresh ids and the subprocess
result are function-valued fields or parameters. Theorems hold for every choice of them, with three
stated exceptions: clustering results about keys and order require 64-character digests
(`WellFormed`), results about `first_seen` require a clock that never reads as an empty text
(`ClockWorks`), and results about missing edge readings require that stripping an empty text leaves it
empty. Fixed texts such as audit wording and incident titles are enumerated, not spelled out.
Scores are integers in hundredths, telemetry readings are reals, times are integers in
microseconds. Each handler call or SQL transaction is one atomic step.

## Where the code and its documentation differ

The model follows the code.

- Over times that are plain instants, clustering does not depend on the order of its input if and only
  if the window is not negative (`OrderIndependentIff`). The platform's own windows are positive. The component characterisation
  and the conservation law hold for every window.
- `read_events` returns the oldest matches, and a limit below one still returns one row
  (`EventBus.ReadEvents`).
- `remediation_execute` is documented to append an execution row always. It appends one exactly when
  the caller is permitted, the preview is stored, the action is registered, and either the policy blocks
  it or the phrase is right and a script that is to run is allowlisted, present and does not crash
  (`ExecutionRowIff`, with a run that falls short in `WrongPhraseLeavesNoExecution`).
- Only the timeout of the subprocess is caught. When it ends with any other exception, the pending row
  is the last trace: a call that reaches its preview writes a contract row exactly when that does not
  happen (`ContractRowIff`, with such a run in `CrashLeavesNoRows`).
- The `SAFE_MODE` branch of `remediation_execute` does nothing and has no counterpart.
- A contract audit row written after a legacy row restarts the hash chain with an empty link, and
  every preview does so (`PreviewsRestartTheChain`).
- The endpoint of a preview comes from the stored failure event, not from the request.
- `run_scenario` puts an order back to NEW without an audit row, so it starts a new chain
  (`RestartStartsAfresh`).
- The severity cap for weak incident evidence never applies: no rule assigns a critical severity
  (`CandidateMeaning`).
- Once a fleet record has a canonical value, its legacy alias is ignored
  unless the heartbeat blanks that value (`AliasEffective`), and a
  bare `status` is ignored after the first heartbeat (`StatusIgnoredLater`).
- Edge ALLOW does not depend on the impact level, and its reason codes always include the one that
  asks for typed confirmation, which the module describes as a sign of regression
  (`EvaluateEdgePolicy`).
- Missing edge telemetry can raise one signal, the healthy-inference one: exactly when what is left
  looks healthy and a reading that spoke against it is gone (`MissingRaisesNoFailure`,
  `MissingRaisesHealthyIff`).
- The Procmon tier label can be given without a qualifying Procmon row; the exact condition is
  `ProcmonLabelWithoutProcmonProof`.
- The exporter escapes label values and nothing else. Under the Prometheus text exposition format
  0.0.4 a sample reads back if and only if its metric and all its label names obey the grammar
  (`RoundTripIff`), and it stays on one line if and only if those names do (`OneLineIff`). Different
  counters get different sample names as long as no label name contains `="`
  (`SampleNamesDistinct`); with it two label sets can render alike (`QuotedNamesCollide`).

## Model

| member | source | states |
|---|---|---|
| `Clustering.GroupEvents` | platform_core/incidents.py:149-163 | the dictionary loop holds, for every fingerprint key of the rows with an id, exactly the rows of that key in input order |
| `Clustering.SplitGroup` | platform_core/incidents.py:168-181 | the bucket loop emits one cluster per bucket of the recursive split whose components are characterised below |
| `Clustering.ClusterGroups` | platform_core/incidents.py:165-181 | the loop over sorted groups yields the clusters of all groups' buckets, in key order |
| `Clustering.ClusterFailureEvents` | platform_core/incidents.py:125-184 | the nested loops compute the specification `Clusters` about which the clustering laws are proved |
| `Clustering.MaxLast` | platform_core/incidents.py:174-174 | an upper bound of the bucket's last-seen times that some row attains |
| `Clustering.MinFirst` | platform_core/incidents.py:94-94 | a lower bound of the bucket's first-seen times that some row attains |
| `ClusteringLaws.MaxLastIsLast` | platform_core/incidents.py:167-178 | the maximum the pass compares with is the time of the last sorted row |
| `ClusteringLaws.SplitConcat` | platform_core/incidents.py:168-181 | the buckets of a group, concatenated, are the sorted rows |
| `ClusteringLaws.SplitGaps` | platform_core/incidents.py:168-181 | inside a bucket neighbours are at most the window apart, across buckets all rows are further apart |
| `ClusteringLaws.ClustersAreComponents` | platform_core/incidents.py:149-181 | for every window, two rows share a cluster exactly when they have one fingerprint key and a chain of that group's rows joins them by gaps no larger than the window |
| `ClusteringLaws.BucketsConserve` | platform_core/incidents.py:149-181 | the buckets hold every row exactly as often as the input does, whatever the window |
| `ClusteringLaws.EventCountsAddUp` | platform_core/incidents.py:91-122 | the event counts of the clusters add up to the number of events that carry an id |
| `ClusteringLaws.ClusterTimes` | platform_core/incidents.py:91-122 | first and last seen of a cluster are the earliest first and the latest last time of its rows |
| `ClusteringLaws.ClusterSeverity` | platform_core/incidents.py:56-122 | a cluster is high exactly when some event is high, or some is medium and two endpoints are hit, and low exactly when no event is worse and at most one endpoint is hit |
| `ClusteringLaws.ClusterLists` | platform_core/incidents.py:99-121 | the reported event and endpoint ids are exactly the non-empty ones of the rows, sorted and without repetition, and the counts count them |
| `ClusteringLaws.ClusterIdText` | platform_core/incidents.py:107-112 | the cluster id digests the event ids, then the first and the last time, joined by bars |
| `ClusteringLaws.OutputOrdered` | platform_core/incidents.py:183-184 | the clusters come out by last time, and by id where that is equal |
| `ClusteringLaws.RowTimes` | platform_core/incidents.py:155-159 | each of the two times stands in for the other, and the clock for both |
| `ClusteringWindow.WindowCoarsens` | platform_core/incidents.py:125-184 | for any two windows, the wider one's buckets are runs of neighbouring buckets of the narrower one |
| `ClusteringWindow.ClusterCountAntitone` | platform_core/incidents.py:125-184 | the number of clusters never grows with the window |
| `ClusteringWindow.NarrowInExactlyOneWide` | platform_core/incidents.py:165-181 | each bucket of the narrow window lies inside exactly one bucket of the wide one |
| `ClusteringWindow.NarrowClusterCovered` | platform_core/incidents.py:91-184 | each narrow cluster has a wide cluster with the same pattern, all its ids and endpoints, and a severity no lower |
| `ClusteringWindow.GroupKeyDecodes` | platform_core/incidents.py:82-88 | equal group keys mean equal category and equal fingerprint, even when categories contain the separator |
| `ClusteringWindow.ClusterMembers` | platform_core/incidents.py:165-184 | the reported clusters are exactly the images of the buckets |
| `ClusteringOrder.EventOrderIrrelevant` | platform_core/incidents.py:91-184 | any permutation of parsable events gives the same list of clusters, with duplicate ids and tied sort keys allowed |
| `ClusteringOrder.NegativeWindowDepends` | platform_core/incidents.py:175-183 | for every negative window two inputs that differ only in order give different lists |
| `ClusteringOrder.OrderIndependentIff` | platform_core/incidents.py:125-184 | the result is independent of the input order if and only if the window is not negative |
| `ClusteringPatterns.SharedKeyIff` | platform_core/incidents.py:82-88 | two events share a group key under every digest exactly when category, action and the first 48 characters of the summary agree, bar-separated |
| `ClusteringPatterns.SharedClusterIff` | platform_core/incidents.py:82-184 | two rows share a cluster under every digest exactly when their patterns agree and a chain of rows with that pattern joins them by gaps no larger than the window |
| `ClusteringPatterns.ClusterPattern` | platform_core/incidents.py:95-97 | a cluster reports its rows' category, and pattern keys are equal exactly when group keys are |
| `PlatformMetrics.ReportedExactly` | platform_core/metrics.py:161-182 | for every window, an endpoint is reported by some cluster exactly when an event with an id names it |
| `PlatformMetrics.AffectedEndpoints` | platform_core/metrics.py:165-167 | the loop accumulates exactly the endpoints that some cluster reports |
| `PlatformMetrics.ClusterMetrics` | platform_core/metrics.py:161-182 | the affected-endpoint count is the number of distinct non-empty endpoints among events with an id |
| `RemediationPolicy.OnlyResetsRunLive` | platform_core/remediation_registry.py:132-420 | over all action names, only the DNS and the proxy reset pass every registry gate for a live run, each with its own phrase |
| `RemediationPolicy.RegistryVerdict` | platform_core/remediation_registry.py:132-420 | by name, exactly which actions pass the policy, whatever the surface |
| `RemediationPolicy.RegisteredNames` | platform_core/remediation_registry.py:132-420 | by name, exactly which actions and aliases the registry knows |
| `RemediationPolicy.RegistryRisks` | platform_core/remediation_registry.py:132-317 | by name, exactly which actions are high-risk and which forbidden |
| `RemediationPolicy.RegistryApi` | platform_core/remediation_registry.py:132-317 | by name, exactly which actions may run through the API |
| `RemediationPolicy.RegistryManual` | platform_core/remediation_registry.py:132-317 | by name, exactly which actions only a person may run |
| `RemediationPolicy.PhraseAsked` | platform_core/policy/classic.py:94-182 | exactly the resets, and unknown names, ask for a typed phrase |
| `RemediationPolicy.PolicyMeaning` | platform_core/policy/classic.py:51-92 | an action passes exactly up to medium risk on its own surfaces, and the reason names the check that failed |
| `RemediationPolicy.InjectionMeaning` | platform_core/policy/classic.py:192-197 | a name is refused exactly for the seven characters that end or chain a command |
| `RemediationPolicy.AllowlistNames` | platform_core/remediation.py:27-33 | the scripts that may ever run, name by name |
| `RemediationPlatform.Platform.constructor` | platform_core/storage.py:104-111 | logs that do not exist yet hold no rows, and the invariant holds |
| `RemediationPlatform.Platform.AppendContract` | platform_core/product_contract.py:499-510 | one more row with the payload, carrying the hash of the row before it if that is a contract row and nothing otherwise, and digesting both |
| `RemediationPlatform.Platform.IngestFailureEvent` | backend/platform_routes.py:371-389 | keeps the invariant, appends no contract row, and agrees with the state machine on response and logs |
| `RemediationPlatform.Platform.RemediationPreview` | backend/platform_routes.py:429-515 | on all four exits: keeps the invariant, agrees with the state machine, and appends one contract row exactly when a preview is stored |
| `RemediationPlatform.Platform.RemediationExecute` | backend/platform_routes.py:551-610 | on every exit, a crash of the script included: keeps the invariant, agrees with the state machine, and starts a script, writes an execution row and writes a contract row exactly under the conditions of `SpawnsIff`, `ExecutionRowIff` and `ContractRowIff` |
| `RemediationPlatform.Platform.ExecuteKnown` | backend/platform_routes.py:612-667 | policy and confirmation checks lead to the exit that the gate function names |
| `RemediationPlatform.Platform.ExecuteConfirmed` | backend/platform_routes.py:669-742 | manual-only and dry-run checks lead to the exit that the gate function names |
| `RemediationPlatform.Platform.ExecuteScript` | backend/platform_routes.py:744-792 | platform and allowlist checks lead to the exit that the gate function names |
| `RemediationPlatform.Platform.RecordBlocked` | backend/platform_routes.py:613-651 | exactly one execution row naming the preview, then one legacy and one contract row |
| `RemediationPlatform.Platform.RecordDenied` | backend/platform_routes.py:653-667 | no execution row and exactly one contract row |
| `RemediationPlatform.Platform.RecordAttempt` | backend/platform_routes.py:710-776 | exactly one execution row naming the preview and one contract row |
| `RemediationPlatform.Platform.RunLive` | backend/platform_routes.py:794-889 | the pending row is the next audit row and the start is recorded right after it; then one execution row naming the preview and a final contract row, or nothing more when the script crashes |
| `RemediationLaws.PerformShape` | backend/platform_routes.py:586-889 | by exit and by the script's ending: which logs grow by how many rows, and what a start leaves behind |
| `RemediationLaws.LogsOnlyGrow` | backend/platform_routes.py:371-889 | no call changes or removes a row of any log |
| `RemediationLaws.RunsKeepInvariant` | backend/platform_routes.py:371-889 | in every reachable state previews come from stored events, executions from stored previews, every start is justified, and every contract row carries the hash of a contract row right before it, else nothing, and digests both |
| `RemediationLaws.ExecutionsAreTraced` | backend/platform_routes.py:457-465 | over every run, each execution row was written by a call k that names a preview stored by an earlier call j, built from a failure event stored before j |
| `RemediationLaws.PreviewsAreTraced` | backend/platform_routes.py:457-465 | over every run, each preview was stored by some call from a failure event stored before that call |
| `RemediationLaws.SpawnSafety` | backend/platform_routes.py:586-811 | over every run, a started script is one of two resets, asked for live by an admin outside demo mode on Windows, with its phrase typed, its failure event stored and its pending row right before the start |
| `RemediationLaws.LiveIff` | backend/platform_routes.py:586-792 | the gate reaches the live exit exactly when role, live request, demo mode, platform, preview, confirmation, registry and allowlist conditions all hold |
| `RemediationLaws.SpawnsIff` | backend/platform_routes.py:586-811 | a call starts a script exactly under that conjunction |
| `RemediationLaws.ExecutionRowIff` | backend/platform_routes.py:586-889 | an execute call writes one execution row exactly under a condition on role, mode, preview, registry, policy, phrase, dry run, platform, allowlist and the script's ending |
| `RemediationLaws.ContractRowIff` | backend/platform_routes.py:586-889 | an execute call writes one contract row exactly when it reaches a stored preview and does not start a script that crashes |
| `RemediationLaws.WrongPhraseLeavesNoExecution` | backend/platform_routes.py:653-667 | a run of three calls that finds its preview and writes no execution row |
| `RemediationLaws.CrashLeavesNoRows` | backend/platform_routes.py:794-857 | a run of three calls that finds its preview, starts the script and writes neither an execution nor a contract row |
| `RemediationLaws.StepAudit` | backend/platform_routes.py:457-889 | each call appends exactly the contract rows it owes and keeps the links: one per stored preview, one per execute call as in `ContractRowIff` |
| `RemediationLaws.ResponseIff` | backend/platform_routes.py:586-889 | every status code of an execute call by its own condition on the caller's input |
| `RemediationLaws.ResultIff` | backend/platform_routes.py:612-889 | an answered call reports the row it stored; success, dry run and blocked each exactly under their condition, and allowed exactly for the first two |
| `RemediationLaws.ContractSays` | backend/platform_routes.py:597-889 | kind, decision, actor, endpoint and reference of the contract row fit the answer |
| `RemediationLaws.LegacySays` | backend/platform_routes.py:624-832 | the plain audit rows of blocked calls and completed scripts, and the reasons reported |
| `RemediationLaws.AuditRowsExact` | backend/platform_routes.py:586-889 | how many audit rows an execute call writes in all, by its conditions and the script's ending |
| `RemediationLaws.IngestIff` | backend/platform_routes.py:371-389 | who may store an event, and what one call stores |
| `RemediationLaws.PreviewIff` | backend/platform_routes.py:457-515 | when a preview is stored, and every field it gets from the newest event with that id and from the registry |
| `RemediationLaws.FindsNewest` | platform_core/storage.py:137-143 | lookups return the newest row with the id |
| `RemediationLaws.ContractRowsExact` | backend/platform_routes.py:371-889 | over every run the audit log holds exactly the contract rows owed, and they are linked |
| `RemediationLaws.PreviewsRestartTheChain` | platform_core/product_contract.py:503-509 | the contract row of a preview always has an empty link |
| `OrderFlow.ChangeRaisesRank` | order_flow_simulator/state_machine.py:27-59 | a change of state is valid and raises the rank |
| `OrderFlow.OrdersAreIndependent` | order_flow_simulator/simulator.py:101-136 | for every interleaving, an order's state and audit rows are those of its own commands alone |
| `OrderFlow.InterleavingsAgree` | order_flow_simulator/simulator.py:101-136 | two interleavings of the same per-order commands end with equal states and equal audit rows per order |
| `OrderFlow.AuditChain` | order_flow_simulator/simulator.py:112-130 | an order's rows start at NEW, each continues the one before, and the last ends in the state |
| `OrderFlow.RunsAreChains` | order_flow_simulator/simulator.py:104-136 | in every run without a reset of the order, its subsequence of the audit log is such a chain ending in its stored state |
| `OrderFlow.RestartStartsAfresh` | order_flow_simulator/simulator.py:143-149 | after a reset an order behaves like a fresh one and its earlier rows stay |
| `OrderFlow.RunsRestartAfresh` | order_flow_simulator/simulator.py:138-149 | over every run, what follows a reset is what the later calls alone would do to a fresh simulator, after the earlier rows |
| `OrderFlow.ReplayReproduces` | order_flow_simulator/simulator.py:164-179 | over every run, the rows of an order record exactly the events it received, and feeding them to a fresh order writes the same rows, unless it was reset |
| `OrderFlow.AtMostFourChanges` | order_flow_simulator/state_machine.py:27-59 | at most four audit rows of an order change its state |
| `OrderFlow.StaysReachable` | order_flow_simulator/state_machine.py:27-59 | what a row still allows bounds every later row of the chain |
| `OrderHistory.RunsAcceptIff` | order_flow_simulator/state_machine.py:27-59 | over every run, each of the seven events is accepted exactly under a condition on the order's earlier valid events, and those events alone say which state it is in |
| `OrderHistory.LaterIsReached` | order_flow_simulator/state_machine.py:27-45 | every state still open to an order can be brought about by accepted events |
| `OrderHistory.DetailMeaning` | order_flow_simulator/state_machine.py:47-59 | what a row says about an event that was not accepted |
| `OrderFlow.CancelPendingNeverFills` | order_flow_simulator/state_machine.py:27-59 | an order that reached CANCEL_PENDING is never filled, in part or in full |
| `OrderFlow.TerminalIsFinal` | order_flow_simulator/state_machine.py:47-59 | after a terminal row every later row is an invalid self-loop |
| `OrderFlow.RunsChangeFourTimesPerReset` | order_flow_simulator/simulator.py:104-149 | in every run, with any number of resets, an order has at most four changing audit rows per life |
| `OrderFlow.RunsChangeAtMostFourTimes` | order_flow_simulator/simulator.py:104-136 | in every interleaved run, an order that is not reset has at most four audit rows that change its state |
| `OrderFlow.RunsNeverFillAfterCancel` | order_flow_simulator/simulator.py:104-136 | in every interleaved run, no row of an order after CANCEL_PENDING fills it |
| `OrderFlow.RunsStopAtTerminal` | order_flow_simulator/simulator.py:104-136 | in every interleaved run, the rows of an order after a terminal one are invalid self-loops |
| `OrderFlow.ScenarioOutcomes` | order_flow_simulator/simulator.py:44-67 | where the four fixed scripts end |
| `OrderHistory.ScenarioTrails` | order_flow_simulator/simulator.py:44-67 | the states the four fixed scripts pass through |
| `OrderFlow.OrderFlowSimulator.constructor` | order_flow_simulator/simulator.py:97-99 | no states and no rows |
| `OrderFlow.OrderFlowSimulator.Apply` | order_flow_simulator/simulator.py:104-136 | one step of the reference machine, and the row it returns |
| `OrderFlow.OrderFlowSimulator.RunScript` | order_flow_simulator/simulator.py:145-153 | the loop yields the reference rows, the reference state and the number of invalid rows, and leaves other orders alone |
| `OrderFlow.OrderFlowSimulator.RunScenario` | order_flow_simulator/simulator.py:138-162 | the result is that of a fresh order, the rows are appended, other orders are untouched, an unknown name changes nothing |
| `OrderFlow.OrderFlowSimulator.ReplayOrder` | order_flow_simulator/simulator.py:164-179 | exactly the rows of the order, in log order |
| `Logs.FindLast` | platform_core/storage.py:137-143 | the scan returns the last matching row, and none only if there is none |
| `Logs.ListLatest` | platform_core/incident_store.py:18-25 | one entry per non-empty id in order of first appearance, each equal to what the single-id scan returns |
| `Logs.RecordsAreIndependent` | platform_core/fleet_store.py:44-71 | for any merging store, the current record of an id is the fold of that id's own inputs |
| `IncidentLifecycle.CandidateOpens` | platform_core/incident_engine.py:34-66 | exactly when an incident is opened, by parts of signal names alone |
| `IncidentLifecycle.CandidateSeverity` | platform_core/incident_engine.py:47-63 | medium exactly when the proxy is on and a bypass cured a browser failure, high otherwise |
| `IncidentLifecycle.CandidateStamp` | platform_core/incident_engine.py:73-86 | endpoint, level, times and title of the row |
| `IncidentLifecycle.CandidateMeaning` | platform_core/incident_engine.py:60-84 | an opened incident is medium or high, the weak-evidence cap never applies, and the observation note appears exactly for observations |
| `IncidentLifecycle.CandidateSignals` | platform_core/incident_engine.py:25-31 | the row lists exactly the named signals |
| `IncidentLifecycle.RunsAreLifecycles` | platform_core/incident_engine.py:12-105 | over every run with fresh ids, an incident's rows start at OPEN and follow allowed transitions that change only state, time and actor |
| `IncidentLifecycle.IncidentBounds` | platform_core/incident_engine.py:12-105 | an incident has at most four rows, nothing follows a terminal row, and no row is critical |
| `IncidentLifecycle.NeverCritical` | platform_core/incident_engine.py:60-84 | every row of an incident keeps the severity, creation time, endpoint and signals of its first |
| `IncidentLifecycle.RankGrows` | platform_core/incident_engine.py:12-22 | row number i has reached at least rank i |
| `IncidentLifecycle.MovesRaiseRank` | platform_core/incident_engine.py:12-22 | a move is allowed exactly when it raises the rank |
| `IncidentLifecycle.MoveExactly` | platform_core/incident_engine.py:91-105 | a transition succeeds exactly when the incident exists and the move raises the rank; then only state, time and actor of its current row change and others are unaffected; otherwise the log is unchanged |
| `IncidentLifecycle.IncidentStore.EvaluateCandidate` | platform_core/incident_engine.py:34-88 | a created row is open and becomes the current row of its id, other incidents are unaffected, without a matching rule the log is unchanged, and with a fresh id all lifecycles are kept |
| `IncidentLifecycle.IncidentStore.GetIncident` | platform_core/incident_store.py:28-34 | the latest row of the id |
| `IncidentLifecycle.IncidentStore.TransitionIncident` | platform_core/incident_store.py:37-53 | appends the current row with new state, time and actor, or reports a missing incident |
| `IncidentLifecycle.IncidentStore.ApplyTransition` | platform_core/incident_engine.py:91-105 | one step of the lifecycle machine, which keeps all lifecycles; a failed call leaves the log unchanged |
| `IncidentLifecycle.IncidentStore.ListIncidentRows` | platform_core/incident_store.py:18-25 | one row per non-empty id, each what the single-id scan returns, by ascending update time |
| `FleetStore.MergeIsUpdate` | platform_core/fleet_store.py:30-62 | merging into the summary row and reading back equals a field-by-field update |
| `FleetStore.EndpointsAreIndependent` | platform_core/fleet_store.py:44-71 | for every heartbeat sequence, an endpoint's record is the fold of its own heartbeats |
| `FleetStore.FirstSeenIsFixed` | platform_core/fleet_store.py:52-60 | first_seen is not empty and stays that of the first heartbeat |
| `FleetStore.FirstSeenOverRuns` | platform_core/fleet_store.py:44-71 | the same for every endpoint of every interleaved run |
| `FleetStore.OmittedFieldKept` | platform_core/fleet_store.py:30-58 | a canonical field of one endpoint keeps its last value while heartbeats omit its key |
| `FleetStore.OmittedFieldOverRuns` | platform_core/fleet_store.py:44-71 | the same for the stored record of every endpoint of every interleaved run |
| `FleetStore.ExplicitFieldStored` | platform_core/fleet_store.py:30-62 | over every run, a field that a heartbeat sets is what the record then shows |
| `FleetStore.TimesOverRuns` | platform_core/fleet_store.py:52-60 | over every run, which of a heartbeat's times become last_seen and, the first time, first_seen |
| `FleetStore.RiskMeaning` | platform_core/fleet_store.py:23-27 | the four risk states in any case stand for themselves, all else for unknown |
| `FleetStore.AliasEffective` | platform_core/fleet_store.py:30-62 | over every run, a legacy alias with a new value reaches the stored record exactly when the heartbeat blanks the canonical field or omits it while none is stored |
| `FleetStore.StatusIgnoredLater` | platform_core/fleet_store.py:40-53 | over every run, once an endpoint has reported, a status without risk_state leaves its stored risk unchanged |
| `FleetStore.Fleet.GetRecord` | platform_core/fleet_store.py:65-71 | the record of the latest row of the id |
| `FleetStore.Fleet.AppendHeartbeat` | platform_core/fleet_store.py:44-62 | one merging step and the updated record; without an id nothing changes |
| `FleetStore.Fleet.MergeRow` | platform_core/fleet_store.py:51-60 | the successive updates build the merged row |
| `FleetStore.Fleet.ListEndpoints` | platform_core/fleet_store.py:74-81 | one record per non-empty id in order of first report, each what the single-id lookup returns |
| `UsageQuota.CountIsGranted` | backend/legacy_sqlite.py:310-351 | over every interleaving the stored count is the number of granted calls of that organisation and month |
| `UsageQuota.PairsAreIndependent` | backend/legacy_sqlite.py:310-351 | the count depends only on the limits that pair's own calls carried |
| `UsageQuota.ConstantLimit` | backend/legacy_sqlite.py:334-336 | under one limit the count is the number of calls capped by the limit, with the unlimited and negative cases |
| `UsageQuota.QuotaExact` | backend/legacy_sqlite.py:310-351 | over every run, n calls of a pair under a finite limit grant exactly min(n, limit) |
| `UsageQuota.GenerousLimitsGrantMore` | backend/main.py:407-411 | raising limits call by call never lowers the number of grants |
| `UsageQuota.CountBounded` | backend/legacy_sqlite.py:334-336 | however plans change, the count stays within the largest finite limit used |
| `UsageQuota.CustomerIdKept` | backend/legacy_sqlite.py:262-277 | a stored Stripe customer id survives every update that brings none |
| `UsageQuota.UsageDb.GetUsage` | backend/legacy_sqlite.py:280-307 | the number of calls of the pair granted so far |
| `UsageQuota.UsageDb.TryIncrement` | backend/legacy_sqlite.py:310-351 | granted exactly below the limit, with the new count; a refusal changes nothing; the tables stay what the transactions made of them |
| `UsageQuota.UsageDb.UpdateSubscription` | backend/legacy_sqlite.py:237-277 | the upsert that keeps stored Stripe ids |
| `UsageQuota.UsageDb.Diagnose` | backend/main.py:434-487 | one increment under the limit of the stored plan, granted exactly when it leaves room, and then the count is within it; limits stay ones that were read from plans |
| `UsageQuota.NeverUnlimitedStaysBounded` | backend/main.py:407-487 | over every interleaving of transactions, with limits read from the plan at any earlier moment, an organisation never updated to a plan whose lower-case name is team gets at most 500 a month |
| `UsageQuota.FreeGetsTen` | backend/main.py:407-487 | over every such interleaving, an organisation never put on pro or team gets exactly min(n, 10) of n diagnoses |
| `UsageQuota.ProGetsFiveHundred` | backend/main.py:407-487 | one put on pro, in any case, whose calls all read that plan gets exactly min(n, 500) |
| `UsageQuota.TeamGetsAll` | backend/main.py:407-487 | one put on team, in any case, whose calls all read that plan is never refused |
| `UsageQuota.LimitByName` | backend/main.py:407-439 | the limit of every plan name |
| `UsageQuota.UpdateMeaning` | backend/legacy_sqlite.py:262-277 | what an update stores, keeps and leaves alone |
| `EdgeSignals.NormalizedNeverConflicts` | edge_device/scenarios.py:225-234 | normalised telemetry never satisfies the conflict test |
| `EdgeSignals.ConflictMeaning` | edge_device/scenarios.py:225-234 | the three contradictions the test looks for |
| `EdgeSignals.ThresholdSignals` | edge_device/signals.py:41-47 | the numeric thresholds of five signals |
| `EdgeSignals.LatencySignal` | edge_device/signals.py:135-143 | latency regresses at 120 ms or at two and a half times a positive baseline, whichever comes first |
| `EdgeSignals.NpuSignals` | edge_device/signals.py:61-85 | which readings and words raise NPU available and unavailable |
| `EdgeSignals.StatusSignals` | edge_device/signals.py:145-150 | which words raise the driver, sensor and uplink signals |
| `EdgeSignals.HealthySignal` | edge_device/signals.py:152-160 | healthy inference by the other signals |
| `EdgeSignals.ReadingMeaning` | edge_device/signals.py:64-72 | how numbers, texts, truth values and missing readings are taken |
| `EdgeSignals.SignalsNest` | edge_device/signals.py:138-160 | severe signals imply their milder ones, and healthy inference excludes its three negations |
| `EdgeSignals.MissingRaisesNoFailure` | edge_device/signals.py:120-187 | dropping any readings raises no failure signal |
| `EdgeSignals.MissingRaisesHealthyIff` | edge_device/signals.py:152-160 | dropping readings newly raises the healthy-inference signal exactly when what is left meets its test and an error, latency, baseline, sensor or NPU reading that blocked it is gone |
| `EdgeSignals.SilentDevice` | edge_device/signals.py:152-160 | the one input without any reading raises exactly the healthy-inference signal |
| `EdgeScenarios.CollectRows` | edge_device/scenarios.py:170-188 | the catalogue loop keeps the rows of the qualifying scenarios, in order |
| `EdgeScenarios.RankHypotheses` | edge_device/scenarios.py:145-204 | the ranking, and the accepted row or the fallback |
| `EdgeScenarios.ConfirmingRaises` | edge_device/scenarios.py:135-175 | unproven confidence lies within 0 and 0.90, and confirming never lowers it nor passes 0.95 |
| `EdgeScenarios.RankingExact` | edge_device/scenarios.py:145-190 | exactly the qualifying scenarios, once each, by descending confidence with ties in catalogue order |
| `EdgeScenarios.ConfirmingKeepsOthers` | edge_device/scenarios.py:170-190 | confirming one scenario leaves the other rows and their order unchanged |
| `EdgeScenarios.ConfirmingNeverDemotes` | edge_device/scenarios.py:170-190 | confirming a scenario never moves it down |
| `EdgeScenarios.AcceptedIsBest` | edge_device/scenarios.py:188-204 | when something qualifies, the accepted scenario qualifies and stands before every other |
| `EdgeScenarios.NominalIff` | edge_device/scenarios.py:188-222 | the nominal answer is given exactly when no failure signal is raised, a catalogued one exactly when something qualifies |
| `EdgeScenarios.ConfirmingKeepsAccepted` | edge_device/scenarios.py:170-190 | confirming the accepted scenario keeps it accepted |
| `EdgeEvidence.TablesAgree` | edge_device/scenarios.py:70-121 | which signals each hypothesis needs, and which speak for and against it, read signal by signal |
| `EdgeEvidence.ConfidenceIsWorth` | edge_device/scenarios.py:135-175 | the confidence is 0.50 plus 0.12 per signal for and minus 0.20 per signal against the hypothesis, within its bounds, with the effect of a proof |
| `EdgeEvidence.OneMoreSignal` | edge_device/scenarios.py:135-142 | a further signal for a hypothesis never lowers its confidence and adds 0.12 within the bounds, one against it never raises it and takes 0.20, any other changes nothing |
| `EdgeEvidence.BareHypothesis` | edge_device/scenarios.py:135-142 | with only its required signals a hypothesis has 0.50 |
| `EdgeEvidence.AcceptedHasMostSupport` | edge_device/scenarios.py:145-190 | without a proof, among hypotheses that nothing speaks against the accepted one has the most signals for it, and is first in the catalogue among equals |
| `EdgeEvidence.AcceptedIsWorthMost` | edge_device/scenarios.py:145-190 | without a proof, the accepted hypothesis is worth most within the bounds, and is first in the catalogue among equals |
| `EdgeEvidence.RowLists` | edge_device/scenarios.py:176-186 | what the supporting, contradicting and missing lists of a row hold |
| `EdgeEvidence.NominalMeans` | edge_device/scenarios.py:207-222 | a device looks nominal exactly when it raises no failure signal |
| `EdgeEvidence.FallbackConfidence` | edge_device/scenarios.py:190-204 | the confidence of the two fallbacks |
| `EdgeEvidence.CatalogueOrder` | edge_device/scenarios.py:70-121 | the order in which ties are broken |
| `EdgePolicy.FirstCheck` | edge_device/policy.py:179-190 | the outcome and the codes of the check that decides it |
| `EdgePolicy.EvaluateListed` | edge_device/policy.py:174-202 | outcome, trust and exactly the reason codes that apply, after the successive downgrades |
| `EdgePolicy.EvaluateEdgePolicy` | edge_device/policy.py:111-218 | for every action and every impact: an outcome that does not depend on the impact, the trust, and exactly the reason codes that apply |
| `EdgePolicy.SafeActionsHarmless` | edge_device/policy.py:38-63 | no allowlisted action contains a destructive token |
| `EdgePolicy.SafeNames` | edge_device/policy.py:38-45 | the allowlist, name by name |
| `EdgePolicy.DestructiveIff` | edge_device/policy.py:48-63 | an action is destructive exactly when it contains one of twelve parts; two of the fourteen tokens add nothing |
| `EdgePolicy.AllowIff` | edge_device/policy.py:111-197 | the outcome is ALLOW exactly for an allowlisted action with confirmed proof, explicit confirmation and no conflict |
| `EdgeReasoning.RejectedExact` | edge_device/reasoning.py:244-247 | accepted and rejected hypotheses are together exactly the qualifying scenarios |
| `EdgeReasoning.ImpactMeaning` | edge_device/reasoning.py:99-145 | the impact of what is accepted is low exactly for the fallbacks and the uplink hypothesis, else high exactly when a severe signal is raised; the low branch for local failures is never reached |
| `EdgeReasoning.ProofMeaning` | edge_device/reasoning.py:229-236 | only a confirmed proof counts, and only for the hypothesis it was run for |
| `EdgeReasoning.Reason` | edge_device/reasoning.py:229-266 | the pipeline on any canonical signals: acceptance, rejections, impact, outcome, trust and reason codes |
| `EdgeReasoning.RunEdgeReasoning` | edge_device/reasoning.py:198-266 | for all telemetry, ALLOW exactly when the action is allowlisted, the proof confirmed and the confirmation explicit, BLOCK exactly for other actions, and never low trust or a conflict code |
| `Attribution.MatchListener` | evidence/attribution_engine.py:78-105 | true exactly when some local listener's port is a token of the proxy setting; the second and third test add nothing |
| `Attribution.ScanTelemetry` | evidence/attribution_engine.py:190-235 | the named writer, Sysmon before Procmon before ETW, and the sources that named one |
| `Attribution.BuildAttribution` | evidence/attribution_engine.py:146-287 | confidence, tier, candidate and evidence as functions of what the rows say |
| `Attribution.MoreTelemetryNeverHurts` | evidence/attribution_engine.py:190-287 | adding rows of any kind never lowers the confidence |
| `Attribution.TierMeaning` | evidence/attribution_engine.py:236-287 | a confirmed tier exactly when some row qualifies, and at most 0.76 without telemetry |
| `Attribution.TierIff` | evidence/attribution_engine.py:237-274 | the Sysmon, Procmon and listener tiers, each by its own condition |
| `Attribution.PollingWeights` | evidence/attribution_engine.py:179-187 | what the poll, a key delta, an actor, a parent and a listener are worth |
| `Attribution.TelemetryWeights` | evidence/attribution_engine.py:237-276 | what telemetry adds, by the tier it reaches |
| `Attribution.LastSegmentMeaning` | evidence/attribution_engine.py:238-238 | the reported name is the suffix after the last backslash |
| `Attribution.FirstImageIsFirst` | evidence/attribution_engine.py:197-211 | the Sysmon image named is that of the first proxy row with one |
| `Attribution.FirstProcessIsFirst` | evidence/attribution_engine.py:213-226 | the Procmon process named is that of the first proxy row |
| `Attribution.WriterMeaning` | evidence/attribution_engine.py:195-235 | Sysmon names the writer before Procmon and Procmon before ETW, and which sources are listed |
| `Attribution.ListenerMeaning` | evidence/attribution_engine.py:97-104 | a listener counts exactly when its port is a token of the setting and its address is local or open |
| `Attribution.ProcmonLabelWithoutProcmonProof` | evidence/attribution_engine.py:236-262 | exactly when the Procmon label is given without a qualifying Procmon row |
| `PrometheusExporter.EscapeIsOnePass` | backend/prometheus_exporter.py:61-62 | the three sequential replacements equal a one-pass character map |
| `PrometheusExporter.NoRawLineFeed` | backend/prometheus_exporter.py:61-62 | an escaped value contains no line feed |
| `PrometheusExporter.EscapeInjective` | backend/prometheus_exporter.py:61-62 | different values escape differently |
| `PrometheusExporter.RoundTripIff` | backend/prometheus_exporter.py:95-96 | a rendered sample reads back as its metric and labels, leaving what follows, if and only if the metric and every label name obey the format's grammar |
| `PrometheusExporter.OneLineIff` | backend/prometheus_exporter.py:95-96 | a rendered sample holds no line feed if and only if neither its metric nor any label name does |
| `PrometheusExporter.ReadsSample` | backend/prometheus_exporter.py:95-96 | the reading half for valid names, with any text after the sample |
| `PrometheusExporter.SampleNamesDistinct` | backend/prometheus_exporter.py:92-96 | equal sample names mean equal metric and equal labels when no metric has a brace and no label name contains `="` |
| `PrometheusExporter.QuotedNamesCollide` | backend/prometheus_exporter.py:95-96 | two different label sets, one with `="` in a name, render alike |
| `PrometheusRegistry.OrderedLabelsInjective` | backend/prometheus_exporter.py:54-58 | the sorted key determines the label set |
| `PrometheusRegistry.OrderedLabelsAscend` | backend/prometheus_exporter.py:54-56 | the labels of a key stand in ascending order of their names |
| `PrometheusRegistry.KeyOrder` | backend/prometheus_exporter.py:92-92 | keys go by metric, then by the first difference of their labels, name before value |
| `PrometheusRegistry.PipelineNames` | backend/prometheus_exporter.py:26-35 | the metrics of the page, name by name |
| `PrometheusRegistry.TalliesSnoc` | backend/prometheus_exporter.py:54-58 | an increment adds its amount to its own label set's counter and to no other |
| `PrometheusRegistry.Registry.IncLabeled` | backend/prometheus_exporter.py:54-58 | every counter stays the sum of the amounts added under its label set, and there is one per label set ever used |
| `PrometheusRegistry.LabelledLines` | backend/prometheus_exporter.py:92-96 | one line per stored pipeline counter, each once, in Python's order of keys |
| `PrometheusRegistry.ZeroLines` | backend/prometheus_exporter.py:98-100 | one zero line per pipeline metric without a labelled counter |
| `PrometheusRegistry.PageNamesDistinct` | backend/prometheus_exporter.py:92-100 | no two lines of the page share a sample name when no label name contains `="` |
| `PrometheusRegistry.PageReadsBack` | backend/prometheus_exporter.py:92-100 | with valid label names every line reads back as the counter it was written for |
| `PrometheusRegistry.Registry.RenderLabelled` | backend/prometheus_exporter.py:92-100 | the page shows, for every pipeline increment ever made, the sum of its counter, and when no label name contains `="` the sample names are pairwise different |
| `EventBus.ScanLine` | platform_core/event_bus.py:107-135 | the row or the error a line contributes |
| `EventBus.ReadEvents` | platform_core/event_bus.py:82-139 | exactly the first matches up to the limit, in file order, with the errors of the lines before the early exit |
| `EventBus.AppendEvent` | platform_core/event_bus.py:58-79 | a bad schema version changes nothing; otherwise every later read sees the row at its end exactly if it passes and there is room, and no read error is added |
| `EventBus.AppendThenRead` | platform_core/event_bus.py:58-139 | an append extends an unsaturated result by the row if it passes, and never changes a saturated one |
| `EventBus.ReadsArePrefixes` | platform_core/event_bus.py:82-139 | any appended lines only extend the result |
| `EventBus.SeverityFilters` | platform_core/event_bus.py:103-133 | raising the minimum severity filters the unlimited result without reordering |
| `EventBus.MatchingIff` | platform_core/event_bus.py:106-135 | the unlimited result holds exactly the rows of the file with a supported schema version whose fields meet every filter that is set |
| `EventBus.ReadMeaning` | platform_core/event_bus.py:82-139 | every returned row meets the filters, and a result below the limit misses none that does |
| `EventBus.GraveIff` | platform_core/event_bus.py:103-104 | severities compare by their place in the list from info to critical, unknown ones as info |
| `EventBus.ErrorMeaning` | platform_core/event_bus.py:109-123 | which lines are reported as errors, with their number and detail |

## Left out

- Time zones, ISO parsing and JSON parsing: rows arrive with parsed times and text fields; a naive and an aware time mixed in one group, which Python refuses to compare, is not modelled.
- Equal instants in different UTC offsets: a time is one number, so two events with one id and one instant, written with different offsets, are alike here; in the source they keep their input order and `isoformat` then gives different cluster ids.
- Cluster ids and reported times: the source formats a time once for the id and once with UTC forced for the row; the model uses one formatter for both.
- Text: `lower` is modelled on ASCII letters only, and JSON values of other types where text is expected are not modelled.
- Floating point: confidences are exact hundredths and readings are reals, so rounding, NaN and infinities are not captured.
- ClusteringWindow.NarrowInExactlyOneWide: asks for a wide window that is not negative, because under a negative one equal rows form equal buckets; `WindowCoarsens` gives the same fact by position for all windows.
- ClusteringOrder.EventOrderIrrelevant: is stated for events with at least one parsable time, because the others are stamped with the clock when they are visited.
- IncidentLifecycle.RunsAreLifecycles: is stated for atomic `apply_transition` calls and fresh ids; the store takes no lock, so split read-check-append interleavings and direct calls of `transition_incident` are outside.
- FleetStore.Fleet.GetRecord: a stored empty object, which no append can produce, counts as a row of the empty id; the source treats it as absent.
- FleetStore: `apply_stale_policy`, a per-record rule with one comparison.
- Remediation handlers: generated ids and times, confidence and evidence level inside audit payloads, redacted process output, the reasoning-pipeline signals of a preview, and failing writes to a log file.
- RemediationPolicy: an operator's policy override file; the default policy is modelled.
- OrderFlow: latency and time fields, and rows left in the audit file by earlier simulator instances.
- UsageQuota: anomaly detection, persistence of diagnoses and the mapping of Stripe events to plans.
- Edge pipeline: observation and event builders, the state path and its transitions, the evidence tree, impact scores and explanations, blocked-action lists.
- Attribution: the keyword tests that decide whether a row concerns the proxy are arbitrary predicates; notes and limitations text is not modelled.
- Prometheus page: flat counters, gauges, help and type lines, and number formatting.
- Subprocess probes, registry reads, HTTP, Supabase and Stripe clients, the agent classifiers, text reports, demos and front ends.
