# Spotalis: a verified model

Spotalis splits the replicas of a Kubernetes workload between spot and on-demand nodes. An admission
webhook decides where each new pod goes, a controller evicts misplaced pods one at a time, and both
aim at the same integer targets. This project models that machinery in Dafny and proves what it
promises over all inputs, runs and interleavings. `dafny verify dfyconfig.toml` checks everything.

How the files follow the program:

- `GoInt`, `GoTime`, `Strconv`: Go's 32- and 64-bit arithmetic, its zero time, and its decimal
  conversions, written out.
- `Policy`, `Configuration`, `ReplicaState`: targets, annotations, and the one-replica actions.
- `Observation`, `Selection`, `Placement`, `PlacementRuns`, `Reconciler`: snapshots, the choice of a pod
  to evict, one round of controller and webhook and whole runs of rounds, and the gates and cooldown
  around an eviction of either controller. `Landing`: the patch against the rules that classify nodes.
- `AdmissionTracker`, `AdmissionRace`, `AdmissionBurst`, `SplitAdmission`: the reservation tracker as
  an object, and its protocol as steps that interleave.
- `JsonPointer`, `PodMutation`: the patch on a pod and the reading of the patched pod.
- `RequestRateLimiter` with `RequestWindow`, `Escalation`, `EscalationOverflow` and
  `FractionalEscalation`: the rate limiter, its sliding window, and the float64 arithmetic of its backoff.
- `NodeClassifier`, `NamespaceFilter`, `CircuitBreaker`, `DisruptionWindow`: state kept over time, each
  against a simple specification.

Code that updates an object is a class whose methods are proved against functions of the old state;
the properties over runs are lemmas about those functions. Times are integers passed in. What
Kubernetes answers is an input: evictions are evicted, already gone, blocked or failed, and reads may
fail. Both controllers are wired with an Observer and no tracker (`pkg/operator/operator.go`), which is
the wiring of `Placement`; the tracker is modelled on its own.

Results a reader may not expect:

- A label that spells `TRUE` passes the reconcilers' gate but not the parser, so the workload is
  steered to no spot at all (`MisspelledLabelMeansAllOnDemand`).
- The reconcilers act on the label alone, but the webhook patches only pods of a workload that also has
  one of the two annotations. With healthy reads the loop of a workload the reconcilers manage settles
  if and only if the workload has one or is on target already (`WorkloadSettles`). Evicting for ever is
  possible exactly for the managed ones without an annotation and off target
  (`WorkloadMayEvictForEverIff`), such as the label alone and three pods on spot
  (`LabelWithoutAnnotations`).
- An eviction of a spot pod is wasted only if the replacement went unpatched, because the workload has
  no annotation or could not be read; one of an on-demand pod also if it was placed blindly
  (`WasteHasACause`). The on-demand floor holds regardless (`OnDemandFloor`).
- Reservations keep spot within any target if and only if the live spot pods are no more than the seen
  and the reserved ones (`WithinEverySpotTargetIffAccounted`), which a snapshot that lags behind a new
  generation breaks (`LaggingSnapshotOvershoots`). The floor in live on-demand pods is kept if and only
  if the seen and the reserved ones are no more than those alive (`RawFloorIff`); a pod both seen and
  reserved counts twice (`SeenAndReservedCountsTwice`).
- With several spot labels configured the class written need not be the class read back
  (`ReadBackIffOneDistinctLabel`).
- The built-in node rules, used when no configuration is given, call every node with an instance type
  spot, because they accept any value of that label (`DefaultRulesCallTypedNodesSpot`,
  `DefaultRulesCallOnDemand`). A workload that wants on-demand pods could never settle there
  (`DefaultRulesNeverSettle`); under the operator's own rules patched pods do count as the class they
  were patched for (`PatchedPodCounts`).
- An update of the namespace filter leaves lookups right from every reachable state if and only if it
  compiles, or caching is off in it and its only bad pattern is an exclude pattern that no namespace
  reaches (`UpdateKeepsTransparencyIff`). Otherwise old decisions are served (`OldDecisionIsServed`), or
  a lookup meets a nil or a stale pattern list and panics (`NilExcludePanics`, `StaleExcludesPanic`).
- The request rate never exceeds 1000/60 as rounded, at most 17, so the default limit of 50 never
  triggers a backoff (`RecordFailure`, `FullRate`).
- Under a whole multiplier the backoff is the capped exponential, whatever an out-of-range conversion
  does, if and only if no product overflows an int64 (`WholeBackoffIffFits`), which the power alone
  decides but for a margin of 2^15 (`FitsByPower`); the default never does (`DefaultBackoff`). Under a fraction it is exact if and only if the base is divisible often enough
  (`BackoffExactIff`): 1ns escalated by 1.5 does not grow at all (`HalvesAreLost`). In general it stays
  within two roundings and a nanosecond per step (`BackoffWithin`).
- The circuit breaker never refuses while half-open. An open one keeps refusing until its timeout if and
  only if no caller is in the gap of `CanExecute` (`StaysRefusingIffGapEmpty`).

## Model

| member | source | states |
|---|---|---|
| Policy.AllocateIsLargestPermitted | pkg/apis/policy.go:66-103 | Rejected exactly as validation says, never by the range check of line 91 and with no wrap-around; otherwise the targets sum to the total, the clamped floor is kept, and the spot target is the largest allowed by percentage and floor |
| Policy.OneMoreReplica | pkg/apis/policy.go:82-103 | One more replica raises exactly one of the two targets, by exactly one |
| Policy.RefusedExactly | pkg/apis/policy.go:66-80 | A negative total, then a negative floor, then a percentage outside 0 to 100 is refused, each by its own error, and nothing else |
| Configuration.RoundTrip | pkg/apis/configuration.go:75-129 | Parsing what ToAnnotations wrote restores both values, and which fields were explicit if and only if at least one was |
| Configuration.BoundedParserIsCapped | internal/annotations/parser.go:85-139 | On an enabled workload the bounded parser accepts exactly what ParseFromAnnotations accepts with a floor of at most 10000, with the same result |
| Configuration.ValidateAnnotations | internal/annotations/parser.go:216-271 | Reports nothing exactly when the parser accepts, and its first finding is the parser's error |
| Configuration.GateAdmitsMore | internal/annotations/parser.go:166-178 | The reconcilers' gate admits every label the parser enables, and "TRUE", which the parser does not enable |
| Configuration.GateIff | internal/annotations/parser.go:166-178 | The gate is open exactly for a label value of four letters that are t, r, u, e in either case; the parser's for "true" alone |
| Configuration.WrittenNumbersAreRead | pkg/apis/configuration.go:75-112 | A percentage written with or without its sign, and a floor, are read as those numbers by both parsers and noted as given; numbers out of range get their errors, in each parser's order |
| Configuration.MalformedIsRefused | internal/annotations/parser.go:106-134 | What is not an optional sign and digits is refused by both parsers |
| Configuration.WrittenAnnotations | pkg/apis/configuration.go:115-129 | Which of the two annotations are written, and with what text |
| Strconv.ParseFormat | pkg/apis/configuration.go:88-126 | Every number in range survives being written in decimal and parsed |
| Strconv.ParsesWhatFits | pkg/apis/configuration.go:88-106 | Of all integers written in decimal exactly those that fit the width are read back |
| Strconv.OnlyNumeralsParse | pkg/apis/configuration.go:103-106 | Only an optional sign followed by digits is read as a number |
| Strconv.ContainsIsSomewhere | internal/config/node_classifier.go:201 | A part is found if and only if it stands at some place |
| ReplicaStates.ReplicaState.CalculateDesiredDistribution | pkg/apis/replica_state.go:59-78 | The new desired counts are the configuration's split and sum to the total |
| ReplicaStates.ReplicaState.GetNextAction | pkg/apis/replica_state.go:118-156 | Read off the fields: at the right total a migration toward the class in deficit, below it a scale-up of on-demand before spot, above it a scale-down of spot before on-demand, otherwise nothing; the very action RecommendationProgress is about |
| ReplicaStates.RecommendationsConverge | pkg/apis/replica_state.go:59-156 | Following the recommendations reaches the desired split in max(deficit, excess) actions without pausing, no other action sequence is shorter, and on-demand never drops below the lesser of start and desired |
| ReplicaStates.RecommendationProgress | pkg/apis/replica_state.go:118-156 | An action is recommended exactly away from the goal, and it brings the workload one step closer; on-demand fills first, spot drains first, and pods migrate only at the right total |
| ReplicaStates.NoShortcut | pkg/apis/replica_state.go:161-176 | No sequence of the six actions reaches the goal in fewer steps than max(deficit, excess) |
| ReplicaStates.ActionIsNeeded | pkg/apis/replica_state.go:118-156 | In any state, consistent or not, an action is recommended only where its class and the total call for it, and none only where none is called for |
| ReplicaStates.MisspelledLabelMeansAllOnDemand | pkg/apis/replica_state.go:59-65 | A workload enabled only for the gate is reconciled toward no spot replicas |
| Observation.Observe | pkg/observation/workload.go:149-179 | The snapshot pairs each pod with its lifecycle and class; exactly the nodes of assigned, staying, unfinished pods are classified |
| Observation.ActualCounts | pkg/observation/workload.go:82-97 | The loop returns the number of counted pods of each class |
| Observation.EligiblePods | pkg/observation/workload.go:100-115 | The loop returns the eligible pods of each class in order |
| Observation.EligibleAreDisruptible | pkg/observation/workload.go:100-115 | A pod is eligible for a class if and only if it is Ready, staying, unfinished and assigned to a node of that class |
| Observation.LifecycleIff | pkg/observation/workload.go:268-295 | Each lifecycle in terms of phase, deletion, node name and the first Ready condition |
| Observation.CountsForItsNode | pkg/observation/workload.go:297-305 | A pod counts for the class of its node if and only if it is assigned, staying and not finished |
| Selection.SelectPodsForDeletion | pkg/controllers/deployment_controller.go:612-640 | The loops select the excess of spot, then the excess of on-demand |
| Selection.SelectionIsSafe | pkg/controllers/statefulset_controller.go:570-604 | Evicting all selected pods leaves each class it selects from at its desired count of actual pods or above, in 32-bit arithmetic; all selected pods are disruptible |
| Selection.OrdinalOfGeneratedName | pkg/controllers/statefulset_controller.go:824-838 | The ordinal read from a generated pod name is the one it was made from |
| Selection.ForeignPodsSortLast | pkg/controllers/statefulset_controller.go:849-866 | A name that is not the StatefulSet's, a dash and a number sorts as -1, a generated one as its number |
| Selection.SortPodsByOrdinal | pkg/controllers/statefulset_controller.go:849-886 | The result is a permutation in descending ordinal order |
| Selection.StatefulSetVictim | pkg/controllers/statefulset_controller.go:617-627 | The pod evicted is one of the selected and no other selected pod has a higher ordinal |
| Placement.SameTargets | pkg/webhook/mutate.go:381-401 | With a healthy read the webhook, once it patches a pod, places it floor-first toward the very split the controller aims at |
| Placement.PatchedIffPolicyGiven | internal/annotations/parser.go:142-160 | For an enabled workload whose owner was read, a pod is patched if and only if the parser found a percentage or a floor; never if the owner was not read |
| Placement.PlacedOnSpotIff | pkg/webhook/mutate.go:368-402 | A patched pod goes to spot if and only if the snapshot was taken, is fresh and fully classified, the policy is valid, on-demand is at its target and spot below; otherwise on-demand |
| Placement.VictimIsMisplaced | pkg/controllers/deployment_controller.go:510-544 | Off target the counts differ in spot, and the first selected pod is disruptible and of the class in excess |
| Placement.StepGap | pkg/controllers/deployment_controller.go:532-544 | A round that evicts closes the gap by one unless it is wasted |
| Placement.StepFloor | pkg/controllers/deployment_controller.go:532-544 | Wherever the replacement lands, on-demand keeps the lesser of its count and target over a round, even before the replacement exists |
| Placement.WasteHasACause | pkg/webhook/mutate.go:127-135 | A wasted eviction of a spot pod means that its replacement went unpatched; of an on-demand pod, that it went unpatched or was placed on a blind read |
| Placement.EvictsExactlyOffTarget | pkg/controllers/deployment_controller.go:510-529 | Nothing is selected exactly when the workload is on target |
| PlacementRuns.RunAccounting | pkg/controllers/deployment_controller.go:531-718 | Over every run, whatever was read and patched, evictions minus wasted ones equal the progress toward the targets |
| PlacementRuns.OnDemandFloor | pkg/webhook/mutate.go:395-401 | Over every run, wherever replacements land, and between eviction and replacement, on-demand never falls below the lesser of start and target |
| PlacementRuns.ClosedLoop | pkg/webhook/mutate.go:368-402 | For an annotated workload, with healthy reads, a run is quiescent if and only if it made exactly abs(spot - TargetSpot) evictions; then it is on target and never evicts again |
| PlacementRuns.ProgressIsPossible | pkg/controllers/deployment_controller.go:643-718 | For a managed and annotated workload off target there is always a round that evicts and closes the gap |
| PlacementRuns.SettlesIffAnnotatedOrOnTarget | pkg/webhook/mutate.go:237-248 | For a managed workload, every healthy run that takes the eviction steps the gap asks for ends on target, if and only if the workload has an annotation or starts on target |
| PlacementRuns.WorkloadSettles | internal/annotations/parser.go:142-178 | The same, in terms of its annotations, of a workload the reconcilers manage: one whose label passes their gate |
| PlacementRuns.UnmanagedIsLeftAlone | pkg/controllers/deployment_controller.go:132-136 | No run evicts a pod of a workload whose label the reconcilers' gate turns away |
| PlacementRuns.MayEvictForEverIff | pkg/controllers/deployment_controller.go:132-136 | Healthy runs of any number of evictions exist if and only if the workload is managed, has no annotation and is off target |
| PlacementRuns.WorkloadMayEvictForEverIff | internal/annotations/parser.go:142-178 | The same in terms of any labels and annotations that parse |
| PlacementRuns.LabelWithoutAnnotations | pkg/webhook/mutate.go:132-135 | With the enabling label alone and three pods on spot there are healthy runs of any number of evictions after which all three are still on spot |
| Reconciler.DeploymentReconciler.Reconcile | pkg/controllers/deployment_controller.go:97-334 | An eviction is attempted exactly outside the cooldown and when the gates pass and a pod is picked, of the first one picked; the time is stored exactly when the pod is gone and dropped exactly when the workload is missing; each reconcile is a step of the runs of EvictionsAreSpaced |
| Reconciler.StatefulSetReconciler.Reconcile | pkg/controllers/statefulset_controller.go:98-321 | The same for a StatefulSet, of a picked pod of the highest ordinal, the time being stored even if the template update then fails |
| Reconciler.PassGates | pkg/controllers/deployment_controller.go:127-287 | Which gate ends a reconcile: cooling down, unstable, balanced and outside the window each exactly under its condition; otherwise the pods picked from the second observation |
| Reconciler.OnlyStableManagedWorkloads | pkg/controllers/deployment_controller.go:336-363 | Only a workload whose label spells true, in a permitted namespace, with every status count equal to its replicas, gets as far as choosing pods |
| Reconciler.OffTargetIff | pkg/controllers/deployment_controller.go:510-529 | Rebalancing is needed if and only if some pod is counted and a class's count is not the desired one |
| Reconciler.CooldownEnds | pkg/controllers/deployment_controller.go:781-786 | Ten seconds unless configured, and over exactly when they have passed |
| Reconciler.OutcomesThatRemove | pkg/controllers/deployment_controller.go:680-716 | Evicted and already gone start the cooldown, the three other outcomes do not |
| Reconciler.NoWindowIsOpen | internal/annotations/disruption_window.go:71-78 | Without a disruption window rebalancing is always inside it |
| Reconciler.DeploymentReconciler.Execute | pkg/controllers/deployment_controller.go:643-718 | Only the first selected pod is tried, and only an eviction that leaves it gone starts the cooldown |
| Reconciler.StatefulSetReconciler.Execute | pkg/controllers/statefulset_controller.go:607-695 | Only a selected pod of the highest ordinal is tried; an eviction that leaves it gone starts the cooldown; an error is reported if the eviction or the later template update failed |
| Reconciler.EvictionIsJustified | pkg/controllers/deployment_controller.go:532-640 | Every pod a reconcile of either controller may evict is disruptible and, in the observation it was picked from, of a class with more actual pods than desired |
| Reconciler.EvictionsAreSpaced | pkg/controllers/statefulset_controller.go:163-181 | Over every run of sequential reconciles never reported missing, successive evictions are at least the cooldown apart |
| Reconciler.EvictionRate | pkg/controllers/deployment_controller.go:175-193 | Any interval of length L holds at most floor(L / cooldown) + 1 evictions of a workload |
| AdmissionTracker.AdmissionStateTracker.SelectAndReserve | pkg/webhook/admission_state.go:142-166 | Spot exactly when on-demand is at its target and spot below, in observed plus reserved counts of the same generation; the chosen class gains one reservation, on a blank entry if the generation moved on, and no other workload's entry changes |
| AdmissionTracker.ChoiceWeighs | pkg/webhook/admission_state.go:150-158 | Spot if and only if observed plus reserved on-demand pods reach their target and spot pods do not, counting reservations of the same generation only |
| AdmissionTracker.ReservationChanges | pkg/webhook/admission_state.go:123-139 | Exactly what a reservation changes in its own entry, and that it changes no other |
| AdmissionTracker.AdmissionStateTracker.IncrementPending | pkg/webhook/admission_state.go:123-139 | Adds one reservation, on a blank entry if the generation moved on |
| AdmissionTracker.AdmissionStateTracker.GetPendingCounts | pkg/webhook/admission_state.go:105-120 | The counts of the entry of the same generation, otherwise zero |
| AdmissionTracker.AdmissionStateTracker.Cleanup | pkg/webhook/admission_state.go:184-194 | Exactly the entries older than the TTL are removed |
| AdmissionTracker.CleanupByAge | pkg/webhook/admission_state.go:184-194 | A reservation survives a cleanup if and only if it was made no longer than the TTL ago, and what survives is unchanged |
| AdmissionTracker.AdmissionStateTracker.CheckStaleness | pkg/webhook/admission_state.go:197-226 | Not stale if and only if there is no entry or it has the generation and a recent enough pod list |
| AdmissionTracker.AdmissionStateTracker.UpdatePodListMetadata | pkg/webhook/admission_state.go:229-242 | Only list version and times change; a new entry gets the generation, an old one keeps its own |
| AdmissionTracker.AdmissionStateTracker.ResetPending | pkg/webhook/admission_state.go:245-254 | The entry is replaced by one without reservations |
| AdmissionTracker.ListingAndResetting | pkg/webhook/admission_state.go:229-254 | Listing pods keeps counts and generation and stamps the list; resetting replaces the entry; neither touches another workload's |
| AdmissionRace.RunKeepsInv | pkg/webhook/admission_state.go:142-254 | In every interleaving each entry's counters are the numbers of its spot and on-demand pods still reserved, the spot counter with no 32-bit wrap |
| AdmissionRace.WithinEverySpotTargetIffAccounted | pkg/webhook/admission_state.go:150-158 | In every interleaving, with on-demand at its target: a spot choice keeps the live spot pods within its target, whatever that is, if and only if they are no more than the seen and the reserved |
| AdmissionRace.NoOvershoot | pkg/webhook/admission_state.go:142-194 | In every interleaving, a spot choice made while each live spot pod is in the snapshot or still reserved, or while they are no more than those in number, leaves no more live spot pods than its target |
| AdmissionRace.LaggingSnapshotOvershoots | pkg/webhook/admission_state.go:146-158 | An instance: a new generation and a lagging snapshot put two pods on spot under a target of one |
| AdmissionRace.RawFloorIff | pkg/webhook/admission_state.go:150-158 | In every interleaving, with spot short: a pod goes to spot only with the on-demand target alive, whatever that is, if and only if the seen on-demand pods and the reserved ones, counted in 32 bits with wrap-around, are no more than those alive |
| AdmissionRace.RawFloorKept | pkg/webhook/admission_state.go:150-158 | With no on-demand pod both seen and reserved, and none of them gone, a spot choice leaves at least the target of live on-demand pods |
| AdmissionRace.SeenAndReservedCountsTwice | pkg/webhook/admission_state.go:155-158 | An instance: with a pod both seen and reserved, spot is chosen with one of two wanted on-demand pods |
| AdmissionBurst.BurstClosedForm | pkg/webhook/admission_state.go:142-166 | n reservations fill the on-demand deficit, then the spot deficit, then go on-demand, and sum to n |
| AdmissionBurst.BurstLandsOnTargets | pkg/apis/policy.go:82-103 | A burst that fills a workload with neither class in excess lands exactly on both targets |
| SplitAdmission.DecideFromTracker | pkg/webhook/mutate.go:439-479 | The older path's decision from the counts it reads is SelectAndReserve's choice at that moment |
| SplitAdmission.OvershootBound | pkg/webhook/mutate.go:443-478 | With at most k admissions in flight no run reserves more than k - 1 spot pods beyond the deficit, and none without a deficit |
| SplitAdmission.OvershootBoundIsReached | pkg/webhook/mutate.go:443-478 | Whenever spot is short, some run reserves exactly k - 1 spot pods beyond the deficit, filling an on-demand deficit first |
| SplitAdmission.OneAtATimeIsAtomic | pkg/webhook/mutate.go:416-479 | With one admission in flight at a time the read-then-increment code makes the choices of SelectAndReserve and leaves the same tracker |
| JsonPointer.EscapeIsPerCharacter | pkg/webhook/mutate.go:268-274 | The two-pass escape is one character-by-character translation |
| JsonPointer.UnescapeIsDecode | pkg/webhook/mutate.go:278-284 | The two-pass unescape is the one-pass meaning of section 4 of RFC 6901, on every string |
| JsonPointer.EscapeRoundTrips | pkg/webhook/mutate.go:268-284 | Escaping gives a well-formed token and is undone by unescaping; escaping an unescaped token restores it if and only if it was well-formed |
| PodMutation.GetCapacityTypeLabelConfig | pkg/webhook/mutate.go:288-320 | The answer is one the configuration allows, whichever label map iteration meets first |
| PodMutation.OneLabelAnswers | pkg/webhook/mutate.go:288-320 | With one label in each selector the answer is that label and its values; without any it is Karpenter's |
| PodMutation.PathTokens | pkg/webhook/mutate.go:346-362 | The patch path names the node selector and, whatever its characters, the label key |
| PodMutation.PatchSetsOneLabel | pkg/webhook/mutate.go:323-365 | Applying the patch to any pod sets that one label and changes nothing else |
| PodMutation.ReadBackIffOneDistinctLabel | pkg/webhook/mutate.go:664-694 | The class read from a patched pod is the class chosen, for all pods, if and only if at most one spot label is configured and its two values differ |
| PodMutation.GetPodCapacityType | pkg/webhook/mutate.go:664-732 | Node selector before required before preferred affinity before on-demand, each reader asking for the label by itself |
| PodMutation.BuiltInLabelIsRead | pkg/webhook/mutate.go:664-761 | Under Karpenter's label: the word of the node selector, else of a required expression, else of a preferred one, else on-demand |
| PodMutation.FirstSpeakingTermDecides | pkg/webhook/mutate.go:721-730 | Of the required terms the first expression on the label that has a value decides, by its first value |
| PodMutation.PreferredClass | pkg/webhook/mutate.go:735-761 | The answer is the word of the heaviest positive term that speaks about the label, the first of equals |
| PodMutation.LastSpeakerDecides | pkg/webhook/mutate.go:745-757 | Within a preferred term the last expression on the label that has a value decides |
| NodeClassifier.NodeClassifierService.ClassifyNode | internal/config/node_classifier.go:144-222 | The loops answer the classification function whatever the map order |
| NodeClassifier.NodeClassifierService.Store | internal/config/node_classifier.go:355-386 | The name gets the type, and each cached name stays in exactly the map its type says |
| NodeClassifier.NodeClassifierService.RefreshCache | internal/config/node_classifier.go:264-293 | Within the interval or on a failed listing nothing changes; otherwise the cache is the listing under the current rules |
| NodeClassifier.NodeClassifierService.ClassifyNodesByName | internal/config/node_classifier.go:296-353 | Exactly the distinct non-empty names are answered; after a refresh, or while cached nodes are unchanged, each with the current classification of its node, unknown if it cannot be read |
| NodeClassifier.AnswerCovers | internal/config/node_classifier.go:296-353 | Exactly the names that are not empty are answered, and those that cannot be read as unknown |
| NodeClassifier.NodeClassifierService.UpdateConfig | internal/config/node_classifier.go:468-478 | The new rules are in force and a refresh is due, so the cache invariant survives |
| NodeClassifier.DefaultRulesCallTypedNodesSpot | internal/config/node_classifier.go:118-155 | Under the default rules every node with an instance type is spot, whatever else it is labelled |
| NodeClassifier.DefaultRulesCallOnDemand | internal/config/node_classifier.go:118-222 | Under the default rules a node is on-demand if and only if it has no instance type, none of the spot labels, and one of the on-demand labels |
| Landing.NoRulesClassify | internal/config/node_classifier.go:178-222 | Without rules: exactly which provider labels make a node spot and which on-demand, the managed node group's before Karpenter's before the type's name before GKE and Azure |
| Landing.WiredClassify | pkg/operator/operator.go:692-702 | Under the operator's rules: exactly which labels make a node spot and which on-demand, Karpenter's before the provider's |
| NodeClassifier.RetypedNodes | internal/config/node_classifier.go:370-385 | Retyping a node moves it into its new type's map and out of the other |
| Landing.AllLandIff | pkg/webhook/mutate.go:286-366 | With classifier rules on the label that the webhook writes, every node that admits a patched pod is of the class the pod was patched for, if and only if the two label values differ and the spot value is no wildcard |
| Landing.PatchedPodCounts | pkg/operator/operator.go:692-702 | Under the operator's rules a running pod that was patched counts as the class it was patched for and no other |
| Landing.DefaultRulesNeverSettle | internal/config/node_classifier.go:118-155 | On nodes with instance types under the built-in rules, a workload that wants an on-demand pod counts none, is never on target, and always has a pod to evict |
| NamespaceFilter.FilterAllowsExactlyThePermitted | pkg/controllers/namespace_filter.go:364-532 | The stages allow a namespace if and only if the declared policy permits it |
| NamespaceFilter.SystemNamespacesBlocked | pkg/controllers/namespace_filter.go:609-626 | Turned away as a system namespace if and only if it is listed or starts with one of the three prefixes, and those are not included |
| NamespaceFilter.AllowedMetadata | pkg/controllers/namespace_filter.go:629-656 | An allowed namespace carries every required label and no forbidden pair, key and value |
| NamespaceFilter.MetadataDecisions | pkg/controllers/namespace_filter.go:487-532 | Which metadata rule turns a namespace away, with the words and the rule recorded |
| NamespaceFilter.ExclusionDecisions | pkg/controllers/namespace_filter.go:391-433 | What the exclusion stages record, and that the first matching pattern is named |
| NamespaceFilter.InclusionDecisions | pkg/controllers/namespace_filter.go:436-484 | What the inclusion stages record |
| NamespaceFilter.PassingRule | pkg/controllers/namespace_filter.go:447-484 | The rule recorded for a namespace that passes: the first matching pattern, else the list |
| NamespaceFilter.NamespaceFilter.PerformFiltering | pkg/controllers/namespace_filter.go:364-532 | The staged code over the compiled pattern lists computes the specified decision, reason and rule, or panics on a nil or an overlong list |
| NamespaceFilter.CompiledFilterDecides | pkg/controllers/namespace_filter.go:364-587 | With the lists its configuration compiles to, the staged code never panics and decides as the configuration's own patterns do |
| NamespaceFilter.NamespaceFilter.IsNamespaceAllowed | pkg/controllers/namespace_filter.go:168-199 | With caching on a cached decision is answered and nothing changes; otherwise the decision is computed and, with caching on, stored, in an emptied cache if it was full; a panic stores nothing |
| NamespaceFilter.NamespaceFilter.UpdateConfig | pkg/controllers/namespace_filter.go:330-349 | The configuration is replaced even on failure, leaving nil or old pattern lists as compilePatterns does; the cache is emptied only on success with caching on |
| NamespaceFilter.CacheIsTransparent | pkg/controllers/namespace_filter.go:659-687 | After any run of lookups, refreshes and successful updates a lookup answers what uncached filtering answers now, and an enabled cache holds at most max(1, CacheSize) entries |
| NamespaceFilter.UpdateRestores | pkg/controllers/namespace_filter.go:330-349 | An update that compiles restores coherence of cache, lists and configuration from any state |
| NamespaceFilter.UpdateKeepsTransparencyIff | pkg/controllers/namespace_filter.go:330-349 | From every reachable state lookups stay right after an update if and only if it compiles, or caching is off in it, its include patterns compile and no namespace reaches its bad exclude pattern |
| NamespaceFilter.OldDecisionIsServed | pkg/controllers/namespace_filter.go:330-341 | A failed update with caching on: some namespace decided before keeps its old decision |
| NamespaceFilter.StaleExcludesPanic | pkg/controllers/namespace_filter.go:565-587 | A bad include pattern leaves the old exclude list, and from some state a lookup indexes past the new patterns |
| NamespaceFilter.NilExcludePanics | pkg/controllers/namespace_filter.go:565-587 | A bad exclude pattern that some namespace reaches leaves a nil regular expression that a lookup dereferences |
| RequestRateLimiter.APIRateLimiter.RecordRequest | pkg/apis/runtime_state.go:273-287 | With a clock that does not go back, the buffer stays exactly the newest min(1000, n) of the n requests of the last minute |
| RequestRateLimiter.APIRateLimiter.UpdateRequestRate | pkg/apis/runtime_state.go:290-310 | The rate is min(1000, requests strictly within the last minute) / 60 as rounded, or zero with fewer than two buffered; never more than 1000 / 60 as rounded |
| RequestRateLimiter.APIRateLimiter.RecordFailure | pkg/apis/runtime_state.go:258-270 | Backs off, by the escalated backoff for one more hit, exactly when the rate exceeds the limit, which it never does for a limit of 1000 / 60 as rounded or more |
| RequestRateLimiter.FullRate | pkg/apis/runtime_state.go:308-310 | 1000 / 60 as rounded is at most 17 |
| RequestRateLimiter.APIRateLimiter.Reset | pkg/apis/runtime_state.go:373-384 | Counts, rate, backoff and buffer are cleared and the settings kept |
| RequestWindow.WindowMoves | pkg/apis/runtime_state.go:273-287 | Appending, trimming and capping the last window gives the next one |
| RequestWindow.BufferedIsLastMinute | pkg/apis/runtime_state.go:276-286 | Of the last thousand requests exactly those of the last sixty seconds are in the buffer |
| RequestWindow.RecentOfWindow | pkg/apis/runtime_state.go:290-310 | The buffer holds all requests of any later minute, up to its capacity |
| Escalation.WholeBackoffIffFits | pkg/apis/runtime_state.go:313-328 | For every whole multiplier the backoff is min(5 minutes, base x multiplier^(min(hits, 10) - 1)), under every conversion that Go allows, if and only if no rounded product leaves an int64 |
| EscalationOverflow.FitsByPower | pkg/apis/runtime_state.go:317-320 | No product leaves an int64 if base x multiplier^(min(hits, 10) - 1) is at most 2^63 - 1 - 2^15, and one does if it is at least 2^63 - 1 + 2^15 |
| FractionalEscalation.BackoffExactIff | pkg/apis/runtime_state.go:317-320 | For every multiplier a / 2^s with a odd, while the exact power is five minutes or less: the backoff is that power if and only if the base is a multiple of 2^(s (min(hits, 10) - 1)) |
| FractionalEscalation.HalvesAreLost | pkg/apis/runtime_state.go:317-320 | An instance: two escalations of 1ns by 1.5 leave 1ns of 2.25 |
| FractionalEscalation.BackoffWithin | pkg/apis/runtime_state.go:313-328 | For every multiplier the backoff lies between the growth by multiplier x (1 - 2^-53)^2 less a nanosecond a step and the growth by multiplier x (1 + 2^-53)^2, both capped, as long as the latter stays in an int64 |
| FractionalEscalation.CertainlyCapped | pkg/apis/runtime_state.go:317-325 | Where the lower of these growths reaches five minutes, the backoff is exactly five minutes |
| FractionalEscalation.CertainlyBelowCap | pkg/apis/runtime_state.go:317-325 | Where the upper of them stays below five minutes, so does the backoff |
| Escalation.DefaultBackoff | pkg/apis/runtime_state.go:230-237 | The default limiter backs off min(5 minutes, 1s x 2^(min(hits, 10) - 1)) for every number of hits |
| CircuitBreaker.RefusedExactlyWhenOpenAndRecent | pkg/utils/rate_limiter.go:359-422 | In every interleaving, gap included, closed and half-open stay below their thresholds, and a request is refused if and only if the breaker is open and the latest failure is less than the timeout ago |
| CircuitBreaker.OpensExactlyAtThreshold | pkg/utils/rate_limiter.go:386-422 | From just closed on, with nobody entering, the breaker opens exactly when the failures since the last success reach the threshold |
| CircuitBreaker.HalfOpenEndsExactly | pkg/utils/rate_limiter.go:386-422 | From the moment it is entered, half-open ends exactly on a failure, in open, or on the last success needed, in closed with no failures counted |
| CircuitBreaker.NoTrialsRefuse | pkg/utils/rate_limiter.go:378-379 | Configured for no trial requests, half-open refuses |
| CircuitBreaker.FiveFailuresOpen | pkg/utils/rate_limiter.go:56-72 | By default four failures in a row leave a new breaker closed and the fifth opens it |
| CircuitBreaker.ThirtySecondsRefuse | pkg/utils/rate_limiter.go:56-72 | By default an open breaker refuses for thirty seconds from the failure it knows of |
| CircuitBreaker.ThreeSuccessesClose | pkg/utils/rate_limiter.go:56-72 | By default half-open closes on the third success and not before |
| CircuitBreaker.OpenHolds | pkg/utils/rate_limiter.go:366-377 | With no caller in the gap an open breaker stays open until the timeout has passed |
| CircuitBreaker.StaysRefusingIffGapEmpty | pkg/utils/rate_limiter.go:366-377 | After any run that leaves the breaker open, every request in every continuation is refused until the timeout, if and only if nobody is in the gap |
| CircuitBreaker.GapAdmitsRightAfterFailure | pkg/utils/rate_limiter.go:369-375 | An instance: a late half-open transition admits a request right after a failure |
| CircuitBreaker.CircuitBreaker.CanExecute | pkg/utils/rate_limiter.go:359-383 | Undisturbed, it allows unless the check refuses and enters half-open exactly on recovery |
| CircuitBreaker.CircuitBreaker.RecordSuccess | pkg/utils/rate_limiter.go:386-402 | Closed: the failure count is cleared; half-open: one more success is counted, and at the threshold the breaker closes and the failure count is cleared; open: nothing |
| CircuitBreaker.CircuitBreaker.RecordFailure | pkg/utils/rate_limiter.go:405-422 | One more failure with its time; closed it opens at the threshold, half-open it opens at once |
| DisruptionWindow.SingleProbeIsExact | internal/annotations/disruption_window.go:71-90 | For any schedule whose Next is the least later firing, the single probe succeeds if and only if some firing's window contains the time |

## Left out

- Kubernetes client calls, controller-runtime setup, HTTP servers, metrics, logging and dependency injection: wiring only.
- Cron, duration, YAML and environment parsing: library code; a schedule is its next-firing function.
- Regular expressions and label selectors: abstract functions of the environment.
- Observation.Observe: which pods belong to a workload, by owner and selector, is the API's answer; so is whether a snapshot is fresh in `Placement`.
- Placement.Step: a replacement is taken to become Ready before the next round; a patched one is on a node of the class it was patched for, as `Landing.PatchedPodCounts` shows for the operator's rules; and the controller's two observations see the same pods there, unlike in `Reconciler`.
- PlacementRuns.ClosedLoop: the StatefulSet controller's template update, which restarts pods beyond the one evicted, is not part of the loop.
- Reconciler.DeploymentReconciler.Reconcile: error counters, requeue intervals and the search for a window in workload, namespace and global configuration are not modelled; the resolved window is an input.
- AdmissionTracker.AdmissionStateTracker.SelectAndReserve: observed counts and targets are unbounded integers, because callers pass 32-bit values into 64-bit sums; the reservation counters do wrap at 32 bits.
- SplitAdmission.OvershootBound: assumes that deficit plus k stays within a 32-bit counter, as the source does.
- NodeClassifier.NodeClassifierService.ClassifyNodesByName: each operation is atomic, so the order of the two mutexes does not appear; instance types are lower-cased in ASCII only.
- NamespaceFilter.NamespaceFilter.IsNamespaceAllowed: a lookup that computes while UpdateConfig runs is not interleaved; the Tenant field and the timestamp are left out, as is RequiredAnnotations, which no stage reads.
- Escalation.WholeBackoffIffFits: float64 is known only by what IEEE 754 promises of its rounding (whole numbers up to 2^53, order, relative error 2^-53), a float64 infinity counts as one more product beyond int64, and a negative base or multiplier is not covered.
- FractionalEscalation.BackoffExactIff: above the cap, where five minutes hide what was lost, `CertainlyCapped` gives a sufficient condition only.
- Configuration.RoundTrip: WorkloadPolicy.Resolve over inherited defaults is not modelled, nor are SetAnnotationValue and RemoveAnnotation.
- PodMutation.PatchSetsOneLabel: the add operation is modelled on objects only; array elements, which these paths never reach, are refused.
- Selection.SortPodsByOrdinal: the library's sort is replaced by an insertion sort; both promise only an ordered permutation. The ascending order, which no caller uses, is not modelled.
- The fallback observation without an Observer, disruption policies, leader election and shutdown: not wired to the loop, or sleeps and labels only.
