# Forwarder model

A Dafny model of the operator that turns a ClusterLogForwarder into a running Vector collector, with proofs of what each
part promises. The modules follow the program:

- **Names and globs.** `Ordering`, `Ids`, `Globs`, `ContainerPaths`, `Selection`, `SelectionProofs`: component ids, the
  builder of container path globs, and which log files the application and infrastructure inputs collect.
- **The generator.** `Api`, `Components`, `Adapters`, `Conf` hold the spec, the compiled configuration as a function of it,
  and the adapter-based generator proved equal to that function. `Graph`, `Routes`, `Traces`, `Suffixes`,
  `Distinctness`, `Clashes`, `Rank` and `Determinism` prove that routing is preserved, when exactly ids are distinct, that
  the graph is closed and acyclic, and that map order does not show. `Provenance` and `SourceChains` say which sources run
  and what follows each of them, `SystemFilter` that the system filter knows of the sources it serves.
- **Field paths.** `FieldPath`: the accepted grammar, its tokenizer and the quoting of segments.
- **The status gate.** `Conditions`, `Migration`, `Checks`, `Permissions`, `Gate`, `GateProofs`: condition lists, input
  migration, the validators and the gate. `SafeCompile` joins the gate to the generator, `Sources` both to the selection
  of log files. `ReservedInputs`, `HostNames`, `Verdicts` and `Reviews` say what migration, verdicts and reviews
  mean for the records collected.
- **Reconciling.** `Calls`, `Workload`, `Rbac`, `ProtectedAccounts`: state machines over calls to the API server that may
  fail before or after they take effect.
- **The pod and its network.** `PodMounts`, `NetworkPolicy`.
- **Must-gather.** `Pools`, `MustGather`, `CollectorRuns`: goroutines, semaphores and wait groups as steps.

A vector component is a label for the work it does and the list of ids it reads. The clock, the results of permission
reviews, the texts of checks that are left out and the outcome of every API call are parameters. `Outcome.Panic` stands for
a Go panic or exit.

Where the code and what it promises part, the model follows the code and states the exact condition:

- Component ids can coincide, because formatting maps dashes to the separator. `Distinctness.IdsDistinctIff` has the exact
  condition. Filter ids are unique inside a pipeline; across pipelines `aa` with filter `bb-cc` meets `aa-bb` with `cc`. A
  receiver meets another input when it is named like one of its components: receiver `aa-container` and application input
  `aa` share the id of a source, receiver `aa-meta` meets the normalizing transform of receiver `aa`. A rate-limited output `xx`
  meets an output `xx-throttle`. Pipelines such as `app` and `app-infra` with the same filters do not meet.
- A namespace glob with a wildcard before a literal also selects other namespaces (`Globs.NamespaceGlobExactIff`).
- `SplitPath` inverts the grammar only when quoted segments have no empty dot-component.
- Complaints about one pipeline are repeated for all later ones (`GateProofs.PipelineLeak`). The gate is exact all the same.
- The condition of a reserved input that is only referred to gets a new transition time on every reconcile.
- A list of conditions that becomes empty is not removed from the stored status, because the merge patch leaves it out.
- Infrastructure tuning without a container section passes validation and stops the generator.
- Code that relies on admission: a prune filter without its section would stop the pipeline check in front of Google Cloud
  Logging, a receiver without its section would stop migration, and an infrastructure or audit input without its section
  would get no mounts. The rules of the resource definition refuse all three (api/observability/v1/filter_types.go:47,
  api/observability/v1/input_types.go:53-55), and with them nothing stops (`GateProofs.AdmittedNeverPanics`).
- The check for a pruned host name compares paths as text, so the host name in quotes hides from it: under `in` the filter is
  accepted and prunes it, under `notIn` the filter is refused and keeps it (`HostNames.PruneCheckIff`).
- The order of several rules in one direction of a network policy is settled by sorting only when their sizes differ
  (`NetworkPolicy.BuildsAgreeIff`); the policies the operator builds have one rule in each direction.
- When the kind of workload changes and permissions are lost at the same time, undeploying leaves the old kind in place.
- `QuotePathSegments` is not idempotent on an empty segment, and escapes a quoted segment again that runs over a line end.

## Model

| member | source | states |
|---|---|---|
| `Ordering.ListSet` | internal/generator/vector/conf/conf.go:121-132 | the keys of a map come back sorted, each once, whatever order the map is walked in |
| `Ordering.ListingUnique` | internal/generator/vector/conf/conf.go:121-132 | a set of strings has one sorted listing, so sorting erases map order |
| `Ordering.SortedUnique` | internal/generator/vector/adapters/pipeline_filter.go:37-46 | a multiset of ids has one sorted order, so any sort gives the same input list |
| `Ids.MakeIdInjective` | internal/generator/vector/helpers/node.go:18-43 | on tokens that formatting leaves alone, ids are equal exactly when the token lists are |
| `Ids.FilterIdsEqualIff` | internal/generator/vector/adapters/pipeline.go:120-140 | for all names, two filter ids are equal exactly when the positions agree and the joined pipeline and filter names format alike |
| `Ids.FilterIdsDistinctWithinPipeline` | internal/generator/vector/adapters/pipeline.go:127-140 | filters at different positions of one pipeline never share an id, whatever the names |
| `Ids.FilterIdsCollideAcrossPipelines` | internal/generator/vector/adapters/pipeline.go:127-140 | pipeline `aa` with filter `bb-cc` and pipeline `aa-bb` with filter `cc` give one id |
| `Globs.CollapsePreservesLanguage` | internal/generator/helpers/container_path_glob_builder.go:175-179 | collapsing runs of wildcards matches exactly the same strings |
| `Globs.CollapseIdempotent` | internal/generator/helpers/container_path_glob_builder.go:175-179 | collapsing twice changes nothing |
| `Globs.NamespaceGlobIff` | internal/generator/helpers/container_path_glob_builder.go:165-179 | what a normalized namespace glob selects, for every glob: directories whose namespace matches, and those where the glob runs on into the pod name |
| `Globs.NamespaceGlobExactIff` | internal/generator/helpers/container_path_glob_builder.go:165-179 | the normalized glob selects by namespace alone exactly when its wildcards are all trailing |
| `ContainerPaths.ContainerPathGlobBuilder.AddCombined` | internal/generator/helpers/container_path_glob_builder.go:76-89 | adds one combined entry for each namespace and container pair and touches nothing else |
| `ContainerPaths.ContainerPathGlobBuilder.AddNamespaces` | internal/generator/helpers/container_path_glob_builder.go:97-103 | adds the normalized non-empty namespaces and touches nothing else |
| `ContainerPaths.ContainerPathGlobBuilder.Build` | internal/generator/helpers/container_path_glob_builder.go:119-156 | returns the sorted union of combined entries, other paths and the namespace by container product, with `everything` as the empty list |
| `ContainerPaths.BuildIndependentOfCallOrder` | internal/generator/helpers/container_path_glob_builder.go:76-156 | the built list depends only on the set of Add calls, not on their order or repetition |
| `ContainerPaths.IncludeMeaning` | internal/generator/helpers/container_path_glob_builder.go:119-156 | on log files the collapse of `everything` to the empty list keeps the meaning of an include list |
| `ContainerPaths.ExcludeMeaning` | internal/generator/helpers/container_path_glob_builder.go:119-156 | on every log file, an exclude list keeps its meaning exactly when it is not the `everything` glob alone, which turns into a list that excludes nothing |
| `ContainerPaths.CombinedMatches` | internal/generator/helpers/container_path_glob_builder.go:76-89 | a combined entry selects a path exactly when its namespace, container and file parts do |
| `Selection.PruneInfraNS` | internal/generator/vector/input/container.go:101-133 | the default infrastructure globs that remain are those whose group is not the leftmost match of any include |
| `Selection.ApplicationGlobs` | internal/generator/vector/input/source.go:22-69 | the two builders yield the include and exclude lists that the selection theorems speak of |
| `Selection.InfrastructureGlobs` | internal/generator/vector/input/source.go:80-86 | the infrastructure include list and the logging excludes |
| `SelectionProofs.ApplicationSelects` | internal/generator/vector/input/source.go:22-69 | for every validated application spec, exactly which log files are collected |
| `SelectionProofs.ExcludesNeverCollapse` | internal/generator/vector/input/source.go:64-66 | the exclude list of an application input is never collapsed to the empty list |
| `SelectionProofs.ExplicitIncludeNeverLost` | internal/generator/vector/input/container.go:101-133 | a namespace included by its own name is collected in full but for what a user exclude matches |
| `SelectionProofs.InfrastructureSelects` | internal/generator/vector/input/source.go:80-86 | an infrastructure input collects exactly the log files of infrastructure namespaces outside the logging stack |
| `SelectionProofs.Partition` | internal/generator/vector/input/container.go:25-39 | each log file is collected by exactly one of the reserved application and infrastructure inputs, except those of the logging stack, which neither collects |
| `SelectionProofs.RotatedNeverCollected` | internal/generator/vector/input/container.go:37 | no rotated, compressed or temporary log file is collected by any input |
| `Adapters.PipelineFilter.Transform` | internal/generator/vector/adapters/pipeline_filter.go:37-46 | reads the ids of its references at the time of the call and sorts them; nil references are skipped |
| `Adapters.Pipeline.AddSystemFilters` | internal/generator/vector/adapters/pipeline.go:88-118 | puts the system filter between parse and multiline filters and all others, replacing a user filter of its name |
| `Adapters.Pipeline.InitFilter` | internal/generator/vector/adapters/pipeline.go:127-140 | appends one filter chained to the one before it, or nothing when the name resolves to nothing |
| `Adapters.NewPipeline` | internal/generator/vector/adapters/pipeline.go:39-86 | panics exactly when some filter reference resolves to nothing; otherwise the filters realize the stages of the pipeline and every named output gains the last id once per reference |
| `Conf.NewContainerSource` | internal/generator/vector/input/container.go:42-99 | ids and labels of a container source chain with the glob lists it was given, and the id recorded in the adapter; panics exactly on infrastructure tuning without a container section |
| `Conf.NewSource` | internal/generator/vector/input/source.go:17-128 | the chains of an input, those of containers with the glob lists of the selection theorems, the ids recorded in its adapter, and exactly when it panics |
| `Conf.MakePipelines` | internal/generator/vector/conf/conf.go:86-91 | all pipelines in spec order, their wiring and the ids their outputs have collected |
| `Conf.Conf` | internal/generator/vector/conf/conf.go:68-118 | the adapter-based generator yields exactly the compiled configuration and panics exactly when that does |
| `Graph.AssembleExact` | internal/generator/vector/api/config.go:38-54 | with distinct ids the map merges of a configuration lose and invent no component |
| `Routes.RoutesExact` | internal/generator/vector/conf/conf.go:68-118 | the source-to-sink id paths of the configuration are exactly the input, filters, output routes of the spec |
| `Traces.SystemOrderStable` | internal/generator/vector/adapters/pipeline.go:88-118 | before and after the system filter stand the early and the other filters, each class complete and in spec order |
| `Traces.SystemOrderMultiset` | internal/generator/vector/adapters/pipeline.go:88-118 | reordering loses and repeats no filter, and there is one system filter exactly when no reference has its name |
| `Traces.RoutingPreserved` | internal/generator/vector/conf/conf.go:68-118 | with distinct ids, the sequences of work along routes of the configuration are exactly those the spec asks for |
| `Traces.RoutingOfNames` | internal/generator/vector/conf/conf.go:68-118 | the same for every spec whose names do not clash, without a hypothesis on ids |
| `Traces.RoutingOfCleanNames` | internal/generator/vector/conf/conf.go:68-118 | in particular for every spec with plain distinct names |
| `Traces.LimitedOutputThrottled` | internal/generator/vector/output/factory.go:29-41 | every route to a rate-limited output passes its throttle right before the sink |
| `Provenance.JournalExact` | internal/generator/vector/input/source.go:71-91 | the node journal is read exactly when some input asks for node logs |
| `Provenance.AuditExact` | internal/generator/vector/input/source.go:92-121 | each of the six audit log files is read exactly when some input asks for its audit source |
| `Provenance.ReceiverExact` | internal/generator/vector/input/receiver.go:20-47 | a server of a kind and port runs exactly when some receiver input is of that kind and port |
| `SourceChains.LimitedInputThrottled` | internal/generator/vector/input/container.go:92-96 | on every route from the container source of an input, the throttle with the limit from the fields of the spec stands right after the normalizing transform, and without a limit no input throttle stands anywhere |
| `SourceChains.SourceFollowed` | internal/generator/vector/input/source.go:17-128 | every trace starts with one source that an input of its pipeline asks for, followed by the log source, items and throttle that belong to it and by no other part of an input |
| `SourceChains.OutputThrottleExact` | internal/generator/vector/output/factory.go:29-41 | an output throttle stands right before the sink exactly when the output has a positive limit, with that limit |
| `SystemFilter.SystemKnowsSource` | internal/generator/vector/filter/openshift/viaq/v1/filter.go:71-104 | behind the gate every record meets a system filter, and each one it meets has the script for the source the record comes from |
| `SystemFilter.FactsFromSources` | internal/api/observability/input_types.go:142-181 | a script is there only if records of its kind pass the same filters; the one for the Kubernetes API server also for an HTTP receiver of that format |
| `Distinctness.IdsDistinctIff` | internal/generator/vector/conf/conf.go:68-118 | all generated components have distinct ids exactly when no two inputs, no two pipelines and no two outputs clash; a clash is read off formatted names |
| `Distinctness.InputIdsCollideIff` | internal/generator/vector/input/source.go:17-128 | two inputs share an id exactly when their names format alike and they have a component of the same purpose, or one is a receiver named like a component of the other |
| `Distinctness.PipelineIdsCollideIff` | internal/generator/vector/adapters/pipeline.go:120-140 | two pipelines share an id exactly when at some position pipeline and filter name together format alike |
| `Distinctness.OutputIdsCollideIff` | internal/generator/vector/output/factory.go:29-41 | two outputs share an id exactly when their names format alike or one is named like the throttle of the other |
| `Clashes.ContainerMeetsReceiver` | internal/generator/vector/input/receiver.go:20-47 | application input `aa` and receiver `aa-container` share the id of a source |
| `Clashes.ThrottleMeetsSink` | internal/generator/vector/output/factory.go:29-41 | a rate-limited output `xx` and an output `xx-throttle` share an id |
| `Clashes.SameFiltersClashIff` | internal/generator/vector/adapters/pipeline.go:120-140 | pipelines that run the same filters clash exactly when their names format alike, so `app` and `app-infra` do not |
| `Clashes.SeparateNamesDistinctIds` | internal/generator/vector/helpers/node.go:18-43 | ids are distinct when no formatted input, output or pipeline name extends another at an underscore, whatever filters are called |
| `Clashes.CleanNamesDistinctIds` | internal/generator/vector/helpers/node.go:18-43 | names without dashes, dots, blanks, capitals and underscores are such names |
| `Rank.ReadsEarlier` | internal/generator/vector/conf/conf.go:93-118 | each component reads only sources and transforms written before it |
| `Rank.EdgesClosed` | internal/generator/vector/conf/conf.go:93-118 | every edge of the configuration names a generated source or transform |
| `Rank.EdgesClimb` | internal/generator/vector/conf/conf.go:93-118 | with distinct ids the writing position grows along every edge |
| `Rank.NoCycle` | internal/generator/vector/conf/conf.go:93-118 | no path of the configuration returns to its start |
| `Determinism.CompileSame` | internal/generator/vector/conf/conf.go:98-132 | the configuration is the same for every order of the same inputs |
| `Determinism.MigrationOrderIrrelevant` | internal/api/initialize/init_inputs.go:46-50 | two walks of the input map generate the same configuration |
| `FieldPath.RenderInjective` | internal/validations/observability/filters/validate_filters.go:19 | the path grammar is unambiguous |
| `FieldPath.SplitPath` | internal/generator/vector/helpers/helpers.go:116-142 | the loop returns exactly the rendered segments of an accepted path if and only if all of them are tidy |
| `FieldPath.SplitPathRoundTrip` | internal/generator/vector/helpers/helpers.go:116-142 | splitting a rendered path gives back its segments exactly when no quoted segment has an empty dot-component |
| `FieldPath.TidyByDots` | internal/generator/vector/helpers/helpers.go:116-142 | that is, when none starts or ends with a dot or has two in a row |
| `FieldPath.QuotePathSegments` | internal/generator/vector/helpers/helpers.go:144-155 | quotes every element of the slice in place |
| `FieldPath.QuoteIdempotent` | internal/generator/vector/helpers/helpers.go:144-155 | quoting again changes nothing exactly when no segment is empty |
| `FieldPath.QuotedOnce` | internal/generator/vector/helpers/helpers.go:144-155 | each segment ends up between one pair of quotes exactly when no quoted text runs over a line end |
| `FieldPath.PathToQuotedSegments` | internal/generator/vector/helpers/helpers.go:93-155 | from an accepted path to one quoted string for each of its segments |
| `Conditions.ConditionList.SetCondition` | internal/api/observability/conditions.go:33-53 | replaces the first condition of the type or appends, keeps the time when the status stays, and reports a change exactly when status, reason or message differ |
| `Conditions.ConditionList.PruneConditions` | internal/api/observability/conditions.go:55-66 | keeps conditions of the wanted types, once per matching name |
| `Conditions.ConditionList.RemoveConditionByType` | internal/api/observability/conditions.go:68-77 | removes the conditions of one type |
| `Conditions.SetFind` | internal/api/observability/conditions.go:33-53 | setting a condition changes what is found under its own type and under no other |
| `Conditions.SetUnique` | internal/api/observability/conditions.go:33-53 | condition types stay unique |
| `Conditions.IsValid` | internal/api/observability/forwarder.go:41-54 | a list is valid exactly when it has the expected length and all its conditions have the prefix and are True |
| `Conditions.ListGate` | internal/api/observability/forwarder.go:41-54 | after pruning and setting, a list is valid exactly when every verdict is True, whatever it held before |
| `Conditions.TransitionTime` | internal/api/observability/conditions.go:33-66 | the time after pruning and setting: taken over exactly when the type survived the pruning and the status stays |
| `Checks.MessagesExact` | internal/validations/observability/pipelines/validate.go:33-120 | a pipeline draws no complaint exactly when its references resolve and no filter prunes the host name towards Google Cloud Logging |
| `HostNames.PruneCheckIff` | internal/validations/observability/pipelines/validate.go:87-127 | the check for a pruned host name agrees with what the filter leaves of a record exactly when the path is not hidden by quotes |
| `HostNames.PipelineCheckIff` | internal/validations/observability/pipelines/validate.go:62-85 | a pipeline with resolving references draws no complaint exactly when it leads to no Google Cloud Logging output or a record keeps its host name through all filters; this holds exactly when some filter is rightly refused, or wrong answers show on neither or on both sides |
| `HostNames.QuotedHostSlipsThrough` | internal/generator/vector/filter/prune/filter.go:47-86 | a prune filter that lists the host name in quotes under `in` removes it unseen by the check |
| `HostNames.HostNameReachesGoogle` | internal/generator/vector/filter/prune/prune.vrl.tmpl:1-22 | behind the gate, a prune filter on a route to a Google Cloud Logging sink leaves the host name exactly when it does not list it in quotes alone under `in` |
| `Migration.AddReserved` | internal/api/initialize/init_inputs.go:18-45 | referenced reserved names replace or add their standard inputs |
| `Migration.MigrateInputs` | internal/api/initialize/init_inputs.go:13-81 | stops exactly on a receiver input without a receiver section; otherwise lists the migrated inputs once each, in some order |
| `Migration.MigrationIdempotent` | internal/api/initialize/init_inputs.go:13-81 | migrating again changes no input |
| `ReservedInputs.MigratedMeaning` | internal/api/initialize/init_inputs.go:13-81 | a migrated input has every source and no limit if a pipeline refers to it by its reserved name, and is otherwise the one of the spec, a receiver completed with the secret named after forwarder and input; no other input is there and none is lost |
| `ReservedInputs.AuditReadsAll` | internal/api/initialize/init_inputs.go:34-41 | a pipeline that refers to `audit` makes the collector read all six audit log files |
| `ReservedInputs.InfrastructureReadsAll` | internal/api/initialize/init_inputs.go:26-33 | one that refers to `infrastructure` makes it read the node journal and every container log of an infrastructure namespace outside the logging stack |
| `ReservedInputs.ApplicationReadsAll` | internal/api/initialize/init_inputs.go:20-25 | one that refers to `application` makes it read every container log of the other namespaces |
| `Permissions.GatherPipelineInputs` | internal/validations/observability/validate_permissions.go:110-153 | the loops yield exactly the log types that the pipelines collect and whether they read a receiver, and stop exactly at a referenced receiver without its section |
| `Permissions.ValidateServiceAccountPermissions` | internal/validations/observability/validate_permissions.go:75-108 | reviews in sorted order up to the first call that fails; otherwise the denied types, each once and sorted |
| `Permissions.ValidatePermissions` | internal/validations/observability/validate_permissions.go:34-60 | the Authorized verdict with its reason and text |
| `Permissions.AccessExact` | internal/validations/observability/validate_permissions.go:34-153 | that verdict is True exactly when the account exists and every collected log type is allowed, or only other receivers are read |
| `Permissions.DeniedNamed` | internal/validations/observability/validate_permissions.go:75-108 | without failing calls the complaint names exactly the collected types that are denied |
| `SourceChains.SourcesReviewed` | internal/validations/observability/validate_permissions.go:110-153 | behind the gate, whatever a source reads that records reach a pipeline from is of a log type that a review allowed |
| `Reviews.FilesReviewed` | internal/validations/observability/validate_permissions.go:110-153 | behind the gate and with such includes as name infrastructure namespaces from their start or nowhere, every container log that a source reads for a pipeline is of the log type that a review allowed, told by its namespace |
| `Verdicts.ReviewedNeeded` | internal/validations/observability/validate_permissions.go:110-153 | a log type is reviewed only when pipelines refer to it or to an input that can hold such logs |
| `Verdicts.InfrastructureAccepted` | internal/validations/observability/inputs/infrastructure.go:13-38 | an infrastructure input is accepted exactly when it has its section and limits the message size only together with container logs |
| `Verdicts.AuditAccepted` | internal/validations/observability/inputs/audit.go:11-24 | an audit input is accepted exactly when it has its section |
| `Verdicts.ReceiverAccepted` | internal/validations/observability/inputs/receivers.go:20-59 | a receiver is accepted exactly when it has its section, HTTP with a format, and its key and certificate can be used |
| `Verdicts.OutputAccepted` | internal/validations/observability/outputs/validate.go:13-50 | an output is accepted exactly when some pipeline names it and its settings draw no complaint |
| `Verdicts.OutputsReached` | internal/validations/observability/outputs/validate.go:13-50 | so behind the gate records flow to every output |
| `Verdicts.ValidExact` | internal/controller/observability/clusterlogforwarder_controller.go:270-281 | after a refresh the Valid condition is True exactly when every part of the spec passes its own check |
| `Verdicts.PercentOrWholeNumberMeans` | internal/validations/observability/validate_annotations.go:15-27 | the accepted values are the positive whole numbers and the percentages from 1 to 100 |
| `Gate.ValidateInputs` | internal/validations/observability/inputs/validate.go:10-30 | sets one verdict per input |
| `Gate.ValidateOutputs` | internal/validations/observability/outputs/validate.go:13-50 | sets one verdict per output |
| `Gate.ValidateFilters` | internal/validations/observability/filters/validate.go:8-13 | sets one verdict per filter, in the order of a map walk |
| `Gate.ValidatePipelines` | internal/validations/observability/pipelines/validate.go:11-31 | sets the accumulating verdicts in spec order, and stops exactly where a prune filter without its section meets Google Cloud Logging |
| `Gate.Forwarder.ValidateConditions` | internal/validations/observability/validate.go:14-30 | annotation conditions set or removed, then the Authorized condition from the permission check |
| `Gate.Forwarder.RemoveStaleStatuses` | internal/controller/observability/clusterlogforwarder_controller.go:293-302 | prunes the four lists against the stored spec |
| `Gate.Forwarder.IsValidSpec` | internal/api/observability/forwarder.go:30-63 | True authorization and four complete, all-True lists |
| `GateProofs.Refresh` | internal/controller/observability/clusterlogforwarder_controller.go:84-108 | prune, migrate and validate in a row, with the whole new status, also where it stops; it stops exactly on two kinds of missing section |
| `GateProofs.AdmittedNeverPanics` | api/observability/v1/filter_types.go:45-48 | with the sections that admission asks of inputs and filters, neither migration nor the pipeline check stops |
| `GateProofs.SectionlessPruneStops` | internal/validations/observability/pipelines/validate.go:33-120 | without admission, a prune filter lacking its section stops the pipeline check |
| `GateProofs.SectionlessReceiverStops` | internal/api/initialize/init_inputs.go:13-81 | without admission, a receiver input lacking its section stops migration |
| `GateProofs.GateExact` | internal/api/observability/forwarder.go:30-63 | from any status with unique types and any spec with unique names, the gate opens exactly when permissions, inputs, outputs, filters and pipelines each pass their own check |
| `GateProofs.PipelineLeak` | internal/validations/observability/pipelines/validate.go:11-31 | a pipeline is reported True exactly when it and all pipelines before it pass |
| `GateProofs.HistoryFree` | internal/controller/observability/clusterlogforwarder_controller.go:270-302 | two refreshes of one spec agree on validity and on all that the lists say, whatever status, clock and map orders they start from |
| `GateProofs.TypesStayUnique` | internal/api/observability/conditions.go:33-77 | a refresh keeps condition types unique |
| `GateProofs.AuthorizedExact` | internal/validations/observability/validate.go:14-30 | after the checks some Authorized condition is True exactly when the spec is permitted, whatever the list held before |
| `GateProofs.OutputTimes` | internal/api/observability/conditions.go:33-53 | times of output conditions move exactly when the status flips |
| `GateProofs.FilterTimes` | internal/api/observability/conditions.go:33-53 | times of filter conditions move exactly when the status flips |
| `GateProofs.PipelineTimes` | internal/api/observability/conditions.go:33-53 | times of pipeline conditions move exactly when the status flips |
| `GateProofs.InputTimes` | internal/controller/observability/clusterlogforwarder_controller.go:293-302 | times of input conditions do so exactly for inputs the stored spec lists; for others the time is always now |
| `GateProofs.ReservedInputTimeMoves` | internal/controller/observability/clusterlogforwarder_controller.go:293-302 | the time of a reserved input that is only referred to moves although its status stays |
| `GateProofs.OwnTimes` | internal/api/observability/conditions.go:33-77 | Authorized and Valid keep their time exactly while their status stays, the annotation conditions while the annotation stays wrong and are gone otherwise, and no other condition of the forwarder is touched |
| `GateProofs.SpoiledAgain` | internal/validations/observability/validate_annotations.go:42-54 | an annotation put right and spoiled again gets a new time |
| `GateProofs.StaleFilterConditions` | internal/controller/observability/clusterlogforwarder_controller.go:283-291 | conditions of removed filters stay in the stored status exactly when no filter is left |
| `SafeCompile.PassingCompiles` | internal/api/observability/input_types.go:25-42 | for a spec that passes the gate all lookups resolve, and generation fails exactly on tuning without a container section |
| `SafeCompile.ValidSpecCompiles` | internal/generator/vector/conf/conf.go:68-118 | a valid refresh is followed by a configuration without dangling edges, under the same condition |
| `SafeCompile.AcceptedYetPanics` | internal/api/observability/input_types.go:33-39 | an input that validation accepts and generation panics on |
| `Sources.CollectsExact` | internal/generator/vector/input/source.go:17-128 | behind the gate and without clashing names, the container sources of the configuration collect exactly the log files that some input asks for |
| `Sources.AcceptedGlobs` | internal/validations/observability/inputs/application.go:17-56 | validation accepts an application input exactly when it has its section and its globs are those of the selection theorems |
| `Sources.ReservedCollectAll` | internal/generator/vector/input/source.go:17-128 | with both reserved inputs every container log is collected but those of the logging stack that no input asks for |
| `Workload.DeploymentExact` | internal/api/observability/forwarder.go:19-28 | with the annotation, a forwarder with inputs is a Deployment exactly when all of them are receivers |
| `Workload.Cluster.Remove` | internal/collector/daemonset.go:27-40 | get and delete, each of which may fail, with the exact effect and result |
| `Workload.Cluster.Apply` | internal/collector/daemonset.go:18-25 | create what is missing, update what differs, each of which may fail, with the exact effect and result |
| `Workload.Cluster.DeployCollector` | internal/controller/observability/clusterlogforwarder_controller.go:121-141 | stale workload removed, configuration generated, workload applied; where each step may stop it |
| `Workload.Cluster.Reconcile` | internal/controller/observability/clusterlogforwarder_controller.go:65-139 | one reconcile: the workloads after it, the readiness it reports, and the exact status it stores in every case, also when it panics or the patch fails |
| `Workload.ReconciledUnique` | internal/controller/observability/clusterlogforwarder_controller.go:65-150 | the stored status keeps its condition types unique |
| `Workload.ReadyTime` | internal/controller/observability/clusterlogforwarder_controller.go:283-291 | a patch that takes stores one Ready condition, True exactly when the reconcile went through, whose time moves exactly when its status flips |
| `Workload.CourseExact` | internal/controller/observability/clusterlogforwarder_controller.go:102-135 | a managed reconcile deploys exactly when the spec passes and undeploys exactly when permissions are missing |
| `Workload.StaysExclusive` | internal/controller/observability/clusterlogforwarder_controller.go:119-150 | wherever calls fail, at most one kind of workload stays at most one |
| `Workload.SuccessLeavesSelected` | internal/controller/observability/clusterlogforwarder_controller.go:119-150 | a successful reconcile leaves exactly the selected kind, even from both |
| `Workload.UndeployExact` | internal/controller/observability/clusterlogforwarder_controller.go:106-116 | undeploying removes the collector exactly when the other kind was not there |
| `Workload.ReadyMeans` | internal/controller/observability/clusterlogforwarder_controller.go:65-139 | a reconcile that reports Ready deployed a passing spec, generated its configuration and left the selected kind |
| `Workload.RunSafe` | internal/controller/observability/clusterlogforwarder_controller.go:65-150 | over any run of edits, deletions and reconciles cut at any call, a DaemonSet and a Deployment never both exist and condition types stay unique |
| `Workload.RunReady` | internal/controller/observability/clusterlogforwarder_controller.go:65-150 | at every Ready reconcile of a run exactly the selected kind exists |
| `Workload.RunReadyStems` | internal/controller/observability/clusterlogforwarder_controller.go:65-150 | at any point of a run a stored Ready that is True stems from a reconcile that went through, with nothing stored since |
| `Workload.RunUntouched` | internal/controller/observability/clusterlogforwarder_controller.go:68-98 | reconciles of unmanaged, deleted or absent forwarders change no workload |
| `MustGather.SystemInvStep` | must-gather/internal/namespace/collector.go:50-178 | every step of any goroutine keeps the invariant that ties semaphores and wait groups to the goroutines |
| `MustGather.ConcurrencyBounded` | must-gather/internal/namespace/collector.go:16-23 | at most five namespaces at work, each with at most ten resources or ten pods |
| `MustGather.ResourcesBeforePods` | must-gather/internal/namespace/collector.go:78-107 | while pods are collected every resource has been started once and is finished |
| `MustGather.NoDeadlock` | must-gather/internal/namespace/collector.go:50-178 | until collection returns some step is possible |
| `MustGather.SystemRankFalls` | must-gather/internal/namespace/collector.go:50-178 | every step leaves less to do |
| `MustGather.EndedComplete` | must-gather/internal/namespace/collector.go:77-177 | an inspection ends only after all its resources, if it was fetched, and all pods of its namespace, if they were listed, have been collected once |
| `MustGather.RunsReturn` | must-gather/internal/namespace/collector.go:50-178 | every run is finite with a known bound, can only stop by returning, and then handled every namespace exactly once, with all resources of those ever fetched and all pods of those ever listed collected exactly once |
| `Pools.Lively` | must-gather/internal/namespace/collector.go:116-178 | a pool that has not returned can move by itself or has a goroutine at work |
| `CollectorRuns.SendNeverBlocks` | must-gather/gather.go:131-153 | a finished collector always finds room in the channel |
| `CollectorRuns.NoDeadlock` | must-gather/gather.go:131-164 | until the results are drained some move is possible |
| `CollectorRuns.OneResultEach` | must-gather/gather.go:131-164 | the results hold exactly one entry per collector |
| `CollectorRuns.MovesFinite` | must-gather/gather.go:131-164 | every move leaves one fewer to make |
| `Rbac.Namespace.ReconcileBinding` | internal/reconcile/rbac.go:30-54 | create, recreate on a changed role reference, or update, each call of which may fail |
| `Rbac.Namespace.CleanUp` | internal/auth/rbac.go:35-56 | the old role goes exactly when no binding names it |
| `Rbac.Namespace.ReconcileRBAC` | internal/auth/rbac.go:18-59 | role, binding and cleanup in a row, stopping at the first error |
| `Rbac.DanglingShrinks` | internal/auth/rbac.go:18-59 | wherever it is cut, a reconcile makes no binding dangle that did not |
| `Rbac.CompletedOwns` | internal/auth/rbac.go:18-59 | a completed reconcile leaves its binding on an existing role and the old role only where still in use |
| `Rbac.CompletedObjects` | internal/auth/rbac.go:18-59 | the same spelled out in the names of role, binding and old role |
| `Rbac.OthersKeep` | internal/auth/rbac.go:18-59 | reconciles of other forwarders take neither away, also when their old role name is this role |
| `Rbac.RunDangling` | internal/auth/rbac.go:18-59 | over any run the dangling bindings only become fewer |
| `Rbac.RunOwns` | internal/auth/rbac.go:18-59 | what a completed reconcile set up lasts until the same forwarder is reconciled again |
| `NetworkPolicy.KeyInjective` | internal/runtime/network_policy.go:117-119 | different ports have different sort keys |
| `NetworkPolicy.SortedPortsUnique` | internal/runtime/network_policy.go:116-120 | a collection of ports has one sorted order |
| `NetworkPolicy.PolicyBuilder.AllowAll` | internal/runtime/network_policy.go:63-75 | adds a rule without ports to one direction and its policy type once |
| `NetworkPolicy.RuleBuilder.End` | internal/runtime/network_policy.go:112-126 | adds the rule, sorts the ports of every rule and the rules by their number of ports, losing none |
| `NetworkPolicy.GetInputPorts` | internal/network/ports.go:67-77 | exactly the positive receiver ports, each once |
| `NetworkPolicy.RestrictIngressEgress` | internal/factory/network_policy.go:68-92 | one sorted rule for each direction with the metrics, DNS and API server ports |
| `NetworkPolicy.PolicyOfSets` | internal/factory/network_policy.go:68-92 | two walks over the same sets of ports end in the same policy |
| `NetworkPolicy.OrderSettledIff` | internal/runtime/network_policy.go:121-123 | sorting by size settles the order of the rules exactly when no two different rules have the same number of ports |
| `NetworkPolicy.BuildReaches` | internal/runtime/network_policy.go:112-126 | every order of the rules that sorting admits is what some build of them ends with |
| `NetworkPolicy.BuildsAgreeIff` | internal/runtime/network_policy.go:112-126 | any two builds of the same rules end alike exactly when no two of them with different ports have the same number of ports |
| `ProtectedAccounts.TrimExact` | internal/runtime/clusterlogforwarder/clusterlogforwarder.go:36 | trimming takes away space at both ends and nothing else |
| `ProtectedAccounts.ListServiceAccounts` | internal/runtime/clusterlogforwarder/clusterlogforwarder.go:26-47 | exactly the declared accounts, each once |
| `ProtectedAccounts.ConfigMapStore.SyncProtectedServiceAccounts` | internal/admission/protected_sa_policy.go:137-166 | a success stores exactly the rebuilt data; a failure leaves the old data or, at the last call, the new |
| `ProtectedAccounts.KeyInjective` | internal/runtime/clusterlogforwarder/clusterlogforwarder.go:18-24 | keys decode to one account as long as namespaces hold no underscore |
| `ProtectedAccounts.KeyNotCreators` | internal/admission/protected_sa_policy.go:30-31 | account keys never meet the creator keys |
| `ProtectedAccounts.SyncedExact` | internal/admission/protected_sa_policy.go:137-166 | after a sync an account is listed exactly when a forwarder of its namespace declares it |
| `ProtectedAccounts.SyncedOnlyAccounts` | internal/admission/protected_sa_policy.go:137-166 | every key with the account prefix belongs to a declared account |
| `PodMounts.NewPodSpec` | internal/collector/collector.go:146-222 | the volumes and mounts of the pod in order |
| `PodMounts.EveryMountHasVolume` | internal/collector/collector.go:146-288 | every mount names a volume of the pod |
| `PodMounts.SectionProvided` | internal/api/observability/input_types.go:142-181 | as a DaemonSet the pod provides all host paths that the sources of an input with its section read |
| `PodMounts.ValidatedProvided` | internal/collector/collector.go:171-208 | so for every validated input every host path read lies under a mounted volume |
| `PodMounts.DirectoriesNeeded` | internal/collector/collector.go:171-208 | every host directory mounted is there for a source that reads below it; only the one of the Kubernetes API server may be there for a receiver of its format |
| `PodMounts.DeploymentReadsNothing` | internal/api/observability/forwarder.go:19-28 | a forwarder that runs as a Deployment reads no host path |
| `PodMounts.MissingSectionNotProvided` | internal/api/observability/input_types.go:142-181 | without admission, an input lacking its section reads host logs that no mount provides |

## Left out

- VRL scripts, TOML text and the global section of the configuration: a transform is its label and its inputs.
- Per-output sink packages: an output is one sink, named by its base id, behind its throttle; the transforms and the several
  LokiStack sinks that those packages add are not part of this model.
- `Distinctness.IdsDistinctIff`: speaks of the components of this model; ids that output packages add under the base id of
  an output are not among them.
- `NewPipeline` for a pipeline without any filter: with the system filter every pipeline has one, so that branch is not reached.
- Label selectors and message sizes of inputs: they limit what a source reads or how, not where it reads.
- Receiver inputs: TLS settings are the name of the secret; the secrets generated for them are taken as known to the checks.
- Validation of output settings, drop and prune tests and audit rules: their messages are parameters of the checks.
- `InputVerdict`: names are put between quotes as they are, which is what `%q` does for the names the API admits.
- `Permissions.ValidatePermissions`: the account lookup and each access review may fail, with an error text that is a parameter.
- Client caches, watches, retries on conflict and requeueing: the API server is a store that answers calls one at a time.
- `Cluster.Reconcile`: one reconciler works at a time, and only it creates workloads; secrets, services, service monitors and
  network policies are steps that may fail.
- Non-ASCII text in quoted path segments: characters above ASCII are taken as printable.
- `GenerateQuotedPathSegmentArrayStr`: the joining of segments and the flattened field names are not modelled.
- Extraction of ports from URLs and from the environment: the egress ports are a set of ports.
- `HostNames.PruneCheckIff`: a record is the set of its field paths; of the extra paths that a prune filter adds for labels
  with dots or slashes, none can lead to the host name, and they are not part of this model.
- `Reviews.FilesReviewed`: speaks of includes that name infrastructure namespaces from their start or nowhere. The check and
  the generator read an include by different regular expressions, and nothing is claimed of includes that name them later.
- Other must-gather collectors, and file and network access inside a goroutine: a goroutine does its work in one step.
- The validating admission policies that read the protected accounts, and the retrying of a conflicting update.
