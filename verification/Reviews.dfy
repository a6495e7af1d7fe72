/** The permission check against the log files that are read: which reviews cover them. */
module Reviews {
  import opened Wrappers
  import opened Api
  import opened Components
  import opened Graph
  import opened Routes
  import opened Distinctness
  import opened Traces
  import opened Conditions
  import opened Migration
  import opened Checks
  import opened Permissions
  import opened GateProofs
  import opened Selection
  import opened SelectionProofs
  import opened Sources
  import opened SystemFilter
  import opened SourceChains
  import ContainerPaths

  /** The glob is for infrastructure namespaces from its start, or names none of them anywhere. */
  predicate PlainGlob(glob: string) {
    || ('\n' !in glob && (glob == "default" || "openshift" <= glob || "kube" <= glob))
    || (!("default" <= glob) && forall k :: 0 <= k <= |glob| ==> !("openshift" <= glob[k..]) && !("kube" <= glob[k..]))
  }

  ghost predicate PlainIncludes(i: InputSpec) {
    i.application.Some? ==> forall n :: n in i.application.value.includes ==> PlainGlob(n.namespace)
  }

  lemma {:induction false} NoGroup(glob: string, i: nat)
    requires i <= |glob| && (i == 0 ==> !("default" <= glob))
    requires forall k :: 0 <= k <= |glob| ==> !("openshift" <= glob[k..]) && !("kube" <= glob[k..])
    ensures LeftmostGroup(glob, i).None?
    decreases |glob| - i
  {
    if i < |glob| {
      NoGroup(glob, i + 1);
    }
  }

  lemma {:induction false} IncludedFrom(entries: seq<NamespaceContainer>, ns: string) returns (e: NamespaceContainer)
    requires ns in NamespacesOf(entries)
    ensures e in entries && e.namespace == ns
  {
    var init, last := entries[..|entries| - 1], entries[|entries| - 1];
    assert entries == init + [last];
    if last.namespace == ns {
      e := last;
    } else {
      e := IncludedFrom(init, ns);
    }
  }

  /** With plain globs, an application input that reads an infrastructure namespace is one that the check holds to do so. */
  lemma InfraIsNamed(i: InputSpec, f: LogFile)
    requires i.kind == Application && i.application.Some? && PlainIncludes(i) && ApplicationAsks(i.application, f) && IsInfra(f.ns)
    ensures ReadsInfraNamespace(i)
  {
    var g :| InGroup(f.ns, g);
    hide SomeEntrySelects;
    assert g in FoundGroups(IncludedNamespaces(i.application));
    var ns :| ns in IncludedNamespaces(i.application) && LeftmostGroup(ns) == Some(g);
    var e := IncludedFrom(i.application.value.includes, ns);
    assert PlainGlob(ns);
    if !('\n' !in ns && (ns == "default" || "openshift" <= ns || "kube" <= ns)) {
      NoGroup(ns, 0);
      assert false;
    }
    InfraNamed(ns);
  }

  lemma AllowedWhenCollected(spec: ForwarderSpec, world: World, i: InputSpec, t: string)
    requires SpecPasses(spec, world) && i in spec.inputs && t in RESERVED && RefersTo(spec, i.name) && CollectedBy(i, t)
    ensures world.review(t) == Allowed
  {
    PassingPermitted(spec, world);
    hide SpecPasses;
    assert Collects(spec, t);
  }

  /** The log files an input asks for are of the types it is reviewed for. */
  lemma AskedReviewed(spec: ForwarderSpec, world: World, i: InputSpec, f: LogFile)
    requires SpecPasses(spec, world) && i in spec.inputs && RefersTo(spec, i.name) && InputVerdict(i, world).status == True
    requires InputAsks(i, f) && PlainIncludes(i)
    ensures world.review(if IsInfra(f.ns) then "infrastructure" else "application") == Allowed
  {
    assert APPLICATION in RESERVED && INFRASTRUCTURE in RESERVED;
    if i.kind == Application {
      VerdictSection(i, world);
      if IsInfra(f.ns) {
        InfraIsNamed(i, f);
      }
    }
    hide SpecPasses, InputVerdict, RefersTo, ApplicationAsks, IsInfra, IsLoggingFile, PlainIncludes, ReadsInfraNamespace;
    AllowedWhenCollected(spec, world, i, if IsInfra(f.ns) then INFRASTRUCTURE else APPLICATION);
  }

  /**
   Behind the gate, and as long as the includes of application inputs are plain, every container log that a source reads
   for a pipeline is of a log type that a review allowed: that of infrastructure namespaces or that of all others.
   */
  lemma FilesReviewed(spec: ForwarderSpec, world: World, config: Config, trace: seq<Label>, f: LogFile)
    requires SpecPasses(spec, world) && UniquePipelines(spec) && NoClash(spec) && Compile(spec) == Ok(config)
    requires IsTrace(config, trace) && trace != METRICS_TRACE && trace != [] && trace[0].Source? && trace[0].source.KubernetesLogs?
    requires f.Valid() && ContainerPaths.Selected(trace[0].source.selector.includes, trace[0].source.selector.excludes, f.Path())
    requires forall i :: i in spec.inputs ==> PlainIncludes(i)
    ensures world.review(if IsInfra(f.ns) then "infrastructure" else "application") == Allowed
  {
    RoutingOfNames(spec, config, trace);
    var i := ReadBy(spec, trace);
    hide *;
    PassingVerdict(spec, world, i);
    SelectorSelects(i, world, f);
    AskedReviewed(spec, world, i, f);
  }

  lemma PassingVerdict(spec: ForwarderSpec, world: World, i: InputSpec)
    requires SpecPasses(spec, world) && i in spec.inputs
    ensures InputVerdict(i, world).status == True
  {
    hide InputVerdict;
  }

  lemma ReadBy(spec: ForwarderSpec, trace: seq<Label>) returns (i: InputSpec)
    requires AllResolve(spec) && Asks(spec, trace) && trace != METRICS_TRACE && trace != [] && trace[0].Source? && trace[0].source.KubernetesLogs?
    ensures i in spec.inputs && RefersTo(spec, i.name) && ReadsContainers(i) && trace[0].source.selector == SelectorOf(i)
  {
    hide Asks, InputChains, SelectorOf, ReadsContainers, FilterWorks, DeliveryWorks;
    var c, k, o;
    i, c, k, o := TraceSplits(spec, trace);
    InputMapKeys(spec.inputs);
    ContainerLabel(i, c);
    assert spec.pipelines[k] in spec.pipelines;
  }
}
