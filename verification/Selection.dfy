/** Which container log files the application and infrastructure inputs collect. */
module Selection {
  import opened Wrappers
  import opened Ordering
  import opened Globs
  import opened ContainerPaths
  import opened Api

  datatype InfraGroup = DefaultGroup | OpenshiftGroup | KubeGroup

  const GROUPS: set<InfraGroup> := {DefaultGroup, OpenshiftGroup, KubeGroup}
  const INFRA_NAMESPACES := ["default", "openshift*", "kube*"]
  const EXCLUDE_EXTENSIONS := ["gz", "tmp", "log.*"]
  const OPENSHIFT_NS := "openshift-logging"

  /** `nsPodPathFmt` */
  function NsPodPath(ns: string, pod: string): string {
    ns + "_" + pod + "-*/*/*.log"
  }

  /** `nsContainerPathFmt` */
  function NsContainerPath(ns: string, container: string): string {
    ns + "_*/" + container + "/*.log"
  }

  function LoggingPodPaths(): seq<string> {
    [NsPodPath(OPENSHIFT_NS, "logfilesmetricexporter"), NsPodPath(OPENSHIFT_NS, "elasticsearch"), NsPodPath(OPENSHIFT_NS, "kibana")]
  }

  function LoggingContainerPaths(): seq<string> {
    [NsContainerPath(OPENSHIFT_NS, "loki*"), NsContainerPath(OPENSHIFT_NS, "gateway"), NsContainerPath(OPENSHIFT_NS, "opa")]
  }

  function GroupGlob(g: InfraGroup): string {
    match g
    case DefaultGroup => INFRA_NAMESPACES[0]
    case OpenshiftGroup => INFRA_NAMESPACES[1]
    case KubeGroup => INFRA_NAMESPACES[2]
  }

  predicate InGroup(ns: string, g: InfraGroup) {
    match g
    case DefaultGroup => ns == "default"
    case OpenshiftGroup => "openshift" <= ns
    case KubeGroup => "kube" <= ns
  }

  predicate IsInfra(ns: string) {
    exists g :: InGroup(ns, g)
  }

  /** `InfraNSRegex` at position `i`: `^default`, or `openshift.*`, or `kube.*$`, the alternatives tried in this order. */
  function GroupAt(ns: string, i: nat): Option<InfraGroup>
    requires i <= |ns|
  {
    if i == 0 && "default" <= ns then Some(DefaultGroup)
    else if "openshift" <= ns[i..] then Some(OpenshiftGroup)
    else if "kube" <= ns[i..] && '\n' !in ns[i..] then Some(KubeGroup)
    else None
  }

  /** The one named group of the leftmost match. */
  function LeftmostGroup(ns: string, i: nat := 0): Option<InfraGroup>
    requires i <= |ns|
    decreases |ns| - i
  {
    if GroupAt(ns, i).Some? then GroupAt(ns, i)
    else if i == |ns| then None
    else LeftmostGroup(ns, i + 1)
  }

  function FoundGroups(includes: seq<string>): set<InfraGroup> {
    set g | g in GROUPS && exists n :: n in includes && LeftmostGroup(n) == Some(g)
  }

  function PrunedGlobs(includes: seq<string>): set<string> {
    set g | g in GROUPS - FoundGroups(includes) :: GroupGlob(g)
  }

  method PruneInfraNS(includes: seq<string>) returns (result: seq<string>)
    ensures result == Listing(PrunedGlobs(includes))
  {
    var found: set<InfraGroup> := {};
    for i := 0 to |includes|
      invariant found == FoundGroups(includes[..i])
    {
      FoundSnoc(includes, i);
      var matched := LeftmostGroup(includes[i]);
      if matched.Some? {
        found := found + {matched.value};
      }
    }
    assert includes[..|includes|] == includes;
    var globs := {"default", "openshift*", "kube*"};
    if DefaultGroup in found { globs := globs - {"default"}; }
    if OpenshiftGroup in found { globs := globs - {"openshift*"}; }
    if KubeGroup in found { globs := globs - {"kube*"}; }
    assert GroupGlob(DefaultGroup) == "default" && GroupGlob(OpenshiftGroup) == "openshift*" && GroupGlob(KubeGroup) == "kube*";
    forall x ensures x in globs <==> x in PrunedGlobs(includes) {
      PrunedMember(includes, x);
      if x in PrunedGlobs(includes) {
        var g :| g !in found && x == GroupGlob(g);
        match g
        case DefaultGroup =>
        case OpenshiftGroup =>
        case KubeGroup =>
      }
    }
    assert globs == PrunedGlobs(includes);
    result := ListSet(globs);
  }

  lemma FoundSnoc(includes: seq<string>, i: nat)
    requires i < |includes|
    ensures FoundGroups(includes[..i + 1]) == FoundGroups(includes[..i]) +
            if LeftmostGroup(includes[i]).Some? then {LeftmostGroup(includes[i]).value} else {}
  {
    var shorter, longer := includes[..i], includes[..i + 1];
    assert longer == shorter + [includes[i]] && includes[i] in longer;
    forall g | g in FoundGroups(longer) && LeftmostGroup(includes[i]) != Some(g) ensures g in FoundGroups(shorter) {
      var n :| n in longer && LeftmostGroup(n) == Some(g);
      assert n in shorter;
    }
    if LeftmostGroup(includes[i]).Some? {
      AllGroups(LeftmostGroup(includes[i]).value);
    }
  }

  lemma AllGroups(g: InfraGroup)
    ensures g in GROUPS
  {
    match g
    case DefaultGroup =>
    case OpenshiftGroup =>
    case KubeGroup =>
  }

  lemma PrunedMember(includes: seq<string>, x: string)
    ensures x in PrunedGlobs(includes) <==> exists g :: g !in FoundGroups(includes) && x == GroupGlob(g)
  {
    var kept := GROUPS - FoundGroups(includes);
    forall g: InfraGroup | g !in FoundGroups(includes) ensures GroupGlob(g) in PrunedGlobs(includes) {
      AllGroups(g);
      assert g in kept;
    }
    if x in PrunedGlobs(includes) {
      var g :| g in kept && x == GroupGlob(g);
    }
  }

  // -------- the glob lists of the two inputs

  function IncludedNamespaces(app: Option<ApplicationSpec>): seq<string> {
    if app.None? then [] else NamespacesOf(app.value.includes)
  }

  function NamespacesOf(entries: seq<NamespaceContainer>): seq<string> {
    if entries == [] then [] else NamespacesOf(entries[..|entries| - 1]) + [entries[|entries| - 1].namespace]
  }

  function WholeNamespace(glob: string): NamespaceContainer {
    NamespaceContainer(glob, "")
  }

  function IncludeState(app: Option<ApplicationSpec>): State {
    if app.None? then EMPTY else Added(AddCombined(app.value.includes))
  }

  function ExcludeState(app: Option<ApplicationSpec>, extensions: seq<string>): State {
    State({}, {}, (set g | g in PrunedGlobs(IncludedNamespaces(app)) :: Combined(WholeNamespace(g))), {})
      .Plus(if app.None? then EMPTY else Added(AddCombined(app.value.excludes)))
      .Plus(Added(AddExtensions(extensions)))
  }

  ghost function ApplicationIncludes(app: Option<ApplicationSpec>): seq<string> {
    Built(Denotation(IncludeState(app), {}))
  }

  ghost function ApplicationExcludes(app: Option<ApplicationSpec>): seq<string> {
    Built(Denotation(ExcludeState(app, EXCLUDE_EXTENSIONS), Image(NormalizeNamespace, INFRA_NAMESPACES)))
  }

  ghost function InfrastructureIncludes(): seq<string> {
    Built(Denotation(Added(AddNamespaces(INFRA_NAMESPACES)), {}))
  }

  function LoggingState(pods: seq<string>, containers: seq<string>, extensions: seq<string>): State {
    Added(AddOther(pods)).Plus(Added(AddOther(containers))).Plus(Added(AddExtensions(extensions)))
  }

  ghost function LoggingExcludes(): seq<string> {
    Built(Denotation(LoggingState(LoggingPodPaths(), LoggingContainerPaths(), EXCLUDE_EXTENSIONS), {}))
  }

  method AddIncludes(ib: ContainerPathGlobBuilder, entries: seq<NamespaceContainer>) returns (namespaces: seq<string>)
    requires ib.Abstract() == EMPTY
    modifies ib
    ensures ib.Abstract() == Added(AddCombined(entries))
    ensures namespaces == NamespacesOf(entries)
  {
    namespaces := [];
    for i := 0 to |entries|
      invariant ib.Abstract() == Added(AddCombined(entries[..i]))
      invariant namespaces == NamespacesOf(entries[..i])
    {
      ib.AddCombined([entries[i]]);
      namespaces := namespaces + [entries[i].namespace];
      ImageSnoc(Combined, entries, i);
      ImageSingle(Combined, entries[i]);
      assert entries[..i + 1][..i] == entries[..i];
    }
    assert entries[..|entries|] == entries;
  }

  function WholeNamespaces(globs: seq<string>): set<string> {
    set g | g in globs :: Combined(WholeNamespace(g))
  }

  lemma WholeNamespacesSnoc(globs: seq<string>, i: nat)
    requires i < |globs|
    ensures WholeNamespaces(globs[..i + 1]) == WholeNamespaces(globs[..i]) + {Combined(WholeNamespace(globs[i]))}
  {
    assert globs[..i + 1] == globs[..i] + [globs[i]];
    assert globs[i] in globs[..i + 1];
  }

  method AddWholeNamespaces(eb: ContainerPathGlobBuilder, globs: seq<string>)
    requires eb.Abstract() == EMPTY
    modifies eb
    ensures eb.Abstract() == State({}, {}, WholeNamespaces(globs), {})
  {
    for i := 0 to |globs|
      invariant eb.Abstract() == State({}, {}, WholeNamespaces(globs[..i]), {})
    {
      eb.AddCombined([WholeNamespace(globs[i])]);
      ImageSingle(Combined, WholeNamespace(globs[i]));
      WholeNamespacesSnoc(globs, i);
    }
    assert globs[..|globs|] == globs;
  }

  /** The application case of `NewSource`. */
  method ApplicationGlobs(app: Option<ApplicationSpec>) returns (includes: seq<string>, excludes: seq<string>)
    ensures includes == ApplicationIncludes(app)
    ensures excludes == ApplicationExcludes(app)
  {
    includes, excludes := BuildApplicationGlobs(app, INFRA_NAMESPACES, EXCLUDE_EXTENSIONS);
  }

  method BuildApplicationGlobs(app: Option<ApplicationSpec>, infra: seq<string>, extensions: seq<string>)
    returns (includes: seq<string>, excludes: seq<string>)
    ensures includes == Built(Denotation(IncludeState(app), {}))
    ensures excludes == Built(Denotation(ExcludeState(app, extensions), Image(NormalizeNamespace, infra)))
  {
    hide Built, Denotation, PrunedGlobs, Combined, Image;
    var ib := new ContainerPathGlobBuilder();
    var eb := new ContainerPathGlobBuilder();
    var appIncludes: seq<string> := [];
    if app.Some? {
      appIncludes := AddIncludes(ib, app.value.includes);
    }
    var excludesList := PruneInfraNS(appIncludes);
    AddWholeNamespaces(eb, excludesList);
    assert WholeNamespaces(excludesList) == set g | g in PrunedGlobs(appIncludes) :: Combined(WholeNamespace(g));
    if app.Some? {
      eb.AddCombined(app.value.excludes);
    }
    eb.AddExtensions(extensions);
    assert eb.Abstract() == ExcludeState(app, extensions);
    includes := ib.Build([]);
    ImageEmpty(NormalizeNamespace);
    excludes := eb.Build(infra);
  }

  lemma ImageEmpty(f: string -> string)
    ensures Image(f, []) == {}
  {
  }

  /** The container part of the infrastructure case of `NewSource`. */
  method InfrastructureGlobs() returns (includes: seq<string>, excludes: seq<string>)
    ensures includes == InfrastructureIncludes()
    ensures excludes == LoggingExcludes()
  {
    includes := BuildNamespaceIncludes(INFRA_NAMESPACES);
    excludes := BuildLoggingExcludes(LoggingPodPaths(), LoggingContainerPaths(), EXCLUDE_EXTENSIONS);
  }

  method BuildNamespaceIncludes(namespaces: seq<string>) returns (includes: seq<string>)
    ensures includes == Built(Denotation(Added(AddNamespaces(namespaces)), {}))
  {
    var ib := new ContainerPathGlobBuilder();
    ib.AddNamespaces(namespaces);
    assert ib.Abstract() == Added(AddNamespaces(namespaces));
    ImageEmpty(NormalizeNamespace);
    includes := ib.Build([]);
  }

  method BuildLoggingExcludes(pods: seq<string>, containers: seq<string>, extensions: seq<string>) returns (excludes: seq<string>)
    ensures excludes == Built(Denotation(LoggingState(pods, containers, extensions), {}))
  {
    var eb := new ContainerPathGlobBuilder();
    eb.AddOther(pods);
    eb.AddOther(containers);
    eb.AddExtensions(extensions);
    ImageEmpty(NormalizeNamespace);
    assert eb.Abstract() == LoggingState(pods, containers, extensions);
    excludes := eb.Build([]);
  }
}
