/** The application and infrastructure inputs split the container logs of a node between them. */
module SelectionProofs {
  import opened Wrappers
  import opened Ordering
  import opened Globs
  import opened ContainerPaths
  import opened Api
  import opened Selection
  import Migration

  predicate ValidEntries(entries: seq<NamespaceContainer>) {
    forall e :: e in entries ==> ValidGlob(e.namespace) && ValidGlob(e.container)
  }

  predicate ValidApplication(app: Option<ApplicationSpec>) {
    app.Some? ==> ValidEntries(app.value.includes) && ValidEntries(app.value.excludes)
  }

  /** One rotation `<n>.log` of a container's log. */
  datatype LogFile = LogFile(ns: string, pod: string, uid: string, container: string, n: string) {
    predicate Valid() {
      IsName(ns) && IsName(pod) && IsName(uid) && '/' !in container && '.' !in n && '/' !in n
    }
    function Dir(): string { PodDir(ns, pod, uid) }
    function Name(): string { n + ".log" }
    function Path(): string { ContainerPaths.Path(Dir(), container, Name()) }
  }

  // -------- file names

  lemma LiteralThenStar(p: string, s: string)
    requires '*' !in p
    ensures Matches(p + "*", s) <==> p <= s && '/' !in s[|p|..]
  {
    if p <= s {
      assert s == p + s[|p|..];
      LiteralPrefix(p, "*", s[|p|..]);
      StarMatches(s[|p|..]);
    }
    if Matches(p + "*", s) {
      var k := MatchesSplit(p, "*", s);
      LiteralMatches(p, s[..k]);
    }
  }

  lemma StarThenLiteral(p: string, s: string)
    requires '*' !in p
    ensures Matches("*" + p, s) <==> exists k :: 0 <= k <= |s| && '/' !in s[..k] && s[k..] == p
  {
    MatchesConcat("*", p, s);
    forall k | 0 <= k <= |s|
      ensures Matches("*", s[..k]) <==> '/' !in s[..k]
      ensures Matches(p, s[k..]) <==> p == s[k..]
    {
      StarMatches(s[..k]);
      LiteralMatches(p, s[k..]);
    }
  }

  lemma LogNameMatches(n: string)
    requires '.' !in n && '/' !in n
    ensures Matches("*.log", n + ".log")
  {
    StarThenLiteral(".log", n + ".log");
    assert '*' !in ".log";
    assert "*" + ".log" == "*.log";
    assert (n + ".log")[|n|..] == ".log" && (n + ".log")[..|n|] == n;
  }

  /** A suffix glob `*.<e>` with a dot-free `e` other than `log` misses every log name. */
  lemma OtherSuffixMisses(n: string, e: string)
    requires '.' !in n && '.' !in e && '*' !in e && e != "log"
    ensures !Matches("*." + e, n + ".log")
  {
    var s := n + ".log";
    OneDot(n);
    assert "*." + e == "*" + ("." + e);
    StarThenLiteral("." + e, s);
    assert s[|n|..] == ".log" == "." + "log";
    forall k | 0 <= k <= |s| ensures s[k..] != "." + e {
      if s[k..] == "." + e {
        DotTail(s, k, e);
      }
    }
  }

  lemma DotTail(s: string, k: nat, e: string)
    requires k <= |s| && s[k..] == "." + e
    ensures k < |s| && s[k] == '.' && s[k + 1..] == e
  {
    assert ("." + e)[1..] == e;
    assert s[k..][0] == '.';
  }

  lemma OneDot(n: string)
    requires '.' !in n
    ensures forall k :: 0 <= k < |n + ".log"| && (n + ".log")[k] == '.' ==> k == |n|
    ensures (n + ".log")[|n| + 1..] == "log"
  {
    var tail := ".log";
    forall k | 0 <= k < |n + tail| ensures (n + tail)[k] == if k < |n| then n[k] else tail[k - |n|] {
    }
  }

  /** `*.log.*` needs two dots. */
  lemma RotatedMisses(n: string)
    requires '.' !in n
    ensures !Matches("*.log.*", n + ".log")
  {
    var s := n + ".log";
    OneDot(n);
    assert "*.log.*" == "*" + (".log." + "*");
    MatchesConcat("*", ".log." + "*", s);
    forall k | 0 <= k <= |s| ensures !Matches(".log." + "*", s[k..]) {
      LiteralThenStar(".log.", s[k..]);
      if ".log." <= s[k..] {
        TwoDots(s, k);
      }
    }
  }

  lemma TwoDots(s: string, k: nat)
    requires k <= |s| && ".log." <= s[k..]
    ensures k + 4 < |s| && s[k] == '.' && s[k + 4] == '.'
  {
    assert s[k..][0] == s[k] && s[k..][4] == s[k + 4];
  }

  lemma ExtensionMisses(f: LogFile, e: string)
    requires f.Valid() && e in EXCLUDE_EXTENSIONS
    ensures !Matches(ExtensionPath(e), f.Path())
  {
    DirHasNoSlash(f);
    if e == "log.*" {
      RotatedMisses(f.n);
      assert CollapseWildcards(e) == e && "*." + e == "*.log.*";
    } else {
      OtherSuffixMisses(f.n, e);
      CollapseLiteral(e);
    }
    PathMatches("*", "*", "*." + e, f.Dir(), f.container, f.Name());
  }

  lemma DirHasNoSlash(f: LogFile)
    requires f.Valid()
    ensures '/' !in f.Dir()
  {
    PodDirUnderscores(f.ns, f.pod, f.uid, 0);
  }

  // -------- what a namespace group glob selects

  lemma GroupGlobMatches(g: InfraGroup, ns: string)
    requires '/' !in ns
    ensures Matches(GroupGlob(g), ns) <==> InGroup(ns, g)
  {
    match g
    case DefaultGroup => LiteralMatches("default", ns);
    case OpenshiftGroup =>
      LiteralThenStar("openshift", ns);
      assert "openshift" + "*" == "openshift*";
    case KubeGroup =>
      LiteralThenStar("kube", ns);
      assert "kube" + "*" == "kube*";
  }

  lemma GroupGlobSelects(g: InfraGroup, f: LogFile)
    requires f.Valid()
    ensures Matches(NormalizeNamespace(GroupGlob(g)), f.Dir()) <==> InGroup(f.ns, g)
  {
    var glob := GroupGlob(g);
    GroupGlobIsTrailing(g);
    NamespaceGlobExactIff(glob);
    GroupGlobMatches(g, f.ns);
  }

  lemma GroupGlobIsTrailing(g: InfraGroup)
    ensures TrailingWildcardsOnly(GroupGlob(g)) && '_' !in GroupGlob(g) && '/' !in GroupGlob(g) && GroupGlob(g) != ""
  {
    match g
    case DefaultGroup =>
      PrefixIsTrailing("default", GroupGlob(g));
    case OpenshiftGroup =>
      PrefixIsTrailing("openshift", GroupGlob(g));
    case KubeGroup =>
      PrefixIsTrailing("kube", GroupGlob(g));
  }

  lemma PrefixIsTrailing(p: string, g: string)
    requires g == p || g == p + "*"
    requires p != "" && '*' !in p && '_' !in p && '/' !in p
    ensures TrailingWildcardsOnly(g) && '_' !in g && '/' !in g && g != ""
  {
    LiteralIsTrailing(p);
  }

  lemma {:induction false} LiteralIsTrailing(p: string)
    requires '*' !in p
    ensures TrailingWildcardsOnly(p) && TrailingWildcardsOnly(p + "*")
  {
    if p != "" {
      LiteralIsTrailing(p[1..]);
      assert (p + "*")[1..] == p[1..] + "*";
      assert p[0] in p;
    }
  }

  // -------- the application input

  ghost predicate SomeEntrySelects(entries: seq<NamespaceContainer>, f: LogFile) {
    exists e :: e in entries && EntrySelects(e, f.Dir(), f.container)
  }

  lemma EntriesMatch(entries: seq<NamespaceContainer>, f: LogFile)
    requires f.Valid() && ValidEntries(entries)
    ensures MatchesAny(set nc | nc in Image(Combined, entries) :: CombinedPath(nc), f.Path()) <==> SomeEntrySelects(entries, f)
  {
    DirHasNoSlash(f);
    LogNameMatches(f.n);
    var globs := set nc | nc in Image(Combined, entries) :: CombinedPath(nc);
    forall e | e in entries
      ensures CombinedPath(Combined(e)) in globs
      ensures Matches(CombinedPath(Combined(e)), f.Path()) <==> EntrySelects(e, f.Dir(), f.container)
    {
      assert Combined(e) in Image(Combined, entries);
      CombinedMatches(e, f.Dir(), f.container, f.Name());
    }
  }

  lemma IncludesSelect(app: Option<ApplicationSpec>, f: LogFile)
    requires f.Valid() && ValidApplication(app)
    ensures Included(ApplicationIncludes(app), f.Path()) <==>
            app.None? || app.value.includes == [] || SomeEntrySelects(app.value.includes, f)
  {
    DirHasNoSlash(f);
    LogNameMatches(f.n);
    var globs := Denotation(IncludeState(app), {});
    if app.Some? && app.value.includes != [] {
      var e := app.value.includes[0];
      assert Combined(e) in Image(Combined, app.value.includes);
      assert CombinedPath(Combined(e)) in globs;
      IncludeMeaning(globs, f.Dir(), f.container, f.Name());
      EntriesMatch(app.value.includes, f);
      assert globs == set nc | nc in Image(Combined, app.value.includes) :: CombinedPath(nc);
    } else {
      assert globs == {};
      ListingEmpty(Listing(globs), globs);
    }
  }

  /** A default exclude stays unless the leftmost group of some included namespace removed it. */
  ghost predicate DefaultExcluded(app: Option<ApplicationSpec>, ns: string) {
    exists g :: g !in FoundGroups(IncludedNamespaces(app)) && InGroup(ns, g)
  }

  lemma WholeNamespaceSelects(g: InfraGroup, f: LogFile)
    requires f.Valid()
    ensures Matches(CombinedPath(Combined(WholeNamespace(GroupGlob(g)))), f.Path()) <==> InGroup(f.ns, g)
  {
    DirHasNoSlash(f);
    LogNameMatches(f.n);
    GroupGlobIsTrailing(g);
    CombinedMatches(WholeNamespace(GroupGlob(g)), f.Dir(), f.container, f.Name());
    StarMatches(f.container);
    GroupGlobSelects(g, f);
  }

  /** The extension globs keep the exclude list away from the "everything" collapse, whatever the user excludes. */
  lemma ExcludesNeverCollapse(app: Option<ApplicationSpec>, extensions: seq<string>, notCombined: set<string>)
    requires "gz" in extensions
    ensures Denotation(ExcludeState(app, extensions), notCombined) != {EVERYTHING}
  {
    var globs := Denotation(ExcludeState(app, extensions), notCombined);
    assert ExtensionPath("gz") in Image(ExtensionPath, extensions);
    assert ExtensionPath("gz") in globs;
    CollapseLiteral("gz");
    var p := ExtensionPath("gz");
    assert p[|p| - 1] == 'z' && EVERYTHING[|EVERYTHING| - 1] == 'g';
  }

  function CombinedPaths(ncs: set<string>): set<string> {
    set nc | nc in ncs :: CombinedPath(nc)
  }

  function DefaultEntries(app: Option<ApplicationSpec>): set<string> {
    set g | g in PrunedGlobs(IncludedNamespaces(app)) :: Combined(WholeNamespace(g))
  }

  lemma DefaultsMatch(app: Option<ApplicationSpec>, f: LogFile)
    requires f.Valid()
    ensures MatchesAny(CombinedPaths(DefaultEntries(app)), f.Path()) <==> DefaultExcluded(app, f.ns)
  {
    forall g | g !in FoundGroups(IncludedNamespaces(app))
      ensures CombinedPath(Combined(WholeNamespace(GroupGlob(g)))) in CombinedPaths(DefaultEntries(app))
      ensures Matches(CombinedPath(Combined(WholeNamespace(GroupGlob(g)))), f.Path()) <==> InGroup(f.ns, g)
    {
      PrunedMember(IncludedNamespaces(app), GroupGlob(g));
      assert Combined(WholeNamespace(GroupGlob(g))) in DefaultEntries(app);
      WholeNamespaceSelects(g, f);
    }
    forall x | x in PrunedGlobs(IncludedNamespaces(app))
      ensures exists g :: g !in FoundGroups(IncludedNamespaces(app)) && x == GroupGlob(g)
    {
      PrunedMember(IncludedNamespaces(app), x);
    }
  }

  lemma ExtensionsMiss(extensions: seq<string>, f: LogFile)
    requires f.Valid() && extensions == EXCLUDE_EXTENSIONS
    ensures !MatchesAny(Image(ExtensionPath, extensions), f.Path())
  {
    forall e | e in extensions ensures !Matches(ExtensionPath(e), f.Path()) {
      ExtensionMisses(f, e);
    }
  }

  lemma ExcludesDenote(app: Option<ApplicationSpec>, extensions: seq<string>, notCombined: set<string>, path: string)
    ensures MatchesAny(Denotation(ExcludeState(app, extensions), notCombined), path) <==>
            || MatchesAny(Image(ExtensionPath, extensions), path)
            || MatchesAny(CombinedPaths(DefaultEntries(app)), path)
            || (app.Some? && MatchesAny(CombinedPaths(Image(Combined, app.value.excludes)), path))
  {
    var state := ExcludeState(app, extensions);
    var user := if app.Some? then Image(Combined, app.value.excludes) else {};
    assert state.nsContainers == DefaultEntries(app) + user;
    assert state.paths == Image(ExtensionPath, extensions);
    assert (set nc | nc in state.nsContainers :: CombinedPath(nc)) == CombinedPaths(DefaultEntries(app)) + CombinedPaths(user);
    assert Denotation(state, notCombined) == state.paths + CombinedPaths(DefaultEntries(app)) + CombinedPaths(user);
  }

  lemma ExcludesSelect(app: Option<ApplicationSpec>, f: LogFile)
    requires f.Valid() && ValidApplication(app)
    ensures Excluded(ApplicationExcludes(app), f.Path()) <==>
            DefaultExcluded(app, f.ns) || (app.Some? && SomeEntrySelects(app.value.excludes, f))
  {
    ExcludesSelectWith(app, f, EXCLUDE_EXTENSIONS, Image(NormalizeNamespace, INFRA_NAMESPACES));
  }

  lemma ExcludesSelectWith(app: Option<ApplicationSpec>, f: LogFile, extensions: seq<string>, notCombined: set<string>)
    requires f.Valid() && ValidApplication(app) && extensions == EXCLUDE_EXTENSIONS
    ensures Excluded(Built(Denotation(ExcludeState(app, extensions), notCombined)), f.Path()) <==>
            DefaultExcluded(app, f.ns) || (app.Some? && SomeEntrySelects(app.value.excludes, f))
  {
    ExcludesNeverCollapse(app, extensions, notCombined);
    ExcludeKept(Denotation(ExcludeState(app, extensions), notCombined), f.Path());
    ExcludesDenote(app, extensions, notCombined, f.Path());
    ExtensionsMiss(extensions, f);
    DefaultsMatch(app, f);
    if app.Some? {
      EntriesMatch(app.value.excludes, f);
      assert CombinedPaths(Image(Combined, app.value.excludes))
          == set nc | nc in Image(Combined, app.value.excludes) :: CombinedPath(nc);
    }
  }

  /** The log files that an application section asks for. */
  ghost predicate ApplicationAsks(app: Option<ApplicationSpec>, f: LogFile) {
    && (app.None? || app.value.includes == [] || SomeEntrySelects(app.value.includes, f))
    && !DefaultExcluded(app, f.ns)
    && !(app.Some? && SomeEntrySelects(app.value.excludes, f))
  }

  /** Exactly which log files an application input collects, for every validated spec. */
  lemma ApplicationSelects(app: Option<ApplicationSpec>, f: LogFile)
    requires f.Valid() && ValidApplication(app)
    ensures Selected(ApplicationIncludes(app), ApplicationExcludes(app), f.Path()) <==> ApplicationAsks(app, f)
  {
    IncludesSelect(app, f);
    ExcludesSelect(app, f);
  }

  // -------- explicit includes

  /** The leftmost match in an infrastructure namespace is the one at its start. */
  lemma LeftmostOfInfra(ns: string, g: InfraGroup)
    requires InGroup(ns, g) && '\n' !in ns
    ensures LeftmostGroup(ns) == Some(g)
  {
    assert ns[0..] == ns;
    match g
    case DefaultGroup =>
    case OpenshiftGroup => assert ns[0] == 'o' && !("default" <= ns);
    case KubeGroup => assert ns[0] == 'k' && !("default" <= ns) && !("openshift" <= ns);
  }

  lemma {:induction false} NamespaceListed(entries: seq<NamespaceContainer>, e: NamespaceContainer)
    requires e in entries
    ensures e.namespace in NamespacesOf(entries)
  {
    var init, last := entries[..|entries| - 1], entries[|entries| - 1];
    assert entries == init + [last];
    if e != last {
      NamespaceListed(init, e);
    }
  }

  /** A namespace included by its own name is collected in full, but for what the user excludes. */
  lemma ExplicitIncludeNeverLost(app: ApplicationSpec, e: NamespaceContainer, f: LogFile)
    requires f.Valid() && ValidApplication(Some(app))
    requires e in app.includes && '*' !in e.namespace && e.namespace == f.ns && Matches(OrStar(e.container), f.container)
    ensures Selected(ApplicationIncludes(Some(app)), ApplicationExcludes(Some(app)), f.Path()) <==>
            !SomeEntrySelects(app.excludes, f)
  {
    ApplicationSelects(Some(app), f);
    NamespaceGlobIff(e.namespace, f.ns, f.pod, f.uid);
    LiteralMatches(e.namespace, f.ns);
    assert EntrySelects(e, f.Dir(), f.container);
    NamespaceListed(app.includes, e);
    forall g | InGroup(f.ns, g) ensures g in FoundGroups(IncludedNamespaces(Some(app))) {
      LeftmostOfInfra(f.ns, g);
      AllGroups(g);
    }
  }

  // -------- the infrastructure input

  /** Container logs of the logging stack itself. */
  predicate IsLoggingFile(f: LogFile) {
    f.ns == OPENSHIFT_NS && (IsLoggingPod(f.pod) || IsLoggingContainer(f.container))
  }

  predicate IsLoggingPod(pod: string) {
    "logfilesmetricexporter-" <= pod || "elasticsearch-" <= pod || "kibana-" <= pod
  }

  predicate IsLoggingContainer(container: string) {
    "loki" <= container || container == "gateway" || container == "opa"
  }

  lemma OtherPathMatches(other: string, f: LogFile)
    ensures Matches(OtherPath(other), f.Path()) <==> Matches(other, f.Dir() + "/" + (f.container + "/" + f.Name()))
  {
    var rest := f.Dir() + "/" + (f.container + "/" + f.Name());
    assert f.Path() == ROOT + rest;
    LiteralPrefix(ROOT, CollapseWildcards(other), rest);
    CollapsePreservesLanguage(other, rest);
  }

  /** Three components, the first a literal followed by a wildcard, against a log file. */
  lemma StarredPathMatches(lit: string, c: string, f: LogFile)
    requires f.Valid() && '*' !in lit && '/' !in lit && '/' !in c
    ensures Matches(lit + "*" + "/" + (c + "/" + "*.log"), f.Dir() + "/" + (f.container + "/" + f.Name())) <==>
            lit <= f.Dir() && Matches(c, f.container)
  {
    DirHasNoSlash(f);
    MatchesComponent(lit + "*", c + "/" + "*.log", f.Dir(), f.container + "/" + f.Name());
    MatchesComponent(c, "*.log", f.container, f.Name());
    LogNameMatches(f.n);
    LiteralThenStar(lit, f.Dir());
    assert |lit| <= |f.Dir()| ==> '/' !in f.Dir()[|lit|..];
  }

  lemma NsPodPathText(ns: string, p: string)
    ensures NsPodPath(ns, p) == ns + "_" + (p + "-") + "*" + "/" + ("*" + "/" + "*.log")
  {
    assert "-*/*/*.log" == "-" + "*" + "/" + ("*" + "/" + "*.log");
  }

  lemma NsPodPathMatches(ns: string, p: string, f: LogFile)
    requires f.Valid() && '*' !in ns && '_' !in ns && '/' !in ns && '*' !in p && '_' !in p && '/' !in p
    ensures Matches(OtherPath(NsPodPath(ns, p)), f.Path()) <==> f.ns == ns && p + "-" <= f.pod
  {
    var lit := ns + "_" + (p + "-");
    assert '*' !in lit && '/' !in lit && '_' !in p + "-";
    OtherPathMatches(NsPodPath(ns, p), f);
    NsPodPathText(ns, p);
    hide NsPodPath, Matches, OtherPath, LogFile.Path;
    StarredPathMatches(lit, "*", f);
    StarMatches(f.container);
    PodPrefix(ns, p + "-", f.ns, f.pod, f.uid);
  }

  lemma NsContainerPathText(ns: string, c: string)
    ensures NsContainerPath(ns, c) == ns + "_" + "*" + "/" + (c + "/" + "*.log")
  {
    assert "_*/" == "_" + "*" + "/" && "/*.log" == "/" + "*.log";
  }

  lemma NsContainerPathMatches(ns: string, c: string, f: LogFile)
    requires f.Valid() && '*' !in ns && '_' !in ns && '/' !in ns && '/' !in c
    ensures Matches(OtherPath(NsContainerPath(ns, c)), f.Path()) <==> f.ns == ns && Matches(c, f.container)
  {
    var lit := ns + "_";
    assert '*' !in lit && '/' !in lit && ns + "_" + "" == lit;
    OtherPathMatches(NsContainerPath(ns, c), f);
    NsContainerPathText(ns, c);
    hide NsContainerPath, Matches, OtherPath, LogFile.Path;
    StarredPathMatches(lit, c, f);
    PodPrefix(ns, "", f.ns, f.pod, f.uid);
  }

  lemma PodPrefix(ns: string, p: string, ns': string, pod: string, uid: string)
    requires '_' !in ns && '_' !in p && IsName(ns') && IsName(pod) && IsName(uid)
    ensures ns + "_" + p <= PodDir(ns', pod, uid) <==> ns' == ns && p <= pod
  {
    var d := PodDir(ns', pod, uid);
    var lit := ns + "_" + p;
    if lit <= d {
      assert forall k :: 0 <= k < |lit| ==> (lit[k] == '_' <==> k == |ns|);
      assert forall k :: 0 <= k < |lit| ==> lit[k] == d[k];
      PodDirUnderscores(ns', pod, uid, |ns|);
      PodDirUnderscores(ns', pod, uid, |ns'|);
      PodDirUnderscores(ns', pod, uid, |ns'| + 1 + |pod|);
      assert |ns'| == |ns| && ns' == d[..|ns|] == lit[..|ns|] == ns;
      assert p == lit[|ns| + 1..] == d[|ns| + 1..|lit|] == pod[..|p|];
    }
    if ns' == ns && p <= pod {
      assert pod == p + pod[|p|..];
      assert d == lit + (pod[|p|..] + "_" + uid);
    }
  }

  lemma LoggingPodsMatch(ns: string, f: LogFile)
    requires f.Valid() && ns == OPENSHIFT_NS
    ensures MatchesAny(Image(OtherPath, LoggingPodPaths()), f.Path()) <==> f.ns == ns && IsLoggingPod(f.pod)
  {
    var a, b, c := "logfilesmetricexporter", "elasticsearch", "kibana";
    NsPodPathMatches(ns, a, f);
    NsPodPathMatches(ns, b, f);
    NsPodPathMatches(ns, c, f);
    assert a + "-" == "logfilesmetricexporter-" && b + "-" == "elasticsearch-" && c + "-" == "kibana-";
    ThreeImages(NsPodPath(ns, a), NsPodPath(ns, b), NsPodPath(ns, c), LoggingPodPaths(), f.Path());
  }

  lemma LoggingContainersMatch(ns: string, f: LogFile)
    requires f.Valid() && ns == OPENSHIFT_NS
    ensures MatchesAny(Image(OtherPath, LoggingContainerPaths()), f.Path()) <==> f.ns == ns && IsLoggingContainer(f.container)
  {
    var a, b, c := "loki*", "gateway", "opa";
    NsContainerPathMatches(ns, a, f);
    NsContainerPathMatches(ns, b, f);
    NsContainerPathMatches(ns, c, f);
    LiteralThenStar("loki", f.container);
    assert a == "loki" + "*";
    LiteralMatches(b, f.container);
    LiteralMatches(c, f.container);
    ThreeImages(NsContainerPath(ns, a), NsContainerPath(ns, b), NsContainerPath(ns, c), LoggingContainerPaths(), f.Path());
  }

  lemma ThreeImages(a: string, b: string, c: string, l: seq<string>, path: string)
    requires l == [a, b, c]
    ensures MatchesAny(Image(OtherPath, l), path) <==>
            Matches(OtherPath(a), path) || Matches(OtherPath(b), path) || Matches(OtherPath(c), path)
  {
    assert a in l && b in l && c in l;
  }

  lemma LoggingExcluded(f: LogFile)
    requires f.Valid()
    ensures Excluded(LoggingExcludes(), f.Path()) <==> IsLoggingFile(f)
  {
    LoggingExcludedWith(f, LoggingPodPaths(), LoggingContainerPaths(), EXCLUDE_EXTENSIONS);
  }

  lemma LoggingExcludedWith(f: LogFile, pods: seq<string>, containers: seq<string>, extensions: seq<string>)
    requires f.Valid()
    requires pods == LoggingPodPaths() && containers == LoggingContainerPaths() && extensions == EXCLUDE_EXTENSIONS
    ensures Excluded(Built(Denotation(LoggingState(pods, containers, extensions), {})), f.Path()) <==> IsLoggingFile(f)
  {
    var globs := Denotation(LoggingState(pods, containers, extensions), {});
    assert globs == Image(OtherPath, pods) + Image(OtherPath, containers) + Image(ExtensionPath, extensions);
    ExtensionNotEverything(extensions);
    ExcludeKept(globs, f.Path());
    ExtensionsMiss(extensions, f);
    LoggingPodsMatch(OPENSHIFT_NS, f);
    LoggingContainersMatch(OPENSHIFT_NS, f);
  }

  lemma ExtensionNotEverything(extensions: seq<string>)
    requires "gz" in extensions
    ensures ExtensionPath("gz") in Image(ExtensionPath, extensions) && ExtensionPath("gz") != EVERYTHING
  {
    CollapseLiteral("gz");
    var p := ExtensionPath("gz");
    assert p[|p| - 1] == 'z' && EVERYTHING[|EVERYTHING| - 1] == 'g';
  }

  lemma InfrastructureIncluded(f: LogFile, namespaces: seq<string>)
    requires f.Valid() && namespaces == INFRA_NAMESPACES
    ensures Included(Built(Denotation(Added(AddNamespaces(namespaces)), {})), f.Path()) <==> IsInfra(f.ns)
  {
    var kept := Image(NormalizeNamespace, NonEmpty(namespaces));
    var globs := Denotation(Added(AddNamespaces(namespaces)), {});
    assert globs == set n | n in kept :: NamespaceContainerPath(n, "*");
    NonEmptyKeeps(namespaces);
    DirHasNoSlash(f);
    LogNameMatches(f.n);
    StarMatches(f.container);
    forall g: InfraGroup
      ensures NamespaceContainerPath(NormalizeNamespace(GroupGlob(g)), "*") in globs
      ensures Matches(NamespaceContainerPath(NormalizeNamespace(GroupGlob(g)), "*"), f.Path()) <==> InGroup(f.ns, g)
    {
      GroupGlobIsTrailing(g);
      GroupGlobListed(g);
      assert NormalizeNamespace(GroupGlob(g)) in kept;
      NormalizedNoSlash(GroupGlob(g));
      NamespaceContainerMatches(NormalizeNamespace(GroupGlob(g)), "*", f.Dir(), f.container, f.Name());
      GroupGlobSelects(g, f);
    }
    forall x | x in globs ensures exists g :: x == NamespaceContainerPath(NormalizeNamespace(GroupGlob(g)), "*") {
      var n :| n in kept && x == NamespaceContainerPath(n, "*");
      var m :| m in namespaces && n == NormalizeNamespace(m);
      GlobOfSomeGroup(m);
    }
    assert NamespaceContainerPath(NormalizeNamespace(GroupGlob(DefaultGroup)), "*") in globs;
    IncludeMeaning(globs, f.Dir(), f.container, f.Name());
  }

  lemma GroupGlobListed(g: InfraGroup)
    ensures GroupGlob(g) in INFRA_NAMESPACES
  {
    match g
    case DefaultGroup => assert INFRA_NAMESPACES[0] in INFRA_NAMESPACES;
    case OpenshiftGroup => assert INFRA_NAMESPACES[1] in INFRA_NAMESPACES;
    case KubeGroup => assert INFRA_NAMESPACES[2] in INFRA_NAMESPACES;
  }

  lemma GlobOfSomeGroup(m: string)
    requires m in INFRA_NAMESPACES
    ensures exists g :: m == GroupGlob(g)
  {
    assert m == GroupGlob(DefaultGroup) || m == GroupGlob(OpenshiftGroup) || m == GroupGlob(KubeGroup);
  }

  lemma {:induction false} NonEmptyKeeps(names: seq<string>)
    ensures forall n :: n in NonEmpty(names) <==> n in names && n != ""
  {
    if names != [] {
      NonEmptyKeeps(names[..|names| - 1]);
      assert names == names[..|names| - 1] + [names[|names| - 1]];
    }
  }

  /** Exactly which log files the container source of an infrastructure input collects. */
  lemma InfrastructureSelects(f: LogFile)
    requires f.Valid()
    ensures Selected(InfrastructureIncludes(), LoggingExcludes(), f.Path()) <==> IsInfra(f.ns) && !IsLoggingFile(f)
  {
    InfrastructureIncluded(f, INFRA_NAMESPACES);
    LoggingExcluded(f);
  }

  // -------- rotated files

  /** The file is compressed, temporary, or a numbered log rotated once more. */
  predicate IsRotated(file: string, stem: string, tail: string) {
    '/' !in stem && '/' !in tail && (file == stem + ".gz" || file == stem + ".tmp" || file == stem + ".log." + tail)
  }

  lemma StemMatches(stem: string, e: string)
    requires '/' !in stem && '*' !in e
    ensures Matches("*" + ("." + e), stem + ("." + e))
  {
    StarMatches(stem);
    LiteralMatches("." + e, "." + e);
    MatchesAppend("*", stem, "." + e, "." + e);
  }

  lemma LogMatches(stem: string, middle: string, tail: string)
    requires '/' !in stem && '/' !in tail && '*' !in middle
    ensures Matches("*" + (middle + "*"), stem + (middle + tail))
  {
    StarMatches(stem);
    StarMatches(tail);
    LiteralMatches(middle, middle);
    MatchesAppend(middle, middle, "*", tail);
    MatchesAppend("*", stem, middle + "*", middle + tail);
  }

  lemma SuffixedMatches(e: string, stem: string, dir: string, container: string)
    requires '/' !in stem && '*' !in e && '/' !in dir && '/' !in container
    ensures Matches(ExtensionPath(e), Path(dir, container, stem + ("." + e)))
  {
    CollapseLiteral(e);
    StemMatches(stem, e);
    assert "*" + ("." + e) == "*." + e;
    hide Matches, ExtensionPath, CollapseWildcards;
    ExtensionMatches(e, dir, container, stem + ("." + e));
  }

  lemma RelogMatches(e: string, stem: string, tail: string, dir: string, container: string)
    requires e == "log.*" && '/' !in stem && '/' !in tail && '/' !in dir && '/' !in container
    ensures Matches(ExtensionPath(e), Path(dir, container, stem + (".log." + tail)))
  {
    assert CollapseWildcards(e) == e;
    assert "*" + (".log." + "*") == "*." + e;
    hide Matches, ExtensionPath, CollapseWildcards;
    LogMatches(stem, ".log.", tail);
    ExtensionMatches(e, dir, container, stem + (".log." + tail));
  }

  lemma RotatedMatches(file: string, stem: string, tail: string, dir: string, container: string) returns (e: string)
    requires IsRotated(file, stem, tail) && '/' !in dir && '/' !in container
    ensures e in EXCLUDE_EXTENSIONS && Matches(ExtensionPath(e), Path(dir, container, file))
  {
    hide Matches, ExtensionPath, Path;
    if file == stem + ".gz" {
      e := EXCLUDE_EXTENSIONS[0];
      SuffixedMatches(e, stem, dir, container);
      assert "." + e == ".gz";
    } else if file == stem + ".tmp" {
      e := EXCLUDE_EXTENSIONS[1];
      SuffixedMatches(e, stem, dir, container);
      assert "." + e == ".tmp";
    } else {
      e := EXCLUDE_EXTENSIONS[2];
      RelogMatches(e, stem, tail, dir, container);
      assert stem + (".log." + tail) == file;
    }
  }

  lemma ExtensionMatches(e: string, dir: string, container: string, file: string)
    requires '/' !in dir && '/' !in container && CollapseWildcards(e) == e && Matches("*." + e, file)
    ensures Matches(ExtensionPath(e), Path(dir, container, file))
  {
    StarMatches(dir);
    StarMatches(container);
    PathMatches("*", "*", "*." + e, dir, container, file);
  }

  /** No input collects a rotated file, whatever it includes. */
  lemma RotatedNeverCollected(app: Option<ApplicationSpec>, dir: string, container: string, file: string, stem: string, tail: string)
    requires IsRotated(file, stem, tail) && '/' !in dir && '/' !in container
    ensures Excluded(ApplicationExcludes(app), Path(dir, container, file)) && Excluded(LoggingExcludes(), Path(dir, container, file))
  {
    var e := RotatedMatches(file, stem, tail, dir, container);
    RotatedExcluded(app, Path(dir, container, file), e, EXCLUDE_EXTENSIONS, Image(NormalizeNamespace, INFRA_NAMESPACES), LoggingPodPaths(), LoggingContainerPaths());
  }

  lemma RotatedExcluded(app: Option<ApplicationSpec>, path: string, e: string, extensions: seq<string>, notCombined: set<string>,
                        pods: seq<string>, containers: seq<string>)
    requires e in extensions && "gz" in extensions && Matches(ExtensionPath(e), path)
    ensures Excluded(Built(Denotation(ExcludeState(app, extensions), notCombined)), path)
    ensures Excluded(Built(Denotation(LoggingState(pods, containers, extensions), {})), path)
  {
    assert MatchesAny(Image(ExtensionPath, extensions), path) by { ImageMatches(e, extensions, path); }
    hide Matches, ExtensionPath, Excluded, Built, Denotation, ExcludeState, MatchesAny, Image, LoggingState;
    ExcludesNeverCollapse(app, extensions, notCombined);
    ExcludeKept(Denotation(ExcludeState(app, extensions), notCombined), path);
    ExcludesDenote(app, extensions, notCombined, path);
    LoggingDenotes(pods, containers, extensions, path);
    ExcludeKept(Denotation(LoggingState(pods, containers, extensions), {}), path);
  }

  lemma ImageMatches(e: string, extensions: seq<string>, path: string)
    requires e in extensions && Matches(ExtensionPath(e), path)
    ensures MatchesAny(Image(ExtensionPath, extensions), path)
  {
    hide Matches;
    assert ExtensionPath(e) in Image(ExtensionPath, extensions);
  }

  lemma LoggingDenotes(pods: seq<string>, containers: seq<string>, extensions: seq<string>, path: string)
    requires "gz" in extensions
    ensures Denotation(LoggingState(pods, containers, extensions), {}) != {EVERYTHING}
    ensures MatchesAny(Image(ExtensionPath, extensions), path) ==> MatchesAny(Denotation(LoggingState(pods, containers, extensions), {}), path)
  {
    var globs := Denotation(LoggingState(pods, containers, extensions), {});
    assert globs == Image(OtherPath, pods) + Image(OtherPath, containers) + Image(ExtensionPath, extensions);
    ExtensionNotEverything(extensions);
    hide Matches;
  }

  /** The reserved application input, as `MigrateInputs` writes it. */
  const DEFAULT_APPLICATION := Migration.ReservedInput(APPLICATION).application

  /**
   Every container log belongs to exactly one of the reserved application and infrastructure inputs,
   except the logging stack's own, which neither collects.
   */
  lemma Partition(f: LogFile)
    requires f.Valid()
    ensures var app := Selected(ApplicationIncludes(DEFAULT_APPLICATION), ApplicationExcludes(DEFAULT_APPLICATION), f.Path());
            var infra := Selected(InfrastructureIncludes(), LoggingExcludes(), f.Path());
            if IsLoggingFile(f) then !app && !infra else app != infra
  {
    ApplicationSelects(DEFAULT_APPLICATION, f);
    InfrastructureSelects(f);
    assert FoundGroups(IncludedNamespaces(DEFAULT_APPLICATION)) == {};
    assert IsLoggingFile(f) ==> InGroup(f.ns, OpenshiftGroup);
  }
}
