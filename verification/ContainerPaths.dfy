/** The builder of include and exclude globs over `/var/log/pods/<ns>_<pod>_<uid>/<container>/<file>`. */
module ContainerPaths {
  import opened Globs
  import opened Ordering
  import opened Api

  const ROOT := "/var/log/pods/"
  const EVERYTHING := "/var/log/pods/*/*/*.log"

  function OrStar(s: string): string {
    if s == "" then "*" else s
  }

  function Combined(n: NamespaceContainer): string {
    NormalizeNamespace(OrStar(n.namespace)) + "/" + CollapseWildcards(OrStar(n.container))
  }

  function OtherPath(other: string): string {
    ROOT + CollapseWildcards(other)
  }

  function ExtensionPath(extension: string): string {
    ROOT + "*" + "/" + "*" + "/" + ("*." + CollapseWildcards(extension))
  }

  function CombinedPath(combined: string): string {
    ROOT + combined + "/*.log"
  }

  function NamespaceContainerPath(namespace: string, container: string): string {
    ROOT + namespace + "/" + container + "/*.log"
  }

  function Image<T(==)>(f: T -> string, s: seq<T>): set<string> {
    set x | x in s :: f(x)
  }

  lemma ImageSnoc<T>(f: T -> string, s: seq<T>, i: nat)
    requires i < |s|
    ensures Image(f, s[..i + 1]) == Image(f, s[..i]) + {f(s[i])}
  {
    assert s[..i + 1] == s[..i] + [s[i]];
    assert s[i] in s[..i + 1];
    forall x | x in s[..i] ensures f(x) in Image(f, s[..i + 1]) {
      assert x in s[..i + 1];
    }
  }

  lemma ImageSingle<T>(f: T -> string, x: T)
    ensures Image(f, [x]) == {f(x)}
  {
    assert x in [x];
  }

  function Elements(s: seq<string>): set<string> {
    set x | x in s
  }

  lemma ElementsSnoc(s: seq<string>, x: string)
    ensures Elements(s + [x]) == Elements(s) + {x}
  {
  }

  function NonEmpty(names: seq<string>): seq<string> {
    if names == [] then []
    else NonEmpty(names[..|names| - 1]) + if names[|names| - 1] != "" then [names[|names| - 1]] else []
  }

  lemma NonEmptyImageSnoc(f: string -> string, s: seq<string>, i: nat)
    requires i < |s|
    ensures Image(f, NonEmpty(s[..i + 1])) == Image(f, NonEmpty(s[..i])) + if s[i] != "" then {f(s[i])} else {}
  {
    assert s[..i + 1][..i] == s[..i];
    var l := NonEmpty(s[..i + 1]);
    if s[i] != "" {
      ImageSnoc(f, l, |l| - 1);
      assert l[..|l| - 1] == NonEmpty(s[..i]) && l[..|l|] == l;
    }
  }

  // -------- the builder's state and what each call adds to it

  datatype State = State(containers: set<string>, namespaces: set<string>, nsContainers: set<string>, paths: set<string>) {
    function Plus(other: State): State {
      State(containers + other.containers, namespaces + other.namespaces,
            nsContainers + other.nsContainers, paths + other.paths)
    }
  }

  const EMPTY := State({}, {}, {}, {})

  datatype Call =
    | AddCombined(ncs: seq<NamespaceContainer>)
    | AddOther(others: seq<string>)
    | AddNamespaces(names: seq<string>)
    | AddContainers(names: seq<string>)
    | AddExtensions(extensions: seq<string>)

  function Added(call: Call): State {
    match call
    case AddCombined(ncs) => State({}, {}, Image(Combined, ncs), {})
    case AddOther(others) => State({}, {}, {}, Image(OtherPath, others))
    case AddNamespaces(names) => State({}, Image(NormalizeNamespace, NonEmpty(names)), {}, {})
    case AddContainers(names) => State(Image(CollapseWildcards, NonEmpty(names)), {}, {}, {})
    case AddExtensions(extensions) => State({}, {}, {}, Image(ExtensionPath, extensions))
  }

  function Run(calls: seq<Call>): State {
    if calls == [] then EMPTY else Run(calls[..|calls| - 1]).Plus(Added(calls[|calls| - 1]))
  }

  /** The combinations emitted for separately added namespaces and containers. */
  function Product(containers: set<string>, namespaces: set<string>, notCombined: set<string>): set<string> {
    if containers == {} then set n | n in namespaces :: NamespaceContainerPath(n, "*")
    else if namespaces == {} then set c | c in containers :: NamespaceContainerPath("*", c)
    else Pairs(containers, namespaces, notCombined)
  }

  function Pairs(containers: set<string>, namespaces: set<string>, notCombined: set<string>): set<string> {
    set c, n | c in containers && n in namespaces :: Pair(c, n, notCombined)
  }

  function Pair(container: string, namespace: string, notCombined: set<string>): string {
    NamespaceContainerPath(namespace, if namespace in notCombined then "*" else container)
  }

  lemma PairsAdd(containers: set<string>, c: string, namespaces: set<string>, notCombined: set<string>)
    ensures Pairs(containers + {c}, namespaces, notCombined)
         == Pairs(containers, namespaces, notCombined) + set n | n in namespaces :: Pair(c, n, notCombined)
  {
    forall n | n in namespaces
      ensures Pair(c, n, notCombined) in Pairs(containers + {c}, namespaces, notCombined)
    {
      assert c in containers + {c};
    }
    forall x, n | x in containers && n in namespaces
      ensures Pair(x, n, notCombined) in Pairs(containers + {c}, namespaces, notCombined)
    {
      assert x in containers + {c};
    }
  }

  function Denotation(b: State, notCombined: set<string>): set<string> {
    b.paths + (set nc | nc in b.nsContainers :: CombinedPath(nc)) + Product(b.containers, b.namespaces, notCombined)
  }

  /** Sorted and duplicate-free, except that "everything" becomes the empty list. */
  ghost function Built(globs: set<string>): seq<string> {
    if globs == {EVERYTHING} then [] else Listing(globs)
  }

  class ContainerPathGlobBuilder {
    var containers: set<string>
    var namespaces: set<string>
    var nsContainers: set<string>
    var paths: seq<string>

    ghost function Abstract(): State
      reads this
    {
      State(containers, namespaces, nsContainers, Elements(paths))
    }

    constructor ()
      ensures Abstract() == EMPTY
    {
      containers, namespaces, nsContainers, paths := {}, {}, {}, [];
    }

    method AddCombined(ncs: seq<NamespaceContainer>)
      modifies this
      ensures Abstract() == old(Abstract()).Plus(Added(Call.AddCombined(ncs)))
    {
      for i := 0 to |ncs|
        invariant unchanged(`containers) && unchanged(`namespaces) && unchanged(`paths)
        invariant nsContainers == old(nsContainers) + Image(Combined, ncs[..i])
      {
        nsContainers := nsContainers + {Combined(ncs[i])};
        ImageSnoc(Combined, ncs, i);
      }
      assert ncs[..|ncs|] == ncs;
    }

    method AddOther(others: seq<string>)
      modifies this
      ensures Abstract() == old(Abstract()).Plus(Added(Call.AddOther(others)))
    {
      for i := 0 to |others|
        invariant unchanged(`containers) && unchanged(`namespaces) && unchanged(`nsContainers)
        invariant Elements(paths) == Elements(old(paths)) + Image(OtherPath, others[..i])
      {
        ElementsSnoc(paths, OtherPath(others[i]));
        paths := paths + [OtherPath(others[i])];
        ImageSnoc(OtherPath, others, i);
      }
      assert others[..|others|] == others;
    }

    method AddNamespaces(names: seq<string>)
      modifies this
      ensures Abstract() == old(Abstract()).Plus(Added(Call.AddNamespaces(names)))
    {
      for i := 0 to |names|
        invariant unchanged(`containers) && unchanged(`nsContainers) && unchanged(`paths)
        invariant namespaces == old(namespaces) + Image(NormalizeNamespace, NonEmpty(names[..i]))
      {
        if names[i] != "" {
          namespaces := namespaces + {NormalizeNamespace(names[i])};
        }
        NonEmptyImageSnoc(NormalizeNamespace, names, i);
      }
      assert names[..|names|] == names;
    }

    method AddContainers(names: seq<string>)
      modifies this
      ensures Abstract() == old(Abstract()).Plus(Added(Call.AddContainers(names)))
    {
      for i := 0 to |names|
        invariant unchanged(`namespaces) && unchanged(`nsContainers) && unchanged(`paths)
        invariant containers == old(containers) + Image(CollapseWildcards, NonEmpty(names[..i]))
      {
        if names[i] != "" {
          containers := containers + {CollapseWildcards(names[i])};
        }
        NonEmptyImageSnoc(CollapseWildcards, names, i);
      }
      assert names[..|names|] == names;
    }

    method AddExtensions(extensions: seq<string>)
      modifies this
      ensures Abstract() == old(Abstract()).Plus(Added(Call.AddExtensions(extensions)))
    {
      for i := 0 to |extensions|
        invariant unchanged(`containers) && unchanged(`namespaces) && unchanged(`nsContainers)
        invariant Elements(paths) == Elements(old(paths)) + Image(ExtensionPath, extensions[..i])
      {
        ElementsSnoc(paths, ExtensionPath(extensions[i]));
        paths := paths + [ExtensionPath(extensions[i])];
        ImageSnoc(ExtensionPath, extensions, i);
      }
      assert extensions[..|extensions|] == extensions;
    }

    method Build(excludeNsFromContainers: seq<string>) returns (result: seq<string>)
      ensures result == Built(Denotation(Abstract(), Image(NormalizeNamespace, excludeNsFromContainers)))
    {
      var notCombined := Image(NormalizeNamespace, excludeNsFromContainers);
      var uniq := Elements(paths);
      uniq := uniq + set nc | nc in nsContainers :: CombinedPath(nc);
      if containers == {} && namespaces != {} {
        uniq := uniq + set n | n in namespaces :: NamespaceContainerPath(n, "*");
      } else if namespaces == {} && containers != {} {
        uniq := uniq + set c | c in containers :: NamespaceContainerPath("*", c);
      } else if namespaces != {} && containers != {} {
        var base := uniq;
        var todo := containers;
        while todo != {}
          invariant todo <= containers
          invariant uniq == base + Pairs(containers - todo, namespaces, notCombined)
          decreases todo
        {
          var c :| c in todo;
          uniq := uniq + set n | n in namespaces :: Pair(c, n, notCombined);
          PairsAdd(containers - todo, c, namespaces, notCombined);
          assert containers - (todo - {c}) == containers - todo + {c};
          todo := todo - {c};
        }
        assert containers - todo == containers;
      }
      assert uniq == Denotation(Abstract(), notCombined);
      var sorted := ListSet(uniq);
      if |sorted| == 0 || (|sorted| == 1 && sorted[0] == EVERYTHING) {
        result := [];
        BuiltIsEmpty(uniq, sorted);
      } else {
        result := sorted;
        BuiltIsEmpty(uniq, sorted);
      }
    }
  }

  lemma BuiltIsEmpty(globs: set<string>, l: seq<string>)
    requires IsListing(l, globs)
    ensures globs == {EVERYTHING} <==> |l| == 1 && l[0] == EVERYTHING
  {
    if globs == {EVERYTHING} {
      assert IsListing([EVERYTHING], globs);
      ListingUnique(l, [EVERYTHING], globs);
    }
    if |l| == 1 && l[0] == EVERYTHING {
      assert forall x :: x in globs <==> x == l[0];
    }
  }

  // -------- call order

  datatype Part = Containers | Namespaces | NsContainers | Paths

  function PartOf(b: State, part: Part): set<string> {
    match part
    case Containers => b.containers
    case Namespaces => b.namespaces
    case NsContainers => b.nsContainers
    case Paths => b.paths
  }

  lemma PlusMember(a: State, b: State, part: Part, x: string)
    ensures x in PartOf(a.Plus(b), part) <==> x in PartOf(a, part) || x in PartOf(b, part)
    ensures x !in PartOf(EMPTY, part)
  {
  }

  lemma {:induction false} RunMember(calls: seq<Call>, part: Part, x: string)
    ensures x in PartOf(Run(calls), part) <==> exists call :: call in calls && x in PartOf(Added(call), part)
  {
    hide Added, PartOf, State.Plus;
    if calls == [] {
      PlusMember(EMPTY, EMPTY, part, x);
    } else {
      var init, last := calls[..|calls| - 1], calls[|calls| - 1];
      RunMember(init, part, x);
      PlusMember(Run(init), Added(last), part, x);
      assert calls == init + [last];
    }
  }

  /** `Build` does not depend on the order or the repetition of the `Add` calls before it. */
  lemma BuildIndependentOfCallOrder(calls: seq<Call>, calls': seq<Call>, notCombined: set<string>)
    requires forall c :: c in calls <==> c in calls'
    ensures Built(Denotation(Run(calls), notCombined)) == Built(Denotation(Run(calls'), notCombined))
  {
    forall part: Part ensures PartOf(Run(calls), part) == PartOf(Run(calls'), part) {
      forall x ensures x in PartOf(Run(calls), part) <==> x in PartOf(Run(calls'), part) {
        RunMember(calls, part, x);
        RunMember(calls', part, x);
      }
    }
    assert PartOf(Run(calls), Containers) == Run(calls).containers;
    assert PartOf(Run(calls), Namespaces) == Run(calls).namespaces;
    assert PartOf(Run(calls), NsContainers) == Run(calls).nsContainers;
    assert PartOf(Run(calls), Paths) == Run(calls).paths;
  }

  // -------- the language of a built list

  ghost predicate MatchesAny(globs: set<string>, path: string) {
    exists g :: g in globs && Matches(g, path)
  }

  /** Include semantics of a source: an empty include list collects everything. */
  ghost predicate Included(globs: seq<string>, path: string) {
    globs == [] || exists g :: g in globs && Matches(g, path)
  }

  ghost predicate Excluded(globs: seq<string>, path: string) {
    exists g :: g in globs && Matches(g, path)
  }

  ghost predicate Selected(includes: seq<string>, excludes: seq<string>, path: string) {
    Included(includes, path) && !Excluded(excludes, path)
  }

  function Path(dir: string, container: string, file: string): string {
    ROOT + dir + "/" + container + "/" + file
  }

  lemma {:induction false} LiteralPrefix(p: string, g: string, s: string)
    requires '*' !in p
    ensures Matches(p + g, p + s) <==> Matches(g, s)
  {
    if p == "" {
      assert p + g == g && p + s == s;
    } else {
      LiteralPrefix(p[1..], g, s);
      assert (p + g)[1..] == p[1..] + g && (p + s)[1..] == p[1..] + s;
    }
  }

  /** A rooted three-component glob matches a log path component by component. */
  lemma PathMatches(d: string, c: string, f: string, dir: string, container: string, file: string)
    requires '/' !in d && '/' !in c && '/' !in dir && '/' !in container
    ensures Matches(ROOT + d + "/" + c + "/" + f, Path(dir, container, file)) <==>
            Matches(d, dir) && Matches(c, container) && Matches(f, file)
  {
    assert ROOT + d + "/" + c + "/" + f == ROOT + (d + "/" + (c + "/" + f));
    assert Path(dir, container, file) == ROOT + (dir + "/" + (container + "/" + file));
    LiteralPrefix(ROOT, d + "/" + (c + "/" + f), dir + "/" + (container + "/" + file));
    MatchesComponent(d, c + "/" + f, dir, container + "/" + file);
    MatchesComponent(c, f, container, file);
  }

  lemma EverythingMatches(dir: string, container: string, file: string)
    requires '/' !in dir && '/' !in container && Matches("*.log", file)
    ensures Matches(EVERYTHING, Path(dir, container, file))
  {
    assert EVERYTHING == ROOT + "*" + "/" + "*" + "/" + "*.log";
    PathMatches("*", "*", "*.log", dir, container, file);
    StarMatches(dir);
    StarMatches(container);
  }

  /** The empty list standing for "everything" keeps the include meaning on log files. */
  lemma IncludeMeaning(globs: set<string>, dir: string, container: string, file: string)
    requires globs != {}
    requires '/' !in dir && '/' !in container && Matches("*.log", file)
    ensures Included(Built(globs), Path(dir, container, file)) <==> MatchesAny(globs, Path(dir, container, file))
  {
    if globs == {EVERYTHING} {
      EverythingMatches(dir, container, file);
      assert EVERYTHING in globs;
    } else {
      ListingEmpty(Listing(globs), globs);
    }
  }

  lemma ExcludeKept(globs: set<string>, path: string)
    ensures globs != {EVERYTHING} ==> (Excluded(Built(globs), path) <==> MatchesAny(globs, path))
  {
  }

  /**
   As an exclude list the built list means what the globs say exactly when they are not "everything" alone: that turns
   into the empty list, which excludes no log file at all.
   */
  lemma ExcludeMeaning(globs: set<string>, dir: string, container: string, file: string)
    requires '/' !in dir && '/' !in container && Matches("*.log", file)
    ensures (Excluded(Built(globs), Path(dir, container, file)) <==> MatchesAny(globs, Path(dir, container, file))) <==> globs != {EVERYTHING}
  {
    if globs == {EVERYTHING} {
      EverythingMatches(dir, container, file);
      assert EVERYTHING in globs;
    } else {
      ExcludeKept(globs, Path(dir, container, file));
    }
  }

  /** What one namespace/container entry selects, `*` standing for a missing part. */
  ghost predicate EntrySelects(n: NamespaceContainer, dir: string, container: string) {
    Matches(NormalizeNamespace(OrStar(n.namespace)), dir) && Matches(OrStar(n.container), container)
  }

  lemma CombinedMatches(n: NamespaceContainer, dir: string, container: string, file: string)
    requires '/' !in n.namespace && '/' !in n.container && '/' !in dir && '/' !in container
    ensures Matches(CombinedPath(Combined(n)), Path(dir, container, file)) <==>
            EntrySelects(n, dir, container) && Matches("*.log", file)
  {
    var d := NormalizeNamespace(OrStar(n.namespace));
    var c := CollapseWildcards(OrStar(n.container));
    CollapseChars(OrStar(n.namespace));
    CollapseChars(OrStar(n.container));
    JoinedPath(ROOT, d, c);
    PathMatches(d, c, "*.log", dir, container, file);
    CollapsePreservesLanguage(OrStar(n.container), container);
  }

  lemma JoinedPath(root: string, d: string, c: string)
    ensures root + (d + "/" + c) + "/*.log" == root + d + "/" + c + "/" + "*.log"
    ensures root + d + "/" + c + "/*.log" == root + d + "/" + c + "/" + "*.log"
  {
    assert "/*.log" == "/" + "*.log";
  }

  lemma NamespaceContainerMatches(d: string, c: string, dir: string, container: string, file: string)
    requires '/' !in d && '/' !in c && '/' !in dir && '/' !in container
    ensures Matches(NamespaceContainerPath(d, c), Path(dir, container, file)) <==>
            Matches(d, dir) && Matches(c, container) && Matches("*.log", file)
  {
    JoinedPath(ROOT, d, c);
    PathMatches(d, c, "*.log", dir, container, file);
  }
}
