/** Names that clash and classes of names that cannot. */
module Clashes {
  import opened Ids
  import opened Api
  import opened Components
  import opened Graph
  import opened Suffixes
  import opened Distinctness
  import opened Routes

  // -------- clashes

  lemma DashSpelled(a: string, b: string)
    ensures Format(a + "-" + b) == Format(a) + "_" + Format(b)
  {
    FormatConcat(a + "-", b);
    FormatConcat(a, "-");
    assert Format("-") == "_";
  }

  /** A container source and a receiver of the API's own kind of names: one of the two sources is lost. */
  lemma ContainerMeetsReceiver(spec: ForwarderSpec)
    requires AllResolve(spec)
    requires "aa" in InputMap(spec.inputs) && InputMap(spec.inputs)["aa"].kind == Application
    requires "aa-container" in InputMap(spec.inputs) && HasReceiver(InputMap(spec.inputs)["aa-container"])
    ensures !DistinctIds(AllComponents(spec))
  {
    hide DistinctIds, AllComponents, InputMap, InputSuffixes;
    assert "aa" + "-" + Token(Container) == "aa-container";
    ReceiverDashed(spec, "aa", "aa-container", Container);
  }

  lemma ReceiverDashed(spec: ForwarderSpec, m: string, n: string, p: Part)
    requires AllResolve(spec) && m in InputMap(spec.inputs) && n in InputMap(spec.inputs) && n == m + "-" + Token(p)
    requires p in Purposes(InputMap(spec.inputs)[m]) && !HasReceiver(InputMap(spec.inputs)[m]) && HasReceiver(InputMap(spec.inputs)[n])
    ensures !DistinctIds(AllComponents(spec))
  {
    hide DistinctIds, AllComponents, InputMap, InputsClash, Purposes;
    IdsDistinctIff(spec);
    InputMapKeys(spec.inputs);
    NamesOfReceiver(InputMap(spec.inputs)[m], InputMap(spec.inputs)[n], p);
    assert |n| > |m|;
  }

  lemma NamesOfReceiver(a: InputSpec, b: InputSpec, p: Part)
    requires p in Purposes(a) && !HasReceiver(a) && HasReceiver(b) && b.name == a.name + "-" + Token(p)
    ensures InputsClash(a, b)
  {
    hide Format, Token, Purposes, Under;
    SuffixMember(Purposes(a), Throttled(a), [p]);
    assert [p] in PurposeSuffixes(p, Throttled(a));
    DashSpelled(a.name, Token(p));
    TokenClean(p);
    CleanFormat(Token(p));
    UnderOne(Format(a.name), p);
  }

  /** So is the throttle of a limited output, or the sink named like it, out of reach by its id. */
  lemma ThrottleMeetsSink(spec: ForwarderSpec)
    requires AllResolve(spec)
    requires "xx" in OutputMap(spec.outputs) && Limited(OutputMap(spec.outputs)["xx"])
    requires "xx-throttle" in OutputMap(spec.outputs)
    ensures !DistinctIds(AllComponents(spec))
  {
    hide DistinctIds, AllComponents, OutputMap;
    assert "xx" + "-" + Token(Throttle) == "xx-throttle";
    SinkDashed(spec, "xx", "xx-throttle");
  }

  lemma SinkDashed(spec: ForwarderSpec, m: string, n: string)
    requires AllResolve(spec) && m in OutputMap(spec.outputs) && n in OutputMap(spec.outputs) && n == m + "-" + Token(Throttle)
    requires Limited(OutputMap(spec.outputs)[m])
    ensures !DistinctIds(AllComponents(spec))
  {
    hide DistinctIds, AllComponents, OutputMap, Format;
    IdsDistinctIff(spec);
    OutputMapKeys(spec.outputs);
    DashSpelled(m, Token(Throttle));
    TokenClean(Throttle);
    CleanFormat(Token(Throttle));
    UnderOne(Format(m), Throttle);
    hide Token, Under;
    assert |n| > |m|;
    assert NamedAsThrottle(OutputMap(spec.outputs)[m], OutputMap(spec.outputs)[n]);
  }

  /** Pipelines that run the same filters clash exactly when their names format alike. */
  lemma SameFiltersClashIff(spec: ForwarderSpec, i: nat, j: nat)
    requires i < |spec.pipelines| && j < |spec.pipelines| && RunningRefs(spec, i) == RunningRefs(spec, j)
    ensures PipelinesClash(spec, i, j) <==>
            Format(PipelineName(spec.pipelines[i], i)) == Format(PipelineName(spec.pipelines[j], j))
  {
    var p, q, refs := PipelineName(spec.pipelines[i], i), PipelineName(spec.pipelines[j], j), RunningRefs(spec, i);
    assert |refs| > 0;
    hide Format, PipelineName, RunningRefs;
    forall k | 0 <= k < |refs| ensures Format(p + "_" + refs[k]) == Format(q + "_" + refs[k]) <==> Format(p) == Format(q) {
      FormatPair(p, refs[k]);
      FormatPair(q, refs[k]);
      SameBefore(Format(p), Format(q), "_" + Format(refs[k]));
      assert Format(p) + "_" + Format(refs[k]) == Format(p) + ("_" + Format(refs[k]));
      assert Format(q) + "_" + Format(refs[k]) == Format(q) + ("_" + Format(refs[k]));
    }
    assert Format(p + "_" + refs[0]) == Format(q + "_" + refs[0]) <==> Format(p) == Format(q);
  }

  lemma SameBefore(a: string, b: string, t: string)
    ensures a + t == b + t <==> a == b
  {
    if a + t == b + t {
      assert |a| == |b| && (a + t)[..|a|] == a && (b + t)[..|b|] == b;
    }
  }

  // -------- names that cannot clash

  /** Neither formatted name, followed by an underscore, starts the other one. */
  predicate Apart(a: string, b: string) {
    !(a + "_" <= b + "_") && !(b + "_" <= a + "_")
  }

  lemma {:induction false} UnderExtends(base: string, parts: seq<Part>)
    ensures base + "_" <= Under(base, parts) + "_"
  {
    if parts != [] {
      UnderExtends(base, parts[..|parts| - 1]);
      var shorter := Under(base, parts[..|parts| - 1]) + "_";
      assert Under(base, parts) + "_" == shorter + Token(parts[|parts| - 1]) + "_";
      assert (base + "_") == shorter[..|base| + 1];
    }
  }

  lemma ApartInputs(a: InputSpec, b: InputSpec)
    requires Apart(Format(a.name), Format(b.name))
    ensures !InputsClash(a, b)
  {
    hide InputSuffixes, Under, Format;
    if NamedAfter(a, b) {
      var s :| s in InputSuffixes(a) && Format(b.name) == Under(Format(a.name), s);
      UnderExtends(Format(a.name), s);
    }
    if NamedAfter(b, a) {
      var s :| s in InputSuffixes(b) && Format(a.name) == Under(Format(b.name), s);
      UnderExtends(Format(b.name), s);
    }
  }

  lemma ApartOutputs(o: OutputSpec, p: OutputSpec)
    requires Apart(Format(o.name), Format(p.name))
    ensures !OutputsClash(o, p)
  {
    hide Format;
    UnderExtends(Format(o.name), [Throttle]);
    UnderExtends(Format(p.name), [Throttle]);
  }

  lemma ApartPipelines(spec: ForwarderSpec, i: nat, j: nat)
    requires i < |spec.pipelines| && j < |spec.pipelines|
    requires Apart(Format(PipelineName(spec.pipelines[i], i)), Format(PipelineName(spec.pipelines[j], j)))
    ensures !PipelinesClash(spec, i, j)
  {
    var p, q := PipelineName(spec.pipelines[i], i), PipelineName(spec.pipelines[j], j);
    var rs, ts := RunningRefs(spec, i), RunningRefs(spec, j);
    hide Format, PipelineName, RunningRefs, Apart;
    forall k | 0 <= k < |rs| && k < |ts| ensures Format(p + "_" + rs[k]) != Format(q + "_" + ts[k]) {
      ApartSpelling(p, rs[k], q, ts[k]);
    }
  }

  lemma ApartSpelling(p: string, r: string, q: string, t: string)
    requires Apart(Format(p), Format(q))
    ensures Format(p + "_" + r) != Format(q + "_" + t)
  {
    FormatPair(p, r);
    FormatPair(q, t);
    hide Format;
    if Format(p + "_" + r) == Format(q + "_" + t) {
      PrefixesNest(Format(p) + "_", Format(q) + "_", Format(p + "_" + r));
    }
  }

  lemma PrefixesNest(a: string, b: string, s: string)
    requires a <= s && b <= s
    ensures a <= b || b <= a
  {
    assert a == s[..|a|] && b == s[..|b|];
    if |a| <= |b| {
      assert b[..|a|] == a;
    } else {
      assert a[..|b|] == b;
    }
  }

  ghost predicate SeparateNames(names: set<string>) {
    forall a, b :: a in names && b in names && a != b ==> Apart(Format(a), Format(b))
  }

  ghost predicate SeparatePipelines(pipelines: seq<PipelineSpec>) {
    forall i, j :: 0 <= i < j < |pipelines| ==> Apart(Format(PipelineName(pipelines[i], i)), Format(PipelineName(pipelines[j], j)))
  }

  /** Names kept apart give every component an id of its own, whatever the filters are called. */
  lemma SeparateNamesDistinctIds(spec: ForwarderSpec)
    requires AllResolve(spec)
    requires SeparateNames(InputMap(spec.inputs).Keys) && SeparateNames(OutputMap(spec.outputs).Keys)
    requires SeparatePipelines(spec.pipelines)
    ensures DistinctIds(AllComponents(spec))
  {
    var inputs, outputs, indexes := InputMap(spec.inputs), OutputMap(spec.outputs), PipelineIndexes(spec.pipelines);
    hide DistinctIds, AllComponents, Format, Apart, InputsClash, OutputsClash, PipelinesClash, PipelineName, InputMap, OutputMap, PipelineIndexes;
    IdsDistinctIff(spec);
    InputMapKeys(spec.inputs);
    OutputMapKeys(spec.outputs);
    PipelineIndexesInRange(spec.pipelines);
    forall m, n | m in inputs && n in inputs && m != n ensures !InputsClash(inputs[m], inputs[n]) {
      ApartInputs(inputs[m], inputs[n]);
    }
    forall m, n | m in outputs && n in outputs && m != n ensures !OutputsClash(outputs[m], outputs[n]) {
      ApartOutputs(outputs[m], outputs[n]);
    }
    forall m, n | m in indexes && n in indexes && m != n ensures !PipelinesClash(spec, indexes[m], indexes[n]) {
      PipelineIndexRange(spec.pipelines, m);
      PipelineIndexRange(spec.pipelines, n);
      ApartSymmetric(spec.pipelines, indexes[m], indexes[n]);
      ApartPipelines(spec, indexes[m], indexes[n]);
    }
  }

  lemma ApartSymmetric(pipelines: seq<PipelineSpec>, i: nat, j: nat)
    requires SeparatePipelines(pipelines) && i < |pipelines| && j < |pipelines| && i != j
    ensures Apart(Format(PipelineName(pipelines[i], i)), Format(PipelineName(pipelines[j], j)))
  {
    hide Format, PipelineName;
  }

  /** Distinct tokens without an underscore are apart. */
  lemma TokensApart(a: string, b: string)
    requires '_' !in a && '_' !in b && a != b
    ensures Apart(a, b)
  {
    if a + "_" <= b + "_" {
      HeadUnique(a, b, b + "_");
    }
    if b + "_" <= a + "_" {
      HeadUnique(a, b, a + "_");
    }
  }

  /** Names without dashes, dots, blanks, capitals or underscores are kept apart as soon as they differ. */
  lemma CleanNamesSeparate(a: string, b: string)
    requires Clean(a) && Clean(b) && a != b
    ensures Apart(Format(a), Format(b))
  {
    CleanFormat(a);
    CleanFormat(b);
    TokensApart(a, b);
  }

  /** The names of a spec, none of which formatting changes and no two of which are equal within their list. */
  ghost predicate CleanNames(spec: ForwarderSpec) {
    && (forall i :: i in spec.inputs ==> Clean(i.name))
    && (forall o :: o in spec.outputs ==> Clean(o.name))
    && (forall p :: p in spec.pipelines ==> p.name != "" && Clean(p.name))
    && UniquePipelines(spec)
  }

  lemma CleanNamesDistinctIds(spec: ForwarderSpec)
    requires AllResolve(spec) && CleanNames(spec)
    ensures DistinctIds(AllComponents(spec))
  {
    hide AllComponents, DistinctIds, Apart, Format, Clean, InputMap, OutputMap;
    InputMapKeys(spec.inputs);
    OutputMapKeys(spec.outputs);
    forall a, b | a in InputMap(spec.inputs) && b in InputMap(spec.inputs) && a != b ensures Apart(Format(a), Format(b)) {
      CleanNamesSeparate(a, b);
    }
    forall a, b | a in OutputMap(spec.outputs) && b in OutputMap(spec.outputs) && a != b ensures Apart(Format(a), Format(b)) {
      CleanNamesSeparate(a, b);
    }
    forall i, j | 0 <= i < j < |spec.pipelines|
      ensures Apart(Format(PipelineName(spec.pipelines[i], i)), Format(PipelineName(spec.pipelines[j], j)))
    {
      CleanNamesSeparate(spec.pipelines[i].name, spec.pipelines[j].name);
    }
    SeparateNamesDistinctIds(spec);
  }
}
