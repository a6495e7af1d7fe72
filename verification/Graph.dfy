/** The graph that a generated configuration describes, and walks in it. */
module Graph {
  import opened Components

  ghost predicate Edge(config: Config, a: string, b: string) {
    || (b in config.transforms && a in config.transforms[b].inputs)
    || (b in config.sinks && a in config.sinks[b].inputs)
  }

  /** A path of ids from a source to a sink. */
  ghost predicate IsRoute(config: Config, ids: seq<string>) {
    && |ids| > 0
    && ids[0] in config.sources
    && ids[|ids| - 1] in config.sinks
    && forall k :: 0 < k < |ids| ==> Edge(config, ids[k - 1], ids[k])
  }

  ghost predicate InConfig(config: Config, c: Component) {
    match c.kind
    case SourceNode => c.id in config.sources && config.sources[c.id] == c.node
    case TransformNode => c.id in config.transforms && config.transforms[c.id] == c.node
    case SinkNode => c.id in config.sinks && config.sinks[c.id] == c.node
  }

  ghost predicate DistinctIds(cs: seq<Component>) {
    forall a, b :: 0 <= a < b < |cs| ==> cs[a].id != cs[b].id
  }

  lemma SameIdSameComponent(cs: seq<Component>, x: Component, y: Component)
    requires DistinctIds(cs) && x in cs && y in cs && x.id == y.id
    ensures x == y
  {
    var a :| 0 <= a < |cs| && cs[a] == x;
    var b :| 0 <= b < |cs| && cs[b] == y;
    assert cs[a].id == cs[b].id;
  }

  lemma PutExact(config: Config, last: Component, c: Component)
    ensures InConfig(Put(config, last), c) <==> c == last || (InConfig(config, c) && !(c.id == last.id && c.kind == last.kind))
  {
  }

  /** With distinct ids the map merges lose nothing and invent nothing. */
  lemma {:induction false} AssembleExact(cs: seq<Component>, c: Component)
    requires DistinctIds(cs)
    ensures InConfig(Assemble(cs), c) <==> c in cs
  {
    if cs != [] {
      var init, last := cs[..|cs| - 1], cs[|cs| - 1];
      AssembleExact(init, c);
      PutExact(Assemble(init), last, c);
      assert cs == init + [last];
      if c in init && c.id == last.id {
        SameIdSameComponent(cs, c, last);
      }
    }
  }

  // -------- walks over components

  ghost predicate Linked(cs: seq<Component>, path: seq<Component>) {
    (forall x :: x in path ==> x in cs) && forall k :: 0 < k < |path| ==> path[k - 1].id in path[k].node.inputs
  }

  ghost predicate Walk(cs: seq<Component>, path: seq<Component>) {
    |path| > 0 && path[0].kind == SourceNode && path[|path| - 1].kind == SinkNode && Linked(cs, path)
  }

  function IdsOf(path: seq<Component>): (ids: seq<string>)
    ensures |ids| == |path| && forall k :: 0 <= k < |ids| ==> ids[k] == path[k].id
  {
    seq(|path|, k requires 0 <= k < |path| => path[k].id)
  }

  ghost predicate SourcesReadNothing(cs: seq<Component>) {
    forall x :: x in cs && x.kind == SourceNode ==> x.node.inputs == []
  }

  lemma EdgeExact(cs: seq<Component>, a: string, b: string)
    requires DistinctIds(cs) && SourcesReadNothing(cs)
    ensures Edge(Assemble(cs), a, b) <==> exists y :: y in cs && y.id == b && a in y.node.inputs
  {
    var config := Assemble(cs);
    if Edge(config, a, b) {
      var y := if b in config.transforms && a in config.transforms[b].inputs then Component(TransformNode, b, config.transforms[b])
               else Component(SinkNode, b, config.sinks[b]);
      AssembleExact(cs, y);
      assert y in cs;
    }
    if y :| y in cs && y.id == b && a in y.node.inputs {
      AssembleExact(cs, y);
      hide Assemble;
      assert y.kind != SourceNode;
    }
  }

  /** A walk over components leaves a route of ids in the configuration. */
  lemma WalkIsRoute(cs: seq<Component>, path: seq<Component>)
    requires DistinctIds(cs) && SourcesReadNothing(cs) && Walk(cs, path)
    ensures IsRoute(Assemble(cs), IdsOf(path))
  {
    hide Assemble, Edge;
    AssembleExact(cs, path[0]);
    AssembleExact(cs, path[|path| - 1]);
    forall k | 0 < k < |path| ensures Edge(Assemble(cs), path[k - 1].id, path[k].id) {
      EdgeExact(cs, path[k - 1].id, path[k].id);
    }
  }

  /** The component that an id on a route names. */
  lemma NamedBy(cs: seq<Component>, ids: seq<string>, k: nat) returns (x: Component)
    requires DistinctIds(cs) && SourcesReadNothing(cs) && IsRoute(Assemble(cs), ids) && k < |ids|
    ensures x in cs && x.id == ids[k]
  {
    if k == 0 {
      x := Component(SourceNode, ids[0], Assemble(cs).sources[ids[0]]);
      AssembleExact(cs, x);
    } else {
      EdgeExact(cs, ids[k - 1], ids[k]);
      x :| x in cs && x.id == ids[k] && ids[k - 1] in x.node.inputs;
    }
  }

  ghost predicate Named(cs: seq<Component>, ids: seq<string>) {
    forall k :: 0 <= k < |ids| ==> exists x :: x in cs && x.id == ids[k]
  }

  ghost function ComponentsNamed(cs: seq<Component>, ids: seq<string>): (path: seq<Component>)
    requires Named(cs, ids)
    ensures |path| == |ids| && forall k :: 0 <= k < |path| ==> path[k] in cs && path[k].id == ids[k]
  {
    if ids == [] then [] else
      var x :| x in cs && x.id == ids[0];
      [x] + ComponentsNamed(cs, ids[1..])
  }

  lemma RouteIsWalk(cs: seq<Component>, ids: seq<string>) returns (path: seq<Component>)
    requires DistinctIds(cs) && SourcesReadNothing(cs) && IsRoute(Assemble(cs), ids)
    ensures Walk(cs, path) && ids == IdsOf(path)
  {
    forall k | 0 <= k < |ids| ensures exists x :: x in cs && x.id == ids[k] {
      var x := NamedBy(cs, ids, k);
    }
    path := ComponentsNamed(cs, ids);
    var first := Component(SourceNode, ids[0], Assemble(cs).sources[ids[0]]);
    var last := Component(SinkNode, ids[|ids| - 1], Assemble(cs).sinks[ids[|ids| - 1]]);
    AssembleExact(cs, first);
    AssembleExact(cs, last);
    SameIdSameComponent(cs, path[0], first);
    SameIdSameComponent(cs, path[|path| - 1], last);
    hide Assemble;
    forall k | 0 < k < |path| ensures path[k - 1].id in path[k].node.inputs {
      EdgeExact(cs, ids[k - 1], ids[k]);
      var y :| y in cs && y.id == ids[k] && ids[k - 1] in y.node.inputs;
      SameIdSameComponent(cs, path[k], y);
    }
  }

  // -------- blocks: runs of components in which each reads the one before and nothing else

  ghost predicate IsBlock(cs: seq<Component>, block: seq<Component>) {
    && |block| > 0
    && (forall x :: x in block ==> x in cs)
    && (forall j :: 0 < j < |block| ==> block[j].kind != SourceNode && block[j].node.inputs == [block[j - 1].id])
  }

  /** A path can enter a block only at its start. */
  lemma {:induction false} BlockBackward(cs: seq<Component>, block: seq<Component>, j: nat, path: seq<Component>)
    requires DistinctIds(cs) && IsBlock(cs, block) && j < |block|
    requires |path| > 0 && Linked(cs, path) && path[0].kind == SourceNode && path[|path| - 1] == block[j]
    ensures |path| > j && path[|path| - 1 - j..] == block[..j + 1]
  {
    if j > 0 {
      var last := |path| - 1;
      assert block[j].kind != SourceNode;
      assert path[last - 1].id in path[last].node.inputs;
      assert path[last - 1] in path && block[j - 1] in block;
      SameIdSameComponent(cs, path[last - 1], block[j - 1]);
      BlockBackward(cs, block, j - 1, path[..last]);
      assert path[last - j..last] == block[..j];
      assert path[last - j..] == path[last - j..last] + [path[last]];
      assert block[..j + 1] == block[..j] + [block[j]];
    }
  }

  /** So a path ending at the end of a block is some path followed by the whole block. */
  lemma BlockSuffix(cs: seq<Component>, block: seq<Component>, path: seq<Component>) returns (prefix: seq<Component>)
    requires DistinctIds(cs) && IsBlock(cs, block)
    requires |path| > 0 && Linked(cs, path) && path[0].kind == SourceNode && path[|path| - 1] == block[|block| - 1]
    ensures path == prefix + block && Linked(cs, prefix)
    ensures prefix != [] ==> prefix[0].kind == SourceNode && prefix[|prefix| - 1].id in block[0].node.inputs
    ensures prefix == [] ==> block[0].kind == SourceNode
  {
    BlockBackward(cs, block, |block| - 1, path);
    prefix := path[..|path| - |block|];
    assert block[..|block|] == block;
    assert path == prefix + block;
    if prefix != [] {
      assert path[|prefix|] == block[0] && path[|prefix| - 1] == prefix[|prefix| - 1];
    }
  }

  lemma BlockForward(cs: seq<Component>, prefix: seq<Component>, block: seq<Component>)
    requires Linked(cs, prefix) && IsBlock(cs, block)
    requires prefix != [] ==> prefix[|prefix| - 1].id in block[0].node.inputs
    ensures Linked(cs, prefix + block)
  {
    var path := prefix + block;
    forall k | 0 < k < |path| ensures path[k - 1].id in path[k].node.inputs {
      if k > |prefix| {
        assert path[k] == block[k - |prefix|] && path[k - 1] == block[k - |prefix| - 1];
      }
    }
  }

  lemma BlocksWalk(cs: seq<Component>, a: seq<Component>, b: seq<Component>, c: seq<Component>)
    requires IsBlock(cs, a) && IsBlock(cs, b) && IsBlock(cs, c)
    requires a[|a| - 1].id in b[0].node.inputs && b[|b| - 1].id in c[0].node.inputs
    requires a[0].kind == SourceNode && c[|c| - 1].kind == SinkNode
    ensures Walk(cs, a + b + c)
  {
    BlockForward(cs, [], a);
    assert [] + a == a;
    BlockForward(cs, a, b);
    BlockForward(cs, a + b, c);
  }
}
