/**
 Glob matching over container log paths, and the two rewrites applied to user globs:
 `collapseWildcards` and `normalizeNamespace`.
 A `*` matches any run of characters inside one path component.
 */
module Globs {

  predicate Matches(g: string, s: string)
    decreases |g| + |s|
  {
    if g == "" then s == ""
    else if g[0] == '*' then Matches(g[1..], s) || (s != "" && s[0] != '/' && Matches(g, s[1..]))
    else s != "" && s[0] == g[0] && Matches(g[1..], s[1..])
  }

  function CollapseWildcards(entry: string): string {
    if entry == "" then ""
    else if |entry| > 1 && entry[0] == '*' && entry[1] == '*' then CollapseWildcards(entry[1..])
    else [entry[0]] + CollapseWildcards(entry[1..])
  }

  function NormalizeNamespace(ns: string): string {
    if |ns| == 1 && ns == "*" then ns
    else if '*' !in ns then ns + "_*"
    else CollapseWildcards(ns) + "_*"
  }

  /** A Kubernetes name as it appears in a pod log path (RFC 1123 section 2.1 allows neither '_' nor '/'). */
  predicate IsName(s: string) {
    s != "" && '_' !in s && '/' !in s
  }

  function PodDir(ns: string, pod: string, uid: string): string {
    ns + "_" + pod + "_" + uid
  }

  /** `^[a-zA-Z0-9\*\-]*$`, which input validation asks of every namespace and container glob. */
  predicate ValidGlob(s: string) {
    forall c :: c in s ==> 'a' <= c <= 'z' || 'A' <= c <= 'Z' || '0' <= c <= '9' || c == '*' || c == '-'
  }

  // -------- matching and concatenation

  /** A concatenated glob matches exactly the strings that split into a match of each half. */
  lemma {:induction false} MatchesConcat(g: string, h: string, s: string)
    ensures Matches(g + h, s) <==> exists k :: 0 <= k <= |s| && Matches(g, s[..k]) && Matches(h, s[k..])
    decreases |g| + |s|
  {
    if Matches(g + h, s) {
      var k := MatchesSplit(g, h, s);
    }
    forall k | 0 <= k <= |s| && Matches(g, s[..k]) && Matches(h, s[k..]) ensures Matches(g + h, s) {
      MatchesAppend(g, s[..k], h, s[k..]);
      assert s == s[..k] + s[k..];
    }
  }

  lemma {:induction false} MatchesSplit(g: string, h: string, s: string) returns (k: nat)
    requires Matches(g + h, s)
    ensures k <= |s| && Matches(g, s[..k]) && Matches(h, s[k..])
    decreases |g| + |s|
  {
    if g == "" {
      k := 0;
      assert g + h == h && s[0..] == s;
    } else {
      assert (g + h)[1..] == g[1..] + h;
      if g[0] == '*' && Matches(g[1..] + h, s) {
        k := MatchesSplit(g[1..], h, s);
      } else if g[0] == '*' {
        var j := MatchesSplit(g, h, s[1..]);
        k := j + 1;
        assert s[..k][1..] == s[1..][..j] && s[k..] == s[1..][j..];
      } else {
        var j := MatchesSplit(g[1..], h, s[1..]);
        k := j + 1;
        assert s[..k][1..] == s[1..][..j] && s[k..] == s[1..][j..];
      }
    }
  }

  lemma {:induction false} MatchesAppend(g: string, s: string, h: string, t: string)
    requires Matches(g, s) && Matches(h, t)
    ensures Matches(g + h, s + t)
    decreases |g| + |s|
  {
    if g == "" {
      assert g + h == h && s + t == t;
    } else {
      assert (g + h)[1..] == g[1..] + h;
      if g[0] == '*' && Matches(g[1..], s) {
        MatchesAppend(g[1..], s, h, t);
      } else {
        assert (s + t)[1..] == s[1..] + t;
        MatchesAppend(if g[0] == '*' then g else g[1..], s[1..], h, t);
      }
    }
  }

  lemma {:induction false} StarMatches(s: string)
    ensures Matches("*", s) <==> '/' !in s
  {
    if s != "" {
      StarMatches(s[1..]);
      assert s == [s[0]] + s[1..];
      assert "*"[1..] == "";
    }
  }

  lemma {:induction false} LiteralMatches(g: string, s: string)
    requires '*' !in g
    ensures Matches(g, s) <==> g == s
  {
    if g != "" && s != "" {
      LiteralMatches(g[1..], s[1..]);
      assert g == [g[0]] + g[1..] && s == [s[0]] + s[1..];
    }
  }

  /** A glob without '/' never matches a string with one. */
  lemma {:induction false} NoSlash(g: string, s: string)
    requires '/' !in g && Matches(g, s)
    ensures '/' !in s
    decreases |g| + |s|
  {
    if g != "" && s != "" {
      if g[0] == '*' && Matches(g[1..], s) {
        NoSlash(g[1..], s);
      } else {
        NoSlash(if g[0] == '*' then g else g[1..], s[1..]);
        assert s == [s[0]] + s[1..];
      }
    }
  }

  /** A path glob matches component by component. */
  lemma MatchesComponent(g: string, rest: string, s: string, t: string)
    requires '/' !in g && '/' !in s
    ensures Matches(g + "/" + rest, s + "/" + t) <==> Matches(g, s) && Matches(rest, t)
  {
    var path := s + "/" + t;
    if Matches(g + "/" + rest, path) {
      assert g + "/" + rest == g + ("/" + rest);
      var k := MatchesSplit(g, "/" + rest, path);
      NoSlash(g, path[..k]);
      assert path[k] == '/';
      assert path[|s|] == '/';
      FirstSlash(s, t, k);
      assert path[..k] == s && path[k..][1..] == t;
      assert ("/" + rest)[1..] == rest;
    }
    if Matches(g, s) && Matches(rest, t) {
      LiteralMatches("/", "/");
      MatchesAppend("/", "/", rest, t);
      MatchesAppend(g, s, "/" + rest, "/" + t);
      assert g + "/" + rest == g + ("/" + rest) && path == s + ("/" + t);
    }
  }

  lemma FirstSlash(s: string, t: string, k: nat)
    requires '/' !in s && k < |s + "/" + t| && (s + "/" + t)[k] == '/' && '/' !in (s + "/" + t)[..k]
    ensures k == |s|
  {
    var path := s + "/" + t;
    assert forall j :: 0 <= j < |s| ==> path[j] == s[j];
    assert forall j :: 0 <= j < k ==> path[j] == path[..k][j];
    assert path[|s|] == '/';
  }

  // -------- collapseWildcards

  /** Collapsing runs of wildcards keeps the matched language. */
  lemma {:induction false} CollapsePreservesLanguage(g: string, s: string)
    ensures Matches(CollapseWildcards(g), s) <==> Matches(g, s)
    decreases |g|, |s|
  {
    if |g| > 1 && g[0] == '*' && g[1] == '*' {
      CollapsePreservesLanguage(g[1..], s);
      DoubleStar(g, s);
    } else if g != "" {
      CollapsePreservesLanguage(g[1..], s);
      if s != "" {
        CollapsePreservesLanguage(g[1..], s[1..]);
        CollapsePreservesLanguage(g, s[1..]);
      }
      assert CollapseWildcards(g)[1..] == CollapseWildcards(g[1..]);
    }
  }

  lemma {:induction false} DoubleStar(g: string, s: string)
    requires |g| > 1 && g[0] == '*' && g[1] == '*'
    ensures Matches(g, s) <==> Matches(g[1..], s)
    decreases |s|
  {
    if s != "" {
      DoubleStar(g, s[1..]);
    }
  }

  /** No two wildcards stay adjacent, so collapsing twice changes nothing. */
  lemma {:induction false} CollapseIdempotent(g: string)
    ensures CollapseWildcards(CollapseWildcards(g)) == CollapseWildcards(g)
    ensures g != "" ==> CollapseWildcards(g) != "" && CollapseWildcards(g)[0] == g[0]
  {
    if g != "" {
      CollapseIdempotent(g[1..]);
      var c := CollapseWildcards(g);
      if !(|g| > 1 && g[0] == '*' && g[1] == '*') {
        assert c[1..] == CollapseWildcards(g[1..]);
        assert |g| > 1 ==> c[1] == g[1];
      }
    }
  }

  lemma {:induction false} CollapseChars(g: string)
    ensures forall c :: c in CollapseWildcards(g) <==> c in g
  {
    if g != "" {
      CollapseChars(g[1..]);
      assert g == [g[0]] + g[1..];
      assert |g| > 1 ==> g[1] in g[1..];
    }
  }

  lemma {:induction false} CollapseLiteral(g: string)
    requires '*' !in g
    ensures CollapseWildcards(g) == g
  {
    if g != "" {
      CollapseLiteral(g[1..]);
    }
  }

  // -------- normalizeNamespace

  lemma NormalizedNoSlash(g: string)
    requires '/' !in g
    ensures '/' !in NormalizeNamespace(g)
  {
    CollapseChars(g);
  }

  lemma NormalizedMatches(g: string, s: string)
    requires g != "*"
    ensures Matches(NormalizeNamespace(g), s) <==>
            exists k :: 0 <= k < |s| && s[k] == '_' && Matches(g, s[..k]) && '/' !in s[k + 1..]
  {
    var c := CollapseWildcards(g);
    if '*' !in g { CollapseLiteral(g); }
    assert NormalizeNamespace(g) == c + "_*";
    MatchesConcat(c, "_*", s);
    forall k | 0 <= k <= |s|
      ensures Matches("_*", s[k..]) <==> k < |s| && s[k] == '_' && '/' !in s[k + 1..]
    {
      assert "_*"[1..] == "*";
      if k < |s| {
        assert s[k..][1..] == s[k + 1..];
        StarMatches(s[k + 1..]);
      }
    }
    forall k | 0 <= k <= |s| ensures Matches(c, s[..k]) <==> Matches(g, s[..k]) {
      CollapsePreservesLanguage(g, s[..k]);
    }
  }

  lemma PodDirUnderscores(ns: string, pod: string, uid: string, k: nat)
    requires IsName(ns) && IsName(pod) && IsName(uid) && k < |PodDir(ns, pod, uid)|
    ensures PodDir(ns, pod, uid)[k] == '_' <==> k == |ns| || k == |ns| + 1 + |pod|
    ensures '/' !in PodDir(ns, pod, uid)
    ensures PodDir(ns, pod, uid)[..|ns|] == ns
    ensures PodDir(ns, pod, uid)[..|ns| + 1 + |pod|] == ns + "_" + pod
  {
    var d := PodDir(ns, pod, uid);
    assert k < |ns| ==> d[k] == ns[k];
    assert |ns| < k < |ns| + 1 + |pod| ==> d[k] == pod[k - |ns| - 1];
    assert |ns| + 1 + |pod| < k ==> d[k] == uid[k - |ns| - |pod| - 2];
    assert forall c :: c in d ==> c in ns || c == '_' || c in pod || c in uid;
  }

  /**
   What a normalized namespace glob selects, for every glob: the pod directories whose namespace matches,
   and also those where the glob runs on across the separator into the pod name.
   */
  lemma NamespaceGlobIff(g: string, ns: string, pod: string, uid: string)
    requires IsName(ns) && IsName(pod) && IsName(uid)
    ensures Matches(NormalizeNamespace(g), PodDir(ns, pod, uid)) <==>
            Matches(g, ns) || Matches(g, ns + "_" + pod)
  {
    var d := PodDir(ns, pod, uid);
    forall k | 0 <= k < |d|
      ensures d[k] == '_' <==> k == |ns| || k == |ns| + 1 + |pod|
    {
      PodDirUnderscores(ns, pod, uid, k);
    }
    PodDirUnderscores(ns, pod, uid, 0);
    if g == "*" {
      StarMatches(d);
      StarMatches(ns);
    } else {
      NormalizedMatches(g, d);
      assert '/' !in d[|ns| + 1..] && '/' !in d[|ns| + 1 + |pod| + 1..];
      assert d[|ns|] == '_' && d[|ns| + 1 + |pod|] == '_';
    }
  }

  /** The glob selects by namespace alone. */
  ghost predicate Exact(g: string) {
    forall ns, pod, uid :: IsName(ns) && IsName(pod) && IsName(uid) ==>
      (Matches(NormalizeNamespace(g), PodDir(ns, pod, uid)) <==> Matches(g, ns))
  }

  /** Wildcard-free, or wildcards at the end only. */
  predicate TrailingWildcardsOnly(g: string) {
    if g == "" then true
    else if g[0] == '*' then forall c :: c in g ==> c == '*'
    else TrailingWildcardsOnly(g[1..])
  }

  function Literals(g: string): string {
    if g == "" then ""
    else if g[0] == '*' then Literals(g[1..])
    else [g[0]] + Literals(g[1..])
  }

  lemma {:induction false} LiteralsAreMatched(g: string, s: string)
    requires Matches(g, s)
    ensures |Literals(g)| <= |s|
    ensures forall c :: c in Literals(g) ==> c in s
    decreases |g| + |s|
  {
    if g != "" {
      if g[0] == '*' && Matches(g[1..], s) {
        LiteralsAreMatched(g[1..], s);
      } else {
        assert s == [s[0]] + s[1..];
        LiteralsAreMatched(if g[0] == '*' then g else g[1..], s[1..]);
      }
    }
  }

  lemma {:induction false} LiteralsMatch(g: string)
    ensures Matches(g, Literals(g))
    ensures forall c :: c in Literals(g) ==> c in g && c != '*'
  {
    if g != "" {
      LiteralsMatch(g[1..]);
      assert g == [g[0]] + g[1..];
      if g[0] != '*' {
        assert Literals(g)[1..] == Literals(g[1..]);
      }
    }
  }

  /** With trailing wildcards only, a match of `ns_pod` is already a match of `ns`. */
  lemma {:induction false} TrailingStaysInNamespace(g: string, ns: string, pod: string)
    requires TrailingWildcardsOnly(g) && '_' !in g && '/' !in ns
    requires Matches(g, ns + "_" + pod)
    ensures Matches(g, ns)
  {
    if g[0] == '*' {
      AllStars(g, ns);
    } else {
      var s := ns + "_" + pod;
      assert g[0] in g;
      assert s[0] == if ns == "" then '_' else ns[0];
      assert s[1..] == ns[1..] + "_" + pod;
      TrailingStaysInNamespace(g[1..], ns[1..], pod);
    }
  }

  lemma {:induction false} AllStars(g: string, s: string)
    requires g != "" && (forall c :: c in g ==> c == '*') && '/' !in s
    ensures Matches(g, s)
    decreases |g|, |s|
  {
    assert g[0] in g;
    assert forall c :: c in g[1..] ==> c in g;
    if s != "" {
      AllStars(g, s[1..]);
    } else if |g| > 1 {
      AllStars(g[1..], s);
    }
  }

  /** Splits a glob at its first wildcard that has a literal somewhere behind it. */
  lemma {:induction false} InnerWildcard(g: string) returns (p: string, r: string)
    requires !TrailingWildcardsOnly(g)
    ensures g == p + "*" + r && '*' !in p && Literals(r) != "" && Literals(g) == p + Literals(r)
  {
    if g[0] == '*' {
      p, r := "", g[1..];
      assert g == "*" + r;
      if Literals(r) == "" { NoLiterals(r); }
    } else {
      p, r := InnerWildcard(g[1..]);
      p := [g[0]] + p;
      assert g == [g[0]] + g[1..];
    }
  }

  lemma {:induction false} NoLiterals(g: string)
    requires Literals(g) == ""
    ensures forall c :: c in g ==> c == '*'
  {
    if g != "" {
      NoLiterals(g[1..]);
      assert g == [g[0]] + g[1..];
    }
  }

  /** A wildcard followed by a literal reaches across the separator for some pod. */
  lemma InnerWildcardLeaks(g: string) returns (ns: string, pod: string)
    requires !TrailingWildcardsOnly(g) && '_' !in g && '/' !in g
    ensures IsName(ns) && IsName(pod) && Matches(g, ns + "_" + pod) && !Matches(g, ns)
  {
    hide Matches, Literals;
    var p, r := InnerWildcard(g);
    LiteralsMatch(r);
    pod := Literals(r);
    assert forall c :: c in r || c in p ==> c in g;
    ns := if p != "" then p else if pod[0] == 'a' then "b" else "a";
    var between := if p != "" then "_" else ns + "_";
    StarMatches(between);
    LiteralMatches(p, p);
    MatchesAppend("*", between, r, pod);
    MatchesAppend(p, p, "*" + r, between + pod);
    assert g == p + ("*" + r) && ns + "_" + pod == p + (between + pod);
    assert p == "" ==> pod[0] in Literals(g);
    LiteralsRequired(g, ns);
  }

  lemma LiteralsRequired(g: string, s: string)
    ensures (|s| < |Literals(g)| || exists c :: c in Literals(g) && c !in s) ==> !Matches(g, s)
  {
    if Matches(g, s) {
      LiteralsAreMatched(g, s);
    }
  }

  /** A validated namespace glob selects by namespace alone exactly when its wildcards are all trailing. */
  lemma NamespaceGlobExactIff(g: string)
    requires '_' !in g && '/' !in g
    ensures Exact(g) <==> TrailingWildcardsOnly(g)
  {
    if TrailingWildcardsOnly(g) {
      forall ns, pod, uid | IsName(ns) && IsName(pod) && IsName(uid)
        ensures Matches(NormalizeNamespace(g), PodDir(ns, pod, uid)) <==> Matches(g, ns)
      {
        NamespaceGlobIff(g, ns, pod, uid);
        if Matches(g, ns + "_" + pod) {
          TrailingStaysInNamespace(g, ns, pod);
        }
      }
    } else {
      var ns, pod := InnerWildcardLeaks(g);
      NamespaceGlobIff(g, ns, pod, "u");
      assert IsName("u");
    }
  }
}
